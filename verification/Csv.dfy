/** The CSV files of product imports: the printer of the result file and the parser of uploads
    (RFC 4180, section 2). */
module Csv {
  import opened Outcomes
  import opened Text

  type Matrix = seq<seq<string>>

  // ----- Printing -----

  predicate StartsFormula(text: string) {
    text != "" && (text[0] == '=' || text[0] == '+' || text[0] == '-' || text[0] == '@')
  }

  /** A text a spreadsheet would run is preceded by an apostrophe. */
  function Safe(text: string): string {
    if StartsFormula(text) then "'" + text else text
  }

  function Doubled(text: string): string {
    if text == "" then "" else (if text[0] == '"' then "\"\"" else [text[0]]) + Doubled(text[1..])
  }

  function CsvCell(text: string): string {
    "\"" + Doubled(Safe(text)) + "\""
  }

  function PrintRow(row: seq<string>): string {
    if row == [] then "" else if |row| == 1 then CsvCell(row[0]) else CsvCell(row[0]) + "," + PrintRow(row[1..])
  }

  /** Each row on a line of its own, every line ended. */
  function PrintRows(rows: Matrix): string {
    if rows == [] then "" else PrintRow(rows[0]) + "\r\n" + PrintRows(rows[1..])
  }

  const ByteOrderMark: string := "\U{FEFF}"

  /** The columns of the result file, printed without quotes. */
  const ResultHeader: seq<string> := ["row", "action", "sku", "name", "result"]
  const HeaderLine := "row,action,sku,name,result"

  function ResultFile(rows: Matrix): string {
    ByteOrderMark + HeaderLine + "\r\n" + PrintRows(rows)
  }

  // ----- Parsing -----

  /** What the parser holds while it reads. */
  datatype Reading = Reading(rows: Matrix, row: seq<string>, field: string, quoted: bool)

  const Start := Reading([], [], "", false)

  predicate SomeFilled(row: seq<string>) {
    exists i :: 0 <= i < |row| && row[i] != ""
  }

  function EndField(r: Reading): Reading {
    r.(row := r.row + [Trim(r.field)], field := "")
  }

  /** A row without a filled field is dropped. */
  function EndRow(r: Reading): Reading {
    var ended := EndField(r);
    ended.(rows := if SomeFilled(ended.row) then ended.rows + [ended.row] else ended.rows, row := [])
  }

  function Scan(s: string, r: Reading): Result<Matrix>
    decreases |s|
  {
    if s == "" then
      if r.quoted then Err(UnclosedQuote) else Ok(EndRow(r).rows)
    else if s[0] == '"' then
      if r.quoted && |s| > 1 && s[1] == '"' then Scan(s[2..], r.(field := r.field + "\"")) else Scan(s[1..], r.(quoted := !r.quoted))
    else if s[0] == ',' && !r.quoted then Scan(s[1..], EndField(r))
    else if (s[0] == '\r' || s[0] == '\n') && !r.quoted then
      if s[0] == '\r' && |s| > 1 && s[1] == '\n' then Scan(s[2..], EndRow(r)) else Scan(s[1..], EndRow(r))
    else Scan(s[1..], r.(field := r.field + [s[0]]))
  }

  function WithoutMark(text: string): string {
    if text != "" && text[0] == '\U{FEFF}' then text[1..] else text
  }

  function Parse(text: string): Result<Matrix> {
    Scan(WithoutMark(text), Start)
  }

  /** The parser's loop over the characters. */
  method ParseCsv(text: string) returns (result: Result<Matrix>)
    ensures result == Parse(text)
  {
    hide Trim, SomeFilled;
    var content := WithoutMark(text);
    var rows: Matrix, row: seq<string>, field: string, quoted := [], [], "", false;
    var i := 0;
    assert content[0..] == content;
    while i < |content|
      invariant i <= |content|
      invariant Scan(content, Start) == Scan(content[i..], Reading(rows, row, field, quoted))
    {
      var c := content[i];
      Unfolded(content, i);
      if c == '"' {
        if quoted && i + 1 < |content| && content[i + 1] == '"' {
          field := field + "\"";
          i := i + 1;
        } else {
          quoted := !quoted;
        }
      } else if c == ',' && !quoted {
        row, field := row + [Trim(field)], "";
      } else if (c == '\r' || c == '\n') && !quoted {
        if c == '\r' && i + 1 < |content| && content[i + 1] == '\n' {
          i := i + 1;
        }
        row := row + [Trim(field)];
        if SomeFilled(row) {
          rows := rows + [row];
        }
        row, field := [], "";
      } else {
        field := field + [c];
      }
      i := i + 1;
    }
    if quoted {
      return Err(UnclosedQuote);
    }
    row := row + [Trim(field)];
    if SomeFilled(row) {
      rows := rows + [row];
    }
    return Ok(rows);
  }

  lemma Unfolded(content: string, i: nat)
    requires i < |content|
    ensures content[i..] != "" && content[i..][0] == content[i] && content[i..][1..] == content[i + 1..]
    ensures i + 1 < |content| ==> |content[i..]| > 1 && content[i..][1] == content[i + 1] && content[i..][2..] == content[i + 2..]
    ensures i + 1 == |content| ==> |content[i..]| == 1
  {
  }
}
