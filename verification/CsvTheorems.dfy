/** What parsing a printed file gives back, for every matrix, and exactly when it is the matrix. */
module CsvTheorems {
  import opened Outcomes
  import opened Text
  import opened Csv

  // ----- What the parser makes of a printed matrix -----

  /** A printed cell comes back safe and trimmed. */
  function Cleaned(row: seq<string>): (r: seq<string>)
    ensures |r| == |row|
  {
    seq(|row|, i requires 0 <= i < |row| => Trim(Safe(row[i])))
  }

  /** The rows that hold something, cleaned. */
  function Kept(rows: Matrix): Matrix {
    if rows == [] then []
    else (if SomeFilled(Cleaned(rows[0])) then [Cleaned(rows[0])] else []) + Kept(rows[1..])
  }

  lemma ScanLiteral(c: char, tail: string, r: Reading)
    requires r.quoted && c != '"'
    ensures Scan([c] + tail, r) == Scan(tail, r.(field := r.field + [c]))
  {
    hide EndRow, EndField;
    assert ([c] + tail)[1..] == tail;
  }

  lemma ScanQuote(tail: string, r: Reading)
    requires r.quoted
    ensures Scan("\"\"" + tail, r) == Scan(tail, r.(field := r.field + "\""))
  {
    hide EndRow, EndField;
    assert ("\"\"" + tail)[2..] == tail;
  }

  /** Inside quotes every character is literal. */
  lemma {:induction false} ScanDoubled(text: string, rest: string, r: Reading)
    requires r.quoted
    ensures Scan(Doubled(text) + "\"" + rest, r) == Scan("\"" + rest, r.(field := r.field + text))
  {
    hide Scan;
    if text == "" {
      assert Doubled(text) + "\"" + rest == "\"" + rest;
      assert r.field + text == r.field;
    } else {
      var tail := Doubled(text[1..]) + "\"" + rest;
      var next := r.(field := r.field + [text[0]]);
      ScanDoubled(text[1..], rest, next);
      assert next.field + text[1..] == r.field + text;
      if text[0] == '"' {
        assert Doubled(text) + "\"" + rest == "\"\"" + tail;
        ScanQuote(tail, r);
      } else {
        assert Doubled(text) + "\"" + rest == [text[0]] + tail;
        ScanLiteral(text[0], tail, r);
      }
    }
  }

  /** A printed cell is read as one field. */
  lemma ScanCell(text: string, rest: string, r: Reading)
    requires !r.quoted && r.field == "" && (rest == "" || rest[0] != '"')
    ensures Scan(CsvCell(text) + rest, r) == Scan(rest, r.(field := Safe(text)))
  {
    hide Doubled, Safe;
    var s := CsvCell(text) + rest;
    var inside := r.(quoted := true);
    assert s[1..] == Doubled(Safe(text)) + "\"" + rest;
    ScanDoubled(Safe(text), rest, inside);
    assert inside.field + Safe(text) == Safe(text);
    var closed := "\"" + rest;
    assert closed[1..] == rest;
    assert inside.(field := Safe(text)).(quoted := false) == r.(field := Safe(text));
  }

  lemma ScanComma(tail: string, r: Reading)
    requires !r.quoted
    ensures Scan("," + tail, r) == Scan(tail, EndField(r))
  {
    hide EndField, EndRow;
    assert ("," + tail)[1..] == tail;
  }

  /** A printed row is read as its cleaned fields, the last one still open. */
  lemma {:induction false} ScanRow(row: seq<string>, rest: string, r: Reading)
    requires !r.quoted && r.field == "" && row != [] && (rest == "" || rest[0] != '"')
    ensures Scan(PrintRow(row) + rest, r)
            == Scan(rest, r.(row := r.row + Cleaned(row)[..|row| - 1], field := Safe(row[|row| - 1])))
  {
    hide CsvCell, Safe, Trim, EndRow, Scan;
    if |row| == 1 {
      ScanCell(row[0], rest, r);
      assert r.row + Cleaned(row)[..0] == r.row;
    } else {
      var tail := "," + (PrintRow(row[1..]) + rest);
      assert PrintRow(row) + rest == CsvCell(row[0]) + tail;
      ScanCell(row[0], tail, r);
      var read := r.(field := Safe(row[0]));
      ScanComma(PrintRow(row[1..]) + rest, read);
      ScanRow(row[1..], rest, EndField(read));
      assert EndField(read).row + Cleaned(row[1..])[..|row| - 2] == r.row + Cleaned(row)[..|row| - 1];
    }
  }

  lemma NothingFilled(row: seq<string>)
    requires |row| == 1 && row[0] == ""
    ensures !SomeFilled(row)
  {
  }

  /** A printed row and its line end are read as the cleaned row, unless nothing is filled. */
  lemma ScanLine(row: seq<string>, rest: string, r: Reading)
    requires r == Reading(r.rows, [], "", false)
    ensures Scan(PrintRow(row) + "\r\n" + rest, r)
            == Scan(rest, Reading(r.rows + (if SomeFilled(Cleaned(row)) then [Cleaned(row)] else []), [], "", false))
  {
    hide Safe, Trim, SomeFilled;
    var line := "\r\n" + rest;
    assert line[2..] == rest;
    if row == [] {
      assert PrintRow(row) + "\r\n" + rest == line;
      EmptyTrim();
      NothingFilled([""]);
      NoneFilled();
      assert r.row + [Trim("")] == [""];
      assert r.rows + [] == r.rows;
    } else {
      assert PrintRow(row) + "\r\n" + rest == PrintRow(row) + line;
      ScanRow(row, line, r);
      var cleaned := Cleaned(row);
      assert [] + cleaned[..|row| - 1] + [Trim(Safe(row[|row| - 1]))] == cleaned;
      var read := r.(row := r.row + cleaned[..|row| - 1], field := Safe(row[|row| - 1]));
      assert EndField(read).row == cleaned;
      assert r.rows + [] == r.rows;
    }
  }

  lemma EmptyTrim()
    ensures Trim("") == ""
  {
  }

  lemma NoneFilled()
    ensures !SomeFilled(Cleaned([]))
  {
  }

  lemma ScanEnd(rows: Matrix)
    ensures Scan("", Reading(rows, [], "", false)) == Ok(rows)
  {
    EmptyTrim();
    hide Trim;
    assert [] + [Trim("")] == [""];
    NothingFilled([""]);
  }

  lemma {:induction false} ScanRows(rows: Matrix, r: Reading)
    requires r == Reading(r.rows, [], "", false)
    ensures Scan(PrintRows(rows), r) == Ok(r.rows + Kept(rows))
  {
    hide PrintRow, Cleaned, SomeFilled, Scan;
    if rows == [] {
      ScanEnd(r.rows);
      assert r.rows + [] == r.rows;
    } else {
      assert PrintRows(rows) == PrintRow(rows[0]) + "\r\n" + PrintRows(rows[1..]);
      ScanLine(rows[0], PrintRows(rows[1..]), r);
      var next := Reading(r.rows + (if SomeFilled(Cleaned(rows[0])) then [Cleaned(rows[0])] else []), [], "", false);
      ScanRows(rows[1..], next);
      assert next.rows + Kept(rows[1..]) == r.rows + Kept(rows);
    }
  }

  /** Parsing a printed matrix gives back its filled rows with every cell safe and trimmed, whatever
      commas, quotes and line breaks the cells hold. */
  lemma ParsePrinted(rows: Matrix)
    ensures Parse(ByteOrderMark + PrintRows(rows)) == Ok(Kept(rows))
  {
    assert (ByteOrderMark + PrintRows(rows))[1..] == PrintRows(rows);
    ScanRows(rows, Start);
    assert [] + Kept(rows) == Kept(rows);
  }

  // ----- When it is the same matrix -----

  /** A cell that survives: trimmed, and no formula. */
  predicate Plain(cell: string) {
    IsTrimmed(cell) && !StartsFormula(cell)
  }

  predicate PlainRow(row: seq<string>) {
    SomeFilled(row) && forall i :: 0 <= i < |row| ==> Plain(row[i])
  }

  lemma CellSurvives(cell: string)
    ensures Trim(Safe(cell)) == cell <==> Plain(cell)
  {
    if StartsFormula(cell) {
      var safe := "'" + cell;
      assert safe[0] == '\'' && !IsSpace(safe[0]);
      assert TrimStart(safe) == safe;
      assert TrimEnd(safe) == "" || TrimEnd(safe)[0] == '\'';
    } else {
      TrimFixesTrimmed(cell);
    }
  }

  lemma RowSurvives(row: seq<string>)
    ensures Cleaned(row) == row <==> forall i :: 0 <= i < |row| ==> Plain(row[i])
  {
    hide Safe, Trim, Plain;
    forall i | 0 <= i < |row| ensures Trim(Safe(row[i])) == row[i] <==> Plain(row[i]) {
      CellSurvives(row[i]);
    }
    if Cleaned(row) == row {
      forall i | 0 <= i < |row| ensures Trim(Safe(row[i])) == row[i] {
        assert Cleaned(row)[i] == row[i];
      }
    }
  }

  lemma {:induction false} KeptIsShorter(rows: Matrix)
    ensures |Kept(rows)| <= |rows|
  {
    if rows != [] {
      KeptIsShorter(rows[1..]);
    }
  }

  lemma {:induction false} KeptSurvives(rows: Matrix)
    ensures Kept(rows) == rows <==> forall i :: 0 <= i < |rows| ==> PlainRow(rows[i])
  {
    hide Cleaned, SomeFilled, Plain;
    if rows != [] {
      RowSurvives(rows[0]);
      KeptSurvives(rows[1..]);
      KeptIsShorter(rows[1..]);
      assert rows == [rows[0]] + rows[1..];
      if Kept(rows) == rows {
        assert |Kept(rows)| == |rows|;
        assert SomeFilled(Cleaned(rows[0]));
        assert Kept(rows)[0] == Cleaned(rows[0]) && Kept(rows)[1..] == Kept(rows[1..]);
        assert PlainRow(rows[0]);
        forall i | 0 <= i < |rows| ensures PlainRow(rows[i]) {
          if i > 0 {
            assert rows[i] == rows[1..][i - 1];
          }
        }
      }
      if forall i :: 0 <= i < |rows| ==> PlainRow(rows[i]) {
        assert PlainRow(rows[0]);
        forall i | 0 <= i < |rows[1..]| ensures PlainRow(rows[1..][i]) {
          assert rows[1..][i] == rows[i + 1];
        }
      }
    }
  }

  /** Printer and parser undo each other exactly for matrices whose cells are trimmed and start no
      formula and whose rows each hold something. */
  lemma PrintParseRoundTrip(rows: Matrix)
    ensures Parse(ByteOrderMark + PrintRows(rows)) == Ok(rows) <==> forall i :: 0 <= i < |rows| ==> PlainRow(rows[i])
  {
    ParsePrinted(rows);
    KeptSurvives(rows);
  }

  // ----- The result file -----

  /** Characters that are read as they stand. */
  predicate Bare(text: string) {
    forall i :: 0 <= i < |text| ==> text[i] != '"' && text[i] != ',' && text[i] != '\r' && text[i] != '\n'
  }

  lemma {:induction false} ScanBare(text: string, rest: string, r: Reading)
    requires !r.quoted && Bare(text)
    ensures Scan(text + rest, r) == Scan(rest, r.(field := r.field + text))
  {
    hide Trim, SomeFilled;
    if text == "" {
      assert text + rest == rest && r.field + text == r.field;
    } else {
      var s := text + rest;
      assert s[1..] == text[1..] + rest;
      ScanBare(text[1..], rest, r.(field := r.field + [text[0]]));
      assert r.field + [text[0]] + text[1..] == r.field + text;
    }
  }

  lemma ScanBareField(text: string, rest: string, r: Reading)
    requires !r.quoted && r.field == "" && Bare(text) && IsTrimmed(text)
    ensures Scan(text + "," + rest, r) == Scan(rest, r.(row := r.row + [text]))
  {
    var tail := "," + rest;
    assert text + "," + rest == text + tail;
    ScanBare(text, tail, r);
    assert "" + text == text && tail[1..] == rest;
    TrimFixesTrimmed(text);
  }

  lemma ScanLineEnd(rest: string, r: Reading)
    requires !r.quoted
    ensures Scan("\r\n" + rest, r) == Scan(rest, EndRow(r))
  {
    hide EndRow;
    assert ("\r\n" + rest)[2..] == rest;
  }

  lemma HeaderEnds()
    ensures EndRow(Reading([], ["row", "action", "sku", "name"], "result", false)) == Reading([ResultHeader], [], "", false)
  {
    TrimFixesTrimmed("result");
    assert ["row", "action", "sku", "name"] + ["result"] == ResultHeader;
    assert ResultHeader[0] != "";
  }

  lemma Regroup(a: string, b: string, line: string)
    ensures (a + "," + b) + line == a + "," + (b + line)
  {
  }

  lemma HeaderParts()
    ensures HeaderLine == "row" + "," + ("action" + "," + ("sku" + "," + ("name" + "," + "result")))
  {
  }

  lemma HeaderIsBare()
    ensures Bare("row") && IsTrimmed("row") && Bare("action") && IsTrimmed("action") && Bare("sku") && IsTrimmed("sku")
    ensures Bare("name") && IsTrimmed("name") && Bare("result") && "" + "result" == "result"
  {
  }

  /** Five bare fields and the end of their line. */
  lemma ScanFive(a: string, b: string, c: string, d: string, e: string, rest: string)
    requires Bare(a) && IsTrimmed(a) && Bare(b) && IsTrimmed(b) && Bare(c) && IsTrimmed(c) && Bare(d) && IsTrimmed(d) && Bare(e)
    requires "" + e == e
    ensures Scan(a + "," + (b + "," + (c + "," + (d + "," + e))) + ("\r\n" + rest), Start) == Scan(rest, EndRow(Reading([], [a, b, c, d], e, false)))
  {
    hide Scan, Bare, IsTrimmed, EndRow;
    var line := "\r\n" + rest;
    var t3 := d + "," + e;
    var t2 := c + "," + t3;
    var t1 := b + "," + t2;
    Regroup(a, t1, line);
    Regroup(b, t2, line);
    Regroup(c, t3, line);
    Regroup(d, e, line);
    ScanBareField(a, t1 + line, Start);
    ScanBareField(b, t2 + line, Reading([], [a], "", false));
    ScanBareField(c, t3 + line, Reading([], [a, b], "", false));
    ScanBareField(d, e + line, Reading([], [a, b, c], "", false));
    ScanBare(e, line, Reading([], [a, b, c, d], "", false));
    ScanLineEnd(rest, Reading([], [a, b, c, d], e, false));
    RowGrows(a, b, c, d);
  }

  /** The header line is read as the column names. */
  lemma ScanHeader(rest: string)
    ensures Scan(HeaderLine + "\r\n" + rest, Start) == Scan(rest, Reading([ResultHeader], [], "", false))
  {
    hide *;
    HeaderParts();
    HeaderIsBare();
    ScanFive("row", "action", "sku", "name", "result", rest);
    HeaderEnds();
    assert HeaderLine + "\r\n" + rest == HeaderLine + ("\r\n" + rest);
  }

  lemma RowGrows(a: string, b: string, c: string, d: string)
    ensures [] + [a] == [a] && [a] + [b] == [a, b] && [a, b] + [c] == [a, b, c] && [a, b, c] + [d] == [a, b, c, d]
  {
  }

  /** A downloaded result file parses to its header and its rows, each cell safe and trimmed. */
  lemma ParseResultFile(rows: Matrix)
    ensures Parse(ResultFile(rows)) == Ok([ResultHeader] + Kept(rows))
  {
    var body := HeaderLine + "\r\n" + PrintRows(rows);
    assert ResultFile(rows) == ByteOrderMark + body;
    assert (ByteOrderMark + body)[1..] == body;
    ScanHeader(PrintRows(rows));
    ScanRows(rows, Reading([ResultHeader], [], "", false));
  }

  /** No printed cell is read as a formula: one that begins with a sign of one is printed behind an
      apostrophe, every other as it is. */
  lemma NoCellIsFormula(cell: string)
    ensures CsvCell(cell) == "\"" + Doubled(if cell != "" && cell[0] in {'=', '+', '-', '@'} then "'" + cell else cell) + "\""
    ensures Safe(cell) == "" || Safe(cell)[0] !in {'=', '+', '-', '@'}
  {
    hide Doubled;
  }
}
