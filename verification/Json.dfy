/** Canonical JSON: the printer the audit log hashes, the parser that reads it back (RFC 8259,
    sections 4 and 7), and the canonical form on which they agree. */
module Json {
  import opened Outcomes
  import opened Quantity

  datatype Member<T> = Member(key: string, value: T)

  /** A JavaScript value as the audit log meets it. Numbers are integers. */
  datatype Value =
    | Undefined | Null | Boolean(truth: bool) | Number(number: int) | String(text: string)
    | List(items: seq<Value>) | Record(members: seq<Member<Value>>)

  // ----- Sorted keys -----

  /** Order of strings by their characters. */
  predicate Before(a: string, b: string) {
    if b == "" then false
    else if a == "" then true
    else if a[0] != b[0] then a[0] < b[0]
    else Before(a[1..], b[1..])
  }

  function InsertMember<T>(member: Member<T>, sorted: seq<Member<T>>): (r: seq<Member<T>>)
    ensures |r| == |sorted| + 1
  {
    if sorted == [] || !Before(sorted[0].key, member.key) then [member] + sorted
    else [sorted[0]] + InsertMember(member, sorted[1..])
  }

  /** Object.keys(record).sort(). */
  function Sorted<T>(members: seq<Member<T>>): (r: seq<Member<T>>)
    ensures |r| == |members|
  {
    if members == [] then [] else InsertMember(members[0], Sorted(members[1..]))
  }

  ghost predicate InKeyOrder<T>(members: seq<Member<T>>) {
    forall j, k :: 0 <= j < k < |members| ==> !Before(members[k].key, members[j].key)
  }

  // ----- Printing -----

  function Hex(d: nat): char
    requires d < 16
  {
    if d < 10 then Digit(d) else ('a' as int + d - 10) as char
  }

  /** One character of a JSON string: the quote, the backslash and the control characters are escaped. */
  function Escaped(c: char): string {
    if c == '"' then "\\\""
    else if c == '\\' then "\\\\"
    else if c == '\U{08}' then "\\b"
    else if c == '\U{0C}' then "\\f"
    else if c == '\n' then "\\n"
    else if c == '\r' then "\\r"
    else if c == '\t' then "\\t"
    else if c < ' ' then "\\u00" + [Hex(c as int / 16), Hex(c as int % 16)]
    else [c]
  }

  function EscapedAll(s: string): string {
    if s == "" then "" else Escaped(s[0]) + EscapedAll(s[1..])
  }

  function Quoted(s: string): string {
    "\"" + EscapedAll(s) + "\""
  }

  function PrintInteger(n: int): string {
    if n < 0 then "-" + DigitsOf(-n) else DigitsOf(n)
  }

  function Joined(parts: seq<string>): string {
    if parts == [] then "" else if |parts| == 1 then parts[0] else parts[0] + "," + Joined(parts[1..])
  }

  function MemberTexts(members: seq<Member<string>>): (r: seq<string>)
    ensures |r| == |members|
  {
    seq(|members|, i requires 0 <= i < |members| => Quoted(members[i].key) + ":" + members[i].value)
  }

  /** stableStringify: undefined members are dropped, keys are sorted, an undefined value reads null. */
  function Stable(v: Value): string
    decreases v
  {
    match v
    case Undefined => "null"
    case Null => "null"
    case Boolean(truth) => if truth then "true" else "false"
    case Number(number) => PrintInteger(number)
    case String(text) => Quoted(text)
    case List(items) => "[" + Joined(StableItems(items)) + "]"
    case Record(members) => "{" + Joined(MemberTexts(Sorted(StableMembers(members)))) + "}"
  }

  function StableItems(items: seq<Value>): (r: seq<string>)
    ensures |r| == |items|
    decreases items
  {
    if items == [] then [] else [Stable(items[0])] + StableItems(items[1..])
  }

  function StableMembers(members: seq<Member<Value>>): seq<Member<string>>
    decreases members
  {
    if members == [] then []
    else
      var m := members[0];
      if m.value.Undefined? then StableMembers(members[1..]) else [Member(m.key, Stable(m.value))] + StableMembers(members[1..])
  }

  // ----- Canonical form -----

  /** The value with undefined members dropped, other undefined values null, and keys sorted. */
  function Canonical(v: Value): Value
    decreases v
  {
    match v
    case Undefined => Null
    case List(items) => List(CanonicalItems(items))
    case Record(members) => Record(Sorted(CanonicalMembers(members)))
    case _ => v
  }

  function CanonicalItems(items: seq<Value>): (r: seq<Value>)
    ensures |r| == |items|
    decreases items
  {
    if items == [] then [] else [Canonical(items[0])] + CanonicalItems(items[1..])
  }

  function CanonicalMembers(members: seq<Member<Value>>): seq<Member<Value>>
    decreases members
  {
    if members == [] then []
    else
      var m := members[0];
      if m.value.Undefined? then CanonicalMembers(members[1..])
      else [Member(m.key, Canonical(m.value))] + CanonicalMembers(members[1..])
  }

  // ----- Parsing -----

  datatype Parsed<T> = Parsed(value: T, rest: string)

  function SkipSpace(s: string): (r: string)
    ensures |r| <= |s|
  {
    if s != "" && (s[0] == ' ' || s[0] == '\t' || s[0] == '\n' || s[0] == '\r') then SkipSpace(s[1..]) else s
  }

  function HexValue(c: char): Option<nat> {
    if '0' <= c <= '9' then Some(c as int - '0' as int)
    else if 'a' <= c <= 'f' then Some(c as int - 'a' as int + 10)
    else if 'A' <= c <= 'F' then Some(c as int - 'A' as int + 10)
    else None
  }

  /** The character after a backslash, and how many characters the escape takes. */
  function Unescaped(s: string): (r: Option<(char, nat)>)
    ensures r.Some? ==> 1 <= r.value.1 <= |s|
  {
    if s == "" then None
    else if s[0] == '"' || s[0] == '\\' || s[0] == '/' then Some((s[0], 1))
    else if s[0] == 'b' then Some(('\U{08}', 1))
    else if s[0] == 'f' then Some(('\U{0C}', 1))
    else if s[0] == 'n' then Some(('\n', 1))
    else if s[0] == 'r' then Some(('\r', 1))
    else if s[0] == 't' then Some(('\t', 1))
    else if s[0] == 'u' && |s| >= 5 then
      var a, b, c, d := HexValue(s[1]), HexValue(s[2]), HexValue(s[3]), HexValue(s[4]);
      if a.Some? && b.Some? && c.Some? && d.Some? && !(a.value == 13 && b.value >= 8)
      then Some(((((a.value * 16 + b.value) * 16 + c.value) * 16 + d.value) as char, 5)) else None
    else None
  }

  /** The characters of a string up to its closing quote. */
  function ParseChars(s: string): (r: Option<Parsed<string>>)
    ensures r.Some? ==> |r.value.rest| < |s|
    decreases |s|
  {
    if s == "" || s[0] < ' ' then None
    else if s[0] == '"' then Some(Parsed("", s[1..]))
    else if s[0] == '\\' then
      match Unescaped(s[1..])
      case None => None
      case Some((c, n)) =>
        (match ParseChars(s[1 + n..]) case None => None case Some(p) => Some(Parsed([c] + p.value, p.rest)))
    else
      match ParseChars(s[1..]) case None => None case Some(p) => Some(Parsed([s[0]] + p.value, p.rest))
  }

  function DigitSpan(s: string): (n: nat)
    ensures n <= |s| && AllDigits(s[..n]) && (n < |s| ==> !IsDigit(s[n]))
  {
    if s == "" || !IsDigit(s[0]) then 0
    else
      var rest := DigitSpan(s[1..]);
      assert s[..1 + rest] == [s[0]] + s[1..][..rest];
      1 + rest
  }

  /** An integer; one with a fraction or an exponent is outside the model. */
  function ParseInteger(s: string): (r: Option<Parsed<int>>)
    ensures r.Some? ==> |r.value.rest| < |s|
  {
    var unsigned := if s != "" && s[0] == '-' then s[1..] else s;
    var n := DigitSpan(unsigned);
    if n == 0 || (n > 1 && unsigned[0] == '0') then None
    else if n < |unsigned| && (unsigned[n] == '.' || unsigned[n] == 'e' || unsigned[n] == 'E') then None
    else
      var magnitude: int := ValueOf(unsigned[..n]);
      Some(Parsed(if s[0] == '-' then -magnitude else magnitude, unsigned[n..]))
  }

  /** A repeated key keeps its first place and takes its last value. */
  function Assign(members: seq<Member<Value>>, m: Member<Value>): seq<Member<Value>> {
    if members == [] then [m]
    else if members[0].key == m.key then [m] + members[1..]
    else [members[0]] + Assign(members[1..], m)
  }

  function Collapse(members: seq<Member<Value>>): seq<Member<Value>> {
    if members == [] then [] else Assign(Collapse(members[..|members| - 1]), members[|members| - 1])
  }

  function StartsWith(s: string, prefix: string): bool {
    |prefix| <= |s| && s[..|prefix|] == prefix
  }

  function ParseValue(s: string): (r: Option<Parsed<Value>>)
    ensures r.Some? ==> |r.value.rest| < |s|
    decreases |s|, 0
  {
    var t := SkipSpace(s);
    if t == "" then None
    else if StartsWith(t, "null") then Some(Parsed(Null, t[4..]))
    else if StartsWith(t, "true") then Some(Parsed(Boolean(true), t[4..]))
    else if StartsWith(t, "false") then Some(Parsed(Boolean(false), t[5..]))
    else if t[0] == '"' then
      match ParseChars(t[1..]) case None => None case Some(p) => Some(Parsed(String(p.value), p.rest))
    else if t[0] == '[' then
      var inside := SkipSpace(t[1..]);
      if inside != "" && inside[0] == ']' then Some(Parsed(List([]), inside[1..]))
      else match ParseItems(t[1..]) case None => None case Some(p) => Some(Parsed(List(p.value), p.rest))
    else if t[0] == '{' then
      var inside := SkipSpace(t[1..]);
      if inside != "" && inside[0] == '}' then Some(Parsed(Record([]), inside[1..]))
      else match ParseMembers(t[1..]) case None => None case Some(p) => Some(Parsed(Record(Collapse(p.value)), p.rest))
    else
      match ParseInteger(t) case None => None case Some(p) => Some(Parsed(Number(p.value), p.rest))
  }

  /** One or more values up to the closing bracket. */
  function ParseItems(s: string): (r: Option<Parsed<seq<Value>>>)
    ensures r.Some? ==> |r.value.rest| < |s|
    decreases |s|, 1
  {
    match ParseValue(s)
    case None => None
    case Some(p) =>
      var rest := SkipSpace(p.rest);
      if rest == "" then None
      else if rest[0] == ']' then Some(Parsed([p.value], rest[1..]))
      else if rest[0] == ',' then
        match ParseItems(rest[1..]) case None => None case Some(more) => Some(Parsed([p.value] + more.value, more.rest))
      else None
  }

  /** One or more members up to the closing brace. */
  function ParseMembers(s: string): (r: Option<Parsed<seq<Member<Value>>>>)
    ensures r.Some? ==> |r.value.rest| < |s|
    decreases |s|, 1
  {
    var t := SkipSpace(s);
    if t == "" || t[0] != '"' then None
    else
      match ParseChars(t[1..])
      case None => None
      case Some(key) =>
        var colon := SkipSpace(key.rest);
        if colon == "" || colon[0] != ':' then None
        else
          match ParseValue(colon[1..])
          case None => None
          case Some(p) =>
            var rest := SkipSpace(p.rest);
            if rest == "" then None
            else if rest[0] == '}' then Some(Parsed([Member(key.value, p.value)], rest[1..]))
            else if rest[0] == ',' then
              match ParseMembers(rest[1..])
              case None => None
              case Some(more) => Some(Parsed([Member(key.value, p.value)] + more.value, more.rest))
            else None
  }

  /** JSON.parse: the whole text is one value. */
  function Parse(s: string): Option<Value> {
    match ParseValue(s)
    case None => None
    case Some(p) => if SkipSpace(p.rest) == "" then Some(p.value) else None
  }
}
