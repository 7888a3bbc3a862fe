/** The canonical printer and the parser undo each other on every value. */
module JsonTheorems {
  import opened Outcomes
  import opened Quantity
  import opened Json

  // ----- Printing in the given order -----

  /** Prints a value as it stands: the canonical form of a value prints as the value's stable text. */
  function Print(v: Value): string
    decreases v
  {
    match v
    case Undefined => "null"
    case Null => "null"
    case Boolean(truth) => if truth then "true" else "false"
    case Number(number) => PrintInteger(number)
    case String(text) => Quoted(text)
    case List(items) => "[" + Joined(PrintItems(items)) + "]"
    case Record(members) => "{" + Joined(MemberTexts(PrintMembers(members))) + "}"
  }

  function PrintItems(items: seq<Value>): (r: seq<string>)
    ensures |r| == |items|
    decreases items
  {
    if items == [] then [] else [Print(items[0])] + PrintItems(items[1..])
  }

  function PrintMembers(members: seq<Member<Value>>): (r: seq<Member<string>>)
    ensures |r| == |members|
    decreases members
  {
    if members == [] then [] else [Member(members[0].key, Print(members[0].value))] + PrintMembers(members[1..])
  }

  lemma {:induction false} InsertPrints(m: Member<Value>, sorted: seq<Member<Value>>)
    ensures PrintMembers(InsertMember(m, sorted)) == InsertMember(Member(m.key, Print(m.value)), PrintMembers(sorted))
  {
    if sorted != [] && Before(sorted[0].key, m.key) {
      InsertPrints(m, sorted[1..]);
      assert InsertMember(m, sorted)[1..] == InsertMember(m, sorted[1..]);
      assert PrintMembers(sorted)[1..] == PrintMembers(sorted[1..]);
    } else {
      assert InsertMember(m, sorted)[1..] == sorted;
    }
  }

  /** Sorting members and printing them commute. */
  lemma {:induction false} SortPrints(members: seq<Member<Value>>)
    ensures PrintMembers(Sorted(members)) == Sorted(PrintMembers(members))
  {
    if members != [] {
      SortPrints(members[1..]);
      InsertPrints(members[0], Sorted(members[1..]));
      assert PrintMembers(members)[1..] == PrintMembers(members[1..]);
    }
  }

  /** The stable text of a value is the print of its canonical form. */
  lemma {:induction false} StableIsPrint(v: Value)
    ensures Stable(v) == Print(Canonical(v))
    decreases v
  {
    match v
    case List(items) => StableItemsPrint(items);
    case Record(members) =>
      StableMembersPrint(members);
      SortPrints(CanonicalMembers(members));
    case _ =>
  }

  lemma {:induction false} StableItemsPrint(items: seq<Value>)
    ensures StableItems(items) == PrintItems(CanonicalItems(items))
    decreases items
  {
    if items != [] {
      StableIsPrint(items[0]);
      StableItemsPrint(items[1..]);
      assert CanonicalItems(items)[1..] == CanonicalItems(items[1..]);
    }
  }

  lemma {:induction false} StableMembersPrint(members: seq<Member<Value>>)
    ensures StableMembers(members) == PrintMembers(CanonicalMembers(members))
    decreases members
  {
    if members != [] {
      StableMembersPrint(members[1..]);
      if !members[0].value.Undefined? {
        StableIsPrint(members[0].value);
        assert CanonicalMembers(members)[1..] == CanonicalMembers(members[1..]);
      }
    }
  }

  // ----- Strings -----

  lemma HexRoundTrip(d: nat)
    requires d < 16
    ensures HexValue(Hex(d)) == Some(d)
  {
  }

  lemma CodeIsRead(s: string, a: nat, b: nat, c: nat, d: nat)
    requires a < 16 && b < 16 && c < 16 && d < 16 && |s| >= 5 && s[0] == 'u'
    requires HexValue(s[1]) == Some(a) && HexValue(s[2]) == Some(b) && HexValue(s[3]) == Some(c) && HexValue(s[4]) == Some(d)
    ensures Unescaped(s) == if a == 13 && b >= 8 then None else Some((((((a * 16 + b) * 16 + c) * 16 + d) as char, 5)))
  {
    hide HexValue;
  }

  lemma UpperHex(h: nat)
    requires 10 <= h < 16
    ensures HexValue("ABCDEF"[h - 10]) == Some(h)
  {
  }

  /** An escape by code reads as the character of that code; a surrogate, which is no character of its own, is
      refused. */
  lemma EscapeIsRead(a: nat, b: nat, c: nat, d: nat, rest: string)
    requires a < 16 && b < 16 && c < 16 && d < 16
    ensures var code := 0x1000 * a + 0x100 * b + 0x10 * c + d;
            Unescaped(['u', Hex(a), Hex(b), Hex(c), Hex(d)] + rest) == if 0xD800 <= code < 0xE000 then None else Some((code as char, 5))
  {
    HexRoundTrip(a);
    HexRoundTrip(b);
    HexRoundTrip(c);
    HexRoundTrip(d);
    hide Hex, HexValue, Unescaped;
    var s := ['u', Hex(a), Hex(b), Hex(c), Hex(d)] + rest;
    assert s[1] == Hex(a) && s[2] == Hex(b) && s[3] == Hex(c) && s[4] == Hex(d);
    CodeIsRead(s, a, b, c, d);
  }

  /** One printed character parses back, whatever follows. */
  lemma EscapeRoundTrip(c: char, rest: string)
    ensures var s := Escaped(c);
            && s != "" && s[0] >= ' ' && s[0] != '"'
            && (s[0] == '\\' <==> |s| > 1)
            && (s[0] == '\\' ==> Unescaped(s[1..] + rest) == Some((c, |s| - 1)))
            && (s[0] != '\\' ==> s == [c])
  {
    if c < ' ' {
      HexRoundTrip(c as int / 16);
      HexRoundTrip(c as int % 16);
    }
  }

  lemma ParseOne(c: char, first: string, tail: string)
    requires first != "" && first[0] >= ' ' && first[0] != '"'
    requires if first[0] == '\\' then Unescaped(first[1..] + tail) == Some((c, |first| - 1)) else first == [c]
    ensures ParseChars(first + tail)
            == match ParseChars(tail) case None => None case Some(p) => Some(Parsed([c] + p.value, p.rest))
  {
    hide Unescaped;
    var text := first + tail;
    if first[0] == '\\' {
      assert text[1..] == first[1..] + tail;
      assert text[|first|..] == tail;
    } else {
      assert text[1..] == tail;
    }
  }

  lemma {:induction false} CharsRoundTrip(s: string, rest: string)
    ensures ParseChars(EscapedAll(s) + "\"" + rest) == Some(Parsed(s, rest))
  {
    hide Escaped, Unescaped;
    if s == "" {
      assert EscapedAll(s) + "\"" + rest == "\"" + rest;
      assert ("\"" + rest)[1..] == rest;
    } else {
      var first, tail := Escaped(s[0]), EscapedAll(s[1..]) + "\"" + rest;
      assert EscapedAll(s) + "\"" + rest == first + tail;
      EscapeRoundTrip(s[0], tail);
      CharsRoundTrip(s[1..], rest);
      ParseOne(s[0], first, tail);
      assert [s[0]] + s[1..] == s;
    }
  }

  // ----- Integers -----

  /** Where a printed value ends. */
  predicate Ends(rest: string) {
    rest == "" || rest[0] == ',' || rest[0] == ']' || rest[0] == '}'
  }

  lemma {:induction false} SpanOf(digits: string, rest: string)
    requires AllDigits(digits) && (rest == "" || !IsDigit(rest[0]))
    ensures DigitSpan(digits + rest) == |digits|
  {
    if digits == "" {
      assert digits + rest == rest;
    } else {
      assert (digits + rest)[1..] == digits[1..] + rest;
      SpanOf(digits[1..], rest);
    }
  }

  lemma IntegerRoundTrip(n: int, rest: string)
    requires Ends(rest)
    ensures ParseInteger(PrintInteger(n) + rest) == Some(Parsed(n, rest))
    ensures var c := PrintInteger(n)[0];
            PrintInteger(n) != "" && (c == '-' || IsDigit(c))
  {
    var magnitude := if n < 0 then -n else n;
    var digits := DigitsOf(magnitude);
    DigitsRoundTrip(magnitude);
    SpanOf(digits, rest);
    DigitsLength(magnitude, 1);
    assert Power(1) == 10 * Power(0);
    var s := PrintInteger(n) + rest;
    assert IsDigit(digits[0]);
    var unsigned := if s[0] == '-' then s[1..] else s;
    assert unsigned == digits + rest;
    assert unsigned[..|digits|] == digits && unsigned[|digits|..] == rest;
  }

  // ----- Values -----

  predicate KeysDistinct(members: seq<Member<Value>>) {
    forall j, k :: 0 <= j < k < |members| ==> members[j].key != members[k].key
  }

  /** What a JavaScript object is: its keys are distinct, at every level. */
  predicate WellFormed(v: Value)
    decreases v
  {
    match v
    case List(items) => forall i :: 0 <= i < |items| ==> WellFormed(items[i])
    case Record(members) => KeysDistinct(members) && forall i :: 0 <= i < |members| ==> WellFormed(members[i].value)
    case _ => true
  }

  /** Nothing undefined, at any level. */
  predicate Defined(v: Value)
    decreases v
  {
    match v
    case Undefined => false
    case List(items) => forall i :: 0 <= i < |items| ==> Defined(items[i])
    case Record(members) => KeysDistinct(members) && forall i :: 0 <= i < |members| ==> Defined(members[i].value)
    case _ => true
  }

  lemma {:induction false} AssignNew(members: seq<Member<Value>>, m: Member<Value>)
    requires forall k :: 0 <= k < |members| ==> members[k].key != m.key
    ensures Assign(members, m) == members + [m]
  {
    if members != [] {
      AssignNew(members[1..], m);
      assert [members[0]] + (members[1..] + [m]) == members + [m];
    }
  }

  lemma {:induction false} CollapseDistinct(members: seq<Member<Value>>)
    requires KeysDistinct(members)
    ensures Collapse(members) == members
  {
    if members != [] {
      var front, last := members[..|members| - 1], members[|members| - 1];
      CollapseDistinct(front);
      AssignNew(front, last);
      assert front + [last] == members;
    }
  }

  predicate ValueStart(c: char) {
    c == 'n' || c == 't' || c == 'f' || c == '"' || c == '[' || c == '{' || c == '-' || IsDigit(c)
  }

  lemma PrintStarts(v: Value)
    ensures Print(v) != "" && ValueStart(Print(v)[0])
  {
    match v
    case Number(number) => IntegerRoundTrip(number, "");
    case _ =>
  }

  lemma NoSpaceToSkip(s: string)
    requires s != "" && s[0] != ' ' && s[0] != '\t' && s[0] != '\n' && s[0] != '\r'
    ensures SkipSpace(s) == s
  {
  }

  lemma SkipsNothing(text: string, rest: string)
    requires text != "" && ValueStart(text[0])
    ensures SkipSpace(text + rest) == text + rest && (text + rest)[0] == text[0] && text + rest != ""
  {
    NoSpaceToSkip(text + rest);
  }

  lemma WordRoundTrip(word: string, rest: string)
    ensures StartsWith(word + rest, word) && (word + rest)[|word|..] == rest
  {
  }

  /** A printed value parses back to itself, whatever follows it. */
  lemma {:induction false} ValueRoundTrip(v: Value, rest: string)
    requires Defined(v) && Ends(rest)
    ensures ParseValue(Print(v) + rest) == Some(Parsed(v, rest))
    decreases v, 1
  {
    PrintStarts(v);
    SkipsNothing(Print(v), rest);
    match v
    case Null => WordRoundTrip("null", rest);
    case Boolean(truth) => WordRoundTrip(if truth then "true" else "false", rest);
    case Number(number) => NumberRoundTrip(number, rest);
    case String(text) => StringRoundTrip(text, rest);
    case List(items) => ListRoundTrip(v, rest);
    case Record(members) => RecordRoundTrip(v, rest);
    case _ =>
  }

  lemma FirstOf(t: string, word: string)
    requires t != "" && word != ""
    ensures StartsWith(t, word) ==> t[0] == word[0]
  {
    assert |word| <= |t| ==> t[..|word|][0] == t[0];
  }

  lemma NotAWord(t: string)
    requires t != "" && t[0] != 'n' && t[0] != 't' && t[0] != 'f'
    ensures !StartsWith(t, "null") && !StartsWith(t, "true") && !StartsWith(t, "false")
  {
    FirstOf(t, "null");
    FirstOf(t, "true");
    FirstOf(t, "false");
  }

  lemma NumberRoundTrip(number: int, rest: string)
    requires Ends(rest)
    ensures ParseValue(PrintInteger(number) + rest) == Some(Parsed(Number(number), rest))
  {
    IntegerRoundTrip(number, rest);
    hide PrintInteger, ParseInteger;
    SkipsNothing(PrintInteger(number), rest);
    NotAWord(PrintInteger(number) + rest);
  }

  lemma StringRoundTrip(text: string, rest: string)
    ensures ParseValue(Quoted(text) + rest) == Some(Parsed(String(text), rest))
  {
    hide EscapedAll, ParseChars;
    var t := Quoted(text) + rest;
    assert t[0] == '"' && t[1..] == EscapedAll(text) + "\"" + rest;
    NoSpaceToSkip(t);
    NotAWord(t);
    CharsRoundTrip(text, rest);
  }

  lemma {:induction false} ListRoundTrip(v: Value, rest: string)
    requires v.List? && Defined(v)
    ensures ParseValue(Print(v) + rest) == Some(Parsed(v, rest))
    decreases v, 0
  {
    hide ParseItems, Joined, PrintItems;
    var t := Print(v) + rest;
    NoSpaceToSkip(t);
    NotAWord(t);
    var inside := Joined(PrintItems(v.items)) + "]" + rest;
    assert t[1..] == inside;
    if v.items == [] {
      NothingJoined();
      assert inside == "]" + rest && inside[1..] == rest;
      NoSpaceToSkip(inside);
    } else {
      ItemsRoundTrip(v.items, rest);
      ItemsStart(v.items, "]" + rest);
      assert inside == Joined(PrintItems(v.items)) + ("]" + rest);
      NoSpaceToSkip(inside);
    }
  }

  lemma NothingJoined()
    ensures Joined(PrintItems([])) == "" && Joined(MemberTexts(PrintMembers([]))) == ""
  {
  }

  lemma ItemsStart(items: seq<Value>, rest: string)
    requires items != []
    ensures var s := Joined(PrintItems(items)) + rest;
            s != "" && ValueStart(s[0]) && s[0] == Print(items[0])[0]
  {
    PrintStarts(items[0]);
  }

  /** Joining the printed values of a list, the first and the others. */
  lemma JoinedItems(items: seq<Value>)
    requires items != []
    ensures Joined(PrintItems(items))
            == if |items| == 1 then Print(items[0]) else Print(items[0]) + "," + Joined(PrintItems(items[1..]))
  {
    hide Print;
    assert PrintItems(items)[1..] == PrintItems(items[1..]);
  }

  lemma {:induction false} ItemsRoundTrip(items: seq<Value>, rest: string)
    requires items != [] && forall i :: 0 <= i < |items| ==> Defined(items[i])
    ensures ParseItems(Joined(PrintItems(items)) + "]" + rest) == Some(Parsed(items, rest))
    decreases items
  {
    hide ParseValue, Print, Joined, PrintItems, Defined;
    var text := Joined(PrintItems(items)) + "]" + rest;
    JoinedItems(items);
    if |items| == 1 {
      assert text == Print(items[0]) + ("]" + rest);
      ValueRoundTrip(items[0], "]" + rest);
      NoSpaceToSkip("]" + rest);
      assert items == [items[0]] && ("]" + rest)[1..] == rest;
    } else {
      var more := Joined(PrintItems(items[1..])) + "]" + rest;
      assert text == Print(items[0]) + ("," + more);
      ValueRoundTrip(items[0], "," + more);
      NoSpaceToSkip("," + more);
      assert ("," + more)[1..] == more;
      ItemsRoundTrip(items[1..], rest);
      assert [items[0]] + items[1..] == items;
    }
  }

  lemma {:induction false} RecordRoundTrip(v: Value, rest: string)
    requires v.Record? && Defined(v)
    ensures ParseValue(Print(v) + rest) == Some(Parsed(v, rest))
    decreases v, 0
  {
    hide ParseMembers, Joined, PrintMembers, MemberTexts, Collapse;
    var t := Print(v) + rest;
    NoSpaceToSkip(t);
    NotAWord(t);
    var inside := Joined(MemberTexts(PrintMembers(v.members))) + "}" + rest;
    assert t[1..] == inside;
    CollapseDistinct(v.members);
    if v.members == [] {
      NothingJoined();
      assert inside == "}" + rest && inside[1..] == rest;
      NoSpaceToSkip(inside);
    } else {
      MembersRoundTrip(v.members, rest);
      JoinedMembers(v.members);
      assert inside[0] == '"';
      NoSpaceToSkip(inside);
    }
  }

  /** Joining the printed members of a record, the first and the others. */
  lemma JoinedMembers(members: seq<Member<Value>>)
    requires members != []
    ensures var first := "\"" + EscapedAll(members[0].key) + "\"" + ":" + Print(members[0].value);
            Joined(MemberTexts(PrintMembers(members)))
            == if |members| == 1 then first else first + "," + Joined(MemberTexts(PrintMembers(members[1..])))
  {
    hide Print, EscapedAll;
    var texts := MemberTexts(PrintMembers(members));
    PrintedRest(members);
    assert texts[0] == "\"" + EscapedAll(members[0].key) + "\"" + ":" + Print(members[0].value);
    hide MemberTexts, PrintMembers;
  }

  lemma PrintedRest(members: seq<Member<Value>>)
    requires members != []
    ensures PrintMembers(members)[0] == Member(members[0].key, Print(members[0].value))
    ensures MemberTexts(PrintMembers(members))[1..] == MemberTexts(PrintMembers(members[1..]))
  {
    hide Print, Quoted;
    assert PrintMembers(members)[1..] == PrintMembers(members[1..]);
  }

  lemma KeyRoundTrip(key: string, after: string)
    ensures var s := "\"" + EscapedAll(key) + "\"" + after;
            SkipSpace(s) == s && s != "" && s[0] == '"' && ParseChars(s[1..]) == Some(Parsed(key, after))
  {
    hide EscapedAll, ParseChars;
    var s := "\"" + EscapedAll(key) + "\"" + after;
    NoSpaceToSkip(s);
    assert s[1..] == EscapedAll(key) + "\"" + after;
    CharsRoundTrip(key, after);
  }

  lemma {:induction false} MembersRoundTrip(members: seq<Member<Value>>, rest: string)
    requires members != [] && forall i :: 0 <= i < |members| ==> Defined(members[i].value)
    ensures ParseMembers(Joined(MemberTexts(PrintMembers(members))) + "}" + rest) == Some(Parsed(members, rest))
    decreases members
  {
    hide ParseValue, ParseChars, EscapedAll, Print, Joined, PrintMembers, MemberTexts, Defined;
    var m := members[0];
    var text := Joined(MemberTexts(PrintMembers(members))) + "}" + rest;
    JoinedMembers(members);
    var tail := if |members| == 1 then "}" + rest else "," + (Joined(MemberTexts(PrintMembers(members[1..]))) + "}" + rest);
    var after := ":" + (Print(m.value) + tail);
    assert text == "\"" + EscapedAll(m.key) + "\"" + after;
    KeyRoundTrip(m.key, after);
    NoSpaceToSkip(after);
    assert after[1..] == Print(m.value) + tail;
    assert [m][0] == m && m.value == members[0].value;
    MemberRoundTrip(members, tail);
    NoSpaceToSkip(tail);
    if |members| == 1 {
      assert members == [m] && tail[1..] == rest;
    } else {
      assert tail[1..] == Joined(MemberTexts(PrintMembers(members[1..]))) + "}" + rest;
      MembersRoundTrip(members[1..], rest);
      assert [m] + members[1..] == members;
    }
    assert Member(m.key, m.value) == m;
  }

  lemma {:induction false} MemberRoundTrip(members: seq<Member<Value>>, tail: string)
    requires members != [] && Defined(members[0].value) && Ends(tail)
    ensures ParseValue(Print(members[0].value) + tail) == Some(Parsed(members[0].value, tail))
    decreases members, 0
  {
    ValueRoundTrip(members[0].value, tail);
  }

  // ----- Canonical values -----

  ghost predicate Apart<T>(members: seq<Member<T>>) {
    forall j, k :: 0 <= j < k < |members| ==> members[j].key != members[k].key
  }

  ghost predicate Lacks<T>(members: seq<Member<T>>, key: string) {
    forall k :: 0 <= k < |members| ==> members[k].key != key
  }

  lemma {:induction false} InsertKeepsMembers<T(!new)>(m: Member<T>, sorted: seq<Member<T>>)
    ensures forall x :: x in InsertMember(m, sorted) <==> x in sorted || x == m
    ensures forall key :: key != m.key && Lacks(sorted, key) ==> Lacks(InsertMember(m, sorted), key)
    ensures Apart(sorted) && Lacks(sorted, m.key) ==> Apart(InsertMember(m, sorted))
  {
    if sorted != [] && Before(sorted[0].key, m.key) {
      var rest := sorted[1..];
      InsertKeepsMembers(m, rest);
      assert sorted == [sorted[0]] + rest;
      assert Apart(sorted) ==> Apart(rest) && Lacks(rest, sorted[0].key);
      assert Lacks(sorted, m.key) ==> Lacks(rest, m.key) && m.key != sorted[0].key;
      forall key | key != m.key && Lacks(sorted, key) ensures Lacks(InsertMember(m, sorted), key) {
        assert Lacks(rest, key);
      }
    }
  }

  lemma {:induction false} SortKeepsMembers<T(!new)>(members: seq<Member<T>>)
    ensures forall x :: x in Sorted(members) <==> x in members
    ensures forall key :: Lacks(members, key) ==> Lacks(Sorted(members), key)
    ensures Apart(members) ==> Apart(Sorted(members))
  {
    if members != [] {
      var rest := members[1..];
      SortKeepsMembers(rest);
      InsertKeepsMembers(members[0], Sorted(rest));
      assert members == [members[0]] + rest;
      assert Apart(members) ==> Apart(rest) && Lacks(rest, members[0].key);
      forall key | Lacks(members, key) ensures Lacks(Sorted(members), key) {
        assert Lacks(rest, key) && members[0].key != key;
      }
    }
  }

  /** The canonical form of a well-formed value has nothing undefined and distinct keys. */
  lemma {:induction false} CanonicalDefined(v: Value)
    requires WellFormed(v)
    ensures Defined(Canonical(v))
    decreases v
  {
    match v
    case List(items) => CanonicalItemsDefined(items);
    case Record(members) =>
      CanonicalMembersDefined(members);
      var canonical := CanonicalMembers(members);
      SortKeepsMembers(canonical);
      assert Apart(canonical);
      forall i | 0 <= i < |Sorted(canonical)| ensures Defined(Sorted(canonical)[i].value) {
        assert Sorted(canonical)[i] in Sorted(canonical);
      }
    case _ =>
  }

  lemma {:induction false} CanonicalItemsDefined(items: seq<Value>)
    requires forall i :: 0 <= i < |items| ==> WellFormed(items[i])
    ensures forall i :: 0 <= i < |items| ==> Defined(CanonicalItems(items)[i])
    decreases items
  {
    if items != [] {
      CanonicalDefined(items[0]);
      CanonicalItemsDefined(items[1..]);
    }
  }

  /** The canonical members bring no key of their own. */
  lemma {:induction false} CanonicalLacks(members: seq<Member<Value>>, key: string)
    requires Lacks(members, key)
    ensures Lacks(CanonicalMembers(members), key)
  {
    hide Canonical;
    if members != [] {
      CanonicalLacks(members[1..], key);
    }
  }

  lemma {:induction false} CanonicalMembersDefined(members: seq<Member<Value>>)
    requires KeysDistinct(members) && forall i :: 0 <= i < |members| ==> WellFormed(members[i].value)
    ensures KeysDistinct(CanonicalMembers(members))
    ensures forall i :: 0 <= i < |CanonicalMembers(members)| ==> Defined(CanonicalMembers(members)[i].value)
    decreases members
  {
    if members != [] {
      var m, rest := members[0], members[1..];
      CanonicalMembersDefined(rest);
      if !m.value.Undefined? {
        CanonicalDefined(m.value);
      }
      assert Lacks(rest, m.key);
      CanonicalLacks(rest, m.key);
      hide Defined, WellFormed;
    }
  }

  /** Parsing the stable text of a value gives back its canonical form. */
  lemma ParseStable(v: Value)
    requires WellFormed(v)
    ensures Parse(Stable(v)) == Some(Canonical(v))
  {
    StableIsPrint(v);
    CanonicalDefined(v);
    ValueRoundTrip(Canonical(v), "");
    assert Print(Canonical(v)) + "" == Print(Canonical(v));
    hide ParseValue;
  }

  /** Two values have the same stable text exactly when they have the same canonical form: the hashed
      text determines the value, up to the order of keys and to undefined members. */
  lemma StableIsInjective(u: Value, v: Value)
    requires WellFormed(u) && WellFormed(v)
    ensures Stable(u) == Stable(v) <==> Canonical(u) == Canonical(v)
  {
    ParseStable(u);
    ParseStable(v);
    StableIsPrint(u);
    StableIsPrint(v);
  }

  // ----- The canonical form is canonical -----

  lemma {:induction false} NotAfterTransitive(a: string, b: string, c: string)
    requires !Before(b, a) && !Before(c, b)
    ensures !Before(c, a)
  {
    if a != "" && b != "" && c != "" && a[0] == b[0] == c[0] {
      NotAfterTransitive(a[1..], b[1..], c[1..]);
    }
  }

  lemma {:induction false} BeforeAsymmetric(a: string, b: string)
    requires Before(a, b)
    ensures !Before(b, a)
  {
    if a != "" && a[0] == b[0] {
      BeforeAsymmetric(a[1..], b[1..]);
    }
  }

  lemma {:induction false} InsertKeepsOrder<T(!new)>(m: Member<T>, sorted: seq<Member<T>>)
    requires InKeyOrder(sorted)
    ensures InKeyOrder(InsertMember(m, sorted))
  {
    if sorted != [] {
      var rest := sorted[1..];
      if Before(sorted[0].key, m.key) {
        InsertKeepsOrder(m, rest);
        InsertKeepsMembers(m, rest);
        BeforeAsymmetric(sorted[0].key, m.key);
        var inner := InsertMember(m, rest);
        forall k | 0 <= k < |inner| ensures !Before(inner[k].key, sorted[0].key) {
          assert inner[k] in inner;
          assert inner[k] in rest || inner[k] == m;
        }
      } else {
        forall k | 0 <= k < |sorted| ensures !Before(sorted[k].key, m.key) {
          if k > 0 {
            NotAfterTransitive(m.key, sorted[0].key, sorted[k].key);
          }
        }
      }
    }
  }

  lemma {:induction false} SortedIsOrdered<T(!new)>(members: seq<Member<T>>)
    ensures InKeyOrder(Sorted(members))
  {
    if members != [] {
      SortedIsOrdered(members[1..]);
      InsertKeepsOrder(members[0], Sorted(members[1..]));
    }
  }

  lemma {:induction false} SortOfOrdered<T(!new)>(members: seq<Member<T>>)
    requires InKeyOrder(members)
    ensures Sorted(members) == members
  {
    if members != [] {
      SortOfOrdered(members[1..]);
      assert members == [members[0]] + members[1..];
      if |members| > 1 {
        assert members[1..][0] == members[1];
      }
    }
  }

  lemma {:induction false} CanonicalOfCanonical(v: Value)
    ensures Canonical(Canonical(v)) == Canonical(v) && !Canonical(v).Undefined?
    decreases v
  {
    match v
    case List(items) => CanonicalOfItems(items);
    case Record(members) =>
      CanonicalOfMembers(members);
      var canonical := Sorted(CanonicalMembers(members));
      SortKeepsMembers(CanonicalMembers(members));
      forall k | 0 <= k < |canonical| ensures Fixed(canonical[k].value) {
        assert canonical[k] in canonical;
      }
      FixedMembers(canonical);
      SortedIsOrdered(CanonicalMembers(members));
      SortOfOrdered(canonical);
    case _ =>
  }

  predicate Fixed(v: Value) {
    Canonical(v) == v && !v.Undefined?
  }

  lemma {:induction false} CanonicalOfItems(items: seq<Value>)
    ensures CanonicalItems(CanonicalItems(items)) == CanonicalItems(items)
    decreases items
  {
    if items != [] {
      CanonicalOfCanonical(items[0]);
      CanonicalOfItems(items[1..]);
      assert CanonicalItems(items)[1..] == CanonicalItems(items[1..]);
    }
  }

  lemma {:induction false} CanonicalOfMembers(members: seq<Member<Value>>)
    ensures forall k :: 0 <= k < |CanonicalMembers(members)| ==> Fixed(CanonicalMembers(members)[k].value)
    decreases members
  {
    if members != [] {
      CanonicalOfMembers(members[1..]);
      if !members[0].value.Undefined? {
        CanonicalOfCanonical(members[0].value);
      }
    }
  }

  lemma {:induction false} FixedMembers(members: seq<Member<Value>>)
    requires forall k :: 0 <= k < |members| ==> Fixed(members[k].value)
    ensures CanonicalMembers(members) == members
  {
    if members != [] {
      FixedMembers(members[1..]);
      assert members == [Member(members[0].key, members[0].value)] + members[1..];
    }
  }

  /** The stable text of a value is the stable text of what it parses back to. */
  lemma StableOfParsed(v: Value)
    requires WellFormed(v)
    ensures Parse(Stable(v)).Some? && Stable(Parse(Stable(v)).value) == Stable(v)
  {
    ParseStable(v);
    StableIsPrint(v);
    StableIsPrint(Canonical(v));
    CanonicalOfCanonical(v);
  }
}
