/** What the string helpers keep of a text: its words and its letters. */
module TextMeaning {
  import opened Outcomes
  import opened Text
  import opened Lots

  /** The longest pieces of the text without white space, in order. */
  ghost function Words(s: string): seq<string> {
    if s == "" then []
    else if IsSpace(s[0]) then Words(s[1..])
    else if |s| == 1 || IsSpace(s[1]) then [[s[0]]] + Words(s[1..])
    else
      var rest := Words(s[1..]);
      if rest == [] then [[s[0]]] else [[s[0]] + rest[0]] + rest[1..]
  }

  ghost function Joined(words: seq<string>): string {
    if words == [] then ""
    else if |words| == 1 then words[0]
    else words[0] + " " + Joined(words[1..])
  }

  lemma FirstWord(s: string)
    ensures s != "" && !IsSpace(s[0]) ==> Words(s) != []
  {
  }

  lemma {:induction false} NoWordLost(s: string)
    requires s != "" && !IsSpace(s[|s| - 1])
    ensures Words(s) != []
  {
    if |s| > 1 {
      NoWordLost(s[1..]);
    }
  }

  lemma JoinedGrows(c: char, words: seq<string>)
    requires words != []
    ensures Joined([[c] + words[0]] + words[1..]) == [c] + Joined(words)
  {
    if |words| > 1 {
      assert ([[c] + words[0]] + words[1..])[1..] == words[1..];
    }
  }

  /** Without white space at the end, collapsing joins the words by single blanks, after one for a white beginning. */
  lemma {:induction false} CollapsedIsJoined(s: string)
    requires s == "" || !IsSpace(s[|s| - 1])
    ensures CollapseSpaces(s) == (if s != "" && IsSpace(s[0]) then " " else "") + Joined(Words(s))
  {
    if s != "" {
      var rest := s[1..];
      if |s| > 1 {
        CollapsedIsJoined(rest);
        NoWordLost(rest);
      }
      if IsSpace(s[0]) {
        if |s| > 1 && !IsSpace(s[1]) {
          assert CollapseSpaces(s) == " " + CollapseSpaces(rest);
        }
      } else if |s| == 1 {
        assert rest == "";
        assert Words(s) == [[s[0]]];
      } else if IsSpace(s[1]) {
        var words := [[s[0]]] + Words(rest);
        assert words[1..] == Words(rest);
        assert Joined(words) == [s[0]] + " " + Joined(Words(rest));
      } else {
        FirstWord(rest);
        JoinedGrows(s[0], Words(rest));
      }
    }
  }

  lemma {:induction false} WordsFromStart(s: string)
    ensures Words(TrimStart(s)) == Words(s)
  {
    if s != "" && IsSpace(s[0]) {
      WordsFromStart(s[1..]);
    }
  }

  lemma {:induction false} WordsOfPadded(s: string, c: char)
    requires IsSpace(c)
    ensures Words(s + [c]) == Words(s)
  {
    if s != "" {
      WordsOfPadded(s[1..], c);
      assert (s + [c])[1..] == s[1..] + [c];
    }
  }

  lemma {:induction false} WordsToEnd(s: string)
    ensures Words(TrimEnd(s)) == Words(s)
  {
    if s != "" && IsSpace(s[|s| - 1]) {
      WordsToEnd(s[..|s| - 1]);
      WordsOfPadded(s[..|s| - 1], s[|s| - 1]);
      assert s[..|s| - 1] + [s[|s| - 1]] == s;
    }
  }

  lemma {:induction false} StartIsCut(s: string) returns (cut: string)
    ensures s == cut + TrimStart(s) && forall k :: 0 <= k < |cut| ==> IsSpace(cut[k])
  {
    if s != "" && IsSpace(s[0]) {
      cut := StartIsCut(s[1..]);
      cut := [s[0]] + cut;
    } else {
      cut := "";
    }
  }

  lemma {:induction false} EndIsCut(s: string) returns (cut: string)
    ensures s == TrimEnd(s) + cut && forall k :: 0 <= k < |cut| ==> IsSpace(cut[k])
  {
    if s != "" && IsSpace(s[|s| - 1]) {
      cut := EndIsCut(s[..|s| - 1]);
      cut := cut + [s[|s| - 1]];
    } else {
      cut := "";
    }
  }

  /** Trimming cuts white space off both ends, all of it and nothing else. */
  lemma TrimCuts(s: string) returns (left: string, right: string)
    ensures s == left + Trim(s) + right && IsTrimmed(Trim(s))
    ensures (forall k :: 0 <= k < |left| ==> IsSpace(left[k])) && forall k :: 0 <= k < |right| ==> IsSpace(right[k])
  {
    left := StartIsCut(s);
    right := EndIsCut(TrimStart(s));
  }

  const Small := "abcdefghijklmnopqrstuvwxyz"
  const Capital := "ABCDEFGHIJKLMNOPQRSTUVWXYZ"

  /** The capital of a small letter; any other character itself. */
  lemma UpperIsCapital(c: char)
    ensures forall k :: 0 <= k < 26 && c == Small[k] ==> UpperChar(c) == Capital[k]
    ensures c !in Small ==> UpperChar(c) == c
  {
    assert forall k :: 0 <= k < 26 ==> Small[k] as int == 97 + k && Capital[k] as int == 65 + k;
    if 'a' <= c <= 'z' {
      assert c == Small[c as int - 97];
    }
  }

  const Digits := "0123456789"

  lemma AlphanumericIsListed(c: char)
    ensures IsAlphanumeric(c) <==> c in Small || c in Capital || c in Digits
  {
    assert forall k :: 0 <= k < 26 ==> Small[k] as int == 97 + k && Capital[k] as int == 65 + k;
    assert forall k :: 0 <= k < 10 ==> Digits[k] as int == 48 + k;
    if 'a' <= c <= 'z' {
      assert c == Small[c as int - 97];
    } else if 'A' <= c <= 'Z' {
      assert c == Capital[c as int - 65];
    } else if '0' <= c <= '9' {
      assert c == Digits[c as int - 48];
    }
  }

  ghost predicate InCode(c: char) {
    c in Small || c in Capital || c in Digits || c in "._/ -"
  }

  /** A lot code: up to 64 characters, the first no sign. */
  ghost predicate IsCode(code: string) {
    0 < |code| <= 64 && code[0] !in "._/ -" && forall i :: 0 <= i < |code| ==> InCode(code[i])
  }

  lemma CodeIs(code: string)
    ensures IsCode(code)
            <==> 1 <= |code| <= 64 && IsAlphanumeric(code[0]) && forall i :: 1 <= i < |code| ==> IsLotCharacter(code[i])
  {
    forall i | 0 <= i < |code| ensures InCode(code[i]) <==> IsLotCharacter(code[i]) {
      AlphanumericIsListed(code[i]);
    }
  }

  /** The code of a lot is the words of the label, in capitals, between single blanks. */
  lemma LotCodeIsWords(raw: string)
    ensures var code := Joined(Words(raw));
            NormalizeLotCode(raw) == if IsCode(code) then Ok(UpperAscii(code)) else Err(InvalidLotCode)
  {
    WordsFromStart(raw);
    WordsToEnd(TrimStart(raw));
    CollapsedIsJoined(Trim(raw));
    hide Words, Joined, TrimStart, TrimEnd, CollapseSpaces, IsCode, IsLotCharacter, IsAlphanumeric;
    assert CollapseSpaces(Trim(raw)) == Joined(Words(raw));
    CodeIs(Joined(Words(raw)));
  }
}
