/** Acceptance is completeness: a bijection between the variants and the combinations. */
module VariantTheorems {
  import opened Outcomes
  import opened Variants

  // ----- The combinations are exactly the choices -----

  /** One normalised value of each of the first n attributes. */
  predicate Chosen(attributes: seq<Attribute>, normalize: Normalizer, n: nat, c: Combination)
    requires n <= |attributes|
  {
    |c| == n && forall i :: 0 <= i < n ==> c[i] in Normalized(normalize, attributes[i].values)
  }

  lemma WithEachIsExact(combination: Combination, options: seq<string>, normalize: Normalizer, c: Combination)
    ensures c in WithEach(combination, options, normalize)
            <==> c != [] && c[..|c| - 1] == combination && c[|c| - 1] in Normalized(normalize, options)
  {
    var with, values := WithEach(combination, options, normalize), Normalized(normalize, options);
    if c in with {
      var i :| 0 <= i < |with| && with[i] == c;
      assert c == combination + [values[i]];
    }
    if c != [] && c[..|c| - 1] == combination && c[|c| - 1] in values {
      var i :| 0 <= i < |values| && values[i] == c[|c| - 1];
      assert c == c[..|c| - 1] + [c[|c| - 1]];
      assert with[i] == c;
    }
  }

  lemma {:induction false} ExtendedIsExact(combinations: seq<Combination>, options: seq<string>, normalize: Normalizer, c: Combination)
    ensures c in Extended(combinations, options, normalize)
            <==> c != [] && c[..|c| - 1] in combinations && c[|c| - 1] in Normalized(normalize, options)
    ensures |Extended(combinations, options, normalize)| == |combinations| * |options|
  {
    hide WithEach, Normalized;
    if combinations != [] {
      var rest := combinations[1..];
      ExtendedIsExact(rest, options, normalize, c);
      WithEachIsExact(combinations[0], options, normalize, c);
      assert combinations == [combinations[0]] + rest;
      assert |combinations| * |options| == |options| + |rest| * |options|;
    }
  }

  lemma CombinationsOf(attributes: seq<Attribute>, normalize: Normalizer, n: nat)
    requires 0 < n <= |attributes|
    ensures Combinations(attributes, normalize, n)
            == Extended(Combinations(attributes, normalize, n - 1), attributes[n - 1].values, normalize)
    ensures Count(attributes, n) == Count(attributes, n - 1) * |attributes[n - 1].values|
  {
    hide Extended;
  }

  lemma ChosenNext(attributes: seq<Attribute>, normalize: Normalizer, n: nat, c: Combination)
    requires 0 < n <= |attributes|
    ensures Chosen(attributes, normalize, n, c)
            <==> && c != [] && Chosen(attributes, normalize, n - 1, c[..|c| - 1])
                 && c[|c| - 1] in Normalized(normalize, attributes[n - 1].values)
  {
    hide Normalized;
    if c != [] {
      var front := c[..|c| - 1];
      assert forall i :: 0 <= i < |front| ==> front[i] == c[i];
    }
  }

  /** The product lists every choice, and as many as the counts multiply to. */
  lemma {:induction false} CombinationsAreChoices(attributes: seq<Attribute>, normalize: Normalizer, n: nat, c: Combination)
    requires n <= |attributes|
    ensures c in Combinations(attributes, normalize, n) <==> Chosen(attributes, normalize, n, c)
    ensures |Combinations(attributes, normalize, n)| == Count(attributes, n)
  {
    if n > 0 {
      CombinationsOf(attributes, normalize, n);
      hide *;
      var before := Combinations(attributes, normalize, n - 1);
      ExtendedIsExact(before, attributes[n - 1].values, normalize, c);
      CombinationsAreChoices(attributes, normalize, n - 1, if c == [] then [] else c[..|c| - 1]);
      ChosenNext(attributes, normalize, n, c);
    } else {
      assert Combinations(attributes, normalize, 0) == [[]];
    }
  }

  lemma {:induction false} ExtendedDistinct(combinations: seq<Combination>, options: seq<string>, normalize: Normalizer)
    requires Distinct(combinations) && Distinct(Normalized(normalize, options))
    ensures Distinct(Extended(combinations, options, normalize))
  {
    if combinations != [] {
      var first, rest := WithEach(combinations[0], options, normalize), Extended(combinations[1..], options, normalize);
      ExtendedDistinct(combinations[1..], options, normalize);
      var values := Normalized(normalize, options);
      forall j, k | 0 <= j < k < |first| ensures first[j] != first[k] {
        assert first[j][|combinations[0]|] == values[j] && first[k][|combinations[0]|] == values[k];
      }
      forall j, k | 0 <= j < |first| && 0 <= k < |rest| ensures first[j] != rest[k] {
        ExtendedIsExact(combinations[1..], options, normalize, rest[k]);
        assert rest[k] in rest;
        assert first[j][..|first[j]| - 1] == combinations[0];
        assert combinations[0] !in combinations[1..];
      }
    }
  }

  lemma {:induction false} CombinationsDistinct(attributes: seq<Attribute>, normalize: Normalizer, n: nat)
    requires n <= |attributes| && ValuesDistinct(attributes, normalize)
    ensures Distinct(Combinations(attributes, normalize, n))
  {
    if n > 0 {
      CombinationsDistinct(attributes, normalize, n - 1);
      ExtendedDistinct(Combinations(attributes, normalize, n - 1), attributes[n - 1].values, normalize);
    }
  }

  // ----- Keys -----

  predicate NoSeparator(parts: Combination) {
    forall i :: 0 <= i < |parts| ==> Separator !in parts[i]
  }

  /** The part before the first separator. */
  lemma FirstPart(a: string, x: string, b: string, y: string)
    requires Separator !in a && Separator !in b
    requires a + [Separator] + x == b + [Separator] + y
    ensures a == b && x == y
  {
    var s := a + [Separator] + x;
    assert s[|a|] == Separator && s[|b|] == Separator;
    assert forall i :: 0 <= i < |a| ==> s[i] == a[i] && a[i] != Separator;
    assert forall i :: 0 <= i < |b| ==> s[i] == b[i] && b[i] != Separator;
    assert |a| == |b|;
    assert a == s[..|a|] && b == s[..|b|];
    assert x == s[|a| + 1..] && y == s[|b| + 1..];
  }

  /** Without separators in the parts, a key of known length determines them. */
  lemma {:induction false} KeysDetermine(a: Combination, b: Combination)
    requires |a| == |b| && NoSeparator(a) && NoSeparator(b) && Joined(a) == Joined(b)
    ensures a == b
  {
    if |a| > 1 {
      FirstPart(a[0], Joined(a[1..]), b[0], Joined(b[1..]));
      KeysDetermine(a[1..], b[1..]);
      assert a == [a[0]] + a[1..] && b == [b[0]] + b[1..];
    }
  }

  // ----- Pigeonhole -----

  function Members<T>(s: seq<T>): set<T> {
    set x | x in s
  }

  lemma {:induction false} DistinctSize<T>(s: seq<T>)
    ensures |Members(s)| <= |s|
    ensures Distinct(s) ==> |Members(s)| == |s|
  {
    if s != [] {
      var front, last := s[..|s| - 1], s[|s| - 1];
      assert s == front + [last];
      DistinctSize(front);
      assert Members(s) == Members(front) + {last};
      if Distinct(s) {
        assert last !in front;
      }
    }
  }

  lemma {:induction false} SubsetSize<T>(small: set<T>, large: set<T>)
    requires small <= large
    ensures |small| <= |large|
    ensures |small| == |large| ==> small == large
    decreases small
  {
    if small != {} {
      var x :| x in small;
      SubsetSize(small - {x}, large - {x});
      assert small == (small - {x}) + {x} && large == (large - {x}) + {x};
    } else if |large| == 0 {
      assert large == {};
    }
  }

  /** As many different keys as expected, all expected: they are all the expected keys. */
  lemma AllReceived<T>(received: seq<T>, expected: seq<T>)
    requires Distinct(received) && |received| == |expected| && forall i :: 0 <= i < |received| ==> received[i] in expected
    ensures Members(received) == Members(expected)
    ensures Distinct(expected)
  {
    DistinctSize(received);
    DistinctSize(expected);
    SubsetSize(Members(received), Members(expected));
    SameSizeDistinct(expected);
  }

  lemma {:induction false} SameSizeDistinct<T>(s: seq<T>)
    ensures |Members(s)| == |s| ==> Distinct(s)
  {
    if s != [] && |Members(s)| == |s| {
      var front, last := s[..|s| - 1], s[|s| - 1];
      assert s == front + [last];
      assert Members(s) == Members(front) + {last};
      DistinctSize(front);
      SameSizeDistinct(front);
      assert last !in front;
    }
  }

  /** The variants of an accepted configuration have exactly the keys of the combinations, each once,
      whatever characters the values hold. */
  lemma AcceptedKeysMatch(c: Configuration, normalize: Normalizer)
    requires Accepted(c, normalize)
    ensures var expected := Keys(Combinations(c.attributes, normalize, |c.attributes|));
            Members(VariantKeys(c, normalize)) == Members(expected) && Distinct(expected)
  {
    CombinationsAreChoices(c.attributes, normalize, |c.attributes|, []);
    hide Combinations, Joined;
    AllReceived(VariantKeys(c, normalize), Keys(Combinations(c.attributes, normalize, |c.attributes|)));
  }

  // ----- Completeness -----

  /** Every variant is a combination, every combination has a variant, and only one. */
  ghost predicate Complete(c: Configuration, normalize: Normalizer) {
    && (forall v :: 0 <= v < |c.variants| ==> Chosen(c.attributes, normalize, |c.attributes|, Normalized(normalize, c.variants[v])))
    && (forall k: Combination :: Chosen(c.attributes, normalize, |c.attributes|, k) ==> Offered(c, normalize, k))
    && (forall v, w :: 0 <= v < w < |c.variants| ==> Normalized(normalize, c.variants[v]) != Normalized(normalize, c.variants[w]))
  }

  ghost predicate Offered(c: Configuration, normalize: Normalizer, k: Combination) {
    exists v :: 0 <= v < |c.variants| && Normalized(normalize, c.variants[v]) == k
  }

  /** No normalised value contains the separator. */
  ghost predicate SeparatorFree(c: Configuration, normalize: Normalizer) {
    && (forall i :: 0 <= i < |c.attributes| ==> NoSeparator(Normalized(normalize, c.attributes[i].values)))
    && (forall v :: 0 <= v < |c.variants| ==> NoSeparator(Normalized(normalize, c.variants[v])))
  }

  lemma ChosenSeparatorFree(c: Configuration, normalize: Normalizer, k: Combination)
    requires SeparatorFree(c, normalize) && Chosen(c.attributes, normalize, |c.attributes|, k)
    ensures NoSeparator(k)
  {
    forall i | 0 <= i < |k| ensures Separator !in k[i] {
      var values := Normalized(normalize, c.attributes[i].values);
      assert NoSeparator(values);
      var j :| 0 <= j < |values| && values[j] == k[i];
    }
  }

  function Selections(c: Configuration, normalize: Normalizer): (r: seq<Combination>)
    ensures |r| == |c.variants| && forall v :: 0 <= v < |r| ==> r[v] == Normalized(normalize, c.variants[v])
  {
    seq(|c.variants|, v requires 0 <= v < |c.variants| => Normalized(normalize, c.variants[v]))
  }

  lemma KeyNamesCombination(c: Configuration, normalize: Normalizer, selection: Combination)
    requires SeparatorFree(c, normalize) && NoSeparator(selection) && |selection| == |c.attributes|
    ensures Joined(selection) in Keys(Combinations(c.attributes, normalize, |c.attributes|))
            <==> Chosen(c.attributes, normalize, |c.attributes|, selection)
  {
    hide Joined, Combinations;
    var combinations := Combinations(c.attributes, normalize, |c.attributes|);
    CombinationsAreChoices(c.attributes, normalize, |c.attributes|, selection);
    if selection in combinations {
      var i :| 0 <= i < |combinations| && combinations[i] == selection;
      assert Keys(combinations)[i] == Joined(selection);
    }
    if Joined(selection) in Keys(combinations) {
      var i :| 0 <= i < |combinations| && Keys(combinations)[i] == Joined(selection);
      assert combinations[i] in combinations;
      CombinationsAreChoices(c.attributes, normalize, |c.attributes|, combinations[i]);
      ChosenSeparatorFree(c, normalize, combinations[i]);
      KeysDetermine(selection, combinations[i]);
    }
  }

  /** Every variant selects a listed value of each attribute. */
  ghost predicate AllListed(c: Configuration, normalize: Normalizer) {
    forall v :: 0 <= v < |c.variants| ==> Chosen(c.attributes, normalize, |c.attributes|, Normalized(normalize, c.variants[v]))
  }

  /** No two combinations share a key. */
  ghost predicate KeysApart(c: Configuration, normalize: Normalizer) {
    Distinct(Keys(Combinations(c.attributes, normalize, |c.attributes|)))
  }

  lemma SelectionsDiffer(c: Configuration, normalize: Normalizer)
    requires Accepted(c, normalize)
    ensures Distinct(Selections(c, normalize))
  {
    hide Joined, Combinations, NamesDistinct, ValuesDistinct, Count;
    var selections := Selections(c, normalize);
    forall v, w | 0 <= v < w < |selections| ensures selections[v] != selections[w] {
      assert VariantKeys(c, normalize)[v] != VariantKeys(c, normalize)[w];
    }
  }

  lemma SelectionsListed(c: Configuration, normalize: Normalizer, v: nat)
    requires AllListed(c, normalize) && v < |c.variants|
    ensures Selections(c, normalize)[v] in Combinations(c.attributes, normalize, |c.attributes|)
  {
    CombinationsAreChoices(c.attributes, normalize, |c.attributes|, Selections(c, normalize)[v]);
    hide Combinations, Chosen;
  }

  lemma AcceptedCounts(c: Configuration, normalize: Normalizer)
    requires Accepted(c, normalize)
    ensures |c.variants| == |Combinations(c.attributes, normalize, |c.attributes|)| && ValuesDistinct(c.attributes, normalize)
    ensures Distinct(VariantKeys(c, normalize))
  {
    CombinationsAreChoices(c.attributes, normalize, |c.attributes|, []);
    hide Combinations, NamesDistinct, Joined;
  }

  /** With every combination selected, the variants are complete. */
  lemma SelectedIsComplete(c: Configuration, normalize: Normalizer)
    requires AllListed(c, normalize) && Distinct(Selections(c, normalize))
    requires forall k: Combination :: k in Combinations(c.attributes, normalize, |c.attributes|) ==> k in Selections(c, normalize)
    ensures Complete(c, normalize)
  {
    hide Combinations, Chosen;
    var selections := Selections(c, normalize);
    forall k: Combination | Chosen(c.attributes, normalize, |c.attributes|, k) ensures Offered(c, normalize, k) {
      CombinationsAreChoices(c.attributes, normalize, |c.attributes|, k);
      var v :| 0 <= v < |selections| && selections[v] == k;
    }
  }

  /** An accepted configuration whose variants select listed values has each combination once, under
      keys of their own. */
  lemma AcceptedIsComplete(c: Configuration, normalize: Normalizer)
    requires Accepted(c, normalize) && AllListed(c, normalize)
    ensures Complete(c, normalize) && KeysApart(c, normalize)
  {
    var n := |c.attributes|;
    var selections, combinations := Selections(c, normalize), Combinations(c.attributes, normalize, n);
    SelectionsDiffer(c, normalize);
    AcceptedCounts(c, normalize);
    CombinationsDistinct(c.attributes, normalize, n);
    hide Joined, Combinations, Chosen, NamesDistinct, ValuesDistinct, Accepted, AllListed, Complete, Selections, VariantKeys, Keys;
    forall v | 0 <= v < |selections| ensures selections[v] in combinations {
      SelectionsListed(c, normalize, v);
    }
    AllReceived(selections, combinations);
    forall k: Combination | k in combinations ensures k in selections {
      assert k in Members(combinations) && k in Members(selections);
    }
    SelectedIsComplete(c, normalize);
    ReceivedKeysApart(c, normalize, selections, combinations);
  }

  lemma ReceivedKeysApart(c: Configuration, normalize: Normalizer, selections: seq<Combination>, combinations: seq<Combination>)
    requires selections == Selections(c, normalize) && Distinct(VariantKeys(c, normalize))
    requires Distinct(combinations) && forall k: Combination :: k in combinations ==> k in selections
    ensures Distinct(Keys(combinations))
  {
    hide Joined;
    forall i, j | 0 <= i < j < |combinations| ensures Keys(combinations)[i] != Keys(combinations)[j] {
      assert combinations[i] in combinations && combinations[j] in combinations;
      var v :| 0 <= v < |selections| && selections[v] == combinations[i];
      var w :| 0 <= w < |selections| && selections[w] == combinations[j];
      assert VariantKeys(c, normalize)[v] == Joined(selections[v]) && VariantKeys(c, normalize)[w] == Joined(selections[w]);
      assert VariantKeys(c, normalize)[v] != VariantKeys(c, normalize)[w];
    }
  }

  /** Variants that are the combinations, under keys of their own, have distinct expected keys. */
  lemma OwnKeys(c: Configuration, normalize: Normalizer, selections: seq<Combination>, combinations: seq<Combination>)
    requires selections == Selections(c, normalize) && Distinct(Keys(combinations))
    requires forall v :: 0 <= v < |selections| ==> selections[v] in combinations
    requires forall v, w :: 0 <= v < w < |selections| ==> selections[v] != selections[w]
    ensures forall v :: 0 <= v < |c.variants| ==> VariantKeys(c, normalize)[v] in Keys(combinations)
    ensures Distinct(VariantKeys(c, normalize))
  {
    hide Joined;
    forall v | 0 <= v < |c.variants| ensures VariantKeys(c, normalize)[v] in Keys(combinations) {
      var i :| 0 <= i < |combinations| && combinations[i] == selections[v];
      assert Keys(combinations)[i] == VariantKeys(c, normalize)[v];
    }
    forall v, w | 0 <= v < w < |c.variants| ensures VariantKeys(c, normalize)[v] != VariantKeys(c, normalize)[w] {
      var i :| 0 <= i < |combinations| && combinations[i] == selections[v];
      var j :| 0 <= j < |combinations| && combinations[j] == selections[w];
      assert i != j;
      assert Keys(combinations)[i] == VariantKeys(c, normalize)[v] && Keys(combinations)[j] == VariantKeys(c, normalize)[w];
    }
  }

  lemma SameMembers(c: Configuration, normalize: Normalizer)
    requires Complete(c, normalize)
    ensures var selections, combinations := Selections(c, normalize), Combinations(c.attributes, normalize, |c.attributes|);
            Members(selections) == Members(combinations)
  {
    hide Combinations, Chosen;
    var n := |c.attributes|;
    var selections, combinations := Selections(c, normalize), Combinations(c.attributes, normalize, n);
    forall x: Combination ensures x in Members(selections) <==> x in Members(combinations) {
      CombinationsAreChoices(c.attributes, normalize, n, x);
      if x in selections {
        var v :| 0 <= v < |selections| && selections[v] == x;
      }
      if x in combinations {
        assert Offered(c, normalize, x);
        var v :| 0 <= v < |c.variants| && Normalized(normalize, c.variants[v]) == x;
        assert selections[v] == x;
      }
    }
  }

  lemma CompleteIsAccepted(c: Configuration, normalize: Normalizer)
    requires KeysApart(c, normalize) && Complete(c, normalize)
    requires NamesDistinct(c.attributes, normalize) && ValuesDistinct(c.attributes, normalize)
    requires Count(c.attributes, |c.attributes|) <= MaximumCombinations
    ensures Accepted(c, normalize) && AllListed(c, normalize)
  {
    hide Joined, Combinations, NamesDistinct, Chosen, Count;
    var n := |c.attributes|;
    var selections, combinations := Selections(c, normalize), Combinations(c.attributes, normalize, n);
    CombinationsAreChoices(c.attributes, normalize, n, []);
    CombinationsDistinct(c.attributes, normalize, n);
    hide ValuesDistinct;
    SameMembers(c, normalize);
    DistinctSize(selections);
    DistinctSize(combinations);
    forall v | 0 <= v < |c.variants| ensures |c.variants[v]| == n && selections[v] in combinations {
      assert Chosen(c.attributes, normalize, n, selections[v]);
      ChosenLength(c.attributes, normalize, n, selections[v]);
      CombinationsAreChoices(c.attributes, normalize, n, selections[v]);
    }
    OwnKeys(c, normalize, selections, combinations);
  }

  lemma ChosenLength(attributes: seq<Attribute>, normalize: Normalizer, n: nat, c: Combination)
    requires n <= |attributes| && Chosen(attributes, normalize, n, c)
    ensures |c| == n
  {
  }

  /** Of the configurations whose variants select listed values, exactly those are accepted whose names
      and values are distinct, that have at most 100 combinations, no two of them under one key, and
      whose variants are those combinations, one for one. */
  lemma AcceptanceIsExact(c: Configuration, normalize: Normalizer)
    ensures Accepted(c, normalize) && AllListed(c, normalize)
            <==> && NamesDistinct(c.attributes, normalize) && ValuesDistinct(c.attributes, normalize)
                 && Count(c.attributes, |c.attributes|) <= MaximumCombinations
                 && Complete(c, normalize) && KeysApart(c, normalize)
  {
    if Accepted(c, normalize) && AllListed(c, normalize) {
      AcceptedIsComplete(c, normalize);
      hide *;
      AcceptedParts(c, normalize);
    } else {
      hide *;
      if NamesDistinct(c.attributes, normalize) && ValuesDistinct(c.attributes, normalize)
         && Count(c.attributes, |c.attributes|) <= MaximumCombinations && Complete(c, normalize) && KeysApart(c, normalize) {
        CompleteIsAccepted(c, normalize);
      }
    }
  }

  lemma AcceptedParts(c: Configuration, normalize: Normalizer)
    requires Accepted(c, normalize)
    ensures NamesDistinct(c.attributes, normalize) && ValuesDistinct(c.attributes, normalize)
    ensures Count(c.attributes, |c.attributes|) <= MaximumCombinations
  {
  }

  /** Without a separator inside a value, an accepted variant selects listed values and no two
      combinations share a key. */
  lemma SeparatorFreeIsListed(c: Configuration, normalize: Normalizer)
    requires SeparatorFree(c, normalize)
    ensures Accepted(c, normalize) ==> AllListed(c, normalize)
    ensures ValuesDistinct(c.attributes, normalize) ==> KeysApart(c, normalize)
  {
    hide Joined, Combinations, Chosen, NamesDistinct;
    var n := |c.attributes|;
    if Accepted(c, normalize) {
      forall v | 0 <= v < |c.variants| ensures Chosen(c.attributes, normalize, n, Normalized(normalize, c.variants[v])) {
        KeyNamesCombination(c, normalize, Normalized(normalize, c.variants[v]));
        assert VariantKeys(c, normalize)[v] == Joined(Normalized(normalize, c.variants[v]));
      }
    }
    if ValuesDistinct(c.attributes, normalize) {
      CombinationsDistinct(c.attributes, normalize, n);
      hide ValuesDistinct, Accepted, SeparatorFree;
      var combinations := Combinations(c.attributes, normalize, n);
      forall i, j | 0 <= i < j < |combinations| ensures Keys(combinations)[i] != Keys(combinations)[j] {
        assert combinations[i] in combinations && combinations[j] in combinations;
        CombinationsAreChoices(c.attributes, normalize, n, combinations[i]);
        CombinationsAreChoices(c.attributes, normalize, n, combinations[j]);
        ChosenSeparatorFree(c, normalize, combinations[i]);
        ChosenSeparatorFree(c, normalize, combinations[j]);
        ChosenLength(c.attributes, normalize, n, combinations[i]);
        ChosenLength(c.attributes, normalize, n, combinations[j]);
        if Joined(combinations[i]) == Joined(combinations[j]) {
          KeysDetermine(combinations[i], combinations[j]);
        }
      }
    }
  }

  /** Without a separator inside a value, a configuration is accepted exactly when names and values are
      distinct, it has at most 100 combinations, and its variants are those combinations, one for one. */
  lemma AcceptanceIsCompleteness(c: Configuration, normalize: Normalizer)
    requires SeparatorFree(c, normalize)
    ensures Accepted(c, normalize)
            <==> && NamesDistinct(c.attributes, normalize) && ValuesDistinct(c.attributes, normalize)
                 && Count(c.attributes, |c.attributes|) <= MaximumCombinations && Complete(c, normalize)
  {
    hide *;
    SeparatorFreeIsListed(c, normalize);
    AcceptanceIsExact(c, normalize);
  }

  const SplitValues := Configuration([Attribute("X", ["A"]), Attribute("Y", ["B\U{00}C"])], [["A\U{00}B", "C"]])

  lemma OneOption(combination: Combination, option: string, normalize: Normalizer)
    ensures Extended([combination], [option], normalize) == [combination + [normalize(option)]]
  {
    var options, one := [option], [combination];
    assert WithEach(combination, options, normalize)[0] == combination + [normalize(options[0])];
    assert WithEach(combination, options, normalize) == [combination + [normalize(option)]];
    assert one[1..] == [];
    assert Extended(one, options, normalize) == WithEach(one[0], options, normalize) + Extended(one[1..], options, normalize);
  }

  /** Normalising leaves the words of the configuration as they are; they are capitals already. */
  ghost predicate Keeps(normalize: Normalizer) {
    forall s :: s in {"X", "Y", "A", "B\U{00}C", "A\U{00}B", "C"} ==> normalize(s) == s
  }

  const Expected: Combination := ["A", "B\U{00}C"]
  const Received: Combination := ["A\U{00}B", "C"]

  lemma SplitCombinations(same: Normalizer)
    requires Keeps(same)
    ensures Combinations(SplitValues.attributes, same, 2) == [Expected] && Count(SplitValues.attributes, 2) == 1
  {
    hide Extended, WithEach;
    var attributes := SplitValues.attributes;
    OneOption([], "A", same);
    OneOption(["A"], "B\U{00}C", same);
    assert [] + ["A"] == ["A"] && ["A"] + ["B\U{00}C"] == Expected;
    assert attributes[0].values == ["A"] && attributes[1].values == ["B\U{00}C"];
    assert Combinations(attributes, same, 0) == [[]];
    assert Combinations(attributes, same, 1) == Extended([[]], ["A"], same);
    assert Combinations(attributes, same, 2) == Extended([["A"]], ["B\U{00}C"], same);
    assert Count(attributes, 1) == 1;
  }

  lemma TwoJoined(a: string, b: string)
    ensures Joined([a, b]) == a + [Separator] + b
  {
    assert [a, b][1..] == [b];
  }

  lemma SplitKeys()
    ensures Joined(Expected) == Joined(Received)
  {
    TwoJoined("A", "B\U{00}C");
    TwoJoined("A\U{00}B", "C");
    assert "A" + [Separator] + "B\U{00}C" == "A\U{00}B" + [Separator] + "C";
  }

  lemma SplitVariant(same: Normalizer)
    requires Keeps(same)
    ensures |SplitValues.variants| == 1 && Normalized(same, SplitValues.variants[0]) == Received && |SplitValues.variants[0]| == 2
    ensures |SplitValues.attributes| == 2 && NamesDistinct(SplitValues.attributes, same) && ValuesDistinct(SplitValues.attributes, same)
    ensures Received != Expected
  {
    assert Normalized(same, SplitValues.variants[0]) == Received;
    assert Received[0] != Expected[0];
  }

  /** With one inside, under any such normalisation, a variant of values nobody listed can carry an
      expected key and is accepted. */
  lemma SeparatorInsideIsAccepted(same: Normalizer)
    requires Keeps(same)
    ensures Accepted(SplitValues, same) && !Complete(SplitValues, same)
  {
    SplitCombinations(same);
    SplitKeys();
    SplitVariant(same);
    CombinationsAreChoices(SplitValues.attributes, same, 2, Received);
    hide Combinations, Count, Joined, NamesDistinct, ValuesDistinct, Keeps, Normalized;
    assert Keys([Expected])[0] == VariantKeys(SplitValues, same)[0];
    assert Received !in [Expected];
  }
}
