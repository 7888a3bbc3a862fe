/** Product variants: an accepted configuration has exactly one variant for every combination of
    attribute values. `normalize` stands for the catalogue's normalisation of names and values. */
module Variants {
  import opened Outcomes

  type Normalizer = string -> string
  type Combination = seq<string>

  datatype Attribute = Attribute(name: string, values: seq<string>)

  datatype Configuration = Configuration(attributes: seq<Attribute>, variants: seq<seq<string>>)

  const MaximumCombinations := 100
  const Separator := '\U{00}'

  function Normalized(normalize: Normalizer, values: seq<string>): (r: Combination)
    ensures |r| == |values| && forall i :: 0 <= i < |r| ==> r[i] == normalize(values[i])
  {
    seq(|values|, i requires 0 <= i < |values| => normalize(values[i]))
  }

  predicate Distinct<T(==)>(s: seq<T>) {
    forall j, k :: 0 <= j < k < |s| ==> s[j] != s[k]
  }

  // ----- The combinations -----

  function WithEach(combination: Combination, options: seq<string>, normalize: Normalizer): (r: seq<Combination>)
    ensures |r| == |options|
  {
    seq(|options|, i requires 0 <= i < |options| => combination + [normalize(options[i])])
  }

  function Extended(combinations: seq<Combination>, options: seq<string>, normalize: Normalizer): seq<Combination> {
    if combinations == [] then [] else WithEach(combinations[0], options, normalize) + Extended(combinations[1..], options, normalize)
  }

  /** The Cartesian product of the values of the first n attributes. */
  function Combinations(attributes: seq<Attribute>, normalize: Normalizer, n: nat): seq<Combination>
    requires n <= |attributes|
  {
    if n == 0 then [[]] else Extended(Combinations(attributes, normalize, n - 1), attributes[n - 1].values, normalize)
  }

  function Count(attributes: seq<Attribute>, n: nat): nat
    requires n <= |attributes|
  {
    if n == 0 then 1 else Count(attributes, n - 1) * |attributes[n - 1].values|
  }

  /** The parts joined by the separator. */
  function Joined(parts: Combination): string {
    if parts == [] then "" else if |parts| == 1 then parts[0] else parts[0] + [Separator] + Joined(parts[1..])
  }

  // ----- The accepted configurations -----

  predicate NamesDistinct(attributes: seq<Attribute>, normalize: Normalizer) {
    forall j, k :: 0 <= j < k < |attributes| ==> normalize(attributes[j].name) != normalize(attributes[k].name)
  }

  predicate ValuesDistinct(attributes: seq<Attribute>, normalize: Normalizer) {
    forall i :: 0 <= i < |attributes| ==> Distinct(Normalized(normalize, attributes[i].values))
  }

  function Keys(combinations: seq<Combination>): (r: seq<string>)
    ensures |r| == |combinations| && forall i :: 0 <= i < |r| ==> r[i] == Joined(combinations[i])
  {
    seq(|combinations|, i requires 0 <= i < |combinations| => Joined(combinations[i]))
  }

  function VariantKeys(c: Configuration, normalize: Normalizer): (r: seq<string>)
    ensures |r| == |c.variants| && forall i :: 0 <= i < |r| ==> r[i] == Joined(Normalized(normalize, c.variants[i]))
  {
    seq(|c.variants|, i requires 0 <= i < |c.variants| => Joined(Normalized(normalize, c.variants[i])))
  }

  /** What the validator checks, key by key. */
  ghost predicate Accepted(c: Configuration, normalize: Normalizer) {
    && NamesDistinct(c.attributes, normalize) && ValuesDistinct(c.attributes, normalize)
    && Count(c.attributes, |c.attributes|) <= MaximumCombinations && |c.variants| == Count(c.attributes, |c.attributes|)
    && (forall v :: 0 <= v < |c.variants| ==>
          |c.variants[v]| == |c.attributes|
          && VariantKeys(c, normalize)[v] in Keys(Combinations(c.attributes, normalize, |c.attributes|)))
    && Distinct(VariantKeys(c, normalize))
  }

  /** Names seen once, one after the other. */
  method CheckDistinct(values: seq<string>) returns (distinct: bool)
    ensures distinct <==> Distinct(values)
  {
    var seen: set<string> := {};
    var i := 0;
    while i < |values|
      invariant i <= |values| && Distinct(values[..i])
      invariant forall s :: s in seen <==> s in values[..i]
    {
      if values[i] in seen {
        ghost var k :| 0 <= k < i && values[..i][k] == values[i];
        assert values[k] == values[i];
        return false;
      }
      seen := seen + {values[i]};
      i := i + 1;
    }
    assert values[..i] == values;
    return true;
  }

  /** validateVariantConfiguration: sets of names, values, expected and received keys. */
  method Validate(c: Configuration, normalize: Normalizer) returns (r: Result<seq<Attribute>>)
    ensures r.Ok? <==> Accepted(c, normalize)
    ensures r.Ok? ==> r.value == c.attributes
    ensures r.Err? ==> r == Err(InvalidVariants)
  {
    var n := |c.attributes|;
    var names := Normalized(normalize, seq(n, i requires 0 <= i < n => c.attributes[i].name));
    var distinct := CheckDistinct(names);
    assert distinct <==> NamesDistinct(c.attributes, normalize) by {
      assert forall i :: 0 <= i < n ==> names[i] == normalize(c.attributes[i].name);
    }
    if !distinct {
      return Err(InvalidVariants);
    }
    var i := 0;
    while i < n
      invariant i <= n && forall k :: 0 <= k < i ==> Distinct(Normalized(normalize, c.attributes[k].values))
    {
      distinct := CheckDistinct(Normalized(normalize, c.attributes[i].values));
      if !distinct {
        return Err(InvalidVariants);
      }
      i := i + 1;
    }
    if Count(c.attributes, n) > MaximumCombinations || |c.variants| != Count(c.attributes, n) {
      return Err(InvalidVariants);
    }
    var complete := CheckVariants(c, normalize);
    return if complete then Ok(c.attributes) else Err(InvalidVariants);
  }

  /** Every variant selects a value for each attribute and has an expected key not received before. */
  method CheckVariants(c: Configuration, normalize: Normalizer) returns (complete: bool)
    ensures complete <==>
              && (forall v :: 0 <= v < |c.variants| ==>
                    |c.variants[v]| == |c.attributes|
                    && VariantKeys(c, normalize)[v] in Keys(Combinations(c.attributes, normalize, |c.attributes|)))
              && Distinct(VariantKeys(c, normalize))
  {
    hide Joined, Combinations, Normalized;
    var expected := Keys(Combinations(c.attributes, normalize, |c.attributes|));
    ghost var keys := VariantKeys(c, normalize);
    var received: set<string> := {};
    var v := 0;
    while v < |c.variants|
      invariant v <= |c.variants| && Distinct(keys[..v])
      invariant forall k :: 0 <= k < v ==> |c.variants[k]| == |c.attributes| && keys[k] in expected
      invariant forall s :: s in received <==> s in keys[..v]
    {
      if |c.variants[v]| != |c.attributes| {
        return false;
      }
      var key := Joined(Normalized(normalize, c.variants[v]));
      assert key == keys[v];
      if key !in expected {
        return false;
      }
      if key in received {
        ghost var k :| 0 <= k < v && keys[..v][k] == key;
        assert keys[k] == keys[v];
        return false;
      }
      received := received + {key};
      v := v + 1;
    }
    assert keys[..v] == keys;
    return true;
  }
}
