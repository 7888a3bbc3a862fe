/** What a void or return gives back to the layers, said of the allocations themselves. */
module FifoReversalMeaning {
  import opened Outcomes
  import opened Sums
  import opened Rounding
  import opened Movements
  import opened Selection
  import opened Fifo
  import opened FifoInvariants
  import opened FifoSteps
  import opened FifoRuns
  import FifoExactness
  import KitExactness

  /** The allocation is a draw of a sale of the line at the place, and of the named sale if one is named. */
  ghost predicate SoldOnLine(book: Book, x: nat, m: Movement) {
    x < |book.allocations| && book.allocations[x].movement < |book.movements|
    && var sale := book.movements[book.allocations[x].movement];
       && sale.kind == Sale && m.saleLine.Some? && sale.saleLine == m.saleLine && sale.location == m.location
       && (m.sourceSale.Some? ==> m.sourceSale.value == book.allocations[x].movement)
  }

  ghost function BackOf(x: nat): Allocation -> int {
    (a: Allocation) => if a.source == Some(x) then a.quantity else 0
  }

  /** What has come back of a draw. */
  ghost function CameBack(allocations: seq<Allocation>, x: nat): int {
    Total(allocations, BackOf(x))
  }

  ghost function OnLayer(i: nat): Allocation -> int {
    (a: Allocation) => if a.layer == i then a.quantity else 0
  }

  ghost function Units(): Allocation -> int {
    (a: Allocation) => a.quantity
  }

  ghost function NewOnes(before: Book, after: Book): seq<Allocation>
    requires |before.allocations| <= |after.allocations|
  {
    after.allocations[|before.allocations|..]
  }

  /** The allocation gives some of draw x back to its layer at the layer's cost. */
  ghost predicate GivesBack(before: Book, a: Allocation, movement: nat, x: nat) {
    x < |before.allocations| && before.allocations[x].layer < |before.layers| && a.quantity > 0
    && var l := before.layers[before.allocations[x].layer];
       a == Allocation(movement, before.allocations[x].layer, Some(x), a.quantity, l.unitCost, l.currency,
                       QuantityValue(a.quantity, l.unitCost), RestoreMode)
  }

  ghost predicate Appended(before: Book, after: Book) {
    |before.allocations| <= |after.allocations| && after.allocations[..|before.allocations|] == before.allocations
  }

  ghost predicate AllGiveBack(before: Book, after: Book, movement: nat, sources: seq<nat>)
    requires |before.allocations| <= |after.allocations|
  {
    forall a :: a in NewOnes(before, after) ==> a.source.Some? && a.source.value in sources && GivesBack(before, a, movement, a.source.value)
  }

  /** Each layer has grown by what came back to it, and is otherwise as it was. */
  ghost predicate LayersGrown(before: Book, after: Book)
    requires |before.allocations| <= |after.allocations|
  {
    && |after.layers| == |before.layers|
    && forall i: nat | i < |before.layers| ::
         after.layers[i] == before.layers[i].(remaining := before.layers[i].remaining + Total(NewOnes(before, after), OnLayer(i)))
  }

  /** A draw gets something back only within what it drew, and only when all of every earlier one came back. */
  ghost predicate InOrderOf(before: Book, after: Book, sources: seq<nat>)
    requires forall k :: 0 <= k < |sources| ==> sources[k] < |before.allocations|
  {
    && (forall k :: 0 <= k < |sources| && CameBack(after.allocations, sources[k]) != CameBack(before.allocations, sources[k]) ==>
          CameBack(before.allocations, sources[k]) < CameBack(after.allocations, sources[k]) <= -before.allocations[sources[k]].quantity)
    && (forall j, k :: 0 <= j < k < |sources| ==>
          CameBack(after.allocations, sources[k]) == CameBack(before.allocations, sources[k])
          || -before.allocations[sources[j]].quantity <= CameBack(after.allocations, sources[j]))
  }

  ghost predicate OthersSame(before: Book, after: Book, sources: seq<nat>) {
    forall x: nat :: x !in sources ==> CameBack(after.allocations, x) == CameBack(before.allocations, x)
  }

  ghost predicate Given(before: Book, after: Book, movement: nat, sources: seq<nat>, quantity: int)
    requires forall k :: 0 <= k < |sources| ==> sources[k] < |before.allocations|
  {
    && Appended(before, after) && AllGiveBack(before, after, movement, sources) && LayersGrown(before, after)
    && InOrderOf(before, after, sources) && OthersSame(before, after, sources)
    && Total(NewOnes(before, after), Units()) == quantity
  }

  ghost predicate Rising(book: Book, sources: seq<nat>) {
    && (forall k :: 0 <= k < |sources| ==> sources[k] < |book.allocations|)
    && (forall j, k :: 0 <= j < k < |sources| ==> sources[j] < sources[k])
  }

  lemma NothingGiven(book: Book, movement: nat, sources: seq<nat>)
    requires Rising(book, sources)
    ensures Given(book, book, movement, sources, 0)
  {
    assert NewOnes(book, book) == [];
    forall i: nat | i < |book.layers| ensures book.layers[i] == book.layers[i].(remaining := book.layers[i].remaining + Total([], OnLayer(i))) {
    }
  }

  lemma {:induction false} RestDoesNothing(book: Book, movement: nat, sources: seq<nat>, expected: int, restored: int, value: int)
    requires Rising(book, sources) && expected <= restored
    ensures var r := Restore(book, movement, sources, expected, restored, value); r.Ok? ==> r.value.book == book && expected == restored
    decreases |sources|
  {
    if sources != [] {
      RestDoesNothing(book, movement, sources[1..], expected, restored, value);
    }
  }

  /** A round without a gift leaves the rest to the other sources. */
  lemma Skipped(before: Book, after: Book, movement: nat, sources: seq<nat>, quantity: int)
    requires Rising(before, sources) && sources != [] && Rising(before, sources[1..]) && Given(before, after, movement, sources[1..], quantity)
    requires -before.allocations[sources[0]].quantity <= CameBack(before.allocations, sources[0])
    ensures Given(before, after, movement, sources, quantity)
  {
    hide CameBack, LayersGrown, GivesBack;
    assert sources == [sources[0]] + sources[1..];
    assert sources[0] !in sources[1..];
    assert CameBack(after.allocations, sources[0]) == CameBack(before.allocations, sources[0]);
    forall j, k | 0 <= j < k < |sources|
      ensures CameBack(after.allocations, sources[k]) == CameBack(before.allocations, sources[k])
              || -before.allocations[sources[j]].quantity <= CameBack(after.allocations, sources[j])
    {
      if j > 0 {
        assert sources[j] == sources[1..][j - 1] && sources[k] == sources[1..][k - 1];
      }
    }
    forall k | 0 <= k < |sources| && CameBack(after.allocations, sources[k]) != CameBack(before.allocations, sources[k])
      ensures CameBack(before.allocations, sources[k]) < CameBack(after.allocations, sources[k]) <= -before.allocations[sources[k]].quantity
    {
      assert sources[k] == sources[1..][k - 1];
    }
  }

  /** One gift to the first source. */
  ghost predicate Gift(before: Book, next: Book, a: Allocation, movement: nat, x: nat) {
    && GivesBack(before, a, movement, x) && next.allocations == before.allocations + [a]
    && next.layers == before.layers[a.layer := before.layers[a.layer].(remaining := before.layers[a.layer].remaining + a.quantity)]
  }

  lemma GiftCounts(before: Book, next: Book, a: Allocation, movement: nat, x: nat)
    requires Gift(before, next, a, movement, x)
    ensures forall y: nat :: CameBack(next.allocations, y) == CameBack(before.allocations, y) + (if y == x then a.quantity else 0)
  {
    forall y: nat ensures CameBack(next.allocations, y) == CameBack(before.allocations, y) + (if y == x then a.quantity else 0) {
      TotalAppend(before.allocations, a, BackOf(y));
    }
  }

  lemma OfOne(a: Allocation, f: Allocation -> int)
    ensures Total([a], f) == f(a)
  {
    assert [a] == [] + [a];
    TotalAppend([], a, f);
  }

  lemma NewOnesGrow(before: Book, next: Book, after: Book, a: Allocation)
    requires next.allocations == before.allocations + [a] && Appended(next, after)
    ensures Appended(before, after) && NewOnes(before, after) == [a] + NewOnes(next, after)
  {
    assert after.allocations == next.allocations + NewOnes(next, after);
  }

  lemma TotalGrows(before: Book, next: Book, after: Book, a: Allocation, f: Allocation -> int)
    requires next.allocations == before.allocations + [a] && Appended(next, after)
    ensures Appended(before, after) && Total(NewOnes(before, after), f) == f(a) + Total(NewOnes(next, after), f)
  {
    NewOnesGrow(before, next, after, a);
    TotalConcat([a], NewOnes(next, after), f);
    OfOne(a, f);
  }

  lemma LayersGrowOn(before: Book, next: Book, after: Book, a: Allocation, movement: nat, x: nat)
    requires Gift(before, next, a, movement, x) && Appended(next, after) && LayersGrown(next, after)
    ensures Appended(before, after) && LayersGrown(before, after)
  {
    NewOnesGrow(before, next, after, a);
    hide QuantityValue, Total;
    forall i: nat | i < |before.layers|
      ensures after.layers[i] == before.layers[i].(remaining := before.layers[i].remaining + Total(NewOnes(before, after), OnLayer(i)))
    {
      TotalGrows(before, next, after, a, OnLayer(i));
    }
  }

  lemma AllGiveOn(before: Book, next: Book, after: Book, a: Allocation, movement: nat, sources: seq<nat>)
    requires Rising(before, sources) && sources != [] && Gift(before, next, a, movement, sources[0])
    requires Appended(next, after) && AllGiveBack(next, after, movement, sources[1..])
    ensures Appended(before, after) && AllGiveBack(before, after, movement, sources)
  {
    NewOnesGrow(before, next, after, a);
    hide QuantityValue;
    forall b | b in NewOnes(before, after)
      ensures b.source.Some? && b.source.value in sources && GivesBack(before, b, movement, b.source.value)
    {
      if b != a {
        assert b in NewOnes(next, after);
        var y := b.source.value;
        assert y in sources[1..] && y in sources;
        assert next.allocations[y] == before.allocations[y];
      }
    }
  }

  lemma RestAsBefore(before: Book, next: Book, a: Allocation, movement: nat, sources: seq<nat>)
    requires Rising(before, sources) && sources != [] && Gift(before, next, a, movement, sources[0])
    ensures sources[0] !in sources[1..]
    ensures forall k :: 1 <= k < |sources| ==>
              && sources[k] == sources[1..][k - 1] && sources[k] < |next.allocations| && next.allocations[sources[k]] == before.allocations[sources[k]]
              && CameBack(next.allocations, sources[k]) == CameBack(before.allocations, sources[k])
  {
    GiftCounts(before, next, a, movement, sources[0]);
    hide CameBack, GivesBack;
  }

  lemma OrderOn(before: Book, next: Book, after: Book, a: Allocation, movement: nat, sources: seq<nat>)
    requires Rising(before, sources) && sources != [] && Gift(before, next, a, movement, sources[0])
    requires Rising(next, sources[1..]) && InOrderOf(next, after, sources[1..]) && OthersSame(next, after, sources[1..])
    requires CameBack(before.allocations, sources[0]) + a.quantity <= -before.allocations[sources[0]].quantity
    requires CameBack(before.allocations, sources[0]) + a.quantity == -before.allocations[sources[0]].quantity || after.allocations == next.allocations
    ensures InOrderOf(before, after, sources)
  {
    GiftCounts(before, next, a, movement, sources[0]);
    RestAsBefore(before, next, a, movement, sources);
    assert a.quantity > 0;
    hide CameBack, Gift, Rising;
    assert CameBack(after.allocations, sources[0]) == CameBack(before.allocations, sources[0]) + a.quantity;
    forall j, k | 0 <= j < k < |sources|
      ensures CameBack(after.allocations, sources[k]) == CameBack(before.allocations, sources[k])
              || -before.allocations[sources[j]].quantity <= CameBack(after.allocations, sources[j])
    {
      assert sources[k] == sources[1..][k - 1];
      if j > 0 {
        assert sources[j] == sources[1..][j - 1];
      }
    }
    forall k | 0 <= k < |sources| && CameBack(after.allocations, sources[k]) != CameBack(before.allocations, sources[k])
      ensures CameBack(before.allocations, sources[k]) < CameBack(after.allocations, sources[k]) <= -before.allocations[sources[k]].quantity
    {
      if k > 0 {
        assert sources[k] == sources[1..][k - 1];
      }
    }
  }

  lemma OthersOn(before: Book, next: Book, after: Book, a: Allocation, movement: nat, sources: seq<nat>)
    requires Rising(before, sources) && sources != [] && Gift(before, next, a, movement, sources[0])
    requires OthersSame(next, after, sources[1..])
    ensures OthersSame(before, after, sources)
  {
    GiftCounts(before, next, a, movement, sources[0]);
    hide CameBack, Gift, Rising;
    assert sources == [sources[0]] + sources[1..];
  }

  lemma GiftGiven(before: Book, next: Book, after: Book, a: Allocation, movement: nat, sources: seq<nat>, quantity: int)
    requires Rising(before, sources) && sources != [] && Gift(before, next, a, movement, sources[0])
    requires Rising(next, sources[1..]) && Given(next, after, movement, sources[1..], quantity)
    requires CameBack(before.allocations, sources[0]) + a.quantity <= -before.allocations[sources[0]].quantity
    requires CameBack(before.allocations, sources[0]) + a.quantity == -before.allocations[sources[0]].quantity || after.allocations == next.allocations
    ensures Given(before, after, movement, sources, quantity + a.quantity)
  {
    GivenParts(next, after, movement, sources[1..], quantity);
    hide Given, Gift, GivesBack, CameBack, AllGiveBack, LayersGrown, InOrderOf, OthersSame, Total;
    assert next.allocations == before.allocations + [a] by { GiftAppends(before, next, a, movement, sources[0]); }
    AllGiveOn(before, next, after, a, movement, sources);
    LayersGrowOn(before, next, after, a, movement, sources[0]);
    OrderOn(before, next, after, a, movement, sources);
    OthersOn(before, next, after, a, movement, sources);
    NewOnesGrow(before, next, after, a);
    assert Total(NewOnes(before, after), Units()) == quantity + a.quantity by { UnitsGrow(before, next, after, a, movement, sources[1..], quantity); }
    GivenIs(before, after, movement, sources, quantity + a.quantity);
  }

  lemma GiftAppends(before: Book, next: Book, a: Allocation, movement: nat, x: nat)
    requires Gift(before, next, a, movement, x)
    ensures next.allocations == before.allocations + [a]
  {
  }

  lemma UnitsGrow(before: Book, next: Book, after: Book, a: Allocation, movement: nat, sources: seq<nat>, quantity: int)
    requires next.allocations == before.allocations + [a] && Rising(next, sources) && Given(next, after, movement, sources, quantity)
    ensures Appended(before, after) && Total(NewOnes(before, after), Units()) == quantity + a.quantity
  {
    TotalGrows(before, next, after, a, Units());
    hide Total, AllGiveBack, LayersGrown, InOrderOf, OthersSame;
  }

  lemma GivenParts(before: Book, after: Book, movement: nat, sources: seq<nat>, quantity: int)
    requires Rising(before, sources) && Given(before, after, movement, sources, quantity)
    ensures Appended(before, after) && AllGiveBack(before, after, movement, sources) && LayersGrown(before, after)
            && InOrderOf(before, after, sources) && OthersSame(before, after, sources)
            && Total(NewOnes(before, after), Units()) == quantity
  {
  }

  lemma GivenIs(before: Book, after: Book, movement: nat, sources: seq<nat>, quantity: int)
    requires Rising(before, sources)
    requires Appended(before, after) && AllGiveBack(before, after, movement, sources) && LayersGrown(before, after)
    requires InOrderOf(before, after, sources) && OthersSame(before, after, sources) && Total(NewOnes(before, after), Units()) == quantity
    ensures Given(before, after, movement, sources, quantity)
  {
  }

  lemma {:induction false} SameBack(allocations: seq<Allocation>, x: nat)
    ensures Total(allocations, SourcedFrom(x)) == CameBack(allocations, x)
  {
    TotalSame(allocations, SourcedFrom(x), allocations, BackOf(x));
  }

  lemma {:induction false} RestoreGives(book: Book, movement: nat, sources: seq<nat>, expected: int, restored: int, value: int)
    requires Rising(book, sources)
    ensures var r := Restore(book, movement, sources, expected, restored, value);
            r.Ok? ==> Given(book, r.value.book, movement, sources, expected - restored)
    decreases |sources|
  {
    hide Restore, Post, Gift, Given, CameBack, QuantityValue, Total;
    var r := Restore(book, movement, sources, expected, restored, value);
    if expected <= restored {
      RestDoesNothing(book, movement, sources, expected, restored, value);
      NothingGiven(book, movement, sources);
    } else if r.Ok? {
      RestoreGoesOn(book, movement, sources, expected, restored, value);
      var quantity := Next(book, sources, expected - restored);
      if quantity <= 0 {
        RestoreGives(book, movement, sources[1..], expected, restored, value);
        Skipped(book, r.value.book, movement, sources, expected - restored);
      } else {
        var x := sources[0];
        PostIsGift(book, movement, x, quantity);
        var posted := Post(book, movement, book.allocations[x].layer, Some(x), quantity, RestoreMode);
        StillRising(book, posted.book, sources);
        RestoreGives(posted.book, movement, sources[1..], expected, restored + quantity, value + posted.value);
        RestDoesNothingAfter(posted.book, movement, sources[1..], expected, restored + quantity, value + posted.value);
        GiftGiven(book, posted.book, r.value.book, posted.book.allocations[|book.allocations|], movement, sources,
                  expected - restored - quantity);
      }
    }
  }

  /** What the next round gives back, if it is positive. */
  ghost function Next(book: Book, sources: seq<nat>, needed: int): int
    requires sources != [] && sources[0] < |book.allocations|
  {
    Min(-book.allocations[sources[0]].quantity - CameBack(book.allocations, sources[0]), needed)
  }

  lemma RestoreGoesOn(book: Book, movement: nat, sources: seq<nat>, expected: int, restored: int, value: int)
    requires Rising(book, sources) && restored < expected && Restore(book, movement, sources, expected, restored, value).Ok?
    ensures sources != [] && Rising(book, sources[1..])
    ensures var r, quantity := Restore(book, movement, sources, expected, restored, value), Next(book, sources, expected - restored);
            if quantity <= 0 then r == Restore(book, movement, sources[1..], expected, restored, value)
            else
              && book.allocations[sources[0]].layer < |book.layers|
              && var posted := Post(book, movement, book.allocations[sources[0]].layer, Some(sources[0]), quantity, RestoreMode);
                 && (forall k :: 0 <= k < |sources[1..]| ==> sources[1..][k] < |posted.book.allocations|)
                 && r == Restore(posted.book, movement, sources[1..], expected, restored + quantity, value + posted.value)
  {
    if sources != [] {
      SameBack(book.allocations, sources[0]);
    }
    hide CameBack, QuantityValue, Total, KeyFree;
  }

  lemma RestDoesNothingAfter(book: Book, movement: nat, sources: seq<nat>, expected: int, restored: int, value: int)
    requires Rising(book, sources) && Restore(book, movement, sources, expected, restored, value).Ok?
    ensures expected == restored ==> Restore(book, movement, sources, expected, restored, value).value.book == book
  {
    if expected == restored {
      RestDoesNothing(book, movement, sources, expected, restored, value);
    }
  }

  lemma StillRising(book: Book, next: Book, sources: seq<nat>)
    requires Rising(book, sources) && sources != [] && |book.allocations| <= |next.allocations|
    ensures Rising(next, sources[1..])
  {
  }

  lemma PostIsGift(book: Book, movement: nat, x: nat, quantity: int)
    requires x < |book.allocations| && book.allocations[x].layer < |book.layers| && quantity > 0
    ensures var posted := Post(book, movement, book.allocations[x].layer, Some(x), quantity, RestoreMode);
            |posted.book.allocations| == |book.allocations| + 1
            && posted.book.allocations[|book.allocations|].quantity == quantity
            && Gift(book, posted.book, posted.book.allocations[|book.allocations|], movement, x)
  {
    hide QuantityValue;
  }

  // ----- Which draws -----

  lemma {:induction false} ReversedAre(book: Book, m: Movement, n: nat)
    requires n <= |book.allocations|
    ensures Rising(book, Reversed(book, m, n)) && forall x: nat :: x in Reversed(book, m, n) <==> x < n && Reversible(book, x, m)
  {
    hide Reversible;
    if n > 0 {
      ReversedAre(book, m, n - 1);
    }
  }

  lemma SourcesAreSold(book: Book, averaged: Book, m: Movement)
    requires Linked(book) && averaged.allocations == book.allocations && averaged.movements == book.movements + [m]
    ensures var sources := Reversed(averaged, m, |averaged.allocations|);
            Rising(averaged, sources) && forall x: nat :: x in sources <==> SoldOnLine(book, x, m)
  {
    ReversedAre(averaged, m, |averaged.allocations|);
    forall x: nat | x < |book.allocations| ensures Reversible(averaged, x, m) <==> SoldOnLine(book, x, m) {
      assert book.allocations[x].movement < |book.movements|;
      assert averaged.movements[book.allocations[x].movement] == book.movements[book.allocations[x].movement];
    }
  }

  lemma ReversalBooks(averaged: Book, id: nat)
    requires id < |averaged.movements| == |averaged.figures| && Unbooked(averaged, id) && ApplyFifo(averaged, id).Ok?
    requires averaged.movements[id].quantity > 0 && (averaged.movements[id].kind == SaleVoid || averaged.movements[id].kind == SaleReturn)
    ensures var r := Restore(averaged, id, Reversed(averaged, averaged.movements[id], |averaged.allocations|), averaged.movements[id].quantity, 0, 0);
            && r.Ok? && ApplyFifo(averaged, id).value.book.layers == r.value.book.layers
            && ApplyFifo(averaged, id).value.book.allocations == r.value.book.allocations
  {
    hide Restore, Reversed, SummaryAgrees, WeightedCost;
  }

  /** What a reversal does to draws of its line: each gives back within what it drew, an earlier one all of it
      before a later one any. */
  ghost predicate ComesBackInOrder(before: Book, after: Book, m: Movement) {
    && (forall x: nat | SoldOnLine(before, x, m) && CameBack(after.allocations, x) != CameBack(before.allocations, x) ::
          CameBack(before.allocations, x) < CameBack(after.allocations, x) <= -before.allocations[x].quantity)
    && (forall x: nat, y: nat | SoldOnLine(before, x, m) && SoldOnLine(before, y, m) && x < y ::
          CameBack(after.allocations, y) == CameBack(before.allocations, y)
          || -before.allocations[x].quantity <= CameBack(after.allocations, x))
    && (forall x: nat | !SoldOnLine(before, x, m) :: CameBack(after.allocations, x) == CameBack(before.allocations, x))
  }

  lemma InOrderMeans(book: Book, averaged: Book, restored: Book, m: Movement, sources: seq<nat>, after: Book)
    requires averaged.allocations == book.allocations && after.allocations == restored.allocations
    requires Rising(averaged, sources) && InOrderOf(averaged, restored, sources) && OthersSame(averaged, restored, sources)
    requires forall x: nat :: x in sources <==> SoldOnLine(book, x, m)
    ensures ComesBackInOrder(book, after, m)
  {
    hide CameBack;
    forall x: nat | SoldOnLine(book, x, m) && CameBack(after.allocations, x) != CameBack(book.allocations, x)
      ensures CameBack(book.allocations, x) < CameBack(after.allocations, x) <= -book.allocations[x].quantity
    {
      var k :| 0 <= k < |sources| && sources[k] == x;
    }
    hide SoldOnLine;
    forall x: nat, y: nat | SoldOnLine(book, x, m) && SoldOnLine(book, y, m) && x < y
      ensures x < |book.allocations|
      ensures CameBack(after.allocations, y) == CameBack(book.allocations, y) || -book.allocations[x].quantity <= CameBack(after.allocations, x)
    {
      var j :| 0 <= j < |sources| && sources[j] == x;
      var k :| 0 <= k < |sources| && sources[k] == y;
      assert j < k;
    }
  }

  lemma GiftsMean(book: Book, averaged: Book, restored: Book, movement: nat, m: Movement, sources: seq<nat>, after: Book)
    requires averaged.allocations == book.allocations && averaged.layers == book.layers
    requires after.allocations == restored.allocations && after.layers == restored.layers
    requires Appended(averaged, restored) && AllGiveBack(averaged, restored, movement, sources) && LayersGrown(averaged, restored)
    requires forall x: nat :: x in sources <==> SoldOnLine(book, x, m)
    ensures Appended(book, after) && LayersGrown(book, after) && NewOnes(book, after) == NewOnes(averaged, restored)
    ensures forall a :: a in NewOnes(book, after) ==> a.source.Some? && SoldOnLine(book, a.source.value, m) && GivesBack(book, a, movement, a.source.value)
  {
    hide SoldOnLine, QuantityValue, Total;
  }

  /** An accepted void or return gives its quantity back to draws of its line, each to the layer it was drawn
      from at that layer's cost, the first draw first and none beyond what it drew. */
  lemma FirstSoldComesBackFirst(book: Book, m: Movement, catalogCost: int)
    requires Invariant(book) && |book.movements| == |book.figures| && Apply(book, m, catalogCost).Ok?
    requires m.quantity > 0 && (m.kind == SaleVoid || m.kind == SaleReturn)
    ensures var after := Apply(book, m, catalogCost).value;
            && Appended(book, after) && LayersGrown(book, after) && ComesBackInOrder(book, after, m)
            && Total(NewOnes(book, after), Units()) == m.quantity
            && (forall a :: a in NewOnes(book, after) ==>
                  a.source.Some? && SoldOnLine(book, a.source.value, m) && GivesBack(book, a, |book.movements|, a.source.value))
  {
    KitExactness.ApplyIs(book, m, catalogCost);
    KitExactness.CoreOf(book);
    CoreLinks(book);
    var averaged, id := Average(book, m, catalogCost).value, |book.movements|;
    KitExactness.AdjustmentAverages(book, m, catalogCost, m.product + 1);
    FifoExactness.NotBookedYet(book, averaged, m);
    hide *;
    assert averaged.movements[id] == m;
    var sources := Reversed(averaged, m, |averaged.allocations|);
    SourcesAreSold(book, averaged, m);
    ReversalBooks(averaged, id);
    RestoreGives(averaged, id, sources, m.quantity, 0, 0);
    var restored := Restore(averaged, id, sources, m.quantity, 0, 0).value.book;
    var after := Apply(book, m, catalogCost).value;
    GivenParts(averaged, restored, id, sources, m.quantity);
    InOrderMeans(book, averaged, restored, m, sources, after);
    GiftsMean(book, averaged, restored, id, m, sources, after);
  }
}
