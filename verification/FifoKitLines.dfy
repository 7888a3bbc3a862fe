/** Sale lines of derived kits: one line sells every component of the kit, one movement each, and a
    void gives the components back one movement each. */
module FifoKitLines {
  import opened Outcomes
  import opened Sums
  import opened Movements
  import opened Selection
  import opened Fifo
  import opened FifoInvariants
  import opened FifoSteps
  import opened FifoRuns
  import opened FifoValues
  import opened FifoReversal

  /** The first row with something in it, up to one that has. */
  lemma {:induction false} FirstHolding(order: seq<nat>, amount: nat -> int, k: nat) returns (first: nat)
    requires k < |order| && amount(order[k]) > 0 && forall j :: 0 <= j < |order| ==> amount(order[j]) >= 0
    ensures first <= k && amount(order[first]) > 0 && Held(order, amount, first) == 0
  {
    if Held(order, amount, k) == 0 {
      first := k;
    } else {
      var j := HoldingBefore(order, amount, k);
      first := FirstHolding(order, amount, j);
    }
  }

  lemma {:induction false} HoldingBefore(order: seq<nat>, amount: nat -> int, k: nat) returns (j: nat)
    requires k <= |order| && Held(order, amount, k) != 0 && forall j :: 0 <= j < |order| ==> amount(order[j]) >= 0
    ensures j < k && amount(order[j]) > 0
  {
    if amount(order[k - 1]) > 0 {
      j := k - 1;
    } else {
      j := HoldingBefore(order, amount, k - 1);
    }
  }

  /** The movement at position i sold something of the line at the reversal's location. */
  ghost predicate SoldOnLine(movements: seq<Movement>, m: Movement, i: nat)
    requires i < |movements|
  {
    m.saleLine.Some? && movements[i].kind == Sale && movements[i].saleLine == m.saleLine && movements[i].location == m.location
    && (m.sourceSale.Some? ==> i == m.sourceSale.value)
  }

  lemma SourceAt(book: Book, m: Movement, k: nat)
    requires k < |book.allocations| && Reversible(book, k, m)
    ensures k in Sources(book, m)
  {
    ReversedAreReversible(book, m, |book.allocations|);
  }

  lemma SourcesOut(book: Book, m: Movement)
    requires Core(book)
    ensures forall j :: 0 <= j < |Sources(book, m)| ==> Sources(book, m)[j] < |book.allocations| && Out(book.allocations)(Sources(book, m)[j]) >= 0
  {
    assert NotOverRestored(book);
    hide Core, Reversed;
  }

  lemma SourceReversible(book: Book, m: Movement, j: nat)
    requires j < |Sources(book, m)|
    ensures Reversible(book, Sources(book, m)[j], m)
  {
    ReversedAreReversible(book, m, |book.allocations|);
    assert Sources(book, m)[j] in Sources(book, m);
    hide Reversible;
  }

  lemma FirstReceives(book: Book, sources: seq<nat>, quantity: int, first: nat)
    requires first < |sources| && quantity > 0 && Out(book.allocations)(sources[first]) > 0 && Held(sources, Out(book.allocations), first) == 0
    ensures Back(book, sources, quantity, first) > 0
  {
    hide Out;
  }

  lemma SourcesAscend(book: Book, m: Movement, i: nat, j: nat)
    requires i <= j < |Sources(book, m)|
    ensures Sources(book, m)[i] <= Sources(book, m)[j]
  {
    ReversedAreReversible(book, m, |book.allocations|);
    hide Reversible;
  }

  /** The first source with something out receives something of any reversal. */
  lemma FirstIsTouched(book: Book, m: Movement, k: nat) returns (first: nat)
    requires Core(book) && m.quantity > 0
    requires k < |book.allocations| && Reversible(book, k, m) && Outstanding(book.allocations, k) > 0
    ensures var sources := Sources(book, m);
            && first < |sources| && sources[first] <= k && Reversible(book, sources[first], m)
            && Back(book, sources, m.quantity, first) > 0
  {
    hide *;
    var sources, out := Sources(book, m), Out(book.allocations);
    SourceAt(book, m, k);
    SourcesOut(book, m);
    OutAt(book, k);
    var p :| 0 <= p < |sources| && sources[p] == k;
    first := FirstHolding(sources, out, p);
    SourceReversible(book, m, first);
    SourcesAscend(book, m, first, p);
    FirstReceives(book, sources, m.quantity, first);
  }

  lemma OutAt(book: Book, k: nat)
    requires k < |book.allocations|
    ensures Out(book.allocations)(k) == Outstanding(book.allocations, k)
  {
  }

  /** A component cannot be given back while another one, sold before it on the same line and location,
      is still out: the reversal would start with the other's layers. */
  lemma EarlierComponentBlocks(book: Book, m: Movement, k: nat, catalogCost: nat)
    requires Invariant(book) && CostsSound(book)
    requires m.quantity > 0 && IsSaleReversal(m.kind)
    requires k < |book.allocations| && Reversible(book, k, m) && Outstanding(book.allocations, k) > 0
    requires forall i :: 0 <= i < |book.movements| && i <= book.allocations[k].movement && SoldOnLine(book.movements, m, i) ==>
               book.movements[i].product != m.product
    ensures |book.movements| == |book.figures|
    ensures Apply(book, m, catalogCost).Err?
  {
    ReversalIsExact(book, m, catalogCost);
    assert Core(book) && OnProduct(book) && Chronological(book);
    hide Invariant, CostsSound, Apply, Core;
    var first := FirstIsTouched(book, m, k);
    var j := Sources(book, m)[first];
    assert j <= k;
    assert book.allocations[j].movement <= book.allocations[k].movement;
    assert SoldOnLine(book.movements, m, book.allocations[j].movement);
    assert LayerAt(book, Sources(book, m), first) == book.allocations[j].layer;
    hide Back, Sources;
  }

  // ----- A sale nobody has reversed is out -----

  lemma {:induction false} NegativeTerm(allocations: seq<Allocation>, movement: nat, n: nat) returns (k: nat)
    requires n <= |allocations| && Total(allocations[..n], OfMovement(movement)) < 0
    ensures k < n && allocations[k].movement == movement && allocations[k].quantity < 0
  {
    assert n > 0;
    assert allocations[..n] == allocations[..n - 1] + [allocations[n - 1]];
    TotalAppend(allocations[..n - 1], allocations[n - 1], OfMovement(movement));
    if allocations[n - 1].movement == movement && allocations[n - 1].quantity < 0 {
      k := n - 1;
    } else {
      k := NegativeTerm(allocations, movement, n - 1);
    }
  }

  /** While no void or return of it has been booked, a sale has an allocation with something out. */
  lemma UnreversedIsOut(book: Book, i: nat) returns (k: nat)
    requires Invariant(book) && i < |book.movements| && book.movements[i].quantity < 0
    requires forall j :: 0 <= j < |book.movements| ==> !IsSaleReversal(book.movements[j].kind)
    ensures k < |book.allocations| && book.allocations[k].movement == i && Outstanding(book.allocations, k) > 0
  {
    assert Core(book) && MovementBooked(book, i);
    hide Invariant;
    assert book.allocations[..|book.allocations|] == book.allocations;
    k := NegativeTerm(book.allocations, i, |book.allocations|);
    forall j | 0 <= j < |book.allocations| ensures RestoreOf(k)(book.allocations[j]) == 0 {
      assert LinkOk(book, j);
    }
    TotalZero(book.allocations, RestoreOf(k));
  }
}
