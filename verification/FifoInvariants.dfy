/** What every committed book satisfies, and the proof that one movement keeps it. */
module FifoInvariants {
  import opened Outcomes
  import opened Sums
  import opened Rounding
  import opened Movements
  import opened Fifo

  // ----- The invariant -----

  function RestoreOf(source: nat): Allocation -> int {
    (a: Allocation) => if a.mode == RestoreMode && a.source == Some(source) then a.quantity else 0
  }

  /** What a consuming allocation took and no restoration has given back. */
  function Outstanding(allocations: seq<Allocation>, k: nat): int
    requires k < |allocations|
  {
    if allocations[k].quantity < 0 then -allocations[k].quantity - Total(allocations, RestoreOf(k)) else 0
  }

  function OpenOn(allocations: seq<Allocation>, layer: nat): nat -> int {
    (k: nat) => if k < |allocations| && allocations[k].layer == layer then Outstanding(allocations, k) else 0
  }

  ghost predicate Linked(book: Book) {
    && |book.figures| == |book.movements|
    && forall k :: 0 <= k < |book.allocations| ==>
         var a := book.allocations[k];
         && a.movement < |book.movements| && a.layer < |book.layers|
         && book.layers[a.layer].location == book.movements[a.movement].location
         && SameSign(a.quantity, book.movements[a.movement].quantity)
         && (a.source.Some? ==> a.source.value < k)
  }

  /** Every allocation is priced at its layer's cost, rounded once. */
  ghost predicate Priced(book: Book) {
    forall k :: 0 <= k < |book.allocations| && book.allocations[k].layer < |book.layers| ==>
      var a := book.allocations[k];
      var l := book.layers[a.layer];
      a.unitCost == l.unitCost && a.currency == l.currency && a.value == QuantityValue(a.quantity, a.unitCost)
  }

  /** A void or return restores, an arrival carries, nothing else is linked to a source. A
      restoration reverses a sale of the same line on the same layer; an arrival carries the
      whole of what the dispatch of the same line took, at the same cost. */
  ghost predicate LinkOk(book: Book, k: nat)
    requires k < |book.allocations|
  {
    var a := book.allocations[k];
    a.movement < |book.movements| ==>
      var m := book.movements[a.movement];
      && (a.mode == RestoreMode <==> a.quantity > 0 && IsSaleReversal(m.kind))
      && (a.mode == TransferMode <==> a.quantity > 0 && m.kind == TransferIn)
      && (a.source.Some? <==> a.mode == RestoreMode || a.mode == TransferMode)
      && (a.source.Some? && a.source.value < |book.allocations| ==>
            var s := book.allocations[a.source.value];
            s.movement < |book.movements| && s.quantity < 0 &&
            var o := book.movements[s.movement];
            if a.mode == RestoreMode then
              && a.layer == s.layer && o.kind == Sale && m.saleLine.Some? && o.saleLine == m.saleLine
              && (m.sourceSale.Some? ==> s.movement == m.sourceSale.value)
            else
              && a.quantity == -s.quantity && a.unitCost == s.unitCost && a.currency == s.currency
              && o.kind == TransferOut && m.transferLine.Some? && o.transferLine == m.transferLine)
  }

  ghost predicate Sourced(book: Book) {
    forall k :: 0 <= k < |book.allocations| ==> LinkOk(book, k)
  }

  /** The remaining quantity is the sum of the layer's allocations and lies in [0, original]. */
  ghost predicate Backed(book: Book) {
    forall i :: 0 <= i < |book.layers| ==>
      var l := book.layers[i];
      0 <= l.remaining <= l.original && l.remaining == Total(book.allocations, OnLayer(i))
  }

  /** What is missing from a layer is exactly what its consumers still hold of it. */
  ghost predicate Conserving(book: Book) {
    forall i :: 0 <= i < |book.layers| ==>
      book.layers[i].original - book.layers[i].remaining == Sum(|book.allocations|, OpenOn(book.allocations, i))
  }

  ghost predicate NotOverRestored(book: Book) {
    forall k :: 0 <= k < |book.allocations| ==> Outstanding(book.allocations, k) >= 0
  }

  ghost predicate KeyUnique(book: Book) {
    forall j, k :: 0 <= j < k < |book.allocations| ==>
      book.allocations[j].movement != book.allocations[k].movement || book.allocations[j].layer != book.allocations[k].layer
  }

  ghost predicate OneCurrency(book: Book) {
    forall i, j :: 0 <= i < |book.layers| && 0 <= j < |book.layers| && book.layers[i].product == book.layers[j].product ==>
      book.layers[i].currency == book.layers[j].currency
  }

  ghost predicate Core(book: Book) {
    && Linked(book) && Priced(book) && Sourced(book) && Backed(book) && Conserving(book)
    && NotOverRestored(book) && KeyUnique(book) && OneCurrency(book)
  }

  // ----- Appending one allocation -----

  lemma {:induction false} LaterSourcesOnly(allocations: seq<Allocation>, n: nat, k: nat)
    requires n <= |allocations| && n <= k
    requires forall j :: 0 <= j < n && allocations[j].source.Some? ==> allocations[j].source.value < j
    ensures Total(allocations[..n], RestoreOf(k)) == 0
  {
    TotalZero(allocations[..n], RestoreOf(k));
  }

  /** A consuming allocation opens its own quantity and leaves every other claim as it was. */
  lemma OutstandingAppend(allocations: seq<Allocation>, a: Allocation)
    requires forall j :: 0 <= j < |allocations| && allocations[j].source.Some? ==> allocations[j].source.value < j
    requires a.source.Some? ==> a.source.value < |allocations|
    ensures forall k :: 0 <= k < |allocations| ==>
              Outstanding(allocations + [a], k)
              == Outstanding(allocations, k) - (if allocations[k].quantity < 0 then RestoreOf(k)(a) else 0)
    ensures Outstanding(allocations + [a], |allocations|) == if a.quantity < 0 then -a.quantity else 0
  {
    forall k | 0 <= k < |allocations|
      ensures Outstanding(allocations + [a], k)
              == Outstanding(allocations, k) - (if allocations[k].quantity < 0 then RestoreOf(k)(a) else 0)
    {
      TotalAppend(allocations, a, RestoreOf(k));
    }
    var n := |allocations|;
    TotalAppend(allocations, a, RestoreOf(n));
    assert allocations[..n] == allocations;
    LaterSourcesOnly(allocations, n, n);
  }

  lemma OpenOnAppendOther(allocations: seq<Allocation>, a: Allocation, layer: nat)
    requires forall j :: 0 <= j < |allocations| && allocations[j].source.Some? ==> allocations[j].source.value < j
    requires a.mode != RestoreMode
    requires a.source.Some? ==> a.source.value < |allocations|
    ensures Sum(|allocations| + 1, OpenOn(allocations + [a], layer))
            == Sum(|allocations|, OpenOn(allocations, layer))
               + (if a.layer == layer && a.quantity < 0 then -a.quantity else 0)
  {
    OutstandingAppend(allocations, a);
    SumSame(|allocations|, OpenOn(allocations, layer), OpenOn(allocations + [a], layer));
  }

  lemma OpenOnAppendRestore(allocations: seq<Allocation>, a: Allocation, layer: nat)
    requires forall j :: 0 <= j < |allocations| && allocations[j].source.Some? ==> allocations[j].source.value < j
    requires a.mode == RestoreMode && a.quantity > 0
    requires a.source.Some? && a.source.value < |allocations|
    requires allocations[a.source.value].quantity < 0 && allocations[a.source.value].layer == a.layer
    ensures Sum(|allocations| + 1, OpenOn(allocations + [a], layer))
            == Sum(|allocations|, OpenOn(allocations, layer)) - (if a.layer == layer then a.quantity else 0)
  {
    OutstandingAppend(allocations, a);
    var j := a.source.value;
    SumChange(|allocations|, OpenOn(allocations, layer), OpenOn(allocations + [a], layer), j);
  }

  lemma BackedPost(book: Book, movement: nat, layer: nat, source: Option<nat>, quantity: int, mode: Mode)
    requires Backed(book) && layer < |book.layers|
    requires 0 <= book.layers[layer].remaining + quantity <= book.layers[layer].original
    ensures Backed(Post(book, movement, layer, source, quantity, mode).book)
  {
    var after := Post(book, movement, layer, source, quantity, mode).book;
    var a := after.allocations[|book.allocations|];
    forall i | 0 <= i < |after.layers|
      ensures after.layers[i].remaining == Total(after.allocations, OnLayer(i))
    {
      TotalAppend(book.allocations, a, OnLayer(i));
    }
  }

  lemma BackedDraw(book: Book, movement: nat, layer: nat, quantity: int, mode: Mode)
    requires Backed(book) && layer < |book.layers| && 0 < quantity <= book.layers[layer].remaining
    ensures Backed(Post(book, movement, layer, None, -quantity, mode).book)
  {
    BackedPost(book, movement, layer, None, -quantity, mode);
  }

  lemma LinksKept(book: Book, after: Book)
    requires Linked(book) && Sourced(book)
    requires after.movements == book.movements
    requires |after.allocations| == |book.allocations| + 1 && after.allocations[..|book.allocations|] == book.allocations
    requires LinkOk(after, |book.allocations|)
    ensures Sourced(after)
  {
    forall k | 0 <= k < |after.allocations| ensures LinkOk(after, k) {
      if k < |book.allocations| {
        assert LinkOk(book, k);
        assert after.allocations[k] == after.allocations[..|book.allocations|][k] == book.allocations[k];
        if book.allocations[k].source.Some? {
          var s := book.allocations[k].source.value;
          assert after.allocations[s] == after.allocations[..|book.allocations|][s];
        }
      }
    }
  }

  /** What a write to an existing layer keeps whatever its quantity. */
  lemma PostFrame(book: Book, movement: nat, layer: nat, source: Option<nat>, quantity: int, mode: Mode)
    requires Linked(book) && Priced(book) && KeyUnique(book) && OneCurrency(book)
    requires movement < |book.movements| && layer < |book.layers|
    requires book.layers[layer].location == book.movements[movement].location
    requires source.Some? ==> source.value < |book.allocations|
    requires SameSign(quantity, book.movements[movement].quantity)
    requires KeyFree(book, movement, layer)
    ensures var after := Post(book, movement, layer, source, quantity, mode).book;
            Linked(after) && Priced(after) && KeyUnique(after) && OneCurrency(after)
  {
  }

  lemma DrawConserves(book: Book, movement: nat, layer: nat, quantity: int, mode: Mode)
    requires Linked(book) && Conserving(book) && layer < |book.layers| && quantity > 0 && mode != RestoreMode
    ensures Conserving(Post(book, movement, layer, None, -quantity, mode).book)
  {
    var after := Post(book, movement, layer, None, -quantity, mode).book;
    var a := after.allocations[|book.allocations|];
    forall i | 0 <= i < |after.layers|
      ensures after.layers[i].original - after.layers[i].remaining == Sum(|after.allocations|, OpenOn(after.allocations, i))
    {
      OpenOnAppendOther(book.allocations, a, i);
    }
  }

  /** Consumption: a layer gives up to what it holds. */
  lemma DrawKeepsCore(book: Book, movement: nat, layer: nat, quantity: int, mode: Mode)
    requires Core(book) && movement < |book.movements| && layer < |book.layers|
    requires book.layers[layer].location == book.movements[movement].location
    requires 0 < quantity <= book.layers[layer].remaining
    requires mode == FifoMode || mode == OriginReturnMode
    requires book.movements[movement].quantity < 0
    requires KeyFree(book, movement, layer)
    ensures Core(Post(book, movement, layer, None, -quantity, mode).book)
  {
    hide Priced, KeyUnique, OneCurrency, Conserving, Backed;
    var after := Post(book, movement, layer, None, -quantity, mode).book;
    var a := after.allocations[|book.allocations|];
    PostFrame(book, movement, layer, None, -quantity, mode);
    BackedDraw(book, movement, layer, quantity, mode);
    assert Sourced(after) by { LinksKept(book, after); }
    assert NotOverRestored(after) by { OutstandingAppend(book.allocations, a); }
    DrawConserves(book, movement, layer, quantity, mode);
  }

  /** The ceiling guard cannot fire: a layer misses at least what one consumer still holds. */
  lemma CeilingHolds(book: Book, k: nat)
    requires Core(book) && k < |book.allocations|
    ensures book.allocations[k].layer < |book.layers|
    ensures var l := book.layers[book.allocations[k].layer];
            l.remaining + Outstanding(book.allocations, k) <= l.original
  {
    var layer := book.allocations[k].layer;
    SumTerm(|book.allocations|, OpenOn(book.allocations, layer), k);
  }

  /** Restoration: a consumer gives back up to what it still holds. */
  lemma RestoreKeepsCore(book: Book, movement: nat, source: nat, quantity: int)
    requires Core(book) && movement < |book.movements| && source < |book.allocations|
    requires 0 < quantity <= Outstanding(book.allocations, source)
    requires book.allocations[source].movement < |book.movements|
    requires var m, sale := book.movements[movement], book.movements[book.allocations[source].movement];
             && m.quantity > 0 && IsSaleReversal(m.kind) && m.saleLine.Some?
             && sale.kind == Sale && sale.saleLine == m.saleLine
             && (m.sourceSale.Some? ==> book.allocations[source].movement == m.sourceSale.value)
    requires KeyFree(book, movement, book.allocations[source].layer)
    requires book.allocations[source].layer < |book.layers|
    requires book.layers[book.allocations[source].layer].location == book.movements[movement].location
    ensures Core(Post(book, movement, book.allocations[source].layer, Some(source), quantity, RestoreMode).book)
  {
    var layer := book.allocations[source].layer;
    CeilingHolds(book, source);
    var after := Post(book, movement, layer, Some(source), quantity, RestoreMode).book;
    var a := after.allocations[|book.allocations|];
    PostFrame(book, movement, layer, Some(source), quantity, RestoreMode);
    BackedPost(book, movement, layer, Some(source), quantity, RestoreMode);
    assert Sourced(after) by { LinksKept(book, after); }
    assert NotOverRestored(after) by { OutstandingAppend(book.allocations, a); }
    assert Conserving(after) by {
      forall i | 0 <= i < |after.layers|
        ensures after.layers[i].original - after.layers[i].remaining == Sum(|after.allocations|, OpenOn(after.allocations, i))
      {
        OpenOnAppendRestore(book.allocations, a, i);
      }
    }
  }

  /** What a new layer must satisfy so that opening it keeps the invariant. */
  ghost predicate OpeningOk(book: Book, movement: nat, layer: Layer, source: Option<nat>, mode: Mode)
    requires movement < |book.movements|
  {
    var m := book.movements[movement];
    && layer.original == layer.remaining > 0 && m.quantity > 0 && layer.location == m.location
    && CurrencyAccepted(book, layer.product, layer.currency)
    && if mode == TransferMode then
         m.kind == TransferIn && m.transferLine.Some? && source.Some? && source.value < |book.allocations| &&
         var s := book.allocations[source.value];
         s.movement < |book.movements| &&
         var o := book.movements[s.movement];
         && o.kind == TransferOut && o.transferLine == m.transferLine
         && layer.original == -s.quantity && layer.unitCost == s.unitCost && layer.currency == s.currency
       else mode == EntryMode && source.None? && m.kind != TransferIn && !IsSaleReversal(m.kind)
  }

  lemma OpenKeepsBacked(book: Book, movement: nat, layer: Layer, source: Option<nat>, mode: Mode)
    requires Core(book) && movement < |book.movements| && OpeningOk(book, movement, layer, source, mode)
    ensures Backed(Open(book, movement, layer, source, mode).book)
    ensures Conserving(Open(book, movement, layer, source, mode).book)
  {
    var after := Open(book, movement, layer, source, mode).book;
    var a := after.allocations[|book.allocations|];
    var fresh' := |book.layers|;
    forall i | 0 <= i < |after.layers|
      ensures after.layers[i].remaining == Total(after.allocations, OnLayer(i))
      ensures after.layers[i].original - after.layers[i].remaining == Sum(|after.allocations|, OpenOn(after.allocations, i))
    {
      TotalAppend(book.allocations, a, OnLayer(i));
      OpenOnAppendOther(book.allocations, a, i);
      if i == fresh' {
        TotalZero(book.allocations, OnLayer(fresh'));
        SumZero(|book.allocations|, OpenOn(book.allocations, fresh'));
      }
    }
  }

  lemma OpenFrame(book: Book, movement: nat, layer: Layer, source: Option<nat>, mode: Mode)
    requires Linked(book) && Priced(book) && KeyUnique(book) && OneCurrency(book)
    requires movement < |book.movements| && layer.location == book.movements[movement].location
    requires source.Some? ==> source.value < |book.allocations|
    requires layer.original > 0 && book.movements[movement].quantity > 0
    requires CurrencyAccepted(book, layer.product, layer.currency)
    ensures var after := Open(book, movement, layer, source, mode).book;
            Linked(after) && Priced(after) && KeyUnique(after) && OneCurrency(after)
  {
    var oldest := Oldest(book.layers, layer.product, |book.layers|);
  }

  /** Opening a layer: receiving goods, or the arrival of dispatched ones. */
  lemma OpenKeepsCore(book: Book, movement: nat, layer: Layer, source: Option<nat>, mode: Mode)
    requires Core(book) && movement < |book.movements| && OpeningOk(book, movement, layer, source, mode)
    ensures Core(Open(book, movement, layer, source, mode).book)
  {
    var after := Open(book, movement, layer, source, mode).book;
    var a := after.allocations[|book.allocations|];
    OpenFrame(book, movement, layer, source, mode);
    OpenKeepsBacked(book, movement, layer, source, mode);
    assert Sourced(after) by { LinksKept(book, after); }
    assert NotOverRestored(after) by { OutstandingAppend(book.allocations, a); }
  }
}
