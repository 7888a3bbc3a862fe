/** What rounding and relocation do to value: each allocation is off by at most half a unit, and
    a transfer moves cost without creating any. */
module FifoCosts {
  import opened Outcomes
  import opened Sums
  import opened Rounding
  import opened Movements
  import opened Fifo
  import opened FifoInvariants
  import opened FifoSteps
  import opened FifoRuns
  import opened FifoReversal

  function ProductValue(layers: seq<Layer>, product: Product): Allocation -> int {
    (a: Allocation) => if a.layer < |layers| && layers[a.layer].product == product then a.value else 0
  }

  /** quantity times unit cost, before rounding, in thousandths of a cost unit. */
  function ProductExact(layers: seq<Layer>, product: Product): Allocation -> int {
    (a: Allocation) => if a.layer < |layers| && layers[a.layer].product == product then a.quantity * a.unitCost else 0
  }

  function ProductCount(layers: seq<Layer>, product: Product): Allocation -> int {
    (a: Allocation) => if a.layer < |layers| && layers[a.layer].product == product then 1 else 0
  }

  function LayerExact(product: Product): Layer -> int {
    (l: Layer) => if l.product == product then l.remaining * l.unitCost else 0
  }

  lemma ExactOfLayer(book: Book, product: Product, i: nat)
    requires Priced(book) && Backed(book) && i < |book.layers|
    requires forall k :: 0 <= k < |book.allocations| ==> book.allocations[k].layer < |book.layers|
    ensures GroupTotal(book.allocations, LayerOf(), ProductExact(book.layers, product))(i) == LayerExact(product)(book.layers[i])
  {
    var group := InGroup(LayerOf(), ProductExact(book.layers, product), i);
    var cost := book.layers[i].unitCost;
    if book.layers[i].product == product {
      forall k | 0 <= k < |book.allocations| ensures group(book.allocations[k]) == OnLayer(i)(book.allocations[k]) * cost {
        var a := book.allocations[k];
        if a.layer == i {
          assert a.unitCost == cost;
        }
      }
      TotalScale(book.allocations, OnLayer(i), cost, group);
    } else {
      TotalZero(book.allocations, group);
    }
  }

  function LayerOf(): Allocation -> nat {
    (a: Allocation) => a.layer
  }

  /** The exact cost of what remains is the exact cost of what the allocations moved. */
  lemma ExactByLayer(book: Book, product: Product)
    requires Core(book)
    ensures Total(book.allocations, ProductExact(book.layers, product)) == Total(book.layers, LayerExact(product))
  {
    var f := ProductExact(book.layers, product);
    TotalByGroup(book.allocations, LayerOf(), f, |book.layers|);
    forall i: nat | i < |book.layers|
      ensures GroupTotal(book.allocations, LayerOf(), f)(i) == LayerExact(product)(book.layers[i])
    {
      ExactOfLayer(book, product, i);
    }
    SumIsTotal(book.layers, LayerExact(product), GroupTotal(book.allocations, LayerOf(), f));
  }

  lemma {:induction false} RoundingAccumulates(layers: seq<Layer>, allocations: seq<Allocation>, product: Product)
    requires forall k :: 0 <= k < |allocations| ==> allocations[k].value == QuantityValue(allocations[k].quantity, allocations[k].unitCost)
    ensures var drift := 2 * (QUANTITY_SCALE * Total(allocations, ProductValue(layers, product))
                              - Total(allocations, ProductExact(layers, product)));
            var bound := QUANTITY_SCALE * Total(allocations, ProductCount(layers, product));
            -bound <= drift <= bound
  {
    if allocations != [] {
      var last := allocations[|allocations| - 1];
      RoundingAccumulates(layers, allocations[..|allocations| - 1], product);
      QuantityValueError(last.quantity, last.unitCost);
    }
  }

  /** Over any run, the booked value of a product differs from the exact sum of remaining
      quantity times layer cost by at most half a cost unit per allocation. */
  lemma RoundingIsBounded(book: Book, product: Product)
    requires Invariant(book)
    ensures var drift := 2 * (QUANTITY_SCALE * Total(book.allocations, ProductValue(book.layers, product))
                              - Total(book.layers, LayerExact(product)));
            var bound := QUANTITY_SCALE * Total(book.allocations, ProductCount(book.layers, product));
            -bound <= drift <= bound
  {
    ExactByLayer(book, product);
    RoundingAccumulates(book.layers, book.allocations, product);
  }

  // ----- Drift of a reversed allocation -----

  function RestoredValue(source: nat): Allocation -> int {
    (a: Allocation) => if a.mode == RestoreMode && a.source == Some(source) then a.value else 0
  }

  function RestoredParts(source: nat): Allocation -> int {
    (a: Allocation) => if a.mode == RestoreMode && a.source == Some(source) then 1 else 0
  }

  lemma {:induction false} PartsAccumulate(allocations: seq<Allocation>, source: nat, unitCost: int)
    requires forall k :: 0 <= k < |allocations| && allocations[k].mode == RestoreMode && allocations[k].source == Some(source) ==>
               allocations[k].value == QuantityValue(allocations[k].quantity, unitCost)
    ensures var drift := 2 * (QUANTITY_SCALE * Total(allocations, RestoredValue(source))
                              - Total(allocations, RestoreOf(source)) * unitCost);
            var bound := QUANTITY_SCALE * Total(allocations, RestoredParts(source));
            -bound <= drift <= bound
  {
    if allocations != [] {
      var last := allocations[|allocations| - 1];
      PartsAccumulate(allocations[..|allocations| - 1], source, unitCost);
      QuantityValueError(last.quantity, unitCost);
      var before := Total(allocations[..|allocations| - 1], RestoreOf(source));
      assert (before + RestoreOf(source)(last)) * unitCost == before * unitCost + RestoreOf(source)(last) * unitCost;
    }
  }

  /** An allocation given back in n parts leaves a value of at most (n + 1) / 2 cost units. */
  lemma ReversalDriftIsBounded(book: Book, k: nat)
    requires Invariant(book) && k < |book.allocations| && book.allocations[k].quantity < 0
    requires book.allocations[k].quantity + Total(book.allocations, RestoreOf(k)) == 0
    ensures var drift := book.allocations[k].value + Total(book.allocations, RestoredValue(k));
            var parts := Total(book.allocations, RestoredParts(k));
            -(parts + 1) <= 2 * drift <= parts + 1
  {
    var a := book.allocations[k];
    PartsPricedAlike(book, k);
    hide *;
    PartsAccumulate(book.allocations, k, a.unitCost);
    QuantityValueError(a.quantity, a.unitCost);
    DriftAlgebra(a.value, a.quantity, Total(book.allocations, RestoredValue(k)), Total(book.allocations, RestoreOf(k)),
                 a.unitCost, Total(book.allocations, RestoredParts(k)));
  }

  lemma DriftAlgebra(value: int, quantity: int, restoredValue: int, restored: int, cost: int, parts: int)
    requires quantity + restored == 0
    requires -1000 <= 2 * (1000 * value - quantity * cost) <= 1000
    requires -1000 * parts <= 2 * (1000 * restoredValue - restored * cost) <= 1000 * parts
    ensures -(parts + 1) <= 2 * (value + restoredValue) <= parts + 1
  {
    assert restored * cost == -(quantity * cost);
  }

  lemma PartsPricedAlike(book: Book, k: nat)
    requires Core(book) && k < |book.allocations|
    ensures var cost := book.allocations[k].unitCost;
            && book.allocations[k].value == QuantityValue(book.allocations[k].quantity, cost)
            && forall j :: 0 <= j < |book.allocations| && book.allocations[j].mode == RestoreMode && book.allocations[j].source == Some(k) ==>
                 book.allocations[j].value == QuantityValue(book.allocations[j].quantity, cost)
  {
    forall j | 0 <= j < |book.allocations| && book.allocations[j].mode == RestoreMode && book.allocations[j].source == Some(k)
      ensures book.allocations[j].value == QuantityValue(book.allocations[j].quantity, book.allocations[k].unitCost)
    {
      assert LinkOk(book, j);
    }
  }

  // ----- Transfers -----

  function Values(allocations: seq<Allocation>, sources: seq<nat>): int
    requires forall k :: 0 <= k < |sources| ==> sources[k] < |allocations|
    decreases |sources|
  {
    if sources == [] then 0 else allocations[sources[0]].value + Values(allocations, sources[1..])
  }

  lemma {:induction false} ValuesSame(a: seq<Allocation>, b: seq<Allocation>, sources: seq<nat>)
    requires |a| <= |b| && b[..|a|] == a
    requires forall k :: 0 <= k < |sources| ==> sources[k] < |a|
    ensures Values(a, sources) == Values(b, sources)
    decreases |sources|
  {
    if sources != [] {
      assert a[sources[0]] == b[..|a|][sources[0]];
      ValuesSame(a, b, sources[1..]);
    }
  }

  /** The arriving layers are valued at the exact negation of what the dispatch removed. */
  lemma {:induction false} MovingNegates(book: Book, movement: nat, sources: seq<nat>, expected: int, transferred: int, value: int)
    requires movement < |book.movements|
    requires forall k :: 0 <= k < |sources| ==>
               sources[k] < |book.allocations| && book.allocations[sources[k]].quantity < 0
    requires forall k :: 0 <= k < |sources| ==>
               var a := book.allocations[sources[k]]; a.value == QuantityValue(a.quantity, a.unitCost)
    ensures var r := Moving(book, movement, sources, expected, transferred, value);
            r.Ok? ==> r.value.value == value - Values(book.allocations, sources)
    decreases |sources|
  {
    hide CurrencyAccepted, QuantityValue;
    if sources != [] {
      var a := book.allocations[sources[0]];
      if a.layer < |book.layers| {
        var layer := ArrivalLayer(book, movement, sources[0]);
        if CurrencyAccepted(book, layer.product, layer.currency) {
          var posted := Open(book, movement, layer, Some(sources[0]), TransferMode);
          QuantityValueIsOdd(a.quantity, a.unitCost);
          forall k | 0 <= k < |sources| ensures posted.book.allocations[sources[k]] == book.allocations[sources[k]] {
          }
          MovingNegates(posted.book, movement, sources[1..], expected, transferred - a.quantity, value + posted.value);
          ValuesSame(book.allocations, posted.book.allocations, sources[1..]);
        }
      }
    }
  }

  function DispatchValue(movements: seq<Movement>, m: Movement): Allocation -> int {
    (a: Allocation) =>
      if a.movement < |movements| && m.transferLine.Some? && movements[a.movement].transferLine == m.transferLine
         && movements[a.movement].kind == TransferOut
      then a.value else 0
  }

  lemma {:induction false} ValuesAppend(allocations: seq<Allocation>, sources: seq<nat>, k: nat)
    requires k < |allocations| && forall j :: 0 <= j < |sources| ==> sources[j] < |allocations|
    ensures Values(allocations, sources + [k]) == Values(allocations, sources) + allocations[k].value
    decreases |sources|
  {
    if sources == [] {
      assert [k][1..] == [];
    } else {
      assert (sources + [k])[1..] == sources[1..] + [k];
      ValuesAppend(allocations, sources[1..], k);
    }
  }

  lemma {:induction false} DispatchedValues(book: Book, m: Movement, n: nat)
    requires n <= |book.allocations|
    ensures Values(book.allocations, DispatchedBy(book, m, n)) == Total(book.allocations[..n], DispatchValue(book.movements, m))
  {
    if n > 0 {
      DispatchedValues(book, m, n - 1);
      assert book.allocations[..n] == book.allocations[..n - 1] + [book.allocations[n - 1]];
      TotalAppend(book.allocations[..n - 1], book.allocations[n - 1], DispatchValue(book.movements, m));
      if Dispatched(book, n - 1, m) {
        ValuesAppend(book.allocations, DispatchedBy(book, m, n - 1), n - 1);
      }
    }
  }

  /** TRANSFER_IN books exactly the negation of the value TRANSFER_OUT booked. */
  lemma TransferIsCostNeutral(book: Book, movement: nat, dispatch: nat)
    requires Core(book) && movement < |book.movements| && dispatch < |book.movements|
    requires book.movements[movement].kind == TransferIn
    requires var m, o := book.movements[movement], book.movements[dispatch];
             m.transferLine.Some? && o.kind == TransferOut && o.transferLine == m.transferLine && o.quantity < 0
    requires forall k :: 0 <= k < |book.movements| && k != dispatch && book.movements[k].kind == TransferOut ==>
               book.movements[k].transferLine != book.movements[movement].transferLine
    ensures var r := TransferLayers(book, movement, book.movements[movement].quantity);
            r.Ok? ==> r.value.value == -Total(book.allocations, ValueOfMovement(dispatch))
  {
    var m := book.movements[movement];
    var sources := DispatchedBy(book, m, |book.allocations|);
    DispatchedByAreDispatched(book, m, |book.allocations|);
    forall k | 0 <= k < |sources| ensures Dispatched(book, sources[k], m) && book.allocations[sources[k]].movement == dispatch {
      assert sources[k] in sources;
    }
    MovingNegates(book, movement, sources, m.quantity, 0, 0);
    DispatchedValues(book, m, |book.allocations|);
    assert book.allocations[..|book.allocations|] == book.allocations;
    TotalSame(book.allocations, DispatchValue(book.movements, m), book.allocations, ValueOfMovement(dispatch));
  }
}
