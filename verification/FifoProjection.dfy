/** The loops that maintain the FIFO projection. `tx` is the transaction's view of the tables:
    a method that fails returns an error and its caller keeps the tables it had. */
module FifoProjection {
  import opened Outcomes
  import opened Sums
  import opened Rounding
  import opened Movements
  import opened Selection
  import opened Fifo
  import opened FifoInvariants
  import opened FifoSteps
  import opened FifoRuns
  import opened FifoTheorems
  import opened FifoReversal

  /** Draws the requested quantity from the layers of `order`, one after the other. */
  method DrawInOrder(book: Book, movement: nat, order: seq<nat>, mode: Mode, requested: int) returns (r: Result<Posted>)
    requires forall k :: 0 <= k < |order| ==> order[k] < |book.layers|
    ensures r == Consume(book, movement, order, mode, requested, 0)
  {
    var tx, remaining, totalValue := book, requested, 0;
    var i := 0;
    assert order[0..] == order;
    while i < |order| && remaining != 0
      invariant i <= |order| && |tx.layers| == |book.layers|
      invariant Consume(book, movement, order, mode, requested, 0)
                == Consume(tx, movement, order[i..], mode, remaining, totalValue)
    {
      assert order[i..][0] == order[i] && order[i..][1..] == order[i + 1..];
      var available := tx.layers[order[i]].remaining;
      var consumed := if available < remaining then available else remaining;
      if consumed != 0 {
        var posted := Post(tx, movement, order[i], None, -consumed, mode);
        tx, totalValue, remaining := posted.book, totalValue + posted.value, remaining - consumed;
      }
      i := i + 1;
    }
    if remaining != 0 {
      return Err(LayerShortage);
    }
    return Ok(Posted(tx, totalValue));
  }

  /** Draws the requested quantity from the eligible layers, oldest first. */
  method ConsumeFromLayers(book: Book, movement: nat, requested: int, source: Source) returns (r: Result<Posted>)
    requires movement < |book.movements| && requested >= 0
    ensures r == ConsumeLayers(book, movement, requested, source)
    ensures r.Ok? <==> requested <= EligibleStock(book, book.movements[movement], source)
    ensures r.Ok? ==> DrawnFrom(book, r.value.book, Order(book, book.movements[movement], source), requested)
  {
    ConsumptionIsGreedy(book, movement, requested, source);
    var order := Order(book, book.movements[movement], source);
    r := DrawInOrder(book, movement, order, if source.Receipt? then OriginReturnMode else FifoMode, requested);
  }

  /** Gives back to the layers of the given allocations, in turn, until `expected` is restored. */
  method RestoreInOrder(book: Book, movement: nat, sources: seq<nat>, expected: int) returns (r: Result<Posted>)
    requires forall k :: 0 <= k < |sources| ==> sources[k] < |book.allocations|
    ensures r == Restore(book, movement, sources, expected, 0, 0)
  {
    hide KeyFree, Total, SourcedFrom, QuantityValue, SameMovements;
    var tx, restored, totalValue := book, 0, 0;
    var i := 0;
    assert sources[0..] == sources;
    while i < |sources|
      invariant i <= |sources| && |book.allocations| <= |tx.allocations|
      invariant Restore(book, movement, sources, expected, 0, 0)
                == Restore(tx, movement, sources[i..], expected, restored, totalValue)
    {
      assert sources[i..][0] == sources[i] && sources[i..][1..] == sources[i + 1..];
      var a := tx.allocations[sources[i]];
      var prior := Total(tx.allocations, SourcedFrom(sources[i]));
      var available := -a.quantity - prior;
      var needed := expected - restored;
      var quantity := if available < needed then available else needed;
      if quantity > 0 {
        if a.layer >= |tx.layers| {
          return Err(LayerShortage);
        }
        if tx.layers[a.layer].remaining + quantity > tx.layers[a.layer].original {
          return Err(LayerCeiling);
        }
        if !KeyFree(tx, movement, a.layer) {
          return Err(DuplicateAllocation);
        }
        var posted := Post(tx, movement, a.layer, Some(sources[i]), quantity, RestoreMode);
        tx, totalValue, restored := posted.book, totalValue + posted.value, restored + quantity;
      }
      i := i + 1;
    }
    if restored != expected {
      return Err(LayerShortage);
    }
    return Ok(Posted(tx, totalValue));
  }

  /** Gives back to each layer what the reversed sale took from it, in the order it took. */
  method RestoreSaleLayers(book: Book, movement: nat) returns (r: Result<Posted>)
    requires Core(book) && movement < |book.movements| && Unbooked(book, movement)
    requires book.movements[movement].quantity > 0 && IsSaleReversal(book.movements[movement].kind)
    ensures r == RestoreSale(book, movement, book.movements[movement].quantity)
    ensures r != Err(LayerCeiling)
    ensures var m := book.movements[movement];
            r.Ok? <==> m.quantity <= StillSold(book, m) && OnDistinctLayers(book, m)
  {
    var m := book.movements[movement];
    RestoreSaleGrows(book, movement);
    RestoreSaleExact(book, movement);
    var sources := Reversed(book, m, |book.allocations|);
    assert RestoreSale(book, movement, m.quantity) == Restore(book, movement, sources, m.quantity, 0, 0);
    hide *;
    r := RestoreInOrder(book, movement, sources, m.quantity);
  }

  /** Opens at the destination one layer for each allocation the dispatch took at the origin. */
  method MoveLayers(book: Book, movement: nat) returns (r: Result<Posted>)
    requires movement < |book.movements|
    ensures r == TransferLayers(book, movement, book.movements[movement].quantity)
  {
    hide CurrencyAccepted, QuantityValue, Dispatched;
    var m := book.movements[movement];
    var sources := DispatchedBy(book, m, |book.allocations|);
    var tx, transferred, totalValue := book, 0, 0;
    var i := 0;
    while i < |sources|
      invariant i <= |sources| && |book.allocations| <= |tx.allocations| && tx.movements == book.movements
      invariant Moving(book, movement, sources, m.quantity, 0, 0)
                == Moving(tx, movement, sources[i..], m.quantity, transferred, totalValue)
    {
      assert sources[i..][0] == sources[i] && sources[i..][1..] == sources[i + 1..];
      var a := tx.allocations[sources[i]];
      if -a.quantity > 0 {
        if a.layer >= |tx.layers| {
          return Err(LayerShortage);
        }
        var layer := Layer(m.product, m.location, movement, None, -a.quantity, -a.quantity,
                           a.unitCost, a.currency, tx.layers[a.layer].acquiredAt);
        var created := CreateLayer(tx, movement, layer, Some(sources[i]), TransferMode);
        if created.Err? {
          return Err(created.error);
        }
        tx, totalValue, transferred := created.value.book, totalValue + created.value.value, transferred - a.quantity;
      }
      i := i + 1;
    }
    if transferred != m.quantity {
      return Err(LayerShortage);
    }
    return Ok(Posted(tx, totalValue));
  }

  /** One movement through the moving average and the FIFO projection. The committed book keeps
      every agreement; the ceiling guard never rejects a movement. */
  method ApplyInventoryValuation(book: Book, m: Movement, catalogCost: int) returns (r: Result<Book>)
    requires Invariant(book)
    ensures r == Apply(book, m, catalogCost)
    ensures r.Ok? ==> Invariant(r.value) && r.value.movements == book.movements + [m]
    ensures r != Err(LayerCeiling)
  {
    ApplyKeepsInvariant(book, m, catalogCost);
    AverageKeepsCore(book, m, catalogCost);
    hide Invariant, Core;
    assert |book.figures| == |book.movements| && Unbooked(book, |book.movements|) by { InvariantFacts(book); }
    var averaged := Average(book, m, catalogCost);
    if averaged.Err? {
      return Err(averaged.error);
    }
    var tx, id := averaged.value, |book.movements|;
    var posted: Result<Posted>;
    if m.quantity > 0 {
      if IsSaleReversal(m.kind) {
        posted := RestoreSaleLayers(tx, id);
      } else if m.kind == TransferIn {
        posted := MoveLayers(tx, id);
      } else {
        var layer := EntryLayer(m, id, tx.figures[id].unitCost);
        if layer.Err? {
          return Err(layer.error);
        }
        posted := CreateLayer(tx, id, layer.value, None, EntryMode);
      }
    } else if m.quantity < 0 {
      var source := ConsumptionSource(m);
      if source.Err? {
        return Err(source.error);
      }
      posted := ConsumeFromLayers(tx, id, -m.quantity, source.value);
    } else {
      posted := Ok(Posted(tx, 0));
    }
    if posted.Err? {
      return Err(posted.error);
    }
    if !SummaryAgrees(posted.value.book, m.product) {
      return Err(LayerShortage);
    }
    var done := posted.value.book;
    var f := done.figures[id].(
      fifoUnitCost := WeightedCost(m.quantity, posted.value.value), fifoValueChange := posted.value.value);
    return Ok(done.(figures := done.figures[id := f]));
  }

  lemma InvariantFacts(book: Book)
    requires Invariant(book)
    ensures |book.figures| == |book.movements| && Core(book) && Unbooked(book, |book.movements|)
  {
  }
}
