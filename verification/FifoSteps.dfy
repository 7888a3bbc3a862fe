/** How one movement grows a book: which stock it moves, and that the invariant survives. */
module FifoSteps {
  import opened Outcomes
  import opened Sums
  import opened Rounding
  import opened Movements
  import opened Selection
  import opened Fifo
  import opened FifoInvariants

  function QuantityOf(): Allocation -> int {
    (a: Allocation) => a.quantity
  }

  function ValueOf(): Allocation -> int {
    (a: Allocation) => a.value
  }

  function OfProduct(layers: seq<Layer>, product: Product): Allocation -> int {
    (a: Allocation) => if a.layer < |layers| && layers[a.layer].product == product then a.quantity else 0
  }

  /** The allocations added since the book had n of them. */
  function Added(book: Book, n: nat): seq<Allocation>
    requires n <= |book.allocations|
  {
    book.allocations[n..]
  }

  /** What the allocations added since then moved of a product. */
  function Flow(book: Book, n: nat, product: Product): int
    requires n <= |book.allocations|
  {
    Total(Added(book, n), OfProduct(book.layers, product))
  }

  /** Existing layers keep everything but their remaining quantity. */
  ghost predicate SameLayers(before: Book, after: Book) {
    && |before.layers| <= |after.layers|
    && forall i :: 0 <= i < |before.layers| ==> after.layers[i].(remaining := before.layers[i].remaining) == before.layers[i]
  }

  ghost predicate AddedOk(book: Book, n: nat, movement: nat, location: Location, incoming: bool) {
    forall k :: n <= k < |book.allocations| ==>
      var a := book.allocations[k];
      && a.movement == movement && a.layer < |book.layers| && book.layers[a.layer].location == location
      && (if incoming then a.quantity > 0 else a.quantity < 0)
  }

  /** `after` is `before` plus allocations of one movement at one location, all of one sign,
      that add up to `quantity` and `value` and move the stock by exactly what they say. */
  ghost predicate Grown(before: Book, after: Book, movement: nat, location: Location, incoming: bool, quantity: int, value: int) {
    var n := |before.allocations|;
    && Core(after) && SameMovements(before, after) && SameLayers(before, after)
    && n <= |after.allocations| && after.allocations[..n] == before.allocations
    && AddedOk(after, n, movement, location, incoming)
    && Total(Added(after, n), QuantityOf()) == quantity
    && Total(Added(after, n), ValueOf()) == value
    && (forall x :: StockOf(after, x) == StockOf(before, x) + Flow(after, n, x))
    && (forall x, y :: Stock(after, x, y) == Stock(before, x, y) + (if y == location then Flow(after, n, x) else 0))
  }

  lemma GrownStart(book: Book, movement: nat, location: Location, incoming: bool)
    requires Core(book)
    ensures Grown(book, book, movement, location, incoming, 0, 0)
  {
    assert Added(book, |book.allocations|) == [];
  }

  lemma FlowAppend(book: Book, after: Book, n: nat, product: Product)
    requires n <= |book.allocations| && |after.allocations| == |book.allocations| + 1
    requires after.allocations[..|book.allocations|] == book.allocations
    requires SameLayers(book, after)
    requires forall k :: n <= k < |book.allocations| ==> book.allocations[k].layer < |book.layers|
    ensures Flow(after, n, product) == Flow(book, n, product)
            + OfProduct(after.layers, product)(after.allocations[|book.allocations|])
    ensures Added(after, n) == Added(book, n) + [after.allocations[|book.allocations|]]
  {
    var a := after.allocations[|book.allocations|];
    assert after.allocations == book.allocations + [a];
    assert Added(after, n) == Added(book, n) + [a];
    TotalAppend(Added(book, n), a, OfProduct(after.layers, product));
    TotalSame(Added(book, n), OfProduct(book.layers, product), Added(book, n), OfProduct(after.layers, product));
  }

  lemma StockPost(book: Book, movement: nat, layer: nat, source: Option<nat>, quantity: int, mode: Mode, x: Product, y: Location)
    requires layer < |book.layers|
    ensures var after := Post(book, movement, layer, source, quantity, mode).book;
            var l := book.layers[layer];
            && StockOf(after, x) == StockOf(book, x) + (if l.product == x then quantity else 0)
            && Stock(after, x, y) == Stock(book, x, y) + (if l.product == x && l.location == y then quantity else 0)
  {
    var row := Post(book, movement, layer, source, quantity, mode).book.layers[layer];
    TotalUpdate(book.layers, layer, row, RemainingOf(x));
    TotalUpdate(book.layers, layer, row, RemainingAt(x, y));
  }

  lemma StockOpen(book: Book, movement: nat, layer: Layer, source: Option<nat>, mode: Mode, x: Product, y: Location)
    ensures var after := Open(book, movement, layer, source, mode).book;
            && StockOf(after, x) == StockOf(book, x) + (if layer.product == x then layer.remaining else 0)
            && Stock(after, x, y) == Stock(book, x, y) + (if layer.product == x && layer.location == y then layer.remaining else 0)
  {
    TotalAppend(book.layers, layer, RemainingOf(x));
    TotalAppend(book.layers, layer, RemainingAt(x, y));
  }

  lemma AddedOkAppend(before: Book, book: Book, after: Book, movement: nat, location: Location, incoming: bool)
    requires SameLayers(before, book) && SameLayers(book, after)
    requires |before.allocations| <= |book.allocations| <= |after.allocations|
    requires after.allocations[..|book.allocations|] == book.allocations
    requires AddedOk(book, |before.allocations|, movement, location, incoming)
    requires AddedOk(after, |book.allocations|, movement, location, incoming)
    ensures SameLayers(before, after)
    ensures AddedOk(after, |before.allocations|, movement, location, incoming)
  {
    var n := |before.allocations|;
    forall k | n <= k < |after.allocations|
      ensures var b := after.allocations[k];
              && b.movement == movement && b.layer < |after.layers| && after.layers[b.layer].location == location
              && (if incoming then b.quantity > 0 else b.quantity < 0)
    {
      if k < |book.allocations| {
        assert after.allocations[k] == after.allocations[..|book.allocations|][k] == book.allocations[k];
      }
    }
  }

  /** One more allocation, booked on a layer of the same location, keeps a book growing. */
  lemma GrownAppend(before: Book, book: Book, after: Book, movement: nat, location: Location, incoming: bool, total: int, value: int)
    requires Grown(before, book, movement, location, incoming, total, value)
    requires Core(after) && SameMovements(book, after) && SameLayers(book, after)
    requires |after.allocations| == |book.allocations| + 1 && after.allocations[..|book.allocations|] == book.allocations
    requires AddedOk(after, |book.allocations|, movement, location, incoming)
    requires var a := after.allocations[|book.allocations|];
             && a.layer < |after.layers|
             && (forall x :: StockOf(after, x) == StockOf(book, x) + (if after.layers[a.layer].product == x then a.quantity else 0))
             && (forall x, y :: Stock(after, x, y) == Stock(book, x, y)
                   + (if after.layers[a.layer].product == x && location == y then a.quantity else 0))
    ensures var a := after.allocations[|book.allocations|];
            Grown(before, after, movement, location, incoming, total + a.quantity, value + a.value)
  {
    hide Core, Stock, StockOf, AddedOk, SameLayers;
    var n := |before.allocations|;
    var a := after.allocations[|book.allocations|];
    AddedOkAppend(before, book, after, movement, location, incoming);
    assert after.allocations[..n] == book.allocations[..n];
    assert forall k :: n <= k < |book.allocations| ==> book.allocations[k].layer < |book.layers| by { AddedLayers(book, n, movement, location, incoming); }
    FlowAppend(book, after, n, 0);
    TotalAppend(Added(book, n), a, QuantityOf());
    TotalAppend(Added(book, n), a, ValueOf());
    forall x ensures Flow(after, n, x) == Flow(book, n, x) + (if after.layers[a.layer].product == x then a.quantity else 0) {
      FlowAppend(book, after, n, x);
    }
  }

  lemma AddedLayers(book: Book, n: nat, movement: nat, location: Location, incoming: bool)
    requires AddedOk(book, n, movement, location, incoming)
    ensures forall k :: n <= k < |book.allocations| ==> book.allocations[k].layer < |book.layers|
  {
  }

  lemma PostGrows(before: Book, book: Book, movement: nat, location: Location, incoming: bool, total: int, value: int,
                  layer: nat, source: Option<nat>, quantity: int, mode: Mode)
    requires Grown(before, book, movement, location, incoming, total, value)
    requires layer < |book.layers| && book.layers[layer].location == location
    requires if incoming then quantity > 0 else quantity < 0
    requires Core(Post(book, movement, layer, source, quantity, mode).book)
    ensures var posted := Post(book, movement, layer, source, quantity, mode);
            Grown(before, posted.book, movement, location, incoming, total + quantity, value + posted.value)
  {
    hide Core, Grown, Stock, StockOf;
    var after := Post(book, movement, layer, source, quantity, mode).book;
    forall x, y ensures
      Stock(after, x, y) == Stock(book, x, y) + (if book.layers[layer].product == x && location == y then quantity else 0)
    {
      StockPost(book, movement, layer, source, quantity, mode, x, y);
    }
    forall x ensures StockOf(after, x) == StockOf(book, x) + (if book.layers[layer].product == x then quantity else 0) {
      StockPost(book, movement, layer, source, quantity, mode, x, 0);
    }
    GrownAppend(before, book, after, movement, location, incoming, total, value);
  }

  lemma OpenGrows(before: Book, book: Book, movement: nat, location: Location, total: int, value: int,
                  layer: Layer, source: Option<nat>, mode: Mode)
    requires Grown(before, book, movement, location, true, total, value)
    requires layer.location == location && layer.original == layer.remaining > 0
    requires Core(Open(book, movement, layer, source, mode).book)
    ensures var posted := Open(book, movement, layer, source, mode);
            Grown(before, posted.book, movement, location, true, total + layer.original, value + posted.value)
  {
    hide Core, Grown, Stock, StockOf;
    var after := Open(book, movement, layer, source, mode).book;
    forall x, y ensures
      Stock(after, x, y) == Stock(book, x, y) + (if layer.product == x && location == y then layer.original else 0)
    {
      StockOpen(book, movement, layer, source, mode, x, y);
    }
    forall x ensures StockOf(after, x) == StockOf(book, x) + (if layer.product == x then layer.original else 0) {
      StockOpen(book, movement, layer, source, mode, x, 0);
    }
    GrownAppend(before, book, after, movement, location, true, total, value);
  }

  /** What a loop reads off a growing book without looking into it. */
  lemma GrownFacts(before: Book, book: Book, movement: nat, location: Location, incoming: bool, total: int, value: int)
    requires Grown(before, book, movement, location, incoming, total, value)
    ensures Core(book) && SameMovements(before, book)
    ensures forall i :: 0 <= i < |book.layers| ==> 0 <= book.layers[i].remaining
    ensures forall k :: 0 <= k < |book.allocations| ==>
              book.allocations[k].layer < |book.layers| && Outstanding(book.allocations, k) >= 0
  {
  }

  lemma GrownShape(before: Book, after: Book, movement: nat, location: Location, incoming: bool, quantity: int, value: int)
    requires Grown(before, after, movement, location, incoming, quantity, value)
    ensures SameLayers(before, after) && |before.allocations| <= |after.allocations|
    ensures after.allocations[..|before.allocations|] == before.allocations
  {
    hide Core;
  }

  // ----- The loops -----

  ghost predicate Drawable(book: Book, order: seq<nat>, location: Location) {
    && (forall k :: 0 <= k < |order| ==> order[k] < |book.layers| && book.layers[order[k]].location == location)
    && (forall j, k :: 0 <= j < k < |order| ==> order[j] != order[k])
  }

  lemma {:induction false} ConsumeGrows(before: Book, book: Book, movement: nat, location: Location,
                                        order: seq<nat>, mode: Mode, remaining: int, total: int, value: int)
    requires Grown(before, book, movement, location, false, total, value)
    requires movement < |book.movements| && book.movements[movement].location == location && remaining >= 0
    requires book.movements[movement].quantity < 0
    requires mode == FifoMode || mode == OriginReturnMode
    requires Drawable(book, order, location)
    requires forall k :: 0 <= k < |order| ==> KeyFree(book, movement, order[k])
    ensures var r := Consume(book, movement, order, mode, remaining, value);
            && (r.Ok? ==> Grown(before, r.value.book, movement, location, false, total - remaining, r.value.value))
            && r != Err(LayerCeiling)
    decreases |order|
  {
    hide Core, Grown;
    GrownFacts(before, book, movement, location, false, total, value);
    if order != [] && remaining != 0 {
      var layer := order[0];
      var consumed := Min(book.layers[layer].remaining, remaining);
      if consumed == 0 {
        ConsumeGrows(before, book, movement, location, order[1..], mode, remaining, total, value);
      } else {
        var posted := Post(book, movement, layer, None, -consumed, mode);
        DrawKeepsCore(book, movement, layer, consumed, mode);
        PostGrows(before, book, movement, location, false, total, value, layer, None, -consumed, mode);
        ConsumeGrows(before, posted.book, movement, location, order[1..], mode, remaining - consumed,
                     total - consumed, value + posted.value);
      }
    }
  }

  /** The sources are sales of the movement's line at the movement's location. */
  ghost predicate Returnable(book: Book, movement: nat, sources: seq<nat>)
    requires movement < |book.movements|
  {
    var m := book.movements[movement];
    (sources != [] ==> m.saleLine.Some?) &&
    forall k :: 0 <= k < |sources| ==>
      sources[k] < |book.allocations| &&
      var a := book.allocations[sources[k]];
      a.layer < |book.layers| && a.movement < |book.movements| &&
      var sale := book.movements[a.movement];
      && sale.kind == Sale && sale.saleLine == m.saleLine && (m.sourceSale.Some? ==> a.movement == m.sourceSale.value)
      && book.layers[a.layer].location == m.location
  }

  /** For a sale's allocation every link to it is a restoration, so the query over
      source_allocation_id measures what was given back. */
  lemma SoldLinksAreRestores(book: Book, k: nat)
    requires Core(book) && k < |book.allocations|
    requires book.allocations[k].movement < |book.movements|
    requires book.movements[book.allocations[k].movement].kind == Sale
    ensures Total(book.allocations, SourcedFrom(k)) == Total(book.allocations, RestoreOf(k))
    ensures book.allocations[k].quantity >= 0 ==> Total(book.allocations, SourcedFrom(k)) >= 0
  {
    forall j | 0 <= j < |book.allocations|
      ensures SourcedFrom(k)(book.allocations[j]) == RestoreOf(k)(book.allocations[j]) >= 0
    {
      assert LinkOk(book, j);
    }
    TotalSame(book.allocations, SourcedFrom(k), book.allocations, RestoreOf(k));
    TotalNonNegative(book.allocations, SourcedFrom(k));
  }

  /** One round of the restoration loop that does restore. */
  lemma RestoreStep(before: Book, book: Book, movement: nat, location: Location, source: nat, quantity: int, restored: int, value: int)
    requires Grown(before, book, movement, location, true, restored, value)
    requires movement < |book.movements| && book.movements[movement].location == location
    requires book.movements[movement].quantity > 0 && IsSaleReversal(book.movements[movement].kind)
    requires Returnable(book, movement, [source])
    requires source < |book.allocations|
    requires 0 < quantity <= -book.allocations[source].quantity - Total(book.allocations, SourcedFrom(source))
    ensures var l := book.layers[book.allocations[source].layer]; l.remaining + quantity <= l.original
    ensures KeyFree(book, movement, book.allocations[source].layer) ==>
              var posted := Post(book, movement, book.allocations[source].layer, Some(source), quantity, RestoreMode);
              Grown(before, posted.book, movement, location, true, restored + quantity, value + posted.value)
  {
    hide Core, Grown;
    assert [source][0] == source;
    GrownFacts(before, book, movement, location, true, restored, value);
    var layer := book.allocations[source].layer;
    SoldLinksAreRestores(book, source);
    CeilingHolds(book, source);
    if KeyFree(book, movement, layer) {
      RestoreKeepsCore(book, movement, source, quantity);
      PostGrows(before, book, movement, location, true, restored, value, layer, Some(source), quantity, RestoreMode);
    }
  }

  lemma ReturnableKept(book: Book, after: Book, movement: nat, sources: seq<nat>)
    requires movement < |book.movements|
    requires Returnable(book, movement, sources)
    requires after.movements == book.movements && SameLayers(book, after)
    requires |book.allocations| <= |after.allocations| && after.allocations[..|book.allocations|] == book.allocations
    ensures sources != [] ==> Returnable(after, movement, sources[1..]) && Returnable(book, movement, sources[1..])
  {
    forall k | 0 <= k < |sources| ensures sources[k] < |book.allocations| && after.allocations[sources[k]] == book.allocations[sources[k]] {
      assert after.allocations[sources[k]] == after.allocations[..|book.allocations|][sources[k]];
    }
  }

  lemma ReturnableFacts(book: Book, movement: nat, sources: seq<nat>)
    requires movement < |book.movements|
    requires Returnable(book, movement, sources)
    ensures forall k :: 0 <= k < |sources| ==>
              sources[k] < |book.allocations| && book.allocations[sources[k]].layer < |book.layers|
    ensures sources != [] ==> Returnable(book, movement, [sources[0]])
  {
  }

  lemma {:induction false} RestoreGrows(before: Book, book: Book, movement: nat, location: Location,
                                        sources: seq<nat>, expected: int, restored: int, value: int)
    requires Grown(before, book, movement, location, true, restored, value)
    requires movement < |book.movements| && book.movements[movement].location == location
    requires book.movements[movement].quantity > 0 && IsSaleReversal(book.movements[movement].kind)
    requires Returnable(book, movement, sources)
    ensures var r := Restore(book, movement, sources, expected, restored, value);
            && (r.Ok? ==> Grown(before, r.value.book, movement, location, true, expected, r.value.value))
            && r != Err(LayerCeiling)
    decreases |sources|
  {
    hide Core, Grown, KeyFree, Returnable;
    ReturnableFacts(book, movement, sources);
    if sources != [] {
      var a := book.allocations[sources[0]];
      var available := -a.quantity - Total(book.allocations, SourcedFrom(sources[0]));
      var quantity := Min(available, expected - restored);
      ReturnableKept(book, book, movement, sources);
      if quantity <= 0 {
        RestoreGrows(before, book, movement, location, sources[1..], expected, restored, value);
      } else {
        RestoreStep(before, book, movement, location, sources[0], quantity, restored, value);
        if KeyFree(book, movement, a.layer) {
          var posted := Post(book, movement, a.layer, Some(sources[0]), quantity, RestoreMode);
          ReturnableKept(book, posted.book, movement, sources);
          RestoreGrows(before, posted.book, movement, location, sources[1..], expected, restored + quantity,
                       value + posted.value);
        }
      }
    }
  }

  /** The sources are dispatches of the movement's transfer line. */
  ghost predicate Carried(book: Book, movement: nat, sources: seq<nat>)
    requires movement < |book.movements|
  {
    var m := book.movements[movement];
    (sources != [] ==> m.transferLine.Some?) &&
    forall k :: 0 <= k < |sources| ==>
      sources[k] < |book.allocations| &&
      var a := book.allocations[sources[k]];
      a.layer < |book.layers| && a.movement < |book.movements| &&
      var out := book.movements[a.movement];
      out.kind == TransferOut && out.transferLine == m.transferLine
  }

  lemma CarriedKept(book: Book, after: Book, movement: nat, sources: seq<nat>)
    requires movement < |book.movements| && Carried(book, movement, sources) && sources != []
    requires after.movements == book.movements && |book.layers| <= |after.layers|
    requires |book.allocations| <= |after.allocations| && after.allocations[..|book.allocations|] == book.allocations
    ensures Carried(book, movement, [sources[0]]) && Carried(book, movement, sources[1..]) && Carried(after, movement, sources[1..])
  {
    forall k | 0 <= k < |sources| ensures sources[k] < |book.allocations| && after.allocations[sources[k]] == book.allocations[sources[k]] {
      assert after.allocations[sources[k]] == after.allocations[..|book.allocations|][sources[k]];
    }
  }

  /** The layer a dispatched allocation opens at the destination. */
  function ArrivalLayer(book: Book, movement: nat, source: nat): Layer
    requires movement < |book.movements| && source < |book.allocations|
    requires book.allocations[source].layer < |book.layers|
  {
    var a := book.allocations[source];
    var m := book.movements[movement];
    Layer(m.product, m.location, movement, None, -a.quantity, -a.quantity,
          a.unitCost, a.currency, book.layers[a.layer].acquiredAt)
  }

  /** One round of the transfer loop that opens a layer. */
  lemma MovingStep(before: Book, book: Book, movement: nat, source: nat, transferred: int, value: int)
    requires movement < |book.movements|
    requires book.movements[movement].quantity > 0 && book.movements[movement].kind == TransferIn
    requires Grown(before, book, movement, book.movements[movement].location, true, transferred, value)
    requires Carried(book, movement, [source]) && source < |book.allocations| && book.allocations[source].quantity < 0
    requires book.allocations[source].layer < |book.layers|
    requires var layer := ArrivalLayer(book, movement, source); CurrencyAccepted(book, layer.product, layer.currency)
    ensures var posted := Open(book, movement, ArrivalLayer(book, movement, source), Some(source), TransferMode);
            Grown(before, posted.book, movement, book.movements[movement].location, true,
                  transferred - book.allocations[source].quantity, value + posted.value)
  {
    hide Core, Grown;
    assert [source][0] == source;
    var location := book.movements[movement].location;
    GrownFacts(before, book, movement, location, true, transferred, value);
    var layer := ArrivalLayer(book, movement, source);
    OpenKeepsCore(book, movement, layer, Some(source), TransferMode);
    OpenGrows(before, book, movement, location, transferred, value, layer, Some(source), TransferMode);
  }

  lemma {:induction false} MovingGrows(before: Book, book: Book, movement: nat,
                                       sources: seq<nat>, expected: int, transferred: int, value: int)
    requires movement < |book.movements|
    requires book.movements[movement].quantity > 0 && book.movements[movement].kind == TransferIn
    requires Grown(before, book, movement, book.movements[movement].location, true, transferred, value)
    requires Carried(book, movement, sources)
    ensures var r := Moving(book, movement, sources, expected, transferred, value);
            && (r.Ok? ==> Grown(before, r.value.book, movement, book.movements[movement].location, true, expected, r.value.value))
            && r != Err(LayerCeiling)
    decreases |sources|
  {
    hide Core, Grown, CurrencyAccepted;
    if sources != [] {
      var a := book.allocations[sources[0]];
      CarriedKept(book, book, movement, sources);
      if -a.quantity <= 0 {
        MovingGrows(before, book, movement, sources[1..], expected, transferred, value);
      } else {
        var layer := ArrivalLayer(book, movement, sources[0]);
        if CurrencyAccepted(book, layer.product, layer.currency) {
          var posted := Open(book, movement, layer, Some(sources[0]), TransferMode);
          MovingStep(before, book, movement, sources[0], transferred, value);
          CarriedKept(book, posted.book, movement, sources);
          MovingGrows(before, posted.book, movement, sources[1..], expected, transferred - a.quantity, value + posted.value);
        }
      }
    }
  }

  lemma {:induction false} ReversedAreReversible(book: Book, m: Movement, n: nat)
    requires n <= |book.allocations|
    ensures var r := Reversed(book, m, n);
            && (forall k: nat :: k in r <==> k < n && Reversible(book, k, m))
            && (forall j, k :: 0 <= j < k < |r| ==> r[j] < r[k])
  {
    if n > 0 {
      ReversedAreReversible(book, m, n - 1);
    }
  }

  lemma {:induction false} DispatchedByAreDispatched(book: Book, m: Movement, n: nat)
    requires n <= |book.allocations|
    ensures var r := DispatchedBy(book, m, n);
            && (forall k: nat :: k in r <==> k < n && Dispatched(book, k, m))
            && (forall j, k :: 0 <= j < k < |r| ==> r[j] < r[k])
  {
    if n > 0 {
      DispatchedByAreDispatched(book, m, n - 1);
    }
  }
}
