/** The FIFO ledger over whole runs: after any sequence of movements, of any kind, each either
    committed or rolled back, every projection of the same stock agrees. */
module FifoRuns {
  import opened Outcomes
  import opened Sums
  import opened Rounding
  import opened Movements
  import opened Selection
  import opened Fifo
  import opened FifoInvariants
  import opened FifoSteps

  /** The layers hold, per product and location and per product, what the movements say. */
  ghost predicate LayersMatchMovements(book: Book) {
    && (forall p, l :: Stock(book, p, l) == Moved(book.movements, p, l))
    && (forall p :: StockOf(book, p) == MovedOf(book.movements, p))
  }

  function ValueChangeOf(book: Book, product: Product): nat -> int {
    (k: nat) => if k < |book.movements| && k < |book.figures| && book.movements[k].product == product
                then book.figures[k].valueChange else 0
  }

  function ValueMoved(book: Book, product: Product): int {
    Sum(|book.movements|, ValueChangeOf(book, product))
  }

  /** The valuation row is the sum of the product's movements in quantity and in value. */
  ghost predicate ValuationMatches(book: Book, p: Product) {
    var v := CurrentValuation(book, p, 0);
    v.quantity == MovedOf(book.movements, p) && v.value == ValueMoved(book, p)
  }

  ghost predicate ValuationsMatchMovements(book: Book) {
    forall p :: ValuationMatches(book, p)
  }

  function ValueOfMovement(movement: nat): Allocation -> int {
    (a: Allocation) => if a.movement == movement then a.value else 0
  }

  /** The allocations of a movement add up to its quantity and to its FIFO value. */
  ghost predicate MovementBooked(book: Book, k: nat)
    requires k < |book.movements| == |book.figures|
  {
    && Total(book.allocations, OfMovement(k)) == book.movements[k].quantity
    && Total(book.allocations, ValueOfMovement(k)) == book.figures[k].fifoValueChange
  }

  ghost predicate MovementsBooked(book: Book) {
    |book.figures| == |book.movements| && forall k :: 0 <= k < |book.movements| ==> MovementBooked(book, k)
  }

  /** An allocation lies on a layer of its movement's product. */
  ghost predicate OnProduct(book: Book) {
    forall k :: 0 <= k < |book.allocations| ==>
      var a := book.allocations[k];
      a.layer < |book.layers| && a.movement < |book.movements| && book.layers[a.layer].product == book.movements[a.movement].product
  }

  /** Allocations are stored in the order of their movements. */
  ghost predicate Chronological(book: Book) {
    forall j, k :: 0 <= j < k < |book.allocations| ==> book.allocations[j].movement <= book.allocations[k].movement
  }

  ghost predicate Invariant(book: Book) {
    && Core(book) && LayersMatchMovements(book) && ValuationsMatchMovements(book) && MovementsBooked(book) && OnProduct(book)
    && Chronological(book)
  }

  // ----- One movement -----

  lemma AverageKeepsCore(book: Book, m: Movement, catalogCost: int)
    requires Core(book)
    ensures var r := Average(book, m, catalogCost);
            r.Ok? ==> Core(r.value)
  {
    var r := Average(book, m, catalogCost);
    if r.Ok? {
      forall k | 0 <= k < |r.value.allocations| ensures LinkOk(r.value, k) {
        assert LinkOk(book, k);
      }
    }
  }

  ghost predicate Unbooked(book: Book, movement: nat) {
    forall k :: 0 <= k < |book.allocations| ==> book.allocations[k].movement != movement
  }

  lemma CoreLinks(book: Book)
    requires Core(book)
    ensures Linked(book)
  {
  }

  lemma RestoreSaleGrows(book: Book, movement: nat)
    requires Core(book) && movement < |book.movements|
    requires book.movements[movement].quantity > 0 && IsSaleReversal(book.movements[movement].kind)
    ensures var m := book.movements[movement];
            var r := RestoreSale(book, movement, m.quantity);
            && (r.Ok? ==> Grown(book, r.value.book, movement, m.location, true, m.quantity, r.value.value))
            && r != Err(LayerCeiling)
  {
    hide Grown, Core;
    var m := book.movements[movement];
    CoreLinks(book);
    GrownStart(book, movement, m.location, true);
    ReversedAreReversible(book, m, |book.allocations|);
    var sources := Reversed(book, m, |book.allocations|);
    assert Returnable(book, movement, sources) by {
      assert sources != [] ==> sources[0] in sources;
      forall k | 0 <= k < |sources|
        ensures var a := book.allocations[sources[k]];
                && Reversible(book, sources[k], m)
                && a.layer < |book.layers| && book.layers[a.layer].location == m.location
      {
        assert sources[k] in sources;
      }
    }
    RestoreGrows(book, book, movement, m.location, sources, m.quantity, 0, 0);
  }

  lemma TransferLayersGrows(book: Book, movement: nat)
    requires Core(book) && movement < |book.movements|
    requires book.movements[movement].quantity > 0 && book.movements[movement].kind == TransferIn
    ensures var m := book.movements[movement];
            var r := TransferLayers(book, movement, m.quantity);
            && (r.Ok? ==> Grown(book, r.value.book, movement, m.location, true, m.quantity, r.value.value))
            && r != Err(LayerCeiling)
  {
    hide Grown, Core;
    var m := book.movements[movement];
    CoreLinks(book);
    GrownStart(book, movement, m.location, true);
    DispatchedByAreDispatched(book, m, |book.allocations|);
    var sources := DispatchedBy(book, m, |book.allocations|);
    assert Carried(book, movement, sources) by {
      assert sources != [] ==> sources[0] in sources;
      forall k | 0 <= k < |sources|
        ensures Dispatched(book, sources[k], m) && book.allocations[sources[k]].layer < |book.layers|
      {
        assert sources[k] in sources;
      }
    }
    MovingGrows(book, book, movement, sources, m.quantity, 0, 0);
  }

  lemma OrderIsDrawable(book: Book, m: Movement, source: Source)
    ensures Drawable(book, Order(book, m, source), m.location)
  {
    SelectIsExact(|book.layers|, EligibleLayer(book, m, source), AcquiredRank(book));
  }

  lemma ConsumeLayersGrows(book: Book, movement: nat, source: Source)
    requires Core(book) && movement < |book.movements| && Unbooked(book, movement)
    requires book.movements[movement].quantity < 0
    ensures var m := book.movements[movement];
            var r := ConsumeLayers(book, movement, -m.quantity, source);
            && (r.Ok? ==> Grown(book, r.value.book, movement, m.location, false, m.quantity, r.value.value))
            && r != Err(LayerCeiling)
  {
    hide Grown, Core, Order, Drawable;
    var m := book.movements[movement];
    GrownStart(book, movement, m.location, false);
    var order := Order(book, m, source);
    OrderIsDrawable(book, m, source);
    ConsumeGrows(book, book, movement, m.location, order,
                 if source.Receipt? then OriginReturnMode else FifoMode, -m.quantity, 0, 0);
  }

  lemma EntryGrows(book: Book, movement: nat, layer: Layer)
    requires Core(book) && movement < |book.movements|
    requires var m := book.movements[movement];
             && layer.location == m.location && layer.original == layer.remaining == m.quantity > 0
             && m.kind != TransferIn && !IsSaleReversal(m.kind)
    ensures var m := book.movements[movement];
            var r := CreateLayer(book, movement, layer, None, EntryMode);
            r.Ok? ==> Grown(book, r.value.book, movement, m.location, true, m.quantity, r.value.value)
  {
    hide Grown, Core;
    var m := book.movements[movement];
    GrownStart(book, movement, m.location, true);
    if CurrencyAccepted(book, layer.product, layer.currency) {
      OpenKeepsCore(book, movement, layer, None, EntryMode);
      OpenGrows(book, book, movement, m.location, 0, 0, layer, None, EntryMode);
    }
  }

  /** Whatever its kind, a movement grows the book by its own signed quantity at its location,
      and the ceiling guard of a restoration is never what stops it. */
  lemma BookLayersGrows(book: Book, movement: nat, unitCost: int)
    requires Core(book) && movement < |book.movements| && Unbooked(book, movement)
    ensures var m := book.movements[movement];
            var r := BookLayers(book, movement, unitCost);
            && (r.Ok? ==> Grown(book, r.value.book, movement, m.location, m.quantity > 0, m.quantity, r.value.value))
            && r != Err(LayerCeiling)
  {
    hide Grown, Core, RestoreSale, TransferLayers, ConsumeLayers, Unbooked;
    var m := book.movements[movement];
    if m.quantity > 0 {
      if IsSaleReversal(m.kind) {
        RestoreSaleGrows(book, movement);
      } else if m.kind == TransferIn {
        TransferLayersGrows(book, movement);
      } else if EntryLayer(m, movement, unitCost).Ok? {
        EntryGrows(book, movement, EntryLayer(m, movement, unitCost).value);
      }
    } else if m.quantity < 0 {
      if ConsumptionSource(m).Ok? {
        ConsumeLayersGrows(book, movement, ConsumptionSource(m).value);
      }
    } else {
      GrownStart(book, movement, m.location, false);
    }
  }

  // ----- From growth to agreement -----

  function OffProduct(layers: seq<Layer>, product: Product): Allocation -> int {
    (a: Allocation) => a.quantity - OfProduct(layers, product)(a)
  }

  /** If all of a movement's quantity went to one product's layers, none went to another's:
      this is how the summary check rejects a reversal that touched a foreign layer. */
  lemma FlowIsAll(layers: seq<Layer>, added: seq<Allocation>, incoming: bool, p: Product, x: Product)
    requires forall k :: 0 <= k < |added| ==> if incoming then added[k].quantity > 0 else added[k].quantity < 0
    requires Total(added, OfProduct(layers, p)) == Total(added, QuantityOf()) && x != p
    ensures Total(added, OfProduct(layers, x)) == 0
  {
    TotalPlus(added, OfProduct(layers, p), OffProduct(layers, p), QuantityOf());
    var zero := (a: Allocation) => 0;
    TotalZero(added, zero);
    if incoming {
      TotalAtMost(added, OfProduct(layers, x), OffProduct(layers, p));
      TotalAtMost(added, zero, OfProduct(layers, x));
    } else {
      TotalAtMost(added, OffProduct(layers, p), OfProduct(layers, x));
      TotalAtMost(added, OfProduct(layers, x), zero);
    }
  }

  /** With all of a movement's quantity on its product's layers, each of its allocations is on one. */
  lemma {:induction false} EachOnProduct(layers: seq<Layer>, added: seq<Allocation>, incoming: bool, p: Product, k: nat)
    requires forall j :: 0 <= j < |added| ==>
               added[j].layer < |layers| && (if incoming then added[j].quantity > 0 else added[j].quantity < 0)
    requires Total(added, OfProduct(layers, p)) == Total(added, QuantityOf()) && k < |added|
    ensures layers[added[k].layer].product == p
  {
    if layers[added[k].layer].product != p {
      FlowIsAll(layers, added, incoming, p, layers[added[k].layer].product);
      FlowIsSome(layers, added, incoming, k);
      assert false;
    }
  }

  lemma {:induction false} FlowIsSome(layers: seq<Layer>, added: seq<Allocation>, incoming: bool, k: nat)
    requires forall j :: 0 <= j < |added| ==>
               added[j].layer < |layers| && (incoming ==> added[j].quantity > 0) && (!incoming ==> added[j].quantity < 0)
    requires k < |added|
    ensures Total(added, OfProduct(layers, layers[added[k].layer].product)) != 0
  {
    var x := layers[added[k].layer].product;
    if incoming {
      TotalTerm(added, OfProduct(layers, x), k);
    } else {
      TotalScale(added, OfProduct(layers, x), -1, TakenFrom(layers, x));
      TotalTerm(added, TakenFrom(layers, x), k);
    }
  }

  function TakenFrom(layers: seq<Layer>, product: Product): Allocation -> int {
    (a: Allocation) => -OfProduct(layers, product)(a)
  }

  lemma OnProductGrows(book: Book, averaged: Book, after: Book, m: Movement, value: int)
    requires OnProduct(book)
    requires averaged.layers == book.layers && averaged.movements == book.movements + [m] && averaged.allocations == book.allocations
    requires Grown(averaged, after, |book.movements|, m.location, m.quantity > 0, m.quantity, value)
    requires Flow(after, |averaged.allocations|, m.product) == m.quantity
    ensures OnProduct(after)
  {
    hide Core;
    var n := |averaged.allocations|;
    var added := Added(after, n);
    forall k | 0 <= k < |after.allocations|
      ensures var a := after.allocations[k];
              a.layer < |after.layers| && a.movement < |after.movements| && after.layers[a.layer].product == after.movements[a.movement].product
    {
      if k < n {
        assert after.allocations[k] == after.allocations[..n][k] == book.allocations[k];
      } else {
        assert added[k - n] == after.allocations[k];
        EachOnProduct(after.layers, added, m.quantity > 0, m.product, k - n);
      }
    }
  }

  lemma ChronologicalGrows(book: Book, averaged: Book, after: Book, location: Location, incoming: bool, quantity: int, value: int)
    requires Chronological(book) && Linked(book) && averaged.allocations == book.allocations
    requires Grown(averaged, after, |book.movements|, location, incoming, quantity, value)
    ensures Chronological(after)
  {
    hide Core;
    var n := |averaged.allocations|;
    forall k | 0 <= k < |after.allocations|
      ensures after.allocations[k].movement <= |book.movements|
      ensures k < n ==> after.allocations[k] == book.allocations[k]
      ensures n <= k ==> after.allocations[k].movement == |book.movements|
    {
      if k < n {
        assert after.allocations[k] == after.allocations[..n][k];
      }
    }
  }

  /** Growth by the right amount, checked by the summary, keeps the layers in step. */
  lemma LayersStayMatched(book: Book, averaged: Book, after: Book, m: Movement, value: int)
    requires LayersMatchMovements(book)
    requires averaged.layers == book.layers && averaged.movements == book.movements + [m]
    requires Grown(averaged, after, |book.movements|, m.location, m.quantity > 0, m.quantity, value)
    requires StockOf(after, m.product) == MovedOf(averaged.movements, m.product)
    ensures LayersMatchMovements(after) && Flow(after, |averaged.allocations|, m.product) == m.quantity
  {
    hide Core;
    var n := |averaged.allocations|;
    var added := Added(after, n);
    TotalAppend(book.movements, m, ChangeOf(m.product));
    assert StockOf(averaged, m.product) == StockOf(book, m.product);
    assert Flow(after, n, m.product) == m.quantity;
    forall x | x != m.product ensures Flow(after, n, x) == 0 {
      FlowIsAll(after.layers, added, m.quantity > 0, m.product, x);
    }
    forall x ensures StockOf(after, x) == MovedOf(after.movements, x) {
      assert StockOf(averaged, x) == StockOf(book, x);
      TotalAppend(book.movements, m, ChangeOf(x));
    }
    forall x, y ensures Stock(after, x, y) == Moved(after.movements, x, y) {
      assert Stock(averaged, x, y) == Stock(book, x, y);
      TotalAppend(book.movements, m, ChangeAt(x, y));
    }
  }

  lemma BookedTotals(before: Book, after: Book, movement: nat, location: Location, incoming: bool, quantity: int, value: int, k: nat)
    requires Grown(before, after, movement, location, incoming, quantity, value)
    requires Unbooked(before, movement)
    ensures Total(after.allocations, OfMovement(k))
            == Total(before.allocations, OfMovement(k)) + (if k == movement then quantity else 0)
    ensures Total(after.allocations, ValueOfMovement(k))
            == Total(before.allocations, ValueOfMovement(k)) + (if k == movement then value else 0)
    ensures k == movement ==> Total(before.allocations, OfMovement(k)) == Total(before.allocations, ValueOfMovement(k)) == 0
  {
    hide Core;
    var n := |before.allocations|;
    var added := Added(after, n);
    assert after.allocations == before.allocations + added;
    TotalConcat(before.allocations, added, OfMovement(k));
    TotalConcat(before.allocations, added, ValueOfMovement(k));
    if k == movement {
      TotalSame(added, QuantityOf(), added, OfMovement(k));
      TotalSame(added, ValueOf(), added, ValueOfMovement(k));
      TotalZero(before.allocations, OfMovement(k));
      TotalZero(before.allocations, ValueOfMovement(k));
    } else {
      TotalZero(added, OfMovement(k));
      TotalZero(added, ValueOfMovement(k));
    }
  }

  /** The row inserted by the moving average extends the product's sums by its own figures. */
  lemma AverageMatches(book: Book, m: Movement, catalogCost: int)
    requires ValuationsMatchMovements(book) && |book.figures| == |book.movements|
    ensures var r := Average(book, m, catalogCost);
            r.Ok? ==> && ValuationsMatchMovements(r.value) && m.product in r.value.valuations
                      && |r.value.figures| == |r.value.movements| && r.value.movements == book.movements + [m]
                      && r.value.layers == book.layers && r.value.allocations == book.allocations
                      && r.value.figures[..|book.figures|] == book.figures
  {
    var r := Average(book, m, catalogCost);
    if r.Ok? {
      var after := r.value;
      forall p ensures ValuationMatches(after, p) {
        assert ValuationMatches(book, p);
        TotalAppend(book.movements, m, ChangeOf(p));
        SumSame(|book.movements|, ValueChangeOf(book, p), ValueChangeOf(after, p));
      }
    }
  }

  /** Rewriting the FIFO figures of a movement changes no other projection. */
  lemma FiguresAreSeparate(book: Book, k: nat, f: Figures)
    requires k < |book.figures| == |book.movements|
    requires f.valueChange == book.figures[k].valueChange
    requires Core(book) && LayersMatchMovements(book) && ValuationsMatchMovements(book)
    ensures var after := book.(figures := book.figures[k := f]);
            Core(after) && LayersMatchMovements(after) && ValuationsMatchMovements(after)
  {
    var after := book.(figures := book.figures[k := f]);
    assert Core(after) by {
      forall j | 0 <= j < |after.allocations| ensures LinkOk(after, j) { assert LinkOk(book, j); }
    }
    assert LayersMatchMovements(after) by {
      forall p, l ensures Stock(after, p, l) == Moved(after.movements, p, l) { assert Stock(book, p, l) == Stock(after, p, l); }
      forall p ensures StockOf(after, p) == MovedOf(after.movements, p) { assert StockOf(book, p) == StockOf(after, p); }
    }
    forall p ensures ValuationMatches(after, p) {
      assert ValuationMatches(book, p);
      SumSame(|book.movements|, ValueChangeOf(book, p), ValueChangeOf(after, p));
    }
  }

  lemma ApplyFifoKeeps(book: Book, averaged: Book, m: Movement)
    requires Invariant(book)
    requires Core(averaged) && ValuationsMatchMovements(averaged) && m.product in averaged.valuations
    requires averaged.movements == book.movements + [m] && averaged.layers == book.layers
    requires averaged.allocations == book.allocations && |averaged.figures| == |averaged.movements|
    requires averaged.figures[..|book.figures|] == book.figures
    ensures var r := ApplyFifo(averaged, |book.movements|);
            && (r.Ok? ==> Invariant(r.value.book) && r.value.book.movements == averaged.movements
                          && r.value.book.valuations == averaged.valuations)
            && r != Err(LayerCeiling)
  {
    hide Core, Grown, LayersMatchMovements, ValuationsMatchMovements, OnProduct, Chronological;
    var id := |book.movements|;
    assert Linked(book) by { CoreLinks(book); }
    assert Unbooked(averaged, id);
    hide Linked;
    BookLayersGrows(averaged, id, averaged.figures[id].unitCost);
    var r := BookLayers(averaged, id, averaged.figures[id].unitCost);
    if r.Ok? && SummaryAgrees(r.value.book, m.product) {
      var posted := r.value.book;
      GrownFacts(averaged, posted, id, m.location, m.quantity > 0, m.quantity, r.value.value);
      assert ValuationMatches(averaged, m.product) by { ValuationOf(averaged, m.product); }
      LayersStayMatched(book, averaged, posted, m, r.value.value);
      OnProductGrows(book, averaged, posted, m, r.value.value);
      ChronologicalGrows(book, averaged, posted, m.location, m.quantity > 0, m.quantity, r.value.value);
      assert ValuationsMatchMovements(posted) by { SameValuations(averaged, posted); }
      var f := posted.figures[id].(fifoUnitCost := WeightedCost(m.quantity, r.value.value), fifoValueChange := r.value.value);
      FiguresAreSeparate(posted, id, f);
      var after := posted.(figures := posted.figures[id := f]);
      assert OnProduct(after) && Chronological(after) by { SamePlaces(posted, after); }
      forall k | 0 <= k < |after.movements| ensures MovementBooked(after, k) {
        BookedTotals(averaged, posted, id, m.location, m.quantity > 0, m.quantity, r.value.value, k);
        if k < id {
          assert MovementBooked(book, k);
          assert averaged.figures[k] == averaged.figures[..|book.figures|][k];
        }
      }
    }
  }

  lemma SamePlaces(book: Book, after: Book)
    requires OnProduct(book) && Chronological(book)
    requires after.layers == book.layers && after.movements == book.movements && after.allocations == book.allocations
    ensures OnProduct(after) && Chronological(after)
  {
  }

  lemma ValuationOf(book: Book, p: Product)
    requires ValuationsMatchMovements(book)
    ensures ValuationMatches(book, p)
  {
  }

  lemma SameValuations(before: Book, after: Book)
    requires ValuationsMatchMovements(before) && SameMovements(before, after)
    ensures ValuationsMatchMovements(after)
  {
    forall p ensures ValuationMatches(after, p) {
      assert ValuationMatches(before, p);
      SumSame(|before.movements|, ValueChangeOf(before, p), ValueChangeOf(after, p));
    }
  }

  /** A committed movement of any kind keeps the invariant and is the only one added; a rolled
      back one is never rolled back by the ceiling guard. */
  lemma ApplyKeepsInvariant(book: Book, m: Movement, catalogCost: int)
    requires Invariant(book)
    ensures var r := Apply(book, m, catalogCost);
            && (r.Ok? ==> Invariant(r.value) && r.value.movements == book.movements + [m])
            && r != Err(LayerCeiling)
  {
    hide Core, LayersMatchMovements, ValuationsMatchMovements, ApplyFifo;
    assert |book.figures| == |book.movements|;
    AverageKeepsCore(book, m, catalogCost);
    AverageMatches(book, m, catalogCost);
    var averaged := Average(book, m, catalogCost);
    if averaged.Ok? {
      ApplyFifoKeeps(book, averaged.value, m);
    }
  }

  // ----- Runs -----

  /** A request to book a movement, with the catalogue cost read for a first valuation row. */
  datatype Request = Request(movement: Movement, catalogCost: int)

  /** The book after a run of transactions: a failing one changes nothing. */
  function Run(book: Book, requests: seq<Request>): (r: Book)
    requires |book.movements| == |book.figures|
    decreases |requests|
  {
    if requests == [] then book
    else
      match Apply(book, requests[0].movement, requests[0].catalogCost)
      case Err(_) => Run(book, requests[1..])
      case Ok(next) => Run(next, requests[1..])
  }

  lemma EmptyBookInvariant()
    ensures Invariant(EmptyBook)
  {
    assert Core(EmptyBook);
    assert LayersMatchMovements(EmptyBook);
    hide Core, LayersMatchMovements;
    forall p ensures ValuationMatches(EmptyBook, p) {
    }
  }

  /** Every run from an empty book ends with all projections in agreement. */
  lemma {:induction false} RunKeepsInvariant(book: Book, requests: seq<Request>)
    requires Invariant(book)
    ensures Invariant(Run(book, requests))
    decreases |requests|
  {
    hide Core, LayersMatchMovements, ValuationsMatchMovements, Apply;
    if requests != [] {
      ApplyKeepsInvariant(book, requests[0].movement, requests[0].catalogCost);
      match Apply(book, requests[0].movement, requests[0].catalogCost)
      case Err(_) => RunKeepsInvariant(book, requests[1..]);
      case Ok(next) => RunKeepsInvariant(next, requests[1..]);
    }
  }
}
