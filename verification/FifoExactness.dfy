/** Exactly when a movement is accepted by the valuation and the cost layers. */
module FifoExactness {
  import opened Outcomes
  import opened Sums
  import opened Rounding
  import opened Movements
  import opened Selection
  import opened Fifo
  import opened FifoInvariants
  import opened FifoSteps
  import opened FifoRuns
  import opened FifoTheorems
  import opened FifoReversal
  import opened FifoValues

  /** The inventory value of the product after the movement, which must not be negative. */
  function ValueAfter(book: Book, m: Movement, unitCost: int, catalogCost: int): int {
    var current := CurrentValuation(book, m.product, catalogCost);
    if current.quantity + m.quantity == 0 then 0 else current.value + QuantityValue(m.quantity, unitCost)
  }

  /** The cost an ordinary movement is valued at: the running average. */
  function AverageCost(book: Book, m: Movement, catalogCost: int): int {
    CurrentValuation(book, m.product, catalogCost).average
  }

  lemma AverageAccepts(book: Book, m: Movement, catalogCost: int)
    requires |book.movements| == |book.figures| && !IsValuedEntry(m)
    ensures var r := Average(book, m, catalogCost);
            && (r.Ok? <==> CurrentValuation(book, m.product, catalogCost).quantity + m.quantity >= 0
                           && ValueAfter(book, m, AverageCost(book, m, catalogCost), catalogCost) >= 0)
            && (r.Ok? ==> && r.value.layers == book.layers && r.value.allocations == book.allocations
                          && r.value.movements == book.movements + [m] && |r.value.figures| == |r.value.movements|
                          && m.product in r.value.valuations
                          && r.value.valuations[m.product].quantity == CurrentValuation(book, m.product, catalogCost).quantity + m.quantity)
  {
    hide QuantityValue, DivideRounded;
  }

  lemma QuantityHeld(book: Book, product: Product, location: Location, catalogCost: int)
    requires Invariant(book)
    ensures CurrentValuation(book, product, catalogCost).quantity == StockOf(book, product)
    ensures 0 <= Stock(book, product, location) == Moved(book.movements, product, location) <= StockOf(book, product)
  {
    assert ValuationMatches(book, product);
    assert StockOf(book, product) == MovedOf(book.movements, product);
    forall i | 0 <= i < |book.layers| ensures book.layers[i].remaining >= 0 {
    }
    TotalAtMost(book.layers, RemainingAt(product, location), RemainingOf(product));
    TotalNonNegative(book.layers, RemainingAt(product, location));
  }

  // ----- What leaves -----

  /** A movement that draws on any layer of its product at its location. */
  predicate OrdinaryExit(m: Movement) {
    m.quantity < 0 && m.kind != SupplierReturn && m.kind != TransferDiscrepancy
  }

  lemma EligibleIsStock(book: Book, m: Movement)
    requires Core(book)
    ensures EligibleStock(book, m, AnySource) == Stock(book, m.product, m.location)
  {
    var f := Selection.Eligible(EligibleLayer(book, m, AnySource), RemainingOn(book));
    forall i: nat | i < |book.layers| ensures f(i) == RemainingAt(m.product, m.location)(book.layers[i]) {
    }
    SumIsTotal(book.layers, RemainingAt(m.product, m.location), f);
  }

  lemma EligibleWithinStock(book: Book, m: Movement, source: Source)
    requires Core(book)
    ensures EligibleStock(book, m, source) <= EligibleStock(book, m, AnySource)
  {
    var f := Selection.Eligible(EligibleLayer(book, m, source), RemainingOn(book));
    var g := Selection.Eligible(EligibleLayer(book, m, AnySource), RemainingOn(book));
    assert Backed(book);
    hide Core, FromSource;
    forall k: nat | k < |book.layers| ensures f(k) <= g(k) {
    }
    SumAtMost(|book.layers|, f, g);
  }

  /** A movement that is not an arrival adds nothing to draw on by being logged. */
  lemma EligibleKept(book: Book, averaged: Book, added: Movement, m: Movement, source: Source)
    requires averaged.layers == book.layers && averaged.movements == book.movements + [added] && added.kind != TransferIn
    ensures EligibleStock(averaged, m, source) == EligibleStock(book, m, source)
  {
    var f := Selection.Eligible(EligibleLayer(book, m, source), RemainingOn(book));
    var g := Selection.Eligible(EligibleLayer(averaged, m, source), RemainingOn(averaged));
    forall k: nat | k < |book.layers| ensures f(k) == g(k) {
      assert FromSource(averaged, book.layers[k], source) == FromSource(book, book.layers[k], source);
    }
    SumSame(|book.layers|, f, g);
  }

  ghost predicate LayersOf(book: Book, order: seq<nat>, product: Product) {
    forall k :: 0 <= k < |order| ==> order[k] < |book.layers| && book.layers[order[k]].product == product
  }

  lemma PostDraws(book: Book, movement: nat, order: seq<nat>, quantity: int, mode: Mode, product: Product)
    requires LayersOf(book, order, product) && order != []
    ensures LayersOf(Post(book, movement, order[0], None, quantity, mode).book, order[1..], product)
  {
    hide QuantityValue;
  }

  lemma LayersOfRest(book: Book, order: seq<nat>, product: Product)
    requires LayersOf(book, order, product) && order != []
    ensures LayersOf(book, order[1..], product) && order[0] < |book.layers| && book.layers[order[0]].product == product
  {
  }

  lemma ConsumeUnfolds(book: Book, movement: nat, order: seq<nat>, mode: Mode, remaining: int, value: int)
    requires forall k :: 0 <= k < |order| ==> order[k] < |book.layers|
    requires order != [] && remaining != 0
    ensures var consumed := Min(book.layers[order[0]].remaining, remaining);
            var posted := Post(book, movement, order[0], None, -consumed, mode);
            Consume(book, movement, order, mode, remaining, value)
            == if consumed == 0 then Consume(book, movement, order[1..], mode, remaining, value)
               else Consume(posted.book, movement, order[1..], mode, remaining - consumed, value + posted.value)
  {
    hide Post;
  }

  /** Drawing on a product's layers takes the drawn total out of the product. */
  lemma {:induction false} ConsumeTakes(book: Book, movement: nat, order: seq<nat>, mode: Mode, remaining: int, value: int, product: Product)
    requires LayersOf(book, order, product)
    ensures forall k :: 0 <= k < |order| ==> order[k] < |book.layers|
    ensures var r := Consume(book, movement, order, mode, remaining, value);
            r.Ok? ==> StockOf(r.value.book, product) == StockOf(book, product) - remaining
    decreases |order|
  {
    assert forall k :: 0 <= k < |order| ==> order[k] < |book.layers|;
    if order != [] && remaining != 0 {
      LayersOfRest(book, order, product);
      hide *;
      ConsumeUnfolds(book, movement, order, mode, remaining, value);
      var consumed := Min(book.layers[order[0]].remaining, remaining);
      if consumed == 0 {
        ConsumeTakes(book, movement, order[1..], mode, remaining, value, product);
      } else {
        var posted := Post(book, movement, order[0], None, -consumed, mode);
        PostDraws(book, movement, order, -consumed, mode, product);
        StockPost(book, movement, order[0], None, -consumed, mode, product, 0);
        ConsumeTakes(posted.book, movement, order[1..], mode, remaining - consumed, value + posted.value, product);
      }
    }
  }

  lemma OrderOfProduct(book: Book, m: Movement, source: Source)
    ensures LayersOf(book, Order(book, m, source), m.product)
  {
  }

  /** Consumption from a source takes the requested total, and runs short exactly when the source
      holds too little. */
  lemma ConsumeLayersExact(book: Book, movement: nat, requested: nat, source: Source)
    requires movement < |book.movements|
    ensures var m := book.movements[movement];
            var r := ConsumeLayers(book, movement, requested, source);
            && (r.Ok? <==> requested <= EligibleStock(book, m, source))
            && (r.Ok? ==> StockOf(r.value.book, m.product) == StockOf(book, m.product) - requested)
  {
    var m := book.movements[movement];
    var order := Order(book, m, source);
    var mode := if source.Receipt? then OriginReturnMode else FifoMode;
    assert ConsumeLayers(book, movement, requested, source) == Consume(book, movement, order, mode, requested, 0);
    hide *;
    ConsumptionIsGreedy(book, movement, requested, source);
    OrderOfProduct(book, m, source);
    ConsumeTakes(book, movement, order, mode, requested, 0, m.product);
  }

  /** What a movement that takes stock out may draw on: nothing without a source. */
  function DrawableStock(book: Book, m: Movement): int {
    match ConsumptionSource(m)
    case Err(_) => 0
    case Ok(source) => EligibleStock(book, m, source)
  }

  lemma DrawableWithinStock(book: Book, m: Movement, catalogCost: int)
    requires Invariant(book)
    ensures DrawableStock(book, m) <= CurrentValuation(book, m.product, catalogCost).quantity
  {
    QuantityHeld(book, m.product, m.location, catalogCost);
    assert Core(book);
    hide Invariant, EligibleStock;
    EligibleIsStock(book, m);
    if ConsumptionSource(m).Ok? {
      EligibleWithinStock(book, m, ConsumptionSource(m).value);
    }
  }

  /** Any exit is accepted exactly when the layers it may draw on hold its quantity and the value
      left is not negative. A supplier return may draw on the layers of its receipt line only, a
      transfer discrepancy on those its transfer line brought in; every other exit on any layer of
      its product at its location. */
  lemma ExitIsExact(book: Book, m: Movement, catalogCost: int)
    requires Invariant(book) && m.quantity < 0
    ensures |book.movements| == |book.figures|
    ensures Apply(book, m, catalogCost).Ok?
            <==> -m.quantity <= DrawableStock(book, m) && ValueAfter(book, m, AverageCost(book, m, catalogCost), catalogCost) >= 0
    ensures OrdinaryExit(m) ==> DrawableStock(book, m) == Moved(book.movements, m.product, m.location)
  {
    assert |book.movements| == |book.figures| && Core(book) by { CoreLinks(book); }
    QuantityHeld(book, m.product, m.location, catalogCost);
    AverageAccepts(book, m, catalogCost);
    AverageKeepsCore(book, m, catalogCost);
    hide Invariant, Average, ValueAfter, AverageCost, EligibleStock;
    if ConsumptionSource(m).Ok? {
      EligibleIsStock(book, m);
      EligibleWithinStock(book, m, ConsumptionSource(m).value);
    }
    var r := Average(book, m, catalogCost);
    if r.Ok? {
      ExitLayers(book, r.value, m);
    }
  }

  lemma ExitLayers(book: Book, averaged: Book, m: Movement)
    requires Core(book) && m.quantity < 0
    requires averaged.layers == book.layers && averaged.allocations == book.allocations && averaged.movements == book.movements + [m]
    requires |averaged.figures| == |averaged.movements| && m.product in averaged.valuations
    requires averaged.valuations[m.product].quantity == StockOf(book, m.product) + m.quantity
    ensures ApplyFifo(averaged, |book.movements|).Ok? <==> -m.quantity <= DrawableStock(book, m)
  {
    hide *;
    var id := |book.movements|;
    NotBookedYet(book, averaged, m);
    SameStock(book, averaged, m.product);
    ExitOutcome(averaged, id);
    NoSource(book, m);
    if ConsumptionSource(m).Ok? {
      var source := ConsumptionSource(m).value;
      DrawableFrom(book, m);
      ConsumeLayersExact(averaged, id, -m.quantity, source);
      if m.kind != TransferIn {
        EligibleKept(book, averaged, m, m, source);
      } else {
        AnyKept(book, averaged, m);
      }
    }
  }

  lemma NoSource(book: Book, m: Movement)
    ensures ConsumptionSource(m).Err? ==> DrawableStock(book, m) == 0
    ensures m.kind == TransferIn ==> ConsumptionSource(m) == Ok(AnySource)
  {
  }

  lemma DrawableFrom(book: Book, m: Movement)
    requires ConsumptionSource(m).Ok?
    ensures DrawableStock(book, m) == EligibleStock(book, m, ConsumptionSource(m).value)
  {
    hide EligibleStock;
  }

  lemma AnyKept(book: Book, averaged: Book, m: Movement)
    requires averaged.layers == book.layers
    ensures EligibleStock(averaged, m, AnySource) == EligibleStock(book, m, AnySource)
  {
    SumSame(|book.layers|, Selection.Eligible(EligibleLayer(book, m, AnySource), RemainingOn(book)),
            Selection.Eligible(EligibleLayer(averaged, m, AnySource), RemainingOn(averaged)));
  }

  lemma ExitOutcome(averaged: Book, id: nat)
    requires id < |averaged.movements| == |averaged.figures| && Unbooked(averaged, id)
    requires averaged.movements[id].quantity < 0 && averaged.movements[id].product in averaged.valuations
    ensures var m := averaged.movements[id];
            if ConsumptionSource(m).Err? then ApplyFifo(averaged, id).Err?
            else
              var r := ConsumeLayers(averaged, id, -m.quantity, ConsumptionSource(m).value);
              ApplyFifo(averaged, id).Ok? <==> r.Ok? && StockOf(r.value.book, m.product) == averaged.valuations[m.product].quantity
  {
    hide ConsumeLayers, StockOf, WeightedCost, ConsumptionSource;
  }

  // ----- What arrives -----

  /** The dispatch an arrival follows: alone on its line, of the same product and quantity. */
  ghost predicate Follows(book: Book, m: Movement, dispatch: nat) {
    && dispatch < |book.movements| && m.kind == TransferIn && m.quantity > 0 && m.transferLine.Some?
    && Departed(book.movements[dispatch], m)
    && (forall k :: 0 <= k < |book.movements| && k != dispatch && book.movements[k].kind == TransferOut ==>
          book.movements[k].transferLine != m.transferLine)
  }

  predicate Departed(o: Movement, m: Movement) {
    o.kind == TransferOut && o.transferLine == m.transferLine && o.product == m.product && o.quantity == -m.quantity
  }

  function TakenBy(allocations: seq<Allocation>): nat -> int {
    (k: nat) => if k < |allocations| then -allocations[k].quantity else 0
  }

  /** The allocations an arrival finds add up to what its dispatch took. */
  lemma {:induction false} DispatchedTotal(book: Book, m: Movement, dispatch: nat, n: nat)
    requires n <= |book.allocations|
    requires forall k :: 0 <= k < n ==> (Dispatched(book, k, m) <==> book.allocations[k].movement == dispatch)
    ensures var sources := DispatchedBy(book, m, n);
            Held(sources, TakenBy(book.allocations), |sources|) == -Total(book.allocations[..n], OfMovement(dispatch))
  {
    hide Dispatched, Held, Total;
    if n > 0 {
      DispatchedTotal(book, m, dispatch, n - 1);
      var before, a := DispatchedBy(book, m, n - 1), book.allocations[n - 1];
      assert book.allocations[..n] == book.allocations[..n - 1] + [a];
      TotalAppend(book.allocations[..n - 1], a, OfMovement(dispatch));
      HeldAppend(before, n - 1, TakenBy(book.allocations));
    } else {
      NothingYet(book, dispatch);
    }
  }

  lemma NothingYet(book: Book, dispatch: nat)
    ensures Held([], TakenBy(book.allocations), 0) == 0 && Total(book.allocations[..0], OfMovement(dispatch)) == 0
  {
  }

  /** Allocations whose layers an arrival of the product may be copied from. */
  ghost predicate Movable(book: Book, sources: seq<nat>, product: Product) {
    forall k :: 0 <= k < |sources| ==>
      sources[k] < |book.allocations| &&
      var a := book.allocations[sources[k]];
      a.quantity < 0 && a.layer < |book.layers| && book.layers[a.layer].product == product && book.layers[a.layer].currency == a.currency
  }

  lemma CurrencyFits(book: Book, sources: seq<nat>, product: Product)
    requires Core(book) && Movable(book, sources, product) && sources != []
    ensures sources[0] < |book.allocations| && book.allocations[sources[0]].quantity < 0 && book.allocations[sources[0]].layer < |book.layers|
    ensures CurrencyAccepted(book, product, book.allocations[sources[0]].currency)
  {
    assert OneCurrency(book);
    hide Core;
  }

  lemma OpenAppends(book: Book, movement: nat, source: nat)
    requires movement < |book.movements| && source < |book.allocations| && book.allocations[source].layer < |book.layers|
    ensures var m, a, layer := book.movements[movement], book.allocations[source], ArrivalLayer(book, movement, source);
            var after := Open(book, movement, layer, Some(source), TransferMode).book;
            && layer.product == m.product && layer.currency == a.currency && layer.remaining == -a.quantity
            && after.movements == book.movements && |after.layers| == |book.layers| + 1
            && |after.allocations| == |book.allocations| + 1 && after.allocations[..|book.allocations|] == book.allocations
  {
    hide QuantityValue;
  }

  lemma MovableKept(book: Book, movement: nat, sources: seq<nat>, product: Product)
    requires movement < |book.movements| && Movable(book, sources, product) && sources != []
    ensures var after := Open(book, movement, ArrivalLayer(book, movement, sources[0]), Some(sources[0]), TransferMode).book;
            Movable(after, sources[1..], product)
  {
    hide QuantityValue;
  }

  /** Copying movable layers always succeeds and brings in what the allocations took. */
  lemma {:induction false} MovingSucceeds(book: Book, movement: nat, sources: seq<nat>, transferred: int, value: int)
    requires Core(book) && movement < |book.movements| && Carried(book, movement, sources)
    requires book.movements[movement].quantity > 0 && book.movements[movement].kind == TransferIn
    requires Movable(book, sources, book.movements[movement].product)
    ensures forall k :: 0 <= k < |sources| ==> sources[k] < |book.allocations|
    ensures var product := book.movements[movement].product;
            var incoming := Held(sources, TakenBy(book.allocations), |sources|);
            var r := Moving(book, movement, sources, transferred + incoming, transferred, value);
            r.Ok? && StockOf(r.value.book, product) == StockOf(book, product) + incoming
    decreases |sources|
  {
    assert forall k :: 0 <= k < |sources| ==> sources[k] < |book.allocations|;
    if sources == [] {
      HeldNone([], TakenBy(book.allocations));
    } else {
      MovingRound(book, movement, sources, transferred, value);
    }
  }

  lemma MovingRound(book: Book, movement: nat, sources: seq<nat>, transferred: int, value: int)
    requires Core(book) && movement < |book.movements| && Carried(book, movement, sources) && sources != []
    requires book.movements[movement].quantity > 0 && book.movements[movement].kind == TransferIn
    requires Movable(book, sources, book.movements[movement].product)
    requires forall k :: 0 <= k < |sources| ==> sources[k] < |book.allocations|
    ensures var product := book.movements[movement].product;
            var incoming := Held(sources, TakenBy(book.allocations), |sources|);
            var r := Moving(book, movement, sources, transferred + incoming, transferred, value);
            r.Ok? && StockOf(r.value.book, product) == StockOf(book, product) + incoming
    decreases |sources|, 0
  {
    hide *;
    CurrencyFits(book, sources, book.movements[movement].product);
    MovingUnfolds(book, movement, sources, transferred + Held(sources, TakenBy(book.allocations), |sources|), transferred, value);
    MovingNext(book, movement, sources);
    var posted := Open(book, movement, ArrivalLayer(book, movement, sources[0]), Some(sources[0]), TransferMode);
    MovingSucceeds(posted.book, movement, sources[1..], transferred - book.allocations[sources[0]].quantity, value + posted.value);
  }

  /** After one layer is copied, the rest can be. */
  lemma MovingNext(book: Book, movement: nat, sources: seq<nat>)
    requires Core(book) && movement < |book.movements| && Carried(book, movement, sources) && sources != []
    requires book.movements[movement].quantity > 0 && book.movements[movement].kind == TransferIn
    requires Movable(book, sources, book.movements[movement].product)
    requires forall k :: 0 <= k < |sources| ==> sources[k] < |book.allocations|
    requires book.allocations[sources[0]].quantity < 0 && book.allocations[sources[0]].layer < |book.layers|
    requires CurrencyAccepted(book, book.movements[movement].product, book.allocations[sources[0]].currency)
    ensures var m, a := book.movements[movement], book.allocations[sources[0]];
            var after := Open(book, movement, ArrivalLayer(book, movement, sources[0]), Some(sources[0]), TransferMode).book;
            && Core(after) && after.movements == book.movements
            && Carried(after, movement, sources[1..]) && Movable(after, sources[1..], m.product)
            && StockOf(after, m.product) == StockOf(book, m.product) - a.quantity
            && Held(sources, TakenBy(book.allocations), |sources|)
               == -a.quantity + Held(sources[1..], TakenBy(after.allocations), |sources| - 1)
  {
    hide *;
    var m, a := book.movements[movement], book.allocations[sources[0]];
    OpenAppends(book, movement, sources[0]);
    CarriedFirst(book, movement, sources);
    GrownStart(book, movement, m.location, true);
    MovingStep(book, book, movement, sources[0], 0, 0);
    var layer := ArrivalLayer(book, movement, sources[0]);
    var posted := Open(book, movement, layer, Some(sources[0]), TransferMode);
    GrownFacts(book, posted.book, movement, m.location, true, -a.quantity, posted.value);
    CarriedKept(book, posted.book, movement, sources);
    MovableKept(book, movement, sources, m.product);
    StockOpen(book, movement, layer, Some(sources[0]), TransferMode, m.product, 0);
    TakenKept(book, posted.book, sources);
  }

  lemma MovingUnfolds(book: Book, movement: nat, sources: seq<nat>, expected: int, transferred: int, value: int)
    requires movement < |book.movements| && sources != []
    requires forall k :: 0 <= k < |sources| ==> sources[k] < |book.allocations|
    requires book.allocations[sources[0]].quantity < 0 && book.allocations[sources[0]].layer < |book.layers|
    requires CurrencyAccepted(book, book.movements[movement].product, book.allocations[sources[0]].currency)
    ensures var posted := Open(book, movement, ArrivalLayer(book, movement, sources[0]), Some(sources[0]), TransferMode);
            && (forall k :: 0 <= k < |sources[1..]| ==> sources[1..][k] < |posted.book.allocations|)
            && Moving(book, movement, sources, expected, transferred, value)
               == Moving(posted.book, movement, sources[1..], expected, transferred - book.allocations[sources[0]].quantity, value + posted.value)
  {
    hide CurrencyAccepted, QuantityValue;
  }

  lemma CarriedFirst(book: Book, movement: nat, sources: seq<nat>)
    requires movement < |book.movements| && Carried(book, movement, sources) && sources != []
    ensures Carried(book, movement, [sources[0]])
  {
  }

  lemma TakenKept(book: Book, after: Book, sources: seq<nat>)
    requires sources != [] && |book.allocations| <= |after.allocations| && after.allocations[..|book.allocations|] == book.allocations
    requires forall k :: 0 <= k < |sources| ==> sources[k] < |book.allocations|
    ensures Held(sources, TakenBy(book.allocations), |sources|)
            == -book.allocations[sources[0]].quantity + Held(sources[1..], TakenBy(after.allocations), |sources| - 1)
  {
    forall j | 1 <= j < |sources| ensures after.allocations[sources[j]] == book.allocations[sources[j]] {
      assert after.allocations[..|book.allocations|][sources[j]] == book.allocations[sources[j]];
    }
    HeldShift(sources, TakenBy(book.allocations), TakenBy(after.allocations), |sources|);
  }

  /** An entry leaves the inventory value where it was or above. */
  lemma EntryValue(book: Book, m: Movement, unitCost: int, catalogCost: nat)
    requires CostsSound(book) && m.quantity > 0 && unitCost >= 0
    ensures ValueAfter(book, m, unitCost, catalogCost) >= 0
    ensures CurrentValuation(book, m.product, catalogCost).value + QuantityValue(m.quantity, unitCost) >= 0
    ensures AverageCost(book, m, catalogCost) >= 0
  {
    ValueNonNegative(m.quantity, unitCost);
    hide QuantityValue;
  }

  /** After its dispatch an arrival is always accepted: its layers are there and the value grows. */
  lemma ArrivalSucceeds(book: Book, m: Movement, dispatch: nat, catalogCost: nat)
    requires Invariant(book) && CostsSound(book) && Follows(book, m, dispatch)
    ensures |book.movements| == |book.figures|
    ensures Apply(book, m, catalogCost).Ok?
  {
    assert |book.movements| == |book.figures| && Core(book) && OnProduct(book) by { CoreLinks(book); }
    assert MovementBooked(book, dispatch);
    QuantityHeld(book, m.product, m.location, catalogCost);
    AverageAccepts(book, m, catalogCost);
    AverageKeepsCore(book, m, catalogCost);
    EntryValue(book, m, 0, catalogCost);
    EntryValue(book, m, AverageCost(book, m, catalogCost), catalogCost);
    hide Invariant, Average, ValueAfter, AverageCost, CostsSound, OnProduct;
    ArrivalLayers(book, Average(book, m, catalogCost).value, m, dispatch);
  }

  lemma OnlyDispatch(book: Book, averaged: Book, m: Movement, dispatch: nat)
    requires Core(book) && Follows(book, m, dispatch)
    requires averaged.allocations == book.allocations && averaged.movements == book.movements + [m]
    ensures forall k :: 0 <= k < |averaged.allocations| ==>
              (Dispatched(averaged, k, m) <==> averaged.allocations[k].movement == dispatch)
  {
    CoreLinks(book);
  }

  lemma SourcesMovable(book: Book, averaged: Book, m: Movement, dispatch: nat)
    requires Core(book) && OnProduct(book) && Follows(book, m, dispatch)
    requires averaged.layers == book.layers && averaged.allocations == book.allocations && averaged.movements == book.movements + [m]
    ensures var sources := DispatchedBy(averaged, m, |averaged.allocations|);
            Movable(averaged, sources, m.product) && Carried(averaged, |book.movements|, sources)
  {
    CoreLinks(book);
    assert Priced(book);
    var sources := DispatchedBy(averaged, m, |averaged.allocations|);
    DispatchedByAreDispatched(averaged, m, |averaged.allocations|);
    OnlyDispatch(book, averaged, m, dispatch);
    forall k | 0 <= k < |sources| ensures Dispatched(averaged, sources[k], m) && averaged.allocations[sources[k]].movement == dispatch {
      assert sources[k] in sources;
    }
  }

  lemma ArrivalLayers(book: Book, averaged: Book, m: Movement, dispatch: nat)
    requires Core(book) && OnProduct(book) && Core(averaged) && Follows(book, m, dispatch) && MovementBooked(book, dispatch)
    requires averaged.layers == book.layers && averaged.allocations == book.allocations && averaged.movements == book.movements + [m]
    requires |averaged.figures| == |averaged.movements| && m.product in averaged.valuations
    requires averaged.valuations[m.product].quantity == StockOf(book, m.product) + m.quantity
    ensures ApplyFifo(averaged, |book.movements|).Ok?
  {
    hide *;
    var id := |book.movements|;
    NotBookedYet(book, averaged, m);
    SourcesMovable(book, averaged, m, dispatch);
    ArrivalTotal(book, averaged, m, dispatch);
    FollowsFacts(book, m, dispatch);
    var sources := DispatchedBy(averaged, m, |averaged.allocations|);
    assert averaged.movements[id] == m;
    MovingSucceeds(averaged, id, sources, 0, 0);
    SameStock(book, averaged, m.product);
    TransferIsMoving(averaged, id, m.quantity);
    ArrivalApplies(averaged, id);
  }

  lemma NotBookedYet(book: Book, averaged: Book, m: Movement)
    requires Core(book) && averaged.allocations == book.allocations && averaged.movements == book.movements + [m]
    ensures Unbooked(averaged, |book.movements|)
  {
    CoreLinks(book);
  }

  lemma FollowsFacts(book: Book, m: Movement, dispatch: nat)
    requires Follows(book, m, dispatch)
    ensures m.kind == TransferIn && m.quantity > 0
  {
  }

  lemma SameStock(book: Book, averaged: Book, product: Product)
    requires averaged.layers == book.layers
    ensures StockOf(averaged, product) == StockOf(book, product)
  {
  }

  lemma TransferIsMoving(book: Book, movement: nat, expected: int)
    requires movement < |book.movements|
    ensures var sources := DispatchedBy(book, book.movements[movement], |book.allocations|);
            && (forall k :: 0 <= k < |sources| ==> sources[k] < |book.allocations|)
            && TransferLayers(book, movement, expected) == Moving(book, movement, sources, expected, 0, 0)
  {
  }

  lemma ArrivalApplies(averaged: Book, id: nat)
    requires id < |averaged.movements| == |averaged.figures| && Unbooked(averaged, id)
    requires averaged.movements[id].kind == TransferIn && averaged.movements[id].quantity > 0
    requires var m := averaged.movements[id];
             var r := TransferLayers(averaged, id, m.quantity);
             r.Ok? && m.product in averaged.valuations && StockOf(r.value.book, m.product) == averaged.valuations[m.product].quantity
    ensures ApplyFifo(averaged, id).Ok?
  {
    hide Moving, StockOf, DispatchedBy, WeightedCost;
  }

  lemma ArrivalTotal(book: Book, averaged: Book, m: Movement, dispatch: nat)
    requires Core(book) && Follows(book, m, dispatch) && MovementBooked(book, dispatch)
    requires averaged.allocations == book.allocations && averaged.movements == book.movements + [m]
    ensures var sources := DispatchedBy(averaged, m, |averaged.allocations|);
            Held(sources, TakenBy(averaged.allocations), |sources|) == m.quantity
  {
    OnlyDispatch(book, averaged, m, dispatch);
    hide Core, Dispatched, DispatchedBy, Held;
    DispatchedTotal(averaged, m, dispatch, |averaged.allocations|);
    assert averaged.allocations[..|averaged.allocations|] == averaged.allocations;
  }

  // ----- What comes in -----

  /** A movement that opens a layer of its own. */
  predicate OrdinaryEntry(m: Movement) {
    m.quantity > 0 && m.kind != TransferIn && !IsSaleReversal(m.kind)
  }

  /** A purchase receipt has its receipt line, where its cost and currency stand. */
  predicate HasCost(m: Movement) {
    m.kind == PurchaseReceipt ==> m.purchase.Some?
  }

  /** The currency its layer is in: the receipt's, or else the tenant's. */
  function EntryCurrency(m: Movement): Currency
    requires HasCost(m)
  {
    if m.kind == PurchaseReceipt then m.purchase.value.currency else m.currency
  }

  /** An ordinary entry is accepted exactly when its cost is known and its currency is that of the
      product's oldest layer. */
  lemma EntryIsExact(book: Book, m: Movement, catalogCost: nat)
    requires Invariant(book) && CostsSound(book) && OrdinaryEntry(m)
    ensures |book.movements| == |book.figures|
    ensures Apply(book, m, catalogCost).Ok? <==> HasCost(m) && CurrencyAccepted(book, m.product, EntryCurrency(m))
    ensures HasCost(m) && Apply(book, m, catalogCost).Err? ==> Apply(book, m, catalogCost) == Err(CurrencyMismatch)
  {
    assert |book.movements| == |book.figures| && Linked(book) by { CoreLinks(book); }
    if HasCost(m) {
      EntryAverages(book, m, catalogCost);
      var averaged := Average(book, m, catalogCost).value;
      assert Unbooked(averaged, |book.movements|);
      hide Invariant, CostsSound, Average, OrdinaryEntry, Unbooked, Linked, HasCost;
      EntryOutcome(book, averaged, m);
    } else {
      hide Invariant, CostsSound;
      CostUnknown(book, m, catalogCost);
    }
  }

  lemma CostUnknown(book: Book, m: Movement, catalogCost: nat)
    requires |book.movements| == |book.figures| && OrdinaryEntry(m) && !HasCost(m)
    ensures Apply(book, m, catalogCost).Err?
  {
    hide ApplyFifo, QuantityValue, DivideRounded;
  }

  lemma {:induction false} EntryAverages(book: Book, m: Movement, catalogCost: nat)
    requires Invariant(book) && CostsSound(book) && OrdinaryEntry(m) && HasCost(m)
    ensures |book.movements| == |book.figures|
    ensures var r := Average(book, m, catalogCost);
            && r.Ok? && r.value.layers == book.layers && r.value.allocations == book.allocations
            && r.value.movements == book.movements + [m] && |r.value.figures| == |r.value.movements|
            && m.product in r.value.valuations
            && r.value.valuations[m.product].quantity == StockOf(book, m.product) + m.quantity
  {
    assert |book.movements| == |book.figures|;
    StockMatchesValuation(book, m.product, catalogCost);
    EntryValue(book, m, 0, catalogCost);
    var average := CurrentValuation(book, m.product, catalogCost).average;
    EntryValue(book, m, average, catalogCost);
    if m.purchase.Some? {
      EntryValue(book, m, m.purchase.value.unitCost, catalogCost);
    }
    hide Invariant, CostsSound, QuantityValue, DivideRounded, StockOf;
  }

  lemma EntryOutcome(book: Book, averaged: Book, m: Movement)
    requires OrdinaryEntry(m) && HasCost(m) && Unbooked(averaged, |book.movements|)
    requires averaged.layers == book.layers && averaged.movements == book.movements + [m]
    requires |averaged.figures| == |averaged.movements| && m.product in averaged.valuations
    requires averaged.valuations[m.product].quantity == StockOf(book, m.product) + m.quantity
    ensures ApplyFifo(averaged, |book.movements|).Ok? <==> CurrencyAccepted(book, m.product, EntryCurrency(m))
    ensures ApplyFifo(averaged, |book.movements|).Err? ==> ApplyFifo(averaged, |book.movements|) == Err(CurrencyMismatch)
  {
    var id := |book.movements|;
    var layer := EntryLayer(m, id, averaged.figures[id].unitCost).value;
    StockOpen(averaged, id, layer, None, EntryMode, m.product, 0);
    SameStock(book, averaged, m.product);
    hide StockOf, Stock, QuantityValue, WeightedCost, Oldest;
    assert BookLayers(averaged, id, averaged.figures[id].unitCost) == CreateLayer(averaged, id, layer, None, EntryMode);
  }

  /** A movement that changes no quantity is always accepted and writes no layer. */
  lemma IdleIsAccepted(book: Book, m: Movement, catalogCost: nat)
    requires Invariant(book) && CostsSound(book) && m.quantity == 0
    ensures |book.movements| == |book.figures|
    ensures ValueAfter(book, m, AverageCost(book, m, catalogCost), catalogCost) >= 0
    ensures Apply(book, m, catalogCost).Ok?
    ensures var after := Apply(book, m, catalogCost).value;
            && after.layers == book.layers && after.movements == book.movements + [m]
            && after.valuations.Keys == book.valuations.Keys + {m.product}
            && (forall p :: p in book.valuations && (p != m.product || book.valuations[p].quantity != 0) ==>
                  after.valuations[p] == book.valuations[p])
            && after.valuations[m.product].average == CurrentValuation(book, m.product, catalogCost).average
  {
    assert |book.movements| == |book.figures| && Linked(book) by { CoreLinks(book); }
    StockMatchesValuation(book, m.product, catalogCost);
    ZeroValue(AverageCost(book, m, catalogCost));
    AverageAccepts(book, m, catalogCost);
    assert CurrentValuation(book, m.product, catalogCost).value >= 0;
    hide Invariant, CostsSound, QuantityValue, StockOf, DivideRounded;
    var averaged := Average(book, m, catalogCost).value;
    SameStock(book, averaged, m.product);
    assert Unbooked(averaged, |book.movements|);
  }

  lemma ZeroValue(unitCost: int)
    ensures QuantityValue(0, unitCost) == 0
  {
    assert 0 * unitCost == 0;
  }
}
