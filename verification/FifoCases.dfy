/** Runs from an empty book that end in a refusal. */
module FifoCases {
  import opened Outcomes
  import opened Sums
  import opened Rounding
  import opened Movements
  import opened Selection
  import opened Fifo
  import opened FifoInvariants
  import opened FifoSteps
  import opened FifoRuns
  import opened FifoValues
  import opened FifoTheorems
  import opened FifoReversal
  import opened FifoExactness
  import opened FifoTransit
  import opened FifoKitLines

  // ----- Books without costs -----

  /** A committed book whose products cost nothing, all in the tenant's currency 0. */
  ghost predicate Costless(book: Book) {
    && Invariant(book) && CostsSound(book)
    && (forall p :: p in book.valuations ==> book.valuations[p].average == 0 && book.valuations[p].value == 0)
    && (forall i :: 0 <= i < |book.layers| ==> book.layers[i].currency == 0)
  }

  lemma AverageStaysFree(book: Book, m: Movement)
    requires |book.movements| == |book.figures| && !IsValuedEntry(m) && Average(book, m, 0).Ok?
    requires forall p :: p in book.valuations ==> book.valuations[p].average == 0 && book.valuations[p].value == 0
    ensures forall p :: p in Average(book, m, 0).value.valuations ==>
              Average(book, m, 0).value.valuations[p].average == 0 && Average(book, m, 0).value.valuations[p].value == 0
    ensures ValueAfter(book, m, AverageCost(book, m, 0), 0) == 0
  {
    assert m.quantity * 0 == 0;
  }

  lemma FreeOfValue(book: Book, m: Movement)
    requires Costless(book)
    ensures ValueAfter(book, m, AverageCost(book, m, 0), 0) == 0
  {
    assert m.quantity * 0 == 0;
  }

  lemma {:induction false} OldestOfCurrency(book: Book, product: Product, n: nat)
    requires n <= |book.layers| && forall i :: 0 <= i < |book.layers| ==> book.layers[i].currency == 0
    ensures CurrencyAccepted(book, product, 0)
  {
  }

  /** What a committed movement leaves, without its figures. */
  lemma Shape(book: Book, m: Movement, catalogCost: int)
    requires |book.movements| == |book.figures| && Linked(book) && Apply(book, m, catalogCost).Ok?
    ensures var averaged := Average(book, m, catalogCost);
            && averaged.Ok? && averaged.value.movements == book.movements + [m] && |averaged.value.figures| == |book.movements| + 1
            && averaged.value.layers == book.layers && averaged.value.allocations == book.allocations
            && var posted := BookLayers(averaged.value, |book.movements|, averaged.value.figures[|book.movements|].unitCost);
            var after := Apply(book, m, catalogCost).value;
            && posted.Ok? && after.layers == posted.value.book.layers && after.allocations == posted.value.book.allocations
            && after.movements == book.movements + [m] && after.valuations == averaged.value.valuations
  {
    hide BookLayers, SummaryAgrees, WeightedCost, QuantityValue, DivideRounded;
    var averaged := Average(book, m, catalogCost).value;
    assert forall k :: 0 <= k < |averaged.allocations| ==> averaged.allocations[k].movement != |book.movements|;
  }

  lemma EntryOpens(averaged: Book, m: Movement, id: nat)
    requires id < |averaged.movements| == |averaged.figures| && averaged.movements[id] == m
    requires m == Plain(m.product, m.location, m.kind, m.quantity, m.at, 0) && (m.kind == Entry || m.kind == Adjustment) && m.quantity > 0
    requires averaged.figures[id].unitCost == 0 && BookLayers(averaged, id, averaged.figures[id].unitCost).Ok?
    ensures var after := BookLayers(averaged, id, averaged.figures[id].unitCost).value.book;
            && after.layers == averaged.layers + [Layer(m.product, m.location, id, None, m.quantity, m.quantity, 0, 0, m.at)]
            && |after.allocations| == |averaged.allocations| + 1 && after.allocations[..|averaged.allocations|] == averaged.allocations
            && after.allocations[|averaged.allocations|].movement == id
            && after.allocations[|averaged.allocations|].layer == |averaged.layers|
            && after.allocations[|averaged.allocations|].quantity == m.quantity
  {
    hide CurrencyAccepted, QuantityValue;
  }

  lemma FreeCost(book: Book, m: Movement)
    requires |book.movements| == |book.figures| && !IsValuedEntry(m) && Average(book, m, 0).Ok?
    requires forall p :: p in book.valuations ==> book.valuations[p].average == 0 && book.valuations[p].value == 0
    ensures |Average(book, m, 0).value.figures| == |book.figures| + 1
    ensures Average(book, m, 0).value.figures[|book.figures|].unitCost == 0
  {
    hide QuantityValue, DivideRounded;
  }

  lemma MadeCostless(book: Book, layer: Layer)
    requires Invariant(book) && CostsSound(book) && layer.currency == 0 && book.layers != [] && book.layers[|book.layers| - 1] == layer
    requires forall p :: p in book.valuations ==> book.valuations[p].average == 0 && book.valuations[p].value == 0
    requires forall i :: 0 <= i < |book.layers| - 1 ==> book.layers[i].currency == 0
    ensures Costless(book)
  {
  }

  lemma PlainEntry(product: Product, location: Location, kind: Kind, quantity: nat, at: nat)
    requires quantity > 0 && (kind == Entry || kind == Adjustment)
    ensures var m := Plain(product, location, kind, quantity, at, 0);
            && OrdinaryEntry(m) && HasCost(m) && EntryCurrency(m) == 0 && !IsValuedEntry(m)
            && m.product == product && m.location == location && m.quantity == quantity && m.at == at && m.kind == kind
            && m == Plain(m.product, m.location, m.kind, m.quantity, m.at, 0)
  {
  }

  /** Stock brought in opens one layer. */
  lemma StockIn(book: Book, product: Product, location: Location, kind: Kind, quantity: nat, at: nat) returns (after: Book)
    requires Costless(book) && quantity > 0 && (kind == Entry || kind == Adjustment)
    ensures |book.movements| == |book.figures| && Apply(book, Plain(product, location, kind, quantity, at, 0), 0) == Ok(after)
    ensures Costless(after) && after.movements == book.movements + [Plain(product, location, kind, quantity, at, 0)]
    ensures after.layers == book.layers + [Layer(product, location, |book.movements|, None, quantity, quantity, 0, 0, at)]
    ensures |after.allocations| == |book.allocations| + 1 && after.allocations[..|book.allocations|] == book.allocations
    ensures after.allocations[|book.allocations|].movement == |book.movements|
            && after.allocations[|book.allocations|].layer == |book.layers| && after.allocations[|book.allocations|].quantity == quantity
  {
    hide *;
    var m := Plain(product, location, kind, quantity, at, 0);
    PlainEntry(product, location, kind, quantity, at);
    CostlessParts(book);
    OldestOfCurrency(book, product, 0);
    EntryIsExact(book, m, 0);
    after := Apply(book, m, 0).value;
    ApplyKeepsInvariant(book, m, 0);
    ApplyKeepsCosts(book, m, 0);
    Shape(book, m, 0);
    AverageStaysFree(book, m);
    FreeCost(book, m);
    var averaged := Average(book, m, 0).value;
    assert averaged.movements[|book.movements|] == m;
    EntryOpens(averaged, m, |book.movements|);
    MadeCostless(after, Layer(product, location, |book.movements|, None, quantity, quantity, 0, 0, at));
  }

  lemma ExitBooks(averaged: Book, id: nat)
    requires id < |averaged.movements| && OrdinaryExit(averaged.movements[id])
    ensures averaged.movements[id].quantity < 0
    ensures BookLayers(averaged, id, 0) == ConsumeLayers(averaged, id, -averaged.movements[id].quantity, AnySource)
  {
    hide ConsumeLayers;
  }

  lemma OutLayers(averaged: Book, id: nat)
    requires Core(averaged) && id < |averaged.movements| && Unbooked(averaged, id) && OrdinaryExit(averaged.movements[id])
    requires BookLayers(averaged, id, 0).Ok?
    ensures var after := BookLayers(averaged, id, 0).value.book;
            && SameLayers(averaged, after) && |after.layers| == |averaged.layers|
            && |averaged.allocations| <= |after.allocations| && after.allocations[..|averaged.allocations|] == averaged.allocations
  {
    hide *;
    var m := averaged.movements[id];
    ExitBooks(averaged, id);
    ConsumeLayersGrows(averaged, id, AnySource);
    var r := ConsumeLayers(averaged, id, -m.quantity, AnySource).value;
    GrownShape(averaged, r.book, id, m.location, false, m.quantity, r.value);
    ConsumptionIsGreedy(averaged, id, -m.quantity, AnySource);
    DrawnLength(averaged, r.book, Order(averaged, m, AnySource), -m.quantity);
  }

  lemma CostlessParts(book: Book)
    requires Costless(book)
    ensures |book.movements| == |book.figures| && Invariant(book) && CostsSound(book) && Core(book) && Linked(book)
    ensures forall p :: p in book.valuations ==> book.valuations[p].average == 0 && book.valuations[p].value == 0
    ensures forall i :: 0 <= i < |book.layers| ==> book.layers[i].currency == 0
  {
    CoreLinks(book);
  }

  lemma StaysCostless(book: Book, after: Book)
    requires Costless(book) && Invariant(after) && CostsSound(after) && SameLayers(book, after) && |after.layers| == |book.layers|
    requires forall p :: p in after.valuations ==> after.valuations[p].average == 0 && after.valuations[p].value == 0
    ensures Costless(after)
  {
    hide Invariant, CostsSound;
    forall i | 0 <= i < |after.layers| ensures after.layers[i].currency == 0 {
      assert after.layers[i].(remaining := book.layers[i].remaining) == book.layers[i];
    }
  }

  /** Stock taken out of a place that holds it is taken. */
  lemma StockOut(book: Book, m: Movement) returns (after: Book)
    requires Costless(book) && OrdinaryExit(m) && -m.quantity <= Moved(book.movements, m.product, m.location)
    ensures |book.movements| == |book.figures| && Apply(book, m, 0) == Ok(after)
    ensures Costless(after) && after.movements == book.movements + [m]
    ensures SameLayers(book, after) && |after.layers| == |book.layers|
    ensures |book.allocations| <= |after.allocations| && after.allocations[..|book.allocations|] == book.allocations
  {
    CostlessParts(book);
    FreeOfValue(book, m);
    assert m.quantity < 0 && !IsValuedEntry(m);
    hide *;
    ExitIsExact(book, m, 0);
    after := Apply(book, m, 0).value;
    ApplyKeepsInvariant(book, m, 0);
    ApplyKeepsCosts(book, m, 0);
    Shape(book, m, 0);
    AverageStaysFree(book, m);
    AverageKeepsCore(book, m, 0);
    var averaged, id := Average(book, m, 0).value, |book.movements|;
    NotBookedYet(book, averaged, m);
    assert averaged.movements[id] == m;
    OutCost(averaged, id);
    OutLayers(averaged, id);
    SameLayersOf(book, averaged, after, BookLayers(averaged, id, 0).value.book);
    StaysCostless(book, after);
  }

  lemma OutCost(averaged: Book, id: nat)
    requires id < |averaged.movements| == |averaged.figures| && OrdinaryExit(averaged.movements[id])
    ensures BookLayers(averaged, id, averaged.figures[id].unitCost) == BookLayers(averaged, id, 0)
  {
  }

  lemma SameLayersOf(book: Book, averaged: Book, after: Book, posted: Book)
    requires averaged.layers == book.layers && after.layers == posted.layers && SameLayers(averaged, posted)
    ensures SameLayers(book, after)
  {
  }

  lemma EmptyIsCostless()
    ensures Costless(EmptyBook)
  {
    EmptyBookInvariant();
  }

  // ----- A kit line voided in another order than it was sold -----

  const KitLine := Some(SaleLine(0, 0))
  const StockOfFirst := Plain(0, 0, Entry, 1000, 0, 0)
  const StockOfSecond := Plain(1, 0, Entry, 1000, 0, 0)
  const SellSecond := Plain(1, 0, Sale, -1000, 0, 0).(saleLine := KitLine)
  const SellFirst := Plain(0, 0, Sale, -1000, 0, 0).(saleLine := KitLine)
  const VoidFirst := Plain(0, 0, SaleVoid, 1000, 0, 0).(saleLine := KitLine)

  lemma MovedHere(movements: seq<Movement>, m: Movement, product: Product, location: Location)
    ensures Moved(movements + [m], product, location) == Moved(movements, product, location) + ChangeAt(product, location)(m)
    ensures Moved([], product, location) == 0
  {
    TotalAppend(movements, m, ChangeAt(product, location));
  }

  /** A line sold product 1 and then product 0; the void goes by product, 0 first, and is refused: what
      it would restore first is the layer of product 1. */
  lemma KitVoidIsRefused() returns (sold: Book)
    ensures sold.movements == [StockOfFirst, StockOfSecond, SellSecond, SellFirst] && Invariant(sold) && |sold.figures| == 4
    ensures StillSold(sold, VoidFirst) == 2000 && Apply(sold, VoidFirst, 0).Err?
  {
    hide *;
    sold := KitLineSold();
    CostlessParts(sold);
    KitVoidBlocked(sold);
    KitLineOut(sold);
  }

  lemma KitLineSold() returns (sold: Book)
    ensures sold.movements == [StockOfFirst, StockOfSecond, SellSecond, SellFirst] && Costless(sold)
  {
    hide *;
    EmptyIsCostless();
    var one := StockIn(EmptyBook, 0, 0, Entry, 1000, 0);
    var two := StockIn(one, 1, 0, Entry, 1000, 0);
    KitStock(two.movements);
    var three := StockOut(two, SellSecond);
    sold := StockOut(three, SellFirst);
  }

  lemma KitStock(movements: seq<Movement>)
    requires movements == EmptyBook.movements + [Plain(0, 0, Entry, 1000, 0, 0)] + [Plain(1, 0, Entry, 1000, 0, 0)]
    ensures movements + [SellSecond] + [SellFirst] == [StockOfFirst, StockOfSecond, SellSecond, SellFirst]
    ensures OrdinaryExit(SellSecond) && -SellSecond.quantity <= Moved(movements, SellSecond.product, SellSecond.location)
    ensures OrdinaryExit(SellFirst) && -SellFirst.quantity <= Moved(movements + [SellSecond], SellFirst.product, SellFirst.location)
  {
    hide Moved;
    assert EmptyBook.movements == [];
    MovedTwice([], StockOfFirst, StockOfSecond, 1, 0);
    MovedTwice([], StockOfFirst, StockOfSecond, 0, 0);
    MovedHere(movements, SellSecond, 0, 0);
  }

  lemma MovedTwice(movements: seq<Movement>, m: Movement, n: Movement, product: Product, location: Location)
    ensures Moved(movements + [m] + [n], product, location)
            == Moved(movements, product, location) + ChangeAt(product, location)(m) + ChangeAt(product, location)(n)
    ensures Moved([], product, location) == 0
  {
    MovedHere(movements, m, product, location);
    MovedHere(movements + [m], n, product, location);
  }

  lemma KitVoidBlocked(sold: Book)
    requires sold.movements == [StockOfFirst, StockOfSecond, SellSecond, SellFirst]
    requires Invariant(sold) && CostsSound(sold)
    ensures |sold.figures| == 4 && Apply(sold, VoidFirst, 0).Err?
  {
    var k := UnreversedIsOut(sold, 2);
    hide Invariant, CostsSound, Outstanding, Apply;
    EarlierComponentBlocks(sold, VoidFirst, k, 0);
  }

  lemma KitLineOut(sold: Book)
    requires Invariant(sold) && sold.movements == [StockOfFirst, StockOfSecond, SellSecond, SellFirst]
    ensures StillSold(sold, VoidFirst) == 2000
  {
    StillSoldIsBalance(sold, VoidFirst, SaleLine(0, 0));
    hide Invariant, StillSold;
    var change := LineChange(SaleLine(0, 0), 0);
    assert sold.movements == [] + [StockOfFirst] + [StockOfSecond] + [SellSecond] + [SellFirst];
    TotalAppend([], StockOfFirst, change);
    TotalAppend([] + [StockOfFirst], StockOfSecond, change);
    TotalAppend([] + [StockOfFirst] + [StockOfSecond], SellSecond, change);
    TotalAppend([] + [StockOfFirst] + [StockOfSecond] + [SellSecond], SellFirst, change);
  }

  // ----- A discrepancy on stock that has already left -----

  /** One round of an arrival that opens a layer. */
  lemma MovingOpensOne(book: Book, movement: nat, sources: seq<nat>, expected: int, transferred: int, value: int)
    requires movement < |book.movements| && sources != [] && forall k :: 0 <= k < |sources| ==> sources[k] < |book.allocations|
    requires book.allocations[sources[0]].quantity < 0 && book.allocations[sources[0]].layer < |book.layers|
    ensures var a := book.allocations[sources[0]];
            var layer := ArrivalLayer(book, movement, sources[0]);
            var posted := Open(book, movement, layer, Some(sources[0]), TransferMode);
            var r := Moving(book, movement, sources, expected, transferred, value);
            && layer.sourceMovement == movement && layer.product == book.movements[movement].product
            && layer.acquiredAt == book.layers[a.layer].acquiredAt
            && posted.book.movements == book.movements && posted.book.layers == book.layers + [layer]
            && (forall k :: 0 <= k < |sources[1..]| ==> sources[1..][k] < |posted.book.allocations|)
            && (r.Ok? ==> r == Moving(posted.book, movement, sources[1..], expected, transferred - a.quantity, value + posted.value))
  {
    hide QuantityValue, CurrencyAccepted, SameMovements;
  }

  lemma LayersFollow(layers: seq<Layer>, layer: Layer, after: seq<Layer>, product: Product, movement: nat, at: nat)
    requires Copied(layer, product, movement, at) && |layers| + 1 <= |after| && after[..|layers| + 1] == layers + [layer]
    requires forall i :: |layers| + 1 <= i < |after| ==> Copied(after[i], product, movement, at)
    ensures after[..|layers|] == layers && forall i :: |layers| <= i < |after| ==> Copied(after[i], product, movement, at)
  {
    assert after[..|layers|] == after[..|layers| + 1][..|layers|];
    assert after[|layers|] == after[..|layers| + 1][|layers|];
  }

  /** The layers an arrival opens are its own and no younger than those they are copied from. */
  lemma {:induction false} MovingOpens(book: Book, movement: nat, sources: seq<nat>, expected: int, transferred: int, value: int, at: nat)
    requires movement < |book.movements| && forall k :: 0 <= k < |sources| ==> sources[k] < |book.allocations|
    requires forall i :: 0 <= i < |book.layers| ==> book.layers[i].acquiredAt <= at
    ensures var r := Moving(book, movement, sources, expected, transferred, value);
            r.Ok? ==> && |book.layers| <= |r.value.book.layers| && r.value.book.layers[..|book.layers|] == book.layers
                      && forall i :: |book.layers| <= i < |r.value.book.layers| ==>
                           Copied(r.value.book.layers[i], book.movements[movement].product, movement, at)
    decreases |sources|
  {
    hide CreateLayer, SameMovements;
    if sources != [] {
      var a := book.allocations[sources[0]];
      if -a.quantity <= 0 {
        MovingOpens(book, movement, sources[1..], expected, transferred, value, at);
      } else if a.layer < |book.layers| {
        MovingOpensOne(book, movement, sources, expected, transferred, value);
        hide Moving, Open, ArrivalLayer;
        var layer := ArrivalLayer(book, movement, sources[0]);
        var posted := Open(book, movement, layer, Some(sources[0]), TransferMode);
        MovingOpens(posted.book, movement, sources[1..], expected, transferred - a.quantity, value + posted.value, at);
        var r := Moving(posted.book, movement, sources[1..], expected, transferred - a.quantity, value + posted.value);
        if r.Ok? {
          LayersFollow(book.layers, layer, r.value.book.layers, book.movements[movement].product, movement, at);
        }
      }
    }
  }

  predicate Copied(layer: Layer, product: Product, movement: nat, at: nat) {
    layer.product == product && layer.sourceMovement == movement && layer.acquiredAt <= at
  }

  const Shipment := TransferLine(0, 0)
  const OldStock := Plain(0, 0, Entry, 1000, 0, 0)
  const Leaves := Plain(0, 0, TransferOut, -1000, 0, 0).(transferLine := Some(Shipment))
  const Arrives := Plain(0, 1, TransferIn, 1000, 0, 0).(transferLine := Some(Shipment))
  const NewStock := Plain(0, 1, Entry, 1000, 1, 0)
  const Taken := Plain(0, 1, Exit, -1000, 1, 0)
  const Missing := Plain(0, 1, TransferDiscrepancy, -1000, 1, 0).(transferLine := Some(Shipment))

  /** The layers once the shipment is under way: the old one at the origin, the rest copied by the arrival. */
  ghost predicate UnderWay(book: Book) {
    && |book.layers| >= 1 && book.layers[0].location == 0 && book.layers[0].product == 0
    && forall i :: 1 <= i < |book.layers| ==> Copied(book.layers[i], 0, 2, 0)
  }

  lemma ArrivalOpens(book: Book, averaged: Book, m: Movement, at: nat)
    requires averaged.layers == book.layers && averaged.movements == book.movements + [m] && m.kind == TransferIn && m.quantity > 0
    requires forall i :: 0 <= i < |book.layers| ==> book.layers[i].acquiredAt <= at
    requires BookLayers(averaged, |book.movements|, 0).Ok?
    ensures var after := BookLayers(averaged, |book.movements|, 0).value.book;
            && |book.layers| <= |after.layers| && after.layers[..|book.layers|] == book.layers
            && forall i :: |book.layers| <= i < |after.layers| ==> Copied(after.layers[i], m.product, |book.movements|, at)
  {
    var id := |book.movements|;
    assert BookLayers(averaged, id, 0) == TransferLayers(averaged, id, m.quantity);
    TransferIsMoving(averaged, id, m.quantity);
    hide BookLayers, TransferLayers, Moving, Copied;
    MovingOpens(averaged, id, DispatchedBy(averaged, m, |averaged.allocations|), m.quantity, 0, 0, at);
  }

  lemma ArrivalCost(averaged: Book, id: nat)
    requires id < |averaged.movements| == |averaged.figures| && averaged.movements[id].kind == TransferIn
    ensures BookLayers(averaged, id, averaged.figures[id].unitCost) == BookLayers(averaged, id, 0)
  {
  }

  lemma ShipmentFollows(book: Book)
    requires book.movements == [OldStock, Leaves]
    ensures Follows(book, Arrives, 1) && [OldStock, Leaves] + [Arrives] == [OldStock, Leaves, Arrives]
    ensures !IsValuedEntry(Arrives) && Arrives.kind == TransferIn && Arrives.quantity > 0 && Arrives.product == 0
  {
  }

  lemma ShipmentArrives(book: Book) returns (after: Book)
    requires Costless(book) && book.movements == [OldStock, Leaves]
    requires |book.layers| == 1 && book.layers[0].product == 0 && book.layers[0].location == 0 && book.layers[0].acquiredAt == 0
    ensures |book.movements| == |book.figures| && Apply(book, Arrives, 0) == Ok(after)
    ensures Costless(after) && after.movements == [OldStock, Leaves, Arrives] && UnderWay(after)
  {
    hide *;
    CostlessParts(book);
    ShipmentFollows(book);
    ArrivalSucceeds(book, Arrives, 1, 0);
    after := Apply(book, Arrives, 0).value;
    ApplyKeepsInvariant(book, Arrives, 0);
    ApplyKeepsCosts(book, Arrives, 0);
    Shape(book, Arrives, 0);
    AverageStaysFree(book, Arrives);
    var averaged := Average(book, Arrives, 0).value;
    assert averaged.movements[2] == Arrives;
    ArrivalCost(averaged, 2);
    ArrivalOpens(book, averaged, Arrives, 0);
    ArrivedCostless(book, after);
  }

  lemma ArrivedCostless(book: Book, after: Book)
    requires Costless(book) && Invariant(after) && CostsSound(after)
    requires |book.layers| == 1 && book.layers[0].product == 0 && book.layers[0].location == 0
    requires |after.layers| >= 1 && after.layers[..1] == book.layers && forall i :: 1 <= i < |after.layers| ==> Copied(after.layers[i], 0, 2, 0)
    requires after.movements == [OldStock, Leaves, Arrives]
    requires forall p :: p in after.valuations ==> after.valuations[p].average == 0 && after.valuations[p].value == 0
    ensures Costless(after) && UnderWay(after)
  {
    assert after.layers[0] == after.layers[..1][0] == book.layers[0];
    assert OneCurrency(after);
    hide Invariant, CostsSound;
    assert forall i :: 0 <= i < |after.layers| ==> after.layers[i].product == 0;
  }

  /** The new stock is younger than everything the shipment brought. */
  lemma ShipmentIsOldest(book: Book)
    requires |book.layers| >= 2 && book.movements == [OldStock, Leaves, Arrives, NewStock]
    requires UnderWay(book.(layers := book.layers[..|book.layers| - 1]))
    requires book.layers[|book.layers| - 1] == Layer(0, 1, 3, None, 1000, 1000, 0, 0, 1)
    ensures LineIsOldest(book, Taken, Shipment)
  {
    var n := |book.layers| - 1;
    var older := book.layers[..n];
    assert forall k :: 0 <= k < n ==> older[k] == book.layers[k];
    forall i: nat, j: nat | i < |book.layers| && j < |book.layers|
      && Fifo.Eligible(book, i, Taken, Transfer(Shipment)) && Fifo.Eligible(book, j, Taken, AnySource) && !FromLine(book, Shipment)(j)
      ensures book.layers[i].acquiredAt < book.layers[j].acquiredAt
    {
      assert i < n && j == n;
    }
  }

  lemma ShipmentLayer(before: Book, book: Book, i: nat)
    requires i < |before.layers| && UnderWay(before) && book.movements == [OldStock, Leaves, Arrives, NewStock]
    requires |before.layers| <= |book.layers| && book.layers[i] == before.layers[i] && before.layers[i].remaining >= 0
    ensures Selection.Eligible(EligibleLayer(book, Taken, Transfer(Shipment)), RemainingOn(book))(i) == RemainingAt(0, 1)(before.layers[i])
  {
    if i > 0 {
      assert Copied(before.layers[i], 0, 2, 0);
      assert book.movements[2] == Arrives;
    }
  }

  /** The shipment's layers hold what stood at the destination before the new stock. */
  lemma ShipmentHolds(before: Book, book: Book)
    requires Core(before) && before.movements == [OldStock, Leaves, Arrives] && book.movements == [OldStock, Leaves, Arrives, NewStock]
    requires UnderWay(before) && book.layers == before.layers + [Layer(0, 1, 3, None, 1000, 1000, 0, 0, 1)]
    ensures LineStock(book, Taken, Shipment) == Stock(before, 0, 1)
  {
    var n := |before.layers|;
    var f := Selection.Eligible(EligibleLayer(book, Taken, Transfer(Shipment)), RemainingOn(book));
    var here := RemainingAt(0, 1);
    var g := (i: nat) => if i < n then here(before.layers[i]) else 0;
    assert f(n) == 0;
    CoreBacked(before);
    assert forall i :: 0 <= i < n ==> before.layers[i].remaining >= 0;
    hide Core, Backed, UnderWay, FromSource, Fifo.Eligible;
    forall i: nat | i < n ensures f(i) == g(i) {
      assert book.layers[i] == before.layers[i];
      ShipmentLayer(before, book, i);
    }
    SumSame(n, f, g);
    SumIsTotal(before.layers, RemainingAt(0, 1), g);
  }

  lemma ShipmentStock()
    ensures Moved([] + [OldStock], 0, 0) == 1000
    ensures Moved([OldStock, Leaves, Arrives], 0, 1) == 1000
    ensures Moved([OldStock, Leaves, Arrives, NewStock], 0, 1) == 2000
  {
    hide Moved;
    assert [OldStock, Leaves, Arrives] == [] + [OldStock] + [Leaves] + [Arrives];
    assert [OldStock, Leaves, Arrives, NewStock] == [] + [OldStock] + [Leaves] + [Arrives] + [NewStock];
    MovedHere([], OldStock, 0, 0);
    MovedTwice([], OldStock, Leaves, 0, 1);
    MovedTwice([] + [OldStock] + [Leaves], Arrives, NewStock, 0, 1);
    MovedHere([] + [OldStock] + [Leaves], Arrives, 0, 1);
  }

  /** One accepted movement leads from a book to the next. */
  ghost predicate Leads(book: Book, m: Movement, after: Book) {
    |book.movements| == |book.figures| && Apply(book, m, 0) == Ok(after)
  }

  /** The shipment under way, the new stock in, and the exit still to come. */
  lemma ShipmentUnderWay() returns (one: Book, two: Book, three: Book, four: Book)
    ensures Leads(EmptyBook, OldStock, one) && Leads(one, Leaves, two) && Leads(two, Arrives, three) && Leads(three, NewStock, four)
    ensures Costless(three) && Costless(four)
    ensures UnderWay(three) && three.movements == [OldStock, Leaves, Arrives] && four.movements == [OldStock, Leaves, Arrives, NewStock]
    ensures four.layers == three.layers + [Layer(0, 1, |three.movements|, None, 1000, 1000, 0, 0, 1)]
  {
    hide Costless, Apply, Moved, UnderWay, OrdinaryExit, SameLayers;
    EmptyIsCostless();
    ShipmentStock();
    PlanOfShipment();
    one := StockIn(EmptyBook, 0, 0, Entry, 1000, 0);
    two := StockOut(one, Leaves);
    FirstLayer(one, two);
    three := ShipmentArrives(two);
    four := StockIn(three, 0, 1, Entry, 1000, 1);
  }

  lemma ExitLeaves(three: Book, four: Book)
    requires Costless(three) && Costless(four)
    requires UnderWay(three) && three.movements == [OldStock, Leaves, Arrives] && four.movements == [OldStock, Leaves, Arrives, NewStock]
    requires four.layers == three.layers + [Layer(0, 1, |three.movements|, None, 1000, 1000, 0, 0, 1)]
    ensures LineIsOldest(four, Taken, Shipment) && LineStock(four, Taken, Shipment) == 1000
  {
    hide *;
    ShipmentStock();
    CostlessParts(three);
    NewStockLayers(three, four);
    ShipmentIsOldest(four);
    ShipmentHolds(three, four);
    QuantityHeld(three, 0, 1, 0);
  }

  lemma LayersShort(averaged: Book, id: nat)
    requires id < |averaged.movements| == |averaged.figures| && ApplyFifo(averaged, id).Err?
    requires var m := averaged.movements[id]; m.kind == TransferDiscrepancy && m.transferLine.Some? && m.quantity < 0
    ensures ApplyFifo(averaged, id) == Err(LayerShortage)
  {
    var m := averaged.movements[id];
    ConsumptionIsGreedy(averaged, id, -m.quantity, Transfer(m.transferLine.value));
    hide ConsumeLayers, SummaryAgrees, WeightedCost, Order, InOrder, Stocked, DrawnFrom, DrainedBefore;
  }

  /** Where the stock is there and costs nothing, only the layers can refuse a write-off. */
  lemma RefusedByLayers(book: Book, m: Movement)
    requires Costless(book) && m.kind == TransferDiscrepancy && m.transferLine.Some? && m.quantity < 0
    requires -m.quantity <= Moved(book.movements, m.product, m.location)
    requires |book.movements| == |book.figures| && Apply(book, m, 0).Err?
    ensures Apply(book, m, 0) == Err(LayerShortage)
  {
    CostlessParts(book);
    FreeOfValue(book, m);
    QuantityHeld(book, m.product, m.location, 0);
    AverageAccepts(book, m, 0);
    hide Costless, Invariant, CostsSound, Core, Linked, Average, ApplyFifo, ValueAfter, AverageCost, Moved;
    var averaged := Average(book, m, 0).value;
    assert averaged.movements[|book.movements|] == m;
    if ApplyFifo(averaged, |book.movements|).Err? {
      LayersShort(averaged, |book.movements|);
    }
  }

  /** A shipment of old stock is under way to a place that gets new stock of its own and then gives
      stock out: what goes is the shipment's. Reporting it missing is accepted before that and refused after. */
  lemma ShipmentIsDrained() returns (one: Book, two: Book, three: Book, four: Book, five: Book)
    ensures Leads(EmptyBook, OldStock, one) && Leads(one, Leaves, two) && Leads(two, Arrives, three) && Leads(three, NewStock, four)
    ensures |four.movements| == |four.figures| && Apply(four, Missing, 0).Ok?
    ensures Leads(four, Taken, five) && |five.movements| == |five.figures|
    ensures Moved(five.movements, 0, 1) == 1000 && Apply(five, Missing, 0) == Err(LayerShortage)
  {
    hide Costless, Apply, Moved, UnderWay, OrdinaryExit, SameLayers, LineStock, LineIsOldest, Invariant, CostsSound, Core, Linked;
    one, two, three, four := ShipmentUnderWay();
    ShipmentStock();
    PlanOfShipment();
    five := StockOut(four, Taken);
    CostlessParts(four);
    CostlessParts(five);
    ExitLeaves(three, four);
    MovedHere(four.movements, Taken, 0, 1);
    SamePlaceSameStock(four, Taken, Missing, Shipment);
    FreeOfValue(four, Missing);
    ExitIsExact(four, Missing, 0);
    WriteOffAfterExit(four, Taken, Missing, Shipment, 0, 0);
    NothingLeft(LineStock(four, Taken, Shipment));
    RefusedByLayers(five, Missing);
  }

  lemma PlanOfShipment()
    ensures EmptyBook.movements + [Plain(0, 0, Entry, 1000, 0, 0)] == [] + [OldStock]
    ensures [] + [OldStock] + [Leaves] == [OldStock, Leaves]
    ensures [OldStock, Leaves, Arrives] + [Plain(0, 1, Entry, 1000, 1, 0)] == [OldStock, Leaves, Arrives, NewStock]
    ensures [OldStock, Leaves, Arrives, NewStock] + [Taken] == [OldStock, Leaves, Arrives, NewStock, Taken]
    ensures EmptyBook.layers == []
    ensures OrdinaryExit(Leaves) && Leaves.product == 0 && Leaves.location == 0 && Leaves.quantity == -1000
    ensures OrdinaryExit(Taken) && Taken.kind != TransferIn && Taken.product == 0 && Taken.location == 1 && Taken.quantity == -1000
    ensures Missing.kind == TransferDiscrepancy && Missing.transferLine == Some(Shipment) && Missing.quantity == -1000
    ensures Missing.product == Taken.product && Missing.location == Taken.location
    ensures ChangeAt(0, 1)(Taken) == -1000
  {
  }

  lemma FirstLayer(one: Book, two: Book)
    requires one.layers == [] + [Layer(0, 0, |EmptyBook.movements|, None, 1000, 1000, 0, 0, 0)]
    requires SameLayers(one, two) && |two.layers| == |one.layers|
    ensures |two.layers| == 1 && two.layers[0].product == 0 && two.layers[0].location == 0 && two.layers[0].acquiredAt == 0
  {
    assert two.layers[0].(remaining := one.layers[0].remaining) == one.layers[0];
  }

  lemma NewStockLayers(three: Book, four: Book)
    requires UnderWay(three) && three.movements == [OldStock, Leaves, Arrives]
    requires four.layers == three.layers + [Layer(0, 1, |three.movements|, None, 1000, 1000, 0, 0, 1)]
    ensures |four.layers| >= 2 && UnderWay(four.(layers := four.layers[..|four.layers| - 1]))
    ensures four.layers[|four.layers| - 1] == Layer(0, 1, 3, None, 1000, 1000, 0, 0, 1)
    ensures four.layers == three.layers + [Layer(0, 1, 3, None, 1000, 1000, 0, 0, 1)]
  {
    assert four.layers[..|four.layers| - 1] == three.layers;
  }

  lemma NothingLeft(held: int)
    ensures held == 1000 ==> AtLeastZero(held - 1000) == 0
  {
  }

  // ----- A value that rounds below zero -----

  const Crumb := Plain(0, 0, Entry, 4, 0, 0)
  const Crumbs := Plain(0, 0, Exit, -5, 0, 0)

  lemma CrumbValues()
    ensures QuantityValue(4, 100) == 0 && QuantityValue(-5, 100) == -1
  {
  }

  lemma CrumbAveraged(book: Book)
    requires |book.movements| == |book.figures| && Average(book, Crumb, 100).Ok?
    requires var v := CurrentValuation(book, 0, 100); v.value == 0 && v.average == 100 && v.quantity >= 0
    ensures var v := CurrentValuation(Average(book, Crumb, 100).value, 0, 100);
            v.quantity == CurrentValuation(book, 0, 100).quantity + 4 && v.value == 0 && v.average == 100
  {
    CrumbValues();
    hide QuantityValue, DivideRounded;
  }

  lemma SameRow(book: Book, after: Book)
    requires after.valuations == book.valuations
    ensures CurrentValuation(after, 0, 100) == CurrentValuation(book, 0, 100)
  {
  }

  lemma CrumbBooked(book: Book) returns (after: Book)
    requires Invariant(book) && CostsSound(book) && forall i :: 0 <= i < |book.layers| ==> book.layers[i].currency == 0
    requires var v := CurrentValuation(book, 0, 100); v.value == 0 && v.average == 100
    ensures |book.movements| == |book.figures| && Apply(book, Crumb, 100) == Ok(after)
    ensures Invariant(after) && CostsSound(after) && forall i :: 0 <= i < |after.layers| ==> after.layers[i].currency == 0
    ensures after.movements == book.movements + [Crumb]
    ensures var v := CurrentValuation(after, 0, 100);
            v.quantity == CurrentValuation(book, 0, 100).quantity + 4 && v.value == 0 && v.average == 100
  {
    assert OrdinaryEntry(Crumb) && HasCost(Crumb) && EntryCurrency(Crumb) == 0 && Crumb.product == 0;
    hide *;
    OldestOfCurrency(book, 0, 0);
    EntryIsExact(book, Crumb, 100);
    after := Apply(book, Crumb, 100).value;
    ApplyKeepsInvariant(book, Crumb, 100);
    ApplyKeepsCosts(book, Crumb, 100);
    InvariantLinks(book);
    QuantityHeld(book, 0, 0, 100);
    Shape(book, Crumb, 100);
    CrumbAveraged(book);
    var averaged := Average(book, Crumb, 100).value;
    assert averaged.movements[|book.movements|] == Crumb;
    EntryLayers(averaged, |book.movements|);
    SameRow(averaged, after);
  }

  lemma InvariantLinks(book: Book)
    requires Invariant(book)
    ensures Linked(book) && |book.movements| == |book.figures|
  {
    CoreLinks(book);
  }

  lemma EntryLayers(averaged: Book, id: nat)
    requires id < |averaged.movements| == |averaged.figures| && averaged.movements[id] == Crumb
    requires forall i :: 0 <= i < |averaged.layers| ==> averaged.layers[i].currency == 0
    requires BookLayers(averaged, id, averaged.figures[id].unitCost).Ok?
    ensures var after := BookLayers(averaged, id, averaged.figures[id].unitCost).value.book;
            forall i :: 0 <= i < |after.layers| ==> after.layers[i].currency == 0
  {
    hide QuantityValue, CurrencyAccepted;
  }

  lemma CrumbLog()
    ensures Moved([Crumb, Crumb], 0, 0) == 8 && EmptyBook.movements + [Crumb] + [Crumb] == [Crumb, Crumb]
  {
    hide Moved;
    MovedTwice([], Crumb, Crumb, 0, 0);
    assert [] + [Crumb] + [Crumb] == [Crumb, Crumb] && EmptyBook.movements == [];
  }

  lemma EmptyStart()
    ensures Invariant(EmptyBook) && CostsSound(EmptyBook) && EmptyBook.layers == []
    ensures CurrentValuation(EmptyBook, 0, 100) == Valuation(0, 0, 100)
  {
    EmptyBookInvariant();
  }

  lemma CrumbsRefused(book: Book)
    requires |book.movements| == |book.figures| && CurrentValuation(book, 0, 100) == Valuation(8, 0, 100)
    ensures ValueAfter(book, Crumbs, AverageCost(book, Crumbs, 100), 100) == -1
    ensures Apply(book, Crumbs, 100) == Err(NegativeValuationValue)
  {
    CrumbValues();
    hide QuantityValue, ApplyFifo, DivideRounded;
  }

  /** Two small entries leave a product with stock and no value; taking most of it out is worth less
      than nothing, so the stock that is there cannot leave. */
  lemma CrumbsAreWorthless() returns (one: Book, two: Book)
    ensures |one.movements| == |one.figures| && |two.movements| == |two.figures|
    ensures Apply(EmptyBook, Crumb, 100) == Ok(one) && Apply(one, Crumb, 100) == Ok(two)
    ensures Moved(two.movements, 0, 0) == 8 && ValueAfter(two, Crumbs, AverageCost(two, Crumbs, 100), 100) == -1
    ensures Apply(two, Crumbs, 100) == Err(NegativeValuationValue)
  {
    hide *;
    EmptyStart();
    CrumbLog();
    one := CrumbBooked(EmptyBook);
    InvariantLinks(one);
    two := CrumbBooked(one);
    InvariantLinks(two);
    CrumbsRefused(two);
  }

  // ----- Stock bought in another currency -----

  const Bought := Plain(0, 0, PurchaseReceipt, 1000, 0, 0).(purchase := Some(Purchase(0, 10000, 1, None)))

  lemma BoughtLayer(averaged: Book)
    requires |averaged.movements| == |averaged.figures| == 1 && averaged.movements[0] == Bought && averaged.layers == []
    requires BookLayers(averaged, 0, averaged.figures[0].unitCost).Ok?
    ensures BookLayers(averaged, 0, averaged.figures[0].unitCost).value.book.layers == [Layer(0, 0, 0, Some(0), 1000, 1000, 10000, 1, 0)]
  {
    hide QuantityValue, CurrencyAccepted;
    assert [] + [Layer(0, 0, 0, Some(0), 1000, 1000, 10000, 1, 0)] == [Layer(0, 0, 0, Some(0), 1000, 1000, 10000, 1, 0)];
  }

  lemma BoughtIsEntry()
    ensures OrdinaryEntry(Bought) && HasCost(Bought) && EntryCurrency(Bought) == 1 && CurrencyAccepted(EmptyBook, 0, 1) && Bought.product == 0
    ensures EmptyBook.layers == [] && EmptyBook.movements == [] && [] + [Bought] == [Bought]
  {
    assert Oldest(EmptyBook.layers, 0, 0) == None;
  }

  lemma HeldInCurrency(book: Book)
    requires book.layers == [Layer(0, 0, 0, Some(0), 1000, 1000, 10000, 1, 0)]
    ensures !CurrencyAccepted(book, 0, 0) && CurrencyAccepted(book, 1, 0)
  {
    assert Oldest(book.layers, 0, 0) == None && Oldest(book.layers, 1, 0) == None;
    assert Oldest(book.layers, 0, 1) == Some(0) && Oldest(book.layers, 1, 1) == None;
  }

  /** A first purchase in currency 1 holds its product in that currency. */
  lemma BoughtAbroad() returns (book: Book)
    ensures |EmptyBook.movements| == |EmptyBook.figures| && Apply(EmptyBook, Bought, 0) == Ok(book) && book.movements == [Bought]
    ensures !CurrencyAccepted(book, 0, 0) && CurrencyAccepted(book, 1, 0)
  {
    hide *;
    EmptyStart();
    CoreLinks(EmptyBook);
    BoughtIsEntry();
    EntryIsExact(EmptyBook, Bought, 0);
    book := Apply(EmptyBook, Bought, 0).value;
    Shape(EmptyBook, Bought, 0);
    BoughtLayer(Average(EmptyBook, Bought, 0).value);
    HeldInCurrency(book);
  }
}
