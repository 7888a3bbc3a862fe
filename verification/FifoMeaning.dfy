/** What the valuation of a movement leaves in the rows, said of the rows themselves: prices, averages,
    layers opened and layers drawn. */
module FifoMeaning {
  import opened Outcomes
  import opened Sums
  import opened Rounding
  import opened Movements
  import Selection
  import opened Fifo
  import opened FifoInvariants
  import opened FifoSteps
  import opened FifoRuns
  import opened FifoValues
  import opened FifoTheorems
  import opened FifoExactness
  import KitExactness

  // ----- The moving average -----

  /** Goods that come in at a price of their own: a purchase, a void or a return. */
  ghost predicate HasOwnPrice(m: Movement) {
    m.quantity > 0 && (m.kind == PurchaseReceipt || m.kind == SaleVoid || m.kind == SaleReturn)
  }

  /** The valuation row before the movement; a product without one starts at its catalogue cost. */
  ghost function RowBefore(book: Book, product: Product, catalogCost: int): Valuation {
    if product in book.valuations then book.valuations[product] else Valuation(0, 0, catalogCost)
  }

  /** The sale a void or return gives back: the first of its line at the place. */
  ghost predicate SaleOf(log: seq<Movement>, m: Movement, k: nat) {
    && k < |log| && m.saleLine.Some? && log[k].kind == Sale && log[k].saleLine == m.saleLine && log[k].location == m.location
    && forall j :: 0 <= j < k ==> log[j].kind != Sale || log[j].saleLine != m.saleLine || log[j].location != m.location
  }

  /** What a movement is valued at: the receipt's price for a purchase, the price its sale went out at for a
      void or return, the running average for everything else. */
  ghost predicate ValuedAt(book: Book, m: Movement, catalogCost: int, price: int)
    requires |book.movements| == |book.figures|
  {
    && (m.quantity > 0 && m.kind == PurchaseReceipt ==> m.purchase.Some? && price == m.purchase.value.unitCost)
    && (m.quantity > 0 && (m.kind == SaleVoid || m.kind == SaleReturn) ==>
          exists k: nat :: SaleOf(book.movements, m, k) && price == book.figures[k].unitCost)
    && (!HasOwnPrice(m) ==> price == RowBefore(book, m.product, catalogCost).average)
  }

  /** The valuation rows after the movement: the product's quantity and value moved, its average the
      nearest to value by quantity if the goods had a price of their own, every other row as it was. */
  ghost predicate Revalued(book: Book, after: Book, m: Movement, catalogCost: int, price: int) {
    var row := RowBefore(book, m.product, catalogCost);
    && after.valuations.Keys == book.valuations.Keys + {m.product}
    && (forall p :: p in book.valuations && p != m.product ==> after.valuations[p] == book.valuations[p])
    && var now := after.valuations[m.product];
       && now.quantity == row.quantity + m.quantity >= 0
       && now.value == (if now.quantity == 0 then 0 else row.value + QuantityValue(m.quantity, price)) >= 0
       && if HasOwnPrice(m) && now.quantity > 0 then IsNearest(now.value * QUANTITY_SCALE, now.quantity, now.average)
          else now.average == row.average
  }

  lemma {:induction false} FirstSaleIs(log: seq<Movement>, m: Movement, n: nat)
    requires n <= |log|
    ensures var first := FirstSale(log, m, n);
            && (first.Some? ==> SaleOf(log, m, first.value))
            && (first.None? && m.saleLine.Some? ==>
                  forall j :: 0 <= j < n ==> log[j].kind != Sale || log[j].saleLine != m.saleLine || log[j].location != m.location)
  {
    if n > 0 {
      FirstSaleIs(log, m, n - 1);
    }
  }

  lemma AverageMeans(book: Book, m: Movement, catalogCost: int)
    requires |book.movements| == |book.figures| && Average(book, m, catalogCost).Ok?
    ensures var after := Average(book, m, catalogCost).value;
            && |after.figures| == |book.figures| + 1 && after.figures[..|book.figures|] == book.figures
            && var f := after.figures[|book.figures|];
               && ValuedAt(book, m, catalogCost, f.unitCost) && Revalued(book, after, m, catalogCost, f.unitCost)
               && f.valueChange == after.valuations[m.product].value - RowBefore(book, m.product, catalogCost).value
  {
    FirstSaleIs(book.movements, m, |book.movements|);
    var after := Average(book, m, catalogCost).value;
    var now := after.valuations[m.product];
    if now.quantity > 0 {
      DivideRoundedIsNearest(now.value * QUANTITY_SCALE, now.quantity);
    }
    hide QuantityValue, DivideRounded, IsNearest, FirstSale;
  }

  lemma FifoKeepsAverage(averaged: Book, id: nat)
    requires id < |averaged.movements| == |averaged.figures| && ApplyFifo(averaged, id).Ok?
    ensures var after := ApplyFifo(averaged, id).value.book;
            && after.valuations == averaged.valuations && |after.figures| == |averaged.figures|
            && (forall k :: 0 <= k < |averaged.figures| && k != id ==> after.figures[k] == averaged.figures[k])
            && after.figures[id].unitCost == averaged.figures[id].unitCost && after.figures[id].valueChange == averaged.figures[id].valueChange
  {
    hide BookLayers, SummaryAgrees, WeightedCost;
  }

  /** An accepted movement is valued at its price, moves its product's valuation row by its value and leaves
      every other row and figure alone. */
  lemma MovementIsValued(book: Book, m: Movement, catalogCost: int)
    requires |book.movements| == |book.figures| && Apply(book, m, catalogCost).Ok?
    ensures var after := Apply(book, m, catalogCost).value;
            && |after.figures| == |book.figures| + 1 && after.figures[..|book.figures|] == book.figures
            && var f := after.figures[|book.figures|];
               && ValuedAt(book, m, catalogCost, f.unitCost) && Revalued(book, after, m, catalogCost, f.unitCost)
               && f.valueChange == after.valuations[m.product].value - RowBefore(book, m.product, catalogCost).value
  {
    KitExactness.ApplyIs(book, m, catalogCost);
    AverageMeans(book, m, catalogCost);
    var averaged := Average(book, m, catalogCost).value;
    hide Average, ApplyFifo, ValuedAt, RowBefore, QuantityValue, IsNearest;
    FifoKeepsAverage(averaged, |book.movements|);
    var after := ApplyFifo(averaged, |book.movements|).value.book;
    assert after.figures[..|book.figures|] == book.figures by {
      forall k | 0 <= k < |book.figures| ensures after.figures[k] == book.figures[k] {
        assert averaged.figures[k] == averaged.figures[..|book.figures|][k];
      }
    }
  }

  /** The cost per unit a movement went through the layers at is the nearest to its value by quantity. */
  ghost predicate CostPerUnit(f: Figures, quantity: int) {
    if quantity == 0 then f.fifoUnitCost == 0
    else IsNearest(Abs(f.fifoValueChange) * QUANTITY_SCALE, Abs(quantity), f.fifoUnitCost)
  }

  lemma LayersAreSummed(book: Book, m: Movement, catalogCost: int)
    requires Invariant(book) && |book.movements| == |book.figures| && Apply(book, m, catalogCost).Ok?
    ensures var after := Apply(book, m, catalogCost).value;
            |after.figures| == |book.figures| + 1 && CostPerUnit(after.figures[|book.figures|], m.quantity)
  {
    KitExactness.ApplyIs(book, m, catalogCost);
    KitExactness.CoreOf(book);
    var averaged := Average(book, m, catalogCost).value;
    KitExactness.AdjustmentAverages(book, m, catalogCost, m.product + 1);
    NotBookedYet(book, averaged, m);
    hide Invariant, Average, IsNearest, Core;
    assert averaged.movements[|book.movements|] == m;
    UnbookedCost(averaged, |book.movements|);
  }

  lemma UnbookedCost(averaged: Book, id: nat)
    requires id < |averaged.movements| == |averaged.figures| && Unbooked(averaged, id) && ApplyFifo(averaged, id).Ok?
    ensures var after := ApplyFifo(averaged, id).value.book;
            id < |after.figures| == |averaged.figures| && CostPerUnit(after.figures[id], averaged.movements[id].quantity)
  {
    var q, value := averaged.movements[id].quantity, ApplyFifo(averaged, id).value.value;
    if q != 0 {
      DivideRoundedIsNearest(Abs(value) * QUANTITY_SCALE, Abs(q));
    }
    hide BookLayers, SummaryAgrees, DivideRounded, IsNearest;
  }

  // ----- Stock that comes in -----

  /** The cost and currency an entry comes in at: those of the receipt line for a purchase, otherwise the
      running average in the tenant's currency. */
  ghost function EntryCost(book: Book, m: Movement, catalogCost: int): int {
    if m.kind == PurchaseReceipt && m.purchase.Some? then m.purchase.value.unitCost else RowBefore(book, m.product, catalogCost).average
  }

  ghost function HeldIn(m: Movement): Currency {
    if m.kind == PurchaseReceipt && m.purchase.Some? then m.purchase.value.currency else m.currency
  }

  ghost function Opened(book: Book, m: Movement, catalogCost: int): Layer {
    Layer(m.product, m.location, |book.movements|, if m.purchase.Some? then Some(m.purchase.value.receiptLine) else None,
          m.quantity, m.quantity, EntryCost(book, m, catalogCost), HeldIn(m), m.at)
  }

  lemma EntryBooks(averaged: Book, id: nat, layer: Layer)
    requires id < |averaged.movements| == |averaged.figures| && Unbooked(averaged, id) && ApplyFifo(averaged, id).Ok?
    requires var m := averaged.movements[id];
             && m.quantity > 0 && m.kind != SaleVoid && m.kind != SaleReturn && m.kind != TransferIn
             && (m.kind == PurchaseReceipt ==> m.purchase.Some?)
             && layer == Layer(m.product, m.location, id, if m.purchase.Some? then Some(m.purchase.value.receiptLine) else None,
                               m.quantity, m.quantity,
                               if m.kind == PurchaseReceipt then m.purchase.value.unitCost else averaged.figures[id].unitCost, HeldIn(m), m.at)
    ensures var after := ApplyFifo(averaged, id).value.book;
            && after.layers == averaged.layers + [layer] && id < |after.figures|
            && after.figures[id].fifoValueChange == QuantityValue(layer.original, layer.unitCost)
            && after.allocations == averaged.allocations
                 + [Allocation(id, |averaged.layers|, None, layer.original, layer.unitCost, layer.currency,
                               QuantityValue(layer.original, layer.unitCost), EntryMode)]
  {
    hide SummaryAgrees, WeightedCost, CurrencyAccepted, QuantityValue;
  }

  /** An accepted entry opens one layer of its whole quantity, at the receipt's cost for a purchase and at
      the running average otherwise, and is booked at that cost. */
  lemma EntryOpensLayer(book: Book, m: Movement, catalogCost: int)
    requires Invariant(book) && |book.movements| == |book.figures| && Apply(book, m, catalogCost).Ok?
    requires m.quantity > 0 && m.kind != SaleVoid && m.kind != SaleReturn && m.kind != TransferIn
    ensures var after, layer := Apply(book, m, catalogCost).value, Opened(book, m, catalogCost);
            && (m.kind == PurchaseReceipt ==> m.purchase.Some?)
            && after.layers == book.layers + [layer] && |after.figures| == |book.figures| + 1
            && after.figures[|book.figures|].fifoValueChange == QuantityValue(m.quantity, layer.unitCost)
            && after.allocations == book.allocations
                 + [Allocation(|book.movements|, |book.layers|, None, m.quantity, layer.unitCost, layer.currency,
                               QuantityValue(m.quantity, layer.unitCost), EntryMode)]
  {
    MovementIsValued(book, m, catalogCost);
    KitExactness.ApplyIs(book, m, catalogCost);
    AverageMeans(book, m, catalogCost);
    KitExactness.CoreOf(book);
    var averaged := Average(book, m, catalogCost).value;
    KitExactness.AdjustmentAverages(book, m, catalogCost, m.product + 1);
    NotBookedYet(book, averaged, m);
    hide Invariant, Average, Core, QuantityValue, Revalued, ApplyFifo;
    assert averaged.movements[|book.movements|] == m;
    EntryBooks(averaged, |book.movements|, Opened(book, m, catalogCost));
  }

  lemma OneCurrencyDecides(book: Book, product: Product, currency: Currency)
    requires OneCurrency(book)
    ensures CurrencyAccepted(book, product, currency)
            <==> forall i: nat | i < |book.layers| && book.layers[i].product == product :: book.layers[i].currency == currency
  {
  }

  /** An ordinary entry is accepted exactly when its price is known and every layer its product ever had is
      in its currency: a product never mixes currencies. */
  lemma EntryIsAccepted(book: Book, m: Movement, catalogCost: nat)
    requires Invariant(book) && CostsSound(book) && OrdinaryEntry(m)
    ensures |book.movements| == |book.figures|
    ensures Apply(book, m, catalogCost).Ok?
            <==> && (m.kind == PurchaseReceipt ==> m.purchase.Some?)
                 && forall i: nat | i < |book.layers| && book.layers[i].product == m.product ::
                      book.layers[i].currency == if m.kind == PurchaseReceipt then m.purchase.value.currency else m.currency
  {
    EntryIsExact(book, m, catalogCost);
    KitExactness.CoreOf(book);
    hide Apply, Invariant, CostsSound, CurrencyAccepted;
    if m.kind == PurchaseReceipt ==> m.purchase.Some? {
      OneCurrencyDecides(book, m.product, EntryCurrency(m));
    }
  }

  // ----- Stock that goes out -----

  /** The layer lies where the movement takes stock from; a supplier return may only have those of its receipt
      line, a discrepancy only those its transfer line brought in. */
  ghost predicate MayGive(book: Book, i: nat, m: Movement)
    requires i < |book.layers|
  {
    var l := book.layers[i];
    && l.product == m.product && l.location == m.location
    && (m.kind == SupplierReturn ==> m.returnOf.Some? && l.receiptLine == Some(m.returnOf.value.receiptLine))
    && (m.kind == TransferDiscrepancy && m.transferLine.Some? ==>
          l.sourceMovement < |book.movements| && book.movements[l.sourceMovement].kind == TransferIn
          && book.movements[l.sourceMovement].transferLine == m.transferLine)
  }

  ghost predicate Older(layers: seq<Layer>, x: nat, y: nat)
    requires x < |layers| && y < |layers|
  {
    layers[x].acquiredAt < layers[y].acquiredAt || (layers[x].acquiredAt == layers[y].acquiredAt && x < y)
  }

  /** Only layers that may give have given, none more than it had, and a layer gave only when every older
      one that may give is empty. */
  ghost predicate GivenByAge(book: Book, after: Book, m: Movement) {
    && |after.layers| == |book.layers|
    && (forall i: nat | i < |book.layers| ::
          && after.layers[i] == book.layers[i].(remaining := after.layers[i].remaining)
          && (after.layers[i] != book.layers[i] ==> MayGive(book, i, m) && 0 <= after.layers[i].remaining < book.layers[i].remaining))
    && (forall x: nat, y: nat | x < |book.layers| && y < |book.layers| && MayGive(book, x, m) && Older(book.layers, x, y) ::
          after.layers[y] == book.layers[y] || after.layers[x].remaining == 0)
  }

  lemma EligibleMayGive(book: Book, i: nat, m: Movement, source: Source)
    requires i < |book.layers| && ConsumptionSource(m) == Ok(source)
    ensures Eligible(book, i, m, source) <==> MayGive(book, i, m) && book.layers[i].remaining > 0
  {
  }

  lemma OlderComesFirst(book: Book, order: seq<nat>, j: nat, k: nat)
    requires Selection.InOrder(order, AcquiredRank(book)) && j < |order| && k < |order| && order[j] < |book.layers| && order[k] < |book.layers|
    requires Older(book.layers, order[j], order[k])
    ensures j < k
  {
  }

  lemma DrawnByAge(book: Book, after: Book, m: Movement, source: Source, requested: nat)
    requires ConsumptionSource(m) == Ok(source) && Backed(book)
    requires var order := Order(book, m, source);
             && Selection.InOrder(order, AcquiredRank(book)) && Stocked(book, order) && DrawnFrom(book, after, order, requested)
             && DrainedBefore(book, after, order)
             && (forall i: nat :: i < |book.layers| && Eligible(book, i, m, source) ==> i in order)
    ensures GivenByAge(book, after, m)
  {
    var order := Order(book, m, source);
    assert forall k :: 0 <= k < |order| ==> Eligible(book, order[k], m, source);
    hide Order, Eligible, Selection.InOrder, AcquiredRank, Backed, MayGive, ConsumptionSource, DrainedBefore, Older, Selection.Taken;
    assert |after.layers| == |book.layers|;
    forall i: nat | i < |book.layers|
      ensures && after.layers[i] == book.layers[i].(remaining := after.layers[i].remaining)
              && (after.layers[i] != book.layers[i] ==> MayGive(book, i, m) && 0 <= after.layers[i].remaining < book.layers[i].remaining)
    {
      GivesWithin(book, after, m, source, order, requested, i);
    }
    hide DrawnFrom, Stocked;
    forall x: nat, y: nat | x < |book.layers| && y < |book.layers| && MayGive(book, x, m) && Older(book.layers, x, y)
      ensures after.layers[y] == book.layers[y] || after.layers[x].remaining == 0
    {
      OlderIsEmpty(book, after, m, source, requested, x, y);
    }
  }

  lemma GivesWithin(book: Book, after: Book, m: Movement, source: Source, order: seq<nat>, requested: nat, i: nat)
    requires ConsumptionSource(m) == Ok(source) && Stocked(book, order) && DrawnFrom(book, after, order, requested)
    requires (forall k :: 0 <= k < |order| ==> order[k] < |book.layers| && Eligible(book, order[k], m, source)) && i < |book.layers| == |after.layers|
    ensures && after.layers[i] == book.layers[i].(remaining := after.layers[i].remaining)
            && (after.layers[i] != book.layers[i] ==> MayGive(book, i, m) && 0 <= after.layers[i].remaining < book.layers[i].remaining)
  {
    hide Eligible, MayGive, ConsumptionSource, Selection.Taken;
    if i in order {
      var k :| 0 <= k < |order| && order[k] == i;
      EligibleMayGive(book, i, m, source);
      TakenBounds(order, RemainingOn(book), requested, k);
    }
  }

  lemma TakenBounds(order: seq<nat>, amount: nat -> int, requested: nat, k: nat)
    requires k < |order| && amount(order[k]) > 0
    ensures 0 <= Selection.Taken(order, amount, requested, k) <= amount(order[k])
  {
  }

  lemma OlderIsEmpty(book: Book, after: Book, m: Movement, source: Source, requested: nat, x: nat, y: nat)
    requires ConsumptionSource(m) == Ok(source) && Backed(book)
    requires var order := Order(book, m, source);
             && Selection.InOrder(order, AcquiredRank(book)) && Stocked(book, order) && DrawnFrom(book, after, order, requested)
             && DrainedBefore(book, after, order)
             && (forall i: nat :: i < |book.layers| && Eligible(book, i, m, source) ==> i in order)
    requires x < |book.layers| && y < |book.layers| && MayGive(book, x, m) && Older(book.layers, x, y)
    ensures |after.layers| == |book.layers| && (after.layers[y] == book.layers[y] || after.layers[x].remaining == 0)
  {
    var order := Order(book, m, source);
    EligibleMayGive(book, x, m, source);
    assert book.layers[x].remaining >= 0;
    hide Order, Eligible, Selection.InOrder, AcquiredRank, Backed, MayGive, ConsumptionSource, Older, Selection.Taken;
    if x in order && y in order {
      var j :| 0 <= j < |order| && order[j] == x;
      var k :| 0 <= k < |order| && order[k] == y;
      OlderComesFirst(book, order, j, k);
    }
  }

  /** Stock that goes out leaves the layers oldest first, from those its kind may draw on and no others. */
  lemma OldestGoesFirst(book: Book, m: Movement, catalogCost: int)
    requires Invariant(book) && |book.movements| == |book.figures| && m.quantity < 0 && Apply(book, m, catalogCost).Ok?
    ensures GivenByAge(book, Apply(book, m, catalogCost).value, m)
  {
    hide *;
    KitExactness.ApplyIs(book, m, catalogCost);
    KitExactness.CoreOf(book);
    var averaged, id := Average(book, m, catalogCost).value, |book.movements|;
    KitExactness.AdjustmentAverages(book, m, catalogCost, m.product + 1);
    AverageKeepsCore(book, m, catalogCost);
    NotBookedYet(book, averaged, m);
    assert averaged.movements[id] == m;
    ExitBooks(averaged, id);
    var source := ConsumptionSource(m).value;
    ConsumptionIsGreedy(averaged, id, -m.quantity, source);
    BackedOf(averaged);
    var drawn := ConsumeLayers(averaged, id, -m.quantity, source).value.book;
    DrawnByAge(averaged, drawn, m, source, -m.quantity);
    SameLayersGiven(book, averaged, drawn, Apply(book, m, catalogCost).value, m);
  }

  lemma BackedOf(book: Book)
    requires Core(book)
    ensures Backed(book)
  {
  }

  lemma ExitBooks(averaged: Book, id: nat)
    requires id < |averaged.movements| == |averaged.figures| && Unbooked(averaged, id) && ApplyFifo(averaged, id).Ok?
    requires averaged.movements[id].quantity < 0
    ensures var m := averaged.movements[id];
            && ConsumptionSource(m).Ok?
            && var r := ConsumeLayers(averaged, id, -m.quantity, ConsumptionSource(m).value);
               && r.Ok? && ApplyFifo(averaged, id).value.book.layers == r.value.book.layers
               && ApplyFifo(averaged, id).value.book.allocations == r.value.book.allocations
  {
    hide ConsumeLayers, SummaryAgrees, WeightedCost, ConsumptionSource;
  }

  lemma SameLayersGiven(book: Book, averaged: Book, drawn: Book, after: Book, m: Movement)
    requires averaged.layers == book.layers && averaged.movements == book.movements + [m]
    requires GivenByAge(averaged, drawn, m) && after.layers == drawn.layers
    ensures GivenByAge(book, after, m)
  {
    assert forall i: nat | i < |book.layers| :: MayGive(averaged, i, m) <==> MayGive(book, i, m);
  }

  /** What the new allocations of an outgoing movement say. */
  ghost predicate NotedAs(before: Book, after: Book, movement: nat, mode: Mode) {
    && |before.allocations| <= |after.allocations| && after.allocations[..|before.allocations|] == before.allocations
    && forall k: nat | |before.allocations| <= k < |after.allocations| ::
         var a := after.allocations[k];
         a.movement == movement && a.source == None && a.mode == mode && a.quantity < 0
  }

  lemma NotedOn(before: Book, next: Book, after: Book, movement: nat, mode: Mode)
    requires NotedAs(before, next, movement, mode) && NotedAs(next, after, movement, mode)
    ensures NotedAs(before, after, movement, mode)
  {
    var n := |before.allocations|;
    assert after.allocations[..n] == after.allocations[..|next.allocations|][..n];
    forall k: nat | n <= k < |after.allocations|
      ensures var a := after.allocations[k]; a.movement == movement && a.source == None && a.mode == mode && a.quantity < 0
    {
      if k < |next.allocations| {
        assert after.allocations[k] == after.allocations[..|next.allocations|][k];
      }
    }
  }

  lemma {:induction false} ConsumeNotes(book: Book, movement: nat, order: seq<nat>, mode: Mode, remaining: int, value: int)
    requires (forall k :: 0 <= k < |order| ==> order[k] < |book.layers|) && remaining >= 0
    requires forall i :: 0 <= i < |book.layers| ==> book.layers[i].remaining >= 0
    ensures Consume(book, movement, order, mode, remaining, value).Ok? ==>
              NotedAs(book, Consume(book, movement, order, mode, remaining, value).value.book, movement, mode)
    decreases |order|
  {
    hide NotedAs;
    if order == [] || remaining == 0 {
      assert NotedAs(book, book, movement, mode) by { NotedNothing(book, movement, mode); }
    } else {
      var consumed := Selection.Min(book.layers[order[0]].remaining, remaining);
      if consumed == 0 {
        ConsumeNotes(book, movement, order[1..], mode, remaining, value);
      } else {
        var posted := Post(book, movement, order[0], None, -consumed, mode);
        PostNotes(book, movement, order[0], -consumed, mode);
        ConsumeNotes(posted.book, movement, order[1..], mode, remaining - consumed, value + posted.value);
        var r := Consume(posted.book, movement, order[1..], mode, remaining - consumed, value + posted.value);
        if r.Ok? {
          NotedOn(book, posted.book, r.value.book, movement, mode);
        }
      }
    }
  }

  lemma NotedNothing(book: Book, movement: nat, mode: Mode)
    ensures NotedAs(book, book, movement, mode)
  {
  }

  lemma PostNotes(book: Book, movement: nat, layer: nat, quantity: int, mode: Mode)
    requires layer < |book.layers| && quantity < 0
    ensures NotedAs(book, Post(book, movement, layer, None, quantity, mode).book, movement, mode)
  {
    hide QuantityValue;
  }

  /** The allocations of an outgoing movement are its own and tell a supplier return from the rest. */
  lemma ExitIsNoted(book: Book, m: Movement, catalogCost: int)
    requires Invariant(book) && |book.movements| == |book.figures| && m.quantity < 0 && Apply(book, m, catalogCost).Ok?
    ensures NotedAs(book, Apply(book, m, catalogCost).value, |book.movements|, if m.kind == SupplierReturn then OriginReturnMode else FifoMode)
  {
    hide Invariant, Average, ApplyFifo, Consume, NotedAs, Core, Order;
    KitExactness.ApplyIs(book, m, catalogCost);
    KitExactness.CoreOf(book);
    var averaged, id := Average(book, m, catalogCost).value, |book.movements|;
    KitExactness.AdjustmentAverages(book, m, catalogCost, m.product + 1);
    AverageKeepsCore(book, m, catalogCost);
    NotBookedYet(book, averaged, m);
    assert averaged.movements[id] == m;
    ExitBooks(averaged, id);
    var source := ConsumptionSource(m).value;
    BackedOf(averaged);
    var mode := if source.Receipt? then OriginReturnMode else FifoMode;
    ConsumeNotes(averaged, id, Order(averaged, m, source), mode, -m.quantity, 0);
    SameAllocationsNoted(book, averaged, ConsumeLayers(averaged, id, -m.quantity, source).value.book, Apply(book, m, catalogCost).value, id, mode);
  }

  lemma SameAllocationsNoted(book: Book, averaged: Book, drawn: Book, after: Book, movement: nat, mode: Mode)
    requires averaged.allocations == book.allocations && NotedAs(averaged, drawn, movement, mode) && after.allocations == drawn.allocations
    ensures NotedAs(book, after, movement, mode)
  {
  }

  // ----- Stock that arrives -----

  /** The allocations of what left on the line, in the order they were noted. */
  ghost predicate LeftOn(book: Book, m: Movement, sources: seq<nat>) {
    && (forall j, k :: 0 <= j < k < |sources| ==> sources[j] < sources[k])
    && (forall i: nat :: i in sources <==>
          i < |book.allocations| && book.allocations[i].movement < |book.movements| && m.transferLine.Some?
          && book.movements[book.allocations[i].movement].kind == TransferOut
          && book.movements[book.allocations[i].movement].transferLine == m.transferLine)
  }

  /** A layer at the destination with the quantity, cost, currency and age of what left. */
  ghost function Copy(book: Book, m: Movement, source: nat): Layer
    requires source < |book.allocations| && book.allocations[source].layer < |book.layers|
  {
    var a := book.allocations[source];
    Layer(m.product, m.location, |book.movements|, None, -a.quantity, -a.quantity, a.unitCost, a.currency, book.layers[a.layer].acquiredAt)
  }

  lemma {:induction false} DispatchedAre(book: Book, m: Movement, n: nat)
    requires n <= |book.allocations|
    ensures var r := DispatchedBy(book, m, n);
            && (forall j, k :: 0 <= j < k < |r| ==> r[j] < r[k])
            && (forall i: nat :: i in r <==> i < n && Dispatched(book, i, m))
  {
    if n > 0 {
      DispatchedAre(book, m, n - 1);
    }
  }

  ghost predicate Leaving(book: Book, sources: seq<nat>) {
    forall k :: 0 <= k < |sources| ==>
      sources[k] < |book.allocations| && book.allocations[sources[k]].quantity < 0 && book.allocations[sources[k]].layer < |book.layers|
  }

  /** Each source has opened its layer and noted it. */
  ghost predicate CopiedTo(book: Book, after: Book, movement: nat, sources: seq<nat>)
    requires movement < |book.movements| && Leaving(book, sources)
  {
    && |after.layers| == |book.layers| + |sources| && after.layers[..|book.layers|] == book.layers
    && |after.allocations| == |book.allocations| + |sources| && after.allocations[..|book.allocations|] == book.allocations
    && forall k :: 0 <= k < |sources| ==>
         var layer := ArrivalLayer(book, movement, sources[k]);
         && after.layers[|book.layers| + k] == layer
         && after.allocations[|book.allocations| + k]
            == Allocation(movement, |book.layers| + k, Some(sources[k]), layer.original, layer.unitCost, layer.currency,
                          QuantityValue(layer.original, layer.unitCost), TransferMode)
  }

  lemma CopyOn(book: Book, after: Book, movement: nat, sources: seq<nat>)
    requires movement < |book.movements| && Leaving(book, sources) && sources != []
    requires var next := Open(book, movement, ArrivalLayer(book, movement, sources[0]), Some(sources[0]), TransferMode).book;
             Leaving(next, sources[1..]) && CopiedTo(next, after, movement, sources[1..])
    ensures CopiedTo(book, after, movement, sources)
  {
    hide QuantityValue;
    var next := Open(book, movement, ArrivalLayer(book, movement, sources[0]), Some(sources[0]), TransferMode).book;
    var n, m := |book.layers|, |book.allocations|;
    assert after.layers[..n] == after.layers[..|next.layers|][..n];
    assert after.allocations[..m] == after.allocations[..|next.allocations|][..m];
    assert after.layers[n] == after.layers[..|next.layers|][n];
    assert after.allocations[m] == after.allocations[..|next.allocations|][m];
    forall k | 1 <= k < |sources|
      ensures ArrivalLayer(next, movement, sources[1..][k - 1]) == ArrivalLayer(book, movement, sources[k])
      ensures after.layers[n + k] == after.layers[|next.layers| + (k - 1)]
      ensures after.allocations[m + k] == after.allocations[|next.allocations| + (k - 1)]
    {
    }
  }

  lemma LeavingOn(book: Book, movement: nat, sources: seq<nat>)
    requires movement < |book.movements| && Leaving(book, sources) && sources != []
    ensures var next := Open(book, movement, ArrivalLayer(book, movement, sources[0]), Some(sources[0]), TransferMode).book;
            Leaving(next, sources[1..])
  {
    hide QuantityValue;
  }

  lemma MovingUnfolds(book: Book, movement: nat, sources: seq<nat>, expected: int, transferred: int, value: int)
    requires movement < |book.movements| && Leaving(book, sources) && sources != []
    ensures forall k :: 0 <= k < |sources| ==> sources[k] < |book.allocations|
    ensures var posted := Open(book, movement, ArrivalLayer(book, movement, sources[0]), Some(sources[0]), TransferMode);
            && (forall k :: 0 <= k < |sources[1..]| ==> sources[1..][k] < |posted.book.allocations|)
            && posted.book.movements == book.movements
            && var r := Moving(book, movement, sources, expected, transferred, value);
               r.Ok? ==> r == Moving(posted.book, movement, sources[1..], expected, transferred - book.allocations[sources[0]].quantity,
                                     value + posted.value)
  {
    hide CurrencyAccepted, QuantityValue;
  }

  lemma CopyNothing(book: Book, movement: nat)
    requires movement < |book.movements|
    ensures CopiedTo(book, book, movement, [])
  {
  }

  lemma LeavingInRange(book: Book, sources: seq<nat>)
    requires Leaving(book, sources)
    ensures forall k :: 0 <= k < |sources| ==>
              sources[k] < |book.allocations| && book.allocations[sources[k]].layer < |book.layers|
  {
  }

  lemma {:induction false} MovingCopies(book: Book, movement: nat, sources: seq<nat>, expected: int, transferred: int, value: int)
    requires movement < |book.movements| && Leaving(book, sources)
    ensures forall k :: 0 <= k < |sources| ==> sources[k] < |book.allocations|
    ensures Moving(book, movement, sources, expected, transferred, value).Ok? ==>
              CopiedTo(book, Moving(book, movement, sources, expected, transferred, value).value.book, movement, sources)
    decreases |sources|
  {
    LeavingInRange(book, sources);
    if sources == [] {
      CopyNothing(book, movement);
    } else {
      var posted := Open(book, movement, ArrivalLayer(book, movement, sources[0]), Some(sources[0]), TransferMode);
      MovingUnfolds(book, movement, sources, expected, transferred, value);
      LeavingOn(book, movement, sources);
      hide *;
      var moved := transferred - book.allocations[sources[0]].quantity;
      MovingCopies(posted.book, movement, sources[1..], expected, moved, value + posted.value);
      var r := Moving(posted.book, movement, sources[1..], expected, moved, value + posted.value);
      if r.Ok? {
        CopyOn(book, r.value.book, movement, sources);
      }
    }
  }

  /** The layers and allocations an arrival adds: one of each for every allocation of its departure. */
  ghost predicate ArrivedFrom(book: Book, after: Book, m: Movement, sources: seq<nat>) {
    && (forall k :: 0 <= k < |sources| ==> sources[k] < |book.allocations| && book.allocations[sources[k]].layer < |book.layers|)
    && |after.layers| == |book.layers| + |sources| && after.layers[..|book.layers|] == book.layers
    && |after.allocations| == |book.allocations| + |sources| && after.allocations[..|book.allocations|] == book.allocations
    && forall k :: 0 <= k < |sources| ==>
         && after.layers[|book.layers| + k] == Copy(book, m, sources[k])
         && after.allocations[|book.allocations| + k].(value := 0)
            == Allocation(|book.movements|, |book.layers| + k, Some(sources[k]), -book.allocations[sources[k]].quantity,
                          book.allocations[sources[k]].unitCost, book.allocations[sources[k]].currency, 0, TransferMode)
  }

  lemma ArrivalBooks(averaged: Book, id: nat)
    requires id < |averaged.movements| == |averaged.figures| && Unbooked(averaged, id) && ApplyFifo(averaged, id).Ok?
    requires averaged.movements[id].quantity > 0 && averaged.movements[id].kind == TransferIn
    ensures var r := Moving(averaged, id, DispatchedBy(averaged, averaged.movements[id], |averaged.allocations|),
                            averaged.movements[id].quantity, 0, 0);
            && r.Ok? && ApplyFifo(averaged, id).value.book.layers == r.value.book.layers
            && ApplyFifo(averaged, id).value.book.allocations == r.value.book.allocations
  {
    hide Moving, DispatchedBy, SummaryAgrees, WeightedCost;
  }

  lemma SourcesLeave(book: Book, averaged: Book, m: Movement, sources: seq<nat>)
    requires Core(book) && averaged.layers == book.layers && averaged.allocations == book.allocations
    requires averaged.movements == book.movements + [m] && m.kind == TransferIn
    requires sources == DispatchedBy(averaged, m, |averaged.allocations|)
    requires forall k :: 0 <= k < |book.movements| && book.movements[k].kind == TransferOut ==> book.movements[k].quantity <= 0
    ensures Leaving(averaged, sources) && LeftOn(book, m, sources)
  {
    SourcesLeft(book, averaged, m, sources);
    CoreLinks(book);
    hide Core, DispatchedBy;
    forall k | 0 <= k < |sources|
      ensures sources[k] < |averaged.allocations| && averaged.allocations[sources[k]].quantity < 0
              && averaged.allocations[sources[k]].layer < |averaged.layers|
    {
      assert sources[k] in sources;
    }
  }

  lemma SourcesLeft(book: Book, averaged: Book, m: Movement, sources: seq<nat>)
    requires Core(book) && averaged.layers == book.layers && averaged.allocations == book.allocations
    requires averaged.movements == book.movements + [m] && m.kind == TransferIn
    requires sources == DispatchedBy(averaged, m, |averaged.allocations|)
    ensures LeftOn(book, m, sources)
  {
    DispatchedAre(averaged, m, |averaged.allocations|);
    CoreLinks(book);
    hide Core, DispatchedBy;
    forall i: nat
      ensures i in sources <==>
                i < |book.allocations| && book.allocations[i].movement < |book.movements| && m.transferLine.Some?
                && book.movements[book.allocations[i].movement].kind == TransferOut
                && book.movements[book.allocations[i].movement].transferLine == m.transferLine
    {
    }
  }

  lemma CopiesArrive(book: Book, averaged: Book, moved: Book, after: Book, m: Movement, sources: seq<nat>)
    requires averaged.layers == book.layers && averaged.allocations == book.allocations && averaged.movements == book.movements + [m]
    requires Leaving(averaged, sources) && CopiedTo(averaged, moved, |book.movements|, sources)
    requires after.layers == moved.layers && after.allocations == moved.allocations
    ensures ArrivedFrom(book, after, m, sources)
  {
    hide QuantityValue;
  }

  /** An arrival opens, for each allocation of what left on its line, a layer at the destination with the
      same quantity, cost, currency and age. */
  lemma ArrivalCopiesLayers(book: Book, m: Movement, catalogCost: int) returns (sources: seq<nat>)
    requires Invariant(book) && |book.movements| == |book.figures| && m.kind == TransferIn && m.quantity > 0
    requires forall k :: 0 <= k < |book.movements| && book.movements[k].kind == TransferOut ==> book.movements[k].quantity <= 0
    requires Apply(book, m, catalogCost).Ok?
    ensures LeftOn(book, m, sources) && ArrivedFrom(book, Apply(book, m, catalogCost).value, m, sources)
  {
    hide *;
    KitExactness.ApplyIs(book, m, catalogCost);
    KitExactness.CoreOf(book);
    var averaged, id := Average(book, m, catalogCost).value, |book.movements|;
    KitExactness.AdjustmentAverages(book, m, catalogCost, m.product + 1);
    NotBookedYet(book, averaged, m);
    assert averaged.movements[id] == m;
    sources := DispatchedBy(averaged, m, |averaged.allocations|);
    SourcesLeave(book, averaged, m, sources);
    MovingCopies(averaged, id, sources, m.quantity, 0, 0);
    ArrivalBooks(averaged, id);
    CopiesArrive(book, averaged, Moving(averaged, id, sources, m.quantity, 0, 0).value.book, Apply(book, m, catalogCost).value, m, sources);
  }
}
