/** What a recorded transfer movement leaves alone: nothing that decides about another product changes. */
module OtherProducts {
  import opened Outcomes
  import opened Sums
  import opened Rounding
  import opened Movements
  import Selection
  import Fifo
  import opened FifoInvariants
  import opened FifoSteps
  import opened FifoRuns
  import opened FifoValues
  import opened FifoTheorems
  import opened FifoExactness
  import KitExactness
  import opened Lots
  import opened LotInvariants
  import opened LotSteps
  import LotTheorems
  import opened Serials
  import opened SerialInvariants
  import opened SerialTheorems
  import opened Ledgers
  import opened TransferExactness

  predicate TransferKind(kind: Kind) {
    kind == TransferOut || kind == TransferIn || kind == TransferReceipt || kind == TransferDiscrepancy
  }

  ghost predicate SameValue(book: Fifo.Book, after: Fifo.Book, p: Product) {
    forall cost: int :: Fifo.CurrentValuation(after, p, cost) == Fifo.CurrentValuation(book, p, cost)
  }

  ghost predicate SameLots(lots: LotBook, after: LotBook, p: Product) {
    forall m: Movement, today: nat :: m.product == p ==> LotTheorems.UnexpiredStock(after, m, today) == LotTheorems.UnexpiredStock(lots, m, today)
  }

  ghost predicate SameUnits(serials: SerialBook, after: SerialBook, p: Product) {
    forall number, states, place :: NamedAt(after, p, number, states, place) <==> NamedAt(serials, p, number, states, place)
  }

  ghost predicate SameDrawable(book: Fifo.Book, after: Fifo.Book, p: Product) {
    forall m: Movement :: m.product == p ==> DrawableStock(after, m) == DrawableStock(book, m)
  }

  // ----- Value -----

  lemma ValueOfOthers(book: Fifo.Book, m: Movement, cost: int, p: Product)
    requires |book.movements| == |book.figures| && p != m.product && Fifo.Apply(book, m, cost).Ok?
    ensures SameValue(book, Fifo.Apply(book, m, cost).value, p)
  {
    hide Fifo.BookLayers, Fifo.SummaryAgrees, Fifo.WeightedCost, QuantityValue, DivideRounded;
  }

  // ----- Lots -----

  lemma OthersHold(before: LotBook, after: LotBook, movements: seq<Movement>, movement: nat, quantity: int, lot: nat, location: Location)
    requires movement < |movements| && LotCore(before, movements) && LotsGrown(before, after, movements, movement, quantity)
    requires lot < |after.lots| && after.lots[lot].product != movements[movement].product
    ensures LotHeld(after, lot, location) == LotHeld(before, lot, location)
  {
    var f, n := EntryAt(lot, location), |before.entries|;
    assert LotHeld(before, lot, location) == Total(before.entries, f) && LotHeld(after, lot, location) == Total(after.entries, f);
    assert after.entries == before.entries + after.entries[n..];
    TotalConcat(before.entries, after.entries[n..], f);
    hide LotHeld;
    forall k | 0 <= k < |after.entries[n..]| ensures f(after.entries[n..][k]) == 0 {
      assert EntryLinked(after, movements, after.entries[n + k]);
    }
    TotalZero(after.entries[n..], f);
  }

  lemma NewLotHoldsNothing(before: LotBook, movements: seq<Movement>, lot: nat, location: Location)
    requires LotCore(before, movements) && lot >= |before.lots|
    ensures LotHeld(before, lot, location) == 0
  {
    var f := EntryAt(lot, location);
    assert LotHeld(before, lot, location) == Total(before.entries, f);
    hide LotHeld;
    forall k | 0 <= k < |before.entries| ensures f(before.entries[k]) == 0 {
      assert EntryLinked(before, movements, before.entries[k]);
    }
    TotalZero(before.entries, f);
  }

  lemma LotsOfOthers(before: LotBook, after: LotBook, movements: seq<Movement>, movement: nat, quantity: int, p: Product)
    requires movement < |movements| && LotCore(before, movements) && LotsGrown(before, after, movements, movement, quantity)
    requires p != movements[movement].product
    ensures SameLots(before, after, p)
  {
    forall m: Movement, today: nat | m.product == p
      ensures LotTheorems.UnexpiredStock(after, m, today) == LotTheorems.UnexpiredStock(before, m, today)
    {
      UnexpiredKept(before, after, movements, movement, quantity, m, today);
    }
  }

  lemma UnexpiredKept(before: LotBook, after: LotBook, movements: seq<Movement>, movement: nat, quantity: int, m: Movement, today: nat)
    requires movement < |movements| && LotCore(before, movements) && LotsGrown(before, after, movements, movement, quantity)
    requires m.product != movements[movement].product
    ensures LotTheorems.UnexpiredStock(after, m, today) == LotTheorems.UnexpiredStock(before, m, today)
  {
    var f := Selection.Eligible(EligibleLot(before, m, today), LotTheorems.HeldHere(before, m.location));
    var g := Selection.Eligible(EligibleLot(after, m, today), LotTheorems.HeldHere(after, m.location));
    assert LotCore(after, movements) && LotsKept(before.lots, after.lots);
    forall i: nat | i < |after.lots| ensures g(i) == if i < |before.lots| then f(i) else 0 {
      LotTheorems.HeldNonNegativeAt(before, i, m.location);
      LotTheorems.HeldNonNegativeAt(after, i, m.location);
      hide LotHeld, RowQuantity, LotCore, LotsGrown;
      if after.lots[i].product == m.product {
        OthersHold(before, after, movements, movement, quantity, i, m.location);
        if i >= |before.lots| {
          NewLotHoldsNothing(before, movements, i, m.location);
        }
      }
    }
    hide LotHeld, RowQuantity, LotCore, LotsGrown;
    FirstTerms(|before.lots|, |after.lots|, f, g);
  }

  lemma {:induction false} FirstTerms(n: nat, more: nat, f: nat -> int, g: nat -> int)
    requires n <= more && forall i: nat | i < more :: g(i) == if i < n then f(i) else 0
    ensures Sum(more, g) == Sum(n, f)
    decreases more
  {
    if n < more {
      FirstTerms(n, more - 1, f, g);
    } else {
      SumSame(n, f, g);
    }
  }

  // ----- Units -----

  lemma UnitsOfOthers(serials: SerialBook, movements: seq<Movement>, movement: nat, options: SerialOptions, p: Product)
    requires movement < |movements| && NoEvents(serials, movement) && TransferKind(movements[movement].kind)
    requires p != movements[movement].product && ApplySerials(serials, movements, movement, options).Ok?
    ensures SameUnits(serials, ApplySerials(serials, movements, movement, options).value, p)
  {
    var m := movements[movement];
    var after := ApplySerials(serials, movements, movement, options).value;
    if m.kind != TransferIn {
      assert UnitCount(m).Ok?;
      hide ApplySerials, Normalize, UnitCount;
      AcceptanceIsExact(serials, movements, movement, options);
      var rows := SelectRows(serials.serials, m.product, Numbers(serials, movements, m, options), |Numbers(serials, movements, m, options)|).value;
      hide SelectRows, Numbers;
      assert forall i: nat :: i < |serials.serials| && serials.serials[i].product == p ==> after.serials[i] == serials.serials[i];
      assert forall i: nat :: i < |serials.serials| ==> after.serials[i].product == serials.serials[i].product;
      RowsNamed(serials, after, p);
    }
  }

  lemma RowsNamed(serials: SerialBook, after: SerialBook, p: Product)
    requires |after.serials| == |serials.serials|
    requires forall i: nat :: i < |serials.serials| && serials.serials[i].product == p ==> after.serials[i] == serials.serials[i]
    requires forall i: nat :: i < |serials.serials| ==> after.serials[i].product == serials.serials[i].product
    ensures SameUnits(serials, after, p)
  {
    hide Normalize;
  }

  // ----- Layers -----

  lemma DrawnOfProduct(averaged: Fifo.Book, after: Fifo.Book, id: nat, source: Fifo.Source, requested: nat, i: nat)
    requires id < |averaged.movements| && i < |averaged.layers| && averaged.layers[i].product != averaged.movements[id].product
    requires var order := Fifo.Order(averaged, averaged.movements[id], source);
             (forall k :: 0 <= k < |order| ==> order[k] < |averaged.layers|) && DrawnFrom(averaged, after, order, requested)
    ensures i < |after.layers| && after.layers[i] == averaged.layers[i]
  {
    OrderOfProduct(averaged, averaged.movements[id], source);
    hide Fifo.Order;
  }

  lemma DrawKeepsProducts(averaged: Fifo.Book, after: Fifo.Book, id: nat, source: Fifo.Source, requested: nat, i: nat)
    requires id < |averaged.movements| && i < |averaged.layers|
    requires var order := Fifo.Order(averaged, averaged.movements[id], source);
             (forall k :: 0 <= k < |order| ==> order[k] < |averaged.layers|) && DrawnFrom(averaged, after, order, requested)
    ensures i < |after.layers| && after.layers[i].product == averaged.layers[i].product
  {
    hide Fifo.Order;
  }

  ghost predicate LayersKept(book: Fifo.Book, after: Fifo.Book, p: Product) {
    && |after.layers| == |book.layers|
    && forall i :: 0 <= i < |book.layers| ==>
         after.layers[i].product == book.layers[i].product && (book.layers[i].product == p ==> after.layers[i] == book.layers[i])
  }

  lemma DrawableOfOthers(book: Fifo.Book, after: Fifo.Book, added: Movement, p: Product)
    requires LayersKept(book, after, p) && after.movements == book.movements + [added] && added.kind != TransferIn
    ensures SameDrawable(book, after, p)
  {
    forall m: Movement | m.product == p ensures DrawableStock(after, m) == DrawableStock(book, m) {
      var source := Fifo.ConsumptionSource(m);
      if source.Ok? {
        var f := Selection.Eligible(Fifo.EligibleLayer(book, m, source.value), RemainingOn(book));
        var g := Selection.Eligible(Fifo.EligibleLayer(after, m, source.value), RemainingOn(after));
        forall i: nat | i < |book.layers| ensures f(i) == g(i) {
          assert Fifo.FromSource(after, book.layers[i], source.value) == Fifo.FromSource(book, book.layers[i], source.value);
        }
        SumSame(|book.layers|, f, g);
      }
    }
  }

  lemma WriteOffBooks(averaged: Fifo.Book, id: nat)
    requires id < |averaged.movements| == |averaged.figures| && Unbooked(averaged, id) && Fifo.ApplyFifo(averaged, id).Ok?
    requires averaged.movements[id].kind == TransferDiscrepancy && averaged.movements[id].quantity < 0
    ensures var m := averaged.movements[id];
            && Fifo.ConsumptionSource(m).Ok?
            && var r := Fifo.ConsumeLayers(averaged, id, -m.quantity, Fifo.ConsumptionSource(m).value);
               r.Ok? && Fifo.ApplyFifo(averaged, id).value.book.layers == r.value.book.layers
               && Fifo.ApplyFifo(averaged, id).value.book.movements == averaged.movements
  {
    hide Fifo.ConsumeLayers, Fifo.SummaryAgrees, Fifo.WeightedCost;
  }

  lemma DrawKeepsLayers(averaged: Fifo.Book, after: Fifo.Book, id: nat, source: Fifo.Source, requested: nat, p: Product)
    requires id < |averaged.movements| && p != averaged.movements[id].product
    requires var order := Fifo.Order(averaged, averaged.movements[id], source);
             (forall k :: 0 <= k < |order| ==> order[k] < |averaged.layers|) && DrawnFrom(averaged, after, order, requested)
    ensures LayersKept(averaged, after, p)
  {
    hide Fifo.Order, DrawnFrom;
    var order := Fifo.Order(averaged, averaged.movements[id], source);
    DrawnLength(averaged, after, order, requested);
    forall i: nat | i < |averaged.layers|
      ensures after.layers[i].product == averaged.layers[i].product
              && (averaged.layers[i].product == p ==> after.layers[i] == averaged.layers[i])
    {
      DrawKeepsProducts(averaged, after, id, source, requested, i);
      if averaged.layers[i].product == p {
        DrawnOfProduct(averaged, after, id, source, requested, i);
      }
    }
  }

  lemma WriteOffLayers(averaged: Fifo.Book, id: nat, p: Product)
    requires id < |averaged.movements| == |averaged.figures| && Unbooked(averaged, id) && Fifo.ApplyFifo(averaged, id).Ok?
    requires averaged.movements[id].kind == TransferDiscrepancy && averaged.movements[id].quantity < 0 && p != averaged.movements[id].product
    ensures LayersKept(averaged, Fifo.ApplyFifo(averaged, id).value.book, p)
    ensures Fifo.ApplyFifo(averaged, id).value.book.movements == averaged.movements
  {
    hide *;
    WriteOffBooks(averaged, id);
    var m := averaged.movements[id];
    var source := Fifo.ConsumptionSource(m).value;
    ConsumptionIsGreedy(averaged, id, -m.quantity, source);
    StockedInRange(averaged, Fifo.Order(averaged, m, source));
    var r := Fifo.ConsumeLayers(averaged, id, -m.quantity, source).value.book;
    DrawKeepsLayers(averaged, r, id, source, -m.quantity, p);
    SameKept(averaged, r, Fifo.ApplyFifo(averaged, id).value.book, p);
  }

  lemma StockedInRange(book: Fifo.Book, order: seq<nat>)
    requires Stocked(book, order)
    ensures forall k :: 0 <= k < |order| ==> order[k] < |book.layers|
  {
  }

  lemma SameKept(book: Fifo.Book, drawn: Fifo.Book, after: Fifo.Book, p: Product)
    requires LayersKept(book, drawn, p) && after.layers == drawn.layers
    ensures LayersKept(book, after, p)
  {
  }

  /** A receipt or a write-off leaves what the layers of other products can give. */
  lemma LayersOfOthers(book: Fifo.Book, m: Movement, cost: nat, p: Product)
    requires Invariant(book) && CostsSound(book) && p != m.product
    requires (m.kind == TransferReceipt && m.quantity == 0) || (m.kind == TransferDiscrepancy && m.quantity < 0)
    ensures |book.movements| == |book.figures|
    ensures Fifo.Apply(book, m, cost).Ok? ==> SameDrawable(book, Fifo.Apply(book, m, cost).value, p)
  {
    hide *;
    KitExactness.CoreOf(book);
    if Fifo.Apply(book, m, cost).Ok? {
      var after := Fifo.Apply(book, m, cost).value;
      if m.quantity == 0 {
        IdleIsAccepted(book, m, cost);
        SameIsKept(book, after, p);
      } else {
        KitExactness.ApplyIs(book, m, cost);
        var averaged := Fifo.Average(book, m, cost).value;
        KitExactness.AdjustmentAverages(book, m, cost, p);
        NotBookedYet(book, averaged, m);
        assert averaged.movements[|book.movements|] == m;
        WriteOffLayers(averaged, |book.movements|, p);
        KeptFrom(book, averaged, after, p);
      }
      DrawableOfOthers(book, after, m, p);
    }
  }

  lemma SameIsKept(book: Fifo.Book, after: Fifo.Book, p: Product)
    requires after.layers == book.layers
    ensures LayersKept(book, after, p)
  {
  }

  lemma KeptFrom(book: Fifo.Book, averaged: Fifo.Book, after: Fifo.Book, p: Product)
    requires averaged.layers == book.layers && LayersKept(averaged, after, p)
    ensures LayersKept(book, after, p)
  {
  }

  // ----- A recorded movement -----

  /** Nothing that decides whether a transfer movement of the product is accepted differs. */
  ghost predicate SameFor(before: Ledgers, after: Ledgers, p: Product) {
    SameValue(before.book, after.book, p) && SameLots(before.lots, after.lots, p) && SameUnits(before.serials, after.serials, p)
  }

  lemma LotsUnchanged(lots: LotBook, p: Product)
    ensures SameLots(lots, lots, p)
  {
  }

  lemma UnitsUnchanged(serials: SerialBook, p: Product)
    ensures SameUnits(serials, serials, p)
  {
  }

  lemma RecordKeepsOthers(ledgers: Ledgers, tracking: Tracking, m: Movement, details: Details, p: Product)
    requires LedgersAgree(ledgers, tracking) && Trackable(ledgers, tracking, m, details) && TransferKind(m.kind) && p != m.product
    ensures |ledgers.book.movements| == |ledgers.book.figures|
    ensures var r := Record(ledgers, tracking, m, details);
            r.Ok? ==> SameFor(ledgers, r.value, p)
  {
    AgreementParts(ledgers, tracking);
    hide LedgersAgree, LedgersSound, Record, Invariant, CostsSound, LotCore, SerialCore, ApplyLots, ApplySerials, Fifo.Apply, SameValue, SameLots,
         SameUnits, SameProductSources, NoEntries, NoEvents, LotsGrown;
    RecordIsExact(ledgers, tracking, m, details);
    var log, id := ledgers.book.movements, |ledgers.book.movements|;
    var r := Record(ledgers, tracking, m, details);
    if r.Ok? {
      ValueOfOthers(ledgers.book, m, details.cost, p);
      LotsUnchanged(ledgers.lots, p);
      UnitsUnchanged(ledgers.serials, p);
      if m.product in tracking.lots {
        var cost := r.value.book.figures[id].unitCost;
        ApplyLotsGrows(ledgers.lots, log + [m], id, cost, details.lot);
        LotsOfOthers(ledgers.lots, r.value.lots, log + [m], id, m.quantity, p);
      }
      if m.product in tracking.serials {
        UnitsOfOthers(ledgers.serials, log + [m], id, details.serial, p);
      }
    }
  }
}
