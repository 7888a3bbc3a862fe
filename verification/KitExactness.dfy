/** Exactly when a kit operation is accepted, and when an assembly can be taken apart again. */
module KitExactness {
  import opened Outcomes
  import opened Sums
  import opened Rounding
  import opened Movements
  import opened Quantity
  import opened Serials
  import Fifo
  import FifoInvariants
  import FifoSteps
  import opened FifoRuns
  import opened FifoValues
  import FifoTheorems
  import FifoTransit
  import opened FifoExactness
  import opened Balances
  import opened Ledgers
  import opened Stock
  import opened Site
  import opened Writers
  import opened WriterAgreement
  import opened KitTheorems
  import opened TransferExactness

  function Booking(context: Context, location: Location, change: Change): Movement {
    Plain(change.product, location, Adjustment, change.change, context.now, context.currency)
  }

  function CatalogueCost(context: Context, product: Product): nat {
    Unguided(context, product, SerialOptions(None, None)).cost
  }

  /** What is taken is available at the place and its value is covered; what is added is priced in the
      currency of the product's layers. */
  ghost predicate ChangeReady(rows: seq<Row>, book: Fifo.Book, context: Context, location: Location, change: Change) {
    && (change.change < 0 ==>
          -change.change <= RowAt(rows, change.product, location).available
          && ValueCovers(book, Booking(context, location, change), CatalogueCost(context, change.product)))
    && (change.change > 0 ==> Fifo.CurrencyAccepted(book, change.product, context.currency))
  }

  lemma ChangeIsExact(stock: Stock, tracking: Tracking, context: Context, location: Location, change: Change)
    requires Agrees(stock, tracking)
    ensures Booked(stock)
    ensures ApplyChange(stock, context, location, change).Ok? <==> ChangeReady(stock.rows, stock.ledgers.book, context, location, change)
    ensures ApplyChange(stock, context, location, change).Ok? ==>
              var after := ApplyChange(stock, context, location, change).value;
              && Fifo.Apply(stock.ledgers.book, Booking(context, location, change), CatalogueCost(context, change.product)) == Ok(after.ledgers.book)
              && after.rows == Put(stock.rows, AvailableChanged(RowAt(stock.rows, change.product, location), change.change))
  {
    assert LedgersAgree(stock.ledgers, tracking) by { StockLedgers(stock, tracking); }
    AgreementParts(stock.ledgers, tracking);
    AvailableIsThere(stock, tracking, change.product, location);
    var m, cost := Booking(context, location, change), CatalogueCost(context, change.product);
    assert Booked(stock) && Invariant(stock.ledgers.book) && CostsSound(stock.ledgers.book);
    hide Agrees, LedgersAgree, LedgersSound, RowAt, Put, Invariant, CostsSound, Fifo.Apply, ValueAfter, AverageCost, Fifo.CurrencyAccepted, DrawableStock, Moved;
    if change.change < 0 {
      ExitIsExact(stock.ledgers.book, m, cost);
    } else if change.change > 0 {
      EntryIsExact(stock.ledgers.book, m, cost);
    } else {
      IdleIsAccepted(stock.ledgers.book, m, cost);
    }
  }

  // ----- Changes of different products do not interfere -----

  /** Nothing the acceptance of a change of the product depends on differs. */
  ghost predicate SameFor(book: Fifo.Book, after: Fifo.Book, product: Product) {
    && (product in after.valuations <==> product in book.valuations)
    && (product in book.valuations ==> after.valuations[product] == book.valuations[product])
    && (forall currency :: Fifo.CurrencyAccepted(after, product, currency) <==> Fifo.CurrencyAccepted(book, product, currency))
  }

  lemma {:induction false} OldestKept(layers: seq<Fifo.Layer>, after: seq<Fifo.Layer>, product: Product, n: nat)
    requires n <= |layers| <= |after|
    requires forall i :: 0 <= i < |layers| ==> after[i].(remaining := layers[i].remaining) == layers[i]
    ensures Fifo.Oldest(after, product, n) == Fifo.Oldest(layers, product, n)
  {
    if n > 0 {
      OldestKept(layers, after, product, n - 1);
      assert after[n - 1].(remaining := layers[n - 1].remaining) == layers[n - 1];
    }
  }

  lemma {:induction false} OldestSkips(after: seq<Fifo.Layer>, product: Product, m: nat, n: nat)
    requires m <= n <= |after| && forall i :: m <= i < n ==> after[i].product != product
    ensures Fifo.Oldest(after, product, n) == Fifo.Oldest(after, product, m)
  {
    if m < n {
      OldestSkips(after, product, m, n - 1);
    }
  }

  lemma CurrencyKept(book: Fifo.Book, after: Fifo.Book, product: Product)
    requires FifoSteps.SameLayers(book, after)
    requires forall i :: |book.layers| <= i < |after.layers| ==> after.layers[i].product != product
    ensures forall currency :: Fifo.CurrencyAccepted(after, product, currency) <==> Fifo.CurrencyAccepted(book, product, currency)
  {
    OldestKept(book.layers, after.layers, product, |book.layers|);
    OldestSkips(after.layers, product, |book.layers|, |after.layers|);
    var oldest := Fifo.Oldest(book.layers, product, |book.layers|);
    if oldest.Some? {
      assert after.layers[oldest.value].(remaining := book.layers[oldest.value].remaining) == book.layers[oldest.value];
    }
  }

  /** What an adjustment does to the layers: nothing, a new one of its product, or a draw. */
  lemma AdjustmentBooks(averaged: Fifo.Book, id: nat)
    requires id < |averaged.movements| == |averaged.figures| && averaged.movements[id].kind == Adjustment
    requires Unbooked(averaged, id) && Fifo.ApplyFifo(averaged, id).Ok?
    ensures var m, after := averaged.movements[id], Fifo.ApplyFifo(averaged, id).value.book;
            && after.valuations == averaged.valuations
            && (m.quantity >= 0 ==> averaged.layers == after.layers || (after.layers != [] && after.layers[..|after.layers| - 1] == averaged.layers
                                                                        && after.layers[|after.layers| - 1].product == m.product))
            && (m.quantity < 0 ==> OrdinaryExit(m))
  {
    hide Fifo.StockOf, Fifo.WeightedCost, Fifo.ConsumeLayers, Fifo.CurrencyAccepted, QuantityValue;
  }

  lemma SameOrMore(averaged: Fifo.Book, after: Fifo.Book, product: Product)
    requires averaged.layers == after.layers || (after.layers != [] && after.layers[..|after.layers| - 1] == averaged.layers
                                                 && after.layers[|after.layers| - 1].product == product)
    ensures FifoSteps.SameLayers(averaged, after)
    ensures forall i :: |averaged.layers| <= i < |after.layers| ==> after.layers[i].product == product
  {
  }

  lemma AdjustmentLayers(averaged: Fifo.Book, id: nat)
    requires id < |averaged.movements| == |averaged.figures| && averaged.movements[id].kind == Adjustment
    requires Fifo.ApplyFifo(averaged, id).Ok?
    requires FifoInvariants.Core(averaged) && Unbooked(averaged, id)
    ensures var after := Fifo.ApplyFifo(averaged, id).value.book;
            && after.valuations == averaged.valuations && FifoSteps.SameLayers(averaged, after)
            && (forall i :: |averaged.layers| <= i < |after.layers| ==> after.layers[i].product == averaged.movements[id].product)
            && (averaged.movements[id].quantity < 0 ==> |after.layers| == |averaged.layers|)
  {
    hide *;
    var m, after := averaged.movements[id], Fifo.ApplyFifo(averaged, id).value.book;
    AdjustmentBooks(averaged, id);
    if m.quantity >= 0 {
      SameOrMore(averaged, after, m.product);
    } else {
      FifoTransit.ExitConsumes(averaged, id);
      ConsumeLayersGrows(averaged, id, Fifo.AnySource);
      var r := Fifo.ConsumeLayers(averaged, id, -m.quantity, Fifo.AnySource).value;
      FifoSteps.GrownShape(averaged, r.book, id, m.location, false, m.quantity, r.value);
      FifoTheorems.ConsumptionIsGreedy(averaged, id, -m.quantity, Fifo.AnySource);
      FifoTheorems.DrawnLength(averaged, r.book, Fifo.Order(averaged, m, Fifo.AnySource), -m.quantity);
      SameOf(averaged, r.book, after);
    }
  }

  lemma SameOf(averaged: Fifo.Book, posted: Fifo.Book, after: Fifo.Book)
    requires FifoSteps.SameLayers(averaged, posted) && after.layers == posted.layers
    ensures FifoSteps.SameLayers(averaged, after)
  {
  }

  lemma AdjustmentAverages(book: Fifo.Book, m: Movement, cost: int, product: Product)
    requires |book.movements| == |book.figures| && product != m.product && Fifo.Average(book, m, cost).Ok?
    ensures var averaged := Fifo.Average(book, m, cost).value;
            && averaged.layers == book.layers && averaged.allocations == book.allocations && averaged.movements == book.movements + [m]
            && |averaged.figures| == |averaged.movements|
            && (product in averaged.valuations <==> product in book.valuations)
            && (product in book.valuations ==> averaged.valuations[product] == book.valuations[product])
  {
    hide QuantityValue, DivideRounded;
  }

  lemma ApplyIs(book: Fifo.Book, m: Movement, cost: int)
    requires |book.movements| == |book.figures| && Fifo.Apply(book, m, cost).Ok?
    ensures Fifo.Average(book, m, cost).Ok? && |Fifo.Average(book, m, cost).value.figures| == |Fifo.Average(book, m, cost).value.movements|
            && |book.movements| < |Fifo.Average(book, m, cost).value.movements|
    ensures var r := Fifo.ApplyFifo(Fifo.Average(book, m, cost).value, |book.movements|);
            r.Ok? && Fifo.Apply(book, m, cost).value == r.value.book
  {
    hide Fifo.ApplyFifo, QuantityValue, DivideRounded;
  }

  lemma SameForMeans(book: Fifo.Book, after: Fifo.Book, product: Product)
    requires (product in after.valuations <==> product in book.valuations)
    requires product in book.valuations ==> after.valuations[product] == book.valuations[product]
    requires forall currency :: Fifo.CurrencyAccepted(after, product, currency) <==> Fifo.CurrencyAccepted(book, product, currency)
    ensures SameFor(book, after, product)
  {
    hide Fifo.CurrencyAccepted;
  }

  lemma CoreOf(book: Fifo.Book)
    requires Invariant(book)
    ensures |book.movements| == |book.figures| && FifoInvariants.Core(book)
  {
    CoreLinks(book);
  }

  /** A committed adjustment of one product leaves the others as they are. */
  lemma OtherProductKept(book: Fifo.Book, m: Movement, cost: int, product: Product)
    requires Invariant(book) && m.kind == Adjustment && product != m.product
    ensures |book.movements| == |book.figures|
    ensures Fifo.Apply(book, m, cost).Ok? ==> SameFor(book, Fifo.Apply(book, m, cost).value, product)
  {
    hide *;
    CoreOf(book);
    if Fifo.Apply(book, m, cost).Ok? {
      ApplyIs(book, m, cost);
      var averaged := Fifo.Average(book, m, cost).value;
      var after := Fifo.ApplyFifo(averaged, |book.movements|).value.book;
      AdjustmentAverages(book, m, cost, product);
      AverageKeepsCore(book, m, cost);
      NotBookedYet(book, averaged, m);
      assert averaged.movements[|book.movements|] == m;
      AdjustmentLayers(averaged, |book.movements|);
      SameStart(book, averaged, after);
      CurrencyKept(book, after, product);
      SameForMeans(book, after, product);
    }
  }

  /** Nor does taking stock out change the currency its own product is held in. */
  lemma ExitKeepsCurrency(book: Fifo.Book, m: Movement, cost: int)
    requires Invariant(book) && m.kind == Adjustment && m.quantity < 0
    ensures |book.movements| == |book.figures|
    ensures Fifo.Apply(book, m, cost).Ok? ==>
              forall currency :: Fifo.CurrencyAccepted(Fifo.Apply(book, m, cost).value, m.product, currency)
                                 <==> Fifo.CurrencyAccepted(book, m.product, currency)
  {
    hide *;
    CoreOf(book);
    if Fifo.Apply(book, m, cost).Ok? {
      ApplyIs(book, m, cost);
      var averaged := Fifo.Average(book, m, cost).value;
      var after := Fifo.ApplyFifo(averaged, |book.movements|).value.book;
      AdjustmentAverages(book, m, cost, m.product + 1);
      AverageKeepsCore(book, m, cost);
      NotBookedYet(book, averaged, m);
      assert averaged.movements[|book.movements|] == m;
      AdjustmentLayers(averaged, |book.movements|);
      SameStart(book, averaged, after);
      CurrencyKept(book, after, m.product);
    }
  }

  lemma SameStart(book: Fifo.Book, averaged: Fifo.Book, after: Fifo.Book)
    requires averaged.layers == book.layers && FifoSteps.SameLayers(averaged, after)
    ensures FifoSteps.SameLayers(book, after)
  {
  }

  lemma ReadyKept(rows: seq<Row>, book: Fifo.Book, next: seq<Row>, after: Fifo.Book, context: Context, location: Location, change: Change)
    requires SameFor(book, after, change.product) && RowAt(next, change.product, location) == RowAt(rows, change.product, location)
    ensures ChangeReady(next, after, context, location, change) <==> ChangeReady(rows, book, context, location, change)
  {
    hide RowAt, Fifo.CurrencyAccepted, QuantityValue;
  }

  ghost predicate ProductsDiffer(changes: seq<Change>) {
    forall i, j :: 0 <= i < j < |changes| ==> changes[i].product != changes[j].product
  }

  lemma SameForTrans(a: Fifo.Book, b: Fifo.Book, c: Fifo.Book, product: Product)
    requires SameFor(a, b, product) && SameFor(b, c, product)
    ensures SameFor(a, c, product)
  {
    hide Fifo.CurrencyAccepted;
  }

  /** The loop over the products succeeds exactly when every change could be made on its own; products
      it does not name are left alone. */
  lemma {:induction false} ChangesAreExact(stock: Stock, tracking: Tracking, context: Context, location: Location, changes: seq<Change>, other: Product)
    requires Agrees(stock, tracking) && Untracked(tracking, changes) && ProductsDiffer(changes)
    ensures Booked(stock)
    ensures var r := ApplyChanges(stock, context, location, changes);
            && (r.Ok? <==> forall i :: 0 <= i < |changes| ==> ChangeReady(stock.rows, stock.ledgers.book, context, location, changes[i]))
            && (r.Ok? && (forall i :: 0 <= i < |changes| ==> changes[i].product != other) ==>
                  SameFor(stock.ledgers.book, r.value.ledgers.book, other))
    decreases |changes|
  {
    hide Agrees, ApplyChange, ChangeReady, RowAt, Put, SameFor, TransitKept;
    StockIsBooked(stock, tracking);
    if changes == [] {
      Unchanged(stock.ledgers.book, other);
    } else {
      ChangeIsExact(stock, tracking, context, location, changes[0]);
      var next := ApplyChange(stock, context, location, changes[0]);
      if next.Ok? {
        ApplyChangeWrites(stock, tracking, context, location, changes[0]);
        assert Agrees(next.value, tracking) by { WroteAgrees(stock, next.value, tracking); }
        var rest := changes[1..];
        ChangesAreExact(next.value, tracking, context, location, rest, other);
        forall i | 0 <= i < |rest|
          ensures ChangeReady(next.value.rows, next.value.ledgers.book, context, location, rest[i])
                  <==> ChangeReady(stock.rows, stock.ledgers.book, context, location, changes[i + 1])
        {
          NextReady(stock, tracking, next.value, context, location, changes[0], rest[i]);
        }
        ReadySplit(stock, next.value, context, location, changes);
        if changes[0].product != other {
          NextSame(stock, tracking, next.value, context, location, changes[0], other);
          var r := ApplyChanges(next.value, context, location, rest);
          if r.Ok? && (forall i :: 0 <= i < |changes| ==> changes[i].product != other) {
            assert forall i :: 0 <= i < |rest| ==> rest[i].product != other;
            SameForTrans(stock.ledgers.book, next.value.ledgers.book, r.value.ledgers.book, other);
          }
        }
      }
    }
  }

  lemma StockIsBooked(stock: Stock, tracking: Tracking)
    requires Agrees(stock, tracking)
    ensures Booked(stock) && Invariant(stock.ledgers.book) && CostsSound(stock.ledgers.book)
  {
    InvariantOf(stock.ledgers, tracking);
  }

  lemma Unchanged(book: Fifo.Book, product: Product)
    ensures SameFor(book, book, product)
  {
  }

  lemma ReadySplit(stock: Stock, next: Stock, context: Context, location: Location, changes: seq<Change>)
    requires changes != [] && ChangeReady(stock.rows, stock.ledgers.book, context, location, changes[0])
    requires forall i :: 0 <= i < |changes| - 1 ==>
               (ChangeReady(next.rows, next.ledgers.book, context, location, changes[1..][i])
                <==> ChangeReady(stock.rows, stock.ledgers.book, context, location, changes[i + 1]))
    ensures (forall i :: 0 <= i < |changes| ==> ChangeReady(stock.rows, stock.ledgers.book, context, location, changes[i]))
            <==> forall i :: 0 <= i < |changes[1..]| ==> ChangeReady(next.rows, next.ledgers.book, context, location, changes[1..][i])
  {
    hide ChangeReady;
    if forall i :: 0 <= i < |changes[1..]| ==> ChangeReady(next.rows, next.ledgers.book, context, location, changes[1..][i]) {
      forall i | 0 <= i < |changes| ensures ChangeReady(stock.rows, stock.ledgers.book, context, location, changes[i]) {
        if i > 0 {
          assert ChangeReady(next.rows, next.ledgers.book, context, location, changes[1..][i - 1]);
        }
      }
    }
  }

  lemma NextSame(stock: Stock, tracking: Tracking, next: Stock, context: Context, location: Location, change: Change, other: Product)
    requires Agrees(stock, tracking) && Booked(stock) && ApplyChange(stock, context, location, change) == Ok(next) && change.product != other
    ensures SameFor(stock.ledgers.book, next.ledgers.book, other)
    ensures forall l :: RowAt(next.rows, other, l) == RowAt(stock.rows, other, l)
  {
    hide Agrees, ApplyChange, SameFor, RowAt, Put, ChangeReady;
    StockIsBooked(stock, tracking);
    ChangeIsExact(stock, tracking, context, location, change);
    OtherProductKept(stock.ledgers.book, Booking(context, location, change), CatalogueCost(context, change.product), other);
    forall l ensures RowAt(next.rows, other, l) == RowAt(stock.rows, other, l) {
      PutIsRead(stock.rows, AvailableChanged(RowAt(stock.rows, change.product, location), change.change), other, l);
    }
  }

  lemma NextReady(stock: Stock, tracking: Tracking, next: Stock, context: Context, location: Location, change: Change, other: Change)
    requires Agrees(stock, tracking) && Booked(stock) && ApplyChange(stock, context, location, change) == Ok(next)
    requires change.product != other.product
    ensures ChangeReady(next.rows, next.ledgers.book, context, location, other)
            <==> ChangeReady(stock.rows, stock.ledgers.book, context, location, other)
  {
    hide Agrees, ApplyChange, SameFor, RowAt, ChangeReady;
    NextSame(stock, tracking, next, context, location, change, other.product);
    ReadyKept(stock.rows, stock.ledgers.book, next.rows, next.ledgers.book, context, location, other);
  }

  // ----- A kit operation -----

  /** As the catalogue stores a kit: components in product order, each once, and not the kit itself. */
  ghost predicate WellFormed(kit: Kit) {
    && kit.components != []
    && (forall i, j :: 0 <= i < j < |kit.components| ==> kit.components[i].product < kit.components[j].product)
    && forall i :: 0 <= i < |kit.components| ==> kit.components[i].product != kit.product
  }

  /** The kit's own change and each component's could be made on its own. */
  ghost predicate KitReady(rows: seq<Row>, book: Fifo.Book, context: Context, location: Location, kit: Kit, units: nat, assemble: bool) {
    && ChangeReady(rows, book, context, location, Change(kit.product, Signed(units, assemble)))
    && forall i :: 0 <= i < |kit.components| ==> ChangeReady(rows, book, context, location, ComponentChange(kit.components[i], units, assemble))
  }

  lemma {:induction false} ComponentChangesList(kit: Kit, units: nat, assemble: bool, n: nat)
    requires n <= |kit.components|
    ensures var r := ComponentChanges(kit, units, assemble, n);
            |r| == |kit.components| - n && forall k :: 0 <= k < |r| ==> r[k] == ComponentChange(kit.components[n + k], units, assemble)
    decreases |kit.components| - n
  {
    hide ComponentChange;
    if n < |kit.components| {
      ComponentChangesList(kit, units, assemble, n + 1);
    }
  }

  /** The list of changes: the components' in order, with the kit's own inserted at some place. */
  lemma {:induction false} KitChangesList(kit: Kit, units: nat, assemble: bool, n: nat) returns (at: nat)
    requires n <= |kit.components|
    ensures var r := KitChanges(kit, units, assemble, n);
            && n <= at <= |kit.components| && |r| == |kit.components| - n + 1
            && r[at - n] == Change(kit.product, Signed(units, assemble))
            && (forall k :: n <= k < at ==> r[k - n] == ComponentChange(kit.components[k], units, assemble))
            && (forall k :: at <= k < |kit.components| ==> r[k - n + 1] == ComponentChange(kit.components[k], units, assemble))
    decreases |kit.components| - n
  {
    hide ComponentChange;
    if n == |kit.components| {
      at := n;
    } else if kit.product < kit.components[n].product {
      at := n;
      ComponentChangesList(kit, units, assemble, n);
      var rest := ComponentChanges(kit, units, assemble, n);
      var r := KitChanges(kit, units, assemble, n);
      forall k | n <= k < |kit.components| ensures r[k - n + 1] == ComponentChange(kit.components[k], units, assemble) {
        assert r[k - n + 1] == rest[k - n];
      }
    } else {
      at := KitChangesList(kit, units, assemble, n + 1);
    }
  }

  lemma ChangeProduct(component: Component, units: nat, assemble: bool)
    ensures ComponentChange(component, units, assemble).product == component.product
    ensures ComponentChange(component, units, assemble).change == Signed(Needed(component, units), !assemble)
  {
  }

  /** The product at a position of the list of changes. */
  function ProductAt(kit: Kit, at: nat, k: nat): Product
    requires at <= |kit.components| && k <= |kit.components|
  {
    if k < at then kit.components[k].product else if k == at then kit.product else kit.components[k - 1].product
  }

  lemma ProductsApart(kit: Kit, at: nat)
    requires WellFormed(kit) && at <= |kit.components|
    ensures forall i, j :: 0 <= i < j <= |kit.components| ==> ProductAt(kit, at, i) != ProductAt(kit, at, j)
  {
  }

  lemma KitChangesDiffer(kit: Kit, units: nat, assemble: bool) returns (at: nat)
    requires WellFormed(kit)
    ensures var r := KitChanges(kit, units, assemble, 0);
            && ProductsDiffer(r) && at < |r| && r[at] == Change(kit.product, Signed(units, assemble))
            && (forall k :: 0 <= k < at ==> k < |kit.components| && r[k] == ComponentChange(kit.components[k], units, assemble))
            && (forall k :: at < k < |r| ==> k - 1 < |kit.components| && r[k] == ComponentChange(kit.components[k - 1], units, assemble))
            && |r| == |kit.components| + 1
  {
    hide ComponentChange, KitChanges, WellFormed, ProductAt;
    at := KitChangesList(kit, units, assemble, 0);
    var r := KitChanges(kit, units, assemble, 0);
    assert r[at] == r[at - 0];
    forall k | 0 <= k < at ensures r[k] == ComponentChange(kit.components[k], units, assemble) {
      assert r[k - 0] == ComponentChange(kit.components[k], units, assemble);
    }
    forall k | at < k < |r| ensures r[k] == ComponentChange(kit.components[k - 1], units, assemble) {
      assert r[k - 1 - 0 + 1] == ComponentChange(kit.components[k - 1], units, assemble);
    }
    ProductsApart(kit, at);
    forall k | 0 <= k < |r| ensures r[k].product == ProductAt(kit, at, k) {
      ChangeAtPlace(kit, units, assemble, at, k, r[k]);
    }
  }

  lemma ChangeAtPlace(kit: Kit, units: nat, assemble: bool, at: nat, k: nat, change: Change)
    requires at <= |kit.components| && k <= |kit.components|
    requires k == at ==> change == Change(kit.product, Signed(units, assemble))
    requires k < at ==> change == ComponentChange(kit.components[k], units, assemble)
    requires k > at ==> change == ComponentChange(kit.components[k - 1], units, assemble)
    ensures change.product == ProductAt(kit, at, k)
  {
  }

  lemma ReadyListed(rows: seq<Row>, book: Fifo.Book, context: Context, location: Location, kit: Kit, units: nat, assemble: bool)
    requires WellFormed(kit)
    ensures KitReady(rows, book, context, location, kit, units, assemble)
            <==> var r := KitChanges(kit, units, assemble, 0);
                 forall i :: 0 <= i < |r| ==> ChangeReady(rows, book, context, location, r[i])
  {
    var at := KitChangesDiffer(kit, units, assemble);
    var r := KitChanges(kit, units, assemble, 0);
    hide ComponentChange, KitChanges, ChangeReady, ProductsDiffer, WellFormed;
    if forall i :: 0 <= i < |r| ==> ChangeReady(rows, book, context, location, r[i]) {
      forall k | 0 <= k < |kit.components| ensures ChangeReady(rows, book, context, location, ComponentChange(kit.components[k], units, assemble)) {
        assert ChangeReady(rows, book, context, location, r[if k < at then k else k + 1]);
      }
    }
  }

  /** A first request for a kit in force, at a location of its warehouse. */
  ghost predicate Requested(operations: seq<KitOperation>, kits: map<Product, Kit>, context: Context, request: KitRequest, units: nat) {
    && FindOperation(operations, request.key, |operations|).None? && KitUnits(kits, context, request) == Ok(units)
    && request.location in context.locations && context.locations[request.location].warehouse == request.warehouse
    && request.product in kits && WellFormed(kits[request.product])
  }

  lemma RequestApplies(stock: Stock, operations: seq<KitOperation>, kits: map<Product, Kit>, context: Context, request: KitRequest, units: nat)
    requires Booked(stock) && Requested(operations, kits, context, request, units)
    ensures units > 0
    ensures var applied := ApplyChanges(stock, context, request.location, KitChanges(kits[request.product], units, request.assemble, 0));
            var r := OperateKit(stock, operations, kits, context, request);
            && (r.Ok? <==> applied.Ok?) && (r.Ok? ==> r.value.stock == applied.value && r.value.operations != operations)
  {
    hide ApplyChanges, KitChanges, QuantityToUnits, QuantityFromUnits, RoundUnits, WellFormed;
    assert WellFormed(kits[request.product]) && kits[request.product].components != [] by { HasComponents(kits[request.product]); }
  }

  lemma HasComponents(kit: Kit)
    requires WellFormed(kit)
    ensures kit.components != []
  {
  }

  /** A kit operation is accepted exactly when the kit's change and each component's could be made on
      their own: enough available and its value covered on one side, the right currency on the other. */
  lemma OperationIsExact(stock: Stock, operations: seq<KitOperation>, kits: map<Product, Kit>, tracking: Tracking, context: Context,
                         request: KitRequest, units: nat)
    requires Agrees(stock, tracking) && KitsSound(kits, tracking) && Requested(operations, kits, context, request, units)
    ensures Booked(stock)
    ensures OperateKit(stock, operations, kits, context, request).Ok?
            <==> KitReady(stock.rows, stock.ledgers.book, context, request.location, kits[request.product], units, request.assemble)
  {
    var kit := kits[request.product];
    assert WellFormed(kit) && kit.product == request.product;
    hide Agrees, OperateKit, ApplyChanges, KitReady, ChangeReady, SameFor, Requested, WellFormed;
    StockIsBooked(stock, tracking);
    ChangesUntracked(kit, units, request.assemble, 0, tracking);
    var at := KitChangesDiffer(kit, units, request.assemble);
    RequestApplies(stock, operations, kits, context, request, units);
    ReadyListed(stock.rows, stock.ledgers.book, context, request.location, kit, units, request.assemble);
    ChangesAreExact(stock, tracking, context, request.location, KitChanges(kit, units, request.assemble, 0), 0);
  }

  // ----- Taking apart what was assembled -----

  /** A product that came in at its average is worth by so much more, at the same average. */
  ghost predicate CameInAt(before: Fifo.Valuation, after: Fifo.Valuation, units: int) {
    && after.quantity == before.quantity + units && after.average == before.average
    && after.value == if after.quantity == 0 then 0 else before.value + QuantityValue(units, before.average)
  }

  lemma AdjustmentValue(book: Fifo.Book, m: Movement, cost: nat, other: nat)
    requires |book.movements| == |book.figures| && m.kind == Adjustment && Fifo.Apply(book, m, cost).Ok?
    ensures CameInAt(Fifo.CurrentValuation(book, m.product, cost), Fifo.CurrentValuation(Fifo.Apply(book, m, cost).value, m.product, other), m.quantity)
    ensures m.product in Fifo.Apply(book, m, cost).value.valuations
  {
    hide QuantityValue, DivideRounded, Fifo.BookLayers, Fifo.StockOf, Fifo.WeightedCost;
  }

  lemma SameValuation(book: Fifo.Book, after: Fifo.Book, product: Product, cost: nat)
    requires SameFor(book, after, product)
    ensures Fifo.CurrentValuation(after, product, cost) == Fifo.CurrentValuation(book, product, cost)
    ensures product in after.valuations <==> product in book.valuations
  {
    hide Fifo.CurrencyAccepted;
  }

  /** After the loop a changed product is valued as its own change left it. */
  lemma {:induction false} ChangeValued(stock: Stock, tracking: Tracking, context: Context, location: Location, changes: seq<Change>, k: nat, other: nat)
    requires Agrees(stock, tracking) && Untracked(tracking, changes) && ProductsDiffer(changes) && k < |changes|
    ensures Booked(stock)
    ensures var r := ApplyChanges(stock, context, location, changes);
            var p := changes[k].product;
            r.Ok? ==> CameInAt(Fifo.CurrentValuation(stock.ledgers.book, p, CatalogueCost(context, p)),
                               Fifo.CurrentValuation(r.value.ledgers.book, p, other), changes[k].change)
    decreases |changes|
  {
    hide Agrees, ApplyChange, ChangeReady, RowAt, Put, SameFor, TransitKept, CameInAt, Fifo.CurrentValuation, Fifo.Apply;
    StockIsBooked(stock, tracking);
    ChangeIsExact(stock, tracking, context, location, changes[0]);
    var next := ApplyChange(stock, context, location, changes[0]);
    var p, rest := changes[k].product, changes[1..];
    if next.Ok? && ApplyChanges(next.value, context, location, rest).Ok? {
      ApplyChangeWrites(stock, tracking, context, location, changes[0]);
      assert Agrees(next.value, tracking) by { WroteAgrees(stock, next.value, tracking); }
      if k == 0 {
        var m, cost := Booking(context, location, changes[0]), CatalogueCost(context, p);
        AdjustmentValue(stock.ledgers.book, m, cost, other);
        ChangesAreExact(next.value, tracking, context, location, rest, p);
        assert forall i :: 0 <= i < |rest| ==> rest[i].product != p;
        SameValuation(next.value.ledgers.book, ApplyChanges(next.value, context, location, rest).value.ledgers.book, p, other);
      } else {
        ChangeValued(next.value, tracking, context, location, rest, k - 1, other);
        NextSame(stock, tracking, next.value, context, location, changes[0], p);
        SameValuation(stock.ledgers.book, next.value.ledgers.book, p, CatalogueCost(context, p));
      }
    }
  }

  /** After the loop a product that was taken from is held in the currency it was held in. */
  lemma {:induction false} CurrencyThrough(stock: Stock, tracking: Tracking, context: Context, location: Location, changes: seq<Change>, k: nat)
    requires Agrees(stock, tracking) && Untracked(tracking, changes) && ProductsDiffer(changes) && k < |changes| && changes[k].change < 0
    ensures Booked(stock)
    ensures var r := ApplyChanges(stock, context, location, changes);
            r.Ok? ==> forall currency :: Fifo.CurrencyAccepted(r.value.ledgers.book, changes[k].product, currency)
                                         <==> Fifo.CurrencyAccepted(stock.ledgers.book, changes[k].product, currency)
    decreases |changes|
  {
    hide Agrees, ApplyChange, ChangeReady, RowAt, Put, SameFor, TransitKept, Fifo.CurrencyAccepted, Fifo.Apply;
    StockIsBooked(stock, tracking);
    ChangeIsExact(stock, tracking, context, location, changes[0]);
    var next := ApplyChange(stock, context, location, changes[0]);
    var p, rest := changes[k].product, changes[1..];
    if next.Ok? && ApplyChanges(next.value, context, location, rest).Ok? {
      ApplyChangeWrites(stock, tracking, context, location, changes[0]);
      assert Agrees(next.value, tracking) by { WroteAgrees(stock, next.value, tracking); }
      if k == 0 {
        ExitKeepsCurrency(stock.ledgers.book, Booking(context, location, changes[0]), CatalogueCost(context, p));
        ChangesAreExact(next.value, tracking, context, location, rest, p);
        assert forall i :: 0 <= i < |rest| ==> rest[i].product != p;
        SameCurrency(next.value.ledgers.book, ApplyChanges(next.value, context, location, rest).value.ledgers.book, p);
      } else {
        CurrencyThrough(next.value, tracking, context, location, rest, k - 1);
        NextSame(stock, tracking, next.value, context, location, changes[0], p);
        SameCurrency(stock.ledgers.book, next.value.ledgers.book, p);
      }
    }
  }

  lemma SameCurrency(book: Fifo.Book, after: Fifo.Book, product: Product)
    requires SameFor(book, after, product)
    ensures forall currency :: Fifo.CurrencyAccepted(after, product, currency) <==> Fifo.CurrencyAccepted(book, product, currency)
  {
  }

  /** An assembly leaves the components it takes in the currency they were held in. */
  lemma PricedAsBefore(stock: Stock, kits: map<Product, Kit>, tracking: Tracking, context: Context, location: Location, product: Product,
                       units: nat, later: Context)
    requires Agrees(stock, tracking) && Booked(stock) && KitsSound(kits, tracking) && product in kits && WellFormed(kits[product])
    requires ApplyChanges(stock, context, location, KitChanges(kits[product], units, true, 0)).Ok?
    ensures ComponentsPriced(ApplyChanges(stock, context, location, KitChanges(kits[product], units, true, 0)).value.ledgers.book, later,
                             kits[product], units)
            <==> ComponentsPriced(stock.ledgers.book, later, kits[product], units)
  {
    hide Agrees, ApplyChanges, KitsSound, WellFormed, Fifo.CurrencyAccepted, Needed, KitChanges, ProductsDiffer, ComponentChange;
    var kit := kits[product];
    KitUntracked(kits, tracking, product);
    ChangesUntracked(kit, units, true, 0, tracking);
    var at := KitChangesDiffer(kit, units, true);
    var changes := KitChanges(kit, units, true, 0);
    forall i | 0 <= i < |kit.components| && Needed(kit.components[i], units) > 0
      ensures Fifo.CurrencyAccepted(ApplyChanges(stock, context, location, changes).value.ledgers.book, kit.components[i].product, later.currency)
              <==> Fifo.CurrencyAccepted(stock.ledgers.book, kit.components[i].product, later.currency)
    {
      ChangeProduct(kit.components[i], units, true);
      CurrencyThrough(stock, tracking, context, location, changes, if i < at then i else i + 1);
    }
  }

  /** What came in at the average can go out at the average. */
  lemma GoesBackOut(before: Fifo.Valuation, after: Fifo.Valuation, units: int)
    requires CameInAt(before, after, units) && before.value >= 0 && before.quantity >= 0 && units > 0
    ensures after.quantity - units == 0 || after.value + QuantityValue(-units, after.average) >= 0
  {
    QuantityValueIsOdd(units, before.average);
    hide QuantityValue;
  }

  lemma NoneOfItself(kit: Kit, units: nat)
    requires WellFormed(kit)
    ensures NetChange(kit, units, true, kit.product, 0) == units
  {
    assert kit.components[0..] == kit.components;
    hide Needed;
    TotalZero(kit.components, NeededOf(kit.product, units));
  }

  lemma OwnReady(rows: seq<Row>, book: Fifo.Book, before: Fifo.Valuation, context: Context, location: Location, kit: Kit, units: nat)
    requires units > 0 && before.value >= 0 && before.quantity >= 0
    requires RowAt(rows, kit.product, location).available >= units
    requires CameInAt(before, Fifo.CurrentValuation(book, kit.product, CatalogueCost(context, kit.product)), units)
    ensures ChangeReady(rows, book, context, location, Change(kit.product, Signed(units, false)))
  {
    hide RowAt, QuantityValue, Fifo.CurrentValuation, Fifo.CurrencyAccepted;
    GoesBackOut(before, Fifo.CurrentValuation(book, kit.product, CatalogueCost(context, kit.product)), units);
  }

  lemma ComponentReady(rows: seq<Row>, book: Fifo.Book, context: Context, location: Location, component: Component, units: nat)
    ensures ChangeReady(rows, book, context, location, ComponentChange(component, units, false))
            <==> (Needed(component, units) > 0 ==> Fifo.CurrencyAccepted(book, component.product, context.currency))
  {
    ChangeProduct(component, units, false);
    assert Needed(component, units) >= 0;
    hide Needed, ComponentChange, RowAt, Fifo.CurrencyAccepted, ValueCovers;
  }

  /** The components an operation gives back are held in the tenant's currency. */
  ghost predicate ComponentsPriced(book: Fifo.Book, context: Context, kit: Kit, units: nat) {
    forall i :: 0 <= i < |kit.components| && Needed(kit.components[i], units) > 0 ==>
      Fifo.CurrencyAccepted(book, kit.components[i].product, context.currency)
  }

  /** Right after an assembly, taking the same units apart is accepted exactly when the components it
      gives back were held in the tenant's currency before; nothing else can stop it. */
  lemma DisassemblyIsAccepted(stock: Stock, operations: seq<KitOperation>, kits: map<Product, Kit>, tracking: Tracking,
                              context: Context, assembly: KitRequest, later: Context, disassembly: KitRequest, units: nat)
    requires Agrees(stock, tracking) && KitsSound(kits, tracking)
    requires Requested(operations, kits, context, assembly, units) && assembly.assemble
    ensures Booked(stock)
    ensures var r := OperateKit(stock, operations, kits, context, assembly);
            r.Ok? ==>
              && Booked(r.value.stock)
              && (Requested(r.value.operations, kits, later, disassembly, units) && !disassembly.assemble
                  && disassembly.product == assembly.product && disassembly.location == assembly.location ==>
                    (OperateKit(r.value.stock, r.value.operations, kits, later, disassembly).Ok?
                     <==> ComponentsPriced(stock.ledgers.book, later, kits[assembly.product], units)))
  {
    hide Agrees, OperateKit, KitUnits, ApplyChanges, SameFor;
    StockIsBooked(stock, tracking);
    var r := OperateKit(stock, operations, kits, context, assembly);
    if r.Ok? && Requested(r.value.operations, kits, later, disassembly, units) && !disassembly.assemble
       && disassembly.product == assembly.product && disassembly.location == assembly.location {
      var kit := kits[assembly.product];
      assert kit.product == assembly.product;
      hide KitsSound, Requested, WellFormed, ChangeReady, CameInAt;
      AssembledReady(stock, operations, kits, tracking, context, assembly, later, units);
      OperateKitWrites(stock, operations, kits, tracking, context, assembly);
      assert Agrees(r.value.stock, tracking) by { WroteAgrees(stock, r.value.stock, tracking); }
      OperationIsExact(r.value.stock, r.value.operations, kits, tracking, later, disassembly, units);
      forall i | 0 <= i < |kit.components|
        ensures ChangeReady(r.value.stock.rows, r.value.stock.ledgers.book, later, assembly.location, ComponentChange(kit.components[i], units, false))
                <==> (Needed(kit.components[i], units) > 0 ==> Fifo.CurrencyAccepted(r.value.stock.ledgers.book, kit.components[i].product, later.currency))
      {
        ComponentReady(r.value.stock.rows, r.value.stock.ledgers.book, later, assembly.location, kit.components[i], units);
      }
      RequestedKit(operations, kits, context, assembly, units);
      RequestApplies(stock, operations, kits, context, assembly, units);
      PricedAsBefore(stock, kits, tracking, context, assembly.location, assembly.product, units, later);
    }
  }

  lemma RequestedKit(operations: seq<KitOperation>, kits: map<Product, Kit>, context: Context, request: KitRequest, units: nat)
    requires Requested(operations, kits, context, request, units)
    ensures request.product in kits && WellFormed(kits[request.product])
  {
  }

  /** The assembled kits are there to be taken apart. */
  lemma AssembledReady(stock: Stock, operations: seq<KitOperation>, kits: map<Product, Kit>, tracking: Tracking,
                       context: Context, assembly: KitRequest, later: Context, units: nat)
    requires Agrees(stock, tracking) && KitsSound(kits, tracking) && Booked(stock)
    requires Requested(operations, kits, context, assembly, units) && assembly.assemble
    requires OperateKit(stock, operations, kits, context, assembly).Ok?
    ensures var after := OperateKit(stock, operations, kits, context, assembly).value.stock;
            ChangeReady(after.rows, after.ledgers.book, later, assembly.location, Change(assembly.product, Signed(units, false)))
  {
    var kit := kits[assembly.product];
    assert WellFormed(kit) && kit.product == assembly.product;
    var after := OperateKit(stock, operations, kits, context, assembly).value.stock;
    hide *;
    StockIsBooked(stock, tracking);
    RequestApplies(stock, operations, kits, context, assembly, units);
    KitUntracked(kits, tracking, assembly.product);
    ChangesUntracked(kit, units, true, 0, tracking);
    var at := KitChangesDiffer(kit, units, true);
    SignedTrue(units);
    ChangeValued(stock, tracking, context, assembly.location, KitChanges(kit, units, true, 0), at, CatalogueCost(later, kit.product));
    ValuedSoundly(stock.ledgers.book, kit.product, assembly.location, CatalogueCost(context, kit.product));
    OperationIsNet(stock, operations, kits, context, assembly);
    RequestedUnits(operations, kits, context, assembly, units);
    NoneOfItself(kit, units);
    AssembledRow(stock, tracking, after.rows, kit, assembly.location, units);
    OwnReady(after.rows, after.ledgers.book, Fifo.CurrentValuation(stock.ledgers.book, kit.product, CatalogueCost(context, kit.product)),
             later, assembly.location, kit, units);
  }

  lemma SignedTrue(units: nat)
    ensures Signed(units, true) == units
  {
  }

  lemma RequestedUnits(operations: seq<KitOperation>, kits: map<Product, Kit>, context: Context, request: KitRequest, units: nat)
    requires Requested(operations, kits, context, request, units)
    ensures KitUnits(kits, context, request) == Ok(units) && request.product in kits
  {
  }

  lemma KitUntracked(kits: map<Product, Kit>, tracking: Tracking, p: Product)
    requires KitsSound(kits, tracking) && p in kits
    ensures kits[p].product == p && p !in tracking.lots && p !in tracking.serials
    ensures forall i :: 0 <= i < |kits[p].components| ==>
              kits[p].components[i].product !in tracking.lots && kits[p].components[i].product !in tracking.serials
  {
  }

  lemma ValuedSoundly(book: Fifo.Book, product: Product, location: Location, cost: nat)
    requires Invariant(book) && CostsSound(book)
    ensures Fifo.CurrentValuation(book, product, cost).value >= 0 && Fifo.CurrentValuation(book, product, cost).quantity >= 0
  {
    QuantityHeld(book, product, location, cost);
    hide Invariant;
  }

  lemma AssembledRow(stock: Stock, tracking: Tracking, after: seq<Row>, kit: Kit, location: Location, units: nat)
    requires Agrees(stock, tracking) && OperationEffect(stock.rows, after, kit, location, units, true)
    requires NetChange(kit, units, true, kit.product, 0) == units
    ensures RowAt(after, kit.product, location).available >= units
  {
    AgreementMeans(stock, tracking, kit.product, location);
    hide Agrees, NetChange, RowAt;
    assert RowAt(after, kit.product, location) == AvailableChanged(RowAt(stock.rows, kit.product, location), NetChange(kit, units, true, kit.product, 0));
  }
}
