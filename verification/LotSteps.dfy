/** One movement, of any kind, changes the lots of its product at its location by exactly its
    quantity and keeps the lot invariant. */
module LotSteps {
  import opened Outcomes
  import opened Sums
  import opened Rounding
  import opened Movements
  import opened Selection
  import opened Lots
  import opened LotInvariants

  /** The lot book grew by the ledger entries of one movement, `quantity` in all. */
  ghost predicate LotsGrown(before: LotBook, after: LotBook, movements: seq<Movement>, movement: nat, quantity: int)
    requires movement < |movements|
  {
    var m := movements[movement];
    && LotCore(after, movements) && LotsKept(before.lots, after.lots)
    && |before.entries| <= |after.entries| && after.entries[..|before.entries|] == before.entries
    && (forall k :: |before.entries| <= k < |after.entries| ==> after.entries[k].movement == movement)
    && (forall k :: Total(after.entries, EntriesOf(k))
          == Total(before.entries, EntriesOf(k)) + (if k == movement then quantity else 0))
    && (forall p, y :: ProductHeld(after, p, y)
          == ProductHeld(before, p, y) + (if p == m.product && y == m.location then quantity else 0))
  }

  lemma GrownFromNothing(book: LotBook, movements: seq<Movement>, movement: nat)
    requires LotCore(book, movements) && movement < |movements|
    ensures LotsGrown(book, book, movements, movement, 0)
  {
  }

  lemma GrownCore(before: LotBook, after: LotBook, movements: seq<Movement>, movement: nat, quantity: int)
    requires movement < |movements| && LotsGrown(before, after, movements, movement, quantity)
    ensures LotCore(after, movements) && LotsKept(before.lots, after.lots)
  {
  }

  /** One more change of a lot of the movement's product. */
  lemma GrowByChange(before: LotBook, book: LotBook, movements: seq<Movement>, movement: nat, so: int, lot: nat, quantity: int,
                     mode: SelectionMode, source: Option<CostSource>)
    requires movement < |movements| && LotsGrown(before, book, movements, movement, so)
    requires ChangeOk(book, movements, movement, lot, quantity) && SourceOk(source, quantity)
    ensures var r := ChangeLot(book, movement, movements[movement].location, lot, quantity, mode, source);
            (r.Ok? ==> LotsGrown(before, r.value, movements, movement, so + quantity)) && r != Err(NegativeLotCost)
  {
    var location := movements[movement].location;
    ChangeKeepsCore(book, movements, movement, lot, quantity, mode, source);
    var r := ChangeLot(book, movement, location, lot, quantity, mode, source);
    if r.Ok? {
      var after := r.value;
      ChangeEffect(book, movement, location, lot, quantity, mode, source);
      hide ChangeLot, LotCore;
      var e := after.entries[|book.entries|];
      assert after.entries == book.entries + [e];
      forall k
        ensures Total(after.entries, EntriesOf(k)) == Total(before.entries, EntriesOf(k)) + (if k == movement then so + quantity else 0)
      {
        TotalAppend(book.entries, e, EntriesOf(k));
        assert Total(book.entries, EntriesOf(k)) == Total(before.entries, EntriesOf(k)) + (if k == movement then so else 0);
      }
      forall k | |before.entries| <= k < |after.entries| ensures after.entries[k].movement == movement {
      }
      assert after.entries[..|before.entries|] == book.entries[..|before.entries|];
    }
  }

  // ----- Consumption -----

  /** Lots of one product, any of which may be drawn for the movement. */
  ghost predicate OfMovementProduct(book: LotBook, order: seq<nat>, product: Product) {
    forall k :: 0 <= k < |order| ==> order[k] < |book.lots| && book.lots[order[k]].product == product
  }

  lemma ProductsKept(before: LotBook, after: LotBook, order: seq<nat>, product: Product)
    requires OfMovementProduct(before, order, product) && LotsKept(before.lots, after.lots)
    ensures OfMovementProduct(after, order, product)
  {
    forall k | 0 <= k < |order| ensures order[k] < |after.lots| && after.lots[order[k]].product == product {
      assert SameLot(before.lots[order[k]], after.lots[order[k]]);
    }
  }

  lemma RowNonNegative(book: LotBook, movements: seq<Movement>, lot: nat, location: Location)
    requires LotCore(book, movements)
    ensures RowQuantity(book.balances, lot, location) >= 0
  {
  }

  lemma {:induction false} ConsumeGrows(before: LotBook, book: LotBook, movements: seq<Movement>, movement: nat, order: seq<nat>,
                                        mode: SelectionMode, so: int, remaining: int, source: Option<CostSource>)
    requires movement < |movements| && LotsGrown(before, book, movements, movement, so)
    requires movements[movement].quantity < 0 && movements[movement].kind != SaleReturn && remaining >= 0
    requires OfMovementProduct(book, order, movements[movement].product)
    requires source.Some? ==> source.value.unitCost >= 0 && !source.value.revalue
    ensures var r := ConsumeIn(book, movement, movements[movement].location, order, mode, remaining, source);
            (r.Ok? ==> LotsGrown(before, r.value, movements, movement, so - remaining)) && r != Err(NegativeLotCost)
    decreases |order|
  {
    hide LotsGrown, LotsKept, LotCore, ChangeLot, RowQuantity, OfMovementProduct;
    var location := movements[movement].location;
    if order != [] && remaining != 0 {
      GrownCore(before, book, movements, movement, so);
      RowNonNegative(book, movements, order[0], location);
      var consumed := Min(RowQuantity(book.balances, order[0], location), remaining);
      OrderHead(book, order, movements[movement].product);
      if consumed == 0 {
        ConsumeGrows(before, book, movements, movement, order[1..], mode, so, remaining, source);
      } else {
        var r := ChangeLot(book, movement, location, order[0], -consumed, mode, source);
        GrowByChange(before, book, movements, movement, so, order[0], -consumed, mode, source);
        if r.Ok? {
          assert OfMovementProduct(r.value, order[1..], movements[movement].product) by {
            ChangeEffect(book, movement, location, order[0], -consumed, mode, source);
            ProductsKept(book, r.value, order[1..], movements[movement].product);
          }
          ConsumeGrows(before, r.value, movements, movement, order[1..], mode, so - consumed, remaining - consumed, source);
        }
      }
    }
  }

  lemma OrderHead(book: LotBook, order: seq<nat>, product: Product)
    requires OfMovementProduct(book, order, product) && order != []
    ensures order[0] < |book.lots| && book.lots[order[0]].product == product
    ensures OfMovementProduct(book, order[1..], product)
  {
  }

  // ----- Restoration -----

  /** The document line of a reversal names one product. */
  ghost predicate SameProductSources(book: LotBook, movements: seq<Movement>, m: Movement) {
    forall k :: 0 <= k < |book.entries| && Source(movements, book.entries[k], m) ==>
      movements[book.entries[k].movement].product == m.product
  }

  ghost predicate Restorable(book: LotBook, movements: seq<Movement>, movement: nat, sources: seq<nat>)
    requires movement < |movements|
  {
    forall k :: 0 <= k < |sources| ==>
      && sources[k] < |book.entries| && book.entries[sources[k]].movement != movement
      && Source(movements, book.entries[sources[k]], movements[movement])
      && book.entries[sources[k]].lot < |book.lots|
      && book.lots[book.entries[sources[k]].lot].product == movements[movement].product
      && book.entries[sources[k]].unitCost >= 0
  }

  lemma RestorableKept(book: LotBook, after: LotBook, movements: seq<Movement>, movement: nat, sources: seq<nat>)
    requires movement < |movements| && Restorable(book, movements, movement, sources)
    requires LotsKept(book.lots, after.lots)
    requires |book.entries| <= |after.entries| && after.entries[..|book.entries|] == book.entries
    ensures Restorable(after, movements, movement, sources)
  {
    forall k | 0 <= k < |sources|
      ensures sources[k] < |after.entries| && after.entries[sources[k]] == book.entries[sources[k]]
      ensures var lot := book.entries[sources[k]].lot;
              lot < |book.lots| && SameLot(book.lots[lot], after.lots[lot])
    {
      assert after.entries[sources[k]] == after.entries[..|book.entries|][sources[k]];
    }
  }

  lemma {:induction false} SourcesDistinct(book: LotBook, movements: seq<Movement>, m: Movement, n: nat)
    requires n <= |book.entries|
    ensures Distinct(Sources(book, movements, m, n))
  {
    if n > 0 {
      SourcesDistinct(book, movements, m, n - 1);
    }
  }

  /** One entry per movement and lot: what a sale drew from a lot is that entry. */
  lemma DrawnIsEntry(book: LotBook, movements: seq<Movement>, k: nat)
    requires LotCore(book, movements) && k < |book.entries|
    ensures Total(book.entries, DrawnBy(book.entries[k].movement, book.entries[k].lot)) >= -book.entries[k].quantity
  {
    var e := book.entries[k];
    TotalTerm(book.entries, DrawnBy(e.movement, e.lot), k);
  }

  lemma RestoreHead(book: LotBook, movements: seq<Movement>, movement: nat, sources: seq<nat>)
    requires movement < |movements| && Restorable(book, movements, movement, sources) && sources != []
    requires LotCore(book, movements)
    ensures sources[0] < |book.entries| && Restorable(book, movements, movement, sources[1..])
    ensures var e, m := book.entries[sources[0]], movements[movement];
            var already := if m.kind == SaleReturn then Total(book.entries, ReturnedTo(movements, e.movement, e.lot)) else 0;
            && e.unitCost >= 0
            && forall q :: 0 < q <= -e.quantity - already && m.quantity > 0 ==> ChangeOk(book, movements, movement, e.lot, q)
  {
    DrawnIsEntry(book, movements, sources[0]);
  }

  lemma {:induction false} RestoreGrows(before: LotBook, book: LotBook, movements: seq<Movement>, movement: nat, sources: seq<nat>,
                                        mode: SelectionMode, so: int, remaining: int)
    requires movement < |movements| && LotsGrown(before, book, movements, movement, so)
    requires movements[movement].quantity > 0 && Restorable(book, movements, movement, sources)
    requires forall k :: 0 <= k < |sources| ==> sources[k] < |book.entries|
    ensures var r := RestoreIn(book, movements, movement, sources, mode, remaining);
            (r.Ok? ==> LotsGrown(before, r.value, movements, movement, so + remaining)) && r != Err(NegativeLotCost)
    decreases |sources|
  {
    hide LotsGrown, LotsKept, LotCore, ChangeLot, Restorable, ChangeOk, Total, ReturnedTo, Source;
    if sources != [] && remaining != 0 {
      var m, e := movements[movement], book.entries[sources[0]];
      GrownCore(before, book, movements, movement, so);
      RestoreHead(book, movements, movement, sources);
      var already := if m.kind == SaleReturn then Total(book.entries, ReturnedTo(movements, e.movement, e.lot)) else 0;
      var quantity := Min(-e.quantity - already, remaining);
      if quantity <= 0 {
        RestoreGrows(before, book, movements, movement, sources[1..], mode, so, remaining);
      } else {
        var source := Some(CostSource(e.unitCost, e.currency, true));
        var r := ChangeLot(book, movement, m.location, e.lot, quantity, mode, source);
        GrowByChange(before, book, movements, movement, so, e.lot, quantity, mode, source);
        if r.Ok? {
          assert Restorable(r.value, movements, movement, sources[1..]) by {
            ChangeEffect(book, movement, m.location, e.lot, quantity, mode, source);
            RestorableKept(book, r.value, movements, movement, sources[1..]);
          }
          RestoreGrows(before, r.value, movements, movement, sources[1..], mode, so + quantity, remaining - quantity);
        }
      }
    }
  }

  // ----- Receipt -----

  /** A new lot holds nothing, so inserting it moves no sum. */
  lemma FoundGrows(book: LotBook, movements: seq<Movement>, movement: nat, lotLabel: LotLabel,
                   policy: ExpirationPolicy, unitCost: int, currency: Currency)
    requires LotCore(book, movements) && movement < |movements| && unitCost >= 0
    ensures var r := FindOrCreateLot(book, movements[movement].product, lotLabel, policy, unitCost, currency);
            r.Ok? ==> LotsGrown(book, r.value.book, movements, movement, 0)
                      && r.value.lot < |r.value.book.lots|
                      && r.value.book.lots[r.value.lot].product == movements[movement].product
                      && r.value.book.entries == book.entries
  {
    var product := movements[movement].product;
    var r := FindOrCreateLot(book, product, lotLabel, policy, unitCost, currency);
    if r.Ok? && r.value.book != book {
      var after := r.value.book;
      assert |after.lots| == |book.lots| + 1 && after.lots[..|book.lots|] == book.lots;
      forall p, y ensures ProductHeld(after, p, y) == ProductHeld(book, p, y) {
        TotalSame(book.balances, OfProductAt(book.lots, p, y), after.balances, OfProductAt(after.lots, p, y));
      }
      hide ProductHeld;
      NewLotKeepsCore(book, after, movements);
    }
  }

  lemma NewLotKeepsCore(book: LotBook, after: LotBook, movements: seq<Movement>)
    requires LotCore(book, movements)
    requires |after.lots| == |book.lots| + 1 && after.lots[..|book.lots|] == book.lots
    requires after.balances == book.balances && after.entries == book.entries
    requires var row := after.lots[|book.lots|];
             && row.unitCost >= 0 && FindLot(book.lots, row.product, row.code, |book.lots|).None?
             && var first := FirstLot(book.lots, row.product, |book.lots|);
                first.Some? ==> book.lots[first.value].currency == row.currency
    ensures LotCore(after, movements)
  {
    hide NotOverReturned, RowsUnique;
    assert NotOverReturned(after, movements) by { SameEntriesReturned(book, after, movements); }
    assert forall k :: 0 <= k < |book.lots| ==> after.lots[k] == after.lots[..|book.lots|][k] == book.lots[k];
    assert LedgerAgrees(after) by { SameLedger(book, after); }
    assert LotsDistinct(after) by {
      hide EntriesLinked, LedgerAgrees, EntryKeyUnique;
      forall j, k | 0 <= j < k < |after.lots| && after.lots[j].product == after.lots[k].product
        ensures after.lots[j].code != after.lots[k].code && after.lots[j].currency == after.lots[k].currency
      {
        if k == |book.lots| {
          var first := FirstLot(book.lots, after.lots[k].product, |book.lots|);
          assert book.lots[j].product == after.lots[k].product;
          assert first.Some?;
          assert book.lots[first.value].currency == book.lots[j].currency;
        }
      }
    }
  }

  lemma SameLedger(book: LotBook, after: LotBook)
    requires LedgerAgrees(book) && after.balances == book.balances && after.entries == book.entries
    ensures LedgerAgrees(after)
  {
    forall x, y ensures LotHeld(after, x, y) == Total(after.entries, EntryAt(x, y)) {
      assert LotHeld(book, x, y) == Total(book.entries, EntryAt(x, y));
    }
    forall x ensures LotTotal(after, x) == Total(after.entries, EntryOf(x)) {
      assert LotTotal(book, x) == Total(book.entries, EntryOf(x));
    }
  }

  lemma SameEntriesReturned(book: LotBook, after: LotBook, movements: seq<Movement>)
    requires NotOverReturned(book, movements) && after.entries == book.entries
    ensures NotOverReturned(after, movements)
  {
    forall s, lot
      ensures Total(after.entries, ReturnedTo(movements, s, lot)) <= Total(after.entries, DrawnBy(s, lot))
    {
      assert Total(book.entries, ReturnedTo(movements, s, lot)) <= Total(book.entries, DrawnBy(s, lot));
    }
  }

  lemma ReceiveGrows(book: LotBook, movements: seq<Movement>, movement: nat, lotLabel: LotLabel,
                     policy: ExpirationPolicy, unitCost: int, currency: Currency, mode: SelectionMode)
    requires LotCore(book, movements) && movement < |movements| && unitCost >= 0
    requires movements[movement].quantity > 0 && movements[movement].kind != SaleReturn
    ensures var m := movements[movement];
            var r := Receive(book, movement, m, lotLabel, policy, unitCost, currency, mode);
            && (r.Ok? ==> LotsGrown(book, r.value.book, movements, movement, m.quantity) && r.value.lot < |r.value.book.lots|)
            && r != Err(NegativeLotCost)
  {
    hide LotsGrown, LotCore, ChangeLot;
    var m := movements[movement];
    FoundGrows(book, movements, movement, lotLabel, policy, unitCost, currency);
    var found := FindOrCreateLot(book, m.product, lotLabel, policy, unitCost, currency);
    if found.Ok? {
      GrowByChange(book, found.value.book, movements, movement, 0, found.value.lot, m.quantity, mode,
                   Some(CostSource(unitCost, currency, true)));
    }
  }

  // ----- One movement -----

  ghost predicate NoEntries(book: LotBook, movement: nat) {
    forall k :: 0 <= k < |book.entries| ==> book.entries[k].movement != movement
  }

  lemma RestoreAllocationsGrows(book: LotBook, movements: seq<Movement>, movement: nat, mode: SelectionMode)
    requires LotCore(book, movements) && movement < |movements| && NoEntries(book, movement)
    requires movements[movement].quantity > 0 && SameProductSources(book, movements, movements[movement])
    ensures var r := RestoreAllocations(book, movements, movement, mode);
            && (r.Ok? ==> LotsGrown(book, r.value, movements, movement, movements[movement].quantity))
            && r != Err(NegativeLotCost)
  {
    GrownFromNothing(book, movements, movement);
    var sources := Sources(book, movements, movements[movement], |book.entries|);
    assert Restorable(book, movements, movement, sources) by {
      forall k | 0 <= k < |sources| ensures EntryLinked(book, movements, book.entries[sources[k]]) { }
    }
    hide LotsGrown, LotCore, Restorable;
    RestoreGrows(book, book, movements, movement, sources, mode, 0, movements[movement].quantity);
  }

  lemma ConsumeLotsGrows(book: LotBook, movements: seq<Movement>, movement: nat, options: LotOptions)
    requires LotCore(book, movements) && movement < |movements|
    requires movements[movement].quantity < 0 && movements[movement].kind != SaleReturn
    ensures var r := ConsumeLots(book, movement, movements[movement], options);
            && (r.Ok? ==> LotsGrown(book, r.value, movements, movement, movements[movement].quantity))
            && r != Err(NegativeLotCost)
  {
    hide LotsGrown, LotCore, ConsumeIn;
    GrownFromNothing(book, movements, movement);
    var m := movements[movement];
    var returned := if m.kind == SupplierReturn then m.returnOf else None;
    if m.kind == SupplierReturn && (returned.None? || returned.value.receiptLine !in book.receiptLots) {
      return;
    }
    var preferred := if returned.Some? then Some(book.receiptLots[returned.value.receiptLine]) else options.preferredLot;
    var source := if returned.Some? then Some(CostSource(returned.value.unitCost, returned.value.currency, false)) else None;
    var choice := ChooseLots(book, m, options, preferred, options.allowExpired || m.kind == SupplierReturn);
    if choice.Ok? {
      assert OfMovementProduct(book, choice.value.order, m.product);
      ConsumeGrows(book, book, movements, movement, choice.value.order, choice.value.mode, 0, -m.quantity, source);
    }
  }

  /** Only returns, voids and arrivals with a positive quantity reach the restoring branches. */
  predicate SignFits(m: Movement) {
    m.kind == SaleVoid || m.kind == SaleReturn || m.kind == TransferIn || m.kind == PurchaseReceipt ==> m.quantity >= 0
  }

  /** Every successful movement of a lot-tracked product changes the lot balances of its product at
      its location by exactly its quantity, none of them going negative, and nothing else; its
      ledger entries add up to it; the cost check never rejects it. */
  lemma ApplyLotsGrows(book: LotBook, movements: seq<Movement>, movement: nat, unitCost: int, options: LotOptions)
    requires LotCore(book, movements) && movement < |movements| && NoEntries(book, movement)
    requires SameProductSources(book, movements, movements[movement]) && SignFits(movements[movement]) && unitCost >= 0
    ensures var r := ApplyLots(book, movements, movement, unitCost, options);
            && (r.Ok? ==> LotsGrown(book, r.value, movements, movement, movements[movement].quantity))
            && r != Err(NegativeLotCost)
  {
    hide LotsGrown, LotCore, SameProductSources, Receive, RestoreAllocations, ConsumeLots;
    var m := movements[movement];
    if m.quantity == 0 {
      GrownFromNothing(book, movements, movement);
    } else if m.kind == PurchaseReceipt {
      if m.purchase.Some? && m.purchase.value.lot.Some? {
        var p := m.purchase.value;
        ReceiveGrows(book, movements, movement, p.lot.value, options.policy, p.unitCost, p.currency, OriginMode);
        var r := Receive(book, movement, m, p.lot.value, options.policy, p.unitCost, p.currency, OriginMode);
        if r.Ok? {
          var after := r.value.book.(receiptLots := r.value.book.receiptLots[p.receiptLine := r.value.lot]);
          ReceiptLotsAreSeparate(book, r.value.book, after, movements, movement, m.quantity);
        }
      }
    } else if m.kind == SaleVoid || m.kind == SaleReturn {
      RestoreAllocationsGrows(book, movements, movement, RestoreLotMode);
    } else if m.kind == TransferIn {
      RestoreAllocationsGrows(book, movements, movement, TransferLotMode);
    } else if m.quantity > 0 {
      if options.lotLabel.Some? {
        ReceiveGrows(book, movements, movement, options.lotLabel.value, options.policy, unitCost, m.currency, ManualMode);
      }
    } else {
      ConsumeLotsGrows(book, movements, movement, options);
    }
  }

  lemma ReceiptLotsAreSeparate(before: LotBook, book: LotBook, after: LotBook, movements: seq<Movement>, movement: nat, quantity: int)
    requires movement < |movements| && LotsGrown(before, book, movements, movement, quantity)
    requires after == book.(receiptLots := after.receiptLots)
    ensures LotsGrown(before, after, movements, movement, quantity)
  {
    SameEntriesReturned(book, after, movements);
    forall p, y ensures ProductHeld(after, p, y) == ProductHeld(book, p, y) { }
    hide NotOverReturned, ProductHeld;
    assert LedgerAgrees(after) by { SameLedger(book, after); }
  }

  /** Inserting a movement row does not disturb the lots. */
  lemma CoreExtends(book: LotBook, movements: seq<Movement>, m: Movement)
    requires LotCore(book, movements)
    ensures LotCore(book, movements + [m])
    ensures NoEntries(book, |movements|)
  {
    assert EntriesLinked(book, movements + [m]) by {
      forall k | 0 <= k < |book.entries| ensures EntryLinked(book, movements + [m], book.entries[k]) {
        assert EntryLinked(book, movements, book.entries[k]);
      }
    }
    forall s, lot
      ensures Total(book.entries, ReturnedTo(movements + [m], s, lot)) <= Total(book.entries, DrawnBy(s, lot))
    {
      TotalSame(book.entries, ReturnedTo(movements, s, lot), book.entries, ReturnedTo(movements + [m], s, lot));
      assert Total(book.entries, ReturnedTo(movements, s, lot)) <= Total(book.entries, DrawnBy(s, lot));
    }
    hide NotOverReturned, EntriesLinked;
    forall k | 0 <= k < |book.entries| ensures book.entries[k].movement < |movements| {
      assert EntryLinked(book, movements, book.entries[k]) by { EntryIsLinked(book, movements, k); }
    }
  }

  lemma EntryIsLinked(book: LotBook, movements: seq<Movement>, k: nat)
    requires EntriesLinked(book, movements) && k < |book.entries|
    ensures EntryLinked(book, movements, book.entries[k])
  {
  }
}
