/** The loops that maintain lot balances. `tx` is the transaction's view of the tables: a method
    that fails returns an error and its caller keeps the tables it had. */
module LotProjection {
  import opened Outcomes
  import opened Sums
  import opened Movements
  import opened Selection
  import opened Lots
  import opened LotInvariants
  import opened LotSteps
  import opened LotTheorems

  /** Draws the requested quantity from the lots of `order`, one after the other. */
  method DrawFromLots(book: LotBook, movement: nat, location: Location, order: seq<nat>, mode: SelectionMode,
                      requested: int, source: Option<CostSource>) returns (r: Result<LotBook>)
    ensures r == ConsumeIn(book, movement, location, order, mode, requested, source)
  {
    hide ChangeLot, RowQuantity;
    var tx, remaining, i := book, requested, 0;
    assert order[0..] == order;
    while i < |order| && remaining != 0
      invariant i <= |order|
      invariant ConsumeIn(book, movement, location, order, mode, requested, source)
                == ConsumeIn(tx, movement, location, order[i..], mode, remaining, source)
    {
      assert order[i..][0] == order[i] && order[i..][1..] == order[i + 1..];
      var available := RowQuantity(tx.balances, order[i], location);
      var consumed := if available < remaining then available else remaining;
      if consumed != 0 {
        var changed := ChangeLot(tx, movement, location, order[i], -consumed, mode, source);
        if changed.Err? {
          return Err(changed.error);
        }
        tx, remaining := changed.value, remaining - consumed;
      }
      i := i + 1;
    }
    if remaining != 0 {
      return Err(LotStockShortage);
    }
    return Ok(tx);
  }

  /** Gives back to the lots of the given entries, in turn, until the movement is restored. */
  method RestoreToLots(book: LotBook, movements: seq<Movement>, movement: nat, mode: SelectionMode) returns (r: Result<LotBook>)
    requires movement < |movements|
    ensures r == RestoreAllocations(book, movements, movement, mode)
  {
    hide ChangeLot, ReturnedTo, Source;
    var m := movements[movement];
    var sources := Sources(book, movements, m, |book.entries|);
    if sources == [] {
      return Err(LotSourceNotFound);
    }
    var tx, restored, remaining, i := book, 0, m.quantity, 0;
    assert sources[0..] == sources;
    while i < |sources| && remaining != 0
      invariant i <= |sources| && |book.entries| <= |tx.entries| && restored + remaining == m.quantity
      invariant RestoreIn(book, movements, movement, sources, mode, m.quantity)
                == RestoreIn(tx, movements, movement, sources[i..], mode, remaining)
    {
      assert sources[i..][0] == sources[i] && sources[i..][1..] == sources[i + 1..];
      var e := tx.entries[sources[i]];
      var alreadyRestored := 0;
      if m.kind == SaleReturn {
        alreadyRestored := Total(tx.entries, ReturnedTo(movements, e.movement, e.lot));
      }
      var available := -e.quantity - alreadyRestored;
      var quantity := if available < remaining then available else remaining;
      if quantity > 0 {
        var changed := ChangeLot(tx, movement, m.location, e.lot, quantity, mode, Some(CostSource(e.unitCost, e.currency, true)));
        if changed.Err? {
          return Err(changed.error);
        }
        tx, restored, remaining := changed.value, restored + quantity, remaining - quantity;
      }
      i := i + 1;
    }
    if restored != m.quantity {
      return Err(LotRestoreMismatch);
    }
    return Ok(tx);
  }

  /** One movement of a lot-tracked product. The committed lot book keeps the invariant, moves the
      product's lots at the location by the movement's quantity and touches no other product or
      place; the cost check never rejects it. */
  method ApplyInventoryLotTracking(book: LotBook, movements: seq<Movement>, movement: nat, unitCost: int, options: LotOptions)
    returns (r: Result<LotBook>)
    requires LotCore(book, movements) && movement < |movements| && NoEntries(book, movement)
    requires SameProductSources(book, movements, movements[movement]) && SignFits(movements[movement]) && unitCost >= 0
    ensures r == ApplyLots(book, movements, movement, unitCost, options)
    ensures r.Ok? ==> LotsGrown(book, r.value, movements, movement, movements[movement].quantity)
    ensures r != Err(NegativeLotCost)
  {
    ApplyLotsGrows(book, movements, movement, unitCost, options);
    hide LotCore, LotsGrown, SameProductSources, Receive, RestoreAllocations, ConsumeIn, ChooseLots;
    var m := movements[movement];
    if m.quantity == 0 {
      return Ok(book);
    }
    if m.kind == PurchaseReceipt {
      if m.purchase.None? || m.purchase.value.lot.None? {
        return Err(LotRequired);
      }
      var p := m.purchase.value;
      var received := Receive(book, movement, m, p.lot.value, options.policy, p.unitCost, p.currency, OriginMode);
      if received.Err? {
        return Err(received.error);
      }
      var tx := received.value.book;
      return Ok(tx.(receiptLots := tx.receiptLots[p.receiptLine := received.value.lot]));
    }
    if m.kind == SaleVoid || m.kind == SaleReturn {
      r := RestoreToLots(book, movements, movement, RestoreLotMode);
    } else if m.kind == TransferIn {
      r := RestoreToLots(book, movements, movement, TransferLotMode);
    } else if m.quantity > 0 {
      if options.lotLabel.None? {
        return Err(LotRequired);
      }
      var received := Receive(book, movement, m, options.lotLabel.value, options.policy, unitCost, m.currency, ManualMode);
      if received.Err? {
        return Err(received.error);
      }
      r := Ok(received.value.book);
    } else {
      var preferred, source := options.preferredLot, None;
      if m.kind == SupplierReturn {
        if m.returnOf.None? || m.returnOf.value.receiptLine !in book.receiptLots {
          return Err(LotSourceNotFound);
        }
        var p := m.returnOf.value;
        preferred, source := Some(book.receiptLots[p.receiptLine]), Some(CostSource(p.unitCost, p.currency, false));
      }
      var choice := ChooseLots(book, m, options, preferred, options.allowExpired || m.kind == SupplierReturn);
      if choice.Err? {
        return Err(choice.error);
      }
      r := DrawFromLots(book, movement, m.location, choice.value.order, choice.value.mode, -m.quantity, source);
    }
  }
}
