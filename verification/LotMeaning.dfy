/** What lot tracking does to the rows, said of the rows themselves: dates, codes, costs and quantities. */
module LotMeaning {
  import opened Outcomes
  import opened Sums
  import opened Rounding
  import opened Movements
  import opened Selection
  import opened Lots
  import opened LotInvariants
  import opened LotSteps
  import opened LotTheorems

  // ----- Stock that goes out without a named lot -----

  /** A lot of the product that may still be sold on the day. */
  ghost predicate Usable(lot: Lot, product: Product, today: nat) {
    lot.product == product && (lot.expires.None? || today <= lot.expires.value)
  }

  /** The lot expires earlier, or on the same day and was entered earlier; lots without a date come last. */
  ghost predicate GoesFirst(lots: seq<Lot>, x: nat, y: nat)
    requires x < |lots| && y < |lots|
  {
    if lots[x].expires == lots[y].expires then x < y
    else lots[x].expires.Some? && (lots[y].expires.None? || lots[x].expires.value < lots[y].expires.value)
  }

  ghost function UsableHeld(book: LotBook, product: Product, location: Location, today: nat): nat -> int {
    (i: nat) => if i < |book.lots| && Usable(book.lots[i], product, today) then LotHeld(book, i, location) else 0
  }

  /** What may be sold of the product at the place. */
  ghost function UsableStock(book: LotBook, product: Product, location: Location, today: nat): int {
    Sum(|book.lots|, UsableHeld(book, product, location, today))
  }

  lemma UnexpiredIsUsable(book: LotBook, movements: seq<Movement>, m: Movement, today: nat)
    requires LotCore(book, movements)
    ensures UnexpiredStock(book, m, today) == UsableStock(book, m.product, m.location, today)
  {
    var f := Eligible(EligibleLot(book, m, today), HeldHere(book, m.location));
    forall i: nat | i < |book.lots| ensures f(i) == UsableHeld(book, m.product, m.location, today)(i) {
      HeldNonNegativeAt(book, i, m.location);
    }
    SumSame(|book.lots|, f, UsableHeld(book, m.product, m.location, today));
  }

  lemma FirstIsListedFirst(book: LotBook, order: seq<nat>, j: nat, k: nat)
    requires InOrder(order, ExpiryRank(book)) && j < |order| && k < |order| && order[j] < |book.lots| && order[k] < |book.lots|
    requires GoesFirst(book.lots, order[j], order[k])
    ensures j < k
  {
  }

  lemma UsableIsListed(book: LotBook, movements: seq<Movement>, m: Movement, today: nat, x: nat)
    requires LotCore(book, movements) && x < |book.lots|
    ensures x in FirstExpiredOrder(book, m, today)
            <==> Usable(book.lots[x], m.product, today) && LotHeld(book, x, m.location) > 0
  {
    SelectIsExact(|book.lots|, EligibleLot(book, m, today), ExpiryRank(book));
    HeldNonNegativeAt(book, x, m.location);
    hide LotCore, LotHeld, Select, InOrder, Distinct;
  }

  /** A lot that may be sold was touched only when every one that goes before it is empty at the place, and
      no other stock was touched. */
  ghost predicate DrawnByExpiry(book: LotBook, after: LotBook, product: Product, location: Location, today: nat) {
    && after.lots == book.lots
    && (forall x: nat, y | y != location || x >= |book.lots| || !Usable(book.lots[x], product, today) ::
          LotHeld(after, x, y) == LotHeld(book, x, y))
    && (forall x: nat, y: nat | x < |book.lots| && y < |book.lots| && Usable(book.lots[x], product, today) && GoesFirst(book.lots, x, y) ::
          LotHeld(after, y, location) == LotHeld(book, y, location) || LotHeld(after, x, location) == 0)
  }

  /** Stock that goes out without a named lot comes from the lots that may still be sold, the first to
      expire first, and is refused exactly when they hold too little there. */
  lemma FirstToExpireGoesFirst(book: LotBook, movements: seq<Movement>, movement: nat, options: LotOptions)
    requires LotCore(book, movements) && movement < |movements| && NoEntries(book, movement)
    requires movements[movement].quantity < 0 && movements[movement].kind != SupplierReturn
    requires options.preferredLot.None? && options.lotLabel.None?
    ensures var m := movements[movement];
            var r := ConsumeLots(book, movement, m, options);
            && (r.Ok? <==> -m.quantity <= UsableStock(book, m.product, m.location, options.today))
            && (r.Err? ==> r == Err(LotStockShortage))
            && (r.Ok? ==> DrawnByExpiry(book, r.value, m.product, m.location, options.today))
  {
    hide *;
    var m := movements[movement];
    FirstExpiredFirstOut(book, movements, movement, options);
    UnexpiredIsUsable(book, movements, m, options.today);
    var r := ConsumeLots(book, movement, m, options);
    if r.Ok? {
      DrawnLots(book, movements, m, options.today, r.value, -m.quantity);
    }
  }

  lemma DrawnLots(book: LotBook, movements: seq<Movement>, m: Movement, today: nat, after: LotBook, requested: nat)
    requires LotCore(book, movements)
    requires var order := FirstExpiredOrder(book, m, today);
             FirstExpiredFirst(book, order, m.location, today) && LotsDrawn(book, after, m.location, order, requested)
             && DrainedBefore(book, after, m.location, order)
    ensures DrawnByExpiry(book, after, m.product, m.location, today)
  {
    hide LotCore, LotHeld, FirstExpiredOrder, Held, Taken, FirstExpiredFirst, DrainedBefore, Usable, GoesFirst;
    forall x: nat, y | y != m.location || x >= |book.lots| || !Usable(book.lots[x], m.product, today)
      ensures LotHeld(after, x, y) == LotHeld(book, x, y)
    {
      if x < |book.lots| {
        UsableIsListed(book, movements, m, today, x);
      }
    }
    forall x: nat, y: nat | x < |book.lots| && y < |book.lots| && Usable(book.lots[x], m.product, today) && GoesFirst(book.lots, x, y)
      ensures LotHeld(after, y, m.location) == LotHeld(book, y, m.location) || LotHeld(after, x, m.location) == 0
    {
      EarlierIsEmpty(book, movements, m, today, after, requested, x, y);
    }
  }

  lemma EarlierIsEmpty(book: LotBook, movements: seq<Movement>, m: Movement, today: nat, after: LotBook, requested: nat, x: nat, y: nat)
    requires LotCore(book, movements) && x < |book.lots| && y < |book.lots| && Usable(book.lots[x], m.product, today) && GoesFirst(book.lots, x, y)
    requires var order := FirstExpiredOrder(book, m, today);
             FirstExpiredFirst(book, order, m.location, today) && LotsDrawn(book, after, m.location, order, requested)
             && DrainedBefore(book, after, m.location, order)
    ensures LotHeld(after, y, m.location) == LotHeld(book, y, m.location) || LotHeld(after, x, m.location) == 0
  {
    var order := FirstExpiredOrder(book, m, today);
    UsableIsListed(book, movements, m, today, x);
    HeldNonNegativeAt(book, x, m.location);
    hide LotCore, LotHeld, FirstExpiredOrder, Usable, GoesFirst, InOrder;
    if x in order && y in order {
      var j :| 0 <= j < |order| && order[j] == x;
      var k :| 0 <= k < |order| && order[k] == y;
      FirstIsListedFirst(book, order, j, k);
    }
  }

  // ----- Stock that comes in under a lot -----

  /** The label, cost and currency a lot comes in with: those of the receipt line for a purchase, otherwise
      the caller's label and the movement's own cost in the tenant's currency. */
  datatype Incoming = Incoming(lotLabel: LotLabel, unitCost: int, currency: Currency, mode: SelectionMode)

  ghost function IncomingOf(m: Movement, unitCost: int, options: LotOptions): Option<Incoming> {
    if m.kind == PurchaseReceipt then
      if m.purchase.Some? && m.purchase.value.lot.Some?
      then Some(Incoming(m.purchase.value.lot.value, m.purchase.value.unitCost, m.purchase.value.currency, OriginMode)) else None
    else if options.lotLabel.Some? then Some(Incoming(options.lotLabel.value, unitCost, m.currency, ManualMode))
    else None
  }

  ghost predicate Labelled(lot: Lot, product: Product, code: string, lotLabel: LotLabel, currency: Currency) {
    lot.product == product && lot.code == code && lot.manufactured == lotLabel.manufactured && lot.expires == lotLabel.expires
    && lot.currency == currency
  }

  /** The dates suit each other and the product's policy. */
  ghost predicate DatesSuit(lotLabel: LotLabel, policy: ExpirationPolicy) {
    && (lotLabel.manufactured.Some? && lotLabel.expires.Some? ==> lotLabel.manufactured.value <= lotLabel.expires.value)
    && (policy == RequiredDates ==> lotLabel.expires.Some?)
    && (policy == NoDates ==> lotLabel.manufactured.None? && lotLabel.expires.None?)
  }

  /** The product's lots are held in the currency, and a lot with the code has the label's dates. */
  ghost predicate LabelFits(lots: seq<Lot>, product: Product, code: string, lotLabel: LotLabel, currency: Currency) {
    forall i | 0 <= i < |lots| && lots[i].product == product ::
      lots[i].currency == currency && (lots[i].code == code ==> Labelled(lots[i], product, code, lotLabel, currency))
  }

  /** Which labels find or open a lot, and the lot they give. */
  lemma LabelOpens(book: LotBook, movements: seq<Movement>, product: Product, lotLabel: LotLabel, policy: ExpirationPolicy,
                   unitCost: int, currency: Currency)
    requires LotCore(book, movements)
    ensures var r, code := FindOrCreateLot(book, product, lotLabel, policy, unitCost, currency), NormalizeLotCode(lotLabel.code);
            && (r.Ok? <==> code.Ok? && DatesSuit(lotLabel, policy) && LabelFits(book.lots, product, code.value, lotLabel, currency))
            && (r.Ok? ==>
                  && Labelled(r.value.book.lots[r.value.lot], product, code.value, lotLabel, currency)
                  && if r.value.lot < |book.lots| then r.value.book == book
                     else r.value.lot == |book.lots| && r.value.book.lots[r.value.lot].unitCost == unitCost
                          && r.value.book == book.(lots := book.lots + [r.value.book.lots[r.value.lot]]))
  {
    assert LotsDistinct(book);
    hide LotCore, NormalizeLotCode, FirstLot, FindLot;
  }

  /** The rows after stock came in under the lot: its quantity there, its cost the nearest to the weighted
      mean, one ledger entry, and nothing else. */
  ghost predicate CameIn(book: LotBook, after: LotBook, movement: nat, m: Movement, lot: nat, incoming: Incoming) {
    && m.quantity > 0 && |book.lots| <= |after.lots| && lot < |after.lots| <= |book.lots| + 1
    && (forall i :: 0 <= i < |book.lots| && i != lot ==> after.lots[i] == book.lots[i])
    && (lot < |book.lots| ==> |after.lots| == |book.lots| && after.lots[lot].(unitCost := 0) == book.lots[lot].(unitCost := 0))
    && (var held := LotTotal(book, lot);
        held >= 0
        && IsNearest((if lot < |book.lots| then held * book.lots[lot].unitCost else 0) + m.quantity * incoming.unitCost, held + m.quantity,
                     after.lots[lot].unitCost))
    && (forall x, y :: LotHeld(after, x, y) == LotHeld(book, x, y) + (if x == lot && y == m.location then m.quantity else 0))
    && after.entries == book.entries
         + [LotEntry(movement, lot, m.location, m.quantity, incoming.unitCost, incoming.currency, QuantityValue(m.quantity, incoming.unitCost),
                     incoming.mode)]
  }

  lemma TotalsOfNew(book: LotBook, movements: seq<Movement>, lot: nat)
    requires LotCore(book, movements) && lot >= |book.lots|
    ensures LotTotal(book, lot) == 0
  {
    var f := EntryOf(lot);
    assert LotTotal(book, lot) == Total(book.entries, f);
    hide LotTotal;
    forall k | 0 <= k < |book.entries| ensures f(book.entries[k]) == 0 {
      assert EntryLinked(book, movements, book.entries[k]);
    }
    TotalZero(book.entries, f);
  }

  lemma CostIsNearest(held: int, cost: int, quantity: int, incoming: int)
    requires held >= 0 && quantity > 0
    ensures IsNearest(held * cost + quantity * incoming, held + quantity, Revalued(held, cost, quantity, incoming, true))
  {
    DivideRoundedIsNearest(held * cost + quantity * incoming, held + quantity);
  }

  lemma ChangePrices(book: LotBook, movement: nat, m: Movement, lot: nat, incoming: Incoming)
    requires lot < |book.lots| && NoneNegative(book) && m.quantity > 0
    requires ChangeLot(book, movement, m.location, lot, m.quantity, incoming.mode,
                       Some(CostSource(incoming.unitCost, incoming.currency, true))).Ok?
    ensures var after := ChangeLot(book, movement, m.location, lot, m.quantity, incoming.mode,
                                   Some(CostSource(incoming.unitCost, incoming.currency, true))).value;
            && LotTotal(book, lot) >= 0 && |after.lots| == |book.lots|
            && IsNearest(LotTotal(book, lot) * book.lots[lot].unitCost + m.quantity * incoming.unitCost, LotTotal(book, lot) + m.quantity,
                         after.lots[lot].unitCost)
  {
    HeldOfNonNegative(book, lot, m.location);
    CostIsNearest(LotTotal(book, lot), book.lots[lot].unitCost, m.quantity, incoming.unitCost);
    hide LotTotal, FindRow, EnsureRow, QuantityValue, NoneNegative, Revalued, EntryKeyFree, IsNearest;
  }

  lemma ChangeComesIn(book: LotBook, found: LotBook, movements: seq<Movement>, movement: nat, m: Movement, lot: nat, incoming: Incoming)
    requires LotCore(book, movements) && m.quantity > 0
    requires found.balances == book.balances && found.entries == book.entries && lot < |found.lots| && found.lots[lot].currency == incoming.currency
    requires if lot < |book.lots| then found == book
             else lot == |book.lots| && found.lots == book.lots + [found.lots[lot]] && found.lots[lot].unitCost == incoming.unitCost
    requires ChangeLot(found, movement, m.location, lot, m.quantity, incoming.mode,
                       Some(CostSource(incoming.unitCost, incoming.currency, true))).Ok?
    ensures CameIn(book, ChangeLot(found, movement, m.location, lot, m.quantity, incoming.mode,
                                   Some(CostSource(incoming.unitCost, incoming.currency, true))).value, movement, m, lot, incoming)
  {
    var source := Some(CostSource(incoming.unitCost, incoming.currency, true));
    ChangeEffect(found, movement, m.location, lot, m.quantity, incoming.mode, source);
    assert NoneNegative(book);
    if lot >= |book.lots| {
      TotalsOfNew(book, movements, lot);
    }
    assert NoneNegative(found);
    ChangePrices(found, movement, m, lot, incoming);
    SameRowsHold(book, found);
    hide LotCore, LotHeld, LotTotal, ChangeLot, QuantityValue, NoneNegative, IsNearest;
    var after := ChangeLot(found, movement, m.location, lot, m.quantity, incoming.mode, source).value;
    assert after.entries == book.entries + [after.entries[|book.entries|]] by {
      ChangeAppends(found, movement, m, lot, incoming);
    }
  }

  lemma SameRowsHold(book: LotBook, found: LotBook)
    requires found.balances == book.balances
    ensures forall x, y :: LotHeld(found, x, y) == LotHeld(book, x, y)
    ensures forall x :: LotTotal(found, x) == LotTotal(book, x)
  {
  }

  lemma ChangeAppends(book: LotBook, movement: nat, m: Movement, lot: nat, incoming: Incoming)
    requires ChangeLot(book, movement, m.location, lot, m.quantity, incoming.mode,
                       Some(CostSource(incoming.unitCost, incoming.currency, true))).Ok?
    ensures var after := ChangeLot(book, movement, m.location, lot, m.quantity, incoming.mode,
                                   Some(CostSource(incoming.unitCost, incoming.currency, true))).value;
            |after.entries| == |book.entries| + 1 && after.entries == book.entries + [after.entries[|book.entries|]]
  {
    hide Revalued, QuantityValue, EntryKeyFree, FindRow, EnsureRow;
  }

  lemma NothingStops(book: LotBook, found: LotBook, movements: seq<Movement>, movement: nat, m: Movement, lot: nat, incoming: Incoming)
    requires LotCore(book, movements) && NoEntries(book, movement) && m.quantity > 0 && incoming.unitCost >= 0
    requires found.balances == book.balances && found.entries == book.entries && lot < |found.lots| && found.lots[lot].currency == incoming.currency
    requires if lot < |book.lots| then found == book
             else lot == |book.lots| && found.lots == book.lots + [found.lots[lot]] && found.lots[lot].unitCost == incoming.unitCost
    ensures ChangeLot(found, movement, m.location, lot, m.quantity, incoming.mode, Some(CostSource(incoming.unitCost, incoming.currency, true))).Ok?
  {
    var source := Some(CostSource(incoming.unitCost, incoming.currency, true));
    assert NoneNegative(book) && CostsNonNegative(book);
    assert NoneNegative(found) && CostsNonNegative(found);
    CostsAfterChange(found, movement, m.location, lot, m.quantity, incoming.mode, source);
    hide LotCore, CostsNonNegative, Revalued, QuantityValue, LotTotal;
  }

  lemma EntryReceives(book: LotBook, movements: seq<Movement>, movement: nat, unitCost: int, options: LotOptions)
    requires movement < |movements| && NoEntries(book, movement)
    requires var m := movements[movement]; m.quantity > 0 && m.kind != SaleVoid && m.kind != SaleReturn && m.kind != TransferIn
    ensures var m := movements[movement];
            var r, incoming := ApplyLots(book, movements, movement, unitCost, options), IncomingOf(m, unitCost, options);
            && (incoming.None? ==> r == Err(LotRequired))
            && (incoming.Some? ==>
                  var c := incoming.value;
                  var received := Receive(book, movement, m, c.lotLabel, options.policy, c.unitCost, c.currency, c.mode);
                  && (received.Err? ==> r == Err(received.error))
                  && (received.Ok? ==>
                        r == Ok(if m.kind == PurchaseReceipt
                                then received.value.book.(receiptLots := received.value.book.receiptLots[m.purchase.value.receiptLine := received.value.lot])
                                else received.value.book)))
  {
    hide Receive;
  }

  ghost predicate LotAccepts(lots: seq<Lot>, product: Product, incoming: Incoming, policy: ExpirationPolicy) {
    var code := NormalizeLotCode(incoming.lotLabel.code);
    code.Ok? && DatesSuit(incoming.lotLabel, policy) && LabelFits(lots, product, code.value, incoming.lotLabel, incoming.currency)
  }

  /** The lot carries the label's code in its stored form, and its dates and currency. */
  ghost predicate Carries(lots: seq<Lot>, lot: nat, product: Product, incoming: Incoming) {
    var code := NormalizeLotCode(incoming.lotLabel.code);
    lot < |lots| && code.Ok? && Labelled(lots[lot], product, code.value, incoming.lotLabel, incoming.currency)
  }

  lemma ReceiveComesIn(book: LotBook, movements: seq<Movement>, movement: nat, m: Movement, incoming: Incoming, policy: ExpirationPolicy)
    requires LotCore(book, movements) && NoEntries(book, movement) && m.quantity > 0 && incoming.unitCost >= 0
    ensures var r := Receive(book, movement, m, incoming.lotLabel, policy, incoming.unitCost, incoming.currency, incoming.mode);
            && (r.Ok? <==> LotAccepts(book.lots, m.product, incoming, policy))
            && (r.Ok? ==> && CameIn(book, r.value.book, movement, m, r.value.lot, incoming) && Carries(r.value.book.lots, r.value.lot, m.product, incoming)
                          && r.value.book.receiptLots == book.receiptLots)
  {
    var c := incoming;
    LabelOpens(book, movements, m.product, c.lotLabel, policy, c.unitCost, c.currency);
    var found := FindOrCreateLot(book, m.product, c.lotLabel, policy, c.unitCost, c.currency);
    hide LotCore, FindOrCreateLot, ChangeLot, NormalizeLotCode, NoEntries, DatesSuit, LabelFits, CameIn;
    if found.Ok? {
      NothingStops(book, found.value.book, movements, movement, m, found.value.lot, c);
      ChangeComesIn(book, found.value.book, movements, movement, m, found.value.lot, c);
      ChangeKeepsReceipts(found.value.book, movement, m, found.value.lot, c);
      SameLotStays(book, found.value.book, ChangeLot(found.value.book, movement, m.location, found.value.lot, m.quantity, c.mode,
                                                     Some(CostSource(c.unitCost, c.currency, true))).value, movement, m, found.value.lot, c);
    }
  }

  lemma SameLotStays(book: LotBook, found: LotBook, after: LotBook, movement: nat, m: Movement, lot: nat, incoming: Incoming)
    requires lot < |found.lots| && Carries(found.lots, lot, m.product, incoming)
    requires ChangeLot(found, movement, m.location, lot, m.quantity, incoming.mode, Some(CostSource(incoming.unitCost, incoming.currency, true))) == Ok(after)
    ensures Carries(after.lots, lot, m.product, incoming)
  {
    hide Revalued, QuantityValue, EntryKeyFree, FindRow, EnsureRow, NormalizeLotCode;
  }

  /** Stock comes in under a lot exactly when it has a label, a valid code and suitable dates, and agrees in
      currency and dates with what is there under the product and code; it goes on that lot, or opens one. */
  lemma LotComesIn(book: LotBook, movements: seq<Movement>, movement: nat, unitCost: int, options: LotOptions) returns (lot: nat)
    requires LotCore(book, movements) && movement < |movements| && NoEntries(book, movement) && unitCost >= 0
    requires var m := movements[movement]; m.quantity > 0 && m.kind != SaleVoid && m.kind != SaleReturn && m.kind != TransferIn
    ensures var m := movements[movement];
            var r, incoming := ApplyLots(book, movements, movement, unitCost, options), IncomingOf(m, unitCost, options);
            && (r.Ok? <==> incoming.Some? && LotAccepts(book.lots, m.product, incoming.value, options.policy))
            && (r.Ok? ==>
                  && CameIn(book, r.value.(receiptLots := book.receiptLots), movement, m, lot, incoming.value)
                  && Carries(r.value.lots, lot, m.product, incoming.value)
                  && r.value.receiptLots == if m.kind == PurchaseReceipt then book.receiptLots[m.purchase.value.receiptLine := lot]
                                            else book.receiptLots)
  {
    lot := 0;
    var m := movements[movement];
    EntryReceives(book, movements, movement, unitCost, options);
    var incoming := IncomingOf(m, unitCost, options);
    if incoming.Some? {
      var c := incoming.value;
      assert c.unitCost >= 0;
      hide LotCore, Receive, ApplyLots, NoEntries, LotAccepts, Carries, CameIn;
      ReceiveComesIn(book, movements, movement, m, c, options.policy);
      var received := Receive(book, movement, m, c.lotLabel, options.policy, c.unitCost, c.currency, c.mode);
      if received.Ok? {
        lot := received.value.lot;
        var after := ApplyLots(book, movements, movement, unitCost, options).value;
        assert received.value.book.receiptLots == book.receiptLots;
        assert after.(receiptLots := book.receiptLots) == received.value.book;
      }
    }
  }

  lemma ChangeKeepsReceipts(found: LotBook, movement: nat, m: Movement, lot: nat, incoming: Incoming)
    requires ChangeLot(found, movement, m.location, lot, m.quantity, incoming.mode,
                       Some(CostSource(incoming.unitCost, incoming.currency, true))).Ok?
    ensures ChangeLot(found, movement, m.location, lot, m.quantity, incoming.mode,
                      Some(CostSource(incoming.unitCost, incoming.currency, true))).value.receiptLots == found.receiptLots
  {
    hide Revalued, QuantityValue, EntryKeyFree, FindRow, EnsureRow;
  }
}
