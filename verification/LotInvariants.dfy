/** What every committed lot book satisfies, and the proof that one movement keeps it. */
module LotInvariants {
  import opened Outcomes
  import opened Sums
  import opened Rounding
  import opened Movements
  import opened Selection
  import opened Lots

  // ----- The invariant -----

  function EntriesOf(movement: nat): LotEntry -> int {
    (e: LotEntry) => if e.movement == movement then e.quantity else 0
  }

  function DrawnBy(sale: nat, lot: nat): LotEntry -> int {
    (e: LotEntry) => if e.movement == sale && e.lot == lot && e.quantity < 0 then -e.quantity else 0
  }

  ghost predicate RowsUnique(balances: seq<LotBalance>) {
    forall j, k :: 0 <= j < k < |balances| ==>
      balances[j].lot != balances[k].lot || balances[j].location != balances[k].location
  }

  ghost predicate NoneNegative(book: LotBook) {
    forall k :: 0 <= k < |book.balances| ==> book.balances[k].quantity >= 0 && book.balances[k].lot < |book.lots|
  }

  /** Each balance, and each lot over all locations, is the sum of its ledger entries. */
  ghost predicate LedgerAgrees(book: LotBook) {
    && (forall x, y :: LotHeld(book, x, y) == Total(book.entries, EntryAt(x, y)))
    && (forall x :: LotTotal(book, x) == Total(book.entries, EntryOf(x)))
  }

  ghost predicate EntryLinked(book: LotBook, movements: seq<Movement>, e: LotEntry) {
    && e.movement < |movements| && e.lot < |book.lots|
    && book.lots[e.lot].product == movements[e.movement].product
    && book.lots[e.lot].currency == e.currency
    && e.location == movements[e.movement].location
    && SameSign(e.quantity, movements[e.movement].quantity)
    && e.value == QuantityValue(e.quantity, e.unitCost)
  }

  ghost predicate EntriesLinked(book: LotBook, movements: seq<Movement>) {
    forall k :: 0 <= k < |book.entries| ==> EntryLinked(book, movements, book.entries[k])
  }

  ghost predicate EntryKeyUnique(book: LotBook) {
    forall j, k :: 0 <= j < k < |book.entries| ==>
      book.entries[j].movement != book.entries[k].movement || book.entries[j].lot != book.entries[k].lot
  }

  /** Returns never give back more of a lot than their sale took from it. */
  ghost predicate NotOverReturned(book: LotBook, movements: seq<Movement>) {
    forall s, lot :: Total(book.entries, ReturnedTo(movements, s, lot)) <= Total(book.entries, DrawnBy(s, lot))
  }

  /** A product's lots have different codes and one currency. */
  ghost predicate LotsDistinct(book: LotBook) {
    forall j, k :: 0 <= j < k < |book.lots| && book.lots[j].product == book.lots[k].product ==>
      book.lots[j].code != book.lots[k].code && book.lots[j].currency == book.lots[k].currency
  }

  ghost predicate CostsNonNegative(book: LotBook) {
    && (forall i :: 0 <= i < |book.lots| ==> book.lots[i].unitCost >= 0)
    && (forall k :: 0 <= k < |book.entries| ==> book.entries[k].unitCost >= 0)
  }

  ghost predicate LotCore(book: LotBook, movements: seq<Movement>) {
    && RowsUnique(book.balances) && NoneNegative(book) && LedgerAgrees(book)
    && EntriesLinked(book, movements) && EntryKeyUnique(book) && NotOverReturned(book, movements)
    && LotsDistinct(book) && CostsNonNegative(book)
  }

  /** Same lot, possibly revalued. */
  predicate SameLot(a: Lot, b: Lot) {
    b == a.(unitCost := b.unitCost)
  }

  ghost predicate LotsKept(before: seq<Lot>, after: seq<Lot>) {
    |before| <= |after| && forall i :: 0 <= i < |before| ==> SameLot(before[i], after[i])
  }

  // ----- One balance change -----

  /** The written row of a single change and the sums it moves. */
  lemma RowChange(balances: seq<LotBalance>, lot: nat, location: Location, quantity: int, f: LotBalance -> int)
    requires f(LotBalance(lot, location, 0)) == 0
    ensures var rows := EnsureRow(balances, lot, location);
            var i := FindRow(rows, lot, location, |rows|).value;
            var row := LotBalance(lot, location, rows[i].quantity + quantity);
            && rows[i].(quantity := rows[i].quantity + quantity) == row
            && Total(rows[i := row], f) == Total(balances, f) - f(rows[i]) + f(row)
  {
    var rows := EnsureRow(balances, lot, location);
    if rows != balances {
      TotalAppend(balances, LotBalance(lot, location, 0), f);
    }
    var i := FindRow(rows, lot, location, |rows|).value;
    TotalUpdate(rows, i, LotBalance(lot, location, rows[i].quantity + quantity), f);
  }

  /** A successful change moves one lot at one location by the quantity, revalues only that lot
      and writes one ledger entry. */
  lemma ChangeEffect(book: LotBook, movement: nat, location: Location, lot: nat, quantity: int,
                     mode: SelectionMode, source: Option<CostSource>)
    requires ChangeLot(book, movement, location, lot, quantity, mode, source).Ok?
    ensures lot < |book.lots| && EntryKeyFree(book, movement, lot)
    ensures var after := ChangeLot(book, movement, location, lot, quantity, mode, source).value;
            && (forall x, y :: LotHeld(after, x, y)
                  == LotHeld(book, x, y) + (if x == lot && y == location then quantity else 0))
            && (forall p, y :: ProductHeld(after, p, y)
                  == ProductHeld(book, p, y) + (if p == book.lots[lot].product && y == location then quantity else 0))
            && (forall x :: LotTotal(after, x) == LotTotal(book, x) + (if x == lot then quantity else 0))
            && LotsKept(book.lots, after.lots) && |after.lots| == |book.lots|
            && (forall i :: 0 <= i < |book.lots| && i != lot ==> after.lots[i] == book.lots[i])
            && after.receiptLots == book.receiptLots
            && after.entries[..|book.entries|] == book.entries
            && after.entries[|book.entries|].(value := 0)
               == LotEntry(movement, lot, location, quantity,
                           if source.Some? then source.value.unitCost else book.lots[lot].unitCost,
                           book.lots[lot].currency, 0, mode)
            && after.entries[|book.entries|].value
               == QuantityValue(quantity, if source.Some? then source.value.unitCost else book.lots[lot].unitCost)
  {
    var after := ChangeLot(book, movement, location, lot, quantity, mode, source).value;
    hide Revalued, QuantityValue, EntryKeyFree, FindRow, EnsureRow, Total;
    forall x, y
      ensures LotHeld(after, x, y) == LotHeld(book, x, y) + (if x == lot && y == location then quantity else 0)
    {
      RowChange(book.balances, lot, location, quantity, HeldAt(x, y));
    }
    forall x ensures LotTotal(after, x) == LotTotal(book, x) + (if x == lot then quantity else 0) {
      RowChange(book.balances, lot, location, quantity, HeldOf(x));
    }
    forall p, y
      ensures ProductHeld(after, p, y)
              == ProductHeld(book, p, y) + (if p == book.lots[lot].product && y == location then quantity else 0)
    {
      RowChange(book.balances, lot, location, quantity, OfProductAt(book.lots, p, y));
      TotalSame(after.balances, OfProductAt(book.lots, p, y), after.balances, OfProductAt(after.lots, p, y));
    }
  }

  /** The rows after a change stay unique and non-negative. */
  lemma RowsAfterChange(book: LotBook, movement: nat, location: Location, lot: nat, quantity: int,
                        mode: SelectionMode, source: Option<CostSource>)
    requires ChangeLot(book, movement, location, lot, quantity, mode, source).Ok?
    requires RowsUnique(book.balances) && NoneNegative(book)
    ensures var after := ChangeLot(book, movement, location, lot, quantity, mode, source).value;
            RowsUnique(after.balances) && NoneNegative(after)
  {
    hide Revalued, Total, EntryKeyFree;
    var rows := EnsureRow(book.balances, lot, location);
    assert RowsUnique(rows);
    assert forall k :: 0 <= k < |rows| ==> rows[k].quantity >= 0 && rows[k].lot < |book.lots|;
  }

  /** With one row per lot and location, that row is the whole sum. */
  lemma {:induction false} RowIsHeld(balances: seq<LotBalance>, lot: nat, location: Location)
    requires RowsUnique(balances)
    ensures RowQuantity(balances, lot, location) == Total(balances, HeldAt(lot, location))
  {
    match FindRow(balances, lot, location, |balances|)
    case None => TotalZero(balances, HeldAt(lot, location));
    case Some(i) =>
      var zeroed := balances[i := LotBalance(lot, location, 0)];
      TotalUpdate(balances, i, LotBalance(lot, location, 0), HeldAt(lot, location));
      forall k | 0 <= k < |zeroed| ensures HeldAt(lot, location)(zeroed[k]) == 0 {
        if k != i {
          assert balances[k].lot != lot || balances[k].location != location;
        }
      }
      TotalZero(zeroed, HeldAt(lot, location));
  }

  /** What a ledger entry must satisfy for the change that writes it to keep the invariant. */
  ghost predicate ChangeOk(book: LotBook, movements: seq<Movement>, movement: nat, lot: nat, quantity: int)
  {
    && movement < |movements| && lot < |book.lots| && book.lots[lot].product == movements[movement].product
    && SameSign(quantity, movements[movement].quantity)
    && (movements[movement].kind == SaleReturn && movements[movement].sourceSale.Some? ==>
          var s := movements[movement].sourceSale.value;
          s != movement
          && Total(book.entries, ReturnedTo(movements, s, lot)) + quantity <= Total(book.entries, DrawnBy(s, lot)))
  }

  lemma ReturnsAfterChange(book: LotBook, after: LotBook, movements: seq<Movement>, e: LotEntry)
    requires NotOverReturned(book, movements) && after.entries == book.entries + [e]
    requires ChangeOk(book, movements, e.movement, e.lot, e.quantity)
    ensures NotOverReturned(after, movements)
  {
    forall s, lot
      ensures Total(after.entries, ReturnedTo(movements, s, lot)) <= Total(after.entries, DrawnBy(s, lot))
    {
      TotalAppend(book.entries, e, ReturnedTo(movements, s, lot));
      TotalAppend(book.entries, e, DrawnBy(s, lot));
      assert Total(book.entries, ReturnedTo(movements, s, lot)) <= Total(book.entries, DrawnBy(s, lot));
    }
  }

  lemma LinksAfterChange(book: LotBook, after: LotBook, movements: seq<Movement>, e: LotEntry)
    requires EntriesLinked(book, movements) && after.entries == book.entries + [e]
    requires LotsKept(book.lots, after.lots)
    requires EntryLinked(after, movements, e)
    ensures EntriesLinked(after, movements)
  {
    forall k | 0 <= k < |after.entries| ensures EntryLinked(after, movements, after.entries[k]) {
      if k < |book.entries| {
        assert EntryLinked(book, movements, book.entries[k]);
        assert SameLot(book.lots[book.entries[k].lot], after.lots[book.entries[k].lot]);
      }
    }
  }

  /** A weighted average lies between the cost held and the cost coming in. */
  lemma RevaluedBetween(held: int, cost: int, quantity: int, incoming: int)
    requires held >= 0 && quantity > 0
    ensures var r := Revalued(held, cost, quantity, incoming, true);
            Min(cost, incoming) <= r <= (if cost < incoming then incoming else cost)
  {
    var total, numerator := held + quantity, held * cost + quantity * incoming;
    var low := Min(cost, incoming);
    var high := if cost < incoming then incoming else cost;
    assert numerator - low * total == held * (cost - low) + quantity * (incoming - low);
    assert high * total - numerator == held * (high - cost) + quantity * (high - incoming);
    assert held * (cost - low) >= 0 && quantity * (incoming - low) >= 0;
    assert held * (high - cost) >= 0 && quantity * (high - incoming) >= 0;
    NearestBetween(low, numerator, total, high);
  }

  /** Rounding to the nearest integer never leaves an interval with integer ends. */
  lemma NearestBetween(low: int, numerator: int, denominator: int, high: int)
    requires denominator > 0 && low * denominator <= numerator <= high * denominator
    ensures low <= DivideRounded(numerator, denominator) <= high
  {
    var r := DivideRounded(numerator, denominator);
    DivideRoundedIsNearest(numerator, denominator);
    NonzeroMultiple(r - low, denominator);
    NonzeroMultiple(high - r, denominator);
    assert r * denominator - low * denominator == (r - low) * denominator;
    assert high * denominator - r * denominator == (high - r) * denominator;
  }

  lemma HeldOfNonNegative(book: LotBook, lot: nat, location: Location)
    requires NoneNegative(book)
    ensures Total(EnsureRow(book.balances, lot, location), HeldOf(lot)) == LotTotal(book, lot) >= 0
  {
    TotalNonNegative(book.balances, HeldOf(lot));
    TotalAppend(book.balances, LotBalance(lot, location, 0), HeldOf(lot));
  }

  /** A revaluation happens only on the way in. */
  ghost predicate SourceOk(source: Option<CostSource>, quantity: int) {
    source.Some? ==> source.value.unitCost >= 0 && (source.value.revalue ==> quantity > 0)
  }

  /** The cost check never rejects a change. */
  lemma CostsAfterChange(book: LotBook, movement: nat, location: Location, lot: nat, quantity: int,
                         mode: SelectionMode, source: Option<CostSource>)
    requires NoneNegative(book) && CostsNonNegative(book) && SourceOk(source, quantity)
    ensures var r := ChangeLot(book, movement, location, lot, quantity, mode, source);
            && r != Err(NegativeLotCost)
            && (r.Ok? ==> CostsNonNegative(r.value))
  {
    hide FindRow, EnsureRow, EntryKeyFree, QuantityValue;
    HeldOfNonNegative(book, lot, location);
    if lot < |book.lots| && source.Some? && source.value.revalue {
      RevaluedBetween(LotTotal(book, lot), book.lots[lot].unitCost, quantity, source.value.unitCost);
    }
    hide Revalued;
  }

  lemma ChangeKeepsCore(book: LotBook, movements: seq<Movement>, movement: nat, lot: nat, quantity: int,
                        mode: SelectionMode, source: Option<CostSource>)
    requires LotCore(book, movements) && ChangeOk(book, movements, movement, lot, quantity)
    requires SourceOk(source, quantity)
    ensures var r := ChangeLot(book, movement, movements[movement].location, lot, quantity, mode, source);
            (r.Ok? ==> LotCore(r.value, movements)) && r != Err(NegativeLotCost)
  {
    var location := movements[movement].location;
    CostsAfterChange(book, movement, location, lot, quantity, mode, source);
    var r := ChangeLot(book, movement, location, lot, quantity, mode, source);
    if r.Ok? {
      var after := r.value;
      RowsAfterChange(book, movement, location, lot, quantity, mode, source);
      ChangeEffect(book, movement, location, lot, quantity, mode, source);
      var e := after.entries[|book.entries|];
      hide ChangeLot;
      assert after.entries == book.entries + [e];
      ReturnsAfterChange(book, after, movements, e);
      LinksAfterChange(book, after, movements, e);
      assert LedgerAgrees(after) by {
        forall x, y ensures LotHeld(after, x, y) == Total(after.entries, EntryAt(x, y)) {
          TotalAppend(book.entries, e, EntryAt(x, y));
          assert LotHeld(book, x, y) == Total(book.entries, EntryAt(x, y));
        }
        forall x ensures LotTotal(after, x) == Total(after.entries, EntryOf(x)) {
          TotalAppend(book.entries, e, EntryOf(x));
          assert LotTotal(book, x) == Total(book.entries, EntryOf(x));
        }
      }
      assert EntryKeyUnique(after) && LotsDistinct(after) by {
        assert forall i :: 0 <= i < |after.lots| ==> SameLot(book.lots[i], after.lots[i]);
      }
    }
  }
}
