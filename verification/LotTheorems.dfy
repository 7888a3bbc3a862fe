/** Lots are drawn greedily, first expired first; a dispatch moves lots without changing their
    cost or total; a return succeeds exactly while its sale still has something to give back. */
module LotTheorems {
  import opened Outcomes
  import opened Sums
  import opened Rounding
  import opened Movements
  import opened Selection
  import opened Lots
  import opened LotInvariants
  import opened LotSteps

  // ----- The greedy draw -----

  function HeldHere(book: LotBook, location: Location): nat -> int {
    (lot: nat) => LotHeld(book, lot, location)
  }

  /** The lots after the draw, in closed form: nothing is revalued and nothing else moves. */
  ghost predicate LotsDrawn(book: LotBook, after: LotBook, location: Location, order: seq<nat>, requested: int) {
    && after.lots == book.lots
    && (forall x, y :: x !in order || y != location ==> LotHeld(after, x, y) == LotHeld(book, x, y))
    && (forall k :: 0 <= k < |order| ==>
          LotHeld(after, order[k], location)
          == LotHeld(book, order[k], location) - Taken(order, HeldHere(book, location), requested, k))
  }

  /** Lots the movement has no entry for yet, each listed once. */
  ghost predicate Drawable(book: LotBook, movement: nat, order: seq<nat>) {
    && RowsUnique(book.balances) && NoneNegative(book) && Distinct(order)
    && forall j :: 0 <= j < |order| ==> order[j] < |book.lots| && EntryKeyFree(book, movement, order[j])
  }

  lemma HeldNonNegativeAt(book: LotBook, lot: nat, location: Location)
    requires RowsUnique(book.balances) && NoneNegative(book)
    ensures RowQuantity(book.balances, lot, location) == LotHeld(book, lot, location) >= 0
  {
    RowIsHeld(book.balances, lot, location);
  }

  predicate SourceFits(book: LotBook, source: Option<CostSource>, lot: nat)
    requires lot < |book.lots|
  {
    source.Some? ==> !source.value.revalue && source.value.currency == book.lots[lot].currency
  }

  /** A draw within what the lot holds succeeds and leaves the rest of the order drawable. */
  lemma DrawOne(book: LotBook, movement: nat, location: Location, order: seq<nat>, quantity: int, mode: SelectionMode, source: Option<CostSource>)
    requires Drawable(book, movement, order) && order != [] && 0 < quantity <= LotHeld(book, order[0], location)
    requires SourceFits(book, source, order[0]) && book.lots[order[0]].unitCost >= 0
    ensures var r := ChangeLot(book, movement, location, order[0], -quantity, mode, source);
            && r.Ok? && r.value.lots == book.lots && Drawable(r.value, movement, order[1..])
            && (forall x, y :: LotHeld(r.value, x, y)
                  == LotHeld(book, x, y) - (if x == order[0] && y == location then quantity else 0))
  {
    HeldNonNegativeAt(book, order[0], location);
    var r := ChangeLot(book, movement, location, order[0], -quantity, mode, source);
    assert r.Ok? by { ExistingRow(book.balances, order[0], location); }
    RowsAfterChange(book, movement, location, order[0], -quantity, mode, source);
    ChangeEffect(book, movement, location, order[0], -quantity, mode, source);
  }

  lemma ExistingRow(balances: seq<LotBalance>, lot: nat, location: Location)
    requires RowQuantity(balances, lot, location) > 0
    ensures EnsureRow(balances, lot, location) == balances
    ensures FindRow(balances, lot, location, |balances|).Some?
  {
  }

  lemma LotsDrawnRound(book: LotBook, next: LotBook, after: LotBook, location: Location, order: seq<nat>, requested: int)
    requires requested > 0 && order != [] && Distinct(order)
    requires forall j :: 0 <= j < |order| ==> LotHeld(book, order[j], location) >= 0
    requires var taken := Min(LotHeld(book, order[0], location), requested);
             && next.lots == book.lots
             && (forall x, y :: LotHeld(next, x, y) == LotHeld(book, x, y) - (if x == order[0] && y == location then taken else 0))
             && LotsDrawn(next, after, location, order[1..], requested - taken)
    ensures LotsDrawn(book, after, location, order, requested)
  {
    hide Held;
    var rest := order[1..];
    var amount, left := HeldHere(book, location), HeldHere(next, location);
    HeldNone(order, amount);
    forall k | 0 <= k < |order|
      ensures LotHeld(after, order[k], location) == LotHeld(book, order[k], location) - Taken(order, amount, requested, k)
    {
      if k == 0 {
        assert order[0] !in rest;
      } else {
        assert rest[k - 1] == order[k];
        TakenShift(order, amount, left, requested, k);
      }
    }
    forall x, y | x !in order || y != location ensures LotHeld(after, x, y) == LotHeld(book, x, y) {
      assert x !in order ==> x !in rest && x != order[0];
    }
  }

  ghost predicate Accepted(book: LotBook, order: seq<nat>, source: Option<CostSource>) {
    forall j :: 0 <= j < |order| && order[j] < |book.lots| ==>
      SourceFits(book, source, order[j]) && book.lots[order[j]].unitCost >= 0
  }

  lemma AllHeld(book: LotBook, movement: nat, location: Location, order: seq<nat>)
    requires Drawable(book, movement, order)
    ensures forall j :: 0 <= j < |order| ==> HeldHere(book, location)(order[j]) >= 0
  {
    forall j | 0 <= j < |order| ensures HeldHere(book, location)(order[j]) >= 0 {
      HeldNonNegativeAt(book, order[j], location);
    }
  }

  /** The consumption loop computes the closed form, and runs short exactly when the listed lots
      hold too little. */
  lemma {:induction false} ConsumeIsGreedy(book: LotBook, movement: nat, location: Location, order: seq<nat>,
                                           mode: SelectionMode, requested: int, source: Option<CostSource>)
    requires requested >= 0 && Drawable(book, movement, order) && Accepted(book, order, source)
    ensures var r := ConsumeIn(book, movement, location, order, mode, requested, source);
            && (r.Ok? <==> requested <= Held(order, HeldHere(book, location), |order|))
            && (r.Ok? ==> LotsDrawn(book, r.value, location, order, requested))
            && (r.Err? ==> r == Err(LotStockShortage))
    decreases |order|
  {
    hide Drawable, Accepted;
    var amount := HeldHere(book, location);
    AllHeld(book, movement, location, order);
    if order == [] {
    } else if requested == 0 {
      forall k | 0 <= k < |order| ensures Taken(order, amount, 0, k) == 0 {
        NothingTaken(order, amount, k);
      }
      HeldNonNegative(order, amount, |order|);
    } else {
      ConsumeRound(book, movement, location, order, mode, requested, source);
    }
  }

  lemma DrawableFacts(book: LotBook, movement: nat, location: Location, order: seq<nat>, source: Option<CostSource>)
    requires Drawable(book, movement, order) && Accepted(book, order, source) && order != []
    ensures Drawable(book, movement, order[1..]) && Accepted(book, order[1..], source)
    ensures order[0] < |book.lots| && SourceFits(book, source, order[0]) && book.lots[order[0]].unitCost >= 0
    ensures RowQuantity(book.balances, order[0], location) == LotHeld(book, order[0], location) >= 0
    ensures Distinct(order)
  {
    HeldNonNegativeAt(book, order[0], location);
    assert order[0] in order;
  }

  lemma ConsumeRound(book: LotBook, movement: nat, location: Location, order: seq<nat>,
                     mode: SelectionMode, requested: int, source: Option<CostSource>)
    requires requested > 0 && order != [] && Drawable(book, movement, order) && Accepted(book, order, source)
    ensures var r := ConsumeIn(book, movement, location, order, mode, requested, source);
            && (r.Ok? <==> requested <= Held(order, HeldHere(book, location), |order|))
            && (r.Ok? ==> LotsDrawn(book, r.value, location, order, requested))
            && (r.Err? ==> r == Err(LotStockShortage))
    decreases |order|, 0
  {
    hide Held, LotsDrawn, Drawable, Accepted, ChangeLot, RowQuantity, LotHeld, Distinct, SourceFits;
    DrawableFacts(book, movement, location, order, source);
    AllHeld(book, movement, location, order);
    var rest, amount := order[1..], HeldHere(book, location);
    var consumed := Min(LotHeld(book, order[0], location), requested);
    var next := book;
    if consumed > 0 {
      DrawOne(book, movement, location, order, consumed, mode, source);
      next := ChangeLot(book, movement, location, order[0], -consumed, mode, source).value;
    }
    var r := ConsumeIn(next, movement, location, rest, mode, requested - consumed, source);
    assert r == ConsumeIn(book, movement, location, order, mode, requested, source);
    hide ConsumeIn;
    assert Accepted(next, rest, source) by { AcceptedKept(book, next, rest, source); }
    ConsumeIsGreedy(next, movement, location, rest, mode, requested - consumed, source);
    forall j | 1 <= j < |order| ensures HeldHere(next, location)(order[j]) == amount(order[j]) {
      assert order[j] != order[0] by { DistinctHead(order, j); }
    }
    HeldShift(order, amount, HeldHere(next, location), |order|);
    AllHeld(next, movement, location, rest);
    HeldNonNegative(rest, HeldHere(next, location), |rest|);
    if r.Ok? {
      LotsDrawnRound(book, next, r.value, location, order, requested);
    }
  }

  lemma DistinctHead(order: seq<nat>, j: nat)
    requires Distinct(order) && 1 <= j < |order|
    ensures order[j] != order[0]
  {
  }

  lemma AcceptedKept(book: LotBook, next: LotBook, order: seq<nat>, source: Option<CostSource>)
    requires Accepted(book, order, source) && next.lots == book.lots
    ensures Accepted(next, order, source)
  {
  }

  /** What a movement of the product may draw without naming a lot. */
  function UnexpiredStock(book: LotBook, m: Movement, today: nat): int {
    Sum(|book.lots|, Eligible(EligibleLot(book, m, today), HeldHere(book, m.location)))
  }

  lemma UnexpiredNonNegative(book: LotBook, movements: seq<Movement>, m: Movement, today: nat)
    requires LotCore(book, movements)
    ensures UnexpiredStock(book, m, today) >= 0
  {
    var f := Eligible(EligibleLot(book, m, today), HeldHere(book, m.location));
    forall i: nat | i < |book.lots| ensures f(i) >= 0 {
      HeldNonNegativeAt(book, i, m.location);
    }
    SumNonNegative(|book.lots|, f);
  }

  /** The unexpired lots that hold something here, each once, first expired first. */
  ghost predicate FirstExpiredFirst(book: LotBook, order: seq<nat>, location: Location, today: nat) {
    && InOrder(order, ExpiryRank(book)) && Distinct(order)
    && (forall k :: 0 <= k < |order| ==>
          order[k] < |book.lots| && !Expired(book.lots[order[k]], today) && LotHeld(book, order[k], location) > 0)
  }

  lemma OrderIsFirstExpiredFirst(book: LotBook, movements: seq<Movement>, m: Movement, today: nat)
    requires LotCore(book, movements)
    ensures var order := FirstExpiredOrder(book, m, today);
            && FirstExpiredFirst(book, order, m.location, today)
            && Held(order, HeldHere(book, m.location), |order|) == UnexpiredStock(book, m, today)
  {
    var eligible, rank := EligibleLot(book, m, today), ExpiryRank(book);
    SelectIsExact(|book.lots|, eligible, rank);
    SelectHolds(|book.lots|, eligible, rank, HeldHere(book, m.location));
    var order := FirstExpiredOrder(book, m, today);
    hide InOrder, Distinct, Select, Held;
    forall k | 0 <= k < |order| ensures LotHeld(book, order[k], m.location) > 0 {
      HeldNonNegativeAt(book, order[k], m.location);
    }
  }

  lemma ListedAreDrawable(book: LotBook, movements: seq<Movement>, movement: nat, order: seq<nat>)
    requires LotCore(book, movements) && NoEntries(book, movement)
    requires Distinct(order) && forall k :: 0 <= k < |order| ==> order[k] < |book.lots|
    ensures Drawable(book, movement, order) && Accepted(book, order, None)
  {
  }

  /** A lot is touched only after every earlier one of the order is empty there. */
  ghost predicate DrainedBefore(book: LotBook, after: LotBook, location: Location, order: seq<nat>) {
    forall j, k :: 0 <= j < k < |order| && LotHeld(after, order[k], location) != LotHeld(book, order[k], location) ==>
      LotHeld(after, order[j], location) == 0
  }

  lemma DrawsInOrder(book: LotBook, after: LotBook, location: Location, order: seq<nat>, requested: int)
    requires LotsDrawn(book, after, location, order, requested)
    requires forall j :: 0 <= j < |order| ==> LotHeld(book, order[j], location) >= 0
    ensures DrainedBefore(book, after, location, order)
  {
    hide Held, LotHeld;
    var amount := HeldHere(book, location);
    forall j, k | 0 <= j < k < |order| && LotHeld(after, order[k], location) != LotHeld(book, order[k], location)
      ensures LotHeld(after, order[j], location) == 0
    {
      TakenNonNegative(order, amount, requested, k);
      DrainedPrefix(order, amount, requested, j, k);
    }
  }

  /** An unguided consumption draws on the unexpired lots first expired first, drains a prefix of
      them with at most one drawn in part, and fails exactly when they hold too little. */
  lemma FirstExpiredFirstOut(book: LotBook, movements: seq<Movement>, movement: nat, options: LotOptions)
    requires LotCore(book, movements) && movement < |movements| && NoEntries(book, movement)
    requires movements[movement].quantity < 0 && movements[movement].kind != SupplierReturn
    requires options.preferredLot.None? && options.lotLabel.None?
    ensures var m := movements[movement];
            var order := FirstExpiredOrder(book, m, options.today);
            var r := ConsumeLots(book, movement, m, options);
            && FirstExpiredFirst(book, order, m.location, options.today)
            && (r.Ok? <==> -m.quantity <= UnexpiredStock(book, m, options.today))
            && (r.Err? ==> r == Err(LotStockShortage))
            && (r.Ok? ==> LotsDrawn(book, r.value, m.location, order, -m.quantity) && DrainedBefore(book, r.value, m.location, order))
  {
    hide LotCore, Drawable, Accepted, LotsDrawn, Held, NoEntries, InOrder, Distinct, ConsumeIn, LotHeld, DrainedBefore;
    var m := movements[movement];
    OrderIsFirstExpiredFirst(book, movements, m, options.today);
    var order := FirstExpiredOrder(book, m, options.today);
    ListedAreDrawable(book, movements, movement, order);
    ConsumeIsGreedy(book, movement, m.location, order, AutomaticMode, -m.quantity, None);
    var r := ConsumeLots(book, movement, m, options);
    if r.Ok? {
      DrawsInOrder(book, r.value, m.location, order, -m.quantity);
    }
  }

  /** The request names the product's lot, by itself or by its label. */
  ghost predicate NamesLot(book: LotBook, m: Movement, options: LotOptions, lot: nat) {
    && lot < |book.lots| && book.lots[lot].product == m.product
    && if options.preferredLot.Some? then options.preferredLot.value == lot
       else options.lotLabel.Some? && NormalizeLotCode(options.lotLabel.value.code) == Ok(book.lots[lot].code)
  }

  lemma NamedIsFound(book: LotBook, movements: seq<Movement>, m: Movement, lot: nat)
    requires LotCore(book, movements) && lot < |book.lots| && book.lots[lot].product == m.product
    ensures FindLot(book.lots, m.product, book.lots[lot].code, |book.lots|) == Some(lot)
  {
    var found := FindLot(book.lots, m.product, book.lots[lot].code, |book.lots|);
    assert LotsDistinct(book);
    hide LotCore;
    assert found.Some?;
  }

  lemma NamedChoice(book: LotBook, movements: seq<Movement>, m: Movement, options: LotOptions, lot: nat)
    requires LotCore(book, movements) && NamesLot(book, m, options, lot)
    ensures var r := ChooseLots(book, m, options, options.preferredLot, options.allowExpired);
            if FindRow(book.balances, lot, m.location, |book.balances|).None? then r.Err?
            else if Expired(book.lots[lot], options.today) && !options.allowExpired then r.Err?
            else r == Ok(Choice([lot], ManualMode))
  {
    NamedIsFound(book, movements, m, lot);
    hide LotCore, FindLot, NormalizeLotCode, FirstExpiredOrder;
  }

  lemma NoRowHoldsNothing(book: LotBook, lot: nat, location: Location)
    requires FindRow(book.balances, lot, location, |book.balances|).None?
    ensures LotHeld(book, lot, location) == 0
  {
    TotalZero(book.balances, HeldAt(lot, location));
  }

  /** A consumption that names a lot of the product is accepted exactly when the lot has not expired, or
      expired ones are allowed, and holds enough at the location; it takes it all from that lot. */
  lemma NamedLotIsDrawn(book: LotBook, movements: seq<Movement>, movement: nat, options: LotOptions, lot: nat)
    requires LotCore(book, movements) && movement < |movements| && NoEntries(book, movement)
    requires movements[movement].quantity < 0 && movements[movement].kind != SupplierReturn
    requires NamesLot(book, movements[movement], options, lot)
    ensures var m := movements[movement];
            var r := ConsumeLots(book, movement, m, options);
            && (r.Ok? <==> (!Expired(book.lots[lot], options.today) || options.allowExpired) && -m.quantity <= LotHeld(book, lot, m.location))
            && (r.Ok? ==> r.value.lots == book.lots
                          && forall x, y :: LotHeld(r.value, x, y)
                               == LotHeld(book, x, y) + (if x == lot && y == m.location then m.quantity else 0))
  {
    var m := movements[movement];
    NamedChoice(book, movements, m, options, lot);
    assert lot < |book.lots|;
    hide LotCore, LotHeld, ConsumeIn, NoEntries, NamesLot, ChooseLots, Expired;
    if FindRow(book.balances, lot, m.location, |book.balances|).None? {
      NoRowHoldsNothing(book, lot, m.location);
    } else if ChooseLots(book, m, options, options.preferredLot, options.allowExpired).Ok? {
      ChosenLotIsDrawn(book, movements, movement, options, lot);
    }
  }

  lemma ChosenLotIsDrawn(book: LotBook, movements: seq<Movement>, movement: nat, options: LotOptions, lot: nat)
    requires LotCore(book, movements) && movement < |movements| && NoEntries(book, movement)
    requires movements[movement].quantity < 0 && movements[movement].kind != SupplierReturn
    requires ChooseLots(book, movements[movement], options, options.preferredLot, options.allowExpired) == Ok(Choice([lot], ManualMode))
    ensures var m := movements[movement];
            var r := ConsumeLots(book, movement, m, options);
            && (r.Ok? <==> -m.quantity <= LotHeld(book, lot, m.location))
            && (r.Ok? ==> r.value.lots == book.lots
                          && forall x, y :: LotHeld(r.value, x, y)
                               == LotHeld(book, x, y) + (if x == lot && y == m.location then m.quantity else 0))
  {
    hide LotCore, Drawable, Accepted, LotHeld, ConsumeIn, NoEntries;
    var m := movements[movement];
    var order := [lot];
    ListedAreDrawable(book, movements, movement, order);
    ConsumeIsGreedy(book, movement, m.location, order, ManualMode, -m.quantity, None);
    OneHeld(lot, HeldHere(book, m.location), -m.quantity);
    var r := ConsumeLots(book, movement, m, options);
    assert r == ConsumeIn(book, movement, m.location, order, ManualMode, -m.quantity, None);
    hide ConsumeLots, ChooseLots;
    if r.Ok? {
      forall x, y
        ensures LotHeld(r.value, x, y) == LotHeld(book, x, y) + (if x == lot && y == m.location then m.quantity else 0)
      {
        if x == lot && y == m.location {
          assert LotHeld(r.value, order[0], m.location)
                 == LotHeld(book, order[0], m.location) - Taken(order, HeldHere(book, m.location), -m.quantity, 0);
        }
      }
    }
  }

  lemma OneHeld(lot: nat, amount: nat -> int, requested: int)
    ensures Held([lot], amount, 1) == amount(lot)
    ensures 0 < requested <= amount(lot) ==> Taken([lot], amount, requested, 0) == requested
  {
    assert Held([lot], amount, 1) == Held([lot], amount, 0) + amount([lot][0]);
  }
}
