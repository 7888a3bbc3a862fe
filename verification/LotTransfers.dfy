/** Dispatching a lot-tracked line moves its lots as they are: no lot changes cost or total. */
module LotTransfers {
  import opened Outcomes
  import opened Sums
  import opened Rounding
  import opened Movements
  import opened Selection
  import opened Lots
  import opened LotInvariants
  import opened LotSteps
  import opened LotTheorems

  /** What the ledger entry at a position took, and what it took of one lot. */
  function TakenBy(entries: seq<LotEntry>): nat -> int {
    (i: nat) => if i < |entries| then -entries[i].quantity else 0
  }

  function TakenOf(entries: seq<LotEntry>, lot: nat): nat -> int {
    (i: nat) => if i < |entries| && entries[i].lot == lot then -entries[i].quantity else 0
  }

  // ----- The departure -----

  /** A change without a cost source is priced at the lot's cost and revalues nothing. */
  lemma UnguidedChange(book: LotBook, movement: nat, location: Location, lot: nat, quantity: int, mode: SelectionMode)
    requires ChangeLot(book, movement, location, lot, quantity, mode, None).Ok?
    ensures var after := ChangeLot(book, movement, location, lot, quantity, mode, None).value;
            && lot < |book.lots| && after.lots == book.lots && |after.entries| == |book.entries| + 1
            && after.entries[..|book.entries|] == book.entries
            && after.entries[|book.entries|].lot == lot
            && after.entries[|book.entries|].unitCost == book.lots[lot].unitCost
            && after.entries[|book.entries|].currency == book.lots[lot].currency
  {
    hide FindRow, EnsureRow, EntryKeyFree, QuantityValue;
  }

  /** The entries a consumption writes are priced at the cost of their lots. */
  lemma {:induction false} ConsumePrices(book: LotBook, movement: nat, location: Location, order: seq<nat>,
                                         mode: SelectionMode, remaining: int)
    requires ConsumeIn(book, movement, location, order, mode, remaining, None).Ok?
    ensures var after := ConsumeIn(book, movement, location, order, mode, remaining, None).value;
            && after.lots == book.lots
            && |book.entries| <= |after.entries| && after.entries[..|book.entries|] == book.entries
            && forall k :: |book.entries| <= k < |after.entries| ==>
                 var e := after.entries[k];
                 e.lot < |book.lots| && e.unitCost == book.lots[e.lot].unitCost && e.currency == book.lots[e.lot].currency
    decreases |order|
  {
    hide RowQuantity, ChangeLot;
    if order != [] && remaining != 0 {
      var consumed := Min(RowQuantity(book.balances, order[0], location), remaining);
      if consumed == 0 {
        ConsumePrices(book, movement, location, order[1..], mode, remaining);
      } else {
        var next := ChangeLot(book, movement, location, order[0], -consumed, mode, None).value;
        UnguidedChange(book, movement, location, order[0], -consumed, mode);
        ConsumePrices(next, movement, location, order[1..], mode, remaining - consumed);
      }
    }
  }

  // ----- The arrival -----

  predicate AtPresentCost(book: LotBook, movement: nat, e: LotEntry) {
    && e.quantity < 0 && e.lot < |book.lots| && EntryKeyFree(book, movement, e.lot)
    && e.unitCost == book.lots[e.lot].unitCost >= 0 && e.currency == book.lots[e.lot].currency
  }

  /** The entries of a departure, as its arrival finds them: priced at the lots' present costs. */
  ghost predicate Departed(book: LotBook, movement: nat, sources: seq<nat>) {
    && (forall k :: 0 <= k < |sources| ==> sources[k] < |book.entries| && AtPresentCost(book, movement, book.entries[sources[k]]))
    && (forall j, k :: 0 <= j < k < |sources| && sources[j] < |book.entries| && sources[k] < |book.entries| ==>
          book.entries[sources[j]].lot != book.entries[sources[k]].lot)
  }

  /** The quantities a restoration adds at the destination. */
  ghost predicate Arrived(book: LotBook, after: LotBook, location: Location, sources: seq<nat>) {
    && after.lots == book.lots
    && (forall x, y :: LotHeld(after, x, y)
          == LotHeld(book, x, y) + (if y == location then Held(sources, TakenOf(book.entries, x), |sources|) else 0))
    && (forall x :: LotTotal(after, x) == LotTotal(book, x) + Held(sources, TakenOf(book.entries, x), |sources|))
  }

  lemma SameCostKept(held: int, cost: int, quantity: int)
    ensures Revalued(held, cost, quantity, cost, true) == cost
  {
    if held + quantity > 0 {
      assert held * cost + quantity * cost == cost * (held + quantity);
      DivideExact(cost, held + quantity);
    }
  }

  lemma ArriveOne(book: LotBook, movement: nat, location: Location, sources: seq<nat>, mode: SelectionMode)
    requires RowsUnique(book.balances) && NoneNegative(book) && Departed(book, movement, sources) && sources != []
    ensures sources[0] < |book.entries|
    ensures var e := book.entries[sources[0]];
            var r := ChangeLot(book, movement, location, e.lot, -e.quantity, mode, Some(CostSource(e.unitCost, e.currency, true)));
            && e.quantity < 0 && r.Ok? && r.value.lots == book.lots
            && RowsUnique(r.value.balances) && NoneNegative(r.value) && Departed(r.value, movement, sources[1..])
            && r.value.entries[..|book.entries|] == book.entries
            && (forall x, y :: LotHeld(r.value, x, y) == LotHeld(book, x, y) - (if x == e.lot && y == location then e.quantity else 0))
            && (forall x :: LotTotal(r.value, x) == LotTotal(book, x) - (if x == e.lot then e.quantity else 0))
  {
    var e := book.entries[sources[0]];
    var source := Some(CostSource(e.unitCost, e.currency, true));
    var rows := EnsureRow(book.balances, e.lot, location);
    SameCostKept(Total(rows, HeldOf(e.lot)), e.unitCost, -e.quantity);
    var r := ChangeLot(book, movement, location, e.lot, -e.quantity, mode, source);
    assert r.Ok?;
    hide Revalued;
    RowsAfterChange(book, movement, location, e.lot, -e.quantity, mode, source);
    ChangeEffect(book, movement, location, e.lot, -e.quantity, mode, source);
    assert r.value.lots == book.lots;
    hide ChangeLot, RowsUnique, NoneNegative;
    var rest := sources[1..];
    forall k | 0 <= k < |rest|
      ensures rest[k] < |r.value.entries| && r.value.entries[rest[k]] == book.entries[rest[k]]
              && EntryKeyFree(r.value, movement, book.entries[rest[k]].lot)
    {
      assert rest[k] == sources[k + 1];
      assert r.value.entries[..|book.entries|][rest[k]] == book.entries[rest[k]];
    }
  }

  lemma {:induction false} ArrivalRestoresAll(book: LotBook, movements: seq<Movement>, movement: nat, sources: seq<nat>, mode: SelectionMode)
    requires movement < |movements| && movements[movement].kind == TransferIn
    requires RowsUnique(book.balances) && NoneNegative(book) && Departed(book, movement, sources)
    requires forall k :: 0 <= k < |sources| ==> sources[k] < |book.entries|
    ensures var r := RestoreIn(book, movements, movement, sources, mode, Held(sources, TakenBy(book.entries), |sources|));
            r.Ok? && Arrived(book, r.value, movements[movement].location, sources)
    decreases |sources|
  {
    if sources != [] {
      ArrivalRound(book, movements, movement, sources, mode);
    } else {
      forall x ensures Held([], TakenOf(book.entries, x), 0) == 0 {
        HeldNone([], TakenOf(book.entries, x));
      }
    }
  }

  lemma RestHeld(entries: seq<LotEntry>, next: seq<LotEntry>, sources: seq<nat>)
    requires sources != [] && |entries| <= |next| && next[..|entries|] == entries
    requires forall k :: 0 <= k < |sources| ==> sources[k] < |entries|
    ensures Held(sources, TakenBy(entries), |sources|)
            == TakenBy(entries)(sources[0]) + Held(sources[1..], TakenBy(next), |sources| - 1)
    ensures forall x ::
              Held(sources, TakenOf(entries, x), |sources|)
              == TakenOf(entries, x)(sources[0]) + Held(sources[1..], TakenOf(next, x), |sources| - 1)
  {
    forall j | 1 <= j < |sources| ensures next[sources[j]] == entries[sources[j]] {
      assert next[..|entries|][sources[j]] == entries[sources[j]];
    }
    HeldShift(sources, TakenBy(entries), TakenBy(next), |sources|);
    forall x
      ensures Held(sources, TakenOf(entries, x), |sources|)
              == TakenOf(entries, x)(sources[0]) + Held(sources[1..], TakenOf(next, x), |sources| - 1)
    {
      HeldShift(sources, TakenOf(entries, x), TakenOf(next, x), |sources|);
    }
  }

  lemma TakenPositive(book: LotBook, movement: nat, sources: seq<nat>)
    requires Departed(book, movement, sources)
    ensures Held(sources, TakenBy(book.entries), |sources|) >= 0
  {
    HeldNonNegative(sources, TakenBy(book.entries), |sources|);
  }

  lemma ArrivalRound(book: LotBook, movements: seq<Movement>, movement: nat, sources: seq<nat>, mode: SelectionMode)
    requires movement < |movements| && movements[movement].kind == TransferIn && sources != []
    requires RowsUnique(book.balances) && NoneNegative(book) && Departed(book, movement, sources)
    requires forall k :: 0 <= k < |sources| ==> sources[k] < |book.entries|
    ensures var r := RestoreIn(book, movements, movement, sources, mode, Held(sources, TakenBy(book.entries), |sources|));
            r.Ok? && Arrived(book, r.value, movements[movement].location, sources)
    decreases |sources|, 0
  {
    hide ChangeLot, RowsUnique, NoneNegative, Departed, Held, LotHeld, LotTotal;
    var location, e, rest := movements[movement].location, book.entries[sources[0]], sources[1..];
    ArriveOne(book, movement, location, sources, mode);
    var next := ChangeLot(book, movement, location, e.lot, -e.quantity, mode, Some(CostSource(e.unitCost, e.currency, true))).value;
    RestHeld(book.entries, next.entries, sources);
    TakenPositive(next, movement, rest);
    var left := Held(rest, TakenBy(next.entries), |rest|);
    ArrivalRestoresAll(next, movements, movement, rest, mode);
    assert RestoreIn(book, movements, movement, sources, mode, left - e.quantity)
           == RestoreIn(next, movements, movement, rest, mode, left);
    hide RestoreIn;
  }

  // ----- The pair -----

  /** The entries written by one movement, in order. */
  function EntriesBy(movement: nat, lot: nat): LotEntry -> int {
    (e: LotEntry) => if e.movement == movement && e.lot == lot then e.quantity else 0
  }

  /** When only one departure bears the line, its sources are that departure's entries. */
  lemma {:induction false} SourcesTotal(book: LotBook, movements: seq<Movement>, m: Movement, departure: nat, lot: nat, n: nat)
    requires n <= |book.entries|
    requires forall k :: 0 <= k < n ==> (Source(movements, book.entries[k], m) <==> book.entries[k].movement == departure)
    ensures var sources := Sources(book, movements, m, n);
            && Held(sources, TakenBy(book.entries), |sources|) == -Total(book.entries[..n], EntriesOf(departure))
            && Held(sources, TakenOf(book.entries, lot), |sources|) == -Total(book.entries[..n], EntriesBy(departure, lot))
  {
    hide Source, Held, Total;
    if n > 0 {
      SourcesTotal(book, movements, m, departure, lot, n - 1);
      var before, e := Sources(book, movements, m, n - 1), book.entries[n - 1];
      assert book.entries[..n] == book.entries[..n - 1] + [e];
      TotalAppend(book.entries[..n - 1], e, EntriesOf(departure));
      TotalAppend(book.entries[..n - 1], e, EntriesBy(departure, lot));
      HeldAppend(before, n - 1, TakenBy(book.entries));
      HeldAppend(before, n - 1, TakenOf(book.entries, lot));
    } else {
      NothingSourced(book, departure, lot);
    }
  }

  lemma NothingSourced(book: LotBook, departure: nat, lot: nat)
    ensures Held([], TakenBy(book.entries), 0) == Held([], TakenOf(book.entries, lot), 0) == 0
    ensures Total(book.entries[..0], EntriesOf(departure)) == Total(book.entries[..0], EntriesBy(departure, lot)) == 0
  {
  }

  /** The line of a dispatch before it is dispatched: no departure bears it yet. */
  ghost predicate FreshLine(movements: seq<Movement>, line: Option<TransferLine>) {
    forall k :: 0 <= k < |movements| && movements[k].kind == TransferOut ==> movements[k].transferLine != line
  }

  /** A departure and the arrival of the same line. */
  ghost predicate Pair(movements: seq<Movement>, departure: Movement, arrival: Movement) {
    && departure.kind == TransferOut && arrival.kind == TransferIn && departure.transferLine.Some?
    && arrival.transferLine == departure.transferLine && arrival.product == departure.product
    && arrival.quantity == -departure.quantity > 0 && FreshLine(movements, departure.transferLine)
  }

  lemma OnlyDeparture(book: LotBook, movements: seq<Movement>, departure: Movement, arrival: Movement)
    requires Pair(movements, departure, arrival)
    requires EntriesLinked(book, movements + [departure])
    ensures forall k :: 0 <= k < |book.entries| ==>
              (Source(movements + [departure, arrival], book.entries[k], arrival) <==> book.entries[k].movement == |movements|)
  {
    forall k | 0 <= k < |book.entries|
      ensures Source(movements + [departure, arrival], book.entries[k], arrival) <==> book.entries[k].movement == |movements|
    {
      assert EntryLinked(book, movements + [departure], book.entries[k]);
    }
  }

  lemma DepartureIsPriced(book: LotBook, movements: seq<Movement>, departure: Movement, options: LotOptions, after: LotBook)
    requires LotCore(book, movements) && departure.kind == TransferOut && departure.quantity < 0
    requires ConsumeLots(book, |movements|, departure, options) == Ok(after)
    ensures after.lots == book.lots
    ensures |book.entries| <= |after.entries| && after.entries[..|book.entries|] == book.entries
    ensures forall k :: |book.entries| <= k < |after.entries| ==>
              var e := after.entries[k];
              e.lot < |book.lots| && e.unitCost == book.lots[e.lot].unitCost && e.currency == book.lots[e.lot].currency
  {
    hide LotCore, ConsumeIn, ChooseLots;
    var choice := ChooseLots(book, departure, options, options.preferredLot, options.allowExpired);
    ConsumePrices(book, |movements|, departure.location, choice.value.order, choice.value.mode, -departure.quantity);
  }

  lemma DepartedAfter(book: LotBook, left: LotBook, movements: seq<Movement>, departure: Movement, arrival: Movement)
    requires Pair(movements, departure, arrival) && LotCore(left, movements + [departure])
    requires left.lots == book.lots && |book.entries| <= |left.entries| && NoEntries(book, |movements|)
    requires left.entries[..|book.entries|] == book.entries
    requires forall k :: |book.entries| <= k < |left.entries| ==>
               var e := left.entries[k];
               e.lot < |book.lots| && e.unitCost == book.lots[e.lot].unitCost && e.currency == book.lots[e.lot].currency
    ensures Departed(left, |movements| + 1, Sources(left, movements + [departure, arrival], arrival, |left.entries|))
  {
    var all := movements + [departure, arrival];
    assert EntriesLinked(left, movements + [departure]) && EntryKeyUnique(left) && CostsNonNegative(left);
    hide LotCore;
    OnlyDeparture(left, movements, departure, arrival);
    SourcesDistinct(left, all, arrival, |left.entries|);
    hide FreshLine, Source;
    var sources := Sources(left, all, arrival, |left.entries|);
    assert forall j :: 0 <= j < |book.entries| ==> left.entries[j] == left.entries[..|book.entries|][j] == book.entries[j];
    forall k | 0 <= k < |sources|
      ensures var e := left.entries[sources[k]];
              && e.movement == |movements| && e.quantity < 0 && e.lot < |left.lots| && EntryKeyFree(left, |movements| + 1, e.lot)
              && e.unitCost == left.lots[e.lot].unitCost >= 0 && e.currency == left.lots[e.lot].currency
    {
      var e := left.entries[sources[k]];
      assert Source(all, e, arrival);
      assert e.movement == |movements|;
      assert EntryLinked(left, movements + [departure], e);
      assert sources[k] >= |book.entries|;
      forall j | 0 <= j < |left.entries| ensures left.entries[j].movement != |movements| + 1 {
        assert EntryLinked(left, movements + [departure], left.entries[j]);
      }
    }
  }

  /** Where a lot of a dispatched line ends up: what the origin loses the destination gains. */
  ghost predicate MovedAt(book: LotBook, after: LotBook, x: nat, y: Location, origin: Location, destination: Location) {
    && LotTotal(after, x) == LotTotal(book, x)
    && LotHeld(after, x, origin) + LotHeld(after, x, destination) == LotHeld(book, x, origin) + LotHeld(book, x, destination)
    && LotHeld(after, x, destination) >= LotHeld(book, x, destination)
    && (y != origin && y != destination ==> LotHeld(after, x, y) == LotHeld(book, x, y))
  }

  /** The lots of a dispatched line move as they are; no lot changes its total or its cost. */
  ghost predicate LotsMoved(book: LotBook, after: LotBook, origin: Location, destination: Location) {
    after.lots == book.lots && forall x, y :: MovedAt(book, after, x, y, origin, destination)
  }

  /** The ledger entries a departure wrote, lot by lot and place by place. */
  lemma DepartureTotals(book: LotBook, left: LotBook, movements: seq<Movement>, departure: Movement, lot: nat)
    requires LotCore(book, movements) && NoEntries(book, |movements|)
    requires LotsGrown(book, left, movements + [departure], |movements|, departure.quantity)
    ensures LotTotal(left, lot) == LotTotal(book, lot) + Total(left.entries, EntriesBy(|movements|, lot))
    ensures forall y ::
              LotHeld(left, lot, y)
              == LotHeld(book, lot, y) + (if y == departure.location then Total(left.entries, EntriesBy(|movements|, lot)) else 0)
    ensures Total(left.entries, EntriesOf(|movements|)) == departure.quantity
  {
    hide LotHeld, LotTotal, RowsUnique, NoneNegative, EntryKeyUnique, NotOverReturned, LotsDistinct, CostsNonNegative;
    var n := |book.entries|;
    var added := left.entries[n..];
    assert left.entries == book.entries + added;
    assert EntriesLinked(left, movements + [departure]) && LedgerAgrees(left) && LedgerAgrees(book);
    forall k | 0 <= k < |added| ensures added[k].movement == |movements| && added[k].location == departure.location {
      assert added[k] == left.entries[n + k];
      assert EntryLinked(left, movements + [departure], left.entries[n + k]);
    }
    TotalZero(book.entries, EntriesOf(|movements|));
    hide LotCore, EntriesLinked;
    AddedTotals(book.entries, added, |movements|, lot, departure.location);
  }

  lemma AddedTotals(entries: seq<LotEntry>, added: seq<LotEntry>, movement: nat, lot: nat, location: Location)
    requires forall k :: 0 <= k < |entries| ==> entries[k].movement != movement
    requires forall k :: 0 <= k < |added| ==> added[k].movement == movement && added[k].location == location
    ensures Total(entries + added, EntryOf(lot)) == Total(entries, EntryOf(lot)) + Total(entries + added, EntriesBy(movement, lot))
    ensures forall y ::
              Total(entries + added, EntryAt(lot, y))
              == Total(entries, EntryAt(lot, y)) + (if y == location then Total(entries + added, EntriesBy(movement, lot)) else 0)
  {
    var written := EntriesBy(movement, lot);
    TotalConcat(entries, added, written);
    TotalZero(entries, written);
    TotalConcat(entries, added, EntryOf(lot));
    TotalSame(added, written, added, EntryOf(lot));
    forall y
      ensures Total(entries + added, EntryAt(lot, y))
              == Total(entries, EntryAt(lot, y)) + (if y == location then Total(entries + added, written) else 0)
    {
      TotalConcat(entries, added, EntryAt(lot, y));
      if y == location {
        TotalSame(added, written, added, EntryAt(lot, y));
      } else {
        TotalZero(added, EntryAt(lot, y));
      }
    }
  }

  /** After a successful departure the arrival of the same line succeeds, and together they move
      the lots unchanged: every lot keeps its cost and its total over all locations. */
  lemma DispatchIsLotNeutral(book: LotBook, movements: seq<Movement>, departure: Movement, arrival: Movement,
                             departureCost: int, options: LotOptions, arrivalCost: int, arrivalOptions: LotOptions)
    requires LotCore(book, movements) && Pair(movements, departure, arrival) && arrival.location != departure.location
    requires ApplyLots(book, movements + [departure], |movements|, departureCost, options).Ok?
    requires departureCost >= 0
    ensures var left := ApplyLots(book, movements + [departure], |movements|, departureCost, options).value;
            var r := ApplyLots(left, movements + [departure, arrival], |movements| + 1, arrivalCost, arrivalOptions);
            && LotCore(left, movements + [departure])
            && r.Ok? && LotsMoved(book, r.value, departure.location, arrival.location)
  {
    var with, all, id := movements + [departure], movements + [departure, arrival], |movements|;
    CoreExtends(book, movements, departure);
    var left := ApplyLots(book, with, id, departureCost, options).value;
    assert SameProductSources(book, with, departure) by { NoDepartureYet(book, movements, departure, arrival); }
    ApplyLotsGrows(book, with, id, departureCost, options);
    assert ConsumeLots(book, id, departure, options) == Ok(left) by { assert NoEntries(book, id); }
    hide ConsumeLots;
    DepartureIsPriced(book, movements, departure, options, left);
    GrownCore(book, left, with, id, departure.quantity);
    CoreExtends(left, with, arrival);
    assert with + [arrival] == all;
    DepartedAfter(book, left, movements, departure, arrival);
    var sources := Sources(left, all, arrival, |left.entries|);
    ArrivalMoves(book, left, movements, departure, arrival, sources);
    hide LotCore, LotsGrown, LotsMoved, Departed, Pair;
    assert departure.kind == TransferOut && arrival.kind == TransferIn && arrival.quantity > 0 by { PairFacts(movements, departure, arrival); }
    assert NoEntries(left, id + 1);
  }

  lemma PairFacts(movements: seq<Movement>, departure: Movement, arrival: Movement)
    requires Pair(movements, departure, arrival)
    ensures departure.kind == TransferOut && arrival.kind == TransferIn && arrival.quantity == -departure.quantity > 0
  {
  }

  lemma NoDepartureYet(book: LotBook, movements: seq<Movement>, departure: Movement, arrival: Movement)
    requires LotCore(book, movements) && Pair(movements, departure, arrival)
    ensures SameProductSources(book, movements + [departure], departure)
  {
    forall k | 0 <= k < |book.entries| ensures !Source(movements + [departure], book.entries[k], departure) {
      assert EntryLinked(book, movements, book.entries[k]);
    }
  }

  lemma ArrivalMoves(book: LotBook, left: LotBook, movements: seq<Movement>, departure: Movement, arrival: Movement, sources: seq<nat>)
    requires LotCore(book, movements) && NoEntries(book, |movements|)
    requires Pair(movements, departure, arrival) && arrival.location != departure.location
    requires LotsGrown(book, left, movements + [departure], |movements|, departure.quantity) && left.lots == book.lots
    requires sources == Sources(left, movements + [departure, arrival], arrival, |left.entries|)
    requires Departed(left, |movements| + 1, sources)
    ensures var r := RestoreIn(left, movements + [departure, arrival], |movements| + 1, sources, TransferLotMode, arrival.quantity);
            sources != [] && r.Ok? && LotsMoved(book, r.value, departure.location, arrival.location)
  {
    var all, id := movements + [departure, arrival], |movements|;
    ArrivalFacts(book, left, movements, departure, arrival, sources);
    hide LotCore, LotsGrown, Pair, LotHeld, LotTotal, RowsUnique, NoneNegative, Departed, RestoreIn, Held, Arrived;
    ArrivalRestoresAll(left, all, id + 1, sources, TransferLotMode);
    var after := RestoreIn(left, all, id + 1, sources, TransferLotMode, arrival.quantity).value;
    assert Arrived(left, after, arrival.location, sources);
    forall x, y ensures MovedAt(book, after, x, y, departure.location, arrival.location) {
      ArrivalMovesAt(book, left, after, movements, departure, arrival, sources, x, y);
    }
    assert after.lots == left.lots by { assert Arrived(left, after, arrival.location, sources); SameLots(left, after, arrival.location, sources); }
  }

  lemma SameLots(book: LotBook, after: LotBook, location: Location, sources: seq<nat>)
    requires Arrived(book, after, location, sources)
    ensures after.lots == book.lots
  {
  }

  lemma ArrivalFacts(book: LotBook, left: LotBook, movements: seq<Movement>, departure: Movement, arrival: Movement, sources: seq<nat>)
    requires LotCore(book, movements) && NoEntries(book, |movements|) && Pair(movements, departure, arrival)
    requires LotsGrown(book, left, movements + [departure], |movements|, departure.quantity)
    requires sources == Sources(left, movements + [departure, arrival], arrival, |left.entries|)
    requires Departed(left, |movements| + 1, sources)
    ensures RowsUnique(left.balances) && NoneNegative(left) && sources != []
    ensures arrival.kind == TransferIn && arrival.quantity == Held(sources, TakenBy(left.entries), |sources|)
    ensures forall k :: 0 <= k < |sources| ==> sources[k] < |left.entries|
  {
    hide LotHeld, LotTotal, Held, LotsGrown, NoEntries, LotCore, Pair, EntriesLinked;
    GrownCore(book, left, movements + [departure], |movements|, departure.quantity);
    CoreIsLinked(left, movements + [departure]);
    PairFacts(movements, departure, arrival);
    DepartureTotals(book, left, movements, departure, 0);
    SourcesOfAll(left, movements, departure, arrival);
    assert RowsUnique(left.balances) && NoneNegative(left) by { CoreRows(left, movements + [departure]); }
    HeldNone([], TakenBy(left.entries));
  }

  lemma CoreRows(book: LotBook, movements: seq<Movement>)
    requires LotCore(book, movements)
    ensures RowsUnique(book.balances) && NoneNegative(book)
  {
  }

  lemma SourcesOfAll(left: LotBook, movements: seq<Movement>, departure: Movement, arrival: Movement)
    requires Pair(movements, departure, arrival) && EntriesLinked(left, movements + [departure])
    ensures var sources := Sources(left, movements + [departure, arrival], arrival, |left.entries|);
            Held(sources, TakenBy(left.entries), |sources|) == -Total(left.entries, EntriesOf(|movements|))
  {
    hide Held, Source;
    OnlyDeparture(left, movements, departure, arrival);
    assert left.entries[..|left.entries|] == left.entries;
    SourcesTotal(left, movements + [departure, arrival], arrival, |movements|, 0, |left.entries|);
  }

  /** What the arrival finds of a lot is what the departure took of it. */
  lemma SourcesOfLot(left: LotBook, movements: seq<Movement>, departure: Movement, arrival: Movement, x: nat)
    requires Pair(movements, departure, arrival) && EntriesLinked(left, movements + [departure])
    ensures var sources := Sources(left, movements + [departure, arrival], arrival, |left.entries|);
            Held(sources, TakenOf(left.entries, x), |sources|) == -Total(left.entries, EntriesBy(|movements|, x))
  {
    hide Held, Source;
    OnlyDeparture(left, movements, departure, arrival);
    assert left.entries[..|left.entries|] == left.entries;
    SourcesTotal(left, movements + [departure, arrival], arrival, |movements|, x, |left.entries|);
  }

  lemma CoreIsLinked(book: LotBook, movements: seq<Movement>)
    requires LotCore(book, movements)
    ensures EntriesLinked(book, movements)
  {
  }

  lemma ArrivalMovesAt(book: LotBook, left: LotBook, after: LotBook, movements: seq<Movement>, departure: Movement, arrival: Movement,
                       sources: seq<nat>, x: nat, y: Location)
    requires LotCore(book, movements) && NoEntries(book, |movements|)
    requires Pair(movements, departure, arrival) && arrival.location != departure.location
    requires LotsGrown(book, left, movements + [departure], |movements|, departure.quantity)
    requires sources == Sources(left, movements + [departure, arrival], arrival, |left.entries|)
    requires Departed(left, |movements| + 1, sources) && Arrived(left, after, arrival.location, sources)
    ensures MovedAt(book, after, x, y, departure.location, arrival.location)
  {
    hide LotHeld, LotTotal, Held, Arrived, Departed, LotsGrown, NoEntries, LotCore, Pair, EntriesLinked;
    GrownCore(book, left, movements + [departure], |movements|, departure.quantity);
    CoreIsLinked(left, movements + [departure]);
    SourcesOfLot(left, movements, departure, arrival, x);
    DepartureTotals(book, left, movements, departure, x);
    ArrivedAt(left, after, arrival.location, sources, x, departure.location);
    ArrivedAt(left, after, arrival.location, sources, x, arrival.location);
    ArrivedAt(left, after, arrival.location, sources, x, y);
    TakenOfNonNegative(left, |movements| + 1, sources, x);
  }

  lemma ArrivedAt(book: LotBook, after: LotBook, location: Location, sources: seq<nat>, x: nat, y: Location)
    requires Arrived(book, after, location, sources)
    ensures LotHeld(after, x, y)
            == LotHeld(book, x, y) + (if y == location then Held(sources, TakenOf(book.entries, x), |sources|) else 0)
    ensures LotTotal(after, x) == LotTotal(book, x) + Held(sources, TakenOf(book.entries, x), |sources|)
  {
  }

  lemma TakenOfNonNegative(book: LotBook, movement: nat, sources: seq<nat>, lot: nat)
    requires Departed(book, movement, sources)
    ensures Held(sources, TakenOf(book.entries, lot), |sources|) >= 0
  {
    HeldNonNegative(sources, TakenOf(book.entries, lot), |sources|);
  }
}
