/** Voids of lot-tracked sales: when one is accepted, and when it keeps what each lot gets back within
    what it gave. */
module LotVoids {
  import opened Outcomes
  import opened Sums
  import opened Rounding
  import opened Movements
  import opened Selection
  import Fifo
  import opened FifoRuns
  import opened FifoValues
  import FifoReversal
  import opened Lots
  import opened LotInvariants
  import opened LotSteps
  import opened Serials
  import opened SerialInvariants
  import opened Ledgers

  /** What the ledger entry at a position drew. */
  function Drew(entries: seq<LotEntry>): nat -> int {
    (i: nat) => if i < |entries| && entries[i].quantity < 0 then -entries[i].quantity else 0
  }

  /** What a void gives back for the source at position k. */
  function Back(entries: seq<LotEntry>, sources: seq<nat>, requested: int, k: nat): int {
    if k < |sources| then Taken(sources, Drew(entries), requested, k) else 0
  }

  function BackTo(entries: seq<LotEntry>, sources: seq<nat>, requested: int, lot: nat): nat -> int {
    (k: nat) => if k < |sources| && sources[k] < |entries| && entries[sources[k]].lot == lot then Back(entries, sources, requested, k) else 0
  }

  /** The entries a void may give back to, and the book it gives back in. */
  ghost predicate Restorable(book: LotBook, sources: seq<nat>) {
    && RowsUnique(book.balances) && NoneNegative(book) && CostsNonNegative(book)
    && forall k :: 0 <= k < |sources| ==>
         sources[k] < |book.entries| && book.entries[sources[k]].lot < |book.lots|
         && book.lots[book.entries[sources[k]].lot].currency == book.entries[sources[k]].currency
  }

  /** The lots given back to have no entry of the movement yet and are pairwise different. */
  ghost predicate LotsApart(book: LotBook, movement: nat, sources: seq<nat>, requested: int)
    requires forall k :: 0 <= k < |sources| ==> sources[k] < |book.entries|
  {
    && (forall k: nat :: k < |sources| && Back(book.entries, sources, requested, k) > 0 ==>
          EntryKeyFree(book, movement, book.entries[sources[k]].lot))
    && (forall j: nat, k: nat ::
          j < k < |sources| && Back(book.entries, sources, requested, j) > 0 && Back(book.entries, sources, requested, k) > 0 ==>
            book.entries[sources[j]].lot != book.entries[sources[k]].lot)
  }

  lemma RestorableFacts(book: LotBook, sources: seq<nat>)
    requires Restorable(book, sources)
    ensures forall k :: 0 <= k < |sources| ==> sources[k] < |book.entries| && Drew(book.entries)(sources[k]) >= 0
    ensures sources != [] ==> Restorable(book, sources[1..])
  {
  }

  /** One round: the change is accepted exactly when its key is free, and appends one entry. */
  lemma VoidOne(book: LotBook, movement: nat, location: Location, sources: seq<nat>, quantity: int, mode: SelectionMode)
    requires Restorable(book, sources) && sources != [] && quantity > 0 && sources[0] < |book.entries|
    ensures var e := book.entries[sources[0]];
            var r := ChangeLot(book, movement, location, e.lot, quantity, mode, Some(CostSource(e.unitCost, e.currency, true)));
            && (r.Ok? <==> EntryKeyFree(book, movement, e.lot))
            && (r.Ok? ==> && Restorable(r.value, sources[1..]) && |r.value.entries| == |book.entries| + 1
                          && r.value.entries[..|book.entries|] == book.entries
                          && r.value.entries[|book.entries|].movement == movement && r.value.entries[|book.entries|].lot == e.lot
                          && r.value.entries[|book.entries|].quantity == quantity)
  {
    var e := book.entries[sources[0]];
    var source := Some(CostSource(e.unitCost, e.currency, true));
    var r := ChangeLot(book, movement, location, e.lot, quantity, mode, source);
    assert e.lot < |book.lots| && book.lots[e.lot].currency == e.currency && e.unitCost >= 0;
    CostsAfterChange(book, movement, location, e.lot, quantity, mode, source);
    VoidOutcome(book, movement, location, e.lot, quantity, mode, source);
    if r.Ok? {
      RowsAfterChange(book, movement, location, e.lot, quantity, mode, source);
      ChangeEffect(book, movement, location, e.lot, quantity, mode, source);
      hide ChangeLot, RowsUnique, NoneNegative, CostsNonNegative, EntryKeyFree;
      forall k | 0 <= k < |sources[1..]|
        ensures var i := sources[1..][k];
                i < |r.value.entries| && r.value.entries[i].lot < |r.value.lots| && r.value.lots[r.value.entries[i].lot].currency == r.value.entries[i].currency
      {
        var i := sources[k + 1];
        assert r.value.entries[i] == r.value.entries[..|book.entries|][i];
        assert SameLot(book.lots[book.entries[i].lot], r.value.lots[book.entries[i].lot]);
      }
    }
  }

  lemma VoidOutcome(book: LotBook, movement: nat, location: Location, lot: nat, quantity: int, mode: SelectionMode, source: Option<CostSource>)
    requires NoneNegative(book) && lot < |book.lots| && quantity > 0 && source.Some? && source.value.currency == book.lots[lot].currency
    requires ChangeLot(book, movement, location, lot, quantity, mode, source) != Err(NegativeLotCost)
    ensures ChangeLot(book, movement, location, lot, quantity, mode, source).Ok? <==> EntryKeyFree(book, movement, lot)
  {
    hide Revalued, QuantityValue, EntryKeyFree;
    var rows := EnsureRow(book.balances, lot, location);
    assert forall k :: 0 <= k < |rows| ==> rows[k].quantity >= 0;
  }

  /** The next round's book: the same entries, and one of the movement if the round gave back. */
  ghost predicate Continues(book: LotBook, next: LotBook, movement: nat, sources: seq<nat>, given: int) {
    && sources != [] && (forall k :: 0 <= k < |sources| ==> sources[k] < |book.entries|)
    && |next.entries| == |book.entries| + (if given > 0 then 1 else 0) && next.entries[..|book.entries|] == book.entries
    && (given > 0 ==> next.entries[|book.entries|].movement == movement && next.entries[|book.entries|].quantity == given
                      && next.entries[|book.entries|].lot == book.entries[sources[0]].lot)
  }

  lemma SameEntries(book: LotBook, next: LotBook, movement: nat, sources: seq<nat>, given: int)
    requires Continues(book, next, movement, sources, given)
    ensures forall k :: 0 <= k < |sources[1..]| ==>
              sources[1..][k] < |book.entries| <= |next.entries| && next.entries[sources[1..][k]] == book.entries[sources[k + 1]]
    ensures forall j :: 1 <= j < |sources| ==> Drew(next.entries)(sources[j]) == Drew(book.entries)(sources[j])
    ensures forall lot :: EntryKeyFree(next, movement, lot) <==>
              EntryKeyFree(book, movement, lot) && (given > 0 ==> lot != book.entries[sources[0]].lot)
  {
    assert forall j :: 0 <= j < |book.entries| ==> next.entries[j] == next.entries[..|book.entries|][j] == book.entries[j];
    forall lot
      ensures EntryKeyFree(next, movement, lot) <==>
              EntryKeyFree(book, movement, lot) && (given > 0 ==> lot != book.entries[sources[0]].lot)
    {
      if EntryKeyFree(next, movement, lot) {
        forall k | 0 <= k < |book.entries| ensures book.entries[k].movement != movement || book.entries[k].lot != lot {
          assert next.entries[k] == book.entries[k];
        }
      }
    }
  }

  lemma BackFirst(entries: seq<LotEntry>, sources: seq<nat>, requested: int)
    requires sources != [] && requested >= 0 && Drew(entries)(sources[0]) >= 0
    ensures Back(entries, sources, requested, 0) == Min(Drew(entries)(sources[0]), requested)
  {
    HeldNone(sources, Drew(entries));
    hide Drew;
  }

  lemma BackNext(entries: seq<LotEntry>, next: seq<LotEntry>, sources: seq<nat>, requested: int, k: nat)
    requires 1 <= k < |sources| && requested >= 0
    requires forall j :: 0 <= j < |sources| ==> Drew(entries)(sources[j]) >= 0
    requires forall j :: 1 <= j < |sources| ==> Drew(next)(sources[j]) == Drew(entries)(sources[j])
    ensures Back(entries, sources, requested, k)
            == Back(next, sources[1..], requested - Min(Drew(entries)(sources[0]), requested), k - 1)
  {
    hide Held, Drew;
    if requested > 0 {
      TakenShift(sources, Drew(entries), Drew(next), requested, k);
    } else {
      NothingTaken(sources, Drew(entries), k);
      forall j | 0 <= j < |sources[1..]| ensures Drew(next)(sources[1..][j]) >= 0 {
        assert sources[1..][j] == sources[j + 1];
      }
      NothingTaken(sources[1..], Drew(next), k - 1);
    }
  }

  lemma RestHolds(entries: seq<LotEntry>, next: seq<LotEntry>, sources: seq<nat>)
    requires sources != []
    requires forall j :: 0 <= j < |sources| ==> Drew(entries)(sources[j]) >= 0
    requires forall j :: 1 <= j < |sources| ==> Drew(next)(sources[j]) == Drew(entries)(sources[j])
    ensures Held(sources, Drew(entries), |sources|) == Drew(entries)(sources[0]) + Held(sources[1..], Drew(next), |sources| - 1)
    ensures Held(sources[1..], Drew(next), |sources| - 1) >= 0
  {
    hide Held, Drew;
    HeldShift(sources, Drew(entries), Drew(next), |sources|);
    forall j | 0 <= j < |sources[1..]| ensures Drew(next)(sources[1..][j]) >= 0 {
      assert sources[1..][j] == sources[j + 1];
    }
    HeldNonNegative(sources[1..], Drew(next), |sources| - 1);
  }

  lemma BackShift(book: LotBook, next: LotBook, movement: nat, sources: seq<nat>, requested: int)
    requires Restorable(book, sources) && requested >= 0
    requires sources != [] && Continues(book, next, movement, sources, Min(Drew(book.entries)(sources[0]), requested))
    ensures var given := Min(Drew(book.entries)(sources[0]), requested);
            && Back(book.entries, sources, requested, 0) == given
            && (forall k :: 1 <= k < |sources| ==>
                  Back(book.entries, sources, requested, k) == Back(next.entries, sources[1..], requested - given, k - 1))
            && Held(sources, Drew(book.entries), |sources|) == Drew(book.entries)(sources[0]) + Held(sources[1..], Drew(next.entries), |sources| - 1)
            && Held(sources[1..], Drew(next.entries), |sources| - 1) >= 0
  {
    hide *;
    SameEntries(book, next, movement, sources, Min(Drew(book.entries)(sources[0]), requested));
    RestorableFacts(book, sources);
    BackFirst(book.entries, sources, requested);
    RestHolds(book.entries, next.entries, sources);
    forall k | 1 <= k < |sources|
      ensures Back(book.entries, sources, requested, k)
              == Back(next.entries, sources[1..], requested - Min(Drew(book.entries)(sources[0]), requested), k - 1)
    {
      BackNext(book.entries, next.entries, sources, requested, k);
    }
  }

  lemma ApartShift(book: LotBook, next: LotBook, movement: nat, sources: seq<nat>, requested: int, given: int)
    requires Continues(book, next, movement, sources, given) && Back(book.entries, sources, requested, 0) == given
    requires forall k :: 0 <= k < |sources[1..]| ==> sources[1..][k] < |next.entries|
    requires forall k :: 1 <= k < |sources| ==>
               Back(book.entries, sources, requested, k) == Back(next.entries, sources[1..], requested - given, k - 1)
    ensures LotsApart(book, movement, sources, requested)
            <==> (given > 0 ==> EntryKeyFree(book, movement, book.entries[sources[0]].lot))
                 && LotsApart(next, movement, sources[1..], requested - given)
  {
    SameEntries(book, next, movement, sources, given);
    var rest := sources[1..];
    hide EntryKeyFree, Back, Continues, Drew;
    assert forall k :: 0 <= k < |sources| ==> sources[k] < |book.entries| by { ContinuesFacts(book, next, movement, sources, given); }
    if LotsApart(book, movement, sources, requested) {
      forall k: nat | k < |rest| && Back(next.entries, rest, requested - given, k) > 0
        ensures EntryKeyFree(next, movement, next.entries[rest[k]].lot)
      {
        assert Back(book.entries, sources, requested, k + 1) > 0;
      }
      forall j: nat, k: nat | j < k < |rest| && Back(next.entries, rest, requested - given, j) > 0 && Back(next.entries, rest, requested - given, k) > 0
        ensures next.entries[rest[j]].lot != next.entries[rest[k]].lot
      {
        assert Back(book.entries, sources, requested, j + 1) > 0 && Back(book.entries, sources, requested, k + 1) > 0;
      }
    }
    if (given > 0 ==> EntryKeyFree(book, movement, book.entries[sources[0]].lot)) && LotsApart(next, movement, rest, requested - given) {
      forall k: nat | k < |sources| && Back(book.entries, sources, requested, k) > 0
        ensures EntryKeyFree(book, movement, book.entries[sources[k]].lot)
      {
        if k > 0 {
          assert Back(next.entries, rest, requested - given, k - 1) > 0 && next.entries[rest[k - 1]] == book.entries[sources[k]];
        }
      }
      forall j: nat, k: nat | j < k < |sources| && Back(book.entries, sources, requested, j) > 0 && Back(book.entries, sources, requested, k) > 0
        ensures book.entries[sources[j]].lot != book.entries[sources[k]].lot
      {
        assert Back(next.entries, rest, requested - given, k - 1) > 0 && next.entries[rest[k - 1]] == book.entries[sources[k]];
        if j > 0 {
          assert Back(next.entries, rest, requested - given, j - 1) > 0 && next.entries[rest[j - 1]] == book.entries[sources[j]];
        }
      }
    }
  }

  lemma ContinuesFacts(book: LotBook, next: LotBook, movement: nat, sources: seq<nat>, given: int)
    requires Continues(book, next, movement, sources, given)
    ensures sources != [] && forall k :: 0 <= k < |sources| ==> sources[k] < |book.entries|
  {
  }

  /** What the movement has written for a lot. */
  function Written(movement: nat, lot: nat): LotEntry -> int {
    (e: LotEntry) => if e.movement == movement && e.lot == lot then e.quantity else 0
  }

  lemma BackToNext(book: LotBook, next: LotBook, movement: nat, sources: seq<nat>, requested: int, given: int, lot: nat, k: nat)
    requires Continues(book, next, movement, sources, given) && k < |sources| - 1
    requires Back(book.entries, sources, requested, k + 1) == Back(next.entries, sources[1..], requested - given, k)
    ensures BackTo(book.entries, sources, requested, lot)(k + 1) == BackTo(next.entries, sources[1..], requested - given, lot)(k)
  {
    SameEntries(book, next, movement, sources, given);
    hide Back, Drew, EntryKeyFree;
    assert sources[1..][k] == sources[k + 1];
  }

  lemma BackToFirst(book: LotBook, next: LotBook, movement: nat, sources: seq<nat>, requested: int, given: int, lot: nat)
    requires Continues(book, next, movement, sources, given) && Back(book.entries, sources, requested, 0) == given
    ensures sources != [] && sources[0] < |book.entries|
    ensures BackTo(book.entries, sources, requested, lot)(0) == if book.entries[sources[0]].lot == lot then given else 0
  {
    hide Back;
  }

  lemma WrittenGrows(book: LotBook, next: LotBook, movement: nat, sources: seq<nat>, given: int, lot: nat)
    requires Continues(book, next, movement, sources, given) && given >= 0
    ensures sources != [] && sources[0] < |book.entries|
    ensures Total(next.entries, Written(movement, lot))
            == Total(book.entries, Written(movement, lot)) + (if book.entries[sources[0]].lot == lot then given else 0)
  {
    if given > 0 {
      var e := next.entries[|book.entries|];
      assert next.entries == book.entries + [e];
      TotalAppend(book.entries, e, Written(movement, lot));
    } else {
      assert next.entries == book.entries;
    }
  }

  lemma WrittenNext(book: LotBook, next: LotBook, movement: nat, sources: seq<nat>, requested: int, given: int, lot: nat)
    requires Continues(book, next, movement, sources, given) && Back(book.entries, sources, requested, 0) == given >= 0
    requires forall k :: 1 <= k < |sources| ==>
               Back(book.entries, sources, requested, k) == Back(next.entries, sources[1..], requested - given, k - 1)
    ensures sources != []
    ensures Total(next.entries, Written(movement, lot)) + Sum(|sources| - 1, BackTo(next.entries, sources[1..], requested - given, lot))
            == Total(book.entries, Written(movement, lot)) + Sum(|sources|, BackTo(book.entries, sources, requested, lot))
  {
    hide *;
    ContinuesFacts(book, next, movement, sources, given);
    var f, g := BackTo(book.entries, sources, requested, lot), BackTo(next.entries, sources[1..], requested - given, lot);
    forall k: nat | k < |sources| - 1 ensures g(k) == f(k + 1) {
      assert Back(book.entries, sources, requested, k + 1) == Back(next.entries, sources[1..], requested - given, k + 1 - 1);
      BackToNext(book, next, movement, sources, requested, given, lot, k);
    }
    BackToFirst(book, next, movement, sources, requested, given, lot);
    SumShift(|sources|, f, g);
    WrittenGrows(book, next, movement, sources, given, lot);
  }

  /** The restoration of a void succeeds exactly when its sources drew that much and the lots it gives
      back to are apart; it ignores what was given back before, and writes what it takes back. */
  lemma {:induction false} VoidExact(book: LotBook, movements: seq<Movement>, movement: nat, sources: seq<nat>, mode: SelectionMode,
                                     requested: int, lot: nat)
    requires movement < |movements| && movements[movement].kind == SaleVoid && requested >= 0 && Restorable(book, sources)
    ensures forall k :: 0 <= k < |sources| ==> sources[k] < |book.entries|
    ensures var r := RestoreIn(book, movements, movement, sources, mode, requested);
            && (r.Ok? <==> requested <= Held(sources, Drew(book.entries), |sources|) && LotsApart(book, movement, sources, requested))
            && (r.Ok? ==> && |book.entries| <= |r.value.entries| && r.value.entries[..|book.entries|] == book.entries
                          && OnlyBy(r.value.entries, |book.entries|, movement)
                          && Total(r.value.entries, Written(movement, lot))
                             == Total(book.entries, Written(movement, lot)) + Sum(|sources|, BackTo(book.entries, sources, requested, lot)))
    decreases |sources|
  {
    RestorableFacts(book, sources);
    if sources == [] {
      HeldNone([], Drew(book.entries));
    } else {
      VoidRound(book, movements, movement, sources, mode, requested, lot);
    }
  }

  ghost predicate OnlyBy(entries: seq<LotEntry>, n: nat, movement: nat) {
    forall k :: n <= k < |entries| ==> entries[k].movement == movement && entries[k].quantity > 0
  }

  lemma VoidUnfolds(book: LotBook, movements: seq<Movement>, movement: nat, sources: seq<nat>, mode: SelectionMode, requested: int)
    requires movement < |movements| && movements[movement].kind == SaleVoid && requested >= 0
    requires sources != [] && forall k :: 0 <= k < |sources| ==> sources[k] < |book.entries|
    ensures var e := book.entries[sources[0]];
            var given := Min(Drew(book.entries)(sources[0]), requested);
            var r := RestoreIn(book, movements, movement, sources, mode, requested);
            if given == 0 && requested > 0 then r == RestoreIn(book, movements, movement, sources[1..], mode, requested)
            else if requested == 0 then r == Ok(book)
            else
              var next := ChangeLot(book, movement, movements[movement].location, e.lot, given, mode, Some(CostSource(e.unitCost, e.currency, true)));
              if next.Err? then r.Err?
              else |book.entries| <= |next.value.entries| && r == RestoreIn(next.value, movements, movement, sources[1..], mode, requested - given)
  {
    hide ChangeLot;
  }

  lemma VoidRound(book: LotBook, movements: seq<Movement>, movement: nat, sources: seq<nat>, mode: SelectionMode, requested: int, lot: nat)
    requires movement < |movements| && movements[movement].kind == SaleVoid && requested >= 0 && Restorable(book, sources) && sources != []
    requires forall k :: 0 <= k < |sources| ==> sources[k] < |book.entries|
    ensures var r := RestoreIn(book, movements, movement, sources, mode, requested);
            && (r.Ok? <==> requested <= Held(sources, Drew(book.entries), |sources|) && LotsApart(book, movement, sources, requested))
            && (r.Ok? ==> && |book.entries| <= |r.value.entries| && r.value.entries[..|book.entries|] == book.entries
                          && OnlyBy(r.value.entries, |book.entries|, movement)
                          && Total(r.value.entries, Written(movement, lot))
                             == Total(book.entries, Written(movement, lot)) + Sum(|sources|, BackTo(book.entries, sources, requested, lot)))
    decreases |sources|, 0
  {
    hide *;
    var e := book.entries[sources[0]];
    var drew := Drew(book.entries);
    var given := Min(drew(sources[0]), requested);
    var location := movements[movement].location;
    RestorableFacts(book, sources);
    MinIs(drew(sources[0]), requested);
    VoidUnfolds(book, movements, movement, sources, mode, requested);
    if requested == 0 {
      NothingAsked(book, movement, sources, lot);
    } else if given == 0 {
      SameContinues(book, movement, sources);
      VoidNext(book, book, movement, sources, requested, lot);
      VoidExact(book, movements, movement, sources[1..], mode, requested, lot);
    } else {
      VoidOne(book, movement, location, sources, given, mode);
      var r := ChangeLot(book, movement, location, e.lot, given, mode, Some(CostSource(e.unitCost, e.currency, true)));
      if r.Ok? {
        NextContinues(book, r.value, movement, sources, given);
        VoidNext(book, r.value, movement, sources, requested, lot);
        VoidExact(r.value, movements, movement, sources[1..], mode, requested - given, lot);
        var done := RestoreIn(r.value, movements, movement, sources[1..], mode, requested - given);
        if done.Ok? {
          EntriesGrow(book.entries, r.value.entries, done.value.entries, movement, given);
        }
      } else {
        FirstNotApart(book, movement, sources, requested);
      }
    }
  }

  lemma MinIs(a: int, b: int)
    ensures Min(a, b) == if a < b then a else b
  {
  }

  lemma NothingAsked(book: LotBook, movement: nat, sources: seq<nat>, lot: nat)
    requires Restorable(book, sources) && forall k :: 0 <= k < |sources| ==> sources[k] < |book.entries|
    ensures 0 <= Held(sources, Drew(book.entries), |sources|) && LotsApart(book, movement, sources, 0)
    ensures Sum(|sources|, BackTo(book.entries, sources, 0, lot)) == 0 && OnlyBy(book.entries, |book.entries|, movement)
    ensures book.entries[..|book.entries|] == book.entries
  {
    RestorableFacts(book, sources);
    HeldNonNegative(sources, Drew(book.entries), |sources|);
    hide Held, Restorable;
    forall k: nat | k < |sources| ensures Back(book.entries, sources, 0, k) == 0 {
      NothingTaken(sources, Drew(book.entries), k);
    }
    SumZero(|sources|, BackTo(book.entries, sources, 0, lot));
  }

  lemma SameContinues(book: LotBook, movement: nat, sources: seq<nat>)
    requires sources != [] && forall k :: 0 <= k < |sources| ==> sources[k] < |book.entries|
    ensures Continues(book, book, movement, sources, 0)
    ensures book.entries[..|book.entries|] == book.entries
  {
  }

  lemma NextContinues(book: LotBook, next: LotBook, movement: nat, sources: seq<nat>, given: int)
    requires sources != [] && given > 0 && forall k :: 0 <= k < |sources| ==> sources[k] < |book.entries|
    requires |next.entries| == |book.entries| + 1 && next.entries[..|book.entries|] == book.entries
    requires next.entries[|book.entries|].movement == movement && next.entries[|book.entries|].lot == book.entries[sources[0]].lot
    requires next.entries[|book.entries|].quantity == given
    ensures Continues(book, next, movement, sources, given)
  {
  }

  /** All a round needs to know about the next one. */
  lemma VoidNext(book: LotBook, next: LotBook, movement: nat, sources: seq<nat>, requested: int, lot: nat)
    requires Restorable(book, sources) && requested >= 0 && sources != []
    requires Continues(book, next, movement, sources, Min(Drew(book.entries)(sources[0]), requested))
    ensures var given := Min(Drew(book.entries)(sources[0]), requested);
            && (forall k :: 0 <= k < |sources| ==> sources[k] < |book.entries|)
            && (forall k :: 0 <= k < |sources[1..]| ==> sources[1..][k] < |next.entries|)
            && Held(sources, Drew(book.entries), |sources|) == Drew(book.entries)(sources[0]) + Held(sources[1..], Drew(next.entries), |sources| - 1)
            && Held(sources[1..], Drew(next.entries), |sources| - 1) >= 0
            && (LotsApart(book, movement, sources, requested)
                <==> (given > 0 ==> EntryKeyFree(book, movement, book.entries[sources[0]].lot))
                     && LotsApart(next, movement, sources[1..], requested - given))
            && Total(next.entries, Written(movement, lot)) + Sum(|sources| - 1, BackTo(next.entries, sources[1..], requested - given, lot))
               == Total(book.entries, Written(movement, lot)) + Sum(|sources|, BackTo(book.entries, sources, requested, lot))
  {
    hide *;
    ContinuesFacts(book, next, movement, sources, Min(Drew(book.entries)(sources[0]), requested));
    var given := Min(Drew(book.entries)(sources[0]), requested);
    RestorableFacts(book, sources);
    MinIs(Drew(book.entries)(sources[0]), requested);
    BackShift(book, next, movement, sources, requested);
    SameEntries(book, next, movement, sources, given);
    ApartShift(book, next, movement, sources, requested, given);
    WrittenNext(book, next, movement, sources, requested, given, lot);
  }

  lemma EntriesGrow(entries: seq<LotEntry>, next: seq<LotEntry>, done: seq<LotEntry>, movement: nat, given: int)
    requires |next| == |entries| + 1 && next[..|entries|] == entries && next[|entries|].movement == movement && next[|entries|].quantity == given > 0
    requires |next| <= |done| && done[..|next|] == next && OnlyBy(done, |next|, movement)
    ensures done[..|entries|] == entries && OnlyBy(done, |entries|, movement)
  {
    assert done[..|entries|] == done[..|next|][..|entries|];
    assert done[|entries|] == done[..|next|][|entries|];
  }

  lemma FirstNotApart(book: LotBook, movement: nat, sources: seq<nat>, requested: int)
    requires sources != [] && (forall k :: 0 <= k < |sources| ==> sources[k] < |book.entries|)
    requires requested > 0 && Min(Drew(book.entries)(sources[0]), requested) > 0
    requires !EntryKeyFree(book, movement, book.entries[sources[0]].lot)
    ensures !LotsApart(book, movement, sources, requested)
  {
    HeldNone(sources, Drew(book.entries));
    hide Drew, EntryKeyFree;
    assert Back(book.entries, sources, requested, 0) > 0;
  }

  // ----- What a void leaves of each lot -----

  /** What the sales a void reverses took of a lot. */
  function DrawnOnLine(movements: seq<Movement>, m: Movement, lot: nat): LotEntry -> int {
    (e: LotEntry) => if Source(movements, e, m) && e.lot == lot && e.quantity < 0 then -e.quantity else 0
  }

  predicate ReversesLine(movements: seq<Movement>, e: LotEntry, m: Movement) {
    e.movement < |movements| && Fifo.IsSaleReversal(movements[e.movement].kind) && m.saleLine.Some?
    && movements[e.movement].saleLine == m.saleLine && movements[e.movement].location == m.location
  }

  /** What voids and returns of the line have given back to a lot. */
  function ReturnedOnLine(movements: seq<Movement>, m: Movement, lot: nat): LotEntry -> int {
    (e: LotEntry) => if ReversesLine(movements, e, m) && e.lot == lot then e.quantity else 0
  }

  ghost predicate LotWithin(entries: seq<LotEntry>, movements: seq<Movement>, m: Movement, lot: nat) {
    Total(entries, ReturnedOnLine(movements, m, lot)) <= Total(entries, DrawnOnLine(movements, m, lot))
  }

  /** No lot has got back more of the line than the line took from it. */
  ghost predicate WithinDrawn(entries: seq<LotEntry>, movements: seq<Movement>, m: Movement) {
    forall lot :: LotWithin(entries, movements, m, lot)
  }

  lemma {:induction false} SumOnly(n: nat, f: nat -> int, k: nat)
    requires k < n && forall j: nat :: j < n && j != k ==> f(j) == 0
    ensures Sum(n, f) == f(k)
  {
    if k == n - 1 {
      SumZero(n - 1, f);
    } else {
      SumOnly(n - 1, f, k);
    }
  }

  /** What an accepted void writes for a lot is what it gives back to the one source on it. */
  lemma WrittenForLot(book: LotBook, movement: nat, sources: seq<nat>, requested: int, k: nat)
    requires (forall j :: 0 <= j < |sources| ==> sources[j] < |book.entries|) && LotsApart(book, movement, sources, requested)
    requires forall j: nat :: j < |sources| ==> Back(book.entries, sources, requested, j) >= 0
    requires k < |sources| && Back(book.entries, sources, requested, k) > 0
    ensures Sum(|sources|, BackTo(book.entries, sources, requested, book.entries[sources[k]].lot)) == Back(book.entries, sources, requested, k)
  {
    hide Back, EntryKeyFree;
    var f := BackTo(book.entries, sources, requested, book.entries[sources[k]].lot);
    forall j: nat | j < |sources| && j != k ensures f(j) == 0 {
      if Back(book.entries, sources, requested, j) > 0 {
        assert book.entries[sources[j]].lot != book.entries[sources[k]].lot;
      }
    }
    SumOnly(|sources|, f, k);
  }

  lemma WrittenForOther(book: LotBook, sources: seq<nat>, requested: int, lot: nat)
    requires forall j :: 0 <= j < |sources| ==> sources[j] < |book.entries|
    requires forall j: nat :: j < |sources| ==> Back(book.entries, sources, requested, j) >= 0
    requires forall k: nat :: k < |sources| && Back(book.entries, sources, requested, k) > 0 ==> book.entries[sources[k]].lot != lot
    ensures Sum(|sources|, BackTo(book.entries, sources, requested, lot)) == 0
  {
    hide Back;
    SumZero(|sources|, BackTo(book.entries, sources, requested, lot));
  }

  /** A void adds what it writes to what the line has got back, and nothing to what it took. */
  lemma LineAfterVoid(entries: seq<LotEntry>, after: seq<LotEntry>, movements: seq<Movement>, movement: nat, lot: nat)
    requires movement < |movements| && movements[movement].kind == SaleVoid && movements[movement].saleLine.Some?
    requires |entries| <= |after| && after[..|entries|] == entries && OnlyBy(after, |entries|, movement)
    requires forall k :: 0 <= k < |entries| ==> entries[k].movement != movement
    ensures var m := movements[movement];
            && Total(after, DrawnOnLine(movements, m, lot)) == Total(entries, DrawnOnLine(movements, m, lot))
            && Total(after, ReturnedOnLine(movements, m, lot)) == Total(entries, ReturnedOnLine(movements, m, lot)) + Total(after, Written(movement, lot))
            && Total(entries, Written(movement, lot)) == 0
  {
    var m, added := movements[movement], after[|entries|..];
    assert after == entries + added;
    forall k | 0 <= k < |added| ensures added[k].movement == movement && added[k].quantity > 0 {
      assert added[k] == after[|entries| + k];
    }
    TotalConcat(entries, added, DrawnOnLine(movements, m, lot));
    TotalConcat(entries, added, ReturnedOnLine(movements, m, lot));
    TotalConcat(entries, added, Written(movement, lot));
    TotalZero(added, DrawnOnLine(movements, m, lot));
    TotalZero(entries, Written(movement, lot));
    TotalSame(added, ReturnedOnLine(movements, m, lot), added, Written(movement, lot));
  }

  /** The source at position k still has room for what the void gives back to it. */
  ghost predicate HasRoom(book: LotBook, movements: seq<Movement>, m: Movement, sources: seq<nat>, k: nat)
    requires k < |sources| && sources[k] < |book.entries|
  {
    var lot := book.entries[sources[k]].lot;
    Total(book.entries, ReturnedOnLine(movements, m, lot)) + Back(book.entries, sources, m.quantity, k)
    <= Total(book.entries, DrawnOnLine(movements, m, lot))
  }

  lemma VoidSourcesRestorable(book: LotBook, movements: seq<Movement>, m: Movement)
    requires LotCore(book, movements)
    ensures Restorable(book, Sources(book, movements, m, |book.entries|))
  {
    var sources := Sources(book, movements, m, |book.entries|);
    forall k | 0 <= k < |sources|
      ensures book.entries[sources[k]].lot < |book.lots| && book.lots[book.entries[sources[k]].lot].currency == book.entries[sources[k]].currency
    {
      assert EntryLinked(book, movements, book.entries[sources[k]]);
    }
  }

  lemma AllBackNonNegative(book: LotBook, sources: seq<nat>, requested: int)
    requires Restorable(book, sources)
    ensures forall k: nat :: k < |sources| ==> sources[k] < |book.entries| && Back(book.entries, sources, requested, k) >= 0
  {
    RestorableFacts(book, sources);
    hide Restorable, Drew, Taken;
    forall k: nat | k < |sources| ensures Back(book.entries, sources, requested, k) >= 0 {
      TakenNonNegative(sources, Drew(book.entries), requested, k);
    }
  }

  lemma VoidOutlook(book: LotBook, movements: seq<Movement>, movement: nat)
    requires movement < |movements|
    ensures var sources := Sources(book, movements, movements[movement], |book.entries|);
            && (forall k :: 0 <= k < |sources| ==> sources[k] < |book.entries|)
            && RestoreAllocations(book, movements, movement, RestoreLotMode)
               == if sources == [] then Err(LotSourceNotFound)
                  else RestoreIn(book, movements, movement, sources, RestoreLotMode, movements[movement].quantity)
  {
    hide RestoreIn, Source;
  }

  lemma NotWritten(book: LotBook, movement: nat)
    requires NoEntries(book, movement)
    ensures forall k :: 0 <= k < |book.entries| ==> book.entries[k].movement != movement
  {
  }

  lemma AcceptedMeans(book: LotBook, after: LotBook, movements: seq<Movement>, movement: nat, sources: seq<nat>)
    requires movement < |movements|
    requires movements[movement].kind == SaleVoid && movements[movement].saleLine.Some? && movements[movement].quantity > 0
    requires Restorable(book, sources) && (forall k :: 0 <= k < |sources| ==> sources[k] < |book.entries|)
    requires forall k :: 0 <= k < |book.entries| ==> book.entries[k].movement != movement
    requires RestoreIn(book, movements, movement, sources, RestoreLotMode, movements[movement].quantity) == Ok(after)
    ensures Accepted(book, after, movements, movement, sources)
  {
    hide Restorable, RestoreIn;
  }

  /** A void of a lot-tracked sale is accepted exactly when the sale drew that much and the lots it gives
      back to are pairwise different. It ignores earlier returns: it keeps what each lot gets back within
      what it gave exactly when every source it gives back to still has room for it. */
  lemma VoidIsExact(book: LotBook, movements: seq<Movement>, movement: nat)
    requires LotCore(book, movements) && movement < |movements| && NoEntries(book, movement)
    requires movements[movement].kind == SaleVoid && movements[movement].quantity > 0 && movements[movement].saleLine.Some?
    ensures var m := movements[movement];
            var sources := Sources(book, movements, m, |book.entries|);
            var r := RestoreAllocations(book, movements, movement, RestoreLotMode);
            && (r.Ok? <==> m.quantity <= Held(sources, Drew(book.entries), |sources|) && LotsApart(book, movement, sources, m.quantity))
            && (r.Ok? && WithinDrawn(book.entries, movements, m) ==>
                  (WithinDrawn(r.value.entries, movements, m)
                   <==> forall k: nat :: k < |sources| && Back(book.entries, sources, m.quantity, k) > 0 ==>
                          HasRoom(book, movements, m, sources, k)))
  {
    hide *;
    var m := movements[movement];
    var sources := Sources(book, movements, m, |book.entries|);
    VoidSourcesRestorable(book, movements, m);
    AllBackNonNegative(book, sources, m.quantity);
    HeldNone([], Drew(book.entries));
    VoidOutlook(book, movements, movement);
    NotWritten(book, movement);
    VoidExact(book, movements, movement, sources, RestoreLotMode, m.quantity, 0);
    var r := RestoreAllocations(book, movements, movement, RestoreLotMode);
    if r.Ok? && WithinDrawn(book.entries, movements, m) {
      AcceptedMeans(book, r.value, movements, movement, sources);
      if WithinDrawn(r.value.entries, movements, m) {
        forall k: nat | k < |sources| && Back(book.entries, sources, m.quantity, k) > 0 ensures HasRoom(book, movements, m, sources, k) {
          OneWithin(r.value.entries, movements, m, book.entries[sources[k]].lot);
          TouchedLot(book, r.value, movements, movement, sources, k);
        }
      }
      if forall k: nat :: k < |sources| && Back(book.entries, sources, m.quantity, k) > 0 ==> HasRoom(book, movements, m, sources, k) {
        forall lot ensures LotWithin(r.value.entries, movements, m, lot) {
          AnyLot(book, r.value, movements, movement, sources, lot);
        }
        AllWithin(r.value.entries, movements, m);
      }
    }
  }

  lemma OneWithin(entries: seq<LotEntry>, movements: seq<Movement>, m: Movement, lot: nat)
    requires WithinDrawn(entries, movements, m)
    ensures LotWithin(entries, movements, m, lot)
  {
  }

  lemma AllWithin(entries: seq<LotEntry>, movements: seq<Movement>, m: Movement)
    requires forall lot :: LotWithin(entries, movements, m, lot)
    ensures WithinDrawn(entries, movements, m)
  {
  }

  /** An accepted void, seen from one lot. */
  ghost predicate Accepted(book: LotBook, after: LotBook, movements: seq<Movement>, movement: nat, sources: seq<nat>)
    requires movement < |movements|
  {
    && movements[movement].kind == SaleVoid && movements[movement].saleLine.Some? && movements[movement].quantity > 0
    && Restorable(book, sources) && (forall k :: 0 <= k < |sources| ==> sources[k] < |book.entries|)
    && (forall k :: 0 <= k < |book.entries| ==> book.entries[k].movement != movement)
    && RestoreIn(book, movements, movement, sources, RestoreLotMode, movements[movement].quantity) == Ok(after)
  }

  lemma LotAfterVoid(book: LotBook, after: LotBook, movements: seq<Movement>, movement: nat, sources: seq<nat>, lot: nat)
    requires movement < |movements| && Accepted(book, after, movements, movement, sources)
    ensures var m := movements[movement];
            && LotsApart(book, movement, sources, m.quantity)
            && Total(after.entries, DrawnOnLine(movements, m, lot)) == Total(book.entries, DrawnOnLine(movements, m, lot))
            && Total(after.entries, ReturnedOnLine(movements, m, lot))
               == Total(book.entries, ReturnedOnLine(movements, m, lot)) + Sum(|sources|, BackTo(book.entries, sources, m.quantity, lot))
  {
    hide Restorable, RestoreIn, LotsApart, BackTo, DrawnOnLine, ReturnedOnLine, Written;
    VoidExact(book, movements, movement, sources, RestoreLotMode, movements[movement].quantity, lot);
    LineAfterVoid(book.entries, after.entries, movements, movement, lot);
  }

  lemma TouchedLot(book: LotBook, after: LotBook, movements: seq<Movement>, movement: nat, sources: seq<nat>, k: nat)
    requires movement < |movements| && Accepted(book, after, movements, movement, sources)
    requires forall j: nat :: j < |sources| ==> sources[j] < |book.entries| && Back(book.entries, sources, movements[movement].quantity, j) >= 0
    requires k < |sources| && Back(book.entries, sources, movements[movement].quantity, k) > 0
    ensures LotWithin(after.entries, movements, movements[movement], book.entries[sources[k]].lot)
            <==> HasRoom(book, movements, movements[movement], sources, k)
  {
    hide Accepted, Back, BackTo, LotsApart, DrawnOnLine, ReturnedOnLine;
    LotAfterVoid(book, after, movements, movement, sources, book.entries[sources[k]].lot);
    WrittenForLot(book, movement, sources, movements[movement].quantity, k);
  }

  lemma AnyLot(book: LotBook, after: LotBook, movements: seq<Movement>, movement: nat, sources: seq<nat>, lot: nat)
    requires movement < |movements| && Accepted(book, after, movements, movement, sources)
    requires forall j: nat :: j < |sources| ==> sources[j] < |book.entries| && Back(book.entries, sources, movements[movement].quantity, j) >= 0
    requires WithinDrawn(book.entries, movements, movements[movement])
    requires forall k: nat :: k < |sources| && Back(book.entries, sources, movements[movement].quantity, k) > 0 ==>
               HasRoom(book, movements, movements[movement], sources, k)
    ensures LotWithin(after.entries, movements, movements[movement], lot)
  {
    hide Accepted, Back, BackTo, LotsApart, DrawnOnLine, ReturnedOnLine, HasRoom;
    var m := movements[movement];
    if k: nat :| k < |sources| && Back(book.entries, sources, m.quantity, k) > 0 && book.entries[sources[k]].lot == lot {
      TouchedLot(book, after, movements, movement, sources, k);
    } else {
      LotAfterVoid(book, after, movements, movement, sources, lot);
      WrittenForOther(book, sources, m.quantity, lot);
      assert LotWithin(book.entries, movements, m, lot);
    }
  }

  // ----- A void of the whole sale -----

  /** What a line's sales at a location took out, and what its reversals there put back. */
  function SoldOn(line: Movements.SaleLine, location: Location): Movement -> int {
    (m: Movement) => if FifoReversal.OfLine(m, line, location) && m.kind == Sale then -m.quantity else 0
  }

  function PutBackOn(line: Movements.SaleLine, location: Location): Movement -> int {
    (m: Movement) => if FifoReversal.OfLine(m, line, location) && Fifo.IsSaleReversal(m.kind) then m.quantity else 0
  }

  lemma LineBalance(log: seq<Movement>, line: Movements.SaleLine, location: Location)
    ensures Total(log, FifoReversal.LineChange(line, location)) == Total(log, PutBackOn(line, location)) - Total(log, SoldOn(line, location))
  {
    TotalPlus(log, FifoReversal.LineChange(line, location), SoldOn(line, location), PutBackOn(line, location));
  }

  /** The cost layers accept a void of all a line sold only while nothing of it has come back. */
  lemma WholeVoidFollowsNothing(book: Fifo.Book, m: Movement, line: Movements.SaleLine, cost: nat)
    requires Invariant(book) && CostsSound(book) && m.quantity > 0 && m.kind == SaleVoid
    requires m.saleLine == Some(line) && m.sourceSale.None? && m.quantity >= Total(book.movements, SoldOn(line, m.location))
    ensures |book.movements| == |book.figures|
    ensures Fifo.Apply(book, m, cost).Ok? ==>
              forall k :: 0 <= k < |book.movements| ==> PutBackOn(line, m.location)(book.movements[k]) == 0
  {
    FifoReversal.ReversalIsExact(book, m, cost);
    FifoReversal.StillSoldIsBalance(book, m, line);
    LineBalance(book.movements, line, m.location);
    hide Invariant, CostsSound, Fifo.Apply, FifoReversal.OfLine;
    if Fifo.Apply(book, m, cost).Ok? {
      forall k | 0 <= k < |book.movements| ensures PutBackOn(line, m.location)(book.movements[k]) == 0 {
        AllPutBackNonNegative(book.movements, line, m.location);
        TotalTerm(book.movements, PutBackOn(line, m.location), k);
      }
    }
  }

  lemma AllPutBackNonNegative(log: seq<Movement>, line: Movements.SaleLine, location: Location)
    ensures forall k :: 0 <= k < |log| ==> PutBackOn(line, location)(log[k]) >= 0
  {
  }

  lemma NothingReturned(lots: LotBook, log: seq<Movement>, m: Movement, line: Movements.SaleLine, lot: nat)
    requires EntriesLinked(lots, log) && m.saleLine == Some(line)
    requires forall k :: 0 <= k < |log| ==> PutBackOn(line, m.location)(log[k]) == 0
    ensures Total(lots.entries, ReturnedOnLine(log + [m], m, lot)) <= 0
  {
    var zero := (e: LotEntry) => 0;
    TotalZero(lots.entries, zero);
    forall k | 0 <= k < |lots.entries| ensures ReturnedOnLine(log + [m], m, lot)(lots.entries[k]) <= 0 {
      assert EntryLinked(lots, log, lots.entries[k]);
      assert PutBackOn(line, m.location)(log[lots.entries[k].movement]) == 0;
    }
    TotalAtMost(lots.entries, ReturnedOnLine(log + [m], m, lot), zero);
  }

  lemma DrawnCovers(lots: LotBook, movements: seq<Movement>, m: Movement, requested: int)
    ensures forall lot :: Total(lots.entries, DrawnOnLine(movements, m, lot)) >= 0
    ensures var sources := Sources(lots, movements, m, |lots.entries|);
            forall k: nat :: k < |sources| && Back(lots.entries, sources, requested, k) > 0 ==>
              Back(lots.entries, sources, requested, k) <= Total(lots.entries, DrawnOnLine(movements, m, lots.entries[sources[k]].lot))
  {
    var sources := Sources(lots, movements, m, |lots.entries|);
    forall lot ensures Total(lots.entries, DrawnOnLine(movements, m, lot)) >= 0 {
      TotalNonNegative(lots.entries, DrawnOnLine(movements, m, lot));
    }
    hide Source, Held;
    forall k: nat | k < |sources| && Back(lots.entries, sources, requested, k) > 0
      ensures Back(lots.entries, sources, requested, k) <= Total(lots.entries, DrawnOnLine(movements, m, lots.entries[sources[k]].lot))
    {
      TotalTerm(lots.entries, DrawnOnLine(movements, m, lots.entries[sources[k]].lot), sources[k]);
    }
  }

  /** Recorded in all ledgers, a void of all a line sold is accepted only while nothing of the line has
      come back, and then leaves every lot within what the line took from it: what the lot ledger alone
      would let through the cost layers refuse. */
  lemma WholeVoidKeepsLots(ledgers: Ledgers, tracking: Tracking, m: Movement, details: Details, line: Movements.SaleLine)
    requires LedgersAgree(ledgers, tracking) && m.quantity > 0 && m.kind == SaleVoid
    requires m.saleLine == Some(line) && m.sourceSale.None? && m.quantity >= Total(ledgers.book.movements, SoldOn(line, m.location))
    ensures |ledgers.book.movements| == |ledgers.book.figures|
    ensures var log := ledgers.book.movements;
            var r := Record(ledgers, tracking, m, details);
            r.Ok? ==>
              && (forall k :: 0 <= k < |log| ==> PutBackOn(line, m.location)(log[k]) == 0)
              && (m.product in tracking.lots ==> WithinDrawn(r.value.lots.entries, log + [m], m))
  {
    AgreementOf(ledgers, tracking);
    var log, id := ledgers.book.movements, |ledgers.book.movements|;
    hide LedgersAgree, Invariant, CostsSound, LotCore, SerialCore, Fifo.Apply, ApplyLots, ApplySerials, WithinDrawn;
    WholeVoidFollowsNothing(ledgers.book, m, line, details.cost);
    var r := Record(ledgers, tracking, m, details);
    if r.Ok? && m.product in tracking.lots {
      var book := Fifo.Apply(ledgers.book, m, details.cost).value;
      assert ApplyLots(ledgers.lots, log + [m], id, book.figures[id].unitCost, details.lot) == Ok(r.value.lots);
      CoreExtends(ledgers.lots, log, m);
      VoidRestores(ledgers.lots, log + [m], id, book.figures[id].unitCost, details.lot);
      WholeVoidLots(ledgers.lots, log, m, line, r.value.lots);
    }
  }

  lemma AgreementOf(ledgers: Ledgers, tracking: Tracking)
    requires LedgersAgree(ledgers, tracking)
    ensures |ledgers.book.movements| == |ledgers.book.figures| && Invariant(ledgers.book) && CostsSound(ledgers.book)
    ensures LotCore(ledgers.lots, ledgers.book.movements)
  {
  }

  lemma VoidRestores(lots: LotBook, movements: seq<Movement>, movement: nat, unitCost: int, options: LotOptions)
    requires movement < |movements| && NoEntries(lots, movement) && movements[movement].kind == SaleVoid && movements[movement].quantity > 0
    ensures ApplyLots(lots, movements, movement, unitCost, options) == RestoreAllocations(lots, movements, movement, RestoreLotMode)
  {
    hide RestoreAllocations;
  }

  lemma WholeVoidLots(lots: LotBook, log: seq<Movement>, m: Movement, line: Movements.SaleLine, after: LotBook)
    requires LotCore(lots, log) && LotCore(lots, log + [m]) && NoEntries(lots, |log|)
    requires m.kind == SaleVoid && m.quantity > 0 && m.saleLine == Some(line)
    requires forall k :: 0 <= k < |log| ==> PutBackOn(line, m.location)(log[k]) == 0
    requires RestoreAllocations(lots, log + [m], |log|, RestoreLotMode) == Ok(after)
    ensures WithinDrawn(after.entries, log + [m], m)
  {
    var movements := log + [m];
    assert EntriesLinked(lots, log);
    VoidIsExact(lots, movements, |log|);
    DrawnCovers(lots, movements, m, m.quantity);
    hide LotCore, RestoreAllocations, Sources, Back, LotsApart, Held, ReturnedOnLine, DrawnOnLine, PutBackOn, EntriesLinked, NoEntries;
    var sources := Sources(lots, movements, m, |lots.entries|);
    forall lot ensures LotWithin(lots.entries, movements, m, lot) {
      NothingReturned(lots, log, m, line, lot);
    }
    forall k: nat | k < |sources| && Back(lots.entries, sources, m.quantity, k) > 0 ensures HasRoom(lots, movements, m, sources, k) {
      NothingReturned(lots, log, m, line, lots.entries[sources[k]].lot);
    }
  }
}
