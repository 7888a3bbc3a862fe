/** A partial return of a lot-tracked sale gives back what is still sold, lot by lot, and
    nothing more. */
module LotReturns {
  import opened Outcomes
  import opened Sums
  import opened Rounding
  import opened Movements
  import opened Selection
  import opened Lots
  import opened LotInvariants
  import opened LotSteps

  /** What the ledger entry at a position drew for the sale and no return has given back. */
  function LeftOf(entries: seq<LotEntry>, movements: seq<Movement>, sale: nat): nat -> int {
    (i: nat) =>
      if i < |entries| && entries[i].movement == sale
      then -entries[i].quantity - Total(entries, ReturnedTo(movements, sale, entries[i].lot)) else 0
  }

  predicate IsReturnOf(m: Movement, sale: nat) {
    m.kind == SaleReturn && m.sourceSale == Some(sale) && m.quantity > 0
  }

  predicate EntryReturnable(book: LotBook, movements: seq<Movement>, movement: nat, sale: nat, i: nat) {
    && i < |book.entries| && LeftOf(book.entries, movements, sale)(i) >= 0
    && var e := book.entries[i];
       && e.movement == sale && e.lot < |book.lots| && book.lots[e.lot].currency == e.currency
       && e.unitCost >= 0 && EntryKeyFree(book, movement, e.lot)
  }

  ghost predicate Returnable(book: LotBook, movements: seq<Movement>, movement: nat, sale: nat, sources: seq<nat>) {
    && NoneNegative(book) && RowsUnique(book.balances) && CostsNonNegative(book) && sale != movement
    && (forall k :: 0 <= k < |sources| ==> EntryReturnable(book, movements, movement, sale, sources[k]))
    && (forall j, k :: 0 <= j < k < |sources| && sources[j] < |book.entries| && sources[k] < |book.entries| ==>
          book.entries[sources[j]].lot != book.entries[sources[k]].lot)
  }

  /** What the return gave back of each lot the sale drew on. */
  ghost predicate GivenBack(book: LotBook, after: LotBook, movements: seq<Movement>, sale: nat, sources: seq<nat>, requested: int) {
    forall k :: 0 <= k < |sources| && sources[k] < |book.entries| ==>
      var lot := book.entries[sources[k]].lot;
      Total(after.entries, ReturnedTo(movements, sale, lot))
      == Total(book.entries, ReturnedTo(movements, sale, lot)) + Taken(sources, LeftOf(book.entries, movements, sale), requested, k)
  }

  lemma ReturnOne(book: LotBook, movements: seq<Movement>, movement: nat, sale: nat, sources: seq<nat>, quantity: int, mode: SelectionMode)
    requires Returnable(book, movements, movement, sale, sources) && sources != []
    requires movement < |movements| && IsReturnOf(movements[movement], sale)
    requires 0 < quantity <= LeftOf(book.entries, movements, sale)(sources[0])
    ensures sources[0] < |book.entries|
    ensures var e := book.entries[sources[0]];
            var r := ChangeLot(book, movement, movements[movement].location, e.lot, quantity, mode, Some(CostSource(e.unitCost, e.currency, true)));
            && r.Ok? && Returnable(r.value, movements, movement, sale, sources[1..])
            && r.value.entries[..|book.entries|] == book.entries
            && (forall lot :: Total(r.value.entries, ReturnedTo(movements, sale, lot))
                  == Total(book.entries, ReturnedTo(movements, sale, lot)) + (if lot == e.lot then quantity else 0))
  {
    var e := book.entries[sources[0]];
    assert EntryReturnable(book, movements, movement, sale, sources[0]);
    var source := Some(CostSource(e.unitCost, e.currency, true));
    CostsAfterChange(book, movement, movements[movement].location, e.lot, quantity, mode, source);
    var r := ChangeLot(book, movement, movements[movement].location, e.lot, quantity, mode, source);
    assert r.Ok?;
    RowsAfterChange(book, movement, movements[movement].location, e.lot, quantity, mode, source);
    ChangeEffect(book, movement, movements[movement].location, e.lot, quantity, mode, source);
    hide ChangeLot, RowsUnique, NoneNegative, CostsNonNegative;
    var added := r.value.entries[|book.entries|];
    assert r.value.entries == book.entries + [added];
    forall lot
      ensures Total(r.value.entries, ReturnedTo(movements, sale, lot))
              == Total(book.entries, ReturnedTo(movements, sale, lot)) + (if lot == e.lot then quantity else 0)
    {
      TotalAppend(book.entries, added, ReturnedTo(movements, sale, lot));
    }
    var rest := sources[1..];
    forall k | 0 <= k < |rest| ensures EntryReturnable(r.value, movements, movement, sale, rest[k]) {
      assert rest[k] == sources[k + 1];
      assert EntryReturnable(book, movements, movement, sale, rest[k]);
      assert r.value.entries[rest[k]] == book.entries[rest[k]];
    }
  }

  /** The rest of the sources still have to give back what they had before. */
  lemma RestUnaffected(book: LotBook, next: LotBook, movements: seq<Movement>, movement: nat, sale: nat, sources: seq<nat>, quantity: int)
    requires Returnable(book, movements, movement, sale, sources) && sources != [] && sources[0] < |book.entries|
    requires |book.entries| <= |next.entries| && next.entries[..|book.entries|] == book.entries
    requires forall lot :: Total(next.entries, ReturnedTo(movements, sale, lot))
               == Total(book.entries, ReturnedTo(movements, sale, lot)) + (if lot == book.entries[sources[0]].lot then quantity else 0)
    ensures forall j :: 1 <= j < |sources| ==>
              LeftOf(next.entries, movements, sale)(sources[j]) == LeftOf(book.entries, movements, sale)(sources[j])
    ensures forall j :: 0 <= j < |sources| ==>
              sources[j] < |book.entries| && LeftOf(book.entries, movements, sale)(sources[j]) >= 0
              && next.entries[sources[j]] == book.entries[sources[j]]
  {
    forall j | 0 <= j < |sources|
      ensures sources[j] < |book.entries| && LeftOf(book.entries, movements, sale)(sources[j]) >= 0
              && next.entries[sources[j]] == book.entries[sources[j]]
    {
      assert EntryReturnable(book, movements, movement, sale, sources[j]);
      assert next.entries[..|book.entries|][sources[j]] == book.entries[sources[j]];
    }
  }

  lemma GivenBackRound(book: LotBook, next: LotBook, after: LotBook, movements: seq<Movement>, sale: nat, sources: seq<nat>, requested: int)
    requires requested > 0 && sources != []
    requires forall j :: 0 <= j < |sources| ==>
               sources[j] < |book.entries| && LeftOf(book.entries, movements, sale)(sources[j]) >= 0
               && sources[j] < |next.entries| && next.entries[sources[j]] == book.entries[sources[j]]
    requires forall j :: 1 <= j < |sources| ==>
               LeftOf(next.entries, movements, sale)(sources[j]) == LeftOf(book.entries, movements, sale)(sources[j])
               && book.entries[sources[j]].lot != book.entries[sources[0]].lot
    requires var quantity := Min(LeftOf(book.entries, movements, sale)(sources[0]), requested);
             && GivenBack(next, after, movements, sale, sources[1..], requested - quantity)
             && (forall lot :: Total(next.entries, ReturnedTo(movements, sale, lot))
                   == Total(book.entries, ReturnedTo(movements, sale, lot)) + (if lot == book.entries[sources[0]].lot then quantity else 0))
    requires var lot := book.entries[sources[0]].lot;
             Total(after.entries, ReturnedTo(movements, sale, lot)) == Total(next.entries, ReturnedTo(movements, sale, lot))
    ensures GivenBack(book, after, movements, sale, sources, requested)
  {
    hide Held, Total;
    var left, then_ := LeftOf(book.entries, movements, sale), LeftOf(next.entries, movements, sale);
    var rest := sources[1..];
    forall k | 0 <= k < |sources|
      ensures var lot := book.entries[sources[k]].lot;
              Total(after.entries, ReturnedTo(movements, sale, lot))
              == Total(book.entries, ReturnedTo(movements, sale, lot)) + Taken(sources, left, requested, k)
    {
      if k == 0 {
        HeldNone(sources, left);
      } else {
        assert rest[k - 1] == sources[k];
        TakenShift(sources, left, then_, requested, k);
      }
    }
  }

  /** A return touches only the lots of the listed entries. */
  lemma {:induction false} OtherLotsUntouched(book: LotBook, movements: seq<Movement>, movement: nat, sale: nat, sources: seq<nat>,
                                              mode: SelectionMode, requested: int, lot: nat)
    requires movement < |movements|
    requires forall k :: 0 <= k < |sources| ==> sources[k] < |book.entries| && book.entries[sources[k]].lot != lot
    ensures var r := RestoreIn(book, movements, movement, sources, mode, requested);
            r.Ok? ==> Total(r.value.entries, ReturnedTo(movements, sale, lot)) == Total(book.entries, ReturnedTo(movements, sale, lot))
    decreases |sources|
  {
    hide Total, ReturnedTo;
    if sources != [] && requested != 0 {
      var m, e := movements[movement], book.entries[sources[0]];
      var already := if m.kind == SaleReturn then Total(book.entries, ReturnedTo(movements, e.movement, e.lot)) else 0;
      var quantity := Min(-e.quantity - already, requested);
      if quantity <= 0 {
        OtherLotsUntouched(book, movements, movement, sale, sources[1..], mode, requested, lot);
      } else {
        var source := Some(CostSource(e.unitCost, e.currency, true));
        var r := ChangeLot(book, movement, m.location, e.lot, quantity, mode, source);
        if r.Ok? {
          ChangeEffect(book, movement, m.location, e.lot, quantity, mode, source);
          hide ChangeLot;
          var added := r.value.entries[|book.entries|];
          assert r.value.entries == book.entries + [added];
          AppendOther(book.entries, added, movements, sale, lot);
          OtherLotsUntouched(r.value, movements, movement, sale, sources[1..], mode, requested - quantity, lot);
        }
      }
    }
  }

  lemma AppendOther(entries: seq<LotEntry>, added: LotEntry, movements: seq<Movement>, sale: nat, lot: nat)
    requires added.lot != lot
    ensures Total(entries + [added], ReturnedTo(movements, sale, lot)) == Total(entries, ReturnedTo(movements, sale, lot))
  {
    TotalAppend(entries, added, ReturnedTo(movements, sale, lot));
  }

  lemma {:induction false} RestoreIsExact(book: LotBook, movements: seq<Movement>, movement: nat, sale: nat, sources: seq<nat>,
                                          mode: SelectionMode, requested: int)
    requires movement < |movements| && IsReturnOf(movements[movement], sale) && requested >= 0
    requires Returnable(book, movements, movement, sale, sources)
    requires forall k :: 0 <= k < |sources| ==> sources[k] < |book.entries|
    ensures var r := RestoreIn(book, movements, movement, sources, mode, requested);
            && (r.Ok? <==> requested <= Held(sources, LeftOf(book.entries, movements, sale), |sources|))
            && (r.Ok? ==> GivenBack(book, r.value, movements, sale, sources, requested))
            && (r.Err? ==> r == Err(LotRestoreMismatch))
    decreases |sources|
  {
    var left := LeftOf(book.entries, movements, sale);
    if sources == [] {
    } else if requested == 0 {
      assert forall k :: 0 <= k < |sources| ==> left(sources[k]) >= 0 by {
        forall k | 0 <= k < |sources| ensures left(sources[k]) >= 0 {
          assert EntryReturnable(book, movements, movement, sale, sources[k]);
        }
      }
      forall k | 0 <= k < |sources| ensures Taken(sources, left, 0, k) == 0 {
        NothingTaken(sources, left, k);
      }
      HeldNonNegative(sources, left, |sources|);
    } else {
      RestoreRound(book, movements, movement, sale, sources, mode, requested);
    }
  }

  lemma ReturnableHead(book: LotBook, movements: seq<Movement>, movement: nat, sale: nat, sources: seq<nat>)
    requires Returnable(book, movements, movement, sale, sources) && sources != []
    ensures sources[0] < |book.entries| && book.entries[sources[0]].movement == sale
    ensures LeftOf(book.entries, movements, sale)(sources[0])
            == -book.entries[sources[0]].quantity - Total(book.entries, ReturnedTo(movements, sale, book.entries[sources[0]].lot)) >= 0
    ensures Returnable(book, movements, movement, sale, sources[1..])
    ensures forall j :: 1 <= j < |sources| ==>
              sources[j] < |book.entries| && book.entries[sources[j]].lot != book.entries[sources[0]].lot
    ensures forall j :: 0 <= j < |sources| ==> LeftOf(book.entries, movements, sale)(sources[j]) >= 0
  {
    forall j | 0 <= j < |sources| ensures sources[j] < |book.entries| && LeftOf(book.entries, movements, sale)(sources[j]) >= 0 {
      assert EntryReturnable(book, movements, movement, sale, sources[j]);
    }
  }

  lemma RestoreRound(book: LotBook, movements: seq<Movement>, movement: nat, sale: nat, sources: seq<nat>,
                     mode: SelectionMode, requested: int)
    requires movement < |movements| && IsReturnOf(movements[movement], sale) && requested > 0 && sources != []
    requires Returnable(book, movements, movement, sale, sources)
    requires forall k :: 0 <= k < |sources| ==> sources[k] < |book.entries|
    ensures var r := RestoreIn(book, movements, movement, sources, mode, requested);
            && (r.Ok? <==> requested <= Held(sources, LeftOf(book.entries, movements, sale), |sources|))
            && (r.Ok? ==> GivenBack(book, r.value, movements, sale, sources, requested))
            && (r.Err? ==> r == Err(LotRestoreMismatch))
    decreases |sources|, 0
  {
    hide Held, Total, Returnable, ChangeLot, GivenBack, ReturnedTo, Taken;
    var m, e, rest := movements[movement], book.entries[sources[0]], sources[1..];
    var left := LeftOf(book.entries, movements, sale);
    ReturnableHead(book, movements, movement, sale, sources);
    var quantity := Min(left(sources[0]), requested);
    var next := book;
    if quantity > 0 {
      ReturnOne(book, movements, movement, sale, sources, quantity, mode);
      next := ChangeLot(book, movement, m.location, e.lot, quantity, mode, Some(CostSource(e.unitCost, e.currency, true))).value;
    }
    var r := RestoreIn(next, movements, movement, rest, mode, requested - quantity);
    assert r == RestoreIn(book, movements, movement, sources, mode, requested);
    hide RestoreIn;
    RestoreIsExact(next, movements, movement, sale, rest, mode, requested - quantity);
    RestUnaffected(book, next, movements, movement, sale, sources, quantity);
    hide LeftOf;
    HeldShift(sources, left, LeftOf(next.entries, movements, sale), |sources|);
    RestNonNegative(sources, left, LeftOf(next.entries, movements, sale));
    if r.Ok? {
      OtherLotsUntouched(next, movements, movement, sale, rest, mode, requested - quantity, e.lot);
      GivenBackRound(book, next, r.value, movements, sale, sources, requested);
    }
  }

  lemma RestNonNegative(sources: seq<nat>, left: nat -> int, next: nat -> int)
    requires sources != []
    requires forall j :: 0 <= j < |sources| ==> left(sources[j]) >= 0
    requires forall j :: 1 <= j < |sources| ==> next(sources[j]) == left(sources[j])
    ensures Held(sources[1..], next, |sources| - 1) >= 0
  {
    HeldNonNegative(sources[1..], next, |sources| - 1);
  }

  // ----- The theorem -----

  lemma {:induction false} SourcesHold(book: LotBook, movements: seq<Movement>, m: Movement, sale: nat, amount: nat -> int, n: nat)
    requires n <= |book.entries|
    requires forall k: nat :: k < n ==> if Source(movements, book.entries[k], m) then true else amount(k) == 0
    ensures var sources := Sources(book, movements, m, n);
            Held(sources, amount, |sources|) == Sum(n, amount)
  {
    hide Source;
    if n > 0 {
      SourcesHold(book, movements, m, sale, amount, n - 1);
      var before := Sources(book, movements, m, n - 1);
      HeldPrefix(before, before + [n - 1], amount, |before|);
    }
  }

  lemma {:induction false} DrawnOnce(entries: seq<LotEntry>, k: nat)
    requires k < |entries|
    requires forall i, j :: 0 <= i < j < |entries| ==> entries[i].movement != entries[j].movement || entries[i].lot != entries[j].lot
    ensures Total(entries, DrawnBy(entries[k].movement, entries[k].lot)) == if entries[k].quantity < 0 then -entries[k].quantity else 0
  {
    var e := entries[k];
    var zeroed := entries[k := e.(quantity := 0)];
    TotalUpdate(entries, k, e.(quantity := 0), DrawnBy(e.movement, e.lot));
    forall j | 0 <= j < |zeroed| ensures DrawnBy(e.movement, e.lot)(zeroed[j]) == 0 {
    }
    TotalZero(zeroed, DrawnBy(e.movement, e.lot));
  }

  lemma SaleReturnable(book: LotBook, movements: seq<Movement>, movement: nat, sale: nat)
    requires LotCore(book, movements) && movement < |movements| && NoEntries(book, movement)
    requires IsReturnOf(movements[movement], sale) && sale != movement
    requires sale < |movements| && movements[sale].quantity < 0
    ensures Returnable(book, movements, movement, sale, Sources(book, movements, movements[movement], |book.entries|))
  {
    var sources := Sources(book, movements, movements[movement], |book.entries|);
    SourcesDistinct(book, movements, movements[movement], |book.entries|);
    forall k | 0 <= k < |sources| ensures EntryReturnable(book, movements, movement, sale, sources[k]) {
      var e := book.entries[sources[k]];
      assert EntryLinked(book, movements, e);
      DrawnOnce(book.entries, sources[k]);
      assert Total(book.entries, ReturnedTo(movements, sale, e.lot)) <= Total(book.entries, DrawnBy(sale, e.lot));
    }
  }

  /** What a sale's entries still have to give back. */
  function StillSoldInLots(book: LotBook, movements: seq<Movement>, sale: nat): int {
    Sum(|book.entries|, LeftOf(book.entries, movements, sale))
  }

  /** A return succeeds exactly while its sale has enough left to give back, and takes it lot by
      lot in the order the sale drew, never more of a lot than is still sold. */
  lemma ReturnIsExact(book: LotBook, movements: seq<Movement>, movement: nat, sale: nat)
    requires LotCore(book, movements) && movement < |movements| && NoEntries(book, movement)
    requires IsReturnOf(movements[movement], sale) && sale != movement
    requires sale < |movements| && movements[sale].kind == Sale && movements[sale].quantity < 0
    ensures var r := RestoreAllocations(book, movements, movement, RestoreLotMode);
            var sources := Sources(book, movements, movements[movement], |book.entries|);
            && (r.Ok? <==> movements[movement].quantity <= StillSoldInLots(book, movements, sale))
            && (r.Ok? ==> GivenBack(book, r.value, movements, sale, sources, movements[movement].quantity))
  {
    var m := movements[movement];
    var sources := Sources(book, movements, m, |book.entries|);
    SaleReturnable(book, movements, movement, sale);
    hide LotCore, Returnable, GivenBack, Held, Total;
    SourcesHold(book, movements, m, sale, LeftOf(book.entries, movements, sale), |book.entries|);
    RestoreIsExact(book, movements, movement, sale, sources, RestoreLotMode, m.quantity);
    if sources == [] {
      HeldNone(sources, LeftOf(book.entries, movements, sale));
    }
  }
}
