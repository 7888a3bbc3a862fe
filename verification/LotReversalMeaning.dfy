/** What voids, returns and arrivals give back to the lots, said of the ledger entries themselves. */
module LotReversalMeaning {
  import opened Outcomes
  import opened Sums
  import opened Rounding
  import opened Movements
  import opened Selection
  import opened Lots
  import opened LotInvariants

  /** The entry went out on what the movement gives back: a return its named sale, a void the sales of its
      line at the place, an arrival the departure of its line. */
  ghost predicate WentOut(entries: seq<LotEntry>, movements: seq<Movement>, m: Movement, x: nat) {
    x < |entries| && entries[x].movement < |movements|
    && var out := movements[entries[x].movement];
       && (m.kind == SaleReturn ==> out.kind == Sale && m.sourceSale == Some(entries[x].movement))
       && (m.kind == SaleVoid ==> out.kind == Sale && m.saleLine.Some? && out.saleLine == m.saleLine && out.location == m.location)
       && (m.kind == TransferIn ==> out.kind == TransferOut && m.transferLine.Some? && out.transferLine == m.transferLine)
  }

  ghost function BackFrom(movements: seq<Movement>, sale: nat, lot: nat): LotEntry -> int {
    (e: LotEntry) =>
      if e.lot == lot && e.movement < |movements| && movements[e.movement].kind == SaleReturn && movements[e.movement].sourceSale == Some(sale)
      then e.quantity else 0
  }

  /** What may still come back of an entry: a return counts what came back of its sale to the lot before. */
  ghost function LeftOver(entries: seq<LotEntry>, movements: seq<Movement>, m: Movement, x: nat): int
    requires x < |entries|
  {
    -entries[x].quantity - (if m.kind == SaleReturn then Total(entries, BackFrom(movements, entries[x].movement, entries[x].lot)) else 0)
  }

  /** What a round wrote of the entry it gave back. */
  ghost predicate Returns(out: LotEntry, back: LotEntry, movement: nat, location: Location, mode: SelectionMode) {
    back == LotEntry(movement, out.lot, location, back.quantity, out.unitCost, out.currency, QuantityValue(back.quantity, out.unitCost), mode)
  }

  ghost predicate Rising(entries: seq<LotEntry>, sources: seq<nat>) {
    && (forall k :: 0 <= k < |sources| ==> sources[k] < |entries|)
    && (forall j, k :: 0 <= j < k < |sources| ==> sources[j] < sources[k])
  }

  ghost predicate GivesAt(entries: seq<LotEntry>, x: nat, back: LotEntry, movements: seq<Movement>, movement: nat, mode: SelectionMode, last: bool)
    requires movement < |movements|
  {
    var m := movements[movement];
    x < |entries| && Returns(entries[x], back, movement, m.location, mode) && 0 < back.quantity <= LeftOver(entries, movements, m, x)
    && (!last ==> back.quantity == LeftOver(entries, movements, m, x))
  }

  ghost predicate EachGives(entries: seq<LotEntry>, added: seq<LotEntry>, from: seq<nat>, movements: seq<Movement>, movement: nat, mode: SelectionMode)
    requires movement < |movements|
  {
    |added| == |from| && forall i :: 0 <= i < |from| ==> GivesAt(entries, from[i], added[i], movements, movement, mode, i == |from| - 1)
  }

  ghost predicate NothingLeft(entries: seq<LotEntry>, movements: seq<Movement>, m: Movement, x: nat) {
    x < |entries| && LeftOver(entries, movements, m, x) <= 0
  }

  ghost predicate SkippedEmpty(entries: seq<LotEntry>, from: seq<nat>, sources: seq<nat>, movements: seq<Movement>, m: Movement) {
    forall x, i :: x in sources && 0 <= i < |from| && x < from[i] && x !in from ==> NothingLeft(entries, movements, m, x)
  }

  /** The entries added give back the entries named in `from`, in their order: all but the last in full, the
      last no more than is left, and those passed over had nothing left. */
  ghost predicate GivenInOrder(
    entries: seq<LotEntry>, added: seq<LotEntry>, from: seq<nat>, sources: seq<nat>, movements: seq<Movement>, movement: nat, mode: SelectionMode)
    requires movement < |movements|
  {
    && Rising(entries, from) && (forall x :: x in from ==> x in sources)
    && EachGives(entries, added, from, movements, movement, mode) && SkippedEmpty(entries, from, sources, movements, movements[movement])
  }

  /** The sources of a return are of one movement and different lots, and the ledger has the lots' currencies. */
  ghost predicate Sound(book: LotBook, m: Movement, sources: seq<nat>) {
    && Rising(book.entries, sources)
    && (forall k :: 0 <= k < |sources| ==>
          book.entries[sources[k]].lot < |book.lots| && book.lots[book.entries[sources[k]].lot].currency == book.entries[sources[k]].currency)
    && (m.kind == SaleReturn ==>
          forall j, k :: 0 <= j < k < |sources| ==> book.entries[sources[j]].lot != book.entries[sources[k]].lot)
  }

  lemma {:induction false} SameBack(entries: seq<LotEntry>, movements: seq<Movement>, sale: nat, lot: nat)
    ensures Total(entries, ReturnedTo(movements, sale, lot)) == Total(entries, BackFrom(movements, sale, lot))
  {
    TotalSame(entries, ReturnedTo(movements, sale, lot), entries, BackFrom(movements, sale, lot));
  }

  lemma OneBack(book: LotBook, movement: nat, m: Movement, sources: seq<nat>, quantity: int, mode: SelectionMode)
    requires Sound(book, m, sources) && sources != [] && SourcesThere(book, sources)
    requires Given(book, movement, m, sources, quantity, mode).Ok?
    ensures var next := Given(book, movement, m, sources, quantity, mode).value;
            && |next.entries| == |book.entries| + 1 && next.entries == book.entries + [next.entries[|book.entries|]]
            && Returns(book.entries[sources[0]], next.entries[|book.entries|], movement, m.location, mode)
            && next.entries[|book.entries|].quantity == quantity && Sound(next, m, sources[1..])
  {
    hide Revalued, QuantityValue, EntryKeyFree, FindRow, EnsureRow;
  }

  lemma LeftOverStays(entries: seq<LotEntry>, back: LotEntry, movements: seq<Movement>, m: Movement, x: nat)
    requires x < |entries| && (m.kind == SaleReturn ==> back.lot != entries[x].lot)
    ensures LeftOver(entries + [back], movements, m, x) == LeftOver(entries, movements, m, x)
  {
    TotalAppend(entries, back, BackFrom(movements, entries[x].movement, entries[x].lot));
  }

  lemma {:induction false} GivesInOrder(book: LotBook, movements: seq<Movement>, movement: nat, sources: seq<nat>, mode: SelectionMode, remaining: int)
    returns (from: seq<nat>)
    requires movement < |movements| && Sound(book, movements[movement], sources) && remaining >= 0
    requires SourcesThere(book, sources) && RestoreIn(book, movements, movement, sources, mode, remaining).Ok?
    ensures var after := RestoreIn(book, movements, movement, sources, mode, remaining).value;
            && |book.entries| <= |after.entries| && after.entries[..|book.entries|] == book.entries
            && GivenInOrder(book.entries, after.entries[|book.entries|..], from, sources, movements, movement, mode)
            && (remaining == 0 ==> from == []) && Total(after.entries[|book.entries|..], Units()) == remaining
    decreases |sources|
  {
    from := [];
    hide Total, ChangeLot, LeftOver, RestoreIn, Returns, Sound, GivenInOrder;
    if sources == [] || remaining == 0 {
      GivesNothing(book, movements, movement, sources, mode, remaining);
      assert book.entries[|book.entries|..] == [];
    } else {
      var m, after := movements[movement], RestoreIn(book, movements, movement, sources, mode, remaining).value;
      var quantity := Min(LeftOver(book.entries, movements, m, sources[0]), remaining);
      if quantity <= 0 {
        SoundTail(book, m, sources);
        RestoreSkips(book, movements, movement, sources, mode, remaining);
        from := GivesInOrder(book, movements, movement, sources[1..], mode, remaining);
        PassedOver(book, after.entries[|book.entries|..], from, sources, movements, movement, mode);
      } else {
        RestoreGoesOn(book, movements, movement, sources, mode, remaining, quantity);
        OneBack(book, movement, m, sources, quantity, mode);
        var next := Given(book, movement, m, sources, quantity, mode).value;
        var rest := GivesInOrder(next, movements, movement, sources[1..], mode, remaining - quantity);
        from := [sources[0]] + rest;
        OneAhead(book, next.entries[|book.entries|], after.entries[|next.entries|..], rest, sources, movements, movement, mode);
        FirstAndRest(book.entries, next.entries, after.entries);
        UnitsAhead(next.entries[|book.entries|], after.entries[|next.entries|..]);
      }
    }
  }

  ghost function Units(): LotEntry -> int {
    (e: LotEntry) => e.quantity
  }

  lemma UnitsAhead(back: LotEntry, added: seq<LotEntry>)
    ensures Total([back] + added, Units()) == back.quantity + Total(added, Units())
  {
    TotalConcat([back], added, Units());
    TotalAppend([], back, Units());
    assert [] + [back] == [back];
  }

  lemma FirstAndRest(entries: seq<LotEntry>, next: seq<LotEntry>, after: seq<LotEntry>)
    requires |next| == |entries| + 1 && next[..|entries|] == entries && |next| <= |after| && after[..|next|] == next
    ensures after[..|entries|] == entries && after[|entries|..] == [next[|entries|]] + after[|next|..]
  {
    assert after[..|entries|] == after[..|next|][..|entries|];
    assert after[|entries|] == after[..|next|][|entries|];
  }

  lemma GivesNothing(book: LotBook, movements: seq<Movement>, movement: nat, sources: seq<nat>, mode: SelectionMode, remaining: int)
    requires movement < |movements| && SourcesThere(book, sources) && (sources == [] || remaining == 0)
    requires RestoreIn(book, movements, movement, sources, mode, remaining).Ok?
    ensures RestoreIn(book, movements, movement, sources, mode, remaining) == Ok(book) && Total<LotEntry>([], Units()) == remaining == 0
    ensures GivenInOrder(book.entries, [], [], sources, movements, movement, mode)
  {
  }

  ghost predicate SourcesThere(book: LotBook, sources: seq<nat>) {
    forall k :: 0 <= k < |sources| ==> sources[k] < |book.entries|
  }

  /** One round's change of the first source's lot. */
  ghost function Given(book: LotBook, movement: nat, m: Movement, sources: seq<nat>, quantity: int, mode: SelectionMode): Result<LotBook>
    requires sources != [] && SourcesThere(book, sources)
  {
    var e := book.entries[sources[0]];
    ChangeLot(book, movement, m.location, e.lot, quantity, mode, Some(CostSource(e.unitCost, e.currency, true)))
  }

  lemma RestoreSkips(book: LotBook, movements: seq<Movement>, movement: nat, sources: seq<nat>, mode: SelectionMode, remaining: int)
    requires movement < |movements| && sources != [] && remaining > 0 && SourcesThere(book, sources)
    requires LeftOver(book.entries, movements, movements[movement], sources[0]) <= 0
    ensures SourcesThere(book, sources[1..])
    ensures RestoreIn(book, movements, movement, sources, mode, remaining) == RestoreIn(book, movements, movement, sources[1..], mode, remaining)
  {
    var e := book.entries[sources[0]];
    SameBack(book.entries, movements, e.movement, e.lot);
    hide Total, ChangeLot;
  }

  lemma RestoreGoesOn(book: LotBook, movements: seq<Movement>, movement: nat, sources: seq<nat>, mode: SelectionMode, remaining: int, quantity: int)
    requires movement < |movements| && sources != [] && remaining > 0 && SourcesThere(book, sources)
    requires quantity == Min(LeftOver(book.entries, movements, movements[movement], sources[0]), remaining) > 0
    requires RestoreIn(book, movements, movement, sources, mode, remaining).Ok?
    ensures var given := Given(book, movement, movements[movement], sources, quantity, mode);
            && given.Ok? && SourcesThere(given.value, sources[1..])
            && RestoreIn(book, movements, movement, sources, mode, remaining)
               == RestoreIn(given.value, movements, movement, sources[1..], mode, remaining - quantity)
  {
    var e := book.entries[sources[0]];
    SameBack(book.entries, movements, e.movement, e.lot);
    hide Total, ChangeLot, ReturnedTo;
  }

  lemma SoundTail(book: LotBook, m: Movement, sources: seq<nat>)
    requires Sound(book, m, sources) && sources != []
    ensures Sound(book, m, sources[1..])
  {
  }

  lemma PassedOver(book: LotBook, added: seq<LotEntry>, from: seq<nat>, sources: seq<nat>, movements: seq<Movement>, movement: nat, mode: SelectionMode)
    requires movement < |movements| && Sound(book, movements[movement], sources) && sources != []
    requires NothingLeft(book.entries, movements, movements[movement], sources[0])
    requires GivenInOrder(book.entries, added, from, sources[1..], movements, movement, mode)
    ensures GivenInOrder(book.entries, added, from, sources, movements, movement, mode)
  {
    hide EachGives, NothingLeft, Sound;
    assert sources == [sources[0]] + sources[1..];
  }

  lemma EachAhead(book: LotBook, back: LotEntry, added: seq<LotEntry>, from: seq<nat>, sources: seq<nat>, movements: seq<Movement>, movement: nat,
                  mode: SelectionMode)
    requires movement < |movements| && Sound(book, movements[movement], sources) && sources != []
    requires GivesAt(book.entries, sources[0], back, movements, movement, mode, from == [])
    requires EachGives(book.entries + [back], added, from, movements, movement, mode) && forall x :: x in from ==> x in sources[1..]
    ensures EachGives(book.entries, [back] + added, [sources[0]] + from, movements, movement, mode)
  {
    var m, entries, all, rows := movements[movement], book.entries, [sources[0]] + from, [back] + added;
    forall i | 0 <= i < |all| ensures GivesAt(entries, all[i], rows[i], movements, movement, mode, i == |all| - 1) {
      if i > 0 {
        assert all[i] == from[i - 1] && rows[i] == added[i - 1];
        OtherLot(book, back, sources, movements, m, from[i - 1], movement, mode);
        assert GivesAt(entries + [back], from[i - 1], added[i - 1], movements, movement, mode, i - 1 == |from| - 1);
        hide LeftOver, Returns, Sound;
      }
    }
  }

  lemma OtherLot(book: LotBook, back: LotEntry, sources: seq<nat>, movements: seq<Movement>, m: Movement, x: nat, movement: nat, mode: SelectionMode)
    requires Sound(book, m, sources) && sources != [] && x in sources[1..]
    requires Returns(book.entries[sources[0]], back, movement, m.location, mode)
    ensures x < |book.entries| && (book.entries + [back])[x] == book.entries[x]
    ensures LeftOver(book.entries + [back], movements, m, x) == LeftOver(book.entries, movements, m, x)
  {
    var k :| 0 <= k < |sources[1..]| && sources[1..][k] == x;
    assert x == sources[k + 1];
    LeftOverStays(book.entries, back, movements, m, x);
  }

  lemma SkipAhead(book: LotBook, back: LotEntry, from: seq<nat>, sources: seq<nat>, movements: seq<Movement>, m: Movement, movement: nat, mode: SelectionMode)
    requires Sound(book, m, sources) && sources != [] && Returns(book.entries[sources[0]], back, movement, m.location, mode)
    requires SkippedEmpty(book.entries + [back], from, sources[1..], movements, m) && Rising(book.entries + [back], from)
    requires forall x :: x in from ==> x in sources[1..]
    ensures SkippedEmpty(book.entries, [sources[0]] + from, sources, movements, m) && Rising(book.entries, [sources[0]] + from)
  {
    var all := [sources[0]] + from;
    forall x | x in sources[1..]
      ensures sources[0] < x < |book.entries|
      ensures NothingLeft(book.entries + [back], movements, m, x) ==> NothingLeft(book.entries, movements, m, x)
    {
      OtherLot(book, back, sources, movements, m, x, movement, mode);
      var k :| 0 <= k < |sources[1..]| && sources[1..][k] == x;
      assert x == sources[k + 1];
    }
    assert sources == [sources[0]] + sources[1..];
    assert forall i :: 1 <= i < |all| ==> all[i] == from[i - 1] && all[i] in from;
    hide NothingLeft, Sound, Returns;
    forall x, i | x in sources && 0 <= i < |all| && x < all[i] && x !in all ensures NothingLeft(book.entries, movements, m, x) {
      assert x in sources[1..] && i > 0 && x < from[i - 1] && x !in from;
    }
  }

  lemma OneAhead(book: LotBook, back: LotEntry, added: seq<LotEntry>, from: seq<nat>, sources: seq<nat>, movements: seq<Movement>, movement: nat,
                 mode: SelectionMode)
    requires movement < |movements| && Sound(book, movements[movement], sources) && sources != []
    requires GivesAt(book.entries, sources[0], back, movements, movement, mode, from == [])
    requires GivenInOrder(book.entries + [back], added, from, sources[1..], movements, movement, mode)
    ensures GivenInOrder(book.entries, [back] + added, [sources[0]] + from, sources, movements, movement, mode)
  {
    EachAhead(book, back, added, from, sources, movements, movement, mode);
    SkipAhead(book, back, from, sources, movements, movements[movement], movement, mode);
    hide EachGives, SkippedEmpty, Sound, Rising, GivesAt;
    assert sources == [sources[0]] + sources[1..];
  }

  // ----- Which entries -----

  ghost predicate GivesLotsBack(kind: Kind) {
    kind == SaleVoid || kind == SaleReturn || kind == TransferIn
  }

  lemma SourceIs(book: LotBook, movements: seq<Movement>, m: Movement, x: nat)
    requires x < |book.entries| && GivesLotsBack(m.kind)
    ensures Source(movements, book.entries[x], m) <==> WentOut(book.entries, movements, m, x)
  {
  }

  lemma {:induction false} SourcesAre(book: LotBook, movements: seq<Movement>, m: Movement, n: nat)
    requires n <= |book.entries| && GivesLotsBack(m.kind)
    ensures Rising(book.entries, Sources(book, movements, m, n))
    ensures forall x: nat :: x in Sources(book, movements, m, n) <==> x < n && WentOut(book.entries, movements, m, x)
  {
    hide Source, WentOut, GivesLotsBack;
    if n > 0 {
      SourcesAre(book, movements, m, n - 1);
      SourceIs(book, movements, m, n - 1);
    }
  }

  lemma SourcesSound(book: LotBook, movements: seq<Movement>, m: Movement, sources: seq<nat>)
    requires LotCore(book, movements) && Rising(book.entries, sources)
    requires forall x: nat :: x in sources <==> WentOut(book.entries, movements, m, x)
    ensures Sound(book, m, sources)
  {
    forall k | 0 <= k < |sources|
      ensures book.entries[sources[k]].lot < |book.lots| && book.lots[book.entries[sources[k]].lot].currency == book.entries[sources[k]].currency
    {
      assert EntryLinked(book, movements, book.entries[sources[k]]);
    }
    assert forall k :: 0 <= k < |sources| ==> sources[k] in sources;
  }

  /** An accepted void, return or arrival gives its quantity back to what went out on what it reverses, entry by
      entry in the order it went out: each in full before the next, the last no more than is left of it. */
  lemma FirstDrawnComesBackFirst(book: LotBook, movements: seq<Movement>, movement: nat, unitCost: int, options: LotOptions) returns (from: seq<nat>)
    requires LotCore(book, movements) && movement < |movements| && movements[movement].quantity > 0 && GivesLotsBack(movements[movement].kind)
    requires (forall k :: 0 <= k < |book.entries| ==> book.entries[k].movement != movement) && ApplyLots(book, movements, movement, unitCost, options).Ok?
    ensures var m, after := movements[movement], ApplyLots(book, movements, movement, unitCost, options).value;
            && |book.entries| <= |after.entries| && after.entries[..|book.entries|] == book.entries
            && Total(after.entries[|book.entries|..], Units()) == m.quantity
            && EachGives(book.entries, after.entries[|book.entries|..], from, movements, movement,
                         if m.kind == TransferIn then TransferLotMode else RestoreLotMode)
            && Rising(book.entries, from) && (forall x :: x in from ==> WentOut(book.entries, movements, m, x))
            && (forall x: nat, i :: WentOut(book.entries, movements, m, x) && 0 <= i < |from| && x < from[i] && x !in from ==>
                  NothingLeft(book.entries, movements, m, x))
  {
    var m := movements[movement];
    var sources := Sources(book, movements, m, |book.entries|);
    SourcesAre(book, movements, m, |book.entries|);
    SourcesSound(book, movements, m, sources);
    var mode := if m.kind == TransferIn then TransferLotMode else RestoreLotMode;
    hide LotCore, RestoreIn, Sources, WentOut, Sound, EachGives, NothingLeft, Total;
    from := GivesInOrder(book, movements, movement, sources, mode, m.quantity);
  }
}
