/** What serial tracking does to the units, said of the units themselves: which ones a movement moves, from
    which state, and where they are afterwards. */
module SerialMeaning {
  import opened Outcomes
  import opened Rounding
  import opened Movements
  import opened Text
  import opened Serials
  import opened SerialInvariants
  import opened SerialTheorems

  // ----- Custody -----

  /** From which state a movement of the kind takes a unit, and the state and place it leaves it in. */
  ghost predicate MovesUnit(m: Movement, destination: Option<Location>, before: Serial, after: Serial) {
    && after == before.(status := after.status, location := after.location)
    && (m.kind != SaleVoid && m.kind != SaleReturn ==> before.location == Some(m.location))
    && match m.kind
       case Sale => before.status == (if m.reserved then Reserved else Available) && after.status == Sold && after.location == None
       case SaleVoid => (before.status == Sold || before.status == Removed) && after.status == Available && after.location == Some(m.location)
       case Return => (before.status == Sold || before.status == Removed) && after.status == Available && after.location == Some(m.location)
       case SaleReturn =>
         before.status == Sold && after.status == (if m.damagedReturn then Damaged else Available) && after.location == Some(m.location)
       case TransferOut => before.status == Available && after.status == InTransit && after.location == destination
       case TransferReceipt => before.status == InTransit && after.status == Available && after.location == Some(m.location)
       case TransferDiscrepancy => before.status == InTransit && after.status == Removed && after.location == None
       case SupplierReturn => before.status == Available && after.status == ReturnedToSupplier && after.location == None
       case StateTransition =>
         m.state.Some? && before.status == m.state.value.from && after.status == m.state.value.to && after.location == Some(m.location)
       case Damage => before.status == Available && after.status == Damaged && after.location == Some(m.location)
       case _ => before.status == Available && after.status == Removed && after.location == None
  }

  /** The movement brings new units in. */
  ghost predicate BringsUnits(m: Movement) {
    m.quantity > 0
    && (m.kind == Initial || m.kind == Entry || m.kind == PurchaseReceipt || m.kind == Import || m.kind == Adjustment)
  }

  /** The unit left with what the movement gives back or completes. */
  ghost predicate LeftBefore(book: SerialBook, movements: seq<Movement>, m: Movement, i: nat) {
    exists k: nat | k < |book.events| :: book.events[k].serial == i && GivesBack(movements, m, book.events[k].movement)
  }

  ghost predicate GivesBack(movements: seq<Movement>, m: Movement, k: nat) {
    && k < |movements| && movements[k].product == m.product
    && if m.kind == SaleVoid then m.saleLine.Some? && movements[k].kind == Sale && movements[k].saleLine == m.saleLine
       else m.transferLine.Some? && movements[k].kind == TransferOut && movements[k].transferLine == m.transferLine
  }

  /** The units a movement concerns: those whose numbers the caller gives; for a void, and for a receipt or a
      discrepancy without numbers, those that left before. */
  ghost predicate Concerns(book: SerialBook, movements: seq<Movement>, m: Movement, options: SerialOptions, i: nat)
    requires i < |book.serials|
  {
    && book.serials[i].product == m.product
    && if m.kind == SaleVoid || ((m.kind == TransferReceipt || m.kind == TransferDiscrepancy) && options.numbers.None?)
       then LeftBefore(book, movements, m, i)
       else options.numbers.Some? && exists k: nat | k < |options.numbers.value| :: book.serials[i].normalized == Normalize(options.numbers.value[k])
  }

  lemma {:induction false} SourceNumbersAre(book: SerialBook, movements: seq<Movement>, m: Movement, n: nat, x: string)
    requires n <= |book.events| && (m.kind == SaleVoid || m.kind == TransferReceipt || m.kind == TransferDiscrepancy)
    ensures x in SourceNumbers(book, movements, m, n)
            <==> exists k: nat | k < n :: book.events[k].serial < |book.serials| && book.serials[book.events[k].serial].number == x
                                          && GivesBack(movements, m, book.events[k].movement)
  {
    if n > 0 {
      SourceNumbersAre(book, movements, m, n - 1, x);
      var e := book.events[n - 1];
      assert LeftWith(movements, e, m) <==> GivesBack(movements, m, e.movement);
      hide LeftWith, GivesBack;
    }
  }

  ghost predicate ByEvents(m: Movement, options: SerialOptions) {
    m.kind == SaleVoid || ((m.kind == TransferReceipt || m.kind == TransferDiscrepancy) && options.numbers.None?)
  }

  /** Among the numbers of a movement, a unit's own is found exactly when the movement concerns the unit. */
  lemma NumbersConcern(book: SerialBook, movements: seq<Movement>, m: Movement, options: SerialOptions, i: nat)
    requires SerialCore(book, movements) && i < |book.serials| && book.serials[i].product == m.product
    ensures (exists k: nat | k < |Numbers(book, movements, m, options)| ::
               book.serials[i].normalized == Normalize(Numbers(book, movements, m, options)[k]))
            <==> Concerns(book, movements, m, options, i)
  {
    var numbers := Numbers(book, movements, m, options);
    if ByEvents(m, options) {
      assert Numbered(book);
      CoreNumbers(book, movements);
      EventsInRange(book, movements);
      hide SerialCore, Normalize, GivesBack, NumbersUnique, SourceNumbers;
      if k: nat :| k < |numbers| && book.serials[i].normalized == Normalize(numbers[k]) {
        SourceNumbersAre(book, movements, m, |book.events|, numbers[k]);
        var e: nat :| e < |book.events| && book.events[e].serial < |book.serials| && book.serials[book.events[e].serial].number == numbers[k]
                      && GivesBack(movements, m, book.events[e].movement);
        SameUnit(book, i, book.events[e].serial);
      }
      if e: nat :| e < |book.events| && book.events[e].serial == i && GivesBack(movements, m, book.events[e].movement) {
        SourceNumbersAre(book, movements, m, |book.events|, book.serials[i].number);
        assert book.serials[i].number in numbers;
      }
    }
  }

  lemma EventsInRange(book: SerialBook, movements: seq<Movement>)
    requires SerialCore(book, movements)
    ensures forall k :: 0 <= k < |book.events| ==> book.events[k].serial < |book.serials|
  {
  }

  lemma SameUnit(book: SerialBook, i: nat, j: nat)
    requires NumbersUnique(book) && i < |book.serials| && j < |book.serials| && book.serials[i].normalized == book.serials[j].normalized
    ensures i == j
  {
  }

  /** How much a movement moves, in thousandths. */
  ghost function Moving(m: Movement): int {
    if m.stateQuantity > 0 then m.stateQuantity else if m.quantity < 0 then -m.quantity else m.quantity
  }

  lemma CountedUnits(m: Movement)
    requires UnitCount(m).Ok?
    ensures UnitCount(m).value * 1000 == Moving(m)
    ensures BringsUnits(m) <==> Registers(m)
  {
  }

  lemma MayMoveMeans(book: SerialBook, movements: seq<Movement>, m: Movement, destination: Option<Location>, i: nat)
    requires i < |book.serials| && MayMove(book, movements, m, destination, i) && !Registers(m)
    ensures var rule := CustodyOf(m, destination);
            MovesUnit(m, destination, book.serials[i], book.serials[i].(status := rule.to, location := rule.toLocation))
    ensures m.kind == SupplierReturn ==> BoughtWith(book, movements, m, i)
  {
  }

  /** The unit came in with the receipt line a supplier return gives back. */
  ghost predicate BoughtWith(book: SerialBook, movements: seq<Movement>, m: Movement, i: nat) {
    m.returnOf.Some? &&
    exists k: nat | k < |book.events| ::
      && book.events[k].serial == i && book.events[k].movement < |movements|
      && movements[book.events[k].movement].kind == PurchaseReceipt && movements[book.events[k].movement].purchase.Some?
      && movements[book.events[k].movement].purchase.value.receiptLine == m.returnOf.value.receiptLine
  }

  lemma SelectedConcern(book: SerialBook, movements: seq<Movement>, m: Movement, options: SerialOptions, rows: seq<nat>)
    requires SerialCore(book, movements)
    requires var numbers := Numbers(book, movements, m, options); SelectRows(book.serials, m.product, numbers, |numbers|) == Ok(rows)
    ensures forall i: nat :: i in rows <==> i < |book.serials| && Concerns(book, movements, m, options, i)
  {
    var numbers := Numbers(book, movements, m, options);
    SelectedAreNamed(book.serials, m.product, numbers);
    CoreNumbers(book, movements);
    hide SerialCore, Normalize, NumbersUnique, Numbers, SelectRows, Concerns;
    forall i: nat
      ensures i in rows <==> i < |book.serials| && Concerns(book, movements, m, options, i)
    {
      if i in rows {
        var k :| 0 <= k < |rows| && rows[k] == i;
        NumbersConcern(book, movements, m, options, i);
        assert Named(book.serials[i], m.product, numbers[k]);
      }
      if i < |book.serials| && Concerns(book, movements, m, options, i) {
        assert book.serials[i].product == m.product by { ConcernsProduct(book, movements, m, options, i); }
        NumbersConcern(book, movements, m, options, i);
        var k: nat :| k < |numbers| && book.serials[i].normalized == Normalize(numbers[k]);
        assert Named(book.serials[rows[k]], m.product, numbers[k]);
        SameUnit(book, i, rows[k]);
      }
    }
  }

  lemma ConcernsProduct(book: SerialBook, movements: seq<Movement>, m: Movement, options: SerialOptions, i: nat)
    requires i < |book.serials| && Concerns(book, movements, m, options, i)
    ensures book.serials[i].product == m.product
  {
  }

  /** An accepted movement that brings no units in moves exactly the units it concerns, as many as it says,
      each from a state its kind takes units from into the state and place its kind leaves them in. */
  lemma CustodyTable(book: SerialBook, movements: seq<Movement>, movement: nat, options: SerialOptions) returns (rows: seq<nat>)
    requires SerialCore(book, movements) && movement < |movements| && NoEvents(book, movement)
    requires movements[movement].kind != TransferIn && !BringsUnits(movements[movement])
    ensures var m, r := movements[movement], ApplySerials(book, movements, movement, options);
            r.Ok? ==>
              && |rows| * 1000 == Moving(m) && (forall j, k :: 0 <= j < k < |rows| ==> rows[j] != rows[k])
              && (forall i: nat :: i in rows <==> i < |book.serials| && Concerns(book, movements, m, options, i))
              && |r.value.serials| == |book.serials|
              && forall i: nat | i < |book.serials| ::
                   if i in rows then
                     MovesUnit(m, options.destination, book.serials[i], r.value.serials[i])
                     && (m.kind == SupplierReturn ==> BoughtWith(book, movements, m, i))
                   else r.value.serials[i] == book.serials[i]
  {
    rows := [];
    var m, r := movements[movement], ApplySerials(book, movements, movement, options);
    if r.Ok? {
      assert UnitCount(m).Ok?;
      CountedUnits(m);
      var numbers := Numbers(book, movements, m, options);
      hide ApplySerials, SerialCore, Numbers, NoEvents, UnitCount, RequestAccepted, Normalize, SelectRows, MayMove, CustodyOf, MovesUnit,
           Concerns, BringsUnits, Registers, BoughtWith, RowsMoved;
      AcceptanceIsExact(book, movements, movement, options);
      rows := SelectRows(book.serials, m.product, numbers, |numbers|).value;
      SelectedConcern(book, movements, m, options, rows);
      RowsFollowTable(book, r.value, movements, m, options.destination, rows);
    }
  }

  lemma RowsFollowTable(book: SerialBook, after: SerialBook, movements: seq<Movement>, m: Movement, destination: Option<Location>, rows: seq<nat>)
    requires Listed(book, rows) && RowsMoved(book, after, CustodyOf(m, destination), rows) && !Registers(m)
    requires forall k :: 0 <= k < |rows| ==> MayMove(book, movements, m, destination, rows[k])
    ensures |after.serials| == |book.serials|
    ensures forall i: nat | i < |book.serials| ::
              if i in rows then
                MovesUnit(m, destination, book.serials[i], after.serials[i]) && (m.kind == SupplierReturn ==> BoughtWith(book, movements, m, i))
              else after.serials[i] == book.serials[i]
  {
    hide MayMove, CustodyOf, MovesUnit, BoughtWith;
    forall i: nat | i in rows
      ensures i < |book.serials|
      ensures MovesUnit(m, destination, book.serials[i], after.serials[i]) && (m.kind == SupplierReturn ==> BoughtWith(book, movements, m, i))
    {
      var k :| 0 <= k < |rows| && rows[k] == i;
      RowMoves(book, after, movements, m, destination, rows, rows[k]);
    }
  }

  lemma RowMoves(book: SerialBook, after: SerialBook, movements: seq<Movement>, m: Movement, destination: Option<Location>, rows: seq<nat>, i: nat)
    requires i in rows && i < |book.serials| && RowsMoved(book, after, CustodyOf(m, destination), rows)
    requires MayMove(book, movements, m, destination, i) && !Registers(m)
    ensures i < |after.serials| && MovesUnit(m, destination, book.serials[i], after.serials[i])
    ensures m.kind == SupplierReturn ==> BoughtWith(book, movements, m, i)
  {
    MayMoveMeans(book, movements, m, destination, i);
    hide MayMove, CustodyOf, MovesUnit, BoughtWith;
  }

  /** The unit is one the movement may move: the table has a place for it to go. */
  ghost predicate CanMove(book: SerialBook, movements: seq<Movement>, m: Movement, destination: Option<Location>, i: nat)
    requires i < |book.serials|
  {
    && (exists after :: MovesUnit(m, destination, book.serials[i], after))
    && (m.kind == SupplierReturn ==> BoughtWith(book, movements, m, i))
  }

  lemma MayMoveIsCanMove(book: SerialBook, movements: seq<Movement>, m: Movement, destination: Option<Location>, i: nat)
    requires i < |book.serials| && !Registers(m)
    ensures MayMove(book, movements, m, destination, i) <==> CanMove(book, movements, m, destination, i)
  {
    if MayMove(book, movements, m, destination, i) {
      MayMoveMeans(book, movements, m, destination, i);
    }
    if after :| MovesUnit(m, destination, book.serials[i], after) {
      assert book.serials[i].status in CustodyOf(m, destination).allowed;
    }
    if BoughtWith(book, movements, m, i) {
      var k: nat :| k < |book.events| && book.events[k].serial == i && book.events[k].movement < |movements|
                    && movements[book.events[k].movement].kind == PurchaseReceipt && movements[book.events[k].movement].purchase.Some?
                    && movements[book.events[k].movement].purchase.value.receiptLine == m.returnOf.value.receiptLine;
      assert ReceiptEvent(movements, book.events[k], m.returnOf.value.receiptLine);
    }
  }

  /** The number is that of a unit of the product the movement may move. */
  ghost predicate NamesMovable(book: SerialBook, movements: seq<Movement>, m: Movement, destination: Option<Location>, number: string) {
    exists i: nat | i < |book.serials| :: Named(book.serials[i], m.product, number) && CanMove(book, movements, m, destination, i)
  }

  lemma NamedMovable(book: SerialBook, movements: seq<Movement>, m: Movement, destination: Option<Location>, number: string, i: nat)
    requires NumbersUnique(book) && i < |book.serials| && Named(book.serials[i], m.product, number)
    ensures NamesMovable(book, movements, m, destination, number) <==> CanMove(book, movements, m, destination, i)
  {
    hide CanMove, Normalize;
  }

  lemma CountIsWhole(m: Movement, numbers: seq<string>)
    ensures (UnitCount(m).Ok? && RequestAccepted(numbers, UnitCount(m).value))
            <==> m.quantity % 1000 == 0 && m.stateQuantity % 1000 == 0 && NamesNew(numbers, Moving(m))
  {
    hide Normalize;
  }

  /** A movement that brings no units in is accepted exactly when it moves whole units and names that many
      different ones, each of which it may move. */
  lemma UnitsMayMove(book: SerialBook, movements: seq<Movement>, movement: nat, options: SerialOptions)
    requires SerialCore(book, movements) && movement < |movements| && NoEvents(book, movement)
    requires movements[movement].kind != TransferIn && !BringsUnits(movements[movement])
    ensures var m := movements[movement];
            var numbers := Numbers(book, movements, m, options);
            ApplySerials(book, movements, movement, options).Ok?
            <==> && m.quantity % 1000 == 0 && m.stateQuantity % 1000 == 0 && NamesNew(numbers, Moving(m))
                 && forall k :: 0 <= k < |numbers| ==> NamesMovable(book, movements, m, options.destination, numbers[k])
  {
    var m := movements[movement];
    var numbers := Numbers(book, movements, m, options);
    CountIsWhole(m, numbers);
    CoreNumbers(book, movements);
    if UnitCount(m).Ok? {
      CountedUnits(m);
      hide ApplySerials, SerialCore, Numbers, NoEvents, UnitCount, RequestAccepted, NamesNew, Normalize, SelectRows, MayMove, CanMove, NumbersUnique,
           BringsUnits, Registers;
      AcceptanceIsExact(book, movements, movement, options);
      var rows := SelectRows(book.serials, m.product, numbers, |numbers|);
      if rows.Ok? {
        SelectedAreNamed(book.serials, m.product, numbers);
        forall k | 0 <= k < |numbers|
          ensures NamesMovable(book, movements, m, options.destination, numbers[k])
                  <==> MayMove(book, movements, m, options.destination, rows.value[k])
        {
          NamedMovable(book, movements, m, options.destination, numbers[k], rows.value[k]);
          MayMoveIsCanMove(book, movements, m, options.destination, rows.value[k]);
        }
      } else {
        var k := UnknownNumber(book.serials, m.product, numbers, |numbers|);
        assert !NamesMovable(book, movements, m, options.destination, numbers[k]);
      }
    }
  }

  /** Every number the caller gives names a unit the movement moves. */
  lemma EveryNumberMoves(book: SerialBook, movements: seq<Movement>, movement: nat, options: SerialOptions, rows: seq<nat>, k: nat) returns (i: nat)
    requires SerialCore(book, movements) && movement < |movements| && NoEvents(book, movement)
    requires movements[movement].kind != TransferIn && !BringsUnits(movements[movement])
    requires ApplySerials(book, movements, movement, options).Ok?
    requires !ByEvents(movements[movement], options) && options.numbers.Some? && k < |options.numbers.value|
    requires forall x: nat :: x in rows <==> x < |book.serials| && Concerns(book, movements, movements[movement], options, x)
    ensures i in rows && i < |book.serials| && book.serials[i].normalized == Normalize(options.numbers.value[k])
  {
    var m := movements[movement];
    assert UnitCount(m).Ok?;
    CountedUnits(m);
    var numbers := options.numbers.value;
    assert Numbers(book, movements, m, options) == numbers;
    hide ApplySerials, SerialCore, Numbers, NoEvents, UnitCount, RequestAccepted, Normalize, SelectRows, MayMove, CustodyOf, Registers, BringsUnits;
    AcceptanceIsExact(book, movements, movement, options);
    SelectedAreNamed(book.serials, m.product, numbers);
    i := SelectRows(book.serials, m.product, numbers, |numbers|).value[k];
    assert Named(book.serials[i], m.product, numbers[k]);
  }

  // ----- New units -----

  /** The request names as many units as come in, each with a number of at most 120 characters, none twice. */
  ghost predicate NamesNew(numbers: seq<string>, quantity: int) {
    && |numbers| * 1000 == quantity && |numbers| <= 1000
    && (forall k :: 0 <= k < |numbers| ==> 1 <= |Trim(numbers[k])| <= 120)
    && (forall j, k :: 0 <= j < k < |numbers| ==> Normalize(numbers[j]) != Normalize(numbers[k]))
  }

  ghost function NewUnit(m: Movement, number: string): Serial {
    Serial(m.product, Trim(number), Normalize(number), Available, Some(m.location))
  }

  lemma {:induction false} RegisterExact(book: SerialBook, movement: nat, m: Movement, numbers: seq<string>)
    requires forall j, k :: 0 <= j < k < |numbers| ==> Normalize(numbers[j]) != Normalize(numbers[k])
    ensures var r := Register(book, movement, m, numbers);
            && (r.Ok? <==> forall i, k :: 0 <= i < |book.serials| && 0 <= k < |numbers| ==> book.serials[i].normalized != Normalize(numbers[k]))
            && (r.Err? ==> r == Err(SerialDuplicate))
            && (r.Ok? ==> && |r.value.serials| == |book.serials| + |numbers| && r.value.serials[..|book.serials|] == book.serials
                          && forall k :: 0 <= k < |numbers| ==> r.value.serials[|book.serials| + k] == NewUnit(m, numbers[k]))
    decreases |numbers|
  {
    hide Normalize, Trim;
    if numbers != [] && NumberFree(book.serials, Normalize(numbers[0])) {
      var next := Enrol(book, movement, m, numbers[0]);
      RegisterExact(next, movement, m, numbers[1..]);
      RegisterRound(book, next, m, numbers);
      var r := Register(next, movement, m, numbers[1..]);
      if r.Ok? {
        assert r.value.serials[..|book.serials|] == r.value.serials[..|next.serials|][..|book.serials|];
        forall k | 0 <= k < |numbers| ensures r.value.serials[|book.serials| + k] == NewUnit(m, numbers[k]) {
          if k == 0 {
            assert r.value.serials[|book.serials|] == r.value.serials[..|next.serials|][|book.serials|];
          } else {
            assert r.value.serials[|next.serials| + (k - 1)] == NewUnit(m, numbers[1..][k - 1]);
          }
        }
      }
    }
  }

  lemma RegisterRound(book: SerialBook, next: SerialBook, m: Movement, numbers: seq<string>)
    requires numbers != [] && next.serials == book.serials + [NewUnit(m, numbers[0])]
    requires forall j, k :: 0 <= j < k < |numbers| ==> Normalize(numbers[j]) != Normalize(numbers[k])
    requires forall i :: 0 <= i < |book.serials| ==> book.serials[i].normalized != Normalize(numbers[0])
    ensures (forall i, k :: 0 <= i < |next.serials| && 0 <= k < |numbers[1..]| ==> next.serials[i].normalized != Normalize(numbers[1..][k]))
            <==> forall i, k :: 0 <= i < |book.serials| && 0 <= k < |numbers| ==> book.serials[i].normalized != Normalize(numbers[k])
  {
    hide Normalize, Trim;
    if forall i, k :: 0 <= i < |next.serials| && 0 <= k < |numbers[1..]| ==> next.serials[i].normalized != Normalize(numbers[1..][k]) {
      forall i, k | 0 <= i < |book.serials| && 0 <= k < |numbers| ensures book.serials[i].normalized != Normalize(numbers[k]) {
        if k > 0 {
          assert next.serials[i].normalized != Normalize(numbers[1..][k - 1]);
        }
      }
    }
  }

  lemma NamedProperly(m: Movement, numbers: seq<string>)
    requires m.quantity > 0 && m.stateQuantity == 0
    ensures NamesNew(numbers, m.quantity) <==> UnitCount(m).Ok? && RequestAccepted(numbers, UnitCount(m).value)
  {
    hide Normalize, Trim;
  }

  lemma NewUnitsRegister(book: SerialBook, movements: seq<Movement>, movement: nat, options: SerialOptions)
    requires movement < |movements| && NoEvents(book, movement) && BringsUnits(movements[movement])
    ensures var m, r := movements[movement], ApplySerials(book, movements, movement, options);
            var numbers := if options.numbers.Some? then options.numbers.value else [];
            if UnitCount(m).Ok? && RequestAccepted(numbers, UnitCount(m).value) then r == Register(book, movement, m, numbers) else r.Err?
  {
    hide RequestAccepted, Register, UnitCount;
  }

  /** Units come in exactly when the request names them properly and none of the numbers is taken; they are
      then available at the place, behind those that were there. */
  lemma UnitsComeIn(book: SerialBook, movements: seq<Movement>, movement: nat, options: SerialOptions)
    requires movement < |movements| && NoEvents(book, movement) && BringsUnits(movements[movement])
    requires movements[movement].stateQuantity == 0
    ensures var m, r := movements[movement], ApplySerials(book, movements, movement, options);
            var numbers := if options.numbers.Some? then options.numbers.value else [];
            && (r.Ok? <==> NamesNew(numbers, m.quantity)
                           && forall i, k :: 0 <= i < |book.serials| && 0 <= k < |numbers| ==> book.serials[i].normalized != Normalize(numbers[k]))
            && (r.Ok? ==> && |r.value.serials| == |book.serials| + |numbers| && r.value.serials[..|book.serials|] == book.serials
                          && forall k :: 0 <= k < |numbers| ==> r.value.serials[|book.serials| + k] == NewUnit(m, numbers[k]))
  {
    var m := movements[movement];
    var numbers := if options.numbers.Some? then options.numbers.value else [];
    NewUnitsRegister(book, movements, movement, options);
    NamedProperly(m, numbers);
    hide Normalize, Trim, Register, ApplySerials, RequestAccepted, UnitCount, BringsUnits;
    if forall j, k :: 0 <= j < k < |numbers| ==> Normalize(numbers[j]) != Normalize(numbers[k]) {
      RegisterExact(book, movement, m, numbers);
    }
  }
}
