/** When a movement of serialised units succeeds, what it does to each unit, and where the chain of
    custody would break. */
module SerialTheorems {
  import opened Outcomes
  import opened Sums
  import opened Rounding
  import opened Movements
  import opened Text
  import opened Serials
  import opened SerialInvariants

  /** The listed units stand where the movement puts them, the others where they stood. */
  ghost predicate RowsMoved(book: SerialBook, after: SerialBook, rule: Custody, rows: seq<nat>) {
    && |after.serials| == |book.serials|
    && forall i: nat :: i < |book.serials| ==>
         after.serials[i] == if i in rows then book.serials[i].(status := rule.to, location := rule.toLocation) else book.serials[i]
  }

  ghost predicate Listed(book: SerialBook, rows: seq<nat>) {
    && (forall j :: 0 <= j < |rows| ==> rows[j] < |book.serials|)
    && (forall j, k :: 0 <= j < k < |rows| ==> rows[j] != rows[k])
  }

  /** Moving one unit does not change whether another may move. */
  lemma OthersMayMove(book: SerialBook, movements: seq<Movement>, movement: nat, destination: Option<Location>, i: nat, j: nat)
    requires movement < |movements| && i < |book.serials| && j < |book.serials| && i != j
    ensures var m := movements[movement];
            var next := AppendEvent(book, movement, i, CustodyOf(m, destination).to, CustodyOf(m, destination).toLocation);
            MayMove(next, movements, m, destination, j) <==> MayMove(book, movements, m, destination, j)
  {
    var m := movements[movement];
    var next := AppendEvent(book, movement, i, CustodyOf(m, destination).to, CustodyOf(m, destination).toLocation);
    if CameWith(book, movements, m, j) {
      var line := m.returnOf.value.receiptLine;
      var k :| 0 <= k < |book.events| && book.events[k].serial == j && ReceiptEvent(movements, book.events[k], line);
      assert next.events[k] == book.events[k];
    }
  }

  /** The custody loop succeeds exactly when every listed unit may move, in whatever order they
      are listed, and then moves those units and no other. */
  lemma {:induction false} MoveUnitsExact(book: SerialBook, movements: seq<Movement>, movement: nat, rows: seq<nat>, destination: Option<Location>)
    requires movement < |movements| && Listed(book, rows)
    ensures forall k :: 0 <= k < |rows| ==> rows[k] < |book.serials|
    ensures var m := movements[movement];
            var r := MoveUnits(book, movements, movement, rows, destination);
            && (r.Ok? <==> forall k :: 0 <= k < |rows| ==> MayMove(book, movements, m, destination, rows[k]))
            && (r.Ok? ==> RowsMoved(book, r.value, CustodyOf(m, destination), rows))
            && (r.Err? ==> r == Err(SerialStateConflict))
    decreases |rows|
  {
    hide MayMove;
    var m := movements[movement];
    if rows != [] && MayMove(book, movements, m, destination, rows[0]) {
      var rule, rest := CustodyOf(m, destination), rows[1..];
      var next := AppendEvent(book, movement, rows[0], rule.to, rule.toLocation);
      assert Listed(next, rest);
      MoveUnitsExact(next, movements, movement, rest, destination);
      forall k | 0 <= k < |rest|
        ensures MayMove(next, movements, m, destination, rest[k]) <==> MayMove(book, movements, m, destination, rows[k + 1])
      {
        OthersMayMove(book, movements, movement, destination, rows[0], rest[k]);
      }
      forall k | 0 <= k < |rows|
        ensures MayMove(book, movements, m, destination, rows[k])
                <==> k == 0 || MayMove(next, movements, m, destination, rest[k - 1])
      {
        if k > 0 {
          assert rest[k - 1] == rows[k];
        }
      }
      forall i: nat | i < |book.serials| ensures i in rows <==> i == rows[0] || i in rest {
      }
    }
  }

  /** An accepted request that registers nothing moves exactly the units it names. */
  lemma AcceptanceIsExact(book: SerialBook, movements: seq<Movement>, movement: nat, options: SerialOptions)
    requires movement < |movements| && NoEvents(book, movement)
    requires movements[movement].kind != TransferIn && !Registers(movements[movement]) && UnitCount(movements[movement]).Ok?
    ensures var m := movements[movement];
            var numbers := Numbers(book, movements, m, options);
            var rows := SelectRows(book.serials, m.product, numbers, |numbers|);
            var r := ApplySerials(book, movements, movement, options);
            && (r.Ok? <==> && RequestAccepted(numbers, UnitCount(m).value) && rows.Ok?
                           && forall k :: 0 <= k < |rows.value| ==> MayMove(book, movements, m, options.destination, rows.value[k]))
            && (r.Ok? ==> Listed(book, rows.value) && |rows.value| == UnitCount(m).value
                          && RowsMoved(book, r.value, CustodyOf(m, options.destination), rows.value))
  {
    hide RequestAccepted, MayMove, Untouched, RowsMoved;
    var m := movements[movement];
    var numbers := Numbers(book, movements, m, options);
    var rows := SelectRows(book.serials, m.product, numbers, |numbers|);
    if RequestAccepted(numbers, UnitCount(m).value) && rows.Ok? {
      AcceptedLength(numbers, UnitCount(m).value);
      SelectedAreUntouched(book, m.product, numbers, UnitCount(m).value, movement);
      assert Listed(book, rows.value) by { UntouchedIsListed(book, movement, rows.value); }
      MoveUnitsExact(book, movements, movement, rows.value, options.destination);
    }
  }

  /** The unit of that number is one of the product, in one of the states, at the place. */
  ghost predicate NamedAt(book: SerialBook, product: Product, number: string, states: set<SerialStatus>, place: Location) {
    exists i :: 0 <= i < |book.serials| && Named(book.serials[i], product, number) && book.serials[i].status in states
                && book.serials[i].location == Some(place)
  }

  predicate Named(row: Serial, product: Product, number: string) {
    row.product == product && row.normalized == Normalize(number)
  }

  lemma {:induction false} UnknownNumber(serials: seq<Serial>, product: Product, numbers: seq<string>, n: nat) returns (k: nat)
    requires n <= |numbers| && SelectRows(serials, product, numbers, n).Err?
    ensures k < n && forall i :: 0 <= i < |serials| ==> !Named(serials[i], product, numbers[k])
  {
    hide Normalize;
    if SelectRows(serials, product, numbers, n - 1).Err? {
      k := UnknownNumber(serials, product, numbers, n - 1);
    } else {
      k := n - 1;
    }
  }

  /** A dispatch, a receipt, a write-off or a change of stock is accepted exactly when it names as many
      different units as it moves and each of them is in an allowed state at the movement's location. */
  lemma AcceptanceByName(book: SerialBook, movements: seq<Movement>, movement: nat, options: SerialOptions)
    requires SerialCore(book, movements) && movement < |movements| && NoEvents(book, movement)
    requires movements[movement].kind != TransferIn && !Registers(movements[movement]) && UnitCount(movements[movement]).Ok?
    requires movements[movement].kind != SupplierReturn && movements[movement].kind != SaleVoid && movements[movement].kind != SaleReturn
    ensures var m := movements[movement];
            var numbers := Numbers(book, movements, m, options);
            ApplySerials(book, movements, movement, options).Ok?
            <==> && RequestAccepted(numbers, UnitCount(m).value)
                 && forall k :: 0 <= k < |numbers| ==>
                      NamedAt(book, m.product, numbers[k], CustodyOf(m, options.destination).allowed, m.location)
  {
    var m := movements[movement];
    var numbers := Numbers(book, movements, m, options);
    hide *;
    AcceptanceIsExact(book, movements, movement, options);
    var allowed := CustodyOf(m, options.destination).allowed;
    var rows := SelectRows(book.serials, m.product, numbers, |numbers|);
    if rows.Ok? {
      SelectedAreNamed(book.serials, m.product, numbers);
      forall k | 0 <= k < |numbers|
        ensures NamedAt(book, m.product, numbers[k], allowed, m.location)
                <==> MayMove(book, movements, m, options.destination, rows.value[k])
      {
        CoreNumbers(book, movements);
        NamedMayMove(book, movements, m, options.destination, numbers[k], rows.value[k]);
      }
    } else {
      var k := UnknownNumber(book.serials, m.product, numbers, |numbers|);
      UnknownIsNowhere(book, m.product, numbers[k], allowed, m.location);
    }
  }

  lemma CoreNumbers(book: SerialBook, movements: seq<Movement>)
    requires SerialCore(book, movements)
    ensures NumbersUnique(book)
  {
  }

  lemma SelectedAreNamed(serials: seq<Serial>, product: Product, numbers: seq<string>)
    requires SelectRows(serials, product, numbers, |numbers|).Ok?
    ensures var rows := SelectRows(serials, product, numbers, |numbers|).value;
            |rows| == |numbers| && forall k :: 0 <= k < |rows| ==> rows[k] < |serials| && Named(serials[rows[k]], product, numbers[k])
  {
  }

  /** The unit a number names is the only one it names. */
  lemma NamedMayMove(book: SerialBook, movements: seq<Movement>, m: Movement, destination: Option<Location>, number: string, i: nat)
    requires NumbersUnique(book) && i < |book.serials| && Named(book.serials[i], m.product, number)
    requires m.kind != SupplierReturn && m.kind != SaleVoid && m.kind != SaleReturn
    ensures NamedAt(book, m.product, number, CustodyOf(m, destination).allowed, m.location)
            <==> MayMove(book, movements, m, destination, i)
  {
    hide CustodyOf, Normalize;
  }

  lemma UnknownIsNowhere(book: SerialBook, product: Product, number: string, states: set<SerialStatus>, place: Location)
    requires forall i :: 0 <= i < |book.serials| ==> !Named(book.serials[i], product, number)
    ensures !NamedAt(book, product, number, states, place)
  {
  }

  lemma UntouchedIsListed(book: SerialBook, movement: nat, rows: seq<nat>)
    requires Untouched(book, movement, rows)
    ensures Listed(book, rows)
  {
  }

  /** A unit keeps a place exactly while in stock if and only if the movement puts it so: a
      dispatch must name its destination and a state change must stay among the states in stock. */
  lemma PlacementIsExact(book: SerialBook, movements: seq<Movement>, movement: nat, options: SerialOptions)
    requires SerialCore(book, movements) && movement < |movements| && NoEvents(book, movement)
    requires movements[movement].kind != TransferIn && UnitCount(movements[movement]).Ok? && UnitCount(movements[movement]).value > 0
    requires ApplySerials(book, movements, movement, options).Ok?
    ensures Located(ApplySerials(book, movements, movement, options).value) <==> PlacesUnits(movements[movement], options.destination)
  {
    var m := movements[movement];
    if PlacesUnits(m, options.destination) {
      hide PlacesUnits;
      ApplySerialsMoves(book, movements, movement, options);
    } else {
      var after := ApplySerials(book, movements, movement, options).value;
      AcceptanceIsExact(book, movements, movement, options);
      var numbers := Numbers(book, movements, m, options);
      var rows := SelectRows(book.serials, m.product, numbers, |numbers|).value;
      hide ApplySerials, SelectRows, Numbers;
      assert rows[0] in rows;
      assert after.serials[rows[0]].location == CustodyOf(m, options.destination).toLocation;
    }
  }

  /** A RETURN of serialised units is always rejected: a unit that left stock has no location, and
      the movement demands its own. */
  lemma ReturnIsRejected(book: SerialBook, movements: seq<Movement>, movement: nat, options: SerialOptions)
    requires SerialCore(book, movements) && movement < |movements| && NoEvents(book, movement)
    requires movements[movement].kind == Return && UnitCount(movements[movement]) != Ok(0)
    ensures ApplySerials(book, movements, movement, options).Err?
  {
    var m := movements[movement];
    forall i | 0 <= i < |book.serials| ensures !MayMove(book, movements, m, options.destination, i) {
    }
    if UnitCount(m).Ok? {
      AcceptanceIsExact(book, movements, movement, options);
    }
  }

  /** Stock imports and counts name no serials, so they fail for serialised units unless nothing
      moves. */
  lemma UnnamedUnitsAreRejected(book: SerialBook, movements: seq<Movement>, movement: nat)
    requires movement < |movements| && NoEvents(book, movement)
    requires var m := movements[movement];
             (m.kind == Import || m.kind == Adjustment) && m.quantity != 0 && m.stateQuantity == 0
    ensures ApplySerials(book, movements, movement, SerialOptions(None, None)).Err?
  {
    var m := movements[movement];
    if UnitCount(m).Ok? {
      assert UnitCount(m).value > 0;
      assert Numbers(book, movements, m, SerialOptions(None, None)) == [];
      hide UnitCount;
      assert !RequestAccepted([], UnitCount(m).value);
    }
  }
}
