/** Chain of custody: what every committed serial book satisfies, how one movement keeps it and
    by how much it changes the number of units in each state at each place. */
module SerialInvariants {
  import opened Outcomes
  import opened Sums
  import opened Rounding
  import opened Movements
  import opened Text
  import opened Serials

  // ----- The invariant -----

  datatype Position = Position(status: SerialStatus, location: Option<Location>)

  /** Where the first n events leave a unit. */
  function LastPosition(events: seq<SerialEvent>, serial: nat, n: nat): Option<Position>
    requires n <= |events|
  {
    if n == 0 then None
    else if events[n - 1].serial == serial then Some(Position(events[n - 1].to, events[n - 1].toLocation))
    else LastPosition(events, serial, n - 1)
  }

  function Origin(e: SerialEvent): Option<Position> {
    if e.from.Some? then Some(Position(e.from.value, e.fromLocation)) else None
  }

  /** Each event starts where the unit's previous one ended. */
  ghost predicate Chained(book: SerialBook) {
    forall k :: 0 <= k < |book.events| ==>
      book.events[k].serial < |book.serials| && Origin(book.events[k]) == LastPosition(book.events, book.events[k].serial, k)
  }

  /** The serial row is where the last event left it. */
  ghost predicate RowsFollow(book: SerialBook) {
    forall i :: 0 <= i < |book.serials| ==>
      LastPosition(book.events, i, |book.events|) == Some(Position(book.serials[i].status, book.serials[i].location))
  }

  /** A unit has a location exactly while it is in stock. */
  ghost predicate Located(book: SerialBook) {
    forall i :: 0 <= i < |book.serials| ==> (book.serials[i].location.Some? <==> InStock(book.serials[i].status))
  }

  ghost predicate NumbersUnique(book: SerialBook) {
    forall j, k :: 0 <= j < k < |book.serials| ==> book.serials[j].normalized != book.serials[k].normalized
  }

  /** Each unit is stored under the normal form of its own number. */
  ghost predicate Numbered(book: SerialBook) {
    forall i :: 0 <= i < |book.serials| ==> book.serials[i].normalized == Normalize(book.serials[i].number)
  }

  /** A movement has at most one event for a unit. */
  ghost predicate EventKeyUnique(book: SerialBook) {
    forall j, k :: 0 <= j < k < |book.events| ==>
      book.events[j].movement != book.events[k].movement || book.events[j].serial != book.events[k].serial
  }

  /** Each event is one its movement's kind allows. */
  ghost predicate EventLegal(movements: seq<Movement>, e: SerialEvent) {
    e.movement < |movements| &&
    var m := movements[e.movement];
    match e.from
    case None => Registers(m) && e.to == Available && e.toLocation == Some(m.location)
    case Some(from) =>
      var rule := CustodyOf(m, e.toLocation);
      && !Registers(m) && from in rule.allowed && e.to == rule.to && e.toLocation == rule.toLocation
      && (e.fromLocation == Some(m.location) || m.kind == SaleVoid || m.kind == SaleReturn)
  }

  ghost predicate EventsLegal(book: SerialBook, movements: seq<Movement>) {
    forall k :: 0 <= k < |book.events| ==> EventLegal(movements, book.events[k])
  }

  ghost predicate CustodyChain(book: SerialBook, movements: seq<Movement>) {
    Chained(book) && RowsFollow(book) && NumbersUnique(book) && Numbered(book) && EventKeyUnique(book) && EventsLegal(book, movements)
  }

  ghost predicate SerialCore(book: SerialBook, movements: seq<Movement>) {
    CustodyChain(book, movements) && Located(book)
  }

  // ----- Units in a state -----

  function UnitAt(product: Product, location: Location, status: SerialStatus): Serial -> int {
    (s: Serial) => if s.product == product && s.location == Some(location) && s.status == status then 1 else 0
  }

  /** How many units of the product are in the state at the location. */
  function Units(book: SerialBook, product: Product, location: Location, status: SerialStatus): int {
    Total(book.serials, UnitAt(product, location, status))
  }

  /** The state in stock a movement takes units from, at its own location. */
  function Leaves(m: Movement): Option<SerialStatus> {
    if Registers(m) then None
    else
      match m.kind
      case Sale => Some(if m.reserved then Reserved else Available)
      case SaleVoid => None
      case Return => None
      case SaleReturn => None
      case TransferReceipt => Some(InTransit)
      case TransferDiscrepancy => Some(InTransit)
      case StateTransition => (match m.state case None => None case Some(change) => Some(change.from))
      case _ => Some(Available)
  }

  /** The state and place it puts them. */
  function Arrives(m: Movement, destination: Option<Location>): Position {
    if Registers(m) then Position(Available, Some(m.location))
    else Position(CustodyOf(m, destination).to, CustodyOf(m, destination).toLocation)
  }

  /** By how much one moved unit changes the count of a state at a place. */
  function Shift(m: Movement, destination: Option<Location>, p: Product, y: Location, s: SerialStatus): int {
    if p != m.product then 0
    else (if Arrives(m, destination) == Position(s, Some(y)) then 1 else 0) - (if Leaves(m) == Some(s) && y == m.location then 1 else 0)
  }

  /** The condition under which a movement leaves located units in stock and the rest nowhere:
      a dispatch names its destination, a state change stays among the states in stock. */
  predicate PlacesUnits(m: Movement, destination: Option<Location>) {
    Arrives(m, destination).location.Some? <==> InStock(Arrives(m, destination).status)
  }

  lemma PlacesUnitsMeaning(m: Movement, destination: Option<Location>)
    ensures PlacesUnits(m, destination) <==>
              (m.kind == TransferOut ==> destination.Some?)
              && (m.kind == StateTransition ==> m.state.Some? && InStock(m.state.value.to))
  {
  }

  // ----- One unit -----

  lemma {:induction false} LastPositionPrefix(events: seq<SerialEvent>, more: seq<SerialEvent>, serial: nat, n: nat)
    requires n <= |events|
    ensures LastPosition(events + more, serial, n) == LastPosition(events, serial, n)
  {
    if n > 0 {
      LastPositionPrefix(events, more, serial, n - 1);
    }
  }

  /** Adding the event that the unit's present place calls for keeps the chain. */
  lemma ChainedAppend(book: SerialBook, after: SerialBook, e: SerialEvent)
    requires Chained(book) && |book.serials| <= |after.serials| && after.events == book.events + [e]
    requires e.serial < |after.serials| && Origin(e) == LastPosition(book.events, e.serial, |book.events|)
    ensures Chained(after)
  {
    forall k | 0 <= k < |after.events|
      ensures after.events[k].serial < |after.serials|
              && Origin(after.events[k]) == LastPosition(after.events, after.events[k].serial, k)
    {
      LastPositionPrefix(book.events, [e], after.events[k].serial, k);
    }
  }

  lemma MovedRowFollows(book: SerialBook, movement: nat, i: nat, to: SerialStatus, toLocation: Option<Location>)
    requires RowsFollow(book) && i < |book.serials|
    ensures RowsFollow(AppendEvent(book, movement, i, to, toLocation))
  {
    var after := AppendEvent(book, movement, i, to, toLocation);
    var e := after.events[|book.events|];
    forall j | 0 <= j < |after.serials|
      ensures LastPosition(after.events, j, |after.events|) == Some(Position(after.serials[j].status, after.serials[j].location))
    {
      LastPositionPrefix(book.events, [e], j, |book.events|);
    }
  }

  /** One unit moves: the chain holds, its counts shift by one. */
  lemma MoveKeepsChain(book: SerialBook, movements: seq<Movement>, movement: nat, i: nat, to: SerialStatus, toLocation: Option<Location>)
    requires CustodyChain(book, movements) && i < |book.serials| && movement < |movements|
    requires EventLegal(movements, SerialEvent(i, movement, Some(book.serials[i].status), to, book.serials[i].location, toLocation))
    requires forall k :: 0 <= k < |book.events| ==> book.events[k].movement != movement || book.events[k].serial != i
    ensures var after := AppendEvent(book, movement, i, to, toLocation);
            && CustodyChain(after, movements)
            && (forall p: Product, y: Location, s :: Units(after, p, y, s)
                  == Units(book, p, y, s)
                     - UnitAt(p, y, s)(book.serials[i])
                     + (if p == book.serials[i].product && toLocation == Some(y) && to == s then 1 else 0))
  {
    var after := AppendEvent(book, movement, i, to, toLocation);
    var e := after.events[|book.events|];
    MovedRowFollows(book, movement, i, to, toLocation);
    ChainedAppend(book, after, e);
    forall p: Product, y: Location, s
      ensures Units(after, p, y, s)
              == Units(book, p, y, s) - UnitAt(p, y, s)(book.serials[i])
                 + (if p == book.serials[i].product && toLocation == Some(y) && to == s then 1 else 0)
    {
      TotalUpdate(book.serials, i, after.serials[i], UnitAt(p, y, s));
    }
  }

  lemma {:induction false} NoPosition(events: seq<SerialEvent>, serial: nat, n: nat)
    requires n <= |events| && forall k :: 0 <= k < n ==> events[k].serial != serial
    ensures LastPosition(events, serial, n) == None
  {
    if n > 0 {
      NoPosition(events, serial, n - 1);
    }
  }

  lemma EnrolKeepsChain(book: SerialBook, movements: seq<Movement>, movement: nat, m: Movement, number: string)
    requires CustodyChain(book, movements) && movement < |movements| && NumberFree(book.serials, Normalize(number))
    requires m == movements[movement] && Registers(m)
    ensures var after := Enrol(book, movement, m, number);
            && CustodyChain(after, movements) && (Located(book) ==> Located(after))
            && (forall p: Product, y: Location, s :: Units(after, p, y, s)
                  == Units(book, p, y, s) + (if p == m.product && y == m.location && s == Available then 1 else 0))
  {
    var after := Enrol(book, movement, m, number);
    var e := after.events[|book.events|];
    NoPosition(book.events, |book.serials|, |book.events|);
    ChainedAppend(book, after, e);
    assert RowsFollow(after) by {
      forall j | 0 <= j < |after.serials|
        ensures LastPosition(after.events, j, |after.events|) == Some(Position(after.serials[j].status, after.serials[j].location))
      {
        LastPositionPrefix(book.events, [e], j, |book.events|);
      }
    }
    forall p, y, s
      ensures Units(after, p, y, s)
              == Units(book, p, y, s) + (if p == m.product && y == m.location && s == Available then 1 else 0)
    {
      TotalAppend(book.serials, after.serials[|book.serials|], UnitAt(p, y, s));
    }
    TrimFixesTrimmed(Trim(number));
    assert EventKeyUnique(after) && NumbersUnique(after) && Numbered(after);
  }

  // ----- Many units -----

  /** The book moved `n` units as the movement prescribes. */
  ghost predicate SerialsMoved(before: SerialBook, after: SerialBook, m: Movement, destination: Option<Location>, n: int) {
    && |before.events| <= |after.events| && after.events[..|before.events|] == before.events
    && |before.serials| <= |after.serials|
    && (forall i :: 0 <= i < |after.serials| ==>
          after.serials[i].product == if i < |before.serials| then before.serials[i].product else m.product)
    && (forall p: Product, y: Location, s :: Units(after, p, y, s) == Units(before, p, y, s) + n * Shift(m, destination, p, y, s))
  }

  lemma {:induction false} RegisterMoves(before: SerialBook, book: SerialBook, movements: seq<Movement>, movement: nat, numbers: seq<string>,
                                         destination: Option<Location>, n: int)
    requires SerialCore(book, movements) && movement < |movements| && Registers(movements[movement])
    requires SerialsMoved(before, book, movements[movement], destination, n)
    ensures var r := Register(book, movement, movements[movement], numbers);
            r.Ok? ==> SerialCore(r.value, movements) && SerialsMoved(before, r.value, movements[movement], destination, n + |numbers|)
    decreases |numbers|
  {
    hide CustodyChain, Located, Normalize;
    var m := movements[movement];
    if numbers != [] && NumberFree(book.serials, Normalize(numbers[0])) {
      var next := Enrol(book, movement, m, numbers[0]);
      EnrolKeepsChain(book, movements, movement, m, numbers[0]);
      forall p: Product, y: Location, s ensures Units(next, p, y, s) == Units(before, p, y, s) + (n + 1) * Shift(m, destination, p, y, s) {
        assert Units(book, p, y, s) == Units(before, p, y, s) + n * Shift(m, destination, p, y, s);
      }
      assert next.events[..|before.events|] == book.events[..|before.events|];
      RegisterMoves(before, next, movements, movement, numbers[1..], destination, n + 1);
    }
  }

  /** Units the movement has not touched yet, each listed once. */
  ghost predicate Untouched(book: SerialBook, movement: nat, rows: seq<nat>) {
    && (forall j :: 0 <= j < |rows| ==> rows[j] < |book.serials|)
    && (forall j, k :: 0 <= j < k < |rows| ==> rows[j] != rows[k])
    && (forall j, k :: 0 <= j < |rows| && 0 <= k < |book.events| ==>
          book.events[k].movement != movement || book.events[k].serial != rows[j])
  }

  /** A unit that may move leaves exactly the state the movement's kind says. */
  lemma LeavesState(book: SerialBook, movements: seq<Movement>, m: Movement, destination: Option<Location>, i: nat, p: Product, y: Location, s: SerialStatus)
    requires i < |book.serials| && MayMove(book, movements, m, destination, i) && book.serials[i].product == m.product
    requires book.serials[i].location.Some? <==> InStock(book.serials[i].status)
    requires !Registers(m)
    ensures UnitAt(p, y, s)(book.serials[i]) == if p == m.product && Leaves(m) == Some(s) && y == m.location then 1 else 0
  {
  }

  lemma MovesLegally(book: SerialBook, movements: seq<Movement>, movement: nat, destination: Option<Location>, i: nat)
    requires movement < |movements| && !Registers(movements[movement])
    requires i < |book.serials| && MayMove(book, movements, movements[movement], destination, i)
    ensures var rule := CustodyOf(movements[movement], destination);
            EventLegal(movements, SerialEvent(i, movement, Some(book.serials[i].status), rule.to, book.serials[i].location, rule.toLocation))
  {
  }

  lemma LocatedAfter(book: SerialBook, movement: nat, i: nat, to: SerialStatus, toLocation: Option<Location>)
    requires Located(book) && i < |book.serials| && (toLocation.Some? <==> InStock(to))
    ensures Located(AppendEvent(book, movement, i, to, toLocation))
  {
  }

  lemma UntouchedRest(book: SerialBook, movement: nat, rows: seq<nat>, to: SerialStatus, toLocation: Option<Location>)
    requires Untouched(book, movement, rows) && rows != []
    ensures Untouched(AppendEvent(book, movement, rows[0], to, toLocation), movement, rows[1..])
    ensures forall k :: 0 <= k < |book.events| ==> book.events[k].movement != movement || book.events[k].serial != rows[0]
  {
  }

  lemma ShiftByOne(book: SerialBook, next: SerialBook, movements: seq<Movement>, m: Movement, destination: Option<Location>, i: nat)
    requires i < |book.serials| && MayMove(book, movements, m, destination, i) && book.serials[i].product == m.product
    requires Located(book) && !Registers(m)
    requires var rule := CustodyOf(m, destination);
             forall p: Product, y: Location, s ::
               Units(next, p, y, s)
               == Units(book, p, y, s) - UnitAt(p, y, s)(book.serials[i])
                  + (if p == book.serials[i].product && rule.toLocation == Some(y) && rule.to == s then 1 else 0)
    ensures forall p: Product, y: Location, s :: Units(next, p, y, s) == Units(book, p, y, s) + Shift(m, destination, p, y, s)
  {
    forall p: Product, y: Location, s ensures Units(next, p, y, s) == Units(book, p, y, s) + Shift(m, destination, p, y, s) {
      LeavesState(book, movements, m, destination, i, p, y, s);
    }
  }

  lemma {:induction false} MoveUnitsMoves(before: SerialBook, book: SerialBook, movements: seq<Movement>, movement: nat, rows: seq<nat>,
                                          destination: Option<Location>, n: int)
    requires SerialCore(book, movements) && movement < |movements| && !Registers(movements[movement])
    requires PlacesUnits(movements[movement], destination) && Untouched(book, movement, rows)
    requires forall k :: 0 <= k < |rows| ==> rows[k] < |book.serials| && book.serials[rows[k]].product == movements[movement].product
    requires SerialsMoved(before, book, movements[movement], destination, n)
    ensures var r := MoveUnits(book, movements, movement, rows, destination);
            r.Ok? ==> SerialCore(r.value, movements) && SerialsMoved(before, r.value, movements[movement], destination, n + |rows|)
    decreases |rows|
  {
    hide CustodyChain, Located, Untouched, MayMove, Units, Shift, EventLegal;
    var m := movements[movement];
    if rows != [] && MayMove(book, movements, m, destination, rows[0]) {
      var rule := CustodyOf(m, destination);
      assert EventLegal(movements, SerialEvent(rows[0], movement, Some(book.serials[rows[0]].status), rule.to,
                                               book.serials[rows[0]].location, rule.toLocation)) by {
        MovesLegally(book, movements, movement, destination, rows[0]);
      }
      UntouchedRest(book, movement, rows, rule.to, rule.toLocation);
      var next := AppendEvent(book, movement, rows[0], rule.to, rule.toLocation);
      MoveKeepsChain(book, movements, movement, rows[0], rule.to, rule.toLocation);
      ShiftByOne(book, next, movements, m, destination, rows[0]);
      LocatedAfter(book, movement, rows[0], rule.to, rule.toLocation);
      forall p: Product, y: Location, s ensures Units(next, p, y, s) == Units(before, p, y, s) + (n + 1) * Shift(m, destination, p, y, s) {
        assert Units(book, p, y, s) == Units(before, p, y, s) + n * Shift(m, destination, p, y, s);
      }
      assert next.events[..|before.events|] == book.events[..|before.events|];
      MoveUnitsMoves(before, next, movements, movement, rows[1..], destination, n + 1);
    }
  }

  // ----- One movement -----

  ghost predicate NoEvents(book: SerialBook, movement: nat) {
    forall k :: 0 <= k < |book.events| ==> book.events[k].movement != movement
  }

  lemma SelectedAreUntouched(book: SerialBook, product: Product, numbers: seq<string>, count: nat, movement: nat)
    requires RequestAccepted(numbers, count) && SelectRows(book.serials, product, numbers, |numbers|).Ok? && NoEvents(book, movement)
    ensures Untouched(book, movement, SelectRows(book.serials, product, numbers, |numbers|).value)
  {
    var rows := SelectRows(book.serials, product, numbers, |numbers|).value;
    forall j, k | 0 <= j < k < |rows| ensures rows[j] != rows[k] {
      assert Normalize(numbers[j]) != Normalize(numbers[k]);
    }
  }

  lemma NothingMoved(book: SerialBook, m: Movement, destination: Option<Location>)
    ensures SerialsMoved(book, book, m, destination, 0)
  {
  }

  /** How many units a successful movement moves. */
  function MovedUnits(m: Movement): nat {
    if m.kind == TransferIn || UnitCount(m).Err? then 0 else UnitCount(m).value
  }

  /** A movement that succeeds moves exactly as many units as its quantity says, from the state
      and place its kind takes them from to the one it leaves them in; each unit's history stays
      linked end to end, its last event is its row, and it has a place exactly while in stock. */
  lemma ApplySerialsMoves(book: SerialBook, movements: seq<Movement>, movement: nat, options: SerialOptions)
    requires SerialCore(book, movements) && movement < |movements| && NoEvents(book, movement)
    requires PlacesUnits(movements[movement], options.destination)
    ensures var r := ApplySerials(book, movements, movement, options);
            r.Ok? ==> && SerialCore(r.value, movements)
                      && SerialsMoved(book, r.value, movements[movement], options.destination, MovedUnits(movements[movement]))
  {
    hide SerialCore, SerialsMoved, PlacesUnits, Untouched, RequestAccepted, Numbers, SelectRows, Register, MoveUnits, Registers;
    var m := movements[movement];
    NothingMoved(book, m, options.destination);
    if m.kind != TransferIn && UnitCount(m).Ok? {
      var numbers := Numbers(book, movements, m, options);
      if RequestAccepted(numbers, UnitCount(m).value) {
        assert |numbers| == UnitCount(m).value by { AcceptedLength(numbers, UnitCount(m).value); }
        if Registers(m) {
          RegisterMoves(book, book, movements, movement, numbers, options.destination, 0);
        } else if SelectRows(book.serials, m.product, numbers, |numbers|).Ok? {
          SelectedAreUntouched(book, m.product, numbers, UnitCount(m).value, movement);
          MoveUnitsMoves(book, book, movements, movement, SelectRows(book.serials, m.product, numbers, |numbers|).value, options.destination, 0);
        }
      }
    }
  }

  lemma AcceptedLength(numbers: seq<string>, count: nat)
    requires RequestAccepted(numbers, count)
    ensures |numbers| == count
  {
  }

  /** Inserting a movement row does not disturb the serials. */
  lemma SerialsExtend(book: SerialBook, movements: seq<Movement>, m: Movement)
    requires SerialCore(book, movements)
    ensures SerialCore(book, movements + [m]) && NoEvents(book, |movements|)
  {
  }
}
