/** The loops that maintain serial custody. `tx` is the transaction's view of the tables: a method
    that fails returns an error and its caller keeps the tables it had. */
module SerialProjection {
  import opened Outcomes
  import opened Movements
  import opened Serials
  import opened SerialInvariants

  /** Enters new units into custody, one after the other. */
  method RegisterUnits(book: SerialBook, movement: nat, m: Movement, numbers: seq<string>) returns (r: Result<SerialBook>)
    ensures r == Register(book, movement, m, numbers)
  {
    hide NumberFree, Normalize;
    var tx, i := book, 0;
    assert numbers[0..] == numbers;
    while i < |numbers|
      invariant i <= |numbers|
      invariant Register(book, movement, m, numbers) == Register(tx, movement, m, numbers[i..])
    {
      assert numbers[i..][0] == numbers[i] && numbers[i..][1..] == numbers[i + 1..];
      if !NumberFree(tx.serials, Normalize(numbers[i])) {
        return Err(SerialDuplicate);
      }
      tx := Enrol(tx, movement, m, numbers[i]);
      i := i + 1;
    }
    return Ok(tx);
  }

  /** Moves the selected units to where the movement puts them. */
  method MoveSelected(book: SerialBook, movements: seq<Movement>, movement: nat, rows: seq<nat>, destination: Option<Location>)
    returns (r: Result<SerialBook>)
    requires movement < |movements| && forall k :: 0 <= k < |rows| ==> rows[k] < |book.serials|
    ensures r == MoveUnits(book, movements, movement, rows, destination)
  {
    hide MayMove;
    var m := movements[movement];
    var rule := CustodyOf(m, destination);
    var tx, i := book, 0;
    assert rows[0..] == rows;
    while i < |rows|
      invariant i <= |rows| && |tx.serials| == |book.serials|
      invariant MoveUnits(book, movements, movement, rows, destination) == MoveUnits(tx, movements, movement, rows[i..], destination)
    {
      assert rows[i..][0] == rows[i] && rows[i..][1..] == rows[i + 1..];
      if !MayMove(tx, movements, m, destination, rows[i]) {
        return Err(SerialStateConflict);
      }
      tx := AppendEvent(tx, movement, rows[i], rule.to, rule.toLocation);
      i := i + 1;
    }
    return Ok(tx);
  }

  /** One movement of a serialised product: the committed book keeps the chain of custody and moves
      exactly the movement's number of units between the states its kind prescribes. */
  method ApplyInventorySerialTracking(book: SerialBook, movements: seq<Movement>, movement: nat, options: SerialOptions)
    returns (r: Result<SerialBook>)
    requires SerialCore(book, movements) && movement < |movements| && NoEvents(book, movement)
    requires PlacesUnits(movements[movement], options.destination)
    ensures r == ApplySerials(book, movements, movement, options)
    ensures r.Ok? ==> && SerialCore(r.value, movements)
                      && SerialsMoved(book, r.value, movements[movement], options.destination, MovedUnits(movements[movement]))
  {
    ApplySerialsMoves(book, movements, movement, options);
    hide SerialCore, SerialsMoved, RequestAccepted;
    var m := movements[movement];
    if m.kind == TransferIn {
      return Ok(book);
    }
    var count := UnitCount(m);
    if count.Err? {
      return Err(count.error);
    }
    var numbers := Numbers(book, movements, m, options);
    if !RequestAccepted(numbers, count.value) {
      return Err(SerialRequired);
    }
    if Registers(m) {
      r := RegisterUnits(book, movement, m, numbers);
    } else {
      var rows := SelectRows(book.serials, m.product, numbers, |numbers|);
      if rows.Err? {
        return Err(rows.error);
      }
      r := MoveSelected(book, movements, movement, rows.value, options.destination);
    }
  }
}
