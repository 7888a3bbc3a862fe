/** Serial tracking: what one movement does to the custody of individually numbered units.
    Functions give the effect on values; module SerialProjection has the loops. */
module Serials {
  import opened Outcomes
  import opened Sums
  import opened Rounding
  import opened Movements
  import opened Text

  /** A row of inventory_serials; its position is its identifier. */
  datatype Serial = Serial(product: Product, number: string, normalized: string, status: SerialStatus, location: Option<Location>)

  /** A row of inventory_serial_events. */
  datatype SerialEvent = SerialEvent(
    serial: nat, movement: nat, from: Option<SerialStatus>, to: SerialStatus,
    fromLocation: Option<Location>, toLocation: Option<Location>)

  datatype SerialBook = SerialBook(serials: seq<Serial>, events: seq<SerialEvent>)

  const EmptySerials := SerialBook([], [])

  /** What the caller passes along. */
  datatype SerialOptions = SerialOptions(numbers: Option<seq<string>>, destination: Option<Location>)

  const MaximumSerials := 1000
  const MaximumSerialLength := 120

  function Normalize(number: string): string {
    UpperAscii(Trim(number))
  }

  predicate InStock(status: SerialStatus) {
    status == Available || status == Reserved || status == Damaged || status == InTransit
  }

  // ----- The request -----

  /** How many units a movement moves. */
  function UnitCount(m: Movement): Result<nat> {
    if m.quantity % QUANTITY_SCALE != 0 || m.stateQuantity % QUANTITY_SCALE != 0 then Err(SerialQuantity)
    else if m.stateQuantity > 0 then Ok(m.stateQuantity / QUANTITY_SCALE)
    else Ok(Abs(m.quantity) / QUANTITY_SCALE)
  }

  predicate RequestAccepted(numbers: seq<string>, count: nat) {
    && count <= MaximumSerials && |numbers| == count
    && (forall k :: 0 <= k < |numbers| ==> 1 <= |Trim(numbers[k])| <= MaximumSerialLength)
    && (forall j, k :: 0 <= j < k < |numbers| ==> Normalize(numbers[j]) != Normalize(numbers[k]))
  }

  /** The serials that left with the sale or dispatch a movement reverses or completes. */
  predicate LeftWith(movements: seq<Movement>, e: SerialEvent, m: Movement) {
    e.movement < |movements| &&
    var o := movements[e.movement];
    && o.product == m.product
    && if m.kind == SaleVoid then m.saleLine.Some? && o.saleLine == m.saleLine && o.kind == Sale
       else m.transferLine.Some? && o.transferLine == m.transferLine && o.kind == TransferOut
  }

  function SourceNumbers(book: SerialBook, movements: seq<Movement>, m: Movement, n: nat): seq<string>
    requires n <= |book.events|
  {
    if n == 0 then []
    else
      var before := SourceNumbers(book, movements, m, n - 1);
      var e := book.events[n - 1];
      if LeftWith(movements, e, m) && e.serial < |book.serials| then before + [book.serials[e.serial].number] else before
  }

  function Numbers(book: SerialBook, movements: seq<Movement>, m: Movement, options: SerialOptions): seq<string> {
    if m.kind == SaleVoid || ((m.kind == TransferReceipt || m.kind == TransferDiscrepancy) && options.numbers.None?)
    then SourceNumbers(book, movements, m, |book.events|)
    else if options.numbers.Some? then options.numbers.value else []
  }

  // ----- Registration -----

  predicate Registers(m: Movement) {
    m.quantity > 0
    && (m.kind == Initial || m.kind == Entry || m.kind == PurchaseReceipt || m.kind == Import || m.kind == Adjustment)
  }

  /** The unique key on the normalised number, across products. */
  predicate NumberFree(serials: seq<Serial>, normalized: string) {
    forall k :: 0 <= k < |serials| ==> serials[k].normalized != normalized
  }

  /** A new unit enters custody, available at the movement's location. */
  function Enrol(book: SerialBook, movement: nat, m: Movement, number: string): SerialBook {
    SerialBook(
      book.serials + [Serial(m.product, Trim(number), Normalize(number), Available, Some(m.location))],
      book.events + [SerialEvent(|book.serials|, movement, None, Available, None, Some(m.location))])
  }

  function Register(book: SerialBook, movement: nat, m: Movement, numbers: seq<string>): Result<SerialBook>
    decreases |numbers|
  {
    if numbers == [] then Ok(book)
    else if !NumberFree(book.serials, Normalize(numbers[0])) then Err(SerialDuplicate)
    else Register(Enrol(book, movement, m, numbers[0]), movement, m, numbers[1..])
  }

  // ----- Selection -----

  function Find(serials: seq<Serial>, product: Product, normalized: string, n: nat): (r: Option<nat>)
    requires n <= |serials|
    ensures r.Some? ==> r.value < n && serials[r.value].product == product && serials[r.value].normalized == normalized
    ensures r.None? ==> forall k :: 0 <= k < n ==> serials[k].product != product || serials[k].normalized != normalized
  {
    if n == 0 then None
    else
      var before := Find(serials, product, normalized, n - 1);
      if before.None? && serials[n - 1].product == product && serials[n - 1].normalized == normalized then Some(n - 1) else before
  }

  function SelectRows(serials: seq<Serial>, product: Product, numbers: seq<string>, n: nat): (r: Result<seq<nat>>)
    requires n <= |numbers|
    ensures r.Ok? ==> |r.value| == n && forall k :: 0 <= k < n ==>
              r.value[k] < |serials| && serials[r.value[k]].product == product
              && serials[r.value[k]].normalized == Normalize(numbers[k])
  {
    if n == 0 then Ok([])
    else
      match SelectRows(serials, product, numbers, n - 1)
      case Err(e) => Err(e)
      case Ok(before) =>
        match Find(serials, product, Normalize(numbers[n - 1]), |serials|)
        case None => Err(SerialNotFound)
        case Some(i) => Ok(before + [i])
  }

  // ----- Custody -----

  /** Which statuses a movement may take a unit from, and where it leaves the unit. */
  datatype Custody = Custody(allowed: set<SerialStatus>, to: SerialStatus, toLocation: Option<Location>)

  function CustodyOf(m: Movement, destination: Option<Location>): Custody {
    match m.kind
    case Sale => Custody(if m.reserved then {Reserved} else {Available}, Sold, None)
    case SaleVoid => Custody({Sold, Removed}, Available, Some(m.location))
    case Return => Custody({Sold, Removed}, Available, Some(m.location))
    case SaleReturn => Custody({Sold}, if m.damagedReturn then Damaged else Available, Some(m.location))
    case TransferOut => Custody({Available}, InTransit, destination)
    case TransferReceipt => Custody({InTransit}, Available, Some(m.location))
    case TransferDiscrepancy => Custody({InTransit}, Removed, None)
    case SupplierReturn => Custody({Available}, ReturnedToSupplier, None)
    case StateTransition =>
      (match m.state
       case None => Custody({}, Removed, Some(m.location))
       case Some(change) => Custody({change.from}, change.to, Some(m.location)))
    case Damage => Custody({Available}, Damaged, Some(m.location))
    case _ => Custody({Available}, Removed, None)
  }

  /** The unit came in with the receipt that the supplier return gives back. */
  predicate CameWith(book: SerialBook, movements: seq<Movement>, m: Movement, serial: nat) {
    m.returnOf.Some? &&
    exists k :: 0 <= k < |book.events| && book.events[k].serial == serial && ReceiptEvent(movements, book.events[k], m.returnOf.value.receiptLine)
  }

  predicate ReceiptEvent(movements: seq<Movement>, e: SerialEvent, receiptLine: nat) {
    e.movement < |movements| && movements[e.movement].kind == PurchaseReceipt && movements[e.movement].purchase.Some?
    && movements[e.movement].purchase.value.receiptLine == receiptLine
  }

  predicate MayMove(book: SerialBook, movements: seq<Movement>, m: Movement, destination: Option<Location>, i: nat)
    requires i < |book.serials|
  {
    && (m.kind == SupplierReturn ==> CameWith(book, movements, m, i))
    && book.serials[i].status in CustodyOf(m, destination).allowed
    && (book.serials[i].location == Some(m.location) || m.kind == SaleVoid || m.kind == SaleReturn)
  }

  /** appendEvent: the unit moves and the event links its old place to its new one. */
  function AppendEvent(book: SerialBook, movement: nat, i: nat, to: SerialStatus, toLocation: Option<Location>): SerialBook
    requires i < |book.serials|
  {
    var row := book.serials[i];
    SerialBook(
      book.serials[i := row.(status := to, location := toLocation)],
      book.events + [SerialEvent(i, movement, Some(row.status), to, row.location, toLocation)])
  }

  function MoveUnits(book: SerialBook, movements: seq<Movement>, movement: nat, rows: seq<nat>, destination: Option<Location>): Result<SerialBook>
    requires movement < |movements| && forall k :: 0 <= k < |rows| ==> rows[k] < |book.serials|
    decreases |rows|
  {
    if rows == [] then Ok(book)
    else
      var m := movements[movement];
      var rule := CustodyOf(m, destination);
      if !MayMove(book, movements, m, destination, rows[0]) then Err(SerialStateConflict)
      else MoveUnits(AppendEvent(book, movement, rows[0], rule.to, rule.toLocation), movements, movement, rows[1..], destination)
  }

  /** applyInventorySerialTracking for a serialised product. */
  function ApplySerials(book: SerialBook, movements: seq<Movement>, movement: nat, options: SerialOptions): Result<SerialBook>
    requires movement < |movements|
  {
    var m := movements[movement];
    if (exists k :: 0 <= k < |book.events| && book.events[k].movement == movement) || m.kind == TransferIn then Ok(book)
    else
      match UnitCount(m)
      case Err(e) => Err(e)
      case Ok(count) =>
        var numbers := Numbers(book, movements, m, options);
        if !RequestAccepted(numbers, count) then Err(SerialRequired)
        else if Registers(m) then Register(book, movement, m, numbers)
        else
          match SelectRows(book.serials, m.product, numbers, |numbers|)
          case Err(e) => Err(e)
          case Ok(rows) => MoveUnits(book, movements, movement, rows, options.destination)
  }
}
