/** The transfer protocol between warehouses: create, dispatch, receive, cancel. Functions give the
    effect of one committed transaction; module InventoryDatabase has the code that computes it. */
module Transfers {
  import opened Outcomes
  import opened Sums
  import opened Text
  import opened Movements
  import opened Quantity
  import opened Serials
  import opened Balances
  import opened Ledgers
  import opened Stock
  import opened Site

  datatype Status = Draft | Dispatched | PartiallyReceived | Received | Cancelled

  /** A row of inventory_transfer_lines; its position in the transfer is its identifier. */
  datatype Line = Line(
    product: Product, source: Location, destination: Location, quantity: int, serials: seq<string>,
    received: int, discrepancy: int)

  /** What request_fingerprint digests. */
  datatype CreateDigest = CreateDigest(origin: Warehouse, destination: Warehouse, reference: string, reason: string, lines: seq<Line>)

  datatype Transfer = Transfer(
    origin: Warehouse, destination: Warehouse, status: Status, key: Key, digest: CreateDigest,
    dispatchKey: Option<Key>, lines: seq<Line>)

  datatype ReceiptLine = ReceiptLine(line: nat, received: int, discrepancy: int)

  datatype ReceiptDigest = ReceiptDigest(transfer: nat, items: map<nat, Item>, reason: Option<string>)

  datatype Receipt = Receipt(transfer: nat, key: Key, digest: ReceiptDigest, reason: Option<string>, lines: seq<ReceiptLine>)

  /** One requested line of a receipt, normalised. */
  datatype Item = Item(line: nat, received: int, discrepancy: int, receivedSerials: seq<string>, discrepancySerials: seq<string>)

  datatype State = State(stock: Stock, transfers: seq<Transfer>, receipts: seq<Receipt>)

  /** The transfer a call returns and whether it found it already done. */
  datatype Reply = Reply(transfer: nat, replay: bool)

  datatype Done = Done(state: State, reply: Reply)

  // ----- Requests -----

  datatype NewLine = NewLine(product: Product, source: Location, destination: Location, quantity: string, serials: seq<string>)

  datatype CreateRequest = CreateRequest(
    key: Key, origin: Warehouse, destination: Warehouse, reference: string, reason: string, lines: seq<NewLine>)

  datatype ReceiveLine = ReceiveLine(
    line: nat, received: string, discrepancy: string, receivedSerials: seq<string>, discrepancySerials: seq<string>)

  datatype ReceiveRequest = ReceiveRequest(
    key: Key, transfer: nat, destination: Warehouse, lines: seq<ReceiveLine>, reason: Option<string>)

  function Trimmed(numbers: seq<string>): (r: seq<string>)
    ensures |r| == |numbers|
  {
    seq(|numbers|, i requires 0 <= i < |numbers| => Trim(numbers[i]))
  }

  // ----- Create -----

  predicate LinesDistinct(lines: seq<NewLine>) {
    forall j, k :: 0 <= j < k < |lines| ==>
      lines[j].product != lines[k].product || lines[j].source != lines[k].source || lines[j].destination != lines[k].destination
  }

  function NormalizeLine(context: Context, line: NewLine): Result<Line> {
    if !ProductActive(context, line.product) then Err(InvalidTarget)
    else
      match NormalizedUnits(line.quantity, context.products[line.product].policy, false, true)
      case Err(e) => Err(e)
      case Ok(units) => Ok(Line(line.product, line.source, line.destination, units, Trimmed(line.serials), 0, 0))
  }

  function NormalizeLines(context: Context, lines: seq<NewLine>, n: nat): (r: Result<seq<Line>>)
    requires n <= |lines|
    ensures r.Ok? ==> |r.value| == n
  {
    if n == 0 then Ok([])
    else
      match NormalizeLines(context, lines, n - 1)
      case Err(e) => Err(e)
      case Ok(before) =>
        match NormalizeLine(context, lines[n - 1])
        case Err(e) => Err(e)
        case Ok(line) => Ok(before + [line])
  }

  function FindByKey(transfers: seq<Transfer>, key: Key, n: nat): (r: Option<nat>)
    requires n <= |transfers|
    ensures r.Some? ==> r.value < n && transfers[r.value].key == key
    ensures r.None? ==> forall k :: 0 <= k < n ==> transfers[k].key != key
  {
    if n == 0 then None
    else
      var before := FindByKey(transfers, key, n - 1);
      if before.None? && transfers[n - 1].key == key then Some(n - 1) else before
  }

  predicate LineTargetUsable(context: Context, origin: Warehouse, destination: Warehouse, line: Line) {
    ProductStocked(context, line.product) && LocationIn(context, line.source, origin) && LocationIn(context, line.destination, destination)
  }

  predicate TargetsUsable(context: Context, origin: Warehouse, destination: Warehouse, lines: seq<Line>) {
    forall i :: 0 <= i < |lines| ==> LineTargetUsable(context, origin, destination, lines[i])
  }

  function Create(state: State, context: Context, request: CreateRequest): (r: Result<Done>)
    ensures r.Ok? ==> r.value.state.stock == state.stock
  {
    if request.origin == request.destination then Err(InvalidTarget)
    else if !LinesDistinct(request.lines) then Err(DuplicateLine)
    else
      match NormalizeLines(context, request.lines, |request.lines|)
      case Err(e) => Err(e)
      case Ok(lines) =>
        var digest := CreateDigest(request.origin, request.destination, request.reference, request.reason, lines);
        if request.destination !in context.warehouses || request.destination !in context.access then Err(InvalidTarget)
        else
          match FindByKey(state.transfers, request.key, |state.transfers|)
          case Some(t) =>
            if state.transfers[t].digest != digest then Err(IdempotencyConflict) else Ok(Done(state, Reply(t, true)))
          case None =>
            if !WarehousePair(context, request.origin, request.destination) then Err(InvalidTarget)
            else if !TargetsUsable(context, request.origin, request.destination, lines) then Err(InvalidTarget)
            else
              var transfer := Transfer(request.origin, request.destination, Draft, request.key, digest, None, lines);
              Ok(Done(state.(transfers := state.transfers + [transfer]), Reply(|state.transfers|, false)))
  }

  // ----- Dispatch -----

  predicate LineUsable(context: Context, transfer: Transfer, line: Line) {
    ProductActive(context, line.product) && LocationIn(context, line.source, transfer.origin)
    && LocationIn(context, line.destination, transfer.destination)
  }

  predicate LinesUsable(context: Context, transfer: Transfer) {
    forall i :: 0 <= i < |transfer.lines| ==> LineUsable(context, transfer, transfer.lines[i])
  }

  function EnsureRows(rows: seq<Row>, lines: seq<Line>): seq<Row>
    decreases |lines|
  {
    if lines == [] then rows
    else EnsureRows(Ensure(Ensure(rows, lines[0].product, lines[0].source), lines[0].product, lines[0].destination), lines[1..])
  }

  function TransferMovement(context: Context, t: nat, i: nat, line: Line, kind: Kind, location: Location, quantity: int): Movement {
    Plain(line.product, location, kind, quantity, context.now, context.currency).(transferLine := Some(TransferLine(t, i)))
  }

  function Departure(context: Context, t: nat, i: nat, line: Line): Movement {
    TransferMovement(context, t, i, line, TransferOut, line.source, -line.quantity)
  }

  function Arrival(context: Context, t: nat, i: nat, line: Line): Movement {
    TransferMovement(context, t, i, line, TransferIn, line.destination, line.quantity)
  }

  function DepartureDetails(context: Context, line: Line): Details {
    Unguided(context, line.product, SerialOptions(Some(line.serials), Some(line.destination)))
  }

  function ArrivalDetails(context: Context, line: Line): Details {
    Unguided(context, line.product, SerialOptions(None, Some(line.destination)))
  }

  function Left(row: Row, quantity: int): Row {
    row.(available := row.available - quantity, quantity := row.quantity - quantity)
  }

  function Arriving(row: Row, quantity: int): Row {
    row.(inTransit := row.inTransit + quantity, quantity := row.quantity + quantity)
  }

  /** One line leaves the source and is in transit at the destination. */
  function DispatchLine(stock: Stock, tracking: Tracking, context: Context, t: nat, i: nat, line: Line): (r: Result<Stock>)
    requires Booked(stock)
    ensures r.Ok? ==> Booked(r.value)
  {
    var source := RowAt(stock.rows, line.product, line.source);
    if source.available < line.quantity then Err(InsufficientStock)
    else
      match Post(stock, tracking, Left(source, line.quantity), Departure(context, t, i, line), DepartureDetails(context, line))
      case Err(e) => Err(e)
      case Ok(left) =>
        Post(left, tracking, Arriving(RowAt(left.rows, line.product, line.destination), line.quantity),
             Arrival(context, t, i, line), ArrivalDetails(context, line))
  }

  function DispatchLines(stock: Stock, tracking: Tracking, context: Context, t: nat, lines: seq<Line>, i: nat): (r: Result<Stock>)
    requires Booked(stock) && i <= |lines|
    ensures r.Ok? ==> Booked(r.value)
    decreases |lines| - i
  {
    if i == |lines| then Ok(stock)
    else
      match DispatchLine(stock, tracking, context, t, i, lines[i])
      case Err(e) => Err(e)
      case Ok(next) => DispatchLines(next, tracking, context, t, lines, i + 1)
  }

  predicate DispatchKeyFree(transfers: seq<Transfer>, key: Key) {
    forall k :: 0 <= k < |transfers| ==> transfers[k].dispatchKey != Some(key)
  }

  function Dispatch(state: State, tracking: Tracking, context: Context, t: nat, origin: Warehouse, key: Key): (r: Result<Done>)
    requires Booked(state.stock)
    ensures r.Ok? ==> Booked(r.value.state.stock)
  {
    if t >= |state.transfers| || state.transfers[t].origin != origin then Err(NotFound)
    else
      var transfer := state.transfers[t];
      if transfer.status == Dispatched then
        if transfer.dispatchKey != Some(key) then Err(StatusConflict) else Ok(Done(state, Reply(t, true)))
      else if transfer.status != Draft then Err(StatusConflict)
      else if !WarehousePair(context, transfer.origin, transfer.destination) then Err(InvalidTarget)
      else if transfer.lines == [] then Err(NotFound)
      else if !LinesUsable(context, transfer) then Err(InvalidTarget)
      else
        var stock := state.stock.(rows := EnsureRows(state.stock.rows, transfer.lines));
        match DispatchLines(stock, tracking, context, t, transfer.lines, 0)
        case Err(e) => Err(e)
        case Ok(after) =>
          if !DispatchKeyFree(state.transfers, key) then Err(IdempotencyConflict)
          else
            Ok(Done(State(after, state.transfers[t := transfer.(status := Dispatched, dispatchKey := Some(key))], state.receipts),
                    Reply(t, false)))
  }

  // ----- Receive -----

  predicate ItemLinesDistinct(lines: seq<ReceiveLine>) {
    forall j, k :: 0 <= j < k < |lines| ==> lines[j].line != lines[k].line
  }

  function NormalizeItem(context: Context, transfer: Transfer, line: ReceiveLine): (r: Result<Item>)
    ensures r.Ok? ==> r.value.line == line.line < |transfer.lines|
  {
    if line.line >= |transfer.lines| || transfer.lines[line.line].product !in context.products then Err(InvalidReceipt)
    else
      var policy := context.products[transfer.lines[line.line].product].policy;
      match NormalizedUnits(line.received, policy, false, false)
      case Err(e) => Err(e)
      case Ok(received) =>
        match NormalizedUnits(line.discrepancy, policy, false, false)
        case Err(e) => Err(e)
        case Ok(discrepancy) =>
          Ok(Item(line.line, received, discrepancy, Trimmed(line.receivedSerials), Trimmed(line.discrepancySerials)))
  }

  function NormalizeItems(context: Context, transfer: Transfer, lines: seq<ReceiveLine>, n: nat): (r: Result<seq<Item>>)
    requires n <= |lines|
    ensures r.Ok? ==> |r.value| == n && forall k :: 0 <= k < n ==>
              r.value[k].line == lines[k].line < |transfer.lines|
  {
    hide NormalizeItem;
    if n == 0 then Ok([])
    else
      match NormalizeItems(context, transfer, lines, n - 1)
      case Err(e) => Err(e)
      case Ok(before) =>
        var last := NormalizeItem(context, transfer, lines[n - 1]);
        if last.Err? then Err(last.error) else Ok(before + [last.value])
  }

  function FindReceipt(receipts: seq<Receipt>, key: Key, n: nat): (r: Option<nat>)
    requires n <= |receipts|
    ensures r.Some? ==> r.value < n && receipts[r.value].key == key
    ensures r.None? ==> forall k :: 0 <= k < n ==> receipts[k].key != key
  {
    if n == 0 then None
    else
      var before := FindReceipt(receipts, key, n - 1);
      if before.None? && receipts[n - 1].key == key then Some(n - 1) else before
  }

  function ItemMap(items: seq<Item>): map<nat, Item> {
    if items == [] then map[] else ItemMap(items[..|items| - 1])[items[|items| - 1].line := items[|items| - 1]]
  }

  function PendingOf(line: Line): int {
    line.quantity - line.received - line.discrepancy
  }

  /** Why a requested item cannot be received, if it cannot. */
  function ItemError(transfer: Transfer, item: Item): Option<Error> {
    if item.line >= |transfer.lines| then Some(InvalidReceipt)
    else if item.received + item.discrepancy <= 0 then Some(InvalidReceipt)
    else if item.received + item.discrepancy > PendingOf(transfer.lines[item.line]) then Some(ReceiptExceedsPending)
    else None
  }

  function FirstError(transfer: Transfer, items: seq<Item>, n: nat): (r: Option<Error>)
    requires n <= |items|
    ensures r.None? <==> forall k :: 0 <= k < n ==> ItemError(transfer, items[k]).None?
  {
    if n == 0 then None
    else
      var before := FirstError(transfer, items, n - 1);
      if before.Some? then before else ItemError(transfer, items[n - 1])
  }

  predicate RowsPresent(rows: seq<Row>, transfer: Transfer, items: seq<Item>) {
    forall k :: 0 <= k < |items| && items[k].line < |transfer.lines| ==>
      Exists(rows, transfer.lines[items[k].line].product, transfer.lines[items[k].line].destination)
  }

  function ReceiptMovement(context: Context, t: nat, item: Item, line: Line): Movement {
    TransferMovement(context, t, item.line, line, TransferReceipt, line.destination, 0)
      .(stateQuantity := item.received, state := Some(StateChange(InTransit, Available)))
  }

  function DiscrepancyMovement(context: Context, t: nat, item: Item, line: Line): Movement {
    TransferMovement(context, t, item.line, line, TransferDiscrepancy, line.destination, -item.discrepancy)
  }

  /** The balance after the good part is made available, and after the rest is written off. */
  function MadeAvailable(row: Row, received: int): Row {
    row.(inTransit := row.inTransit - received, available := row.available + received)
  }

  function WrittenOff(row: Row, discrepancy: int): Row {
    row.(inTransit := row.inTransit - discrepancy, quantity := row.quantity - discrepancy)
  }

  /** One item: its balance row, then a movement for the good part and one for the rest. */
  function ReceiveItem(stock: Stock, tracking: Tracking, context: Context, t: nat, item: Item, line: Line): (r: Result<Stock>)
    requires Booked(stock)
    ensures r.Ok? ==> Booked(r.value)
  {
    var row := RowAt(stock.rows, line.product, line.destination);
    if row.inTransit < item.received + item.discrepancy then Err(InvalidReceipt)
    else
      var available := MadeAvailable(row, item.received);
      var first :=
        if item.received > 0 then
          Post(stock, tracking, available, ReceiptMovement(context, t, item, line),
               Unguided(context, line.product, SerialOptions(Some(item.receivedSerials), None)))
        else Ok(stock.(rows := Put(stock.rows, available)));
      match first
      case Err(e) => Err(e)
      case Ok(received) =>
        if item.discrepancy > 0 then
          Post(received, tracking, WrittenOff(available, item.discrepancy), DiscrepancyMovement(context, t, item, line),
               Unguided(context, line.product, SerialOptions(Some(item.discrepancySerials), None)))
        else Ok(received.(rows := Put(received.rows, WrittenOff(available, item.discrepancy))))
  }

  function Progress(line: Line, item: Item): Line {
    line.(received := line.received + item.received, discrepancy := line.discrepancy + item.discrepancy)
  }

  datatype Receiving = Receiving(stock: Stock, lines: seq<Line>)

  function ReceiveItems(tx: Receiving, tracking: Tracking, context: Context, t: nat, items: seq<Item>): (r: Result<Receiving>)
    requires Booked(tx.stock) && forall k :: 0 <= k < |items| ==> items[k].line < |tx.lines|
    ensures r.Ok? ==> Booked(r.value.stock) && |r.value.lines| == |tx.lines|
    decreases |items|
  {
    if items == [] then Ok(tx)
    else
      var item := items[0];
      match ReceiveItem(tx.stock, tracking, context, t, item, tx.lines[item.line])
      case Err(e) => Err(e)
      case Ok(stock) =>
        ReceiveItems(Receiving(stock, tx.lines[item.line := Progress(tx.lines[item.line], item)]), tracking, context, t, items[1..])
  }

  predicate Complete(lines: seq<Line>) {
    forall i :: 0 <= i < |lines| ==> lines[i].received + lines[i].discrepancy >= lines[i].quantity
  }

  function ReceiptLines(items: seq<Item>): (r: seq<ReceiptLine>)
    ensures |r| == |items|
  {
    seq(|items|, k requires 0 <= k < |items| => ReceiptLine(items[k].line, items[k].received, items[k].discrepancy))
  }

  /** The checks before the transaction: the normalised items, or the error. */
  function RequestedItems(state: State, context: Context, request: ReceiveRequest): (r: Result<seq<Item>>)
    ensures r.Ok? ==> request.transfer < |state.transfers|
                      && forall k :: 0 <= k < |r.value| ==> r.value[k].line < |state.transfers[request.transfer].lines|
  {
    if !ItemLinesDistinct(request.lines) then Err(InvalidReceipt)
    else if request.transfer >= |state.transfers| then Err(NotFound)
    else
      match NormalizeItems(context, state.transfers[request.transfer], request.lines, |request.lines|)
      case Err(e) => Err(e)
      case Ok(items) =>
        if forall k :: 0 <= k < |items| ==> items[k].received == 0 && items[k].discrepancy == 0 then Err(InvalidReceipt)
        else if (exists k :: 0 <= k < |items| && items[k].discrepancy > 0) && request.reason.None? then Err(DiscrepancyReasonRequired)
        else Ok(items)
  }

  function Receive(state: State, tracking: Tracking, context: Context, request: ReceiveRequest): (r: Result<Done>)
    requires Booked(state.stock)
    ensures r.Ok? ==> Booked(r.value.state.stock)
  {
    match RequestedItems(state, context, request)
    case Err(e) => Err(e)
    case Ok(items) =>
      var t := request.transfer;
      var transfer := state.transfers[t];
      var digest := ReceiptDigest(t, ItemMap(items), request.reason);
      match FindReceipt(state.receipts, request.key, |state.receipts|)
      case Some(k) =>
        if state.receipts[k].transfer != t || state.receipts[k].digest != digest then Err(IdempotencyConflict)
        else if transfer.destination != request.destination then Err(NotFound)
        else Ok(Done(state, Reply(t, true)))
      case None =>
        if transfer.destination != request.destination then Err(InvalidTarget)
        else if transfer.status != Dispatched && transfer.status != PartiallyReceived then Err(StatusConflict)
        else if FirstError(transfer, items, |items|).Some? then Err(FirstError(transfer, items, |items|).value)
        else if !RowsPresent(state.stock.rows, transfer, items) then Err(InvalidReceipt)
        else
          match ReceiveItems(Receiving(state.stock, transfer.lines), tracking, context, t, items)
          case Err(e) => Err(e)
          case Ok(after) =>
            var status := if Complete(after.lines) then Received else PartiallyReceived;
            Ok(Done(State(after.stock,
                          state.transfers[t := transfer.(status := status, lines := after.lines)],
                          state.receipts + [Receipt(t, request.key, digest, request.reason, ReceiptLines(items))]),
                    Reply(t, false)))
  }

  // ----- Cancel -----

  function Cancel(state: State, t: nat, origin: Warehouse): (r: Result<Done>)
    ensures r.Ok? ==> r.value.state.stock == state.stock
  {
    if t >= |state.transfers| || state.transfers[t].origin != origin then Err(NotFound)
    else
      var transfer := state.transfers[t];
      if transfer.status == Dispatched then Err(StatusConflict)
      else if transfer.status == Draft then
        Ok(Done(state.(transfers := state.transfers[t := transfer.(status := Cancelled)]), Reply(t, false)))
      else Ok(Done(state, Reply(t, false)))
  }
}
