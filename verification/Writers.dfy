/** The other writers of stock: manual movements, state changes, confirmed imports, closed counts and
    kit operations. Functions give the effect of one committed transaction. */
module Writers {
  import opened Outcomes
  import opened Sums
  import opened Text
  import opened Rounding
  import opened Movements
  import opened Quantity
  import opened Lots
  import opened Serials
  import opened Balances
  import opened Ledgers
  import opened Stock
  import opened Site

  // ----- Manual movements -----

  datatype MovementRequest = MovementRequest(
    key: Key, warehouse: Warehouse, product: Product, location: Location, kind: Kind, quantity: string,
    referenced: bool, lot: Option<LotLabel>, serials: Option<seq<string>>)

  predicate UserKind(kind: Kind) {
    kind == Initial || kind == Entry || kind == Exit || kind == Return || kind == Loss || kind == Damage || kind == Adjustment
  }

  /** The signed quantity of a manual movement. */
  function QuantityChange(kind: Kind, units: int): Result<int> {
    if units == 0 then Err(InsufficientStock)
    else if kind == Adjustment then Ok(units)
    else if units < 0 then Err(InsufficientStock)
    else Ok(if kind == Exit || kind == Loss || kind == Damage then -units else units)
  }

  function RequestedChange(context: Context, request: MovementRequest): Result<int> {
    if request.product !in context.products then Err(NotFound)
    else
      match NormalizedUnits(request.quantity, context.products[request.product].policy, true, true)
      case Err(e) => Err(e)
      case Ok(units) => QuantityChange(request.kind, units)
  }

  predicate TargetUsable(context: Context, product: Product, location: Location, warehouse: Warehouse) {
    ProductStocked(context, product) && LocationIn(context, location, warehouse)
  }

  predicate HasMoved(log: seq<Movement>, product: Product, location: Location) {
    exists k :: 0 <= k < |log| && log[k].product == product && log[k].location == location
  }

  /** The row with its quantity and its available stock changed alike. */
  function AvailableChanged(row: Row, change: int): Row {
    row.(quantity := row.quantity + change, available := row.available + change)
  }

  function MovementDetails(context: Context, request: MovementRequest): Details {
    var unguided := Unguided(context, request.product, SerialOptions(request.serials, None));
    unguided.(lot := unguided.lot.(lotLabel := request.lot))
  }

  /** createMovement for a key not used before. */
  function RecordMovement(stock: Stock, tracking: Tracking, context: Context, request: MovementRequest): (r: Result<Stock>)
    requires Booked(stock)
    ensures r.Ok? ==> Booked(r.value)
  {
    match RequestedChange(context, request)
    case Err(e) => Err(e)
    case Ok(change) =>
      if !TargetUsable(context, request.product, request.location, request.warehouse) then Err(NotFound)
      else if request.kind != Initial && !request.referenced then Err(ReferenceRequired)
      else if request.kind == Initial && HasMoved(Log(stock), request.product, request.location) then Err(InitialStockExists)
      else
        var row := RowAt(stock.rows, request.product, request.location);
        if row.quantity + change < 0 || row.available + change < 0 then Err(InsufficientStock)
        else
          Post(stock, tracking, AvailableChanged(row, change),
               Plain(request.product, request.location, request.kind, change, context.now, context.currency),
               MovementDetails(context, request))
  }

  // ----- State changes -----

  datatype TransitionRequest = TransitionRequest(
    key: Key, warehouse: Warehouse, product: Product, location: Location, from: SerialStatus, to: SerialStatus,
    quantity: string, serials: Option<seq<string>>)

  predicate TransitionAllowed(from: SerialStatus, to: SerialStatus) {
    from != to && (from == Available || to == Available)
  }

  function TransitionUnits(context: Context, request: TransitionRequest): Result<int> {
    if !TransitionAllowed(request.from, request.to) then Err(InvalidStateTransition)
    else if request.product !in context.products then Err(NotFound)
    else
      match NormalizedUnits(request.quantity, context.products[request.product].policy, false, true)
      case Err(e) => Err(e)
      case Ok(units) => if units <= 0 then Err(InvalidStateTransition) else Ok(units)
  }

  function StatesChanged(row: Row, from: SerialStatus, to: SerialStatus, units: int): Row {
    var left := WithState(row, from, StateOf(row, from) - units);
    WithState(left, to, StateOf(row, to) + units)
  }

  function TransitionMovement(context: Context, request: TransitionRequest, units: int): Movement {
    Plain(request.product, request.location, StateTransition, 0, context.now, context.currency)
      .(stateQuantity := units, state := Some(StateChange(request.from, request.to)))
  }

  /** createStateTransition for a key not used before. */
  function ChangeState(stock: Stock, tracking: Tracking, context: Context, request: TransitionRequest): (r: Result<Stock>)
    requires Booked(stock)
    ensures r.Ok? ==> Booked(r.value)
  {
    match TransitionUnits(context, request)
    case Err(e) => Err(e)
    case Ok(units) =>
      if !TargetUsable(context, request.product, request.location, request.warehouse) then Err(NotFound)
      else
        var row := RowAt(stock.rows, request.product, request.location);
        if StateOf(row, request.from) < units then Err(InsufficientStock)
        else
          Post(stock, tracking, StatesChanged(row, request.from, request.to, units), TransitionMovement(context, request, units),
               Unguided(context, request.product, SerialOptions(request.serials, None)))
  }

  // ----- Imports -----

  /** A previewed row; `preview` is the quantity the preview saw in the state. */
  datatype ImportRow = ImportRow(
    product: Option<Product>, location: Option<Location>, state: Option<SerialStatus>, target: Option<nat>, preview: Option<int>)

  /** The rows are listed in the order confirmation visits them. */
  datatype ImportFile = ImportFile(
    warehouse: Warehouse, confirmed: bool, key: Option<Key>, errorRows: nat, movementCount: nat, rows: seq<ImportRow>)

  datatype Importing = Importing(stock: Stock, count: nat)

  /** One row: the state is set to its target, provided it still holds what the preview saw. */
  function ConfirmRow(tx: Importing, tracking: Tracking, context: Context, warehouse: Warehouse, row: ImportRow): (r: Result<Importing>)
    requires Booked(tx.stock)
    ensures r.Ok? ==> Booked(r.value.stock)
  {
    if row.product.None? || row.location.None? || row.state.None? || row.target.None? then Err(ImportHasErrors)
    else
      var product, location, state, target := row.product.value, row.location.value, row.state.value, row.target.value;
      if !TargetUsable(context, product, location, warehouse) then Err(ImportStale)
      else
        var balance := RowAt(tx.stock.rows, product, location);
        if row.preview != Some(StateOf(balance, state)) then Err(ImportStale)
        else
          var difference := target - StateOf(balance, state);
          if difference == 0 then Ok(tx.(stock := tx.stock.(rows := Ensure(tx.stock.rows, product, location))))
          else
            var after := WithState(balance, state, target).(quantity := balance.quantity + difference);
            match Post(tx.stock, tracking, after, Plain(product, location, Import, difference, context.now, context.currency),
                       Unguided(context, product, SerialOptions(None, None)))
            case Err(e) => Err(e)
            case Ok(stock) => Ok(Importing(stock, tx.count + 1))
  }

  function ConfirmRows(tx: Importing, tracking: Tracking, context: Context, warehouse: Warehouse, rows: seq<ImportRow>): (r: Result<Importing>)
    requires Booked(tx.stock)
    ensures r.Ok? ==> Booked(r.value.stock)
    decreases |rows|
  {
    if rows == [] then Ok(tx)
    else
      match ConfirmRow(tx, tracking, context, warehouse, rows[0])
      case Err(e) => Err(e)
      case Ok(next) => ConfirmRows(next, tracking, context, warehouse, rows[1..])
  }

  datatype Imported = Imported(stock: Stock, files: seq<ImportFile>)

  predicate ConfirmationKeyFree(files: seq<ImportFile>, f: nat, key: Key) {
    forall k :: 0 <= k < |files| && k != f ==> files[k].key != Some(key)
  }

  /** Confirming an import applies all of its rows or none; a confirmed one is left as it is. */
  function ConfirmImport(stock: Stock, files: seq<ImportFile>, tracking: Tracking, context: Context, f: nat, warehouse: Warehouse, key: Key):
    (r: Result<Imported>)
    requires Booked(stock)
    ensures r.Ok? ==> Booked(r.value.stock)
  {
    if f >= |files| || files[f].warehouse != warehouse then Err(NotFound)
    else if files[f].confirmed then Ok(Imported(stock, files))
    else if files[f].errorRows > 0 then Err(ImportHasErrors)
    else if !ConfirmationKeyFree(files, f, key) then Err(IdempotencyConflict)
    else
      match ConfirmRows(Importing(stock, 0), tracking, context, warehouse, files[f].rows)
      case Err(e) => Err(e)
      case Ok(done) =>
        Ok(Imported(done.stock, files[f := files[f].(confirmed := true, key := Some(key), movementCount := done.count)]))
  }

  // ----- Counts -----

  datatype CountLine = CountLine(product: Product, snapshot: int, counted: Option<nat>, variance: Option<int>)

  datatype CountSession = CountSession(warehouse: Warehouse, location: Location, closed: bool, lines: seq<CountLine>)

  predicate CountReady(lines: seq<CountLine>) {
    lines != [] && forall i :: 0 <= i < |lines| ==> lines[i].counted.Some?
  }

  predicate SnapshotsHold(rows: seq<Row>, location: Location, lines: seq<CountLine>) {
    forall i :: 0 <= i < |lines| ==> RowAt(rows, lines[i].product, location).available == lines[i].snapshot
  }

  /** One counted line against the balance loaded before any line was written. */
  function CloseLine(stock: Stock, tracking: Tracking, context: Context, location: Location, loaded: Row, line: CountLine): (r: Result<Stock>)
    requires Booked(stock) && line.counted.Some?
    ensures r.Ok? ==> Booked(r.value)
  {
    var variance := line.counted.value - loaded.available;
    if variance == 0 then Ok(stock)
    else
      Post(stock, tracking,
           RowAt(stock.rows, line.product, location).(quantity := loaded.quantity + variance, available := line.counted.value),
           Plain(line.product, location, Adjustment, variance, context.now, context.currency),
           Unguided(context, line.product, SerialOptions(None, None)))
  }

  function CloseLines(stock: Stock, tracking: Tracking, context: Context, location: Location, loaded: seq<Row>, lines: seq<CountLine>):
    (r: Result<Stock>)
    requires Booked(stock) && forall i :: 0 <= i < |lines| ==> lines[i].counted.Some?
    ensures r.Ok? ==> Booked(r.value)
    decreases |lines|
  {
    if lines == [] then Ok(stock)
    else
      match CloseLine(stock, tracking, context, location, RowAt(loaded, lines[0].product, location), lines[0])
      case Err(e) => Err(e)
      case Ok(next) => CloseLines(next, tracking, context, location, loaded, lines[1..])
  }

  function Closed(rows: seq<Row>, session: CountSession): CountSession
    requires CountReady(session.lines)
  {
    session.(
      closed := true,
      lines := seq(|session.lines|, i requires 0 <= i < |session.lines| =>
        session.lines[i].(variance := Some(session.lines[i].counted.value - RowAt(rows, session.lines[i].product, session.location).available))))
  }

  datatype Counted = Counted(stock: Stock, sessions: seq<CountSession>)

  /** Closing a count sets each counted product to what was counted, provided the stock did not move
      since the session opened; a closed session is left as it is. */
  function CloseCount(stock: Stock, sessions: seq<CountSession>, tracking: Tracking, context: Context, s: nat, warehouse: Warehouse):
    (r: Result<Counted>)
    requires Booked(stock)
    ensures r.Ok? ==> Booked(r.value.stock)
  {
    if s >= |sessions| || sessions[s].warehouse != warehouse then Err(NotFound)
    else if sessions[s].closed then Ok(Counted(stock, sessions))
    else if !CountReady(sessions[s].lines) then Err(CountIncomplete)
    else if !SnapshotsHold(stock.rows, sessions[s].location, sessions[s].lines) then Err(CountStockChanged)
    else
      match CloseLines(stock, tracking, context, sessions[s].location, stock.rows, sessions[s].lines)
      case Err(e) => Err(e)
      case Ok(after) => Ok(Counted(after, sessions[s := Closed(stock.rows, sessions[s])]))
  }

  // ----- Kits -----

  datatype Component = Component(product: Product, quantity: nat)

  /** `components` are in product order, each product once. */
  datatype Kit = Kit(product: Product, assembled: bool, inForce: bool, components: seq<Component>)

  datatype KitRequest = KitRequest(key: Key, warehouse: Warehouse, product: Product, location: Location, assemble: bool, quantity: string)

  datatype KitDigest = KitDigest(product: Product, location: Location, assemble: bool, quantity: int)

  datatype KitOperation = KitOperation(key: Key, digest: KitDigest, units: int)

  datatype Change = Change(product: Product, change: int)

  /** What an operation of `units` kits does to the component: the quotient of non-negative integers,
      cut off at the thousandth. */
  function ComponentChange(component: Component, units: nat, assemble: bool): Change {
    Change(component.product, Signed(units * component.quantity / QUANTITY_SCALE, !assemble))
  }

  function Signed(amount: int, positive: bool): int {
    if positive then amount else -amount
  }

  /** The changes in product order: the components and, at its own place among them, the kit. */
  function KitChanges(kit: Kit, units: nat, assemble: bool, n: nat): seq<Change>
    requires n <= |kit.components|
    decreases |kit.components| - n
  {
    var own := Change(kit.product, Signed(units, assemble));
    if n == |kit.components| then [own]
    else if kit.product < kit.components[n].product then [own] + ComponentChanges(kit, units, assemble, n)
    else [ComponentChange(kit.components[n], units, assemble)] + KitChanges(kit, units, assemble, n + 1)
  }

  function ComponentChanges(kit: Kit, units: nat, assemble: bool, n: nat): seq<Change>
    requires n <= |kit.components|
    decreases |kit.components| - n
  {
    if n == |kit.components| then []
    else [ComponentChange(kit.components[n], units, assemble)] + ComponentChanges(kit, units, assemble, n + 1)
  }

  /** One product of a kit operation: kits record a valued movement and call no tracker. */
  function ApplyChange(stock: Stock, context: Context, location: Location, change: Change): (r: Result<Stock>)
    requires Booked(stock)
    ensures r.Ok? ==> Booked(r.value)
  {
    var row := RowAt(stock.rows, change.product, location);
    if change.change < 0 && row.available < -change.change then Err(InsufficientStock)
    else
      match Value(stock.ledgers, Plain(change.product, location, Adjustment, change.change, context.now, context.currency),
                  Unguided(context, change.product, SerialOptions(None, None)).cost)
      case Err(e) => Err(e)
      case Ok(ledgers) => Ok(Stock(Put(stock.rows, AvailableChanged(row, change.change)), ledgers))
  }

  function ApplyChanges(stock: Stock, context: Context, location: Location, changes: seq<Change>): (r: Result<Stock>)
    requires Booked(stock)
    ensures r.Ok? ==> Booked(r.value)
    decreases |changes|
  {
    if changes == [] then Ok(stock)
    else
      match ApplyChange(stock, context, location, changes[0])
      case Err(e) => Err(e)
      case Ok(next) => ApplyChanges(next, context, location, changes[1..])
  }

  function FindOperation(operations: seq<KitOperation>, key: Key, n: nat): (r: Option<nat>)
    requires n <= |operations|
    ensures r.Some? ==> r.value < n && operations[r.value].key == key
    ensures r.None? ==> forall k :: 0 <= k < n ==> operations[k].key != key
  {
    if n == 0 then None
    else
      var before := FindOperation(operations, key, n - 1);
      if before.None? && operations[n - 1].key == key then Some(n - 1) else before
  }

  datatype Operated = Operated(stock: Stock, operations: seq<KitOperation>)

  /** How many thousandths of a kit an operation builds or takes apart. */
  function KitUnits(kits: map<Product, Kit>, context: Context, request: KitRequest): (r: Result<nat>)
    ensures r.Ok? ==> r.value > 0 && request.product in kits
  {
    if !ProductActive(context, request.product) || request.product !in kits || !kits[request.product].inForce then Err(KitNotFound)
    else if !kits[request.product].assembled then Err(KitNotAssembled)
    else
      match NormalizedUnits(request.quantity, context.products[request.product].policy, false, true)
      case Err(e) => Err(e)
      case Ok(units) =>
        match QuantityToUnits(QuantityFromUnits(units))
        case Err(e) => Err(e)
        case Ok(parsed) => if parsed <= 0 then Err(KitNotAssembled) else Ok(parsed)
  }

  /** Assembling takes the components and adds the kits; disassembling does the opposite. */
  function OperateKit(stock: Stock, operations: seq<KitOperation>, kits: map<Product, Kit>, context: Context, request: KitRequest):
    (r: Result<Operated>)
    requires Booked(stock)
    ensures r.Ok? ==> Booked(r.value.stock)
  {
    match QuantityToUnits(request.quantity)
    case Err(e) => Err(e)
    case Ok(canonical) =>
      var digest := KitDigest(request.product, request.location, request.assemble, canonical);
      match FindOperation(operations, request.key, |operations|)
      case Some(k) => if operations[k].digest != digest then Err(IdempotencyConflict) else Ok(Operated(stock, operations))
      case None =>
        match KitUnits(kits, context, request)
        case Err(e) => Err(e)
        case Ok(units) =>
          if request.location !in context.locations || context.locations[request.location].warehouse != request.warehouse then Err(KitNotFound)
          else if kits[request.product].components == [] then Err(KitNotFound)
          else
            match ApplyChanges(stock, context, request.location, KitChanges(kits[request.product], units, request.assemble, 0))
            case Err(e) => Err(e)
            case Ok(after) => Ok(Operated(after, operations + [KitOperation(request.key, digest, units)]))
  }
}
