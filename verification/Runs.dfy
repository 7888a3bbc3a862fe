/** Every writer together: over any run of any of them, all projections agree and the reconciliation
    reports nothing. */
module Runs {
  import opened Outcomes
  import opened Sums
  import opened Rounding
  import Quantity
  import opened Movements
  import opened Serials
  import opened SerialInvariants
  import opened Balances
  import opened Ledgers
  import opened Stock
  import opened Site
  import opened Transfers
  import opened TransferSteps
  import opened TransferLifecycle
  import opened TransferReceiving
  import opened TransferTheorems
  import opened Writers
  import opened WriterAgreement
  import opened Reconciliation
  import LotSteps

  /** What request_fingerprint digests for manual movements and state changes. */
  datatype Digest =
    | ManualDigest(product: Product, location: Location, kind: Kind, change: int, referenced: bool, serials: Option<seq<string>>)
    | TransitionDigest(product: Product, location: Location, from: SerialStatus, to: SerialStatus, units: int, serials: Option<seq<string>>)

  /** `used` holds the idempotency keys of manual movements and state changes. */
  datatype World = World(
    state: State, used: map<Site.Key, Digest>, files: seq<ImportFile>, sessions: seq<CountSession>, operations: seq<KitOperation>)

  datatype Command =
    | TransferCommand(call: Call)
    | MovementCommand(context: Context, movement: MovementRequest)
    | TransitionCommand(context: Context, transition: TransitionRequest)
    | PreviewCommand(file: ImportFile)
    | ImportCommand(context: Context, number: nat, warehouse: Warehouse, key: Site.Key)
    | OpenCountCommand(warehouse: Warehouse, location: Location, products: seq<Product>)
    | CountCommand(session: nat, line: nat, counted: nat)
    | CloseCountCommand(context: Context, session: nat, warehouse: Warehouse)
    | KitCommand(context: Context, request: KitRequest)

  // ----- Single commands -----

  function RecordOnce(world: World, tracking: Tracking, context: Context, request: MovementRequest): (r: Result<World>)
    requires Booked(world.state.stock)
    ensures r.Ok? ==> Booked(r.value.state.stock)
  {
    match RequestedChange(context, request)
    case Err(e) => Err(e)
    case Ok(change) =>
      var digest := ManualDigest(request.product, request.location, request.kind, change, request.referenced, request.serials);
      if request.key in world.used then
        if world.used[request.key] != digest then Err(IdempotencyConflict) else Ok(world)
      else
        match RecordMovement(world.state.stock, tracking, context, request)
        case Err(e) => Err(e)
        case Ok(stock) => Ok(world.(state := world.state.(stock := stock), used := world.used[request.key := digest]))
  }

  function ChangeStateOnce(world: World, tracking: Tracking, context: Context, request: TransitionRequest): (r: Result<World>)
    requires Booked(world.state.stock)
    ensures r.Ok? ==> Booked(r.value.state.stock)
  {
    match TransitionUnits(context, request)
    case Err(e) => Err(e)
    case Ok(units) =>
      var digest := TransitionDigest(request.product, request.location, request.from, request.to, units, request.serials);
      if request.key in world.used then
        if world.used[request.key] != digest then Err(IdempotencyConflict) else Ok(world)
      else
        match ChangeState(world.state.stock, tracking, context, request)
        case Err(e) => Err(e)
        case Ok(stock) => Ok(world.(state := world.state.(stock := stock), used := world.used[request.key := digest]))
  }

  /** A count session starts from what is available at its location; its rows exist from then on. */
  function EnsureAll(rows: seq<Row>, location: Location, products: seq<Product>): seq<Row>
    decreases |products|
  {
    if products == [] then rows else EnsureAll(Ensure(rows, products[0], location), location, products[1..])
  }

  function OpenedSession(rows: seq<Row>, warehouse: Warehouse, location: Location, products: seq<Product>): CountSession {
    CountSession(warehouse, location, false,
      seq(|products|, i requires 0 <= i < |products| => CountLine(products[i], RowAt(rows, products[i], location).available, None, None)))
  }

  predicate ProductsOnce(products: seq<Product>) {
    forall j, k :: 0 <= j < k < |products| ==> products[j] != products[k]
  }

  function Perform(world: World, tracking: Tracking, kits: map<Product, Kit>, command: Command): (r: Result<World>)
    requires Booked(world.state.stock)
    ensures r.Ok? ==> Booked(r.value.state.stock)
  {
    var stock := world.state.stock;
    match command
    case TransferCommand(call) =>
      (match Answer(world.state, tracking, call) case Err(e) => Err(e) case Ok(done) => Ok(world.(state := Next(world.state, tracking, call))))
    case MovementCommand(context, request) => RecordOnce(world, tracking, context, request)
    case TransitionCommand(context, request) => ChangeStateOnce(world, tracking, context, request)
    case PreviewCommand(file) => Ok(world.(files := world.files + [file.(confirmed := false, key := None, movementCount := 0)]))
    case ImportCommand(context, f, warehouse, key) =>
      (match ConfirmImport(stock, world.files, tracking, context, f, warehouse, key)
       case Err(e) => Err(e)
       case Ok(done) => Ok(world.(state := world.state.(stock := done.stock), files := done.files)))
    case OpenCountCommand(warehouse, location, products) =>
      if !ProductsOnce(products) then Err(InvalidTarget)
      else
        var rows := EnsureAll(stock.rows, location, products);
        Ok(world.(state := world.state.(stock := stock.(rows := rows)),
                  sessions := world.sessions + [OpenedSession(rows, warehouse, location, products)]))
    case CountCommand(s, i, counted) =>
      if s >= |world.sessions| || i >= |world.sessions[s].lines| then Err(NotFound)
      else if world.sessions[s].closed then Err(StatusConflict)
      else
        var session := world.sessions[s];
        Ok(world.(sessions := world.sessions[s := session.(lines := session.lines[i := session.lines[i].(counted := Some(counted))])]))
    case CloseCountCommand(context, s, warehouse) =>
      (match CloseCount(stock, world.sessions, tracking, context, s, warehouse)
       case Err(e) => Err(e)
       case Ok(done) => Ok(world.(state := world.state.(stock := done.stock), sessions := done.sessions)))
    case KitCommand(context, request) =>
      (match OperateKit(stock, world.operations, kits, context, request)
       case Err(e) => Err(e)
       case Ok(done) => Ok(world.(state := world.state.(stock := done.stock), operations := done.operations)))
  }

  // ----- An opened count -----

  lemma {:induction false} EnsuringReadsAlike(rows: seq<Row>, location: Location, products: seq<Product>, p: Product, l: Location)
    ensures RowAt(EnsureAll(rows, location, products), p, l) == RowAt(rows, p, l)
    decreases |products|
  {
    hide RowAt, Put;
    if products != [] {
      PutIsRead(rows, RowAt(rows, products[0], location), p, l);
      EnsuringReadsAlike(Ensure(rows, products[0], location), location, products[1..], p, l);
    }
  }

  /** A count opened over different products notes what is available of each, changes no balance, and stands
      until something moves. */
  lemma OpenedCountStands(world: World, tracking: Tracking, kits: map<Product, Kit>, warehouse: Warehouse, location: Location, products: seq<Product>)
    requires Booked(world.state.stock)
    ensures var r := Perform(world, tracking, kits, OpenCountCommand(warehouse, location, products));
            && (r.Ok? <==> forall j, k :: 0 <= j < k < |products| ==> products[j] != products[k])
            && (r.Ok? ==>
                  && |r.value.sessions| == |world.sessions| + 1 && r.value.sessions[..|world.sessions|] == world.sessions
                  && (forall p, l :: RowAt(r.value.state.stock.rows, p, l) == RowAt(world.state.stock.rows, p, l))
                  && var session := r.value.sessions[|world.sessions|];
                     && session.warehouse == warehouse && session.location == location && !session.closed && |session.lines| == |products|
                     && (forall i :: 0 <= i < |products| ==>
                           session.lines[i] == CountLine(products[i], RowAt(world.state.stock.rows, products[i], location).available, None, None))
                     && SnapshotsHold(r.value.state.stock.rows, location, session.lines))
  {
    hide RowAt, EnsureAll;
    forall p, l ensures RowAt(EnsureAll(world.state.stock.rows, location, products), p, l) == RowAt(world.state.stock.rows, p, l) {
      EnsuringReadsAlike(world.state.stock.rows, location, products, p, l);
    }
  }

  // ----- The invariant -----

  ghost predicate FilesSound(files: seq<ImportFile>) {
    forall f :: 0 <= f < |files| ==> forall k :: 0 <= k < |files[f].rows| ==> NamesStockState(files[f].rows[k])
  }

  ghost predicate SessionsSound(sessions: seq<CountSession>) {
    forall s :: 0 <= s < |sessions| ==> LinesOnce(sessions[s].lines)
  }

  ghost predicate WorldSound(world: World, tracking: Tracking) {
    StateSound(world.state, tracking) && FilesSound(world.files) && SessionsSound(world.sessions)
  }

  /** Requests as the interface admits them: user kinds of movement, states of stock; and no manual
      damage of serialised units, which the balance does not follow. */
  ghost predicate Admitted(tracking: Tracking, command: Command) {
    match command
    case MovementCommand(_, request) => UserKind(request.kind) && BalanceFollows(tracking, request.kind, request.product)
    case TransitionCommand(_, request) => InStock(request.from) && InStock(request.to)
    case PreviewCommand(file) => forall k :: 0 <= k < |file.rows| ==> NamesStockState(file.rows[k])
    case _ => true
  }

  /** The command leaves in-transit stock to the transfers. */
  ghost predicate NoTransit(world: World, command: Command) {
    match command
    case TransitionCommand(_, request) => request.from != InTransit && request.to != InTransit
    case ImportCommand(_, f, _, _) => f < |world.files| ==> forall k :: 0 <= k < |world.files[f].rows| ==> LeavesTransit(world.files[f].rows[k])
    case _ => true
  }

  /** A write outside the protocol leaves the transfer documents as they were. */
  lemma WriteKeepsDocuments(state: State, stock: Stock, tracking: Tracking)
    requires StateSound(state, tracking) && Wrote(state.stock, stock, tracking)
    ensures StateSound(state.(stock := stock), tracking)
    ensures TransitKept(state.stock.rows, stock.rows) && InTransitMatches(state) ==> InTransitMatches(state.(stock := stock))
  {
    hide Agrees;
    var log, after := Log(state.stock), Log(stock);
    assert MovementsNamed(after, state.transfers) by {
      forall k | |log| <= k < |after| ensures after[k].transferLine.None? {
        assert after[k] == after[|log|..][k - |log|];
      }
      forall k | 0 <= k < |log| ensures after[k] == log[k] {
        assert after[k] == after[..|log|][k];
      }
    }
    assert ReceiptsAccount(state.(stock := stock)) by {
      forall t, i | 0 <= t < |state.transfers| && 0 <= i < |state.transfers[t].lines| ensures LineAccounted(state.(stock := stock), t, i) {
        assert LineAccounted(state, t, i);
      }
    }
    hide MovementsNamed, ReceiptsAccount, NoLines, RowAt;
    if TransitKept(state.stock.rows, stock.rows) && InTransitMatches(state) {
      forall p, l ensures RowAt(stock.rows, p, l).inTransit == Pending(state.(stock := stock), p, l) {
        assert RowAt(state.stock.rows, p, l).inTransit == Pending(state, p, l);
      }
    }
  }

  lemma {:induction false} EnsureAllWrites(stock: Stock, tracking: Tracking, location: Location, products: seq<Product>)
    requires Agrees(stock, tracking)
    ensures Wrote(stock, stock.(rows := EnsureAll(stock.rows, location, products)), tracking)
    ensures TransitKept(stock.rows, EnsureAll(stock.rows, location, products))
    decreases |products|
  {
    hide Agrees, Ensure, TransitKept, NoLines;
    if products == [] {
      WroteNothing(stock, tracking);
    } else {
      var next := stock.(rows := Ensure(stock.rows, products[0], location));
      EnsureWrites(stock, tracking, products[0], location);
      EnsureAllWrites(next, tracking, location, products[1..]);
      WroteTwice(stock, next, stock.(rows := EnsureAll(stock.rows, location, products)), tracking);
    }
  }

  /** What a command of another writer than the transfers leaves. */
  ghost predicate CommandWrote(world: World, tracking: Tracking, command: Command, after: World) {
    && Wrote(world.state.stock, after.state.stock, tracking)
    && after.state == world.state.(stock := after.state.stock)
    && (NoTransit(world, command) ==> TransitKept(world.state.stock.rows, after.state.stock.rows))
    && FilesSound(after.files) && SessionsSound(after.sessions)
  }

  lemma RecordOnceWrites(world: World, tracking: Tracking, context: Context, request: MovementRequest)
    requires WorldSound(world, tracking) && Booked(world.state.stock) && Admitted(tracking, MovementCommand(context, request))
    ensures var r := RecordOnce(world, tracking, context, request);
            r.Ok? ==> CommandWrote(world, tracking, MovementCommand(context, request), r.value)
  {
    RecordMovementWrites(world.state.stock, tracking, context, request);
    WroteNothing(world.state.stock, tracking);
    hide Agrees, Documented, Wrote, TransitKept, RecordMovement, RequestedChange;
  }

  lemma ChangeStateOnceWrites(world: World, tracking: Tracking, context: Context, request: TransitionRequest)
    requires WorldSound(world, tracking) && Booked(world.state.stock) && Admitted(tracking, TransitionCommand(context, request))
    ensures var r := ChangeStateOnce(world, tracking, context, request);
            r.Ok? ==> CommandWrote(world, tracking, TransitionCommand(context, request), r.value)
  {
    ChangeStateWrites(world.state.stock, tracking, context, request);
    WroteNothing(world.state.stock, tracking);
    hide Agrees, Documented, Wrote, TransitKept, ChangeState, TransitionUnits;
  }

  lemma ImportWrites(stock: Stock, files: seq<ImportFile>, tracking: Tracking, context: Context, f: nat, warehouse: Warehouse, key: Site.Key)
    requires Agrees(stock, tracking) && Booked(stock) && FilesSound(files)
    ensures var r := ConfirmImport(stock, files, tracking, context, f, warehouse, key);
            r.Ok? ==> && Wrote(stock, r.value.stock, tracking) && FilesSound(r.value.files)
                      && ((f < |files| ==> forall k :: 0 <= k < |files[f].rows| ==> LeavesTransit(files[f].rows[k])) ==>
                            TransitKept(stock.rows, r.value.stock.rows))
  {
    ConfirmImportWrites(stock, files, tracking, context, f, warehouse, key);
    WroteNothing(stock, tracking);
    hide Agrees, Wrote, TransitKept, ConfirmRows, ConfirmationKeyFree, LeavesTransit;
  }

  lemma CountWrites(stock: Stock, sessions: seq<CountSession>, tracking: Tracking, context: Context, s: nat, warehouse: Warehouse)
    requires Agrees(stock, tracking) && Booked(stock) && SessionsSound(sessions)
    ensures var r := CloseCount(stock, sessions, tracking, context, s, warehouse);
            r.Ok? ==> Wrote(stock, r.value.stock, tracking) && TransitKept(stock.rows, r.value.stock.rows) && SessionsSound(r.value.sessions)
  {
    CloseCountWrites(stock, sessions, tracking, context, s, warehouse);
    WroteNothing(stock, tracking);
    hide Agrees, Wrote, TransitKept, CloseLines, CountReady, SnapshotsHold;
  }

  lemma SoundParts(world: World, tracking: Tracking)
    requires WorldSound(world, tracking)
    ensures Agrees(world.state.stock, tracking) && FilesSound(world.files) && SessionsSound(world.sessions)
  {
  }

  lemma PreviewAdds(files: seq<ImportFile>, file: ImportFile)
    requires FilesSound(files) && forall k :: 0 <= k < |file.rows| ==> NamesStockState(file.rows[k])
    ensures FilesSound(files + [file.(confirmed := false, key := None, movementCount := 0)])
  {
    hide NamesStockState;
  }

  lemma SessionAdds(sessions: seq<CountSession>, rows: seq<Row>, warehouse: Warehouse, location: Location, products: seq<Product>)
    requires SessionsSound(sessions) && ProductsOnce(products)
    ensures SessionsSound(sessions + [OpenedSession(rows, warehouse, location, products)])
  {
    hide RowAt;
  }

  lemma SessionCounts(sessions: seq<CountSession>, s: nat, i: nat, counted: nat)
    requires SessionsSound(sessions) && s < |sessions| && i < |sessions[s].lines|
    ensures SessionsSound(sessions[s := sessions[s].(lines := sessions[s].lines[i := sessions[s].lines[i].(counted := Some(counted))])])
  {
  }

  lemma PreviewCase(world: World, tracking: Tracking, kits: map<Product, Kit>, command: Command)
    requires Agrees(world.state.stock, tracking) && FilesSound(world.files) && SessionsSound(world.sessions) && Booked(world.state.stock)
    requires command.PreviewCommand? && Admitted(tracking, command)
    ensures var r := Perform(world, tracking, kits, command);
            r.Ok? ==> CommandWrote(world, tracking, command, r.value)
  {
    hide Agrees, Wrote, TransitKept, FilesSound, SessionsSound, RecordOnce, ChangeStateOnce, ConfirmImport, CloseCount, OperateKit,
         EnsureAll, ProductsOnce, OpenedSession, NamesStockState, LeavesTransit;
    WroteNothing(world.state.stock, tracking);
    PreviewAdds(world.files, command.file);
  }

  lemma ImportCase(world: World, tracking: Tracking, kits: map<Product, Kit>, command: Command)
    requires Agrees(world.state.stock, tracking) && FilesSound(world.files) && SessionsSound(world.sessions) && Booked(world.state.stock)
    requires command.ImportCommand?
    ensures var r := Perform(world, tracking, kits, command);
            r.Ok? ==> CommandWrote(world, tracking, command, r.value)
  {
    hide Agrees, Wrote, TransitKept, FilesSound, SessionsSound, RecordOnce, ChangeStateOnce, ConfirmImport, CloseCount, OperateKit,
         EnsureAll, ProductsOnce, OpenedSession, NamesStockState, LeavesTransit;
    ImportWrites(world.state.stock, world.files, tracking, command.context, command.number, command.warehouse, command.key);
  }

  lemma OpenCountCase(world: World, tracking: Tracking, kits: map<Product, Kit>, command: Command)
    requires Agrees(world.state.stock, tracking) && FilesSound(world.files) && SessionsSound(world.sessions) && Booked(world.state.stock)
    requires command.OpenCountCommand?
    ensures var r := Perform(world, tracking, kits, command);
            r.Ok? ==> CommandWrote(world, tracking, command, r.value)
  {
    hide Agrees, Wrote, TransitKept, FilesSound, SessionsSound, RecordOnce, ChangeStateOnce, ConfirmImport, CloseCount, OperateKit,
         EnsureAll, ProductsOnce, OpenedSession, NamesStockState, LeavesTransit;
    EnsureAllWrites(world.state.stock, tracking, command.location, command.products);
    if ProductsOnce(command.products) {
      SessionAdds(world.sessions, EnsureAll(world.state.stock.rows, command.location, command.products), command.warehouse, command.location,
                  command.products);
    }
  }

  lemma CountCase(world: World, tracking: Tracking, kits: map<Product, Kit>, command: Command)
    requires Agrees(world.state.stock, tracking) && FilesSound(world.files) && SessionsSound(world.sessions) && Booked(world.state.stock)
    requires command.CountCommand?
    ensures var r := Perform(world, tracking, kits, command);
            r.Ok? ==> CommandWrote(world, tracking, command, r.value)
  {
    hide Agrees, Wrote, TransitKept, FilesSound, SessionsSound, RecordOnce, ChangeStateOnce, ConfirmImport, CloseCount, OperateKit,
         EnsureAll, ProductsOnce, OpenedSession, NamesStockState, LeavesTransit;
    WroteNothing(world.state.stock, tracking);
    if command.session < |world.sessions| && command.line < |world.sessions[command.session].lines| {
      SessionCounts(world.sessions, command.session, command.line, command.counted);
    }
  }

  lemma CloseCountCase(world: World, tracking: Tracking, kits: map<Product, Kit>, command: Command)
    requires Agrees(world.state.stock, tracking) && FilesSound(world.files) && SessionsSound(world.sessions) && Booked(world.state.stock)
    requires command.CloseCountCommand?
    ensures var r := Perform(world, tracking, kits, command);
            r.Ok? ==> CommandWrote(world, tracking, command, r.value)
  {
    hide Agrees, Wrote, TransitKept, FilesSound, SessionsSound, RecordOnce, ChangeStateOnce, ConfirmImport, CloseCount, OperateKit,
         EnsureAll, ProductsOnce, OpenedSession, NamesStockState, LeavesTransit;
    CountWrites(world.state.stock, world.sessions, tracking, command.context, command.session, command.warehouse);
  }

  lemma KitCase(world: World, tracking: Tracking, kits: map<Product, Kit>, command: Command)
    requires Agrees(world.state.stock, tracking) && FilesSound(world.files) && SessionsSound(world.sessions) && Booked(world.state.stock)
    requires command.KitCommand? && KitsSound(kits, tracking)
    ensures var r := Perform(world, tracking, kits, command);
            r.Ok? ==> CommandWrote(world, tracking, command, r.value)
  {
    hide Agrees, Wrote, TransitKept, FilesSound, SessionsSound, RecordOnce, ChangeStateOnce, ConfirmImport, CloseCount, OperateKit,
         EnsureAll, ProductsOnce, OpenedSession, NamesStockState, LeavesTransit;
    OperateKitWrites(world.state.stock, world.operations, kits, tracking, command.context, command.request);
  }

  /** What each command writes to the stock. */
  lemma CommandWrites(world: World, tracking: Tracking, kits: map<Product, Kit>, command: Command)
    requires WorldSound(world, tracking) && Booked(world.state.stock) && KitsSound(kits, tracking)
    requires Admitted(tracking, command) && !command.TransferCommand?
    ensures var r := Perform(world, tracking, kits, command);
            r.Ok? ==> CommandWrote(world, tracking, command, r.value)
  {
    hide *;
    SoundParts(world, tracking);
    match command
    case TransferCommand(_) =>
    case MovementCommand(context, request) => MovementCase(world, tracking, kits, context, request);
    case TransitionCommand(context, request) => TransitionCase(world, tracking, kits, context, request);
    case PreviewCommand(_) => PreviewCase(world, tracking, kits, command);
    case ImportCommand(_, _, _, _) => ImportCase(world, tracking, kits, command);
    case OpenCountCommand(_, _, _) => OpenCountCase(world, tracking, kits, command);
    case CountCommand(_, _, _) => CountCase(world, tracking, kits, command);
    case CloseCountCommand(_, _, _) => CloseCountCase(world, tracking, kits, command);
    case KitCommand(_, _) => KitCase(world, tracking, kits, command);
  }

  lemma MovementCase(world: World, tracking: Tracking, kits: map<Product, Kit>, context: Context, request: MovementRequest)
    requires WorldSound(world, tracking) && Booked(world.state.stock) && Admitted(tracking, MovementCommand(context, request))
    ensures var r := Perform(world, tracking, kits, MovementCommand(context, request));
            r.Ok? ==> CommandWrote(world, tracking, MovementCommand(context, request), r.value)
  {
    RecordOnceWrites(world, tracking, context, request);
    hide WorldSound, Admitted, CommandWrote, RecordOnce;
  }

  lemma TransitionCase(world: World, tracking: Tracking, kits: map<Product, Kit>, context: Context, request: TransitionRequest)
    requires WorldSound(world, tracking) && Booked(world.state.stock) && Admitted(tracking, TransitionCommand(context, request))
    ensures var r := Perform(world, tracking, kits, TransitionCommand(context, request));
            r.Ok? ==> CommandWrote(world, tracking, TransitionCommand(context, request), r.value)
  {
    ChangeStateOnceWrites(world, tracking, context, request);
    hide WorldSound, Admitted, CommandWrote, ChangeStateOnce;
  }

  /** A failing command is rolled back. */
  function After(world: World, tracking: Tracking, kits: map<Product, Kit>, command: Command): (after: World)
    requires Booked(world.state.stock)
    ensures Booked(after.state.stock)
  {
    match Perform(world, tracking, kits, command) case Err(_) => world case Ok(next) => next
  }

  /** Any command of any writer keeps the whole state sound. */
  lemma CommandKeeps(world: World, tracking: Tracking, kits: map<Product, Kit>, command: Command)
    requires WorldSound(world, tracking) && Booked(world.state.stock) && KitsSound(kits, tracking) && Admitted(tracking, command)
    ensures var after := After(world, tracking, kits, command);
            && WorldSound(after, tracking)
            && (InTransitMatches(world.state) && NoTransit(world, command) ==> InTransitMatches(after.state))
  {
    hide StateSound, InTransitMatches, Wrote, TransitKept, FilesSound, SessionsSound, Next;
    var r := Perform(world, tracking, kits, command);
    match command
    case TransferCommand(call) =>
      CallKeeps(world.state, tracking, call);
    case _ =>
      CommandWrites(world, tracking, kits, command);
      hide Perform;
      if r.Ok? {
        WriteKeepsDocuments(world.state, r.value.state.stock, tracking);
      }
  }

  function RunAll(world: World, tracking: Tracking, kits: map<Product, Kit>, commands: seq<Command>): (after: World)
    requires Booked(world.state.stock)
    ensures Booked(after.state.stock)
    decreases |commands|
  {
    if commands == [] then world else RunAll(After(world, tracking, kits, commands[0]), tracking, kits, commands[1..])
  }

  /** No command of the run moves stock into or out of transit by itself. */
  ghost predicate NeverTransit(world: World, tracking: Tracking, kits: map<Product, Kit>, commands: seq<Command>)
    requires Booked(world.state.stock)
    decreases |commands|
  {
    commands == [] ||
    (NoTransit(world, commands[0]) && NeverTransit(After(world, tracking, kits, commands[0]), tracking, kits, commands[1..]))
  }

  /** The main theorem: over every run of every writer, whatever fails on the way, balances, movements,
      stock states, valuations, cost layers, lots and serials agree, the reconciliation would report
      nothing, and, when only transfers put stock in transit, in-transit stock is what they have
      pending. */
  lemma {:induction false} RunKeepsAgreement(world: World, tracking: Tracking, kits: map<Product, Kit>, commands: seq<Command>, products: set<Product>)
    requires WorldSound(world, tracking) && Booked(world.state.stock) && KitsSound(kits, tracking)
    requires forall k :: 0 <= k < |commands| ==> Admitted(tracking, commands[k])
    ensures var after := RunAll(world, tracking, kits, commands);
            && WorldSound(after, tracking) && Clean(after.state.stock, tracking, products)
            && (InTransitMatches(world.state) && NeverTransit(world, tracking, kits, commands) ==> InTransitMatches(after.state))
    decreases |commands|
  {
    hide Agrees, Documented, InTransitMatches, After, Clean, Admitted, FilesSound, SessionsSound, NoTransit, KitsSound;
    if commands == [] {
      AgreementIsClean(world.state.stock, tracking, products);
    } else {
      CommandKeeps(world, tracking, kits, commands[0]);
      RunKeepsAgreement(After(world, tracking, kits, commands[0]), tracking, kits, commands[1..], products);
    }
  }

  const EmptyWorld := World(State(EmptyStock, [], []), map[], [], [], [])

  lemma EmptyDocuments()
    ensures Documented(EmptyWorld.state)
  {
  }

  lemma NothingInTransit()
    ensures InTransitMatches(EmptyWorld.state)
  {
  }

  /** A new tenant starts sound. */
  lemma EmptyWorldSound(tracking: Tracking)
    ensures WorldSound(EmptyWorld, tracking) && InTransitMatches(EmptyWorld.state)
  {
    hide Agrees, Documented, InTransitMatches;
    EmptyAgrees(tracking);
    EmptyDocuments();
    NothingInTransit();
  }

  // ----- Where agreement would be lost -----

  lemma DamageLosesAgreement(before: Stock, after: Stock, tracking: Tracking, p: Product, l: Location)
    requires Agrees(before, tracking) && p in tracking.serials
    requires RowAt(after.rows, p, l).damaged == RowAt(before.rows, p, l).damaged
    requires Units(after.ledgers.serials, p, l, Damaged) > Units(before.ledgers.serials, p, l, Damaged)
    ensures !Agrees(after, tracking)
  {
    hide Agrees, RowAt, Units;
    DamagedIs(before, tracking, p, l);
    if Agrees(after, tracking) {
      DamagedIs(after, tracking, p, l);
      assert false;
    }
  }

  lemma DamagedIs(stock: Stock, tracking: Tracking, p: Product, l: Location)
    requires Agrees(stock, tracking) && p in tracking.serials
    ensures RowAt(stock.rows, p, l).damaged == QUANTITY_SCALE * Units(stock.ledgers.serials, p, l, Damaged)
  {
    AgreementMeans(stock, tracking, p, l);
    hide Agrees, RowAt, Units;
    assert StateOf(RowAt(stock.rows, p, l), Damaged) == QUANTITY_SCALE * Units(stock.ledgers.serials, p, l, Damaged);
  }

  lemma BalanceLost(tracking: Tracking, kind: Kind, product: Product)
    requires UserKind(kind) && !BalanceFollows(tracking, kind, product)
    ensures kind == Damage && product in tracking.serials
  {
  }

  lemma WroteKeepsAgreement(before: Stock, after: Stock, tracking: Tracking)
    requires Wrote(before, after, tracking)
    ensures Agrees(after, tracking)
  {
  }

  /** A manual movement that succeeds keeps agreement exactly when it is not damage of a serialised
      product: damage moves the units to the damaged state but takes them off the balance. */
  lemma DamageBreaksAgreement(stock: Stock, tracking: Tracking, context: Context, request: MovementRequest)
    requires Agrees(stock, tracking) && Booked(stock) && UserKind(request.kind)
    requires RecordMovement(stock, tracking, context, request).Ok?
    ensures Agrees(RecordMovement(stock, tracking, context, request).value, tracking)
            <==> BalanceFollows(tracking, request.kind, request.product)
  {
    hide *;
    var after := RecordMovement(stock, tracking, context, request).value;
    if BalanceFollows(tracking, request.kind, request.product) {
      RecordMovementWrites(stock, tracking, context, request);
      WroteKeepsAgreement(stock, after, tracking);
    } else {
      BalanceLost(tracking, request.kind, request.product);
      DamageUnits(stock, tracking, context, request);
      DamageLosesAgreement(stock, after, tracking, request.product, request.location);
    }
  }

  lemma DamageUnits(stock: Stock, tracking: Tracking, context: Context, request: MovementRequest)
    requires Agrees(stock, tracking) && Booked(stock) && request.kind == Damage && request.product in tracking.serials
    requires RecordMovement(stock, tracking, context, request).Ok?
    ensures var after := RecordMovement(stock, tracking, context, request).value;
            && RowAt(after.rows, request.product, request.location).damaged == RowAt(stock.rows, request.product, request.location).damaged
            && Units(after.ledgers.serials, request.product, request.location, Damaged)
               > Units(stock.ledgers.serials, request.product, request.location, Damaged)
  {
    hide LedgersAgree, BalancesMatch, Record, RequestedChange, Units, Trackable, LotSteps.SameProductSources;
    var change := RequestedChange(context, request).value;
    ChangeSign(context, request);
    var row := RowAt(stock.rows, request.product, request.location);
    var m := Plain(request.product, request.location, Damage, change, context.now, context.currency);
    var details := MovementDetails(context, request);
    assert Trackable(stock.ledgers, tracking, m, details) by { PlainTrackable(stock.ledgers, tracking, m, details); }
    RecordKeepsAgreement(stock.ledgers, tracking, m, details);
    PutIsRead(stock.rows, AvailableChanged(row, change), request.product, request.location);
    var recorded := Record(stock.ledgers, tracking, m, details).value;
    assert Units(recorded.serials, request.product, request.location, Damaged)
           == Units(stock.ledgers.serials, request.product, request.location, Damaged)
              + MovedUnits(m) * Shift(m, details.serial.destination, request.product, request.location, Damaged);
    assert Shift(m, details.serial.destination, request.product, request.location, Damaged) == 1;
    assert MovedUnits(m) > 0 by { assert UnitCount(m).Ok?; }
  }
}
