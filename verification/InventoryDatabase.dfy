/** The tenant's tables, and the transactions that write them: each runs its loops on its own view
    of the tables and commits it whole, or leaves every table as it was. */
module InventoryDatabase {
  import opened Outcomes
  import opened Movements
  import opened Balances
  import opened Ledgers
  import opened Stock
  import opened Site
  import opened Transfers
  import opened TransferSteps
  import opened TransferLifecycle
  import opened TransferReceiving
  import opened TransferTheorems
  import opened Writers
  import opened WriterAgreement
  import opened WriterLoops
  import opened Reconciliation
  import opened Runs
  import Serials
  import Quantity

  /** What a caller sees of a transfer call. */
  function ReplyOf(r: Result<Done>): Result<Reply> {
    match r case Err(e) => Err(e) case Ok(done) => Ok(done.reply)
  }

  /** The error of a rejected command. */
  function Rejection(r: Result<World>): Option<Error> {
    match r case Err(e) => Some(e) case Ok(_) => None
  }

  /** A receipt on the transaction's view of the tables. */
  method ReceiveTransaction(state: State, tracking: Tracking, context: Context, request: ReceiveRequest) returns (r: Result<Done>)
    requires StateSound(state, tracking) && Booked(state.stock)
    ensures r == Receive(state, tracking, context, request)
  {
    hide Agrees, Documented, RequestedItems, FirstError, ReceiveItems, RowsPresent, Complete, LinesNamed, ItemsFit, LinesSound, Locked, ItemMap;
    var requested := RequestedItems(state, context, request);
    if requested.Err? {
      return Err(requested.error);
    }
    var items, t := requested.value, request.transfer;
    var transfer := state.transfers[t];
    var digest := ReceiptDigest(t, ItemMap(items), request.reason);
    var existing := FindReceipt(state.receipts, request.key, |state.receipts|);
    if existing.Some? {
      if state.receipts[existing.value].transfer != t || state.receipts[existing.value].digest != digest {
        return Err(IdempotencyConflict);
      }
      if transfer.destination != request.destination {
        return Err(NotFound);
      }
      return Ok(Done(state, Reply(t, true)));
    }
    if transfer.destination != request.destination {
      return Err(InvalidTarget);
    }
    if transfer.status != Dispatched && transfer.status != PartiallyReceived {
      return Err(StatusConflict);
    }
    var invalid := FirstError(transfer, items, |items|);
    if invalid.Some? {
      return Err(invalid.value);
    }
    var locked := LockReceipt(state.stock.rows, transfer, items);
    if locked.None? {
      return Err(InvalidReceipt);
    }
    DocumentFacts(state, t);
    AcceptedItemsFit(state, context, request);
    SoundLines(transfer);
    var tx := ReceiveAll(state.stock, tracking, context, t, transfer.lines, items, locked.value);
    if tx.Err? {
      return Err(tx.error);
    }
    var status := if Complete(tx.value.lines) then Received else PartiallyReceived;
    var receipt := Receipt(t, request.key, digest, request.reason, ReceiptLines(items));
    return Ok(Done(State(tx.value.stock, state.transfers[t := transfer.(status := status, lines := tx.value.lines)], state.receipts + [receipt]),
                   Reply(t, false)));
  }

  /** A manual movement on the transaction's view of the tables. */
  method MovementTransaction(stock: Stock, tracking: Tracking, context: Context, request: MovementRequest) returns (r: Result<Stock>)
    requires Agrees(stock, tracking) && Booked(stock) && UserKind(request.kind)
    ensures r == RecordMovement(stock, tracking, context, request)
  {
    hide Agrees, RequestedChange, Post, RowAt, HasMoved, TargetUsable, Unguided;
    var change := RequestedChange(context, request);
    if change.Err? {
      return Err(change.error);
    }
    if !TargetUsable(context, request.product, request.location, request.warehouse) {
      return Err(NotFound);
    }
    if request.kind != Initial && !request.referenced {
      return Err(ReferenceRequired);
    }
    if request.kind == Initial && HasMoved(Log(stock), request.product, request.location) {
      return Err(InitialStockExists);
    }
    var row := RowAt(stock.rows, request.product, request.location);
    if row.quantity + change.value < 0 || row.available + change.value < 0 {
      return Err(InsufficientStock);
    }
    r := PostPlain(stock, tracking, AvailableChanged(row, change.value),
                   Plain(request.product, request.location, request.kind, change.value, context.now, context.currency),
                   MovementDetails(context, request));
  }

  lemma KitUntracked(kits: map<Product, Kit>, tracking: Tracking, p: Product, units: nat, assemble: bool)
    requires KitsSound(kits, tracking) && p in kits
    ensures Untracked(tracking, KitChanges(kits[p], units, assemble, 0))
  {
    assert ComponentsUntracked(kits[p], tracking);
    ChangesUntracked(kits[p], units, assemble, 0, tracking);
  }

  /** A kit operation on the transaction's view of the tables. */
  method KitTransaction(stock: Stock, operations: seq<KitOperation>, kits: map<Product, Kit>, tracking: Tracking, context: Context,
                        request: KitRequest) returns (r: Result<Operated>)
    requires Agrees(stock, tracking) && Booked(stock) && KitsSound(kits, tracking)
    ensures r == OperateKit(stock, operations, kits, context, request)
  {
    hide Agrees, ApplyChanges, KitUnits, KitChanges, Quantity.QuantityToUnits, Untracked, KitsSound;
    var canonical := Quantity.QuantityToUnits(request.quantity);
    if canonical.Err? {
      return Err(canonical.error);
    }
    var digest := KitDigest(request.product, request.location, request.assemble, canonical.value);
    var existing := FindOperation(operations, request.key, |operations|);
    if existing.Some? {
      return if operations[existing.value].digest != digest then Err(IdempotencyConflict) else Ok(Operated(stock, operations));
    }
    var units := KitUnits(kits, context, request);
    if units.Err? {
      return Err(units.error);
    }
    if request.location !in context.locations || context.locations[request.location].warehouse != request.warehouse {
      return Err(KitNotFound);
    }
    var kit := kits[request.product];
    if kit.components == [] {
      return Err(KitNotFound);
    }
    var changes := CollectChanges(kit, units.value, request.assemble);
    KitUntracked(kits, tracking, request.product, units.value, request.assemble);
    var tx := ApplyAll(stock, tracking, context, request.location, changes);
    if tx.Err? {
      return Err(tx.error);
    }
    return Ok(Operated(tx.value, operations + [KitOperation(request.key, digest, units.value)]));
  }

  /** Creates a draft on the transaction's view of the tables. */
  method CreateTransaction(state: State, context: Context, request: CreateRequest) returns (r: Result<Done>)
    ensures r == Create(state, context, request)
  {
    hide NormalizeLines, LinesDistinct, TargetsUsable, WarehousePair;
    if request.origin == request.destination {
      return Err(InvalidTarget);
    }
    if !LinesDistinct(request.lines) {
      return Err(DuplicateLine);
    }
    var normalized := NormalizeLines(context, request.lines, |request.lines|);
    if normalized.Err? {
      return Err(normalized.error);
    }
    var lines := normalized.value;
    var digest := CreateDigest(request.origin, request.destination, request.reference, request.reason, lines);
    if request.destination !in context.warehouses || request.destination !in context.access {
      return Err(InvalidTarget);
    }
    var replay := FindByKey(state.transfers, request.key, |state.transfers|);
    if replay.Some? {
      return if state.transfers[replay.value].digest != digest then Err(IdempotencyConflict) else Ok(Done(state, Reply(replay.value, true)));
    }
    if !WarehousePair(context, request.origin, request.destination) || !TargetsUsable(context, request.origin, request.destination, lines) {
      return Err(InvalidTarget);
    }
    var transfer := Transfer(request.origin, request.destination, Draft, request.key, digest, None, lines);
    return Ok(Done(state.(transfers := state.transfers + [transfer]), Reply(|state.transfers|, false)));
  }

  /** A dispatch on the transaction's view of the tables. */
  method DispatchTransaction(state: State, tracking: Tracking, context: Context, t: nat, origin: Warehouse, key: Site.Key) returns (r: Result<Done>)
    requires StateSound(state, tracking) && Booked(state.stock)
    ensures r == Dispatch(state, tracking, context, t, origin, key)
  {
    hide Agrees, Documented, EnsureRows, DispatchLines, DispatchKeyFree, LinesNamed, LinesGo, LinesUsable, WarehousePair, TransferSound;
    if t >= |state.transfers| || state.transfers[t].origin != origin {
      return Err(NotFound);
    }
    var transfer := state.transfers[t];
    if transfer.status == Dispatched {
      return if transfer.dispatchKey != Some(key) then Err(StatusConflict) else Ok(Done(state, Reply(t, true)));
    }
    if transfer.status != Draft {
      return Err(StatusConflict);
    }
    if !WarehousePair(context, transfer.origin, transfer.destination) {
      return Err(InvalidTarget);
    }
    if transfer.lines == [] {
      return Err(NotFound);
    }
    if !LinesUsable(context, transfer) {
      return Err(InvalidTarget);
    }
    DocumentFacts(state, t);
    UsableLinesGo(context, transfer);
    var tx := DispatchAll(state.stock, tracking, context, t, transfer.lines);
    if tx.Err? {
      return Err(tx.error);
    }
    if !DispatchKeyFree(state.transfers, key) {
      return Err(IdempotencyConflict);
    }
    return Ok(Done(State(tx.value, state.transfers[t := transfer.(status := Dispatched, dispatchKey := Some(key))], state.receipts),
                   Reply(t, false)));
  }

  /** A state change on the transaction's view of the tables. */
  method TransitionTransaction(stock: Stock, tracking: Tracking, context: Context, request: TransitionRequest) returns (r: Result<Stock>)
    requires Agrees(stock, tracking) && Booked(stock) && Serials.InStock(request.to)
    ensures r == ChangeState(stock, tracking, context, request)
  {
    hide Agrees, TransitionUnits, Post, RowAt, TargetUsable, Unguided;
    var units := TransitionUnits(context, request);
    if units.Err? {
      return Err(units.error);
    }
    if !TargetUsable(context, request.product, request.location, request.warehouse) {
      return Err(NotFound);
    }
    var row := RowAt(stock.rows, request.product, request.location);
    if StateOf(row, request.from) < units.value {
      return Err(InsufficientStock);
    }
    r := PostPlain(stock, tracking, StatesChanged(row, request.from, request.to, units.value),
                   TransitionMovement(context, request, units.value),
                   Unguided(context, request.product, Serials.SerialOptions(request.serials, None)));
  }

  /** A confirmation on the transaction's view of the tables. */
  method ImportTransaction(stock: Stock, files: seq<ImportFile>, tracking: Tracking, context: Context, f: nat, warehouse: Warehouse, key: Site.Key)
    returns (r: Result<Imported>)
    requires Agrees(stock, tracking) && Booked(stock) && FilesSound(files)
    ensures r == ConfirmImport(stock, files, tracking, context, f, warehouse, key)
  {
    hide Agrees, ConfirmRows, ConfirmationKeyFree;
    if f >= |files| || files[f].warehouse != warehouse {
      return Err(NotFound);
    }
    if files[f].confirmed {
      return Ok(Imported(stock, files));
    }
    if files[f].errorRows > 0 {
      return Err(ImportHasErrors);
    }
    if !ConfirmationKeyFree(files, f, key) {
      return Err(IdempotencyConflict);
    }
    var tx := ConfirmAll(stock, tracking, context, warehouse, files[f].rows);
    if tx.Err? {
      return Err(tx.error);
    }
    return Ok(Imported(tx.value.stock, files[f := files[f].(confirmed := true, key := Some(key), movementCount := tx.value.count)]));
  }

  /** A closing count on the transaction's view of the tables. */
  method CountTransaction(stock: Stock, sessions: seq<CountSession>, tracking: Tracking, context: Context, s: nat, warehouse: Warehouse)
    returns (r: Result<Counted>)
    requires Agrees(stock, tracking) && Booked(stock) && SessionsSound(sessions)
    ensures r == CloseCount(stock, sessions, tracking, context, s, warehouse)
  {
    hide Agrees, CloseLines, SnapshotsHold, CountReady, LinesOnce;
    if s >= |sessions| || sessions[s].warehouse != warehouse {
      return Err(NotFound);
    }
    if sessions[s].closed {
      return Ok(Counted(stock, sessions));
    }
    if !CountReady(sessions[s].lines) {
      return Err(CountIncomplete);
    }
    if !SnapshotsHold(stock.rows, sessions[s].location, sessions[s].lines) {
      return Err(CountStockChanged);
    }
    AllCounted(sessions[s].lines);
    var tx := CloseAll(stock, tracking, context, sessions[s].location, sessions[s].lines);
    if tx.Err? {
      return Err(tx.error);
    }
    return Ok(Counted(tx.value, sessions[s := Closed(stock.rows, sessions[s])]));
  }

  /** What a sound world gives a transaction to start from. */
  lemma WorldFacts(world: World, tracking: Tracking)
    requires WorldSound(world, tracking)
    ensures StateSound(world.state, tracking) && Agrees(world.state.stock, tracking)
    ensures FilesSound(world.files) && SessionsSound(world.sessions)
  {
    hide Agrees, Documented;
  }

  lemma CommandKeepsWorld(world: World, tracking: Tracking, kits: map<Product, Kit>, command: Command)
    requires WorldSound(world, tracking) && Booked(world.state.stock) && KitsSound(kits, tracking) && Admitted(tracking, command)
    ensures WorldSound(After(world, tracking, kits, command), tracking)
  {
    hide WorldSound, After, InTransitMatches, NoTransit, Admitted, KitsSound;
    CommandKeeps(world, tracking, kits, command);
  }

  class InventoryDatabase {
    const tracking: Tracking
    const kits: map<Product, Kit>
    var rows: seq<Row>
    var ledgers: Ledgers
    var transfers: seq<Transfer>
    var receipts: seq<Receipt>
    var used: map<Site.Key, Digest>
    var files: seq<ImportFile>
    var sessions: seq<CountSession>
    var operations: seq<KitOperation>

    /** All tables, as one value. */
    function Contents(): World
      reads this
    {
      World(State(Stock(rows, ledgers), transfers, receipts), used, files, sessions, operations)
    }

    /** Every projection agrees with every other, and the documents are sound. */
    ghost predicate Valid()
      reads this
    {
      WorldSound(Contents(), tracking) && KitsSound(kits, tracking) && Booked(Contents().state.stock)
    }

    constructor (tracking: Tracking, kits: map<Product, Kit>)
      requires KitsSound(kits, tracking)
      ensures Valid() && Contents() == EmptyWorld
      ensures this.tracking == tracking && this.kits == kits
    {
      this.tracking, this.kits := tracking, kits;
      rows, ledgers, transfers, receipts := [], EmptyLedgers, [], [];
      used, files, sessions, operations := map[], [], [], [];
      new;
      hide WorldSound, KitsSound, InTransitMatches;
      EmptyWorldSound(tracking);
    }

    // ----- Transfers -----

    method CreateTransfer(context: Context, request: CreateRequest) returns (r: Result<Reply>)
      requires Valid()
      modifies this
      ensures Valid()
      ensures r == ReplyOf(Create(old(Contents()).state, context, request))
      ensures Contents() == After(old(Contents()), tracking, kits, TransferCommand(CreateCall(context, request)))
    {
      hide WorldSound, KitsSound, StateSound, FilesSound, SessionsSound, Agrees, Create, Dispatch, Receive, Cancel, RecordMovement,
           ChangeState, ConfirmImport, CloseCount, OperateKit, RequestedChange, TransitionUnits, OpenedSession, EnsureAll, ProductsOnce;
      CommandKeepsWorld(Contents(), tracking, kits, TransferCommand(CreateCall(context, request)));
      WorldFacts(Contents(), tracking);
      var tx := CreateTransaction(Contents().state, context, request);
      if tx.Err? {
        return Err(tx.error);
      }
      rows, ledgers := tx.value.state.stock.rows, tx.value.state.stock.ledgers;
      transfers, receipts := tx.value.state.transfers, tx.value.state.receipts;
      return Ok(tx.value.reply);
    }

    method DispatchTransfer(context: Context, t: nat, origin: Warehouse, key: Site.Key) returns (r: Result<Reply>)
      requires Valid()
      modifies this
      ensures Valid()
      ensures r == ReplyOf(Dispatch(old(Contents()).state, tracking, context, t, origin, key))
      ensures Contents() == After(old(Contents()), tracking, kits, TransferCommand(DispatchCall(context, t, origin, key)))
    {
      hide WorldSound, KitsSound, StateSound, FilesSound, SessionsSound, Agrees, Create, Dispatch, Receive, Cancel, RecordMovement,
           ChangeState, ConfirmImport, CloseCount, OperateKit, RequestedChange, TransitionUnits, OpenedSession, EnsureAll, ProductsOnce;
      CommandKeepsWorld(Contents(), tracking, kits, TransferCommand(DispatchCall(context, t, origin, key)));
      WorldFacts(Contents(), tracking);
      var tx := DispatchTransaction(Contents().state, tracking, context, t, origin, key);
      if tx.Err? {
        return Err(tx.error);
      }
      rows, ledgers := tx.value.state.stock.rows, tx.value.state.stock.ledgers;
      transfers, receipts := tx.value.state.transfers, tx.value.state.receipts;
      return Ok(tx.value.reply);
    }

    method ReceiveTransfer(context: Context, request: ReceiveRequest) returns (r: Result<Reply>)
      requires Valid()
      modifies this
      ensures Valid()
      ensures r == ReplyOf(Receive(old(Contents()).state, tracking, context, request))
      ensures Contents() == After(old(Contents()), tracking, kits, TransferCommand(ReceiveCall(context, request)))
    {
      hide WorldSound, KitsSound, StateSound, FilesSound, SessionsSound, Agrees, Create, Dispatch, Receive, Cancel, RecordMovement,
           ChangeState, ConfirmImport, CloseCount, OperateKit, RequestedChange, TransitionUnits, OpenedSession, EnsureAll, ProductsOnce;
      CommandKeepsWorld(Contents(), tracking, kits, TransferCommand(ReceiveCall(context, request)));
      WorldFacts(Contents(), tracking);
      var tx := ReceiveTransaction(Contents().state, tracking, context, request);
      if tx.Err? {
        return Err(tx.error);
      }
      rows, ledgers := tx.value.state.stock.rows, tx.value.state.stock.ledgers;
      transfers, receipts := tx.value.state.transfers, tx.value.state.receipts;
      return Ok(tx.value.reply);
    }

    method CancelTransfer(t: nat, origin: Warehouse) returns (r: Result<Reply>)
      requires Valid()
      modifies this
      ensures Valid()
      ensures r == ReplyOf(Cancel(old(Contents()).state, t, origin))
      ensures Contents() == After(old(Contents()), tracking, kits, TransferCommand(CancelCall(t, origin)))
    {
      hide WorldSound, KitsSound, StateSound, FilesSound, SessionsSound, Agrees, Create, Dispatch, Receive, Cancel, RecordMovement,
           ChangeState, ConfirmImport, CloseCount, OperateKit, RequestedChange, TransitionUnits, OpenedSession, EnsureAll, ProductsOnce;
      CommandKeepsWorld(Contents(), tracking, kits, TransferCommand(CancelCall(t, origin)));
      WorldFacts(Contents(), tracking);
      var tx := Cancel(Contents().state, t, origin);
      if tx.Err? {
        return Err(tx.error);
      }
      rows, ledgers := tx.value.state.stock.rows, tx.value.state.stock.ledgers;
      transfers, receipts := tx.value.state.transfers, tx.value.state.receipts;
      return Ok(tx.value.reply);
    }

    // ----- Other writers -----

    method CreateMovement(context: Context, request: MovementRequest) returns (rejected: Option<Error>)
      requires Valid() && Admitted(tracking, MovementCommand(context, request))
      modifies this
      ensures Valid()
      ensures rejected == Rejection(Perform(old(Contents()), tracking, kits, MovementCommand(context, request)))
      ensures Contents() == After(old(Contents()), tracking, kits, MovementCommand(context, request))
    {
      hide WorldSound, KitsSound, StateSound, FilesSound, SessionsSound, Agrees, Create, Dispatch, Receive, Cancel, RecordMovement,
           ChangeState, ConfirmImport, CloseCount, OperateKit, RequestedChange, TransitionUnits, OpenedSession, EnsureAll, ProductsOnce;
      CommandKeepsWorld(Contents(), tracking, kits, MovementCommand(context, request));
      WorldFacts(Contents(), tracking);
      var change := RequestedChange(context, request);
      if change.Err? {
        return Some(change.error);
      }
      var digest := ManualDigest(request.product, request.location, request.kind, change.value, request.referenced, request.serials);
      if request.key in used {
        return if used[request.key] != digest then Some(IdempotencyConflict) else None;
      }
      var tx := MovementTransaction(Stock(rows, ledgers), tracking, context, request);
      if tx.Err? {
        return Some(tx.error);
      }
      rows, ledgers, used := tx.value.rows, tx.value.ledgers, used[request.key := digest];
      return None;
    }

    method CreateStateTransition(context: Context, request: TransitionRequest) returns (rejected: Option<Error>)
      requires Valid() && Admitted(tracking, TransitionCommand(context, request))
      modifies this
      ensures Valid()
      ensures rejected == Rejection(Perform(old(Contents()), tracking, kits, TransitionCommand(context, request)))
      ensures Contents() == After(old(Contents()), tracking, kits, TransitionCommand(context, request))
    {
      hide WorldSound, KitsSound, StateSound, FilesSound, SessionsSound, Agrees, Create, Dispatch, Receive, Cancel, RecordMovement,
           ChangeState, ConfirmImport, CloseCount, OperateKit, RequestedChange, TransitionUnits, OpenedSession, EnsureAll, ProductsOnce;
      CommandKeepsWorld(Contents(), tracking, kits, TransitionCommand(context, request));
      WorldFacts(Contents(), tracking);
      var units := TransitionUnits(context, request);
      if units.Err? {
        return Some(units.error);
      }
      var digest := TransitionDigest(request.product, request.location, request.from, request.to, units.value, request.serials);
      if request.key in used {
        return if used[request.key] != digest then Some(IdempotencyConflict) else None;
      }
      var tx := TransitionTransaction(Stock(rows, ledgers), tracking, context, request);
      if tx.Err? {
        return Some(tx.error);
      }
      rows, ledgers, used := tx.value.rows, tx.value.ledgers, used[request.key := digest];
      return None;
    }

    method ConfirmImportFile(context: Context, f: nat, warehouse: Warehouse, key: Site.Key) returns (rejected: Option<Error>)
      requires Valid()
      modifies this
      ensures Valid()
      ensures rejected == Rejection(Perform(old(Contents()), tracking, kits, ImportCommand(context, f, warehouse, key)))
      ensures Contents() == After(old(Contents()), tracking, kits, ImportCommand(context, f, warehouse, key))
    {
      hide WorldSound, KitsSound, StateSound, FilesSound, SessionsSound, Agrees, Create, Dispatch, Receive, Cancel, RecordMovement,
           ChangeState, ConfirmImport, CloseCount, OperateKit, RequestedChange, TransitionUnits, OpenedSession, EnsureAll, ProductsOnce;
      CommandKeepsWorld(Contents(), tracking, kits, ImportCommand(context, f, warehouse, key));
      WorldFacts(Contents(), tracking);
      var tx := ImportTransaction(Stock(rows, ledgers), files, tracking, context, f, warehouse, key);
      if tx.Err? {
        return Some(tx.error);
      }
      rows, ledgers, files := tx.value.stock.rows, tx.value.stock.ledgers, tx.value.files;
      return None;
    }

    method CloseSession(context: Context, s: nat, warehouse: Warehouse) returns (rejected: Option<Error>)
      requires Valid()
      modifies this
      ensures Valid()
      ensures rejected == Rejection(Perform(old(Contents()), tracking, kits, CloseCountCommand(context, s, warehouse)))
      ensures Contents() == After(old(Contents()), tracking, kits, CloseCountCommand(context, s, warehouse))
    {
      hide WorldSound, KitsSound, StateSound, FilesSound, SessionsSound, Agrees, Create, Dispatch, Receive, Cancel, RecordMovement,
           ChangeState, ConfirmImport, CloseCount, OperateKit, RequestedChange, TransitionUnits, OpenedSession, EnsureAll, ProductsOnce;
      CommandKeepsWorld(Contents(), tracking, kits, CloseCountCommand(context, s, warehouse));
      WorldFacts(Contents(), tracking);
      var tx := CountTransaction(Stock(rows, ledgers), sessions, tracking, context, s, warehouse);
      if tx.Err? {
        return Some(tx.error);
      }
      rows, ledgers, sessions := tx.value.stock.rows, tx.value.stock.ledgers, tx.value.sessions;
      return None;
    }

    method Operate(context: Context, request: KitRequest) returns (rejected: Option<Error>)
      requires Valid()
      modifies this
      ensures Valid()
      ensures rejected == Rejection(Perform(old(Contents()), tracking, kits, KitCommand(context, request)))
      ensures Contents() == After(old(Contents()), tracking, kits, KitCommand(context, request))
    {
      hide WorldSound, KitsSound, StateSound, FilesSound, SessionsSound, Agrees, Create, Dispatch, Receive, Cancel, RecordMovement,
           ChangeState, ConfirmImport, CloseCount, OperateKit, RequestedChange, TransitionUnits, OpenedSession, EnsureAll, ProductsOnce;
      CommandKeepsWorld(Contents(), tracking, kits, KitCommand(context, request));
      WorldFacts(Contents(), tracking);
      var tx := KitTransaction(Stock(rows, ledgers), operations, kits, tracking, context, request);
      if tx.Err? {
        return Some(tx.error);
      }
      rows, ledgers, operations := tx.value.stock.rows, tx.value.stock.ledgers, tx.value.operations;
      return None;
    }

    // ----- The reconciliation -----

    /** In every reachable state the reconciliation reports nothing. */
    method Reconcile(products: seq<Product>) returns (findings: seq<Finding>)
      requires Valid()
      ensures findings == []
    {
      hide WorldSound, KitsSound, Clean, Agrees;
      WorldFacts(Contents(), tracking);
      AgreementIsClean(Contents().state.stock, tracking, set p | p in products);
      findings := Collect(Stock(rows, ledgers), tracking, products);
    }
  }

  lemma AllCounted(lines: seq<CountLine>)
    requires CountReady(lines)
    ensures forall i :: 0 <= i < |lines| ==> lines[i].counted.Some?
  {
  }
}
