/** Repeating a command that was accepted changes nothing, whatever any writer did in between. */
module WorldRetries {
  import opened Outcomes
  import opened Movements
  import Quantity
  import opened Balances
  import opened Ledgers
  import opened Stock
  import opened Site
  import opened Transfers
  import opened TransferLifecycle
  import opened TransferTheorems
  import opened TransferRetries
  import opened Writers
  import opened WriterAgreement
  import opened Runs

  // ----- What no command takes back -----

  /** Documents move forward only; used keys, confirmed imports, closed counts and kit operations stay. */
  ghost predicate WorldExtends(before: World, after: World) {
    && Extends(before.state, after.state)
    && before.used.Keys <= after.used.Keys
    && |before.operations| <= |after.operations| && after.operations[..|before.operations|] == before.operations
    && |before.files| <= |after.files| && (forall f :: 0 <= f < |before.files| && before.files[f].confirmed ==> after.files[f] == before.files[f])
    && |before.sessions| <= |after.sessions|
    && (forall s :: 0 <= s < |before.sessions| && before.sessions[s].closed ==> after.sessions[s] == before.sessions[s])
  }

  lemma WorldExtendsItself(world: World)
    ensures WorldExtends(world, world)
  {
    ExtendsItself(world.state);
  }

  lemma WorldExtendsTransitively(a: World, b: World, c: World)
    requires WorldExtends(a, b) && WorldExtends(b, c)
    ensures WorldExtends(a, c)
  {
    ExtendsTransitively(a.state, b.state, c.state);
    hide Extends;
    assert c.operations[..|a.operations|] == c.operations[..|b.operations|][..|a.operations|];
  }

  /** Files and sessions that were settled stay as they are; the rest may change. */
  ghost predicate SettledStay(before: World, after: World) {
    && |before.files| <= |after.files| && (forall f :: 0 <= f < |before.files| && before.files[f].confirmed ==> after.files[f] == before.files[f])
    && |before.sessions| <= |after.sessions|
    && (forall s :: 0 <= s < |before.sessions| && before.sessions[s].closed ==> after.sessions[s] == before.sessions[s])
  }

  lemma UsedGrows(world: World, tracking: Tracking, kits: map<Product, Kit>, command: Command)
    requires Booked(world.state.stock) && !command.TransferCommand?
    ensures var after := After(world, tracking, kits, command);
            && after.state.transfers == world.state.transfers && after.state.receipts == world.state.receipts
            && world.used.Keys <= after.used.Keys
  {
    hide RequestedChange, RecordMovement, TransitionUnits, ChangeState, ConfirmImport, CloseCount, OperateKit, EnsureAll, OpenedSession;
  }

  lemma OperationsGrow(stock: Stock, operations: seq<KitOperation>, kits: map<Product, Kit>, context: Context, request: KitRequest)
    requires Booked(stock)
    ensures var r := OperateKit(stock, operations, kits, context, request);
            r.Ok? ==> |operations| <= |r.value.operations| && r.value.operations[..|operations|] == operations
  {
    hide ApplyChanges, KitUnits, Quantity.QuantityToUnits;
  }

  lemma WorldOperationsGrow(world: World, tracking: Tracking, kits: map<Product, Kit>, command: Command)
    requires Booked(world.state.stock) && !command.TransferCommand?
    ensures var after := After(world, tracking, kits, command);
            |world.operations| <= |after.operations| && after.operations[..|world.operations|] == world.operations
  {
    hide RecordOnce, ChangeStateOnce, ConfirmImport, CloseCount, OperateKit, EnsureAll, OpenedSession;
    match command
    case KitCommand(context, request) =>
      OperationsGrow(world.state.stock, world.operations, kits, context, request);
    case MovementCommand(context, request) =>
      RecordOnceKeeps(world, tracking, context, request);
    case TransitionCommand(context, request) =>
      ChangeStateOnceKeeps(world, tracking, context, request);
    case _ =>
  }

  lemma RecordOnceKeeps(world: World, tracking: Tracking, context: Context, request: MovementRequest)
    requires Booked(world.state.stock)
    ensures var r := RecordOnce(world, tracking, context, request);
            r.Ok? ==> r.value.operations == world.operations && r.value.files == world.files && r.value.sessions == world.sessions
  {
    hide RequestedChange, RecordMovement;
  }

  lemma ChangeStateOnceKeeps(world: World, tracking: Tracking, context: Context, request: TransitionRequest)
    requires Booked(world.state.stock)
    ensures var r := ChangeStateOnce(world, tracking, context, request);
            r.Ok? ==> r.value.operations == world.operations && r.value.files == world.files && r.value.sessions == world.sessions
  {
    hide TransitionUnits, ChangeState;
  }

  lemma WorldSettles(world: World, tracking: Tracking, kits: map<Product, Kit>, command: Command)
    requires Booked(world.state.stock) && !command.TransferCommand?
    ensures SettledStay(world, After(world, tracking, kits, command))
  {
    hide RecordOnce, ChangeStateOnce, ConfirmRows, ConfirmationKeyFree, CloseLines, CountReady, SnapshotsHold, OperateKit, EnsureAll, Closed,
         OpenedSession;
    match command
    case MovementCommand(context, request) =>
      RecordOnceKeeps(world, tracking, context, request);
    case TransitionCommand(context, request) =>
      ChangeStateOnceKeeps(world, tracking, context, request);
    case _ =>
  }

  /** A command of another writer does not touch the transfer documents. */
  lemma OtherCommandExtends(world: World, tracking: Tracking, kits: map<Product, Kit>, command: Command)
    requires Booked(world.state.stock) && !command.TransferCommand?
    ensures WorldExtends(world, After(world, tracking, kits, command))
  {
    hide *;
    var after := After(world, tracking, kits, command);
    UsedGrows(world, tracking, kits, command);
    WorldOperationsGrow(world, tracking, kits, command);
    WorldSettles(world, tracking, kits, command);
    SameDocuments(world.state, after.state);
    ExtendsByParts(world, after);
  }

  lemma ExtendsByParts(before: World, after: World)
    requires Extends(before.state, after.state) && before.used.Keys <= after.used.Keys && SettledStay(before, after)
    requires |before.operations| <= |after.operations| && after.operations[..|before.operations|] == before.operations
    ensures WorldExtends(before, after)
  {
    hide Extends;
  }

  lemma SameDocuments(before: State, after: State)
    requires after.transfers == before.transfers && after.receipts == before.receipts
    ensures Extends(before, after)
  {
  }

  lemma CommandExtends(world: World, tracking: Tracking, kits: map<Product, Kit>, command: Command)
    requires WorldSound(world, tracking) && Booked(world.state.stock)
    ensures WorldExtends(world, After(world, tracking, kits, command))
  {
    hide *;
    match command
    case TransferCommand(call) => CallExtendsWorld(world, tracking, kits, call);
    case _ => OtherCommandExtends(world, tracking, kits, command);
  }

  lemma CallExtendsWorld(world: World, tracking: Tracking, kits: map<Product, Kit>, call: Call)
    requires WorldSound(world, tracking) && Booked(world.state.stock)
    ensures WorldExtends(world, After(world, tracking, kits, TransferCommand(call)))
  {
    assert StateSound(world.state, tracking);
    hide WorldSound, StateSound, Extends, Next, Answer;
    CallExtends(world.state, tracking, call);
    WorldExtendsItself(world);
  }

  lemma {:induction false} RunExtendsWorld(world: World, tracking: Tracking, kits: map<Product, Kit>, commands: seq<Command>)
    requires WorldSound(world, tracking) && Booked(world.state.stock) && KitsSound(kits, tracking)
    requires forall k :: 0 <= k < |commands| ==> Admitted(tracking, commands[k])
    ensures WorldSound(RunAll(world, tracking, kits, commands), tracking)
    ensures WorldExtends(world, RunAll(world, tracking, kits, commands))
    decreases |commands|
  {
    hide WorldSound, WorldExtends, After, Admitted, KitsSound, NoTransit, InTransitMatches;
    WorldExtendsItself(world);
    if commands != [] {
      CommandKeeps(world, tracking, kits, commands[0]);
      CommandExtends(world, tracking, kits, commands[0]);
      RunExtendsWorld(After(world, tracking, kits, commands[0]), tracking, kits, commands[1..]);
      WorldExtendsTransitively(world, After(world, tracking, kits, commands[0]), RunAll(world, tracking, kits, commands));
    }
  }

  // ----- Retries -----

  /** The command was accepted once. */
  ghost predicate WasAccepted(world: World, command: Command) {
    match command
    case TransferCommand(call) => Taken(world.state, call)
    case MovementCommand(_, request) => request.key in world.used
    case TransitionCommand(_, request) => request.key in world.used
    case ImportCommand(_, f, _, _) => f < |world.files| && world.files[f].confirmed
    case CloseCountCommand(_, s, _) => s < |world.sessions| && world.sessions[s].closed
    case KitCommand(_, request) => exists k :: 0 <= k < |world.operations| && world.operations[k].key == request.key
    case _ => false
  }

  /** Commands that carry a key or a document of their own; a cancellation, a preview, an opened count and a
      counted line may be repeated with an effect. */
  predicate Repeatable(command: Command) {
    match command
    case TransferCommand(call) => !call.CancelCall?
    case PreviewCommand(_) => false
    case OpenCountCommand(_, _, _) => false
    case CountCommand(_, _, _) => false
    case _ => true
  }

  lemma DoneChangesNothing(world: World, tracking: Tracking, kits: map<Product, Kit>, command: Command)
    requires Booked(world.state.stock) && WasAccepted(world, command)
    ensures After(world, tracking, kits, command) == world
  {
    hide RequestedChange, RecordMovement, TransitionUnits, ChangeState, ConfirmRows, CloseLines, ApplyChanges, KitUnits, EnsureAll,
         Quantity.QuantityToUnits, Next, Answer, Taken;
    match command
    case TransferCommand(call) =>
      TakenChangesNothing(world.state, tracking, call);
    case _ =>
  }

  lemma DonePersists(before: World, after: World, command: Command)
    requires WorldExtends(before, after) && WasAccepted(before, command)
    ensures WasAccepted(after, command)
  {
    hide Extends, Taken;
    match command
    case TransferCommand(call) =>
      TakenPersists(before.state, after.state, call);
    case KitCommand(_, request) =>
      var k :| 0 <= k < |before.operations| && before.operations[k].key == request.key;
      assert after.operations[k] == after.operations[..|before.operations|][k];
    case _ =>
  }

  lemma AcceptedIsDone(world: World, tracking: Tracking, kits: map<Product, Kit>, command: Command)
    requires WorldSound(world, tracking) && Booked(world.state.stock) && Repeatable(command)
    requires Perform(world, tracking, kits, command).Ok?
    ensures WasAccepted(After(world, tracking, kits, command), command)
  {
    hide StateSound, RequestedChange, RecordMovement, TransitionUnits, ChangeState, ConfirmRows, ConfirmationKeyFree, CloseLines, CountReady,
         SnapshotsHold, ApplyChanges, KitUnits, EnsureAll, Quantity.QuantityToUnits, Next, Answer, Taken;
    match command
    case TransferCommand(call) =>
      AcceptedIsTaken(world.state, tracking, call);
    case KitCommand(context, request) =>
      KitIsDone(world.state.stock, world.operations, kits, context, request);
    case _ =>
  }

  lemma KitIsDone(stock: Stock, operations: seq<KitOperation>, kits: map<Product, Kit>, context: Context, request: KitRequest)
    requires Booked(stock) && OperateKit(stock, operations, kits, context, request).Ok?
    ensures var after := OperateKit(stock, operations, kits, context, request).value.operations;
            exists k :: 0 <= k < |after| && after[k].key == request.key
  {
    hide ApplyChanges, KitUnits, Quantity.QuantityToUnits;
    var after := OperateKit(stock, operations, kits, context, request).value.operations;
    var found := FindOperation(operations, request.key, |operations|);
    var k := if found.Some? then found.value else |operations|;
    assert after[k].key == request.key;
  }

  /** Once a create, dispatch or receive call, a manual movement, a state change, an import, the closing of
      a count or a kit operation has been accepted, repeating it changes nothing, whatever commands of any
      writer ran in between. */
  lemma RepeatChangesNothing(world: World, tracking: Tracking, kits: map<Product, Kit>, command: Command, between: seq<Command>)
    requires WorldSound(world, tracking) && Booked(world.state.stock) && KitsSound(kits, tracking)
    requires Repeatable(command) && Admitted(tracking, command) && Perform(world, tracking, kits, command).Ok?
    requires forall k :: 0 <= k < |between| ==> Admitted(tracking, between[k])
    ensures var later := RunAll(After(world, tracking, kits, command), tracking, kits, between);
            After(later, tracking, kits, command) == later
  {
    hide WorldSound, WorldExtends, WasAccepted, Admitted, KitsSound, Perform, After, NoTransit, InTransitMatches;
    AcceptedIsDone(world, tracking, kits, command);
    CommandKeeps(world, tracking, kits, command);
    var after := After(world, tracking, kits, command);
    RunExtendsWorld(after, tracking, kits, between);
    var later := RunAll(after, tracking, kits, between);
    DonePersists(after, later, command);
    DoneChangesNothing(later, tracking, kits, command);
  }

  lemma KeysOf(world: World, tracking: Tracking)
    requires WorldSound(world, tracking)
    ensures StateSound(world.state, tracking) && KeysDistinct(world.state)
  {
  }

  lemma CreatedSound(world: World, tracking: Tracking, context: Context, request: CreateRequest)
    requires WorldSound(world, tracking) && Booked(world.state.stock) && Create(world.state, context, request).Ok?
    ensures var after := world.(state := Create(world.state, context, request).value.state);
            WorldSound(after, tracking) && Booked(after.state.stock)
  {
    hide StateSound, Create, FilesSound, SessionsSound;
    CreateKeeps(world.state, tracking, context, request);
  }

  lemma StatesExtend(before: World, after: World)
    requires WorldExtends(before, after)
    ensures Extends(before.state, after.state)
  {
  }

  /** A creation repeated with the same content finds the transfer it made, whatever commands of any
      writer ran in between; with other content under the same key it is refused. */
  lemma CreationIsFound(world: World, tracking: Tracking, kits: map<Product, Kit>, context: Context, request: CreateRequest, between: seq<Command>)
    requires WorldSound(world, tracking) && Booked(world.state.stock) && KitsSound(kits, tracking)
    requires Create(world.state, context, request).Ok? && forall k :: 0 <= k < |between| ==> Admitted(tracking, between[k])
    ensures var done := Create(world.state, context, request).value;
            var later := RunAll(world.(state := done.state), tracking, kits, between).state;
            && Create(later, context, request) == Ok(Done(later, Reply(done.reply.transfer, true)))
            && forall other: CreateRequest :: other.key == request.key && Create(later, context, other).Ok? ==>
                 Create(later, context, other).value.reply == Reply(done.reply.transfer, true)
  {
    hide *;
    var done := Create(world.state, context, request).value;
    var created := world.(state := done.state);
    CreatedSound(world, tracking, context, request);
    CreatedTransfer(world.state, context, request);
    RunExtendsWorld(created, tracking, kits, between);
    var later := RunAll(created, tracking, kits, between);
    KeysOf(later, tracking);
    StatesExtend(created, later);
    KeyFound(done.state, later.state, done.reply.transfer);
    RepeatedCreation(world.state, later.state, context, request, done.reply.transfer);
    forall other: CreateRequest | other.key == request.key && Create(later.state, context, other).Ok?
      ensures Create(later.state, context, other).value.reply == Reply(done.reply.transfer, true)
    {
      CreationReplies(later.state, context, other, done.reply.transfer);
    }
  }
}
