/** Retries and progress: a used key changes nothing, whatever ran in between, and receipts end. */
module TransferRetries {
  import opened Outcomes
  import opened Sums
  import opened Movements
  import opened Balances
  import opened Ledgers
  import opened Stock
  import opened Site
  import opened Transfers
  import opened TransferSteps
  import opened TransferLifecycle
  import opened TransferReceiving
  import opened TransferTheorems

  // ----- What no call takes back -----

  /** Transfers keep their place, key, digest and lines' targets, and never become drafts again;
      receipts are only added. */
  ghost predicate Extends(before: State, after: State) {
    && |before.transfers| <= |after.transfers| && |before.receipts| <= |after.receipts|
    && after.receipts[..|before.receipts|] == before.receipts
    && forall t :: 0 <= t < |before.transfers| ==> TransferExtends(before.transfers[t], after.transfers[t])
  }

  predicate TransferExtends(a: Transfer, b: Transfer) {
    && b.key == a.key && b.digest == a.digest && b.origin == a.origin && b.destination == a.destination
    && (Started(a) ==> Started(b) && b.dispatchKey == a.dispatchKey)
    && (a.status == Cancelled || a.status == Received ==> b == a)
    && (a.status == PartiallyReceived ==> b.status == PartiallyReceived || b.status == Received)
  }

  lemma ExtendsItself(state: State)
    ensures Extends(state, state)
  {
  }

  lemma ExtendsTransitively(a: State, b: State, c: State)
    requires Extends(a, b) && Extends(b, c)
    ensures Extends(a, c)
  {
    assert c.receipts[..|a.receipts|] == c.receipts[..|b.receipts|][..|a.receipts|];
    forall t | 0 <= t < |a.transfers| ensures TransferExtends(a.transfers[t], c.transfers[t]) {
      assert TransferExtends(a.transfers[t], b.transfers[t]) && TransferExtends(b.transfers[t], c.transfers[t]);
    }
  }

  /** The status of a transfer moves only forward, call by call. */
  lemma CallExtends(state: State, tracking: Tracking, call: Call)
    requires StateSound(state, tracking) && Booked(state.stock)
    ensures Extends(state, Next(state, tracking, call))
  {
    hide Agrees, Documented, DispatchLines, ReceiveItems, RequestedItems, NormalizeLines, AllSettled, AllCarried, ItemsFit, LinesProgressed;
    match call
    case CreateCall(context, request) =>
    case DispatchCall(context, t, origin, key) =>
      DispatchKeeps(state, tracking, context, t, origin, key);
    case ReceiveCall(context, request) =>
      ReceiveKeeps(state, tracking, context, request);
      hide Receive;
    case CancelCall(t, origin) =>
  }

  // ----- Retries -----

  /** The call was accepted once: its key is taken, or its transfer is dispatched. */
  ghost predicate Taken(state: State, call: Call) {
    match call
    case CreateCall(_, request) => exists t :: 0 <= t < |state.transfers| && state.transfers[t].key == request.key
    case DispatchCall(_, t, _, _) => t < |state.transfers| && Started(state.transfers[t])
    case ReceiveCall(_, request) => exists k :: 0 <= k < |state.receipts| && state.receipts[k].key == request.key
    case CancelCall(_, _) => false
  }

  lemma TakenChangesNothing(state: State, tracking: Tracking, call: Call)
    requires Booked(state.stock) && Taken(state, call)
    ensures Next(state, tracking, call) == state
  {
    hide DispatchLines, ReceiveItems, RequestedItems, NormalizeLines;
  }

  lemma TakenPersists(before: State, after: State, call: Call)
    requires Extends(before, after) && Taken(before, call)
    ensures Taken(after, call)
  {
    match call
    case CreateCall(_, request) =>
      var t :| 0 <= t < |before.transfers| && before.transfers[t].key == request.key;
      assert TransferExtends(before.transfers[t], after.transfers[t]);
    case DispatchCall(_, t, _, _) =>
      assert TransferExtends(before.transfers[t], after.transfers[t]);
    case ReceiveCall(_, request) =>
      var k :| 0 <= k < |before.receipts| && before.receipts[k].key == request.key;
      assert after.receipts[k] == after.receipts[..|before.receipts|][k];
    case CancelCall(_, _) =>
  }

  lemma AcceptedIsTaken(state: State, tracking: Tracking, call: Call)
    requires StateSound(state, tracking) && Booked(state.stock)
    requires Answer(state, tracking, call).Ok? && !call.CancelCall?
    ensures Taken(Next(state, tracking, call), call)
  {
    hide Agrees, Documented, DispatchLines, ReceiveItems, RequestedItems, NormalizeLines, AllSettled, AllCarried, ItemsFit, LinesProgressed;
    var after := Next(state, tracking, call);
    match call
    case CreateCall(context, request) =>
      if after != state {
        assert after.transfers[|state.transfers|].key == request.key;
      }
    case DispatchCall(context, t, origin, key) =>
    case ReceiveCall(context, request) =>
      if after != state {
        assert after.receipts[|state.receipts|].key == request.key;
      }
  }

  /** The transfer a creation answers with has its key and its digest. */
  lemma CreatedTransfer(state: State, context: Context, request: CreateRequest)
    requires Create(state, context, request).Ok?
    ensures NormalizeLines(context, request.lines, |request.lines|).Ok?
    ensures var done := Create(state, context, request).value;
            && done.reply.transfer < |done.state.transfers| && done.state.transfers[done.reply.transfer].key == request.key
            && done.state.transfers[done.reply.transfer].digest
               == CreateDigest(request.origin, request.destination, request.reference, request.reason,
                               NormalizeLines(context, request.lines, |request.lines|).value)
  {
    hide NormalizeLines, WarehousePair, TargetsUsable, LinesDistinct;
  }

  lemma RepeatedCreation(state: State, later: State, context: Context, request: CreateRequest, t: nat)
    requires Create(state, context, request).Ok? && t < |later.transfers|
    requires FindByKey(later.transfers, request.key, |later.transfers|) == Some(t)
    requires NormalizeLines(context, request.lines, |request.lines|).Ok?
    requires later.transfers[t].digest
             == CreateDigest(request.origin, request.destination, request.reference, request.reason,
                             NormalizeLines(context, request.lines, |request.lines|).value)
    ensures Create(later, context, request) == Ok(Done(later, Reply(t, true)))
  {
    hide NormalizeLines, WarehousePair, TargetsUsable, LinesDistinct, FindByKey;
  }

  lemma CreationReplies(later: State, context: Context, other: CreateRequest, t: nat)
    requires FindByKey(later.transfers, other.key, |later.transfers|) == Some(t) && Create(later, context, other).Ok?
    ensures Create(later, context, other).value.reply == Reply(t, true)
  {
    hide NormalizeLines, WarehousePair, TargetsUsable, LinesDistinct, FindByKey;
  }

  lemma KeyFound(before: State, after: State, t: nat)
    requires Extends(before, after) && KeysDistinct(after) && t < |before.transfers|
    ensures t < |after.transfers| && after.transfers[t].digest == before.transfers[t].digest
    ensures FindByKey(after.transfers, before.transfers[t].key, |after.transfers|) == Some(t)
  {
    assert TransferExtends(before.transfers[t], after.transfers[t]);
    var found := FindByKey(after.transfers, before.transfers[t].key, |after.transfers|);
    assert found.Some?;
  }

  // ----- Progress -----

  /** A dispatched transfer with something on it is RECEIVED exactly when every line is complete. */
  lemma ReceivedMeansComplete(state: State, tracking: Tracking, t: nat)
    requires StateSound(state, tracking) && t < |state.transfers| && Started(state.transfers[t])
    requires exists i :: 0 <= i < |state.transfers[t].lines| && state.transfers[t].lines[i].quantity > 0
    ensures state.transfers[t].status == Received <==> Complete(state.transfers[t].lines)
  {
    hide Agrees;
    SoundAt(state, t);
    if state.transfers[t].status == Dispatched {
      var i :| 0 <= i < |state.transfers[t].lines| && state.transfers[t].lines[i].quantity > 0;
      assert state.transfers[t].lines[i].received == 0;
    }
  }

  lemma PendingIsNonNegative(state: State)
    requires TransfersSound(state.transfers)
    ensures TotalPending(state) >= 0
  {
    forall t | 0 <= t < |state.transfers| ensures PendingOn()(state.transfers[t]) >= 0 {
      PendingNonNegative(state.transfers[t], 0, 0);
    }
    TotalNonNegative(state.transfers, PendingOn());
  }

  function Receipts(requests: seq<(Context, ReceiveRequest)>): (r: seq<Call>)
    ensures |r| == |requests|
  {
    seq(|requests|, i requires 0 <= i < |requests| => ReceiveCall(requests[i].0, requests[i].1))
  }

  lemma ReceiveStep(state: State, tracking: Tracking, context: Context, request: ReceiveRequest)
    requires StateSound(state, tracking) && Booked(state.stock)
    ensures var after := Next(state, tracking, ReceiveCall(context, request));
            && StateSound(after, tracking)
            && |state.receipts| <= |after.receipts|
            && |after.receipts| - |state.receipts| <= TotalPending(state) - TotalPending(after)
  {
    hide Agrees, Documented, AllSettled, ItemsFit, LinesProgressed, RequestedItems, TotalPending;
    ReceiveKeeps(state, tracking, context, request);
    var after := Next(state, tracking, ReceiveCall(context, request));
    var r := Receive(state, tracking, context, request);
    hide Receive;
    if r.Ok? && !r.value.reply.replay {
      assert TransfersSound(state.transfers) && TransfersSound(after.transfers) by { DocumentsSound(state); DocumentsSound(after); }
      ReceiveSums(state, after, request.transfer, RequestedItems(state, context, request).value);
    }
  }

  lemma DocumentsSound(state: State)
    requires Documented(state)
    ensures TransfersSound(state.transfers)
  {
  }

  /** Receiving ends: in any run of receive calls at most as many are newly accepted as there was
      quantity pending. */
  lemma {:induction false} ReceivingEnds(state: State, tracking: Tracking, requests: seq<(Context, ReceiveRequest)>)
    requires StateSound(state, tracking) && Booked(state.stock)
    ensures var after := RunCalls(state, tracking, Receipts(requests));
            && StateSound(after, tracking)
            && |after.receipts| - |state.receipts| <= TotalPending(state) - TotalPending(after) <= TotalPending(state)
    decreases |requests|
  {
    hide Agrees, Documented, TotalPending, Next;
    if requests == [] {
      assert TransfersSound(state.transfers) by { DocumentsSound(state); }
      PendingIsNonNegative(state);
    } else {
      ReceiveStep(state, tracking, requests[0].0, requests[0].1);
      var next := Next(state, tracking, ReceiveCall(requests[0].0, requests[0].1));
      ReceivingEnds(next, tracking, requests[1..]);
      assert Receipts(requests)[1..] == Receipts(requests[1..]);
      var after := RunCalls(state, tracking, Receipts(requests));
      assert TransfersSound(after.transfers) by { DocumentsSound(after); }
      PendingIsNonNegative(after);
    }
  }
}
