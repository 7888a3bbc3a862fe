/** What a key that was used before answers: the first result for the same content, a refusal for any other. */
module KeyReuse {
  import opened Outcomes
  import opened Movements
  import opened Quantity
  import opened Serials
  import opened Balances
  import opened Ledgers
  import opened Stock
  import opened Site
  import opened Transfers
  import opened TransferLifecycle
  import opened TransferTheorems
  import opened Writers
  import opened Runs

  lemma MovementKeyReuse(world: World, tracking: Tracking, kits: map<Product, Kit>, context: Context, request: MovementRequest, change: int)
    requires Booked(world.state.stock) && request.key in world.used && RequestedChange(context, request) == Ok(change)
    ensures Perform(world, tracking, kits, MovementCommand(context, request))
            == if world.used[request.key]
                  == ManualDigest(request.product, request.location, request.kind, change, request.referenced, request.serials)
               then Ok(world) else Err(IdempotencyConflict)
  {
    hide RequestedChange, RecordMovement;
  }

  lemma TransitionKeyReuse(world: World, tracking: Tracking, kits: map<Product, Kit>, context: Context, request: TransitionRequest, units: int)
    requires Booked(world.state.stock) && request.key in world.used && TransitionUnits(context, request) == Ok(units)
    ensures Perform(world, tracking, kits, TransitionCommand(context, request))
            == if world.used[request.key]
                  == TransitionDigest(request.product, request.location, request.from, request.to, units, request.serials)
               then Ok(world) else Err(IdempotencyConflict)
  {
    hide TransitionUnits, ChangeState;
  }

  /** A new key is noted with the content it was used for. */
  lemma MovementKeyIsNoted(world: World, tracking: Tracking, kits: map<Product, Kit>, context: Context, request: MovementRequest, change: int)
    requires Booked(world.state.stock) && request.key !in world.used && RequestedChange(context, request) == Ok(change)
    ensures var r := Perform(world, tracking, kits, MovementCommand(context, request));
            && (r.Ok? <==> RecordMovement(world.state.stock, tracking, context, request).Ok?)
            && (r.Ok? ==>
                  && r.value.used == world.used[request.key := ManualDigest(request.product, request.location, request.kind, change,
                                                                            request.referenced, request.serials)]
                  && r.value.state == world.state.(stock := RecordMovement(world.state.stock, tracking, context, request).value))
  {
    hide RequestedChange, RecordMovement;
  }

  lemma TransitionKeyIsNoted(world: World, tracking: Tracking, kits: map<Product, Kit>, context: Context, request: TransitionRequest, units: int)
    requires Booked(world.state.stock) && request.key !in world.used && TransitionUnits(context, request) == Ok(units)
    ensures var r := Perform(world, tracking, kits, TransitionCommand(context, request));
            && (r.Ok? <==> ChangeState(world.state.stock, tracking, context, request).Ok?)
            && (r.Ok? ==>
                  && r.value.used == world.used[request.key := TransitionDigest(request.product, request.location, request.from, request.to, units,
                                                                                request.serials)]
                  && r.value.state == world.state.(stock := ChangeState(world.state.stock, tracking, context, request).value))
  {
    hide TransitionUnits, ChangeState;
  }

  lemma {:induction false} KeyIsFound(receipts: seq<Receipt>, k: nat, n: nat)
    requires k < n <= |receipts| && forall j :: 0 <= j < k ==> receipts[j].key != receipts[k].key
    ensures FindReceipt(receipts, receipts[k].key, n) == Some(k)
  {
    if n > k + 1 {
      KeyIsFound(receipts, k, n - 1);
    }
  }

  /** A receipt's key asked again: the same items of the same transfer at its destination answer as before. */
  lemma ReceiptKeyReuse(state: State, tracking: Tracking, context: Context, request: ReceiveRequest, k: nat)
    requires Booked(state.stock) && RequestedItems(state, context, request).Ok? && k < |state.receipts| && state.receipts[k].key == request.key
    requires forall j :: 0 <= j < k ==> state.receipts[j].key != request.key
    ensures var receipt, items := state.receipts[k], RequestedItems(state, context, request).value;
            Receive(state, tracking, context, request)
            == if receipt.transfer != request.transfer || receipt.digest != ReceiptDigest(request.transfer, ItemMap(items), request.reason)
               then Err(IdempotencyConflict)
               else if state.transfers[request.transfer].destination != request.destination then Err(NotFound)
               else Ok(Transfers.Done(state, Reply(request.transfer, true)))
  {
    KeyIsFound(state.receipts, k, |state.receipts|);
    hide RequestedItems, ItemMap, FindReceipt;
  }

  /** A dispatched transfer asked to go again: its own key answers as before. */
  lemma DispatchAgain(state: State, tracking: Tracking, context: Context, t: nat, key: Site.Key)
    requires Booked(state.stock) && t < |state.transfers| && state.transfers[t].status != Draft
    ensures Dispatch(state, tracking, context, t, state.transfers[t].origin, key)
            == if state.transfers[t].status == Dispatched && state.transfers[t].dispatchKey == Some(key)
               then Ok(Transfers.Done(state, Reply(t, true))) else Err(StatusConflict)
  {
  }

  lemma {:induction false} OperationIsFound(operations: seq<KitOperation>, k: nat, n: nat)
    requires k < n <= |operations| && forall j :: 0 <= j < k ==> operations[j].key != operations[k].key
    ensures FindOperation(operations, operations[k].key, n) == Some(k)
  {
    if n > k + 1 {
      OperationIsFound(operations, k, n - 1);
    }
  }

  lemma KitKeyReuse(stock: Stock, operations: seq<KitOperation>, kits: map<Product, Kit>, context: Context, request: KitRequest, k: nat)
    requires Booked(stock) && QuantityToUnits(request.quantity).Ok? && k < |operations| && operations[k].key == request.key
    requires forall j :: 0 <= j < k ==> operations[j].key != request.key
    ensures OperateKit(stock, operations, kits, context, request)
            == if operations[k].digest == KitDigest(request.product, request.location, request.assemble, QuantityToUnits(request.quantity).value)
               then Ok(Operated(stock, operations)) else Err(IdempotencyConflict)
  {
    OperationIsFound(operations, k, |operations|);
    hide FindOperation, QuantityToUnits, KitUnits, ApplyChanges;
  }

  /** What a receipt is noted under its key: the item of each line it names. */
  lemma {:induction false} ItemsInMap(items: seq<Item>)
    requires forall j, k :: 0 <= j < k < |items| ==> items[j].line != items[k].line
    ensures forall k :: 0 <= k < |items| ==> items[k].line in ItemMap(items) && ItemMap(items)[items[k].line] == items[k]
    ensures forall l :: l in ItemMap(items) ==> exists k :: 0 <= k < |items| && items[k].line == l
  {
    if items != [] {
      var n := |items| - 1;
      ItemsInMap(items[..n]);
      forall l | l in ItemMap(items) ensures exists k :: 0 <= k < |items| && items[k].line == l {
        if l == items[n].line {
          assert items[n].line == l;
        } else {
          var k :| 0 <= k < n && items[..n][k].line == l;
          assert items[k].line == l;
        }
      }
      forall k | 0 <= k < |items| ensures items[k].line in ItemMap(items) && ItemMap(items)[items[k].line] == items[k] {
        if k < n {
          assert items[..n][k] == items[k];
        }
      }
    }
  }
}
