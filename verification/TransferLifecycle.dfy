/** The life cycle of a transfer: what every committed state satisfies and how create, dispatch,
    receive and cancel keep it. */
module TransferLifecycle {
  import opened Outcomes
  import opened Sums
  import opened Movements
  import opened Quantity
  import opened Balances
  import opened Ledgers
  import opened Stock
  import opened Site
  import opened Transfers
  import opened TransferSteps

  // ----- The invariant -----

  predicate LineSound(line: Line) {
    0 <= line.received && 0 <= line.discrepancy && line.received + line.discrepancy <= line.quantity
  }

  predicate Untouched(lines: seq<Line>) {
    forall i :: 0 <= i < |lines| ==> lines[i].received == 0 && lines[i].discrepancy == 0
  }

  /** What has come in and what is missing never exceed a line's quantity; a transfer is RECEIVED
      only when every line is complete and PARTIALLY_RECEIVED only while one is not. */
  predicate TransferSound(transfer: Transfer) {
    && (forall i :: 0 <= i < |transfer.lines| ==> LineSound(transfer.lines[i]))
    && (transfer.status == Draft || transfer.status == Cancelled || transfer.status == Dispatched ==> Untouched(transfer.lines))
    && (transfer.status == Received ==> Complete(transfer.lines))
    && (transfer.status == PartiallyReceived ==> !Complete(transfer.lines))
    && (transfer.status == Draft ==> transfer.dispatchKey.None?)
    && (transfer.status == Dispatched ==> transfer.dispatchKey.Some?)
  }

  ghost predicate TransfersSound(transfers: seq<Transfer>) {
    forall t :: 0 <= t < |transfers| ==> TransferSound(transfers[t])
  }

  ghost predicate KeysDistinct(state: State) {
    && (forall j, k :: 0 <= j < k < |state.transfers| ==> state.transfers[j].key != state.transfers[k].key)
    && (forall j, k :: 0 <= j < k < |state.transfers| && state.transfers[j].dispatchKey.Some? ==>
          state.transfers[j].dispatchKey != state.transfers[k].dispatchKey)
    && (forall j, k :: 0 <= j < k < |state.receipts| ==> state.receipts[j].key != state.receipts[k].key)
  }

  predicate Started(transfer: Transfer) {
    transfer.status != Draft && transfer.status != Cancelled
  }

  /** A transfer's movements are those of its lines, and exist only once it is dispatched. */
  ghost predicate MovementsNamed(log: seq<Movement>, transfers: seq<Transfer>) {
    forall k :: 0 <= k < |log| && log[k].transferLine.Some? ==>
      var t := log[k].transferLine.value.transfer;
      var i := log[k].transferLine.value.line;
      t < |transfers| && Started(transfers[t]) && i < |transfers[t].lines| && log[k].product == transfers[t].lines[i].product
  }

  // ----- Receipts account for the lines -----

  function ReceivedOn(line: nat): ReceiptLine -> int {
    (r: ReceiptLine) => if r.line == line then r.received else 0
  }

  function MissingOn(line: nat): ReceiptLine -> int {
    (r: ReceiptLine) => if r.line == line then r.discrepancy else 0
  }

  function ReceivedBy(t: nat, line: nat): Receipt -> int {
    (r: Receipt) => if r.transfer == t then Total(r.lines, ReceivedOn(line)) else 0
  }

  function MissingBy(t: nat, line: nat): Receipt -> int {
    (r: Receipt) => if r.transfer == t then Total(r.lines, MissingOn(line)) else 0
  }

  /** What a line has received and lost is what its receipts say. */
  ghost predicate ReceiptsAccount(state: State) {
    && (forall r :: 0 <= r < |state.receipts| ==> state.receipts[r].transfer < |state.transfers|)
    && forall t, i :: 0 <= t < |state.transfers| && 0 <= i < |state.transfers[t].lines| ==> LineAccounted(state, t, i)
  }

  ghost predicate LineAccounted(state: State, t: nat, i: nat)
    requires t < |state.transfers| && i < |state.transfers[t].lines|
  {
    && state.transfers[t].lines[i].received == Total(state.receipts, ReceivedBy(t, i))
    && state.transfers[t].lines[i].discrepancy == Total(state.receipts, MissingBy(t, i))
  }

  ghost predicate Documented(state: State) {
    TransfersSound(state.transfers) && KeysDistinct(state) && MovementsNamed(Log(state.stock), state.transfers) && ReceiptsAccount(state)
  }

  /** Everything a committed state satisfies. */
  ghost predicate StateSound(state: State, tracking: Tracking) {
    Agrees(state.stock, tracking) && Documented(state)
  }

  // ----- Create and cancel -----

  lemma {:induction false} NewLinesUntouched(context: Context, lines: seq<NewLine>, n: nat)
    requires n <= |lines|
    ensures var r := NormalizeLines(context, lines, n);
            r.Ok? ==> Untouched(r.value) && forall i :: 0 <= i < n ==> r.value[i].quantity >= 0
  {
    hide NormalizedUnits;
    if n > 0 {
      NewLinesUntouched(context, lines, n - 1);
      if ProductActive(context, lines[n - 1].product) {
        UnitsNotNegative(lines[n - 1].quantity, context.products[lines[n - 1].product].policy, true);
      }
    }
  }

  lemma UnitsNotNegative(value: string, policy: Policy, enforceMinimum: bool)
    ensures var r := NormalizedUnits(value, policy, false, enforceMinimum);
            r.Ok? ==> r.value >= 0
  {
    if NormalizedUnits(value, policy, false, enforceMinimum).Ok? {
      NormalizationIsStable(value, policy, false, enforceMinimum);
    }
  }

  /** The new transfer is a draft nothing refers to yet. */
  lemma AppendDraft(state: State, transfer: Transfer)
    requires Documented(state) && TransferSound(transfer) && transfer.status == Draft
    requires FindByKey(state.transfers, transfer.key, |state.transfers|).None?
    ensures Documented(state.(transfers := state.transfers + [transfer]))
  {
    var after := state.(transfers := state.transfers + [transfer]);
    var n := |state.transfers|;
    forall t, i | 0 <= t < |after.transfers| && 0 <= i < |after.transfers[t].lines| ensures LineAccounted(after, t, i) {
      if t < n {
        assert LineAccounted(state, t, i);
      } else {
        TotalZero(state.receipts, ReceivedBy(n, i));
        TotalZero(state.receipts, MissingBy(n, i));
      }
    }
  }

  lemma CreateKeeps(state: State, tracking: Tracking, context: Context, request: CreateRequest)
    requires StateSound(state, tracking)
    ensures var r := Create(state, context, request);
            r.Ok? ==> StateSound(r.value.state, tracking) && r.value.state.stock == state.stock
  {
    hide Agrees, Documented;
    var r := Create(state, context, request);
    if r.Ok? && r.value.state != state {
      NewLinesUntouched(context, request.lines, |request.lines|);
      AppendDraft(state, r.value.state.transfers[|state.transfers|]);
    }
  }

  /** Replacing a transfer by one with the same lines, in another status. */
  lemma ChangeStatus(state: State, t: nat, transfer: Transfer)
    requires Documented(state) && t < |state.transfers| && TransferSound(transfer)
    requires transfer.lines == state.transfers[t].lines && transfer.key == state.transfers[t].key
    requires Started(state.transfers[t]) ==> Started(transfer)
    requires transfer.dispatchKey.Some? ==> forall k :: 0 <= k < |state.transfers| && k != t ==> state.transfers[k].dispatchKey != transfer.dispatchKey
    ensures Documented(state.(transfers := state.transfers[t := transfer]))
  {
    var after := state.(transfers := state.transfers[t := transfer]);
    forall u, i | 0 <= u < |after.transfers| && 0 <= i < |after.transfers[u].lines| ensures LineAccounted(after, u, i) {
      assert LineAccounted(state, u, i);
    }
  }

  /** Cancelling touches only a draft; it refuses a dispatched transfer and silently leaves a
      received or cancelled one as it is. The stock never changes. */
  lemma CancelKeeps(state: State, tracking: Tracking, t: nat, origin: Warehouse)
    requires StateSound(state, tracking)
    ensures var r := Cancel(state, t, origin);
            && (r.Ok? ==> StateSound(r.value.state, tracking) && r.value.state.stock == state.stock)
            && (t < |state.transfers| && state.transfers[t].origin == origin ==>
                  && (r.Err? <==> state.transfers[t].status == Dispatched)
                  && (state.transfers[t].status == Draft ==>
                        r == Ok(Done(state.(transfers := state.transfers[t := state.transfers[t].(status := Cancelled)]), Reply(t, false))))
                  && (r.Ok? && state.transfers[t].status != Draft ==> r.value.state == state))
  {
    hide Agrees, Documented;
    if t < |state.transfers| && state.transfers[t].status == Draft {
      var transfer := state.transfers[t];
      assert TransferSound(transfer) by { SoundAt(state, t); }
      ChangeStatus(state, t, transfer.(status := Cancelled));
    }
  }

  lemma SoundAt(state: State, t: nat)
    requires Documented(state) && t < |state.transfers|
    ensures TransferSound(state.transfers[t])
  {
  }

  // ----- Dispatch -----

  /** The movements of lines of transfer t, appended while t is started. */
  lemma NamedAppend(log: seq<Movement>, after: seq<Movement>, transfers: seq<Transfer>, t: nat, transfer: Transfer)
    requires MovementsNamed(log, transfers) && t < |transfers|
    requires |log| <= |after| && after[..|log|] == log && OnlyLines(after[|log|..], t) && LinesNamed(after, t, transfer.lines)
    requires |transfer.lines| == |transfers[t].lines| && Started(transfer)
    requires forall i :: 0 <= i < |transfer.lines| ==> transfer.lines[i].product == transfers[t].lines[i].product
    ensures MovementsNamed(after, transfers[t := transfer])
  {
    forall k | 0 <= k < |after| && after[k].transferLine.Some?
      ensures var u := after[k].transferLine.value.transfer;
              var i := after[k].transferLine.value.line;
              && u < |transfers| && Started(transfers[t := transfer][u]) && i < |transfers[t := transfer][u].lines|
              && after[k].product == transfers[t := transfer][u].lines[i].product
    {
      if k < |log| {
        assert after[k] == after[..|log|][k] == log[k];
      } else {
        assert after[k] == after[|log|..][k - |log|];
      }
    }
  }

  lemma NamedOfTransfer(log: seq<Movement>, transfers: seq<Transfer>, t: nat)
    requires MovementsNamed(log, transfers) && t < |transfers|
    ensures LinesNamed(log, t, transfers[t].lines)
  {
  }

  lemma UsableLinesGo(context: Context, transfer: Transfer)
    requires TransferSound(transfer) && LinesUsable(context, transfer) && WarehousePair(context, transfer.origin, transfer.destination)
    ensures LinesGo(transfer.lines)
  {
    forall i | 0 <= i < |transfer.lines| ensures transfer.lines[i].quantity >= 0 && transfer.lines[i].source != transfer.lines[i].destination {
      assert LineUsable(context, transfer, transfer.lines[i]) && LineSound(transfer.lines[i]);
    }
  }

  /** A dispatch that is not a replay: what it changes. */
  ghost predicate DispatchEffect(state: State, after: State, t: nat, key: Key)
    requires t < |state.transfers|
  {
    && after.receipts == state.receipts
    && after.transfers == state.transfers[t := state.transfers[t].(status := Dispatched, dispatchKey := Some(key))]
    && AllCarried(state.stock.rows, after.stock.rows, state.transfers[t].lines)
    && (forall p :: Balances.StockOf(after.stock.rows, p) == Balances.StockOf(state.stock.rows, p))
  }

  /** Dispatching keeps every projection in agreement and carries each line from available at its
      source to in transit at its destination; asked again, it changes nothing. */
  lemma DispatchKeeps(state: State, tracking: Tracking, context: Context, t: nat, origin: Warehouse, key: Key)
    requires StateSound(state, tracking)
    ensures Booked(state.stock)
    ensures var r := Dispatch(state, tracking, context, t, origin, key);
            r.Ok? ==> && StateSound(r.value.state, tracking) && t < |state.transfers|
                      && if r.value.reply.replay then r.value.state == state && state.transfers[t].status == Dispatched
                         else state.transfers[t].status == Draft && DispatchEffect(state, r.value.state, t, key)
  {
    hide Agrees, Documented, DispatchLines, AllCarried;
    StockBooked(state.stock, tracking);
    var r := Dispatch(state, tracking, context, t, origin, key);
    if r.Ok? && !r.value.reply.replay {
      var transfer := state.transfers[t];
      DocumentFacts(state, t);
      UsableLinesGo(context, transfer);
      EnsureRowsAgrees(state.stock, tracking, transfer.lines);
      var stock := state.stock.(rows := EnsureRows(state.stock.rows, transfer.lines));
      DispatchLinesAgree(stock, tracking, context, t, transfer.lines, 0);
      assert transfer.lines[0..] == transfer.lines;
      assert AllCarried(state.stock.rows, r.value.state.stock.rows, transfer.lines) by {
        SameReads(state.stock.rows, stock.rows, r.value.state.stock.rows, transfer.lines);
      }
      var dispatched := transfer.(status := Dispatched, dispatchKey := Some(key));
      DispatchedDocuments(state, r.value.state.stock, t, dispatched);
    }
  }

  lemma StockBooked(stock: Stock, tracking: Tracking)
    requires Agrees(stock, tracking)
    ensures Booked(stock)
  {
    InvariantOf(stock.ledgers, tracking);
  }

  lemma DocumentFacts(state: State, t: nat)
    requires Documented(state) && t < |state.transfers|
    ensures TransferSound(state.transfers[t]) && LinesNamed(Log(state.stock), t, state.transfers[t].lines)
  {
    NamedOfTransfer(Log(state.stock), state.transfers, t);
  }

  lemma SameReads(rows: seq<Row>, ensured: seq<Row>, after: seq<Row>, lines: seq<Line>)
    requires AllCarried(ensured, after, lines) && forall p, l :: RowAt(ensured, p, l) == RowAt(rows, p, l)
    ensures AllCarried(rows, after, lines)
  {
  }

  lemma DispatchedDocuments(state: State, stock: Stock, t: nat, dispatched: Transfer)
    requires Documented(state) && t < |state.transfers| && TransferSound(dispatched) && Started(dispatched)
    requires dispatched.lines == state.transfers[t].lines && dispatched.key == state.transfers[t].key
    requires dispatched.dispatchKey.Some? && DispatchKeyFree(state.transfers, dispatched.dispatchKey.value)
    requires |Log(state.stock)| <= |Log(stock)| && Log(stock)[..|Log(state.stock)|] == Log(state.stock)
    requires OnlyLines(Log(stock)[|Log(state.stock)|..], t) && LinesNamed(Log(stock), t, dispatched.lines)
    ensures Documented(State(stock, state.transfers[t := dispatched], state.receipts))
  {
    var after := State(stock, state.transfers[t := dispatched], state.receipts);
    NamedAppend(Log(state.stock), Log(stock), state.transfers, t, dispatched);
    hide MovementsNamed;
    forall u, i | 0 <= u < |after.transfers| && 0 <= i < |after.transfers[u].lines| ensures LineAccounted(after, u, i) {
      assert LineAccounted(state, u, i);
    }
  }
}
