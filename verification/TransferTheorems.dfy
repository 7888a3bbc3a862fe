/** Main theorems of the transfer protocol, over every run of its four operations. */
module TransferTheorems {
  import opened Outcomes
  import opened Sums
  import opened Movements
  import opened Balances
  import opened Ledgers
  import opened Stock
  import opened Site
  import opened Transfers
  import opened TransferSteps
  import opened TransferLifecycle
  import opened TransferReceiving

  // ----- Sums over the lines of transfers -----

  function PendingTo(p: Product, l: Location): Line -> int {
    (line: Line) => if line.product == p && line.destination == l then PendingOf(line) else 0
  }

  function LostFrom(p: Product): Line -> int {
    (line: Line) => if line.product == p then line.discrepancy else 0
  }

  function PendingLine(): Line -> int {
    (line: Line) => PendingOf(line)
  }

  /** A transfer whose lines are on their way. */
  predicate OnTheWay(transfer: Transfer) {
    transfer.status == Dispatched || transfer.status == PartiallyReceived
  }

  function PendingIn(p: Product, l: Location): Transfer -> int {
    (tr: Transfer) => if OnTheWay(tr) then Total(tr.lines, PendingTo(p, l)) else 0
  }

  function LostIn(p: Product): Transfer -> int {
    (tr: Transfer) => Total(tr.lines, LostFrom(p))
  }

  function PendingOn(): Transfer -> int {
    (tr: Transfer) => if OnTheWay(tr) then Total(tr.lines, PendingLine()) else 0
  }

  /** What is still to be received at a place. */
  function Pending(state: State, p: Product, l: Location): int {
    Total(state.transfers, PendingIn(p, l))
  }

  /** What receipts have written off of a product. */
  function Lost(state: State, p: Product): int {
    Total(state.transfers, LostIn(p))
  }

  /** Everything still to be received, anywhere. */
  function TotalPending(state: State): int {
    Total(state.transfers, PendingOn())
  }

  /** The in-transit balances are exactly what the dispatched lines still have pending. */
  ghost predicate InTransitMatches(state: State) {
    forall p, l :: RowAt(state.stock.rows, p, l).inTransit == Pending(state, p, l)
  }

  // ----- Lines that progress -----

  function Progressed(lines: seq<Line>, items: seq<Item>): (r: seq<Line>)
    requires forall k :: 0 <= k < |items| ==> items[k].line < |lines|
    ensures |r| == |lines|
    decreases |items|
  {
    if items == [] then lines
    else Progressed(lines[items[0].line := Progress(lines[items[0].line], items[0])], items[1..])
  }

  lemma {:induction false} ProgressedIs(lines: seq<Line>, items: seq<Item>)
    requires forall k :: 0 <= k < |items| ==> items[k].line < |lines|
    ensures LinesProgressed(lines, Progressed(lines, items), items)
    decreases |items|
  {
    hide LinesProgressed;
    if items == [] {
      NothingSettled([], lines);
    } else {
      var next := lines[items[0].line := Progress(lines[items[0].line], items[0])];
      ProgressedIs(next, items[1..]);
      ProgressedOn(lines, next, Progressed(lines, items), items);
    }
  }

  lemma ProgressIsUnique(lines: seq<Line>, after: seq<Line>, items: seq<Item>)
    requires forall k :: 0 <= k < |items| ==> items[k].line < |lines|
    requires LinesProgressed(lines, after, items)
    ensures after == Progressed(lines, items)
  {
    ProgressedIs(lines, items);
    var same := Progressed(lines, items);
    forall i | 0 <= i < |lines| ensures after[i] == same[i] {
      assert SameRoute(lines[i], after[i]) && SameRoute(lines[i], same[i]);
    }
  }

  /** A sum over lines that each item raises by its own amount is raised by the sum over items. */
  lemma {:induction false} ProgressTotal(lines: seq<Line>, items: seq<Item>, f: Line -> int, g: Item -> int)
    requires forall k :: 0 <= k < |items| ==> items[k].line < |lines|
    requires forall k, line :: 0 <= k < |items| && SameRoute(lines[items[k].line], line) ==> f(Progress(line, items[k])) == f(line) + g(items[k])
    ensures Total(Progressed(lines, items), f) == Total(lines, f) + Total(items, g)
    decreases |items|
  {
    if items != [] {
      var i := items[0].line;
      var next := lines[i := Progress(lines[i], items[0])];
      assert SameRoute(lines[i], lines[i]);
      TotalUpdate(lines, i, next[i], f);
      TotalHead(items, g);
      forall k, line | 0 <= k < |items[1..]| && SameRoute(next[items[1..][k].line], line)
        ensures f(Progress(line, items[1..][k])) == f(line) + g(items[1..][k])
      {
        assert items[1..][k] == items[k + 1];
        assert SameRoute(lines[items[k + 1].line], line);
      }
      ProgressTotal(next, items[1..], f, g);
    }
  }

  function Processed(): Item -> int {
    (item: Item) => item.received + item.discrepancy
  }

  function MinusTo(lines: seq<Line>, p: Product, l: Location): Item -> int {
    (item: Item) => -GoodTo(lines, p, l)(item) - LostTo(lines, p, l)(item)
  }

  function MinusProcessed(): Item -> int {
    (item: Item) => -item.received - item.discrepancy
  }

  lemma PendingProgress(lines: seq<Line>, items: seq<Item>, p: Product, l: Location)
    requires forall k :: 0 <= k < |items| ==> items[k].line < |lines|
    ensures Total(Progressed(lines, items), PendingTo(p, l))
            == Total(lines, PendingTo(p, l)) - Total(items, GoodTo(lines, p, l)) - Total(items, LostTo(lines, p, l))
  {
    ProgressTotal(lines, items, PendingTo(p, l), MinusTo(lines, p, l));
    TotalScale(items, GoodTo(lines, p, l), -1, MinusOne(GoodTo(lines, p, l)));
    TotalScale(items, LostTo(lines, p, l), -1, MinusOne(LostTo(lines, p, l)));
    TotalPlus(items, MinusOne(GoodTo(lines, p, l)), MinusOne(LostTo(lines, p, l)), MinusTo(lines, p, l));
  }

  function MinusOne(f: Item -> int): Item -> int {
    (item: Item) => -f(item)
  }

  lemma LostProgress(lines: seq<Line>, items: seq<Item>, p: Product)
    requires forall k :: 0 <= k < |items| ==> items[k].line < |lines|
    ensures Total(Progressed(lines, items), LostFrom(p)) == Total(lines, LostFrom(p)) + Total(items, LostOf(lines, p))
  {
    ProgressTotal(lines, items, LostFrom(p), LostOf(lines, p));
  }

  lemma AllPendingProgress(lines: seq<Line>, items: seq<Item>)
    requires forall k :: 0 <= k < |items| ==> items[k].line < |lines|
    ensures Total(Progressed(lines, items), PendingLine()) == Total(lines, PendingLine()) - Total(items, Processed())
  {
    ProgressTotal(lines, items, PendingLine(), MinusProcessed());
    TotalScale(items, Processed(), -1, MinusProcessed());
  }

  // ----- Nothing pending on what is complete -----

  lemma CompletePendingZero(lines: seq<Line>)
    requires Complete(lines) && LinesSound(lines)
    ensures forall p, l :: Total(lines, PendingTo(p, l)) == 0
    ensures Total(lines, PendingLine()) == 0
  {
    forall i | 0 <= i < |lines| ensures PendingOf(lines[i]) == 0 {
      assert LineSound(lines[i]);
    }
    forall p, l ensures Total(lines, PendingTo(p, l)) == 0 {
      TotalZero(lines, PendingTo(p, l));
    }
    TotalZero(lines, PendingLine());
  }

  lemma PendingNonNegative(transfer: Transfer, p: Product, l: Location)
    requires TransferSound(transfer)
    ensures PendingIn(p, l)(transfer) >= 0 && PendingOn()(transfer) >= 0
  {
    SoundLines(transfer);
    forall i | 0 <= i < |transfer.lines| ensures PendingOf(transfer.lines[i]) >= 0 {
      assert LineSound(transfer.lines[i]);
    }
    TotalNonNegative(transfer.lines, PendingTo(p, l));
    TotalNonNegative(transfer.lines, PendingLine());
  }

  // ----- Effects on the sums -----

  lemma DispatchSums(state: State, after: State, t: nat, key: Key)
    requires TransfersSound(state.transfers) && t < |state.transfers| && state.transfers[t].status == Draft
    requires DispatchEffect(state, after, t, key)
    ensures InTransitMatches(state) ==> InTransitMatches(after)
    ensures forall p :: Balances.StockOf(after.stock.rows, p) == Balances.StockOf(state.stock.rows, p) && Lost(after, p) == Lost(state, p)
  {
    hide RowAt, Balances.StockOf;
    var lines := state.transfers[t].lines;
    assert TransferSound(state.transfers[t]);
    forall p, l ensures Pending(after, p, l) == Pending(state, p, l) + Total(lines, To(p, l)) {
      TotalUpdate(state.transfers, t, after.transfers[t], PendingIn(p, l));
      TotalSame(lines, To(p, l), lines, PendingTo(p, l));
    }
    forall p ensures Lost(after, p) == Lost(state, p) {
      TotalUpdate(state.transfers, t, after.transfers[t], LostIn(p));
    }
  }

  lemma ReceiveSums(state: State, after: State, t: nat, items: seq<Item>)
    requires TransfersSound(state.transfers) && TransfersSound(after.transfers)
    requires t < |state.transfers| && ReceiveEffect(state, after, t, items)
    ensures InTransitMatches(state) ==> InTransitMatches(after)
    ensures forall p ::
              && Balances.StockOf(after.stock.rows, p) == Balances.StockOf(state.stock.rows, p) - Total(items, LostOf(state.transfers[t].lines, p))
              && Lost(after, p) == Lost(state, p) + Total(items, LostOf(state.transfers[t].lines, p))
    ensures TotalPending(after) == TotalPending(state) - Total(items, Processed()) < TotalPending(state)
  {
    hide RowAt, Balances.StockOf;
    var lines, next := state.transfers[t].lines, after.transfers[t].lines;
    ProgressIsUnique(lines, next, items);
    hide LinesProgressed;
    assert TransferSound(after.transfers[t]);
    if after.transfers[t].status == Received {
      SoundLines(after.transfers[t]);
      CompletePendingZero(next);
    }
    forall p, l
      ensures Pending(after, p, l) == Pending(state, p, l) - Total(items, GoodTo(lines, p, l)) - Total(items, LostTo(lines, p, l))
    {
      TotalUpdate(state.transfers, t, after.transfers[t], PendingIn(p, l));
      PendingProgress(lines, items, p, l);
    }
    forall p ensures Lost(after, p) == Lost(state, p) + Total(items, LostOf(lines, p)) {
      TotalUpdate(state.transfers, t, after.transfers[t], LostIn(p));
      LostProgress(lines, items, p);
    }
    TotalUpdate(state.transfers, t, after.transfers[t], PendingOn());
    AllPendingProgress(lines, items);
    TotalNonNegative(items, Processed());
    TotalTerm(items, Processed(), 0);
  }

  // ----- The shortage guard -----

  /** At every item the balance in transit covers what is received, so the guard never rejects. */
  ghost predicate NeverShort(tx: Receiving, tracking: Tracking, context: Context, t: nat, items: seq<Item>)
    requires Booked(tx.stock) && forall k :: 0 <= k < |items| ==> items[k].line < |tx.lines|
    decreases |items|
  {
    items == [] ||
    var item := items[0];
    var line := tx.lines[item.line];
    && RowAt(tx.stock.rows, line.product, line.destination).inTransit >= item.received + item.discrepancy
    && var stock := ReceiveItem(tx.stock, tracking, context, t, item, line);
       stock.Ok? ==> NeverShort(Receiving(stock.value, tx.lines[item.line := Progress(line, item)]), tracking, context, t, items[1..])
  }

  /** The balance in transit covers the pending quantities of the transfer's lines. */
  ghost predicate Covers(rows: seq<Row>, lines: seq<Line>) {
    forall p, l :: RowAt(rows, p, l).inTransit >= Total(lines, PendingTo(p, l))
  }

  lemma PendingTerm(lines: seq<Line>, i: nat)
    requires LinesSound(lines) && i < |lines|
    ensures PendingOf(lines[i]) <= Total(lines, PendingTo(lines[i].product, lines[i].destination))
  {
    forall k | 0 <= k < |lines| ensures PendingOf(lines[k]) >= 0 {
      assert LineSound(lines[k]);
    }
    TotalTerm(lines, PendingTo(lines[i].product, lines[i].destination), i);
  }

  lemma {:induction false} CoveredIsNeverShort(tx: Receiving, tracking: Tracking, context: Context, t: nat, items: seq<Item>)
    requires Agrees(tx.stock, tracking) && Booked(tx.stock) && LinesNamed(Log(tx.stock), t, tx.lines)
    requires ItemsFit(tx.lines, items) && LinesSound(tx.lines) && Covers(tx.stock.rows, tx.lines)
    ensures forall k :: 0 <= k < |items| ==> items[k].line < |tx.lines|
    ensures NeverShort(tx, tracking, context, t, items)
    decreases |items|
  {
    assert forall k :: 0 <= k < |items| ==> items[k].line < |tx.lines|;
    if items != [] {
      var item := items[0];
      var line := tx.lines[item.line];
      PendingTerm(tx.lines, item.line);
      assert RowAt(tx.stock.rows, line.product, line.destination).inTransit >= Total(tx.lines, PendingTo(line.product, line.destination));
      hide Agrees, ReceiveItem, LinesNamed, ItemsFit, LinesSound, Covers, RowAt;
      assert item.received + item.discrepancy <= PendingOf(line) by { FitHead(tx.lines, items); }
      FitsOn(tx.lines, items);
      ReceiveItemAgrees(tx.stock, tracking, context, t, item, tx.lines);
      var stock := ReceiveItem(tx.stock, tracking, context, t, item, line);
      if stock.Ok? {
        var next := Receiving(stock.value, tx.lines[item.line := Progress(line, item)]);
        NamedOn(Log(stock.value), t, tx.lines, item);
        StillCovered(tx.stock.rows, stock.value.rows, tx.lines, item);
        CoveredIsNeverShort(next, tracking, context, t, items[1..]);
      }
    }
  }

  lemma FitHead(lines: seq<Line>, items: seq<Item>)
    requires ItemsFit(lines, items) && items != []
    ensures items[0].line < |lines| && items[0].received + items[0].discrepancy <= PendingOf(lines[items[0].line])
  {
  }

  lemma StillCovered(before: seq<Row>, after: seq<Row>, lines: seq<Line>, item: Item)
    requires item.line < |lines| && Covers(before, lines) && ItemSettled(before, after, lines[item.line], item)
    ensures Covers(after, lines[item.line := Progress(lines[item.line], item)])
  {
    hide RowAt;
    var next := lines[item.line := Progress(lines[item.line], item)];
    forall p, l ensures RowAt(after, p, l).inTransit >= Total(next, PendingTo(p, l)) {
      TotalUpdate(lines, item.line, next[item.line], PendingTo(p, l));
      assert RowAt(before, p, l).inTransit >= Total(lines, PendingTo(p, l));
    }
  }

  lemma TransferCovered(state: State, t: nat)
    requires TransfersSound(state.transfers) && InTransitMatches(state) && t < |state.transfers| && OnTheWay(state.transfers[t])
    ensures Covers(state.stock.rows, state.transfers[t].lines)
  {
    forall p, l ensures RowAt(state.stock.rows, p, l).inTransit >= Total(state.transfers[t].lines, PendingTo(p, l)) {
      forall k | 0 <= k < |state.transfers| ensures PendingIn(p, l)(state.transfers[k]) >= 0 {
        PendingNonNegative(state.transfers[k], p, l);
      }
      TotalTerm(state.transfers, PendingIn(p, l), t);
    }
  }

  /** While only transfers put stock in transit, the balances a receipt needs exist and hold enough:
      neither the missing-row check nor the shortage check ever rejects a receipt. */
  lemma ReceiptIsNeverShort(state: State, tracking: Tracking, context: Context, request: ReceiveRequest)
    requires StateSound(state, tracking) && InTransitMatches(state)
    requires RequestedItems(state, context, request).Ok?
    requires var transfer, items := state.transfers[request.transfer], RequestedItems(state, context, request).value;
             OnTheWay(transfer) && FirstError(transfer, items, |items|).None?
    ensures Booked(state.stock)
    ensures var transfer, items := state.transfers[request.transfer], RequestedItems(state, context, request).value;
            && RowsPresent(state.stock.rows, transfer, items)
            && NeverShort(Receiving(state.stock, transfer.lines), tracking, context, request.transfer, items)
  {
    StockBooked(state.stock, tracking);
    var t, items := request.transfer, RequestedItems(state, context, request).value;
    var transfer := state.transfers[t];
    AcceptedItemsFit(state, context, request);
    hide RequestedItems, Agrees;
    DocumentFacts(state, t);
    SoundLines(transfer);
    TransferCovered(state, t);
    CoveredIsNeverShort(Receiving(state.stock, transfer.lines), tracking, context, t, items);
    forall k | 0 <= k < |items| && items[k].line < |transfer.lines|
      ensures Exists(state.stock.rows, transfer.lines[items[k].line].product, transfer.lines[items[k].line].destination)
    {
      PendingTerm(transfer.lines, items[k].line);
      InTransitRowExists(state.stock.rows, transfer.lines, transfer.lines[items[k].line]);
    }
  }

  lemma InTransitRowExists(rows: seq<Row>, lines: seq<Line>, line: Line)
    requires Covers(rows, lines) && Total(lines, PendingTo(line.product, line.destination)) > 0
    ensures Exists(rows, line.product, line.destination)
  {
    assert RowAt(rows, line.product, line.destination).inTransit > 0;
  }

  // ----- Runs -----

  datatype Call =
    | CreateCall(context: Context, creation: CreateRequest)
    | DispatchCall(context: Context, transfer: nat, origin: Warehouse, key: Key)
    | ReceiveCall(context: Context, receipt: ReceiveRequest)
    | CancelCall(transfer: nat, origin: Warehouse)

  function Answer(state: State, tracking: Tracking, call: Call): Result<Done>
    requires Booked(state.stock)
  {
    match call
    case CreateCall(context, request) => Create(state, context, request)
    case DispatchCall(context, t, origin, key) => Dispatch(state, tracking, context, t, origin, key)
    case ReceiveCall(context, request) => Receive(state, tracking, context, request)
    case CancelCall(t, origin) => Cancel(state, t, origin)
  }

  /** A failing call is rolled back. */
  function Next(state: State, tracking: Tracking, call: Call): (after: State)
    requires Booked(state.stock)
    ensures Booked(after.stock)
  {
    match Answer(state, tracking, call) case Err(_) => state case Ok(done) => done.state
  }

  /** One call of any kind keeps the state sound, keeps in-transit stock equal to what is pending,
      and keeps stock plus recorded discrepancies constant. */
  lemma CallKeeps(state: State, tracking: Tracking, call: Call)
    requires StateSound(state, tracking)
    ensures Booked(state.stock)
    ensures var after := Next(state, tracking, call);
            && StateSound(after, tracking)
            && (InTransitMatches(state) ==> InTransitMatches(after))
            && (forall p :: Balances.StockOf(after.stock.rows, p) + Lost(after, p) == Balances.StockOf(state.stock.rows, p) + Lost(state, p))
  {
    hide Agrees, Create, Dispatch, Receive, Cancel, Balances.StockOf, RowAt;
    StockBooked(state.stock, tracking);
    var after := Next(state, tracking, call);
    match call
    case CreateCall(context, request) =>
      CreateKeeps(state, tracking, context, request);
      if after != state {
        CreateSums(state, context, request);
      }
    case DispatchCall(context, t, origin, key) =>
      DispatchKeeps(state, tracking, context, t, origin, key);
      if Answer(state, tracking, call).Ok? && !Answer(state, tracking, call).value.reply.replay {
        DispatchSums(state, after, t, key);
      }
    case ReceiveCall(context, request) =>
      ReceiveKeeps(state, tracking, context, request);
      if Answer(state, tracking, call).Ok? && !Answer(state, tracking, call).value.reply.replay {
        ReceiveSums(state, after, request.transfer, RequestedItems(state, context, request).value);
      }
    case CancelCall(t, origin) =>
      CancelKeeps(state, tracking, t, origin);
      CancelSums(state, t, origin);
  }

  lemma CreateSums(state: State, context: Context, request: CreateRequest)
    ensures var r := Create(state, context, request);
            r.Ok? ==> && (InTransitMatches(state) ==> InTransitMatches(r.value.state))
                      && (forall p :: Lost(r.value.state, p) == Lost(state, p))
  {
    hide RowAt;
    var r := Create(state, context, request);
    if r.Ok? && r.value.state != state {
      NewLinesUntouched(context, request.lines, |request.lines|);
      var added := r.value.state.transfers[|state.transfers|];
      assert r.value.state.transfers == state.transfers + [added];
      forall p, l ensures Pending(r.value.state, p, l) == Pending(state, p, l) {
        TotalAppend(state.transfers, added, PendingIn(p, l));
      }
      forall p ensures Lost(r.value.state, p) == Lost(state, p) {
        TotalAppend(state.transfers, added, LostIn(p));
        TotalZero(added.lines, LostFrom(p));
      }
    }
  }

  lemma CancelSums(state: State, t: nat, origin: Warehouse)
    ensures var r := Cancel(state, t, origin);
            r.Ok? ==> && (InTransitMatches(state) ==> InTransitMatches(r.value.state))
                      && (forall p :: Lost(r.value.state, p) == Lost(state, p))
  {
    hide RowAt;
    var r := Cancel(state, t, origin);
    if r.Ok? {
      forall p, l ensures Pending(r.value.state, p, l) == Pending(state, p, l) {
        TotalUpdate(state.transfers, t, r.value.state.transfers[t], PendingIn(p, l));
      }
      forall p ensures Lost(r.value.state, p) == Lost(state, p) {
        TotalUpdate(state.transfers, t, r.value.state.transfers[t], LostIn(p));
      }
    }
  }

  function RunCalls(state: State, tracking: Tracking, calls: seq<Call>): (after: State)
    requires Booked(state.stock)
    ensures Booked(after.stock)
    decreases |calls|
  {
    if calls == [] then state else RunCalls(Next(state, tracking, calls[0]), tracking, calls[1..])
  }

  /** Over every run of the protocol: all projections agree, the documents are sound, in-transit
      stock is what the dispatched lines have pending, and the tenant's stock of a product falls by
      exactly the discrepancies recorded. */
  lemma {:induction false} TransferRun(state: State, tracking: Tracking, calls: seq<Call>)
    requires StateSound(state, tracking) && Booked(state.stock)
    ensures var after := RunCalls(state, tracking, calls);
            && StateSound(after, tracking)
            && (InTransitMatches(state) ==> InTransitMatches(after))
            && (forall p :: Balances.StockOf(state.stock.rows, p) - Balances.StockOf(after.stock.rows, p) == Lost(after, p) - Lost(state, p))
    decreases |calls|
  {
    hide StateSound, InTransitMatches, Balances.StockOf, Next, Lost;
    if calls != [] {
      CallKeeps(state, tracking, calls[0]);
      var next := Next(state, tracking, calls[0]);
      TransferRun(next, tracking, calls[1..]);
      var after := RunCalls(next, tracking, calls[1..]);
      forall p
        ensures Balances.StockOf(state.stock.rows, p) - Balances.StockOf(after.stock.rows, p) == Lost(after, p) - Lost(state, p)
      {
        assert Balances.StockOf(next.stock.rows, p) + Lost(next, p) == Balances.StockOf(state.stock.rows, p) + Lost(state, p);
        assert Balances.StockOf(next.stock.rows, p) - Balances.StockOf(after.stock.rows, p) == Lost(after, p) - Lost(next, p);
      }
    }
  }
}
