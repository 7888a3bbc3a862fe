/** Exactly when a dispatch and a receipt are accepted, over all their lines. */
module TransferAcceptance {
  import opened Outcomes
  import opened Sums
  import opened Movements
  import opened LotTransfers
  import opened Balances
  import opened Ledgers
  import opened Stock
  import opened Site
  import opened Transfers
  import opened TransferSteps
  import opened TransferLifecycle
  import opened TransferReceiving
  import opened TransferTheorems
  import opened TransferExactness
  import opened ReceiptExactness

  // ----- Dispatch -----

  /** Each line, when its turn comes, is available at its source and ready in every ledger. */
  ghost predicate LinesAccepted(stock: Stock, tracking: Tracking, context: Context, t: nat, lines: seq<Line>, i: nat)
    requires Booked(stock) && i <= |lines|
    decreases |lines| - i
  {
    i == |lines| ||
    (&& lines[i].quantity <= RowAt(stock.rows, lines[i].product, lines[i].source).available
     && LineReady(stock.ledgers, tracking, context, t, i, lines[i])
     && var next := DispatchLine(stock, tracking, context, t, i, lines[i]);
        next.Ok? ==> LinesAccepted(next.value, tracking, context, t, lines, i + 1))
  }

  ghost predicate NotYet(log: seq<Movement>, t: nat, i: nat) {
    forall j: nat :: j >= i ==> FreshLine(log, Some(TransferLine(t, j)))
  }

  lemma StillNotYet(log: seq<Movement>, context: Context, t: nat, i: nat, line: Line)
    requires NotYet(log, t, i)
    ensures NotYet(log + [Departure(context, t, i, line), Arrival(context, t, i, line)], t, i + 1)
  {
    var after := log + [Departure(context, t, i, line), Arrival(context, t, i, line)];
    forall j: nat | j >= i + 1 ensures FreshLine(after, Some(TransferLine(t, j))) {
      assert FreshLine(log, Some(TransferLine(t, j)));
    }
  }

  lemma {:induction false} LinesAreExact(stock: Stock, tracking: Tracking, context: Context, t: nat, lines: seq<Line>, i: nat)
    requires Agrees(stock, tracking) && Booked(stock) && i <= |lines| && LinesNamed(Log(stock), t, lines) && LinesGo(lines)
    requires NotYet(Log(stock), t, i)
    ensures DispatchLines(stock, tracking, context, t, lines, i).Ok? <==> LinesAccepted(stock, tracking, context, t, lines, i)
    decreases |lines| - i
  {
    hide Agrees, DispatchLine, RowAt, LinesNamed, LineReady, Balances.StockOf;
    if i < |lines| {
      assert FreshLine(Log(stock), Some(TransferLine(t, i)));
      DispatchIsExact(stock, tracking, context, t, i, lines[i]);
      DispatchLineAgrees(stock, tracking, context, t, i, lines);
      var next := DispatchLine(stock, tracking, context, t, i, lines[i]);
      if next.Ok? {
        NamedAfterDispatch(Log(stock), context, t, i, lines);
        StillNotYet(Log(stock), context, t, i, lines[i]);
        LinesAreExact(next.value, tracking, context, t, lines, i + 1);
      }
    }
  }

  lemma DraftHasNotMoved(log: seq<Movement>, transfers: seq<Transfer>, t: nat)
    requires MovementsNamed(log, transfers) && t < |transfers| && transfers[t].status == Draft
    ensures NotYet(log, t, 0)
  {
    forall j: nat ensures FreshLine(log, Some(TransferLine(t, j))) {
    }
  }

  /** A draft is dispatched exactly when its documents are in order, its key is new and each of its
      lines is accepted. */
  lemma DispatchAcceptance(state: State, tracking: Tracking, context: Context, t: nat, key: Key)
    requires StateSound(state, tracking) && t < |state.transfers| && state.transfers[t].status == Draft
    requires var transfer := state.transfers[t];
             WarehousePair(context, transfer.origin, transfer.destination) && transfer.lines != [] && LinesUsable(context, transfer)
    ensures Booked(state.stock)
    ensures var transfer := state.transfers[t];
            Dispatch(state, tracking, context, t, transfer.origin, key).Ok?
            <==> && DispatchKeyFree(state.transfers, key)
                 && LinesAccepted(state.stock.(rows := EnsureRows(state.stock.rows, transfer.lines)), tracking, context, t, transfer.lines, 0)
  {
    hide Agrees, Documented, LinesAccepted, DispatchLines, LinesNamed, LinesGo, LinesUsable, RowAt, Balances.StockOf;
    StockBooked(state.stock, tracking);
    var transfer := state.transfers[t];
    DocumentFacts(state, t);
    UsableLinesGo(context, transfer);
    EnsureRowsAgrees(state.stock, tracking, transfer.lines);
    assert MovementsNamed(Log(state.stock), state.transfers) by { NamedIn(state); }
    DraftHasNotMoved(Log(state.stock), state.transfers, t);
    LinesAreExact(state.stock.(rows := EnsureRows(state.stock.rows, transfer.lines)), tracking, context, t, transfer.lines, 0);
  }

  lemma NamedIn(state: State)
    requires Documented(state)
    ensures MovementsNamed(Log(state.stock), state.transfers)
  {
  }

  // ----- Receipt -----

  /** Each item, when its turn comes, is in transit at its destination and ready in every ledger. */
  ghost predicate ItemsAccepted(tx: Receiving, tracking: Tracking, context: Context, t: nat, items: seq<Item>)
    requires Booked(tx.stock) && forall k :: 0 <= k < |items| ==> items[k].line < |tx.lines|
    decreases |items|
  {
    items == [] ||
    var item, line := items[0], tx.lines[items[0].line];
    && item.received + item.discrepancy <= RowAt(tx.stock.rows, line.product, line.destination).inTransit
    && ItemReady(tx.stock.ledgers, tracking, context, t, item, line)
    && var stock := ReceiveItem(tx.stock, tracking, context, t, item, line);
       stock.Ok? ==> ItemsAccepted(Receiving(stock.value, tx.lines[item.line := Progress(line, item)]), tracking, context, t, items[1..])
  }

  lemma {:induction false} ItemsAreExact(tx: Receiving, tracking: Tracking, context: Context, t: nat, items: seq<Item>)
    requires Agrees(tx.stock, tracking) && Booked(tx.stock) && LinesNamed(Log(tx.stock), t, tx.lines)
    requires ItemsFit(tx.lines, items) && LinesSound(tx.lines)
    ensures forall k :: 0 <= k < |items| ==> items[k].line < |tx.lines|
    ensures ReceiveItems(tx, tracking, context, t, items).Ok? <==> ItemsAccepted(tx, tracking, context, t, items)
    decreases |items|
  {
    assert forall k :: 0 <= k < |items| ==> items[k].line < |tx.lines|;
    hide Agrees, ReceiveItem, LinesNamed, ItemsFit, LinesSound, RowAt, ItemReady;
    if items != [] {
      var item, line := items[0], tx.lines[items[0].line];
      HeadIsSigned(tx.lines, items);
      FitsOn(tx.lines, items);
      ItemIsExact(tx.stock, tracking, context, t, item, line);
      ReceiveItemAgrees(tx.stock, tracking, context, t, item, tx.lines);
      var stock := ReceiveItem(tx.stock, tracking, context, t, item, line);
      if stock.Ok? {
        NamedOn(Log(stock.value), t, tx.lines, item);
        ItemsAreExact(Receiving(stock.value, tx.lines[item.line := Progress(line, item)]), tracking, context, t, items[1..]);
      }
    }
  }

  lemma HeadIsSigned(lines: seq<Line>, items: seq<Item>)
    requires ItemsFit(lines, items) && items != []
    ensures items[0].received >= 0 && items[0].discrepancy >= 0
  {
  }

  /** A receipt with a new key, for a transfer on its way and quantities its lines have pending, is
      accepted exactly when the balance rows exist and each of its items is accepted. */
  lemma ReceiptAcceptance(state: State, tracking: Tracking, context: Context, request: ReceiveRequest)
    requires StateSound(state, tracking) && RequestedItems(state, context, request).Ok?
    requires FindReceipt(state.receipts, request.key, |state.receipts|).None?
    requires var transfer, items := state.transfers[request.transfer], RequestedItems(state, context, request).value;
             transfer.destination == request.destination && OnTheWay(transfer) && FirstError(transfer, items, |items|).None?
    ensures Booked(state.stock)
    ensures var transfer, items := state.transfers[request.transfer], RequestedItems(state, context, request).value;
            Receive(state, tracking, context, request).Ok?
            <==> && RowsPresent(state.stock.rows, transfer, items)
                 && ItemsAccepted(Receiving(state.stock, transfer.lines), tracking, context, request.transfer, items)
  {
    hide Agrees, Documented, ItemsAccepted, ReceiveItems, NormalizeItem, LinesNamed, LinesSound, ItemsFit, RowsPresent, FirstError;
    StockBooked(state.stock, tracking);
    DocumentFacts(state, request.transfer);
    AcceptedItemsFit(state, context, request);
    SoundLines(state.transfers[request.transfer]);
    ItemsAreExact(Receiving(state.stock, state.transfers[request.transfer].lines), tracking, context, request.transfer,
                  RequestedItems(state, context, request).value);
  }

  /** Nothing is written off and no unit has to be named. */
  ghost predicate Plainly(lines: seq<Line>, items: seq<Item>, tracking: Tracking) {
    && (forall k :: 0 <= k < |items| ==> items[k].discrepancy == 0)
    && (forall i :: 0 <= i < |lines| ==> lines[i].product !in tracking.serials)
  }

  lemma {:induction false} PlainItemsAccepted(tx: Receiving, tracking: Tracking, context: Context, t: nat, items: seq<Item>)
    requires Booked(tx.stock) && (forall k :: 0 <= k < |items| ==> items[k].line < |tx.lines|)
    requires Plainly(tx.lines, items, tracking) && NeverShort(tx, tracking, context, t, items)
    ensures ItemsAccepted(tx, tracking, context, t, items)
    decreases |items|
  {
    hide RowAt, ReceiveItem;
    if items != [] {
      var item, line := items[0], tx.lines[items[0].line];
      assert ItemReady(tx.stock.ledgers, tracking, context, t, item, line);
      var stock := ReceiveItem(tx.stock, tracking, context, t, item, line);
      if stock.Ok? {
        PlainItemsAccepted(Receiving(stock.value, tx.lines[item.line := Progress(line, item)]), tracking, context, t, items[1..]);
      }
    }
  }

  /** While only transfers put stock in transit, a receipt without discrepancies of products without
      serial numbers is always accepted. */
  lemma GoodReceiptSucceeds(state: State, tracking: Tracking, context: Context, request: ReceiveRequest)
    requires StateSound(state, tracking) && InTransitMatches(state) && RequestedItems(state, context, request).Ok?
    requires FindReceipt(state.receipts, request.key, |state.receipts|).None?
    requires var transfer, items := state.transfers[request.transfer], RequestedItems(state, context, request).value;
             && transfer.destination == request.destination && OnTheWay(transfer) && FirstError(transfer, items, |items|).None?
             && Plainly(transfer.lines, items, tracking)
    ensures Booked(state.stock)
    ensures Receive(state, tracking, context, request).Ok?
  {
    hide StateSound, InTransitMatches, RequestedItems, NeverShort, ItemsAccepted, Plainly, RowsPresent, Receive, FirstError;
    ReceiptIsNeverShort(state, tracking, context, request);
    ReceiptAcceptance(state, tracking, context, request);
    PlainItemsAccepted(Receiving(state.stock, state.transfers[request.transfer].lines), tracking, context, request.transfer,
                       RequestedItems(state, context, request).value);
  }
}
