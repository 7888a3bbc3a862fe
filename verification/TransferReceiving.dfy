/** Receiving: what an accepted receipt changes, and that it keeps every committed state sound. */
module TransferReceiving {
  import opened Outcomes
  import opened Sums
  import opened Movements
  import opened Quantity
  import opened Balances
  import opened Ledgers
  import opened Stock
  import opened Site
  import opened Transfers
  import opened TransferSteps
  import opened TransferLifecycle

  // ----- The items of a receipt -----

  function GoodOn(line: nat): Item -> int {
    (item: Item) => if item.line == line then item.received else 0
  }

  function LostOn(line: nat): Item -> int {
    (item: Item) => if item.line == line then item.discrepancy else 0
  }

  function GoodTo(lines: seq<Line>, p: Product, l: Location): Item -> int {
    (item: Item) => if item.line < |lines| && lines[item.line].product == p && lines[item.line].destination == l then item.received else 0
  }

  function LostTo(lines: seq<Line>, p: Product, l: Location): Item -> int {
    (item: Item) => if item.line < |lines| && lines[item.line].product == p && lines[item.line].destination == l then item.discrepancy else 0
  }

  function LostOf(lines: seq<Line>, p: Product): Item -> int {
    (item: Item) => if item.line < |lines| && lines[item.line].product == p then item.discrepancy else 0
  }

  /** Items that name different lines and ask for something still pending on each. */
  ghost predicate ItemsFit(lines: seq<Line>, items: seq<Item>) {
    && (forall k :: 0 <= k < |items| ==>
          items[k].line < |lines| && items[k].received >= 0 && items[k].discrepancy >= 0
          && 0 < items[k].received + items[k].discrepancy <= PendingOf(lines[items[k].line]))
    && (forall j, k :: 0 <= j < k < |items| ==> items[j].line != items[k].line)
  }

  predicate SameRoute(a: Line, b: Line) {
    b == a.(received := b.received, discrepancy := b.discrepancy)
  }

  /** Each line has come forward by what the items say about it. */
  ghost predicate LinesProgressed(before: seq<Line>, after: seq<Line>, items: seq<Item>) {
    && |after| == |before|
    && forall i :: 0 <= i < |before| ==>
         SameRoute(before[i], after[i])
         && after[i].received == before[i].received + Total(items, GoodOn(i))
         && after[i].discrepancy == before[i].discrepancy + Total(items, LostOn(i))
  }

  /** Each balance has settled what the items say about it, and the stock fell by what was lost. */
  ghost predicate AllSettled(before: seq<Row>, after: seq<Row>, lines: seq<Line>, items: seq<Item>) {
    && (forall p, l :: RowAt(after, p, l) == Settled(RowAt(before, p, l), Total(items, GoodTo(lines, p, l)), Total(items, LostTo(lines, p, l))))
    && (forall p :: Balances.StockOf(after, p) == Balances.StockOf(before, p) - Total(items, LostOf(lines, p)))
  }

  lemma NothingSettled(rows: seq<Row>, lines: seq<Line>)
    ensures AllSettled(rows, rows, lines, []) && LinesProgressed(lines, lines, [])
  {
  }

  lemma SettledOn(before: seq<Row>, first: seq<Row>, after: seq<Row>, lines: seq<Line>, next: seq<Line>, items: seq<Item>)
    requires items != [] && items[0].line < |lines| && next == lines[items[0].line := Progress(lines[items[0].line], items[0])]
    requires ItemSettled(before, first, lines[items[0].line], items[0]) && AllSettled(first, after, next, items[1..])
    ensures AllSettled(before, after, lines, items)
  {
    hide RowAt, Balances.StockOf;
    forall p, l
      ensures RowAt(after, p, l) == Settled(RowAt(before, p, l), Total(items, GoodTo(lines, p, l)), Total(items, LostTo(lines, p, l)))
    {
      TotalHead(items, GoodTo(lines, p, l));
      TotalHead(items, LostTo(lines, p, l));
      TotalSame(items[1..], GoodTo(lines, p, l), items[1..], GoodTo(next, p, l));
      TotalSame(items[1..], LostTo(lines, p, l), items[1..], LostTo(next, p, l));
    }
    forall p ensures Balances.StockOf(after, p) == Balances.StockOf(before, p) - Total(items, LostOf(lines, p)) {
      TotalHead(items, LostOf(lines, p));
      TotalSame(items[1..], LostOf(lines, p), items[1..], LostOf(next, p));
    }
  }

  lemma ProgressedOn(lines: seq<Line>, next: seq<Line>, after: seq<Line>, items: seq<Item>)
    requires items != [] && items[0].line < |lines| && next == lines[items[0].line := Progress(lines[items[0].line], items[0])]
    requires LinesProgressed(next, after, items[1..])
    ensures LinesProgressed(lines, after, items)
  {
    forall i | 0 <= i < |lines|
      ensures SameRoute(lines[i], after[i])
              && after[i].received == lines[i].received + Total(items, GoodOn(i))
              && after[i].discrepancy == lines[i].discrepancy + Total(items, LostOn(i))
    {
      TotalHead(items, GoodOn(i));
      TotalHead(items, LostOn(i));
    }
  }

  ghost predicate LinesSound(lines: seq<Line>) {
    forall i :: 0 <= i < |lines| ==> LineSound(lines[i])
  }

  lemma FitsOn(lines: seq<Line>, items: seq<Item>)
    requires ItemsFit(lines, items) && items != [] && LinesSound(lines)
    ensures items[0].line < |lines| && items[0].received >= 0 && items[0].discrepancy >= 0
    ensures ItemsFit(lines[items[0].line := Progress(lines[items[0].line], items[0])], items[1..])
    ensures LinesSound(lines[items[0].line := Progress(lines[items[0].line], items[0])])
  {
  }

  lemma NamedOn(log: seq<Movement>, t: nat, lines: seq<Line>, item: Item)
    requires LinesNamed(log, t, lines) && item.line < |lines|
    ensures LinesNamed(log, t, lines[item.line := Progress(lines[item.line], item)])
  {
  }

  lemma LogExtends(a: seq<Movement>, b: seq<Movement>, c: seq<Movement>, t: nat)
    requires |a| <= |b| <= |c| && b[..|a|] == a && c[..|b|] == b && OnlyLines(b[|a|..], t) && OnlyLines(c[|b|..], t)
    ensures c[..|a|] == a && OnlyLines(c[|a|..], t)
  {
    assert c[..|a|] == c[..|b|][..|a|];
    forall k | 0 <= k < |c[|a|..]| ensures c[|a|..][k].transferLine.Some? && c[|a|..][k].transferLine.value.transfer == t {
      if k + |a| < |b| {
        assert c[k + |a|] == c[..|b|][k + |a|] == b[|a|..][k];
      } else {
        assert c[k + |a|] == c[|b|..][k + |a| - |b|];
      }
    }
  }

  lemma {:induction false} ReceiveItemsAgree(tx: Receiving, tracking: Tracking, context: Context, t: nat, items: seq<Item>)
    requires Agrees(tx.stock, tracking) && Booked(tx.stock) && LinesNamed(Log(tx.stock), t, tx.lines)
    requires ItemsFit(tx.lines, items) && LinesSound(tx.lines)
    ensures forall k :: 0 <= k < |items| ==> items[k].line < |tx.lines|
    ensures var r := ReceiveItems(tx, tracking, context, t, items);
            r.Ok? ==> && Agrees(r.value.stock, tracking) && LinesNamed(Log(r.value.stock), t, r.value.lines)
                      && |Log(tx.stock)| <= |Log(r.value.stock)| && Log(r.value.stock)[..|Log(tx.stock)|] == Log(tx.stock)
                      && OnlyLines(Log(r.value.stock)[|Log(tx.stock)|..], t)
                      && LinesProgressed(tx.lines, r.value.lines, items) && LinesSound(r.value.lines)
                      && AllSettled(tx.stock.rows, r.value.stock.rows, tx.lines, items)
    decreases |items|
  {
    assert forall k :: 0 <= k < |items| ==> items[k].line < |tx.lines|;
    hide Agrees, ReceiveItem, LinesNamed, ItemsFit, LinesSound, AllSettled, LinesProgressed, ItemSettled, OnlyLines;
    if items == [] {
      NothingSettled(tx.stock.rows, tx.lines);
      assert Log(tx.stock)[|Log(tx.stock)|..] == [];
      OnlyLinesOfNone(t);
    } else {
      var item := items[0];
      FitsOn(tx.lines, items);
      ReceiveItemAgrees(tx.stock, tracking, context, t, item, tx.lines);
      var stock := ReceiveItem(tx.stock, tracking, context, t, item, tx.lines[item.line]);
      if stock.Ok? {
        var next := Receiving(stock.value, tx.lines[item.line := Progress(tx.lines[item.line], item)]);
        NamedOn(Log(stock.value), t, tx.lines, item);
        ReceiveItemsAgree(next, tracking, context, t, items[1..]);
        var r := ReceiveItems(next, tracking, context, t, items[1..]);
        if r.Ok? {
          LogExtends(Log(tx.stock), Log(stock.value), Log(r.value.stock), t);
          SettledOn(tx.stock.rows, stock.value.rows, r.value.stock.rows, tx.lines, next.lines, items);
          ProgressedOn(tx.lines, next.lines, r.value.lines, items);
        }
      }
    }
  }

  lemma OnlyLinesOfNone(t: nat)
    ensures OnlyLines([], t)
  {
  }

  // ----- The receipt as a whole -----

  lemma {:induction false} RequestedAreNonNegative(context: Context, transfer: Transfer, lines: seq<ReceiveLine>, n: nat)
    requires n <= |lines|
    ensures var r := NormalizeItems(context, transfer, lines, n);
            r.Ok? ==> forall k :: 0 <= k < n ==> r.value[k].received >= 0 && r.value[k].discrepancy >= 0
  {
    hide NormalizedUnits;
    if n > 0 {
      RequestedAreNonNegative(context, transfer, lines, n - 1);
      ItemNonNegative(context, transfer, lines[n - 1]);
    }
  }

  lemma ItemNonNegative(context: Context, transfer: Transfer, line: ReceiveLine)
    ensures var r := NormalizeItem(context, transfer, line);
            r.Ok? ==> r.value.received >= 0 && r.value.discrepancy >= 0
  {
    hide NormalizedUnits;
    if line.line < |transfer.lines| && transfer.lines[line.line].product in context.products {
      var policy := context.products[transfer.lines[line.line].product].policy;
      UnitsNotNegative(line.received, policy, false);
      UnitsNotNegative(line.discrepancy, policy, false);
    }
  }

  lemma RequestedAreNormalized(state: State, context: Context, request: ReceiveRequest)
    requires RequestedItems(state, context, request).Ok?
    ensures ItemLinesDistinct(request.lines) && request.lines != []
    ensures var transfer := state.transfers[request.transfer];
            NormalizeItems(context, transfer, request.lines, |request.lines|) == RequestedItems(state, context, request)
  {
    hide NormalizeItem;
  }

  /** What the checks before the transaction establish. */
  lemma RequestedFacts(state: State, context: Context, request: ReceiveRequest)
    requires RequestedItems(state, context, request).Ok?
    ensures var items := RequestedItems(state, context, request).value;
            && items != [] && |items| == |request.lines|
            && (forall j, k :: 0 <= j < k < |items| ==> items[j].line != items[k].line)
            && (forall k :: 0 <= k < |items| ==> items[k].received >= 0 && items[k].discrepancy >= 0)
  {
    hide RequestedItems;
    RequestedAreNormalized(state, context, request);
    RequestedAreNonNegative(context, state.transfers[request.transfer], request.lines, |request.lines|);
  }

  lemma ItemErrorMeans(transfer: Transfer, item: Item)
    ensures ItemError(transfer, item).None? <==>
              item.line < |transfer.lines| && 0 < item.received + item.discrepancy <= PendingOf(transfer.lines[item.line])
  {
  }

  lemma NoErrorFits(transfer: Transfer, items: seq<Item>)
    requires FirstError(transfer, items, |items|).None?
    requires forall k :: 0 <= k < |items| ==> items[k].received >= 0 && items[k].discrepancy >= 0
    requires forall j, k :: 0 <= j < k < |items| ==> items[j].line != items[k].line
    ensures ItemsFit(transfer.lines, items)
  {
    hide FirstError, ItemError;
    forall k | 0 <= k < |items| ensures ItemError(transfer, items[k]).None? {
    }
    forall k | 0 <= k < |items| {
      ItemErrorMeans(transfer, items[k]);
    }
  }

  lemma AcceptedItemsFit(state: State, context: Context, request: ReceiveRequest)
    requires RequestedItems(state, context, request).Ok?
    requires var items := RequestedItems(state, context, request).value;
             FirstError(state.transfers[request.transfer], items, |items|).None?
    ensures ItemsFit(state.transfers[request.transfer].lines, RequestedItems(state, context, request).value)
    ensures RequestedItems(state, context, request).value != []
  {
    hide RequestedItems, FirstError, ItemsFit;
    RequestedFacts(state, context, request);
    NoErrorFits(state.transfers[request.transfer], RequestedItems(state, context, request).value);
  }

  /** What a receipt that is not a replay changes. */
  ghost predicate ReceiveEffect(state: State, after: State, t: nat, items: seq<Item>)
    requires t < |state.transfers|
  {
    && (state.transfers[t].status == Dispatched || state.transfers[t].status == PartiallyReceived)
    && ItemsFit(state.transfers[t].lines, items) && items != []
    && |after.transfers| == |state.transfers| && after.transfers == state.transfers[t := after.transfers[t]]
    && after.transfers[t] == state.transfers[t].(status := after.transfers[t].status, lines := after.transfers[t].lines)
    && (after.transfers[t].status == Received <==> Complete(after.transfers[t].lines))
    && (after.transfers[t].status != Received ==> after.transfers[t].status == PartiallyReceived)
    && LinesProgressed(state.transfers[t].lines, after.transfers[t].lines, items)
    && AllSettled(state.stock.rows, after.stock.rows, state.transfers[t].lines, items)
    && |after.receipts| == |state.receipts| + 1 && after.receipts[..|state.receipts|] == state.receipts
    && after.receipts[|state.receipts|].transfer == t && after.receipts[|state.receipts|].lines == ReceiptLines(items)
  }

  lemma {:induction false} ReceiptTotals(items: seq<Item>, i: nat)
    ensures Total(ReceiptLines(items), ReceivedOn(i)) == Total(items, GoodOn(i))
    ensures Total(ReceiptLines(items), MissingOn(i)) == Total(items, LostOn(i))
  {
    TotalSame(ReceiptLines(items), ReceivedOn(i), items, GoodOn(i));
    TotalSame(ReceiptLines(items), MissingOn(i), items, LostOn(i));
  }

  lemma ReceiptAccounts(state: State, after: State, t: nat, items: seq<Item>)
    requires ReceiptsAccount(state) && t < |state.transfers| && ReceiveEffect(state, after, t, items)
    ensures ReceiptsAccount(after)
  {
    hide AllSettled, ItemsFit;
    var added := after.receipts[|state.receipts|];
    assert after.receipts == state.receipts + [added];
    forall u, i | 0 <= u < |after.transfers| && 0 <= i < |after.transfers[u].lines| ensures LineAccounted(after, u, i) {
      assert LineAccounted(state, u, i);
      TotalAppend(state.receipts, added, ReceivedBy(u, i));
      TotalAppend(state.receipts, added, MissingBy(u, i));
      ReceiptTotals(items, i);
    }
  }

  lemma ReceivedDocuments(state: State, after: State, t: nat, items: seq<Item>)
    requires Documented(state) && t < |state.transfers| && ReceiveEffect(state, after, t, items)
    requires LinesSound(after.transfers[t].lines)
    requires FindReceipt(state.receipts, after.receipts[|state.receipts|].key, |state.receipts|).None?
    requires |Log(state.stock)| <= |Log(after.stock)| && Log(after.stock)[..|Log(state.stock)|] == Log(state.stock)
    requires OnlyLines(Log(after.stock)[|Log(state.stock)|..], t) && LinesNamed(Log(after.stock), t, after.transfers[t].lines)
    ensures Documented(after)
  {
    ReceiptAccounts(state, after, t, items);
    assert MovementsNamed(Log(after.stock), after.transfers) by {
      forall i | 0 <= i < |after.transfers[t].lines| ensures after.transfers[t].lines[i].product == state.transfers[t].lines[i].product {
        assert SameRoute(state.transfers[t].lines[i], after.transfers[t].lines[i]);
      }
      NamedAppend(Log(state.stock), Log(after.stock), state.transfers, t, after.transfers[t]);
    }
    hide MovementsNamed, ReceiptsAccount, AllSettled, LinesProgressed, ItemsFit;
    assert KeysDistinct(after) by {
      assert forall k :: 0 <= k < |state.receipts| ==> after.receipts[k] == after.receipts[..|state.receipts|][k] == state.receipts[k];
    }
  }

  /** An accepted receipt keeps every projection in agreement, brings each named line forward by what
      it says, settles the balances and takes exactly the discrepancies out of stock; asked again
      under the same key, it changes nothing. */
  lemma ReceiveKeeps(state: State, tracking: Tracking, context: Context, request: ReceiveRequest)
    requires StateSound(state, tracking)
    ensures Booked(state.stock)
    ensures var r := Receive(state, tracking, context, request);
            r.Ok? ==> && StateSound(r.value.state, tracking) && request.transfer < |state.transfers|
                      && if r.value.reply.replay then r.value.state == state
                         else RequestedItems(state, context, request).Ok?
                              && ReceiveEffect(state, r.value.state, request.transfer, RequestedItems(state, context, request).value)
  {
    hide Agrees, Documented, ReceiveItems, NormalizeItems, ItemsFit, AllSettled, LinesProgressed;
    StockBooked(state.stock, tracking);
    var r := Receive(state, tracking, context, request);
    if r.Ok? && !r.value.reply.replay {
      ReceiveFresh(state, tracking, context, request);
    }
  }

  lemma ReceiveFresh(state: State, tracking: Tracking, context: Context, request: ReceiveRequest)
    requires StateSound(state, tracking) && Booked(state.stock)
    requires var r := Receive(state, tracking, context, request);
             r.Ok? && !r.value.reply.replay
    ensures var r := Receive(state, tracking, context, request);
            && StateSound(r.value.state, tracking) && request.transfer < |state.transfers|
            && RequestedItems(state, context, request).Ok?
            && ReceiveEffect(state, r.value.state, request.transfer, RequestedItems(state, context, request).value)
  {
    hide Agrees, Documented, ReceiveItems, NormalizeItems, ItemsFit, AllSettled, LinesProgressed, LinesSound, LinesNamed, OnlyLines;
    var after := Receive(state, tracking, context, request).value.state;
    var t, items := request.transfer, RequestedItems(state, context, request).value;
    var transfer := state.transfers[t];
    DocumentFacts(state, t);
    AcceptedItemsFit(state, context, request);
    assert LinesSound(transfer.lines) by { SoundLines(transfer); }
    ReceiveItemsAgree(Receiving(state.stock, transfer.lines), tracking, context, t, items);
    assert ReceiveEffect(state, after, t, items);
    ReceivedDocuments(state, after, t, items);
  }

  lemma SoundLines(transfer: Transfer)
    requires TransferSound(transfer)
    ensures LinesSound(transfer.lines)
  {
  }
}
