/** Exactly when a dispatch and a receipt of different products are accepted, read off the tables before
    the call. */
module TransferTables {
  import opened Outcomes
  import opened Sums
  import opened Movements
  import Fifo
  import Rounding
  import opened FifoRuns
  import opened FifoValues
  import opened FifoExactness
  import LotTheorems
  import LotTransfers
  import opened Serials
  import opened SerialTheorems
  import opened Balances
  import opened Ledgers
  import opened Stock
  import opened Site
  import opened Transfers
  import opened TransferSteps
  import opened TransferLifecycle
  import opened TransferReceiving
  import opened TransferTheorems
  import opened TransferExactness
  import opened ReceiptExactness
  import opened TransferAcceptance
  import opened OtherProducts

  lemma SameForTwice(a: Ledgers, b: Ledgers, c: Ledgers, p: Product)
    requires SameFor(a, b, p) && SameFor(b, c, p)
    ensures SameFor(a, c, p)
  {
    SameValueTwice(a.book, b.book, c.book, p);
    SameLotsTwice(a, b, c, p);
    hide SameValue, SameLots, NamedAt;
  }

  lemma SameValueTwice(a: Fifo.Book, b: Fifo.Book, c: Fifo.Book, p: Product)
    requires SameValue(a, b, p) && SameValue(b, c, p)
    ensures SameValue(a, c, p)
  {
    hide Fifo.CurrentValuation;
  }

  lemma SameLotsTwice(a: Ledgers, b: Ledgers, c: Ledgers, p: Product)
    requires SameLots(a.lots, b.lots, p) && SameLots(b.lots, c.lots, p)
    ensures SameLots(a.lots, c.lots, p)
  {
    hide LotTheorems.UnexpiredStock;
  }

  // ----- Dispatch -----

  /** The line is available at its source and every ledger is ready for its departure. */
  ghost predicate LineFits(stock: Stock, tracking: Tracking, context: Context, t: nat, i: nat, line: Line) {
    line.quantity <= RowAt(stock.rows, line.product, line.source).available && LineReady(stock.ledgers, tracking, context, t, i, line)
  }

  lemma LineReadyKept(ledgers: Ledgers, after: Ledgers, tracking: Tracking, context: Context, t: nat, i: nat, line: Line)
    requires SameFor(ledgers, after, line.product)
    ensures LineReady(after, tracking, context, t, i, line) <==> LineReady(ledgers, tracking, context, t, i, line)
  {
    hide Rounding.QuantityValue, Fifo.CurrentValuation, LotTheorems.UnexpiredStock, NamedAt, RequestAccepted;
    var m := Departure(context, t, i, line);
    assert m.product == line.product;
  }

  lemma NamedOnceMore(log: seq<Movement>, t: nat, lines: seq<Line>, m: Movement, i: nat)
    requires LinesNamed(log, t, lines) && i < |lines| && m.transferLine == Some(TransferLine(t, i)) && m.product == lines[i].product
    ensures LinesNamed(log + [m], t, lines)
  {
  }

  lemma LedgersOf(stock: Stock, tracking: Tracking)
    requires Agrees(stock, tracking)
    ensures LedgersAgree(stock.ledgers, tracking) && Booked(stock)
  {
    InvariantOf(stock.ledgers, tracking);
  }

  lemma RecordedAgree(before: Ledgers, after: Ledgers, tracking: Tracking, m: Movement, details: Details)
    requires Recorded(before, after, tracking, m, details)
    ensures LedgersAgree(after, tracking) && after.book.movements == before.book.movements + [m]
  {
  }

  lemma PostRecords(stock: Stock, tracking: Tracking, row: Row, m: Movement, details: Details)
    requires Booked(stock) && Post(stock, tracking, row, m, details).Ok?
    ensures Record(stock.ledgers, tracking, m, details) == Ok(Post(stock, tracking, row, m, details).value.ledgers)
  {
    hide Record;
  }

  /** A dispatched line leaves every other product's ledgers and rows as they are. */
  lemma DispatchKeepsOthers(stock: Stock, tracking: Tracking, context: Context, t: nat, i: nat, lines: seq<Line>, p: Product)
    requires Agrees(stock, tracking) && Booked(stock) && i < |lines| && LinesNamed(Log(stock), t, lines)
    requires lines[i].quantity >= 0 && lines[i].source != lines[i].destination && p != lines[i].product
    requires DispatchLine(stock, tracking, context, t, i, lines[i]).Ok?
    ensures var after := DispatchLine(stock, tracking, context, t, i, lines[i]).value;
            SameFor(stock.ledgers, after.ledgers, p) && forall l :: RowAt(after.rows, p, l) == RowAt(stock.rows, p, l)
  {
    var line := lines[i];
    DispatchLineAgrees(stock, tracking, context, t, i, lines);
    LedgersOf(stock, tracking);
    var out, details := Departure(context, t, i, line), DepartureDetails(context, line);
    var arrival, arriving := Arrival(context, t, i, line), ArrivalDetails(context, line);
    LineTrackable(stock, tracking, out, details, t, i, lines);
    NamedOnceMore(Log(stock), t, lines, out, i);
    hide Agrees, LedgersAgree, Post, Record, SameFor, LinesNamed, Trackable, RowAt, Recorded, Departure, Arrival, DepartureDetails, ArrivalDetails;
    var row := Left(RowAt(stock.rows, line.product, line.source), line.quantity);
    var left := Post(stock, tracking, row, out, details).value;
    PostRecords(stock, tracking, row, out, details);
    OutKind(context, t, i, line);
    RecordKeepsAgreement(stock.ledgers, tracking, out, details);
    RecordedAgree(stock.ledgers, left.ledgers, tracking, out, details);
    RecordKeepsOthers(stock.ledgers, tracking, out, details, p);
    LineTrackable(left, tracking, arrival, arriving, t, i, lines);
    RecordKeepsOthers(left.ledgers, tracking, arrival, arriving, p);
    var arrived := Arriving(RowAt(left.rows, line.product, line.destination), line.quantity);
    PostRecords(left, tracking, arrived, arrival, arriving);
    var after := Post(left, tracking, arrived, arrival, arriving).value;
    SameForTwice(stock.ledgers, left.ledgers, after.ledgers, p);
  }

  lemma OutKind(context: Context, t: nat, i: nat, line: Line)
    ensures var out, arrival := Departure(context, t, i, line), Arrival(context, t, i, line);
            && out.kind == TransferOut && arrival.kind == TransferIn && out.product == arrival.product == line.product
            && out.transferLine == arrival.transferLine == Some(TransferLine(t, i)) && arrival.quantity == line.quantity
  {
  }

  ghost predicate ProductsApart(lines: seq<Line>) {
    forall j, k :: 0 <= j < k < |lines| ==> lines[j].product != lines[k].product
  }

  lemma FitsAfter(stock: Stock, next: Stock, tracking: Tracking, context: Context, t: nat, k: nat, line: Line)
    requires SameFor(stock.ledgers, next.ledgers, line.product)
    requires RowAt(next.rows, line.product, line.source) == RowAt(stock.rows, line.product, line.source)
    ensures LineFits(next, tracking, context, t, k, line) <==> LineFits(stock, tracking, context, t, k, line)
  {
    hide SameFor, RowAt, LineReady;
    LineReadyKept(stock.ledgers, next.ledgers, tracking, context, t, k, line);
  }

  lemma {:induction false} LinesFit(stock: Stock, tracking: Tracking, context: Context, t: nat, lines: seq<Line>, i: nat)
    requires Agrees(stock, tracking) && Booked(stock) && i <= |lines| && LinesNamed(Log(stock), t, lines) && LinesGo(lines)
    requires NotYet(Log(stock), t, i) && ProductsApart(lines)
    ensures DispatchLines(stock, tracking, context, t, lines, i).Ok? <==> forall k :: i <= k < |lines| ==> LineFits(stock, tracking, context, t, k, lines[k])
    decreases |lines| - i
  {
    hide Agrees, DispatchLine, RowAt, LinesNamed, LineReady, SameFor, Balances.StockOf;
    if i < |lines| {
      assert LotTransfers.FreshLine(Log(stock), Some(TransferLine(t, i)));
      DispatchIsExact(stock, tracking, context, t, i, lines[i]);
      DispatchLineAgrees(stock, tracking, context, t, i, lines);
      var next := DispatchLine(stock, tracking, context, t, i, lines[i]);
      if next.Ok? {
        NamedAfterDispatch(Log(stock), context, t, i, lines);
        StillNotYet(Log(stock), context, t, i, lines[i]);
        LinesFit(next.value, tracking, context, t, lines, i + 1);
        forall k | i < k < |lines|
          ensures LineFits(next.value, tracking, context, t, k, lines[k]) <==> LineFits(stock, tracking, context, t, k, lines[k])
        {
          DispatchKeepsOthers(stock, tracking, context, t, i, lines, lines[k].product);
          FitsAfter(stock, next.value, tracking, context, t, k, lines[k]);
        }
      }
    }
  }

  lemma FitsEnsured(stock: Stock, ensured: Stock, tracking: Tracking, context: Context, t: nat, lines: seq<Line>)
    requires ensured.ledgers == stock.ledgers && forall p, l :: RowAt(ensured.rows, p, l) == RowAt(stock.rows, p, l)
    ensures (forall k :: 0 <= k < |lines| ==> LineFits(ensured, tracking, context, t, k, lines[k]))
            <==> forall k :: 0 <= k < |lines| ==> LineFits(stock, tracking, context, t, k, lines[k])
  {
    hide RowAt, LineReady;
    assert forall k :: 0 <= k < |lines| ==>
             (LineFits(ensured, tracking, context, t, k, lines[k]) <==> LineFits(stock, tracking, context, t, k, lines[k]));
  }

  /** A draft of different products is dispatched exactly when its documents are in order, its key is new,
      and every line is available and ready as the tables stand before the call. */
  lemma DispatchOnTables(state: State, tracking: Tracking, context: Context, t: nat, key: Key)
    requires StateSound(state, tracking) && t < |state.transfers| && state.transfers[t].status == Draft
    requires var transfer := state.transfers[t];
             && WarehousePair(context, transfer.origin, transfer.destination) && transfer.lines != [] && LinesUsable(context, transfer)
             && ProductsApart(transfer.lines)
    ensures Booked(state.stock)
    ensures var transfer := state.transfers[t];
            Dispatch(state, tracking, context, t, transfer.origin, key).Ok?
            <==> && DispatchKeyFree(state.transfers, key)
                 && forall i :: 0 <= i < |transfer.lines| ==> LineFits(state.stock, tracking, context, t, i, transfer.lines[i])
  {
    hide Agrees, Documented, DispatchLines, LinesNamed, LinesGo, LinesUsable, RowAt, Balances.StockOf, ProductsApart, LineFits;
    StockBooked(state.stock, tracking);
    var transfer := state.transfers[t];
    DocumentFacts(state, t);
    UsableLinesGo(context, transfer);
    EnsureRowsAgrees(state.stock, tracking, transfer.lines);
    NamedIn(state);
    DraftHasNotMoved(Log(state.stock), state.transfers, t);
    var ensured := state.stock.(rows := EnsureRows(state.stock.rows, transfer.lines));
    LinesFit(ensured, tracking, context, t, transfer.lines, 0);
    FitsEnsured(state.stock, ensured, tracking, context, t, transfer.lines);
  }

  // ----- Receipt -----

  /** The item is in transit at its destination and every ledger is ready for it. */
  ghost predicate ItemFits(stock: Stock, tracking: Tracking, context: Context, t: nat, item: Item, line: Line) {
    && item.received + item.discrepancy <= RowAt(stock.rows, line.product, line.destination).inTransit
    && ItemReady(stock.ledgers, tracking, context, t, item, line)
  }

  lemma ItemReadyKept(ledgers: Ledgers, after: Ledgers, tracking: Tracking, context: Context, t: nat, item: Item, line: Line)
    requires SameFor(ledgers, after, line.product) && SameDrawable(ledgers.book, after.book, line.product)
    ensures ItemReady(after, tracking, context, t, item, line) <==> ItemReady(ledgers, tracking, context, t, item, line)
  {
    hide Rounding.QuantityValue, Fifo.CurrentValuation, LotTheorems.UnexpiredStock, DrawableStock, NamedAt, RequestAccepted, NumbersApart;
    var m := DiscrepancyMovement(context, t, item, line);
    assert m.product == line.product;
  }

  ghost predicate Settles(m: Movement) {
    (m.kind == TransferReceipt && m.quantity == 0) || (m.kind == TransferDiscrepancy && m.quantity < 0)
  }

  lemma SettledRecord(stock: Stock, tracking: Tracking, row: Row, m: Movement, details: Details, p: Product)
    requires Booked(stock) && LedgersAgree(stock.ledgers, tracking) && Trackable(stock.ledgers, tracking, m, details)
    requires Settles(m) && p != m.product && Post(stock, tracking, row, m, details).Ok?
    ensures var after := Post(stock, tracking, row, m, details).value;
            && LedgersAgree(after.ledgers, tracking) && Log(after) == Log(stock) + [m]
            && SameFor(stock.ledgers, after.ledgers, p) && SameDrawable(stock.ledgers.book, after.ledgers.book, p)
  {
    assert Invariant(stock.ledgers.book) && CostsSound(stock.ledgers.book);
    hide LedgersAgree, Record, SameFor, SameDrawable, Trackable, Recorded, Invariant, CostsSound;
    PostRecords(stock, tracking, row, m, details);
    RecordKeepsAgreement(stock.ledgers, tracking, m, details);
    RecordedAgree(stock.ledgers, Post(stock, tracking, row, m, details).value.ledgers, tracking, m, details);
    RecordKeepsOthers(stock.ledgers, tracking, m, details, p);
    LayersOfOthers(stock.ledgers.book, m, details.cost, p);
    RecordApplies(stock.ledgers, tracking, m, details);
  }

  lemma RecordApplies(ledgers: Ledgers, tracking: Tracking, m: Movement, details: Details)
    requires |ledgers.book.movements| == |ledgers.book.figures| && Record(ledgers, tracking, m, details).Ok?
    ensures Fifo.Apply(ledgers.book, m, details.cost) == Ok(Record(ledgers, tracking, m, details).value.book)
  {
    hide Fifo.Apply, ApplySerials;
  }

  lemma SameEverywhere(ledgers: Ledgers, p: Product)
    ensures SameFor(ledgers, ledgers, p) && SameDrawable(ledgers.book, ledgers.book, p)
  {
  }

  lemma SameDrawableTwice(a: Fifo.Book, b: Fifo.Book, c: Fifo.Book, p: Product)
    requires SameDrawable(a, b, p) && SameDrawable(b, c, p)
    ensures SameDrawable(a, c, p)
  {
    hide DrawableStock;
  }

  lemma ItemMovements(context: Context, t: nat, item: Item, line: Line)
    ensures var good, missing := ReceiptMovement(context, t, item, line), DiscrepancyMovement(context, t, item, line);
            && Settles(good) && (item.discrepancy > 0 ==> Settles(missing)) && good.product == missing.product == line.product
            && good.transferLine == missing.transferLine == Some(TransferLine(t, item.line))
            && good.kind == TransferReceipt && missing.kind == TransferDiscrepancy
  {
  }

  /** A received item leaves every other product's ledgers and rows as they are. */
  lemma ReceiveKeepsOthers(stock: Stock, tracking: Tracking, context: Context, t: nat, item: Item, lines: seq<Line>, p: Product)
    requires Agrees(stock, tracking) && Booked(stock) && item.line < |lines| && LinesNamed(Log(stock), t, lines)
    requires item.received >= 0 && item.discrepancy >= 0 && p != lines[item.line].product
    requires ReceiveItem(stock, tracking, context, t, item, lines[item.line]).Ok?
    ensures var after := ReceiveItem(stock, tracking, context, t, item, lines[item.line]).value;
            SameFor(stock.ledgers, after.ledgers, p) && SameDrawable(stock.ledgers.book, after.ledgers.book, p)
  {
    var line := lines[item.line];
    LedgersOf(stock, tracking);
    ItemMovements(context, t, item, line);
    SameEverywhere(stock.ledgers, p);
    hide Agrees, LedgersAgree, Post, SameFor, SameDrawable, LinesNamed, Trackable, RowAt, Put, Settles, ReceiptMovement, DiscrepancyMovement;
    var good, goodDetails := ReceiptMovement(context, t, item, line), Unguided(context, line.product, SerialOptions(Some(item.receivedSerials), None));
    var row := MadeAvailable(RowAt(stock.rows, line.product, line.destination), item.received);
    var first := if item.received > 0 then Post(stock, tracking, row, good, goodDetails) else Ok(stock.(rows := Put(stock.rows, row)));
    if item.received > 0 {
      LineTrackable(stock, tracking, good, goodDetails, t, item.line, lines);
      SettledRecord(stock, tracking, row, good, goodDetails, p);
      NamedOnceMore(Log(stock), t, lines, good, item.line);
    }
    var received := first.value;
    if item.discrepancy > 0 {
      var missing, details := DiscrepancyMovement(context, t, item, line), Unguided(context, line.product, SerialOptions(Some(item.discrepancySerials), None));
      LineTrackable(received, tracking, missing, details, t, item.line, lines);
      SettledRecord(received, tracking, WrittenOff(row, item.discrepancy), missing, details, p);
      var after := Post(received, tracking, WrittenOff(row, item.discrepancy), missing, details).value;
      SameForTwice(stock.ledgers, received.ledgers, after.ledgers, p);
      SameDrawableTwice(stock.ledgers.book, received.ledgers.book, after.ledgers.book, p);
    }
  }

  /** The items are of different products. */
  ghost predicate ItemsApart(lines: seq<Line>, items: seq<Item>)
    requires forall k :: 0 <= k < |items| ==> items[k].line < |lines|
  {
    forall j, k :: 0 <= j < k < |items| ==> lines[items[j].line].product != lines[items[k].line].product
  }

  lemma ItemFitsAfter(stock: Stock, next: Stock, tracking: Tracking, context: Context, t: nat, item: Item, line: Line)
    requires SameFor(stock.ledgers, next.ledgers, line.product) && SameDrawable(stock.ledgers.book, next.ledgers.book, line.product)
    requires RowAt(next.rows, line.product, line.destination) == RowAt(stock.rows, line.product, line.destination)
    ensures ItemFits(next, tracking, context, t, item, line) <==> ItemFits(stock, tracking, context, t, item, line)
  {
    hide SameFor, SameDrawable, RowAt, ItemReady;
    ItemReadyKept(stock.ledgers, next.ledgers, tracking, context, t, item, line);
  }

  lemma SettledElsewhere(before: seq<Row>, after: seq<Row>, line: Line, item: Item, p: Product, l: Location)
    requires ItemSettled(before, after, line, item) && p != line.product
    ensures RowAt(after, p, l) == RowAt(before, p, l)
  {
    hide RowAt, Balances.StockOf;
  }

  lemma ApartOn(lines: seq<Line>, items: seq<Item>)
    requires (forall k :: 0 <= k < |items| ==> items[k].line < |lines|) && ItemsApart(lines, items) && items != []
    ensures var next := lines[items[0].line := Progress(lines[items[0].line], items[0])];
            && (forall k :: 0 <= k < |items[1..]| ==> items[1..][k].line < |next|) && ItemsApart(next, items[1..])
            && (forall k :: 1 <= k < |items| ==> next[items[k].line] == lines[items[k].line])
            && (forall k :: 1 <= k < |items| ==> lines[items[k].line].product != lines[items[0].line].product)
  {
    var next := lines[items[0].line := Progress(lines[items[0].line], items[0])];
    assert forall k :: 1 <= k < |items| ==> lines[items[0].line].product != lines[items[k].line].product;
    forall j, k | 0 <= j < k < |items[1..]|
      ensures next[items[1..][j].line].product != next[items[1..][k].line].product
    {
      assert lines[items[j + 1].line].product != lines[items[k + 1].line].product;
    }
  }

  lemma {:induction false} ItemsFitTables(tx: Receiving, tracking: Tracking, context: Context, t: nat, items: seq<Item>)
    requires Agrees(tx.stock, tracking) && Booked(tx.stock) && LinesNamed(Log(tx.stock), t, tx.lines)
    requires ItemsFit(tx.lines, items) && LinesSound(tx.lines)
    requires (forall k :: 0 <= k < |items| ==> items[k].line < |tx.lines|) && ItemsApart(tx.lines, items)
    ensures ReceiveItems(tx, tracking, context, t, items).Ok?
            <==> forall k :: 0 <= k < |items| ==> ItemFits(tx.stock, tracking, context, t, items[k], tx.lines[items[k].line])
    decreases |items|
  {
    hide Agrees, ReceiveItem, LinesNamed, ItemsFit, LinesSound, RowAt, ItemReady, SameFor, SameDrawable, ItemSettled, ItemsApart;
    if items != [] {
      var item, line := items[0], tx.lines[items[0].line];
      HeadIsSigned(tx.lines, items);
      FitsOn(tx.lines, items);
      ItemIsExact(tx.stock, tracking, context, t, item, line);
      ReceiveItemAgrees(tx.stock, tracking, context, t, item, tx.lines);
      var stock := ReceiveItem(tx.stock, tracking, context, t, item, line);
      if stock.Ok? {
        NamedOn(Log(stock.value), t, tx.lines, item);
        ApartOn(tx.lines, items);
        var next := tx.lines[item.line := Progress(line, item)];
        ItemsFitTables(Receiving(stock.value, next), tracking, context, t, items[1..]);
        forall k | 1 <= k < |items|
          ensures ItemFits(stock.value, tracking, context, t, items[k], next[items[k].line])
                  <==> ItemFits(tx.stock, tracking, context, t, items[k], tx.lines[items[k].line])
        {
          RestFits(tx, stock.value, tracking, context, t, item, items[k]);
        }
        RestOfItems(tx, stock.value, next, tracking, context, t, items);
      }
    }
  }

  lemma RestFits(tx: Receiving, next: Stock, tracking: Tracking, context: Context, t: nat, item: Item, other: Item)
    requires Agrees(tx.stock, tracking) && Booked(tx.stock) && item.line < |tx.lines| && other.line < |tx.lines|
    requires LinesNamed(Log(tx.stock), t, tx.lines) && item.received >= 0 && item.discrepancy >= 0
    requires tx.lines[other.line].product != tx.lines[item.line].product
    requires ReceiveItem(tx.stock, tracking, context, t, item, tx.lines[item.line]) == Ok(next)
    ensures ItemFits(next, tracking, context, t, other, tx.lines[other.line]) <==> ItemFits(tx.stock, tracking, context, t, other, tx.lines[other.line])
  {
    hide Agrees, ReceiveItem, LinesNamed, RowAt, SameFor, SameDrawable, ItemSettled, ItemFits;
    var line := tx.lines[other.line];
    ReceiveItemAgrees(tx.stock, tracking, context, t, item, tx.lines);
    ReceiveKeepsOthers(tx.stock, tracking, context, t, item, tx.lines, line.product);
    SettledElsewhere(tx.stock.rows, next.rows, tx.lines[item.line], item, line.product, line.destination);
    ItemFitsAfter(tx.stock, next, tracking, context, t, other, line);
  }

  lemma RestOfItems(tx: Receiving, stock: Stock, next: seq<Line>, tracking: Tracking, context: Context, t: nat, items: seq<Item>)
    requires items != [] && |next| == |tx.lines| && forall k :: 0 <= k < |items| ==> items[k].line < |tx.lines|
    requires ItemFits(tx.stock, tracking, context, t, items[0], tx.lines[items[0].line])
    requires forall k :: 1 <= k < |items| ==>
               (ItemFits(stock, tracking, context, t, items[k], next[items[k].line])
                <==> ItemFits(tx.stock, tracking, context, t, items[k], tx.lines[items[k].line]))
    ensures (forall k :: 0 <= k < |items[1..]| ==> ItemFits(stock, tracking, context, t, items[1..][k], next[items[1..][k].line]))
            <==> forall k :: 0 <= k < |items| ==> ItemFits(tx.stock, tracking, context, t, items[k], tx.lines[items[k].line])
  {
    hide ItemFits;
    if forall k :: 0 <= k < |items[1..]| ==> ItemFits(stock, tracking, context, t, items[1..][k], next[items[1..][k].line]) {
      forall k | 0 <= k < |items| ensures ItemFits(tx.stock, tracking, context, t, items[k], tx.lines[items[k].line]) {
        if k > 0 {
          assert items[1..][k - 1] == items[k];
        }
      }
    }
  }

  /** A receipt with a new key for a transfer on its way, of pending quantities of different products, is
      accepted exactly when the balance rows exist and every item is in transit and ready as the tables
      stand before the call. */
  lemma ReceiptOnTables(state: State, tracking: Tracking, context: Context, request: ReceiveRequest)
    requires StateSound(state, tracking) && RequestedItems(state, context, request).Ok?
    requires FindReceipt(state.receipts, request.key, |state.receipts|).None?
    requires var transfer, items := state.transfers[request.transfer], RequestedItems(state, context, request).value;
             && transfer.destination == request.destination && OnTheWay(transfer) && FirstError(transfer, items, |items|).None?
             && ItemsApart(transfer.lines, items)
    ensures Booked(state.stock)
    ensures var transfer, items := state.transfers[request.transfer], RequestedItems(state, context, request).value;
            Receive(state, tracking, context, request).Ok?
            <==> && RowsPresent(state.stock.rows, transfer, items)
                 && forall k :: 0 <= k < |items| ==>
                      ItemFits(state.stock, tracking, context, request.transfer, items[k], transfer.lines[items[k].line])
  {
    hide Agrees, Documented, ReceiveItems, NormalizeItem, LinesNamed, LinesSound, ItemsFit, RowsPresent, FirstError, ItemsApart, ItemFits;
    StockBooked(state.stock, tracking);
    DocumentFacts(state, request.transfer);
    AcceptedItemsFit(state, context, request);
    SoundLines(state.transfers[request.transfer]);
    ItemsFitTables(Receiving(state.stock, state.transfers[request.transfer].lines), tracking, context, request.transfer,
                   RequestedItems(state, context, request).value);
  }
}
