/** The loops of the stock writers, over the transaction's view `tx` of the tables. A loop that fails
    returns an error, and its caller keeps the tables it had. */
module WriterLoops {
  import opened Outcomes
  import opened Sums
  import opened Movements
  import Fifo
  import opened FifoRuns
  import opened FifoValues
  import opened FifoProjection
  import opened Lots
  import opened LotSteps
  import opened LotProjection
  import opened Serials
  import opened SerialInvariants
  import opened SerialProjection
  import opened Balances
  import opened Ledgers
  import opened Stock
  import opened Site
  import opened Transfers
  import opened TransferSteps
  import opened TransferReceiving
  import opened Writers
  import opened WriterAgreement

  // ----- One movement in all ledgers -----

  lemma LotsReady(ledgers: Ledgers, tracking: Tracking, m: Movement, details: Details)
    requires LedgersAgree(ledgers, tracking) && Trackable(ledgers, tracking, m, details)
    ensures Invariant(ledgers.book) && CostsSound(ledgers.book) && |ledgers.book.movements| == |ledgers.book.figures|
    ensures LotInvariants.LotCore(ledgers.lots, ledgers.book.movements + [m]) && NoEntries(ledgers.lots, |ledgers.book.movements|)
    ensures SignFits(m) && (m.product in tracking.lots ==> SameProductSources(ledgers.lots, ledgers.book.movements + [m], m))
    ensures SerialCore(ledgers.serials, ledgers.book.movements + [m]) && NoEvents(ledgers.serials, |ledgers.book.movements|)
    ensures m.product in tracking.serials ==> PlacesUnits(m, details.serial.destination)
  {
    CoreExtends(ledgers.lots, ledgers.book.movements, m);
    SerialsExtend(ledgers.serials, ledgers.book.movements, m);
  }

  /** Valuation and layers first, then lots, then serials. */
  method RecordInLedgers(ledgers: Ledgers, tracking: Tracking, m: Movement, details: Details) returns (r: Result<Ledgers>)
    requires LedgersAgree(ledgers, tracking) && Trackable(ledgers, tracking, m, details)
    ensures |ledgers.book.movements| == |ledgers.book.figures|
    ensures r == Record(ledgers, tracking, m, details)
  {
    LotsReady(ledgers, tracking, m, details);
    ApplyKeepsCosts(ledgers.book, m, details.cost);
    hide Invariant, CostsSound, LotInvariants.LotCore, SerialCore, SameProductSources, PlacesUnits, LedgersAgree, Trackable, Fifo.Apply,
         ApplyLots, ApplySerials, NoEntries, NoEvents, LotsGrown, SerialsMoved, MovedUnits, SignFits;
    var id := |ledgers.book.movements|;
    var book := ApplyInventoryValuation(ledgers.book, m, details.cost);
    if book.Err? {
      return Err(book.error);
    }
    var movements := book.value.movements;
    var tx := ledgers.(book := book.value);
    CostOfMovement(book.value, id);
    if m.product in tracking.lots {
      var lots := ApplyInventoryLotTracking(tx.lots, movements, id, book.value.figures[id].unitCost, details.lot);
      if lots.Err? {
        return Err(lots.error);
      }
      tx := tx.(lots := lots.value);
    }
    if m.product in tracking.serials {
      var serials := ApplyInventorySerialTracking(tx.serials, movements, id, details.serial);
      if serials.Err? {
        return Err(serials.error);
      }
      tx := tx.(serials := serials.value);
    }
    return Ok(tx);
  }

  // ----- Dispatch -----

  /** The balances the transaction has locked and holds in memory. */
  ghost predicate Locked(balances: map<(Product, Location), Row>, rows: seq<Row>) {
    forall key :: key in balances ==> balances[key] == RowAt(rows, key.0, key.1)
  }

  lemma LockedAfterPut(balances: map<(Product, Location), Row>, rows: seq<Row>, row: Row)
    requires Locked(balances, rows)
    ensures Locked(balances[(row.product, row.location) := row], Put(rows, row))
  {
    forall key | key in balances[(row.product, row.location) := row]
      ensures balances[(row.product, row.location) := row][key] == RowAt(Put(rows, row), key.0, key.1)
    {
      PutIsRead(rows, row, key.0, key.1);
    }
  }

  ghost predicate LockedLines(balances: map<(Product, Location), Row>, lines: seq<Line>) {
    forall k :: 0 <= k < |lines| ==> (lines[k].product, lines[k].source) in balances && (lines[k].product, lines[k].destination) in balances
  }

  /** Makes sure every balance of the dispatch exists and locks it. */
  method LockDispatch(rows: seq<Row>, lines: seq<Line>) returns (ensured: seq<Row>, balances: map<(Product, Location), Row>)
    ensures ensured == EnsureRows(rows, lines)
    ensures Locked(balances, ensured) && LockedLines(balances, lines)
  {
    hide RowAt, Ensure;
    ensured, balances := rows, map[];
    var i := 0;
    assert lines[0..] == lines;
    while i < |lines|
      invariant i <= |lines| && EnsureRows(rows, lines) == EnsureRows(ensured, lines[i..])
      invariant Locked(balances, ensured) && LockedLines(balances, lines[..i])
    {
      assert lines[i..][0] == lines[i] && lines[i..][1..] == lines[i + 1..];
      var line := lines[i];
      ensured, balances := LockOne(ensured, balances, line.product, line.source);
      ensured, balances := LockOne(ensured, balances, line.product, line.destination);
      i := i + 1;
    }
    assert lines[..i] == lines && lines[i..] == [];
  }

  method LockOne(rows: seq<Row>, balances: map<(Product, Location), Row>, product: Product, location: Location)
    returns (ensured: seq<Row>, locked: map<(Product, Location), Row>)
    requires Locked(balances, rows)
    ensures ensured == Ensure(rows, product, location) && Locked(locked, ensured)
    ensures locked.Keys == balances.Keys + {(product, location)}
  {
    var row := RowAt(rows, product, location);
    ensured := Put(rows, row);
    locked := balances[(product, location) := row];
    LockedAfterPut(balances, rows, row);
  }

  lemma Wired(stock: Stock, tracking: Tracking)
    requires Agrees(stock, tracking)
    ensures LedgersAgree(stock.ledgers, tracking) && RowsSound(stock.rows)
  {
  }

  /** One dispatched line: both balances, then the departure, then the arrival. */
  method DispatchOne(stock: Stock, tracking: Tracking, context: Context, t: nat, i: nat, lines: seq<Line>, source: Row, destination: Row)
    returns (r: Result<Stock>)
    requires Agrees(stock, tracking) && Booked(stock) && i < |lines| && LinesNamed(Log(stock), t, lines)
    requires lines[i].quantity >= 0 && lines[i].source != lines[i].destination
    requires source == RowAt(stock.rows, lines[i].product, lines[i].source)
    requires destination == RowAt(stock.rows, lines[i].product, lines[i].destination)
    ensures r == DispatchLine(stock, tracking, context, t, i, lines[i])
    ensures r.Ok? ==> r.value.rows == Put(Put(stock.rows, Left(source, lines[i].quantity)), Arriving(destination, lines[i].quantity))
  {
    var line := lines[i];
    if source.available < line.quantity {
      return Err(InsufficientStock);
    }
    var left, arriving := Left(source, line.quantity), Arriving(destination, line.quantity);
    var rows := Put(Put(stock.rows, left), arriving);
    assert RowAt(Put(stock.rows, left), line.product, line.destination) == destination by {
      PutIsRead(stock.rows, left, line.product, line.destination);
    }
    hide RowAt, Put, Agrees, RowsSound, LedgersAgree, Trackable, Recorded, LinesNamed;
    Wired(stock, tracking);
    var departure, arrival := Departure(context, t, i, line), Arrival(context, t, i, line);
    LineTrackable(stock, tracking, departure, DepartureDetails(context, line), t, i, lines);
    RecordKeepsAgreement(stock.ledgers, tracking, departure, DepartureDetails(context, line));
    var out := RecordInLedgers(stock.ledgers, tracking, departure, DepartureDetails(context, line));
    hide Record;
    if out.Err? {
      return Err(out.error);
    }
    var between := Stock(Put(stock.rows, left), out.value);
    assert LedgersAgree(out.value, tracking) by { RecordedFacts(stock.ledgers, out.value, tracking, departure, DepartureDetails(context, line)); }
    assert LinesNamed(Log(between), t, lines) by { NamedAfterOne(Log(stock), context, t, i, lines); }
    LineTrackable(between, tracking, arrival, ArrivalDetails(context, line), t, i, lines);
    var into := RecordInLedgers(out.value, tracking, arrival, ArrivalDetails(context, line));
    if into.Err? {
      return Err(into.error);
    }
    return Ok(Stock(rows, into.value));
  }

  lemma NamedAfterOne(log: seq<Movement>, context: Context, t: nat, i: nat, lines: seq<Line>)
    requires LinesNamed(log, t, lines) && i < |lines|
    ensures LinesNamed(log + [Departure(context, t, i, lines[i])], t, lines)
  {
  }

  /** The loop of a dispatch over its lines. */
  method DispatchAll(stock: Stock, tracking: Tracking, context: Context, t: nat, lines: seq<Line>) returns (r: Result<Stock>)
    requires Agrees(stock, tracking) && Booked(stock) && LinesNamed(Log(stock), t, lines) && LinesGo(lines)
    ensures r == DispatchLines(stock.(rows := EnsureRows(stock.rows, lines)), tracking, context, t, lines, 0)
  {
    hide Agrees, LinesNamed, RowAt, Put, EnsureRows, DispatchLine;
    var rows, balances := LockDispatch(stock.rows, lines);
    EnsureRowsAgrees(stock, tracking, lines);
    var tx := stock.(rows := rows);
    ghost var start := tx;
    var i := 0;
    while i < |lines|
      invariant i <= |lines| && Agrees(tx, tracking) && Booked(tx) && LinesNamed(Log(tx), t, lines)
      invariant Locked(balances, tx.rows) && LockedLines(balances, lines)
      invariant DispatchLines(start, tracking, context, t, lines, 0) == DispatchLines(tx, tracking, context, t, lines, i)
    {
      var line := lines[i];
      var source, destination := balances[(line.product, line.source)], balances[(line.product, line.destination)];
      var next := DispatchOne(tx, tracking, context, t, i, lines, source, destination);
      if next.Err? {
        return Err(next.error);
      }
      DispatchLineAgrees(tx, tracking, context, t, i, lines);
      NamedAfterDispatch(Log(tx), context, t, i, lines);
      var left, arriving := Left(source, line.quantity), Arriving(destination, line.quantity);
      assert source.product == line.product && source.location == line.source && destination.product == line.product
             && destination.location == line.destination;
      LockedAfterPut(balances, tx.rows, left);
      balances := balances[(line.product, line.source) := left];
      LockedAfterPut(balances, Put(tx.rows, left), arriving);
      balances := balances[(line.product, line.destination) := arriving];
      tx := next.value;
      i := i + 1;
    }
    return Ok(tx);
  }

  // ----- Receive -----

  /** What ReceiveItem does first: the good part becomes available. */
  function GoodPart(stock: Stock, tracking: Tracking, context: Context, t: nat, item: Item, line: Line, available: Row): (r: Result<Stock>)
    requires Booked(stock)
    ensures r.Ok? ==> Booked(r.value)
  {
    if item.received > 0 then
      Post(stock, tracking, available, ReceiptMovement(context, t, item, line),
           Unguided(context, line.product, SerialOptions(Some(item.receivedSerials), None)))
    else Ok(stock.(rows := Put(stock.rows, available)))
  }

  /** Records the good part of an item. */
  method RecordGood(stock: Stock, tracking: Tracking, context: Context, t: nat, item: Item, lines: seq<Line>, balance: Row)
    returns (r: Result<Stock>)
    requires Agrees(stock, tracking) && Booked(stock) && item.line < |lines| && LinesNamed(Log(stock), t, lines) && item.received >= 0
    requires balance == RowAt(stock.rows, lines[item.line].product, lines[item.line].destination) && balance.inTransit >= item.received
    ensures r == GoodPart(stock, tracking, context, t, item, lines[item.line], MadeAvailable(balance, item.received))
    ensures r.Ok? ==> Agrees(r.value, tracking) && LinesNamed(Log(r.value), t, lines)
                      && r.value.rows == Put(stock.rows, MadeAvailable(balance, item.received))
  {
    FirstHalfAgrees(stock, tracking, context, t, item, lines);
    hide RowAt, Put, Agrees, RowsSound, LedgersAgree, Trackable, Recorded, LinesNamed, Record;
    var line := lines[item.line];
    var available := MadeAvailable(balance, item.received);
    if item.received == 0 {
      return Ok(stock.(rows := Put(stock.rows, available)));
    }
    Wired(stock, tracking);
    var m := ReceiptMovement(context, t, item, line);
    var details := Unguided(context, line.product, SerialOptions(Some(item.receivedSerials), None));
    LineTrackable(stock, tracking, m, details, t, item.line, lines);
    NamedAfterReceipt(Log(stock), context, t, item, lines);
    var received := RecordInLedgers(stock.ledgers, tracking, m, details);
    if received.Err? {
      return Err(received.error);
    }
    return Ok(Stock(Put(stock.rows, available), received.value));
  }

  /** Records the missing part of an item. */
  method RecordLost(stock: Stock, tracking: Tracking, context: Context, t: nat, item: Item, lines: seq<Line>) returns (r: Result<Ledgers>)
    requires Agrees(stock, tracking) && Booked(stock) && item.line < |lines| && LinesNamed(Log(stock), t, lines) && item.discrepancy > 0
    ensures var line := lines[item.line];
            r == Record(stock.ledgers, tracking, DiscrepancyMovement(context, t, item, line),
                        Unguided(context, line.product, SerialOptions(Some(item.discrepancySerials), None)))
  {
    hide RowAt, Put, Agrees, RowsSound, LedgersAgree, Trackable, Recorded, LinesNamed, Record;
    Wired(stock, tracking);
    var line := lines[item.line];
    var m := DiscrepancyMovement(context, t, item, line);
    var details := Unguided(context, line.product, SerialOptions(Some(item.discrepancySerials), None));
    LineTrackable(stock, tracking, m, details, t, item.line, lines);
    r := RecordInLedgers(stock.ledgers, tracking, m, details);
  }

  lemma SettledIs(rows: seq<Row>, balance: Row, item: Item)
    ensures var available := MadeAvailable(balance, item.received);
            && Put(Put(rows, available), WrittenOff(available, item.discrepancy)) == Put(rows, Settled(balance, item.received, item.discrepancy))
            && WrittenOff(available, item.discrepancy) == Settled(balance, item.received, item.discrepancy)
  {
    PutTwice(rows, MadeAvailable(balance, item.received), Settled(balance, item.received, item.discrepancy));
  }

  /** One received item: the balance, then the receipt, then the discrepancy. */
  method ReceiveOne(stock: Stock, tracking: Tracking, context: Context, t: nat, item: Item, lines: seq<Line>, balance: Row)
    returns (r: Result<Stock>)
    requires Agrees(stock, tracking) && Booked(stock) && item.line < |lines| && LinesNamed(Log(stock), t, lines)
    requires item.received >= 0 && item.discrepancy >= 0
    requires balance == RowAt(stock.rows, lines[item.line].product, lines[item.line].destination)
    ensures r == ReceiveItem(stock, tracking, context, t, item, lines[item.line])
    ensures r.Ok? ==> balance.inTransit >= item.received + item.discrepancy
                      && r.value.rows == Put(stock.rows, Settled(balance, item.received, item.discrepancy))
  {
    hide RowAt, Put, Agrees, LinesNamed, Record;
    if balance.inTransit < item.received + item.discrepancy {
      return Err(InvalidReceipt);
    }
    SettledIs(stock.rows, balance, item);
    var good := RecordGood(stock, tracking, context, t, item, lines, balance);
    if good.Err? {
      return Err(good.error);
    }
    var ledgers := good.value.ledgers;
    if item.discrepancy > 0 {
      var lost := RecordLost(good.value, tracking, context, t, item, lines);
      if lost.Err? {
        return Err(lost.error);
      }
      ledgers := lost.value;
    }
    return Ok(Stock(Put(stock.rows, Settled(balance, item.received, item.discrepancy)), ledgers));
  }

  lemma NamedAfterReceipt(log: seq<Movement>, context: Context, t: nat, item: Item, lines: seq<Line>)
    requires LinesNamed(log, t, lines) && item.line < |lines|
    ensures LinesNamed(log + [ReceiptMovement(context, t, item, lines[item.line])], t, lines)
  {
  }

  /** The balances of the items' destinations, or none if one is missing. */
  method LockReceipt(rows: seq<Row>, transfer: Transfer, items: seq<Item>) returns (r: Option<map<(Product, Location), Row>>)
    requires forall k :: 0 <= k < |items| ==> items[k].line < |transfer.lines|
    ensures r.Some? <==> RowsPresent(rows, transfer, items)
    ensures r.Some? ==> Locked(r.value, rows) && forall k :: 0 <= k < |items| ==>
              (transfer.lines[items[k].line].product, transfer.lines[items[k].line].destination) in r.value
  {
    var balances: map<(Product, Location), Row> := map[];
    var i := 0;
    while i < |items|
      invariant i <= |items| && Locked(balances, rows)
      invariant forall k :: 0 <= k < i ==>
        (transfer.lines[items[k].line].product, transfer.lines[items[k].line].destination) in balances
        && Exists(rows, transfer.lines[items[k].line].product, transfer.lines[items[k].line].destination)
    {
      var line := transfer.lines[items[i].line];
      if !Exists(rows, line.product, line.destination) {
        return None;
      }
      balances := balances[(line.product, line.destination) := RowAt(rows, line.product, line.destination)];
      i := i + 1;
    }
    return Some(balances);
  }

  ghost predicate LockedItems(balances: map<(Product, Location), Row>, lines: seq<Line>, items: seq<Item>) {
    forall k :: 0 <= k < |items| && items[k].line < |lines| ==> (lines[items[k].line].product, lines[items[k].line].destination) in balances
  }

  /** The loop of a receipt over its items. */
  method ReceiveAll(stock: Stock, tracking: Tracking, context: Context, t: nat, lines: seq<Line>, items: seq<Item>,
                    locked: map<(Product, Location), Row>) returns (r: Result<Receiving>)
    requires Agrees(stock, tracking) && Booked(stock) && LinesNamed(Log(stock), t, lines) && ItemsFit(lines, items) && LinesSound(lines)
    requires Locked(locked, stock.rows) && LockedItems(locked, lines, items)
    requires forall k :: 0 <= k < |items| ==> items[k].line < |lines|
    ensures r == ReceiveItems(Receiving(stock, lines), tracking, context, t, items)
  {
    hide Agrees, LinesNamed, RowAt, Put, ReceiveItem, ItemsFit, LinesSound;
    var tx, balances := Receiving(stock, lines), locked;
    var i := 0;
    assert items[0..] == items;
    while i < |items|
      invariant i <= |items| && |tx.lines| == |lines|
      invariant Agrees(tx.stock, tracking) && Booked(tx.stock) && LinesNamed(Log(tx.stock), t, tx.lines)
      invariant ItemsFit(tx.lines, items[i..]) && LinesSound(tx.lines)
      invariant Locked(balances, tx.stock.rows) && LockedItems(balances, tx.lines, items)
      invariant ReceiveItems(Receiving(stock, lines), tracking, context, t, items) == ReceiveItems(tx, tracking, context, t, items[i..])
    {
      assert items[i..][0] == items[i] && items[i..][1..] == items[i + 1..];
      var item := items[i];
      var line := tx.lines[item.line];
      FitsOn(tx.lines, items[i..]);
      var balance := balances[(line.product, line.destination)];
      var next := ReceiveOne(tx.stock, tracking, context, t, item, tx.lines, balance);
      if next.Err? {
        return Err(next.error);
      }
      ReceiveItemAgrees(tx.stock, tracking, context, t, item, tx.lines);
      NamedOn(Log(next.value), t, tx.lines, item);
      assert balance.product == line.product && balance.location == line.destination;
      LockedAfterPut(balances, tx.stock.rows, Settled(balance, item.received, item.discrepancy));
      balances := balances[(line.product, line.destination) := Settled(balance, item.received, item.discrepancy)];
      tx := Receiving(next.value, tx.lines[item.line := Progress(line, item)]);
      i := i + 1;
    }
    return Ok(tx);
  }

  // ----- Imports, counts and kits -----

  /** A write that belongs to no transfer. */
  method PostPlain(stock: Stock, tracking: Tracking, row: Row, m: Movement, details: Details) returns (r: Result<Stock>)
    requires Agrees(stock, tracking) && Booked(stock)
    requires m.kind != SaleVoid && m.kind != SaleReturn && m.kind != TransferIn && m.kind != PurchaseReceipt && m.kind != TransferOut
    requires m.transferLine.None?
    requires m.kind == StateTransition ==> m.state.Some? && InStock(m.state.value.to)
    ensures r == Post(stock, tracking, row, m, details)
  {
    hide Agrees, LedgersAgree, Trackable, Record, Put;
    Wired(stock, tracking);
    PlainTrackable(stock.ledgers, tracking, m, details);
    var recorded := RecordInLedgers(stock.ledgers, tracking, m, details);
    if recorded.Err? {
      return Err(recorded.error);
    }
    return Ok(Stock(Put(stock.rows, row), recorded.value));
  }

  /** One row of a confirmation: the balance as the file gives it, and the movement that explains it. */
  method ConfirmOne(stock: Stock, count: nat, tracking: Tracking, context: Context, warehouse: Warehouse, row: ImportRow) returns (r: Result<Importing>)
    requires Agrees(stock, tracking) && Booked(stock)
    ensures r == ConfirmRow(Importing(stock, count), tracking, context, warehouse, row)
  {
    hide Agrees, Post, RowAt, Ensure, TargetUsable, WithState;
    if row.product.None? || row.location.None? || row.state.None? || row.target.None? {
      return Err(ImportHasErrors);
    }
    var product, location, state, target := row.product.value, row.location.value, row.state.value, row.target.value;
    if !TargetUsable(context, product, location, warehouse) {
      return Err(ImportStale);
    }
    var balance := RowAt(stock.rows, product, location);
    var current := StateOf(balance, state);
    if row.preview != Some(current) {
      return Err(ImportStale);
    }
    var difference := target - current;
    if difference == 0 {
      return Ok(Importing(stock.(rows := Ensure(stock.rows, product, location)), count));
    }
    var after := WithState(balance, state, target).(quantity := balance.quantity + difference);
    var posted := PostPlain(stock, tracking, after, Plain(product, location, Import, difference, context.now, context.currency),
                            Unguided(context, product, SerialOptions(None, None)));
    if posted.Err? {
      return Err(posted.error);
    }
    return Ok(Importing(posted.value, count + 1));
  }

  lemma ConfirmRowAgrees(tx: Importing, tracking: Tracking, context: Context, warehouse: Warehouse, row: ImportRow)
    requires Agrees(tx.stock, tracking) && Booked(tx.stock) && NamesStockState(row)
    ensures var r := ConfirmRow(tx, tracking, context, warehouse, row);
            r.Ok? ==> Agrees(r.value.stock, tracking) && Booked(r.value.stock)
  {
    hide *;
    ConfirmRowWrites(tx, tracking, context, warehouse, row);
    var r := ConfirmRow(tx, tracking, context, warehouse, row);
    if r.Ok? {
      WroteAgrees(tx.stock, r.value.stock, tracking);
    }
  }

  /** The loop of a confirmation over the rows of an import, counting the movements it writes. */
  method ConfirmAll(stock: Stock, tracking: Tracking, context: Context, warehouse: Warehouse, rows: seq<ImportRow>) returns (r: Result<Importing>)
    requires Agrees(stock, tracking) && Booked(stock) && forall k :: 0 <= k < |rows| ==> NamesStockState(rows[k])
    ensures r == ConfirmRows(Importing(stock, 0), tracking, context, warehouse, rows)
  {
    hide Agrees, ConfirmRow;
    var tx: Importing, i := Importing(stock, 0), 0;
    assert rows[0..] == rows;
    while i < |rows|
      invariant i <= |rows| && Agrees(tx.stock, tracking) && Booked(tx.stock)
      invariant ConfirmRows(Importing(stock, 0), tracking, context, warehouse, rows)
                == ConfirmRows(tx, tracking, context, warehouse, rows[i..])
    {
      assert rows[i..][0] == rows[i] && rows[i..][1..] == rows[i + 1..];
      var done := ConfirmOne(tx.stock, tx.count, tracking, context, warehouse, rows[i]);
      if done.Err? {
        return Err(done.error);
      }
      ConfirmRowAgrees(tx, tracking, context, warehouse, rows[i]);
      tx := done.value;
      i := i + 1;
    }
    return Ok(tx);
  }

  /** One counted line: the balance as counted, and the adjustment that explains it. */
  method CloseOne(stock: Stock, tracking: Tracking, context: Context, location: Location, balance: Row, line: CountLine) returns (r: Result<Stock>)
    requires Agrees(stock, tracking) && Booked(stock) && line.counted.Some?
    requires balance == RowAt(stock.rows, line.product, location)
    ensures r == CloseLine(stock, tracking, context, location, balance, line)
    ensures r.Ok? ==> Agrees(r.value, tracking)
                      && (forall p, l :: p != line.product || l != location ==> RowAt(r.value.rows, p, l) == RowAt(stock.rows, p, l))
  {
    hide Agrees, Post, RowAt, NoLines, TransitKept;
    CloseLineWrites(stock, tracking, context, location, line);
    var variance := line.counted.value - balance.available;
    if variance == 0 {
      return Ok(stock);
    }
    r := PostPlain(stock, tracking,
      RowAt(stock.rows, line.product, location).(quantity := balance.quantity + variance, available := line.counted.value),
      Plain(line.product, location, Adjustment, variance, context.now, context.currency),
      Unguided(context, line.product, SerialOptions(None, None)));
  }

  /** The loop of a closing count over its lines, against the balances loaded before it. */
  method CloseAll(stock: Stock, tracking: Tracking, context: Context, location: Location, lines: seq<CountLine>) returns (r: Result<Stock>)
    requires Agrees(stock, tracking) && Booked(stock) && LinesOnce(lines)
    requires forall i :: 0 <= i < |lines| ==> lines[i].counted.Some?
    ensures r == CloseLines(stock, tracking, context, location, stock.rows, lines)
  {
    hide Agrees, CloseLine, RowAt;
    var balances: map<Product, Row> := map[];
    var i := 0;
    while i < |lines|
      invariant i <= |lines| && forall k :: 0 <= k < i ==> lines[k].product in balances
      invariant forall p :: p in balances ==> balances[p] == RowAt(stock.rows, p, location)
    {
      balances := balances[lines[i].product := RowAt(stock.rows, lines[i].product, location)];
      i := i + 1;
    }
    var tx := stock;
    i := 0;
    assert lines[0..] == lines;
    while i < |lines|
      invariant i <= |lines| && Agrees(tx, tracking) && Booked(tx)
      invariant forall k :: i <= k < |lines| ==> RowAt(tx.rows, lines[k].product, location) == RowAt(stock.rows, lines[k].product, location)
      invariant CloseLines(stock, tracking, context, location, stock.rows, lines)
                == CloseLines(tx, tracking, context, location, stock.rows, lines[i..])
    {
      assert lines[i..][0] == lines[i] && lines[i..][1..] == lines[i + 1..];
      var closed := CloseOne(tx, tracking, context, location, balances[lines[i].product], lines[i]);
      if closed.Err? {
        return Err(closed.error);
      }
      tx := closed.value;
      i := i + 1;
    }
    return Ok(tx);
  }

  lemma ComponentStep(changes: seq<Change>, kit: Kit, units: nat, assemble: bool, i: nat)
    requires i < |kit.components|
    ensures var next := changes + [ComponentChange(kit.components[i], units, assemble)];
            && changes + ComponentChanges(kit, units, assemble, i) == next + ComponentChanges(kit, units, assemble, i + 1)
            && (kit.components[i].product <= kit.product ==>
                  changes + KitChanges(kit, units, assemble, i) == next + KitChanges(kit, units, assemble, i + 1))
  {
    hide ComponentChange;
  }

  lemma KitStep(changes: seq<Change>, kit: Kit, units: nat, assemble: bool, i: nat)
    requires i <= |kit.components| && (i < |kit.components| ==> kit.product < kit.components[i].product)
    ensures changes + KitChanges(kit, units, assemble, i)
            == (changes + [Change(kit.product, Signed(units, assemble))]) + ComponentChanges(kit, units, assemble, i)
  {
  }

  lemma NoMore(changes: seq<Change>, kit: Kit, units: nat, assemble: bool)
    ensures changes + ComponentChanges(kit, units, assemble, |kit.components|) == changes
  {
  }

  /** Collects the changes of a kit operation in product order. */
  method CollectChanges(kit: Kit, units: nat, assemble: bool) returns (changes: seq<Change>)
    ensures changes == KitChanges(kit, units, assemble, 0)
  {
    hide ComponentChange, KitChanges, ComponentChanges;
    changes := [];
    var i := 0;
    while i < |kit.components| && kit.components[i].product <= kit.product
      invariant i <= |kit.components| && KitChanges(kit, units, assemble, 0) == changes + KitChanges(kit, units, assemble, i)
    {
      ComponentStep(changes, kit, units, assemble, i);
      changes := changes + [ComponentChange(kit.components[i], units, assemble)];
      i := i + 1;
    }
    KitStep(changes, kit, units, assemble, i);
    changes := changes + [Change(kit.product, Signed(units, assemble))];
    while i < |kit.components|
      invariant i <= |kit.components| && KitChanges(kit, units, assemble, 0) == changes + ComponentChanges(kit, units, assemble, i)
    {
      ComponentStep(changes, kit, units, assemble, i);
      changes := changes + [ComponentChange(kit.components[i], units, assemble)];
      i := i + 1;
    }
    NoMore(changes, kit, units, assemble);
  }

  /** The loop of a kit operation over its products. */
  method ApplyAll(stock: Stock, tracking: Tracking, context: Context, location: Location, changes: seq<Change>) returns (r: Result<Stock>)
    requires Agrees(stock, tracking) && Booked(stock) && Untracked(tracking, changes)
    ensures r == ApplyChanges(stock, context, location, changes)
  {
    hide Agrees, RowAt, Put, Value, NoLines, TransitKept;
    var tx, i := stock, 0;
    assert changes[0..] == changes;
    while i < |changes|
      invariant i <= |changes| && Agrees(tx, tracking) && Booked(tx)
      invariant ApplyChanges(stock, context, location, changes) == ApplyChanges(tx, context, location, changes[i..])
    {
      assert changes[i..][0] == changes[i] && changes[i..][1..] == changes[i + 1..];
      var change := changes[i];
      ApplyChangeWrites(tx, tracking, context, location, change);
      var balance := RowAt(tx.rows, change.product, location);
      if change.change < 0 && balance.available < -change.change {
        return Err(InsufficientStock);
      }
      var m := Plain(change.product, location, Adjustment, change.change, context.now, context.currency);
      var details := Unguided(context, change.product, SerialOptions(None, None));
      Wired(tx, tracking);
      BookReady(tx.ledgers, tracking);
      var book := ApplyInventoryValuation(tx.ledgers.book, m, details.cost);
      assert Value(tx.ledgers, m, details.cost) == if book.Err? then Err(book.error) else Ok(tx.ledgers.(book := book.value)) by {
        ValueIs(tx.ledgers, m, details.cost);
      }
      if book.Err? {
        return Err(book.error);
      }
      tx := Stock(Put(tx.rows, AvailableChanged(balance, change.change)), tx.ledgers.(book := book.value));
      i := i + 1;
    }
    return Ok(tx);
  }

  lemma ValueIs(ledgers: Ledgers, m: Movement, cost: nat)
    requires |ledgers.book.movements| == |ledgers.book.figures|
    ensures var book := Fifo.Apply(ledgers.book, m, cost);
            Value(ledgers, m, cost) == if book.Err? then Err(book.error) else Ok(ledgers.(book := book.value))
  {
  }

  lemma BookReady(ledgers: Ledgers, tracking: Tracking)
    requires LedgersAgree(ledgers, tracking)
    ensures Invariant(ledgers.book)
  {
  }
}
