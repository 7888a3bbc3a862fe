/** What a receipt does to the units and lines it names, said of the request as the caller wrote it. */
module ReceiptMeaning {
  import opened Outcomes
  import opened Sums
  import opened Rounding
  import opened Text
  import opened Movements
  import opened Quantity
  import Fifo
  import opened Serials
  import opened SerialInvariants
  import opened SerialTheorems
  import opened SerialMeaning
  import opened Balances
  import opened Ledgers
  import opened Stock
  import opened Site
  import opened Transfers
  import opened TransferSteps
  import opened TransferLifecycle
  import opened TransferReceiving
  import opened TransferTheorems
  import opened TransferExactness
  import opened TransferTables

  // ----- Items are what the request says -----

  /** The quantity a string denotes under the product's policy. */
  ghost predicate Denotes(value: string, policy: Policy, units: int) {
    NormalizedUnits(value, policy, false, false) == Ok(units)
  }

  ghost predicate SameNumbers(given: seq<string>, kept: seq<string>) {
    |kept| == |given| && forall k :: 0 <= k < |given| ==> Normalize(kept[k]) == Normalize(given[k])
  }

  /** The item has the line, the two quantities and the two lists of units of the requested line. */
  ghost predicate ItemOf(context: Context, transfer: Transfer, line: ReceiveLine, item: Item) {
    && item.line == line.line < |transfer.lines| && transfer.lines[line.line].product in context.products
    && var policy := context.products[transfer.lines[line.line].product].policy;
       && Denotes(line.received, policy, item.received) && Denotes(line.discrepancy, policy, item.discrepancy)
       && SameNumbers(line.receivedSerials, item.receivedSerials) && SameNumbers(line.discrepancySerials, item.discrepancySerials)
  }

  lemma TrimmedSame(numbers: seq<string>)
    ensures SameNumbers(numbers, Trimmed(numbers))
  {
    forall k | 0 <= k < |numbers| ensures Normalize(Trimmed(numbers)[k]) == Normalize(numbers[k]) {
      TrimFixesTrimmed(Trim(numbers[k]));
    }
  }

  lemma ItemIs(context: Context, transfer: Transfer, line: ReceiveLine)
    ensures NormalizeItem(context, transfer, line).Ok? ==> ItemOf(context, transfer, line, NormalizeItem(context, transfer, line).value)
  {
    TrimmedSame(line.receivedSerials);
    TrimmedSame(line.discrepancySerials);
    hide NormalizedUnits, SameNumbers, Trimmed;
  }

  lemma {:induction false} ItemsOf(context: Context, transfer: Transfer, lines: seq<ReceiveLine>, n: nat)
    requires n <= |lines|
    ensures NormalizeItems(context, transfer, lines, n).Ok? ==>
              var items := NormalizeItems(context, transfer, lines, n).value;
              |items| == n && forall k :: 0 <= k < n ==> ItemOf(context, transfer, lines[k], items[k])
  {
    hide NormalizeItem, ItemOf;
    if n > 0 {
      ItemsOf(context, transfer, lines, n - 1);
      ItemIs(context, transfer, lines[n - 1]);
    }
  }

  /** The line is one of the transfer, and both quantities are ones its product's policy allows. */
  ghost predicate Readable(context: Context, transfer: Transfer, line: ReceiveLine) {
    && line.line < |transfer.lines| && transfer.lines[line.line].product in context.products
    && var policy := context.products[transfer.lines[line.line].product].policy;
       NormalizedUnits(line.received, policy, false, false).Ok? && NormalizedUnits(line.discrepancy, policy, false, false).Ok?
  }

  lemma ItemIsRead(context: Context, transfer: Transfer, line: ReceiveLine)
    ensures NormalizeItem(context, transfer, line).Ok? <==> Readable(context, transfer, line)
  {
    hide NormalizedUnits, Trimmed;
  }

  lemma {:induction false} ItemsAreRead(context: Context, transfer: Transfer, lines: seq<ReceiveLine>, n: nat)
    requires n <= |lines|
    ensures NormalizeItems(context, transfer, lines, n).Ok? <==> forall k :: 0 <= k < n ==> Readable(context, transfer, lines[k])
  {
    hide NormalizeItem, Readable;
    if n > 0 {
      ItemsAreRead(context, transfer, lines, n - 1);
      ItemIsRead(context, transfer, lines[n - 1]);
    }
  }

  /** The quantities of a line that can be read. */
  ghost function Quantities(context: Context, transfer: Transfer, line: ReceiveLine): (int, int)
    requires Readable(context, transfer, line)
  {
    var policy := context.products[transfer.lines[line.line].product].policy;
    (NormalizedUnits(line.received, policy, false, false).value, NormalizedUnits(line.discrepancy, policy, false, false).value)
  }

  lemma RequestedIs(state: State, context: Context, request: ReceiveRequest)
    requires request.transfer < |state.transfers|
    ensures var items := NormalizeItems(context, state.transfers[request.transfer], request.lines, |request.lines|);
            RequestedItems(state, context, request).Ok?
            <==> && (forall j, k :: 0 <= j < k < |request.lines| ==> request.lines[j].line != request.lines[k].line)
                 && items.Ok? && !(forall k :: 0 <= k < |items.value| ==> items.value[k].received == 0 && items.value[k].discrepancy == 0)
                 && ((exists k :: 0 <= k < |items.value| && items.value[k].discrepancy > 0) ==> request.reason.Some?)
  {
    hide NormalizeItems;
  }

  lemma AllQuantities(context: Context, transfer: Transfer, lines: seq<ReceiveLine>)
    requires NormalizeItems(context, transfer, lines, |lines|).Ok?
    ensures var items := NormalizeItems(context, transfer, lines, |lines|).value;
            && |items| == |lines| && (forall k :: 0 <= k < |lines| ==> Readable(context, transfer, lines[k]))
            && forall k :: 0 <= k < |lines| ==> Quantities(context, transfer, lines[k]) == (items[k].received, items[k].discrepancy)
  {
    ItemsOf(context, transfer, lines, |lines|);
    var items := NormalizeItems(context, transfer, lines, |lines|).value;
    hide NormalizeItems, Readable, ItemOf, Quantities;
    forall k | 0 <= k < |lines|
      ensures Readable(context, transfer, lines[k]) && Quantities(context, transfer, lines[k]) == (items[k].received, items[k].discrepancy)
    {
      ItemQuantities(context, transfer, lines[k], items[k]);
    }
  }

  /** A request can be read exactly when it names different lines of a transfer, each readable, says something
      of at least one of them, and has a reason if it reports anything missing. */
  lemma RequestIsRead(state: State, context: Context, request: ReceiveRequest)
    ensures RequestedItems(state, context, request).Ok?
            <==> && (forall j, k :: 0 <= j < k < |request.lines| ==> request.lines[j].line != request.lines[k].line)
                 && request.transfer < |state.transfers|
                 && (forall k :: 0 <= k < |request.lines| ==> Readable(context, state.transfers[request.transfer], request.lines[k]))
                 && (exists k :: 0 <= k < |request.lines| && Quantities(context, state.transfers[request.transfer], request.lines[k]) != (0, 0))
                 && ((exists k :: 0 <= k < |request.lines| && Quantities(context, state.transfers[request.transfer], request.lines[k]).1 > 0) ==>
                       request.reason.Some?)
  {
    if request.transfer < |state.transfers| {
      var transfer, lines := state.transfers[request.transfer], request.lines;
      RequestedIs(state, context, request);
      ItemsAreRead(context, transfer, lines, |lines|);
      var items := NormalizeItems(context, transfer, lines, |lines|);
      hide RequestedItems, NormalizeItems, Readable, Quantities;
      if items.Ok? {
        AllQuantities(context, transfer, lines);
        ReadOutcome(context, transfer, lines, items.value);
      }
    }
  }

  lemma ReadOutcome(context: Context, transfer: Transfer, lines: seq<ReceiveLine>, items: seq<Item>)
    requires |items| == |lines| && forall k :: 0 <= k < |lines| ==> Readable(context, transfer, lines[k])
    requires forall k :: 0 <= k < |lines| ==> Quantities(context, transfer, lines[k]) == (items[k].received, items[k].discrepancy)
    ensures (forall k :: 0 <= k < |items| ==> items[k].received == 0 && items[k].discrepancy == 0)
            <==> !exists k :: 0 <= k < |lines| && Quantities(context, transfer, lines[k]) != (0, 0)
    ensures (exists k :: 0 <= k < |items| && items[k].discrepancy > 0)
            <==> exists k :: 0 <= k < |lines| && Quantities(context, transfer, lines[k]).1 > 0
  {
    hide Readable, Quantities;
    if k :| 0 <= k < |items| && items[k].discrepancy > 0 {
      assert Quantities(context, transfer, lines[k]).1 > 0;
    }
    if !(forall k :: 0 <= k < |items| ==> items[k].received == 0 && items[k].discrepancy == 0) {
      var k :| 0 <= k < |items| && !(items[k].received == 0 && items[k].discrepancy == 0);
      assert Quantities(context, transfer, lines[k]) != (0, 0);
    }
  }

  lemma ItemQuantities(context: Context, transfer: Transfer, line: ReceiveLine, item: Item)
    requires ItemOf(context, transfer, line, item)
    ensures Readable(context, transfer, line) && Quantities(context, transfer, line) == (item.received, item.discrepancy)
  {
    hide NormalizedUnits, SameNumbers;
  }

  // ----- Units -----

  /** The unit of that number stands in the state at the place. */
  ghost predicate UnitIs(serials: SerialBook, product: Product, number: string, status: SerialStatus, location: Option<Location>) {
    exists i: nat | i < |serials.serials| ::
      && serials.serials[i].product == product && serials.serials[i].normalized == Normalize(number)
      && serials.serials[i].status == status && serials.serials[i].location == location
  }

  ghost predicate AllAre(serials: SerialBook, product: Product, numbers: seq<string>, status: SerialStatus, location: Option<Location>) {
    forall k :: 0 <= k < |numbers| ==> UnitIs(serials, product, numbers[k], status, location)
  }

  /** Only units in transit have moved. */
  ghost predicate TransitMoved(before: SerialBook, after: SerialBook) {
    && |after.serials| == |before.serials|
    && forall i: nat | i < |before.serials| ::
         && after.serials[i] == before.serials[i].(status := after.serials[i].status, location := after.serials[i].location)
         && (before.serials[i].status != InTransit ==> after.serials[i] == before.serials[i])
  }

  lemma StillAre(before: SerialBook, after: SerialBook, product: Product, numbers: seq<string>, status: SerialStatus, location: Option<Location>)
    requires TransitMoved(before, after) && AllAre(before, product, numbers, status, location) && status != InTransit
    ensures AllAre(after, product, numbers, status, location)
  {
    hide Normalize;
    forall k | 0 <= k < |numbers| ensures UnitIs(after, product, numbers[k], status, location) {
      assert UnitIs(before, product, numbers[k], status, location);
      var i: nat :| i < |before.serials| && before.serials[i].product == product && before.serials[i].normalized == Normalize(numbers[k])
                    && before.serials[i].status == status && before.serials[i].location == location;
      assert after.serials[i] == before.serials[i];
    }
  }

  lemma MovedTwice(a: SerialBook, b: SerialBook, c: SerialBook)
    requires TransitMoved(a, b) && TransitMoved(b, c)
    ensures TransitMoved(a, c)
  {
  }

  lemma SameTransit(serials: SerialBook)
    ensures TransitMoved(serials, serials)
  {
  }

  ghost predicate FromTransit(kind: Kind) {
    kind == TransferReceipt || kind == TransferDiscrepancy
  }

  lemma LeavesTransit(m: Movement, before: Serial, after: Serial)
    requires MovesUnit(m, None, before, after) && FromTransit(m.kind)
    ensures before.status == InTransit && after == before.(status := after.status, location := after.location)
    ensures if m.kind == TransferReceipt then after.status == Available && after.location == Some(m.location)
            else after.status == Removed && after.location == None
  {
  }

  ghost function StateAfter(m: Movement): SerialStatus {
    if m.kind == TransferReceipt then Available else Removed
  }

  ghost function PlaceAfter(m: Movement): Option<Location> {
    if m.kind == TransferReceipt then Some(m.location) else None
  }

  lemma NotBrought(m: Movement)
    requires FromTransit(m.kind)
    ensures m.kind != TransferIn && !BringsUnits(m) && m.kind != SupplierReturn
  {
  }

  /** A receipt or write-off of named units puts every one of them where its kind says. */
  lemma NamedUnitsMove(serials: SerialBook, movements: seq<Movement>, movement: nat, numbers: seq<string>)
    requires SerialCore(serials, movements) && movement < |movements| && NoEvents(serials, movement) && FromTransit(movements[movement].kind)
    requires ApplySerials(serials, movements, movement, SerialOptions(Some(numbers), None)).Ok?
    ensures var m, after := movements[movement], ApplySerials(serials, movements, movement, SerialOptions(Some(numbers), None)).value;
            TransitMoved(serials, after) && AllAre(after, m.product, numbers, StateAfter(m), PlaceAfter(m))
  {
    var m, options := movements[movement], SerialOptions(Some(numbers), None);
    var after := ApplySerials(serials, movements, movement, options).value;
    assert !ByEvents(m, options) && options.numbers.Some?;
    NotBrought(m);
    hide ApplySerials, SerialCore, NoEvents, Normalize, Concerns, MovesUnit, BringsUnits, ByEvents, FromTransit, StateAfter, PlaceAfter;
    var rows := CustodyTable(serials, movements, movement, options);
    forall i: nat | i < |serials.serials|
      ensures after.serials[i] == serials.serials[i].(status := after.serials[i].status, location := after.serials[i].location)
      ensures serials.serials[i].status != InTransit ==> after.serials[i] == serials.serials[i]
      ensures i in rows ==> after.serials[i].status == StateAfter(m) && after.serials[i].location == PlaceAfter(m)
    {
      if i in rows {
        LeavesTransit(m, serials.serials[i], after.serials[i]);
        AfterTransit(m, serials.serials[i], after.serials[i]);
      }
    }
    forall k | 0 <= k < |numbers| ensures UnitIs(after, m.product, numbers[k], StateAfter(m), PlaceAfter(m)) {
      var i := EveryNumberMoves(serials, movements, movement, options, rows, k);
      ConcernsProduct(serials, movements, m, options, i);
    }
  }

  lemma AfterTransit(m: Movement, before: Serial, after: Serial)
    requires MovesUnit(m, None, before, after) && FromTransit(m.kind)
    ensures after.status == StateAfter(m) && after.location == PlaceAfter(m)
  {
  }

  // ----- Through the ledgers -----

  lemma RecordMoves(ledgers: Ledgers, tracking: Tracking, m: Movement, details: Details, numbers: seq<string>)
    requires LedgersAgree(ledgers, tracking) && FromTransit(m.kind) && details.serial == SerialOptions(Some(numbers), None)
    ensures |ledgers.book.movements| == |ledgers.book.figures|
    ensures var r := Record(ledgers, tracking, m, details);
            r.Ok? ==> && TransitMoved(ledgers.serials, r.value.serials)
                      && (m.product in tracking.serials ==> AllAre(r.value.serials, m.product, numbers, StateAfter(m), PlaceAfter(m)))
  {
    AgreementParts(ledgers, tracking);
    hide LedgersAgree, LedgersSound, Record, ApplySerials, Fifo.Apply, AllAre, TransitMoved, FromTransit, StateAfter, PlaceAfter;
    RecordIsExact(ledgers, tracking, m, details);
    SameTransit(ledgers.serials);
    var log := ledgers.book.movements;
    if Record(ledgers, tracking, m, details).Ok? && m.product in tracking.serials {
      assert (log + [m])[|log|] == m;
      NamedUnitsMove(ledgers.serials, log + [m], |log|, numbers);
    }
  }

  lemma PostMoves(stock: Stock, tracking: Tracking, row: Row, m: Movement, details: Details, numbers: seq<string>)
    requires Booked(stock) && LedgersAgree(stock.ledgers, tracking) && Trackable(stock.ledgers, tracking, m, details)
    requires FromTransit(m.kind) && details.serial == SerialOptions(Some(numbers), None) && Post(stock, tracking, row, m, details).Ok?
    ensures var after := Post(stock, tracking, row, m, details).value;
            && LedgersAgree(after.ledgers, tracking) && Log(after) == Log(stock) + [m]
            && TransitMoved(stock.ledgers.serials, after.ledgers.serials)
            && (m.product in tracking.serials ==> AllAre(after.ledgers.serials, m.product, numbers, StateAfter(m), PlaceAfter(m)))
  {
    hide LedgersAgree, Record, Trackable, Recorded, AllAre, TransitMoved, FromTransit;
    PostRecords(stock, tracking, row, m, details);
    RecordKeepsAgreement(stock.ledgers, tracking, m, details);
    RecordedAgree(stock.ledgers, Post(stock, tracking, row, m, details).value.ledgers, tracking, m, details);
    RecordMoves(stock.ledgers, tracking, m, details, numbers);
  }

  /** The units an item names are where it says. */
  ghost predicate UnitsSettled(serials: SerialBook, item: Item, line: Line) {
    && (item.received > 0 ==> AllAre(serials, line.product, item.receivedSerials, Available, Some(line.destination)))
    && (item.discrepancy > 0 ==> AllAre(serials, line.product, item.discrepancySerials, Removed, None))
  }

  lemma MovementsOfItem(context: Context, t: nat, item: Item, line: Line)
    ensures var good, missing := ReceiptMovement(context, t, item, line), DiscrepancyMovement(context, t, item, line);
            && FromTransit(good.kind) && FromTransit(missing.kind) && good.product == missing.product == line.product
            && StateAfter(good) == Available && PlaceAfter(good) == Some(line.destination)
            && StateAfter(missing) == Removed && PlaceAfter(missing) == None
            && Unguided(context, line.product, SerialOptions(Some(item.receivedSerials), None)).serial == SerialOptions(Some(item.receivedSerials), None)
            && Unguided(context, line.product, SerialOptions(Some(item.discrepancySerials), None)).serial
               == SerialOptions(Some(item.discrepancySerials), None)
  {
  }

  lemma ItemMoves(stock: Stock, tracking: Tracking, context: Context, t: nat, item: Item, lines: seq<Line>)
    requires Agrees(stock, tracking) && Booked(stock) && item.line < |lines| && LinesNamed(Log(stock), t, lines)
    requires item.received >= 0 && item.discrepancy >= 0 && ReceiveItem(stock, tracking, context, t, item, lines[item.line]).Ok?
    ensures var after, line := ReceiveItem(stock, tracking, context, t, item, lines[item.line]).value, lines[item.line];
            && TransitMoved(stock.ledgers.serials, after.ledgers.serials)
            && (line.product in tracking.serials ==> UnitsSettled(after.ledgers.serials, item, line))
  {
    var line := lines[item.line];
    LedgersOf(stock, tracking);
    ItemMovements(context, t, item, line);
    MovementsOfItem(context, t, item, line);
    SameTransit(stock.ledgers.serials);
    hide Agrees, LedgersAgree, Post, LinesNamed, Trackable, RowAt, Put, ReceiptMovement, DiscrepancyMovement, AllAre, TransitMoved, FromTransit,
         StateAfter, PlaceAfter, Unguided;
    var good, goodDetails := ReceiptMovement(context, t, item, line), Unguided(context, line.product, SerialOptions(Some(item.receivedSerials), None));
    var row := MadeAvailable(RowAt(stock.rows, line.product, line.destination), item.received);
    var first := if item.received > 0 then Post(stock, tracking, row, good, goodDetails) else Ok(stock.(rows := Put(stock.rows, row)));
    if item.received > 0 {
      LineTrackable(stock, tracking, good, goodDetails, t, item.line, lines);
      PostMoves(stock, tracking, row, good, goodDetails, item.receivedSerials);
      NamedOnceMore(Log(stock), t, lines, good, item.line);
    }
    var received := first.value;
    if item.discrepancy > 0 {
      var missing, details := DiscrepancyMovement(context, t, item, line), Unguided(context, line.product, SerialOptions(Some(item.discrepancySerials), None));
      LineTrackable(received, tracking, missing, details, t, item.line, lines);
      PostMoves(received, tracking, WrittenOff(row, item.discrepancy), missing, details, item.discrepancySerials);
      var after := Post(received, tracking, WrittenOff(row, item.discrepancy), missing, details).value;
      MovedTwice(stock.ledgers.serials, received.ledgers.serials, after.ledgers.serials);
      if item.received > 0 && line.product in tracking.serials {
        StillAre(received.ledgers.serials, after.ledgers.serials, line.product, item.receivedSerials, Available, Some(line.destination));
      }
    }
  }

  lemma StillSettled(before: SerialBook, after: SerialBook, item: Item, line: Line)
    requires TransitMoved(before, after) && UnitsSettled(before, item, line)
    ensures UnitsSettled(after, item, line)
  {
    hide TransitMoved, AllAre;
    if item.received > 0 {
      StillAre(before, after, line.product, item.receivedSerials, Available, Some(line.destination));
    }
    if item.discrepancy > 0 {
      StillAre(before, after, line.product, item.discrepancySerials, Removed, None);
    }
  }

  lemma {:induction false} ItemsMove(tx: Receiving, tracking: Tracking, context: Context, t: nat, items: seq<Item>)
    requires Agrees(tx.stock, tracking) && Booked(tx.stock) && LinesNamed(Log(tx.stock), t, tx.lines)
    requires ItemsFit(tx.lines, items) && LinesSound(tx.lines)
    ensures forall k :: 0 <= k < |items| ==> items[k].line < |tx.lines|
    ensures var r := ReceiveItems(tx, tracking, context, t, items);
            r.Ok? ==>
              && TransitMoved(tx.stock.ledgers.serials, r.value.stock.ledgers.serials)
              && forall k :: 0 <= k < |items| && tx.lines[items[k].line].product in tracking.serials ==>
                   UnitsSettled(r.value.stock.ledgers.serials, items[k], tx.lines[items[k].line])
    decreases |items|
  {
    assert forall k :: 0 <= k < |items| ==> items[k].line < |tx.lines|;
    hide Agrees, ReceiveItem, LinesNamed, ItemsFit, LinesSound, UnitsSettled, TransitMoved;
    SameTransit(tx.stock.ledgers.serials);
    if items != [] {
      var item, line := items[0], tx.lines[items[0].line];
      HeadSigned(tx.lines, items);
      FitsOn(tx.lines, items);
      var stock := ReceiveItem(tx.stock, tracking, context, t, item, line);
      if stock.Ok? {
        ReceiveItemAgrees(tx.stock, tracking, context, t, item, tx.lines);
        ItemMoves(tx.stock, tracking, context, t, item, tx.lines);
        NamedOn(Log(stock.value), t, tx.lines, item);
        var next := Receiving(stock.value, tx.lines[item.line := Progress(line, item)]);
        ItemsMove(next, tracking, context, t, items[1..]);
        var r := ReceiveItems(next, tracking, context, t, items[1..]);
        if r.Ok? {
          MovedTwice(tx.stock.ledgers.serials, stock.value.ledgers.serials, r.value.stock.ledgers.serials);
          forall k | 0 <= k < |items| && tx.lines[items[k].line].product in tracking.serials
            ensures UnitsSettled(r.value.stock.ledgers.serials, items[k], tx.lines[items[k].line])
          {
            if k == 0 {
              StillSettled(stock.value.ledgers.serials, r.value.stock.ledgers.serials, item, line);
            } else {
              assert items[1..][k - 1] == items[k];
              SettledSame(r.value.stock.ledgers.serials, items[k], next.lines[items[k].line], tx.lines[items[k].line]);
            }
          }
        }
      }
    }
  }

  lemma HeadSigned(lines: seq<Line>, items: seq<Item>)
    requires ItemsFit(lines, items) && items != []
    ensures items[0].received >= 0 && items[0].discrepancy >= 0
  {
  }

  lemma SettledSame(serials: SerialBook, item: Item, line: Line, same: Line)
    requires line.product == same.product && line.destination == same.destination
    ensures UnitsSettled(serials, item, line) <==> UnitsSettled(serials, item, same)
  {
  }

  // ----- The receipt -----

  lemma OnlyTerm<T>(s: seq<T>, f: T -> int, k: nat)
    requires k < |s| && forall j :: 0 <= j < |s| && j != k ==> f(s[j]) == 0
    ensures Total(s, f) == f(s[k])
  {
    var head, tail := s[..k], s[k + 1..];
    assert s == head + [s[k]] + tail;
    TotalConcat(head + [s[k]], tail, f);
    TotalAppend(head, s[k], f);
    TotalZero(head, f);
    TotalZero(tail, f);
  }

  lemma ProgressOfItem(before: seq<Line>, after: seq<Line>, items: seq<Item>, i: nat)
    requires ItemsFit(before, items) && LinesProgressed(before, after, items) && i < |before|
    ensures |after| == |before|
    ensures forall k :: 0 <= k < |items| && items[k].line == i ==>
              after[i] == before[i].(received := before[i].received + items[k].received, discrepancy := before[i].discrepancy + items[k].discrepancy)
    ensures (forall k :: 0 <= k < |items| ==> items[k].line != i) ==> after[i] == before[i]
  {
    forall k | 0 <= k < |items| && items[k].line == i
      ensures Total(items, GoodOn(i)) == items[k].received && Total(items, LostOn(i)) == items[k].discrepancy
    {
      OnlyTerm(items, GoodOn(i), k);
      OnlyTerm(items, LostOn(i), k);
    }
    if forall k :: 0 <= k < |items| ==> items[k].line != i {
      TotalZero(items, GoodOn(i));
      TotalZero(items, LostOn(i));
    }
  }

  lemma SameUnits(serials: SerialBook, product: Product, given: seq<string>, kept: seq<string>, status: SerialStatus, location: Option<Location>)
    requires SameNumbers(given, kept) && AllAre(serials, product, kept, status, location)
    ensures AllAre(serials, product, given, status, location)
  {
    hide Normalize;
    forall k | 0 <= k < |given| ensures UnitIs(serials, product, given[k], status, location) {
      assert UnitIs(serials, product, kept[k], status, location);
    }
  }

  /** The line has moved by what the two strings denote, and the units named are available at its
      destination, or gone. */
  ghost predicate LineDone(context: Context, tracking: Tracking, before: Transfer, after: Transfer, serials: SerialBook, line: ReceiveLine) {
    && line.line < |before.lines| == |after.lines| && before.lines[line.line].product in context.products
    && var was, policy := before.lines[line.line], context.products[before.lines[line.line].product].policy;
       exists received, discrepancy ::
         && Denotes(line.received, policy, received) && Denotes(line.discrepancy, policy, discrepancy)
         && after.lines[line.line] == was.(received := was.received + received, discrepancy := was.discrepancy + discrepancy)
         && (was.product in tracking.serials ==>
               && (received > 0 ==> AllAre(serials, was.product, line.receivedSerials, Available, Some(was.destination)))
               && (discrepancy > 0 ==> AllAre(serials, was.product, line.discrepancySerials, Removed, None)))
  }

  lemma ItemIsDone(context: Context, tracking: Tracking, before: Transfer, after: Transfer, serials: SerialBook, line: ReceiveLine, item: Item)
    requires ItemOf(context, before, line, item) && |after.lines| == |before.lines|
    requires var was := before.lines[item.line];
             after.lines[item.line] == was.(received := was.received + item.received, discrepancy := was.discrepancy + item.discrepancy)
    requires before.lines[item.line].product in tracking.serials ==> UnitsSettled(serials, item, before.lines[item.line])
    ensures LineDone(context, tracking, before, after, serials, line)
  {
    hide NormalizedUnits, SameNumbers, AllAre;
    var was := before.lines[item.line];
    if was.product in tracking.serials {
      if item.received > 0 {
        SameUnits(serials, was.product, line.receivedSerials, item.receivedSerials, Available, Some(was.destination));
      }
      if item.discrepancy > 0 {
        SameUnits(serials, was.product, line.discrepancySerials, item.discrepancySerials, Removed, None);
      }
    }
  }

  lemma RequestedAreItems(state: State, context: Context, request: ReceiveRequest)
    requires RequestedItems(state, context, request).Ok?
    ensures var items := RequestedItems(state, context, request).value;
            |items| == |request.lines| && forall k :: 0 <= k < |items| ==> ItemOf(context, state.transfers[request.transfer], request.lines[k], items[k])
  {
    ItemsOf(context, state.transfers[request.transfer], request.lines, |request.lines|);
    hide NormalizeItems, ItemOf;
  }

  lemma FreshReceipt(state: State, tracking: Tracking, context: Context, request: ReceiveRequest)
    requires Booked(state.stock) && Receive(state, tracking, context, request).Ok? && !Receive(state, tracking, context, request).value.reply.replay
    ensures RequestedItems(state, context, request).Ok?
    ensures var after, transfer := Receive(state, tracking, context, request).value.state, state.transfers[request.transfer];
            var items := RequestedItems(state, context, request).value;
            var received := ReceiveItems(Receiving(state.stock, transfer.lines), tracking, context, request.transfer, items);
            && received.Ok? && after.stock == received.value.stock && FirstError(transfer, items, |items|).None?
            && after.receipts == state.receipts
                 + [Receipt(request.transfer, request.key, ReceiptDigest(request.transfer, ItemMap(items), request.reason), request.reason, ReceiptLines(items))]
  {
    hide RequestedItems, ReceiveItems, FirstError, ItemMap, ReceiptLines;
  }

  lemma ReceiptParts(state: State, tracking: Tracking, context: Context, request: ReceiveRequest)
    requires StateSound(state, tracking) && Booked(state.stock)
    requires Receive(state, tracking, context, request).Ok? && !Receive(state, tracking, context, request).value.reply.replay
    ensures RequestedItems(state, context, request).Ok?
    ensures var after, items := Receive(state, tracking, context, request).value.state, RequestedItems(state, context, request).value;
            && request.transfer < |state.transfers| == |after.transfers|
            && ItemsFit(state.transfers[request.transfer].lines, items)
            && LinesProgressed(state.transfers[request.transfer].lines, after.transfers[request.transfer].lines, items)
            && forall k :: 0 <= k < |items| && state.transfers[request.transfer].lines[items[k].line].product in tracking.serials ==>
                 UnitsSettled(after.stock.ledgers.serials, items[k], state.transfers[request.transfer].lines[items[k].line])
  {
    hide Agrees, Documented, Receive, RequestedItems, ReceiveItems, LinesSound, LinesNamed, LinesProgressed, AllSettled, UnitsSettled, TransitMoved;
    ReceiveKeeps(state, tracking, context, request);
    FreshReceipt(state, tracking, context, request);
    var t, items := request.transfer, RequestedItems(state, context, request).value;
    var transfer := state.transfers[t];
    DocumentFacts(state, t);
    AcceptedItemsFit(state, context, request);
    SoundLines(transfer);
    ItemsMove(Receiving(state.stock, transfer.lines), tracking, context, t, items);
  }

  /** What became of the lines of a transfer. */
  ghost predicate LinesDone(context: Context, tracking: Tracking, before: Transfer, after: Transfer, serials: SerialBook, lines: seq<ReceiveLine>) {
    && |after.lines| == |before.lines|
    && (forall k :: 0 <= k < |lines| ==> LineDone(context, tracking, before, after, serials, lines[k]))
    && (forall i: nat | i < |before.lines| && (forall k :: 0 <= k < |lines| ==> lines[k].line != i) :: after.lines[i] == before.lines[i])
  }

  lemma OneDone(context: Context, tracking: Tracking, before: Transfer, after: Transfer, serials: SerialBook, line: ReceiveLine, items: seq<Item>, k: nat)
    requires ItemsFit(before.lines, items) && LinesProgressed(before.lines, after.lines, items) && k < |items|
    requires ItemOf(context, before, line, items[k])
    requires items[k].line < |before.lines|
    requires before.lines[items[k].line].product in tracking.serials ==> UnitsSettled(serials, items[k], before.lines[items[k].line])
    ensures LineDone(context, tracking, before, after, serials, line)
  {
    hide *;
    ProgressOfItem(before.lines, after.lines, items, items[k].line);
    ItemIsDone(context, tracking, before, after, serials, line, items[k]);
  }

  lemma SameLineNumbers(context: Context, before: Transfer, lines: seq<ReceiveLine>, items: seq<Item>)
    requires |items| == |lines| && forall k :: 0 <= k < |items| ==> ItemOf(context, before, lines[k], items[k])
    ensures forall k :: 0 <= k < |items| ==> items[k].line == lines[k].line < |before.lines|
  {
    hide ItemOf;
    forall k | 0 <= k < |items| ensures items[k].line == lines[k].line < |before.lines| {
      ItemLine(context, before, lines[k], items[k]);
    }
  }

  lemma ItemsDone(context: Context, tracking: Tracking, before: Transfer, after: Transfer, serials: SerialBook, lines: seq<ReceiveLine>, items: seq<Item>)
    requires ItemsFit(before.lines, items) && LinesProgressed(before.lines, after.lines, items)
    requires |items| == |lines| && forall k :: 0 <= k < |items| ==> ItemOf(context, before, lines[k], items[k])
    requires forall k :: 0 <= k < |items| && before.lines[items[k].line].product in tracking.serials ==>
               UnitsSettled(serials, items[k], before.lines[items[k].line])
    ensures LinesDone(context, tracking, before, after, serials, lines)
  {
    assert |after.lines| == |before.lines|;
    SameLineNumbers(context, before, lines, items);
    hide ItemsFit, LinesProgressed, UnitsSettled, LineDone, ItemOf;
    forall k | 0 <= k < |lines| ensures LineDone(context, tracking, before, after, serials, lines[k]) {
      OneDone(context, tracking, before, after, serials, lines[k], items, k);
    }
    forall i: nat | i < |before.lines| && (forall k :: 0 <= k < |lines| ==> lines[k].line != i)
      ensures after.lines[i] == before.lines[i]
    {
      assert forall k :: 0 <= k < |items| ==> items[k].line != i;
      ProgressOfItem(before.lines, after.lines, items, i);
    }
  }

  /** An accepted receipt does to each line what the request says of it, and to no other line anything. */
  lemma ReceiptDoesWhatItSays(state: State, tracking: Tracking, context: Context, request: ReceiveRequest)
    requires StateSound(state, tracking) && Booked(state.stock)
    requires Receive(state, tracking, context, request).Ok? && !Receive(state, tracking, context, request).value.reply.replay
    ensures var after := Receive(state, tracking, context, request).value.state;
            && request.transfer < |state.transfers| == |after.transfers|
            && LinesDone(context, tracking, state.transfers[request.transfer], after.transfers[request.transfer],
                         after.stock.ledgers.serials, request.lines)
  {
    hide *;
    ReceiptParts(state, tracking, context, request);
    RequestedAreItems(state, context, request);
    var after := Receive(state, tracking, context, request).value.state;
    ItemsDone(context, tracking, state.transfers[request.transfer], after.transfers[request.transfer], after.stock.ledgers.serials,
              request.lines, RequestedItems(state, context, request).value);
  }

  lemma ItemLine(context: Context, transfer: Transfer, line: ReceiveLine, item: Item)
    requires ItemOf(context, transfer, line, item)
    ensures item.line == line.line < |transfer.lines|
  {
  }

  // ----- What a receipt books -----

  /** For the good part of an item a change of state from transit to available, for the rest a write-off. */
  ghost function ItemLog(context: Context, t: nat, item: Item, line: Line): seq<Movement> {
    var named := Some(TransferLine(t, item.line));
    (if item.received > 0
     then [Plain(line.product, line.destination, TransferReceipt, 0, context.now, context.currency)
             .(transferLine := named, stateQuantity := item.received, state := Some(StateChange(InTransit, Available)))]
     else [])
    + (if item.discrepancy > 0
       then [Plain(line.product, line.destination, TransferDiscrepancy, -item.discrepancy, context.now, context.currency).(transferLine := named)]
       else [])
  }

  ghost function ItemsLog(context: Context, t: nat, items: seq<Item>, lines: seq<Line>): seq<Movement>
    requires forall k :: 0 <= k < |items| ==> items[k].line < |lines|
  {
    if items == [] then [] else ItemLog(context, t, items[0], lines[items[0].line]) + ItemsLog(context, t, items[1..], lines)
  }

  lemma ItemIsLogged(stock: Stock, tracking: Tracking, context: Context, t: nat, item: Item, line: Line)
    requires Booked(stock) && ReceiveItem(stock, tracking, context, t, item, line).Ok?
    ensures Log(ReceiveItem(stock, tracking, context, t, item, line).value) == Log(stock) + ItemLog(context, t, item, line)
  {
    hide Record, RowAt, Put, Unguided;
  }

  lemma {:induction false} SameRoutesSameLog(context: Context, t: nat, items: seq<Item>, lines: seq<Line>, other: seq<Line>)
    requires |other| == |lines| && forall k :: 0 <= k < |items| ==> items[k].line < |lines|
    requires forall i :: 0 <= i < |lines| ==> other[i].product == lines[i].product && other[i].destination == lines[i].destination
    ensures ItemsLog(context, t, items, other) == ItemsLog(context, t, items, lines)
  {
    if items != [] {
      SameRoutesSameLog(context, t, items[1..], lines, other);
    }
  }

  lemma {:induction false} ItemsAreLogged(tx: Receiving, tracking: Tracking, context: Context, t: nat, items: seq<Item>)
    requires Booked(tx.stock) && forall k :: 0 <= k < |items| ==> items[k].line < |tx.lines|
    ensures var r := ReceiveItems(tx, tracking, context, t, items);
            r.Ok? ==> Log(r.value.stock) == Log(tx.stock) + ItemsLog(context, t, items, tx.lines)
    decreases |items|
  {
    hide ReceiveItem, ItemLog;
    if items != [] {
      var item, line := items[0], tx.lines[items[0].line];
      var stock := ReceiveItem(tx.stock, tracking, context, t, item, line);
      if stock.Ok? {
        ItemIsLogged(tx.stock, tracking, context, t, item, line);
        var next := Receiving(stock.value, tx.lines[item.line := Progress(line, item)]);
        ItemsAreLogged(next, tracking, context, t, items[1..]);
        SameRoutesSameLog(context, t, items[1..], tx.lines, next.lines);
      }
    }
  }

  /** The receipt is for the transfer's destination while it is on its way, and no item is empty or exceeds
      what its line has pending. */
  ghost predicate MayReceive(transfer: Transfer, request: ReceiveRequest, items: seq<Item>) {
    && transfer.destination == request.destination && (transfer.status == Dispatched || transfer.status == PartiallyReceived)
    && forall k :: 0 <= k < |items| ==>
         && items[k].line < |transfer.lines|
         && 0 < items[k].received + items[k].discrepancy
            <= transfer.lines[items[k].line].quantity - transfer.lines[items[k].line].received - transfer.lines[items[k].line].discrepancy
  }

  lemma ErrorsOf(transfer: Transfer, items: seq<Item>)
    ensures FirstError(transfer, items, |items|).None?
            <==> forall k :: 0 <= k < |items| ==>
                   && items[k].line < |transfer.lines|
                   && 0 < items[k].received + items[k].discrepancy
                      <= transfer.lines[items[k].line].quantity - transfer.lines[items[k].line].received - transfer.lines[items[k].line].discrepancy
  {
    hide FirstError;
    forall k | 0 <= k < |items|
      ensures ItemError(transfer, items[k]).None?
              <==> && items[k].line < |transfer.lines|
                   && 0 < items[k].received + items[k].discrepancy
                      <= transfer.lines[items[k].line].quantity - transfer.lines[items[k].line].received - transfer.lines[items[k].line].discrepancy
    {
    }
  }

  lemma NoSuchKey(receipts: seq<Receipt>, key: Key)
    requires forall k :: 0 <= k < |receipts| ==> receipts[k].key != key
    ensures FindReceipt(receipts, key, |receipts|).None?
  {
  }

  lemma FreshOutcome(state: State, tracking: Tracking, context: Context, request: ReceiveRequest)
    requires Booked(state.stock) && RequestedItems(state, context, request).Ok?
    requires FindReceipt(state.receipts, request.key, |state.receipts|).None?
    ensures var transfer, items := state.transfers[request.transfer], RequestedItems(state, context, request).value;
            Receive(state, tracking, context, request).Ok?
            <==> && transfer.destination == request.destination
                 && (transfer.status == Dispatched || transfer.status == PartiallyReceived)
                 && FirstError(transfer, items, |items|).None? && RowsPresent(state.stock.rows, transfer, items)
                 && ReceiveItems(Receiving(state.stock, transfer.lines), tracking, context, request.transfer, items).Ok?
  {
    hide RequestedItems, ReceiveItems, FirstError, ItemMap, ReceiptLines, RowsPresent, FindReceipt, Complete;
  }

  /** A receipt under a new key that can be read is accepted exactly when it may be received, its balances exist
      and its items are received one after the other. */
  lemma ReceiveIsAllowed(state: State, tracking: Tracking, context: Context, request: ReceiveRequest)
    requires Booked(state.stock) && RequestedItems(state, context, request).Ok?
    requires forall k :: 0 <= k < |state.receipts| ==> state.receipts[k].key != request.key
    ensures var transfer, items := state.transfers[request.transfer], RequestedItems(state, context, request).value;
            Receive(state, tracking, context, request).Ok?
            <==> && MayReceive(transfer, request, items) && RowsPresent(state.stock.rows, transfer, items)
                 && ReceiveItems(Receiving(state.stock, transfer.lines), tracking, context, request.transfer, items).Ok?
  {
    hide RequestedItems, ReceiveItems, FirstError, RowsPresent, Receive, FindReceipt;
    NoSuchKey(state.receipts, request.key);
    ErrorsOf(state.transfers[request.transfer], RequestedItems(state, context, request).value);
    FreshOutcome(state, tracking, context, request);
  }

  lemma FreshKey(state: State, tracking: Tracking, context: Context, request: ReceiveRequest)
    requires Booked(state.stock) && Receive(state, tracking, context, request).Ok?
    requires !Receive(state, tracking, context, request).value.reply.replay
    ensures RequestedItems(state, context, request).Ok? && forall k :: 0 <= k < |state.receipts| ==> state.receipts[k].key != request.key
  {
    hide RequestedItems, ReceiveItems, FirstError, ItemMap, ReceiptLines, RowsPresent;
  }

  /** An accepted receipt is allowed, books the parts of its items in order, and is noted with its key, its
      reason and what it received of each line. */
  lemma ReceiptIsBooked(state: State, tracking: Tracking, context: Context, request: ReceiveRequest)
    requires Booked(state.stock)
    requires Receive(state, tracking, context, request).Ok? && !Receive(state, tracking, context, request).value.reply.replay
    ensures RequestedItems(state, context, request).Ok?
    ensures var after, items := Receive(state, tracking, context, request).value.state, RequestedItems(state, context, request).value;
            && Log(after.stock) == Log(state.stock) + ItemsLog(context, request.transfer, items, state.transfers[request.transfer].lines)
            && |after.receipts| == |state.receipts| + 1
            && var receipt := after.receipts[|state.receipts|];
               && after.receipts == state.receipts + [receipt] && receipt.transfer == request.transfer && receipt.key == request.key
               && receipt.reason == request.reason && |receipt.lines| == |items|
               && (forall k :: 0 <= k < |items| ==> receipt.lines[k] == ReceiptLine(items[k].line, items[k].received, items[k].discrepancy))
    ensures var items := RequestedItems(state, context, request).value;
            && MayReceive(state.transfers[request.transfer], request, items)
            && ((exists k :: 0 <= k < |items| && items[k].discrepancy > 0) ==> request.reason.Some?)
  {
    FreshKey(state, tracking, context, request);
    ReceiveIsAllowed(state, tracking, context, request);
    FreshReceipt(state, tracking, context, request);
    RequestedReason(state, context, request);
    hide Receive, RequestedItems, ReceiveItems, ItemsLog, ItemMap, MayReceive, RowsPresent;
    ItemsAreLogged(Receiving(state.stock, state.transfers[request.transfer].lines), tracking, context, request.transfer,
                   RequestedItems(state, context, request).value);
  }

  lemma RequestedReason(state: State, context: Context, request: ReceiveRequest)
    requires RequestedItems(state, context, request).Ok?
    ensures var items := RequestedItems(state, context, request).value;
            (exists k :: 0 <= k < |items| && items[k].discrepancy > 0) ==> request.reason.Some?
  {
    hide NormalizeItems;
  }
}
