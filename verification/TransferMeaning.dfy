/** What creating and dispatching a transfer does, said of the request and of the lines and units it names. */
module TransferMeaning {
  import opened Outcomes
  import opened Sums
  import opened Rounding
  import opened Text
  import opened Movements
  import opened Quantity
  import Fifo
  import opened Serials
  import opened SerialInvariants
  import opened SerialTheorems
  import opened SerialMeaning
  import opened Balances
  import opened Ledgers
  import opened Stock
  import opened Site
  import opened Transfers
  import opened TransferSteps
  import opened TransferLifecycle
  import opened TransferExactness
  import opened TransferTables
  import opened ReceiptMeaning

  // ----- Creation -----

  /** The line has the product, places, quantity and units that are asked for, and nothing has come of it. */
  ghost predicate LineAsked(context: Context, asked: NewLine, line: Line) {
    && asked.product in context.products && context.products[asked.product].active
    && line.product == asked.product && line.source == asked.source && line.destination == asked.destination
    && NormalizedUnits(asked.quantity, context.products[asked.product].policy, false, true) == Ok(line.quantity)
    && SameNumbers(asked.serials, line.serials) && line.received == 0 && line.discrepancy == 0
  }

  lemma LineIsAsked(context: Context, asked: NewLine)
    ensures NormalizeLine(context, asked).Ok? ==> LineAsked(context, asked, NormalizeLine(context, asked).value)
  {
    TrimmedSame(asked.serials);
    hide NormalizedUnits, SameNumbers, Trimmed;
  }

  lemma {:induction false} LinesAreAsked(context: Context, asked: seq<NewLine>, n: nat)
    requires n <= |asked|
    ensures NormalizeLines(context, asked, n).Ok? ==>
              var lines := NormalizeLines(context, asked, n).value;
              |lines| == n && forall k :: 0 <= k < n ==> LineAsked(context, asked[k], lines[k])
  {
    hide NormalizeLine, LineAsked;
    if n > 0 {
      LinesAreAsked(context, asked, n - 1);
      LineIsAsked(context, asked[n - 1]);
    }
  }

  /** The product may hold stock, and both places are open ones of their warehouses. */
  ghost predicate RouteOpen(context: Context, request: CreateRequest, line: NewLine) {
    && line.product in context.products && context.products[line.product].active && !context.products[line.product].hasVariants
    && line.source in context.locations && context.locations[line.source] == Place(request.origin, true)
    && line.destination in context.locations && context.locations[line.destination] == Place(request.destination, true)
  }

  ghost predicate RoutesDiffer(lines: seq<NewLine>) {
    forall j, k :: 0 <= j < k < |lines| ==>
      (lines[j].product, lines[j].source, lines[j].destination) != (lines[k].product, lines[k].source, lines[k].destination)
  }

  /** The transfer written down is a draft of what was asked for. */
  ghost predicate DraftOf(context: Context, request: CreateRequest, transfer: Transfer) {
    && transfer.origin == request.origin && transfer.destination == request.destination && transfer.status == Draft
    && transfer.key == request.key && transfer.dispatchKey == None
    && transfer.digest == CreateDigest(request.origin, request.destination, request.reference, request.reason, transfer.lines)
    && |transfer.lines| == |request.lines| && forall k :: 0 <= k < |request.lines| ==> LineAsked(context, request.lines[k], transfer.lines[k])
  }

  lemma OpenRoutes(context: Context, request: CreateRequest, lines: seq<Line>)
    requires |lines| == |request.lines| && forall k :: 0 <= k < |lines| ==> LineAsked(context, request.lines[k], lines[k])
    ensures TargetsUsable(context, request.origin, request.destination, lines)
            <==> forall k :: 0 <= k < |request.lines| ==> RouteOpen(context, request, request.lines[k])
  {
    hide NormalizedUnits, SameNumbers;
    forall k | 0 <= k < |lines|
      ensures LineTargetUsable(context, request.origin, request.destination, lines[k]) <==> RouteOpen(context, request, request.lines[k])
    {
      assert LineAsked(context, request.lines[k], lines[k]);
    }
  }

  /** The product is in use and the quantity is one its policy allows. */
  ghost predicate Readable(context: Context, asked: NewLine) {
    && asked.product in context.products && context.products[asked.product].active
    && NormalizedUnits(asked.quantity, context.products[asked.product].policy, false, true).Ok?
  }

  lemma LineIsRead(context: Context, asked: NewLine)
    ensures NormalizeLine(context, asked).Ok? <==> Readable(context, asked)
  {
    hide NormalizedUnits;
  }

  lemma {:induction false} LinesAreRead(context: Context, asked: seq<NewLine>, n: nat)
    requires n <= |asked|
    ensures NormalizeLines(context, asked, n).Ok? <==> forall k :: 0 <= k < n ==> Readable(context, asked[k])
  {
    hide NormalizeLine, Readable;
    if n > 0 {
      LinesAreRead(context, asked, n - 1);
      LineIsRead(context, asked[n - 1]);
    }
  }

  /** The two warehouses differ and are in use, the user works in the destination, the lines can be read and go
      over different open routes. */
  ghost predicate MayCreate(context: Context, request: CreateRequest) {
    && request.origin != request.destination && RoutesDiffer(request.lines)
    && request.origin in context.warehouses && request.destination in context.warehouses && request.destination in context.access
    && (forall k :: 0 <= k < |request.lines| ==> Readable(context, request.lines[k]) && RouteOpen(context, request, request.lines[k]))
  }

  lemma CreateIs(state: State, context: Context, request: CreateRequest)
    requires forall k :: 0 <= k < |state.transfers| ==> state.transfers[k].key != request.key
    ensures var r, lines := Create(state, context, request), NormalizeLines(context, request.lines, |request.lines|);
            && (r.Ok? <==>
                  && request.origin != request.destination && LinesDistinct(request.lines) && lines.Ok?
                  && request.origin in context.warehouses && request.destination in context.warehouses && request.destination in context.access
                  && TargetsUsable(context, request.origin, request.destination, lines.value))
            && (r.Ok? ==>
                  var draft := Transfer(request.origin, request.destination, Draft, request.key,
                                        CreateDigest(request.origin, request.destination, request.reference, request.reason, lines.value), None, lines.value);
                  r.value == Done(state.(transfers := state.transfers + [draft]), Reply(|state.transfers|, false)))
  {
    hide NormalizeLines, TargetsUsable, LinesDistinct, FindByKey;
  }

  /** A creation under a new key succeeds exactly when it may, and then writes a draft of what is asked for;
      nothing else changes. */
  lemma CreateDoes(state: State, context: Context, request: CreateRequest)
    requires forall k :: 0 <= k < |state.transfers| ==> state.transfers[k].key != request.key
    ensures var r := Create(state, context, request);
            && (r.Ok? <==> MayCreate(context, request))
            && (r.Ok? ==>
                  && r.value.reply == Reply(|state.transfers|, false) && |r.value.state.transfers| == |state.transfers| + 1
                  && r.value.state == state.(transfers := state.transfers + [r.value.state.transfers[|state.transfers|]])
                  && DraftOf(context, request, r.value.state.transfers[|state.transfers|]))
  {
    CreateIs(state, context, request);
    LinesAreAsked(context, request.lines, |request.lines|);
    LinesAreRead(context, request.lines, |request.lines|);
    var lines := NormalizeLines(context, request.lines, |request.lines|);
    hide Create, NormalizeLines, LineAsked, TargetsUsable, RouteOpen, Readable;
    if lines.Ok? {
      OpenRoutes(context, request, lines.value);
    }
  }

  // ----- Dispatch -----

  /** Only available units have moved. */
  ghost predicate AvailableMoved(before: SerialBook, after: SerialBook) {
    && |after.serials| == |before.serials|
    && forall i: nat | i < |before.serials| ::
         && after.serials[i] == before.serials[i].(status := after.serials[i].status, location := after.serials[i].location)
         && (before.serials[i].status != Available ==> after.serials[i] == before.serials[i])
  }

  lemma StayInTransit(before: SerialBook, after: SerialBook, product: Product, numbers: seq<string>, location: Option<Location>)
    requires AvailableMoved(before, after) && AllAre(before, product, numbers, InTransit, location)
    ensures AllAre(after, product, numbers, InTransit, location)
  {
    hide Normalize;
    forall k | 0 <= k < |numbers| ensures UnitIs(after, product, numbers[k], InTransit, location) {
      assert UnitIs(before, product, numbers[k], InTransit, location);
      var i: nat :| i < |before.serials| && before.serials[i].product == product && before.serials[i].normalized == Normalize(numbers[k])
                    && before.serials[i].status == InTransit && before.serials[i].location == location;
      assert after.serials[i] == before.serials[i];
    }
  }

  lemma AvailableTwice(a: SerialBook, b: SerialBook, c: SerialBook)
    requires AvailableMoved(a, b) && AvailableMoved(b, c)
    ensures AvailableMoved(a, c)
  {
  }

  lemma NoneMoved(serials: SerialBook)
    ensures AvailableMoved(serials, serials)
  {
  }

  lemma LeavesSource(m: Movement, destination: Option<Location>, before: Serial, after: Serial)
    requires MovesUnit(m, destination, before, after) && m.kind == TransferOut
    ensures before.status == Available && after == before.(status := InTransit, location := destination)
  {
  }

  lemma DepartureIsNamed(m: Movement, options: SerialOptions)
    requires m.kind == TransferOut
    ensures !BringsUnits(m) && !ByEvents(m, options)
  {
  }

  /** A departure puts every unit it names in transit to its destination. */
  lemma NamedUnitsLeave(serials: SerialBook, movements: seq<Movement>, movement: nat, numbers: seq<string>, destination: Option<Location>)
    requires SerialCore(serials, movements) && movement < |movements| && NoEvents(serials, movement) && movements[movement].kind == TransferOut
    requires ApplySerials(serials, movements, movement, SerialOptions(Some(numbers), destination)).Ok?
    ensures var after := ApplySerials(serials, movements, movement, SerialOptions(Some(numbers), destination)).value;
            AvailableMoved(serials, after) && AllAre(after, movements[movement].product, numbers, InTransit, destination)
  {
    var m, options := movements[movement], SerialOptions(Some(numbers), destination);
    var after := ApplySerials(serials, movements, movement, options).value;
    DepartureIsNamed(m, options);
    hide ApplySerials, SerialCore, NoEvents, Normalize, Concerns, MovesUnit, BringsUnits, ByEvents;
    var rows := CustodyTable(serials, movements, movement, options);
    forall i: nat | i < |serials.serials|
      ensures after.serials[i] == serials.serials[i].(status := after.serials[i].status, location := after.serials[i].location)
      ensures serials.serials[i].status != Available ==> after.serials[i] == serials.serials[i]
      ensures i in rows ==> after.serials[i].status == InTransit && after.serials[i].location == destination
    {
      if i in rows {
        LeavesSource(m, destination, serials.serials[i], after.serials[i]);
      }
    }
    forall k | 0 <= k < |numbers| ensures UnitIs(after, m.product, numbers[k], InTransit, destination) {
      var i := EveryNumberMoves(serials, movements, movement, options, rows, k);
      ConcernsProduct(serials, movements, m, options, i);
    }
  }

  lemma LeavingRecorded(ledgers: Ledgers, tracking: Tracking, m: Movement, details: Details, numbers: seq<string>, destination: Option<Location>)
    requires LedgersAgree(ledgers, tracking) && m.kind == TransferOut && details.serial == SerialOptions(Some(numbers), destination)
    ensures |ledgers.book.movements| == |ledgers.book.figures|
    ensures var r := Record(ledgers, tracking, m, details);
            r.Ok? ==> && AvailableMoved(ledgers.serials, r.value.serials)
                      && (m.product in tracking.serials ==> AllAre(r.value.serials, m.product, numbers, InTransit, destination))
  {
    AgreementParts(ledgers, tracking);
    hide LedgersAgree, LedgersSound, Record, ApplySerials, Fifo.Apply, AllAre, AvailableMoved;
    RecordIsExact(ledgers, tracking, m, details);
    NoneMoved(ledgers.serials);
    var log := ledgers.book.movements;
    if Record(ledgers, tracking, m, details).Ok? && m.product in tracking.serials {
      assert (log + [m])[|log|] == m;
      NamedUnitsLeave(ledgers.serials, log + [m], |log|, numbers, destination);
    }
  }

  lemma ArrivalMovesNone(ledgers: Ledgers, tracking: Tracking, m: Movement, details: Details)
    requires |ledgers.book.movements| == |ledgers.book.figures| && m.kind == TransferIn && Record(ledgers, tracking, m, details).Ok?
    ensures Record(ledgers, tracking, m, details).value.serials == ledgers.serials
  {
    hide Fifo.Apply;
  }

  lemma DetailsOfLine(context: Context, line: Line)
    ensures DepartureDetails(context, line).serial == SerialOptions(Some(line.serials), Some(line.destination))
  {
  }

  /** A dispatched line puts its units in transit to its destination. */
  lemma LineUnitsLeave(stock: Stock, tracking: Tracking, context: Context, t: nat, i: nat, line: Line)
    requires Agrees(stock, tracking) && Booked(stock) && DispatchLine(stock, tracking, context, t, i, line).Ok?
    ensures var after := DispatchLine(stock, tracking, context, t, i, line).value;
            && AvailableMoved(stock.ledgers.serials, after.ledgers.serials)
            && (line.product in tracking.serials ==> AllAre(after.ledgers.serials, line.product, line.serials, InTransit, Some(line.destination)))
  {
    LedgersOf(stock, tracking);
    OutKind(context, t, i, line);
    DetailsOfLine(context, line);
    hide Agrees, LedgersAgree, Post, Record, RowAt, Departure, Arrival, DepartureDetails, ArrivalDetails, AllAre, AvailableMoved;
    var out, details := Departure(context, t, i, line), DepartureDetails(context, line);
    var row := Left(RowAt(stock.rows, line.product, line.source), line.quantity);
    var left := Post(stock, tracking, row, out, details).value;
    PostRecords(stock, tracking, row, out, details);
    LeavingRecorded(stock.ledgers, tracking, out, details, line.serials, Some(line.destination));
    var arrived := Arriving(RowAt(left.rows, line.product, line.destination), line.quantity);
    PostRecords(left, tracking, arrived, Arrival(context, t, i, line), ArrivalDetails(context, line));
    ArrivalMovesNone(left.ledgers, tracking, Arrival(context, t, i, line), ArrivalDetails(context, line));
  }

  /** What a dispatch books: for each line its departure from the source and its arrival at the destination. */
  ghost function DispatchLog(context: Context, t: nat, lines: seq<Line>, i: nat): seq<Movement>
    requires i <= |lines|
    decreases |lines| - i
  {
    if i == |lines| then []
    else
      var line, named := lines[i], Some(TransferLine(t, i));
      [Plain(line.product, line.source, TransferOut, -line.quantity, context.now, context.currency).(transferLine := named),
       Plain(line.product, line.destination, TransferIn, line.quantity, context.now, context.currency).(transferLine := named)]
      + DispatchLog(context, t, lines, i + 1)
  }

  lemma {:induction false} LinesLeave(stock: Stock, tracking: Tracking, context: Context, t: nat, lines: seq<Line>, i: nat)
    requires Agrees(stock, tracking) && Booked(stock) && i <= |lines| && LinesNamed(Log(stock), t, lines) && LinesGo(lines)
    ensures var r := DispatchLines(stock, tracking, context, t, lines, i);
            r.Ok? ==>
              && AvailableMoved(stock.ledgers.serials, r.value.ledgers.serials)
              && Log(r.value) == Log(stock) + DispatchLog(context, t, lines, i)
              && forall k :: i <= k < |lines| && lines[k].product in tracking.serials ==>
                   AllAre(r.value.ledgers.serials, lines[k].product, lines[k].serials, InTransit, Some(lines[k].destination))
    decreases |lines| - i
  {
    hide Agrees, DispatchLine, RowAt, LinesNamed, Balances.StockOf, AvailableMoved, AllAre;
    NoneMoved(stock.ledgers.serials);
    if i < |lines| {
      var next := DispatchLine(stock, tracking, context, t, i, lines[i]);
      if next.Ok? {
        DispatchLineAgrees(stock, tracking, context, t, i, lines);
        NamedAfterDispatch(Log(stock), context, t, i, lines);
        LineUnitsLeave(stock, tracking, context, t, i, lines[i]);
        LinesLeave(next.value, tracking, context, t, lines, i + 1);
        var r := DispatchLines(next.value, tracking, context, t, lines, i + 1);
        if r.Ok? {
          AvailableTwice(stock.ledgers.serials, next.value.ledgers.serials, r.value.ledgers.serials);
          if lines[i].product in tracking.serials {
            StayInTransit(next.value.ledgers.serials, r.value.ledgers.serials, lines[i].product, lines[i].serials, Some(lines[i].destination));
          }
        }
      }
    }
  }

  lemma FreshDispatch(state: State, tracking: Tracking, context: Context, t: nat, origin: Warehouse, key: Key)
    requires Booked(state.stock) && Dispatch(state, tracking, context, t, origin, key).Ok?
    requires !Dispatch(state, tracking, context, t, origin, key).value.reply.replay
    ensures t < |state.transfers|
    ensures var transfer := state.transfers[t];
            && transfer.origin == origin && transfer.status == Draft && transfer.lines != [] && LinesUsable(context, transfer)
            && WarehousePair(context, transfer.origin, transfer.destination) && DispatchKeyFree(state.transfers, key)
            && var r := DispatchLines(state.stock.(rows := EnsureRows(state.stock.rows, transfer.lines)), tracking, context, t, transfer.lines, 0);
               r.Ok? && Dispatch(state, tracking, context, t, origin, key).value.state.stock == r.value
  {
    hide DispatchLines, EnsureRows, LinesUsable, WarehousePair, DispatchKeyFree;
  }

  /** A new dispatch books a departure and an arrival for each line of the draft, and leaves every unit the
      lines name in transit to its line's destination. */
  lemma DispatchDoes(state: State, tracking: Tracking, context: Context, t: nat, origin: Warehouse, key: Key)
    requires StateSound(state, tracking) && Booked(state.stock) && Dispatch(state, tracking, context, t, origin, key).Ok?
    requires !Dispatch(state, tracking, context, t, origin, key).value.reply.replay
    ensures t < |state.transfers|
    ensures var after, lines := Dispatch(state, tracking, context, t, origin, key).value.state.stock, state.transfers[t].lines;
            && state.transfers[t].origin == origin && state.transfers[t].status == Draft && lines != []
            && (forall k :: 0 <= k < |state.transfers| ==> state.transfers[k].dispatchKey != Some(key))
            && Log(after) == Log(state.stock) + DispatchLog(context, t, lines, 0)
            && forall k :: 0 <= k < |lines| && lines[k].product in tracking.serials ==>
                 AllAre(after.ledgers.serials, lines[k].product, lines[k].serials, InTransit, Some(lines[k].destination))
  {
    hide Agrees, Documented, Dispatch, DispatchLines, EnsureRows, LinesUsable, LinesNamed, LinesGo, DispatchLog, AllAre, AvailableMoved;
    FreshDispatch(state, tracking, context, t, origin, key);
    var transfer := state.transfers[t];
    DocumentFacts(state, t);
    UsableLinesGo(context, transfer);
    EnsureRowsAgrees(state.stock, tracking, transfer.lines);
    LinesLeave(state.stock.(rows := EnsureRows(state.stock.rows, transfer.lines)), tracking, context, t, transfer.lines, 0);
  }

  ghost predicate MayDispatch(state: State, context: Context, t: nat, origin: Warehouse, key: Key) {
    && t < |state.transfers| && state.transfers[t].origin == origin && state.transfers[t].status == Draft && state.transfers[t].lines != []
    && (forall k :: 0 <= k < |state.transfers| ==> state.transfers[k].dispatchKey != Some(key))
    && var transfer := state.transfers[t];
       && transfer.origin != transfer.destination && transfer.origin in context.warehouses && transfer.destination in context.warehouses
       && forall i :: 0 <= i < |transfer.lines| ==>
            var line := transfer.lines[i];
            && line.product in context.products && context.products[line.product].active
            && line.source in context.locations && context.locations[line.source] == Place(transfer.origin, true)
            && line.destination in context.locations && context.locations[line.destination] == Place(transfer.destination, true)
  }

  lemma UsableMeans(context: Context, transfer: Transfer)
    ensures LinesUsable(context, transfer)
            <==> forall i :: 0 <= i < |transfer.lines| ==>
                   var line := transfer.lines[i];
                   && line.product in context.products && context.products[line.product].active
                   && line.source in context.locations && context.locations[line.source] == Place(transfer.origin, true)
                   && line.destination in context.locations && context.locations[line.destination] == Place(transfer.destination, true)
  {
    if LinesUsable(context, transfer) {
      forall i | 0 <= i < |transfer.lines| ensures LineUsable(context, transfer, transfer.lines[i]) {
      }
    }
  }

  /** A draft goes exactly when it may and its lines go one after the other. */
  lemma DispatchIsAllowed(state: State, tracking: Tracking, context: Context, t: nat, origin: Warehouse, key: Key)
    requires Booked(state.stock) && (t < |state.transfers| ==> state.transfers[t].status == Draft)
    ensures Dispatch(state, tracking, context, t, origin, key).Ok?
            <==> && MayDispatch(state, context, t, origin, key)
                 && DispatchLines(state.stock.(rows := EnsureRows(state.stock.rows, state.transfers[t].lines)), tracking, context, t,
                                  state.transfers[t].lines, 0).Ok?
  {
    if t < |state.transfers| {
      UsableMeans(context, state.transfers[t]);
    }
    hide DispatchLines, EnsureRows, LinesUsable;
  }
}
