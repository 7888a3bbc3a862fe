/** Exactly when a line can be dispatched and an item received. */
module TransferExactness {
  import opened Outcomes
  import opened Sums
  import opened Rounding
  import opened Movements
  import Fifo
  import opened FifoRuns
  import opened FifoValues
  import opened FifoTheorems
  import opened FifoExactness
  import opened Lots
  import opened LotInvariants
  import opened LotSteps
  import LotTheorems
  import opened LotTransfers
  import opened Serials
  import opened SerialInvariants
  import opened SerialTheorems
  import opened Balances
  import opened Ledgers
  import opened Stock
  import opened Site
  import opened Transfers

  // ----- One movement through the ledgers -----

  /** What the ledgers satisfy on their own, whatever is compared between them. */
  ghost predicate LedgersSound(ledgers: Ledgers) {
    && |ledgers.book.movements| == |ledgers.book.figures| && Invariant(ledgers.book) && CostsSound(ledgers.book)
    && LotCore(ledgers.lots, ledgers.book.movements) && SerialCore(ledgers.serials, ledgers.book.movements)
  }

  /** A movement is recorded exactly when the valuation and the two trackings of its product accept it. */
  lemma RecordIsExact(ledgers: Ledgers, tracking: Tracking, m: Movement, details: Details)
    requires LedgersSound(ledgers)
    ensures |ledgers.book.movements| == |ledgers.book.figures|
    ensures var log, id := ledgers.book.movements, |ledgers.book.movements|;
            var book := Fifo.Apply(ledgers.book, m, details.cost);
            var r := Record(ledgers, tracking, m, details);
            && (book.Ok? ==> && Invariant(book.value) && CostsSound(book.value)
                             && book.value.movements == log + [m] && id < |book.value.figures| && book.value.figures[id].unitCost >= 0)
            && LotCore(ledgers.lots, log + [m]) && NoEntries(ledgers.lots, id)
            && SerialCore(ledgers.serials, log + [m]) && NoEvents(ledgers.serials, id)
            && (r.Ok? <==>
                  && book.Ok?
                  && (m.product in tracking.lots ==> ApplyLots(ledgers.lots, log + [m], id, book.value.figures[id].unitCost, details.lot).Ok?)
                  && (m.product in tracking.serials ==> ApplySerials(ledgers.serials, log + [m], id, details.serial).Ok?))
            && (r.Ok? ==>
                  && r.value.book == book.value
                  && r.value.lots == (if m.product in tracking.lots
                                      then ApplyLots(ledgers.lots, log + [m], id, book.value.figures[id].unitCost, details.lot).value
                                      else ledgers.lots)
                  && r.value.serials == (if m.product in tracking.serials
                                         then ApplySerials(ledgers.serials, log + [m], id, details.serial).value else ledgers.serials))
  {
    hide Invariant, CostsSound, LotCore, SerialCore, Fifo.Apply, ApplyLots, ApplySerials;
    ApplyKeepsInvariant(ledgers.book, m, details.cost);
    ApplyKeepsCosts(ledgers.book, m, details.cost);
    CoreExtends(ledgers.lots, ledgers.book.movements, m);
    SerialsExtend(ledgers.serials, ledgers.book.movements, m);
    var book := Fifo.Apply(ledgers.book, m, details.cost);
    if book.Ok? {
      CostOfMovement(book.value, |ledgers.book.movements|);
    }
  }

  lemma AgreementParts(ledgers: Ledgers, tracking: Tracking)
    requires LedgersAgree(ledgers, tracking)
    ensures LedgersSound(ledgers)
  {
  }

  // ----- What each ledger asks of a line -----

  /** The value of the product does not fall below zero. */
  ghost predicate ValueCovers(book: Fifo.Book, m: Movement, cost: nat) {
    ValueAfter(book, m, AverageCost(book, m, cost), cost) >= 0
  }

  /** The named units are that many whole units, each once, all of them in the state at the place. */
  ghost predicate UnitsReady(serials: SerialBook, product: Product, quantity: int, numbers: seq<string>, status: SerialStatus, place: Location) {
    && quantity % QUANTITY_SCALE == 0 && quantity >= 0
    && RequestAccepted(numbers, quantity / QUANTITY_SCALE)
    && forall k :: 0 <= k < |numbers| ==> NamedAt(serials, product, numbers[k], {status}, place)
  }

  lemma NegatedUnits(quantity: int)
    requires quantity >= 0
    ensures (-quantity) % QUANTITY_SCALE == 0 <==> quantity % QUANTITY_SCALE == 0
    ensures Abs(-quantity) == quantity
  {
  }

  lemma LotsOutcome(book: LotBook, movements: seq<Movement>, movement: nat, unitCost: int, options: LotOptions)
    requires movement < |movements| && NoEntries(book, movement) && movements[movement].quantity <= 0
    requires movements[movement].kind == TransferOut || movements[movement].kind == TransferDiscrepancy
    ensures ApplyLots(book, movements, movement, unitCost, options)
            == if movements[movement].quantity == 0 then Ok(book) else ConsumeLots(book, movement, movements[movement], options)
  {
    hide ConsumeLots;
  }

  /** The lots a movement takes out without naming one must be there unexpired. */
  lemma LotsTaken(book: LotBook, movements: seq<Movement>, movement: nat, unitCost: int, options: LotOptions)
    requires LotCore(book, movements) && movement < |movements| && NoEntries(book, movement)
    requires movements[movement].quantity <= 0
    requires movements[movement].kind == TransferOut || movements[movement].kind == TransferDiscrepancy
    requires options.preferredLot.None? && options.lotLabel.None?
    ensures ApplyLots(book, movements, movement, unitCost, options).Ok?
            <==> -movements[movement].quantity <= LotTheorems.UnexpiredStock(book, movements[movement], options.today)
  {
    hide *;
    LotTheorems.UnexpiredNonNegative(book, movements, movements[movement], options.today);
    LotsOutcome(book, movements, movement, unitCost, options);
    if movements[movement].quantity < 0 {
      LotTheorems.FirstExpiredFirstOut(book, movements, movement, options);
    }
  }

  // ----- Dispatch -----

  /** What the ledgers ask of a line to be dispatched: its value is covered, unexpired lots hold the
      quantity at the source, and the named units are available there. */
  ghost predicate LineReady(ledgers: Ledgers, tracking: Tracking, context: Context, t: nat, i: nat, line: Line) {
    var departure, details := Departure(context, t, i, line), DepartureDetails(context, line);
    && ValueCovers(ledgers.book, departure, details.cost)
    && (line.product in tracking.lots ==>
          line.quantity <= LotTheorems.UnexpiredStock(ledgers.lots, departure, details.lot.today))
    && (line.product in tracking.serials ==>
          UnitsReady(ledgers.serials, line.product, line.quantity, line.serials, Available, line.source))
  }

  lemma OutShape(serials: SerialBook, context: Context, t: nat, i: nat, line: Line, log: seq<Movement>)
    requires line.quantity >= 0
    ensures var m, options := Departure(context, t, i, line), DepartureDetails(context, line).serial;
            && m.kind == TransferOut && m.product == line.product && m.location == line.source && !Registers(m)
            && Numbers(serials, log + [m], m, options) == line.serials && CustodyOf(m, options.destination).allowed == {Available}
            && (UnitCount(m).Ok? <==> line.quantity % QUANTITY_SCALE == 0)
            && (UnitCount(m).Ok? ==> UnitCount(m).value == line.quantity / QUANTITY_SCALE)
  {
    NegatedUnits(line.quantity);
  }

  lemma ReadyMeans(serials: SerialBook, product: Product, quantity: int, numbers: seq<string>, status: SerialStatus, place: Location)
    ensures UnitsReady(serials, product, quantity, numbers, status, place)
            <==> && quantity % QUANTITY_SCALE == 0 && quantity >= 0
                 && RequestAccepted(numbers, quantity / QUANTITY_SCALE)
                 && forall k :: 0 <= k < |numbers| ==> NamedAt(serials, product, numbers[k], {status}, place)
  {
    hide RequestAccepted, NamedAt;
  }

  lemma DepartureSerials(serials: SerialBook, log: seq<Movement>, context: Context, t: nat, i: nat, line: Line)
    requires var m := Departure(context, t, i, line); SerialCore(serials, log + [m]) && NoEvents(serials, |log|)
    requires line.quantity >= 0
    ensures ApplySerials(serials, log + [Departure(context, t, i, line)], |log|, DepartureDetails(context, line).serial).Ok?
            <==> UnitsReady(serials, line.product, line.quantity, line.serials, Available, line.source)
  {
    hide *;
    var m, options := Departure(context, t, i, line), DepartureDetails(context, line).serial;
    OutShape(serials, context, t, i, line, log);
    ReadyMeans(serials, line.product, line.quantity, line.serials, Available, line.source);
    if UnitCount(m).Ok? {
      AcceptanceByName(serials, log + [m], |log|, options);
    } else {
      Uncounted(serials, log + [m], |log|, options);
    }
  }

  lemma Uncounted(serials: SerialBook, movements: seq<Movement>, movement: nat, options: SerialOptions)
    requires movement < |movements| && NoEvents(serials, movement)
    requires movements[movement].kind != TransferIn && UnitCount(movements[movement]).Err?
    ensures ApplySerials(serials, movements, movement, options).Err?
  {
    hide RequestAccepted, Register, MoveUnits, SelectRows;
  }

  /** The departure of a line is recorded exactly when the stock is there and every ledger is ready. */
  lemma DepartureIsExact(ledgers: Ledgers, tracking: Tracking, context: Context, t: nat, i: nat, line: Line)
    requires LedgersSound(ledgers) && line.quantity >= 0
    requires line.quantity <= Moved(ledgers.book.movements, line.product, line.source)
    ensures |ledgers.book.movements| == |ledgers.book.figures|
    ensures Record(ledgers, tracking, Departure(context, t, i, line), DepartureDetails(context, line)).Ok?
            <==> LineReady(ledgers, tracking, context, t, i, line)
  {
    var m, details := Departure(context, t, i, line), DepartureDetails(context, line);
    RecordIsExact(ledgers, tracking, m, details);
    hide Invariant, CostsSound, LotCore, SerialCore, Record, ApplyLots, ApplySerials, Fifo.Apply, UnitsReady, NoEntries, NoEvents,
         ValueAfter, AverageCost, LotTheorems.UnexpiredStock;
    if line.quantity > 0 {
      ExitIsExact(ledgers.book, m, details.cost);
    } else {
      IdleIsAccepted(ledgers.book, m, details.cost);
    }
    var log := ledgers.book.movements;
    var book := Fifo.Apply(ledgers.book, m, details.cost);
    if book.Ok? {
      LotsTaken(ledgers.lots, log + [m], |log|, book.value.figures[|log|].unitCost, details.lot);
      DepartureSerials(ledgers.serials, log, context, t, i, line);
    }
  }

  lemma LineHalves(context: Context, t: nat, i: nat, line: Line, log: seq<Movement>)
    requires line.quantity > 0 && FreshLine(log, Some(TransferLine(t, i)))
    ensures Pair(log, Departure(context, t, i, line), Arrival(context, t, i, line))
  {
  }

  lemma ArrivalShape(context: Context, t: nat, i: nat, line: Line)
    ensures var out, arrival := Departure(context, t, i, line), Arrival(context, t, i, line);
            && arrival.kind == TransferIn && arrival.quantity == line.quantity && arrival.product == out.product == line.product
            && out.location == line.source && arrival.location == line.destination
            && ArrivalDetails(context, line).cost == DepartureDetails(context, line).cost
  {
  }

  /** The lots of a departed line arrive. */
  lemma LotsArrive(lots: LotBook, left: LotBook, log: seq<Movement>, context: Context, t: nat, i: nat, line: Line, outCost: nat, inCost: int)
    requires LotCore(lots, log) && line.quantity > 0 && line.source != line.destination && FreshLine(log, Some(TransferLine(t, i)))
    requires ApplyLots(lots, log + [Departure(context, t, i, line)], |log|, outCost, DepartureDetails(context, line).lot) == Ok(left)
    ensures ApplyLots(left, log + [Departure(context, t, i, line)] + [Arrival(context, t, i, line)], |log| + 1, inCost,
                      ArrivalDetails(context, line).lot).Ok?
  {
    hide *;
    var out, arrival := Departure(context, t, i, line), Arrival(context, t, i, line);
    ArrivalShape(context, t, i, line);
    LineHalves(context, t, i, line, log);
    DispatchIsLotNeutral(lots, log, out, arrival, outCost, DepartureDetails(context, line).lot, inCost, ArrivalDetails(context, line).lot);
    assert log + [out, arrival] == log + [out] + [arrival];
  }

  lemma SoundParts(ledgers: Ledgers)
    requires LedgersSound(ledgers)
    ensures |ledgers.book.movements| == |ledgers.book.figures| && Invariant(ledgers.book) && CostsSound(ledgers.book)
    ensures LotCore(ledgers.lots, ledgers.book.movements) && SerialCore(ledgers.serials, ledgers.book.movements)
  {
  }

  /** After an accepted departure the arrival is always recorded. */
  lemma ArrivalIsRecorded(ledgers: Ledgers, left: Ledgers, tracking: Tracking, context: Context, t: nat, i: nat, line: Line)
    requires LedgersSound(ledgers) && line.quantity >= 0 && line.source != line.destination
    requires FreshLine(ledgers.book.movements, Some(TransferLine(t, i)))
    requires Record(ledgers, tracking, Departure(context, t, i, line), DepartureDetails(context, line)) == Ok(left)
    ensures |left.book.movements| == |left.book.figures|
    ensures Record(left, tracking, Arrival(context, t, i, line), ArrivalDetails(context, line)).Ok?
  {
    hide *;
    var out, arrival := Departure(context, t, i, line), Arrival(context, t, i, line);
    var log, cost := ledgers.book.movements, DepartureDetails(context, line).cost;
    RecordIsExact(ledgers, tracking, out, DepartureDetails(context, line));
    SoundParts(ledgers);
    ArrivalShape(context, t, i, line);
    if line.quantity > 0 {
      ArrivalFollows(log, left.book, context, t, i, line);
      ArrivalSucceeds(left.book, arrival, |log|, cost);
      if line.product in tracking.lots {
        var arrived := Fifo.Apply(left.book, arrival, cost).value;
        LotsArrive(ledgers.lots, left.lots, log, context, t, i, line, left.book.figures[|log|].unitCost, arrived.figures[|log| + 1].unitCost);
      }
    } else {
      IdleIsAccepted(left.book, arrival, cost);
    }
    ArrivalTracks(left, tracking, arrival, ArrivalDetails(context, line));
  }

  lemma ArrivalFollows(log: seq<Movement>, book: Fifo.Book, context: Context, t: nat, i: nat, line: Line)
    requires FreshLine(log, Some(TransferLine(t, i))) && line.quantity > 0
    requires book.movements == log + [Departure(context, t, i, line)]
    ensures Follows(book, Arrival(context, t, i, line), |log|)
  {
  }

  /** The trackings let an arrival pass when it moves nothing, and the serial tracking always does. */
  lemma ArrivalTracks(left: Ledgers, tracking: Tracking, arrival: Movement, details: Details)
    requires |left.book.movements| == |left.book.figures| && arrival.kind == TransferIn
    requires Fifo.Apply(left.book, arrival, details.cost).Ok?
    requires var book := Fifo.Apply(left.book, arrival, details.cost).value;
             arrival.product in tracking.lots && arrival.quantity != 0 ==>
               ApplyLots(left.lots, book.movements, |left.book.movements|, book.figures[|left.book.movements|].unitCost, details.lot).Ok?
    ensures Record(left, tracking, arrival, details).Ok?
  {
    hide Fifo.Apply;
  }

  /** A line is dispatched exactly when its source has the quantity available and every ledger is ready
      for its departure; nothing can then stop the arrival. */
  lemma DispatchIsExact(stock: Stock, tracking: Tracking, context: Context, t: nat, i: nat, line: Line)
    requires Agrees(stock, tracking) && FreshLine(Log(stock), Some(TransferLine(t, i)))
    requires line.quantity >= 0 && line.source != line.destination
    ensures Booked(stock)
    ensures DispatchLine(stock, tracking, context, t, i, line).Ok?
            <==> line.quantity <= RowAt(stock.rows, line.product, line.source).available
                 && LineReady(stock.ledgers, tracking, context, t, i, line)
  {
    assert LedgersAgree(stock.ledgers, tracking) by { StockLedgers(stock, tracking); }
    AgreementParts(stock.ledgers, tracking);
    assert Booked(stock);
    AvailableIsThere(stock, tracking, line.product, line.source);
    hide Agrees, LedgersAgree, LedgersSound, RowAt, Record, LineReady, FreshLine;
    var out := Record(stock.ledgers, tracking, Departure(context, t, i, line), DepartureDetails(context, line));
    if line.quantity <= RowAt(stock.rows, line.product, line.source).available {
      DepartureIsExact(stock.ledgers, tracking, context, t, i, line);
      if out.Ok? {
        ArrivalIsRecorded(stock.ledgers, out.value, tracking, context, t, i, line);
      }
    }
  }

  lemma StockLedgers(stock: Stock, tracking: Tracking)
    requires Agrees(stock, tracking)
    ensures LedgersAgree(stock.ledgers, tracking)
  {
  }

  lemma AvailableIsThere(stock: Stock, tracking: Tracking, p: Product, l: Location)
    requires Agrees(stock, tracking)
    ensures RowAt(stock.rows, p, l).available <= Moved(Log(stock), p, l)
  {
    AgreementMeans(stock, tracking, p, l);
  }
}
