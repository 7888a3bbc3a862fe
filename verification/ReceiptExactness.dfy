/** Exactly when an item of a transfer can be received. */
module ReceiptExactness {
  import opened Outcomes
  import opened Sums
  import opened Rounding
  import opened Movements
  import Fifo
  import FifoInvariants
  import opened FifoRuns
  import opened FifoValues
  import opened FifoTheorems
  import opened FifoExactness
  import opened Lots
  import opened LotInvariants
  import opened LotSteps
  import LotTheorems
  import opened Serials
  import opened SerialInvariants
  import opened SerialTheorems
  import opened Balances
  import opened Ledgers
  import opened Stock
  import opened Site
  import opened Transfers
  import opened TransferExactness

  function ReceiptDetails(context: Context, item: Item, line: Line): Details {
    Unguided(context, line.product, SerialOptions(Some(item.receivedSerials), None))
  }

  function DiscrepancyDetails(context: Context, item: Item, line: Line): Details {
    Unguided(context, line.product, SerialOptions(Some(item.discrepancySerials), None))
  }

  ghost predicate NumbersApart(a: seq<string>, b: seq<string>) {
    forall j, k :: 0 <= j < |a| && 0 <= k < |b| ==> Normalize(a[j]) != Normalize(b[k])
  }

  /** The quantity written off is still on layers the line brought in, at a value the product has, and
      in unexpired lots. */
  ghost predicate WriteOffReady(ledgers: Ledgers, tracking: Tracking, context: Context, t: nat, item: Item, line: Line) {
    var m, details := DiscrepancyMovement(context, t, item, line), DiscrepancyDetails(context, item, line);
    && item.discrepancy <= DrawableStock(ledgers.book, m) && ValueCovers(ledgers.book, m, details.cost)
    && (line.product in tracking.lots ==> item.discrepancy <= LotTheorems.UnexpiredStock(ledgers.lots, m, details.lot.today))
  }

  /** The named units of an item are in transit at the destination, no unit in both lists. */
  ghost predicate ItemUnitsReady(serials: SerialBook, item: Item, line: Line) {
    && (item.received > 0 ==> UnitsReady(serials, line.product, item.received, item.receivedSerials, InTransit, line.destination))
    && (item.discrepancy > 0 ==>
          UnitsReady(serials, line.product, item.discrepancy, item.discrepancySerials, InTransit, line.destination))
    && (item.received > 0 && item.discrepancy > 0 ==> NumbersApart(item.receivedSerials, item.discrepancySerials))
  }

  ghost predicate ItemReady(ledgers: Ledgers, tracking: Tracking, context: Context, t: nat, item: Item, line: Line) {
    && (item.discrepancy > 0 ==> WriteOffReady(ledgers, tracking, context, t, item, line))
    && (line.product in tracking.serials ==> ItemUnitsReady(ledgers.serials, item, line))
  }

  // ----- The good part -----

  lemma ReceiptSerials(serials: SerialBook, log: seq<Movement>, context: Context, t: nat, item: Item, line: Line)
    requires var m := ReceiptMovement(context, t, item, line); SerialCore(serials, log + [m]) && NoEvents(serials, |log|)
    requires item.received > 0
    ensures var m := ReceiptMovement(context, t, item, line);
            var r := ApplySerials(serials, log + [m], |log|, ReceiptDetails(context, item, line).serial);
            && (r.Ok? <==> UnitsReady(serials, line.product, item.received, item.receivedSerials, InTransit, line.destination))
            && (r.Ok? ==> SerialCore(r.value, log + [m])
                          && exists rows :: UnitsTaken(serials, r.value, line, item.receivedSerials, rows))
  {
    var m, options := ReceiptMovement(context, t, item, line), ReceiptDetails(context, item, line).serial;
    var movements := log + [m];
    assert Numbers(serials, movements, m, options) == item.receivedSerials;
    assert CustodyOf(m, None) == Custody({InTransit}, Available, Some(line.destination));
    assert PlacesUnits(m, options.destination);
    if UnitCount(m).Ok? {
      hide *;
      assert m.kind == TransferReceipt && m.product == line.product && m.location == line.destination && options.destination == None by {
        ReceiptShape(context, t, item, line);
      }
      ReceiptCount(context, t, item, line);
      AcceptanceByName(serials, movements, |log|, options);
      AcceptanceIsExact(serials, movements, |log|, options);
      ApplySerialsMoves(serials, movements, |log|, options);
      ReadyMeans(serials, line.product, item.received, item.receivedSerials, InTransit, line.destination);
      var r := ApplySerials(serials, movements, |log|, options);
      if r.Ok? {
        var rows := SelectRows(serials.serials, line.product, item.receivedSerials, |item.receivedSerials|).value;
        SelectedAreNamed(serials.serials, line.product, item.receivedSerials);
        TakenMeans(serials, r.value, line, item.receivedSerials, rows);
      }
    } else {
      Uncounted(serials, movements, |log|, options);
    }
  }

  lemma ReceiptShape(context: Context, t: nat, item: Item, line: Line)
    ensures var m := ReceiptMovement(context, t, item, line);
            && m.kind == TransferReceipt && m.product == line.product && m.location == line.destination && m.quantity == 0
            && !Registers(m)
    ensures ReceiptDetails(context, item, line).serial.destination == None
  {
  }

  lemma ReceiptCount(context: Context, t: nat, item: Item, line: Line)
    requires item.received > 0
    ensures var m := ReceiptMovement(context, t, item, line);
            && (UnitCount(m).Ok? <==> item.received % QUANTITY_SCALE == 0)
            && (UnitCount(m).Ok? ==> UnitCount(m).value == item.received / QUANTITY_SCALE)
            && !Registers(m)
  {
  }

  /** The units of those numbers, and no other, are now available. */
  ghost predicate UnitsTaken(serials: SerialBook, after: SerialBook, line: Line, numbers: seq<string>, rows: seq<nat>) {
    && |rows| == |numbers|
    && (forall k :: 0 <= k < |rows| ==> rows[k] < |serials.serials| && Named(serials.serials[rows[k]], line.product, numbers[k]))
    && RowsMoved(serials, after, Custody({InTransit}, Available, Some(line.destination)), rows)
  }

  lemma TakenMeans(serials: SerialBook, after: SerialBook, line: Line, numbers: seq<string>, rows: seq<nat>)
    requires |rows| == |numbers|
    requires forall k :: 0 <= k < |rows| ==> rows[k] < |serials.serials| && Named(serials.serials[rows[k]], line.product, numbers[k])
    requires RowsMoved(serials, after, Custody({InTransit}, Available, Some(line.destination)), rows)
    ensures UnitsTaken(serials, after, line, numbers, rows)
  {
  }

  /** The good part is recorded exactly when its units are ready; only they change. */
  lemma ReceiptIsExact(ledgers: Ledgers, tracking: Tracking, context: Context, t: nat, item: Item, line: Line)
    requires LedgersSound(ledgers) && item.received > 0
    ensures |ledgers.book.movements| == |ledgers.book.figures|
    ensures var m := ReceiptMovement(context, t, item, line);
            var r := Record(ledgers, tracking, m, ReceiptDetails(context, item, line));
            && (r.Ok? <==> line.product in tracking.serials ==>
                  UnitsReady(ledgers.serials, line.product, item.received, item.receivedSerials, InTransit, line.destination))
            && (r.Ok? ==> && LedgersSound(r.value) && r.value.lots == ledgers.lots
                          && Idle(ledgers.book, r.value.book, m, ReceiptDetails(context, item, line).cost)
                          && if line.product in tracking.serials
                             then exists rows :: UnitsTaken(ledgers.serials, r.value.serials, line, item.receivedSerials, rows)
                             else r.value.serials == ledgers.serials)
  {
    var m, details := ReceiptMovement(context, t, item, line), ReceiptDetails(context, item, line);
    RecordIsExact(ledgers, tracking, m, details);
    ReceiptShape(context, t, item, line);
    hide Invariant, CostsSound, LotCore, SerialCore, Record, ApplySerials, Fifo.Apply, UnitsReady, NoEvents, UnitsTaken, ReceiptMovement, ReceiptDetails;
    IdleIsAccepted(ledgers.book, m, details.cost);
    var log := ledgers.book.movements;
    if line.product in tracking.serials {
      ReceiptSerials(ledgers.serials, log, context, t, item, line);
    }
  }

  /** The book after a movement that changed no quantity. */
  ghost predicate Idle(book: Fifo.Book, after: Fifo.Book, m: Movement, cost: nat) {
    && after.layers == book.layers && after.movements == book.movements + [m]
    && after.valuations.Keys == book.valuations.Keys + {m.product}
    && (forall p :: p in book.valuations && (p != m.product || book.valuations[p].quantity != 0) ==> after.valuations[p] == book.valuations[p])
    && after.valuations[m.product].average == Fifo.CurrentValuation(book, m.product, cost).average
  }

  // ----- The rest -----

  lemma MissingShape(serials: SerialBook, context: Context, t: nat, item: Item, line: Line, log: seq<Movement>)
    requires item.discrepancy > 0
    ensures var m, options := DiscrepancyMovement(context, t, item, line), DiscrepancyDetails(context, item, line).serial;
            && m.kind == TransferDiscrepancy && m.product == line.product && m.location == line.destination && !Registers(m)
            && Numbers(serials, log + [m], m, options) == item.discrepancySerials
            && CustodyOf(m, options.destination).allowed == {InTransit}
            && (UnitCount(m).Ok? <==> item.discrepancy % QUANTITY_SCALE == 0)
            && (UnitCount(m).Ok? ==> UnitCount(m).value == item.discrepancy / QUANTITY_SCALE)
  {
    NegatedUnits(item.discrepancy);
  }

  lemma DiscrepancySerials(serials: SerialBook, log: seq<Movement>, context: Context, t: nat, item: Item, line: Line)
    requires var m := DiscrepancyMovement(context, t, item, line); SerialCore(serials, log + [m]) && NoEvents(serials, |log|)
    requires item.discrepancy > 0
    ensures ApplySerials(serials, log + [DiscrepancyMovement(context, t, item, line)], |log|, DiscrepancyDetails(context, item, line).serial).Ok?
            <==> UnitsReady(serials, line.product, item.discrepancy, item.discrepancySerials, InTransit, line.destination)
  {
    hide *;
    var m, options := DiscrepancyMovement(context, t, item, line), DiscrepancyDetails(context, item, line).serial;
    MissingShape(serials, context, t, item, line, log);
    ReadyMeans(serials, line.product, item.discrepancy, item.discrepancySerials, InTransit, line.destination);
    if UnitCount(m).Ok? {
      AcceptanceByName(serials, log + [m], |log|, options);
    } else {
      Uncounted(serials, log + [m], |log|, options);
    }
  }

  lemma WriteOffIsExact(ledgers: Ledgers, tracking: Tracking, context: Context, t: nat, item: Item, line: Line)
    requires LedgersSound(ledgers) && item.discrepancy > 0
    ensures |ledgers.book.movements| == |ledgers.book.figures|
    ensures var m := DiscrepancyMovement(context, t, item, line);
            Record(ledgers, tracking, m, DiscrepancyDetails(context, item, line)).Ok?
            <==> && WriteOffReady(ledgers, tracking, context, t, item, line)
                 && (line.product in tracking.serials ==>
                       UnitsReady(ledgers.serials, line.product, item.discrepancy, item.discrepancySerials, InTransit, line.destination))
  {
    var m, details := DiscrepancyMovement(context, t, item, line), DiscrepancyDetails(context, item, line);
    RecordIsExact(ledgers, tracking, m, details);
    hide Invariant, CostsSound, LotCore, SerialCore, Record, ApplyLots, ApplySerials, Fifo.Apply, UnitsReady, NoEntries, NoEvents,
         ValueAfter, AverageCost, LotTheorems.UnexpiredStock, DrawableStock;
    ExitIsExact(ledgers.book, m, details.cost);
    var log := ledgers.book.movements;
    var book := Fifo.Apply(ledgers.book, m, details.cost);
    if book.Ok? {
      LotsTaken(ledgers.lots, log + [m], |log|, book.value.figures[|log|].unitCost, details.lot);
      DiscrepancySerials(ledgers.serials, log, context, t, item, line);
    }
  }

  /** Receiving the good part changes neither what may be written off nor its value. */
  lemma WriteOffUnaffected(book: Fifo.Book, after: Fifo.Book, added: Movement, m: Movement, cost: nat)
    requires Invariant(book) && Idle(book, after, added, cost) && added.kind == TransferReceipt && added.product == m.product
    requires m.quantity < 0
    ensures DrawableStock(after, m) == DrawableStock(book, m)
    ensures -m.quantity <= DrawableStock(book, m) ==> (ValueCovers(after, m, cost) <==> ValueCovers(book, m, cost))
  {
    var source := Fifo.ConsumptionSource(m);
    if source.Ok? {
      EligibleKept(book, after, added, m, source.value);
    }
    DrawableWithinStock(book, m, cost);
    hide Invariant, EligibleStock, Rounding.QuantityValue;
  }

  lemma UntakenKept(serials: SerialBook, after: SerialBook, line: Line, numbers: seq<string>, rows: seq<nat>, i: nat)
    requires UnitsTaken(serials, after, line, numbers, rows) && i < |after.serials|
    ensures |after.serials| == |serials.serials|
    ensures i in rows ==> after.serials[i].status == Available
    ensures i !in rows ==> after.serials[i] == serials.serials[i]
    ensures after.serials[i].product == serials.serials[i].product && after.serials[i].normalized == serials.serials[i].normalized
  {
  }

  lemma NumberTaken(serials: SerialBook, after: SerialBook, line: Line, numbers: seq<string>, rows: seq<nat>, i: nat, number: string)
    requires NumbersUnique(serials) && UnitsTaken(serials, after, line, numbers, rows)
    requires i < |serials.serials| && Named(serials.serials[i], line.product, number)
    ensures i in rows <==> exists j :: 0 <= j < |numbers| && Normalize(numbers[j]) == Normalize(number)
  {
    hide Normalize, RowsMoved;
    if j :| 0 <= j < |rows| && rows[j] == i {
      assert Named(serials.serials[rows[j]], line.product, numbers[j]);
    }
    if j :| 0 <= j < |numbers| && Normalize(numbers[j]) == Normalize(number) {
      assert Named(serials.serials[rows[j]], line.product, numbers[j]);
      assert rows[j] in rows;
    }
  }

  /** A unit is still in transit after the good part exactly when it was and is not in it. */
  lemma StillInTransit(serials: SerialBook, movements: seq<Movement>, after: SerialBook, line: Line, numbers: seq<string>, rows: seq<nat>, number: string)
    requires SerialCore(serials, movements) && UnitsTaken(serials, after, line, numbers, rows)
    ensures NamedAt(after, line.product, number, {InTransit}, line.destination)
            <==> && NamedAt(serials, line.product, number, {InTransit}, line.destination)
                 && forall j :: 0 <= j < |numbers| ==> Normalize(numbers[j]) != Normalize(number)
  {
    CoreNumbers(serials, movements);
    hide SerialCore, Normalize, UnitsTaken, NumbersUnique;
    if NamedAt(after, line.product, number, {InTransit}, line.destination) {
      var i :| 0 <= i < |after.serials| && Named(after.serials[i], line.product, number) && after.serials[i].status in {InTransit}
               && after.serials[i].location == Some(line.destination);
      UntakenKept(serials, after, line, numbers, rows, i);
      NumberTaken(serials, after, line, numbers, rows, i, number);
    }
    if NamedAt(serials, line.product, number, {InTransit}, line.destination)
       && forall j :: 0 <= j < |numbers| ==> Normalize(numbers[j]) != Normalize(number) {
      var i :| 0 <= i < |serials.serials| && Named(serials.serials[i], line.product, number) && serials.serials[i].status in {InTransit}
               && serials.serials[i].location == Some(line.destination);
      NumberTaken(serials, after, line, numbers, rows, i, number);
      SameLength(serials, after, line, numbers, rows);
      UntakenKept(serials, after, line, numbers, rows, i);
    }
  }

  lemma SameLength(serials: SerialBook, after: SerialBook, line: Line, numbers: seq<string>, rows: seq<nat>)
    requires UnitsTaken(serials, after, line, numbers, rows)
    ensures |after.serials| == |serials.serials|
  {
  }

  lemma RestReady(serials: SerialBook, movements: seq<Movement>, after: SerialBook, item: Item, line: Line, rows: seq<nat>)
    requires SerialCore(serials, movements) && UnitsTaken(serials, after, line, item.receivedSerials, rows)
    ensures UnitsReady(after, line.product, item.discrepancy, item.discrepancySerials, InTransit, line.destination)
            <==> && UnitsReady(serials, line.product, item.discrepancy, item.discrepancySerials, InTransit, line.destination)
                 && NumbersApart(item.receivedSerials, item.discrepancySerials)
  {
    hide RequestAccepted, NamedAt, SerialCore, UnitsTaken, Normalize;
    var numbers := item.discrepancySerials;
    forall k | 0 <= k < |numbers|
      ensures NamedAt(after, line.product, numbers[k], {InTransit}, line.destination)
              <==> && NamedAt(serials, line.product, numbers[k], {InTransit}, line.destination)
                   && forall j :: 0 <= j < |item.receivedSerials| ==> Normalize(item.receivedSerials[j]) != Normalize(numbers[k])
    {
      StillInTransit(serials, movements, after, line, item.receivedSerials, rows, numbers[k]);
    }
  }

  // ----- An item -----

  /** An item is received exactly when its destination has the quantity in transit, what it writes off
      is still there to be written off, and the units it names are in transit there. */
  lemma ItemIsExact(stock: Stock, tracking: Tracking, context: Context, t: nat, item: Item, line: Line)
    requires Agrees(stock, tracking) && item.received >= 0 && item.discrepancy >= 0
    ensures Booked(stock)
    ensures ReceiveItem(stock, tracking, context, t, item, line).Ok?
            <==> item.received + item.discrepancy <= RowAt(stock.rows, line.product, line.destination).inTransit
                 && ItemReady(stock.ledgers, tracking, context, t, item, line)
  {
    assert LedgersAgree(stock.ledgers, tracking) by { StockLedgers(stock, tracking); }
    AgreementParts(stock.ledgers, tracking);
    hide Agrees, LedgersAgree, RowAt, Record, LedgersSound, ItemReady;
    ItemOutcome(stock, tracking, context, t, item, line);
    ItemLedgers(stock.ledgers, tracking, context, t, item, line);
  }

  /** The ledgers after an item, or the first refusal. */
  function RecordItem(ledgers: Ledgers, tracking: Tracking, context: Context, t: nat, item: Item, line: Line): Result<Ledgers>
    requires |ledgers.book.movements| == |ledgers.book.figures|
  {
    match if item.received > 0 then Record(ledgers, tracking, ReceiptMovement(context, t, item, line), ReceiptDetails(context, item, line))
          else Ok(ledgers)
    case Err(e) => Err(e)
    case Ok(received) =>
      if item.discrepancy > 0 then
        Record(received, tracking, DiscrepancyMovement(context, t, item, line), DiscrepancyDetails(context, item, line))
      else Ok(received)
  }

  lemma ItemOutcome(stock: Stock, tracking: Tracking, context: Context, t: nat, item: Item, line: Line)
    requires LedgersSound(stock.ledgers)
    ensures Booked(stock)
    ensures ReceiveItem(stock, tracking, context, t, item, line).Ok?
            <==> item.received + item.discrepancy <= RowAt(stock.rows, line.product, line.destination).inTransit
                 && RecordItem(stock.ledgers, tracking, context, t, item, line).Ok?
  {
    assert Booked(stock);
    hide LedgersSound, Record, RowAt, Put;
  }

  lemma ItemLedgers(ledgers: Ledgers, tracking: Tracking, context: Context, t: nat, item: Item, line: Line)
    requires LedgersSound(ledgers) && item.received >= 0 && item.discrepancy >= 0
    ensures |ledgers.book.movements| == |ledgers.book.figures|
    ensures RecordItem(ledgers, tracking, context, t, item, line).Ok? <==> ItemReady(ledgers, tracking, context, t, item, line)
  {
    hide LedgersSound, Record, UnitsReady, WriteOffReady;
    if item.received > 0 {
      ReceiptIsExact(ledgers, tracking, context, t, item, line);
      var r := Record(ledgers, tracking, ReceiptMovement(context, t, item, line), ReceiptDetails(context, item, line));
      if r.Ok? && item.discrepancy > 0 {
        WriteOffIsExact(r.value, tracking, context, t, item, line);
        RestAfterReceipt(ledgers, r.value, tracking, context, t, item, line);
      }
    } else if item.discrepancy > 0 {
      WriteOffIsExact(ledgers, tracking, context, t, item, line);
    } else {
      assert |ledgers.book.movements| == |ledgers.book.figures| by { SoundCounts(ledgers); }
    }
  }

  lemma SoundCounts(ledgers: Ledgers)
    requires LedgersSound(ledgers)
    ensures |ledgers.book.movements| == |ledgers.book.figures| && Invariant(ledgers.book) && SerialCore(ledgers.serials, ledgers.book.movements)
  {
  }

  lemma RestAfterReceipt(ledgers: Ledgers, received: Ledgers, tracking: Tracking, context: Context, t: nat, item: Item, line: Line)
    requires LedgersSound(ledgers) && item.discrepancy > 0
    requires Idle(ledgers.book, received.book, ReceiptMovement(context, t, item, line), ReceiptDetails(context, item, line).cost)
    requires received.lots == ledgers.lots
    requires if line.product in tracking.serials
             then exists rows :: UnitsTaken(ledgers.serials, received.serials, line, item.receivedSerials, rows)
             else received.serials == ledgers.serials
    ensures WriteOffReady(received, tracking, context, t, item, line) <==> WriteOffReady(ledgers, tracking, context, t, item, line)
    ensures line.product in tracking.serials ==>
              (UnitsReady(received.serials, line.product, item.discrepancy, item.discrepancySerials, InTransit, line.destination)
               <==> && UnitsReady(ledgers.serials, line.product, item.discrepancy, item.discrepancySerials, InTransit, line.destination)
                    && NumbersApart(item.receivedSerials, item.discrepancySerials))
  {
    SoundCounts(ledgers);
    hide LedgersSound, Invariant, Idle, SerialCore, UnitsTaken, UnitsReady, ValueCovers, DrawableStock, NumbersApart, LotTheorems.UnexpiredStock;
    var m := DiscrepancyMovement(context, t, item, line);
    WriteOffUnaffected(ledgers.book, received.book, ReceiptMovement(context, t, item, line), m, ReceiptDetails(context, item, line).cost);
    if line.product in tracking.serials {
      var rows :| UnitsTaken(ledgers.serials, received.serials, line, item.receivedSerials, rows);
      RestReady(ledgers.serials, ledgers.book.movements, received.serials, item, line, rows);
    }
  }
}
