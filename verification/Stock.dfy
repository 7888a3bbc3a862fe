/** Balances and ledgers together: what the reconciliation compares, and how one write keeps it. */
module Stock {
  import opened Outcomes
  import opened Sums
  import opened Rounding
  import opened Movements
  import opened Fifo
  import opened FifoInvariants
  import opened FifoRuns
  import opened LotInvariants
  import opened LotSteps
  import opened Serials
  import opened SerialInvariants
  import opened Balances
  import opened Ledgers

  datatype Stock = Stock(rows: seq<Row>, ledgers: Ledgers)

  const EmptyStock := Stock([], EmptyLedgers)

  function Log(stock: Stock): seq<Movement> {
    stock.ledgers.book.movements
  }

  /** Every movement has its valuation figures. */
  predicate Booked(stock: Stock) {
    |stock.ledgers.book.movements| == |stock.ledgers.book.figures|
  }

  /** Writes a balance row and records the movement that explains it. */
  function Post(stock: Stock, tracking: Tracking, row: Row, m: Movement, details: Details): (r: Result<Stock>)
    requires |stock.ledgers.book.movements| == |stock.ledgers.book.figures|
    ensures r.Ok? ==> |r.value.ledgers.book.movements| == |r.value.ledgers.book.figures|
  {
    match Record(stock.ledgers, tracking, m, details)
    case Err(e) => Err(e)
    case Ok(ledgers) => Ok(Stock(Put(stock.rows, row), ledgers))
  }

  // ----- What the reconciliation compares -----

  /** Units of a product that are already in transit to a place in the serial table while the
      balance of that place is still to be written: they exist only inside a dispatch. */
  datatype Ahead = Ahead(product: Product, location: Location, units: int)

  const Level := Ahead(0, 0, 0)

  function AheadAt(ahead: Ahead, p: Product, l: Location, s: SerialStatus): int {
    if p == ahead.product && l == ahead.location && s == InTransit then ahead.units else 0
  }

  /** Each balance is the sum of its movements; its states add up; a serialised product has as many
      units in each state as its balance says. */
  ghost predicate BalancesMatch(stock: Stock, tracking: Tracking, ahead: Ahead) {
    && RowsSound(stock.rows)
    && (forall p, l :: RowAt(stock.rows, p, l).quantity == Moved(Log(stock), p, l))
    && (forall p :: Balances.StockOf(stock.rows, p) == MovedOf(Log(stock), p))
    && (forall p, l, s :: p in tracking.serials && InStock(s) ==>
          StateOf(RowAt(stock.rows, p, l), s) + QUANTITY_SCALE * AheadAt(ahead, p, l, s)
          == QUANTITY_SCALE * Units(stock.ledgers.serials, p, l, s))
  }

  ghost predicate AgreesUpTo(stock: Stock, tracking: Tracking, ahead: Ahead) {
    LedgersAgree(stock.ledgers, tracking) && BalancesMatch(stock, tracking, ahead)
  }

  /** Balances, movements, valuations, cost layers, lots and serials all say the same. */
  ghost predicate Agrees(stock: Stock, tracking: Tracking) {
    AgreesUpTo(stock, tracking, Level)
  }

  // ----- One write -----

  /** The new row explains the movement: its quantity moves by the movement's, it is sound, and for
      a serialised product each state moves by the units the movement moves. */
  ghost predicate Explains(stock: Stock, tracking: Tracking, row: Row, m: Movement, details: Details, before: Ahead, after: Ahead) {
    && row.product == m.product && row.location == m.location && RowSound(row)
    && row.quantity == RowAt(stock.rows, m.product, m.location).quantity + m.quantity
    && (m.product in tracking.serials && (UnitCount(m).Ok? || m.kind == TransferIn) ==>
          forall l, s | InStock(s) ::
            (if l == m.location then StateOf(row, s) - StateOf(RowAt(stock.rows, m.product, m.location), s) else 0)
            + QUANTITY_SCALE * (AheadAt(after, m.product, l, s) - AheadAt(before, m.product, l, s))
            == QUANTITY_SCALE * (MovedUnits(m) * Shift(m, details.serial.destination, m.product, l, s)))
    && (forall p, l, s :: (p != m.product || m.product !in tracking.serials) ==>
          AheadAt(after, p, l, s) == AheadAt(before, p, l, s))
  }

  lemma StateFollows(stock: Stock, tracking: Tracking, row: Row, m: Movement, details: Details, before: Ahead, after: Ahead,
                     recorded: Ledgers, p: Product, l: Location, s: SerialStatus)
    requires AgreesUpTo(stock, tracking, before) && Explains(stock, tracking, row, m, details, before, after)
    requires Recorded(stock.ledgers, recorded, tracking, m, details)
    requires p in tracking.serials && InStock(s)
    ensures StateOf(RowAt(Put(stock.rows, row), p, l), s) + QUANTITY_SCALE * AheadAt(after, p, l, s)
            == QUANTITY_SCALE * Units(recorded.serials, p, l, s)
  {
    hide LedgersAgree, MovedUnits, UnitCount;
    PutIsRead(stock.rows, row, p, l);
    hide Put, RowAt;
    assert StateOf(RowAt(stock.rows, p, l), s) + QUANTITY_SCALE * AheadAt(before, p, l, s)
           == QUANTITY_SCALE * Units(stock.ledgers.serials, p, l, s);
    assert Units(recorded.serials, p, l, s)
           == Units(stock.ledgers.serials, p, l, s) + MovedUnits(m) * Shift(m, details.serial.destination, p, l, s);
    if p != m.product {
      NoShift(m, details.serial.destination);
      assert MovedUnits(m) * 0 == 0;
    }
  }

  lemma QuantitiesFollow(stock: Stock, tracking: Tracking, row: Row, m: Movement, before: Ahead)
    requires BalancesMatch(stock, tracking, before) && RowSound(row) && row.product == m.product && row.location == m.location
    requires row.quantity == RowAt(stock.rows, m.product, m.location).quantity + m.quantity
    ensures RowsSound(Put(stock.rows, row))
    ensures forall p, l :: RowAt(Put(stock.rows, row), p, l).quantity == Moved(Log(stock) + [m], p, l)
    ensures forall p :: Balances.StockOf(Put(stock.rows, row), p) == MovedOf(Log(stock) + [m], p)
  {
    hide Put;
    var rows := Put(stock.rows, row);
    PutKeepsSound(stock.rows, row);
    forall p, l ensures RowAt(rows, p, l).quantity == Moved(Log(stock) + [m], p, l) {
      PutIsRead(stock.rows, row, p, l);
      assert RowAt(stock.rows, p, l).quantity == Moved(Log(stock), p, l);
      TotalAppend(Log(stock), m, ChangeAt(p, l));
    }
    forall p ensures Balances.StockOf(rows, p) == MovedOf(Log(stock) + [m], p) {
      PutChangesTotal(stock.rows, row, p);
      assert Balances.StockOf(stock.rows, p) == MovedOf(Log(stock), p);
      TotalAppend(Log(stock), m, ChangeOf(p));
    }
  }

  lemma ExplainedRow(stock: Stock, tracking: Tracking, row: Row, m: Movement, details: Details, before: Ahead, after: Ahead)
    requires Explains(stock, tracking, row, m, details, before, after)
    ensures row.product == m.product && row.location == m.location && RowSound(row)
    ensures row.quantity == RowAt(stock.rows, m.product, m.location).quantity + m.quantity
  {
  }

  lemma RecordedFacts(before: Ledgers, after: Ledgers, tracking: Tracking, m: Movement, details: Details)
    requires Recorded(before, after, tracking, m, details)
    ensures LedgersAgree(after, tracking) && after.book.movements == before.book.movements + [m]
    ensures m.product in tracking.serials ==> UnitCount(m).Ok? || m.kind == TransferIn
  {
  }

  /** A write whose row explains its movement keeps everything in agreement. */
  lemma PostKeepsAgreement(stock: Stock, tracking: Tracking, row: Row, m: Movement, details: Details, before: Ahead, after: Ahead)
    requires AgreesUpTo(stock, tracking, before) && Trackable(stock.ledgers, tracking, m, details)
    requires Explains(stock, tracking, row, m, details, before, after)
    ensures |stock.ledgers.book.movements| == |stock.ledgers.book.figures|
    ensures var r := Post(stock, tracking, row, m, details);
            r.Ok? ==> && AgreesUpTo(r.value, tracking, after) && Log(r.value) == Log(stock) + [m]
                      && r.value.rows == Put(stock.rows, row)
                      && (m.product in tracking.serials ==> UnitCount(m).Ok? || m.kind == TransferIn)
  {
    hide LedgersAgree, Trackable, Record, Put, RowAt, RowsSound, Moved, MovedOf, Balances.StockOf, Explains, Recorded, Units, UnitCount;
    RecordKeepsAgreement(stock.ledgers, tracking, m, details);
    var r := Record(stock.ledgers, tracking, m, details);
    if r.Ok? {
      RecordedFacts(stock.ledgers, r.value, tracking, m, details);
      ExplainedRow(stock, tracking, row, m, details, before, after);
      QuantitiesFollow(stock, tracking, row, m, before);
      forall p, l, s | p in tracking.serials && InStock(s)
        ensures StateOf(RowAt(Put(stock.rows, row), p, l), s) + QUANTITY_SCALE * AheadAt(after, p, l, s)
                == QUANTITY_SCALE * Units(r.value.serials, p, l, s)
      {
        StateFollows(stock, tracking, row, m, details, before, after, r.value, p, l, s);
      }
    }
  }

  /** Making sure a row exists changes no quantity. */
  lemma EnsureKeepsAgreement(stock: Stock, tracking: Tracking, ahead: Ahead, p: Product, l: Location)
    requires AgreesUpTo(stock, tracking, ahead)
    ensures AgreesUpTo(stock.(rows := Ensure(stock.rows, p, l)), tracking, ahead)
    ensures forall x, y :: RowAt(Ensure(stock.rows, p, l), x, y) == RowAt(stock.rows, x, y)
    ensures forall x :: Balances.StockOf(Ensure(stock.rows, p, l), x) == Balances.StockOf(stock.rows, x)
  {
    hide LedgersAgree;
    var rows := Ensure(stock.rows, p, l);
    ReadIsSound(stock.rows, p, l);
    PutKeepsSound(stock.rows, RowAt(stock.rows, p, l));
    forall x, y ensures RowAt(rows, x, y) == RowAt(stock.rows, x, y) {
      PutIsRead(stock.rows, RowAt(stock.rows, p, l), x, y);
    }
    forall x ensures Balances.StockOf(rows, x) == Balances.StockOf(stock.rows, x) {
      PutChangesTotal(stock.rows, RowAt(stock.rows, p, l), x);
    }
  }

  /** Every agreement holds of an empty stock. */
  lemma EmptyAgrees(tracking: Tracking)
    ensures Agrees(EmptyStock, tracking)
  {
    EmptyLedgersAgree(tracking);
    hide LedgersAgree;
  }

  /** What a reader of any one projection may conclude about the others. */
  lemma AgreementMeans(stock: Stock, tracking: Tracking, p: Product, l: Location)
    requires Agrees(stock, tracking)
    ensures RowAt(stock.rows, p, l).quantity == Moved(Log(stock), p, l) == Fifo.Stock(stock.ledgers.book, p, l) >= 0
    ensures RowSound(RowAt(stock.rows, p, l))
    ensures p in tracking.lots ==> Lots.ProductHeld(stock.ledgers.lots, p, l) == RowAt(stock.rows, p, l).quantity
    ensures p in tracking.serials ==> forall s | InStock(s) ::
              StateOf(RowAt(stock.rows, p, l), s) == QUANTITY_SCALE * Units(stock.ledgers.serials, p, l, s)
    ensures Balances.StockOf(stock.rows, p) == (if p in stock.ledgers.book.valuations then stock.ledgers.book.valuations[p].quantity else 0)
  {
    ReadIsSound(stock.rows, p, l);
    assert ValuationMatches(stock.ledgers.book, p);
    if p in tracking.serials {
      forall s | InStock(s)
        ensures StateOf(RowAt(stock.rows, p, l), s) == QUANTITY_SCALE * Units(stock.ledgers.serials, p, l, s)
      {
        assert AheadAt(Level, p, l, s) == 0;
      }
    }
  }
}
