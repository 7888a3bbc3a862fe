/** The ledgers behind the balances: movements with their valuations, cost layers, lots and serials.
    Every stock writer records a movement in all of them, or in none. */
module Ledgers {
  import opened Outcomes
  import opened Sums
  import opened Rounding
  import opened Movements
  import opened Fifo
  import opened FifoInvariants
  import opened FifoSteps
  import opened FifoRuns
  import opened FifoValues
  import opened Lots
  import opened LotInvariants
  import opened LotSteps
  import opened Serials
  import opened SerialInvariants

  datatype Ledgers = Ledgers(book: Book, lots: LotBook, serials: SerialBook)

  const EmptyLedgers := Ledgers(EmptyBook, EmptyLots, EmptySerials)

  /** Which products are followed by lot and by serial number. */
  datatype Tracking = Tracking(lots: set<Product>, serials: set<Product>)

  /** What a writer passes to the ledgers along with a movement; `cost` is the catalogue cost. */
  datatype Details = Details(cost: nat, lot: LotOptions, serial: SerialOptions)

  /** applyInventoryValuation alone. */
  function Value(ledgers: Ledgers, m: Movement, cost: nat): Result<Ledgers>
    requires |ledgers.book.movements| == |ledgers.book.figures|
  {
    match Apply(ledgers.book, m, cost)
    case Err(e) => Err(e)
    case Ok(book) => Ok(ledgers.(book := book))
  }

  /** A movement through valuation, lots and serials, in the order every writer calls them. */
  function Record(ledgers: Ledgers, tracking: Tracking, m: Movement, details: Details): (r: Result<Ledgers>)
    requires |ledgers.book.movements| == |ledgers.book.figures|
    ensures r.Ok? ==> r.value.book.movements == ledgers.book.movements + [m]
                      && |r.value.book.movements| == |r.value.book.figures|
  {
    var id := |ledgers.book.movements|;
    match Apply(ledgers.book, m, details.cost)
    case Err(e) => Err(e)
    case Ok(book) =>
      match if m.product in tracking.lots then ApplyLots(ledgers.lots, book.movements, id, book.figures[id].unitCost, details.lot) else Ok(ledgers.lots)
      case Err(e) => Err(e)
      case Ok(lots) =>
        match if m.product in tracking.serials then ApplySerials(ledgers.serials, book.movements, id, details.serial) else Ok(ledgers.serials)
        case Err(e) => Err(e)
        case Ok(serials) => Ok(Ledgers(book, lots, serials))
  }

  // ----- Agreement among the ledgers -----

  /** The lots of a tracked product hold what its movements left at each location. */
  ghost predicate LotsMatchMovements(lots: LotBook, movements: seq<Movement>, tracking: Tracking) {
    forall p, l :: p in tracking.lots ==> ProductHeld(lots, p, l) == Moved(movements, p, l)
  }

  ghost predicate LedgersAgree(ledgers: Ledgers, tracking: Tracking) {
    && Invariant(ledgers.book) && CostsSound(ledgers.book)
    && LotCore(ledgers.lots, ledgers.book.movements) && LotsMatchMovements(ledgers.lots, ledgers.book.movements, tracking)
    && SerialCore(ledgers.serials, ledgers.book.movements) && OnlySerialised(ledgers.serials, tracking)
  }

  /** The serial table holds only units of serialised products. */
  ghost predicate OnlySerialised(serials: SerialBook, tracking: Tracking) {
    forall i :: 0 <= i < |serials.serials| ==> serials.serials[i].product in tracking.serials
  }

  lemma StaysSerialised(before: SerialBook, after: SerialBook, tracking: Tracking, m: Movement, destination: Option<Location>, n: int)
    requires OnlySerialised(before, tracking) && m.product in tracking.serials && SerialsMoved(before, after, m, destination, n)
    ensures OnlySerialised(after, tracking)
  {
  }

  /** What a movement must satisfy for the ledgers to follow it: reversals of a tracked line concern
      one product, incoming kinds are not negative, and units are put in stock at a place. */
  ghost predicate Trackable(ledgers: Ledgers, tracking: Tracking, m: Movement, details: Details) {
    && SignFits(m)
    && (m.product in tracking.lots ==> SameProductSources(ledgers.lots, ledgers.book.movements + [m], m))
    && (m.product in tracking.serials ==> PlacesUnits(m, details.serial.destination))
  }

  /** One movement was recorded: the ledgers still agree and the units in each state moved by what
      the movement prescribes. */
  ghost predicate Recorded(before: Ledgers, after: Ledgers, tracking: Tracking, m: Movement, details: Details) {
    && LedgersAgree(after, tracking)
    && after.book.movements == before.book.movements + [m]
    && (m.product in tracking.serials ==> UnitCount(m).Ok? || m.kind == TransferIn)
    && (forall p, l, s :: p in tracking.serials ==>
          Units(after.serials, p, l, s)
          == Units(before.serials, p, l, s) + MovedUnits(m) * Shift(m, details.serial.destination, p, l, s))
  }

  lemma LotsFollow(lots: LotBook, after: LotBook, movements: seq<Movement>, m: Movement, tracking: Tracking)
    requires LotsMatchMovements(lots, movements, tracking)
    requires if m.product in tracking.lots then LotsGrown(lots, after, movements + [m], |movements|, m.quantity) else after == lots
    ensures LotsMatchMovements(after, movements + [m], tracking)
  {
    hide LotCore;
    forall p, l | p in tracking.lots ensures ProductHeld(after, p, l) == Moved(movements + [m], p, l) {
      assert ProductHeld(lots, p, l) == Moved(movements, p, l);
      TotalAppend(movements, m, ChangeAt(p, l));
    }
  }

  lemma InvariantOf(ledgers: Ledgers, tracking: Tracking)
    requires LedgersAgree(ledgers, tracking)
    ensures |ledgers.book.movements| == |ledgers.book.figures|
  {
  }

  /** Recording a movement keeps all ledgers in agreement and moves exactly its units. */
  lemma RecordKeepsAgreement(ledgers: Ledgers, tracking: Tracking, m: Movement, details: Details)
    requires LedgersAgree(ledgers, tracking) && Trackable(ledgers, tracking, m, details)
    ensures |ledgers.book.movements| == |ledgers.book.figures|
    ensures var r := Record(ledgers, tracking, m, details);
            r.Ok? ==> Recorded(ledgers, r.value, tracking, m, details)
  {
    hide Invariant, CostsSound, LotCore, SerialCore, LotsMatchMovements, SameProductSources, PlacesUnits, ApplyLots, ApplySerials,
         Apply, Units, Shift, LotsGrown, UnitCount, OnlySerialised;
    assert |ledgers.book.movements| == |ledgers.book.figures| by { InvariantOf(ledgers, tracking); }
    var movements, id := ledgers.book.movements, |ledgers.book.movements|;
    ApplyKeepsInvariant(ledgers.book, m, details.cost);
    ApplyKeepsCosts(ledgers.book, m, details.cost);
    CoreExtends(ledgers.lots, movements, m);
    SerialsExtend(ledgers.serials, movements, m);
    var r := Apply(ledgers.book, m, details.cost);
    if r.Ok? {
      var book := r.value;
      CostOfMovement(book, id);
      if m.product in tracking.lots {
        ApplyLotsGrows(ledgers.lots, book.movements, id, book.figures[id].unitCost, details.lot);
        var lots := ApplyLots(ledgers.lots, book.movements, id, book.figures[id].unitCost, details.lot);
        if lots.Ok? {
          GrownCore(ledgers.lots, lots.value, book.movements, id, m.quantity);
          LotsFollow(ledgers.lots, lots.value, movements, m, tracking);
        }
      } else {
        LotsFollow(ledgers.lots, ledgers.lots, movements, m, tracking);
      }
      if m.product in tracking.serials {
        ApplySerialsMoves(ledgers.serials, book.movements, id, details.serial);
        var serials := ApplySerials(ledgers.serials, book.movements, id, details.serial);
        if serials.Ok? {
          StaysSerialised(ledgers.serials, serials.value, tracking, m, details.serial.destination, MovedUnits(m));
        }
        SerialsCounted(ledgers.serials, book.movements, id, details.serial);
      } else {
        NoShift(m, details.serial.destination);
      }
    }
  }

  lemma NoShift(m: Movement, destination: Option<Location>)
    ensures forall p: Product, l: Location, s: SerialStatus :: p != m.product ==> Shift(m, destination, p, l, s) == 0
  {
  }

  lemma SerialsCounted(serials: SerialBook, movements: seq<Movement>, id: nat, options: SerialOptions)
    requires id < |movements| && NoEvents(serials, id)
    ensures ApplySerials(serials, movements, id, options).Ok? ==> UnitCount(movements[id]).Ok? || movements[id].kind == TransferIn
  {
  }

  // ----- Movements that only the valuation sees -----

  /** A movement of a product tracked neither way keeps every agreement without the trackers. */
  lemma ValueKeepsAgreement(ledgers: Ledgers, tracking: Tracking, m: Movement, details: Details)
    requires LedgersAgree(ledgers, tracking) && m.product !in tracking.lots && m.product !in tracking.serials && SignFits(m)
    ensures |ledgers.book.movements| == |ledgers.book.figures|
    ensures Value(ledgers, m, details.cost) == Record(ledgers, tracking, m, details)
    ensures var r := Value(ledgers, m, details.cost);
            r.Ok? ==> Recorded(ledgers, r.value, tracking, m, details)
  {
    RecordKeepsAgreement(ledgers, tracking, m, details);
  }

  lemma EmptyLedgersAgree(tracking: Tracking)
    ensures LedgersAgree(EmptyLedgers, tracking)
  {
    EmptyBookInvariant();
    assert CostsSound(EmptyBook) && LotCore(EmptyLots, []) && SerialCore(EmptySerials, []);
    assert LotsMatchMovements(EmptyLots, [], tracking) && OnlySerialised(EmptySerials, tracking);
  }
}
