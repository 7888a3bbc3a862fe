/** What manual movements, state changes, closed counts and kit operations do, said of the request and the
    rows before and after. */
module WriterMeaning {
  import opened Outcomes
  import opened Sums
  import opened Rounding
  import opened Text
  import opened Movements
  import opened Quantity
  import Fifo
  import opened Lots
  import opened Serials
  import opened Balances
  import opened Ledgers
  import opened Stock
  import opened Site
  import opened Writers
  import opened WriterAgreement

  /** The product may hold stock and the place is an open one of the warehouse. */
  ghost predicate MayHold(context: Context, product: Product, location: Location, warehouse: Warehouse) {
    && product in context.products && context.products[product].active && !context.products[product].hasVariants
    && location in context.locations && context.locations[location].active && context.locations[location].warehouse == warehouse
  }

  lemma UsableMeans(context: Context, product: Product, location: Location, warehouse: Warehouse)
    ensures TargetUsable(context, product, location, warehouse) <==> MayHold(context, product, location, warehouse)
  {
  }

  /** One row has changed, in the columns given; every other row is as it was. */
  ghost predicate OnlyRow(before: seq<Row>, after: seq<Row>, product: Product, location: Location, row: Row) {
    forall p, l :: RowAt(after, p, l) == if p == product && l == location then row else RowAt(before, p, l)
  }

  /** The movement and its details have gone through all ledgers. */
  ghost predicate Noted(before: Stock, after: Stock, tracking: Tracking, m: Movement, details: Details)
    requires Booked(before)
  {
    Record(before.ledgers, tracking, m, details) == Ok(after.ledgers)
  }

  lemma PostDoes(stock: Stock, tracking: Tracking, row: Row, m: Movement, details: Details)
    requires Booked(stock)
    ensures var r := Post(stock, tracking, row, m, details);
            && (r.Ok? <==> Record(stock.ledgers, tracking, m, details).Ok?)
            && (r.Ok? ==> && OnlyRow(stock.rows, r.value.rows, row.product, row.location, row) && Noted(stock, r.value, tracking, m, details)
                          && Log(r.value) == Log(stock) + [m])
  {
    hide Record, RowAt, Put;
    var r := Post(stock, tracking, row, m, details);
    if r.Ok? {
      forall p, l ensures RowAt(r.value.rows, p, l) == if p == row.product && l == row.location then row else RowAt(stock.rows, p, l) {
        PutIsRead(stock.rows, row, p, l);
      }
    }
  }

  // ----- Manual movements -----

  /** What a movement of a kind by so many thousandths changes: what goes out counts down, an adjustment goes
      either way, the rest counts up. */
  ghost predicate Changes(kind: Kind, units: int, change: int) {
    && change != 0
    && (kind == Exit || kind == Loss || kind == Damage ==> change == -units < 0)
    && (kind == Adjustment ==> change == units)
    && (kind != Exit && kind != Loss && kind != Damage && kind != Adjustment ==> change == units > 0)
  }

  ghost predicate Asks(context: Context, request: MovementRequest, change: int) {
    && request.product in context.products
    && var units := NormalizedUnits(request.quantity, context.products[request.product].policy, true, true);
       units.Ok? && Changes(request.kind, units.value, change)
  }

  lemma AskedChange(context: Context, request: MovementRequest)
    ensures RequestedChange(context, request).Ok? ==> Asks(context, request, RequestedChange(context, request).value)
    ensures forall change :: Asks(context, request, change) ==> RequestedChange(context, request) == Ok(change)
  {
    hide NormalizedUnits;
  }

  /** Whether a manual movement may be made, before the ledgers are asked. */
  ghost predicate Allowed(stock: Stock, context: Context, request: MovementRequest, change: int) {
    && Asks(context, request, change) && MayHold(context, request.product, request.location, request.warehouse)
    && (request.kind != Initial ==> request.referenced)
    && (request.kind == Initial ==>
          forall k :: 0 <= k < |Log(stock)| ==> Log(stock)[k].product != request.product || Log(stock)[k].location != request.location)
    && RowAt(stock.rows, request.product, request.location).quantity + change >= 0
    && RowAt(stock.rows, request.product, request.location).available + change >= 0
  }

  ghost function ManualMovement(context: Context, request: MovementRequest, change: int): Movement {
    Plain(request.product, request.location, request.kind, change, context.now, context.currency)
  }

  /** The catalogue's cost and dates, the lot and the units the request names. */
  ghost function ManualDetails(context: Context, request: MovementRequest): Details
    requires request.product in context.products
  {
    Details(context.products[request.product].cost,
            LotOptions(request.lot, None, false, context.today, context.products[request.product].expiration),
            SerialOptions(request.serials, None))
  }

  lemma AllowedIsPosted(stock: Stock, tracking: Tracking, context: Context, request: MovementRequest, change: int)
    requires Booked(stock) && Allowed(stock, context, request, change)
    ensures request.product in context.products
    ensures RecordMovement(stock, tracking, context, request)
            == Post(stock, tracking, AvailableChanged(RowAt(stock.rows, request.product, request.location), change),
                    ManualMovement(context, request, change), ManualDetails(context, request))
  {
    AskedChange(context, request);
    UsableMeans(context, request.product, request.location, request.warehouse);
    hide RequestedChange, TargetUsable, MayHold, Post, RowAt, Changes, NormalizedUnits;
    assert MovementDetails(context, request) == ManualDetails(context, request);
  }

  lemma MadeIsAllowed(stock: Stock, tracking: Tracking, context: Context, request: MovementRequest)
    requires Booked(stock) && RecordMovement(stock, tracking, context, request).Ok?
    ensures RequestedChange(context, request).Ok? && Allowed(stock, context, request, RequestedChange(context, request).value)
  {
    AskedChange(context, request);
    UsableMeans(context, request.product, request.location, request.warehouse);
    hide RequestedChange, Asks, TargetUsable, MayHold, Post, RowAt;
  }

  /** A manual movement is made exactly when it is allowed and the ledgers take it; it moves what is
      available and the quantity at its place by its change, and nothing else. */
  lemma MovementDoes(stock: Stock, tracking: Tracking, context: Context, request: MovementRequest)
    requires Booked(stock)
    ensures RecordMovement(stock, tracking, context, request).Ok?
            <==> exists change :: Allowed(stock, context, request, change)
                                  && Record(stock.ledgers, tracking, ManualMovement(context, request, change), ManualDetails(context, request)).Ok?
    ensures forall change :: Allowed(stock, context, request, change) && RecordMovement(stock, tracking, context, request).Ok? ==>
              var after := RecordMovement(stock, tracking, context, request).value;
              var row := RowAt(stock.rows, request.product, request.location);
              && OnlyRow(stock.rows, after.rows, request.product, request.location,
                         row.(quantity := row.quantity + change, available := row.available + change))
              && Noted(stock, after, tracking, ManualMovement(context, request, change), ManualDetails(context, request))
              && Log(after) == Log(stock) + [ManualMovement(context, request, change)]
  {
    hide RecordMovement, Allowed, Post, RowAt, Record, OnlyRow, Noted, ManualMovement, ManualDetails, RequestedChange;
    forall change | Allowed(stock, context, request, change)
      ensures request.product in context.products
      ensures var r, row := RecordMovement(stock, tracking, context, request), RowAt(stock.rows, request.product, request.location);
              && (r.Ok? <==> Record(stock.ledgers, tracking, ManualMovement(context, request, change), ManualDetails(context, request)).Ok?)
              && (r.Ok? ==>
                    && OnlyRow(stock.rows, r.value.rows, request.product, request.location,
                               row.(quantity := row.quantity + change, available := row.available + change))
                    && Noted(stock, r.value, tracking, ManualMovement(context, request, change), ManualDetails(context, request))
                    && Log(r.value) == Log(stock) + [ManualMovement(context, request, change)])
    {
      AllowedIsPosted(stock, tracking, context, request, change);
      PostDoes(stock, tracking, AvailableChanged(RowAt(stock.rows, request.product, request.location), change),
               ManualMovement(context, request, change), ManualDetails(context, request));
    }
    if RecordMovement(stock, tracking, context, request).Ok? {
      MadeIsAllowed(stock, tracking, context, request);
    }
  }

  // ----- State changes -----

  ghost predicate MayChange(stock: Stock, context: Context, request: TransitionRequest, units: int) {
    && request.from != request.to && (request.from == Available || request.to == Available)
    && request.product in context.products
    && NormalizedUnits(request.quantity, context.products[request.product].policy, false, true) == Ok(units) && units > 0
    && MayHold(context, request.product, request.location, request.warehouse)
    && StateOf(RowAt(stock.rows, request.product, request.location), request.from) >= units
  }

  ghost function StateMovement(context: Context, request: TransitionRequest, units: int): Movement {
    Plain(request.product, request.location, StateTransition, 0, context.now, context.currency)
      .(stateQuantity := units, state := Some(StateChange(request.from, request.to)))
  }

  ghost function StateDetails(context: Context, request: TransitionRequest): Details
    requires request.product in context.products
  {
    Details(context.products[request.product].cost,
            LotOptions(None, None, false, context.today, context.products[request.product].expiration), SerialOptions(request.serials, None))
  }

  /** The row gives units in one state and has them in the other; its quantity stands. */
  ghost predicate Shifted(before: Row, after: Row, from: SerialStatus, to: SerialStatus, units: int) {
    && after.product == before.product && after.location == before.location && after.quantity == before.quantity
    && forall s | InStock(s) ::
         StateOf(after, s) == StateOf(before, s) + (if s == to then units else 0) - (if s == from then units else 0)
  }

  lemma ShiftedRow(row: Row, from: SerialStatus, to: SerialStatus, units: int)
    requires from != to && InStock(from) && InStock(to)
    ensures Shifted(row, StatesChanged(row, from, to, units), from, to, units)
  {
  }

  /** A state change is made exactly when it is allowed and the ledgers take it; it shifts units from one state
      of the row to the other and nothing else. */
  lemma ChangeStateDoes(stock: Stock, tracking: Tracking, context: Context, request: TransitionRequest)
    requires Booked(stock) && InStock(request.from) && InStock(request.to)
    ensures ChangeState(stock, tracking, context, request).Ok?
            <==> exists units :: MayChange(stock, context, request, units)
                                 && Record(stock.ledgers, tracking, StateMovement(context, request, units), StateDetails(context, request)).Ok?
    ensures forall units :: MayChange(stock, context, request, units) && ChangeState(stock, tracking, context, request).Ok? ==>
              var after := ChangeState(stock, tracking, context, request).value;
              && Shifted(RowAt(stock.rows, request.product, request.location), RowAt(after.rows, request.product, request.location),
                         request.from, request.to, units)
              && OnlyRow(stock.rows, after.rows, request.product, request.location, RowAt(after.rows, request.product, request.location))
              && Noted(stock, after, tracking, StateMovement(context, request, units), StateDetails(context, request))
  {
    UsableMeans(context, request.product, request.location, request.warehouse);
    var asked := TransitionUnits(context, request);
    if asked.Ok? {
      var row := RowAt(stock.rows, request.product, request.location);
      assert TransitionMovement(context, request, asked.value) == StateMovement(context, request, asked.value);
      assert Unguided(context, request.product, SerialOptions(request.serials, None)) == StateDetails(context, request);
      hide NormalizedUnits, TargetUsable, MayHold, Post, RowAt, Record, StatesChanged, Noted, StateOf, Unguided, Shifted, TransitionMovement,
           StateMovement, StateDetails;
      ShiftedRow(row, request.from, request.to, asked.value);
      ShiftedKey(row, StatesChanged(row, request.from, request.to, asked.value), request.from, request.to, asked.value);
      PostDoes(stock, tracking, StatesChanged(row, request.from, request.to, asked.value), StateMovement(context, request, asked.value),
               StateDetails(context, request));
    } else {
      hide NormalizedUnits, TargetUsable, MayHold, RowAt, Record, StateOf;
    }
  }

  lemma ShiftedKey(row: Row, after: Row, from: SerialStatus, to: SerialStatus, units: int)
    requires Shifted(row, after, from, to, units)
    ensures after.product == row.product && after.location == row.location
  {
  }

  // ----- Counts -----

  /** Every line was counted and its product still has available what the session found. */
  ghost predicate CountStands(rows: seq<Row>, session: CountSession) {
    && session.lines != []
    && forall i :: 0 <= i < |session.lines| ==>
         session.lines[i].counted.Some? && RowAt(rows, session.lines[i].product, session.location).available == session.lines[i].snapshot
  }

  ghost function Variance(line: CountLine): int
    requires line.counted.Some?
  {
    line.counted.value - line.snapshot
  }

  lemma CountIs(stock: Stock, sessions: seq<CountSession>, tracking: Tracking, context: Context, s: nat, warehouse: Warehouse)
    requires Booked(stock) && s < |sessions| && !sessions[s].closed
    ensures var r := CloseCount(stock, sessions, tracking, context, s, warehouse);
            && (r.Ok? <==> sessions[s].warehouse == warehouse && CountStands(stock.rows, sessions[s])
                           && CloseLines(stock, tracking, context, sessions[s].location, stock.rows, sessions[s].lines).Ok?)
            && (r.Ok? ==> && CountReady(sessions[s].lines)
                          && r.value == Counted(CloseLines(stock, tracking, context, sessions[s].location, stock.rows, sessions[s].lines).value,
                                                sessions[s := Closed(stock.rows, sessions[s])]))
  {
    hide CloseLines, RowAt, Closed;
  }

  lemma ClosedSays(rows: seq<Row>, session: CountSession)
    requires CountReady(session.lines) && CountStands(rows, session)
    ensures var now := Closed(rows, session);
            && now == session.(closed := true, lines := now.lines) && |now.lines| == |session.lines|
            && forall i :: 0 <= i < |session.lines| ==> now.lines[i] == session.lines[i].(variance := Some(Variance(session.lines[i])))
  {
    hide RowAt;
  }

  /** The ledgers take the adjustments one after the other. */
  ghost predicate Adjusted(ledgers: Ledgers, tracking: Tracking, context: Context, location: Location, lines: seq<CountLine>)
    requires |ledgers.book.movements| == |ledgers.book.figures| && forall i :: 0 <= i < |lines| ==> lines[i].counted.Some?
    decreases |lines|
  {
    if lines == [] then true
    else if Variance(lines[0]) == 0 then Adjusted(ledgers, tracking, context, location, lines[1..])
    else
      var next := Record(ledgers, tracking, Plain(lines[0].product, location, Adjustment, Variance(lines[0]), context.now, context.currency),
                         Unguided(context, lines[0].product, SerialOptions(None, None)));
      next.Ok? && Adjusted(next.value, tracking, context, location, lines[1..])
  }

  lemma {:induction false} LinesAreAdjusted(stock: Stock, tracking: Tracking, context: Context, location: Location, loaded: seq<Row>, lines: seq<CountLine>)
    requires Booked(stock) && forall i :: 0 <= i < |lines| ==> lines[i].counted.Some?
    requires forall i :: 0 <= i < |lines| ==> RowAt(loaded, lines[i].product, location).available == lines[i].snapshot
    ensures CloseLines(stock, tracking, context, location, loaded, lines).Ok? <==> Adjusted(stock.ledgers, tracking, context, location, lines)
    decreases |lines|
  {
    hide RowAt, Record, Unguided, Put;
    if lines != [] {
      var next := CloseLine(stock, tracking, context, location, RowAt(loaded, lines[0].product, location), lines[0]);
      if next.Ok? {
        LinesAreAdjusted(next.value, tracking, context, location, loaded, lines[1..]);
      }
    }
  }

  /** An open count is closed exactly when it stands and the ledgers take its variances; each line then says
      by how much it differed, and one adjustment is booked for each line that did, in order. */
  lemma CountCloses(stock: Stock, sessions: seq<CountSession>, tracking: Tracking, context: Context, s: nat, warehouse: Warehouse)
    requires Booked(stock) && s < |sessions| && !sessions[s].closed
    ensures var r := CloseCount(stock, sessions, tracking, context, s, warehouse);
            && (r.Ok? <==> && sessions[s].warehouse == warehouse && CountStands(stock.rows, sessions[s])
                           && Adjusted(stock.ledgers, tracking, context, sessions[s].location, sessions[s].lines))
            && (r.Ok? ==>
                  && |r.value.sessions| == |sessions| && (forall k :: 0 <= k < |sessions| && k != s ==> r.value.sessions[k] == sessions[k])
                  && var was, now := sessions[s], r.value.sessions[s];
                     && now == was.(closed := true, lines := now.lines) && |now.lines| == |was.lines|
                     && (forall i :: 0 <= i < |was.lines| ==> now.lines[i] == was.lines[i].(variance := Some(Variance(was.lines[i]))))
                     && Log(r.value.stock) == Log(stock) + CountMovements(context, was.location, was.lines))
  {
    CountIs(stock, sessions, tracking, context, s, warehouse);
    hide CloseCount, CloseLines, RowAt, CountMovements, Closed, Adjusted;
    if CountStands(stock.rows, sessions[s]) {
      LinesAreAdjusted(stock, tracking, context, sessions[s].location, stock.rows, sessions[s].lines);
    }
    if CloseCount(stock, sessions, tracking, context, s, warehouse).Ok? {
      LinesBooked(stock, tracking, context, sessions[s].location, stock.rows, sessions[s].lines);
      ClosedSays(stock.rows, sessions[s]);
    }
  }

  ghost function CountMovements(context: Context, location: Location, lines: seq<CountLine>): seq<Movement>
    requires forall i :: 0 <= i < |lines| ==> lines[i].counted.Some?
  {
    if lines == [] then []
    else
      (if Variance(lines[0]) == 0 then []
       else [Plain(lines[0].product, location, Adjustment, Variance(lines[0]), context.now, context.currency)])
      + CountMovements(context, location, lines[1..])
  }

  lemma {:induction false} LinesBooked(stock: Stock, tracking: Tracking, context: Context, location: Location, loaded: seq<Row>, lines: seq<CountLine>)
    requires Booked(stock) && forall i :: 0 <= i < |lines| ==> lines[i].counted.Some?
    requires forall i :: 0 <= i < |lines| ==> RowAt(loaded, lines[i].product, location).available == lines[i].snapshot
    ensures var r := CloseLines(stock, tracking, context, location, loaded, lines);
            r.Ok? ==> Log(r.value) == Log(stock) + CountMovements(context, location, lines)
    decreases |lines|
  {
    hide RowAt, Post, Unguided;
    if lines != [] {
      var row := RowAt(loaded, lines[0].product, location);
      var next := CloseLine(stock, tracking, context, location, row, lines[0]);
      if next.Ok? {
        var variance := lines[0].counted.value - row.available;
        if variance != 0 {
          PostLogs(stock, tracking,
                   RowAt(stock.rows, lines[0].product, location).(quantity := row.quantity + variance, available := lines[0].counted.value),
                   Plain(lines[0].product, location, Adjustment, variance, context.now, context.currency),
                   Unguided(context, lines[0].product, SerialOptions(None, None)));
        }
        LinesBooked(next.value, tracking, context, location, loaded, lines[1..]);
      }
    }
  }

  // ----- Kits -----

  /** The kit is in force and built from stock, and the request asks for some of it at a place of the
      warehouse; the rounded quantity still has at most twelve whole digits. */
  ghost predicate KitAsked(kits: map<Product, Kit>, context: Context, request: KitRequest, units: int) {
    && request.product in context.products && context.products[request.product].active
    && request.product in kits && kits[request.product].inForce && kits[request.product].assembled && kits[request.product].components != []
    && NormalizedUnits(request.quantity, context.products[request.product].policy, false, true) == Ok(units) && 0 < units < Limit
    && request.location in context.locations && context.locations[request.location].warehouse == request.warehouse
  }

  lemma UnitsAsked(kits: map<Product, Kit>, context: Context, request: KitRequest)
    ensures KitUnits(kits, context, request).Ok?
            <==> && request.product in context.products && context.products[request.product].active
                 && request.product in kits && kits[request.product].inForce && kits[request.product].assembled
                 && var units := NormalizedUnits(request.quantity, context.products[request.product].policy, false, true);
                    units.Ok? && 0 < units.value < Limit
    ensures KitUnits(kits, context, request).Ok? ==>
              NormalizedUnits(request.quantity, context.products[request.product].policy, false, true) == Ok(KitUnits(kits, context, request).value)
  {
    if request.product in context.products {
      var units := NormalizedUnits(request.quantity, context.products[request.product].policy, false, true);
      if units.Ok? {
        UnitsRoundTrip(units.value);
      }
    }
    hide NormalizedUnits, QuantityToUnits, QuantityFromUnits;
  }

  ghost function KitMovements(context: Context, location: Location, changes: seq<Change>): seq<Movement> {
    if changes == [] then []
    else [Plain(changes[0].product, location, Adjustment, changes[0].change, context.now, context.currency)]
         + KitMovements(context, location, changes[1..])
  }

  lemma {:induction false} ChangesBooked(stock: Stock, context: Context, location: Location, changes: seq<Change>)
    requires Booked(stock)
    ensures var r := ApplyChanges(stock, context, location, changes);
            r.Ok? ==> Log(r.value) == Log(stock) + KitMovements(context, location, changes)
    decreases |changes|
  {
    hide Fifo.Apply, RowAt, Put, Unguided;
    if changes != [] {
      var next := ApplyChange(stock, context, location, changes[0]);
      if next.Ok? {
        ChangesBooked(next.value, context, location, changes[1..]);
      }
    }
  }

  lemma AskedIs(kits: map<Product, Kit>, context: Context, request: KitRequest, units: nat)
    ensures KitAsked(kits, context, request, units)
            <==> && KitUnits(kits, context, request) == Ok(units) && kits[request.product].components != []
                 && request.location in context.locations && context.locations[request.location].warehouse == request.warehouse
  {
    UnitsAsked(kits, context, request);
    hide NormalizedUnits, KitUnits;
  }

  /** A new kit operation is booked exactly when it is asked so and its changes can be made one after the
      other; it is noted with what was asked and one adjustment is booked for each product in its order, the
      kit among its components. */
  lemma KitIsOperated(stock: Stock, operations: seq<KitOperation>, kits: map<Product, Kit>, context: Context, request: KitRequest)
    requires Booked(stock) && forall k :: 0 <= k < |operations| ==> operations[k].key != request.key
    ensures var r := OperateKit(stock, operations, kits, context, request);
            && (r.Ok? <==> && QuantityToUnits(request.quantity).Ok?
                           && exists units: nat :: KitAsked(kits, context, request, units)
                                && ApplyChanges(stock, context, request.location, KitChanges(kits[request.product], units, request.assemble, 0)).Ok?)
            && (r.Ok? ==>
                  && |r.value.operations| == |operations| + 1
                  && var done := r.value.operations[|operations|];
                     && KitAsked(kits, context, request, done.units) && done.units > 0
                     && r.value.operations == operations + [done] && done.key == request.key
                     && done.digest == KitDigest(request.product, request.location, request.assemble, QuantityToUnits(request.quantity).value)
                     && Log(r.value.stock) == Log(stock) + KitMovements(context, request.location,
                                                                        KitChanges(kits[request.product], done.units, request.assemble, 0)))
  {
    hide ApplyChanges, KitUnits, NormalizedUnits, QuantityToUnits, KitMovements, KitChanges, KitAsked;
    forall units: nat
      ensures KitAsked(kits, context, request, units)
              <==> && KitUnits(kits, context, request) == Ok(units) && kits[request.product].components != []
                   && request.location in context.locations && context.locations[request.location].warehouse == request.warehouse
    {
      AskedIs(kits, context, request, units);
    }
    if KitUnits(kits, context, request).Ok? {
      var units := KitUnits(kits, context, request).value;
      ChangesBooked(stock, context, request.location, KitChanges(kits[request.product], units, request.assemble, 0));
      assert KitUnits(kits, context, request) == Ok(units);
    }
  }
}
