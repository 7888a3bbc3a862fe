/** Every other writer of stock keeps every projection in agreement. */
module WriterAgreement {
  import opened Outcomes
  import opened Sums
  import opened Rounding
  import opened Movements
  import Fifo
  import opened Quantity
  import opened Lots
  import opened LotSteps
  import opened Serials
  import opened SerialInvariants
  import opened SerialTheorems
  import opened Balances
  import opened Ledgers
  import opened Stock
  import opened Site
  import opened Writers
  import opened Transfers
  import opened TransferSteps
  import opened TransferLifecycle

  /** Movements that belong to no transfer. */
  ghost predicate NoLines(log: seq<Movement>) {
    forall k :: 0 <= k < |log| ==> log[k].transferLine.None?
  }

  /** A committed write: everything still agrees, and the movements it added belong to no transfer. */
  ghost predicate Wrote(before: Stock, after: Stock, tracking: Tracking) {
    && Agrees(after, tracking)
    && |Log(before)| <= |Log(after)| && Log(after)[..|Log(before)|] == Log(before) && NoLines(Log(after)[|Log(before)|..])
  }

  /** The in-transit column is untouched. */
  ghost predicate TransitKept(before: seq<Row>, after: seq<Row>) {
    forall p, l :: RowAt(after, p, l).inTransit == RowAt(before, p, l).inTransit
  }

  lemma WroteNothing(stock: Stock, tracking: Tracking)
    requires Agrees(stock, tracking)
    ensures Wrote(stock, stock, tracking) && TransitKept(stock.rows, stock.rows)
  {
    hide Agrees;
  }

  lemma WroteTwice(a: Stock, b: Stock, c: Stock, tracking: Tracking)
    requires Wrote(a, b, tracking) && Wrote(b, c, tracking)
    ensures Wrote(a, c, tracking)
    ensures TransitKept(a.rows, b.rows) && TransitKept(b.rows, c.rows) ==> TransitKept(a.rows, c.rows)
  {
    hide Agrees, RowAt;
    assert Log(c)[..|Log(a)|] == Log(c)[..|Log(b)|][..|Log(a)|];
    forall k | 0 <= k < |Log(c)[|Log(a)|..]| ensures Log(c)[|Log(a)|..][k].transferLine.None? {
      if k + |Log(a)| < |Log(b)| {
        assert Log(c)[k + |Log(a)|] == Log(c)[..|Log(b)|][k + |Log(a)|] == Log(b)[|Log(a)|..][k];
      } else {
        assert Log(c)[k + |Log(a)|] == Log(c)[|Log(b)|..][k + |Log(a)| - |Log(b)|];
      }
    }
  }

  /** The ledgers can follow a movement of no document line. */
  lemma PlainTrackable(ledgers: Ledgers, tracking: Tracking, m: Movement, details: Details)
    requires m.kind != SaleVoid && m.kind != SaleReturn && m.kind != TransferIn && m.kind != PurchaseReceipt && m.kind != TransferOut
    requires m.transferLine.None?
    requires m.kind == StateTransition ==> m.state.Some? && InStock(m.state.value.to)
    ensures Trackable(ledgers, tracking, m, details)
  {
  }

  /** One write whose row explains a movement of no document line. */
  lemma PostWrites(stock: Stock, tracking: Tracking, row: Row, m: Movement, details: Details)
    requires Agrees(stock, tracking) && Booked(stock)
    requires m.kind != SaleVoid && m.kind != SaleReturn && m.kind != TransferIn && m.kind != PurchaseReceipt && m.kind != TransferOut
    requires m.transferLine.None?
    requires m.kind == StateTransition ==> m.state.Some? && InStock(m.state.value.to)
    requires Explains(stock, tracking, row, m, details, Level, Level)
    ensures var r := Post(stock, tracking, row, m, details);
            r.Ok? ==> Wrote(stock, r.value, tracking)
                      && (row.inTransit == RowAt(stock.rows, m.product, m.location).inTransit ==> TransitKept(stock.rows, r.value.rows))
  {
    hide LedgersAgree, BalancesMatch, Post;
    PlainTrackable(stock.ledgers, tracking, m, details);
    hide Trackable;
    assert row.product == m.product && row.location == m.location;
    PostKeepsAgreement(stock, tracking, row, m, details, Level, Level);
    hide Explains;
    var r := Post(stock, tracking, row, m, details);
    if r.Ok? {
      forall p, l ensures RowAt(Put(stock.rows, row), p, l) == if p == row.product && l == row.location then row else RowAt(stock.rows, p, l) {
        PutIsRead(stock.rows, row, p, l);
      }
    }
  }

  lemma EnsureWrites(stock: Stock, tracking: Tracking, p: Product, l: Location)
    requires Agrees(stock, tracking)
    ensures Wrote(stock, stock.(rows := Ensure(stock.rows, p, l)), tracking)
    ensures TransitKept(stock.rows, Ensure(stock.rows, p, l))
  {
    EnsureKeepsAgreement(stock, tracking, Level, p, l);
    hide AgreesUpTo, Ensure, RowAt;
  }

  // ----- Manual movements and state changes -----

  /** A manual movement of serialised units that the balance follows: damage is the one it does not. */
  predicate BalanceFollows(tracking: Tracking, kind: Kind, product: Product) {
    product in tracking.serials ==> kind != Damage
  }

  lemma AvailableExplained(stock: Stock, tracking: Tracking, row: Row, m: Movement, details: Details)
    requires RowSound(row) && row == RowAt(stock.rows, m.product, m.location)
    requires row.available + m.quantity >= 0
    requires m.stateQuantity == 0 && UserKind(m.kind) && BalanceFollows(tracking, m.kind, m.product)
    requires m.kind == Exit || m.kind == Loss || m.kind == Damage ==> m.quantity <= 0
    requires m.kind == Initial || m.kind == Entry ==> m.quantity > 0
    requires m.kind == Return ==> m.product !in tracking.serials
    ensures Explains(stock, tracking, AvailableChanged(row, m.quantity), m, details, Level, Level)
  {
    if m.product in tracking.serials && UnitCount(m).Ok? {
      assert MovedUnits(m) == Abs(m.quantity) / QUANTITY_SCALE;
      assert QUANTITY_SCALE * MovedUnits(m) == Abs(m.quantity) by {
        assert m.quantity % QUANTITY_SCALE == 0;
        if m.quantity < 0 {
          assert (-m.quantity) % QUANTITY_SCALE == 0;
        }
      }
      hide RowAt, UnitCount;
      forall l, s | InStock(s)
        ensures (if l == m.location then StateOf(AvailableChanged(row, m.quantity), s) - StateOf(row, s) else 0)
                == QUANTITY_SCALE * (MovedUnits(m) * Shift(m, details.serial.destination, m.product, l, s))
      {
        assert Shift(m, details.serial.destination, m.product, l, s)
               == if l == m.location && s == Available then (if Registers(m) then 1 else -1) else 0;
      }
    }
  }

  lemma ChangeSign(context: Context, request: MovementRequest)
    requires RequestedChange(context, request).Ok?
    ensures var change := RequestedChange(context, request).value;
            && change != 0
            && (request.kind == Exit || request.kind == Loss || request.kind == Damage ==> change < 0)
            && (request.kind != Exit && request.kind != Loss && request.kind != Damage && request.kind != Adjustment ==> change > 0)
  {
    hide NormalizedUnits;
  }

  /** A unit that comes back by a manual return is refused, so nothing is written. */
  lemma ReturnFails(stock: Stock, tracking: Tracking, row: Row, m: Movement, details: Details)
    requires Agrees(stock, tracking) && Booked(stock) && m.kind == Return && m.quantity > 0 && m.product in tracking.serials
    ensures Post(stock, tracking, row, m, details).Err?
  {
    var r := Post(stock, tracking, row, m, details);
    if r.Ok? {
      hide Fifo.Apply, ApplyLots;
      var book := Fifo.Apply(stock.ledgers.book, m, details.cost).value;
      var id := |stock.ledgers.book.movements|;
      SerialsExtend(stock.ledgers.serials, Log(stock), m);
      assert UnitCount(m) != Ok(0);
      ReturnIsRejected(stock.ledgers.serials, Log(stock) + [m], id, details.serial);
    }
  }

  /** A recorded manual movement keeps every agreement. */
  lemma RecordMovementWrites(stock: Stock, tracking: Tracking, context: Context, request: MovementRequest)
    requires Agrees(stock, tracking) && Booked(stock) && UserKind(request.kind)
    requires BalanceFollows(tracking, request.kind, request.product)
    ensures var r := RecordMovement(stock, tracking, context, request);
            r.Ok? ==> Wrote(stock, r.value, tracking) && TransitKept(stock.rows, r.value.rows)
  {
    hide Agrees, Post, RequestedChange, Explains;
    var r := RecordMovement(stock, tracking, context, request);
    if r.Ok? {
      var change := RequestedChange(context, request).value;
      ChangeSign(context, request);
      var row := RowAt(stock.rows, request.product, request.location);
      var m := Plain(request.product, request.location, request.kind, change, context.now, context.currency);
      var details := MovementDetails(context, request);
      if request.kind == Return && request.product in tracking.serials {
        ReturnFails(stock, tracking, AvailableChanged(row, change), m, details);
      } else {
        assert RowSound(row) by { SoundRow(stock, tracking, request.product, request.location); }
        AvailableExplained(stock, tracking, row, m, details);
        PostWrites(stock, tracking, AvailableChanged(row, change), m, details);
      }
    }
  }

  lemma SoundRow(stock: Stock, tracking: Tracking, p: Product, l: Location)
    requires Agrees(stock, tracking)
    ensures RowSound(RowAt(stock.rows, p, l))
  {
    ReadIsSound(stock.rows, p, l);
  }

  lemma TransitionExplained(stock: Stock, tracking: Tracking, context: Context, request: TransitionRequest, units: int, row: Row)
    requires RowSound(row) && row == RowAt(stock.rows, request.product, request.location)
    requires TransitionAllowed(request.from, request.to) && InStock(request.from) && InStock(request.to)
    requires 0 < units <= StateOf(row, request.from)
    ensures Explains(stock, tracking, StatesChanged(row, request.from, request.to, units), TransitionMovement(context, request, units),
                     Unguided(context, request.product, SerialOptions(request.serials, None)), Level, Level)
  {
    var m := TransitionMovement(context, request, units);
    if request.product in tracking.serials && UnitCount(m).Ok? {
      assert MovedUnits(m) == units / QUANTITY_SCALE && units == QUANTITY_SCALE * (units / QUANTITY_SCALE);
      hide RowAt, UnitCount;
      forall l, s | InStock(s)
        ensures (if l == m.location then StateOf(StatesChanged(row, request.from, request.to, units), s) - StateOf(row, s) else 0)
                == QUANTITY_SCALE * (MovedUnits(m) * Shift(m, None, request.product, l, s))
      {
      }
    }
  }

  /** A change of stock state keeps every agreement. */
  lemma ChangeStateWrites(stock: Stock, tracking: Tracking, context: Context, request: TransitionRequest)
    requires Agrees(stock, tracking) && Booked(stock) && InStock(request.from) && InStock(request.to)
    ensures var r := ChangeState(stock, tracking, context, request);
            r.Ok? ==> Wrote(stock, r.value, tracking)
                      && (request.from != InTransit && request.to != InTransit ==> TransitKept(stock.rows, r.value.rows))
  {
    hide Agrees, Post, Explains, NormalizedUnits;
    var r := ChangeState(stock, tracking, context, request);
    if r.Ok? {
      var units := TransitionUnits(context, request).value;
      var row := RowAt(stock.rows, request.product, request.location);
      assert RowSound(row) by { SoundRow(stock, tracking, request.product, request.location); }
      TransitionExplained(stock, tracking, context, request, units, row);
      PostWrites(stock, tracking, StatesChanged(row, request.from, request.to, units), TransitionMovement(context, request, units),
                 Unguided(context, request.product, SerialOptions(request.serials, None)));
    }
  }

  // ----- Unnamed movements of serialised units -----

  /** An import or an adjustment that names no units is refused for a serialised product. */
  lemma UnnamedFails(stock: Stock, tracking: Tracking, row: Row, m: Movement, details: Details)
    requires Agrees(stock, tracking) && Booked(stock) && m.product in tracking.serials
    requires (m.kind == Import || m.kind == Adjustment) && m.quantity != 0 && m.stateQuantity == 0
    requires details.serial == SerialOptions(None, None)
    ensures Post(stock, tracking, row, m, details).Err?
  {
    var r := Post(stock, tracking, row, m, details);
    if r.Ok? {
      hide Fifo.Apply, ApplyLots;
      var book := Fifo.Apply(stock.ledgers.book, m, details.cost).value;
      var id := |stock.ledgers.book.movements|;
      SerialsExtend(stock.ledgers.serials, Log(stock), m);
      UnnamedUnitsAreRejected(stock.ledgers.serials, Log(stock) + [m], id);
    }
  }

  lemma UntrackedExplained(stock: Stock, tracking: Tracking, row: Row, m: Movement, details: Details)
    requires RowSound(row) && row.product == m.product && row.location == m.location && m.product !in tracking.serials
    requires row.quantity == RowAt(stock.rows, m.product, m.location).quantity + m.quantity
    ensures Explains(stock, tracking, row, m, details, Level, Level)
  {
  }

  /** A write that names no units keeps every agreement, or is refused. */
  lemma UnnamedWrites(stock: Stock, tracking: Tracking, row: Row, m: Movement, details: Details)
    requires Agrees(stock, tracking) && Booked(stock)
    requires RowSound(row) && row.product == m.product && row.location == m.location
    requires row.quantity == RowAt(stock.rows, m.product, m.location).quantity + m.quantity
    requires (m.kind == Import || m.kind == Adjustment) && m.quantity != 0 && m.stateQuantity == 0 && m.transferLine.None?
    requires details.serial == SerialOptions(None, None)
    ensures var r := Post(stock, tracking, row, m, details);
            r.Ok? ==> Wrote(stock, r.value, tracking)
                      && (row.inTransit == RowAt(stock.rows, m.product, m.location).inTransit ==> TransitKept(stock.rows, r.value.rows))
  {
    hide Agrees, Post, Explains, RowAt;
    if m.product in tracking.serials {
      UnnamedFails(stock, tracking, row, m, details);
    } else {
      UntrackedExplained(stock, tracking, row, m, details);
      PostWrites(stock, tracking, row, m, details);
    }
  }

  // ----- Imports -----

  /** The row leaves the in-transit stock to the transfers. */
  predicate LeavesTransit(row: ImportRow) {
    row.state != Some(InTransit)
  }

  /** An import row names a state of stock, as the file format allows. */
  predicate NamesStockState(row: ImportRow) {
    row.state.Some? ==> InStock(row.state.value)
  }

  lemma ConfirmRowWrites(tx: Importing, tracking: Tracking, context: Context, warehouse: Warehouse, row: ImportRow)
    requires Agrees(tx.stock, tracking) && Booked(tx.stock) && NamesStockState(row)
    ensures var r := ConfirmRow(tx, tracking, context, warehouse, row);
            r.Ok? ==> Wrote(tx.stock, r.value.stock, tracking)
                      && (LeavesTransit(row) ==> TransitKept(tx.stock.rows, r.value.stock.rows))
                      && r.value.count - tx.count == |Log(r.value.stock)| - |Log(tx.stock)|
  {
    hide Agrees, Post, RowAt, Ensure, TransitKept;
    var r := ConfirmRow(tx, tracking, context, warehouse, row);
    if r.Ok? {
      var product, location, state, target := row.product.value, row.location.value, row.state.value, row.target.value;
      var balance := RowAt(tx.stock.rows, product, location);
      var difference := target - StateOf(balance, state);
      SoundRow(tx.stock, tracking, product, location);
      if difference == 0 {
        EnsureWrites(tx.stock, tracking, product, location);
      } else {
        var after := WithState(balance, state, target).(quantity := balance.quantity + difference);
        var m := Plain(product, location, Import, difference, context.now, context.currency);
        var details := Unguided(context, product, SerialOptions(None, None));
        UnnamedWrites(tx.stock, tracking, after, m, details);
        PostLogs(tx.stock, tracking, after, m, details);
      }
    }
  }

  lemma PostLogs(stock: Stock, tracking: Tracking, row: Row, m: Movement, details: Details)
    requires Booked(stock)
    ensures var r := Post(stock, tracking, row, m, details);
            r.Ok? ==> Log(r.value) == Log(stock) + [m] && r.value.rows == Put(stock.rows, row)
  {
    hide Record;
  }

  lemma {:induction false} ConfirmRowsWrite(tx: Importing, tracking: Tracking, context: Context, warehouse: Warehouse, rows: seq<ImportRow>)
    requires Agrees(tx.stock, tracking) && Booked(tx.stock) && forall k :: 0 <= k < |rows| ==> NamesStockState(rows[k])
    ensures var r := ConfirmRows(tx, tracking, context, warehouse, rows);
            r.Ok? ==> Wrote(tx.stock, r.value.stock, tracking)
                      && ((forall k :: 0 <= k < |rows| ==> LeavesTransit(rows[k])) ==> TransitKept(tx.stock.rows, r.value.stock.rows))
                      && r.value.count - tx.count == |Log(r.value.stock)| - |Log(tx.stock)|
    decreases |rows|
  {
    hide Agrees, ConfirmRow, TransitKept, NoLines;
    if rows == [] {
      WroteNothing(tx.stock, tracking);
    } else {
      ConfirmRowWrites(tx, tracking, context, warehouse, rows[0]);
      var next := ConfirmRow(tx, tracking, context, warehouse, rows[0]);
      if next.Ok? {
        ConfirmRowsWrite(next.value, tracking, context, warehouse, rows[1..]);
        var r := ConfirmRows(next.value, tracking, context, warehouse, rows[1..]);
        if r.Ok? {
          WroteTwice(tx.stock, next.value.stock, r.value.stock, tracking);
        }
      }
    }
  }

  /** Confirming an import keeps every agreement and counts the movements it wrote. */
  lemma ConfirmImportWrites(stock: Stock, files: seq<ImportFile>, tracking: Tracking, context: Context, f: nat, warehouse: Warehouse, key: Key)
    requires Agrees(stock, tracking) && Booked(stock)
    requires f < |files| ==> forall k :: 0 <= k < |files[f].rows| ==> NamesStockState(files[f].rows[k])
    ensures var r := ConfirmImport(stock, files, tracking, context, f, warehouse, key);
            r.Ok? ==> && Wrote(stock, r.value.stock, tracking) && |r.value.files| == |files|
                      && ((forall k :: 0 <= k < |files[f].rows| ==> LeavesTransit(files[f].rows[k])) ==> TransitKept(stock.rows, r.value.stock.rows))
                      && (if files[f].confirmed then r.value == Imported(stock, files)
                          else r.value.files[f].movementCount == |Log(r.value.stock)| - |Log(stock)|)
  {
    hide Agrees, ConfirmRows, TransitKept, NoLines;
    WroteNothing(stock, tracking);
    var r := ConfirmImport(stock, files, tracking, context, f, warehouse, key);
    if r.Ok? && !files[f].confirmed {
      ConfirmRowsWrite(Importing(stock, 0), tracking, context, warehouse, files[f].rows);
    }
  }

  // ----- Counts -----

  predicate LinesOnce(lines: seq<CountLine>) {
    forall j, k :: 0 <= j < k < |lines| ==> lines[j].product != lines[k].product
  }

  lemma CloseLineWrites(stock: Stock, tracking: Tracking, context: Context, location: Location, line: CountLine)
    requires Agrees(stock, tracking) && Booked(stock) && line.counted.Some?
    ensures var r := CloseLine(stock, tracking, context, location, RowAt(stock.rows, line.product, location), line);
            r.Ok? ==> Wrote(stock, r.value, tracking) && TransitKept(stock.rows, r.value.rows)
                      && (forall p, l :: p != line.product || l != location ==> RowAt(r.value.rows, p, l) == RowAt(stock.rows, p, l))
                      && RowAt(r.value.rows, line.product, location).available == line.counted.value
  {
    hide Agrees, Post, RowAt;
    var row := RowAt(stock.rows, line.product, location);
    var variance := line.counted.value - row.available;
    SoundRow(stock, tracking, line.product, location);
    WroteNothing(stock, tracking);
    if variance != 0 {
      var after := row.(quantity := row.quantity + variance, available := line.counted.value);
      var m := Plain(line.product, location, Adjustment, variance, context.now, context.currency);
      var details := Unguided(context, line.product, SerialOptions(None, None));
      UnnamedWrites(stock, tracking, after, m, details);
      PostLogs(stock, tracking, after, m, details);
      forall p, l ensures RowAt(Put(stock.rows, after), p, l) == if p == line.product && l == location then after else RowAt(stock.rows, p, l) {
        PutIsRead(stock.rows, after, p, l);
      }
    }
  }

  /** Each counted product is available as counted; nothing else changed at the location. */
  ghost predicate AsCounted(rows: seq<Row>, location: Location, lines: seq<CountLine>)
    requires forall i :: 0 <= i < |lines| ==> lines[i].counted.Some?
  {
    forall i :: 0 <= i < |lines| ==> RowAt(rows, lines[i].product, location).available == lines[i].counted.value
  }

  ghost predicate OthersKept(before: seq<Row>, after: seq<Row>, location: Location, lines: seq<CountLine>) {
    forall p, l :: (l != location || forall i :: 0 <= i < |lines| ==> lines[i].product != p) ==> RowAt(after, p, l) == RowAt(before, p, l)
  }

  lemma {:induction false} CloseLinesWrite(stock: Stock, tracking: Tracking, context: Context, location: Location, loaded: seq<Row>, lines: seq<CountLine>)
    requires Agrees(stock, tracking) && Booked(stock) && LinesOnce(lines) && forall i :: 0 <= i < |lines| ==> lines[i].counted.Some?
    requires forall i :: 0 <= i < |lines| ==> RowAt(loaded, lines[i].product, location) == RowAt(stock.rows, lines[i].product, location)
    ensures var r := CloseLines(stock, tracking, context, location, loaded, lines);
            r.Ok? ==> && Wrote(stock, r.value, tracking) && TransitKept(stock.rows, r.value.rows)
                      && AsCounted(r.value.rows, location, lines) && OthersKept(stock.rows, r.value.rows, location, lines)
    decreases |lines|
  {
    hide Agrees, CloseLine, RowAt, Wrote, TransitKept;
    if lines == [] {
      WroteNothing(stock, tracking);
    } else {
      CloseLineWrites(stock, tracking, context, location, lines[0]);
      var next := CloseLine(stock, tracking, context, location, RowAt(loaded, lines[0].product, location), lines[0]);
      if next.Ok? {
        assert Agrees(next.value, tracking) by { WroteAgrees(stock, next.value, tracking); }
        CloseLinesWrite(next.value, tracking, context, location, loaded, lines[1..]);
        var r := CloseLines(next.value, tracking, context, location, loaded, lines[1..]);
        if r.Ok? {
          WroteTwice(stock, next.value, r.value, tracking);
          assert forall i :: 1 <= i < |lines| ==> lines[1..][i - 1] == lines[i];
          assert RowAt(r.value.rows, lines[0].product, location) == RowAt(next.value.rows, lines[0].product, location);
        }
      }
    }
  }

  lemma WroteAgrees(before: Stock, after: Stock, tracking: Tracking)
    requires Wrote(before, after, tracking)
    ensures Agrees(after, tracking)
  {
  }

  /** Closing a count keeps every agreement; afterwards each counted product is available at the
      location exactly as counted, and no other balance has changed. */
  lemma CloseCountWrites(stock: Stock, sessions: seq<CountSession>, tracking: Tracking, context: Context, s: nat, warehouse: Warehouse)
    requires Agrees(stock, tracking) && Booked(stock) && (s < |sessions| ==> LinesOnce(sessions[s].lines))
    ensures var r := CloseCount(stock, sessions, tracking, context, s, warehouse);
            r.Ok? ==> && Wrote(stock, r.value.stock, tracking) && TransitKept(stock.rows, r.value.stock.rows)
                      && (if sessions[s].closed then r.value == Counted(stock, sessions)
                          else && CountReady(sessions[s].lines)
                               && AsCounted(r.value.stock.rows, sessions[s].location, sessions[s].lines)
                               && OthersKept(stock.rows, r.value.stock.rows, sessions[s].location, sessions[s].lines))
  {
    hide Agrees, CloseLines, RowAt, Wrote, TransitKept, AsCounted, OthersKept;
    WroteNothing(stock, tracking);
    var r := CloseCount(stock, sessions, tracking, context, s, warehouse);
    if r.Ok? && !sessions[s].closed {
      CloseLinesWrite(stock, tracking, context, sessions[s].location, stock.rows, sessions[s].lines);
    }
  }

  // ----- Kits -----

  ghost predicate Untracked(tracking: Tracking, changes: seq<Change>) {
    forall k :: 0 <= k < |changes| ==> changes[k].product !in tracking.lots && changes[k].product !in tracking.serials
  }

  lemma ApplyChangeWrites(stock: Stock, tracking: Tracking, context: Context, location: Location, change: Change)
    requires Agrees(stock, tracking) && Booked(stock)
    requires change.product !in tracking.lots && change.product !in tracking.serials
    ensures var r := ApplyChange(stock, context, location, change);
            r.Ok? ==> && Wrote(stock, r.value, tracking) && TransitKept(stock.rows, r.value.rows)
                      && r.value.rows == Put(stock.rows, AvailableChanged(RowAt(stock.rows, change.product, location), change.change))
  {
    hide Agrees, RowAt, Explains, Record, Value, TransitKept, NoLines;
    var row := RowAt(stock.rows, change.product, location);
    var m := Plain(change.product, location, Adjustment, change.change, context.now, context.currency);
    var details := Unguided(context, change.product, SerialOptions(None, None));
    var r := ApplyChange(stock, context, location, change);
    if r.Ok? {
      var after := AvailableChanged(row, change.change);
      assert Post(stock, tracking, after, m, details) == r by {
        assert LedgersAgree(stock.ledgers, tracking) by { AgreesLedgers(stock, tracking); }
        ValueKeepsAgreement(stock.ledgers, tracking, m, details);
      }
      assert RowSound(row) by { SoundRow(stock, tracking, change.product, location); }
      UntrackedExplained(stock, tracking, after, m, details);
      PostWrites(stock, tracking, after, m, details);
    }
  }

  lemma AgreesLedgers(stock: Stock, tracking: Tracking)
    requires Agrees(stock, tracking)
    ensures LedgersAgree(stock.ledgers, tracking)
  {
  }

  lemma {:induction false} ApplyChangesWrite(stock: Stock, tracking: Tracking, context: Context, location: Location, changes: seq<Change>)
    requires Agrees(stock, tracking) && Booked(stock) && Untracked(tracking, changes)
    ensures var r := ApplyChanges(stock, context, location, changes);
            r.Ok? ==> Wrote(stock, r.value, tracking) && TransitKept(stock.rows, r.value.rows)
    decreases |changes|
  {
    hide Agrees, ApplyChange, RowAt, NoLines, TransitKept;
    if changes == [] {
      WroteNothing(stock, tracking);
    } else {
      ApplyChangeWrites(stock, tracking, context, location, changes[0]);
      var next := ApplyChange(stock, context, location, changes[0]);
      if next.Ok? {
        ApplyChangesWrite(next.value, tracking, context, location, changes[1..]);
        var r := ApplyChanges(next.value, context, location, changes[1..]);
        if r.Ok? {
          WroteTwice(stock, next.value, r.value, tracking);
        }
      }
    }
  }

  lemma {:induction false} ChangesUntracked(kit: Kit, units: nat, assemble: bool, n: nat, tracking: Tracking)
    requires n <= |kit.components|
    requires kit.product !in tracking.lots && kit.product !in tracking.serials
    requires forall i :: 0 <= i < |kit.components| ==> kit.components[i].product !in tracking.lots && kit.components[i].product !in tracking.serials
    ensures Untracked(tracking, KitChanges(kit, units, assemble, n)) && Untracked(tracking, ComponentChanges(kit, units, assemble, n))
    decreases |kit.components| - n
  {
    if n < |kit.components| {
      ChangesUntracked(kit, units, assemble, n + 1, tracking);
    }
  }

  /** No kit and no component of one is tracked by lot or serial number. */
  ghost predicate KitsSound(kits: map<Product, Kit>, tracking: Tracking) {
    forall p :: p in kits ==> kits[p].product == p && p !in tracking.lots && p !in tracking.serials && ComponentsUntracked(kits[p], tracking)
  }

  ghost predicate ComponentsUntracked(kit: Kit, tracking: Tracking) {
    forall i :: 0 <= i < |kit.components| ==> kit.components[i].product !in tracking.lots && kit.components[i].product !in tracking.serials
  }

  /** Assembling or disassembling keeps every agreement. */
  lemma OperateKitWrites(stock: Stock, operations: seq<KitOperation>, kits: map<Product, Kit>, tracking: Tracking, context: Context, request: KitRequest)
    requires Agrees(stock, tracking) && Booked(stock) && KitsSound(kits, tracking)
    ensures var r := OperateKit(stock, operations, kits, context, request);
            r.Ok? ==> Wrote(stock, r.value.stock, tracking) && TransitKept(stock.rows, r.value.stock.rows)
  {
    hide Agrees, ApplyChanges, NoLines, TransitKept, NormalizedUnits, QuantityToUnits;
    WroteNothing(stock, tracking);
    var r := OperateKit(stock, operations, kits, context, request);
    if r.Ok? && r.value.operations != operations {
      var kit, units := kits[request.product], KitUnits(kits, context, request).value;
      ChangesUntracked(kit, units, request.assemble, 0, tracking);
      ApplyChangesWrite(stock, tracking, context, request.location, KitChanges(kit, units, request.assemble, 0));
    }
  }

  // ----- Where agreement would be lost -----

  lemma ValueChanges(stock: Stock, context: Context, location: Location, change: Change)
    requires Booked(stock)
    ensures var r := ApplyChange(stock, context, location, change);
            r.Ok? ==> && r.value.ledgers.lots == stock.ledgers.lots && r.value.ledgers.serials == stock.ledgers.serials
                      && r.value.rows == Put(stock.rows, AvailableChanged(RowAt(stock.rows, change.product, location), change.change))
  {
    hide Fifo.Apply;
  }

  /** A kit operation calls no tracker, so a change it makes keeps agreement exactly when the product
      is tracked neither by lot nor by serial number. */
  lemma TrackedComponentBreaks(stock: Stock, tracking: Tracking, context: Context, location: Location, change: Change)
    requires Agrees(stock, tracking) && Booked(stock) && change.change != 0
    requires ApplyChange(stock, context, location, change).Ok?
    ensures Agrees(ApplyChange(stock, context, location, change).value, tracking)
            <==> change.product !in tracking.lots && change.product !in tracking.serials
  {
    hide Agrees, ApplyChange, RowAt, Put;
    var after := ApplyChange(stock, context, location, change).value;
    if change.product !in tracking.lots && change.product !in tracking.serials {
      ApplyChangeWrites(stock, tracking, context, location, change);
      WroteAgrees(stock, after, tracking);
    } else {
      ValueChanges(stock, context, location, change);
      if Agrees(after, tracking) {
        TrackedStands(stock, after, tracking, location, change);
      }
    }
  }

  /** The tracked quantity stands while the balance moves: the two cannot both agree. */
  lemma TrackedStands(stock: Stock, after: Stock, tracking: Tracking, location: Location, change: Change)
    requires Agrees(stock, tracking) && Agrees(after, tracking) && change.change != 0
    requires after.ledgers.lots == stock.ledgers.lots && after.ledgers.serials == stock.ledgers.serials
    requires after.rows == Put(stock.rows, AvailableChanged(RowAt(stock.rows, change.product, location), change.change))
    ensures change.product !in tracking.lots && change.product !in tracking.serials
  {
    hide Agrees, Put;
    PutIsRead(stock.rows, AvailableChanged(RowAt(stock.rows, change.product, location), change.change), change.product, location);
    hide RowAt;
    AgreementMeans(stock, tracking, change.product, location);
    AgreementMeans(after, tracking, change.product, location);
    assert InStock(Available);
  }
}
