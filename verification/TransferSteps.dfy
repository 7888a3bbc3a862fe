/** What dispatching and receiving lines does to the balances, line by line. */
module TransferSteps {
  import opened Outcomes
  import opened Sums
  import opened Rounding
  import opened Movements
  import opened Lots
  import opened LotSteps
  import opened Serials
  import opened SerialInvariants
  import opened Balances
  import opened Ledgers
  import opened Stock
  import opened Site
  import opened Transfers

  /** The movements of a transfer's lines concern the products of those lines. */
  ghost predicate LinesNamed(log: seq<Movement>, t: nat, lines: seq<Line>) {
    forall k :: 0 <= k < |log| && log[k].transferLine.Some? && log[k].transferLine.value.transfer == t ==>
      log[k].transferLine.value.line < |lines| && log[k].product == lines[log[k].transferLine.value.line].product
  }

  lemma LineTrackable(stock: Stock, tracking: Tracking, m: Movement, details: Details, t: nat, i: nat, lines: seq<Line>)
    requires LinesNamed(Log(stock), t, lines) && i < |lines|
    requires m.transferLine == Some(TransferLine(t, i)) && m.product == lines[i].product
    requires m.kind == TransferOut || m.kind == TransferIn || m.kind == TransferReceipt || m.kind == TransferDiscrepancy
    requires m.kind == TransferIn ==> m.quantity >= 0
    requires m.kind == TransferOut ==> details.serial.destination.Some?
    ensures Trackable(stock.ledgers, tracking, m, details)
  {
  }

  // ----- One dispatched line -----

  /** The units of a dispatched line, already in transit in the serial table. */
  function UnitsAhead(tracking: Tracking, line: Line): Ahead {
    if line.product in tracking.serials then Ahead(line.product, line.destination, line.quantity / QUANTITY_SCALE) else Level
  }

  lemma DepartureExplained(stock: Stock, tracking: Tracking, context: Context, t: nat, i: nat, line: Line)
    requires RowsSound(stock.rows) && line.quantity >= 0 && line.source != line.destination
    requires RowAt(stock.rows, line.product, line.source).available >= line.quantity
    ensures Explains(stock, tracking, Left(RowAt(stock.rows, line.product, line.source), line.quantity),
                     Departure(context, t, i, line), DepartureDetails(context, line), Level, UnitsAhead(tracking, line))
  {
    ReadIsSound(stock.rows, line.product, line.source);
    var m := Departure(context, t, i, line);
    if line.product in tracking.serials && UnitCount(m).Ok? {
      assert MovedUnits(m) == line.quantity / QUANTITY_SCALE;
      assert line.quantity == QUANTITY_SCALE * (line.quantity / QUANTITY_SCALE) by { assert (-line.quantity) % QUANTITY_SCALE == 0; }
      hide RowAt, UnitCount;
      forall l, s | InStock(s)
        ensures var row := RowAt(stock.rows, line.product, line.source);
                (if l == m.location then StateOf(Left(row, line.quantity), s) - StateOf(row, s) else 0)
                + QUANTITY_SCALE * (AheadAt(UnitsAhead(tracking, line), line.product, l, s) - AheadAt(Level, line.product, l, s))
                == QUANTITY_SCALE * (MovedUnits(m) * Shift(m, Some(line.destination), line.product, l, s))
      {
        assert AheadAt(Level, line.product, l, s) == 0;
        assert Shift(m, Some(line.destination), line.product, l, s)
               == (if s == InTransit && l == line.destination then 1 else 0) - (if s == Available && l == line.source then 1 else 0);
      }
    }
  }

  lemma ArrivalExplained(stock: Stock, tracking: Tracking, context: Context, t: nat, i: nat, line: Line)
    requires RowsSound(stock.rows) && line.quantity >= 0
    requires line.product in tracking.serials ==> line.quantity % QUANTITY_SCALE == 0
    ensures Explains(stock, tracking, Arriving(RowAt(stock.rows, line.product, line.destination), line.quantity),
                     Arrival(context, t, i, line), ArrivalDetails(context, line), UnitsAhead(tracking, line), Level)
  {
    ReadIsSound(stock.rows, line.product, line.destination);
    var m := Arrival(context, t, i, line);
    assert MovedUnits(m) == 0;
    hide RowAt;
    forall l, s | InStock(s) && line.product in tracking.serials
      ensures var row := RowAt(stock.rows, line.product, line.destination);
              (if l == m.location then StateOf(Arriving(row, line.quantity), s) - StateOf(row, s) else 0)
              + QUANTITY_SCALE * (AheadAt(Level, line.product, l, s) - AheadAt(UnitsAhead(tracking, line), line.product, l, s))
              == QUANTITY_SCALE * (MovedUnits(m) * Shift(m, Some(line.destination), line.product, l, s))
    {
    }
  }

  /** The balance of a place after `left` leaves it and `arrived` is on its way to it. */
  function Carried(row: Row, left: int, arrived: int): Row {
    row.(available := row.available - left, inTransit := row.inTransit + arrived, quantity := row.quantity - left + arrived)
  }

  function From(p: Product, l: Location): Line -> int {
    (line: Line) => if line.product == p && line.source == l then line.quantity else 0
  }

  function To(p: Product, l: Location): Line -> int {
    (line: Line) => if line.product == p && line.destination == l then line.quantity else 0
  }

  /** A dispatched line is available at its source no more and in transit at its destination, in
      every projection. */
  lemma DispatchLineAgrees(stock: Stock, tracking: Tracking, context: Context, t: nat, i: nat, lines: seq<Line>)
    requires Agrees(stock, tracking) && i < |lines| && LinesNamed(Log(stock), t, lines) && Booked(stock)
    requires lines[i].quantity >= 0 && lines[i].source != lines[i].destination
    ensures var r := DispatchLine(stock, tracking, context, t, i, lines[i]);
            r.Ok? ==>
              && Agrees(r.value, tracking)
              && Log(r.value) == Log(stock) + [Departure(context, t, i, lines[i]), Arrival(context, t, i, lines[i])]
              && (forall p, l :: RowAt(r.value.rows, p, l)
                    == Carried(RowAt(stock.rows, p, l), From(p, l)(lines[i]), To(p, l)(lines[i])))
              && (forall p :: Balances.StockOf(r.value.rows, p) == Balances.StockOf(stock.rows, p))
  {
    hide LedgersAgree, BalancesMatch, Trackable, Explains, Post;
    var line := lines[i];
    var source := RowAt(stock.rows, line.product, line.source);
    if source.available >= line.quantity {
      var out := Departure(context, t, i, line);
      assert RowsSound(stock.rows) by { MatchFacts(stock, tracking, Level); }
      DepartureExplained(stock, tracking, context, t, i, line);
      LineTrackable(stock, tracking, out, DepartureDetails(context, line), t, i, lines);
      PostKeepsAgreement(stock, tracking, Left(source, line.quantity), out, DepartureDetails(context, line), Level, UnitsAhead(tracking, line));
      var left := Post(stock, tracking, Left(source, line.quantity), out, DepartureDetails(context, line));
      if left.Ok? {
        ArrivalAgrees(stock, left.value, tracking, context, t, i, lines);
      }
    }
  }

  lemma MatchFacts(stock: Stock, tracking: Tracking, ahead: Ahead)
    requires BalancesMatch(stock, tracking, ahead)
    ensures RowsSound(stock.rows)
  {
  }

  lemma ArrivalAgrees(stock: Stock, left: Stock, tracking: Tracking, context: Context, t: nat, i: nat, lines: seq<Line>)
    requires i < |lines| && LinesNamed(Log(stock), t, lines) && Booked(left)
    requires lines[i].quantity >= 0 && lines[i].source != lines[i].destination
    requires AgreesUpTo(left, tracking, UnitsAhead(tracking, lines[i]))
    requires Log(left) == Log(stock) + [Departure(context, t, i, lines[i])]
    requires left.rows == Put(stock.rows, Left(RowAt(stock.rows, lines[i].product, lines[i].source), lines[i].quantity))
    requires lines[i].product in tracking.serials ==> UnitCount(Departure(context, t, i, lines[i])).Ok?
    ensures var line := lines[i];
            var r := Post(left, tracking, Arriving(RowAt(left.rows, line.product, line.destination), line.quantity),
                          Arrival(context, t, i, line), ArrivalDetails(context, line));
            r.Ok? ==>
              && Agrees(r.value, tracking)
              && Log(r.value) == Log(stock) + [Departure(context, t, i, line), Arrival(context, t, i, line)]
              && (forall p, l :: RowAt(r.value.rows, p, l) == Carried(RowAt(stock.rows, p, l), From(p, l)(line), To(p, l)(line)))
              && (forall p :: Balances.StockOf(r.value.rows, p) == Balances.StockOf(stock.rows, p))
  {
    hide LedgersAgree, BalancesMatch, Trackable, Explains, Post;
    var line := lines[i];
    assert RowsSound(left.rows) by { MatchFacts(left, tracking, UnitsAhead(tracking, line)); }
    assert line.product in tracking.serials ==> line.quantity % QUANTITY_SCALE == 0 by {
      assert line.product in tracking.serials ==> (-line.quantity) % QUANTITY_SCALE == 0;
    }
    ArrivalExplained(left, tracking, context, t, i, line);
    LineTrackable(left, tracking, Arrival(context, t, i, line), ArrivalDetails(context, line), t, i, lines);
    var row := Arriving(RowAt(left.rows, line.product, line.destination), line.quantity);
    PostKeepsAgreement(left, tracking, row, Arrival(context, t, i, line), ArrivalDetails(context, line), UnitsAhead(tracking, line), Level);
    forall p, l
      ensures RowAt(Put(left.rows, row), p, l) == Carried(RowAt(stock.rows, p, l), From(p, l)(line), To(p, l)(line))
    {
      PutIsRead(left.rows, row, p, l);
      PutIsRead(stock.rows, Left(RowAt(stock.rows, line.product, line.source), line.quantity), p, l);
    }
    forall p ensures Balances.StockOf(Put(left.rows, row), p) == Balances.StockOf(stock.rows, p) {
      PutChangesTotal(left.rows, row, p);
      PutChangesTotal(stock.rows, Left(RowAt(stock.rows, line.product, line.source), line.quantity), p);
    }
  }

  // ----- All lines of a dispatch -----

  lemma TotalHead<T>(rows: seq<T>, f: T -> int)
    requires rows != []
    ensures Total(rows, f) == f(rows[0]) + Total(rows[1..], f)
  {
    assert rows == [rows[0]] + rows[1..];
    TotalConcat([rows[0]], rows[1..], f);
    TotalAppend([], rows[0], f);
    assert [] + [rows[0]] == [rows[0]];
  }

  /** The whole dispatch: what each place sends and receives, line by line. */
  ghost predicate AllCarried(before: seq<Row>, after: seq<Row>, lines: seq<Line>) {
    forall p, l :: RowAt(after, p, l) == Carried(RowAt(before, p, l), Total(lines, From(p, l)), Total(lines, To(p, l)))
  }

  ghost predicate LinesGo(lines: seq<Line>) {
    forall i :: 0 <= i < |lines| ==> lines[i].quantity >= 0 && lines[i].source != lines[i].destination
  }

  lemma NamedAfterDispatch(log: seq<Movement>, context: Context, t: nat, i: nat, lines: seq<Line>)
    requires LinesNamed(log, t, lines) && i < |lines|
    ensures LinesNamed(log + [Departure(context, t, i, lines[i]), Arrival(context, t, i, lines[i])], t, lines)
  {
  }

  lemma {:induction false} DispatchLinesAgree(stock: Stock, tracking: Tracking, context: Context, t: nat, lines: seq<Line>, i: nat)
    requires Agrees(stock, tracking) && i <= |lines| && LinesNamed(Log(stock), t, lines) && Booked(stock) && LinesGo(lines)
    ensures var r := DispatchLines(stock, tracking, context, t, lines, i);
            r.Ok? ==> && Agrees(r.value, tracking) && LinesNamed(Log(r.value), t, lines)
                      && |Log(stock)| <= |Log(r.value)| && Log(r.value)[..|Log(stock)|] == Log(stock)
                      && AllCarried(stock.rows, r.value.rows, lines[i..])
                      && (forall p :: Balances.StockOf(r.value.rows, p) == Balances.StockOf(stock.rows, p))
                      && OnlyLines(Log(r.value)[|Log(stock)|..], t)
    decreases |lines| - i
  {
    hide Agrees, DispatchLine, RowAt, Total, LinesNamed, Balances.StockOf;
    if i == |lines| {
      assert lines[i..] == [];
      NothingCarried(stock.rows);
    } else {
      DispatchLineAgrees(stock, tracking, context, t, i, lines);
      var first := DispatchLine(stock, tracking, context, t, i, lines[i]);
      if first.Ok? {
        NamedAfterDispatch(Log(stock), context, t, i, lines);
        DispatchLinesAgree(first.value, tracking, context, t, lines, i + 1);
        var r := DispatchLines(first.value, tracking, context, t, lines, i + 1);
        if r.Ok? {
          assert lines[i..][1..] == lines[i + 1..] && lines[i..][0] == lines[i];
          CarriedOn(stock.rows, first.value.rows, r.value.rows, lines[i..]);
          assert Log(r.value)[..|Log(stock)|] == Log(r.value)[..|Log(first.value)|][..|Log(stock)|] == Log(stock);
          var pair := [Departure(context, t, i, lines[i]), Arrival(context, t, i, lines[i])];
          assert Log(r.value) == Log(first.value) + Log(r.value)[|Log(first.value)|..];
          assert Log(r.value)[|Log(stock)|..] == pair + Log(r.value)[|Log(first.value)|..];
        }
      }
    }
  }

  lemma NothingCarried(rows: seq<Row>)
    ensures AllCarried(rows, rows, [])
  {
  }

  lemma CarriedOn(before: seq<Row>, first: seq<Row>, after: seq<Row>, lines: seq<Line>)
    requires lines != [] && AllCarried(first, after, lines[1..])
    requires forall p, l :: RowAt(first, p, l) == Carried(RowAt(before, p, l), From(p, l)(lines[0]), To(p, l)(lines[0]))
    ensures AllCarried(before, after, lines)
  {
    hide RowAt;
    forall p, l
      ensures RowAt(after, p, l) == Carried(RowAt(before, p, l), Total(lines, From(p, l)), Total(lines, To(p, l)))
    {
      TotalHead(lines, From(p, l));
      TotalHead(lines, To(p, l));
    }
  }

  /** The movements belong to lines of one transfer. */
  ghost predicate OnlyLines(log: seq<Movement>, t: nat) {
    forall k :: 0 <= k < |log| ==> log[k].transferLine.Some? && log[k].transferLine.value.transfer == t
  }

  lemma {:induction false} EnsureRowsAgrees(stock: Stock, tracking: Tracking, lines: seq<Line>)
    requires Agrees(stock, tracking)
    ensures Agrees(stock.(rows := EnsureRows(stock.rows, lines)), tracking)
    ensures forall p, l :: RowAt(EnsureRows(stock.rows, lines), p, l) == RowAt(stock.rows, p, l)
    ensures forall p :: Balances.StockOf(EnsureRows(stock.rows, lines), p) == Balances.StockOf(stock.rows, p)
    decreases |lines|
  {
    hide AgreesUpTo, RowAt, Ensure, Balances.StockOf;
    if lines != [] {
      var first := stock.(rows := Ensure(stock.rows, lines[0].product, lines[0].source));
      EnsureKeepsAgreement(stock, tracking, Level, lines[0].product, lines[0].source);
      var second := first.(rows := Ensure(first.rows, lines[0].product, lines[0].destination));
      EnsureKeepsAgreement(first, tracking, Level, lines[0].product, lines[0].destination);
      EnsureRowsAgrees(second, tracking, lines[1..]);
    }
  }

  // ----- One received item -----

  /** The balance after an item: out of transit, the good part available, the rest gone. */
  function Settled(row: Row, received: int, discrepancy: int): Row {
    row.(inTransit := row.inTransit - received - discrepancy, available := row.available + received,
         quantity := row.quantity - discrepancy)
  }

  lemma ReceiptExplained(stock: Stock, tracking: Tracking, context: Context, t: nat, item: Item, line: Line)
    requires RowsSound(stock.rows) && item.received > 0
    requires RowAt(stock.rows, line.product, line.destination).inTransit >= item.received
    ensures Explains(stock, tracking, MadeAvailable(RowAt(stock.rows, line.product, line.destination), item.received),
                     ReceiptMovement(context, t, item, line),
                     Unguided(context, line.product, SerialOptions(Some(item.receivedSerials), None)), Level, Level)
  {
    ReadIsSound(stock.rows, line.product, line.destination);
    var m := ReceiptMovement(context, t, item, line);
    if line.product in tracking.serials && UnitCount(m).Ok? {
      assert MovedUnits(m) == item.received / QUANTITY_SCALE && item.received == QUANTITY_SCALE * (item.received / QUANTITY_SCALE);
      hide RowAt, UnitCount;
      forall l, s | InStock(s)
        ensures var row := RowAt(stock.rows, line.product, line.destination);
                (if l == m.location then StateOf(MadeAvailable(row, item.received), s) - StateOf(row, s) else 0)
                == QUANTITY_SCALE * (MovedUnits(m) * Shift(m, None, line.product, l, s))
      {
      }
    }
  }

  lemma DiscrepancyExplained(stock: Stock, tracking: Tracking, context: Context, t: nat, item: Item, line: Line)
    requires RowsSound(stock.rows) && item.discrepancy > 0
    requires RowAt(stock.rows, line.product, line.destination).inTransit >= item.discrepancy
    ensures Explains(stock, tracking, WrittenOff(RowAt(stock.rows, line.product, line.destination), item.discrepancy),
                     DiscrepancyMovement(context, t, item, line),
                     Unguided(context, line.product, SerialOptions(Some(item.discrepancySerials), None)), Level, Level)
  {
    ReadIsSound(stock.rows, line.product, line.destination);
    var m := DiscrepancyMovement(context, t, item, line);
    if line.product in tracking.serials && UnitCount(m).Ok? {
      assert MovedUnits(m) == item.discrepancy / QUANTITY_SCALE;
      assert item.discrepancy == QUANTITY_SCALE * (item.discrepancy / QUANTITY_SCALE) by { assert (-item.discrepancy) % QUANTITY_SCALE == 0; }
      hide RowAt, UnitCount;
      forall l, s | InStock(s)
        ensures var row := RowAt(stock.rows, line.product, line.destination);
                (if l == m.location then StateOf(WrittenOff(row, item.discrepancy), s) - StateOf(row, s) else 0)
                == QUANTITY_SCALE * (MovedUnits(m) * Shift(m, None, line.product, l, s))
      {
      }
    }
  }

  lemma FirstHalfAgrees(stock: Stock, tracking: Tracking, context: Context, t: nat, item: Item, lines: seq<Line>)
    requires Agrees(stock, tracking) && Booked(stock) && item.line < |lines| && LinesNamed(Log(stock), t, lines) && item.received >= 0
    requires RowAt(stock.rows, lines[item.line].product, lines[item.line].destination).inTransit >= item.received
    ensures var line := lines[item.line];
            var available := MadeAvailable(RowAt(stock.rows, line.product, line.destination), item.received);
            var details := Unguided(context, line.product, SerialOptions(Some(item.receivedSerials), None));
            var first := if item.received > 0 then Post(stock, tracking, available, ReceiptMovement(context, t, item, line), details)
                         else Ok(stock.(rows := Put(stock.rows, available)));
            first.Ok? ==>
              && Agrees(first.value, tracking) && Booked(first.value)
              && Log(first.value) == Log(stock) + (if item.received > 0 then [ReceiptMovement(context, t, item, line)] else [])
              && first.value.rows == Put(stock.rows, available)
  {
    hide LedgersAgree, BalancesMatch, Trackable, Explains, Post;
    var line := lines[item.line];
    var row := RowAt(stock.rows, line.product, line.destination);
    if item.received > 0 {
      assert RowsSound(stock.rows) by { MatchFacts(stock, tracking, Level); }
      var details := Unguided(context, line.product, SerialOptions(Some(item.receivedSerials), None));
      ReceiptExplained(stock, tracking, context, t, item, line);
      LineTrackable(stock, tracking, ReceiptMovement(context, t, item, line), details, t, item.line, lines);
      PostKeepsAgreement(stock, tracking, MadeAvailable(row, item.received), ReceiptMovement(context, t, item, line), details, Level, Level);
    } else {
      assert MadeAvailable(row, 0) == row;
      EnsureKeepsAgreement(stock, tracking, Level, line.product, line.destination);
    }
  }

  lemma SecondHalfAgrees(stock: Stock, tracking: Tracking, context: Context, t: nat, item: Item, lines: seq<Line>, row: Row)
    requires Agrees(stock, tracking) && Booked(stock) && item.line < |lines| && LinesNamed(Log(stock), t, lines) && item.discrepancy >= 0
    requires row == RowAt(stock.rows, lines[item.line].product, lines[item.line].destination) && row.inTransit >= item.discrepancy
    ensures var line := lines[item.line];
            var details := Unguided(context, line.product, SerialOptions(Some(item.discrepancySerials), None));
            var r := if item.discrepancy > 0 then
                       Post(stock, tracking, WrittenOff(row, item.discrepancy), DiscrepancyMovement(context, t, item, line), details)
                     else Ok(stock.(rows := Put(stock.rows, WrittenOff(row, item.discrepancy))));
            r.Ok? ==>
              && Agrees(r.value, tracking)
              && Log(r.value) == Log(stock) + (if item.discrepancy > 0 then [DiscrepancyMovement(context, t, item, line)] else [])
              && r.value.rows == Put(stock.rows, WrittenOff(row, item.discrepancy))
  {
    hide LedgersAgree, BalancesMatch, Trackable, Explains, Post;
    var line := lines[item.line];
    if item.discrepancy > 0 {
      assert RowsSound(stock.rows) by { MatchFacts(stock, tracking, Level); }
      var details := Unguided(context, line.product, SerialOptions(Some(item.discrepancySerials), None));
      DiscrepancyExplained(stock, tracking, context, t, item, line);
      LineTrackable(stock, tracking, DiscrepancyMovement(context, t, item, line), details, t, item.line, lines);
      PostKeepsAgreement(stock, tracking, WrittenOff(row, item.discrepancy), DiscrepancyMovement(context, t, item, line), details, Level, Level);
    } else {
      assert WrittenOff(row, 0) == row;
      EnsureKeepsAgreement(stock, tracking, Level, line.product, line.destination);
    }
  }

  ghost predicate ItemSettled(before: seq<Row>, after: seq<Row>, line: Line, item: Item) {
    && (forall p, l :: RowAt(after, p, l)
          == if p == line.product && l == line.destination then Settled(RowAt(before, p, l), item.received, item.discrepancy)
             else RowAt(before, p, l))
    && (forall p :: Balances.StockOf(after, p) == Balances.StockOf(before, p) - (if p == line.product then item.discrepancy else 0))
  }

  /** A received item leaves transit: its good part becomes available, the rest leaves the stock, in
      every projection. */
  lemma ReceiveItemAgrees(stock: Stock, tracking: Tracking, context: Context, t: nat, item: Item, lines: seq<Line>)
    requires Agrees(stock, tracking) && Booked(stock) && item.line < |lines| && LinesNamed(Log(stock), t, lines)
    requires item.received >= 0 && item.discrepancy >= 0
    ensures var r := ReceiveItem(stock, tracking, context, t, item, lines[item.line]);
            r.Ok? ==> && Agrees(r.value, tracking) && LinesNamed(Log(r.value), t, lines)
                      && |Log(stock)| <= |Log(r.value)| && Log(r.value)[..|Log(stock)|] == Log(stock)
                      && OnlyLines(Log(r.value)[|Log(stock)|..], t)
                      && ItemSettled(stock.rows, r.value.rows, lines[item.line], item)
  {
    hide Agrees, Post, RowAt, Put;
    var line := lines[item.line];
    var row := RowAt(stock.rows, line.product, line.destination);
    if row.inTransit >= item.received + item.discrepancy {
      FirstHalfAgrees(stock, tracking, context, t, item, lines);
      var available := MadeAvailable(row, item.received);
      var details := Unguided(context, line.product, SerialOptions(Some(item.receivedSerials), None));
      var first := if item.received > 0 then Post(stock, tracking, available, ReceiptMovement(context, t, item, line), details)
                   else Ok(stock.(rows := Put(stock.rows, available)));
      if first.Ok? {
        assert RowAt(first.value.rows, line.product, line.destination) == available by {
          PutIsRead(stock.rows, available, line.product, line.destination);
        }
        SecondHalfAgrees(first.value, tracking, context, t, item, lines, available);
        SettledRows(stock.rows, row, line, item);
      }
    }
  }

  lemma SettledRows(rows: seq<Row>, row: Row, line: Line, item: Item)
    requires row == RowAt(rows, line.product, line.destination)
    ensures ItemSettled(rows, Put(Put(rows, MadeAvailable(row, item.received)), WrittenOff(MadeAvailable(row, item.received), item.discrepancy)), line, item)
  {
    var first := Put(rows, MadeAvailable(row, item.received));
    var last := WrittenOff(MadeAvailable(row, item.received), item.discrepancy);
    forall p, l
      ensures RowAt(Put(first, last), p, l)
              == if p == line.product && l == line.destination then Settled(RowAt(rows, p, l), item.received, item.discrepancy)
                 else RowAt(rows, p, l)
    {
      PutIsRead(rows, MadeAvailable(row, item.received), p, l);
      PutIsRead(first, last, p, l);
    }
    forall p
      ensures Balances.StockOf(Put(first, last), p) == Balances.StockOf(rows, p) - (if p == line.product then item.discrepancy else 0)
    {
      PutChangesTotal(rows, MadeAvailable(row, item.received), p);
      PutChangesTotal(first, last, p);
      PutIsRead(rows, MadeAvailable(row, item.received), line.product, line.destination);
    }
  }
}
