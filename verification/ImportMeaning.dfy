/** What a confirmed import does to the balances and the log, said of the rows of the file. */
module ImportMeaning {
  import opened Outcomes
  import opened Sums
  import opened Rounding
  import opened Movements
  import opened Quantity
  import opened Serials
  import opened Balances
  import opened Ledgers
  import opened Stock
  import opened Site
  import opened Writers
  import opened WriterAgreement

  /** The row says which product, where, in which state in stock, and how much. */
  ghost predicate Complete(row: ImportRow) {
    row.product.Some? && row.location.Some? && row.state.Some? && row.target.Some? && InStock(row.state.value)
  }

  ghost predicate Names(row: ImportRow, p: Product, l: Location, s: SerialStatus) {
    row.product == Some(p) && row.location == Some(l) && row.state == Some(s)
  }

  /** No two rows are about the same state of a product at a place. */
  ghost predicate NamesOnce(rows: seq<ImportRow>) {
    forall j, k :: 0 <= j < k < |rows| ==>
      rows[j].product != rows[k].product || rows[j].location != rows[k].location || rows[j].state != rows[k].state
  }

  ghost function StateAt(rows: seq<Row>, p: Product, l: Location, s: SerialStatus): int {
    StateOf(RowAt(rows, p, l), s)
  }

  /** One row sets its own state to its target and leaves every other state as it was. */
  ghost predicate RowSet(before: seq<Row>, after: seq<Row>, row: ImportRow)
    requires Complete(row)
  {
    forall p, l, s | InStock(s) ::
      StateAt(after, p, l, s) == if Names(row, p, l, s) then row.target.value else StateAt(before, p, l, s)
  }

  ghost function ImportMovement(context: Context, row: ImportRow, difference: int): Movement
    requires Complete(row)
  {
    Plain(row.product.value, row.location.value, Import, difference, context.now, context.currency)
  }

  lemma StatesApart(row: Row, s: SerialStatus, value: int, quantity: int, other: SerialStatus)
    requires InStock(s) && InStock(other)
    ensures StateOf(WithState(row, s, value).(quantity := quantity), other) == if other == s then value else StateOf(row, other)
  {
  }

  lemma KeyKept(row: Row, s: SerialStatus, value: int)
    ensures WithState(row, s, value).product == row.product && WithState(row, s, value).location == row.location
  {
  }

  lemma PutSets(rows: seq<Row>, row: ImportRow, quantity: int)
    requires Complete(row)
    ensures var after := WithState(RowAt(rows, row.product.value, row.location.value), row.state.value, row.target.value).(quantity := quantity);
            RowSet(rows, Put(rows, after), row)
  {
    hide RowAt, Put, StateOf, WithState;
    var p, l, state, target := row.product.value, row.location.value, row.state.value, row.target.value;
    var balance := RowAt(rows, p, l);
    var after := WithState(balance, state, target).(quantity := quantity);
    KeyKept(balance, state, target);
    forall x, y, s | InStock(s)
      ensures StateAt(Put(rows, after), x, y, s) == if Names(row, x, y, s) then target else StateAt(rows, x, y, s)
    {
      PutIsRead(rows, after, x, y);
      StatesApart(balance, state, target, quantity, s);
    }
  }

  lemma EnsureSets(rows: seq<Row>, row: ImportRow)
    requires Complete(row) && row.target.value == StateAt(rows, row.product.value, row.location.value, row.state.value)
    ensures RowSet(rows, Ensure(rows, row.product.value, row.location.value), row)
  {
    hide RowAt, Put, StateOf;
    var p, l := row.product.value, row.location.value;
    forall x, y, s | InStock(s)
      ensures StateAt(Ensure(rows, p, l), x, y, s) == if Names(row, x, y, s) then row.target.value else StateAt(rows, x, y, s)
    {
      PutIsRead(rows, RowAt(rows, p, l), x, y);
    }
  }

  /** A confirmed row held what its preview saw; it is set to its target and booked as the difference, if
      there is one. */
  ghost predicate RowConfirmed(before: Importing, after: Importing, context: Context, warehouse: Warehouse, row: ImportRow) {
    && Complete(row) && row.preview == Some(StateAt(before.stock.rows, row.product.value, row.location.value, row.state.value))
    && TargetUsable(context, row.product.value, row.location.value, warehouse)
    && RowSet(before.stock.rows, after.stock.rows, row)
    && var difference := row.target.value - row.preview.value;
       && after.count == before.count + (if difference == 0 then 0 else 1)
       && Log(after.stock) == Log(before.stock) + (if difference == 0 then [] else [ImportMovement(context, row, difference)])
  }

  /** The row can be confirmed: it holds what its preview saw, at a place and of a product that may hold stock. */
  ghost predicate Holds(rows: seq<Row>, context: Context, warehouse: Warehouse, row: ImportRow) {
    && Complete(row) && TargetUsable(context, row.product.value, row.location.value, warehouse)
    && row.preview == Some(StateAt(rows, row.product.value, row.location.value, row.state.value))
  }

  /** The ledgers take the difference the row makes, if it makes one. */
  ghost predicate Taken(ledgers: Ledgers, tracking: Tracking, context: Context, row: ImportRow)
    requires |ledgers.book.movements| == |ledgers.book.figures| && Complete(row) && row.preview.Some?
  {
    var difference := row.target.value - row.preview.value;
    difference != 0 ==>
      Record(ledgers, tracking, ImportMovement(context, row, difference), Unguided(context, row.product.value, SerialOptions(None, None))).Ok?
  }

  lemma ConfirmRowIs(tx: Importing, tracking: Tracking, context: Context, warehouse: Warehouse, row: ImportRow)
    requires Booked(tx.stock) && (row.state.Some? ==> InStock(row.state.value))
    ensures ConfirmRow(tx, tracking, context, warehouse, row).Ok?
            <==> Holds(tx.stock.rows, context, warehouse, row) && Taken(tx.stock.ledgers, tracking, context, row)
    ensures ConfirmRow(tx, tracking, context, warehouse, row).Ok? ==>
            var r, p, l := ConfirmRow(tx, tracking, context, warehouse, row).value, row.product.value, row.location.value;
            var balance, difference := RowAt(tx.stock.rows, p, l), row.target.value - row.preview.value;
            if difference == 0 then r == tx.(stock := tx.stock.(rows := Ensure(tx.stock.rows, p, l)))
            else
              var posted := Post(tx.stock, tracking, WithState(balance, row.state.value, row.target.value).(quantity := balance.quantity + difference),
                                 ImportMovement(context, row, difference), Unguided(context, p, SerialOptions(None, None)));
              posted.Ok? && r == Importing(posted.value, tx.count + 1)
  {
    hide TargetUsable, RowAt, Ensure, StateOf, WithState, Unguided, Record, Put;
  }

  /** A row is confirmed exactly when it holds what its preview saw and the ledgers take the difference. */
  lemma RowConfirms(tx: Importing, tracking: Tracking, context: Context, warehouse: Warehouse, row: ImportRow)
    requires Booked(tx.stock) && (row.state.Some? ==> InStock(row.state.value))
    ensures var r := ConfirmRow(tx, tracking, context, warehouse, row);
            && (r.Ok? <==> Holds(tx.stock.rows, context, warehouse, row) && Taken(tx.stock.ledgers, tracking, context, row))
            && (r.Ok? ==> RowConfirmed(tx, r.value, context, warehouse, row))
  {
    hide Post, TargetUsable, RowAt, Put, StateOf, WithState, RowSet, ConfirmRow, Unguided, Complete, Taken, Record;
    var r := ConfirmRow(tx, tracking, context, warehouse, row);
    ConfirmRowIs(tx, tracking, context, warehouse, row);
    if r.Ok? {
      assert row.product.Some? && row.location.Some? && row.state.Some? && row.target.Some? by { CompleteParts(row); }
      var balance := RowAt(tx.stock.rows, row.product.value, row.location.value);
      var difference := row.target.value - row.preview.value;
      if difference == 0 {
        EnsureSets(tx.stock.rows, row);
      } else {
        var after := WithState(balance, row.state.value, row.target.value).(quantity := balance.quantity + difference);
        PostLogs(tx.stock, tracking, after, ImportMovement(context, row, difference), Unguided(context, row.product.value, SerialOptions(None, None)));
        PutSets(tx.stock.rows, row, balance.quantity + difference);
      }
    }
  }

  lemma CompleteParts(row: ImportRow)
    requires Complete(row)
    ensures row.product.Some? && row.location.Some? && row.state.Some? && row.target.Some?
  {
  }

  // ----- All rows -----

  /** The movements an import books: one for each row whose state differs from its target, in row order. */
  ghost function ImportMovements(context: Context, rows: seq<ImportRow>): seq<Movement>
    requires forall k :: 0 <= k < |rows| ==> Complete(rows[k]) && rows[k].preview.Some?
  {
    if rows == [] then []
    else
      assert Complete(rows[0]);
      var difference := rows[0].target.value - rows[0].preview.value;
      (if difference == 0 then [] else [ImportMovement(context, rows[0], difference)]) + ImportMovements(context, rows[1..])
  }

  /** Every row held what its preview saw and now holds its target; nothing else has changed. */
  ghost predicate AllConfirmed(before: Importing, after: Importing, context: Context, warehouse: Warehouse, rows: seq<ImportRow>) {
    && (forall k :: 0 <= k < |rows| ==>
          && Complete(rows[k]) && TargetUsable(context, rows[k].product.value, rows[k].location.value, warehouse)
          && rows[k].preview == Some(StateAt(before.stock.rows, rows[k].product.value, rows[k].location.value, rows[k].state.value))
          && StateAt(after.stock.rows, rows[k].product.value, rows[k].location.value, rows[k].state.value) == rows[k].target.value)
    && (forall p, l, s | InStock(s) && (forall k :: 0 <= k < |rows| ==> !Names(rows[k], p, l, s)) ::
          StateAt(after.stock.rows, p, l, s) == StateAt(before.stock.rows, p, l, s))
    && Log(after.stock) == Log(before.stock) + ImportMovements(context, rows)
    && after.count == before.count + |ImportMovements(context, rows)|
  }

  lemma NothingConfirmed(tx: Importing, context: Context, warehouse: Warehouse)
    ensures AllConfirmed(tx, tx, context, warehouse, [])
  {
  }

  lemma ConfirmedOn(before: Importing, next: Importing, after: Importing, context: Context, warehouse: Warehouse, rows: seq<ImportRow>)
    requires rows != [] && NamesOnce(rows)
    requires RowConfirmed(before, next, context, warehouse, rows[0]) && AllConfirmed(next, after, context, warehouse, rows[1..])
    ensures AllConfirmed(before, after, context, warehouse, rows)
  {
    hide RowAt, StateOf, TargetUsable;
    forall k | 0 <= k < |rows|
      ensures Complete(rows[k]) && TargetUsable(context, rows[k].product.value, rows[k].location.value, warehouse)
      ensures rows[k].preview == Some(StateAt(before.stock.rows, rows[k].product.value, rows[k].location.value, rows[k].state.value))
      ensures StateAt(after.stock.rows, rows[k].product.value, rows[k].location.value, rows[k].state.value) == rows[k].target.value
    {
      if k > 0 {
        assert rows[k] == rows[1..][k - 1];
      } else {
        forall j | 0 <= j < |rows[1..]| ensures !Names(rows[1..][j], rows[0].product.value, rows[0].location.value, rows[0].state.value) {
          assert rows[1..][j] == rows[j + 1];
        }
      }
    }
    forall p, l, s | InStock(s) && (forall k :: 0 <= k < |rows| ==> !Names(rows[k], p, l, s))
      ensures StateAt(after.stock.rows, p, l, s) == StateAt(before.stock.rows, p, l, s)
    {
      assert forall j :: 0 <= j < |rows[1..]| ==> !Names(rows[1..][j], p, l, s);
    }
  }

  lemma {:induction false} RowsConfirm(tx: Importing, tracking: Tracking, context: Context, warehouse: Warehouse, rows: seq<ImportRow>)
    requires Booked(tx.stock) && NamesOnce(rows) && forall k :: 0 <= k < |rows| && rows[k].state.Some? ==> InStock(rows[k].state.value)
    ensures var r := ConfirmRows(tx, tracking, context, warehouse, rows);
            r.Ok? ==> AllConfirmed(tx, r.value, context, warehouse, rows)
    decreases |rows|
  {
    hide ConfirmRow, RowConfirmed, AllConfirmed, RowAt;
    if rows == [] {
      NothingConfirmed(tx, context, warehouse);
    } else {
      RowConfirms(tx, tracking, context, warehouse, rows[0]);
      var next := ConfirmRow(tx, tracking, context, warehouse, rows[0]);
      if next.Ok? {
        RowsConfirm(next.value, tracking, context, warehouse, rows[1..]);
        var r := ConfirmRows(next.value, tracking, context, warehouse, rows[1..]);
        if r.Ok? {
          ConfirmedOn(tx, next.value, r.value, context, warehouse, rows);
        }
      }
    }
  }

  // ----- When an import is accepted -----

  ghost function DifferenceOf(row: ImportRow): int
    requires Complete(row) && row.preview.Some?
  {
    row.target.value - row.preview.value
  }

  /** The ledgers take the differences of the rows one after the other. */
  ghost predicate TakenInTurn(ledgers: Ledgers, tracking: Tracking, context: Context, rows: seq<ImportRow>)
    requires |ledgers.book.movements| == |ledgers.book.figures|
    decreases |rows|
  {
    rows == []
    || (Complete(rows[0]) && rows[0].preview.Some? && Taken(ledgers, tracking, context, rows[0])
        && TakenInTurn(LedgersAfter(ledgers, tracking, context, rows[0]), tracking, context, rows[1..]))
  }

  ghost function LedgersAfter(ledgers: Ledgers, tracking: Tracking, context: Context, row: ImportRow): (r: Ledgers)
    requires |ledgers.book.movements| == |ledgers.book.figures| && Complete(row) && row.preview.Some? && Taken(ledgers, tracking, context, row)
    ensures |r.book.movements| == |r.book.figures|
  {
    hide Record, Unguided;
    if DifferenceOf(row) == 0 then ledgers
    else
      Record(ledgers, tracking, ImportMovement(context, row, DifferenceOf(row)),
             Unguided(context, row.product.value, SerialOptions(None, None))).value
  }

  lemma LedgersFollow(tx: Importing, tracking: Tracking, context: Context, warehouse: Warehouse, row: ImportRow)
    requires Booked(tx.stock) && (row.state.Some? ==> InStock(row.state.value)) && ConfirmRow(tx, tracking, context, warehouse, row).Ok?
    ensures Complete(row) && row.preview.Some? && Taken(tx.stock.ledgers, tracking, context, row)
    ensures ConfirmRow(tx, tracking, context, warehouse, row).value.stock.ledgers == LedgersAfter(tx.stock.ledgers, tracking, context, row)
  {
    hide ConfirmRow, TargetUsable, RowAt, Put, StateOf, WithState, Unguided, Record, Post, Complete, InStock;
    ConfirmRowIs(tx, tracking, context, warehouse, row);
    CompleteParts(row);
    if DifferenceOf(row) != 0 {
      var balance := RowAt(tx.stock.rows, row.product.value, row.location.value);
      PostLedgers(tx.stock, tracking, WithState(balance, row.state.value, row.target.value).(quantity := balance.quantity + DifferenceOf(row)),
                  ImportMovement(context, row, DifferenceOf(row)), Unguided(context, row.product.value, SerialOptions(None, None)));
    }
  }

  lemma PostLedgers(stock: Stock, tracking: Tracking, row: Row, m: Movement, details: Details)
    requires Booked(stock) && Post(stock, tracking, row, m, details).Ok?
    ensures Record(stock.ledgers, tracking, m, details) == Ok(Post(stock, tracking, row, m, details).value.ledgers)
  {
    hide Record, Put;
  }

  lemma HeldOn(before: Importing, next: Importing, context: Context, warehouse: Warehouse, first: ImportRow, row: ImportRow)
    requires RowConfirmed(before, next, context, warehouse, first) && (row.state.Some? ==> InStock(row.state.value))
    requires first.product != row.product || first.location != row.location || first.state != row.state
    ensures Holds(next.stock.rows, context, warehouse, row) <==> Holds(before.stock.rows, context, warehouse, row)
  {
    hide RowAt, StateOf, TargetUsable;
    if Complete(row) {
      assert !Names(first, row.product.value, row.location.value, row.state.value);
    }
  }

  ghost predicate AllHold(rows: seq<Row>, context: Context, warehouse: Warehouse, file: seq<ImportRow>) {
    forall k :: 0 <= k < |file| ==> Holds(rows, context, warehouse, file[k])
  }

  lemma AllHoldOn(before: Importing, next: Importing, context: Context, warehouse: Warehouse, rows: seq<ImportRow>)
    requires rows != [] && NamesOnce(rows) && forall k :: 0 <= k < |rows| && rows[k].state.Some? ==> InStock(rows[k].state.value)
    requires RowConfirmed(before, next, context, warehouse, rows[0]) && Holds(before.stock.rows, context, warehouse, rows[0])
    ensures AllHold(before.stock.rows, context, warehouse, rows) <==> AllHold(next.stock.rows, context, warehouse, rows[1..])
  {
    hide RowConfirmed, Holds;
    forall k | 1 <= k < |rows|
      ensures Holds(next.stock.rows, context, warehouse, rows[1..][k - 1]) <==> Holds(before.stock.rows, context, warehouse, rows[k])
    {
      HeldOn(before, next, context, warehouse, rows[0], rows[k]);
    }
    if AllHold(next.stock.rows, context, warehouse, rows[1..]) {
      forall k | 0 <= k < |rows| ensures Holds(before.stock.rows, context, warehouse, rows[k]) {
        if k > 0 {
          assert rows[1..][k - 1] == rows[k];
        }
      }
    }
  }

  /** Rows that name each state once are confirmed exactly when each of them holds what its preview saw
      before the first one was written, and the ledgers take their differences. */
  lemma {:induction false} RowsAreConfirmed(tx: Importing, tracking: Tracking, context: Context, warehouse: Warehouse, rows: seq<ImportRow>)
    requires Booked(tx.stock) && NamesOnce(rows) && forall k :: 0 <= k < |rows| && rows[k].state.Some? ==> InStock(rows[k].state.value)
    ensures ConfirmRows(tx, tracking, context, warehouse, rows).Ok?
            <==> AllHold(tx.stock.rows, context, warehouse, rows) && TakenInTurn(tx.stock.ledgers, tracking, context, rows)
    decreases |rows|
  {
    hide ConfirmRow, RowConfirmed, Holds, RowAt, Taken, LedgersAfter, Complete;
    if rows != [] {
      RowConfirms(tx, tracking, context, warehouse, rows[0]);
      var next := ConfirmRow(tx, tracking, context, warehouse, rows[0]);
      if next.Ok? {
        LedgersFollow(tx, tracking, context, warehouse, rows[0]);
        AllHoldOn(tx, next.value, context, warehouse, rows);
        RowsAreConfirmed(next.value, tracking, context, warehouse, rows[1..]);
      }
    }
  }

  /** A new confirmation of a file whose rows name each state once is accepted exactly when the file has no
      errors and a new key, every row still holds what its preview saw, and the ledgers take the differences.
      It sets every state the file names to its target and no other, books the differences, and marks the
      file with its key and the number of movements. */
  lemma ImportSetsTargets(stock: Stock, files: seq<ImportFile>, tracking: Tracking, context: Context, f: nat, warehouse: Warehouse, key: Site.Key)
    requires Booked(stock) && f < |files| && !files[f].confirmed && NamesOnce(files[f].rows)
    requires forall k :: 0 <= k < |files[f].rows| && files[f].rows[k].state.Some? ==> InStock(files[f].rows[k].state.value)
    ensures var r := ConfirmImport(stock, files, tracking, context, f, warehouse, key);
            && (r.Ok? <==>
                  && files[f].warehouse == warehouse && files[f].errorRows == 0
                  && (forall k :: 0 <= k < |files| && k != f ==> files[k].key != Some(key))
                  && AllHold(stock.rows, context, warehouse, files[f].rows)
                  && TakenInTurn(stock.ledgers, tracking, context, files[f].rows))
            && (r.Ok? ==>
                  && |r.value.files| == |files| && (forall k :: 0 <= k < |files| && k != f ==> r.value.files[k] == files[k])
                  && r.value.files[f] == files[f].(confirmed := true, key := Some(key), movementCount := r.value.files[f].movementCount)
                  && AllConfirmed(Importing(stock, 0), Importing(r.value.stock, r.value.files[f].movementCount), context, warehouse, files[f].rows))
  {
    RowsConfirm(Importing(stock, 0), tracking, context, warehouse, files[f].rows);
    RowsAreConfirmed(Importing(stock, 0), tracking, context, warehouse, files[f].rows);
    hide ConfirmRows, ImportMovements, RowAt, StateOf, TargetUsable, AllConfirmed, AllHold, TakenInTurn;
  }
}
