/** The inventory_balances table: one row for a product at a location, split by stock state. */
module Balances {
  import opened Outcomes
  import opened Sums
  import opened Movements

  datatype Row = Row(product: Product, location: Location, quantity: int, available: int, reserved: int, damaged: int, inTransit: int)

  /** The column of a stock state. */
  function StateOf(row: Row, status: SerialStatus): int {
    match status
    case Available => row.available
    case Reserved => row.reserved
    case Damaged => row.damaged
    case InTransit => row.inTransit
    case _ => 0
  }

  function WithState(row: Row, status: SerialStatus, value: int): Row {
    match status
    case Available => row.(available := value)
    case Reserved => row.(reserved := value)
    case Damaged => row.(damaged := value)
    case InTransit => row.(inTransit := value)
    case _ => row
  }

  function Find(rows: seq<Row>, product: Product, location: Location, n: nat): (r: Option<nat>)
    requires n <= |rows|
    ensures r.Some? ==> r.value < n && rows[r.value].product == product && rows[r.value].location == location
    ensures r.None? ==> forall k :: 0 <= k < n ==> rows[k].product != product || rows[k].location != location
  {
    if n == 0 then None
    else
      var before := Find(rows, product, location, n - 1);
      if before.None? && rows[n - 1].product == product && rows[n - 1].location == location then Some(n - 1) else before
  }

  predicate Exists(rows: seq<Row>, product: Product, location: Location) {
    Find(rows, product, location, |rows|).Some?
  }

  /** The row of a product at a location; a missing row reads as zero. */
  function RowAt(rows: seq<Row>, product: Product, location: Location): (r: Row)
    ensures r.product == product && r.location == location
  {
    match Find(rows, product, location, |rows|)
    case None => Row(product, location, 0, 0, 0, 0, 0)
    case Some(i) => rows[i]
  }

  /** Inserts the row if it is missing and writes its columns. */
  function Put(rows: seq<Row>, row: Row): seq<Row> {
    match Find(rows, row.product, row.location, |rows|)
    case None => rows + [row]
    case Some(i) => rows[i := row]
  }

  /** INSERT ... ON DUPLICATE KEY UPDATE quantity = quantity. */
  function Ensure(rows: seq<Row>, product: Product, location: Location): seq<Row> {
    Put(rows, RowAt(rows, product, location))
  }

  function QuantityOf(product: Product): Row -> int {
    (r: Row) => if r.product == product then r.quantity else 0
  }

  /** SUM(quantity) of a product over all locations. */
  function StockOf(rows: seq<Row>, product: Product): int {
    Total(rows, QuantityOf(product))
  }

  // ----- Sound rows -----

  /** No column is negative and the states add up to the quantity. */
  predicate RowSound(row: Row) {
    && row.available >= 0 && row.reserved >= 0 && row.damaged >= 0 && row.inTransit >= 0
    && row.quantity == row.available + row.reserved + row.damaged + row.inTransit
  }

  ghost predicate KeysUnique(rows: seq<Row>) {
    forall j, k :: 0 <= j < k < |rows| ==> rows[j].product != rows[k].product || rows[j].location != rows[k].location
  }

  ghost predicate RowsSound(rows: seq<Row>) {
    KeysUnique(rows) && forall k :: 0 <= k < |rows| ==> RowSound(rows[k])
  }

  lemma {:induction false} FindExtends(rows: seq<Row>, more: seq<Row>, product: Product, location: Location, n: nat)
    requires n <= |rows|
    ensures Find(rows + more, product, location, n) == Find(rows, product, location, n)
  {
    if n > 0 {
      FindExtends(rows, more, product, location, n - 1);
    }
  }

  lemma {:induction false} FindUpdated(rows: seq<Row>, i: nat, row: Row, product: Product, location: Location, n: nat)
    requires n <= |rows| && i < |rows| && rows[i].product == row.product && rows[i].location == row.location
    ensures Find(rows[i := row], product, location, n) == Find(rows, product, location, n)
  {
    if n > 0 {
      FindUpdated(rows, i, row, product, location, n - 1);
    }
  }

  /** A write is read back, and no other row changes. */
  lemma PutIsRead(rows: seq<Row>, row: Row, product: Product, location: Location)
    ensures RowAt(Put(rows, row), product, location)
            == if product == row.product && location == row.location then row else RowAt(rows, product, location)
    ensures Exists(Put(rows, row), product, location)
            <==> Exists(rows, product, location) || (product == row.product && location == row.location)
  {
    match Find(rows, row.product, row.location, |rows|)
    case None => FindExtends(rows, [row], product, location, |rows|);
    case Some(i) => FindUpdated(rows, i, row, product, location, |rows|);
  }

  /** A second write to the same row replaces the first. */
  lemma PutTwice(rows: seq<Row>, first: Row, second: Row)
    requires first.product == second.product && first.location == second.location
    ensures Put(Put(rows, first), second) == Put(rows, second)
  {
    match Find(rows, first.product, first.location, |rows|)
    case None =>
      FindExtends(rows, [first], first.product, first.location, |rows|);
      assert Find(rows + [first], first.product, first.location, |rows| + 1) == Some(|rows|);
      assert (rows + [first])[|rows| := second] == rows + [second];
    case Some(i) =>
      FindUpdated(rows, i, first, first.product, first.location, |rows|);
      assert rows[i := first][i := second] == rows[i := second];
  }

  lemma PutKeepsSound(rows: seq<Row>, row: Row)
    requires RowsSound(rows) && RowSound(row)
    ensures RowsSound(Put(rows, row))
  {
  }

  lemma PutChangesTotal(rows: seq<Row>, row: Row, product: Product)
    ensures StockOf(Put(rows, row), product)
            == StockOf(rows, product) + (if product == row.product then row.quantity - RowAt(rows, row.product, row.location).quantity else 0)
  {
    match Find(rows, row.product, row.location, |rows|)
    case None => TotalAppend(rows, row, QuantityOf(product));
    case Some(i) => TotalUpdate(rows, i, row, QuantityOf(product));
  }

  lemma ReadIsSound(rows: seq<Row>, product: Product, location: Location)
    requires RowsSound(rows)
    ensures RowSound(RowAt(rows, product, location))
  {
  }
}
