/** The reconciliation: loops that compare the projections and collect findings. A report without
    findings is exactly agreement. */
module Reconciliation {
  import opened Outcomes
  import opened Sums
  import opened Rounding
  import opened Movements
  import opened Fifo
  import opened FifoInvariants
  import opened FifoRuns
  import opened Lots
  import opened LotInvariants
  import opened Serials
  import opened SerialInvariants
  import opened Balances
  import opened Ledgers
  import opened Stock

  datatype Code =
    | BalanceMovementMismatch | BalanceStateMismatch | ValuationQuantityMismatch | ValuationValueMismatch
    | FifoLayerMismatch | LotBalanceMismatch | LotLedgerMismatch
    | SerialStateMismatch(status: SerialStatus) | SerialCustodyInvalid | SerialHistoryMismatch

  datatype Scope = Place(product: Product, location: Location) | Whole(product: Product) | OfLot(lot: nat, location: Location) | OfSerial(serial: nat)

  datatype Finding = Finding(code: Code, scope: Scope, expected: int, actual: int)

  datatype Key = Key(product: Product, location: Location)

  // ----- Scope keys -----

  function BalanceKeys(rows: seq<Row>): (r: seq<Key>)
    ensures |r| == |rows|
  {
    seq(|rows|, i requires 0 <= i < |rows| => Key(rows[i].product, rows[i].location))
  }

  function MovementKeys(log: seq<Movement>): (r: seq<Key>)
    ensures |r| == |log|
  {
    seq(|log|, i requires 0 <= i < |log| => Key(log[i].product, log[i].location))
  }

  function LayerKeys(layers: seq<Layer>): (r: seq<Key>)
    ensures |r| == |layers|
  {
    seq(|layers|, i requires 0 <= i < |layers| => Key(layers[i].product, layers[i].location))
  }

  function LotKeys(book: LotBook): (r: seq<Key>)
    ensures |r| == |book.balances|
  {
    seq(|book.balances|, i requires 0 <= i < |book.balances| =>
      Key(if book.balances[i].lot < |book.lots| then book.lots[book.balances[i].lot].product else 0, book.balances[i].location))
  }

  /** UNION keeps each key once. */
  function Union(keys: seq<Key>): (r: seq<Key>)
    ensures forall key :: key in r <==> key in keys
  {
    if keys == [] then []
    else
      var rest := Union(keys[..|keys| - 1]);
      var last := keys[|keys| - 1];
      assert keys == keys[..|keys| - 1] + [last];
      if last in rest then rest else rest + [last]
  }

  // ----- One comparison -----

  /** A finding for a difference; differences below half a thousandth cannot occur in thousandths. */
  function Compared(code: Code, scope: Scope, expected: int, actual: int): seq<Finding> {
    if expected == actual then [] else [Finding(code, scope, expected, actual)]
  }

  /** The findings of all keys, in order. */
  function ComparedKeys(code: Code, keys: seq<Key>, expected: Key -> int, actual: Key -> int): seq<Finding> {
    if keys == [] then []
    else
      var last := keys[|keys| - 1];
      ComparedKeys(code, keys[..|keys| - 1], expected, actual)
      + Compared(code, Place(last.product, last.location), expected(last), actual(last))
  }

  lemma {:induction false} NoFindingsMeansEqual(code: Code, keys: seq<Key>, expected: Key -> int, actual: Key -> int)
    ensures ComparedKeys(code, keys, expected, actual) == [] <==> forall key :: key in keys ==> expected(key) == actual(key)
  {
    if keys != [] {
      var last := keys[|keys| - 1];
      assert keys == keys[..|keys| - 1] + [last];
      NoFindingsMeansEqual(code, keys[..|keys| - 1], expected, actual);
      assert last in keys;
    }
  }

  /** The loop over the rows of a mismatch query. */
  method AddQuantityRows(code: Code, keys: seq<Key>, expected: Key -> int, actual: Key -> int) returns (findings: seq<Finding>)
    ensures findings == ComparedKeys(code, keys, expected, actual)
    ensures findings == [] <==> forall key :: key in keys ==> expected(key) == actual(key)
  {
    findings := [];
    var i := 0;
    while i < |keys|
      invariant i <= |keys|
      invariant findings == ComparedKeys(code, keys[..i], expected, actual)
    {
      var key := keys[i];
      assert keys[..i + 1][..i] == keys[..i] && keys[..i + 1][i] == key;
      if expected(key) != actual(key) {
        findings := findings + [Finding(code, Place(key.product, key.location), expected(key), actual(key))];
      }
      i := i + 1;
    }
    assert keys[..i] == keys;
    NoFindingsMeansEqual(code, keys, expected, actual);
  }

  // ----- The quantities compared -----

  function BalanceOf(stock: Stock): Key -> int {
    (key: Key) => RowAt(stock.rows, key.product, key.location).quantity
  }

  function MovedBy(stock: Stock): Key -> int {
    (key: Key) => Moved(Log(stock), key.product, key.location)
  }

  function StatesOf(stock: Stock): Key -> int {
    (key: Key) =>
      var row := RowAt(stock.rows, key.product, key.location);
      row.available + row.reserved + row.damaged + row.inTransit
  }

  function LayersOf(stock: Stock): Key -> int {
    (key: Key) => Fifo.Stock(stock.ledgers.book, key.product, key.location)
  }

  function LotsOf(stock: Stock): Key -> int {
    (key: Key) => ProductHeld(stock.ledgers.lots, key.product, key.location)
  }

  function UnitsOf(stock: Stock, status: SerialStatus): Key -> int {
    (key: Key) => QUANTITY_SCALE * Units(stock.ledgers.serials, key.product, key.location, status)
  }

  function StateColumn(stock: Stock, status: SerialStatus): Key -> int {
    (key: Key) => StateOf(RowAt(stock.rows, key.product, key.location), status)
  }

  function Tracked(keys: seq<Key>, products: set<Product>): (r: seq<Key>)
    ensures forall key :: key in r <==> key in keys && key.product in products
  {
    if keys == [] then []
    else
      var rest := Tracked(keys[..|keys| - 1], products);
      assert keys == keys[..|keys| - 1] + [keys[|keys| - 1]];
      if keys[|keys| - 1].product in products then rest + [keys[|keys| - 1]] else rest
  }

  // ----- What a clean report says -----

  /** Valuation rows agree with balances and with the values of movements. */
  predicate ValuationAgrees(stock: Stock, p: Product)
    requires |stock.ledgers.book.movements| == |stock.ledgers.book.figures|
  {
    var v := CurrentValuation(stock.ledgers.book, p, 0);
    v.quantity == Balances.StockOf(stock.rows, p) && v.value == ValueMoved(stock.ledgers.book, p)
  }

  /** A lot balance is the sum of the lot's ledger there. */
  predicate LotRowAgrees(lots: LotBook, i: nat)
    requires i < |lots.balances|
  {
    lots.balances[i].quantity == Total(lots.entries, EntryAt(lots.balances[i].lot, lots.balances[i].location))
  }

  /** In stock exactly when located, at a place the product has a balance. */
  predicate CustodyValid(stock: Stock, i: nat)
    requires i < |stock.ledgers.serials.serials|
  {
    var s := stock.ledgers.serials.serials[i];
    if InStock(s.status) then s.location.Some? && Exists(stock.rows, s.product, s.location.value) else s.location.None?
  }

  /** The last event left the unit where its row says it is. */
  predicate HistoryValid(serials: SerialBook, i: nat)
    requires i < |serials.serials|
  {
    LastPosition(serials.events, i, |serials.events|) == Some(Position(serials.serials[i].status, serials.serials[i].location))
  }

  /** What the whole report checks, as a statement about the state. */
  ghost predicate Clean(stock: Stock, tracking: Tracking, products: set<Product>)
    requires |stock.ledgers.book.movements| == |stock.ledgers.book.figures|
  {
    && (forall p, l :: BalanceOf(stock)(Key(p, l)) == MovedBy(stock)(Key(p, l)))
    && (forall p, l :: BalanceOf(stock)(Key(p, l)) == StatesOf(stock)(Key(p, l)))
    && (forall p :: p in products ==> ValuationAgrees(stock, p))
    && (forall p, l :: BalanceOf(stock)(Key(p, l)) == LayersOf(stock)(Key(p, l)))
    && (forall p, l :: p in tracking.lots ==> BalanceOf(stock)(Key(p, l)) == LotsOf(stock)(Key(p, l)))
    && (forall i :: 0 <= i < |stock.ledgers.lots.balances| ==> LotRowAgrees(stock.ledgers.lots, i))
    && (forall p, l, s :: p in tracking.serials && InStock(s) && Exists(stock.rows, p, l) ==>
          StateColumn(stock, s)(Key(p, l)) == UnitsOf(stock, s)(Key(p, l)))
    && (forall i :: 0 <= i < |stock.ledgers.serials.serials| ==> CustodyValid(stock, i) && HistoryValid(stock.ledgers.serials, i))
  }

  // ----- Outside the scope keys everything is zero -----

  lemma RowsHaveKeys(rows: seq<Row>, p: Product, l: Location)
    ensures Key(p, l) in BalanceKeys(rows) <==> Exists(rows, p, l)
  {
    if Exists(rows, p, l) {
      assert BalanceKeys(rows)[Balances.Find(rows, p, l, |rows|).value] == Key(p, l);
    }
    if Key(p, l) in BalanceKeys(rows) {
      var i :| 0 <= i < |rows| && BalanceKeys(rows)[i] == Key(p, l);
      assert rows[i].product == p && rows[i].location == l;
    }
  }

  lemma UnmovedIsZero(log: seq<Movement>, p: Product, l: Location)
    requires Key(p, l) !in MovementKeys(log)
    ensures Moved(log, p, l) == 0
  {
    forall k | 0 <= k < |log| ensures ChangeAt(p, l)(log[k]) == 0 {
      assert MovementKeys(log)[k] == Key(log[k].product, log[k].location);
    }
    TotalZero(log, ChangeAt(p, l));
  }

  lemma UnlayeredIsZero(book: Book, p: Product, l: Location)
    requires Key(p, l) !in LayerKeys(book.layers)
    ensures Fifo.Stock(book, p, l) == 0
  {
    forall k | 0 <= k < |book.layers| ensures RemainingAt(p, l)(book.layers[k]) == 0 {
      assert LayerKeys(book.layers)[k] == Key(book.layers[k].product, book.layers[k].location);
    }
    TotalZero(book.layers, RemainingAt(p, l));
  }

  lemma UnheldIsZero(lots: LotBook, p: Product, l: Location)
    requires Key(p, l) !in LotKeys(lots)
    ensures ProductHeld(lots, p, l) == 0
  {
    forall k | 0 <= k < |lots.balances| ensures OfProductAt(lots.lots, p, l)(lots.balances[k]) == 0 {
      assert LotKeys(lots)[k].location == lots.balances[k].location;
    }
    TotalZero(lots.balances, OfProductAt(lots.lots, p, l));
  }

  lemma InUnion(a: seq<Key>, b: seq<Key>, key: Key)
    ensures key in Union(a + b) <==> key in a || key in b
  {
  }

  // ----- The checks, each over its own keys -----

  function MovementScope(stock: Stock): seq<Key> {
    Union(BalanceKeys(stock.rows) + MovementKeys(Log(stock)))
  }

  function LayerScope(stock: Stock): seq<Key> {
    Union(BalanceKeys(stock.rows) + LayerKeys(stock.ledgers.book.layers))
  }

  function LotScope(stock: Stock, tracking: Tracking): seq<Key> {
    Tracked(Union(BalanceKeys(stock.rows) + LotKeys(stock.ledgers.lots)), tracking.lots)
  }

  /** A comparison over its scope keys is a comparison everywhere. */
  lemma MovementsCompared(stock: Stock)
    ensures (forall key :: key in MovementScope(stock) ==> MovedBy(stock)(key) == BalanceOf(stock)(key))
            <==> forall p, l :: BalanceOf(stock)(Key(p, l)) == MovedBy(stock)(Key(p, l))
  {
    forall p, l | Key(p, l) !in MovementScope(stock) ensures BalanceOf(stock)(Key(p, l)) == MovedBy(stock)(Key(p, l)) {
      RowsHaveKeys(stock.rows, p, l);
      InUnion(BalanceKeys(stock.rows), MovementKeys(Log(stock)), Key(p, l));
      UnmovedIsZero(Log(stock), p, l);
    }
    forall key: Key ensures key == Key(key.product, key.location) { }
  }

  lemma StatesCompared(stock: Stock)
    ensures (forall key :: key in BalanceKeys(stock.rows) ==> BalanceOf(stock)(key) == StatesOf(stock)(key))
            <==> forall p, l :: BalanceOf(stock)(Key(p, l)) == StatesOf(stock)(Key(p, l))
  {
    forall p, l | Key(p, l) !in BalanceKeys(stock.rows) ensures BalanceOf(stock)(Key(p, l)) == StatesOf(stock)(Key(p, l)) {
      RowsHaveKeys(stock.rows, p, l);
    }
    forall key: Key ensures key == Key(key.product, key.location) { }
  }

  lemma LayersCompared(stock: Stock)
    ensures (forall key :: key in LayerScope(stock) ==> BalanceOf(stock)(key) == LayersOf(stock)(key))
            <==> forall p, l :: BalanceOf(stock)(Key(p, l)) == LayersOf(stock)(Key(p, l))
  {
    forall p, l | Key(p, l) !in LayerScope(stock) ensures BalanceOf(stock)(Key(p, l)) == LayersOf(stock)(Key(p, l)) {
      RowsHaveKeys(stock.rows, p, l);
      InUnion(BalanceKeys(stock.rows), LayerKeys(stock.ledgers.book.layers), Key(p, l));
      UnlayeredIsZero(stock.ledgers.book, p, l);
    }
    forall key: Key ensures key == Key(key.product, key.location) { }
  }

  lemma LotsCompared(stock: Stock, tracking: Tracking)
    ensures (forall key :: key in LotScope(stock, tracking) ==> BalanceOf(stock)(key) == LotsOf(stock)(key))
            <==> forall p, l :: p in tracking.lots ==> BalanceOf(stock)(Key(p, l)) == LotsOf(stock)(Key(p, l))
  {
    forall p, l | p in tracking.lots && Key(p, l) !in LotScope(stock, tracking)
      ensures BalanceOf(stock)(Key(p, l)) == LotsOf(stock)(Key(p, l))
    {
      RowsHaveKeys(stock.rows, p, l);
      InUnion(BalanceKeys(stock.rows), LotKeys(stock.ledgers.lots), Key(p, l));
      UnheldIsZero(stock.ledgers.lots, p, l);
    }
    forall key: Key ensures key == Key(key.product, key.location) { }
  }

  lemma UnitsCompared(stock: Stock, tracking: Tracking, status: SerialStatus)
    ensures (forall key :: key in Tracked(BalanceKeys(stock.rows), tracking.serials) ==> StateColumn(stock, status)(key) == UnitsOf(stock, status)(key))
            <==> forall p, l :: p in tracking.serials && Exists(stock.rows, p, l) ==>
                   StateColumn(stock, status)(Key(p, l)) == UnitsOf(stock, status)(Key(p, l))
  {
    forall p, l ensures Key(p, l) in BalanceKeys(stock.rows) <==> Exists(stock.rows, p, l) {
      RowsHaveKeys(stock.rows, p, l);
    }
    forall key: Key ensures key == Key(key.product, key.location) { }
  }

  // ----- The report -----

  /** Valuation rows, product by product. */
  method CollectValuations(stock: Stock, products: seq<Product>) returns (findings: seq<Finding>)
    requires |stock.ledgers.book.movements| == |stock.ledgers.book.figures|
    ensures findings == [] <==> forall k :: 0 <= k < |products| ==> ValuationAgrees(stock, products[k])
  {
    findings := [];
    var i := 0;
    while i < |products|
      invariant i <= |products|
      invariant findings == [] <==> forall k :: 0 <= k < i ==> ValuationAgrees(stock, products[k])
    {
      var p := products[i];
      var v := CurrentValuation(stock.ledgers.book, p, 0);
      var quantity, value := Balances.StockOf(stock.rows, p), ValueMoved(stock.ledgers.book, p);
      if v.quantity != quantity {
        findings := findings + [Finding(ValuationQuantityMismatch, Whole(p), quantity, v.quantity)];
      }
      if v.value != value {
        findings := findings + [Finding(ValuationValueMismatch, Whole(p), value, v.value)];
      }
      i := i + 1;
    }
  }

  method CollectLotLedger(lots: LotBook) returns (findings: seq<Finding>)
    ensures findings == [] <==> forall i :: 0 <= i < |lots.balances| ==> LotRowAgrees(lots, i)
  {
    findings := [];
    var i := 0;
    while i < |lots.balances|
      invariant i <= |lots.balances|
      invariant findings == [] <==> forall k :: 0 <= k < i ==> LotRowAgrees(lots, k)
    {
      var b := lots.balances[i];
      var ledger := Total(lots.entries, EntryAt(b.lot, b.location));
      assert LotRowAgrees(lots, i) <==> b.quantity == ledger;
      if b.quantity != ledger {
        findings := findings + [Finding(LotLedgerMismatch, OfLot(b.lot, b.location), ledger, b.quantity)];
      }
      i := i + 1;
    }
  }

  /** The custody query and the choice of its finding's code. */
  method CollectCustody(stock: Stock) returns (findings: seq<Finding>)
    ensures findings == [] <==> forall i :: 0 <= i < |stock.ledgers.serials.serials| ==>
              CustodyValid(stock, i) && HistoryValid(stock.ledgers.serials, i)
  {
    findings := [];
    var serials := stock.ledgers.serials;
    var i := 0;
    while i < |serials.serials|
      invariant i <= |serials.serials|
      invariant findings == [] <==> forall k :: 0 <= k < i ==> CustodyValid(stock, k) && HistoryValid(serials, k)
    {
      if !CustodyValid(stock, i) {
        findings := findings + [Finding(SerialCustodyInvalid, OfSerial(i), 0, 0)];
      } else if !HistoryValid(serials, i) {
        findings := findings + [Finding(SerialHistoryMismatch, OfSerial(i), 0, 0)];
      }
      i := i + 1;
    }
  }

  method CollectUnits(stock: Stock, tracking: Tracking) returns (findings: seq<Finding>)
    ensures findings == [] <==> forall p, l, s :: p in tracking.serials && InStock(s) && Exists(stock.rows, p, l) ==>
              StateColumn(stock, s)(Key(p, l)) == UnitsOf(stock, s)(Key(p, l))
  {
    hide RowAt, Exists, Units, StateColumn, UnitsOf, BalanceKeys, Tracked;
    var keys := Tracked(BalanceKeys(stock.rows), tracking.serials);
    var available := AddQuantityRows(SerialStateMismatch(Available), keys, StateColumn(stock, Available), UnitsOf(stock, Available));
    var reserved := AddQuantityRows(SerialStateMismatch(Reserved), keys, StateColumn(stock, Reserved), UnitsOf(stock, Reserved));
    var damaged := AddQuantityRows(SerialStateMismatch(Damaged), keys, StateColumn(stock, Damaged), UnitsOf(stock, Damaged));
    var inTransit := AddQuantityRows(SerialStateMismatch(InTransit), keys, StateColumn(stock, InTransit), UnitsOf(stock, InTransit));
    findings := available + reserved + damaged + inTransit;
    forall s ensures (forall key :: key in keys ==> StateColumn(stock, s)(key) == UnitsOf(stock, s)(key))
                     <==> forall p, l :: p in tracking.serials && Exists(stock.rows, p, l) ==>
                            StateColumn(stock, s)(Key(p, l)) == UnitsOf(stock, s)(Key(p, l))
    {
      UnitsCompared(stock, tracking, s);
    }
    assert findings == [] <==> available == [] && reserved == [] && damaged == [] && inTransit == [];
  }

  /** collect: a report without findings means exactly that every projection agrees with every other. */
  method Collect(stock: Stock, tracking: Tracking, products: seq<Product>) returns (findings: seq<Finding>)
    requires |stock.ledgers.book.movements| == |stock.ledgers.book.figures|
    ensures findings == [] <==> Clean(stock, tracking, set p | p in products)
  {
    hide RowAt, Moved, Fifo.Stock, ProductHeld, Units, Exists, ValuationAgrees, LotRowAgrees, CustodyValid, HistoryValid, InStock,
         MovedBy, BalanceOf, StatesOf, LayersOf, LotsOf, StateColumn, UnitsOf, MovementScope, LayerScope, LotScope;
    var movements := AddQuantityRows(BalanceMovementMismatch, MovementScope(stock), MovedBy(stock), BalanceOf(stock));
    var states := AddQuantityRows(BalanceStateMismatch, BalanceKeys(stock.rows), BalanceOf(stock), StatesOf(stock));
    var valuations := CollectValuations(stock, products);
    var layers := AddQuantityRows(FifoLayerMismatch, LayerScope(stock), BalanceOf(stock), LayersOf(stock));
    var lots := AddQuantityRows(LotBalanceMismatch, LotScope(stock, tracking), BalanceOf(stock), LotsOf(stock));
    var ledger := CollectLotLedger(stock.ledgers.lots);
    var units := CollectUnits(stock, tracking);
    var custody := CollectCustody(stock);
    MovementsCompared(stock);
    StatesCompared(stock);
    LayersCompared(stock);
    LotsCompared(stock, tracking);
    findings := movements + states + valuations + layers + lots + ledger + units + custody;
    assert findings == [] <==> movements == [] && states == [] && valuations == [] && layers == [] && lots == [] && ledger == []
                               && units == [] && custody == [];
  }

  // ----- Agreement means a clean report -----

  lemma HeldIsRow(lots: LotBook, movements: seq<Movement>, i: nat)
    requires LotCore(lots, movements) && i < |lots.balances|
    ensures LotRowAgrees(lots, i)
  {
    var b := lots.balances[i];
    RowIsHeld(lots.balances, b.lot, b.location);
    assert LotHeld(lots, b.lot, b.location) == Total(lots.entries, EntryAt(b.lot, b.location));
    assert FindRow(lots.balances, b.lot, b.location, |lots.balances|) == Some(i) by {
      var found := FindRow(lots.balances, b.lot, b.location, |lots.balances|);
      assert found.Some?;
    }
  }

  lemma UnitPositive(serials: SerialBook, i: nat)
    requires i < |serials.serials| && serials.serials[i].location.Some?
    ensures var s := serials.serials[i];
            Units(serials, s.product, s.location.value, s.status) > 0
  {
    var s := serials.serials[i];
    TotalTerm(serials.serials, UnitAt(s.product, s.location.value, s.status), i);
  }

  lemma CustodyHolds(stock: Stock, tracking: Tracking, i: nat)
    requires Agrees(stock, tracking) && i < |stock.ledgers.serials.serials|
    ensures CustodyValid(stock, i) && HistoryValid(stock.ledgers.serials, i)
  {
    var s := stock.ledgers.serials.serials[i];
    if InStock(s.status) {
      UnitPositive(stock.ledgers.serials, i);
      assert AheadAt(Level, s.product, s.location.value, s.status) == 0;
      assert StateOf(RowAt(stock.rows, s.product, s.location.value), s.status)
             + QUANTITY_SCALE * AheadAt(Level, s.product, s.location.value, s.status)
             == QUANTITY_SCALE * Units(stock.ledgers.serials, s.product, s.location.value, s.status);
    }
  }

  /** In every state where the projections agree the reconciliation reports nothing. */
  lemma AgreementIsClean(stock: Stock, tracking: Tracking, products: set<Product>)
    requires Agrees(stock, tracking)
    ensures |stock.ledgers.book.movements| == |stock.ledgers.book.figures|
    ensures Clean(stock, tracking, products)
  {
    InvariantOf(stock.ledgers, tracking);
    forall p, l
      ensures BalanceOf(stock)(Key(p, l)) == MovedBy(stock)(Key(p, l)) == LayersOf(stock)(Key(p, l)) == StatesOf(stock)(Key(p, l))
      ensures p in tracking.lots ==> BalanceOf(stock)(Key(p, l)) == LotsOf(stock)(Key(p, l))
    {
      AgreementMeans(stock, tracking, p, l);
    }
    forall p, l, s | p in tracking.serials && InStock(s) ensures StateColumn(stock, s)(Key(p, l)) == UnitsOf(stock, s)(Key(p, l)) {
      AgreementMeans(stock, tracking, p, l);
    }
    forall p ensures ValuationAgrees(stock, p) {
      ValuationHolds(stock, tracking, p);
    }
    forall i | 0 <= i < |stock.ledgers.lots.balances| ensures LotRowAgrees(stock.ledgers.lots, i) {
      HeldIsRow(stock.ledgers.lots, Log(stock), i);
    }
    forall i | 0 <= i < |stock.ledgers.serials.serials| ensures CustodyValid(stock, i) && HistoryValid(stock.ledgers.serials, i) {
      CustodyHolds(stock, tracking, i);
    }
    hide BalanceOf, MovedBy, LayersOf, StatesOf, LotsOf, StateColumn, UnitsOf, ValuationAgrees, LotRowAgrees, CustodyValid, HistoryValid, Agrees;
  }

  lemma ValuationHolds(stock: Stock, tracking: Tracking, p: Product)
    requires Agrees(stock, tracking)
    ensures |stock.ledgers.book.movements| == |stock.ledgers.book.figures|
    ensures ValuationAgrees(stock, p)
  {
    InvariantOf(stock.ledgers, tracking);
    assert ValuationMatches(stock.ledgers.book, p);
    assert Balances.StockOf(stock.rows, p) == MovedOf(Log(stock), p);
  }
}
