/** FIFO cost layers: what one movement does to the layers and allocations of a tenant.
    Functions give the effect on values; module FifoProjection has the loops that compute it. */
module Fifo {
  import opened Outcomes
  import opened Sums
  import opened Rounding
  import opened Movements
  import opened Selection

  datatype Mode = EntryMode | FifoMode | RestoreMode | TransferMode | OriginReturnMode

  /** A row of inventory_fifo_layers; its position in the table is its identifier. */
  datatype Layer = Layer(
    product: Product, location: Location, sourceMovement: nat, receiptLine: Option<nat>,
    original: int, remaining: int, unitCost: int, currency: Currency, acquiredAt: nat)

  /** A row of inventory_movement_fifo_layers; its position is its identifier. */
  datatype Allocation = Allocation(
    movement: nat, layer: nat, source: Option<nat>, quantity: int, unitCost: int,
    currency: Currency, value: int, mode: Mode)

  /** The moving-average row of a product. */
  datatype Valuation = Valuation(quantity: int, value: int, average: int)

  /** The valuation columns of a movement. */
  datatype Figures = Figures(unitCost: int, valueChange: int, fifoUnitCost: int, fifoValueChange: int)

  datatype Book = Book(
    movements: seq<Movement>, figures: seq<Figures>, valuations: map<Product, Valuation>,
    layers: seq<Layer>, allocations: seq<Allocation>)

  const EmptyBook := Book([], [], map[], [], [])

  /** A book and the value the step booked. */
  datatype Posted = Posted(book: Book, value: int)

  // ----- Sums the queries compute -----

  function OnLayer(layer: nat): Allocation -> int {
    (a: Allocation) => if a.layer == layer then a.quantity else 0
  }

  function OfMovement(movement: nat): Allocation -> int {
    (a: Allocation) => if a.movement == movement then a.quantity else 0
  }

  function SourcedFrom(source: nat): Allocation -> int {
    (a: Allocation) => if a.source == Some(source) then a.quantity else 0
  }

  function RemainingAt(product: Product, location: Location): Layer -> int {
    (l: Layer) => if l.product == product && l.location == location then l.remaining else 0
  }

  function RemainingOf(product: Product): Layer -> int {
    (l: Layer) => if l.product == product then l.remaining else 0
  }

  function Stock(book: Book, product: Product, location: Location): int {
    Total(book.layers, RemainingAt(product, location))
  }

  function StockOf(book: Book, product: Product): int {
    Total(book.layers, RemainingOf(product))
  }

  // ----- Consumption order -----

  /** Which layers a consuming movement may draw on. */
  datatype Source = AnySource | Receipt(line: nat) | Transfer(transferLine: TransferLine)

  predicate FromSource(book: Book, l: Layer, source: Source) {
    match source
    case AnySource => true
    case Receipt(line) => l.receiptLine == Some(line)
    case Transfer(line) =>
      l.sourceMovement < |book.movements| &&
      var m := book.movements[l.sourceMovement];
      m.transferLine == Some(line) && m.kind == TransferIn
  }

  predicate Eligible(book: Book, i: nat, m: Movement, source: Source)
    requires i < |book.layers|
  {
    var l := book.layers[i];
    l.product == m.product && l.location == m.location && l.remaining > 0 && FromSource(book, l, source)
  }

  function EligibleLayer(book: Book, m: Movement, source: Source): nat -> bool {
    (i: nat) => i < |book.layers| && Eligible(book, i, m, source)
  }

  function AcquiredRank(book: Book): nat -> Rank {
    (i: nat) => if i < |book.layers| then Rank(false, book.layers[i].acquiredAt) else Rank(true, 0)
  }

  /** The eligible layers ORDER BY acquired_at, then position. */
  function Order(book: Book, m: Movement, source: Source): (r: seq<nat>)
    ensures forall k :: 0 <= k < |r| ==> r[k] < |book.layers| && Eligible(book, r[k], m, source)
  {
    SelectIsExact(|book.layers|, EligibleLayer(book, m, source), AcquiredRank(book));
    Select(|book.layers|, EligibleLayer(book, m, source), AcquiredRank(book))
  }

  /** The step wrote no movement and no valuation row. */
  predicate SameMovements(before: Book, after: Book) {
    && after.movements == before.movements && after.figures == before.figures
    && after.valuations == before.valuations
  }

  // ----- Primitive writes -----

  /** insertAllocation together with the update of the layer's remaining quantity. */
  function Post(book: Book, movement: nat, layer: nat, source: Option<nat>, quantity: int, mode: Mode): Posted
    requires layer < |book.layers|
  {
    var l := book.layers[layer];
    var value := QuantityValue(quantity, l.unitCost);
    Posted(
      book.(layers := book.layers[layer := l.(remaining := l.remaining + quantity)],
            allocations := book.allocations
              + [Allocation(movement, layer, source, quantity, l.unitCost, l.currency, value, mode)]),
      value)
  }

  /** A layer is inserted with its quantity and then its opening allocation. */
  function Open(book: Book, movement: nat, layer: Layer, source: Option<nat>, mode: Mode): Posted {
    var value := QuantityValue(layer.original, layer.unitCost);
    Posted(
      book.(layers := book.layers + [layer],
            allocations := book.allocations
              + [Allocation(movement, |book.layers|, source, layer.original, layer.unitCost, layer.currency, value, mode)]),
      value)
  }

  /** The first layer of the product by (acquired_at, id), whatever remains of it. */
  function Oldest(layers: seq<Layer>, product: Product, n: nat): (r: Option<nat>)
    requires n <= |layers|
    ensures r.Some? ==> r.value < n && layers[r.value].product == product
    ensures r.None? ==> forall k :: 0 <= k < n ==> layers[k].product != product
  {
    if n == 0 then None
    else
      var before := Oldest(layers, product, n - 1);
      if layers[n - 1].product == product
         && (before.None? || layers[n - 1].acquiredAt < layers[before.value].acquiredAt)
      then Some(n - 1) else before
  }

  predicate CurrencyAccepted(book: Book, product: Product, currency: Currency) {
    var oldest := Oldest(book.layers, product, |book.layers|);
    oldest.Some? ==> book.layers[oldest.value].currency == currency
  }

  function CreateLayer(book: Book, movement: nat, layer: Layer, source: Option<nat>, mode: Mode): (r: Result<Posted>)
    ensures r.Ok? ==> SameMovements(book, r.value.book)
  {
    if CurrencyAccepted(book, layer.product, layer.currency)
    then Ok(Open(book, movement, layer, source, mode))
    else Err(CurrencyMismatch)
  }

  // ----- Consumption -----

  /** Draws `remaining` from the layers of `order`, which carry `value` already. */
  function Consume(book: Book, movement: nat, order: seq<nat>, mode: Mode, remaining: int, value: int): (r: Result<Posted>)
    requires forall k :: 0 <= k < |order| ==> order[k] < |book.layers|
    ensures r.Ok? ==> SameMovements(book, r.value.book)
    decreases |order|
  {
    if order == [] || remaining == 0 then
      if remaining != 0 then Err(LayerShortage) else Ok(Posted(book, value))
    else
      var consumed := Min(book.layers[order[0]].remaining, remaining);
      if consumed == 0 then Consume(book, movement, order[1..], mode, remaining, value)
      else
        var posted := Post(book, movement, order[0], None, -consumed, mode);
        Consume(posted.book, movement, order[1..], mode, remaining - consumed, value + posted.value)
  }

  function ConsumeLayers(book: Book, movement: nat, requested: int, source: Source): (r: Result<Posted>)
    requires movement < |book.movements|
    ensures r.Ok? ==> SameMovements(book, r.value.book)
  {
    var order := Order(book, book.movements[movement], source);
    Consume(book, movement, order, if source.Receipt? then OriginReturnMode else FifoMode, requested, 0)
  }

  // ----- Reversal of a sale -----

  /** Which allocations a void or return of a sale line reverses. The filter has no product. */
  predicate Reversible(book: Book, k: nat, m: Movement)
    requires k < |book.allocations|
  {
    var a := book.allocations[k];
    a.movement < |book.movements| &&
    var sale := book.movements[a.movement];
    && m.saleLine.Some? && sale.saleLine == m.saleLine
    && sale.location == m.location && sale.kind == Sale
    && (m.sourceSale.Some? ==> a.movement == m.sourceSale.value)
  }

  function Reversed(book: Book, m: Movement, n: nat): (r: seq<nat>)
    requires n <= |book.allocations|
    ensures forall k :: 0 <= k < |r| ==> r[k] < n
  {
    if n == 0 then []
    else if Reversible(book, n - 1, m) then Reversed(book, m, n - 1) + [n - 1]
    else Reversed(book, m, n - 1)
  }

  /** The unique key (movement, layer) of the allocation table. */
  predicate KeyFree(book: Book, movement: nat, layer: nat) {
    forall k :: 0 <= k < |book.allocations| ==>
      book.allocations[k].movement != movement || book.allocations[k].layer != layer
  }

  function Restore(book: Book, movement: nat, sources: seq<nat>, expected: int, restored: int, value: int): (r: Result<Posted>)
    requires forall k :: 0 <= k < |sources| ==> sources[k] < |book.allocations|
    ensures r.Ok? ==> SameMovements(book, r.value.book)
    decreases |sources|
  {
    if sources == [] then
      if restored != expected then Err(LayerShortage) else Ok(Posted(book, value))
    else
      var a := book.allocations[sources[0]];
      var available := -a.quantity - Total(book.allocations, SourcedFrom(sources[0]));
      var quantity := Min(available, expected - restored);
      if quantity <= 0 then Restore(book, movement, sources[1..], expected, restored, value)
      else if a.layer >= |book.layers| then Err(LayerShortage)
      else if book.layers[a.layer].remaining + quantity > book.layers[a.layer].original then Err(LayerCeiling)
      else if !KeyFree(book, movement, a.layer) then Err(DuplicateAllocation)
      else
        var posted := Post(book, movement, a.layer, Some(sources[0]), quantity, RestoreMode);
        Restore(posted.book, movement, sources[1..], expected, restored + quantity, value + posted.value)
  }

  function RestoreSale(book: Book, movement: nat, expected: int): (r: Result<Posted>)
    requires movement < |book.movements|
    ensures r.Ok? ==> SameMovements(book, r.value.book)
  {
    var sources := Reversed(book, book.movements[movement], |book.allocations|);
    Restore(book, movement, sources, expected, 0, 0)
  }

  // ----- Transfer of layers -----

  predicate Dispatched(book: Book, k: nat, m: Movement)
    requires k < |book.allocations|
  {
    var a := book.allocations[k];
    a.movement < |book.movements| &&
    var out := book.movements[a.movement];
    m.transferLine.Some? && out.transferLine == m.transferLine && out.kind == TransferOut
  }

  function DispatchedBy(book: Book, m: Movement, n: nat): (r: seq<nat>)
    requires n <= |book.allocations|
    ensures forall k :: 0 <= k < |r| ==> r[k] < n
  {
    if n == 0 then []
    else if Dispatched(book, n - 1, m) then DispatchedBy(book, m, n - 1) + [n - 1]
    else DispatchedBy(book, m, n - 1)
  }

  function Moving(book: Book, movement: nat, sources: seq<nat>, expected: int, transferred: int, value: int): (r: Result<Posted>)
    requires movement < |book.movements|
    requires forall k :: 0 <= k < |sources| ==> sources[k] < |book.allocations|
    ensures r.Ok? ==> SameMovements(book, r.value.book)
    decreases |sources|
  {
    if sources == [] then
      if transferred != expected then Err(LayerShortage) else Ok(Posted(book, value))
    else
      var a := book.allocations[sources[0]];
      if -a.quantity <= 0 then Moving(book, movement, sources[1..], expected, transferred, value)
      else if a.layer >= |book.layers| then Err(LayerShortage)
      else
        var m := book.movements[movement];
        var layer := Layer(m.product, m.location, movement, None, -a.quantity, -a.quantity,
                           a.unitCost, a.currency, book.layers[a.layer].acquiredAt);
        match CreateLayer(book, movement, layer, Some(sources[0]), TransferMode)
        case Err(e) => Err(e)
        case Ok(posted) =>
          Moving(posted.book, movement, sources[1..], expected, transferred - a.quantity, value + posted.value)
  }

  function TransferLayers(book: Book, movement: nat, expected: int): (r: Result<Posted>)
    requires movement < |book.movements|
    ensures r.Ok? ==> SameMovements(book, r.value.book)
  {
    var sources := DispatchedBy(book, book.movements[movement], |book.allocations|);
    Moving(book, movement, sources, expected, 0, 0)
  }

  // ----- One movement -----

  predicate IsSaleReversal(kind: Kind) {
    kind == SaleVoid || kind == SaleReturn
  }

  function ConsumptionSource(m: Movement): Result<Source> {
    if m.kind == SupplierReturn then
      match m.returnOf
      case None => Err(ReturnSourceNotFound)
      case Some(purchase) => Ok(Receipt(purchase.receiptLine))
    else if m.kind == TransferDiscrepancy && m.transferLine.Some? then Ok(Transfer(m.transferLine.value))
    else Ok(AnySource)
  }

  /** The layer an ordinary positive movement opens; unitCost is the movement's own cost. */
  function EntryLayer(m: Movement, movement: nat, unitCost: int): Result<Layer> {
    var receiptLine := match m.purchase case None => None case Some(p) => Some(p.receiptLine);
    if m.kind == PurchaseReceipt then
      match m.purchase
      case None => Err(CostNotFound)
      case Some(p) => Ok(Layer(m.product, m.location, movement, receiptLine, m.quantity, m.quantity, p.unitCost, p.currency, m.at))
    else
      Ok(Layer(m.product, m.location, movement, receiptLine, m.quantity, m.quantity, unitCost, m.currency, m.at))
  }

  /** The allocations and layers a movement books, by the sign and kind of the movement. */
  function BookLayers(book: Book, movement: nat, unitCost: int): (r: Result<Posted>)
    requires movement < |book.movements|
    ensures r.Ok? ==> SameMovements(book, r.value.book)
  {
    var m := book.movements[movement];
    if m.quantity > 0 then
      if IsSaleReversal(m.kind) then RestoreSale(book, movement, m.quantity)
      else if m.kind == TransferIn then TransferLayers(book, movement, m.quantity)
      else
        match EntryLayer(m, movement, unitCost)
        case Err(e) => Err(e)
        case Ok(layer) => CreateLayer(book, movement, layer, None, EntryMode)
    else if m.quantity < 0 then
      match ConsumptionSource(m)
      case Err(e) => Err(e)
      case Ok(source) => ConsumeLayers(book, movement, -m.quantity, source)
    else Ok(Posted(book, 0))
  }

  function WeightedCost(quantity: int, value: int): int {
    if quantity == 0 then 0 else DivideRounded(Abs(value) * QUANTITY_SCALE, Abs(quantity))
  }

  /** updateMovementSummary: the layers of the product must hold what its valuation row says. */
  predicate SummaryAgrees(book: Book, product: Product) {
    product in book.valuations && StockOf(book, product) == book.valuations[product].quantity
  }

  /** applyInventoryFifoValuation for a movement row already inserted and averaged. A movement
      that has allocations is not booked a second time. */
  function ApplyFifo(book: Book, movement: nat): Result<Posted>
    requires movement < |book.movements| == |book.figures|
  {
    if exists k :: 0 <= k < |book.allocations| && book.allocations[k].movement == movement then
      Ok(Posted(book, 0))
    else
      match BookLayers(book, movement, book.figures[movement].unitCost)
      case Err(e) => Err(e)
      case Ok(posted) =>
        if SummaryAgrees(posted.book, book.movements[movement].product) then
          var f := posted.book.figures[movement].(
            fifoUnitCost := WeightedCost(book.movements[movement].quantity, posted.value),
            fifoValueChange := posted.value);
          Ok(Posted(posted.book.(figures := posted.book.figures[movement := f]), posted.value))
        else Err(LayerShortage)
  }

  // ----- The moving average, which runs first and prices ordinary entries -----

  /** The first SALE movement of the line at the location, among the first n. */
  function FirstSale(movements: seq<Movement>, m: Movement, n: nat): (r: Option<nat>)
    requires n <= |movements|
    ensures r.Some? ==> r.value < n
  {
    if n == 0 then None
    else
      var before := FirstSale(movements, m, n - 1);
      var row := movements[n - 1];
      if before.None? && m.saleLine.Some? && row.kind == Sale && row.saleLine == m.saleLine && row.location == m.location
      then Some(n - 1) else before
  }

  predicate IsValuedEntry(m: Movement) {
    m.quantity > 0 && (m.kind == PurchaseReceipt || IsSaleReversal(m.kind))
  }

  function UnitCost(book: Book, m: Movement, average: int): Result<int>
    requires |book.movements| == |book.figures|
  {
    if !IsValuedEntry(m) then Ok(average)
    else if m.kind == PurchaseReceipt then
      match m.purchase
      case None => Err(CostNotFound)
      case Some(p) => Ok(p.unitCost)
    else
      match FirstSale(book.movements, m, |book.movements|)
      case None => Err(CostNotFound)
      case Some(k) => Ok(book.figures[k].unitCost)
  }

  /** A product without a valuation row gets one at its catalogue cost. */
  function CurrentValuation(book: Book, product: Product, catalogCost: int): Valuation {
    if product in book.valuations then book.valuations[product] else Valuation(0, 0, catalogCost)
  }

  /** applyInventoryValuation up to the FIFO call: inserts the movement and revalues its product. */
  function Average(book: Book, m: Movement, catalogCost: int): Result<Book>
    requires |book.movements| == |book.figures|
  {
    var current := CurrentValuation(book, m.product, catalogCost);
    var quantity := current.quantity + m.quantity;
    if quantity < 0 then Err(NegativeValuationQuantity)
    else
      match UnitCost(book, m, current.average)
      case Err(e) => Err(e)
      case Ok(unitCost) =>
        var value := if quantity == 0 then 0 else current.value + QuantityValue(m.quantity, unitCost);
        if value < 0 then Err(NegativeValuationValue)
        else
          var average :=
            if IsValuedEntry(m) && quantity > 0 then DivideRounded(value * QUANTITY_SCALE, quantity)
            else current.average;
          Ok(book.(
            movements := book.movements + [m],
            figures := book.figures + [Figures(unitCost, value - current.value, 0, 0)],
            valuations := book.valuations[m.product := Valuation(quantity, value, average)]))
  }

  /** One movement through both valuations; an error leaves the caller with the old book. */
  function Apply(book: Book, m: Movement, catalogCost: int): (r: Result<Book>)
    requires |book.movements| == |book.figures|
    ensures r.Ok? ==> r.value.movements == book.movements + [m] && |r.value.figures| == |r.value.movements|
  {
    match Average(book, m, catalogCost)
    case Err(e) => Err(e)
    case Ok(averaged) =>
      match ApplyFifo(averaged, |book.movements|)
      case Err(e) => Err(e)
      case Ok(posted) => Ok(posted.book)
  }
}
