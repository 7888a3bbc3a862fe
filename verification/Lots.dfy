/** Lot tracking: what one movement does to the lot balances, lot costs and lot ledger.
    Functions give the effect on values; module LotProjection has the loops that compute it. */
module Lots {
  import opened Outcomes
  import opened Sums
  import opened Rounding
  import opened Movements
  import opened Selection
  import opened Text

  datatype SelectionMode = OriginMode | ManualMode | AutomaticMode | RestoreLotMode | TransferLotMode

  datatype ExpirationPolicy = NoDates | OptionalDates | RequiredDates

  /** A row of inventory_lots; its position is its identifier. Dates are day numbers. */
  datatype Lot = Lot(product: Product, code: string, manufactured: Option<nat>, expires: Option<nat>,
                     unitCost: int, currency: Currency)

  datatype LotBalance = LotBalance(lot: nat, location: Location, quantity: int)

  /** A row of inventory_movement_lots, the lot ledger. */
  datatype LotEntry = LotEntry(movement: nat, lot: nat, location: Location, quantity: int,
                               unitCost: int, currency: Currency, value: int, mode: SelectionMode)

  /** `receiptLots` is purchase_receipt_lines.lot_id. */
  datatype LotBook = LotBook(lots: seq<Lot>, balances: seq<LotBalance>, entries: seq<LotEntry>, receiptLots: map<nat, nat>)

  const EmptyLots := LotBook([], [], [], map[])

  datatype CostSource = CostSource(unitCost: int, currency: Currency, revalue: bool)

  /** What the caller passes along: lot choice, label of a new lot, local date, product policy. */
  datatype LotOptions = LotOptions(lotLabel: Option<LotLabel>, preferredLot: Option<nat>, allowExpired: bool,
                                   today: nat, policy: ExpirationPolicy)

  // ----- Sums the queries compute -----

  function HeldAt(lot: nat, location: Location): LotBalance -> int {
    (b: LotBalance) => if b.lot == lot && b.location == location then b.quantity else 0
  }

  function HeldOf(lot: nat): LotBalance -> int {
    (b: LotBalance) => if b.lot == lot then b.quantity else 0
  }

  function OfProductAt(lots: seq<Lot>, product: Product, location: Location): LotBalance -> int {
    (b: LotBalance) => if b.lot < |lots| && lots[b.lot].product == product && b.location == location then b.quantity else 0
  }

  /** The lot balances of a product at a location, added up. */
  function ProductHeld(book: LotBook, product: Product, location: Location): int {
    Total(book.balances, OfProductAt(book.lots, product, location))
  }

  /** The quantity of a lot over all locations. */
  function LotTotal(book: LotBook, lot: nat): int {
    Total(book.balances, HeldOf(lot))
  }

  /** The quantity of a lot at a location. */
  function LotHeld(book: LotBook, lot: nat, location: Location): int {
    Total(book.balances, HeldAt(lot, location))
  }

  function EntryOf(lot: nat): LotEntry -> int {
    (e: LotEntry) => if e.lot == lot then e.quantity else 0
  }

  function EntryAt(lot: nat, location: Location): LotEntry -> int {
    (e: LotEntry) => if e.lot == lot && e.location == location then e.quantity else 0
  }

  // ----- One lot balance -----

  /** The first of the first n rows for the lot at the location. */
  function FindRow(balances: seq<LotBalance>, lot: nat, location: Location, n: nat): (r: Option<nat>)
    requires n <= |balances|
    ensures r.Some? ==> r.value < n && balances[r.value].lot == lot && balances[r.value].location == location
    ensures r.None? ==> forall k :: 0 <= k < n ==> balances[k].lot != lot || balances[k].location != location
  {
    if n == 0 then None
    else
      var before := FindRow(balances, lot, location, n - 1);
      if before.None? && balances[n - 1].lot == lot && balances[n - 1].location == location then Some(n - 1) else before
  }

  function RowQuantity(balances: seq<LotBalance>, lot: nat, location: Location): int {
    match FindRow(balances, lot, location, |balances|)
    case None => 0
    case Some(i) => balances[i].quantity
  }

  /** INSERT ... ON DUPLICATE KEY: the row exists afterwards, at zero when it is new. */
  function EnsureRow(balances: seq<LotBalance>, lot: nat, location: Location): (r: seq<LotBalance>)
    ensures FindRow(r, lot, location, |r|).Some?
  {
    if FindRow(balances, lot, location, |balances|).None? then balances + [LotBalance(lot, location, 0)] else balances
  }

  /** The unique key (movement, lot) of the lot ledger. */
  predicate EntryKeyFree(book: LotBook, movement: nat, lot: nat) {
    forall k :: 0 <= k < |book.entries| ==> book.entries[k].movement != movement || book.entries[k].lot != lot
  }

  /** The cost of a lot holding `held` at `cost` after `quantity` comes in at `incoming`. */
  function Revalued(held: int, cost: int, quantity: int, incoming: int, revalue: bool): int {
    if revalue && held + quantity > 0
    then DivideRounded(held * cost + quantity * incoming, held + quantity) else cost
  }

  /** changeLotBalance. */
  function ChangeLot(book: LotBook, movement: nat, location: Location, lot: nat, quantity: int,
                     mode: SelectionMode, source: Option<CostSource>): (r: Result<LotBook>)
    ensures r.Ok? ==> |r.value.lots| == |book.lots| && |r.value.entries| == |book.entries| + 1
  {
    if lot >= |book.lots| then Err(LotNotFound)
    else
      var row := book.lots[lot];
      if source.Some? && source.value.currency != row.currency then Err(CurrencyMismatch)
      else
        var rows := EnsureRow(book.balances, lot, location);
        var i := FindRow(rows, lot, location, |rows|).value;
        var resulting := rows[i].quantity + quantity;
        if resulting < 0 then Err(LotStockShortage)
        else
          var allocationCost := if source.Some? then source.value.unitCost else row.unitCost;
          var newCost := Revalued(Total(rows, HeldOf(lot)), row.unitCost, quantity, allocationCost,
                                  source.Some? && source.value.revalue);
          if newCost < 0 then Err(NegativeLotCost)
          else if !EntryKeyFree(book, movement, lot) then Err(DuplicateAllocation)
          else
            Ok(book.(
              lots := book.lots[lot := row.(unitCost := newCost)],
              balances := rows[i := rows[i].(quantity := resulting)],
              entries := book.entries + [LotEntry(movement, lot, location, quantity, allocationCost, row.currency,
                                                  QuantityValue(quantity, allocationCost), mode)]))
  }

  // ----- Lots by code -----

  predicate IsLotCharacter(c: char) {
    IsAlphanumeric(c) || c == '.' || c == '_' || c == '/' || c == ' ' || c == '-'
  }

  /** The stored upper-case form of a lot code, or the error of an unacceptable one. */
  function NormalizeLotCode(raw: string): Result<string> {
    var code := CollapseSpaces(Trim(raw));
    if 1 <= |code| <= 64 && IsAlphanumeric(code[0]) && (forall i :: 1 <= i < |code| ==> IsLotCharacter(code[i]))
    then Ok(UpperAscii(code)) else Err(InvalidLotCode)
  }

  function FindLot(lots: seq<Lot>, product: Product, code: string, n: nat): (r: Option<nat>)
    requires n <= |lots|
    ensures r.Some? ==> r.value < n && lots[r.value].product == product && lots[r.value].code == code
    ensures r.None? ==> forall k :: 0 <= k < n ==> lots[k].product != product || lots[k].code != code
  {
    if n == 0 then None
    else
      var before := FindLot(lots, product, code, n - 1);
      if before.None? && lots[n - 1].product == product && lots[n - 1].code == code then Some(n - 1) else before
  }

  function FirstLot(lots: seq<Lot>, product: Product, n: nat): (r: Option<nat>)
    requires n <= |lots|
    ensures r.Some? ==> r.value < n && lots[r.value].product == product
    ensures r.None? ==> forall k :: 0 <= k < n ==> lots[k].product != product
  {
    if n == 0 then None
    else
      var before := FirstLot(lots, product, n - 1);
      if before.None? && lots[n - 1].product == product then Some(n - 1) else before
  }

  datatype Found = Found(book: LotBook, lot: nat)

  /** findOrCreateLot. */
  function FindOrCreateLot(book: LotBook, product: Product, lotLabel: LotLabel, policy: ExpirationPolicy,
                           unitCost: int, currency: Currency): (r: Result<Found>)
    ensures r.Ok? ==> r.value.lot < |r.value.book.lots|
  {
    match NormalizeLotCode(lotLabel.code)
    case Err(e) => Err(e)
    case Ok(code) =>
      var first := FirstLot(book.lots, product, |book.lots|);
      if lotLabel.manufactured.Some? && lotLabel.expires.Some? && lotLabel.manufactured.value > lotLabel.expires.value then Err(InvalidLotDates)
      else if policy == RequiredDates && lotLabel.expires.None? then Err(ExpirationRequired)
      else if policy == NoDates && (lotLabel.manufactured.Some? || lotLabel.expires.Some?) then Err(InvalidLotDates)
      else if first.Some? && book.lots[first.value].currency != currency then Err(CurrencyMismatch)
      else
        match FindLot(book.lots, product, code, |book.lots|)
        case Some(k) =>
          var existing := book.lots[k];
          if existing.currency != currency then Err(CurrencyMismatch)
          else if existing.manufactured != lotLabel.manufactured || existing.expires != lotLabel.expires then Err(InvalidLotDates)
          else Ok(Found(book, k))
        case None =>
          Ok(Found(book.(lots := book.lots + [Lot(product, code, lotLabel.manufactured, lotLabel.expires, unitCost, currency)]),
                   |book.lots|))
  }

  // ----- Consumption -----

  predicate Expired(lot: Lot, today: nat) {
    lot.expires.Some? && lot.expires.value < today
  }

  function EligibleLot(book: LotBook, m: Movement, today: nat): nat -> bool {
    (i: nat) =>
      && i < |book.lots| && book.lots[i].product == m.product && !Expired(book.lots[i], today)
      && RowQuantity(book.balances, i, m.location) > 0
  }

  function ExpiryRank(book: LotBook): nat -> Rank {
    (i: nat) =>
      if i < |book.lots| && book.lots[i].expires.Some? then Rank(false, book.lots[i].expires.value) else Rank(true, 0)
  }

  /** First expired first out: undated lots last, then by creation. */
  function FirstExpiredOrder(book: LotBook, m: Movement, today: nat): (r: seq<nat>)
    ensures forall k :: 0 <= k < |r| ==> r[k] < |book.lots| && book.lots[r[k]].product == m.product
  {
    SelectIsExact(|book.lots|, EligibleLot(book, m, today), ExpiryRank(book));
    Select(|book.lots|, EligibleLot(book, m, today), ExpiryRank(book))
  }

  function ConsumeIn(book: LotBook, movement: nat, location: Location, order: seq<nat>, mode: SelectionMode,
                     remaining: int, source: Option<CostSource>): Result<LotBook>
    decreases |order|
  {
    if order == [] || remaining == 0 then
      if remaining != 0 then Err(LotStockShortage) else Ok(book)
    else
      var consumed := Min(RowQuantity(book.balances, order[0], location), remaining);
      if consumed == 0 then ConsumeIn(book, movement, location, order[1..], mode, remaining, source)
      else
        match ChangeLot(book, movement, location, order[0], -consumed, mode, source)
        case Err(e) => Err(e)
        case Ok(next) => ConsumeIn(next, movement, location, order[1..], mode, remaining - consumed, source)
  }

  datatype Choice = Choice(order: seq<nat>, mode: SelectionMode)

  /** Which lots a consuming movement draws on: the chosen one, or first expired first out. */
  function ChooseLots(book: LotBook, m: Movement, options: LotOptions, preferred: Option<nat>, allowExpired: bool): (r: Result<Choice>)
    ensures r.Ok? ==> forall k :: 0 <= k < |r.value.order| ==>
              r.value.order[k] < |book.lots| && book.lots[r.value.order[k]].product == m.product
    ensures r.Ok? ==> r.value.mode == ManualMode || r.value.mode == AutomaticMode
  {
    if preferred.None? && options.lotLabel.None? then Ok(Choice(FirstExpiredOrder(book, m, options.today), AutomaticMode))
    else
      var named: Result<Option<nat>> :=
        if preferred.Some? then Ok(preferred)
        else
          match NormalizeLotCode(options.lotLabel.value.code)
          case Err(e) => Err(e)
          case Ok(code) => Ok(FindLot(book.lots, m.product, code, |book.lots|));
      match named
      case Err(e) => Err(e)
      case Ok(None) => Err(LotNotFound)
      case Ok(Some(lot)) =>
        if lot >= |book.lots| || book.lots[lot].product != m.product
           || FindRow(book.balances, lot, m.location, |book.balances|).None? then Err(LotNotFound)
        else if Expired(book.lots[lot], options.today) && !allowExpired then Err(LotExpired)
        else Ok(Choice([lot], ManualMode))
  }

  // ----- Restoration -----

  /** Which ledger entries a reversal or an arrival gives back. */
  predicate Source(movements: seq<Movement>, e: LotEntry, m: Movement) {
    e.movement < |movements| &&
    var o := movements[e.movement];
    if m.kind == SaleReturn then m.sourceSale == Some(e.movement) && o.kind == Sale
    else if m.kind == SaleVoid then
      m.saleLine.Some? && o.saleLine == m.saleLine && o.location == m.location && o.kind == Sale
    else m.transferLine.Some? && o.transferLine == m.transferLine && o.kind == TransferOut
  }

  function Sources(book: LotBook, movements: seq<Movement>, m: Movement, n: nat): (r: seq<nat>)
    requires n <= |book.entries|
    ensures forall k :: 0 <= k < |r| ==> r[k] < n && Source(movements, book.entries[r[k]], m)
  {
    if n == 0 then []
    else if Source(movements, book.entries[n - 1], m) then Sources(book, movements, m, n - 1) + [n - 1]
    else Sources(book, movements, m, n - 1)
  }

  function ReturnedTo(movements: seq<Movement>, sale: nat, lot: nat): LotEntry -> int {
    (e: LotEntry) =>
      if e.movement < |movements| && movements[e.movement].kind == SaleReturn
         && movements[e.movement].sourceSale == Some(sale) && e.lot == lot
      then e.quantity else 0
  }

  function RestoreIn(book: LotBook, movements: seq<Movement>, movement: nat, sources: seq<nat>, mode: SelectionMode,
                     remaining: int): Result<LotBook>
    requires movement < |movements|
    requires forall k :: 0 <= k < |sources| ==> sources[k] < |book.entries|
    decreases |sources|
  {
    if sources == [] || remaining == 0 then
      if remaining != 0 then Err(LotRestoreMismatch) else Ok(book)
    else
      var m := movements[movement];
      var e := book.entries[sources[0]];
      var alreadyRestored := if m.kind == SaleReturn then Total(book.entries, ReturnedTo(movements, e.movement, e.lot)) else 0;
      var quantity := Min(-e.quantity - alreadyRestored, remaining);
      if quantity <= 0 then RestoreIn(book, movements, movement, sources[1..], mode, remaining)
      else
        match ChangeLot(book, movement, m.location, e.lot, quantity, mode, Some(CostSource(e.unitCost, e.currency, true)))
        case Err(error) => Err(error)
        case Ok(next) => RestoreIn(next, movements, movement, sources[1..], mode, remaining - quantity)
  }

  function RestoreAllocations(book: LotBook, movements: seq<Movement>, movement: nat, mode: SelectionMode): Result<LotBook>
    requires movement < |movements|
  {
    var sources := Sources(book, movements, movements[movement], |book.entries|);
    if sources == [] then Err(LotSourceNotFound)
    else RestoreIn(book, movements, movement, sources, mode, movements[movement].quantity)
  }

  // ----- One movement -----

  function Receive(book: LotBook, movement: nat, m: Movement, lotLabel: LotLabel, policy: ExpirationPolicy,
                   unitCost: int, currency: Currency, mode: SelectionMode): Result<Found>
  {
    match FindOrCreateLot(book, m.product, lotLabel, policy, unitCost, currency)
    case Err(e) => Err(e)
    case Ok(found) =>
      match ChangeLot(found.book, movement, m.location, found.lot, m.quantity, mode,
                      Some(CostSource(unitCost, currency, true)))
      case Err(e) => Err(e)
      case Ok(next) => Ok(Found(next, found.lot))
  }

  function ConsumeLots(book: LotBook, movement: nat, m: Movement, options: LotOptions): Result<LotBook> {
    var returned := if m.kind == SupplierReturn then m.returnOf else None;
    if m.kind == SupplierReturn && (returned.None? || returned.value.receiptLine !in book.receiptLots) then Err(LotSourceNotFound)
    else
      var preferred := if returned.Some? then Some(book.receiptLots[returned.value.receiptLine]) else options.preferredLot;
      var source := if returned.Some? then Some(CostSource(returned.value.unitCost, returned.value.currency, false)) else None;
      match ChooseLots(book, m, options, preferred, options.allowExpired || m.kind == SupplierReturn)
      case Err(e) => Err(e)
      case Ok(choice) => ConsumeIn(book, movement, m.location, choice.order, choice.mode, -m.quantity, source)
  }

  /** applyInventoryLotTracking for a lot-tracked product; unitCost is the movement's own cost. */
  function ApplyLots(book: LotBook, movements: seq<Movement>, movement: nat, unitCost: int, options: LotOptions): Result<LotBook>
    requires movement < |movements|
  {
    var m := movements[movement];
    if (exists k :: 0 <= k < |book.entries| && book.entries[k].movement == movement) || m.quantity == 0 then Ok(book)
    else if m.kind == PurchaseReceipt then
      match m.purchase
      case None => Err(LotRequired)
      case Some(p) =>
        if p.lot.None? then Err(LotRequired)
        else
          match Receive(book, movement, m, p.lot.value, options.policy, p.unitCost, p.currency, OriginMode)
          case Err(e) => Err(e)
          case Ok(found) => Ok(found.book.(receiptLots := found.book.receiptLots[p.receiptLine := found.lot]))
    else if m.kind == SaleVoid || m.kind == SaleReturn then RestoreAllocations(book, movements, movement, RestoreLotMode)
    else if m.kind == TransferIn then RestoreAllocations(book, movements, movement, TransferLotMode)
    else if m.quantity > 0 then
      if options.lotLabel.None? then Err(LotRequired)
      else
        match Receive(book, movement, m, options.lotLabel.value, options.policy, unitCost, m.currency, ManualMode)
        case Err(e) => Err(e)
        case Ok(found) => Ok(found.book)
    else ConsumeLots(book, movement, m, options)
  }
}
