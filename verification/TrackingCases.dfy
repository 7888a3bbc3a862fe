/** Runs after which the tracking of a product and its balance part ways, and one that cannot go back. */
module TrackingCases {
  import opened Outcomes
  import opened Sums
  import opened Rounding
  import opened Quantity
  import opened Movements
  import opened Text
  import Fifo
  import FifoCases
  import FifoExactness
  import FifoRuns
  import opened FifoValues
  import Lots
  import opened Serials
  import opened SerialInvariants
  import opened Balances
  import opened Ledgers
  import opened Stock
  import opened Site
  import opened Writers
  import opened WriterAgreement
  import opened KitTheorems
  import KitExactness
  import TransferExactness
  import opened KitCatalogue
  import opened Runs
  import opened WorldCases

  const Now := Shop(WholePieces, 0, 0)

  // ----- Damage of a serialised unit -----

  const Serialised := Tracking({}, {0})
  const UnitNumber := Some(["A"])
  const UnitComes := Manual(0, Entry, 0, 1000, None, UnitNumber)
  const UnitBreaks := Manual(1, Damage, 0, 1000, None, UnitNumber)
  const Coming := Plain(0, 0, Entry, 1000, 0, 0)
  const Breaking := Plain(0, 0, Damage, -1000, 0, 0)
  const OneUnit := Enrol(EmptySerials, 0, Coming, "A")
  const BrokenUnit := AppendEvent(OneUnit, 1, 0, Damaged, Some(0))

  lemma SerialisedPosts(stock: Stock, row: Row, m: Movement, details: Details, book: Fifo.Book, serials: SerialBook)
    requires Booked(stock) && m.product == 0
    requires Fifo.Apply(stock.ledgers.book, m, details.cost) == Ok(book)
    requires ApplySerials(stock.ledgers.serials, Log(stock) + [m], |Log(stock)|, details.serial) == Ok(serials)
    ensures Post(stock, Serialised, row, m, details) == Ok(Stock(Put(stock.rows, row), Ledgers(book, stock.ledgers.lots, serials)))
  {
    hide Fifo.Apply, ApplySerials;
  }

  lemma NumberFits()
    ensures Trim("A") == "A" && RequestAccepted(["A"], 1)
  {
    TrimFixesTrimmed("A");
    hide Trim;
  }

  lemma UnitRegisters()
    ensures ApplySerials(EmptySerials, [] + [Coming], 0, SerialOptions(UnitNumber, None)) == Ok(OneUnit)
  {
    NumberFits();
    hide RequestAccepted, Normalize, Trim;
    var numbers := ["A"];
    assert numbers[1..] == [];
    assert Register(EmptySerials, 0, Coming, numbers) == Ok(OneUnit);
  }

  lemma UnitMoves()
    ensures ApplySerials(OneUnit, [Coming] + [Breaking], 1, SerialOptions(UnitNumber, None)) == Ok(BrokenUnit)
  {
    NumberFits();
    hide RequestAccepted, Normalize, Trim;
    var movements, numbers, rows := [Coming] + [Breaking], ["A"], [0];
    assert movements[1] == Breaking;
    assert Serials.Find(OneUnit.serials, 0, Normalize("A"), 0) == None;
    assert Serials.Find(OneUnit.serials, 0, Normalize("A"), 1) == Some(0);
    assert SelectRows(OneUnit.serials, 0, numbers, 0) == Ok([]);
    assert SelectRows(OneUnit.serials, 0, numbers, 1) == Ok([] + [0]);
    assert [] + [0] == rows && rows[1..] == [];
    assert MayMove(OneUnit, movements, Breaking, None, 0);
    assert MoveUnits(OneUnit, movements, 1, rows, None) == Ok(BrokenUnit);
  }

  lemma UnitRequests()
    ensures ShopRequest(Now, UnitComes, 1000) && ShopRequest(Now, UnitBreaks, -1000)
    ensures UnitComes.key == 0 && UnitComes.product == 0 && UnitComes.location == 0 && UnitComes.kind == Entry
    ensures UnitBreaks.key == 1 && UnitBreaks.product == 0 && UnitBreaks.location == 0 && UnitBreaks.kind == Damage
    ensures MovementDetails(Now, UnitComes).cost == 0 && MovementDetails(Now, UnitComes).serial == SerialOptions(UnitNumber, None)
    ensures MovementDetails(Now, UnitBreaks).cost == 0 && MovementDetails(Now, UnitBreaks).serial == SerialOptions(UnitNumber, None)
    ensures Now.now == 0 && Now.currency == 0
  {
    hide NormalizedUnits, QuantityFromUnits, ShopRequest, MovementDetails, Shop, Manual;
    PiecesNormalize(1000, true, true);
    assert QuantityChange(Entry, 1000) == Ok(1000) && QuantityChange(Damage, 1000) == Ok(-1000);
    ShopAccepts(WholePieces, 0, 0, 0, Entry, 0, 1000, 1000, None, UnitNumber);
    ShopAccepts(WholePieces, 0, 0, 1, Damage, 0, 1000, -1000, None, UnitNumber);
  }

  lemma UnitBooks() returns (one: Fifo.Book, two: Fifo.Book)
    ensures Fifo.EmptyBook.movements == [] && |one.movements| == |one.figures| && one.movements == [Coming]
    ensures |Fifo.EmptyBook.movements| == |Fifo.EmptyBook.figures| && Fifo.Apply(Fifo.EmptyBook, Coming, 0) == Ok(one)
    ensures Fifo.Apply(one, Breaking, 0) == Ok(two)
  {
    hide FifoCases.Costless, Fifo.Apply, Moved;
    FifoCases.EmptyIsCostless();
    one := FifoCases.StockIn(Fifo.EmptyBook, 0, 0, Entry, 1000, 0);
    FifoCases.MovedHere([], Coming, 0, 0);
    assert [] + [Coming] == [Coming];
    two := FifoCases.StockOut(one, Breaking);
  }

  lemma OnlyUnit(book: SerialBook, unit: Serial)
    requires book.serials == [unit] && unit.product == 0 && unit.location == Some(0) && unit.status == Damaged
    ensures Units(book, 0, 0, Damaged) == 1
  {
    assert [unit] == [] + [unit];
    TotalAppend([], unit, UnitAt(0, 0, Damaged));
  }

  lemma DamagedUnit()
    ensures Units(BrokenUnit, 0, 0, Damaged) == 1
  {
    hide Normalize, Trim, Units;
    OnlyUnit(BrokenUnit, BrokenUnit.serials[0]);
  }

  lemma DamageDiffers(stock: Stock)
    requires RowAt(stock.rows, 0, 0).damaged == 0 && Units(stock.ledgers.serials, 0, 0, Damaged) == 1
    ensures !Agrees(stock, Serialised)
  {
    hide Agrees, RowAt, Units;
    if Agrees(stock, Serialised) {
      DamagedIs(stock, Serialised, 0, 0);
    }
  }

  /** A movement of the serialised product whose valuation and tracking are known to succeed. */
  lemma UnitGoes(world: World, request: MovementRequest, change: int, m: Movement, book: Fifo.Book, serials: SerialBook) returns (next: World)
    requires Booked(world.state.stock) && request.key !in world.used && ShopRequest(Now, request, change)
    requires m == Plain(request.product, request.location, request.kind, change, Now.now, Now.currency) && m.product == 0
    requires var row := RowAt(world.state.stock.rows, request.product, request.location);
             row.quantity + change >= 0 && row.available + change >= 0
    requires Fifo.Apply(world.state.stock.ledgers.book, m, MovementDetails(Now, request).cost) == Ok(book)
    requires var stock := world.state.stock;
             ApplySerials(stock.ledgers.serials, Log(stock) + [m], |Log(stock)|, MovementDetails(Now, request).serial) == Ok(serials)
    ensures Perform(world, Serialised, map[], MovementCommand(Now, request)) == Ok(next) && Booked(next.state.stock)
    ensures next.used.Keys == world.used.Keys + {request.key}
    ensures next.state.stock.ledgers == Ledgers(book, world.state.stock.ledgers.lots, serials)
    ensures RowAt(next.state.stock.rows, request.product, request.location)
            == AvailableChanged(RowAt(world.state.stock.rows, request.product, request.location), change)
  {
    hide Perform, RowAt, Post, Put, ShopRequest, MovementDetails, Fifo.Apply, ApplySerials, Now;
    var row := AvailableChanged(RowAt(world.state.stock.rows, request.product, request.location), change);
    MovementPosts(world, Serialised, map[], Now, request, change);
    SerialisedPosts(world.state.stock, row, m, MovementDetails(Now, request), book, serials);
    PutIsRead(world.state.stock.rows, row, request.product, request.location);
    next := Perform(world, Serialised, map[], MovementCommand(Now, request)).value;
  }

  lemma UnitRun() returns (first: World, second: World)
    ensures Perform(EmptyWorld, Serialised, map[], MovementCommand(Now, UnitComes)) == Ok(first) && Booked(first.state.stock)
    ensures Perform(first, Serialised, map[], MovementCommand(Now, UnitBreaks)) == Ok(second)
    ensures RowAt(second.state.stock.rows, 0, 0).damaged == 0 && second.state.stock.ledgers.serials == BrokenUnit
  {
    hide Perform, RowAt, ShopRequest, MovementDetails, Fifo.Apply, ApplySerials, Shop, Manual, Now, Fifo.EmptyBook, OneUnit, BrokenUnit,
         UnitComes, UnitBreaks;
    var one, two := UnitBooks();
    UnitRequests();
    UnitRegisters();
    UnitMoves();
    NothingThere(0, 0);
    first := UnitGoes(EmptyWorld, UnitComes, 1000, Coming, one, OneUnit);
    second := UnitGoes(first, UnitBreaks, -1000, Breaking, two, BrokenUnit);
  }

  /** A serialised unit comes in and breaks: the unit is damaged, the balance shows nothing damaged. */
  lemma DamageIsNotFollowed()
    ensures var r := PerformAll(EmptyWorld, Serialised, map[], [MovementCommand(Now, UnitComes), MovementCommand(Now, UnitBreaks)]);
            && r.Ok? && RowAt(r.value.state.stock.rows, 0, 0).damaged == 0 && Units(r.value.state.stock.ledgers.serials, 0, 0, Damaged) == 1
            && !Agrees(r.value.state.stock, Serialised)
  {
    hide *;
    var first, second := UnitRun();
    DamagedUnit();
    NothingThere(0, 0);
    TwoCommands(EmptyWorld, Serialised, map[], MovementCommand(Now, UnitComes), MovementCommand(Now, UnitBreaks));
    DamageDiffers(second.state.stock);
  }

  // ----- A kit of a component under lots -----

  const ByLot := Tracking({0}, {})
  const LotComes := Manual(0, Entry, 0, 1000, Some(LotLabel("L", None, None)), None)
  const SomeKit := Kit(1, true, true, [Component(0, 1000)])
  const SomeKits: map<Product, Kit> := map[1 := SomeKit]
  const OneKit := KitRequest(0, 0, 1, 0, true, QuantityFromUnits(1000))
  const Using := Plain(0, 0, Adjustment, -1000, 0, 0)
  const Making := Plain(1, 0, Adjustment, 1000, 0, 0)

  function LotsOfEntry(): Lots.LotOptions {
    Lots.LotOptions(Some(LotLabel("L", None, None)), None, false, 0, Lots.NoDates)
  }

  lemma CodeFits()
    ensures Lots.NormalizeLotCode("L") == Ok("L")
  {
    TrimFixesTrimmed("L");
    hide Trim;
    assert CollapseSpaces("L") == "L" by { assert "L"[1..] == ""; }
    assert UpperAscii("L") == "L";
  }

  lemma LotIsReceived(cost: nat)
    ensures Lots.ApplyLots(Lots.EmptyLots, [Coming], 0, cost, LotsOfEntry()).Ok?
  {
    CodeFits();
    hide Lots.NormalizeLotCode;
    var empty := Lots.EmptyLots;
    assert [Coming][0] == Coming;
    assert Lots.FirstLot(empty.lots, 0, 0).None? && Lots.FindLot(empty.lots, 0, "L", 0).None?;
    var created := empty.(lots := [] + [Lots.Lot(0, "L", None, None, cost, 0)]);
    assert Lots.FindOrCreateLot(empty, 0, LotLabel("L", None, None), Lots.NoDates, cost, 0) == Ok(Lots.Found(created, 0));
    LotIsWritten(created, cost);
  }

  lemma LotIsWritten(book: Lots.LotBook, cost: nat)
    requires book.lots == [Lots.Lot(0, "L", None, None, cost, 0)] && book.balances == [] && book.entries == []
    ensures Lots.ChangeLot(book, 0, 0, 0, 1000, Lots.ManualMode, Some(Lots.CostSource(cost, 0, true))).Ok?
  {
    hide Lots.Revalued, DivideRounded, QuantityValue, Lots.FindRow, Lots.EnsureRow;
    LotHasRow();
    PricedAtCost(cost);
  }

  lemma LotHasRow()
    ensures var rows := Lots.EnsureRow([], 0, 0);
            rows == [Lots.LotBalance(0, 0, 0)] && Lots.FindRow(rows, 0, 0, |rows|) == Some(0) && Total(rows, Lots.HeldOf(0)) == 0
  {
    var rows := Lots.EnsureRow([], 0, 0);
    assert Lots.FindRow([], 0, 0, 0) == None;
    assert rows == [] + [Lots.LotBalance(0, 0, 0)];
    assert Lots.FindRow(rows, 0, 0, 0) == None && Lots.FindRow(rows, 0, 0, 1) == Some(0);
    TotalAppend([], Lots.LotBalance(0, 0, 0), Lots.HeldOf(0));
  }

  lemma PricedAtCost(cost: nat)
    ensures Lots.Revalued(0, cost, 1000, cost, true) >= 0
  {
    DivideExact(cost, 1000);
    assert 0 * cost + 1000 * cost == cost * 1000;
  }

  lemma LotRequests()
    ensures ShopRequest(Now, LotComes, 1000)
    ensures LotComes.key == 0 && LotComes.product == 0 && LotComes.location == 0 && LotComes.kind == Entry
    ensures MovementDetails(Now, LotComes).cost == 0 && MovementDetails(Now, LotComes).lot == LotsOfEntry()
    ensures Now.now == 0 && Now.currency == 0
  {
    hide NormalizedUnits, QuantityFromUnits, ShopRequest, MovementDetails, Shop, Manual;
    PiecesNormalize(1000, true, true);
    assert QuantityChange(Entry, 1000) == Ok(1000);
    ShopAccepts(WholePieces, 0, 0, 0, Entry, 0, 1000, 1000, Some(LotLabel("L", None, None)), None);
  }

  lemma LotPosts(stock: Stock, row: Row, m: Movement, details: Details, book: Fifo.Book)
    requires Booked(stock) && m.product == 0 && Log(stock) == [] && m == Coming && stock.ledgers.lots == Lots.EmptyLots
    requires Fifo.Apply(stock.ledgers.book, m, details.cost) == Ok(book) && details.lot == LotsOfEntry()
    requires book.movements == [Coming] && |book.figures| == 1 && book.figures[0].unitCost >= 0
    ensures var r := Post(stock, ByLot, row, m, details);
            r.Ok? && r.value.rows == Put(stock.rows, row) && r.value.ledgers.book == book
  {
    LotIsReceived(book.figures[0].unitCost);
    hide Fifo.Apply, Lots.ApplyLots, LotsOfEntry;
  }

  lemma KitRequested()
    ensures KitUnits(SomeKits, Now, OneKit) == Ok(1000) && QuantityToUnits(OneKit.quantity) == Ok(1000)
    ensures OneKit.key == 0 && OneKit.product == 1 && OneKit.location == 0 && OneKit.assemble && OneKit.warehouse == 0
    ensures 0 in Now.locations && Now.locations[0].warehouse == 0
    ensures CatalogueOf(0) == 0 && CatalogueOf(1) == 0
  {
    PiecesNormalize(1000, false, true);
    UnitsRoundTrip(1000);
    hide NormalizedUnits, QuantityFromUnits, QuantityToUnits, WholePieces;
  }

  function CatalogueOf(product: Product): nat {
    Unguided(Now, product, SerialOptions(None, None)).cost
  }

  lemma KitList()
    ensures KitChanges(SomeKit, 1000, true, 0) == [Change(0, -1000), Change(1, 1000)]
    ensures NetChange(SomeKit, 1000, true, 0, 0) == -1000
  {
    assert KitChanges(SomeKit, 1000, true, 1) == [Change(1, 1000)];
    assert ComponentChange(Component(0, 1000), 1000, true) == Change(0, -1000);
    var components := SomeKit.components;
    assert components[0..] == [] + [Component(0, 1000)];
    TotalAppend([], Component(0, 1000), NeededOf(0, 1000));
  }

  lemma UnitPrices()
    ensures Plain(0, 0, Adjustment, -1000, Now.now, Now.currency) == Using && Plain(1, 0, Adjustment, 1000, Now.now, Now.currency) == Making
  {
    hide WholePieces;
  }

  lemma KitApplies(stock: Stock, two: Fifo.Book, three: Fifo.Book)
    requires Booked(stock) && RowAt(stock.rows, 0, 0).available >= 1000
    requires Fifo.Apply(stock.ledgers.book, Using, 0) == Ok(two) && |two.movements| == |two.figures|
    requires Fifo.Apply(two, Making, 0) == Ok(three)
    ensures ApplyChanges(stock, Now, 0, [Change(0, -1000), Change(1, 1000)]).Ok?
  {
    hide Fifo.Apply, RowAt, Put, Now, Unguided, Using, Making;
    KitRequested();
    UnitPrices();
    var changes := [Change(0, -1000), Change(1, 1000)];
    var first := ApplyChange(stock, Now, 0, changes[0]);
    assert first.Ok? && first.value.ledgers.book == two;
    assert ApplyChange(first.value, Now, 0, changes[1]).Ok?;
    assert changes[1..] == [changes[1]];
    hide ApplyChange;
    assert [changes[1]][1..] == [];
  }

  lemma KitOperates(stock: Stock, two: Fifo.Book, three: Fifo.Book)
    requires Booked(stock) && RowAt(stock.rows, 0, 0).available >= 1000
    requires Fifo.Apply(stock.ledgers.book, Using, 0) == Ok(two) && |two.movements| == |two.figures|
    requires Fifo.Apply(two, Making, 0) == Ok(three)
    ensures var r := OperateKit(stock, [], SomeKits, Now, OneKit); r.Ok? && r.value.operations != []
  {
    hide Fifo.Apply, RowAt, Now, ApplyChanges, KitChanges, KitUnits, QuantityToUnits, OneKit;
    KitRequested();
    KitList();
    KitApplies(stock, two, three);
    assert FindOperation([], 0, 0).None?;
  }

  lemma KitBooks() returns (one: Fifo.Book, two: Fifo.Book, three: Fifo.Book)
    ensures |Fifo.EmptyBook.movements| == |Fifo.EmptyBook.figures| && Fifo.Apply(Fifo.EmptyBook, Coming, 0) == Ok(one)
    ensures one.movements == [Coming] && |one.figures| == 1 && one.figures[0].unitCost >= 0
    ensures Fifo.Apply(one, Using, 0) == Ok(two) && |two.movements| == |two.figures| && Fifo.Apply(two, Making, 0) == Ok(three)
  {
    hide FifoCases.Costless, Fifo.Apply, Moved, Fifo.EmptyBook;
    NothingBooked();
    FifoCases.EmptyIsCostless();
    one := FifoCases.StockIn(Fifo.EmptyBook, 0, 0, Entry, 1000, 0);
    FifoCases.MovedHere([], Coming, 0, 0);
    assert [] + [Coming] == [Coming];
    two := FifoCases.StockOut(one, Using);
    three := FifoCases.StockIn(two, 1, 0, Adjustment, 1000, 0);
    FifoCases.CostlessParts(one);
    CostOfMovement(one, 0);
  }

  lemma NothingBooked()
    ensures Fifo.EmptyBook.movements == [] && Fifo.EmptyBook.figures == []
  {
  }

  lemma LotEnters(one: Fifo.Book) returns (first: World)
    requires |Fifo.EmptyBook.movements| == |Fifo.EmptyBook.figures| && Fifo.Apply(Fifo.EmptyBook, Coming, 0) == Ok(one)
    requires one.movements == [Coming] && |one.figures| == 1 && one.figures[0].unitCost >= 0
    ensures Perform(EmptyWorld, ByLot, SomeKits, MovementCommand(Now, LotComes)) == Ok(first) && Booked(first.state.stock)
    ensures first.state.stock.ledgers.book == one && first.operations == []
    ensures RowAt(first.state.stock.rows, 0, 0) == Row(0, 0, 1000, 1000, 0, 0, 0)
  {
    hide Perform, RowAt, Post, Put, ShopRequest, MovementDetails, Fifo.Apply, Now, LotComes, Fifo.EmptyBook, LotsOfEntry;
    LotRequests();
    NothingThere(0, 0);
    NothingBooked();
    var row := AvailableChanged(RowAt(EmptyWorld.state.stock.rows, 0, 0), 1000);
    MovementPosts(EmptyWorld, ByLot, SomeKits, Now, LotComes, 1000);
    LotPosts(EmptyWorld.state.stock, row, Coming, MovementDetails(Now, LotComes), one);
    PutIsRead(EmptyWorld.state.stock.rows, row, 0, 0);
    first := Perform(EmptyWorld, ByLot, SomeKits, MovementCommand(Now, LotComes)).value;
  }

  lemma EntryAgrees(tracking: Tracking, kits: map<Product, Kit>, context: Context, request: MovementRequest)
    requires request.kind == Entry && Booked(EmptyWorld.state.stock)
    requires Perform(EmptyWorld, tracking, kits, MovementCommand(context, request)).Ok?
    ensures Agrees(Perform(EmptyWorld, tracking, kits, MovementCommand(context, request)).value.state.stock, tracking)
  {
    hide RecordOnce, Agrees, WorldSound;
    EmptyWorldSound(tracking);
    RecordOnceWrites(EmptyWorld, tracking, context, request);
  }

  lemma KitPerforms(first: World) returns (second: World)
    requires Booked(first.state.stock) && first.operations == []
    requires OperateKit(first.state.stock, [], SomeKits, Now, OneKit).Ok?
    ensures Perform(first, ByLot, SomeKits, KitCommand(Now, OneKit)) == Ok(second)
    ensures second.state.stock == OperateKit(first.state.stock, [], SomeKits, Now, OneKit).value.stock
  {
    hide OperateKit, OneKit;
    second := Perform(first, ByLot, SomeKits, KitCommand(Now, OneKit)).value;
  }

  lemma KitTakesLots(stock: Stock)
    requires Agrees(stock, ByLot) && Booked(stock) && RowAt(stock.rows, 0, 0) == Row(0, 0, 1000, 1000, 0, 0, 0)
    requires var r := OperateKit(stock, [], SomeKits, Now, OneKit); r.Ok? && r.value.operations != []
    ensures var after := OperateKit(stock, [], SomeKits, Now, OneKit).value.stock;
            RowAt(after.rows, 0, 0).quantity == 0 && Lots.ProductHeld(after.ledgers.lots, 0, 0) == 1000 && !Agrees(after, ByLot)
  {
    hide Agrees, OperateKit, RowAt, KitUnits, NetChange, KitChanges, Lots.ProductHeld, Now, QuantityToUnits, OneKit;
    KitRequested();
    KitList();
    AgreementMeans(stock, ByLot, 0, 0);
    OperationIsNet(stock, [], SomeKits, Now, OneKit);
    OperationKeepsTrackers(stock, [], SomeKits, Now, OneKit);
    TrackedKitBreaks(stock, ByLot, [], SomeKits, Now, OneKit, 0);
    var after := OperateKit(stock, [], SomeKits, Now, OneKit).value.stock;
    assert RowAt(after.rows, 0, 0) == AvailableChanged(RowAt(stock.rows, 0, 0), NetChange(SomeKit, 1000, true, 0, 0));
  }

  /** A component comes in under a lot and goes into a kit: nothing of it is left on the balance, and the
      lot still holds all of it. */
  lemma LotIsNotFollowed()
    ensures var r := PerformAll(EmptyWorld, ByLot, SomeKits, [MovementCommand(Now, LotComes), KitCommand(Now, OneKit)]);
            && r.Ok? && RowAt(r.value.state.stock.rows, 0, 0).quantity == 0 && Lots.ProductHeld(r.value.state.stock.ledgers.lots, 0, 0) == 1000
            && !Agrees(r.value.state.stock, ByLot)
  {
    hide Perform, PerformAll, RowAt, OperateKit, Agrees, Now, LotComes, OneKit, Fifo.Apply, Fifo.EmptyBook, SomeKits, ByLot, Lots.ProductHeld,
         Using, Making, Coming;
    var one, two, three := KitBooks();
    var first := LotEnters(one);
    LotKind();
    NothingThere(0, 0);
    EntryAgrees(ByLot, SomeKits, Now, LotComes);
    KitOperates(first.state.stock, two, three);
    KitTakesLots(first.state.stock);
    var second := KitPerforms(first);
    TwoCommands(EmptyWorld, ByLot, SomeKits, MovementCommand(Now, LotComes), KitCommand(Now, OneKit));
  }

  lemma LotKind()
    ensures LotComes.kind == Entry
  {
    hide QuantityFromUnits;
  }

  // ----- A kit of a component bought in another currency -----

  const TakeApart := KitRequest(1, 0, 1, 0, false, QuantityFromUnits(1000))
  const BoughtDetails := Details(0, LotsOption(), SerialOptions(None, None))

  function LotsOption(): Lots.LotOptions {
    Lots.LotOptions(None, None, false, 0, Lots.NoDates)
  }

  /** What a purchase receipt posts. */
  function Purchased(): Result<Stock> {
    Post(EmptyStock, NoTracking, AvailableChanged(RowAt([], 0, 0), 1000), FifoCases.Bought, BoughtDetails)
  }

  lemma PurchaseExplains(row: Row)
    requires row == Row(0, 0, 1000, 1000, 0, 0, 0) && RowAt([], 0, 0) == Row(0, 0, 0, 0, 0, 0, 0)
    ensures Explains(EmptyStock, NoTracking, row, FifoCases.Bought, BoughtDetails, Level, Level)
    ensures Trackable(EmptyStock.ledgers, NoTracking, FifoCases.Bought, BoughtDetails)
  {
  }

  lemma PurchaseAgrees() returns (book: Fifo.Book)
    ensures Purchased().Ok? && Booked(Purchased().value) && Agrees(Purchased().value, NoTracking)
    ensures Purchased().value.ledgers.book == book && !Fifo.CurrencyAccepted(book, 0, 0) && Fifo.CurrencyAccepted(book, 1, 0)
    ensures RowAt(Purchased().value.rows, 0, 0) == Row(0, 0, 1000, 1000, 0, 0, 0)
  {
    book := FifoCases.BoughtAbroad();
    hide Agrees, AgreesUpTo, Fifo.Apply, Put, Fifo.CurrencyAccepted, Post, Explains, Trackable;
    var row := AvailableChanged(RowAt([], 0, 0), 1000);
    assert RowAt([], 0, 0) == Row(0, 0, 0, 0, 0, 0, 0);
    UntrackedPosts(EmptyStock, row, FifoCases.Bought, BoughtDetails);
    EmptyAgrees(NoTracking);
    PurchaseExplains(row);
    AgreesLevel(EmptyStock);
    PostKeepsAgreement(EmptyStock, NoTracking, row, FifoCases.Bought, BoughtDetails, Level, Level);
    AgreesLevel(Purchased().value);
    PutIsRead([], row, 0, 0);
  }

  lemma AgreesLevel(stock: Stock)
    ensures Agrees(stock, NoTracking) <==> AgreesUpTo(stock, NoTracking, Level)
  {
  }

  lemma ApartRequested()
    ensures KitUnits(SomeKits, Now, TakeApart) == Ok(1000) && QuantityToUnits(TakeApart.quantity) == Ok(1000)
    ensures TakeApart.key == 1 && TakeApart.product == 1 && TakeApart.location == 0 && !TakeApart.assemble && TakeApart.warehouse == 0
  {
    PiecesNormalize(1000, false, true);
    UnitsRoundTrip(1000);
    hide NormalizedUnits, QuantityFromUnits, QuantityToUnits, WholePieces;
  }

  lemma KitSuits()
    ensures KitExactness.WellFormed(SomeKit) && KitsSound(SomeKits, NoTracking) && 1 in SomeKits && SomeKits[1] == SomeKit
  {
  }

  lemma OperationsAfter(stock: Stock)
    requires Booked(stock) && OperateKit(stock, [], SomeKits, Now, OneKit).Ok?
    ensures FindOperation([], OneKit.key, 0).None?
    ensures var operations := OperateKit(stock, [], SomeKits, Now, OneKit).value.operations;
            FindOperation(operations, TakeApart.key, |operations|).None?
  {
    KitRequested();
    ApartRequested();
    hide ApplyChanges, KitUnits, QuantityToUnits, Now, OneKit, TakeApart, KitChanges;
    assert FindOperation([], 0, 0).None?;
    var operations := OperateKit(stock, [], SomeKits, Now, OneKit).value.operations;
    assert |operations| == 1 && operations[0].key == 0;
    assert FindOperation(operations, 1, 0).None?;
  }

  lemma UsingIsCovered(stock: Stock)
    requires Agrees(stock, NoTracking) && Booked(stock) && Balances.StockOf(stock.rows, 0) == 1000
    ensures TransferExactness.ValueCovers(stock.ledgers.book, KitExactness.Booking(Now, 0, Change(0, -1000)), 0)
  {
    AgreementMeans(stock, NoTracking, 0, 0);
    hide Agrees, Now, QuantityValue;
  }

  lemma AssemblyReady(stock: Stock)
    requires Agrees(stock, NoTracking) && Booked(stock) && RowAt(stock.rows, 0, 0).available >= 1000 && Balances.StockOf(stock.rows, 0) == 1000
    requires Fifo.CurrencyAccepted(stock.ledgers.book, 1, 0)
    ensures KitExactness.KitReady(stock.rows, stock.ledgers.book, Now, 0, SomeKit, 1000, true)
  {
    UsingIsCovered(stock);
    KitRequested();
    UnitPrices();
    hide Agrees, Fifo.CurrencyAccepted, RowAt, Unguided, TransferExactness.ValueCovers, OneKit, Balances.StockOf, KitUnits, QuantityToUnits;
    assert ComponentChange(Component(0, 1000), 1000, true) == Change(0, -1000);
  }

  lemma BoughtTotal()
    requires Purchased().Ok?
    ensures Balances.StockOf(Purchased().value.rows, 0) == 1000
  {
    hide Record;
    PutChangesTotal([], AvailableChanged(RowAt([], 0, 0), 1000), 0);
  }

  /** A component priced in a foreign currency cannot come back in. */
  lemma ComponentStays(stock: Stock)
    requires Agrees(stock, NoTracking) && Booked(stock) && !Fifo.CurrencyAccepted(stock.ledgers.book, 0, 0)
    ensures ApplyChanges(stock, Now, 0, KitChanges(SomeKit, 1000, false, 0)) == Err(CurrencyMismatch)
  {
    KitExactness.StockIsBooked(stock, NoTracking);
    KitRequested();
    var m := Plain(0, 0, Adjustment, 1000, 0, 0);
    assert KitExactness.Booking(Now, 0, Change(0, 1000)) == m by { hide WholePieces; }
    ReturningIsEntry();
    hide Agrees, Fifo.Apply, RowAt, Fifo.CurrencyAccepted, Now, Unguided, KitUnits, QuantityToUnits, OneKit, FifoRuns.Invariant;
    FifoExactness.EntryIsExact(stock.ledgers.book, m, 0);
    assert ComponentChange(Component(0, 1000), 1000, false) == Change(0, 1000);
    assert KitChanges(SomeKit, 1000, false, 0)[0] == Change(0, 1000);
    hide KitChanges;
  }

  lemma ReturningIsEntry()
    ensures var m := Plain(0, 0, Adjustment, 1000, 0, 0);
            FifoExactness.OrdinaryEntry(m) && FifoExactness.HasCost(m) && FifoExactness.EntryCurrency(m) == 0 && m.product == 0
  {
  }

  lemma MadeAbroad(stock: Stock)
    requires Agrees(stock, NoTracking) && Booked(stock) && !Fifo.CurrencyAccepted(stock.ledgers.book, 0, 0)
    requires ApplyChanges(stock, Now, 0, KitChanges(SomeKit, 1000, true, 0)).Ok?
    ensures !Fifo.CurrencyAccepted(ApplyChanges(stock, Now, 0, KitChanges(SomeKit, 1000, true, 0)).value.ledgers.book, 0, 0)
  {
    KitList();
    hide Agrees, ApplyChanges, Fifo.CurrencyAccepted, KitChanges, Now;
    KitExactness.CurrencyThrough(stock, NoTracking, Now, 0, KitChanges(SomeKit, 1000, true, 0), 0);
  }

  lemma AssemblyRequested()
    ensures KitExactness.Requested([], SomeKits, Now, OneKit, 1000)
  {
    KitRequested();
    KitSuits();
    hide KitUnits, QuantityToUnits, QuantityFromUnits, KitExactness.WellFormed, WholePieces;
    assert FindOperation([], OneKit.key, 0).None?;
  }

  lemma ApartOutcome(stock: Stock, operations: seq<KitOperation>)
    requires Booked(stock) && FindOperation(operations, TakeApart.key, |operations|).None?
    ensures var applied := ApplyChanges(stock, Now, 0, KitChanges(SomeKit, 1000, false, 0));
            applied.Err? ==> OperateKit(stock, operations, SomeKits, Now, TakeApart) == Err(applied.error)
  {
    KitRequested();
    ApartRequested();
    hide ApplyChanges, KitChanges, KitUnits, QuantityToUnits, Now, TakeApart;
  }

  /** A component bought in a foreign currency goes into a kit; the kit cannot be taken apart again. */
  lemma ApartIsRefused()
    ensures Purchased().Ok?
    ensures var made := OperateKit(Purchased().value, [], SomeKits, Now, OneKit);
            made.Ok? && OperateKit(made.value.stock, made.value.operations, SomeKits, Now, TakeApart) == Err(CurrencyMismatch)
  {
    hide Purchased, Agrees, OperateKit, ApplyChanges, KitChanges, KitUnits, QuantityToUnits, RowAt, Fifo.CurrencyAccepted, Now, OneKit, TakeApart,
         KitExactness.Requested, KitExactness.KitReady, KitsSound, KitExactness.WellFormed;
    var book := PurchaseAgrees();
    var bought := Purchased().value;
    BoughtTotal();
    KitSuits();
    KitRequested();
    AssemblyRequested();
    AssemblyReady(bought);
    KitExactness.OperationIsExact(bought, [], SomeKits, NoTracking, Now, OneKit, 1000);
    KitExactness.RequestApplies(bought, [], SomeKits, Now, OneKit, 1000);
    OperateKitWrites(bought, [], SomeKits, NoTracking, Now, OneKit);
    var made := OperateKit(bought, [], SomeKits, Now, OneKit).value;
    WroteAgrees(bought, made.stock, NoTracking);
    MadeAbroad(bought);
    OperationsAfter(bought);
    ComponentStays(made.stock);
    ApartOutcome(made.stock, made.operations);
  }
}
