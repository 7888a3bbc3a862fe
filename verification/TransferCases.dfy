/** A shipment that cannot be reported missing, as the writers see it. */
module TransferCases {
  import opened Outcomes
  import opened Rounding
  import opened Quantity
  import opened Movements
  import Fifo
  import FifoCases
  import Lots
  import opened Serials
  import opened Balances
  import opened Ledgers
  import opened Stock
  import opened Site
  import opened Transfers
  import opened TransferTheorems
  import opened Writers
  import opened KitCatalogue
  import opened Runs
  import opened WorldCases

  const Now := Shop(WholePieces, 0, 0)
  const Later := Shop(WholePieces, 0, 1)

  const OldStock := Manual(0, Entry, 0, 1000, None, None)
  const NewStock := Manual(1, Entry, 1, 1000, None, None)
  const Taken := Manual(2, Exit, 1, 1000, None, None)
  const Shipping := CreateRequest(0, 0, 1, "", "", [NewLine(0, 0, 1, QuantityFromUnits(1000), [])])
  const Missing := ReceiveRequest(0, 0, 1, [ReceiveLine(0, QuantityFromUnits(0), QuantityFromUnits(1000), [], [])], Some("missing"))

  const ShippedLine := Line(0, 0, 1, 1000, [], 0, 0)

  function Shipped(status: Status, dispatchKey: Option<Key>): Transfer {
    Transfer(0, 1, status, 0, CreateDigest(0, 1, "", "", [ShippedLine]), dispatchKey, [ShippedLine])
  }

  lemma RequestsAreRead()
    ensures ShopRequest(Now, OldStock, 1000) && ShopRequest(Later, NewStock, 1000) && ShopRequest(Later, Taken, -1000)
    ensures OldStock.key == 0 && OldStock.product == 0 && OldStock.location == 0 && OldStock.kind == Entry
    ensures NewStock.key == 1 && NewStock.product == 0 && NewStock.location == 1 && NewStock.kind == Entry
    ensures Taken.key == 2 && Taken.product == 0 && Taken.location == 1 && Taken.kind == Exit
    ensures Now.now == 0 && Now.currency == 0 && 0 in Now.products && Now.products[0].cost == 0
    ensures Later.now == 1 && Later.currency == 0 && 0 in Later.products && Later.products[0].cost == 0
  {
    hide NormalizedUnits, QuantityFromUnits, ShopRequest, MovementDetails, Shop, Manual;
    PiecesNormalize(1000, true, true);
    assert QuantityChange(Entry, 1000) == Ok(1000) && QuantityChange(Exit, 1000) == Ok(-1000);
    ShopAccepts(WholePieces, 0, 0, 0, Entry, 0, 1000, 1000, None, None);
    ShopAccepts(WholePieces, 0, 1, 1, Entry, 1, 1000, 1000, None, None);
    ShopAccepts(WholePieces, 0, 1, 2, Exit, 1, 1000, -1000, None, None);
  }

  // ----- The calls -----

  lemma ShippingNormalizes()
    ensures |Shipping.lines| == 1 && NormalizeLines(Now, Shipping.lines, 1) == Ok([ShippedLine])
  {
    PiecesNormalize(1000, false, true);
    hide NormalizedUnits, QuantityFromUnits, WholePieces;
    assert Trimmed([]) == [];
    assert NormalizeLine(Now, Shipping.lines[0]) == Ok(ShippedLine);
    assert NormalizeLines(Now, Shipping.lines, 0) == Ok([]);
    assert [] + [ShippedLine] == [ShippedLine];
  }

  lemma ShippingCreates(state: State)
    requires state.transfers == []
    ensures Create(state, Now, Shipping) == Ok(Done(state.(transfers := [Shipped(Draft, None)]), Reply(0, false)))
  {
    ShippingNormalizes();
    hide NormalizeLines, WholePieces, QuantityFromUnits;
    assert LinesDistinct(Shipping.lines) && WarehousePair(Now, 0, 1) && TargetsUsable(Now, 0, 1, [ShippedLine]);
    assert FindByKey(state.transfers, 0, 0) == None;
    assert [] + [Shipped(Draft, None)] == [Shipped(Draft, None)];
  }

  lemma LineMoves()
    ensures Departure(Now, 0, 0, ShippedLine) == FifoCases.Leaves && Arrival(Now, 0, 0, ShippedLine) == FifoCases.Arrives
    ensures DepartureDetails(Now, ShippedLine).cost == 0 && ArrivalDetails(Now, ShippedLine).cost == 0
  {
    hide WholePieces;
  }

  lemma RowsEnsured(rows: seq<Row>)
    ensures forall p, l :: RowAt(EnsureRows(rows, [ShippedLine]), p, l) == RowAt(rows, p, l)
    ensures Exists(EnsureRows(rows, [ShippedLine]), 0, 1)
  {
    var first := Ensure(rows, 0, 0);
    assert [ShippedLine][1..] == [];
    assert EnsureRows(rows, [ShippedLine]) == Ensure(first, 0, 1);
    hide Put, RowAt, EnsureRows, Exists;
    PutIsRead(first, RowAt(first, 0, 1), 0, 1);
    forall p, l ensures RowAt(Ensure(first, 0, 1), p, l) == RowAt(rows, p, l) {
      PutIsRead(rows, RowAt(rows, 0, 0), p, l);
      PutIsRead(rows, RowAt(rows, 0, 0), 0, 1);
      PutIsRead(first, RowAt(first, 0, 1), p, l);
    }
  }

  /** The shipped line is dispatched when the stock is available and both valuations succeed. */
  lemma LineDispatches(stock: Stock, two: Fifo.Book, three: Fifo.Book) returns (after: Stock)
    requires Booked(stock) && RowAt(stock.rows, 0, 0).available >= 1000
    requires Fifo.Apply(stock.ledgers.book, FifoCases.Leaves, 0) == Ok(two)
    requires |two.movements| == |two.figures| && Fifo.Apply(two, FifoCases.Arrives, 0) == Ok(three)
    ensures DispatchLine(stock, NoTracking, Now, 0, 0, ShippedLine) == Ok(after) && after.ledgers.book == three
    ensures RowAt(after.rows, 0, 1) == Arriving(RowAt(stock.rows, 0, 1), 1000)
    ensures forall p, l :: Exists(stock.rows, p, l) ==> Exists(after.rows, p, l)
  {
    LineMoves();
    hide Post, RowAt, Put, Fifo.Apply, Exists, Now, Departure, Arrival, DepartureDetails, ArrivalDetails;
    var out, arrival := Departure(Now, 0, 0, ShippedLine), Arrival(Now, 0, 0, ShippedLine);
    var source := Left(RowAt(stock.rows, 0, 0), 1000);
    UntrackedPosts(stock, source, out, DepartureDetails(Now, ShippedLine));
    var left := Stock(Put(stock.rows, source), stock.ledgers.(book := two));
    PutIsRead(stock.rows, source, 0, 1);
    var row := Arriving(RowAt(left.rows, 0, 1), 1000);
    UntrackedPosts(left, row, arrival, ArrivalDetails(Now, ShippedLine));
    after := Stock(Put(left.rows, row), left.ledgers.(book := three));
    PutIsRead(left.rows, row, 0, 1);
    forall p, l | Exists(stock.rows, p, l) ensures Exists(after.rows, p, l) {
      PutIsRead(stock.rows, source, p, l);
      PutIsRead(left.rows, row, p, l);
    }
  }

  lemma ShippingLeaves(state: State, two: Fifo.Book, three: Fifo.Book) returns (after: Stock)
    requires Booked(state.stock) && state.transfers == [Shipped(Draft, None)] && RowAt(state.stock.rows, 0, 0).available >= 1000
    requires Fifo.Apply(state.stock.ledgers.book, FifoCases.Leaves, 0) == Ok(two)
    requires |two.movements| == |two.figures| && Fifo.Apply(two, FifoCases.Arrives, 0) == Ok(three)
    ensures Dispatch(state, NoTracking, Now, 0, 0, 0)
            == Ok(Done(State(after, [Shipped(Dispatched, Some(0))], state.receipts), Reply(0, false)))
    ensures after.ledgers.book == three && RowAt(after.rows, 0, 1) == Arriving(RowAt(state.stock.rows, 0, 1), 1000)
    ensures Exists(after.rows, 0, 1)
  {
    var stock := state.stock.(rows := EnsureRows(state.stock.rows, [ShippedLine]));
    RowsEnsured(state.stock.rows);
    hide RowAt, Exists, EnsureRows, Fifo.Apply, DispatchLine, WholePieces;
    after := LineDispatches(stock, two, three);
    assert DispatchLines(stock, NoTracking, Now, 0, [ShippedLine], 0) == Ok(after);
    assert LinesUsable(Now, Shipped(Draft, None));
    assert [Shipped(Draft, None)][0 := Shipped(Dispatched, Some(0))] == [Shipped(Dispatched, Some(0))];
  }

  const MissingItem := Item(0, 0, 1000, [], [])

  lemma MissingNormalizes(transfer: Transfer)
    requires transfer == Shipped(Dispatched, Some(0))
    ensures |Missing.lines| == 1 && NormalizeItems(Later, transfer, Missing.lines, 1) == Ok([MissingItem])
  {
    hide NormalizeItem, Later, Missing;
    MissingLine(transfer);
    assert NormalizeItems(Later, transfer, Missing.lines, 0) == Ok([]);
    assert [] + [MissingItem] == [MissingItem];
  }

  lemma ItemNormalizes(context: Context, transfer: Transfer, line: ReceiveLine, received: int, discrepancy: int)
    requires line.line < |transfer.lines| && transfer.lines[line.line].product in context.products
    requires var policy := context.products[transfer.lines[line.line].product].policy;
             && NormalizedUnits(line.received, policy, false, false) == Ok(received)
             && NormalizedUnits(line.discrepancy, policy, false, false) == Ok(discrepancy)
    requires line.receivedSerials == [] && line.discrepancySerials == []
    ensures NormalizeItem(context, transfer, line) == Ok(Item(line.line, received, discrepancy, [], []))
  {
    hide NormalizedUnits;
    assert Trimmed([]) == [];
  }

  lemma MissingParts()
    ensures |Missing.lines| == 1
    ensures Missing.lines[0] == ReceiveLine(0, QuantityFromUnits(0), QuantityFromUnits(1000), [], []) && Missing.reason == Some("missing")
    ensures Missing.transfer == 0 && Missing.key == 0 && Missing.destination == 1
    ensures 0 in Later.products && Later.products[0].policy == WholePieces
  {
    hide QuantityFromUnits, WholePieces;
  }

  lemma MissingLine(transfer: Transfer)
    requires transfer == Shipped(Dispatched, Some(0))
    ensures |Missing.lines| == 1 && NormalizeItem(Later, transfer, Missing.lines[0]) == Ok(MissingItem)
  {
    hide NormalizedUnits, QuantityFromUnits, WholePieces, Missing, Later, NormalizeItem;
    MissingParts();
    PiecesNormalize(0, false, false);
    PiecesNormalize(1000, false, false);
    ItemNormalizes(Later, transfer, Missing.lines[0], 0, 1000);
  }

  lemma MissingIsRequested(state: State)
    requires state.transfers == [Shipped(Dispatched, Some(0))]
    ensures RequestedItems(state, Later, Missing) == Ok([MissingItem])
  {
    hide NormalizeItems, Later, Missing;
    MissingParts();
    MissingNormalizes(state.transfers[0]);
    var items := [MissingItem];
    assert items[0].discrepancy > 0;
  }

  lemma MissingMoves()
    ensures DiscrepancyMovement(Later, 0, MissingItem, ShippedLine) == FifoCases.Missing
    ensures Unguided(Later, 0, SerialOptions(Some([]), None)).cost == 0
  {
    hide WholePieces;
  }

  /** The item depends on nothing but the valuation, once the goods are in transit. */
  lemma ItemReceives(stock: Stock)
    requires Booked(stock) && RowAt(stock.rows, 0, 1).inTransit >= 1000
    ensures var r, valued := ReceiveItem(stock, NoTracking, Later, 0, MissingItem, ShippedLine), Fifo.Apply(stock.ledgers.book, FifoCases.Missing, 0);
            && (r.Ok? <==> valued.Ok?) && (r.Err? ==> r.error == valued.error)
  {
    MissingMoves();
    hide Post, RowAt, Put, Fifo.Apply, Later, DiscrepancyMovement, Unguided;
    var available := MadeAvailable(RowAt(stock.rows, 0, 1), 0);
    var received := stock.(rows := Put(stock.rows, available));
    UntrackedPosts(received, WrittenOff(available, 1000), DiscrepancyMovement(Later, 0, MissingItem, ShippedLine),
                   Unguided(Later, 0, SerialOptions(Some([]), None)));
  }

  lemma ItemsReceive(tx: Receiving)
    requires Booked(tx.stock) && tx.lines == [ShippedLine] && RowAt(tx.stock.rows, 0, 1).inTransit >= 1000
    ensures var r, valued := ReceiveItems(tx, NoTracking, Later, 0, [MissingItem]), Fifo.Apply(tx.stock.ledgers.book, FifoCases.Missing, 0);
            && (r.Ok? <==> valued.Ok?) && (r.Err? ==> r.error == valued.error)
  {
    hide ReceiveItem, RowAt, Fifo.Apply, Later, FifoCases.Missing;
    ItemReceives(tx.stock);
    var items := [MissingItem];
    assert items[1..] == [];
  }

  lemma MissingFits(rows: seq<Row>, transfer: Transfer)
    requires transfer == Shipped(Dispatched, Some(0)) && Exists(rows, 0, 1)
    ensures FirstError(transfer, [MissingItem], 1).None? && RowsPresent(rows, transfer, [MissingItem])
  {
    hide Exists;
    assert FirstError(transfer, [MissingItem], 0).None?;
  }

  /** So does the receipt. */
  lemma MissingReceives(state: State)
    requires Booked(state.stock) && state.transfers == [Shipped(Dispatched, Some(0))] && state.receipts == []
    requires RowAt(state.stock.rows, 0, 1).inTransit >= 1000 && Exists(state.stock.rows, 0, 1)
    ensures var r, valued := Receive(state, NoTracking, Later, Missing), Fifo.Apply(state.stock.ledgers.book, FifoCases.Missing, 0);
            && (r.Ok? <==> valued.Ok?) && (r.Err? ==> r.error == valued.error)
  {
    hide RequestedItems, RowAt, Exists, ReceiveItems, Fifo.Apply, Later, Missing, ItemMap, FirstError, RowsPresent, Complete, ReceiptLines;
    MissingParts();
    MissingIsRequested(state);
    MissingFits(state.stock.rows, state.transfers[0]);
    ItemsReceive(Receiving(state.stock, state.transfers[0].lines));
    assert FindReceipt(state.receipts, 0, 0).None?;
  }

  // ----- The run -----

  function Shipment(): seq<Command> {
    [MovementCommand(Now, OldStock), TransferCommand(CreateCall(Now, Shipping)), TransferCommand(DispatchCall(Now, 0, 0, 0)),
     MovementCommand(Later, NewStock)]
  }

  /** The shipment under way and the new stock in. */
  lemma ShipmentRuns(one: Fifo.Book, two: Fifo.Book, three: Fifo.Book, four: Fifo.Book) returns (fourth: World)
    requires FifoCases.Leads(Fifo.EmptyBook, FifoCases.OldStock, one) && FifoCases.Leads(one, FifoCases.Leaves, two)
    requires FifoCases.Leads(two, FifoCases.Arrives, three) && FifoCases.Leads(three, FifoCases.NewStock, four)
    ensures PerformAll(EmptyWorld, NoTracking, map[], Shipment()) == Ok(fourth) && Booked(fourth.state.stock)
    ensures fourth.state.transfers == [Shipped(Dispatched, Some(0))] && fourth.state.receipts == [] && Taken.key !in fourth.used
    ensures fourth.state.stock.ledgers.book == four && RowAt(fourth.state.stock.rows, 0, 1) == Row(0, 1, 2000, 1000, 0, 0, 1000)
    ensures Exists(fourth.state.stock.rows, 0, 1)
  {
    hide Perform, PerformAll, RowAt, Exists, Create, Dispatch, Fifo.Apply, ShopRequest, Shop, Manual, Now, Later, Shipping,
         Fifo.EmptyBook, FifoCases.OldStock, FifoCases.NewStock, FifoCases.Leaves, FifoCases.Arrives;
    RequestsAreRead();
    MovementsOfRun();
    NothingThere(0, 0);
    NothingThere(0, 1);
    var first := Moves(EmptyWorld, map[], Now, OldStock, 1000, one);
    ShippingCreates(first.state);
    var second := CallPerforms(first, CreateCall(Now, Shipping));
    var after := ShippingLeaves(second.state, two, three);
    var third := CallPerforms(second, DispatchCall(Now, 0, 0, 0));
    fourth := Moves(third, map[], Later, NewStock, 1000, four);
    FourCommands(EmptyWorld, first, second, third, fourth);
  }

  /** Taking stock out there leaves the shipment in transit. */
  lemma StockIsTaken(fourth: World, four: Fifo.Book, five: Fifo.Book) returns (fifth: World)
    requires Booked(fourth.state.stock) && Taken.key !in fourth.used && fourth.state.stock.ledgers.book == four
    requires RowAt(fourth.state.stock.rows, 0, 1) == Row(0, 1, 2000, 1000, 0, 0, 1000) && Exists(fourth.state.stock.rows, 0, 1)
    requires FifoCases.Leads(four, FifoCases.Taken, five)
    ensures Perform(fourth, NoTracking, map[], MovementCommand(Later, Taken)) == Ok(fifth) && Booked(fifth.state.stock)
    ensures fifth.state.transfers == fourth.state.transfers && fifth.state.receipts == fourth.state.receipts
    ensures fifth.state.stock.ledgers.book == five && RowAt(fifth.state.stock.rows, 0, 1).inTransit == 1000 && Exists(fifth.state.stock.rows, 0, 1)
  {
    hide Perform, RowAt, Exists, Fifo.Apply, ShopRequest, Shop, Manual, Later, Taken, FifoCases.Taken;
    RequestsAreRead();
    MovementsOfRun();
    fifth := Moves(fourth, map[], Later, Taken, -1000, five);
  }

  lemma AllPending()
    ensures PendingOf(ShippedLine) == 1000
  {
  }

  lemma ReceiveAnswers(state: State)
    requires Booked(state.stock)
    ensures Answer(state, NoTracking, ReceiveCall(Later, Missing)) == Receive(state, NoTracking, Later, Missing)
  {
  }

  /** Old stock is shipped to a place that gets new stock of its own. Reporting the shipment missing is
      accepted; but not once the place has given out as much stock of any age, although the balance has
      the whole shipment in transit and nothing of it is received. */
  lemma MissingIsRefused()
    ensures var before := PerformAll(EmptyWorld, NoTracking, map[], Shipment());
            && before.Ok? && Perform(before.value, NoTracking, map[], TransferCommand(ReceiveCall(Later, Missing))).Ok?
            && var after := Perform(before.value, NoTracking, map[], MovementCommand(Later, Taken));
               && after.Ok? && after.value.state.transfers == [Shipped(Dispatched, Some(0))]
               && RowAt(after.value.state.stock.rows, 0, 1).inTransit == PendingOf(ShippedLine) == 1000
               && Perform(after.value, NoTracking, map[], TransferCommand(ReceiveCall(Later, Missing))) == Err(LayerShortage)
  {
    hide *;
    var one, two, three, four, five := FifoCases.ShipmentIsDrained();
    var fourth := ShipmentRuns(one, two, three, four);
    AllPending();
    InTransitThen(fourth.state.stock.rows);
    MissingReceives(fourth.state);
    ReceiveAnswers(fourth.state);
    var sent := CallPerforms(fourth, ReceiveCall(Later, Missing));
    var fifth := StockIsTaken(fourth, four, five);
    MissingReceives(fifth.state);
    ReceiveAnswers(fifth.state);
    CallRefused(fifth, ReceiveCall(Later, Missing));
  }

  lemma InTransitThen(rows: seq<Row>)
    requires RowAt(rows, 0, 1) == Row(0, 1, 2000, 1000, 0, 0, 1000)
    ensures RowAt(rows, 0, 1).inTransit >= 1000
  {
  }

  lemma MovementsOfRun()
    ensures Plain(0, 0, Entry, 1000, 0, 0) == FifoCases.OldStock && Plain(0, 1, Entry, 1000, 1, 0) == FifoCases.NewStock
    ensures Plain(0, 1, Exit, -1000, 1, 0) == FifoCases.Taken
  {
  }

  lemma CallPerforms(world: World, call: Call) returns (next: World)
    requires Booked(world.state.stock) && Answer(world.state, NoTracking, call).Ok?
    ensures Perform(world, NoTracking, map[], TransferCommand(call)) == Ok(next)
    ensures next.state == Answer(world.state, NoTracking, call).value.state && next.used == world.used
  {
    hide Answer;
    next := world.(state := Next(world.state, NoTracking, call));
  }

  lemma CallRefused(world: World, call: Call)
    requires Booked(world.state.stock) && Answer(world.state, NoTracking, call).Err?
    ensures Perform(world, NoTracking, map[], TransferCommand(call)) == Err(Answer(world.state, NoTracking, call).error)
  {
    hide Answer;
  }

  lemma FourCommands(world: World, first: World, second: World, third: World, fourth: World)
    requires Booked(world.state.stock) && Booked(first.state.stock) && Booked(second.state.stock) && Booked(third.state.stock)
    requires Perform(world, NoTracking, map[], Shipment()[0]) == Ok(first)
    requires Perform(first, NoTracking, map[], Shipment()[1]) == Ok(second)
    requires Perform(second, NoTracking, map[], Shipment()[2]) == Ok(third)
    requires Perform(third, NoTracking, map[], Shipment()[3]) == Ok(fourth)
    ensures PerformAll(world, NoTracking, map[], Shipment()) == Ok(fourth)
  {
    hide Perform;
    var commands := Shipment();
    assert commands == [] + [commands[0]] + [commands[1]] + [commands[2]] + [commands[3]];
    hide Shipment;
    PerformNext(world, NoTracking, map[], [], commands[0]);
    PerformNext(world, NoTracking, map[], [] + [commands[0]], commands[1]);
    PerformNext(world, NoTracking, map[], [] + [commands[0]] + [commands[1]], commands[2]);
    PerformNext(world, NoTracking, map[], [] + [commands[0]] + [commands[1]] + [commands[2]], commands[3]);
  }
}
