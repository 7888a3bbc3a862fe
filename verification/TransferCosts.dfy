/** Dispatching a transfer moves cost between places and changes none. */
module TransferCosts {
  import opened Outcomes
  import opened Sums
  import Rounding
  import opened Movements
  import Fifo
  import opened FifoInvariants
  import opened FifoRuns
  import opened FifoCosts
  import opened FifoExactness
  import opened Lots
  import opened LotTransfers
  import opened Serials
  import opened Balances
  import opened Ledgers
  import opened Stock
  import opened Site
  import opened Transfers
  import opened TransferSteps
  import opened TransferLifecycle
  import opened TransferExactness
  import opened TransferAcceptance

  function FifoChangeOf(book: Fifo.Book, product: Product): nat -> int {
    (k: nat) => if k < |book.movements| && k < |book.figures| && book.movements[k].product == product
                then book.figures[k].fifoValueChange else 0
  }

  /** The value the cost layers have booked for a product, over all its movements. */
  function FifoValue(book: Fifo.Book, product: Product): int {
    Sum(|book.movements|, FifoChangeOf(book, product))
  }

  /** A committed movement adds the value booked for it and changes no other. */
  lemma FigureAdded(book: Fifo.Book, m: Movement, cost: int, product: Product)
    requires |book.movements| == |book.figures| && Fifo.Apply(book, m, cost).Ok?
    ensures var after := Fifo.Apply(book, m, cost).value;
            && |after.figures| == |book.figures| + 1
            && FifoValue(after, product)
               == FifoValue(book, product) + (if m.product == product then after.figures[|book.figures|].fifoValueChange else 0)
            && after.figures[..|book.figures|] == book.figures
  {
    var after := Fifo.Apply(book, m, cost).value;
    FiguresKept(book, m, cost);
    hide Fifo.Apply;
    forall k: nat | k < |book.movements| ensures FifoChangeOf(book, product)(k) == FifoChangeOf(after, product)(k) {
      assert after.figures[k] == after.figures[..|book.figures|][k];
    }
    SumSame(|book.movements|, FifoChangeOf(book, product), FifoChangeOf(after, product));
  }

  lemma FiguresKept(book: Fifo.Book, m: Movement, cost: int)
    requires |book.movements| == |book.figures| && Fifo.Apply(book, m, cost).Ok?
    ensures var after := Fifo.Apply(book, m, cost).value;
            && after.movements == book.movements + [m]
            && |after.figures| == |book.figures| + 1 && after.figures[..|book.figures|] == book.figures
  {
    var averaged := Fifo.Average(book, m, cost).value;
    assert |averaged.figures| == |book.figures| + 1 && averaged.figures[..|book.figures|] == book.figures;
    hide Fifo.Average, Fifo.BookLayers, Fifo.SummaryAgrees, Fifo.WeightedCost;
  }

  /** An arrival books the negation of what its dispatch booked. */
  lemma ArrivalNegates(book: Fifo.Book, m: Movement, dispatch: nat, cost: int)
    requires Invariant(book) && Follows(book, m, dispatch)
    ensures |book.movements| == |book.figures|
    ensures Fifo.Apply(book, m, cost).Ok? ==>
              var after := Fifo.Apply(book, m, cost).value;
              |after.figures| == |book.figures| + 1
              && after.figures[|book.figures|].fifoValueChange == -book.figures[dispatch].fifoValueChange
  {
    assert |book.movements| == |book.figures| && Core(book) && MovementBooked(book, dispatch) by { CoreLinks(book); }
    AverageKeepsCore(book, m, cost);
    hide Invariant, Core;
    if Fifo.Apply(book, m, cost).Ok? {
      var averaged := Fifo.Average(book, m, cost).value;
      assert averaged.movements == book.movements + [m] && averaged.allocations == book.allocations && |averaged.figures| == |book.figures| + 1;
      hide Fifo.Average;
      NotBookedYet(book, averaged, m);
      TransferIsCostNeutral(averaged, |book.movements|, dispatch);
      ArrivalFigure(averaged, |book.movements|);
    }
  }

  lemma ArrivalFigure(averaged: Fifo.Book, id: nat)
    requires id < |averaged.movements| == |averaged.figures| && Unbooked(averaged, id)
    requires averaged.movements[id].kind == TransferIn && averaged.movements[id].quantity > 0
    requires Fifo.ApplyFifo(averaged, id).Ok?
    ensures var r := Fifo.TransferLayers(averaged, id, averaged.movements[id].quantity);
            && r.Ok? && |Fifo.ApplyFifo(averaged, id).value.book.figures| == |averaged.figures|
            && Fifo.ApplyFifo(averaged, id).value.book.figures[id].fifoValueChange == r.value.value
  {
    hide Fifo.TransferLayers, Fifo.StockOf, Fifo.WeightedCost;
  }

  lemma IdleFigure(book: Fifo.Book, m: Movement, cost: int)
    requires |book.movements| == |book.figures| && m.quantity == 0 && Fifo.Apply(book, m, cost).Ok?
    ensures |Fifo.Apply(book, m, cost).value.figures| == |book.figures| + 1
    ensures Fifo.Apply(book, m, cost).value.figures[|book.figures|].fifoValueChange == 0
  {
    hide Fifo.StockOf, Rounding.QuantityValue, Rounding.DivideRounded;
  }

  /** Both halves of a dispatched line together book no value. */
  lemma LineIsCostNeutral(stock: Stock, tracking: Tracking, context: Context, t: nat, i: nat, line: Line, product: Product)
    requires Agrees(stock, tracking) && FreshLine(Log(stock), Some(TransferLine(t, i))) && line.quantity >= 0
    ensures Booked(stock)
    ensures var r := DispatchLine(stock, tracking, context, t, i, line);
            r.Ok? ==> FifoValue(r.value.ledgers.book, product) == FifoValue(stock.ledgers.book, product)
  {
    assert LedgersAgree(stock.ledgers, tracking) by { StockLedgers(stock, tracking); }
    AgreementParts(stock.ledgers, tracking);
    assert Booked(stock) && Invariant(stock.ledgers.book);
    hide Agrees, LedgersAgree, LedgersSound, Invariant, Fifo.Apply, FreshLine, FifoValue, DispatchLine;
    if DispatchLine(stock, tracking, context, t, i, line).Ok? {
      LineBooks(stock, tracking, context, t, i, line);
      HalvesAreNeutral(stock.ledgers.book, context, t, i, line, product);
    }
  }

  lemma HalvesAreNeutral(book: Fifo.Book, context: Context, t: nat, i: nat, line: Line, product: Product)
    requires Invariant(book) && |book.movements| == |book.figures| && FreshLine(book.movements, Some(TransferLine(t, i))) && line.quantity >= 0
    requires var out, arrival, cost := Departure(context, t, i, line), Arrival(context, t, i, line), DepartureDetails(context, line).cost;
             && Fifo.Apply(book, out, cost).Ok?
             && |Fifo.Apply(book, out, cost).value.movements| == |Fifo.Apply(book, out, cost).value.figures|
             && Fifo.Apply(Fifo.Apply(book, out, cost).value, arrival, cost).Ok?
    ensures var out, arrival, cost := Departure(context, t, i, line), Arrival(context, t, i, line), DepartureDetails(context, line).cost;
            FifoValue(Fifo.Apply(Fifo.Apply(book, out, cost).value, arrival, cost).value, product) == FifoValue(book, product)
  {
    var out, arrival, cost := Departure(context, t, i, line), Arrival(context, t, i, line), DepartureDetails(context, line).cost;
    hide Invariant, Fifo.Apply, FreshLine, FifoValue, DepartureDetails;
    var left := Fifo.Apply(book, out, cost).value;
    ApplyKeepsInvariant(book, out, cost);
    FigureAdded(book, out, cost, product);
    FigureAdded(left, arrival, cost, product);
    if line.quantity > 0 {
      ArrivalFollows(book.movements, left, context, t, i, line);
      ArrivalNegates(left, arrival, |book.movements|, cost);
    } else {
      IdleFigure(book, out, cost);
      IdleFigure(left, arrival, cost);
    }
  }

  lemma LineBooks(stock: Stock, tracking: Tracking, context: Context, t: nat, i: nat, line: Line)
    requires Booked(stock) && DispatchLine(stock, tracking, context, t, i, line).Ok?
    ensures var out, arrival, cost := Departure(context, t, i, line), Arrival(context, t, i, line), DepartureDetails(context, line).cost;
            && Fifo.Apply(stock.ledgers.book, out, cost).Ok?
            && |Fifo.Apply(stock.ledgers.book, out, cost).value.movements| == |Fifo.Apply(stock.ledgers.book, out, cost).value.figures|
            && Fifo.Apply(Fifo.Apply(stock.ledgers.book, out, cost).value, arrival, cost)
               == Ok(DispatchLine(stock, tracking, context, t, i, line).value.ledgers.book)
  {
    hide Fifo.Apply, ApplyLots, ApplySerials, RowAt, Put;
  }

  lemma {:induction false} LinesAreCostNeutral(stock: Stock, tracking: Tracking, context: Context, t: nat, lines: seq<Line>, i: nat, product: Product)
    requires Agrees(stock, tracking) && Booked(stock) && i <= |lines| && LinesNamed(Log(stock), t, lines) && LinesGo(lines)
    requires NotYet(Log(stock), t, i)
    ensures var r := DispatchLines(stock, tracking, context, t, lines, i);
            r.Ok? ==> FifoValue(r.value.ledgers.book, product) == FifoValue(stock.ledgers.book, product)
    decreases |lines| - i
  {
    hide Agrees, DispatchLine, RowAt, LinesNamed, FifoValue, Balances.StockOf;
    if i < |lines| {
      assert FreshLine(Log(stock), Some(TransferLine(t, i)));
      LineIsCostNeutral(stock, tracking, context, t, i, lines[i], product);
      DispatchLineAgrees(stock, tracking, context, t, i, lines);
      var next := DispatchLine(stock, tracking, context, t, i, lines[i]);
      if next.Ok? {
        NamedAfterDispatch(Log(stock), context, t, i, lines);
        StillNotYet(Log(stock), context, t, i, lines[i]);
        LinesAreCostNeutral(next.value, tracking, context, t, lines, i + 1, product);
      }
    }
  }

  /** No dispatch, in any committed state, changes the value the cost layers hold of a product. */
  lemma DispatchIsCostNeutral(state: State, tracking: Tracking, context: Context, t: nat, origin: Warehouse, key: Key, product: Product)
    requires StateSound(state, tracking)
    ensures Booked(state.stock)
    ensures var r := Dispatch(state, tracking, context, t, origin, key);
            r.Ok? ==> FifoValue(r.value.state.stock.ledgers.book, product) == FifoValue(state.stock.ledgers.book, product)
  {
    hide Agrees, Documented, DispatchLines, LinesNamed, LinesGo, LinesUsable, RowAt, Balances.StockOf, FifoValue;
    StockBooked(state.stock, tracking);
    var r := Dispatch(state, tracking, context, t, origin, key);
    if r.Ok? && !r.value.reply.replay {
      var transfer := state.transfers[t];
      DocumentFacts(state, t);
      UsableLinesGo(context, transfer);
      EnsureRowsAgrees(state.stock, tracking, transfer.lines);
      assert MovementsNamed(Log(state.stock), state.transfers) by { NamedIn(state); }
      DraftHasNotMoved(Log(state.stock), state.transfers, t);
      LinesAreCostNeutral(state.stock.(rows := EnsureRows(state.stock.rows, transfer.lines)), tracking, context, t, transfer.lines, 0, product);
    }
  }
}
