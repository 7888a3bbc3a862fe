/** Stock in transit is drawn on like any other: what a transfer line brought to a place can leave it
    before the line is received. */
module FifoTransit {
  import opened Outcomes
  import opened Sums
  import opened Rounding
  import opened Movements
  import opened Selection
  import opened Fifo
  import opened FifoInvariants
  import opened FifoRuns
  import opened FifoTheorems
  import opened FifoExactness

  /** What the layers a transfer line brought in still hold at the movement's place. */
  function LineStock(book: Book, m: Movement, line: TransferLine): int {
    EligibleStock(book, m, Transfer(line))
  }

  /** The layers of the line come before every other layer of the product at the place. */
  ghost predicate LineIsOldest(book: Book, m: Movement, line: TransferLine) {
    forall i: nat, j: nat | i < |book.layers| && j < |book.layers| ::
      Fifo.Eligible(book, i, m, Transfer(line)) && Fifo.Eligible(book, j, m, AnySource) && !FromLine(book, line)(j) ==>
        book.layers[i].acquiredAt < book.layers[j].acquiredAt
  }

  function LinePart(book: Book, line: TransferLine): nat -> int {
    (i: nat) => if i < |book.layers| && FromSource(book, book.layers[i], Transfer(line)) then book.layers[i].remaining else 0
  }

  // ----- A greedy draw over an order whose first part is the line's -----

  lemma {:induction false} HeldSplit(order: seq<nat>, amount: nat -> int, part: nat -> int, p: nat, k: nat)
    requires p <= k <= |order|
    requires forall j :: 0 <= j < p ==> part(order[j]) == amount(order[j])
    requires forall j :: p <= j < |order| ==> part(order[j]) == 0
    ensures Held(order, part, k) == Held(order, amount, p)
  {
    if k > p {
      HeldSplit(order, amount, part, p, k - 1);
    } else if k > 0 {
      HeldSame(order, part, amount, p);
    }
  }

  lemma {:induction false} HeldSame(order: seq<nat>, f: nat -> int, g: nat -> int, k: nat)
    requires k <= |order| && forall j :: 0 <= j < k ==> f(order[j]) == g(order[j])
    ensures Held(order, f, k) == Held(order, g, k)
  {
    if k > 0 {
      HeldSame(order, f, g, k - 1);
    }
  }

  lemma {:induction false} HeldLess(order: seq<nat>, amount: nat -> int, left: nat -> int, requested: int, k: nat)
    requires k <= |order| && forall j :: 0 <= j < k ==> left(order[j]) == amount(order[j]) - Taken(order, amount, requested, j)
    ensures Held(order, left, k) == Held(order, amount, k) - Sum(k, TakenAt(order, amount, requested))
  {
    hide Taken;
    if k > 0 {
      HeldLess(order, amount, left, requested, k - 1);
    }
  }

  /** Where the rows that satisfy a test end, when they all come first. */
  lemma {:induction false} FrontEnds(order: seq<nat>, test: nat -> bool, n: nat) returns (p: nat)
    requires n <= |order| && forall j, k :: 0 <= j < k < n && test(order[k]) ==> test(order[j])
    ensures p <= n && (forall k :: 0 <= k < p ==> test(order[k])) && (forall k :: p <= k < n ==> !test(order[k]))
  {
    if n == 0 {
      p := 0;
    } else if test(order[n - 1]) {
      p := n;
    } else {
      p := FrontEnds(order, test, n - 1);
    }
  }

  function FromLine(book: Book, line: TransferLine): nat -> bool {
    (i: nat) => i < |book.layers| && FromSource(book, book.layers[i], Transfer(line))
  }

  lemma LineComesFirst(book: Book, m: Movement, line: TransferLine)
    requires LineIsOldest(book, m, line)
    ensures var order := Order(book, m, AnySource);
            && InOrder(order, AcquiredRank(book))
            && (forall k :: 0 <= k < |order| ==> order[k] < |book.layers| && Fifo.Eligible(book, order[k], m, AnySource))
            && (forall j, k :: 0 <= j < k < |order| && FromLine(book, line)(order[k]) ==> FromLine(book, line)(order[j]))
  {
    SelectIsExact(|book.layers|, EligibleLayer(book, m, AnySource), AcquiredRank(book));
    var order := Order(book, m, AnySource);
    hide Select, Order;
    forall j, k | 0 <= j < k < |order| && FromLine(book, line)(order[k]) ensures FromLine(book, line)(order[j]) {
      assert NotAfter(AcquiredRank(book)(order[j]), AcquiredRank(book)(order[k]));
      assert Fifo.Eligible(book, order[k], m, Transfer(line));
      assert Fifo.Eligible(book, order[j], m, AnySource);
    }
  }

  /** Over any order of the stock at the place, the line's part of it adds up to what the line holds. */
  lemma LineHeld(book: Book, m: Movement, line: TransferLine, amount: nat -> int)
    ensures var order := Order(book, m, AnySource);
            Held(order, amount, |order|) == Sum(|book.layers|, Selection.Eligible(EligibleLayer(book, m, AnySource), amount))
  {
    SelectHolds(|book.layers|, EligibleLayer(book, m, AnySource), AcquiredRank(book), amount);
  }

  lemma LineStockIsPart(book: Book, m: Movement, line: TransferLine)
    ensures var order := Order(book, m, AnySource);
            LineStock(book, m, line) == Held(order, LinePart(book, line), |order|)
  {
    LineHeld(book, m, line, LinePart(book, line));
    SumSame(|book.layers|, Selection.Eligible(EligibleLayer(book, m, Transfer(line)), RemainingOn(book)),
            Selection.Eligible(EligibleLayer(book, m, AnySource), LinePart(book, line)));
  }

  /** After a draw the line holds, over the same order, what is left of its part. */
  lemma LineStockAfter(book: Book, after: Book, m: Movement, line: TransferLine, requested: int)
    requires Backed(book)
    requires var order := Order(book, m, AnySource); Stocked(book, order) && DrawnFrom(book, after, order, requested)
    requires after.movements == book.movements
    requires forall i: nat :: i < |book.layers| && Fifo.Eligible(book, i, m, AnySource) ==> i in Order(book, m, AnySource)
    requires forall i :: 0 <= i < |after.layers| ==> after.layers[i].remaining >= 0
    ensures var order := Order(book, m, AnySource);
            LineStock(after, m, line) == Held(order, LinePart(after, line), |order|)
  {
    var order := Order(book, m, AnySource);
    LineHeld(book, m, line, LinePart(after, line));
    hide Order, Stocked, Held;
    var f := Selection.Eligible(EligibleLayer(after, m, Transfer(line)), RemainingOn(after));
    var g := Selection.Eligible(EligibleLayer(book, m, AnySource), LinePart(after, line));
    forall i: nat | i < |book.layers| ensures f(i) == g(i) {
      LayerKept(book, after, order, requested, i);
    }
    SumSame(|book.layers|, f, g);
  }

  lemma LayerKept(book: Book, after: Book, order: seq<nat>, requested: int, i: nat)
    requires forall j :: 0 <= j < |order| ==> order[j] < |book.layers|
    requires DrawnFrom(book, after, order, requested) && i < |book.layers|
    ensures after.layers[i].(remaining := 0) == book.layers[i].(remaining := 0)
    ensures i !in order ==> after.layers[i] == book.layers[i]
  {
    hide Taken;
    if i in order {
      var k :| 0 <= k < |order| && order[k] == i;
    }
  }

  function AtLeastZero(n: int): int {
    if n < 0 then 0 else n
  }

  /** A draw that may use every layer of the place takes the line's first. */
  lemma DrawTakesLineFirst(book: Book, movement: nat, requested: nat, line: TransferLine)
    requires Backed(book) && movement < |book.movements|
    requires LineIsOldest(book, book.movements[movement], line)
    requires ConsumeLayers(book, movement, requested, AnySource).Ok?
    ensures var m := book.movements[movement];
            LineStock(ConsumeLayers(book, movement, requested, AnySource).value.book, m, line)
            == AtLeastZero(LineStock(book, m, line) - requested)
  {
    hide *;
    var m, order := book.movements[movement], Order(book, book.movements[movement], AnySource);
    var after := ConsumeLayers(book, movement, requested, AnySource).value.book;
    ConsumptionIsGreedy(book, movement, requested, AnySource);
    LineComesFirst(book, m, line);
    LineStockIsPart(book, m, line);
    DrawnIsSound(book, after, order, requested);
    SameLog(book, after);
    LineStockAfter(book, after, m, line, requested);
    PartDrawn(book, after, order, requested, line);
  }

  lemma SameLog(book: Book, after: Book)
    requires SameMovements(book, after)
    ensures after.movements == book.movements
  {
  }

  lemma DrawnIsSound(book: Book, after: Book, order: seq<nat>, requested: nat)
    requires Backed(book) && Stocked(book, order) && DrawnFrom(book, after, order, requested)
    ensures forall i :: 0 <= i < |after.layers| ==> after.layers[i].remaining >= 0
  {
    forall i: nat | i < |after.layers| ensures after.layers[i].remaining >= 0 {
      if i in order {
        var k :| 0 <= k < |order| && order[k] == i;
        TakenWithin(order, RemainingOn(book), requested, k);
      }
    }
  }

  lemma TakenWithin(order: seq<nat>, amount: nat -> int, requested: nat, k: nat)
    requires k < |order| && amount(order[k]) >= 0
    ensures Taken(order, amount, requested, k) <= amount(order[k])
  {
  }

  lemma PartDrawn(book: Book, after: Book, order: seq<nat>, requested: nat, line: TransferLine)
    requires Stocked(book, order) && DrawnFrom(book, after, order, requested) && after.movements == book.movements
    requires forall j, k :: 0 <= j < k < |order| && FromLine(book, line)(order[k]) ==> FromLine(book, line)(order[j])
    ensures Held(order, LinePart(after, line), |order|) == AtLeastZero(Held(order, LinePart(book, line), |order|) - requested)
  {
    hide Held, Taken, Distinct;
    var n, amount := |order|, RemainingOn(book);
    var p := FrontEnds(order, FromLine(book, line), n);
    assert forall j :: 0 <= j < n ==> order[j] < |book.layers| && amount(order[j]) > 0;
    HeldSplit(order, amount, LinePart(book, line), p, n);
    var left := RemainingOn(after);
    forall j | 0 <= j < n ensures left(order[j]) == amount(order[j]) - Taken(order, amount, requested, j) {
      assert after.layers[order[j]].remaining == book.layers[order[j]].remaining - Taken(order, amount, requested, j);
    }
    forall j | 0 <= j < n
      ensures LinePart(after, line)(order[j]) == if FromLine(book, line)(order[j]) then left(order[j]) else 0
    {
      assert after.layers[order[j]].sourceMovement == book.layers[order[j]].sourceMovement;
    }
    HeldSplit(order, left, LinePart(after, line), p, n);
    HeldLess(order, amount, left, requested, p);
    TakenTotal(order, amount, requested, p);
  }

  /** An ordinary exit takes first what a transfer line brought to its place, whenever that was acquired
      before everything else there, whether or not the line has been received. */
  lemma ExitDrainsTransit(book: Book, m: Movement, line: TransferLine, catalogCost: int)
    requires Invariant(book) && OrdinaryExit(m) && m.kind != TransferIn && LineIsOldest(book, m, line)
    ensures |book.movements| == |book.figures|
    ensures Apply(book, m, catalogCost).Ok? ==>
              LineStock(Apply(book, m, catalogCost).value, m, line) == AtLeastZero(LineStock(book, m, line) + m.quantity)
  {
    assert |book.movements| == |book.figures| && Core(book) by { CoreLinks(book); }
    AverageAccepts(book, m, catalogCost);
    AverageKeepsCore(book, m, catalogCost);
    hide Invariant, Core, LineStock, LineIsOldest, AverageCost, ValueAfter;
    if Apply(book, m, catalogCost).Ok? {
      var averaged := Average(book, m, catalogCost).value;
      hide Average;
      ExitFromLine(book, averaged, m, line);
    }
  }

  lemma ExitFromLine(book: Book, averaged: Book, m: Movement, line: TransferLine)
    requires Core(book) && Core(averaged) && OrdinaryExit(m) && m.kind != TransferIn && LineIsOldest(book, m, line)
    requires averaged.layers == book.layers && averaged.allocations == book.allocations && averaged.movements == book.movements + [m]
    requires |averaged.figures| == |averaged.movements| && ApplyFifo(averaged, |book.movements|).Ok?
    ensures LineStock(ApplyFifo(averaged, |book.movements|).value.book, m, line) == AtLeastZero(LineStock(book, m, line) + m.quantity)
  {
    hide *;
    var id := |book.movements|;
    assert averaged.movements[id] == m;
    NotBookedYet(book, averaged, m);
    OldestKept(book, averaged, m, line);
    LineStockKept(book, averaged, m, line);
    CoreBacked(averaged);
    ExitConsumes(averaged, id);
    DrawTakesLineFirst(averaged, id, -m.quantity, line);
    var r := ConsumeLayers(averaged, id, -m.quantity, AnySource).value.book;
    SameLayersSameStock(r, ApplyFifo(averaged, id).value.book, m, line);
  }

  lemma CoreBacked(book: Book)
    requires Core(book)
    ensures Backed(book)
  {
  }

  lemma ExitConsumes(book: Book, id: nat)
    requires id < |book.movements| == |book.figures| && Unbooked(book, id) && OrdinaryExit(book.movements[id])
    requires ApplyFifo(book, id).Ok?
    ensures book.movements[id].quantity < 0
    ensures var r := ConsumeLayers(book, id, -book.movements[id].quantity, AnySource);
            && r.Ok? && ApplyFifo(book, id).value.book.layers == r.value.book.layers
            && ApplyFifo(book, id).value.book.movements == r.value.book.movements
  {
    hide ConsumeLayers, StockOf, WeightedCost;
  }

  lemma SameLayersSameStock(book: Book, after: Book, m: Movement, line: TransferLine)
    requires after.layers == book.layers && after.movements == book.movements
    ensures LineStock(after, m, line) == LineStock(book, m, line)
  {
    SumSame(|book.layers|, Selection.Eligible(EligibleLayer(book, m, Transfer(line)), RemainingOn(book)),
            Selection.Eligible(EligibleLayer(after, m, Transfer(line)), RemainingOn(after)));
  }

  lemma LineStockKept(book: Book, averaged: Book, m: Movement, line: TransferLine)
    requires averaged.layers == book.layers && averaged.movements == book.movements + [m] && m.kind != TransferIn
    ensures LineStock(averaged, m, line) == LineStock(book, m, line)
  {
    EligibleKept(book, averaged, m, m, Transfer(line));
  }

  lemma OldestKept(book: Book, averaged: Book, m: Movement, line: TransferLine)
    requires LineIsOldest(book, m, line)
    requires averaged.layers == book.layers && averaged.movements == book.movements + [m] && m.kind != TransferIn
    ensures LineIsOldest(averaged, m, line)
  {
    forall i: nat | i < |book.layers|
      ensures FromSource(averaged, averaged.layers[i], Transfer(line)) == FromSource(book, book.layers[i], Transfer(line))
    {
    }
    forall i: nat, j: nat | i < |book.layers| && j < |book.layers|
      && Fifo.Eligible(averaged, i, m, Transfer(line)) && Fifo.Eligible(averaged, j, m, AnySource) && !FromLine(averaged, line)(j)
      ensures averaged.layers[i].acquiredAt < averaged.layers[j].acquiredAt
    {
      assert Fifo.Eligible(book, i, m, Transfer(line)) && Fifo.Eligible(book, j, m, AnySource) && !FromLine(book, line)(j);
    }
  }

  /** So a write-off of the line after such an exit is refused once it asks for more than the exit left. */
  lemma WriteOffAfterExit(book: Book, exit: Movement, writeOff: Movement, line: TransferLine, exitCost: int, catalogCost: int)
    requires Invariant(book) && OrdinaryExit(exit) && exit.kind != TransferIn && LineIsOldest(book, exit, line)
    requires writeOff.kind == TransferDiscrepancy && writeOff.transferLine == Some(line) && writeOff.quantity < 0
    requires writeOff.product == exit.product && writeOff.location == exit.location
    ensures |book.movements| == |book.figures|
    ensures var left := Apply(book, exit, exitCost);
            left.Ok? ==>
              && |left.value.movements| == |left.value.figures|
              && (Apply(left.value, writeOff, catalogCost).Ok?
                  <==> && -writeOff.quantity <= AtLeastZero(LineStock(book, exit, line) + exit.quantity)
                       && ValueAfter(left.value, writeOff, AverageCost(left.value, writeOff, catalogCost), catalogCost) >= 0)
  {
    ExitDrainsTransit(book, exit, line, exitCost);
    ApplyKeepsInvariant(book, exit, exitCost);
    hide Invariant, Apply, LineIsOldest, ValueAfter, AverageCost;
    var left := Apply(book, exit, exitCost);
    if left.Ok? {
      ExitIsExact(left.value, writeOff, catalogCost);
      SamePlaceSameStock(left.value, exit, writeOff, line);
    }
  }

  lemma SamePlaceSameStock(book: Book, exit: Movement, writeOff: Movement, line: TransferLine)
    requires writeOff.kind == TransferDiscrepancy && writeOff.transferLine == Some(line)
    requires writeOff.product == exit.product && writeOff.location == exit.location
    ensures DrawableStock(book, writeOff) == LineStock(book, exit, line)
  {
    SumSame(|book.layers|, Selection.Eligible(EligibleLayer(book, exit, Transfer(line)), RemainingOn(book)),
            Selection.Eligible(EligibleLayer(book, writeOff, Transfer(line)), RemainingOn(book)));
  }
}
