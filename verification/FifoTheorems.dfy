/** Automatic consumption of cost layers is greedy in acquisition order, takes the exact total
    and fails only when the eligible stock is too small. */
module FifoTheorems {
  import opened Outcomes
  import opened Sums
  import opened Movements
  import opened Selection
  import opened Fifo

  function RemainingOn(book: Book): nat -> int {
    (i: nat) => if i < |book.layers| then book.layers[i].remaining else 0
  }

  /** The layers after the draw, in closed form. */
  ghost predicate DrawnFrom(book: Book, after: Book, order: seq<nat>, requested: int)
    requires forall j :: 0 <= j < |order| ==> order[j] < |book.layers|
  {
    && |after.layers| == |book.layers|
    && (forall i :: 0 <= i < |book.layers| && i !in order ==> after.layers[i] == book.layers[i])
    && (forall k :: 0 <= k < |order| ==>
          after.layers[order[k]] == book.layers[order[k]].(
            remaining := book.layers[order[k]].remaining - Taken(order, RemainingOn(book), requested, k)))
  }

  /** The order names layers that hold something, each once. */
  ghost predicate Stocked(book: Book, order: seq<nat>) {
    && Distinct(order)
    && forall j :: 0 <= j < |order| ==> order[j] < |book.layers| && book.layers[order[j]].remaining > 0
  }

  /** The first layer drained or partly taken, the rest drawn for what is left. */
  lemma DrawnRound(book: Book, next: Book, after: Book, order: seq<nat>, requested: int)
    requires requested > 0 && Stocked(book, order) && order != []
    requires var l := book.layers[order[0]];
             next.layers == book.layers[order[0] := l.(remaining := l.remaining - Min(l.remaining, requested))]
    requires DrawnFrom(next, after, order[1..], requested - Min(book.layers[order[0]].remaining, requested))
    ensures DrawnFrom(book, after, order, requested)
  {
    hide Held;
    var rest := order[1..];
    HeldNone(order, RemainingOn(book));
    forall k | 0 <= k < |order|
      ensures after.layers[order[k]] == book.layers[order[k]].(
                remaining := book.layers[order[k]].remaining - Taken(order, RemainingOn(book), requested, k))
    {
      if k == 0 {
        assert order[0] !in rest;
      } else {
        assert rest[k - 1] == order[k];
        TakenShift(order, RemainingOn(book), RemainingOn(next), requested, k);
      }
    }
    forall i | 0 <= i < |book.layers| && i !in order ensures after.layers[i] == book.layers[i] {
      assert i !in rest && i != order[0];
    }
  }

  /** The consumption loop computes the closed form, and runs short exactly when the listed
      layers hold too little. */
  lemma {:induction false} ConsumeIsGreedy(book: Book, movement: nat, order: seq<nat>, mode: Mode, requested: int, value: int)
    requires requested >= 0 && Stocked(book, order)
    ensures var r := Consume(book, movement, order, mode, requested, value);
            && (r.Ok? <==> requested <= Held(order, RemainingOn(book), |order|))
            && (r.Ok? ==> DrawnFrom(book, r.value.book, order, requested))
            && (r.Err? ==> r == Err(LayerShortage))
    decreases |order|
  {
    if order == [] {
    } else if requested == 0 {
      forall k | 0 <= k < |order| ensures Taken(order, RemainingOn(book), 0, k) == 0 {
        NothingTaken(order, RemainingOn(book), k);
      }
      HeldNonNegative(order, RemainingOn(book), |order|);
    } else {
      GreedyRound(book, movement, order, mode, requested, value);
    }
  }

  lemma StockedRest(book: Book, movement: nat, order: seq<nat>, mode: Mode, requested: int)
    requires requested > 0 && Stocked(book, order) && order != []
    ensures order[0] < |book.layers| && 0 < Min(book.layers[order[0]].remaining, requested)
    ensures var next := Post(book, movement, order[0], None, -Min(book.layers[order[0]].remaining, requested), mode).book;
            && Stocked(next, order[1..])
            && (forall j :: 1 <= j < |order| ==> RemainingOn(next)(order[j]) == RemainingOn(book)(order[j]))
            && (forall j :: 0 <= j < |order[1..]| ==> RemainingOn(next)(order[1..][j]) >= 0)
    ensures forall j :: 0 <= j < |order| ==> order[j] < |book.layers|
  {
  }

  lemma GreedyRound(book: Book, movement: nat, order: seq<nat>, mode: Mode, requested: int, value: int)
    requires requested > 0 && Stocked(book, order) && order != []
    ensures var r := Consume(book, movement, order, mode, requested, value);
            && (r.Ok? <==> requested <= Held(order, RemainingOn(book), |order|))
            && (r.Ok? ==> DrawnFrom(book, r.value.book, order, requested))
            && (r.Err? ==> r == Err(LayerShortage))
    decreases |order|, 0
  {
    hide Held, DrawnFrom, Taken, Stocked;
    StockedRest(book, movement, order, mode, requested);
    var consumed := Min(book.layers[order[0]].remaining, requested);
    var posted := Post(book, movement, order[0], None, -consumed, mode);
    var rest := order[1..];
    var r := Consume(posted.book, movement, rest, mode, requested - consumed, value + posted.value);
    assert r == Consume(book, movement, order, mode, requested, value);
    hide Consume;
    ConsumeIsGreedy(posted.book, movement, rest, mode, requested - consumed, value + posted.value);
    HeldShift(order, RemainingOn(book), RemainingOn(posted.book), |order|);
    HeldNonNegative(rest, RemainingOn(posted.book), |rest|);
    if r.Ok? {
      DrawnRound(book, posted.book, r.value.book, order, requested);
    }
  }

  lemma DrawnLength(book: Book, after: Book, order: seq<nat>, requested: int)
    requires (forall j :: 0 <= j < |order| ==> order[j] < |book.layers|) && DrawnFrom(book, after, order, requested)
    ensures |after.layers| == |book.layers|
  {
  }

  /** A layer is touched only after every earlier one of the order is empty. */
  ghost predicate DrainedBefore(book: Book, after: Book, order: seq<nat>)
    requires |after.layers| == |book.layers| && forall j :: 0 <= j < |order| ==> order[j] < |book.layers|
  {
    forall j, k :: 0 <= j < k < |order| && after.layers[order[k]] != book.layers[order[k]] ==> after.layers[order[j]].remaining == 0
  }

  lemma DrawsInOrder(book: Book, after: Book, order: seq<nat>, requested: int)
    requires Stocked(book, order) && DrawnFrom(book, after, order, requested)
    ensures DrainedBefore(book, after, order)
  {
    hide Held;
    forall j, k | 0 <= j < k < |order| && after.layers[order[k]] != book.layers[order[k]]
      ensures after.layers[order[j]].remaining == 0
    {
      DrainedPrefix(order, RemainingOn(book), requested, j, k);
    }
  }

  /** The stock a movement may draw on. */
  function EligibleStock(book: Book, m: Movement, source: Source): int {
    Sum(|book.layers|, Selection.Eligible(EligibleLayer(book, m, source), RemainingOn(book)))
  }

  /** Consumption draws on the eligible layers in acquisition order, takes the exact requested
      total from a prefix of them, at most the last partially, and fails only when the eligible
      stock is too small. */
  lemma ConsumptionIsGreedy(book: Book, movement: nat, requested: int, source: Source)
    requires movement < |book.movements| && requested >= 0
    ensures var m := book.movements[movement];
            var order := Order(book, m, source);
            var r := ConsumeLayers(book, movement, requested, source);
            && InOrder(order, AcquiredRank(book)) && Stocked(book, order)
            && (forall i: nat :: i < |book.layers| && Fifo.Eligible(book, i, m, source) ==> i in order)
            && (r.Ok? <==> requested <= EligibleStock(book, m, source))
            && (r.Err? ==> r == Err(LayerShortage))
            && (r.Ok? ==> DrawnFrom(book, r.value.book, order, requested) && DrainedBefore(book, r.value.book, order))
  {
    var m := book.movements[movement];
    var eligible, rank := EligibleLayer(book, m, source), AcquiredRank(book);
    SelectIsExact(|book.layers|, eligible, rank);
    SelectHolds(|book.layers|, eligible, rank, RemainingOn(book));
    var order := Order(book, m, source);
    assert Stocked(book, order);
    assert forall i: nat :: i < |book.layers| && Fifo.Eligible(book, i, m, source) ==> eligible(i);
    hide InOrder, DrawnFrom, Held, Select, Stocked, Fifo.Eligible, DrainedBefore;
    ConsumeIsGreedy(book, movement, order, if source.Receipt? then OriginReturnMode else FifoMode, requested, 0);
    var r := ConsumeLayers(book, movement, requested, source);
    if r.Ok? {
      DrawsInOrder(book, r.value.book, order, requested);
    }
  }
}
