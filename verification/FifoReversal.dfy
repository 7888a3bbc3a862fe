/** Voids and returns: exactly when one is accepted, and that a fully reversed sale line leaves
    nothing behind in any layer it drew from. */
module FifoReversal {
  import opened Outcomes
  import opened Sums
  import opened Rounding
  import opened Movements
  import opened Selection
  import opened Fifo
  import opened FifoInvariants
  import opened FifoSteps
  import opened FifoRuns
  import opened FifoValues

  // ----- When a restoration succeeds -----

  function Out(allocations: seq<Allocation>): nat -> int {
    (k: nat) => if k < |allocations| then Outstanding(allocations, k) else 0
  }

  ghost predicate Listed(book: Book, sources: seq<nat>) {
    && (forall k :: 0 <= k < |sources| ==> sources[k] < |book.allocations|)
    && (forall j, k :: 0 <= j < k < |sources| ==> sources[j] != sources[k])
    && (forall k :: 0 <= k < |sources| ==> Out(book.allocations)(sources[k]) >= 0)
  }

  /** What a greedy restoration gives back to the source at position k. */
  function Back(book: Book, sources: seq<nat>, needed: int, k: nat): int {
    if k < |sources| then Taken(sources, Out(book.allocations), needed, k) else 0
  }

  function LayerAt(book: Book, sources: seq<nat>, k: nat): nat
    requires k < |sources| && sources[k] < |book.allocations|
  {
    book.allocations[sources[k]].layer
  }

  /** The allocations given back lie on layers the movement has no allocation on, no two on one. */
  ghost predicate Apart(book: Book, movement: nat, sources: seq<nat>, needed: int)
    requires forall k :: 0 <= k < |sources| ==> sources[k] < |book.allocations|
  {
    && (forall k: nat :: k < |sources| && Back(book, sources, needed, k) > 0 ==>
          KeyFree(book, movement, LayerAt(book, sources, k)))
    && (forall j: nat, k: nat :: j < k < |sources| && Back(book, sources, needed, j) > 0 && Back(book, sources, needed, k) > 0 ==>
          LayerAt(book, sources, j) != LayerAt(book, sources, k))
  }

  /** What goes back to layers of a product. */
  function BackOn(book: Book, sources: seq<nat>, needed: int, product: Product): nat -> int {
    (k: nat) =>
      if k < |sources| && sources[k] < |book.allocations| && LayerAt(book, sources, k) < |book.layers|
         && book.layers[LayerAt(book, sources, k)].product == product
      then Back(book, sources, needed, k) else 0
  }

  lemma ListedFacts(book: Book, sources: seq<nat>)
    requires Listed(book, sources)
    ensures forall k :: 0 <= k < |sources| ==> sources[k] < |book.allocations| && Out(book.allocations)(sources[k]) >= 0
    ensures sources != [] ==> Listed(book, sources[1..])
  {
  }

  /** Giving back to the first source leaves what the others have out. */
  lemma OthersKept(book: Book, movement: nat, sources: seq<nat>, quantity: int)
    requires Core(book) && Listed(book, sources) && sources != [] && 0 < quantity <= Out(book.allocations)(sources[0])
    requires book.allocations[sources[0]].layer < |book.layers|
    ensures var after := Post(book, movement, book.allocations[sources[0]].layer, Some(sources[0]), quantity, RestoreMode).book;
            && Listed(after, sources[1..]) && |after.allocations| == |book.allocations| + 1
            && after.allocations[..|book.allocations|] == book.allocations
            && (forall j :: 1 <= j < |sources| ==> Out(after.allocations)(sources[j]) == Out(book.allocations)(sources[j]))
  {
    var after := Post(book, movement, book.allocations[sources[0]].layer, Some(sources[0]), quantity, RestoreMode).book;
    OutstandingAppend(book.allocations, after.allocations[|book.allocations|]);
    hide Core, Outstanding;
    forall j | 1 <= j < |sources| ensures Out(after.allocations)(sources[j]) == Out(book.allocations)(sources[j]) {
      assert sources[j] != sources[0];
    }
    forall j | 0 <= j < |sources[1..]| ensures Out(after.allocations)(sources[1..][j]) >= 0 {
      assert sources[1..][j] == sources[j + 1];
    }
  }

  /** A round that gives nothing back leaves the rest of the draw as it was. */
  lemma BackShift(book: Book, next: Book, sources: seq<nat>, needed: int, k: nat)
    requires Listed(book, sources) && 1 <= k < |sources| && needed >= 0
    requires forall j :: 1 <= j < |sources| ==> Out(next.allocations)(sources[j]) == Out(book.allocations)(sources[j])
    ensures Back(book, sources, needed, k)
            == Back(next, sources[1..], needed - Min(Out(book.allocations)(sources[0]), needed), k - 1)
  {
    ListedFacts(book, sources);
    hide Listed, Held, Out;
    if needed > 0 {
      TakenShift(sources, Out(book.allocations), Out(next.allocations), needed, k);
    } else {
      NothingTaken(sources, Out(book.allocations), k);
      assert forall j :: 0 <= j < |sources[1..]| ==> Out(next.allocations)(sources[1..][j]) >= 0 by {
        forall j | 0 <= j < |sources[1..]| ensures Out(next.allocations)(sources[1..][j]) >= 0 {
          assert sources[1..][j] == sources[j + 1];
        }
      }
      NothingTaken(sources[1..], Out(next.allocations), k - 1);
    }
  }

  lemma BackFirst(book: Book, sources: seq<nat>, needed: int)
    requires Listed(book, sources) && sources != [] && needed >= 0
    ensures Back(book, sources, needed, 0) == Min(Out(book.allocations)(sources[0]), needed)
  {
    HeldNone(sources, Out(book.allocations));
    hide Out;
  }

  /** The rest of a round: the same allocations, and one more of the movement if the round gave back. */
  ghost predicate Continues(book: Book, next: Book, movement: nat, sources: seq<nat>, given: int) {
    && sources != [] && (forall k :: 0 <= k < |sources| ==> sources[k] < |book.allocations|)
    && |book.allocations| <= |next.allocations| && next.allocations[..|book.allocations|] == book.allocations
    && |next.allocations| == |book.allocations| + (if given > 0 then 1 else 0)
    && (given > 0 ==> next.allocations[|book.allocations|].movement == movement
                      && next.allocations[|book.allocations|].layer == LayerAt(book, sources, 0))
    && |next.layers| == |book.layers| && SameLayers(book, next)
  }

  lemma SameRows(book: Book, next: Book, movement: nat, sources: seq<nat>, given: int)
    requires Continues(book, next, movement, sources, given)
    ensures forall k :: 0 <= k < |sources[1..]| ==>
              sources[1..][k] < |book.allocations| <= |next.allocations|
              && LayerAt(next, sources[1..], k) == LayerAt(book, sources, k + 1)
    ensures forall layer :: KeyFree(next, movement, layer) <==>
              KeyFree(book, movement, layer) && (given > 0 ==> layer != LayerAt(book, sources, 0))
  {
    hide SameLayers;
    forall k | 0 <= k < |sources[1..]|
      ensures sources[1..][k] < |book.allocations| <= |next.allocations|
              && LayerAt(next, sources[1..], k) == LayerAt(book, sources, k + 1)
    {
      assert sources[1..][k] == sources[k + 1];
      assert next.allocations[sources[k + 1]] == next.allocations[..|book.allocations|][sources[k + 1]];
    }
    forall layer
      ensures KeyFree(next, movement, layer) <==>
              KeyFree(book, movement, layer) && (given > 0 ==> layer != LayerAt(book, sources, 0))
    {
      KeyFreeNext(book, next, movement, layer, given > 0);
    }
  }

  lemma KeyFreeNext(book: Book, next: Book, movement: nat, layer: nat, grew: bool)
    requires |next.allocations| == |book.allocations| + (if grew then 1 else 0)
    requires next.allocations[..|book.allocations|] == book.allocations
    requires grew ==> next.allocations[|book.allocations|].movement == movement
    ensures KeyFree(next, movement, layer) <==>
            KeyFree(book, movement, layer) && (grew ==> layer != next.allocations[|book.allocations|].layer)
  {
    forall k | 0 <= k < |book.allocations| ensures next.allocations[k] == book.allocations[k] {
      assert next.allocations[..|book.allocations|][k] == book.allocations[k];
    }
    if KeyFree(next, movement, layer) {
      forall k | 0 <= k < |book.allocations|
        ensures book.allocations[k].movement != movement || book.allocations[k].layer != layer
      {
        assert next.allocations[k] == book.allocations[k];
      }
    }
  }

  /** A round narrows the condition to what is left of it. */
  lemma ApartShift(book: Book, next: Book, movement: nat, sources: seq<nat>, needed: int, given: int)
    requires Continues(book, next, movement, sources, given) && Back(book, sources, needed, 0) == given
    requires forall k :: 0 <= k < |sources[1..]| ==> sources[1..][k] < |next.allocations|
    requires forall k :: 1 <= k < |sources| ==>
               Back(book, sources, needed, k) == Back(next, sources[1..], needed - given, k - 1)
    ensures Apart(book, movement, sources, needed)
            <==> (given > 0 ==> KeyFree(book, movement, LayerAt(book, sources, 0))) && Apart(next, movement, sources[1..], needed - given)
  {
    SameRows(book, next, movement, sources, given);
    hide KeyFree, Back, LayerAt, Continues;
    var rest := sources[1..];
    if Apart(book, movement, sources, needed) {
      forall k: nat | k < |rest| && Back(next, rest, needed - given, k) > 0
        ensures KeyFree(next, movement, LayerAt(next, rest, k))
      {
        assert Back(book, sources, needed, k + 1) > 0;
      }
      forall j: nat, k: nat | j < k < |rest| && Back(next, rest, needed - given, j) > 0 && Back(next, rest, needed - given, k) > 0
        ensures LayerAt(next, rest, j) != LayerAt(next, rest, k)
      {
        assert Back(book, sources, needed, j + 1) > 0 && Back(book, sources, needed, k + 1) > 0;
      }
    }
    if (given > 0 ==> KeyFree(book, movement, LayerAt(book, sources, 0))) && Apart(next, movement, rest, needed - given) {
      forall k: nat | k < |sources| && Back(book, sources, needed, k) > 0
        ensures KeyFree(book, movement, LayerAt(book, sources, k))
      {
        if k > 0 {
          assert Back(next, rest, needed - given, k - 1) > 0;
        }
      }
      forall j: nat, k: nat | j < k < |sources| && Back(book, sources, needed, j) > 0 && Back(book, sources, needed, k) > 0
        ensures LayerAt(book, sources, j) != LayerAt(book, sources, k)
      {
        assert Back(next, rest, needed - given, k - 1) > 0;
        if j > 0 {
          assert Back(next, rest, needed - given, j - 1) > 0;
        }
      }
    }
  }

  lemma BackOnNext(book: Book, next: Book, movement: nat, sources: seq<nat>, needed: int, given: int, product: Product, k: nat)
    requires Continues(book, next, movement, sources, given) && k < |sources| - 1
    requires Back(book, sources, needed, k + 1) == Back(next, sources[1..], needed - given, k)
    ensures BackOn(book, sources, needed, product)(k + 1) == BackOn(next, sources[1..], needed - given, product)(k)
  {
    SameRows(book, next, movement, sources, given);
    hide Back, KeyFree;
    assert sources[1..][k] == sources[k + 1] && sources[k + 1] < |book.allocations|;
    assert LayerAt(next, sources[1..], k) == LayerAt(book, sources, k + 1);
  }

  lemma BackOnFirst(book: Book, sources: seq<nat>, needed: int, product: Product)
    requires sources != [] && sources[0] < |book.allocations| && LayerAt(book, sources, 0) < |book.layers|
    ensures BackOn(book, sources, needed, product)(0)
            == if book.layers[LayerAt(book, sources, 0)].product == product then Back(book, sources, needed, 0) else 0
  {
    hide Back;
  }

  lemma BackOnShift(book: Book, next: Book, movement: nat, sources: seq<nat>, needed: int, given: int, product: Product)
    requires Continues(book, next, movement, sources, given) && Back(book, sources, needed, 0) == given
    requires sources != [] && sources[0] < |book.allocations| && LayerAt(book, sources, 0) < |book.layers|
    requires forall k :: 1 <= k < |sources| ==>
               Back(book, sources, needed, k) == Back(next, sources[1..], needed - given, k - 1)
    ensures Sum(|sources|, BackOn(book, sources, needed, product))
            == (if book.layers[LayerAt(book, sources, 0)].product == product then given else 0)
               + Sum(|sources| - 1, BackOn(next, sources[1..], needed - given, product))
  {
    hide *;
    var f, g := BackOn(book, sources, needed, product), BackOn(next, sources[1..], needed - given, product);
    forall k: nat | k < |sources| - 1 ensures g(k) == f(k + 1) {
      assert Back(book, sources, needed, k + 1) == Back(next, sources[1..], needed - given, k + 1 - 1);
      BackOnNext(book, next, movement, sources, needed, given, product, k);
    }
    BackOnFirst(book, sources, needed, product);
    SumShift(|sources|, f, g);
  }

  lemma GivenBounds(out: int, needed: int)
    requires out >= 0 && needed >= 0
    ensures 0 <= Min(out, needed) <= out && Min(out, needed) <= needed
    ensures Min(out, needed) == 0 ==> out == 0 || needed == 0
  {
  }

  /** What the loop finds available on a sale's allocation is what that allocation has out. */
  lemma AvailableIsOut(book: Book, movement: nat, sources: seq<nat>)
    requires Core(book) && movement < |book.movements| && sources != [] && Returnable(book, movement, sources)
    ensures sources[0] < |book.allocations|
    ensures var available := -book.allocations[sources[0]].quantity - Total(book.allocations, SourcedFrom(sources[0]));
            if book.allocations[sources[0]].quantity < 0 then available == Out(book.allocations)(sources[0])
            else available <= 0 == Out(book.allocations)(sources[0])
  {
    SoldLinksAreRestores(book, sources[0]);
  }

  /** One round of the loop, when what it finds available is known. */
  lemma RestoreUnfolds(book: Book, movement: nat, sources: seq<nat>, expected: int, restored: int, value: int, available: int)
    requires sources != [] && (forall k :: 0 <= k < |sources| ==> sources[k] < |book.allocations|)
    requires available == -book.allocations[sources[0]].quantity - Total(book.allocations, SourcedFrom(sources[0]))
    requires LayerAt(book, sources, 0) < |book.layers|
    requires available > 0 ==>
               book.layers[LayerAt(book, sources, 0)].remaining + available <= book.layers[LayerAt(book, sources, 0)].original
    ensures var layer, given := LayerAt(book, sources, 0), Min(available, expected - restored);
            var r := Restore(book, movement, sources, expected, restored, value);
            if given <= 0 then r == Restore(book, movement, sources[1..], expected, restored, value)
            else if !KeyFree(book, movement, layer) then r.Err?
            else
              var posted := Post(book, movement, layer, Some(sources[0]), given, RestoreMode);
              r == Restore(posted.book, movement, sources[1..], expected, restored + given, value + posted.value)
  {
    hide KeyFree, QuantityValue, SameMovements, Total;
  }

  /** One round of the loop: it gives back the smaller of what is out and what is needed. */
  lemma RoundOutcome(book: Book, movement: nat, sources: seq<nat>, expected: int, restored: int, value: int)
    requires Core(book) && movement < |book.movements| && restored <= expected && sources != []
    requires Returnable(book, movement, sources) && Listed(book, sources)
    requires forall k :: 0 <= k < |sources| ==> sources[k] < |book.allocations|
    ensures LayerAt(book, sources, 0) < |book.layers|
    ensures var layer, given := LayerAt(book, sources, 0), Min(Out(book.allocations)(sources[0]), expected - restored);
            var r := Restore(book, movement, sources, expected, restored, value);
            if given == 0 then r == Restore(book, movement, sources[1..], expected, restored, value)
            else if !KeyFree(book, movement, layer) then r.Err?
            else
              var posted := Post(book, movement, layer, Some(sources[0]), given, RestoreMode);
              && given <= Outstanding(book.allocations, sources[0])
              && r == Restore(posted.book, movement, sources[1..], expected, restored + given, value + posted.value)
  {
    hide *;
    AvailableIsOut(book, movement, sources);
    ReturnableFacts(book, movement, sources);
    CeilingHolds(book, sources[0]);
    ListedFacts(book, sources);
    OutOfSold(book, sources);
    LayerIs(book, sources);
    var available := -book.allocations[sources[0]].quantity - Total(book.allocations, SourcedFrom(sources[0]));
    MinFacts(available, expected - restored);
    MinFacts(Out(book.allocations)(sources[0]), expected - restored);
    RestoreUnfolds(book, movement, sources, expected, restored, value, available);
  }

  lemma MinFacts(a: int, b: int)
    ensures Min(a, b) == if a < b then a else b
  {
  }

  lemma LayerIs(book: Book, sources: seq<nat>)
    requires sources != [] && sources[0] < |book.allocations|
    ensures LayerAt(book, sources, 0) == book.allocations[sources[0]].layer
  {
  }

  lemma NextSame(book: Book, movement: nat, sources: seq<nat>)
    requires sources != [] && (forall k :: 0 <= k < |sources| ==> sources[k] < |book.allocations|)
    requires movement < |book.movements| && Returnable(book, movement, sources)
    ensures Continues(book, book, movement, sources, 0) && Returnable(book, movement, sources[1..])
    ensures forall k :: 0 <= k < |sources[1..]| ==> sources[1..][k] < |book.allocations|
  {
    ReturnableKept(book, book, movement, sources);
  }

  lemma NextDrawn(book: Book, movement: nat, sources: seq<nat>, given: int, product: Product)
    requires Core(book) && movement < |book.movements| && sources != []
    requires book.movements[movement].quantity > 0 && IsSaleReversal(book.movements[movement].kind)
    requires Returnable(book, movement, sources) && Listed(book, sources)
    requires forall k :: 0 <= k < |sources| ==> sources[k] < |book.allocations|
    requires 0 < given <= Outstanding(book.allocations, sources[0])
    requires LayerAt(book, sources, 0) < |book.layers| && KeyFree(book, movement, LayerAt(book, sources, 0))
    ensures var layer := LayerAt(book, sources, 0);
            var next := Post(book, movement, layer, Some(sources[0]), given, RestoreMode).book;
            && Core(next) && next.movements == book.movements
            && Returnable(next, movement, sources[1..]) && Listed(next, sources[1..])
            && Continues(book, next, movement, sources, given)
            && (forall k :: 0 <= k < |sources[1..]| ==> sources[1..][k] < |next.allocations|)
            && (forall j :: 1 <= j < |sources| ==> Out(next.allocations)(sources[j]) == Out(book.allocations)(sources[j]))
            && StockOf(next, product) == StockOf(book, product) + (if book.layers[layer].product == product then given else 0)
  {
    hide Core, KeyFree, Outstanding, IsSaleReversal, QuantityValue, StockOf;
    var layer := LayerAt(book, sources, 0);
    OutOfSold(book, sources);
    OthersKept(book, movement, sources, given);
    ReturnableFacts(book, movement, sources);
    RestoreKeepsCore(book, movement, sources[0], given);
    StockPost(book, movement, layer, Some(sources[0]), given, RestoreMode, product, 0);
    var next := Post(book, movement, layer, Some(sources[0]), given, RestoreMode).book;
    assert SameLayers(book, next);
    ReturnableKept(book, next, movement, sources);
  }

  lemma OutOfSold(book: Book, sources: seq<nat>)
    requires sources != [] && sources[0] < |book.allocations|
    ensures Out(book.allocations)(sources[0]) == Outstanding(book.allocations, sources[0])
  {
  }

  lemma BackShiftAll(book: Book, next: Book, sources: seq<nat>, needed: int)
    requires Listed(book, sources) && sources != [] && needed >= 0
    requires forall j :: 1 <= j < |sources| ==> Out(next.allocations)(sources[j]) == Out(book.allocations)(sources[j])
    ensures forall k :: 1 <= k < |sources| ==>
              Back(book, sources, needed, k)
              == Back(next, sources[1..], needed - Min(Out(book.allocations)(sources[0]), needed), k - 1)
  {
    hide Back, Listed, Out;
    forall k | 1 <= k < |sources|
      ensures Back(book, sources, needed, k)
              == Back(next, sources[1..], needed - Min(Out(book.allocations)(sources[0]), needed), k - 1)
    {
      BackShift(book, next, sources, needed, k);
    }
  }

  lemma HeldNonNegativeRest(book: Book, sources: seq<nat>)
    requires Listed(book, sources)
    ensures Held(sources, Out(book.allocations), |sources|) >= 0
  {
    ListedFacts(book, sources);
    hide Out;
    HeldNonNegative(sources, Out(book.allocations), |sources|);
  }

  lemma NotApart(book: Book, movement: nat, sources: seq<nat>, needed: int)
    requires sources != [] && (forall k :: 0 <= k < |sources| ==> sources[k] < |book.allocations|)
    requires Back(book, sources, needed, 0) > 0 && !KeyFree(book, movement, LayerAt(book, sources, 0))
    ensures !Apart(book, movement, sources, needed)
  {
  }

  /** The restoration loop succeeds exactly when the sources have that much out and the ones it
      gives back to lie apart; it then puts back what it took from each. */
  lemma {:induction false} RestoreExact(book: Book, movement: nat, sources: seq<nat>, expected: int, restored: int, value: int,
                                        product: Product)
    requires Core(book) && movement < |book.movements| && restored <= expected
    requires book.movements[movement].quantity > 0 && IsSaleReversal(book.movements[movement].kind)
    requires Returnable(book, movement, sources) && Listed(book, sources)
    ensures forall k :: 0 <= k < |sources| ==> sources[k] < |book.allocations|
    ensures var needed := expected - restored;
            var r := Restore(book, movement, sources, expected, restored, value);
            && (r.Ok? <==> needed <= Held(sources, Out(book.allocations), |sources|) && Apart(book, movement, sources, needed))
            && (r.Ok? ==> StockOf(r.value.book, product)
                          == StockOf(book, product) + Sum(|sources|, BackOn(book, sources, needed, product)))
    decreases |sources|
  {
    ListedFacts(book, sources);
    if sources == [] {
      HeldNone([], Out(book.allocations));
    } else {
      RestoreRound(book, movement, sources, expected, restored, value, product);
    }
  }

  lemma RestoreRound(book: Book, movement: nat, sources: seq<nat>, expected: int, restored: int, value: int, product: Product)
    requires Core(book) && movement < |book.movements| && restored <= expected && sources != []
    requires book.movements[movement].quantity > 0 && IsSaleReversal(book.movements[movement].kind)
    requires Returnable(book, movement, sources) && Listed(book, sources)
    requires forall k :: 0 <= k < |sources| ==> sources[k] < |book.allocations|
    ensures var needed := expected - restored;
            var r := Restore(book, movement, sources, expected, restored, value);
            && (r.Ok? <==> needed <= Held(sources, Out(book.allocations), |sources|) && Apart(book, movement, sources, needed))
            && (r.Ok? ==> StockOf(r.value.book, product)
                          == StockOf(book, product) + Sum(|sources|, BackOn(book, sources, needed, product)))
    decreases |sources|, 0
  {
    hide *;
    var needed := expected - restored;
    var out := Out(book.allocations);
    ListedFacts(book, sources);
    ReturnableFacts(book, movement, sources);
    CoreLinks(book);
    var given := Min(out(sources[0]), needed);
    GivenBounds(out(sources[0]), needed);
    MinFacts(out(sources[0]), needed);
    RoundOutcome(book, movement, sources, expected, restored, value);
    BackFirst(book, sources, needed);
    HeldNonNegative(sources, out, |sources|);
    if given == 0 {
      NextSame(book, movement, sources);
      BackShiftAll(book, book, sources, needed);
      HeldShift(sources, out, out, |sources|);
      ApartShift(book, book, movement, sources, needed, 0);
      BackOnShift(book, book, movement, sources, needed, 0, product);
      HeldNonNegativeRest(book, sources[1..]);
      RestoreExact(book, movement, sources[1..], expected, restored, value, product);
    } else if KeyFree(book, movement, LayerAt(book, sources, 0)) {
      var posted := Post(book, movement, LayerAt(book, sources, 0), Some(sources[0]), given, RestoreMode);
      var next := posted.book;
      NextDrawn(book, movement, sources, given, product);
      BackShiftAll(book, next, sources, needed);
      HeldShift(sources, out, Out(next.allocations), |sources|);
      ApartShift(book, next, movement, sources, needed, given);
      BackOnShift(book, next, movement, sources, needed, given, product);
      HeldNonNegativeRest(next, sources[1..]);
      RestoreExact(next, movement, sources[1..], expected, restored + given, value + posted.value, product);
    } else {
      assert !Apart(book, movement, sources, needed) by { NotApart(book, movement, sources, needed); }
    }
  }

  // ----- When a void or return is accepted -----

  function Returning(book: Book, m: Movement): nat -> int {
    (k: nat) => if k < |book.allocations| && Reversible(book, k, m) then Outstanding(book.allocations, k) else 0
  }

  /** What the sale still has out, over every allocation the reversal may give back. */
  function StillSold(book: Book, m: Movement): int {
    Sum(|book.allocations|, Returning(book, m))
  }

  /** The allocations a reversal may give back, in the order it goes through them. */
  function Sources(book: Book, m: Movement): (r: seq<nat>)
    ensures forall k :: 0 <= k < |r| ==> r[k] < |book.allocations|
  {
    Reversed(book, m, |book.allocations|)
  }

  /** The allocations the reversal gives back to lie on layers of its own product. */
  ghost predicate OnOwnLayers(book: Book, m: Movement) {
    var sources := Sources(book, m);
    forall k: nat :: k < |sources| && Back(book, sources, m.quantity, k) > 0 ==>
      LayerAt(book, sources, k) < |book.layers| && book.layers[LayerAt(book, sources, k)].product == m.product
  }

  /** No two of them lie on one layer. */
  ghost predicate OnDistinctLayers(book: Book, m: Movement) {
    var sources := Sources(book, m);
    forall j: nat, k: nat :: j < k < |sources| && Back(book, sources, m.quantity, j) > 0 && Back(book, sources, m.quantity, k) > 0 ==>
      LayerAt(book, sources, j) != LayerAt(book, sources, k)
  }

  lemma {:induction false} ReversedHolds(book: Book, m: Movement, n: nat)
    requires n <= |book.allocations|
    ensures var r := Reversed(book, m, n);
            Held(r, Out(book.allocations), |r|) == Sum(n, Returning(book, m))
  {
    hide Outstanding, Reversible;
    if n > 0 {
      ReversedHolds(book, m, n - 1);
      if Reversible(book, n - 1, m) {
        HeldAppend(Reversed(book, m, n - 1), n - 1, Out(book.allocations));
      }
    } else {
      HeldNone([], Out(book.allocations));
    }
  }

  lemma SourcesAreSales(book: Book, movement: nat)
    requires Core(book) && movement < |book.movements|
    ensures var m := book.movements[movement];
            Returnable(book, movement, Sources(book, m)) && Listed(book, Sources(book, m))
  {
    CoreLinks(book);
    var m := book.movements[movement];
    var sources := Sources(book, m);
    assert NotOverRestored(book);
    hide Core;
    ReversedAreReversible(book, m, |book.allocations|);
    assert sources != [] ==> sources[0] in sources;
    forall k | 0 <= k < |sources|
      ensures var a := book.allocations[sources[k]];
              a.layer < |book.layers| && book.layers[a.layer].location == m.location && Reversible(book, sources[k], m)
    {
      assert sources[k] in sources;
    }
  }

  lemma UnbookedApart(book: Book, movement: nat)
    requires movement < |book.movements| && Unbooked(book, movement)
    ensures var m := book.movements[movement];
            Apart(book, movement, Sources(book, m), m.quantity) <==> OnDistinctLayers(book, m)
  {
    hide Back;
    assert forall layer :: KeyFree(book, movement, layer);
  }

  lemma BackParts(book: Book, m: Movement, k: nat)
    requires Linked(book) && k < |Sources(book, m)|
    requires forall j :: 0 <= j < |Sources(book, m)| ==> Out(book.allocations)(Sources(book, m)[j]) >= 0
    ensures var sources := Sources(book, m);
            && sources[k] < |book.allocations| && LayerAt(book, sources, k) < |book.layers|
            && TakenAt(sources, Out(book.allocations), m.quantity)(k) == Back(book, sources, m.quantity, k) >= 0
            && BackOn(book, sources, m.quantity, m.product)(k)
               == if book.layers[LayerAt(book, sources, k)].product == m.product then Back(book, sources, m.quantity, k) else 0
  {
    TakenNonNegative(Sources(book, m), Out(book.allocations), m.quantity, k);
    hide Taken, Out, Reversed;
  }

  lemma AllTaken(book: Book, m: Movement)
    requires Listed(book, Sources(book, m)) && 0 <= m.quantity <= StillSold(book, m)
    ensures var sources := Sources(book, m);
            Sum(|sources|, TakenAt(sources, Out(book.allocations), m.quantity)) == m.quantity
  {
    hide *;
    ListedFacts(book, Sources(book, m));
    SourcesHold(book, m);
    TakenTotal(Sources(book, m), Out(book.allocations), m.quantity, |Sources(book, m)|);
    MinFacts(Held(Sources(book, m), Out(book.allocations), |Sources(book, m)|), m.quantity);
  }

  /** Everything given back lies on the product's layers exactly when they take it all. */
  lemma AllOnOwn(book: Book, m: Movement)
    requires Linked(book) && Listed(book, Sources(book, m)) && 0 <= m.quantity <= StillSold(book, m)
    ensures var sources := Sources(book, m);
            OnOwnLayers(book, m) <==> Sum(|sources|, BackOn(book, sources, m.quantity, m.product)) == m.quantity
  {
    var sources := Sources(book, m);
    AllTaken(book, m);
    ListedFacts(book, sources);
    hide Linked, Taken, Back, Held, BackOn, Sources, StillSold, Listed, Out, TakenAt, LayerAt;
    var all, own := TakenAt(sources, Out(book.allocations), m.quantity), BackOn(book, sources, m.quantity, m.product);
    forall k: nat | k < |sources| ensures all(k) == Back(book, sources, m.quantity, k) >= 0 {
      BackParts(book, m, k);
    }
    var foreign := (k: nat) => all(k) - own(k);
    SumPlus(|sources|, own, foreign, all);
    forall k: nat | k < |sources|
      ensures LayerAt(book, sources, k) < |book.layers|
      ensures foreign(k) == if book.layers[LayerAt(book, sources, k)].product == m.product then 0 else Back(book, sources, m.quantity, k)
    {
      BackParts(book, m, k);
    }
    if Sum(|sources|, own) == m.quantity {
      SumAllZero(|sources|, foreign);
      forall k: nat | k < |sources| && Back(book, sources, m.quantity, k) > 0
        ensures book.layers[LayerAt(book, sources, k)].product == m.product
      {
        assert foreign(k) == 0;
      }
    }
    if OnOwnLayers(book, m) {
      SumZero(|sources|, foreign);
    }
  }

  /** The layers of a void or return: when restoring succeeds, and when the summary of the product
      then agrees. */
  lemma RestoreSaleExact(book: Book, movement: nat)
    requires Core(book) && movement < |book.movements| && Unbooked(book, movement)
    requires book.movements[movement].quantity > 0 && IsSaleReversal(book.movements[movement].kind)
    ensures var m := book.movements[movement];
            var r := RestoreSale(book, movement, m.quantity);
            && (r.Ok? <==> m.quantity <= StillSold(book, m) && OnDistinctLayers(book, m))
            && (r.Ok? ==> (StockOf(r.value.book, m.product) == StockOf(book, m.product) + m.quantity <==> OnOwnLayers(book, m)))
  {
    hide *;
    var m := book.movements[movement];
    RestoreSaleIs(book, movement, m.quantity);
    SourcesAreSales(book, movement);
    UnbookedApart(book, movement);
    CoreLinks(book);
    SourcesHold(book, m);
    RestoreExact(book, movement, Sources(book, m), m.quantity, 0, 0, m.product);
    if m.quantity <= StillSold(book, m) {
      AllOnOwn(book, m);
    }
  }

  lemma RestoreSaleIs(book: Book, movement: nat, expected: int)
    requires movement < |book.movements|
    ensures RestoreSale(book, movement, expected) == Restore(book, movement, Sources(book, book.movements[movement]), expected, 0, 0)
  {
    hide Restore, Reversed;
  }

  lemma SourcesHold(book: Book, m: Movement)
    ensures Held(Sources(book, m), Out(book.allocations), |Sources(book, m)|) == StillSold(book, m)
  {
    ReversedHolds(book, m, |book.allocations|);
  }

  /** The moving average does not change what a reversal finds. */
  lemma {:induction false} ReversedKept(book: Book, averaged: Book, m: Movement, n: nat)
    requires Linked(book) && n <= |book.allocations|
    requires averaged.allocations == book.allocations && averaged.movements == book.movements + [m]
    ensures Reversed(averaged, m, n) == Reversed(book, m, n)
  {
    if n > 0 {
      ReversedKept(book, averaged, m, n - 1);
      assert averaged.movements[book.allocations[n - 1].movement] == book.movements[book.allocations[n - 1].movement];
    }
  }

  lemma AveragedAgrees(book: Book, averaged: Book, m: Movement)
    requires Linked(book)
    requires averaged.allocations == book.allocations && averaged.movements == book.movements + [m] && averaged.layers == book.layers
    ensures StillSold(averaged, m) == StillSold(book, m)
    ensures OnOwnLayers(averaged, m) <==> OnOwnLayers(book, m)
    ensures OnDistinctLayers(averaged, m) <==> OnDistinctLayers(book, m)
  {
    ReversedKept(book, averaged, m, |book.allocations|);
    SourcesHold(book, m);
    SourcesHold(averaged, m);
    hide StillSold, Reversed, Reversible, Linked;
    assert Sources(averaged, m) == Sources(book, m);
    assert forall k: nat :: Back(averaged, Sources(book, m), m.quantity, k) == Back(book, Sources(book, m), m.quantity, k);
  }

  lemma {:induction false} FirstSaleFound(book: Book, m: Movement, k: nat, n: nat)
    requires k < n <= |book.movements| && m.saleLine.Some?
    requires book.movements[k].kind == Sale && book.movements[k].saleLine == m.saleLine && book.movements[k].location == m.location
    ensures FirstSale(book.movements, m, n).Some?
  {
    if k < n - 1 {
      FirstSaleFound(book, m, k, n - 1);
    }
  }

  /** A line with something still out has a sale, so the reversal's cost is found. */
  lemma CostIsFound(book: Book, m: Movement)
    requires Linked(book) && StillSold(book, m) > 0
    ensures FirstSale(book.movements, m, |book.movements|).Some?
  {
    if FirstSale(book.movements, m, |book.movements|).None? {
      forall k: nat | k < |book.allocations| ensures Returning(book, m)(k) == 0 {
        if Reversible(book, k, m) {
          FirstSaleFound(book, m, book.allocations[k].movement, |book.movements|);
        }
      }
      SumZero(|book.allocations|, Returning(book, m));
    }
  }

  /** Revaluing a product for a reversal fails only when there is no sale to take the cost from. */
  lemma {:induction false} ReversalAverages(book: Book, m: Movement, catalogCost: nat)
    requires Invariant(book) && CostsSound(book)
    requires m.quantity > 0 && IsSaleReversal(m.kind)
    ensures |book.movements| == |book.figures|
    ensures var r := Average(book, m, catalogCost);
            && (r.Ok? <==> FirstSale(book.movements, m, |book.movements|).Some?)
            && (r.Ok? ==> && r.value.layers == book.layers && r.value.allocations == book.allocations
                          && r.value.movements == book.movements + [m] && |r.value.figures| == |r.value.movements|
                          && m.product in r.value.valuations
                          && r.value.valuations[m.product].quantity == StockOf(book, m.product) + m.quantity)
  {
    assert |book.movements| == |book.figures|;
    StockMatchesValuation(book, m.product, catalogCost);
    hide Invariant, DivideRounded, StockOf;
    var current := CurrentValuation(book, m.product, catalogCost);
    var sale := FirstSale(book.movements, m, |book.movements|);
    if sale.Some? {
      CostOfMovement(book, sale.value);
      ValueNonNegative(m.quantity, book.figures[sale.value].unitCost);
    }
    hide CostsSound, QuantityValue;
  }

  lemma StockMatchesValuation(book: Book, product: Product, catalogCost: int)
    requires Invariant(book)
    ensures 0 <= StockOf(book, product) == CurrentValuation(book, product, catalogCost).quantity
  {
    assert ValuationMatches(book, product);
    forall i | 0 <= i < |book.layers| ensures book.layers[i].remaining >= 0 {
    }
    TotalNonNegative(book.layers, RemainingOf(product));
  }

  lemma ValueNonNegative(quantity: int, unitCost: int)
    requires quantity >= 0 && unitCost >= 0
    ensures QuantityValue(quantity, unitCost) >= 0
  {
  }

  lemma ReversalOutcome(averaged: Book, id: nat)
    requires id < |averaged.movements| == |averaged.figures| && Unbooked(averaged, id)
    requires averaged.movements[id].quantity > 0 && IsSaleReversal(averaged.movements[id].kind)
    requires averaged.movements[id].product in averaged.valuations
    ensures var m := averaged.movements[id];
            var r := RestoreSale(averaged, id, m.quantity);
            ApplyFifo(averaged, id).Ok? <==> r.Ok? && StockOf(r.value.book, m.product) == averaged.valuations[m.product].quantity
  {
    hide RestoreSale, StockOf, WeightedCost;
  }

  lemma AveragedFacts(book: Book, averaged: Book, m: Movement)
    requires Linked(book) && averaged.layers == book.layers && averaged.allocations == book.allocations
    ensures Unbooked(averaged, |book.movements|) && StockOf(averaged, m.product) == StockOf(book, m.product)
  {
  }

  lemma ReversalLayers(book: Book, averaged: Book, m: Movement)
    requires Core(averaged) && Linked(book)
    requires m.quantity > 0 && IsSaleReversal(m.kind)
    requires averaged.layers == book.layers && averaged.allocations == book.allocations && averaged.movements == book.movements + [m]
    requires |averaged.figures| == |averaged.movements| && m.product in averaged.valuations
    requires averaged.valuations[m.product].quantity == StockOf(book, m.product) + m.quantity
    ensures ApplyFifo(averaged, |book.movements|).Ok?
            <==> m.quantity <= StillSold(book, m) && OnOwnLayers(book, m) && OnDistinctLayers(book, m)
  {
    hide *;
    var id := |book.movements|;
    assert averaged.movements[id] == m;
    AveragedFacts(book, averaged, m);
    AveragedAgrees(book, averaged, m);
    RestoreSaleExact(averaged, id);
    ReversalOutcome(averaged, id);
  }

  /** A void or return is accepted exactly when its sale line still has that much out at the location
      and the allocations it gives back to, taken in order, lie on different layers of its own product. */
  lemma ReversalIsExact(book: Book, m: Movement, catalogCost: nat)
    requires Invariant(book) && CostsSound(book)
    requires m.quantity > 0 && IsSaleReversal(m.kind)
    ensures |book.movements| == |book.figures|
    ensures Apply(book, m, catalogCost).Ok?
            <==> m.quantity <= StillSold(book, m) && OnOwnLayers(book, m) && OnDistinctLayers(book, m)
  {
    ReversalAverages(book, m, catalogCost);
    AverageKeepsCore(book, m, catalogCost);
    assert Core(book) && Linked(book) by { CoreLinks(book); }
    hide Invariant, Core, Linked, Average, CostsSound, StillSold, OnOwnLayers, OnDistinctLayers, ApplyFifo;
    var r := Average(book, m, catalogCost);
    if r.Ok? {
      ReversalLayers(book, r.value, m);
    } else if m.quantity <= StillSold(book, m) {
      CostIsFound(book, m);
    }
  }

  /** A reversal that names its sale movement gives back to different layers only: the unique key of the
      allocation table gives that movement one allocation for each. */
  lemma NamedSaleDrawsOncePerLayer(book: Book, m: Movement)
    requires Core(book) && m.sourceSale.Some?
    ensures OnDistinctLayers(book, m)
  {
    assert KeyUnique(book);
    hide Core, Back;
    var sources := Sources(book, m);
    ReversedAreReversible(book, m, |book.allocations|);
    forall j: nat, k: nat | j < k < |sources| ensures LayerAt(book, sources, j) != LayerAt(book, sources, k) {
      assert sources[j] in sources && sources[k] in sources && sources[j] < sources[k];
    }
  }

  /** Every sale the reversal may give back to is the one at position `sale`, of the reversal's product. */
  ghost predicate LoneSale(book: Book, m: Movement, sale: nat) {
    forall k :: 0 <= k < |book.movements| && book.movements[k].kind == Sale && m.saleLine.Some?
                && book.movements[k].saleLine == m.saleLine && book.movements[k].location == m.location
                && (m.sourceSale.Some? ==> k == m.sourceSale.value) ==>
      k == sale && book.movements[k].product == m.product
  }

  /** So a line that sold one product in one movement at the location, or a return that names its
      sale, is reversed exactly when it still has that much out. */
  lemma LoneSaleReverses(book: Book, m: Movement, sale: nat, catalogCost: nat)
    requires Invariant(book) && CostsSound(book) && LoneSale(book, m, sale)
    requires m.quantity > 0 && IsSaleReversal(m.kind)
    ensures |book.movements| == |book.figures|
    ensures Apply(book, m, catalogCost).Ok? <==> m.quantity <= StillSold(book, m)
  {
    ReversalIsExact(book, m, catalogCost);
    assert Core(book) && OnProduct(book);
    hide Invariant, CostsSound, StillSold, Back, Apply;
    CoreLinks(book);
    var sources := Sources(book, m);
    ReversedAreReversible(book, m, |book.allocations|);
    forall k: nat | k < |sources|
      ensures LayerAt(book, sources, k) < |book.layers| && book.layers[LayerAt(book, sources, k)].product == m.product
      ensures book.allocations[sources[k]].movement == sale
    {
      assert sources[k] in sources;
      assert Reversible(book, sources[k], m);
    }
    assert KeyUnique(book);
    hide Core, OnProduct, LoneSale;
    forall j: nat, k: nat | j < k < |sources| ensures LayerAt(book, sources, j) != LayerAt(book, sources, k) {
      assert sources[j] < sources[k];
    }
  }

  // ----- A fully reversed sale line -----

  /** A sale of the line at the location, or a reversal of it. */
  predicate OfLine(m: Movement, line: SaleLine, location: Location) {
    && m.saleLine == Some(line) && m.location == location
    && ((m.kind == Sale && m.quantity < 0) || (IsSaleReversal(m.kind) && m.quantity > 0))
  }

  function LineChange(line: SaleLine, location: Location): Movement -> int {
    (m: Movement) => if OfLine(m, line, location) then m.quantity else 0
  }

  function LineFlow(movements: seq<Movement>, line: SaleLine, location: Location): Allocation -> int {
    (a: Allocation) => if a.movement < |movements| && OfLine(movements[a.movement], line, location) then a.quantity else 0
  }

  /** Allocation k took stock for a sale of the line. */
  predicate IsDraw(movements: seq<Movement>, a: Allocation, line: SaleLine, location: Location) {
    a.quantity < 0 && a.movement < |movements| && OfLine(movements[a.movement], line, location)
  }

  function LineOpen(movements: seq<Movement>, allocations: seq<Allocation>, line: SaleLine, location: Location): nat -> int {
    (k: nat) => if k < |allocations| && IsDraw(movements, allocations[k], line, location)
                then Outstanding(allocations, k) else 0
  }

  lemma {:induction false} SumIsTotal<T>(rows: seq<T>, f: T -> int, g: nat -> int)
    requires forall k: nat :: k < |rows| ==> g(k) == f(rows[k])
    ensures Sum(|rows|, g) == Total(rows, f)
  {
    if rows != [] {
      SumIsTotal(rows[..|rows| - 1], f, g);
    }
  }

  /** By movement: the line's allocations add up to the line's movements. */
  lemma LineFlowByMovement(book: Book, line: SaleLine, location: Location)
    requires Core(book) && MovementsBooked(book)
    ensures Total(book.allocations, LineFlow(book.movements, line, location))
            == Total(book.movements, LineChange(line, location))
  {
    var key := (a: Allocation) => a.movement;
    var f := LineFlow(book.movements, line, location);
    TotalByGroup(book.allocations, key, f, |book.movements|);
    forall k: nat | k < |book.movements|
      ensures GroupTotal(book.allocations, key, f)(k) == LineChange(line, location)(book.movements[k])
    {
      assert MovementBooked(book, k);
      if OfLine(book.movements[k], line, location) {
        TotalSame(book.allocations, InGroup(key, f, k), book.allocations, OfMovement(k));
      } else {
        TotalZero(book.allocations, InGroup(key, f, k));
      }
    }
    SumIsTotal(book.movements, LineChange(line, location), GroupTotal(book.allocations, key, f));
  }

  /** By source: the line's allocations add up to what its draws still have out. */
  lemma {:induction false} LineFlowBySource(book: Book, line: SaleLine, location: Location, n: nat)
    requires Core(book) && n <= |book.allocations|
    ensures Total(book.allocations[..n], LineFlow(book.movements, line, location))
            == -Sum(n, LineOpen(book.movements, book.allocations[..n], line, location))
  {
    hide Core, OfLine, LineFlow, LineOpen;
    if n > 0 {
      LineFlowBySource(book, line, location, n - 1);
      var prefix, a := book.allocations[..n - 1], book.allocations[n - 1];
      assert book.allocations[..n] == prefix + [a];
      TotalAppend(prefix, a, LineFlow(book.movements, line, location));
      LineSourceStep(book, line, location, n);
    }
  }

  /** A reversal belongs to a line exactly when the draw it reverses does. */
  lemma LineLink(book: Book, k: nat, line: SaleLine, location: Location)
    requires Core(book) && k < |book.allocations|
    ensures var a := book.allocations[k];
            && a.movement < |book.movements| && (a.source.Some? ==> a.source.value < k)
            && (a.mode == RestoreMode ==>
                  a.source.Some? && a.quantity > 0
                  && book.allocations[a.source.value].quantity < 0
                  && (IsDraw(book.movements, book.allocations[a.source.value], line, location)
                      <==> OfLine(book.movements[a.movement], line, location)))
            && (a.mode != RestoreMode && OfLine(book.movements[a.movement], line, location) ==> a.quantity < 0)
  {
    assert LinkOk(book, k);
  }

  lemma LineSourceStep(book: Book, line: SaleLine, location: Location, n: nat)
    requires Core(book) && 0 < n <= |book.allocations|
    ensures Sum(n, LineOpen(book.movements, book.allocations[..n], line, location))
            == Sum(n - 1, LineOpen(book.movements, book.allocations[..n - 1], line, location))
               - LineFlow(book.movements, line, location)(book.allocations[n - 1])
  {
    hide Core, OfLine;
    var prefix, a := book.allocations[..n - 1], book.allocations[n - 1];
    assert book.allocations[..n] == prefix + [a];
    var f := LineOpen(book.movements, prefix, line, location);
    var g := LineOpen(book.movements, prefix + [a], line, location);
    LineLink(book, n - 1, line, location);
    forall j | 0 <= j < |prefix| && prefix[j].source.Some? ensures prefix[j].source.value < j {
      LineLink(book, j, line, location);
    }
    OutstandingAppend(prefix, a);
    if a.mode == RestoreMode {
      assert prefix[a.source.value] == book.allocations[a.source.value];
      SumChange(n - 1, f, g, a.source.value);
    } else {
      SumSame(n - 1, f, g);
    }
  }

  /** Once the voids and returns of a sale line at a location add up to what was sold, every
      allocation of the sale is given back in full, on the very layer it drew from, whatever
      movements ran in between. */
  lemma CoveredLineNetsToZero(book: Book, line: SaleLine, location: Location, k: nat)
    requires Invariant(book) && k < |book.allocations|
    requires Total(book.movements, LineChange(line, location)) == 0
    requires IsDraw(book.movements, book.allocations[k], line, location)
    ensures book.allocations[k].quantity + Total(book.allocations, RestoreOf(k)) == 0
    ensures forall j :: 0 <= j < |book.allocations| && RestoreOf(k)(book.allocations[j]) != 0 ==>
              book.allocations[j].layer == book.allocations[k].layer
  {
    LineFlowByMovement(book, line, location);
    assert book.allocations[..|book.allocations|] == book.allocations;
    LineFlowBySource(book, line, location, |book.allocations|);
    SumAllZero(|book.allocations|, LineOpen(book.movements, book.allocations, line, location));
    assert LineOpen(book.movements, book.allocations, line, location)(k) == 0;
    forall j | 0 <= j < |book.allocations| && RestoreOf(k)(book.allocations[j]) != 0
      ensures book.allocations[j].layer == book.allocations[k].layer
    {
      assert LinkOk(book, j);
    }
  }

  /** A line is never given back more than was sold of it. */
  lemma LineNeverOverReturned(book: Book, line: SaleLine, location: Location)
    requires Invariant(book)
    ensures Total(book.movements, LineChange(line, location)) <= 0
  {
    LineFlowByMovement(book, line, location);
    assert book.allocations[..|book.allocations|] == book.allocations;
    LineFlowBySource(book, line, location, |book.allocations|);
    SumNonNegative(|book.allocations|, LineOpen(book.movements, book.allocations, line, location));
  }

  lemma OpenIsReturning(book: Book, m: Movement, line: SaleLine, k: nat)
    requires Linked(book) && m.saleLine == Some(line) && m.sourceSale.None?
    ensures Returning(book, m)(k) == LineOpen(book.movements, book.allocations, line, m.location)(k)
  {
  }

  /** What a line still has out for a reversal that names no sale is what its movements say: sold less
      already given back. */
  lemma StillSoldIsBalance(book: Book, m: Movement, line: SaleLine)
    requires Invariant(book) && m.saleLine == Some(line) && m.sourceSale.None?
    ensures StillSold(book, m) == -Total(book.movements, LineChange(line, m.location))
  {
    LineFlowByMovement(book, line, m.location);
    assert book.allocations[..|book.allocations|] == book.allocations;
    LineFlowBySource(book, line, m.location, |book.allocations|);
    assert Linked(book) by { CoreLinks(book); }
    hide Invariant, Linked, LineOpen, Returning;
    forall k: nat | k < |book.allocations|
      ensures Returning(book, m)(k) == LineOpen(book.movements, book.allocations, line, m.location)(k)
    {
      OpenIsReturning(book, m, line, k);
    }
    SumSame(|book.allocations|, Returning(book, m), LineOpen(book.movements, book.allocations, line, m.location));
  }
}
