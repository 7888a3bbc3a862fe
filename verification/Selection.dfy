/** Ordered selection of table rows (WHERE ... ORDER BY ..., id) and the greedy draw over it that
    both cost layers and lots use. Rows are named by their position. */
module Selection {
  import opened Sums

  /** A sort key whose missing values come last. */
  datatype Rank = Rank(missing: bool, value: int)

  predicate NotAfter(a: Rank, b: Rank) {
    if a.missing != b.missing then b.missing else a.value <= b.value
  }

  /** Puts row i behind every row ranked no later. */
  function Insert(order: seq<nat>, i: nat, rank: nat -> Rank): (r: seq<nat>)
  {
    if order == [] || NotAfter(rank(order[|order| - 1]), rank(i)) then order + [i]
    else Insert(order[..|order| - 1], i, rank) + [order[|order| - 1]]
  }

  /** The eligible rows among the first n, by rank and then by position. */
  function Select(n: nat, eligible: nat -> bool, rank: nat -> Rank): (r: seq<nat>)
  {
    if n == 0 then []
    else
      var before := Select(n - 1, eligible, rank);
      if eligible(n - 1) then Insert(before, n - 1, rank) else before
  }

  ghost predicate Distinct(s: seq<nat>) {
    forall j, k :: 0 <= j < k < |s| ==> s[j] != s[k]
  }

  ghost predicate InOrder(order: seq<nat>, rank: nat -> Rank) {
    forall j, k :: 0 <= j < k < |order| ==>
      NotAfter(rank(order[j]), rank(order[k])) && (rank(order[j]) == rank(order[k]) ==> order[j] < order[k])
  }

  lemma {:induction false} InsertMembers(order: seq<nat>, i: nat, rank: nat -> Rank)
    requires i !in order && Distinct(order)
    ensures forall x: nat :: x in Insert(order, i, rank) <==> x in order || x == i
    ensures Distinct(Insert(order, i, rank))
  {
    if order != [] && !NotAfter(rank(order[|order| - 1]), rank(i)) {
      var prefix, last := order[..|order| - 1], order[|order| - 1];
      assert order == prefix + [last];
      InsertMembers(prefix, i, rank);
      assert last !in prefix && last != i;
      assert last !in Insert(prefix, i, rank);
    }
  }

  lemma MemberBeforeLast(order: seq<nat>, x: nat, rank: nat -> Rank)
    requires InOrder(order, rank) && order != [] && x in order[..|order| - 1]
    ensures var last := order[|order| - 1];
            NotAfter(rank(x), rank(last)) && (rank(x) == rank(last) ==> x < last)
  {
    var j :| 0 <= j < |order| - 1 && order[..|order| - 1][j] == x;
    assert order[j] == x;
  }

  lemma {:induction false} InsertKeepsOrder(order: seq<nat>, i: nat, rank: nat -> Rank)
    requires InOrder(order, rank) && forall k :: 0 <= k < |order| ==> order[k] < i
    ensures InOrder(Insert(order, i, rank), rank)
    ensures forall x :: x in Insert(order, i, rank) ==> x == i || x in order
  {
    if order != [] && !NotAfter(rank(order[|order| - 1]), rank(i)) {
      var prefix, last := order[..|order| - 1], order[|order| - 1];
      assert order == prefix + [last];
      InsertKeepsOrder(prefix, i, rank);
      var inner := Insert(prefix, i, rank);
      forall k | 0 <= k < |inner|
        ensures NotAfter(rank(inner[k]), rank(last)) && (rank(inner[k]) == rank(last) ==> inner[k] < last)
      {
        assert inner[k] in inner;
        if inner[k] != i {
          MemberBeforeLast(order, inner[k], rank);
        }
      }
      forall x | x in inner + [last] ensures x == i || x in order {
        assert x in inner || x == last;
      }
    }
  }

  lemma DistinctEmpty()
    ensures Distinct([])
  {
  }

  lemma EmptyInOrder(rank: nat -> Rank)
    ensures InOrder([], rank)
  {
  }

  /** The selection lists each eligible row once, nothing else, in rank order. */
  lemma {:induction false} SelectIsExact(n: nat, eligible: nat -> bool, rank: nat -> Rank)
    ensures var r := Select(n, eligible, rank);
            && Distinct(r) && InOrder(r, rank)
            && (forall k :: 0 <= k < |r| ==> r[k] < n && eligible(r[k]))
            && (forall i: nat :: i < n && eligible(i) ==> i in r)
  {
    hide Distinct, InOrder, Insert;
    if n == 0 {
      DistinctEmpty();
      EmptyInOrder(rank);
    } else {
      var earlier := Select(n - 1, eligible, rank);
      SelectIsExact(n - 1, eligible, rank);
      if eligible(n - 1) {
        InsertMembers(earlier, n - 1, rank);
        InsertKeepsOrder(earlier, n - 1, rank);
        var r := Insert(earlier, n - 1, rank);
        forall k | 0 <= k < |r| ensures r[k] < n && eligible(r[k]) {
          assert r[k] in r;
        }
      }
    }
  }

  // ----- The greedy draw -----

  function Min(a: int, b: int): int {
    if a < b then a else b
  }

  /** What the first k rows of the order hold. */
  function Held(order: seq<nat>, amount: nat -> int, k: nat): int
    requires k <= |order|
  {
    if k == 0 then 0 else Held(order, amount, k - 1) + amount(order[k - 1])
  }

  /** What a greedy draw of `requested` takes from the row at position k: a row is touched only
      after every earlier one is drained, and the last one touched may be taken in part. */
  function Taken(order: seq<nat>, amount: nat -> int, requested: int, k: nat): int
    requires k < |order|
  {
    var left := requested - Held(order, amount, k);
    if left <= 0 then 0 else Min(amount(order[k]), left)
  }

  lemma {:induction false} HeldNonNegative(order: seq<nat>, amount: nat -> int, k: nat)
    requires k <= |order| && forall j :: 0 <= j < |order| ==> amount(order[j]) >= 0
    ensures Held(order, amount, k) >= 0
  {
    if k > 0 {
      HeldNonNegative(order, amount, k - 1);
    }
  }

  lemma {:induction false} HeldGrows(order: seq<nat>, amount: nat -> int, j: nat, k: nat)
    requires j <= k <= |order| && forall i :: 0 <= i < |order| ==> amount(order[i]) >= 0
    ensures Held(order, amount, j) <= Held(order, amount, k)
  {
    if j < k {
      HeldGrows(order, amount, j, k - 1);
    }
  }

  lemma {:induction false} HeldShift(order: seq<nat>, amount: nat -> int, next: nat -> int, k: nat)
    requires 1 <= k <= |order|
    requires forall j :: 1 <= j < |order| ==> next(order[j]) == amount(order[j])
    ensures Held(order, amount, k) == amount(order[0]) + Held(order[1..], next, k - 1)
  {
    if k > 1 {
      HeldShift(order, amount, next, k - 1);
      assert order[1..][k - 2] == order[k - 1];
    } else {
      assert Held(order, amount, 1) == Held(order, amount, 0) + amount(order[0]);
    }
  }

  /** After the first row is drawn, the rest is a greedy draw of what is left. */
  lemma TakenShift(order: seq<nat>, amount: nat -> int, next: nat -> int, requested: int, k: nat)
    requires 1 <= k < |order| && requested > 0
    requires forall j :: 0 <= j < |order| ==> amount(order[j]) >= 0
    requires forall j :: 1 <= j < |order| ==> next(order[j]) == amount(order[j])
    ensures Taken(order, amount, requested, k) == Taken(order[1..], next, requested - Min(amount(order[0]), requested), k - 1)
  {
    HeldShift(order, amount, next, k);
    HeldNonNegative(order[1..], next, k - 1);
  }

  lemma TakenNonNegative(order: seq<nat>, amount: nat -> int, requested: int, k: nat)
    requires k < |order| && forall j :: 0 <= j < |order| ==> amount(order[j]) >= 0
    ensures Taken(order, amount, requested, k) >= 0
  {
    hide Held;
  }

  /** A touched row has nothing left before it. */
  lemma DrainedPrefix(order: seq<nat>, amount: nat -> int, requested: int, j: nat, k: nat)
    requires j < k < |order| && forall i :: 0 <= i < |order| ==> amount(order[i]) >= 0
    requires Taken(order, amount, requested, k) > 0
    ensures Taken(order, amount, requested, j) == amount(order[j])
  {
    hide Held;
    HeldGrows(order, amount, j + 1, k);
    HeldNext(order, amount, j);
  }

  lemma HeldNext(order: seq<nat>, amount: nat -> int, j: nat)
    requires j < |order|
    ensures Held(order, amount, j + 1) == Held(order, amount, j) + amount(order[j])
  {
  }

  lemma HeldNone(order: seq<nat>, amount: nat -> int)
    ensures Held(order, amount, 0) == 0
  {
  }

  lemma NothingTaken(order: seq<nat>, amount: nat -> int, k: nat)
    requires k < |order| && forall j :: 0 <= j < |order| ==> amount(order[j]) >= 0
    ensures Taken(order, amount, 0, k) == 0
  {
    HeldNonNegative(order, amount, k);
  }

  /** The draw takes exactly what is requested, or everything there is. */
  lemma {:induction false} TakenTotal(order: seq<nat>, amount: nat -> int, requested: int, k: nat)
    requires requested >= 0 && k <= |order| && forall i :: 0 <= i < |order| ==> amount(order[i]) >= 0
    ensures Sum(k, TakenAt(order, amount, requested)) == Min(Held(order, amount, k), requested)
  {
    if k > 0 {
      TakenTotal(order, amount, requested, k - 1);
      HeldNonNegative(order, amount, k - 1);
    }
  }

  function TakenAt(order: seq<nat>, amount: nat -> int, requested: int): nat -> int {
    (k: nat) => if k < |order| then Taken(order, amount, requested, k) else 0
  }

  // ----- What the selection holds -----

  function Eligible(eligible: nat -> bool, amount: nat -> int): nat -> int {
    (i: nat) => if eligible(i) then amount(i) else 0
  }

  lemma {:induction false} HeldPrefix(a: seq<nat>, b: seq<nat>, amount: nat -> int, k: nat)
    requires k <= |a| <= |b| && b[..|a|] == a
    ensures Held(a, amount, k) == Held(b, amount, k)
  {
    if k > 0 {
      HeldPrefix(a, b, amount, k - 1);
      assert a[k - 1] == b[..|a|][k - 1];
    }
  }

  lemma HeldAppend(order: seq<nat>, i: nat, amount: nat -> int)
    ensures Held(order + [i], amount, |order| + 1) == Held(order, amount, |order|) + amount(i)
  {
    HeldPrefix(order, order + [i], amount, |order|);
  }

  lemma {:induction false} InsertHolds(order: seq<nat>, i: nat, rank: nat -> Rank, amount: nat -> int)
    ensures var r := Insert(order, i, rank);
            Held(r, amount, |r|) == Held(order, amount, |order|) + amount(i)
  {
    if order == [] || NotAfter(rank(order[|order| - 1]), rank(i)) {
      HeldPrefix(order, order + [i], amount, |order|);
    } else {
      var prefix, last := order[..|order| - 1], order[|order| - 1];
      InsertHolds(prefix, i, rank, amount);
      var inner := Insert(prefix, i, rank);
      HeldPrefix(inner, inner + [last], amount, |inner|);
      HeldPrefix(prefix, order, amount, |prefix|);
    }
  }

  lemma {:induction false} SelectHolds(n: nat, eligible: nat -> bool, rank: nat -> Rank, amount: nat -> int)
    ensures var r := Select(n, eligible, rank);
            Held(r, amount, |r|) == Sum(n, Eligible(eligible, amount))
  {
    if n > 0 {
      SelectHolds(n - 1, eligible, rank, amount);
      if eligible(n - 1) {
        InsertHolds(Select(n - 1, eligible, rank), n - 1, rank, amount);
      }
    }
  }
}
