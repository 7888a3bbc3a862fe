/** Finite sums: over the rows of a table, and over an index range. */
module Sums {

  /** The SQL SUM of f over the rows of a table. */
  function Total<T>(rows: seq<T>, f: T -> int): (total: int)
  {
    if |rows| == 0 then 0 else Total(rows[..|rows| - 1], f) + f(rows[|rows| - 1])
  }

  lemma TotalAppend<T>(rows: seq<T>, row: T, f: T -> int)
    ensures Total(rows + [row], f) == Total(rows, f) + f(row)
  {
    assert (rows + [row])[..|rows|] == rows;
  }

  lemma {:induction false} TotalConcat<T>(a: seq<T>, b: seq<T>, f: T -> int)
    ensures Total(a + b, f) == Total(a, f) + Total(b, f)
  {
    if b == [] {
      assert a + b == a;
    } else {
      assert (a + b)[..|a + b| - 1] == a + b[..|b| - 1];
      TotalConcat(a, b[..|b| - 1], f);
    }
  }

  lemma {:induction false} TotalSame<S, T>(a: seq<S>, f: S -> int, b: seq<T>, g: T -> int)
    requires |a| == |b|
    requires forall k :: 0 <= k < |a| ==> f(a[k]) == g(b[k])
    ensures Total(a, f) == Total(b, g)
  {
    if a != [] {
      TotalSame(a[..|a| - 1], f, b[..|b| - 1], g);
    }
  }

  lemma {:induction false} TotalUpdate<T>(rows: seq<T>, i: nat, row: T, f: T -> int)
    requires i < |rows|
    ensures Total(rows[i := row], f) == Total(rows, f) - f(rows[i]) + f(row)
  {
    var last := |rows| - 1;
    if i == last {
      assert rows[i := row][..last] == rows[..last];
    } else {
      assert rows[i := row][..last] == rows[..last][i := row];
      TotalUpdate(rows[..last], i, row, f);
    }
  }

  lemma {:induction false} TotalNonNegative<T>(rows: seq<T>, f: T -> int)
    requires forall k :: 0 <= k < |rows| ==> f(rows[k]) >= 0
    ensures Total(rows, f) >= 0
  {
    if rows != [] {
      TotalNonNegative(rows[..|rows| - 1], f);
    }
  }

  lemma {:induction false} TotalTerm<T>(rows: seq<T>, f: T -> int, i: nat)
    requires i < |rows|
    requires forall k :: 0 <= k < |rows| ==> f(rows[k]) >= 0
    ensures f(rows[i]) <= Total(rows, f)
  {
    if i < |rows| - 1 {
      TotalTerm(rows[..|rows| - 1], f, i);
    } else {
      TotalNonNegative(rows[..|rows| - 1], f);
    }
  }

  lemma {:induction false} TotalPlus<T>(rows: seq<T>, f: T -> int, g: T -> int, h: T -> int)
    requires forall k :: 0 <= k < |rows| ==> h(rows[k]) == f(rows[k]) + g(rows[k])
    ensures Total(rows, h) == Total(rows, f) + Total(rows, g)
  {
    if rows != [] {
      TotalPlus(rows[..|rows| - 1], f, g, h);
    }
  }

  lemma {:induction false} TotalAtMost<T>(rows: seq<T>, f: T -> int, g: T -> int)
    requires forall k :: 0 <= k < |rows| ==> f(rows[k]) <= g(rows[k])
    ensures Total(rows, f) <= Total(rows, g)
  {
    if rows != [] {
      TotalAtMost(rows[..|rows| - 1], f, g);
    }
  }

  lemma {:induction false} TotalZero<T>(rows: seq<T>, f: T -> int)
    requires forall k :: 0 <= k < |rows| ==> f(rows[k]) == 0
    ensures Total(rows, f) == 0
  {
    if rows != [] {
      TotalZero(rows[..|rows| - 1], f);
    }
  }

  /** f(0) + ... + f(n - 1). */
  function Sum(n: nat, f: nat -> int): (total: int)
  {
    if n == 0 then 0 else Sum(n - 1, f) + f(n - 1)
  }

  lemma {:induction false} SumSame(n: nat, f: nat -> int, g: nat -> int)
    requires forall k: nat :: k < n ==> f(k) == g(k)
    ensures Sum(n, f) == Sum(n, g)
  {
    if n > 0 {
      SumSame(n - 1, f, g);
    }
  }

  lemma {:induction false} SumChange(n: nat, f: nat -> int, g: nat -> int, i: nat)
    requires i < n
    requires forall k: nat :: k < n && k != i ==> f(k) == g(k)
    ensures Sum(n, g) == Sum(n, f) - f(i) + g(i)
  {
    if i == n - 1 {
      SumSame(n - 1, f, g);
    } else {
      SumChange(n - 1, f, g, i);
    }
  }

  lemma {:induction false} SumNonNegative(n: nat, f: nat -> int)
    requires forall k: nat :: k < n ==> f(k) >= 0
    ensures Sum(n, f) >= 0
  {
    if n > 0 {
      SumNonNegative(n - 1, f);
    }
  }

  lemma {:induction false} SumTerm(n: nat, f: nat -> int, i: nat)
    requires i < n
    requires forall k: nat :: k < n ==> f(k) >= 0
    ensures f(i) <= Sum(n, f)
  {
    if i < n - 1 {
      SumTerm(n - 1, f, i);
    } else {
      SumNonNegative(n - 1, f);
    }
  }

  lemma {:induction false} SumZero(n: nat, f: nat -> int)
    requires forall k: nat :: k < n ==> f(k) == 0
    ensures Sum(n, f) == 0
  {
    if n > 0 {
      SumZero(n - 1, f);
    }
  }

  lemma {:induction false} SumPlus(n: nat, f: nat -> int, g: nat -> int, h: nat -> int)
    requires forall k: nat :: k < n ==> h(k) == f(k) + g(k)
    ensures Sum(n, h) == Sum(n, f) + Sum(n, g)
  {
    if n > 0 {
      SumPlus(n - 1, f, g, h);
    }
  }

  lemma {:induction false} SumAtMost(n: nat, f: nat -> int, g: nat -> int)
    requires forall k: nat :: k < n ==> f(k) <= g(k)
    ensures Sum(n, f) <= Sum(n, g)
  {
    if n > 0 {
      SumAtMost(n - 1, f, g);
    }
  }

  lemma {:induction false} SumShift(n: nat, f: nat -> int, g: nat -> int)
    requires n > 0 && forall k: nat :: k < n - 1 ==> g(k) == f(k + 1)
    ensures Sum(n, f) == f(0) + Sum(n - 1, g)
  {
    if n == 1 {
      assert Sum(1, f) == Sum(0, f) + f(0);
    } else {
      SumShift(n - 1, f, g);
      assert g(n - 2) == f(n - 1);
    }
  }

  // ----- Grouping -----

  function InGroup<T>(key: T -> nat, f: T -> int, k: nat): T -> int {
    (row: T) => if key(row) == k then f(row) else 0
  }

  function GroupTotal<T>(rows: seq<T>, key: T -> nat, f: T -> int): nat -> int {
    (k: nat) => Total(rows, InGroup(key, f, k))
  }

  /** GROUP BY adds up: the total is the sum of the totals of the groups. */
  lemma {:induction false} TotalByGroup<T>(rows: seq<T>, key: T -> nat, f: T -> int, n: nat)
    requires forall i :: 0 <= i < |rows| ==> key(rows[i]) < n
    ensures Total(rows, f) == Sum(n, GroupTotal(rows, key, f))
  {
    if rows == [] {
      SumZero(n, GroupTotal(rows, key, f));
    } else {
      var rest, last := rows[..|rows| - 1], rows[|rows| - 1];
      assert rows == rest + [last];
      TotalByGroup(rest, key, f, n);
      SumChange(n, GroupTotal(rest, key, f), GroupTotal(rows, key, f), key(last));
    }
  }

  lemma {:induction false} TotalScale<T>(rows: seq<T>, f: T -> int, c: int, g: T -> int)
    requires forall i :: 0 <= i < |rows| ==> g(rows[i]) == f(rows[i]) * c
    ensures Total(rows, g) == Total(rows, f) * c
  {
    if rows != [] {
      TotalScale(rows[..|rows| - 1], f, c, g);
    }
  }

  lemma {:induction false} SumAllZero(n: nat, f: nat -> int)
    requires forall k: nat :: k < n ==> f(k) >= 0
    requires Sum(n, f) == 0
    ensures forall k: nat :: k < n ==> f(k) == 0
  {
    forall k: nat | k < n ensures f(k) == 0 {
      SumTerm(n, f, k);
    }
  }
}
