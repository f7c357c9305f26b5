/** Sums over all names below a bound. */
module Sums {

  function SumTo(n: nat, f: nat -> int): int {
    if n == 0 then 0 else SumTo(n - 1, f) + f(n - 1)
  }

  lemma {:induction false} SumSame(n: nat, f: nat -> int, g: nat -> int)
    requires forall i :: 0 <= i < n ==> f(i) == g(i)
    ensures SumTo(n, f) == SumTo(n, g)
  {
    if n > 0 {
      SumSame(n - 1, f, g);
    }
  }

  /** Changing one term changes the sum by as much. */
  lemma {:induction false} SumChange(n: nat, f: nat -> int, g: nat -> int, k: nat)
    requires forall i :: 0 <= i < n && i != k ==> f(i) == g(i)
    ensures SumTo(n, g) == SumTo(n, f) + if k < n then g(k) - f(k) else 0
  {
    if n > 0 {
      SumChange(n - 1, f, g, k);
    }
  }

  /** Changing two terms. */
  lemma {:induction false} SumChange2(n: nat, f: nat -> int, g: nat -> int, k: nat, l: nat)
    requires k < n && l < n && k != l
    requires forall i :: 0 <= i < n && i != k && i != l ==> f(i) == g(i)
    ensures SumTo(n, g) == SumTo(n, f) + (g(k) - f(k)) + (g(l) - f(l))
  {
    var h := (i: nat) => if i == k then g(i) else f(i);
    SumChange(n, f, h, k);
    SumChange(n, h, g, l);
  }

  lemma {:induction false} SumAdd(n: nat, f: nat -> int, g: nat -> int, h: nat -> int)
    requires forall i :: 0 <= i < n ==> h(i) == f(i) + g(i)
    ensures SumTo(n, h) == SumTo(n, f) + SumTo(n, g)
  {
    if n > 0 {
      SumAdd(n - 1, f, g, h);
    }
  }

  lemma {:induction false} SumAtMost(n: nat, f: nat -> int, g: nat -> int)
    requires forall i :: 0 <= i < n ==> f(i) <= g(i)
    ensures SumTo(n, f) <= SumTo(n, g)
  {
    if n > 0 {
      SumAtMost(n - 1, f, g);
    }
  }

  lemma {:induction false} SumZero(n: nat, f: nat -> int)
    requires forall i :: 0 <= i < n ==> f(i) == 0
    ensures SumTo(n, f) == 0
  {
    if n > 0 {
      SumZero(n - 1, f);
    }
  }

  /** A term of a sum of non-negative terms is at most the sum. */
  lemma {:induction false} TermAtMostSum(n: nat, f: nat -> int, k: nat)
    requires k < n && forall i :: 0 <= i < n ==> f(i) >= 0
    ensures 0 <= f(k) <= SumTo(n, f)
  {
    var z := (i: nat) => 0;
    var h := (i: nat) => if i == k then f(k) else 0;
    SumZero(n, z);
    SumChange(n, z, h, k);
    SumAtMost(n, h, f);
  }

  /** The order of summation does not matter. */
  lemma {:induction false} SumSwap(n: nat, m: nat, f: (nat, nat) -> int, rows: nat -> int, columns: nat -> int)
    requires forall i :: 0 <= i < n ==> rows(i) == SumTo(m, (j: nat) => f(i, j))
    requires forall j :: 0 <= j < m ==> columns(j) == SumTo(n, (i: nat) => f(i, j))
    ensures SumTo(n, rows) == SumTo(m, columns)
    decreases n
  {
    if n == 0 {
      SumZero(m, columns);
    } else {
      var above := (j: nat) => columns(j) - f(n - 1, j);
      SumSwap(n - 1, m, f, rows, above);
      SumAdd(m, above, (j: nat) => f(n - 1, j), columns);
      assert rows(n - 1) == SumTo(m, (j: nat) => f(n - 1, j));
    }
  }
}
