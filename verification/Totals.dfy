/**
 Sums over all account names.

 A total is a value of its own: a proof that needs its terms asks for them.
 */
module Totals {
  import opened Sums

  /** Account names are 64-bit words; zero is the empty name. */
  const LIMIT := 0x1_0000_0000_0000_0000
  type Name = n: nat | n < LIMIT witness 0
  const EMPTY_NAME: Name := 0

  /** A trigger: a total is related to the sum of its terms only where a proof asserts it. */
  predicate TotalHint(n: nat) {
    n == LIMIT
  }

  ghost predicate IsTotal(f: nat -> int, total: int) {
    forall n: nat {:trigger TotalHint(n)} :: TotalHint(n) ==> total == SumTo(n, f)
  }

  ghost function Total(f: nat -> int): int {
    assert IsTotal(f, SumTo(LIMIT, f));
    var total :| IsTotal(f, total);
    total
  }

  lemma {:induction false} TotalIsSum(f: nat -> int)
    ensures Total(f) == SumTo(LIMIT, f)
  {
    assert TotalHint(LIMIT);
  }

  lemma {:induction false} TotalSame(f: nat -> int, g: nat -> int)
    requires forall i :: 0 <= i < LIMIT ==> f(i) == g(i)
    ensures Total(f) == Total(g)
  {
    TotalIsSum(f);
    TotalIsSum(g);
    SumSame(LIMIT, f, g);
  }

  /** Changing one term changes the total by as much. */
  lemma {:induction false} TotalChange(f: nat -> int, g: nat -> int, k: nat)
    requires k < LIMIT && forall i :: 0 <= i < LIMIT && i != k ==> f(i) == g(i)
    ensures Total(g) == Total(f) + g(k) - f(k)
  {
    TotalIsSum(f);
    TotalIsSum(g);
    SumChange(LIMIT, f, g, k);
  }

  lemma {:induction false} TotalChange2(f: nat -> int, g: nat -> int, k: nat, l: nat)
    requires k < LIMIT && l < LIMIT && k != l
    requires forall i :: 0 <= i < LIMIT && i != k && i != l ==> f(i) == g(i)
    ensures Total(g) == Total(f) + (g(k) - f(k)) + (g(l) - f(l))
  {
    TotalIsSum(f);
    TotalIsSum(g);
    SumChange2(LIMIT, f, g, k, l);
  }

  lemma {:induction false} TotalAdd(f: nat -> int, g: nat -> int, h: nat -> int)
    requires forall i :: 0 <= i < LIMIT ==> h(i) == f(i) + g(i)
    ensures Total(h) == Total(f) + Total(g)
  {
    TotalIsSum(f);
    TotalIsSum(g);
    TotalIsSum(h);
    SumAdd(LIMIT, f, g, h);
  }

  lemma {:induction false} TotalAtMost(f: nat -> int, g: nat -> int)
    requires forall i :: 0 <= i < LIMIT ==> f(i) <= g(i)
    ensures Total(f) <= Total(g)
  {
    TotalIsSum(f);
    TotalIsSum(g);
    SumAtMost(LIMIT, f, g);
  }

  lemma {:induction false} TotalZero(f: nat -> int)
    requires forall i :: 0 <= i < LIMIT ==> f(i) == 0
    ensures Total(f) == 0
  {
    TotalIsSum(f);
    SumZero(LIMIT, f);
  }

  /** A term of a total of non-negative terms is at most the total. */
  lemma {:induction false} TermAtMostTotal(f: nat -> int, k: nat)
    requires k < LIMIT && forall i :: 0 <= i < LIMIT ==> f(i) >= 0
    ensures 0 <= f(k) <= Total(f)
  {
    TotalIsSum(f);
    TermAtMostSum(LIMIT, f, k);
  }

  /** Summing by rows and by columns gives the same. */
  lemma {:induction false} TotalSwap(f: (nat, nat) -> int, rows: nat -> int, columns: nat -> int)
    requires forall i :: 0 <= i < LIMIT ==> rows(i) == Total((j: nat) => f(i, j))
    requires forall j :: 0 <= j < LIMIT ==> columns(j) == Total((i: nat) => f(i, j))
    ensures Total(rows) == Total(columns)
  {
    forall i | 0 <= i < LIMIT ensures rows(i) == SumTo(LIMIT, (j: nat) => f(i, j)) {
      TotalIsSum((j: nat) => f(i, j));
    }
    forall j | 0 <= j < LIMIT ensures columns(j) == SumTo(LIMIT, (i: nat) => f(i, j)) {
      TotalIsSum((i: nat) => f(i, j));
    }
    TotalIsSum(rows);
    TotalIsSum(columns);
    SumSwap(LIMIT, LIMIT, f, rows, columns);
  }
}
