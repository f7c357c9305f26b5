/**
 Pending transactions wait in a queue ordered by gas. For a block they are taken from the top
 into a pool of fixed size until the queue is empty or the next one would exceed the number of
 messages a block may hold.
 */
module GasQueue {

  const MAX_MESSAGES := 500

  datatype Tx = Tx(id: nat, gas: nat, messages: nat)

  predicate IsTop(pending: seq<Tx>, k: nat) {
    k < |pending| && forall i :: 0 <= i < |pending| ==> pending[i].gas <= pending[k].gas
  }

  function Without(pending: seq<Tx>, k: nat): seq<Tx>
    requires k < |pending|
  {
    pending[..k] + pending[k + 1..]
  }

  function Messages(txs: seq<Tx>): nat {
    if txs == [] then 0 else Messages(txs[..|txs| - 1]) + txs[|txs| - 1].messages
  }

  predicate HaveMessages(txs: seq<Tx>) {
    forall i :: 0 <= i < |txs| ==> txs[i].messages > 0
  }

  predicate NonIncreasing(txs: seq<Tx>) {
    forall i :: 0 < i < |txs| ==> txs[i - 1].gas >= txs[i].gas
  }

  /** Nothing is lost or taken twice. */
  ghost predicate Split(all: multiset<Tx>, taken: seq<Tx>, left: seq<Tx>) {
    multiset(taken) + multiset(left) == all
  }

  /** What was taken has no less gas than what is left. */
  predicate MostGasTaken(taken: seq<Tx>, left: seq<Tx>) {
    forall i, j :: 0 <= i < |taken| && 0 <= j < |left| ==> taken[i].gas >= left[j].gas
  }

  /** With at least one message each, there are no more transactions than messages. */
  lemma {:induction false} NoMoreThanMessages(txs: seq<Tx>)
    requires HaveMessages(txs)
    ensures |txs| <= Messages(txs)
  {
    if txs != [] {
      NoMoreThanMessages(txs[..|txs| - 1]);
    }
  }

  lemma {:induction false} SplitMore(all: multiset<Tx>, taken: seq<Tx>, left: seq<Tx>, k: nat)
    requires Split(all, taken, left) && k < |left|
    ensures Split(all, taken + [left[k]], Without(left, k))
  {
    assert left == left[..k] + [left[k]] + left[k + 1..];
  }

  lemma {:induction false} OrderMore(taken: seq<Tx>, left: seq<Tx>, k: nat)
    requires NonIncreasing(taken) && MostGasTaken(taken, left) && IsTop(left, k)
    ensures NonIncreasing(taken + [left[k]]) && MostGasTaken(taken + [left[k]], Without(left, k))
  {
  }

  lemma {:induction false} MessagesMore(taken: seq<Tx>, top: Tx)
    ensures Messages(taken + [top]) == Messages(taken) + top.messages
  {
    assert (taken + [top])[..|taken|] == taken;
  }

  ghost predicate Selecting(all: multiset<Tx>, taken: seq<Tx>, left: seq<Tx>) {
    && Split(all, taken, left) && NonIncreasing(taken) && MostGasTaken(taken, left)
    && HaveMessages(taken) && Messages(taken) <= MAX_MESSAGES
  }

  lemma {:induction false} OneMore(all: multiset<Tx>, taken: seq<Tx>, left: seq<Tx>, k: nat)
    requires Selecting(all, taken, left) && IsTop(left, k) && HaveMessages(left)
    requires Messages(taken) + left[k].messages <= MAX_MESSAGES
    ensures Selecting(all, taken + [left[k]], Without(left, k)) && |taken| < MAX_MESSAGES
    ensures Messages(taken + [left[k]]) == Messages(taken) + left[k].messages
  {
    NoMoreThanMessages(taken);
    SplitMore(all, taken, left, k);
    OrderMore(taken, left, k);
    MessagesMore(taken, left[k]);
  }

  datatype Pushed = Dropped | AppliedNow | Queued

  class Queue {
    var pending: seq<Tx>
    const pool: array<Tx>
    var count: nat

    ghost predicate Valid()
      reads this, pool
    {
      pool.Length == MAX_MESSAGES && count <= MAX_MESSAGES && HaveMessages(pending)
    }

    constructor ()
      ensures Valid() && pending == [] && count == 0 && fresh(pool)
    {
      pending := [];
      pool := new Tx[MAX_MESSAGES](i => Tx(0, 0, 0));
      count := 0;
    }

    /**
     A transaction that does not pass the checks, the first of which is that it has a message, is
     dropped; while a block is being built one that passes is applied at once, otherwise it is queued.
     */
    method Push(t: Tx, otherChecks: bool, building: bool) returns (r: Pushed)
      requires Valid()
      modifies this`pending
      ensures Valid()
      ensures r == if t.messages == 0 || !otherChecks then Dropped else if building then AppliedNow else Queued
      ensures pending == if r.Queued? then old(pending) + [t] else old(pending)
    {
      if t.messages == 0 || !otherChecks {
        return Dropped;
      }
      if building {
        return AppliedNow;
      }
      pending := pending + [t];
      return Queued;
    }

    /** A transaction with the most gas. */
    method Top() returns (k: nat)
      requires pending != []
      ensures IsTop(pending, k)
    {
      k := 0;
      for i := 1 to |pending|
        invariant k < i && forall j :: 0 <= j < i ==> pending[j].gas <= pending[k].gas
      {
        if pending[i].gas > pending[k].gas {
          k := i;
        }
      }
    }

    /**
     Nothing is lost or taken twice, the most gas goes first, the block is not overfull, and
     it stops only when nothing is left or the next one does not fit.
     */
    method Select()
      requires Valid()
      modifies this, pool
      ensures Valid()
      ensures Split(multiset(old(pending)), pool[..count], pending)
      ensures NonIncreasing(pool[..count]) && MostGasTaken(pool[..count], pending)
      ensures Messages(pool[..count]) <= MAX_MESSAGES
      ensures pending == []
              || exists k: nat :: IsTop(pending, k) && Messages(pool[..count]) + pending[k].messages > MAX_MESSAGES
    {
      ghost var all := multiset(pending);
      count := 0;
      var messages := 0;
      ghost var taken: seq<Tx> := [];
      while pending != []
        invariant Valid() && pool[..count] == taken
        invariant Selecting(all, taken, pending) && messages == Messages(taken)
        decreases |pending|
      {
        var k := Top();
        var top := pending[k];
        if messages + top.messages > MAX_MESSAGES {
          break;
        }
        OneMore(all, taken, pending, k);
        Take(k);
        messages := messages + top.messages;
        taken := taken + [top];
      }
    }

    method Take(k: nat)
      requires Valid() && k < |pending| && count < MAX_MESSAGES
      modifies this, pool
      ensures Valid() && pending == Without(old(pending), k)
      ensures count == old(count) + 1 && pool[..count] == old(pool[..count]) + [old(pending)[k]]
    {
      pool[count] := pending[k];
      count := count + 1;
      pending := Without(pending, k);
    }
  }
}
