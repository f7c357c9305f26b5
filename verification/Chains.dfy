/**
 Following a map from key to key until it leads out of the map.

 Typedefs and struct inheritance are such chains. A chain is walked with a list of what was
 seen; a repeated name means that the chain never ends.
 */
module Chains {

  type Next = map<string, string>

  /** The chain from `t` leaves the map within `n` steps. */
  predicate EndsWithin(next: Next, t: string, n: nat)
    decreases n
  {
    t !in next || (n > 0 && EndsWithin(next, next[t], n - 1))
  }

  ghost predicate Ends(next: Next, t: string) {
    exists n: nat :: EndsWithin(next, t, n)
  }

  ghost predicate AllEnd(next: Next) {
    forall t {:trigger Ends(next, t)} :: Ends(next, t)
  }

  lemma {:induction false} EndsLater(next: Next, t: string, n: nat, m: nat)
    requires EndsWithin(next, t, n) && n <= m
    ensures EndsWithin(next, t, m)
    decreases n
  {
    if t in next {
      EndsLater(next, next[t], n - 1, m - 1);
    }
  }

  lemma {:induction false} EndsNext(next: Next, t: string)
    requires t in next
    ensures Ends(next, t) <==> Ends(next, next[t])
  {
    if Ends(next, t) {
      var n: nat :| EndsWithin(next, t, n);
      assert EndsWithin(next, next[t], n - 1);
    }
    if Ends(next, next[t]) {
      var n: nat :| EndsWithin(next, next[t], n);
      assert EndsWithin(next, t, n + 1);
    }
  }

  predicate IsRank(next: Next, t: string, r: nat) {
    EndsWithin(next, t, r) && (r == 0 || !EndsWithin(next, t, r - 1))
  }

  lemma {:induction false} SomeRank(next: Next, t: string, n: nat)
    requires EndsWithin(next, t, n)
    ensures exists r: nat :: IsRank(next, t, r)
  {
    if n > 0 && EndsWithin(next, t, n - 1) {
      SomeRank(next, t, n - 1);
    } else {
      assert IsRank(next, t, n);
    }
  }

  /** The number of steps to the end of a chain. */
  ghost function Rank(next: Next, t: string): (r: nat)
    requires Ends(next, t)
    ensures IsRank(next, t, r)
  {
    var n: nat :| EndsWithin(next, t, n);
    SomeRank(next, t, n);
    var r: nat :| IsRank(next, t, r);
    r
  }

  lemma {:induction false} RankStep(next: Next, t: string)
    requires Ends(next, t) && t in next
    ensures Ends(next, next[t]) && Rank(next, next[t]) < Rank(next, t)
  {
    EndsNext(next, t);
    var r := Rank(next, t);
    assert EndsWithin(next, next[t], r - 1);
    if Rank(next, next[t]) >= r {
      EndsLater(next, next[t], r - 1, Rank(next, next[t]) - 1);
    }
  }

  // ---------------------------------------------------------------------
  // A walk with a list of what was seen
  // ---------------------------------------------------------------------

  ghost predicate Walk(next: Next, seen: seq<string>) {
    forall i :: 0 <= i < |seen| - 1 ==> seen[i] in next && next[seen[i]] == seen[i + 1]
  }

  /** Along a walk, all end or none does. */
  lemma {:induction false} WalkEnds(next: Next, seen: seq<string>, i: nat, j: nat)
    requires Walk(next, seen) && i <= j < |seen|
    ensures Ends(next, seen[i]) <==> Ends(next, seen[j])
    ensures Ends(next, seen[i]) && i < j ==> Rank(next, seen[j]) < Rank(next, seen[i])
    decreases j - i
  {
    if i < j {
      EndsNext(next, seen[i]);
      if Ends(next, seen[i]) {
        RankStep(next, seen[i]);
      }
      WalkEnds(next, seen, i + 1, j);
    }
  }

  /** A walk that comes back to where it has been goes on for ever. */
  lemma {:induction false} RepeatNeverEnds(next: Next, seen: seq<string>, i: nat)
    requires Walk(next, seen) && i < |seen| - 1 && seen[i] == seen[|seen| - 1]
    ensures !Ends(next, seen[0])
  {
    WalkEnds(next, seen, i, |seen| - 1);
    WalkEnds(next, seen, 0, i);
  }

  lemma {:induction false} WalkOn(next: Next, trail: seq<string>, at: string)
    requires Walk(next, trail + [at]) && at in next
    ensures Walk(next, trail + [at] + [next[at]])
  {
    var seen := trail + [at] + [next[at]];
    forall i | 0 <= i < |seen| - 1 ensures seen[i] in next && next[seen[i]] == seen[i + 1] {
      if i < |trail| {
        assert (trail + [at])[i] == seen[i] && (trail + [at])[i + 1] == seen[i + 1];
      }
    }
  }

  /** A walk ends if its last name is not a key. */
  lemma {:induction false} WalkedToEnd(next: Next, trail: seq<string>, at: string)
    requires Walk(next, trail + [at]) && at !in next
    ensures Ends(next, (trail + [at])[0])
  {
    assert EndsWithin(next, at, 0);
    WalkEnds(next, trail + [at], 0, |trail|);
  }

  /** A walk whose next step is back to a name it has seen does not end. */
  lemma {:induction false} WalkedInCircle(next: Next, trail: seq<string>, at: string)
    requires Walk(next, trail + [at]) && at in next && next[at] in trail + [at]
    ensures !Ends(next, (trail + [at])[0])
  {
    WalkOn(next, trail, at);
    var i :| 0 <= i < |trail + [at]| && (trail + [at])[i] == next[at];
    RepeatNeverEnds(next, trail + [at] + [next[at]], i);
  }

  /** The keys a walk has not gone through yet: fewer with every step to a new name. */
  ghost function Ahead(next: Next, seen: seq<string>): set<string> {
    next.Keys - (set t | t in seen)
  }

  lemma {:induction false} FewerAhead(next: Next, seen: seq<string>, t: string)
    requires t in next && t !in seen
    ensures |Ahead(next, seen + [t])| < |Ahead(next, seen)|
  {
    var b, a := Ahead(next, seen), Ahead(next, seen + [t]);
    assert t in b && a == b - {t};
  }

  // ---------------------------------------------------------------------
  // One key more
  // ---------------------------------------------------------------------

  /** The chain from `t` ends, within `n` steps, in the name `a`. */
  predicate EndsAt(next: Next, t: string, n: nat, a: string)
    decreases n
  {
    if t in next then n > 0 && EndsAt(next, next[t], n - 1, a) else t == a
  }

  ghost predicate LeadsTo(next: Next, t: string, a: string) {
    exists n: nat :: EndsAt(next, t, n, a)
  }

  /** A chain that ends in a map ends in every part of it. */
  lemma {:induction false} EndsInSmaller(next: Next, more: Next, t: string, n: nat)
    requires EndsWithin(more, t, n) && forall k :: k in next ==> k in more && more[k] == next[k]
    ensures EndsWithin(next, t, n)
    decreases n
  {
    if t in next {
      EndsInSmaller(next, more, next[t], n - 1);
    }
  }

  /** A chain that ends elsewhere ends as before when one key is added. */
  lemma {:induction false} EndsElsewhere(next: Next, a: string, u: string, t: string, n: nat)
    requires a !in next && EndsWithin(next, t, n) && !EndsAt(next, t, n, a)
    ensures EndsWithin(next[a := u], t, n)
    decreases n
  {
    if t in next {
      EndsElsewhere(next, a, u, next[t], n - 1);
    }
  }

  /** A chain that ends in the added key goes on with its value. */
  lemma {:induction false} EndsOn(next: Next, a: string, u: string, t: string, n: nat, m: nat)
    requires a !in next && EndsWithin(next, t, n) && EndsWithin(next[a := u], u, m)
    ensures EndsWithin(next[a := u], t, n + m + 1)
    decreases n
  {
    if t in next {
      EndsOn(next, a, u, next[t], n - 1, m);
    } else {
      EndsLater(next[a := u], u, m, n + m);
    }
  }

  /** Where a chain leads to `a` in the smaller map, `a` ends no later than it in the larger one. */
  lemma {:induction false} LeadsThere(next: Next, a: string, u: string, t: string, n: nat)
    requires a !in next && EndsAt(next, t, n, a) && Ends(next[a := u], t)
    ensures Ends(next[a := u], a) && Rank(next[a := u], a) <= Rank(next[a := u], t)
    decreases n
  {
    if t in next {
      RankStep(next[a := u], t);
      LeadsThere(next, a, u, next[t], n - 1);
    }
  }

  /** With one key more, all chains still end exactly if the chain of its value does not end in the key. */
  lemma {:induction false} OneKeyMore(next: Next, a: string, u: string)
    requires a !in next && AllEnd(next)
    ensures AllEnd(next[a := u]) <==> !LeadsTo(next, u, a)
  {
    var more := next[a := u];
    if LeadsTo(next, u, a) && AllEnd(more) {
      var n: nat :| EndsAt(next, u, n, a);
      assert Ends(more, u) && Ends(more, a);
      LeadsThere(next, a, u, u, n);
      RankStep(more, a);
    }
    if !LeadsTo(next, u, a) {
      assert Ends(next, u);
      var m: nat :| EndsWithin(next, u, m);
      EndsElsewhere(next, a, u, u, m);
      forall t ensures Ends(more, t) {
        assert Ends(next, t);
        var n: nat :| EndsWithin(next, t, n);
        EndsOn(next, a, u, t, n, m);
      }
    }
  }

  lemma {:induction false} NotAllEndStays(next: Next, more: Next)
    requires AllEnd(more) && forall k :: k in next ==> k in more && more[k] == next[k]
    ensures AllEnd(next)
  {
    forall t ensures Ends(next, t) {
      assert Ends(more, t);
      var n: nat :| EndsWithin(more, t, n);
      EndsInSmaller(next, more, t, n);
    }
  }
}
