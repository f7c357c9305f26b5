/**
 Votes for builders, given directly or through a proxy.

 Each builder keeps a running total and each proxy the running stake behind it. The
 handlers adjust these totals; the functions below say by how much, and the lemmas show
 that after every handler the totals are the sums they stand for.
 */
module Voting {
  import opened Optional
  import opened Totals

  datatype Voter = Voter(
    proxy: Name,
    isProxy: bool,
    proxied: int,
    builders: seq<Name>,
    staked: int,
    unstaking: int)

  /** The row a fresh account starts from. */
  const NEW_VOTER := Voter(EMPTY_NAME, false, 0, [], 0, 0)

  datatype Builder = Builder(votes: int, active: bool)

  datatype State = State(voters: map<Name, Voter>, builders: map<Name, Builder>)

  function VoterOf(s: State, i: nat): Voter {
    if i < LIMIT && i in s.voters then s.voters[i] else NEW_VOTER
  }

  // ---------------------------------------------------------------------
  // What the running totals stand for
  // ---------------------------------------------------------------------

  /** The votes a voter casts: its stake and, as an active proxy, the stake behind it. */
  function Weight(v: Voter): int {
    v.staked + if v.isProxy then v.proxied else 0
  }

  function Cast(v: Voter, b: Name): int {
    if b in v.builders then Weight(v) else 0
  }

  function CastTo(s: State, b: Name): nat -> int {
    (i: nat) => Cast(VoterOf(s, i), b)
  }

  function Lent(v: Voter, p: Name): int {
    if v.proxy == p != EMPTY_NAME then v.staked else 0
  }

  function LentTo(s: State, p: Name): nat -> int {
    (i: nat) => Lent(VoterOf(s, i), p)
  }

  predicate StrictlySorted(names: seq<Name>) {
    forall i, j :: 0 <= i < j < |names| ==> names[i] < names[j]
  }

  /** One voter's row: votes go to registered builders, or through an existing proxy that is not one's own. */
  ghost predicate RowOk(s: State, i: Name)
    requires i in s.voters
  {
    var v := s.voters[i];
    && v.staked >= 0 && v.unstaking == 0
    && StrictlySorted(v.builders) && (forall b :: b in v.builders ==> b in s.builders)
    && (v.proxy != EMPTY_NAME ==> v.builders == [] && !v.isProxy && v.proxy in s.voters && v.proxy != i)
    && v.proxied == Total(LentTo(s, i))
  }

  ghost predicate RowsOk(s: State) {
    forall i {:trigger RowOk(s, i)} :: i in s.voters ==> RowOk(s, i)
  }

  /** One builder's total is the sum of what the voters cast for it. */
  ghost predicate TotalOk(s: State, b: Name)
    requires b in s.builders
  {
    s.builders[b].votes == Total(CastTo(s, b))
  }

  ghost predicate TotalsOk(s: State) {
    forall b {:trigger TotalOk(s, b)} :: b in s.builders ==> TotalOk(s, b)
  }

  /** What every reachable state satisfies. */
  ghost predicate Inv(s: State) {
    RowsOk(s) && TotalsOk(s)
  }

  // ---------------------------------------------------------------------
  // The reference: every stake counts once, where its owner wants it
  // ---------------------------------------------------------------------

  /** The builders a voter's stake supports: its own choice, or its proxy's while the proxy is active. */
  function Supported(s: State, v: Voter): seq<Name> {
    if v.proxy == EMPTY_NAME then v.builders
    else if VoterOf(s, v.proxy).isProxy then VoterOf(s, v.proxy).builders
    else []
  }

  function StakeFor(s: State, b: Name): nat -> int {
    (i: nat) => if b in Supported(s, VoterOf(s, i)) then VoterOf(s, i).staked else 0
  }

  function StakeOf(s: State): nat -> int {
    (i: nat) => VoterOf(s, i).staked
  }

  /** The stake that supports `b` through the proxy `p`. */
  function Through(s: State, b: Name, p: nat, i: nat): int {
    var q := VoterOf(s, p);
    if p < LIMIT && q.isProxy && b in q.builders then Lent(VoterOf(s, i), p) else 0
  }

  function OwnStake(s: State, b: Name): nat -> int {
    (i: nat) => if b in VoterOf(s, i).builders then VoterOf(s, i).staked else 0
  }

  function AsProxy(s: State, b: Name): nat -> int {
    (p: nat) => if b in VoterOf(s, p).builders && VoterOf(s, p).isProxy then VoterOf(s, p).proxied else 0
  }

  function ViaProxy(s: State, b: Name): nat -> int {
    (i: nat) => StakeFor(s, b)(i) - OwnStake(s, b)(i)
  }

  /** A builder's total is the sum of the stakes that support it, each counted once. */
  lemma {:induction false} TotalIsSupport(s: State, b: Name)
    requires Inv(s) && b in s.builders
    ensures s.builders[b].votes == Total(StakeFor(s, b))
  {
    assert TotalOk(s, b);
    TotalAdd(OwnStake(s, b), AsProxy(s, b), CastTo(s, b));
    TotalAdd(OwnStake(s, b), ViaProxy(s, b), StakeFor(s, b));
    ProxiesLendAll(s, b);
  }

  /** What the proxies cast for others is what the others lend: the same sum by rows and by columns. */
  lemma {:induction false} ProxiesLendAll(s: State, b: Name)
    requires Inv(s)
    ensures Total(AsProxy(s, b)) == Total(ViaProxy(s, b))
  {
    var f := (p: nat, i: nat) => Through(s, b, p, i);
    forall p: nat | p < LIMIT ensures AsProxy(s, b)(p) == Total((i: nat) => f(p, i)) {
      ProxyRow(s, b, p);
      TotalSame((i: nat) => Through(s, b, p, i), (i: nat) => f(p, i));
    }
    forall i: nat | i < LIMIT ensures ViaProxy(s, b)(i) == Total((p: nat) => f(p, i)) {
      VoterColumn(s, b, i);
      TotalSame((p: nat) => Through(s, b, p, i), (p: nat) => f(p, i));
    }
    TotalSwap(f, AsProxy(s, b), ViaProxy(s, b));
  }

  lemma {:induction false} ProxyRow(s: State, b: Name, p: nat)
    requires Inv(s) && p < LIMIT
    ensures Total((i: nat) => Through(s, b, p, i))
         == if b in VoterOf(s, p).builders && VoterOf(s, p).isProxy then VoterOf(s, p).proxied else 0
  {
    if b in VoterOf(s, p).builders && VoterOf(s, p).isProxy {
      assert RowOk(s, p);
      TotalSame((i: nat) => Through(s, b, p, i), LentTo(s, p));
    } else {
      TotalZero((i: nat) => Through(s, b, p, i));
    }
  }

  lemma {:induction false} VoterColumn(s: State, b: Name, i: nat)
    requires Inv(s) && i < LIMIT
    ensures Total((p: nat) => Through(s, b, p, i))
         == StakeFor(s, b)(i) - if b in VoterOf(s, i).builders then VoterOf(s, i).staked else 0
  {
    var v := VoterOf(s, i);
    var column := (p: nat) => Through(s, b, p, i);
    if i in s.voters {
      assert RowOk(s, i);
    }
    if v.proxy == EMPTY_NAME {
      TotalZero(column);
    } else {
      var z := (p: nat) => 0;
      TotalZero(z);
      TotalChange(z, column, v.proxy);
    }
  }

  /** No total is negative and none exceeds the stake of all voters. */
  lemma {:induction false} TotalsBounded(s: State, b: Name)
    requires Inv(s) && b in s.builders
    ensures 0 <= s.builders[b].votes <= Total(StakeOf(s))
  {
    TotalIsSupport(s, b);
    forall i: nat | i < LIMIT ensures 0 <= StakeFor(s, b)(i) <= StakeOf(s)(i) {
      if i in s.voters {
        assert RowOk(s, i);
      }
    }
    TotalAtMost(StakeFor(s, b), StakeOf(s));
    var z := (i: nat) => 0;
    TotalZero(z);
    TotalAtMost(z, StakeFor(s, b));
  }

  /** The stake behind a proxy is not negative and covers each of its users. */
  lemma {:induction false} ProxiedCovers(s: State, i: Name)
    requires Inv(s) && i in s.voters && s.voters[i].proxy != EMPTY_NAME
    ensures var p := s.voters[i].proxy;
            p in s.voters && 0 <= s.voters[i].staked <= s.voters[p].proxied
  {
    assert RowOk(s, i);
    var p := s.voters[i].proxy;
    assert RowOk(s, p);
    forall k: nat | k < LIMIT ensures LentTo(s, p)(k) >= 0 {
      if k in s.voters {
        assert RowOk(s, k);
      }
    }
    TermAtMostTotal(LentTo(s, p), i);
  }

  // ---------------------------------------------------------------------
  // Changing one voter, and the proxy it uses
  // ---------------------------------------------------------------------

  /** Adds the same amount to every listed builder. */
  function AddVotes(builders: map<Name, Builder>, list: seq<Name>, amount: int): map<Name, Builder> {
    map b | b in builders :: if b in list then builders[b].(votes := builders[b].votes + amount) else builders[b]
  }

  /** Every other voter is as before. */
  ghost predicate OthersSame(s: State, t: State, x: nat, y: nat) {
    forall i: nat :: i != x && i != y ==> VoterOf(t, i) == VoterOf(s, i)
  }

  /** A total moved by what the changed voters cast more or less. */
  ghost predicate TotalMoved(s: State, t: State, x: nat, y: nat, b: Name)
    requires b in s.builders && b in t.builders
  {
    t.builders[b].votes == s.builders[b].votes
    + Cast(VoterOf(t, x), b) - Cast(VoterOf(s, x), b)
    + if y == x then 0 else Cast(VoterOf(t, y), b) - Cast(VoterOf(s, y), b)
  }

  lemma {:induction false} TotalFollows(s: State, t: State, x: nat, y: nat, b: Name)
    requires b in s.builders && b in t.builders && TotalOk(s, b)
    requires x < LIMIT && y < LIMIT && OthersSame(s, t, x, y) && TotalMoved(s, t, x, y, b)
    ensures TotalOk(t, b)
  {
    CastFollows(s, t, x, y, b);
  }

  lemma {:induction false} CastFollows(s: State, t: State, x: nat, y: nat, b: Name)
    requires x < LIMIT && y < LIMIT && OthersSame(s, t, x, y)
    ensures Total(CastTo(t, b)) == Total(CastTo(s, b))
                                   + Cast(VoterOf(t, x), b) - Cast(VoterOf(s, x), b)
                                   + if y == x then 0 else Cast(VoterOf(t, y), b) - Cast(VoterOf(s, y), b)
  {
    if x == y {
      TotalChange(CastTo(s, b), CastTo(t, b), x);
    } else {
      TotalChange2(CastTo(s, b), CastTo(t, b), x, y);
    }
  }

  /** Only `x` changed its stake or its proxy. */
  ghost predicate LendersSame(s: State, t: State, x: nat) {
    forall i: nat :: i != x ==>
                       VoterOf(t, i).staked == VoterOf(s, i).staked && VoterOf(t, i).proxy == VoterOf(s, i).proxy
  }

  lemma {:induction false} LentFollows(s: State, t: State, x: nat, p: Name)
    requires x < LIMIT && LendersSame(s, t, x)
    ensures Total(LentTo(t, p)) == Total(LentTo(s, p)) + Lent(VoterOf(t, x), p) - Lent(VoterOf(s, x), p)
  {
    TotalChange(LentTo(s, p), LentTo(t, p), x);
  }

  /** A row is right again if its own fields are, and the stake behind it moved with the lender. */
  lemma {:induction false} RowFollows(s: State, t: State, x: nat, i: Name)
    requires Inv(s) && x < LIMIT && LendersSame(s, t, x) && i in t.voters && t.builders.Keys == s.builders.Keys
    requires i in s.voters || (forall k :: k in s.voters ==> s.voters[k].proxy != i || i == EMPTY_NAME)
    requires var v, u := VoterOf(t, i), VoterOf(s, i);
             && v.staked >= 0 && v.unstaking == 0
             && StrictlySorted(v.builders) && (forall b :: b in v.builders ==> b in s.builders)
             && (v.proxy != EMPTY_NAME ==> v.builders == [] && !v.isProxy && v.proxy in t.voters && v.proxy != i)
             && v.proxied == u.proxied + Lent(VoterOf(t, x), i) - Lent(VoterOf(s, x), i)
    ensures RowOk(t, i)
  {
    LentFollows(s, t, x, i);
    if i in s.voters {
      assert RowOk(s, i);
    } else {
      TotalZero(LentTo(s, i));
    }
  }

  // ---------------------------------------------------------------------
  // More or less stake
  // ---------------------------------------------------------------------

  /** The stake of an account changes, and with it what its proxy or its builders have. */
  function Adjust(s: State, a: Name, delta: int): State
    requires VoterOf(s, a).proxy != EMPTY_NAME ==> VoterOf(s, a).proxy in s.voters && VoterOf(s, a).proxy != a
  {
    var v := VoterOf(s, a);
    var voters := s.voters[a := v.(staked := v.staked + delta)];
    if v.proxy == EMPTY_NAME then State(voters, AddVotes(s.builders, v.builders, delta))
    else
      var p := s.voters[v.proxy];
      State(voters[v.proxy := p.(proxied := p.proxied + delta)],
            if p.isProxy then AddVotes(s.builders, p.builders, delta) else s.builders)
  }

  lemma {:induction false} ProxyExists(s: State, a: Name)
    requires Inv(s)
    ensures VoterOf(s, a).proxy != EMPTY_NAME ==> VoterOf(s, a).proxy in s.voters && VoterOf(s, a).proxy != a
    ensures a !in s.voters ==> forall k :: k in s.voters ==> s.voters[k].proxy != a || a == EMPTY_NAME
  {
    if a in s.voters {
      assert RowOk(s, a);
    } else {
      forall k | k in s.voters ensures s.voters[k].proxy != a || a == EMPTY_NAME {
        assert RowOk(s, k);
      }
    }
  }

  lemma {:induction false} AdjustKeepsInv(s: State, a: Name, delta: int)
    requires Inv(s) && VoterOf(s, a).staked + delta >= 0
    requires VoterOf(s, a).proxy != EMPTY_NAME ==> VoterOf(s, a).proxy in s.voters && VoterOf(s, a).proxy != a
    ensures Inv(Adjust(s, a, delta))
  {
    var t := Adjust(s, a, delta);
    AdjustTotals(s, a, delta);
    forall i | i in t.voters ensures RowOk(t, i) {
      AdjustRow(s, a, delta, i);
    }
  }

  lemma {:induction false} AdjustTotals(s: State, a: Name, delta: int)
    requires Inv(s)
    requires VoterOf(s, a).proxy != EMPTY_NAME ==> VoterOf(s, a).proxy in s.voters && VoterOf(s, a).proxy != a
    ensures TotalsOk(Adjust(s, a, delta))
  {
    var t := Adjust(s, a, delta);
    var p := VoterOf(s, a).proxy;
    if a in s.voters {
      assert RowOk(s, a);
    }
    forall b | b in t.builders ensures TotalOk(t, b) {
      assert TotalOk(s, b);
      TotalFollows(s, t, a, if p == EMPTY_NAME then a else p, b);
    }
  }

  lemma {:induction false} AdjustRow(s: State, a: Name, delta: int, i: Name)
    requires Inv(s) && VoterOf(s, a).staked + delta >= 0
    requires VoterOf(s, a).proxy != EMPTY_NAME ==> VoterOf(s, a).proxy in s.voters && VoterOf(s, a).proxy != a
    requires i in Adjust(s, a, delta).voters
    ensures RowOk(Adjust(s, a, delta), i)
  {
    ProxyExists(s, a);
    if i in s.voters {
      assert RowOk(s, i);
    }
    RowFollows(s, Adjust(s, a, delta), a, i);
  }
}
