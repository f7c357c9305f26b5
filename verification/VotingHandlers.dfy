/**
 The voting handlers as functions from state to state, and the invariant they keep.
 */
module VotingHandlers {
  import opened Optional
  import opened Totals
  import opened Voting

  // ---------------------------------------------------------------------
  // Leaving and joining
  // ---------------------------------------------------------------------

  /** A voter takes its votes back from its proxy or from its builders. */
  function Withdraw(s: State, a: Name): State
    requires a in s.voters && (s.voters[a].proxy != EMPTY_NAME ==> s.voters[a].proxy in s.voters)
  {
    var v := s.voters[a];
    if v.proxy == EMPTY_NAME then
      State(s.voters[a := v.(builders := [])], AddVotes(s.builders, v.builders, -Weight(v)))
    else
      var p := s.voters[v.proxy];
      State(s.voters[v.proxy := p.(proxied := p.proxied - v.staked)][a := v.(proxy := EMPTY_NAME)],
            if p.isProxy then AddVotes(s.builders, p.builders, -v.staked) else s.builders)
  }

  /** A voter without votes gives them to a proxy, or to a list of builders. */
  function Join(s: State, a: Name, proxy: Name, list: seq<Name>): State
    requires a in s.voters && (proxy != EMPTY_NAME ==> proxy in s.voters)
  {
    var v := s.voters[a];
    if proxy == EMPTY_NAME then
      State(s.voters[a := v.(builders := list)], AddVotes(s.builders, list, Weight(v)))
    else
      var p := s.voters[proxy];
      State(s.voters[proxy := p.(proxied := p.proxied + v.staked)][a := v.(proxy := proxy)],
            AddVotes(s.builders, p.builders, v.staked))
  }

  ghost predicate MayJoin(s: State, a: Name, proxy: Name, list: seq<Name>) {
    && a in s.voters && s.voters[a].proxy == EMPTY_NAME && s.voters[a].builders == []
    && StrictlySorted(list) && (forall b :: b in list ==> b in s.builders)
    && (proxy != EMPTY_NAME ==>
          list == [] && proxy in s.voters && proxy != a && s.voters[proxy].isProxy && !s.voters[a].isProxy)
  }

  lemma {:induction false} WithdrawKeepsInv(s: State, a: Name)
    requires Inv(s) && a in s.voters
    ensures s.voters[a].proxy != EMPTY_NAME ==> s.voters[a].proxy in s.voters
    ensures Inv(Withdraw(s, a))
  {
    assert RowOk(s, a);
    var t := Withdraw(s, a);
    forall b | b in t.builders ensures TotalOk(t, b) {
      assert TotalOk(s, b);
      TotalFollows(s, t, a, if s.voters[a].proxy == EMPTY_NAME then a else s.voters[a].proxy, b);
    }
    forall i | i in t.voters ensures RowOk(t, i) {
      WithdrawRow(s, a, i);
    }
  }

  lemma {:induction false} WithdrawRow(s: State, a: Name, i: Name)
    requires Inv(s) && a in s.voters && (s.voters[a].proxy != EMPTY_NAME ==> s.voters[a].proxy in s.voters)
    requires i in Withdraw(s, a).voters
    ensures RowOk(Withdraw(s, a), i)
  {
    assert RowOk(s, a) && RowOk(s, i);
    RowFollows(s, Withdraw(s, a), a, i);
  }

  lemma {:induction false} JoinKeepsInv(s: State, a: Name, proxy: Name, list: seq<Name>)
    requires Inv(s) && MayJoin(s, a, proxy, list)
    ensures Inv(Join(s, a, proxy, list))
  {
    var t := Join(s, a, proxy, list);
    forall b | b in t.builders ensures TotalOk(t, b) {
      assert TotalOk(s, b);
      TotalFollows(s, t, a, if proxy == EMPTY_NAME then a else proxy, b);
    }
    forall i | i in t.voters ensures RowOk(t, i) {
      JoinRow(s, a, proxy, list, i);
    }
  }

  lemma {:induction false} JoinRow(s: State, a: Name, proxy: Name, list: seq<Name>, i: Name)
    requires Inv(s) && MayJoin(s, a, proxy, list) && i in Join(s, a, proxy, list).voters
    ensures RowOk(Join(s, a, proxy, list), i)
  {
    assert RowOk(s, a) && RowOk(s, i);
    RowFollows(s, Join(s, a, proxy, list), a, i);
  }

  // ---------------------------------------------------------------------
  // Voting
  // ---------------------------------------------------------------------

  const MAX_BUILDERS_PER_VOTE := 30

  /** The entries of one sorted list that are not in another. */
  function Difference(a: seq<Name>, b: seq<Name>): (r: seq<Name>)
    ensures forall x :: x in r <==> x in a && x !in b
  {
    if a == [] then []
    else if a[0] in b then Difference(a[1..], b)
    else [a[0]] + Difference(a[1..], b)
  }

  /** The builders that currently have a voter's votes. */
  function OldBuilders(s: State, v: Voter): seq<Name> {
    Supported(s, v)
  }

  function NewBuilders(s: State, proxy: Name, list: seq<Name>): seq<Name> {
    if proxy == EMPTY_NAME then list else VoterOf(s, proxy).builders
  }

  predicate VoteFormOk(proxy: Name, list: seq<Name>) {
    if proxy != EMPTY_NAME then list == [] else |list| <= MAX_BUILDERS_PER_VOTE && StrictlySorted(list)
  }

  /** The voter has something to vote with, and a proxy does not use a proxy. */
  predicate MayVote(s: State, a: Name, proxy: Name) {
    && a in s.voters
    && (s.voters[a].staked > 0 || (s.voters[a].isProxy && s.voters[a].proxied > 0))
    && (s.voters[a].isProxy ==> proxy == EMPTY_NAME)
  }

  /** The chosen proxy is active; newly chosen builders are registered and, if chosen directly, active. */
  predicate TargetsOk(s: State, a: Name, proxy: Name, list: seq<Name>)
    requires a in s.voters
  {
    && (proxy != EMPTY_NAME ==> proxy in s.voters && s.voters[proxy].isProxy)
    && ElectedOk(s.builders, OldBuilders(s, s.voters[a]), NewBuilders(s, proxy, list), proxy == EMPTY_NAME)
  }

  predicate ElectedOk(builders: map<Name, Builder>, o: seq<Name>, n: seq<Name>, direct: bool) {
    forall b :: b in n && b !in o ==> b in builders && (direct ==> builders[b].active)
  }

  function VotersLeft(voters: map<Name, Voter>, a: Name): map<Name, Voter>
    requires a in voters && (voters[a].proxy != EMPTY_NAME ==> voters[a].proxy in voters)
  {
    var v := voters[a];
    if v.proxy == EMPTY_NAME then voters
    else voters[v.proxy := voters[v.proxy].(proxied := voters[v.proxy].proxied - v.staked)]
  }

  function VotersJoined(voters: map<Name, Voter>, proxy: Name, stake: int): map<Name, Voter>
    requires proxy != EMPTY_NAME ==> proxy in voters
  {
    if proxy == EMPTY_NAME then voters
    else voters[proxy := voters[proxy].(proxied := voters[proxy].proxied + stake)]
  }

  /** Moves the votes of `a`: only builders that lose or gain its support are touched. */
  function Moved(s: State, a: Name, proxy: Name, list: seq<Name>): State
    requires a in s.voters && (proxy != EMPTY_NAME ==> proxy in s.voters)
    requires s.voters[a].proxy != EMPTY_NAME ==> s.voters[a].proxy in s.voters
  {
    var v := s.voters[a];
    State(VotersJoined(VotersLeft(s.voters, a), proxy, v.staked)[a := v.(proxy := proxy, builders := list)],
          ShiftVotes(s.builders, OldBuilders(s, v), NewBuilders(s, proxy, list), Weight(v)))
  }

  /** Takes the weight from the builders that drop out and gives it to those that come in. */
  function ShiftVotes(builders: map<Name, Builder>, o: seq<Name>, n: seq<Name>, w: int): map<Name, Builder> {
    AddVotes(AddVotes(builders, Difference(o, n), -w), Difference(n, o), w)
  }

  function VoteBuilder(s: State, a: Name, proxy: Name, list: seq<Name>): Option<State>
    requires forall i :: i in s.voters && s.voters[i].proxy != EMPTY_NAME ==> s.voters[i].proxy in s.voters
  {
    if !VoteFormOk(proxy, list) || !MayVote(s, a, proxy) then None
    else if s.voters[a].proxy != EMPTY_NAME && s.voters[a].proxy == proxy then Some(s)
    else if TargetsOk(s, a, proxy, list) then Some(Moved(s, a, proxy, list))
    else None
  }

  /** Touching only the difference comes to the same as leaving and joining. */
  lemma {:induction false} MovedIsWithdrawJoin(s: State, a: Name, proxy: Name, list: seq<Name>)
    requires Inv(s) && MayVote(s, a, proxy) && VoteFormOk(proxy, list) && TargetsOk(s, a, proxy, list)
    requires !(s.voters[a].proxy != EMPTY_NAME && s.voters[a].proxy == proxy)
    requires s.voters[a].proxy != EMPTY_NAME ==> s.voters[a].proxy in s.voters
    ensures MayJoin(Withdraw(s, a), a, proxy, list)
    ensures Moved(s, a, proxy, list) == Join(Withdraw(s, a), a, proxy, list)
  {
    assert RowOk(s, a);
    NewAreRegistered(s, a, proxy, list);
    VotersMoved(s, a, proxy, list);
    TotalsMovedToo(s, a, proxy, list);
  }

  lemma {:induction false} WithdrawTotals(s: State, a: Name)
    requires a in s.voters &&
             (s.voters[a].proxy != EMPTY_NAME ==> s.voters[a].proxy in s.voters && !s.voters[a].isProxy)
    ensures Withdraw(s, a).builders == AddVotes(s.builders, OldBuilders(s, s.voters[a]), -Weight(s.voters[a]))
  {
    assert AddVotes(s.builders, [], -s.voters[a].staked) == s.builders;
  }

  lemma {:induction false} TotalsMovedToo(s: State, a: Name, proxy: Name, list: seq<Name>)
    requires a in s.voters && (proxy != EMPTY_NAME ==> proxy in s.voters && proxy != a && !s.voters[a].isProxy)
    requires s.voters[a].proxy != EMPTY_NAME ==>
               s.voters[a].proxy in s.voters && s.voters[a].proxy != proxy && s.voters[a].proxy != a &&
               !s.voters[a].isProxy
    ensures Moved(s, a, proxy, list).builders == Join(Withdraw(s, a), a, proxy, list).builders
  {
    var v, w := s.voters[a], Withdraw(s, a);
    var o, n := OldBuilders(s, v), NewBuilders(s, proxy, list);
    BuildersMoved(s.builders, o, n, Weight(v));
    WithdrawTotals(s, a);
    WithdrawnVoter(s, a, proxy);
    JoinTotals(w, a, proxy, list);
  }

  lemma {:induction false} WithdrawnVoter(s: State, a: Name, proxy: Name)
    requires a in s.voters && (proxy != EMPTY_NAME ==> proxy in s.voters && proxy != a && !s.voters[a].isProxy)
    requires s.voters[a].proxy != EMPTY_NAME ==> s.voters[a].proxy in s.voters && s.voters[a].proxy != a
    ensures var w := Withdraw(s, a);
            && a in w.voters && Weight(w.voters[a]) == Weight(s.voters[a])
            && (proxy != EMPTY_NAME ==>
                  proxy in w.voters && !w.voters[a].isProxy && VoterOf(w, proxy).builders == VoterOf(s, proxy).builders)
  {
  }

  lemma {:induction false} JoinTotals(s: State, a: Name, proxy: Name, list: seq<Name>)
    requires a in s.voters && (proxy != EMPTY_NAME ==> proxy in s.voters && !s.voters[a].isProxy)
    ensures Join(s, a, proxy, list).builders == AddVotes(s.builders, NewBuilders(s, proxy, list), Weight(s.voters[a]))
  {
  }

  lemma {:induction false} NewAreRegistered(s: State, a: Name, proxy: Name, list: seq<Name>)
    requires Inv(s) && MayVote(s, a, proxy) && VoteFormOk(proxy, list) && TargetsOk(s, a, proxy, list)
    ensures forall b :: b in list ==> b in s.builders
    ensures StrictlySorted(list)
  {
    assert RowOk(s, a);
    if s.voters[a].proxy != EMPTY_NAME {
      assert RowOk(s, s.voters[a].proxy);
    }
  }

  lemma {:induction false} VotersMoved(s: State, a: Name, proxy: Name, list: seq<Name>)
    requires a in s.voters && (proxy != EMPTY_NAME ==> proxy in s.voters && proxy != a && list == [])
    requires var p := s.voters[a].proxy;
             p != EMPTY_NAME ==> p in s.voters && p != proxy && p != a && s.voters[a].builders == []
    ensures Moved(s, a, proxy, list).voters == Join(Withdraw(s, a), a, proxy, list).voters
  {
    var x, y := Moved(s, a, proxy, list).voters, Join(Withdraw(s, a), a, proxy, list).voters;
    assert x.Keys == y.Keys;
    forall i | i in x ensures x[i] == y[i] {
    }
  }

  lemma {:induction false} BuildersMoved(builders: map<Name, Builder>, o: seq<Name>, n: seq<Name>, w: int)
    ensures ShiftVotes(builders, o, n, w) == AddVotes(AddVotes(builders, o, -w), n, w)
  {
    var x := ShiftVotes(builders, o, n, w);
    var y := AddVotes(AddVotes(builders, o, -w), n, w);
    forall b | b in builders ensures x[b] == y[b] {
    }
  }

  lemma {:induction false} VoteKeepsInv(s: State, a: Name, proxy: Name, list: seq<Name>)
    requires Inv(s)
    ensures forall i :: i in s.voters && s.voters[i].proxy != EMPTY_NAME ==> s.voters[i].proxy in s.voters
    ensures VoteBuilder(s, a, proxy, list).Some? ==> Inv(VoteBuilder(s, a, proxy, list).value)
  {
    ProxiesExist(s);
    if VoteFormOk(proxy, list) && MayVote(s, a, proxy)
       && !(s.voters[a].proxy != EMPTY_NAME && s.voters[a].proxy == proxy) && TargetsOk(s, a, proxy, list) {
      WithdrawKeepsInv(s, a);
      MovedIsWithdrawJoin(s, a, proxy, list);
      JoinKeepsInv(Withdraw(s, a), a, proxy, list);
    }
  }

  lemma {:induction false} ProxiesExist(s: State)
    requires Inv(s)
    ensures forall i :: i in s.voters && s.voters[i].proxy != EMPTY_NAME ==> s.voters[i].proxy in s.voters
  {
    forall i | i in s.voters && s.voters[i].proxy != EMPTY_NAME ensures s.voters[i].proxy in s.voters {
      assert RowOk(s, i);
    }
  }

  // ---------------------------------------------------------------------
  // Proxies and builders come and go
  // ---------------------------------------------------------------------

  function RegProxy(s: State, a: Name): Option<State> {
    if a !in s.voters then Some(s.(voters := s.voters[a := NEW_VOTER.(isProxy := true)]))
    else
      var v := s.voters[a];
      if v.isProxy || v.proxy != EMPTY_NAME then None
      else Some(State(s.voters[a := v.(isProxy := true)],
                      if v.proxied > 0 then AddVotes(s.builders, v.builders, v.proxied) else s.builders))
  }

  function UnregProxy(s: State, a: Name): Option<State> {
    if a !in s.voters || !s.voters[a].isProxy then None
    else
      var v := s.voters[a];
      Some(State(s.voters[a := v.(isProxy := false)],
                 if v.proxied > 0 then AddVotes(s.builders, v.builders, -v.proxied) else s.builders))
  }

  lemma {:induction false} ProxiedNotNegative(s: State, a: Name)
    requires Inv(s) && a in s.voters
    ensures s.voters[a].proxied >= 0
  {
    assert RowOk(s, a);
    forall k: nat | k < LIMIT ensures LentTo(s, a)(k) >= 0 {
      if k in s.voters {
        assert RowOk(s, k);
      }
    }
    TermAtMostTotal(LentTo(s, a), a);
  }

  lemma {:induction false} ProxyFlagKeepsInv(s: State, a: Name)
    requires Inv(s)
    ensures RegProxy(s, a).Some? ==> Inv(RegProxy(s, a).value)
    ensures UnregProxy(s, a).Some? ==> Inv(UnregProxy(s, a).value)
  {
    if RegProxy(s, a).Some? {
      FlagKeepsInv(s, RegProxy(s, a).value, a);
    }
    if UnregProxy(s, a).Some? {
      FlagKeepsInv(s, UnregProxy(s, a).value, a);
    }
  }

  lemma {:induction false} FlagKeepsInv(s: State, t: State, a: Name)
    requires Inv(s) && (RegProxy(s, a) == Some(t) || UnregProxy(s, a) == Some(t))
    ensures Inv(t)
  {
    if a in s.voters {
      ProxiedNotNegative(s, a);
    }
    forall b | b in t.builders ensures TotalOk(t, b) {
      FlagTotal(s, t, a, b);
    }
    forall i | i in t.voters ensures RowOk(t, i) {
      FlagRow(s, t, a, i);
    }
  }

  lemma {:induction false} FlagTotal(s: State, t: State, a: Name, b: Name)
    requires Inv(s) && (RegProxy(s, a) == Some(t) || UnregProxy(s, a) == Some(t)) && b in t.builders
    requires VoterOf(s, a).proxied >= 0
    ensures TotalOk(t, b)
  {
    assert TotalOk(s, b);
    TotalFollows(s, t, a, a, b);
  }

  lemma {:induction false} FlagRow(s: State, t: State, a: Name, i: Name)
    requires Inv(s) && (RegProxy(s, a) == Some(t) || UnregProxy(s, a) == Some(t)) && i in t.voters
    ensures RowOk(t, i)
  {
    ProxyExists(s, a);
    if i in s.voters {
      assert RowOk(s, i);
    }
    RowFollows(s, t, a, i);
  }

  function RegBuilder(s: State, b: Name, active: bool): State {
    if b in s.builders then s.(builders := s.builders[b := s.builders[b].(active := active)])
    else s.(builders := s.builders[b := Builder(0, active)])
  }

  function UnregBuilder(s: State, b: Name): Option<State> {
    if b !in s.builders then None
    else Some(s.(builders := s.builders[b := s.builders[b].(active := false)]))
  }

  /** Registration changes no votes, and a builder nobody could vote for starts from none. */
  lemma {:induction false} RegKeepsInv(s: State, b: Name, active: bool)
    requires Inv(s)
    ensures Inv(RegBuilder(s, b, active))
    ensures UnregBuilder(s, b).Some? ==> Inv(UnregBuilder(s, b).value)
  {
    BuilderRowKeepsInv(s, RegBuilder(s, b, active), b);
    if UnregBuilder(s, b).Some? {
      BuilderRowKeepsInv(s, UnregBuilder(s, b).value, b);
    }
  }

  lemma {:induction false} BuilderRowKeepsInv(s: State, t: State, b: Name)
    requires Inv(s) && t.voters == s.voters && t.builders.Keys == s.builders.Keys + {b}
    requires forall c :: c in t.builders ==> t.builders[c].votes == if c in s.builders then s.builders[c].votes else 0
    ensures Inv(t)
  {
    forall c | c in t.builders ensures TotalOk(t, c) {
      TotalSame(CastTo(s, c), CastTo(t, c));
      if c in s.builders {
        assert TotalOk(s, c);
      } else {
        forall i: nat | i < LIMIT ensures CastTo(s, c)(i) == 0 {
          if i in s.voters {
            assert RowOk(s, i);
          }
        }
        TotalZero(CastTo(s, c));
      }
    }
    forall i | i in t.voters ensures RowOk(t, i) {
      assert RowOk(s, i);
      TotalSame(LentTo(s, i), LentTo(t, i));
    }
  }

  // ---------------------------------------------------------------------
  // What becomes of rows and totals
  // ---------------------------------------------------------------------

  /** One voter's choice, flag and stakes are the same. */
  ghost predicate SameVoter(s: State, t: State, i: Name) {
    && (i in t.voters <==> i in s.voters)
    && (i in s.voters ==>
          && t.voters[i].proxy == s.voters[i].proxy && t.voters[i].builders == s.voters[i].builders
          && t.voters[i].isProxy == s.voters[i].isProxy
          && t.voters[i].staked == s.voters[i].staked && t.voters[i].unstaking == s.voters[i].unstaking)
  }

  /** The same builders are registered, with the same flags. */
  ghost predicate SameBuilders(s: State, t: State) {
    && t.builders.Keys == s.builders.Keys
    && forall b :: b in s.builders ==> t.builders[b].active == s.builders[b].active
  }

  /** What a builder gains when the supported list changes. */
  ghost function Gain(before: seq<Name>, after: seq<Name>, weight: int, b: Name): int {
    if b in after && b !in before then weight else if b in before && b !in after then -weight else 0
  }

  /** The voter had that proxy before. */
  ghost predicate SameProxy(s: State, a: Name, proxy: Name) {
    a in s.voters && s.voters[a].proxy != EMPTY_NAME && s.voters[a].proxy == proxy
  }

  /**
   After a vote the voter's row holds the proxy and the list voted for; nobody else's choice changes; and
   each total moves by the voter's weight exactly if the builder enters or leaves what the voter supports.
   */
  lemma {:induction false} VoteSays(s: State, a: Name, proxy: Name, list: seq<Name>)
    requires Inv(s) && ProxiesIn(s) && VoteBuilder(s, a, proxy, list).Some?
    ensures var t := VoteBuilder(s, a, proxy, list).value;
            && a in s.voters && a in t.voters
            && t.voters[a].isProxy == s.voters[a].isProxy && t.voters[a].staked == s.voters[a].staked
            && (SameProxy(s, a, proxy) ==> t == s)
            && (!SameProxy(s, a, proxy) ==> t.voters[a].proxy == proxy && t.voters[a].builders == list)
            && (forall i :: i != a ==> SameVoter(s, t, i))
            && SameBuilders(s, t)
            && forall b :: b in s.builders ==>
                             t.builders[b].votes == s.builders[b].votes +
                             Gain(Supported(s, s.voters[a]), Supported(t, t.voters[a]),
                                  Weight(s.voters[a]), b)
  {
    assert RowOk(s, a);
    var t := VoteBuilder(s, a, proxy, list).value;
    if !SameProxy(s, a, proxy) {
      SupportsList(s, a, proxy, list);
      forall i | i != a ensures SameVoter(s, t, i) {
      }
    }
  }

  ghost predicate ProxiesIn(s: State) {
    forall i :: i in s.voters && s.voters[i].proxy != EMPTY_NAME ==> s.voters[i].proxy in s.voters
  }

  lemma {:induction false} SupportsList(s: State, a: Name, proxy: Name, list: seq<Name>)
    requires Inv(s) && ProxiesIn(s) && a in s.voters && MayVote(s, a, proxy) && TargetsOk(s, a, proxy, list)
    ensures var t := Moved(s, a, proxy, list); Supported(t, t.voters[a]) == NewBuilders(s, proxy, list)
  {
    assert RowOk(s, a);
  }

  /** Exactly when a vote is accepted. */
  lemma {:induction false} VoteExactly(s: State, a: Name, proxy: Name, list: seq<Name>)
    requires ProxiesIn(s)
    ensures VoteBuilder(s, a, proxy, list).Some? <==>
            && (proxy != EMPTY_NAME ==> list == [])
            && (proxy == EMPTY_NAME ==> |list| <= 30 && forall i, j :: 0 <= i < j < |list| ==> list[i] < list[j])
            && a in s.voters
            && (s.voters[a].staked > 0 || (s.voters[a].isProxy && s.voters[a].proxied > 0))
            && (s.voters[a].isProxy ==> proxy == EMPTY_NAME)
            && (SameProxy(s, a, proxy) ||
                (&& (proxy != EMPTY_NAME ==> proxy in s.voters && s.voters[proxy].isProxy)
                 && forall b :: b in (if proxy == EMPTY_NAME then list else VoterOf(s, proxy).builders)
                                && b !in Supported(s, s.voters[a]) ==>
                                  b in s.builders && (proxy == EMPTY_NAME ==> s.builders[b].active)))
  {
  }

  /** Becoming and ceasing to be a proxy change one flag; totals move by the stake behind the proxy. */
  lemma {:induction false} ProxyFlagSays(s: State, a: Name)
    requires Inv(s)
    ensures RegProxy(s, a).Some? <==> a in s.voters ==> !s.voters[a].isProxy && s.voters[a].proxy == EMPTY_NAME
    ensures UnregProxy(s, a).Some? <==> a in s.voters && s.voters[a].isProxy
    ensures RegProxy(s, a).Some? ==> var t := RegProxy(s, a).value; FlagChanged(s, t, a, true)
    ensures UnregProxy(s, a).Some? ==> var t := UnregProxy(s, a).value; FlagChanged(s, t, a, false)
  {
    if a in s.voters {
      ProxiedNotNegative(s, a);
    }
  }

  /** Only the flag of `a` changes, and with it what it casts for its builders. */
  ghost predicate FlagChanged(s: State, t: State, a: Name, flag: bool) {
    && a in t.voters && t.voters[a] == VoterOf(s, a).(isProxy := flag)
    && (forall i :: i != a ==> SameVoter(s, t, i)) && SameBuilders(s, t)
    && forall b :: b in s.builders ==>
                     t.builders[b].votes == s.builders[b].votes +
                     if b !in VoterOf(s, a).builders then 0
                     else if flag then VoterOf(s, a).proxied else -VoterOf(s, a).proxied
  }

  /** Registering and withdrawing touch one builder's flag, and no votes. */
  lemma {:induction false} RegSays(s: State, b: Name, active: bool)
    ensures var t := RegBuilder(s, b, active);
            && t.voters == s.voters && t.builders.Keys == s.builders.Keys + {b} && t.builders[b].active == active
            && t.builders[b].votes == (if b in s.builders then s.builders[b].votes else 0)
            && forall c :: c in s.builders && c != b ==> t.builders[c] == s.builders[c]
    ensures UnregBuilder(s, b).Some? <==> b in s.builders
    ensures UnregBuilder(s, b).Some? ==>
              var t := UnregBuilder(s, b).value;
              && t.voters == s.voters && t.builders.Keys == s.builders.Keys && !t.builders[b].active
              && t.builders[b].votes == s.builders[b].votes
              && forall c :: c in s.builders && c != b ==> t.builders[c] == s.builders[c]
  {
  }
}
