/**
 The handlers of the system contract, working on the table rows one after the other.

 A handler that returns false has thrown: its transaction is undone, rows it may have
 touched included. A handler that returns true has done what its specification says.
 */
module NativeContract {
  import opened Optional
  import opened Totals
  import opened Voting
  import opened VotingHandlers
  import opened Ledger

  /** Entries of one sorted list missing from another, by walking both. */
  method SetDifference(a: seq<Name>, b: seq<Name>) returns (r: seq<Name>)
    requires StrictlySorted(a) && StrictlySorted(b)
    ensures StrictlySorted(r)
    ensures forall x :: x in r <==> x in a && x !in b
  {
    r := [];
    var i, j := 0, 0;
    while i < |a|
      invariant 0 <= i <= |a| && 0 <= j <= |b|
      invariant StrictlySorted(r) && (i < |a| ==> forall k :: 0 <= k < |r| ==> r[k] < a[i])
      invariant forall x :: x in r <==> x in a[..i] && x !in b
      invariant i < |a| ==> forall k :: 0 <= k < j ==> b[k] < a[i]
      decreases |a| - i + |b| - j
    {
      if j == |b| || a[i] < b[j] {
        r := r + [a[i]];
        i := i + 1;
      } else if b[j] < a[i] {
        j := j + 1;
      } else {
        i := i + 1;
        j := j + 1;
      }
    }
    assert a[..i] == a;
  }

  /** Sortedness as a vote is checked for it, neighbour by neighbour. */
  method CheckSorted(list: seq<Name>) returns (ok: bool)
    ensures ok == StrictlySorted(list)
  {
    var i := 1;
    while i < |list|
      invariant 1 <= i && (i <= |list| || list == [])
      invariant i <= |list| ==> StrictlySorted(list[..i])
    {
      if list[i - 1] >= list[i] {
        return false;
      }
      i := i + 1;
    }
    assert |list| > 0 ==> list[..|list|] == list;
    return true;
  }

  class Contract {
    var accounts: set<Name>
    var main: map<Name, int>
    var resources: map<Name, Resource>
    var voters: map<Name, Voter>
    var builders: map<Name, Builder>

    function Votes(): State
      reads this
    {
      State(voters, builders)
    }

    function Rows(): Books
      reads this
    {
      Books(accounts, main, resources, Votes())
    }

    // -------------------------------------------------------------------
    // Votes
    // -------------------------------------------------------------------

    /** Adds to the total of every listed builder. */
    method AddToBuilders(list: seq<Name>, amount: int) returns (ok: bool)
      requires StrictlySorted(list)
      modifies this`builders
      ensures ok == forall b :: b in list ==> b in old(builders)
      ensures ok ==> builders == AddVotes(old(builders), list, amount)
    {
      ghost var was := builders;
      for k := 0 to |list|
        invariant forall b :: b in list[..k] ==> b in was
        invariant builders == AddVotes(was, list[..k], amount)
      {
        var b := list[k];
        if b !in builders {
          return false;
        }
        AddOneMore(was, list, k, amount);
        builders := builders[b := builders[b].(votes := builders[b].votes + amount)];
      }
      assert list[..|list|] == list;
      return true;
    }

    /** Passes a change of stake on to the account's proxy, or to its builders. */
    method PassOn(a: Name, amount: int) returns (ok: bool)
      requires a in voters && WellLinked(Votes(), a)
      modifies this`voters, this`builders
      ensures ok
      ensures Votes() == PassedOn(old(Votes()), a, amount)
    {
      ghost var was := Votes();
      var list := [];
      var p := voters[a].proxy;
      if p != EMPTY_NAME {
        voters := voters[p := voters[p].(proxied := voters[p].proxied + amount)];
        if voters[p].isProxy {
          list := voters[p].builders;
        }
      } else {
        list := voters[a].builders;
      }
      ok := AddToBuilders(list, amount);
      AddToNone(was.builders, amount);
    }

    method IncreaseVotes(a: Name, amount: int) returns (ok: bool)
      requires Inv(Votes())
      modifies this`voters, this`builders
      ensures ok && ProxyFound(old(Votes()), a)
      ensures Votes() == Ledger.IncreaseVotes(old(Votes()), a, amount)
      ensures StakeChanged(old(Votes()), Votes(), a, amount)
    {
      ProxyExists(Votes(), a);
      IncreaseSays(Votes(), a, amount);
      ghost var was := Votes();
      RowsLinked(was, a, amount);
      if a in voters {
        voters := voters[a := voters[a].(staked := voters[a].staked + amount)];
      } else {
        voters := voters[a := NEW_VOTER.(staked := amount)];
      }
      assert voters[a] == VoterOf(was, a).(staked := VoterOf(was, a).staked + amount);
      ok := PassOn(a, amount);
    }

    method DecreaseVotes(a: Name, amount: int) returns (ok: bool)
      requires Inv(Votes())
      modifies this`voters, this`builders
      ensures ProxyFound(old(Votes()), a)
      ensures ok == Ledger.DecreaseVotes(old(Votes()), a, amount).Some?
      ensures ok ==> Votes() == Ledger.DecreaseVotes(old(Votes()), a, amount).value
      ensures ok <==> a in old(voters) && (amount > 0 ==> amount <= old(voters)[a].staked)
      ensures ok && amount > 0 ==> StakeChanged(old(Votes()), Votes(), a, -amount)
      ensures ok && amount <= 0 ==> Votes() == old(Votes())
    {
      ProxyExists(Votes(), a);
      DecreaseSays(Votes(), a, amount);
      RowsLinked(Votes(), a, -amount);
      if a !in voters {
        return false;
      }
      if amount > 0 {
        if amount > voters[a].staked {
          return false;
        }
        voters := voters[a := voters[a].(staked := voters[a].staked - amount)];
        ok := PassOn(a, -amount);
      } else {
        var v := voters[a];
        voters := voters[a := v.(staked := v.staked + v.unstaking, unstaking := 0)];
        ok := true;
      }
    }

    /**
     A vote. The row of the voter then holds what was voted for, nobody else's choice changes, and each
     total moves by the weight of the voter exactly if the builder enters or leaves what the voter supports.
     */
    method VoteBuilder(a: Name, proxy: Name, list: seq<Name>) returns (ok: bool)
      requires Inv(Votes())
      modifies this`voters, this`builders
      ensures ProxiesFound(old(voters))
      ensures ok == VotingHandlers.VoteBuilder(old(Votes()), a, proxy, list).Some?
      ensures ok ==> Votes() == VotingHandlers.VoteBuilder(old(Votes()), a, proxy, list).value
      ensures ok ==> Inv(Votes()) && a in old(voters) && a in voters
      ensures ok && SameProxy(old(Votes()), a, proxy) ==> Votes() == old(Votes())
      ensures ok && !SameProxy(old(Votes()), a, proxy) ==> voters[a].proxy == proxy && voters[a].builders == list
      ensures ok ==> voters[a].isProxy == old(voters)[a].isProxy && voters[a].staked == old(voters)[a].staked
      ensures ok ==> SameBuilders(old(Votes()), Votes()) && forall i :: i != a ==> SameVoter(old(Votes()), Votes(), i)
      ensures ok ==> forall b :: b in builders ==>
                                   builders[b].votes == old(builders)[b].votes +
                                   Gain(Supported(old(Votes()), old(voters)[a]),
                                        Supported(Votes(), voters[a]), Weight(old(voters)[a]), b)
    {
      ProxiesExist(Votes());
      VoteKeepsInv(Votes(), a, proxy, list);
      if VotingHandlers.VoteBuilder(Votes(), a, proxy, list).Some? {
        VoteSays(Votes(), a, proxy, list);
      }
      ok := CastVote(a, proxy, list);
    }

    method CastVote(a: Name, proxy: Name, list: seq<Name>) returns (ok: bool)
      requires Inv(Votes())
      modifies this`voters, this`builders
      ensures ProxiesFound(old(voters))
      ensures ok == VotingHandlers.VoteBuilder(old(Votes()), a, proxy, list).Some?
      ensures ok ==> Votes() == VotingHandlers.VoteBuilder(old(Votes()), a, proxy, list).value
    {
      ghost var was := Votes();
      ProxiesExist(was);
      if proxy != EMPTY_NAME {
        if |list| != 0 {
          return false;
        }
      } else {
        if |list| > MAX_BUILDERS_PER_VOTE {
          return false;
        }
        var sorted := CheckSorted(list);
        if !sorted {
          return false;
        }
      }
      if a !in voters || !(voters[a].staked > 0 || (voters[a].isProxy && voters[a].proxied > 0)) {
        return false;
      }
      if voters[a].isProxy && proxy != EMPTY_NAME {
        return false;
      }
      if voters[a].proxy != EMPTY_NAME && voters[a].proxy == proxy {
        return true;
      }
      ListsSorted(was, a, proxy);
      ok := ChangeVote(a, proxy, list);
    }

    /** The part of a vote after its form and the voter have been checked. */
    method ChangeVote(a: Name, proxy: Name, list: seq<Name>) returns (ok: bool)
      requires VoteFormOk(proxy, list) && MayVote(Votes(), a, proxy) && VoterReady(Votes(), a, proxy)
      modifies this`voters, this`builders
      ensures ok == TargetsOk(old(Votes()), a, proxy, list)
      ensures ok ==> Votes() == Moved(old(Votes()), a, proxy, list)
    {
      ghost var was := Votes();
      var known, before, after := ChangeProxy(a, proxy, list);
      if !known {
        return false;
      }
      assert StrictlySorted(before) && StrictlySorted(after);
      var votes := voters[a].staked + if voters[a].isProxy then voters[a].proxied else 0;
      ok := ShiftBuilders(before, after, votes, proxy == EMPTY_NAME);
      if ok {
        voters := voters[a := voters[a].(proxy := proxy, builders := list)];
        assert builders == Moved(was, a, proxy, list).builders;
        assert voters == Moved(was, a, proxy, list).voters;
      }
    }

    /** Takes the stake from the proxy used so far and gives it to the chosen one, if there is one. */
    method ChangeProxy(a: Name, proxy: Name, list: seq<Name>) returns (ok: bool, before: seq<Name>, after: seq<Name>)
      requires a in voters && (proxy != EMPTY_NAME ==> !voters[a].isProxy)
      requires voters[a].proxy != EMPTY_NAME ==> voters[a].proxy in voters && voters[a].proxy != a
      modifies this`voters
      ensures ok == (proxy != EMPTY_NAME ==> proxy in old(voters) && old(voters)[proxy].isProxy)
      ensures ok ==> before == OldBuilders(old(Votes()), old(voters)[a]) &&
                     after == NewBuilders(old(Votes()), proxy, list)
      ensures ok ==> voters == VotersJoined(VotersLeft(old(voters), a), proxy, old(voters)[a].staked)
      ensures ok ==> a in voters && voters[a] == old(voters)[a]
    {
      var p := voters[a].proxy;
      before := voters[a].builders;
      if p != EMPTY_NAME {
        before := if voters[p].isProxy then voters[p].builders else [];
        voters := voters[p := voters[p].(proxied := voters[p].proxied - voters[a].staked)];
      }
      after := list;
      if proxy != EMPTY_NAME {
        if proxy !in voters || !voters[proxy].isProxy {
          return false, before, after;
        }
        after := voters[proxy].builders;
        voters := voters[proxy := voters[proxy].(proxied := voters[proxy].proxied + voters[a].staked)];
      }
      ok := true;
    }

    /** Takes the votes from the builders that drop out and gives them to those that come in. */
    method ShiftBuilders(before: seq<Name>, after: seq<Name>, votes: int, direct: bool) returns (ok: bool)
      requires StrictlySorted(before) && StrictlySorted(after) && forall b :: b in before ==> b in builders
      modifies this`builders
      ensures ok == ElectedOk(old(builders), before, after, direct)
      ensures ok ==> builders == ShiftVotes(old(builders), before, after, votes)
    {
      ghost var was := builders;
      var revoked := SetDifference(before, after);
      var found := AddToBuilders(revoked, -votes);
      SameEntries(was, revoked, Difference(before, after), -votes);
      var elected := SetDifference(after, before);
      SameEntries(builders, elected, Difference(after, before), votes);
      ok := AddToElected(elected, votes, direct);
    }

    method AddToElected(elected: seq<Name>, votes: int, direct: bool) returns (ok: bool)
      requires StrictlySorted(elected)
      modifies this`builders
      ensures ok == ElectedOk(old(builders), [], elected, direct)
      ensures ok ==> builders == AddVotes(old(builders), elected, votes)
    {
      ghost var was := builders;
      for k := 0 to |elected|
        invariant forall b :: b in elected[..k] ==> b in was && (direct ==> was[b].active)
        invariant builders == AddVotes(was, elected[..k], votes)
      {
        var b := elected[k];
        if b !in builders || (direct && !builders[b].active) {
          return false;
        }
        AddOneMore(was, elected, k, votes);
        builders := builders[b := builders[b].(votes := builders[b].votes + votes)];
      }
      assert elected[..|elected|] == elected;
      return true;
    }

    method RegProxy(a: Name) returns (ok: bool)
      requires Inv(Votes())
      modifies this`voters, this`builders
      ensures ok == VotingHandlers.RegProxy(old(Votes()), a).Some?
      ensures ok ==> Votes() == VotingHandlers.RegProxy(old(Votes()), a).value
      ensures ok <==> a in old(voters) ==> !old(voters)[a].isProxy && old(voters)[a].proxy == EMPTY_NAME
      ensures ok ==> Inv(Votes()) && FlagChanged(old(Votes()), Votes(), a, true)
    {
      ProxyFlagKeepsInv(Votes(), a);
      ProxyFlagSays(Votes(), a);
      if a !in voters {
        voters := voters[a := NEW_VOTER.(isProxy := true)];
        return true;
      }
      assert RowOk(Votes(), a);
      if voters[a].isProxy || voters[a].proxy != EMPTY_NAME {
        return false;
      }
      voters := voters[a := voters[a].(isProxy := true)];
      ok := true;
      if voters[a].proxied > 0 {
        ok := AddToBuilders(voters[a].builders, voters[a].proxied);
      }
    }

    method UnregProxy(a: Name) returns (ok: bool)
      requires Inv(Votes())
      modifies this`voters, this`builders
      ensures ok == VotingHandlers.UnregProxy(old(Votes()), a).Some?
      ensures ok ==> Votes() == VotingHandlers.UnregProxy(old(Votes()), a).value
      ensures ok <==> a in old(voters) && old(voters)[a].isProxy
      ensures ok ==> Inv(Votes()) && FlagChanged(old(Votes()), Votes(), a, false)
    {
      ProxyFlagKeepsInv(Votes(), a);
      ProxyFlagSays(Votes(), a);
      if a !in voters || !voters[a].isProxy {
        return false;
      }
      assert RowOk(Votes(), a);
      voters := voters[a := voters[a].(isProxy := false)];
      ok := true;
      if voters[a].proxied > 0 {
        ok := AddToBuilders(voters[a].builders, -voters[a].proxied);
      }
    }

    method RegBuilder(b: Name, active: bool)
      modifies this`builders
      ensures Votes() == VotingHandlers.RegBuilder(old(Votes()), b, active)
      ensures builders == old(builders)[b := Builder(if b in old(builders) then old(builders)[b].votes else 0, active)]
    {
      if b in builders {
        builders := builders[b := builders[b].(active := active)];
      } else {
        builders := builders[b := Builder(0, active)];
      }
    }

    method UnregBuilder(b: Name) returns (ok: bool)
      modifies this`builders
      ensures ok == VotingHandlers.UnregBuilder(old(Votes()), b).Some?
      ensures Votes() == if ok then VotingHandlers.UnregBuilder(old(Votes()), b).value else old(Votes())
      ensures ok <==> b in old(builders)
      ensures ok ==> builders == old(builders)[b := Builder(old(builders)[b].votes, false)]
    {
      if b !in builders {
        return false;
      }
      builders := builders[b := builders[b].(active := false)];
      return true;
    }

    // -------------------------------------------------------------------
    // Tokens
    // -------------------------------------------------------------------

    method Transfer(from: Name, to: Name, amount: nat) returns (ok: bool)
      modifies this`main
      ensures ok == Ledger.Transfer(old(Rows()), from, to, amount).Some?
      ensures ok ==> Rows() == Ledger.Transfer(old(Rows()), from, to, amount).value
      ensures !ok ==> Rows() == old(Rows())
      ensures ok <==> amount > 0 && from in old(main) && to in old(main) && old(main)[from] >= amount
      ensures ok ==> Paid(old(main), main, from, to, amount)
    {
      PaymentSays(Rows(), from, to, amount);
      if amount == 0 || from !in main || main[from] < amount || to !in main {
        return false;
      }
      main := main[from := main[from] - amount];
      main := main[to := main[to] + amount];
      return true;
    }

    method PayGas(payer: Name, builder: Name, gas: nat) returns (ok: bool)
      modifies this`main
      ensures ok == Ledger.PayGas(old(Rows()), payer, builder, gas).Some?
      ensures Rows() == if ok then Ledger.PayGas(old(Rows()), payer, builder, gas).value else old(Rows())
      ensures ok <==> gas == 0 || (payer in old(main) && builder in old(main) && old(main)[payer] >= gas)
      ensures ok ==> Paid(old(main), main, payer, builder, gas)
    {
      PaymentSays(Rows(), payer, builder, gas);
      if gas == 0 {
        return true;
      }
      if payer !in main || builder !in main || main[payer] < gas {
        return false;
      }
      main := main[payer := main[payer] - gas];
      main := main[builder := main[builder] + gas];
      return true;
    }

    method Lock(from: Name, to: Name, amount: int) returns (ok: bool)
      requires Inv(Votes())
      modifies this
      ensures ProxyFound(old(Votes()), to)
      ensures ok == Ledger.Lock(old(Rows()), from, to, amount).Some?
      ensures Rows() == if ok then Ledger.Lock(old(Rows()), from, to, amount).value else old(Rows())
      ensures ok <==> amount > 0 && from in old(main) && old(main)[from] >= amount && to in old(resources)
      ensures ok ==> StakeChanged(old(Votes()), Votes(), to, amount)
      ensures ok ==> main == old(main)[from := old(main)[from] - amount]
      ensures ok ==> var r := old(resources)[to];
                     resources == old(resources)[to := Resource(r.locked + amount, r.unlocked)]
    {
      ProxyExists(Votes(), to);
      LockSays(Rows(), from, to, amount);
      if amount <= 0 || from !in main || main[from] < amount || to !in resources {
        return false;
      }
      main := main[from := main[from] - amount];
      resources := resources[to := resources[to].(locked := resources[to].locked + amount)];
      ok := IncreaseVotes(to, amount);
    }

    method Unlock(a: Name, amount: int) returns (ok: bool)
      requires Inv(Votes())
      modifies this
      ensures ProxyFound(old(Votes()), a)
      ensures ok == Ledger.Unlock(old(Rows()), a, amount).Some?
      ensures ok ==> Rows() == Ledger.Unlock(old(Rows()), a, amount).value
      ensures ok <==> && amount >= 0 && a in old(resources) && old(resources)[a].locked >= amount
                      && a in old(voters) && (amount > 0 ==> old(voters)[a].staked >= amount)
      ensures ok ==> main == old(main)
      ensures ok ==> var r := old(resources)[a];
                     resources == old(resources)[a := Resource(r.locked - amount, r.unlocked + amount)]
      ensures ok && amount > 0 ==> StakeChanged(old(Votes()), Votes(), a, -amount)
    {
      ProxyExists(Votes(), a);
      UnlockSays(Rows(), a, amount);
      if amount < 0 || a !in resources || resources[a].locked < amount {
        return false;
      }
      var r := resources[a];
      resources := resources[a := Resource(r.locked - amount, r.unlocked + amount)];
      ok := DecreaseVotes(a, amount);
    }

    method AddAccount(creator: Name, name: Name, deposit: int) returns (ok: bool)
      modifies this`accounts, this`main
      ensures ok == Ledger.AddAccount(old(Rows()), creator, name, deposit).Some?
      ensures ok ==> Rows() == Ledger.AddAccount(old(Rows()), creator, name, deposit).value
      ensures ok <==> && name !in old(accounts) && name !in old(main) && deposit > 0
                      && creator in old(main) && old(main)[creator] >= deposit
      ensures ok ==> accounts == old(accounts) + {name} && main.Keys == old(main).Keys + {name}
      ensures ok ==> main[name] == deposit
      ensures ok ==> forall i :: i in old(main) ==> main[i] == old(main)[i] - if i == creator then deposit else 0
    {
      AddAccountSays(Rows(), creator, name, deposit);
      if name in accounts || deposit <= 0 {
        return false;
      }
      accounts := accounts + {name};
      if creator !in main || main[creator] < deposit {
        return false;
      }
      main := main[creator := main[creator] - deposit];
      if name in main {
        return false;
      }
      main := main[name := deposit];
      return true;
    }
  }

  /** The lists a change of `a`'s stake reaches are sorted lists of registered builders. */
  ghost predicate WellLinked(s: State, a: Name) {
    var p := VoterOf(s, a).proxy;
    && ListOk(s, VoterOf(s, a).builders)
    && (p != EMPTY_NAME ==> p in s.voters && p != a && ListOk(s, s.voters[p].builders))
  }

  ghost predicate ListOk(s: State, list: seq<Name>) {
    StrictlySorted(list) && forall b :: b in list ==> b in s.builders
  }

  function PassedOn(s: State, a: Name, amount: int): State
    requires VoterOf(s, a).proxy != EMPTY_NAME ==> VoterOf(s, a).proxy in s.voters
  {
    var v := VoterOf(s, a);
    if v.proxy == EMPTY_NAME then State(s.voters, AddVotes(s.builders, v.builders, amount))
    else
      var p := s.voters[v.proxy];
      State(s.voters[v.proxy := p.(proxied := p.proxied + amount)],
            if p.isProxy then AddVotes(s.builders, p.builders, amount) else s.builders)
  }

  /** Changing the stake first and passing it on afterwards is the adjustment of the whole. */
  lemma {:induction false} RowsLinked(s: State, a: Name, delta: int)
    requires Inv(s)
    ensures ProxyFound(s, a)
    ensures var v := VoterOf(s, a);
            var t := s.(voters := s.voters[a := v.(staked := v.staked + delta)]);
            WellLinked(t, a) && PassedOn(t, a, delta) == Adjust(s, a, delta)
  {
    ProxyExists(s, a);
    if a in s.voters {
      assert RowOk(s, a);
    }
    if VoterOf(s, a).proxy != EMPTY_NAME {
      assert RowOk(s, VoterOf(s, a).proxy);
    }
  }

  ghost predicate ProxiesFound(voters: map<Name, Voter>) {
    forall i :: i in voters && voters[i].proxy != EMPTY_NAME ==> voters[i].proxy in voters
  }

  /** The lists a vote of `a` takes votes from and may give them to are in order. */
  ghost predicate VoterReady(s: State, a: Name, proxy: Name)
    requires a in s.voters
  {
    && ListOk(s, OldBuilders(s, s.voters[a])) && ListOk(s, VoterOf(s, proxy).builders)
    && (s.voters[a].proxy != EMPTY_NAME ==> s.voters[a].proxy in s.voters && s.voters[a].proxy != a)
  }

  lemma {:induction false} ListsSorted(s: State, a: Name, proxy: Name)
    requires Inv(s) && a in s.voters
    ensures VoterReady(s, a, proxy)
  {
    assert RowOk(s, a);
    if s.voters[a].proxy != EMPTY_NAME {
      assert RowOk(s, s.voters[a].proxy);
    }
    if proxy in s.voters {
      assert RowOk(s, proxy);
    }
  }

  lemma {:induction false} AddOneMore(builders: map<Name, Builder>, list: seq<Name>, k: nat, amount: int)
    requires StrictlySorted(list) && k < |list| && list[k] in builders
    ensures var done := AddVotes(builders, list[..k], amount);
            AddVotes(builders, list[..k + 1], amount)
            == done[list[k] := done[list[k]].(votes := done[list[k]].votes + amount)]
  {
    var done := AddVotes(builders, list[..k], amount);
    var more := AddVotes(builders, list[..k + 1], amount);
    assert list[..k + 1] == list[..k] + [list[k]];
    assert list[k] !in list[..k];
    forall b | b in builders
      ensures more[b] == done[list[k] := done[list[k]].(votes := done[list[k]].votes + amount)][b]
    {
    }
  }

  lemma {:induction false} AddToNone(builders: map<Name, Builder>, amount: int)
    ensures AddVotes(builders, [], amount) == builders
  {
  }

  /** Only which builders are listed matters. */
  lemma {:induction false} SameEntries(builders: map<Name, Builder>, a: seq<Name>, b: seq<Name>, amount: int)
    requires forall x :: x in a <==> x in b
    ensures AddVotes(builders, a, amount) == AddVotes(builders, b, amount)
  {
  }
}
