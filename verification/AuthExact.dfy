/**
 Exactly when the authority checker accepts.

 What it remembers is everything below the authorities that passed before. It descends into an
 authority only if that is not remembered; so it accepts exactly if everything below the declared
 authorities is in order and no descent through authorities not met before goes deeper than three.
 */
module AuthExact {
  import opened Optional
  import opened Authority

  /** Everything at or below `p` exists and has enough weight. */
  ghost predicate Fine(rules: Rules, keys: set<Key>, p: Permission) {
    forall q :: Leads(rules, p, q) ==> q in rules && Enough(keys, rules[q])
  }

  ghost predicate AllFine(rules: Rules, keys: set<Key>, list: seq<Permission>) {
    forall i :: 0 <= i < |list| ==> Fine(rules, keys, list[i])
  }

  /** `q` is at or below one of those met before. */
  ghost predicate Met(rules: Rules, before: seq<Permission>, q: Permission) {
    exists i :: 0 <= i < |before| && Leads(rules, before[i], q)
  }

  function Auths(list: seq<AccountWeight>): seq<Permission> {
    seq(|list|, i requires 0 <= i < |list| => list[i].auth)
  }

  /** No descent from `p` through authorities not met before needs more than `left` levels. */
  ghost predicate Shallow(rules: Rules, p: Permission, left: nat, before: seq<Permission>)
    decreases left, 0
  {
    left > 0 && (p in rules ==> AllShallow(rules, Auths(rules[p].accounts), left - 1, before))
  }

  ghost predicate AllShallow(rules: Rules, list: seq<Permission>, left: nat, before: seq<Permission>)
    decreases left, 1 + |list|
  {
    list == [] ||
    (&& (Met(rules, before, list[0]) || Shallow(rules, list[0], left, before))
     && AllShallow(rules, list[1..], left, before + [list[0]]))
  }

  /** What is remembered is what has been met. */
  ghost predicate Remembers(rules: Rules, cache: Cache, before: seq<Permission>) {
    forall q :: q in cache <==> Met(rules, before, q)
  }

  // ---------------------------------------------------------------------
  // Small facts
  // ---------------------------------------------------------------------

  lemma {:induction false} MetMore(rules: Rules, before: seq<Permission>, more: seq<Permission>, q: Permission)
    ensures Met(rules, before + more, q) <==> Met(rules, before, q) || Met(rules, more, q)
  {
    var all := before + more;
    if Met(rules, before, q) {
      var i :| 0 <= i < |before| && Leads(rules, before[i], q);
      assert Leads(rules, all[i], q);
    }
    if Met(rules, more, q) {
      var i :| 0 <= i < |more| && Leads(rules, more[i], q);
      assert Leads(rules, all[|before| + i], q);
    }
    if i :| 0 <= i < |all| && Leads(rules, all[i], q) {
      if i >= |before| {
        assert Leads(rules, more[i - |before|], q);
      }
    }
  }

  lemma {:induction false} MetOne(rules: Rules, p: Permission, q: Permission)
    ensures Met(rules, [p], q) <==> Leads(rules, p, q)
  {
    if Leads(rules, p, q) {
      assert Leads(rules, [p][0], q);
    }
  }

  /** What has been met is closed: whatever it leads to has been met. */
  lemma {:induction false} MetOn(rules: Rules, before: seq<Permission>, p: Permission, q: Permission)
    requires Met(rules, before, p) && Leads(rules, p, q)
    ensures Met(rules, before, q)
  {
    var i :| 0 <= i < |before| && Leads(rules, before[i], p);
    var n: nat :| LeadsIn(rules, before[i], p, n);
    LeadsOn(rules, before[i], p, q, n);
  }

  /** Below an authority is the authority and what is below those it lists. */
  lemma {:induction false} MetBelow(rules: Rules, p: Permission, q: Permission)
    requires p in rules
    ensures Leads(rules, p, q) <==> p == q || Met(rules, Auths(rules[p].accounts), q)
  {
    LeadsStep(rules, p, q);
    var list := Auths(rules[p].accounts);
    assert forall i :: 0 <= i < |list| ==> list[i] == rules[p].accounts[i].auth;
  }

  lemma {:induction false} FineStep(rules: Rules, keys: set<Key>, p: Permission)
    ensures Fine(rules, keys, p) <==>
            p in rules && Enough(keys, rules[p]) && AllFine(rules, keys, Auths(rules[p].accounts))
  {
    LeadsToItself(rules, p);
    if p in rules {
      var list := Auths(rules[p].accounts);
      forall q ensures Leads(rules, p, q) <==> p == q || Met(rules, list, q) {
        MetBelow(rules, p, q);
      }
      if Fine(rules, keys, p) {
        forall i, q | 0 <= i < |list| && Leads(rules, list[i], q) ensures q in rules && Enough(keys, rules[q]) {
          assert Met(rules, list, q);
        }
      }
    }
  }

  /** Everything met below fine authorities is fine. */
  lemma {:induction false} MetIsFine(rules: Rules, keys: set<Key>, before: seq<Permission>, p: Permission)
    requires AllFine(rules, keys, before) && Met(rules, before, p)
    ensures Fine(rules, keys, p)
  {
    forall q | Leads(rules, p, q) ensures q in rules && Enough(keys, rules[q]) {
      MetOn(rules, before, p, q);
      var i :| 0 <= i < |before| && Leads(rules, before[i], q);
    }
  }

  // ---------------------------------------------------------------------
  // One authority
  // ---------------------------------------------------------------------

  lemma {:induction false} CheckExact(
    rules: Rules, keys: set<Key>, p: Permission, left: nat, cache: Cache, before: seq<Permission>)
    requires Remembers(rules, cache, before) && AllFine(rules, keys, before)
    ensures Check(rules, keys, p, left, cache).Some? <==> Fine(rules, keys, p) && Shallow(rules, p, left, before)
    ensures Check(rules, keys, p, left, cache).Some? ==>
              Remembers(rules, Check(rules, keys, p, left, cache).value, before + Auths(rules[p].accounts))
    decreases left, 0
  {
    FineStep(rules, keys, p);
    if left > 0 && p in rules {
      AccountsExact(rules, keys, rules[p].accounts, left - 1, cache, before);
    }
  }

  lemma {:induction false} AccountsExact(
    rules: Rules, keys: set<Key>, list: seq<AccountWeight>, left: nat, cache: Cache, before: seq<Permission>)
    requires Remembers(rules, cache, before) && AllFine(rules, keys, before)
    ensures CheckAccounts(rules, keys, list, left, cache).Some? <==>
            AllFine(rules, keys, Auths(list)) && AllShallow(rules, Auths(list), left, before)
    ensures CheckAccounts(rules, keys, list, left, cache).Some? ==>
              Remembers(rules, CheckAccounts(rules, keys, list, left, cache).value, before + Auths(list))
    decreases left, 1 + |list|
  {
    if list == [] {
      assert before + Auths(list) == before;
    } else {
      var x, rest := list[0].auth, list[1..];
      assert Auths(list)[1..] == Auths(rest) && Auths(list)[0] == x;
      FirstFine(rules, keys, Auths(list));
      assert before + Auths(list) == before + [x] + Auths(rest);
      if x in cache {
        MetAgain(rules, keys, cache, before, x);
        AccountsExact(rules, keys, rest, left, cache, before + [x]);
      } else {
        CheckExact(rules, keys, x, left, cache, before);
        var first := Check(rules, keys, x, left, cache);
        if first.Some? {
          NowMet(rules, keys, first.value, before, x);
          AccountsExact(rules, keys, rest, left, first.value + {x}, before + [x]);
        }
      }
    }
  }

  lemma {:induction false} FirstFine(rules: Rules, keys: set<Key>, list: seq<Permission>)
    requires list != []
    ensures AllFine(rules, keys, list) <==> Fine(rules, keys, list[0]) && AllFine(rules, keys, list[1..])
  {
    if Fine(rules, keys, list[0]) && AllFine(rules, keys, list[1..]) {
      forall i | 0 <= i < |list| ensures Fine(rules, keys, list[i]) {
        assert i > 0 ==> Fine(rules, keys, list[1..][i - 1]);
      }
    }
    if AllFine(rules, keys, list) {
      forall i | 0 <= i < |list| - 1 ensures Fine(rules, keys, list[1..][i]) {
        assert Fine(rules, keys, list[i + 1]);
      }
    }
  }

  /** Meeting again what was met changes nothing. */
  lemma {:induction false} MetAgain(rules: Rules, keys: set<Key>, cache: Cache, before: seq<Permission>, x: Permission)
    requires Remembers(rules, cache, before) && AllFine(rules, keys, before) && x in cache
    ensures Fine(rules, keys, x) && Remembers(rules, cache, before + [x]) && AllFine(rules, keys, before + [x])
  {
    MetIsFine(rules, keys, before, x);
    forall q ensures q in cache <==> Met(rules, before + [x], q) {
      MetMore(rules, before, [x], q);
      MetOne(rules, x, q);
      if Leads(rules, x, q) {
        MetOn(rules, before, x, q);
      }
    }
  }

  /** Once what is below has been met, remembering the authority itself completes it. */
  lemma {:induction false} NowMet(rules: Rules, keys: set<Key>, cache: Cache, before: seq<Permission>, x: Permission)
    requires x in rules && Fine(rules, keys, x) && AllFine(rules, keys, before)
    requires Remembers(rules, cache, before + Auths(rules[x].accounts))
    ensures Remembers(rules, cache + {x}, before + [x]) && AllFine(rules, keys, before + [x])
  {
    forall q ensures q in cache + {x} <==> Met(rules, before + [x], q) {
      MetMore(rules, before, [x], q);
      MetMore(rules, before, Auths(rules[x].accounts), q);
      MetOne(rules, x, q);
      MetBelow(rules, x, q);
    }
  }

  // ---------------------------------------------------------------------
  // A whole transaction
  // ---------------------------------------------------------------------

  /** What the declared authorities list, one after the other. */
  function Listed(rules: Rules, declared: seq<Permission>): seq<Permission> {
    if declared == [] then []
    else
      (if declared[0] in rules then Auths(rules[declared[0]].accounts) else []) + Listed(rules, declared[1..])
  }

  /** Each declared authority is shallow, given what those declared before it list. */
  ghost predicate EachShallow(rules: Rules, declared: seq<Permission>, before: seq<Permission>) {
    declared == [] ||
    (&& Shallow(rules, declared[0], MAX_DEPTH, before)
     && EachShallow(rules, declared[1..], before + Listed(rules, [declared[0]])))
  }

  lemma {:induction false} EachExact(
    rules: Rules, keys: set<Key>, declared: seq<Permission>, cache: Cache, before: seq<Permission>)
    requires Remembers(rules, cache, before) && AllFine(rules, keys, before)
    ensures CheckEach(rules, keys, declared, cache).Some? <==>
            AllFine(rules, keys, declared) && EachShallow(rules, declared, before)
    decreases |declared|
  {
    if declared != [] {
      var p := declared[0];
      FirstFine(rules, keys, declared);
      FineStep(rules, keys, p);
      CheckExact(rules, keys, p, MAX_DEPTH, cache, before);
      var first := Check(rules, keys, p, MAX_DEPTH, cache);
      if first.Some? {
        var below := Auths(rules[p].accounts);
        assert Listed(rules, [p]) == below + Listed(rules, []) && below + [] == below;
        forall i | 0 <= i < |before + below| ensures Fine(rules, keys, (before + below)[i]) {
        }
        EachExact(rules, keys, declared[1..], first.value, before + below);
      }
    }
  }

  /**
   The checker accepts exactly if everything at or below the declared authorities exists and has
   enough weight, and every descent through authorities not met before stays within three levels.
   */
  lemma {:induction false} AcceptsExactly(rules: Rules, keys: set<Key>, declared: seq<Permission>)
    ensures Accepts(rules, keys, declared) <==> AllFine(rules, keys, declared) && EachShallow(rules, declared, [])
  {
    EachExact(rules, keys, declared, {}, []);
  }
}
