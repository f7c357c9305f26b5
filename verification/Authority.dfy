/**
 Whether the presented keys satisfy an authority.

 An authority lists keys and other authorities, each with a weight, and a threshold. The
 checker descends through the listed authorities, at most three levels, every one of which
 must pass; those that passed are remembered and not descended into again.
 */
module Authority {
  import opened Optional

  /** Public keys, in print. */
  type Key = string

  /** An account and the name of one of its authorities. */
  datatype Permission = Permission(account: nat, authority: nat)

  datatype KeyWeight = KeyWeight(key: Key, weight: nat)
  datatype AccountWeight = AccountWeight(auth: Permission, weight: nat)

  datatype Authority = Authority(threshold: nat, keys: seq<KeyWeight>, accounts: seq<AccountWeight>)

  type Rules = map<Permission, Authority>

  const MAX_DEPTH := 3

  // ---------------------------------------------------------------------
  // Weights
  // ---------------------------------------------------------------------

  const INT_LIMIT := 0x8000_0000

  /** A number kept in a 32-bit signed integer. */
  function ToInt(n: nat): int {
    var m := n % 0x1_0000_0000;
    if m < INT_LIMIT then m else m - 0x1_0000_0000
  }

  function KeysWeight(keys: set<Key>, list: seq<KeyWeight>): nat {
    if list == [] then 0
    else (if list[0].key in keys then list[0].weight else 0) + KeysWeight(keys, list[1..])
  }

  function AccountsWeight(list: seq<AccountWeight>): nat {
    if list == [] then 0 else list[0].weight + AccountsWeight(list[1..])
  }

  function Weight(keys: set<Key>, a: Authority): nat {
    KeysWeight(keys, a.keys) + AccountsWeight(a.accounts)
  }

  /** The comparison as it is made, on 32-bit integers. */
  predicate Enough(keys: set<Key>, a: Authority) {
    ToInt(Weight(keys, a)) >= ToInt(a.threshold)
  }

  const UINT_LIMIT := 0x1_0000_0000

  /** Threshold and weight are 32-bit numbers on the same side of the signed limit. */
  predicate SameSide(keys: set<Key>, a: Authority) {
    && a.threshold < UINT_LIMIT && Weight(keys, a) < UINT_LIMIT
    && (a.threshold < INT_LIMIT <==> Weight(keys, a) < INT_LIMIT)
  }

  /** Of 32-bit numbers, the comparison as it is made is right exactly if both are on the same side. */
  lemma {:induction false} EnoughIfSameSide(keys: set<Key>, a: Authority)
    requires a.threshold < UINT_LIMIT && Weight(keys, a) < UINT_LIMIT
    ensures (Enough(keys, a) <==> Weight(keys, a) >= a.threshold) <==> SameSide(keys, a)
  {
    ToIntShifts(Weight(keys, a));
    ToIntShifts(a.threshold);
  }

  lemma {:induction false} ToIntShifts(n: nat)
    requires n < UINT_LIMIT
    ensures ToInt(n) == if n < INT_LIMIT then n else n - UINT_LIMIT
  {
  }

  // ---------------------------------------------------------------------
  // What an authority leads to
  // ---------------------------------------------------------------------

  /** `q` is listed by `p`, or by one that `p` leads to, `n` levels down. */
  ghost predicate LeadsIn(rules: Rules, p: Permission, q: Permission, n: nat)
    decreases n
  {
    if n == 0 then p == q
    else p in rules && exists i :: 0 <= i < |rules[p].accounts| && LeadsIn(rules, rules[p].accounts[i].auth, q, n - 1)
  }

  /** `q` is `p` or somewhere below it. */
  ghost predicate Leads(rules: Rules, p: Permission, q: Permission) {
    exists n: nat :: LeadsIn(rules, p, q, n)
  }

  lemma {:induction false} LeadsToItself(rules: Rules, p: Permission)
    ensures Leads(rules, p, p)
  {
    assert LeadsIn(rules, p, p, 0);
  }

  /** An authority leads to itself and to what the listed ones lead to. */
  lemma {:induction false} LeadsStep(rules: Rules, p: Permission, q: Permission)
    requires p in rules
    ensures Leads(rules, p, q) <==>
            p == q || exists i :: 0 <= i < |rules[p].accounts| && Leads(rules, rules[p].accounts[i].auth, q)
  {
    if Leads(rules, p, q) && p != q {
      var n: nat :| LeadsIn(rules, p, q, n);
      var i :| 0 <= i < |rules[p].accounts| && LeadsIn(rules, rules[p].accounts[i].auth, q, n - 1);
      assert Leads(rules, rules[p].accounts[i].auth, q);
    }
    if i :| 0 <= i < |rules[p].accounts| && Leads(rules, rules[p].accounts[i].auth, q) {
      var n: nat :| LeadsIn(rules, rules[p].accounts[i].auth, q, n);
      assert LeadsIn(rules, p, q, n + 1);
    }
    LeadsToItself(rules, p);
  }

  lemma {:induction false} LeadsOn(rules: Rules, p: Permission, q: Permission, r: Permission, n: nat)
    requires LeadsIn(rules, p, q, n) && Leads(rules, q, r)
    ensures Leads(rules, p, r)
    decreases n
  {
    if n > 0 {
      var i :| 0 <= i < |rules[p].accounts| && LeadsIn(rules, rules[p].accounts[i].auth, q, n - 1);
      LeadsOn(rules, rules[p].accounts[i].auth, q, r, n - 1);
      LeadsStep(rules, p, r);
    }
  }

  /** Every comparison on the way down from `p` is right. */
  ghost predicate Fits(rules: Rules, keys: set<Key>, p: Permission) {
    forall q :: Leads(rules, p, q) && q in rules ==> SameSide(keys, rules[q])
  }

  ghost predicate FitsAll(rules: Rules, keys: set<Key>, list: seq<AccountWeight>) {
    forall i :: 0 <= i < |list| ==> Fits(rules, keys, list[i].auth)
  }

  lemma {:induction false} FitsDown(rules: Rules, keys: set<Key>, p: Permission)
    requires Fits(rules, keys, p) && p in rules
    ensures SameSide(keys, rules[p]) && FitsAll(rules, keys, rules[p].accounts)
    ensures Enough(keys, rules[p]) <==> Weight(keys, rules[p]) >= rules[p].threshold
  {
    LeadsToItself(rules, p);
    EnoughIfSameSide(keys, rules[p]);
    forall i, q | 0 <= i < |rules[p].accounts| && Leads(rules, rules[p].accounts[i].auth, q) && q in rules
      ensures SameSide(keys, rules[q])
    {
      LeadsStep(rules, p, q);
    }
  }

  // ---------------------------------------------------------------------
  // The plain meaning
  // ---------------------------------------------------------------------

  /** Within `n` levels, every listed authority passes and the weights reach the threshold, all the way down. */
  predicate Derives(rules: Rules, keys: set<Key>, p: Permission, n: nat)
    decreases n, 0
  {
    && n > 0 && p in rules
    && Weight(keys, rules[p]) >= rules[p].threshold
    && DerivesAll(rules, keys, rules[p].accounts, n - 1)
  }

  predicate DerivesAll(rules: Rules, keys: set<Key>, list: seq<AccountWeight>, n: nat)
    decreases n, 1 + |list|
  {
    list == [] || (Derives(rules, keys, list[0].auth, n) && DerivesAll(rules, keys, list[1..], n))
  }

  /** There is a derivation, however deep. */
  ghost predicate Derivable(rules: Rules, keys: set<Key>, p: Permission) {
    exists n: nat :: Derives(rules, keys, p, n)
  }

  lemma {:induction false} DeeperDerives(rules: Rules, keys: set<Key>, p: Permission, n: nat, m: nat)
    requires Derives(rules, keys, p, n) && n <= m
    ensures Derives(rules, keys, p, m)
    decreases n, 0
  {
    DeeperDerivesAll(rules, keys, rules[p].accounts, n - 1, m - 1);
  }

  lemma {:induction false} DeeperDerivesAll(rules: Rules, keys: set<Key>, list: seq<AccountWeight>, n: nat, m: nat)
    requires DerivesAll(rules, keys, list, n) && n <= m
    ensures DerivesAll(rules, keys, list, m)
    decreases n, 1 + |list|
  {
    if list != [] {
      DeeperDerives(rules, keys, list[0].auth, n, m);
      DeeperDerivesAll(rules, keys, list[1..], n, m);
    }
  }

  // ---------------------------------------------------------------------
  // The checker
  // ---------------------------------------------------------------------

  type Cache = set<Permission>

  /** Checks `p` with `left` levels to go: what is remembered afterwards, or None if it does not pass. */
  function Check(rules: Rules, keys: set<Key>, p: Permission, left: nat, cache: Cache): Option<Cache>
    decreases left, 0
  {
    if left == 0 || p !in rules then None
    else
      var after := CheckAccounts(rules, keys, rules[p].accounts, left - 1, cache);
      if after.Some? && Enough(keys, rules[p]) then after else None
  }

  function CheckAccounts(rules: Rules, keys: set<Key>, list: seq<AccountWeight>, left: nat, cache: Cache): Option<Cache>
    decreases left, 1 + |list|
  {
    if list == [] then Some(cache)
    else if list[0].auth in cache then CheckAccounts(rules, keys, list[1..], left, cache)
    else
      match Check(rules, keys, list[0].auth, left, cache)
      case None => None
      case Some(after) => CheckAccounts(rules, keys, list[1..], left, after + {list[0].auth})
  }

  predicate Before(a: Permission, b: Permission) {
    a.account < b.account || (a.account == b.account && a.authority < b.authority)
  }

  /** The declared authorities are kept in order and without repetition. */
  predicate Ordered(declared: seq<Permission>) {
    forall i, j :: 0 <= i < j < |declared| ==> Before(declared[i], declared[j])
  }

  /** The declared authorities of a transaction, one after the other with one memory. */
  function CheckEach(rules: Rules, keys: set<Key>, declared: seq<Permission>, cache: Cache): Option<Cache> {
    if declared == [] then Some(cache)
    else
      match Check(rules, keys, declared[0], MAX_DEPTH, cache)
      case None => None
      case Some(after) => CheckEach(rules, keys, declared[1..], after)
  }

  function Accepts(rules: Rules, keys: set<Key>, declared: seq<Permission>): bool {
    CheckEach(rules, keys, declared, {}).Some?
  }

  // ---------------------------------------------------------------------
  // Nothing is lost by remembering
  // ---------------------------------------------------------------------

  /** Whatever is remembered, what derives within the levels left passes. */
  lemma {:induction false} DerivedPasses(rules: Rules, keys: set<Key>, p: Permission, left: nat, cache: Cache)
    requires Fits(rules, keys, p) && Derives(rules, keys, p, left)
    ensures Check(rules, keys, p, left, cache).Some?
    decreases left, 0
  {
    FitsDown(rules, keys, p);
    DerivedAllPass(rules, keys, rules[p].accounts, left - 1, cache);
  }

  lemma {:induction false} DerivedAllPass(
    rules: Rules, keys: set<Key>, list: seq<AccountWeight>, left: nat, cache: Cache)
    requires FitsAll(rules, keys, list) && DerivesAll(rules, keys, list, left)
    ensures CheckAccounts(rules, keys, list, left, cache).Some?
    decreases left, 1 + |list|
  {
    if list != [] {
      if list[0].auth in cache {
        DerivedAllPass(rules, keys, list[1..], left, cache);
      } else {
        DerivedPasses(rules, keys, list[0].auth, left, cache);
        DerivedAllPass(rules, keys, list[1..], left,
                       Check(rules, keys, list[0].auth, left, cache).value + {list[0].auth});
      }
    }
  }

  // ---------------------------------------------------------------------
  // Nothing is won but depth
  // ---------------------------------------------------------------------

  ghost predicate Known(rules: Rules, keys: set<Key>, cache: Cache) {
    forall p :: p in cache ==> Derivable(rules, keys, p)
  }

  /** What passes has a derivation, and so has everything remembered on the way. */
  lemma {:induction false} PassedDerives(rules: Rules, keys: set<Key>, p: Permission, left: nat, cache: Cache)
    requires Fits(rules, keys, p) && Known(rules, keys, cache) && Check(rules, keys, p, left, cache).Some?
    ensures Derivable(rules, keys, p)
    ensures Known(rules, keys, Check(rules, keys, p, left, cache).value)
    decreases left, 0
  {
    FitsDown(rules, keys, p);
    var n := PassedAllDerive(rules, keys, rules[p].accounts, left - 1, cache);
    assert Derives(rules, keys, p, n + 1);
  }

  lemma {:induction false} PassedAllDerive(
    rules: Rules, keys: set<Key>, list: seq<AccountWeight>, left: nat, cache: Cache)
    returns (n: nat)
    requires FitsAll(rules, keys, list) && Known(rules, keys, cache) &&
             CheckAccounts(rules, keys, list, left, cache).Some?
    ensures DerivesAll(rules, keys, list, n)
    ensures Known(rules, keys, CheckAccounts(rules, keys, list, left, cache).value)
    decreases left, 1 + |list|
  {
    if list == [] {
      return 0;
    }
    var first := list[0].auth;
    if first in cache {
      n := PassedAllDerive(rules, keys, list[1..], left, cache);
    } else {
      PassedDerives(rules, keys, first, left, cache);
      n := PassedAllDerive(rules, keys, list[1..], left, Check(rules, keys, first, left, cache).value + {first});
    }
    var k: nat :| Derives(rules, keys, first, k);
    DeeperDerives(rules, keys, first, k, k + n);
    DeeperDerivesAll(rules, keys, list[1..], n, k + n);
    n := k + n;
  }

  // ---------------------------------------------------------------------
  // A whole transaction
  // ---------------------------------------------------------------------

  ghost predicate FitsEach(rules: Rules, keys: set<Key>, declared: seq<Permission>) {
    forall i :: 0 <= i < |declared| ==> Fits(rules, keys, declared[i])
  }

  lemma {:induction false} EachPasses(rules: Rules, keys: set<Key>, declared: seq<Permission>, cache: Cache)
    requires FitsEach(rules, keys, declared) && forall p :: p in declared ==> Derives(rules, keys, p, MAX_DEPTH)
    ensures CheckEach(rules, keys, declared, cache).Some?
    decreases |declared|
  {
    if declared != [] {
      DerivedPasses(rules, keys, declared[0], MAX_DEPTH, cache);
      EachPasses(rules, keys, declared[1..], Check(rules, keys, declared[0], MAX_DEPTH, cache).value);
    }
  }

  lemma {:induction false} EachDerives(rules: Rules, keys: set<Key>, declared: seq<Permission>, cache: Cache)
    requires FitsEach(rules, keys, declared) && Known(rules, keys, cache) &&
             CheckEach(rules, keys, declared, cache).Some?
    ensures forall p :: p in declared ==> Derivable(rules, keys, p)
    decreases |declared|
  {
    if declared != [] {
      PassedDerives(rules, keys, declared[0], MAX_DEPTH, cache);
      EachDerives(rules, keys, declared[1..], Check(rules, keys, declared[0], MAX_DEPTH, cache).value);
    }
  }

  /** The checker lies between the derivations of three levels and those of any depth. */
  lemma {:induction false} Between(rules: Rules, keys: set<Key>, declared: seq<Permission>)
    requires FitsEach(rules, keys, declared)
    ensures (forall p :: p in declared ==> Derives(rules, keys, p, MAX_DEPTH)) ==> Accepts(rules, keys, declared)
    ensures Accepts(rules, keys, declared) ==> forall p :: p in declared ==> Derivable(rules, keys, p)
  {
    if forall p :: p in declared ==> Derives(rules, keys, p, MAX_DEPTH) {
      EachPasses(rules, keys, declared, {});
    }
    if Accepts(rules, keys, declared) {
      EachDerives(rules, keys, declared, {});
    }
  }

  function RelyingOn(p: Permission): Authority {
    Authority(1, [], [AccountWeight(p, 1)])
  }

  function HeldBy(key: Key): Authority {
    Authority(1, [KeyWeight(key, 1)], [])
  }

  /** An authority that relies on another passes exactly if the other is remembered or passes. */
  lemma {:induction false} RelyingPasses(
    rules: Rules, keys: set<Key>, p: Permission, q: Permission, left: nat, cache: Cache)
    requires p in rules && rules[p] == RelyingOn(q)
    ensures Check(rules, keys, p, left + 1, cache) == Relied(rules, keys, q, left, cache)
    ensures Derives(rules, keys, p, left + 1) == Derives(rules, keys, q, left)
  {
    var list := rules[p].accounts;
    assert list[1..] == [] && AccountsWeight(list[1..]) == 0 && KeysWeight(keys, []) == 0;
    assert Weight(keys, rules[p]) == 1;
    assert DerivesAll(rules, keys, list[1..], left);
    assert CheckAccounts(rules, keys, list, left, cache) == Relied(rules, keys, q, left, cache) by {
      var first := Check(rules, keys, q, left, cache);
      if q !in cache && first.Some? {
        assert CheckAccounts(rules, keys, list[1..], left, first.value + {q}) == Some(first.value + {q});
      }
    }
  }

  lemma {:induction false} HolderPasses(rules: Rules, key: Key, p: Permission, left: nat, cache: Cache)
    requires p in rules && rules[p] == HeldBy(key)
    ensures Check(rules, {key}, p, left + 1, cache) == Some(cache)
    ensures Derives(rules, {key}, p, left + 1)
  {
    var list := rules[p].keys;
    assert list[1..] == [] && KeysWeight({key}, list[1..]) == 0;
    assert Weight({key}, rules[p]) == 1;
  }

  /** A chain of four authorities, the last one held by a key: 2 relies on 1, 1 on 3, and 3 on 4. */
  function Four(key: Key): Rules {
    map[Permission(2, 0) := RelyingOn(Permission(1, 0)), Permission(1, 0) := RelyingOn(Permission(3, 0)),
        Permission(3, 0) := RelyingOn(Permission(4, 0)), Permission(4, 0) := HeldBy(key)]
  }

  /** Both bounds are strict: an authority that is refused alone is accepted together with one it relies on. */
  lemma {:induction false} CompanyMatters(key: Key)
    ensures Ordered([Permission(2, 0)]) && Ordered([Permission(1, 0), Permission(2, 0)])
    ensures !Accepts(Four(key), {key}, [Permission(2, 0)])
    ensures Accepts(Four(key), {key}, [Permission(1, 0), Permission(2, 0)])
    ensures Derivable(Four(key), {key}, Permission(2, 0)) && !Derives(Four(key), {key}, Permission(2, 0), MAX_DEPTH)
  {
    var rules := Four(key);
    var p, q, r, s := Permission(2, 0), Permission(1, 0), Permission(3, 0), Permission(4, 0);
    HolderPasses(rules, key, s, 0, {});
    RelyingPasses(rules, {key}, r, s, 1, {});
    RelyingPasses(rules, {key}, q, r, 2, {});
    RelyingPasses(rules, {key}, p, q, 3, {});
    var cache := {s, r};
    assert Check(rules, {key}, q, 3, {}) == Some(cache) by {
      assert {} + {s} + {r} == cache;
    }
    RelyingPasses(rules, {key}, q, r, 1, cache);
    RelyingPasses(rules, {key}, p, q, 2, cache);
    assert [q, p][1..] == [p] && [p][1..] == [];
    assert CheckEach(rules, {key}, [p], cache).Some?;
    RelyingPasses(rules, {key}, r, s, 0, {});
    RelyingPasses(rules, {key}, q, r, 1, {});
    RelyingPasses(rules, {key}, p, q, 2, {});
    assert Derives(rules, {key}, p, 4);
  }

  function Relied(rules: Rules, keys: set<Key>, q: Permission, left: nat, cache: Cache): Option<Cache> {
    if q in cache then Some(cache)
    else match Check(rules, keys, q, left, cache) case None => None case Some(after) => Some(after + {q})
  }

  /** A threshold beyond the signed integers is met without any key. */
  lemma {:induction false} HugeThreshold(rules: Rules, p: Permission)
    requires p in rules && INT_LIMIT <= rules[p].threshold < 2 * INT_LIMIT && rules[p].accounts == []
    ensures Accepts(rules, {}, [p]) && !Derivable(rules, {}, p)
  {
    NoKeys(rules[p].keys);
    assert Check(rules, {}, p, MAX_DEPTH, {}).Some?;
  }

  lemma {:induction false} NoKeys(list: seq<KeyWeight>)
    ensures KeysWeight({}, list) == 0
  {
    if list != [] {
      NoKeys(list[1..]);
    }
  }
}
