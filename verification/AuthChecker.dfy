/** The authority checker at work: its memory, the marks on used keys and the running weight. */
module AuthChecker {
  import opened Optional
  import opened Authority
  import opened AuthKeys

  function Presented(keys: set<Key>, list: seq<KeyWeight>): set<Key> {
    set i | 0 <= i < |list| && list[i].key in keys :: list[i].key
  }

  function LevelsLeft(depth: nat): nat {
    if depth < MAX_DEPTH then MAX_DEPTH - depth else 0
  }

  /** The declared authorities of all messages, in order and each once. */
  method Collect(authorizations: seq<Permission>) returns (declared: seq<Permission>)
    ensures Ordered(declared)
    ensures forall p :: p in declared <==> p in authorizations
  {
    declared := [];
    for i := 0 to |authorizations|
      invariant Ordered(declared)
      invariant forall p :: p in declared <==> p in authorizations[..i]
    {
      assert authorizations[..i + 1] == authorizations[..i] + [authorizations[i]];
      declared := InsertOrdered(declared, authorizations[i]);
    }
    assert authorizations[..|authorizations|] == authorizations;
  }

  method InsertOrdered(declared: seq<Permission>, p: Permission) returns (more: seq<Permission>)
    requires Ordered(declared)
    ensures Ordered(more)
    ensures forall q :: q in more <==> q in declared || q == p
  {
    var i := 0;
    while i < |declared| && Before(declared[i], p)
      invariant 0 <= i <= |declared| && forall k :: 0 <= k < i ==> Before(declared[k], p)
    {
      i := i + 1;
    }
    if i < |declared| && declared[i] == p {
      return declared;
    }
    more := declared[..i] + [p] + declared[i..];
    assert declared == declared[..i] + declared[i..];
  }

  /** Ordered lists of the same authorities are the same. */
  lemma {:induction false} OrderedUnique(a: seq<Permission>, b: seq<Permission>)
    requires Ordered(a) && Ordered(b) && forall p :: p in a <==> p in b
    ensures a == b
    decreases |a|
  {
    assert b != [] ==> b[0] in a;
    if a != [] {
      assert a[0] in b;
      assert a[0] == b[0];
      forall p ensures p in a[1..] <==> p in b[1..] {
        assert p in a <==> p in b;
        assert a == [a[0]] + a[1..] && b == [b[0]] + b[1..];
      }
      OrderedUnique(a[1..], b[1..]);
    }
  }

  /**
   All authorizations of a transaction: collected, and then checked with a fresh checker. Neither
   their order nor repetition makes a difference.
   */
  method CheckAuthorization(rules: Rules, keys: set<Key>, authorizations: seq<Permission>) returns (ok: bool)
    ensures forall declared :: Ordered(declared) && (forall p :: p in declared <==> p in authorizations) ==>
                                 ok == Accepts(rules, keys, declared)
  {
    var list := Collect(authorizations);
    var checker := new Checker(rules, keys);
    ok := checker.CheckDeclared(list);
    forall declared | Ordered(declared) && (forall p :: p in declared <==> p in authorizations)
      ensures declared == list
    {
      OrderedUnique(declared, list);
    }
  }

  class Checker {
    const rules: Rules
    const keys: set<Key>
    var used: set<Key>
    var cache: Cache

    constructor (rules: Rules, keys: set<Key>)
      ensures this.rules == rules && this.keys == keys && used == {} && cache == {}
    {
      this.rules := rules;
      this.keys := keys;
      used := {};
      cache := {};
    }

    /** All declared authorities must pass. */
    method CheckDeclared(declared: seq<Permission>) returns (ok: bool)
      modifies this
      ensures ok == CheckEach(rules, keys, declared, old(cache)).Some?
      ensures old(used) <= used <= old(used) + keys
    {
      assert declared[0..] == declared;
      for i := 0 to |declared|
        invariant CheckEach(rules, keys, declared, old(cache)) == CheckEach(rules, keys, declared[i..], cache)
        invariant old(used) <= used <= old(used) + keys
      {
        assert declared[i..][0] == declared[i] && declared[i..][1..] == declared[i + 1..];
        ok := CheckWithDepth(declared[i], 0);
        if !ok {
          return;
        }
      }
      return true;
    }

    method CheckWithDepth(p: Permission, depth: nat) returns (ok: bool)
      modifies this
      ensures ok == Check(rules, keys, p, LevelsLeft(depth), old(cache)).Some?
      ensures ok ==> cache == Check(rules, keys, p, LevelsLeft(depth), old(cache)).value
      ensures old(used) <= used <= old(used) + keys
      ensures ok ==> Presented(keys, rules[p].keys) <= used
      decreases LevelsLeft(depth), 1
    {
      if depth >= MAX_DEPTH {
        return false;
      }
      ok := CheckRule(p, depth);
    }

    method CheckRule(p: Permission, depth: nat) returns (ok: bool)
      requires depth < MAX_DEPTH
      modifies this
      ensures ok == Check(rules, keys, p, LevelsLeft(depth), old(cache)).Some?
      ensures ok ==> cache == Check(rules, keys, p, LevelsLeft(depth), old(cache)).value
      ensures old(used) <= used <= old(used) + keys
      ensures ok ==> Presented(keys, rules[p].keys) <= used
      decreases LevelsLeft(depth), 0
    {
      if p !in rules {
        return false;
      }
      var rule := rules[p];
      var weight := MarkKeys(rule.keys);
      assert rule.accounts[0..] == rule.accounts;
      for i := 0 to |rule.accounts|
        invariant CheckAccounts(rules, keys, rule.accounts, LevelsLeft(depth + 1), old(cache))
               == CheckAccounts(rules, keys, rule.accounts[i..], LevelsLeft(depth + 1), cache)
        invariant weight + AccountsWeight(rule.accounts[i..]) == Weight(keys, rule)
        invariant old(used) + Presented(keys, rule.keys) <= used <= old(used) + keys
      {
        var entry := rule.accounts[i];
        assert rule.accounts[i..][0] == entry && rule.accounts[i..][1..] == rule.accounts[i + 1..];
        if entry.auth !in cache {
          ok := CheckWithDepth(entry.auth, depth + 1);
          if !ok {
            return;
          }
          cache := cache + {entry.auth};
        }
        weight := weight + entry.weight;
      }
      ok := ToInt(weight) >= ToInt(rule.threshold);
    }

    /** Adds up the weights of the presented keys and marks these keys. */
    method MarkKeys(list: seq<KeyWeight>) returns (weight: nat)
      modifies this`used
      ensures weight == KeysWeight(keys, list)
      ensures (forall k :: Listed(k, list) ==> k !in keys) ==> weight == 0
      ensures used == old(used) + Presented(keys, list)
    {
      if forall k :: Listed(k, list) ==> k !in keys {
        NonePresented(keys, list);
      }
      weight := 0;
      assert list[0..] == list;
      for i := 0 to |list|
        invariant weight + KeysWeight(keys, list[i..]) == KeysWeight(keys, list)
        invariant used == old(used) + Presented(keys, list[..i])
      {
        assert list[i..][0] == list[i] && list[i..][1..] == list[i + 1..];
        OneMorePresented(keys, list, i);
        if list[i].key in keys {
          weight := weight + list[i].weight;
          used := used + {list[i].key};
        }
      }
      assert list[..|list|] == list;
    }
  }

  lemma {:induction false} OneMorePresented(keys: set<Key>, list: seq<KeyWeight>, i: nat)
    requires i < |list|
    ensures Presented(keys, list[..i + 1]) ==
            Presented(keys, list[..i]) + if list[i].key in keys then {list[i].key} else {}
  {
    var more := list[..i + 1];
    forall k | k in Presented(keys, list[..i]) + (if list[i].key in keys then {list[i].key} else {})
      ensures k in Presented(keys, more)
    {
      if k in Presented(keys, list[..i]) {
        var j :| 0 <= j < i && list[j].key in keys && list[j].key == k;
        assert more[j].key == k;
      } else {
        assert more[i].key == k;
      }
    }
  }
}
