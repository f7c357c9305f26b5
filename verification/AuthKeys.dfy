/**
 Which keys matter to the authority checker: those listed at or below the declared authorities and
 presented, each with the weight it has there.
 */
module AuthKeys {
  import opened Optional
  import opened Authority
  import opened AuthExact

  // ---------------------------------------------------------------------
  // One authority
  // ---------------------------------------------------------------------

  /** The key has an entry. */
  predicate Listed(k: Key, list: seq<KeyWeight>) {
    exists i :: 0 <= i < |list| && list[i].key == k
  }

  /** The weights of all entries of one key. */
  function EntriesOf(k: Key, list: seq<KeyWeight>): nat {
    if list == [] then 0 else (if list[0].key == k then list[0].weight else 0) + EntriesOf(k, list[1..])
  }

  lemma {:induction false} UnlistedHasNone(k: Key, list: seq<KeyWeight>)
    requires !Listed(k, list)
    ensures EntriesOf(k, list) == 0
    decreases |list|
  {
    if list != [] {
      assert list[0].key != k;
      forall i | 0 <= i < |list[1..]| ensures list[1..][i].key != k {
        assert list[1..][i] == list[i + 1];
      }
      UnlistedHasNone(k, list[1..]);
    }
  }

  /** Without keys there is no weight, and each key presented besides adds exactly the weights of its entries. */
  lemma {:induction false} EachKeyAdds(keys: set<Key>, k: Key, list: seq<KeyWeight>)
    requires k !in keys
    ensures KeysWeight({}, list) == 0
    ensures KeysWeight(keys + {k}, list) == KeysWeight(keys, list) + EntriesOf(k, list)
    decreases |list|
  {
    if list != [] {
      EachKeyAdds(keys, k, list[1..]);
    }
  }

  /** A key that is not listed changes nothing. */
  lemma {:induction false} UnlistedKey(keys: set<Key>, k: Key, list: seq<KeyWeight>)
    requires !Listed(k, list)
    ensures KeysWeight(keys + {k}, list) == KeysWeight(keys, list)
  {
    if k in keys {
      assert keys + {k} == keys;
    } else {
      EachKeyAdds(keys, k, list);
      UnlistedHasNone(k, list);
    }
  }

  /** Only which of the listed keys are presented matters. */
  lemma {:induction false} ListedDecide(keys: set<Key>, other: set<Key>, list: seq<KeyWeight>)
    requires forall k :: Listed(k, list) ==> (k in keys <==> k in other)
    ensures KeysWeight(keys, list) == KeysWeight(other, list)
    decreases |list|
  {
    if list != [] {
      assert Listed(list[0].key, list);
      forall k | Listed(k, list[1..]) ensures k in keys <==> k in other {
        var i :| 0 <= i < |list[1..]| && list[1..][i].key == k;
        assert list[i + 1].key == k;
      }
      ListedDecide(keys, other, list[1..]);
    }
  }

  lemma {:induction false} NonePresented(keys: set<Key>, list: seq<KeyWeight>)
    requires forall k :: Listed(k, list) ==> k !in keys
    ensures KeysWeight(keys, list) == 0
  {
    ListedDecide(keys, {}, list);
    NoKeys(list);
  }

  /** The weights of listed accounts add up. */
  lemma {:induction false} AccountsAdd(a: seq<AccountWeight>, b: seq<AccountWeight>)
    ensures AccountsWeight(a + b) == AccountsWeight(a) + AccountsWeight(b)
    ensures AccountsWeight([]) == 0 && (|a| == 1 ==> AccountsWeight(a) == a[0].weight)
    decreases |a|
  {
    if a == [] {
      assert a + b == b;
    } else {
      assert (a + b)[1..] == a[1..] + b;
      AccountsAdd(a[1..], b);
    }
  }

  // ---------------------------------------------------------------------
  // The whole check
  // ---------------------------------------------------------------------

  /** The key has an entry at or below one of the declared authorities. */
  ghost predicate ListedBelow(rules: Rules, declared: seq<Permission>, k: Key) {
    exists i, q :: 0 <= i < |declared| && Leads(rules, declared[i], q) && q in rules && Listed(k, rules[q].keys)
  }

  /** Two sets of keys with the same listed ones get the same answer. */
  lemma {:induction false} ListedKeysDecide(rules: Rules, keys: set<Key>, other: set<Key>, declared: seq<Permission>)
    requires forall k :: ListedBelow(rules, declared, k) ==> (k in keys <==> k in other)
    ensures Accepts(rules, keys, declared) == Accepts(rules, other, declared)
  {
    AcceptsExactly(rules, keys, declared);
    AcceptsExactly(rules, other, declared);
    forall i, q | 0 <= i < |declared| && Leads(rules, declared[i], q) && q in rules
      ensures Enough(keys, rules[q]) == Enough(other, rules[q])
    {
      forall k | Listed(k, rules[q].keys) ensures k in keys <==> k in other {
        assert ListedBelow(rules, declared, k);
      }
      ListedDecide(keys, other, rules[q].keys);
    }
  }

  /** Somebody else's keys make no difference. */
  lemma {:induction false} ForeignKeys(rules: Rules, keys: set<Key>, foreign: set<Key>, declared: seq<Permission>)
    requires forall k :: k in foreign ==> !ListedBelow(rules, declared, k)
    ensures Accepts(rules, keys + foreign, declared) == Accepts(rules, keys, declared)
  {
    ListedKeysDecide(rules, keys + foreign, keys, declared);
  }

  /** Where accounts alone do not reach a threshold and none of the keys listed there is presented, it refuses. */
  lemma {:induction false} NoKeyNoAccess(
    rules: Rules, keys: set<Key>, declared: seq<Permission>, i: nat, q: Permission)
    requires i < |declared| && Leads(rules, declared[i], q) && q in rules
    requires ToInt(AccountsWeight(rules[q].accounts)) < ToInt(rules[q].threshold)
    requires forall k :: Listed(k, rules[q].keys) ==> k !in keys
    ensures !Accepts(rules, keys, declared)
  {
    AcceptsExactly(rules, keys, declared);
    NonePresented(keys, rules[q].keys);
    assert !Enough(keys, rules[q]);
    assert !Fine(rules, keys, declared[i]);
  }

  /** One key held alone is needed and suffices. */
  lemma {:induction false} HolderNeeded(key: Key, keys: set<Key>, p: Permission)
    ensures Accepts(map[p := HeldBy(key)], keys, [p]) <==> key in keys
  {
    var rules := map[p := HeldBy(key)];
    LeadsToItself(rules, p);
    if key in keys {
      forall k | ListedBelow(rules, [p], k) ensures k in keys <==> k in {key} {
        assert k == key;
      }
      ListedKeysDecide(rules, keys, {key}, [p]);
      HolderPasses(rules, key, p, 2, {});
      assert [p][1..] == [] && MAX_DEPTH == 3;
      assert Check(rules, {key}, [p][0], MAX_DEPTH, {}) == Some({});
      assert CheckEach(rules, {key}, [p], {}) == CheckEach(rules, {key}, [], {});
    } else {
      NoKeyNoAccess(rules, keys, [p], 0, p);
    }
  }
}
