/**
 A branch that has become final away from the head stays out of reach: whatever a node then stores,
 marks, prunes, builds or switches to, no block of that branch has a stored ancestor in common with
 its head.
 */
module ChainSeal {
  import opened Optional
  import opened SnapshotStack
  import opened Database
  import opened Replay
  import opened ForkTree
  import opened ForkBranch
  import opened ForkConfirm
  import opened ForkMarks
  import opened ForkLog
  import opened ForkReport
  import opened ChainHistory
  import opened ChainSwitch
  import opened ChainAdd
  import opened ChainState

  /**
   `c` is a block of the history but not of the chain of the head, and nothing below it is stored.
   */
  ghost predicate Sealed(packs: Packs, links: map<Id, Link>, head: Id, c: Id) {
    && HistoryOk(links) && Tree(links) && Tree(Links(packs)) && Recorded(packs, links)
    && c in links && head in links && !Ancestor(links, c, head) && AllAbove(packs, c.num)
  }

  lemma {:induction false} Transitive(links: map<Id, Link>, a: Id, b: Id, c: Id)
    requires Tree(links) && Ancestor(links, a, b) && Ancestor(links, b, c)
    ensures Ancestor(links, a, c)
  {
    PathTail(links, b, c);
  }

  lemma {:induction false} StoredAncestor(packs: Packs, links: map<Id, Link>, a: Id, b: Id)
    requires HistoryOk(links) && Tree(links) && Tree(Links(packs)) && Recorded(packs, links)
    requires Ancestor(Links(packs), a, b)
    ensures a in packs && b in packs && Ancestor(links, a, b) && a in links && links[a].num == packs[a].num == a.num
  {
    AncestorNumber(Links(packs), a, b);
    forall k | k in Links(packs) ensures k in links && Links(packs)[k] == links[k] {
      assert RecordedAt(packs, links, k);
    }
    PathAmongFewer(links, Links(packs), b);
    assert EntryOk(links, a) && RecordedAt(packs, links, a);
  }

  /** No block of the sealed branch can be switched to. */
  lemma {:induction false} SealedIsUnreachable(packs: Packs, links: map<Id, Link>, head: Id, c: Id, x: Id)
    requires Sealed(packs, links, head, c) && Ancestor(links, c, x)
    ensures !HaveCommonAncestor(Links(packs), head, x)
  {
    if HaveCommonAncestor(Links(packs), head, x) {
      var y :| Ancestor(Links(packs), y, head) && Ancestor(Links(packs), y, x);
      StoredAncestor(packs, links, y, head);
      StoredAncestor(packs, links, y, x);
      assert AboveAt(packs, c.num, y) && EntryOk(links, c);
      AncestorNumber(links, y, x);
      assert x in Family(links, y);
      OnLine(links, y, x, c);
      Transitive(links, c, y, head);
    }
  }

  // ---------------------------------------------------------------------
  // What the steps keep
  // ---------------------------------------------------------------------

  lemma {:induction false} FewerKeepsSealed(packs: Packs, links: map<Id, Link>, head: Id, c: Id, after: Packs)
    requires Sealed(packs, links, head, c) && Fewer(packs, after) && Tree(Links(after))
    ensures Sealed(after, links, head, c)
  {
    forall id | id in after ensures RecordedAt(after, links, id) && AboveAt(after, c.num, id) {
      assert RecordedAt(packs, links, id) && AboveAt(packs, c.num, id);
    }
  }

  lemma {:induction false} InsertKeepsSealed(
    packs: Packs, links: map<Id, Link>, head: Id, c: Id, child: Id, prev: Id, arrival: Arrival)
    requires Sealed(packs, links, head, c) && prev in packs && child !in links && child.num == prev.num + 1
    requires Tree(Links(Inserted(packs, child, prev, arrival)))
    ensures Sealed(Inserted(packs, child, prev, arrival), Longer(links, child, prev), head, c)
  {
    var more := Inserted(packs, child, prev, arrival);
    assert RecordedAt(packs, links, prev) && EntryOk(links, prev) && AboveAt(packs, c.num, prev);
    LongerPaths(links, child, prev);
    forall id | id in more ensures RecordedAt(more, Longer(links, child, prev), id) && AboveAt(more, c.num, id) {
      assert id != child ==> RecordedAt(packs, links, id) && AboveAt(packs, c.num, id);
    }
  }

  /** A head with a stored ancestor in common with the old one is not on the sealed branch either. */
  lemma {:induction false} MoveKeepsSealed(packs: Packs, links: map<Id, Link>, head: Id, c: Id, to: Id)
    requires Sealed(packs, links, head, c) && HaveCommonAncestor(Links(packs), head, to)
    ensures Sealed(packs, links, to, c)
  {
    var y :| Ancestor(Links(packs), y, head) && Ancestor(Links(packs), y, to);
    StoredAncestor(packs, links, y, to);
    AncestorNumber(links, y, to);
    if Ancestor(links, c, to) {
      SealedIsUnreachable(packs, links, head, c, to);
    }
  }

  /** So does a child of the head as the new head. */
  lemma {:induction false} ChildKeepsSealed(packs: Packs, links: map<Id, Link>, head: Id, c: Id, child: Id)
    requires Sealed(packs, links, head, c) && child in links && links[child].prev == head && child != c
    ensures Sealed(packs, links, child, c)
  {
    assert Path(links, child) == [child] + Path(links, head);
  }

  // ---------------------------------------------------------------------
  // What the operations of a node keep
  // ---------------------------------------------------------------------

  ghost predicate SealedAt<V>(s: Stage<V>, c: Id) {
    Sealed(s.packs, s.links, s.head, c)
  }

  /** Once a block away from the head has taken effect, it is sealed. */
  lemma {:induction false} FinalSeals<V>(s: Stage<V>, after: Packs, c: Id, marked: Packs)
    requires Healthy(s) && c in s.packs && !Ancestor(s.links, c, s.head)
    requires Links(marked) == Links(s.packs) && after == Grown(marked, c, c.num)
    ensures Sealed(after, s.links, s.head, c)
  {
    assert UnfoldHint(0);
    GrownIsTree(marked, c, c.num);
    assert RecordedAt(s.packs, s.links, c) && RecordedAt(s.packs, s.links, s.head);
    forall id | id in after ensures RecordedAt(after, s.links, id) && AboveAt(after, c.num, id) {
      SameLink(s.packs, marked, id);
      assert RecordedAt(s.packs, s.links, id) && PackOk(s.packs, s.base, id);
    }
  }

  lemma {:induction false} ConfirmKeepsSealed<V>(s: Stage<V>, c: Id, z: Id)
    requires SealedAt(s, c) && z in s.packs
    ensures SealedAt(s.(packs := Confirmed(s.packs, z)), c)
  {
    ConfirmIsFewer(s.packs, z);
    FewerKeepsSealed(s.packs, s.links, s.head, c, Confirmed(s.packs, z));
  }

  lemma {:induction false} AddedKeepsSealed<V>(
    was: Stage<V>, c: Id, child: Id, prev: Id, arrival: Arrival, block: Block<V>,
    best: Id, ok: bool, due: seq<Id>, taken: nat, now: Stage<V>)
    requires Healthy(was) && SealedAt(was, c) && child.num == prev.num + 1 && ArrivalOk(child, arrival)
    requires Added(was, child, prev, arrival, block, best, ok, due, taken, now)
    ensures SealedAt(now, c) && child !in was.links && now.links == Longer(was.links, child, prev)
  {
    assert UnfoldHint(0);
    var more := Inserted(was.packs, child, prev, arrival);
    NewIsNew(was.packs, was.base, was.links, child, prev);
    InsertKeepsSealed(was.packs, was.links, was.head, c, child, prev, arrival);
    InsertKeepsValid(was.packs, was.base, was.logHead, child, prev, arrival);
    SettlementIsFewer(more, was.base, was.logHead, best, ok, due, taken, now.packs, now.base);
    SettlementKeepsMarks(more, was.base, was.logHead, best, ok, due, taken, now.packs);
    FewerKeepsSealed(more, now.links, was.head, c, now.packs);
  }

  /** The listed blocks after the fork block have it as an ancestor. */
  lemma {:induction false} LinkedFromFork(links: map<Id, Link>, first: Id, ids: seq<Id>, n: nat)
    requires Tree(links) && first in links && Linked(links, first, ids) && n <= |ids|
    ensures Ancestor(links, first, LastOf(first, ids[..n]))
    decreases n
  {
    if n == 0 {
      assert Path(links, first)[0] == first;
    } else {
      LinkedFromFork(links, first, ids, n - 1);
      assert links[ids[n - 1]].prev == Prior(first, ids, n - 1) == LastOf(first, ids[..n - 1]);
      assert Path(links, ids[n - 1]) == [ids[n - 1]] + Path(links, links[ids[n - 1]].prev);
    }
  }

  lemma {:induction false} SwitchKeepsSealed<V>(
    was: Stage<V>, c: Id, best: Id, content: Copies<Rows<V>>, result: SwitchResult, br: Branches, now: Stage<V>)
    requires SealedAt(was, c) && Checked(was, best, content, result, br, now)
    requires result.Switched? || result.BadBlock? ==> best in was.packs && was.head in was.packs
    ensures SealedAt(now, c)
  {
    if result.Switched? || result.BadBlock? {
      var links := Links(was.packs);
      BranchShape(links, was.head, best, br);
      var ids := Reversed(br.second);
      var n := if result.Switched? then |br.second| else result.applied;
      LinkedFromFork(links, br.fork, ids, n);
      assert Path(links, was.head)[|br.first|] == br.fork;
      assert Ancestor(links, br.fork, was.head);
      MoveKeepsSealed(was.packs, was.links, was.head, c, now.head);
      SameLinksKeepSealed(was.packs, was.links, now.head, c, now.packs);
    }
  }

  lemma {:induction false} SameLinksKeepSealed(packs: Packs, links: map<Id, Link>, head: Id, c: Id, after: Packs)
    requires Sealed(packs, links, head, c) && Links(after) == Links(packs)
    ensures Sealed(after, links, head, c)
  {
    forall id | id in after ensures RecordedAt(after, links, id) && AboveAt(after, c.num, id) {
      SameLink(packs, after, id);
      assert RecordedAt(packs, links, id) && AboveAt(packs, c.num, id);
    }
  }

  /** Looking for a better branch never leads to the sealed one, however often it is done. */
  lemma {:induction false} LookKeepsSealed<V>(
    was: Stage<V>, c: Id, best: Id, content: Copies<Rows<V>>, result: SwitchResult, br: Branches, now: Stage<V>)
    requires SealedAt(was, c) && Checked(was, best, content, result, br, now)
    ensures SealedAt(now, c)
    ensures Ancestor(was.links, c, best) ==> result.Stayed? || result.NoCommonAncestor?
  {
    FoundMeansStored(was.packs, was.head, best);
    SwitchKeepsSealed(was, c, best, content, result, br, now);
    if Ancestor(was.links, c, best) {
      SealedIsUnreachable(was.packs, was.links, was.head, c, best);
    }
  }

  /** A block of another branch: stored, settled, committed, and a better branch looked for. */
  lemma {:induction false} PushForkKeepsSealed<V(!new)>(
    was: Stage<V>, c: Id, open: Copies<Rows<V>>, building: bool,
    child: Id, prev: Id, arrival: Arrival, block: Block<V>, best: Id, r: ForkResult,
    due: seq<Id>, taken: nat, br: Branches, mid: Stage<V>, content: Copies<Rows<V>>, now: Stage<V>)
    requires Healthy(was) && SealedAt(was, c) && child.num == prev.num + 1 && ArrivalOk(child, arrival)
    requires ForkPushed(
               was, open, building, child, prev, arrival, block, best, r, due, taken, br, mid, content, now)
    requires r.NotStored? ==> now == was
    ensures SealedAt(now, c)
  {
    if !r.NotStored? {
      AddedKeepsSealed(
        was, c, child, prev, arrival, block, best, r.Looked?, due, taken, mid.(copies := was.copies));
      if r.Looked? {
        LookKeepsSealed(mid, c, best, content, r.result, br, now);
      }
    }
  }

  /** A block after the head, unless the fork database then prefers another block. */
  lemma {:induction false} ExtendKeepsSealed<V>(
    was: Stage<V>, c: Id, open: Rows<V>, id: Id, arrival: Arrival, block: Block<V>,
    best: Id, ok: bool, due: seq<Id>, taken: nat, now: Stage<V>, content: Copies<Rows<V>>, r: Extension)
    requires Healthy(was) && SealedAt(was, c) && id.num == was.head.num + 1 && ArrivalOk(id, arrival)
    requires ExtendedBy(was, open, id, arrival, block, best, ok, due, taken, now, content, r)
    requires r.Torn? ==> !ok
    ensures SealedAt(now, c)
  {
    if r.Accepted? || r.Torn? {
      var before := now.(head := was.head, copies := was.copies);
      AddedKeepsSealed(was, c, id, was.head, arrival, block, best, ok, due, taken, before);
      if r.Accepted? {
        ChildKeepsSealed(now.packs, now.links, was.head, c, id);
      }
    }
  }
}
