/**
 The chain of blocks over time: every block that was ever stored, the stored ones among them,
 the flags of the main chain, and what the copies in the database have to do with it.
 */
module ChainHistory {
  import opened Optional
  import opened SnapshotStack
  import opened Database
  import opened Replay
  import opened ForkTree
  import opened ForkConfirm
  import opened ForkMarks
  import opened ForkLog
  import opened ForkReport

  ghost function BlocksOf<V>(blocks: map<Id, Block<V>>, ids: seq<Id>): seq<Block<V>>
    requires forall id :: id in ids ==> id in blocks
  {
    seq(|ids|, i requires 0 <= i < |ids| => assert ids[i] in ids; blocks[ids[i]])
  }

  ghost predicate EntryOk(links: map<Id, Link>, id: Id)
    requires id in links
  {
    && links[id].num == id.num && id.num == links[id].prev.num + 1
    && (links[id].prev in links || id.num == 1)
  }

  /** Every block ever stored has the number its id carries and, but for the first, a predecessor that was stored. */
  ghost predicate HistoryOk(links: map<Id, Link>) {
    forall id {:trigger EntryOk(links, id)} :: id in links ==> EntryOk(links, id)
  }

  lemma {:induction false} HistoryIsTree(links: map<Id, Link>)
    requires HistoryOk(links)
    ensures Tree(links)
  {
    forall id | id in links
      ensures links[id].num > 0 && (links[id].prev in links ==> links[links[id].prev].num + 1 == links[id].num)
    {
      assert EntryOk(links, id);
      assert links[id].prev in links ==> EntryOk(links, links[id].prev);
    }
  }

  ghost predicate RecordedAt(packs: Packs, links: map<Id, Link>, id: Id)
    requires id in packs
  {
    id in links && links[id] == Link(packs[id].prev, packs[id].num)
  }

  /** Stored blocks are blocks of the history. */
  ghost predicate Recorded(packs: Packs, links: map<Id, Link>) {
    forall id {:trigger RecordedAt(packs, links, id)} :: id in packs ==> RecordedAt(packs, links, id)
  }

  ghost predicate GoneAt(packs: Packs, links: map<Id, Link>, base: nat, id: Id) {
    id in links && id !in packs ==> id.num <= base
  }

  /** What is stored no longer lies at or below the pruned number. */
  ghost predicate GoneBelow(packs: Packs, links: map<Id, Link>, base: nat) {
    forall id {:trigger GoneAt(packs, links, base, id)} :: GoneAt(packs, links, base, id)
  }

  ghost predicate FlagAt(packs: Packs, links: map<Id, Link>, head: Id, id: Id)
    requires Tree(links) && id in packs
  {
    packs[id].mainChain <==> Ancestor(links, id, head)
  }

  /** Exactly the head and its ancestors are flagged as main chain. */
  ghost predicate MainFlags(packs: Packs, links: map<Id, Link>, head: Id)
    requires Tree(links)
  {
    forall id {:trigger FlagAt(packs, links, head, id)} :: id in packs ==> FlagAt(packs, links, head, id)
  }

  /** Stored blocks, history and flags fit together. */
  ghost predicate StoredOk(packs: Packs, base: nat, links: map<Id, Link>, head: Id) {
    && Sound(packs, base) && MarksOk(packs)
    && HistoryOk(links) && Tree(links) && Recorded(packs, links) && GoneBelow(packs, links, base)
    && head in packs && MainFlags(packs, links, head)
  }

  /** The chain seen from a block, newest first. */
  ghost function ChainOf<V>(links: map<Id, Link>, blocks: map<Id, Block<V>>, id: Id): (chain: seq<Block<V>>)
    requires Tree(links) && links.Keys == blocks.Keys
    ensures |chain| == |Path(links, id)|
  {
    PathNumbers(links, id);
    BlocksOf(blocks, Path(links, id))
  }

  /** The copies are the contents between successive blocks of the chain, and the revision is the head's number. */
  ghost predicate Backed<V>(links: map<Id, Link>, blocks: map<Id, Block<V>>, head: Id, c: Copies<Rows<V>>) {
    && Tree(links) && links.Keys == blocks.Keys
    && Explains(ChainOf(links, blocks, head), c) && c.revision == head.num
  }

  /** The number of the block before the oldest that can still be undone. */
  ghost function Floor<S>(c: Copies<S>): int {
    c.revision - |c.saved|
  }

  /** A node at one moment; the copies are those apart from any block under construction. */
  datatype Stage<!V> = Stage(
    packs: Packs,
    base: nat,
    logHead: Id,
    links: map<Id, Link>,
    blocks: map<Id, Block<V>>,
    head: Id,
    copies: Copies<Rows<V>>)

  /** What every node in order satisfies. */
  ghost predicate Healthy<V>(s: Stage<V>) {
    && s.head in s.packs && Tree(Links(s.packs)) && Tree(s.links)
    && forall k: nat {:trigger UnfoldHint(k)} :: UnfoldHint(k) ==> HealthyParts(s)
  }

  ghost predicate HealthyParts<V>(s: Stage<V>) {
    && StoredOk(s.packs, s.base, s.links, s.head) && LogOk(s.packs, s.base, s.logHead)
    && Backed(s.links, s.blocks, s.head, s.copies) && Covered(s.packs, Floor(s.copies))
  }

  // ---------------------------------------------------------------------
  // Flags
  // ---------------------------------------------------------------------

  /** Moving the head to a stored child of the head and flagging the child. */
  lemma {:induction false} FlagChild(packs: Packs, base: nat, logHead: Id, links: map<Id, Link>, head: Id, child: Id)
    requires StoredOk(packs, base, links, head) && LogOk(packs, base, logHead)
    requires child in packs && packs[child].prev == head
    ensures StoredOk(WithFlag(packs, child, true), base, links, child)
    ensures LogOk(WithFlag(packs, child, true), base, logHead)
  {
    var flagged := WithFlag(packs, child, true);
    FlagKeeps(packs, base, logHead, child, true);
    assert RecordedAt(packs, links, child);
    assert Path(links, child) == [child] + Path(links, head);
    FlagRecorded(packs, base, links, child, true);
    forall id | id in flagged ensures FlagAt(flagged, links, child, id) {
      assert FlagAt(packs, links, head, id);
    }
  }

  lemma {:induction false} FlagRecorded(packs: Packs, base: nat, links: map<Id, Link>, id: Id, flag: bool)
    requires Recorded(packs, links) && GoneBelow(packs, links, base) && id in packs
    ensures Recorded(WithFlag(packs, id, flag), links) && GoneBelow(WithFlag(packs, id, flag), links, base)
  {
    var flagged := WithFlag(packs, id, flag);
    forall k | k in flagged ensures RecordedAt(flagged, links, k) {
      assert RecordedAt(packs, links, k);
    }
    forall k ensures GoneAt(flagged, links, base, k) {
      assert GoneAt(packs, links, base, k);
    }
  }

  /** Moving the head to its stored predecessor and clearing the old head's flag. */
  lemma {:induction false} FlagParent(packs: Packs, base: nat, logHead: Id, links: map<Id, Link>, head: Id)
    requires StoredOk(packs, base, links, head) && LogOk(packs, base, logHead) && packs[head].prev in packs
    ensures StoredOk(WithFlag(packs, head, false), base, links, packs[head].prev)
    ensures LogOk(WithFlag(packs, head, false), base, logHead)
  {
    var flagged := WithFlag(packs, head, false);
    FlagKeeps(packs, base, logHead, head, false);
    var prev := packs[head].prev;
    assert RecordedAt(packs, links, head) && RecordedAt(packs, links, prev);
    assert Path(links, head) == [head] + Path(links, prev);
    if Ancestor(links, head, prev) {
      AncestorNumber(links, head, prev);
    }
    FlagRecorded(packs, base, links, head, false);
    forall id | id in flagged ensures FlagAt(flagged, links, prev, id) {
      assert FlagAt(packs, links, head, id);
    }
  }

  // ---------------------------------------------------------------------
  // New blocks
  // ---------------------------------------------------------------------

  function Longer(links: map<Id, Link>, child: Id, prev: Id): map<Id, Link> {
    links[child := Link(prev, child.num)]
  }

  /** A block after a stored one that is not stored was never stored. */
  lemma {:induction false} NewIsNew(packs: Packs, base: nat, links: map<Id, Link>, child: Id, prev: Id)
    requires Sound(packs, base) && Recorded(packs, links) && GoneBelow(packs, links, base)
    requires child !in packs && prev in packs && child.num == prev.num + 1
    ensures child !in links && prev in links
  {
    assert PackOk(packs, base, prev) && RecordedAt(packs, links, prev) && GoneAt(packs, links, base, child);
  }

  /** A longer history has the same paths and one more. */
  lemma {:induction false} LongerPaths(links: map<Id, Link>, child: Id, prev: Id)
    requires HistoryOk(links) && Tree(links) && child !in links && prev in links && child.num == prev.num + 1
    ensures HistoryOk(Longer(links, child, prev)) && Tree(Longer(links, child, prev))
    ensures forall k :: k in links ==> Path(Longer(links, child, prev), k) == Path(links, k)
    ensures Path(Longer(links, child, prev), child) == [child] + Path(links, prev)
  {
    var more := Longer(links, child, prev);
    forall k | k in more ensures EntryOk(more, k) {
      assert k in links ==> EntryOk(links, k);
    }
    HistoryIsTree(more);
    forall k | k in links ensures links[k].prev != child {
      assert EntryOk(links, k);
    }
    forall k | k in links ensures Path(more, k) == Path(links, k) {
      PathAfterNew(links, more, child, k);
    }
  }

  lemma {:induction false} InsertRecorded(
    packs: Packs, base: nat, links: map<Id, Link>, child: Id, prev: Id, arrival: Arrival)
    requires Recorded(packs, links) && GoneBelow(packs, links, base) && child !in links
    requires prev in packs && packs[prev].num == prev.num && child.num == prev.num + 1
    ensures Recorded(Inserted(packs, child, prev, arrival), Longer(links, child, prev))
    ensures GoneBelow(Inserted(packs, child, prev, arrival), Longer(links, child, prev), base)
  {
    var more, longer := Inserted(packs, child, prev, arrival), Longer(links, child, prev);
    forall id | id in more ensures RecordedAt(more, longer, id) {
      assert id in packs ==> RecordedAt(packs, links, id);
    }
    forall id ensures GoneAt(more, longer, base, id) {
      assert GoneAt(packs, links, base, id);
    }
  }

  /** The flags after an insertion: of a block that is not flagged, or of a flagged one that becomes the head. */
  lemma {:induction false} InsertFlags(
    packs: Packs, links: map<Id, Link>, more: map<Id, Link>, head: Id, child: Id, prev: Id, arrival: Arrival)
    requires Tree(links) && Tree(more) && MainFlags(packs, links, head) && head in packs && prev in packs
    requires child !in links && child !in packs && Recorded(packs, links) && Path(more, head) == Path(links, head)
    requires Path(more, child) == [child] + Path(links, prev)
    ensures !arrival.mainChain ==> MainFlags(Inserted(packs, child, prev, arrival), more, head)
    ensures arrival.mainChain && prev == head ==> MainFlags(Inserted(packs, child, prev, arrival), more, child)
  {
    if Ancestor(links, child, head) {
      AncestorNumber(links, child, head);
    }
    var stored := Inserted(packs, child, prev, arrival);
    forall id | id in stored
      ensures !arrival.mainChain ==> FlagAt(stored, more, head, id)
      ensures arrival.mainChain && prev == head ==> FlagAt(stored, more, child, id)
    {
      assert id in packs ==> FlagAt(packs, links, head, id);
    }
  }

  /** Storing a block of another branch, or one built on the head or applied to it. */
  lemma {:induction false} InsertKeepsStored(
    packs: Packs, base: nat, logHead: Id, links: map<Id, Link>, head: Id, child: Id, prev: Id, arrival: Arrival)
    requires StoredOk(packs, base, links, head) && LogOk(packs, base, logHead)
    requires child !in packs && prev in packs && child.num == prev.num + 1 && ArrivalOk(child, arrival)
    ensures child !in links && Tree(Longer(links, child, prev))
    ensures Path(Longer(links, child, prev), head) == Path(links, head)
    ensures Path(Longer(links, child, prev), child) == [child] + Path(links, prev)
    ensures !arrival.mainChain ==>
              StoredOk(Inserted(packs, child, prev, arrival), base, Longer(links, child, prev), head)
    ensures arrival.mainChain && prev == head ==>
              StoredOk(Inserted(packs, child, prev, arrival), base, Longer(links, child, prev), child)
  {
    NewIsNew(packs, base, links, child, prev);
    LongerPaths(links, child, prev);
    InsertKeepsValid(packs, base, logHead, child, prev, arrival);
    assert PackOk(packs, base, prev);
    InsertRecorded(packs, base, links, child, prev, arrival);
    InsertFlags(packs, links, Longer(links, child, prev), head, child, prev, arrival);
  }

  lemma {:induction false} BackedLonger<V>(
    links: map<Id, Link>, blocks: map<Id, Block<V>>, head: Id, c: Copies<Rows<V>>, child: Id, prev: Id, block: Block<V>)
    requires Backed(links, blocks, head, c) && child !in links && head in links
    requires Tree(Longer(links, child, prev)) && Path(Longer(links, child, prev), head) == Path(links, head)
    ensures Backed(Longer(links, child, prev), blocks[child := block], head, c)
  {
    var more, bs := Longer(links, child, prev), blocks[child := block];
    PathNumbers(links, head);
    assert ChainOf(more, bs, head) == ChainOf(links, blocks, head);
  }

  lemma {:induction false} BackedChild<V>(
    links: map<Id, Link>, blocks: map<Id, Block<V>>, head: Id, c: Copies<Rows<V>>, child: Id, after: Rows<V>)
    requires Backed(links, blocks, head, c) && child in links && Path(links, child) == [child] + Path(links, head)
    requires child.num == head.num + 1 && BodyMeaning(blocks[child], c.now) == Some(after)
    ensures Backed(links, blocks, child, Applied(c, after))
  {
    assert ChainOf(links, blocks, child) == [blocks[child]] + ChainOf(links, blocks, head);
    ApplyExplains(ChainOf(links, blocks, head), c, blocks[child], after);
  }

  lemma {:induction false} BackedParent<V>(
    links: map<Id, Link>, blocks: map<Id, Block<V>>, head: Id, c: Copies<Rows<V>>, prev: Id)
    requires Backed(links, blocks, head, c) && head in links && Path(links, head) == [head] + Path(links, prev)
    requires head.num == prev.num + 1 && c.saved != []
    ensures Backed(links, blocks, prev, Pop(c))
  {
    assert ChainOf(links, blocks, head) == [blocks[head]] + ChainOf(links, blocks, prev);
    PopExplains(ChainOf(links, blocks, head), c);
    assert ChainOf(links, blocks, head)[1..] == ChainOf(links, blocks, prev);
  }

  // ---------------------------------------------------------------------
  // Marks and pruning
  // ---------------------------------------------------------------------

  /** Some of the blocks, with the same links and flags. */
  ghost predicate Fewer(packs: Packs, after: Packs) {
    forall id :: id in after ==>
                   id in packs && after[id].prev == packs[id].prev && after[id].num == packs[id].num
                   && after[id].mainChain == packs[id].mainChain
  }

  lemma {:induction false} FewerKeeps(packs: Packs, after: Packs, base: nat, lower: nat, links: map<Id, Link>, head: Id)
    requires StoredOk(packs, base, links, head) && Fewer(packs, after) && head in after
    requires Sound(after, lower) && MarksOk(after) && base <= lower
    requires forall id :: id in packs && id !in after ==> packs[id].num <= lower
    ensures StoredOk(after, lower, links, head)
  {
    forall id ensures GoneAt(after, links, lower, id) {
      assert GoneAt(packs, links, base, id);
      if id in packs {
        assert PackOk(packs, base, id);
      }
    }
    forall id | id in after ensures RecordedAt(after, links, id) && FlagAt(after, links, head, id) {
      assert RecordedAt(packs, links, id) && FlagAt(packs, links, head, id);
    }
  }

  lemma {:induction false} ConfirmIsFewer(packs: Packs, c: Id)
    requires Tree(Links(packs)) && c in packs
    ensures Fewer(packs, Confirmed(packs, c)) && Confirmed(packs, c).Keys == packs.Keys
  {
    forall id | id in packs ensures Links(Confirmed(packs, c))[id] == Links(packs)[id] {
    }
  }

  lemma {:induction false} ConfirmKeepsStored(packs: Packs, base: nat, links: map<Id, Link>, head: Id, c: Id)
    requires StoredOk(packs, base, links, head) && c in packs && !Settles(packs, c)
    ensures StoredOk(Confirmed(packs, c), base, links, head)
  {
    ConfirmKeepsSound(packs, c, base);
    ConfirmKeepsMarksOk(packs, c);
    ConfirmIsFewer(packs, c);
    FewerKeeps(packs, Confirmed(packs, c), base, base, links, head);
  }

  lemma {:induction false} GrowthIsFewer(
    packs: Packs, c: Id, logHead: Id, ok: bool, due: seq<Id>, taken: nat, after: Packs)
    requires Growth(packs, c, logHead, ok, due, taken, after)
    ensures Fewer(packs, after)
    ensures ok ==> forall id :: id in packs && id !in after ==> packs[id].num <= c.num
    ensures !ok ==> after.Keys == packs.Keys
  {
  }

  /** Settling removes only blocks at or below the new pruned number. */
  lemma {:induction false} SettlementIsFewer(
    packs: Packs, base: nat, logHead: Id, head: Id, ok: bool, due: seq<Id>, taken: nat, after: Packs, lower: nat)
    requires Sound(packs, base) && head in packs && Settlement(packs, logHead, head, ok, due, taken, after)
    requires lower == PrunedTo(packs, base, head, ok)
    ensures Fewer(packs, after)
    ensures forall id :: id in packs && id !in after ==> packs[id].num <= lower
  {
    var h := packs[head];
    if GrowsByConfirm(packs, head) {
      assert PackOk(packs, base, head);
      GrowthIsFewer(packs, h.confirmedId, logHead, ok, due, taken, after);
    } else if GrowsByDpos(packs, head) && h.dposId in packs {
      ConfirmIsFewer(packs, h.dposId);
      GrowthIsFewer(Confirmed(packs, h.dposId), h.dposId, logHead, ok, due, taken, after);
    }
  }

  // ---------------------------------------------------------------------
  // Commits
  // ---------------------------------------------------------------------

  lemma {:induction false} ForgetTwice<S>(c: Copies<S>, a: int, b: int)
    requires a <= b
    ensures Forget(Forget(c, a), b) == Forget(c, b)
  {
    var k := Forgotten(|c.saved|, c.revision, a);
    var l := Forgotten(|c.saved| - k, c.revision, b);
    assert c.saved[k..][l..] == c.saved[k + l..];
  }

  /** A commit below the open session does not touch it. */
  lemma {:induction false} ForgetBelowOpen<S>(c: Copies<S>, n: int)
    requires c.saved != []
    ensures n < c.revision ==> Forget(c, n).saved != [] && Pop(Forget(c, n)) == Forget(Pop(c), n)
    ensures n >= c.revision ==> Forget(c, n).saved == []
  {
    if n < c.revision {
      var d := |c.saved|;
      var k := Forgotten(d, c.revision, n);
      assert c.saved[k..][..d - k - 1] == c.saved[..d - 1][k..];
    }
  }

  lemma {:induction false} ForgetFloor<S>(c: Copies<S>, n: int)
    ensures Floor(Forget(c, n)) <= Max(Floor(c), n) && Forget(c, n).revision == c.revision
  {
  }

  lemma {:induction false} BackedForget<V>(
    links: map<Id, Link>, blocks: map<Id, Block<V>>, head: Id, c: Copies<Rows<V>>, n: int)
    requires Backed(links, blocks, head, c)
    ensures Backed(links, blocks, head, Forget(c, n))
  {
    ForgetExplains(ChainOf(links, blocks, head), c, n);
  }

  // ---------------------------------------------------------------------
  // What the steps keep
  // ---------------------------------------------------------------------

  lemma {:induction false} ConfirmKeepsHealthy<V>(s: Stage<V>, z: Id)
    requires Healthy(s) && z in s.packs && !Settles(s.packs, z)
    ensures Healthy(s.(packs := Confirmed(s.packs, z)))
  {
    assert UnfoldHint(0);
    ConfirmKeepsStored(s.packs, s.base, s.links, s.head, z);
    ConfirmKeepsValid(s.packs, s.base, s.logHead, z);
    ConfirmKeepsCovered(s.packs, s.base, z, Floor(s.copies));
  }

  /** Flags do not change how far the marks reach. */
  lemma {:induction false} FlagCovered(packs: Packs, id: Id, flag: bool, floor: int)
    requires id in packs && Covered(packs, floor)
    ensures Covered(WithFlag(packs, id, flag), floor)
  {
    var flagged := WithFlag(packs, id, flag);
    if AllAbove(packs, floor) {
      forall k | k in flagged ensures AboveAt(flagged, floor, k) {
        assert AboveAt(packs, floor, k);
      }
    } else {
      var p :| p in packs && floor <= packs[p].confirmedNum;
      assert floor <= flagged[p].confirmedNum;
    }
  }

  /** The head goes back to its stored predecessor and the content to the copy before the block. */
  ghost function Popped<V>(s: Stage<V>): Stage<V>
    requires s.head in s.packs
  {
    s.(packs := WithFlag(s.packs, s.head, false), head := s.packs[s.head].prev, copies := Pop(s.copies))
  }

  lemma {:induction false} PopKeepsHealthy<V>(s: Stage<V>)
    requires Healthy(s) && s.packs[s.head].prev in s.packs && s.copies.saved != []
    ensures Healthy(Popped(s)) && Floor(Popped(s).copies) == Floor(s.copies)
  {
    assert UnfoldHint(0);
    var prev := s.packs[s.head].prev;
    FlagParent(s.packs, s.base, s.logHead, s.links, s.head);
    assert RecordedAt(s.packs, s.links, s.head) && PackOk(s.packs, s.base, s.head);
    assert Path(s.links, s.head) == [s.head] + Path(s.links, prev);
    BackedParent(s.links, s.blocks, s.head, s.copies, prev);
    FlagCovered(s.packs, s.head, false, Floor(s.copies));
  }

  /** A stored child of the head becomes the head. */
  ghost function Pushed<V>(s: Stage<V>, id: Id, after: Rows<V>): Stage<V>
    requires id in s.packs
  {
    s.(packs := WithFlag(s.packs, id, true), head := id, copies := Applied(s.copies, after))
  }

  lemma {:induction false} PushKeepsHealthy<V>(s: Stage<V>, id: Id, after: Rows<V>)
    requires Healthy(s) && id in s.packs && s.packs[id].prev == s.head && id in s.blocks
    requires BodyMeaning(s.blocks[id], s.copies.now) == Some(after)
    ensures Healthy(Pushed(s, id, after)) && Floor(Pushed(s, id, after).copies) == Floor(s.copies)
  {
    assert UnfoldHint(0);
    FlagChild(s.packs, s.base, s.logHead, s.links, s.head, id);
    assert RecordedAt(s.packs, s.links, id) && PackOk(s.packs, s.base, id);
    assert Path(s.links, id) == [id] + Path(s.links, s.head);
    BackedChild(s.links, s.blocks, s.head, s.copies, id, after);
    FlagCovered(s.packs, id, true, Floor(s.copies));
  }

  lemma {:induction false} StoredIsKnown<V>(s: Stage<V>, id: Id)
    requires Healthy(s) && id in s.packs
    ensures id in s.blocks
  {
    assert UnfoldHint(0);
    assert RecordedAt(s.packs, s.links, id);
  }

  lemma {:induction false} FlagKeepsLinks(packs: Packs, id: Id, flag: bool)
    requires id in packs
    ensures Links(WithFlag(packs, id, flag)) == Links(packs)
  {
    assert Links(WithFlag(packs, id, flag)) == Links(packs);
  }

  /** A new block is stored. */
  ghost function Arrived<V>(s: Stage<V>, child: Id, prev: Id, arrival: Arrival, block: Block<V>): Stage<V>
    requires prev in s.packs
  {
    s.(packs := Inserted(s.packs, child, prev, arrival), links := Longer(s.links, child, prev),
    blocks := s.blocks[child := block])
  }

  /** A block of another branch. */
  lemma {:induction false} ForeignKeepsHealthy<V>(s: Stage<V>, child: Id, prev: Id, arrival: Arrival, block: Block<V>)
    requires Healthy(s) && !arrival.mainChain
    requires child !in s.packs && prev in s.packs && child.num == prev.num + 1 && ArrivalOk(child, arrival)
    ensures Healthy(Arrived(s, child, prev, arrival, block))
  {
    assert UnfoldHint(0);
    InsertKeepsStored(s.packs, s.base, s.logHead, s.links, s.head, child, prev, arrival);
    InsertKeepsValid(s.packs, s.base, s.logHead, child, prev, arrival);
    assert RecordedAt(s.packs, s.links, s.head);
    BackedLonger(s.links, s.blocks, s.head, s.copies, child, prev, block);
    InsertKeepsCovered(s.packs, child, prev, arrival, Floor(s.copies));
  }

  /** A block built on the head or applied to it, as the new head. */
  lemma {:induction false} OwnKeepsHealthy<V>(s: Stage<V>, child: Id, arrival: Arrival, block: Block<V>, after: Rows<V>)
    requires Healthy(s) && arrival.mainChain && BodyMeaning(block, s.copies.now) == Some(after)
    requires child !in s.packs && child.num == s.head.num + 1 && ArrivalOk(child, arrival)
    ensures Healthy(Arrived(s, child, s.head, arrival, block).(head := child, copies := Applied(s.copies, after)))
  {
    assert UnfoldHint(0);
    var t := Arrived(s, child, s.head, arrival, block);
    InsertKeepsStored(s.packs, s.base, s.logHead, s.links, s.head, child, s.head, arrival);
    InsertKeepsValid(s.packs, s.base, s.logHead, child, s.head, arrival);
    assert RecordedAt(s.packs, s.links, s.head);
    BackedLonger(s.links, s.blocks, s.head, s.copies, child, s.head, block);
    BackedChild(t.links, t.blocks, s.head, s.copies, child, after);
    InsertKeepsCovered(s.packs, child, s.head, arrival, Floor(s.copies));
  }

  /** The copies after the blocks that the log took have been committed. */
  ghost function Committed<S>(c: Copies<S>, due: seq<Id>, taken: nat): Copies<S>
    requires taken <= |due|
  {
    if taken == 0 then c else Forget(c, due[taken - 1].num)
  }

  /** What the log took can no longer be undone, and everything above it still can. */
  lemma {:induction false} CommittedExactly<S>(c: Copies<S>, due: seq<Id>, taken: nat, r: int)
    requires taken <= |due|
    ensures Alive(Committed(c, due, taken), r) <==> Alive(c, r) && (taken > 0 ==> r > due[taken - 1].num)
    ensures Alive(Committed(c, due, taken), r) ==> CopyAt(Committed(c, due, taken), r) == CopyAt(c, r)
  {
    if taken > 0 {
      ForgetsExactly(c, due[taken - 1].num, r);
    }
  }

  /** A settlement, with what it commits. */
  ghost function Settled<V>(s: Stage<V>, best: Id, ok: bool, due: seq<Id>, taken: nat, after: Packs): Stage<V>
    requires best in s.packs && taken <= |due|
  {
    s.(packs := after, base := PrunedTo(s.packs, s.base, best, ok), logHead := LogAfter(s.logHead, due, taken),
    copies := Committed(s.copies, due, taken))
  }

  /** Settling keeps a node in order if its head stays stored; taken completely, it leaves what can be undone to. */
  lemma {:induction false} SettleKeepsHealthy<V>(
    s: Stage<V>, best: Id, ok: bool, due: seq<Id>, taken: nat, after: Packs)
    requires Healthy(s) && IsBest(s.packs, best) && Settlement(s.packs, s.logHead, best, ok, due, taken, after)
    requires taken <= |due| && Sound(after, PrunedTo(s.packs, s.base, best, ok)) && s.head in after
    requires LogOk(after, PrunedTo(s.packs, s.base, best, ok), LogAfter(s.logHead, due, taken))
    ensures Healthy(Settled(s, best, ok, due, taken, after))
    ensures ok ==> AllAbove(after, Floor(Settled(s, best, ok, due, taken, after).copies))
    ensures ok ==> Final(due, taken) <= s.head.num
  {
    assert UnfoldHint(0);
    var lower := PrunedTo(s.packs, s.base, best, ok);
    PrunedGrows(s.packs, s.base, best, ok);
    SettlementFacts(s.packs, s.base, s.logHead, best, ok, due, taken, after);
    SettlementIsFewer(s.packs, s.base, s.logHead, best, ok, due, taken, after, lower);
    FewerKeeps(s.packs, after, s.base, lower, s.links, s.head);
    SettlementCovers(s.packs, s.base, s.logHead, best, ok, due, taken, after, Floor(s.copies));
    CommitKeeps(s, due, taken, after);
    if ok {
      assert AboveAt(after, Max(Floor(s.copies), Final(due, taken)), s.head) && PackOk(after, lower, s.head);
    }
  }

  lemma {:induction false} PrunedGrows(packs: Packs, base: nat, best: Id, ok: bool)
    requires Sound(packs, base) && IsBest(packs, best)
    ensures base <= PrunedTo(packs, base, best, ok)
  {
    BestKnowsMost(packs, base, best);
    assert PackOk(packs, base, best);
    if packs[best].dposId in packs {
      assert PackOk(packs, base, packs[best].dposId);
    }
  }

  lemma {:induction false} CommitKeeps<V>(s: Stage<V>, due: seq<Id>, taken: nat, after: Packs)
    requires taken <= |due| && Backed(s.links, s.blocks, s.head, s.copies)
    requires Covered(after, Max(Floor(s.copies), Final(due, taken)))
    ensures var c := Committed(s.copies, due, taken);
            && Backed(s.links, s.blocks, s.head, c) && Covered(after, Floor(c))
            && (AllAbove(after, Max(Floor(s.copies), Final(due, taken))) ==> AllAbove(after, Floor(c)))
  {
    var c := Committed(s.copies, due, taken);
    var high := Max(Floor(s.copies), Final(due, taken));
    if taken > 0 {
      BackedForget(s.links, s.blocks, s.head, s.copies, due[taken - 1].num);
      ForgetFloor(s.copies, due[taken - 1].num);
    }
    LowerFloor(after, high, Floor(c));
  }

  lemma {:induction false} LowerFloor(packs: Packs, high: int, low: int)
    requires low <= high
    ensures AllAbove(packs, high) ==> AllAbove(packs, low)
    ensures Covered(packs, high) ==> Covered(packs, low)
  {
    if AllAbove(packs, high) {
      forall id | id in packs ensures AboveAt(packs, low, id) {
        assert AboveAt(packs, high, id);
      }
    }
  }
}
