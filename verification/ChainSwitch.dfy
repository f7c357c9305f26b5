/**
 What a switch from one branch to another does, as values.
 */
module ChainSwitch {
  import opened Optional
  import opened SnapshotStack
  import opened Database
  import opened Replay
  import opened ForkTree
  import opened ForkBranch
  import opened ForkConfirm
  import opened ForkMarks
  import opened ForkLog
  import opened ForkReport
  import opened ChainHistory

  ghost function Reversed(ids: seq<Id>): (r: seq<Id>)
    ensures |r| == |ids| && forall i :: 0 <= i < |ids| ==> r[i] == ids[|ids| - 1 - i]
  {
    seq(|ids|, i requires 0 <= i < |ids| => ids[|ids| - 1 - i])
  }

  method ReverseIds(ids: seq<Id>) returns (r: seq<Id>)
    ensures r == Reversed(ids)
  {
    r := [];
    for i := 0 to |ids|
      invariant |r| == i && forall k :: 0 <= k < i ==> r[k] == ids[|ids| - 1 - k]
    {
      r := r + [ids[|ids| - 1 - i]];
    }
  }

  ghost function LastOf(first: Id, ids: seq<Id>): Id {
    if ids == [] then first else ids[|ids| - 1]
  }

  /** The block listed before position `i`. */
  ghost function Prior(first: Id, ids: seq<Id>, i: nat): Id
    requires i <= |ids|
  {
    if i == 0 then first else ids[i - 1]
  }

  /** The listed blocks are stored and follow one another, starting after `first`. */
  ghost predicate Linked(links: map<Id, Link>, first: Id, ids: seq<Id>) {
    forall i :: 0 <= i < |ids| ==> ids[i] in links && links[ids[i]].prev == Prior(first, ids, i)
  }

  /**
   Applying the listed blocks to `from`, one session each, gives `to`. The first signer is looked
   up in `check`.
   */
  ghost predicate Replayed<V>(
    blocks: map<Id, Block<V>>, ids: seq<Id>, check: Rows<V>, from: Copies<Rows<V>>, to: Copies<Rows<V>>)
  {
    (forall id :: id in ids ==> id in blocks) && ReplayCopies(BlocksOf(blocks, ids), check, from) == Some(to)
  }

  ghost predicate Fails<V>(blocks: map<Id, Block<V>>, id: Id, check: Rows<V>, rows: Rows<V>) {
    id in blocks && BlockMeaning(blocks[id], check, rows).None?
  }

  lemma {:induction false} NextIsChild(links: map<Id, Link>, packs: Packs, first: Id, ids: seq<Id>, n: nat)
    requires links == Links(packs) && Linked(links, first, ids) && n < |ids|
    ensures ids[n] in packs && packs[ids[n]].prev == LastOf(first, ids[..n])
  {
    assert links[ids[n]].prev == Prior(first, ids, n);
  }

  lemma {:induction false} ReplayedNone<V>(blocks: map<Id, Block<V>>, check: Rows<V>, c: Copies<Rows<V>>)
    ensures Replayed(blocks, [], check, c, c)
  {
    assert BlocksOf(blocks, []) == [];
  }

  /** The content in which the signer of the next listed block is looked up. */
  ghost function CheckFor<V>(n: nat, check: Rows<V>, now: Copies<Rows<V>>): Rows<V> {
    if n == 0 then check else now.now
  }

  lemma {:induction false} OneMore<V>(
    blocks: map<Id, Block<V>>, ids: seq<Id>, n: nat, check: Rows<V>, start: Copies<Rows<V>>, before: Copies<Rows<V>>)
    requires n < |ids| && ids[n] in blocks && Replayed(blocks, ids[..n], check, start, before)
    requires BlockMeaning(blocks[ids[n]], CheckFor(n, check, before), before.now).Some?
    ensures var after := BlockMeaning(blocks[ids[n]], CheckFor(n, check, before), before.now).value;
            Replayed(blocks, ids[..n + 1], check, start, Applied(before, after))
  {
    var block := blocks[ids[n]];
    assert ids[..n + 1] == ids[..n] + [ids[n]];
    assert BlocksOf(blocks, ids[..n + 1]) == BlocksOf(blocks, ids[..n]) + [block];
    ReplayCopiesAppend(BlocksOf(blocks, ids[..n]), block, check, start);
    assert [block][1..] == [];
  }

  lemma {:induction false} OriginEmpty(links: map<Id, Link>, head: Id, newHead: Id, r: Branches)
    requires Tree(links) && head in links && SplitsAtFork(links, head, newHead, r)
    ensures r.first == [] <==> Ancestor(links, head, newHead)
  {
    assert Path(links, head)[0] == head;
    if r.first == [] {
      assert head == r.fork;
      assert Path(links, newHead)[|r.second|] == r.fork;
    } else {
      assert r.first[0] == head;
    }
  }

  lemma {:induction false} BranchShape(links: map<Id, Link>, head: Id, newHead: Id, r: Branches)
    requires Tree(links) && head in links && newHead in links && SplitsAtFork(links, head, newHead, r)
    ensures |r.first| < |Path(links, head)| && Path(links, head)[|r.first|] == r.fork
    ensures links[r.fork].num == links[head].num - |r.first|
    ensures Linked(links, r.fork, Reversed(r.second)) && newHead == LastOf(r.fork, Reversed(r.second))
  {
    PathNumbers(links, newHead);
    PathNumbers(links, head);
    assert Path(links, r.fork)[0] == r.fork;
    assert Path(links, head)[|r.first|] == r.fork && Path(links, newHead)[|r.second|] == r.fork;
    assert Path(links, newHead)[0] == newHead;
    BranchLinked(links, newHead, r);
  }

  lemma {:induction false} BranchLinked(links: map<Id, Link>, newHead: Id, r: Branches)
    requires Tree(links) && r.fork in links && Path(links, newHead) == r.second + Path(links, r.fork)
    ensures Linked(links, r.fork, Reversed(r.second))
  {
    PathLinks(links, newHead);
    var ids, n := Reversed(r.second), |r.second|;
    assert Path(links, newHead)[n] == r.fork;
    forall i | 0 <= i < n ensures ids[i] in links && links[ids[i]].prev == Prior(r.fork, ids, i) {
      assert ids[i] == Path(links, newHead)[n - 1 - i];
      assert Path(links, newHead)[n - i] == Prior(r.fork, ids, i);
    }
  }

  /** Where every stored block can be undone to, the origin branch is no longer than what can be undone. */
  lemma {:induction false} OriginUndoable(packs: Packs, base: nat, head: Id, newHead: Id, r: Branches, floor: int)
    requires Sound(packs, base) && AllAbove(packs, floor) && head in packs && newHead in packs
    requires SplitsAtFork(Links(packs), head, newHead, r)
    ensures |r.first| <= head.num - floor
  {
    BranchShape(Links(packs), head, newHead, r);
    assert AboveAt(packs, floor, r.fork) && PackOk(packs, base, head);
    assert Links(packs)[r.fork].num == packs[r.fork].num && Links(packs)[head].num == packs[head].num;
  }

  /**
   After a switch the content is the content the fork block left behind with the new branch
   replayed on it; the older copies are untouched and there is one more for each block of the
   new branch, so that the revision is again the number of the head.
   */
  lemma {:induction false} SwitchPreservesMeaning<V>(
    blocks: map<Id, Block<V>>, ids: seq<Id>, check: Rows<V>, before: Copies<Rows<V>>, m: nat, after: Copies<Rows<V>>)
    requires m <= |before.saved| && Replayed(blocks, ids, check, PopN(before, m), after)
    ensures var f := |before.saved| - m;
            && ReplayRows(BlocksOf(blocks, ids), check, Layers(before)[f]) == Some(after.now)
            && |after.saved| == f + |ids| && after.saved[..f] == before.saved[..f]
            && Layers(after)[f] == Layers(before)[f]
            && after.revision == before.revision - m + |ids|
  {
    PopNRestores(before, m);
    ReplayCopiesIsReplay(BlocksOf(blocks, ids), check, PopN(before, m));
  }

  /**
   Once a block off the chain of the head has become final and the blocks below it are gone, the
   head and that block's descendants have no common ancestor left: there is nothing to switch at.
   */
  lemma {:induction false} FinalElsewhereIsUnreachable(packs: Packs, base: nat, c: Id, head: Id, x: Id)
    requires Sound(packs, base) && c in packs && head in packs && x in packs
    requires Ancestor(Links(packs), c, x) && !Ancestor(Links(packs), c, head)
    ensures Tree(Links(Grown(packs, c, c.num)))
    ensures !HaveCommonAncestor(Links(Grown(packs, c, c.num)), head, x)
  {
    var links := Links(packs);
    var kept := Grown(packs, c, c.num);
    GrownIsTree(packs, c, c.num);
    assert PackOk(packs, base, c);
    forall y | Ancestor(Links(kept), y, head) && Ancestor(Links(kept), y, x) ensures false {
      AncestorNumber(Links(kept), y, head);
      PathAmongFewer(links, Links(kept), head);
      PathAmongFewer(links, Links(kept), x);
      assert Ancestor(links, y, head) && Ancestor(links, y, x);
      if y != c {
        assert links[c].num < links[y].num;
        AncestorNumber(links, y, x);
        assert y in Family(links, x) && Path(links, x)[0] == x;
        OnLine(links, y, x, c);
        PathTail(links, y, head);
      }
    }
  }

  // ---------------------------------------------------------------------
  // Block by block
  // ---------------------------------------------------------------------

  /** After `i` pops: a node in order, at the i-th ancestor, with `i` copies fewer. */
  ghost predicate PoppedBy<V>(was: Stage<V>, i: nat, now: Stage<V>) {
    && Healthy(was) && Healthy(now) && now.blocks == was.blocks && now.links == was.links
    && Links(now.packs) == Links(was.packs)
    && i < |Path(Links(was.packs), was.head)| && now.head == Path(Links(was.packs), was.head)[i]
    && now.copies == PopN(was.copies, i) && Floor(now.copies) == Floor(was.copies)
  }

  lemma {:induction false} PopOneMore<V>(was: Stage<V>, i: nat, now: Stage<V>)
    requires PoppedBy(was, i, now) && i + 1 < |Path(Links(was.packs), was.head)| && i < |was.copies.saved|
    ensures now.packs[now.head].prev in now.packs && now.copies.saved != [] && PoppedBy(was, i + 1, Popped(now))
  {
    var links := Links(was.packs);
    PathNumbers(links, was.head);
    PathLinks(links, was.head);
    assert Links(now.packs)[now.head].prev == now.packs[now.head].prev;
    assert Path(links, was.head)[i + 1] in Links(now.packs);
    PopNRestores(was.copies, i);
    PopNStep(was.copies, i);
    FlagKeepsLinks(now.packs, now.head, false);
    PopKeepsHealthy(now);
  }

  /** A node after `i` pops, one after the other. */
  ghost function PopTimes<V>(was: Stage<V>, i: nat): Stage<V> {
    if i == 0 then was
    else
      var s := PopTimes(was, i - 1);
      if s.head in s.packs then Popped(s) else s
  }

  lemma {:induction false} PopTimesIs<V>(was: Stage<V>, i: nat)
    requires Healthy(was) && i < |Path(Links(was.packs), was.head)| && i <= |was.copies.saved|
    ensures PoppedBy(was, i, PopTimes(was, i))
    decreases i
  {
    if i > 0 {
      PopTimesIs(was, i - 1);
      PopOneMore(was, i - 1, PopTimes(was, i - 1));
    } else {
      assert Path(Links(was.packs), was.head)[0] == was.head;
    }
  }

  /** As long as the path and the copies last, one more block can be popped. */
  lemma {:induction false} NextPop<V>(was: Stage<V>, i: nat)
    requires Healthy(was) && i + 1 < |Path(Links(was.packs), was.head)| && i < |was.copies.saved|
    ensures PopTimes(was, i).head in PopTimes(was, i).packs && PopTimes(was, i).copies.saved != []
    ensures PopTimes(was, i + 1) == Popped(PopTimes(was, i))
  {
    PopTimesIs(was, i);
    PopOneMore(was, i, PopTimes(was, i));
  }

  /**
   The first `n` listed blocks have been applied after the head of `was`: a node in order. `open` is
   the content in which the next signer will be looked up.
   */
  ghost predicate PushedBy<V>(was: Stage<V>, check: Rows<V>, ids: seq<Id>, n: nat, now: Stage<V>, open: Rows<V>) {
    && n <= |ids| && Healthy(now) && now.blocks == was.blocks && now.links == was.links
    && Links(now.packs) == Links(was.packs)
    && now.head == LastOf(was.head, ids[..n])
    && Replayed(now.blocks, ids[..n], check, was.copies, now.copies) && Floor(now.copies) == Floor(was.copies)
    && open == CheckFor(n, check, now.copies)
  }

  lemma {:induction false} PushNone<V>(was: Stage<V>, check: Rows<V>, ids: seq<Id>)
    requires Healthy(was)
    ensures PushedBy(was, check, ids, 0, was, check)
  {
    ReplayedNone(was.blocks, check, was.copies);
  }

  lemma {:induction false} NextIsStored<V>(
    was: Stage<V>, check: Rows<V>, ids: seq<Id>, n: nat, now: Stage<V>, open: Rows<V>)
    requires PushedBy(was, check, ids, n, now, open) && Linked(Links(was.packs), was.head, ids) && n < |ids|
    ensures ids[n] in now.packs && now.packs[ids[n]].prev == now.head && ids[n] in now.blocks
  {
    NextIsChild(Links(was.packs), now.packs, was.head, ids, n);
    StoredIsKnown(now, ids[n]);
  }

  lemma {:induction false} PushOneMore<V>(
    was: Stage<V>, check: Rows<V>, ids: seq<Id>, n: nat, now: Stage<V>, open: Rows<V>)
    requires PushedBy(was, check, ids, n, now, open) && Linked(Links(was.packs), was.head, ids) && n < |ids|
    requires ids[n] in now.blocks && BlockMeaning(now.blocks[ids[n]], open, now.copies.now).Some?
    ensures var after := BlockMeaning(now.blocks[ids[n]], open, now.copies.now).value;
            ids[n] in now.packs && PushedBy(was, check, ids, n + 1, Pushed(now, ids[n], after), after)
  {
    var after := BlockMeaning(now.blocks[ids[n]], open, now.copies.now).value;
    NextIsStored(was, check, ids, n, now, open);
    PushKeepsHealthy(now, ids[n], after);
    FlagKeepsLinks(now.packs, ids[n], true);
    OneMore(now.blocks, ids, n, check, was.copies, now.copies);
    assert ids[..n + 1][n] == ids[n];
  }

  /**
   A switch that got as far as `applied` blocks of the new branch: all popped blocks could be undone,
   and the copies are those of the fork block with the blocks replayed. `open` is the content in
   which the first signer was looked up.
   */
  ghost predicate SwitchedBy<V>(was: Stage<V>, open: Rows<V>, newHead: Id, br: Branches, applied: nat, now: Stage<V>) {
    && Tree(Links(was.packs)) && SplitsAtFork(Links(was.packs), was.head, newHead, br) && applied <= |br.second|
    && Healthy(now) && now.blocks == was.blocks && now.links == was.links
    && Links(now.packs) == Links(was.packs)
    && |br.first| <= |was.copies.saved| && Floor(now.copies) == Floor(was.copies)
    && now.head == LastOf(br.fork, Reversed(br.second)[..applied])
    && Replayed(now.blocks, Reversed(br.second)[..applied], open, PopN(was.copies, |br.first|), now.copies)
  }

  lemma {:induction false} ComposeSwitch<V>(
    was: Stage<V>, mid: Stage<V>, now: Stage<V>, check: Rows<V>, open: Rows<V>, newHead: Id, br: Branches, applied: nat)
    requires Healthy(was) && newHead in was.packs && SplitsAtFork(Links(was.packs), was.head, newHead, br)
    requires |br.first| <= |was.copies.saved| && PoppedBy(was, |br.first|, mid)
    requires PushedBy(mid, check, Reversed(br.second), applied, now, open)
    ensures SwitchedBy(was, check, newHead, br, applied, now)
    ensures applied == |br.second| ==> now.head == newHead
  {
    BranchShape(Links(was.packs), was.head, newHead, br);
    ComposeHeads(was, mid, now, check, open, br, applied);
    AllOfBranch(br.second, applied);
  }

  /**
   From a node in order: nothing is done exactly if the best block is the head or one of its ancestors;
   otherwise, where there is a stored common ancestor and the head is not an ancestor of the best block, the
   node switches, and ends at the best block or before the first block of its branch that fails.
   */
  lemma {:induction false} CheckedSays<V>(
    was: Stage<V>, best: Id, content: Copies<Rows<V>>, result: SwitchResult, br: Branches, now: Stage<V>)
    requires Healthy(was) && best in was.packs && Checked(was, best, content, result, br, now)
    ensures result.Stayed? <==> Ancestor(was.links, best, was.head)
    ensures result.Switched? || result.BadBlock? <==>
            && !Ancestor(was.links, best, was.head) && HaveCommonAncestor(Links(was.packs), was.head, best)
            && !Ancestor(Links(was.packs), was.head, best)
    ensures result.Switched? ==> now.head == best
    ensures !result.Switched? && !result.BadBlock? ==> now == was
  {
    assert UnfoldHint(0);
    assert FlagAt(was.packs, was.links, was.head, best);
  }

  lemma {:induction false} AllOfBranch(branch: seq<Id>, n: nat)
    ensures n == |branch| ==> Reversed(branch)[..n] == Reversed(branch)
  {
  }

  lemma {:induction false} ComposeHeads<V>(
    was: Stage<V>, mid: Stage<V>, now: Stage<V>, check: Rows<V>, open: Rows<V>, br: Branches, applied: nat)
    requires PoppedBy(was, |br.first|, mid) && Path(Links(was.packs), was.head)[|br.first|] == br.fork
    requires PushedBy(mid, check, Reversed(br.second), applied, now, open)
    ensures Healthy(now) && now.blocks == was.blocks && now.links == was.links
            && Links(now.packs) == Links(was.packs)
    ensures Floor(now.copies) == Floor(was.copies) && applied <= |br.second|
    ensures now.head == LastOf(br.fork, Reversed(br.second)[..applied])
    ensures Replayed(now.blocks, Reversed(br.second)[..applied], check, PopN(was.copies, |br.first|), now.copies)
  {
  }

  /** What makes a switch possible: the origin branch is stored as far as the fork block and can be undone. */
  lemma {:induction false} SwitchReady<V>(was: Stage<V>, newHead: Id, br: Branches)
    requires Healthy(was) && AllAbove(was.packs, Floor(was.copies)) && newHead in was.packs
    requires SplitsAtFork(Links(was.packs), was.head, newHead, br)
    ensures |br.first| <= |was.copies.saved| && |br.first| < |Path(Links(was.packs), was.head)|
    ensures Linked(Links(was.packs), Path(Links(was.packs), was.head)[|br.first|], Reversed(br.second))
    ensures br.first == [] <==> Ancestor(Links(was.packs), was.head, newHead)
  {
    assert UnfoldHint(0);
    OriginUndoable(was.packs, was.base, was.head, newHead, br, Floor(was.copies));
    BranchShape(Links(was.packs), was.head, newHead, br);
    OriginEmpty(Links(was.packs), was.head, newHead, br);
  }

  /**
   The outcome of a look for a better branch: none is needed; one is, but the fork cannot be found
   or the head lies on it; the switch was made; a block of the branch failed.
   */
  datatype SwitchResult = Stayed | NoCommonAncestor | EmptyOrigin | Switched | BadBlock(applied: nat)

  /** A better branch is needed: the best block is not a stored block of the main chain. */
  ghost predicate BranchWanted(packs: Packs, best: Id) {
    !(best in packs && packs[best].mainChain)
  }

  /** What a look for a better branch comes to. `content` is that of the database, an open session included. */
  ghost predicate Checked<V>(
    was: Stage<V>, best: Id, content: Copies<Rows<V>>, result: SwitchResult, br: Branches, now: Stage<V>)
  {
    var open := PopN(content, |br.first|).now;
    && Tree(Links(was.packs))
    && (result.Stayed? <==> !BranchWanted(was.packs, best))
    && (result.NoCommonAncestor? <==>
        BranchWanted(was.packs, best) && !HaveCommonAncestor(Links(was.packs), was.head, best))
    && (result.EmptyOrigin? <==>
        BranchWanted(was.packs, best) && HaveCommonAncestor(Links(was.packs), was.head, best)
        && Ancestor(Links(was.packs), was.head, best))
    && match result
       case Switched => now.head == best && SwitchedBy(was, open, best, br, |br.second|, now)
       case BadBlock(applied) =>
         && applied < |br.second| && SwitchedBy(was, open, best, br, applied, now)
         && Fails(now.blocks, Reversed(br.second)[applied], CheckFor(applied, open, now.copies), now.copies.now)
       case _ => now == was
  }

  lemma {:induction false} ForkIsCommon(links: map<Id, Link>, head: Id, newHead: Id, br: Branches)
    requires Tree(links) && head in links && newHead in links && SplitsAtFork(links, head, newHead, br)
    ensures HaveCommonAncestor(links, head, newHead) && (br.first == [] <==> Ancestor(links, head, newHead))
  {
    OriginEmpty(links, head, newHead, br);
    BranchShape(links, head, newHead, br);
    assert Path(links, newHead)[|br.second|] == br.fork && Path(links, head)[|br.first|] == br.fork;
    assert Ancestor(links, br.fork, newHead) && Ancestor(links, br.fork, head);
  }

  lemma {:induction false} StillUndoable(packs: Packs, after: Packs, floor: int)
    requires Links(after) == Links(packs) && AllAbove(packs, floor)
    ensures AllAbove(after, floor)
  {
    forall id | id in after ensures AboveAt(after, floor, id) {
      SameLink(packs, after, id);
      assert AboveAt(packs, floor, id);
    }
  }

  lemma {:induction false} SwitchArrives<V>(
    was: Stage<V>, open: Rows<V>, newHead: Id, br: Branches, applied: nat, now: Stage<V>)
    requires newHead in was.packs && was.head in was.packs && SwitchedBy(was, open, newHead, br, applied, now)
    ensures applied == |br.second| ==> now.head == newHead
  {
    BranchShape(Links(was.packs), was.head, newHead, br);
    AllOfBranch(br.second, applied);
  }

  lemma {:induction false} SwitchStaysUndoable<V>(
    was: Stage<V>, open: Rows<V>, newHead: Id, br: Branches, applied: nat, now: Stage<V>)
    requires AllAbove(was.packs, Floor(was.copies)) && SwitchedBy(was, open, newHead, br, applied, now)
    ensures AllAbove(now.packs, Floor(now.copies))
  {
    StillUndoable(was.packs, now.packs, Floor(now.copies));
  }

  lemma {:induction false} SwitchIsChecked<V>(
    was: Stage<V>, best: Id, content: Copies<Rows<V>>, result: SwitchResult, br: Branches, applied: nat, now: Stage<V>)
    requires Healthy(was) && AllAbove(was.packs, Floor(was.copies)) && BranchWanted(was.packs, best) &&
             best in was.packs
    requires br.first != [] && result == (if applied == |br.second| then Switched else BadBlock(applied))
    requires SwitchedBy(was, PopN(content, |br.first|).now, best, br, applied, now)
    requires applied < |br.second| ==>
               Fails(now.blocks, Reversed(br.second)[applied],
                     CheckFor(applied, PopN(content, |br.first|).now, now.copies), now.copies.now)
    ensures Checked(was, best, content, result, br, now)
  {
    ForkIsCommon(Links(was.packs), was.head, best, br);
    SwitchArrives(was, PopN(content, |br.first|).now, best, br, applied, now);
  }
}
