/**
 When reports go wrong: for every database of a certain shape, and at a smallest example.
 */
module ForkCases {
  import opened ForkTree
  import opened ForkConfirm
  import opened ForkMarks
  import opened ForkLog
  import opened ForkReport
  import BlockId

  // ---------------------------------------------------------------------
  // A block added below a confirmed one
  // ---------------------------------------------------------------------

  /** A new block names a proper ancestor of `c` as its predecessor. */
  ghost predicate Below(packs: Packs, base: nat, logHead: Id, c: Id, child: Id, prev: Id, arrival: Arrival) {
    && Sound(packs, base) && LogOk(packs, base, logHead) && c in packs && prev in packs && prev != c
    && Ancestor(Links(packs), prev, c) && child !in packs && child.num == prev.num + 1 && ArrivalOk(child, arrival)
  }

  /**
   A block added under a proper ancestor of a confirmed block inherits the mark without being on
   the path. It is listed in the report of the confirmed block, which the log therefore never takes
   completely, and nothing is removed.
   */
  lemma {:induction false} AddedBelowIsRefused(
    packs: Packs, base: nat, logHead: Id, c: Id, child: Id, prev: Id, arrival: Arrival,
    ok: bool, due: seq<Id>, taken: nat, after: Packs)
    requires Below(packs, base, logHead, c, child, prev, arrival)
    requires Growth(Inserted(Confirmed(packs, c), child, prev, arrival), c, logHead, ok, due, taken, after)
    ensures child in due && !ok && after.Keys == packs.Keys + {child}
  {
    var more := Inserted(Confirmed(packs, c), child, prev, arrival);
    AddedBelowIsStray(packs, base, logHead, c, child, prev, arrival);
    if ok {
      CompleteIsPath(more, base, c, logHead, due);
    }
  }

  lemma {:induction false} AddedBelowIsStray(
    packs: Packs, base: nat, logHead: Id, c: Id, child: Id, prev: Id, arrival: Arrival)
    requires Below(packs, base, logHead, c, child, prev, arrival)
    ensures var more := Inserted(Confirmed(packs, c), child, prev, arrival);
            && Sound(more, base) && LogOk(more, base, logHead) && OwnMark(more, c)
            && IsDue(more, c, c.num, child) && !NoStrayMark(more, c)
  {
    var more := Inserted(Confirmed(packs, c), child, prev, arrival);
    AddedIsSound(packs, base, logHead, c, child, prev, arrival);
    AncestorNumber(Links(packs), prev, c);
    assert PackOk(packs, base, c) && PackOk(packs, base, prev) && PackOk(more, base, c) && PackOk(more, base, child);
    assert prev in Family(Links(packs), c);
    assert IsDue(more, c, more[c].num, child);
    if Ancestor(Links(more), child, c) {
      AncestorNumber(Links(packs), child, c);
    }
  }

  lemma {:induction false} AddedIsSound(
    packs: Packs, base: nat, logHead: Id, c: Id, child: Id, prev: Id, arrival: Arrival)
    requires Below(packs, base, logHead, c, child, prev, arrival)
    ensures var more := Inserted(Confirmed(packs, c), child, prev, arrival);
            && Sound(more, base) && LogOk(more, base, logHead) && OwnMark(more, c)
            && Path(Links(more), c) == Path(Links(packs), c) && Unheard(Confirmed(packs, c), child)
  {
    ConfirmKeepsValid(packs, base, logHead, c);
    FamilyHead(packs, c);
    MoreIsSound(Confirmed(packs, c), base, logHead, c, child, prev, arrival);
  }

  lemma {:induction false} MoreIsSound(
    packs: Packs, base: nat, logHead: Id, c: Id, child: Id, prev: Id, arrival: Arrival)
    requires Sound(packs, base) && LogOk(packs, base, logHead) && c in packs && packs[c].confirmedId == c
    requires prev in packs && child !in packs && child.num == prev.num + 1 && ArrivalOk(child, arrival)
    ensures var more := Inserted(packs, child, prev, arrival);
            && Sound(more, base) && LogOk(more, base, logHead) && OwnMark(more, c)
            && Path(Links(more), c) == Path(Links(packs), c) && Unheard(packs, child)
  {
    InsertKeepsValid(packs, base, logHead, child, prev, arrival);
    InsertKeepsSound(packs, child, prev, arrival, base);
    PathAfterInsert(packs, Inserted(packs, child, prev, arrival), child, c);
  }

  /** The unreported path to a block, or the block itself if there is none, follows the log. */
  ghost predicate LogReaches(packs: Packs, logHead: Id, id: Id)
    requires Tree(Links(packs))
  {
    if Pending(packs, id) == [] then id == logHead else Follows(packs, logHead, Pending(packs, id))
  }

  /**
   The added block enters the log, before the path block `q` of its own number, exactly if it is on
   the main chain and the log reaches its predecessor; unless the two have the same flag, when the
   one listed first does.
   */
  lemma {:induction false} AddedBelowEnters(
    packs: Packs, base: nat, logHead: Id, c: Id, q: Id, child: Id, prev: Id, arrival: Arrival,
    ok: bool, due: seq<Id>, taken: nat, after: Packs)
    requires Below(packs, base, logHead, c, child, prev, arrival) && NoStrayMark(packs, c)
    requires q in packs && Ancestor(Links(packs), q, c) && packs[q].prev == prev
    requires Growth(Inserted(Confirmed(packs, c), child, prev, arrival), c, logHead, ok, due, taken, after)
    ensures child in due[..taken] ==> LogReaches(packs, logHead, prev) && q !in due[..taken]
    ensures arrival.mainChain != packs[q].mainChain ==>
              (child in due[..taken] <==> arrival.mainChain && LogReaches(packs, logHead, prev))
  {
    if child in due[..taken] {
      AddedFollows(packs, base, logHead, c, q, child, prev, arrival, ok, due, taken, after);
    }
    if arrival.mainChain && !packs[q].mainChain && LogReaches(packs, logHead, prev) {
      AddedFirst(packs, base, logHead, c, q, child, prev, arrival, ok, due, taken, after);
    }
  }

  lemma {:induction false} AddedFollows(
    packs: Packs, base: nat, logHead: Id, c: Id, q: Id, child: Id, prev: Id, arrival: Arrival,
    ok: bool, due: seq<Id>, taken: nat, after: Packs)
    requires Below(packs, base, logHead, c, child, prev, arrival)
    requires q in packs && Ancestor(Links(packs), q, c) && packs[q].prev == prev
    requires Growth(Inserted(Confirmed(packs, c), child, prev, arrival), c, logHead, ok, due, taken, after)
    requires child in due[..taken]
    ensures LogReaches(packs, logHead, prev) && q !in due[..taken] && (packs[q].mainChain ==> arrival.mainChain)
  {
    var more := Inserted(Confirmed(packs, c), child, prev, arrival);
    AddedBelowIsStray(packs, base, logHead, c, child, prev, arrival);
    PendingAdded(packs, base, logHead, c, child, prev, arrival);
    var k :| 0 <= k < taken && due[k] == child;
    EntersExactly(more, base, c, logHead, due, taken, k);
    PathBlockIsDue(packs, base, logHead, c, q, child, prev, arrival);
    MainChainFirst(more, base, c, logHead, due, taken, child, q);
  }

  lemma {:induction false} AddedFirst(
    packs: Packs, base: nat, logHead: Id, c: Id, q: Id, child: Id, prev: Id, arrival: Arrival,
    ok: bool, due: seq<Id>, taken: nat, after: Packs)
    requires Below(packs, base, logHead, c, child, prev, arrival) && NoStrayMark(packs, c)
    requires q in packs && Ancestor(Links(packs), q, c) && packs[q].prev == prev
    requires Growth(Inserted(Confirmed(packs, c), child, prev, arrival), c, logHead, ok, due, taken, after)
    requires arrival.mainChain && !packs[q].mainChain && LogReaches(packs, logHead, prev)
    ensures child in due[..taken]
  {
    var more := Inserted(Confirmed(packs, c), child, prev, arrival);
    AddedBelowIsStray(packs, base, logHead, c, child, prev, arrival);
    AddedContinues(packs, base, logHead, c, child, prev, arrival);
    assert PackOk(packs, base, q) && PackOk(more, base, child);
    forall y | IsDue(more, c, c.num, y) && y != child && more[y].num == more[child].num
      ensures !more[y].mainChain
    {
      DueBelow(packs, base, logHead, c, child, prev, arrival, y);
      AncestorUnique(Links(packs), y, q, c);
      SameLink(packs, Confirmed(packs, c), q);
    }
    AloneEnters(more, base, c, logHead, due, taken, child);
  }

  /** Inserting a block leaves what is pending up to any other block. */
  lemma {:induction false} PendingAfterInsert(packs: Packs, child: Id, prev: Id, arrival: Arrival, id: Id)
    requires Tree(Links(packs)) && Unheard(packs, child) && prev in packs && id != child
    requires Tree(Links(Inserted(packs, child, prev, arrival)))
    ensures Pending(Inserted(packs, child, prev, arrival), id) == Pending(packs, id)
    decreases if id in packs then packs[id].num else 0
  {
    if id in packs {
      var before := packs[id].prev;
      assert before in packs ==> Links(packs)[id].num == Links(packs)[before].num + 1;
      PendingAfterInsert(packs, child, prev, arrival, before);
    }
  }

  lemma {:induction false} PendingOfChild(packs: Packs, child: Id, prev: Id, arrival: Arrival)
    requires Tree(Links(packs)) && Unheard(packs, child) && prev in packs && child !in packs
    requires Tree(Links(Inserted(packs, child, prev, arrival)))
    ensures Pending(Inserted(packs, child, prev, arrival), child) == Pending(packs, prev) + [child]
  {
    PendingAfterInsert(packs, child, prev, arrival, prev);
  }

  lemma {:induction false} FollowsWithChild(
    packs: Packs, more: Packs, logHead: Id, list: seq<Id>, child: Id, prev: Id)
    requires child in more && more[child].prev == prev && forall id :: id in list ==> id in packs && id in more
    requires forall id :: id in list ==> more[id].prev == packs[id].prev
    ensures Follows(more, logHead, list + [child]) <==>
            if list == [] then prev == logHead else Follows(packs, logHead, list)
  {
    if list != [] {
      assert list[0] in list && (list + [child])[0] == list[0];
    }
  }

  lemma {:induction false} PendingAdded(
    packs: Packs, base: nat, logHead: Id, c: Id, child: Id, prev: Id, arrival: Arrival)
    requires Below(packs, base, logHead, c, child, prev, arrival)
    ensures var more := Inserted(Confirmed(packs, c), child, prev, arrival);
            && Tree(Links(more)) && Pending(more, child) == Pending(packs, prev) + [child]
            && (LogReaches(packs, logHead, prev) <==> Follows(more, logHead, Pending(more, child)))
  {
    var marked := Confirmed(packs, c);
    AddedIsSound(packs, base, logHead, c, child, prev, arrival);
    PendingOfChild(marked, child, prev, arrival);
    PendingSame(packs, c, prev);
    PendingOnPath(packs, prev);
    forall id | id in Pending(packs, prev) ensures id in marked && marked[id].prev == packs[id].prev && id != child {
      SameLink(packs, marked, id);
    }
    FollowsWithChild(
      packs, Inserted(marked, child, prev, arrival), logHead, Pending(packs, prev), child, prev);
  }

  /** The path block is due as well: had it been reported, the log would have passed the predecessor. */
  lemma {:induction false} PathBlockIsDue(
    packs: Packs, base: nat, logHead: Id, c: Id, q: Id, child: Id, prev: Id, arrival: Arrival)
    requires Below(packs, base, logHead, c, child, prev, arrival)
    requires q in packs && Ancestor(Links(packs), q, c) && packs[q].prev == prev
    requires LogReaches(packs, logHead, prev)
    ensures var more := Inserted(Confirmed(packs, c), child, prev, arrival);
            IsDue(more, c, c.num, q) && more[q].num == child.num && more[q].mainChain == packs[q].mainChain
  {
    var marked := Confirmed(packs, c);
    assert PackOk(packs, base, q) && PackOk(packs, base, prev) && PackOk(packs, base, c);
    assert LoggedAt(packs, logHead, q);
    PendingIsChain(packs, prev, base);
    AncestorNumber(Links(packs), q, c);
    assert q in Family(Links(packs), c);
    SameLink(packs, marked, q);
  }

  /** Every other due block is an ancestor of the confirmed one. */
  lemma {:induction false} DueBelow(
    packs: Packs, base: nat, logHead: Id, c: Id, child: Id, prev: Id, arrival: Arrival, y: Id)
    requires Below(packs, base, logHead, c, child, prev, arrival) && NoStrayMark(packs, c)
    requires y != child && IsDue(Inserted(Confirmed(packs, c), child, prev, arrival), c, c.num, y)
    ensures y in packs && Ancestor(Links(packs), y, c) && packs[y].num == y.num
    ensures Inserted(Confirmed(packs, c), child, prev, arrival)[y].num == y.num
  {
    var marked := Confirmed(packs, c);
    assert y in marked && PackOk(packs, base, y) && PackOk(packs, base, c);
    SameLink(packs, marked, y);
    DueIsAncestor(packs, c, y);
  }

  lemma {:induction false} PathAdded(
    packs: Packs, base: nat, logHead: Id, c: Id, child: Id, prev: Id, arrival: Arrival)
    requires Below(packs, base, logHead, c, child, prev, arrival)
    ensures var more := Inserted(Confirmed(packs, c), child, prev, arrival);
            && Tree(Links(more)) && more[child].num == child.num == packs[prev].num + 1 && packs[prev].num == prev.num
            && Path(Links(more), child) == [child] + Path(Links(packs), prev)
  {
    var marked := Confirmed(packs, c);
    var more := Inserted(marked, child, prev, arrival);
    ConfirmKeepsSound(packs, c, base);
    InsertKeepsSound(marked, child, prev, arrival, base);
    PathAfterInsert(marked, more, child, prev);
    assert PackOk(more, base, child) && PackOk(packs, base, prev);
    assert Links(more)[child].prev == prev;
  }

  lemma {:induction false} AddedContinues(
    packs: Packs, base: nat, logHead: Id, c: Id, child: Id, prev: Id, arrival: Arrival)
    requires Below(packs, base, logHead, c, child, prev, arrival) && NoStrayMark(packs, c)
    requires LogReaches(packs, logHead, prev) && arrival.mainChain
    ensures var more := Inserted(Confirmed(packs, c), child, prev, arrival);
            Tree(Links(more)) && Continues(more, c, logHead, child)
  {
    var more := Inserted(Confirmed(packs, c), child, prev, arrival);
    PathAdded(packs, base, logHead, c, child, prev, arrival);
    PendingAdded(packs, base, logHead, c, child, prev, arrival);
    forall y | IsDue(more, c, c.num, y) && Precedes(more[y], more[child])
      ensures Ancestor(Links(more), y, child)
    {
      DueBelow(packs, base, logHead, c, child, prev, arrival, y);
      assert prev in Links(packs) && c in Family(Links(packs), prev);
      OnLine(Links(packs), prev, c, y);
    }
    forall y | y in more && Ancestor(Links(more), y, child) && !more[y].reported
      ensures IsDue(more, c, c.num, y)
    {
      AddedPathIsDue(packs, base, logHead, c, child, prev, arrival, y);
    }
  }

  lemma {:induction false} AddedPathIsDue(
    packs: Packs, base: nat, logHead: Id, c: Id, child: Id, prev: Id, arrival: Arrival, y: Id)
    requires Below(packs, base, logHead, c, child, prev, arrival)
    requires y == child || Ancestor(Links(packs), y, prev)
    ensures var more := Inserted(Confirmed(packs, c), child, prev, arrival);
            y in more && (!more[y].reported ==> IsDue(more, c, c.num, y))
  {
    var links := Links(packs);
    if y == child {
      AddedBelowIsStray(packs, base, logHead, c, child, prev, arrival);
    } else {
      AncestorNumber(links, y, prev);
      AncestorNumber(links, prev, c);
      PathTail(links, prev, c);
      assert Ancestor(links, y, c) && y in Family(links, c);
      assert PackOk(packs, base, c);
      SameLink(packs, Confirmed(packs, c), y);
    }
  }

  // ---------------------------------------------------------------------
  // A block under two confirmed ones
  // ---------------------------------------------------------------------

  /**
   A block under two unrelated confirmed blocks carries the mark of the later one only. It is missing
   in the report of the earlier one. The log therefore takes no block above it, never the whole
   report, and nothing is removed.
   */
  lemma {:induction false} MarkedTwiceIsRefused(
    packs: Packs, base: nat, logHead: Id, c: Id, d: Id, y: Id,
    ok: bool, due: seq<Id>, taken: nat, after: Packs)
    requires Sound(packs, base) && LogOk(packs, base, logHead) && c in packs && d in packs && y in packs
    requires !Related(Links(packs), c, d) && Ancestor(Links(packs), y, c) && Ancestor(Links(packs), y, d)
    requires !packs[y].reported
    requires Growth(Confirmed(Confirmed(packs, c), d), c, logHead, ok, due, taken, after)
    ensures y !in due && !ok && after.Keys == packs.Keys
    ensures forall x :: x in due[..taken] ==> !Ancestor(Links(packs), y, x)
  {
    var once := Confirmed(packs, c);
    var twice := Confirmed(once, d);
    ConfirmKeepsValid(packs, base, logHead, c);
    ConfirmKeepsValid(once, base, logHead, d);
    TwiceMarked(packs, base, c, d, y);
    if ok {
      CompleteIsPath(twice, base, c, logHead, due);
    }
    forall x | x in due[..taken] ensures !Ancestor(Links(packs), y, x) {
      var k :| 0 <= k < taken && due[k] == x;
      EntersExactly(twice, base, c, logHead, due, taken, k);
    }
  }

  lemma {:induction false} TwiceMarked(packs: Packs, base: nat, c: Id, d: Id, y: Id)
    requires Sound(packs, base) && c in packs && d in packs && y in packs && !Related(Links(packs), c, d)
    requires Ancestor(Links(packs), y, c) && Ancestor(Links(packs), y, d) && !packs[y].reported
    ensures var twice := Confirmed(Confirmed(packs, c), d);
            && twice[c].confirmedId == c && !PathMarked(twice, c) && !twice[y].reported
            && !IsDue(twice, c, c.num, y)
  {
    var once := Confirmed(packs, c);
    var twice := Confirmed(once, d);
    assert Path(Links(packs), c)[0] == c && Path(Links(packs), d)[0] == d;
    assert y in Family(Links(once), d) && c !in Family(Links(once), d) && c in Family(Links(packs), c);
    AncestorNumber(Links(packs), y, c);
    AncestorNumber(Links(packs), y, d);
    SameLink(packs, once, y);
    SameLink(once, twice, y);
    assert Ancestor(Links(twice), y, c) && !twice[y].reported;
  }

  /** Without a stray mark, a path that follows the log is taken completely. */
  lemma {:induction false} CleanIsTaken(
    packs: Packs, base: nat, logHead: Id, c: Id, ok: bool, due: seq<Id>, taken: nat, after: Packs)
    requires Sound(packs, base) && LogOk(packs, base, logHead) && c in packs && NoStrayMark(packs, c)
    requires Follows(packs, logHead, Pending(packs, c))
    requires Growth(Confirmed(packs, c), c, logHead, ok, due, taken, after)
    ensures ok && due == Pending(packs, c) && after == Grown(Confirmed(packs, c), c, packs[c].num)
  {
    var marked := Confirmed(packs, c);
    ConfirmKeepsValid(packs, base, logHead, c);
    FamilyHead(packs, c);
    assert PackOk(packs, base, c);
    PendingSame(packs, c, c);
    ReportIsPath(packs, c, due);
    GrowReportIsPath(marked, c, due);
    PendingOnPath(packs, c);
    if due != [] {
      SameLink(packs, marked, due[0]);
    }
    CompleteExactly(marked, base, c, logHead, due, taken);
  }

  // ---------------------------------------------------------------------
  // A smallest example
  // ---------------------------------------------------------------------

  const GENESIS := BlockId.Id(1, 0, 0)
  const A2 := BlockId.Id(2, 1, 0)
  const A3 := BlockId.Id(3, 1, 0)
  const B3 := BlockId.Id(3, 2, 0)
  const C3 := BlockId.Id(3, 3, 0)

  function After(prev: Id, num: nat, main: bool): Pack {
    Pack(prev, num, 1, GENESIS, 0, EMPTY_CHAIN_ID, false, main)
  }

  /** The first block, one after it, and one of another branch after that. */
  function ThreeBlocks(): Packs {
    map[GENESIS := FirstPack(GENESIS), A2 := After(GENESIS, 2, true), B3 := After(A2, 3, false)]
  }

  ghost predicate OnlyB(packs: Packs) {
    forall k: nat {:trigger UnfoldHint(k)} :: UnfoldHint(k) ==> packs == ThreeBlocks()
  }

  /** Besides, one of the main chain. */
  ghost predicate Fork(packs: Packs) {
    forall k: nat {:trigger UnfoldHint(k)} :: UnfoldHint(k) ==> packs == ThreeBlocks()[A3 := After(A2, 3, true)]
  }

  lemma {:induction false} ExampleSound(packs: Packs)
    requires OnlyB(packs) || Fork(packs)
    ensures Sound(packs, 1) && LogOk(packs, 1, GENESIS)
    ensures GENESIS in packs && A2 in packs && B3 in packs
  {
    assert UnfoldHint(0);
    forall id | id in packs ensures PackOk(packs, 1, id) && LoggedAt(packs, GENESIS, id) {
    }
    PacksOkIsSound(packs, 1);
  }

  /** No block knows a later confirmation than that of the first block. */
  lemma {:induction false} ExampleMarks(packs: Packs)
    requires (OnlyB(packs) || Fork(packs)) && Sound(packs, 1)
    ensures forall id :: id in packs ==> packs[id].confirmedId == GENESIS && packs[id].confirmedNum == 1
    ensures forall id :: id in packs ==> packs[id].num <= 3 && packs[id].dposNum == 0
    ensures A2 in packs && !packs[A2].reported
    ensures B3 in packs && packs[B3].prev == A2 && !packs[B3].mainChain
    ensures Fork(packs) ==> A3 in packs && packs[A3].prev == A2 && packs[A3].mainChain
  {
    assert UnfoldHint(0);
  }

  lemma {:induction false} ExamplePaths(packs: Packs)
    requires (OnlyB(packs) || Fork(packs)) && Sound(packs, 1)
    ensures Path(Links(packs), A2) == [A2, GENESIS] && Path(Links(packs), B3) == [B3, A2, GENESIS]
    ensures Fork(packs) ==> Path(Links(packs), A3) == [A3, A2, GENESIS]
    ensures Pending(packs, A2) == [A2] && Pending(packs, B3) == [A2, B3]
    ensures LogReaches(packs, GENESIS, A2)
  {
    assert UnfoldHint(0);
    var links := Links(packs);
    assert links[B3].prev == A2 && links[A2].prev == GENESIS;
    assert links[GENESIS].prev == EMPTY_CHAIN_ID && EMPTY_CHAIN_ID !in links;
    assert Path(links, GENESIS) == [GENESIS] + Path(links, EMPTY_CHAIN_ID);
    assert Path(links, A2) == [A2] + Path(links, GENESIS);
    assert Pending(packs, GENESIS) == [];
  }

  lemma {:induction false} ExampleAncestors(packs: Packs)
    requires (OnlyB(packs) || Fork(packs)) && Sound(packs, 1)
    ensures Ancestor(Links(packs), A2, B3) && Ancestor(Links(packs), B3, B3)
    ensures Fork(packs) ==> Ancestor(Links(packs), A2, A3) && Ancestor(Links(packs), A3, A3)
    ensures Fork(packs) ==> !Related(Links(packs), A3, B3)
  {
    ExamplePaths(packs);
  }

  const OWN := Arrival(0, EMPTY_CHAIN_ID, true)
  const FOREIGN := Arrival(0, EMPTY_CHAIN_ID, false)

  /**
   A confirmation of B3, and then the node's own block A3 on the common predecessor: A3 is the best
   block, and the log takes A3 in place of B3 before it refuses B3.
   */
  lemma {:induction false} StrayInTheLog(packs: Packs, ok: bool, due: seq<Id>, taken: nat, after: Packs)
    requires OnlyB(packs) && Sound(packs, 1) && B3 in packs && A2 in packs
    requires Tree(Links(Inserted(Confirmed(packs, B3), A3, A2, OWN)))
    requires Settlement(Inserted(Confirmed(packs, B3), A3, A2, OWN), GENESIS, A3, ok, due, taken, after)
    ensures IsBest(Inserted(Confirmed(packs, B3), A3, A2, OWN), A3)
    ensures A3 in due[..taken] && B3 !in due[..taken] && !ok && after.Keys == packs.Keys + {A3}
  {
    OwnIsBest(packs);
    SettlementIsGrowth(Inserted(Confirmed(packs, B3), A3, A2, OWN), GENESIS, A3, ok, due, taken, after);
    OwnIsTaken(packs, ok, due, taken, after);
  }

  lemma {:induction false} OwnIsTaken(packs: Packs, ok: bool, due: seq<Id>, taken: nat, after: Packs)
    requires OnlyB(packs) && Sound(packs, 1) && B3 in packs && A2 in packs
    requires Growth(Inserted(Confirmed(packs, B3), A3, A2, OWN), B3, GENESIS, ok, due, taken, after)
    ensures A3 in due[..taken] && B3 !in due[..taken] && !ok && after.Keys == packs.Keys + {A3}
  {
    ExampleSound(packs);
    ExampleMarks(packs);
    ExamplePaths(packs);
    ExampleAncestors(packs);
    NewIds(packs);
    assert Below(packs, 1, GENESIS, B3, A3, A2, OWN);
    AddedBelowIsRefused(packs, 1, GENESIS, B3, A3, A2, OWN, ok, due, taken, after);
    AddedBelowEnters(packs, 1, GENESIS, B3, B3, A3, A2, OWN, ok, due, taken, after);
  }

  lemma {:induction false} SettlementIsGrowth(
    packs: Packs, logHead: Id, head: Id, ok: bool, due: seq<Id>, taken: nat, after: Packs)
    requires Tree(Links(packs)) && head in packs && GrowsByConfirm(packs, head)
    requires Settlement(packs, logHead, head, ok, due, taken, after)
    ensures Growth(packs, packs[head].confirmedId, logHead, ok, due, taken, after)
  {
  }

  lemma {:induction false} OwnIsBest(packs: Packs)
    requires OnlyB(packs) && Sound(packs, 1) && B3 in packs && A2 in packs
    ensures var more := Inserted(Confirmed(packs, B3), A3, A2, OWN);
            && IsBest(more, A3) && more[A3].confirmedId == B3 && GrowsByConfirm(more, A3)
  {
    var marked := Confirmed(packs, B3);
    var more := Inserted(marked, A3, A2, OWN);
    ExampleMarks(packs);
    ExamplePaths(packs);
    ExampleSound(packs);
    assert A2 in Family(Links(packs), B3);
    assert more[A3].confirmedNum == 3 && marked[A2].num == 2;
    assert more[A2].num == 2 && more[A2].num < more[A3].confirmedNum;
    forall id | id in more ensures !Better(more[id], more[A3]) {
      if id != A3 {
        assert id in packs;
        SameLink(packs, marked, id);
        assert marked[id].confirmedNum <= 3;
      }
    }
  }

  /** A confirmation of A3, and then a block C3 of another branch: the log refuses at C3. */
  lemma {:induction false} StrayRefused(packs: Packs, ok: bool, due: seq<Id>, taken: nat, after: Packs)
    requires Fork(packs) && Sound(packs, 1) && A3 in packs && A2 in packs
    requires Growth(Inserted(Confirmed(packs, A3), C3, A2, FOREIGN), A3, GENESIS, ok, due, taken, after)
    ensures C3 in due && C3 !in due[..taken] && !ok && after.Keys == packs.Keys + {C3}
  {
    ExampleSound(packs);
    ExampleMarks(packs);
    ExamplePaths(packs);
    ExampleAncestors(packs);
    NewIds(packs);
    assert Below(packs, 1, GENESIS, A3, C3, A2, FOREIGN);
    AddedBelowIsRefused(packs, 1, GENESIS, A3, C3, A2, FOREIGN, ok, due, taken, after);
    AddedBelowEnters(packs, 1, GENESIS, A3, A3, C3, A2, FOREIGN, ok, due, taken, after);
  }

  lemma {:induction false} NewIds(packs: Packs)
    ensures OnlyB(packs) ==> A3 !in packs
    ensures Fork(packs) ==> C3 !in packs
  {
    assert UnfoldHint(0);
  }

  /** Confirmations of A3 and then of B3: the log takes nothing above A2 for A3, and nothing is removed. */
  lemma {:induction false} TwiceRefused(packs: Packs, ok: bool, due: seq<Id>, taken: nat, after: Packs)
    requires Fork(packs) && Sound(packs, 1) && A3 in packs && B3 in packs
    requires Growth(Confirmed(Confirmed(packs, A3), B3), A3, GENESIS, ok, due, taken, after)
    ensures A2 !in due && A3 !in due[..taken] && !ok && after.Keys == packs.Keys
  {
    ExampleSound(packs);
    ExampleMarks(packs);
    ExampleAncestors(packs);
    MarkedTwiceIsRefused(packs, 1, GENESIS, A3, B3, A2, ok, due, taken, after);
  }

  /**
   With A3 as the head, a confirmation of B3 makes B3 better than any block after A3 that knows no
   later irreversibility; and once B3 takes effect, the log takes all of its path and A3 is gone.
   */
  lemma {:induction false} ConfirmedElsewhere(
    packs: Packs, arrival: Arrival, ok: bool, due: seq<Id>, taken: nat, after: Packs)
    requires Fork(packs) && Sound(packs, 1) && A3 in packs && B3 in packs
    requires Growth(Confirmed(packs, B3), B3, GENESIS, ok, due, taken, after)
    ensures var marked := Confirmed(packs, B3); Better(marked[B3], Child(marked[A3], A3, arrival))
    ensures ok && due == [A2, B3] && A3 !in after
  {
    ExampleSound(packs);
    ExampleMarks(packs);
    ExamplePaths(packs);
    ExampleAncestors(packs);
    assert Follows(packs, GENESIS, Pending(packs, B3));
    CleanIsTaken(packs, 1, GENESIS, B3, ok, due, taken, after);
    KeptAfter(packs, B3);
    MarkedElsewhere(packs, B3, A3);
    NumberOf(packs, 1, A3);
    NumberOf(packs, 1, B3);
  }

  lemma {:induction false} MarkedElsewhere(packs: Packs, c: Id, other: Id)
    requires Tree(Links(packs)) && c in packs && other in packs && !Related(Links(packs), other, c)
    ensures Confirmed(packs, c)[other] == packs[other]
    ensures Confirmed(packs, c)[c].confirmedNum == packs[c].num
  {
    FamilyHead(packs, c);
  }
}
