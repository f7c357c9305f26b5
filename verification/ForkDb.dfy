/**
 The fork database: stored blocks, the current best head, and what it has handed to the log of
 irreversible blocks.
 */
module ForkDb {
  import opened ForkTree
  import opened ForkConfirm
  import opened ForkMarks
  import opened ForkLog
  import opened ForkReport
  import BlockId

  class ForkContext {
    var packs: Packs
    var head: Id
    /** The block at the end of the log, and the blocks added to the log so far. */
    var logHead: Id
    var events: seq<Id>
    ghost var base: nat

    ghost predicate Valid()
      reads this
    {
      Sound(packs, base) && LogOk(packs, base, logHead)
    }

    /** An empty database that receives its first, already final, block. */
    constructor (genesis: Id)
      requires genesis.num == 1
      ensures Valid() && MarksRelated(packs) && MarksOk(packs)
      ensures packs == map[genesis := FirstPack(genesis)] && head == logHead == genesis && events == [] && base == 1
    {
      packs := map[genesis := FirstPack(genesis)];
      head, logHead, events, base := genesis, genesis, [], 1;
      new;
      PacksOkIsSound(packs, 1);
    }

    method UpdateHead()
      requires packs.Keys != {}
      modifies this`head
      ensures IsBest(packs, head)
      ensures head in packs && forall id :: id in packs ==> packs[id].confirmedNum <= packs[head].confirmedNum
      ensures forall id :: id in packs && packs[id].confirmedNum == packs[head].confirmedNum ==>
                             packs[id].dposNum <= packs[head].dposNum
      ensures forall id :: id in packs && packs[id].confirmedNum == packs[head].confirmedNum &&
                           packs[id].dposNum == packs[head].dposNum ==>
                             && packs[id].num <= packs[head].num
                             && (packs[id].num == packs[head].num && packs[id].mainChain ==> packs[head].mainChain)
    {
      var todo := packs.Keys;
      var first :| first in todo;
      head := first;
      todo := todo - {head};
      while todo != {}
        invariant head in packs && todo <= packs.Keys && head !in todo
        invariant forall id :: id in packs && id !in todo ==> !Better(packs[id], packs[head])
        decreases |todo|
      {
        var id :| id in todo;
        if Better(packs[id], packs[head]) {
          head := id;
        }
        todo := todo - {id};
      }
    }

    /** Marks the block, its stored ancestors and its stored descendants. */
    method SetLastConfirmed(c: Id) returns (ok: bool)
      requires Valid()
      modifies this`packs
      ensures Valid() && ok == (c in old(packs))
      ensures packs == if ok then Confirmed(old(packs), c) else old(packs)
    {
      ok := c in packs;
      if !ok {
        return;
      }
      ghost var links := Links(packs);
      var num := packs[c].num;
      NumberOf(packs, base, EMPTY_CHAIN_ID);
      packs := MarkUp(packs, c, num);
      PathIsUp(links, c);
      assert packs == MarkAll(old(packs), Up(links, c), c, num);
      var list := Descendants(packs, c);
      packs := MarkList(packs, list[1..], c, num);
      FamilyIsUpAndDown(links, c, list);
      MarkTwice(old(packs), Up(links, c), Elements(list[1..]), c, num);
      ConfirmKeepsValid(old(packs), base, logHead, c);
    }

    /** A block that gathered enough confirmations is marked, unless it knows one at or above itself. */
    method AddConfirmation(c: Id) returns (ok: bool)
      requires Valid()
      modifies this`packs
      ensures Valid() && ok == (c in old(packs))
      ensures packs == if ok && !Settles(old(packs), c) then Confirmed(old(packs), c) else old(packs)
      ensures ok && old(packs)[c].confirmedNum < old(packs)[c].num ==> packs == Confirmed(old(packs), c)
      ensures ok && old(packs)[c].confirmedNum >= old(packs)[c].num ==> packs == old(packs)
      ensures MarksOk(old(packs)) ==> MarksOk(packs)
    {
      ok := c in packs;
      if ok && packs[c].confirmedNum < packs[c].num {
        if MarksOk(packs) {
          ConfirmKeepsMarksOk(packs, c);
        }
        var _ := SetLastConfirmed(c);
      }
    }

    /**
     Reports every marked block at or below `num` that was not reported, lowest first, and
     removes every block at or below `num` except `c`. A block that the log does not take
     ends this at once, and then nothing is removed. What is taken completely is the unreported
     path to `c`, if `c` carries its own mark.
     */
    method OnLastConfirmedGrow(c: Id, num: nat) returns (ok: bool, due: seq<Id>, taken: nat)
      requires Valid() && num == c.num && base <= num
      modifies this`packs, this`events, this`logHead, this`base
      ensures Valid() && Growth(old(packs), c, old(logHead), ok, due, taken, packs)
      ensures ok && OwnMark(old(packs), c) ==> due == Pending(old(packs), c)
      ensures base == if ok then num else old(base)
      ensures events == old(events) + due[..taken] && logHead == LogAfter(old(logHead), due, taken)
    {
      var rem;
      due, rem := Collect(packs, c, num);
      taken := ReportAll(due);
      FlagKeepsValid(old(packs), base, old(logHead), due, taken);
      ok := taken == |due|;
      if ok {
        packs := packs - rem;
        CompleteGrowth(old(packs), base, c, old(logHead), due, rem);
        base := num;
      }
    }

    /** Hands each block to the log, which takes only the block after its head, and flags it. */
    method ReportAll(due: seq<Id>) returns (taken: nat)
      requires forall i :: 0 <= i < |due| ==> due[i] in packs
      modifies this`packs, this`events, this`logHead
      ensures Reported(old(packs), old(logHead), due, taken)
      ensures packs == Flagged(old(packs), Elements(due[..taken])) && events == old(events) + due[..taken]
      ensures logHead == LogAfter(old(logHead), due, taken)
    {
      taken := 0;
      ghost var was, log := packs, logHead;
      while taken < |due|
        invariant taken <= |due| && Reporting(was, log, due, taken, packs, logHead)
        invariant events == old(events) + due[..taken]
      {
        ReportingNext(was, log, due, taken, packs, logHead);
        var ok := HandToLog(due[taken]);
        if !ok {
          return;
        }
        taken := taken + 1;
      }
    }

    /** The log takes a block that follows its head; the block is then flagged. */
    method HandToLog(id: Id) returns (ok: bool)
      requires id in packs
      modifies this`packs, this`events, this`logHead
      ensures ok == (old(packs)[id].num == old(logHead).num + 1 && old(packs)[id].prev == old(logHead))
      ensures !ok ==> packs == old(packs) && logHead == old(logHead) && events == old(events)
      ensures ok ==> packs == old(packs)[id := old(packs)[id].(reported := true)]
      ensures ok ==> logHead == id && events == old(events) + [id]
    {
      ok := packs[id].num == logHead.num + 1 && packs[id].prev == logHead;
      if ok {
        logHead := id;
        events := events + [id];
        packs := packs[id := packs[id].(reported := true)];
      }
    }

    /** Marks and grows at once. */
    method ForceConfirm(c: Id) returns (ok: bool, due: seq<Id>, taken: nat)
      requires Valid() && c in packs
      modifies this`packs, this`events, this`logHead, this`base
      ensures Valid() && Growth(Confirmed(old(packs), c), c, old(logHead), ok, due, taken, packs)
      ensures base == if ok then c.num else old(base)
      ensures events == old(events) + due[..taken] && logHead == LogAfter(old(logHead), due, taken)
      ensures due == Pending(old(packs), c) <==> NoStrayMark(old(packs), c)
      ensures ok ==> due == Pending(old(packs), c)
    {
      NumberOf(packs, base, c);
      var _ := SetLastConfirmed(c);
      ok, due, taken := OnLastConfirmedGrow(c, c.num);
      ReportIsPath(old(packs), c, due);
      if ok {
        MarkedIsWhole(old(packs), old(base), c, old(logHead), due);
      }
    }

    /** Sets or clears the main-chain flag of a stored block. */
    method ChangeMainChainFlag(id: Id, flag: bool) returns (ok: bool)
      requires Valid()
      modifies this`packs
      ensures Valid() && ok == (id in old(packs))
      ensures packs == if ok then WithFlag(old(packs), id, flag) else old(packs)
    {
      ok := id in packs;
      if ok {
        FlagKeeps(packs, base, logHead, id, flag);
        packs := WithFlag(packs, id, flag);
      }
    }

    /** Links a block to its stored predecessor and chooses the head. */
    method Insert(child: Id, prev: Id, ghost summary: BlockId.Bits, arrival: Arrival) returns (ok: bool)
      requires Valid() && IdAfter(child, prev, summary) && ArrivalOk(child, arrival)
      modifies this`packs, this`head
      ensures Valid() && ok == (prev in old(packs) && child !in old(packs))
      ensures !ok ==> packs == old(packs) && head == old(head)
      ensures ok ==> packs == Inserted(old(packs), child, prev, arrival) && IsBest(packs, head)
      ensures ok ==> forall id :: id in packs ==> packs[id].confirmedNum <= packs[head].confirmedNum
      ensures ok ==> forall id :: id in packs && packs[id].confirmedNum == packs[head].confirmedNum ==>
                                    packs[id].dposNum <= packs[head].dposNum
      ensures ok ==> forall id :: id in packs && packs[id].confirmedNum == packs[head].confirmedNum &&
                                  packs[id].dposNum == packs[head].dposNum ==>
                                    && packs[id].num <= packs[head].num
                                    && (packs[id].num == packs[head].num && packs[id].mainChain ==>
                                          packs[head].mainChain)
      ensures ok && MarksRelated(old(packs)) ==> (MarksRelated(packs) <==> !BelowItsMark(old(packs), prev))
      ensures MarksOk(old(packs)) ==> MarksOk(packs)
    {
      ok := prev in packs && child !in packs;
      if ok {
        IdAfterNumber(child, prev, summary);
        InsertKeepsValid(packs, base, logHead, child, prev, arrival);
        packs := packs[child := Child(packs[prev], prev, arrival)];
        assert child in packs.Keys;
        UpdateHead();
      }
    }

    /**
     Lets a confirmation, or else an irreversibility, that the head knows take effect. It
     fails when the irreversible block is not stored or the log refuses a block.
     */
    method Settle() returns (ok: bool, due: seq<Id>, taken: nat)
      requires Valid() && IsBest(packs, head)
      modifies this`packs, this`events, this`logHead, this`base
      ensures Valid() && Settlement(old(packs), old(logHead), head, ok, due, taken, packs)
      ensures base == PrunedTo(old(packs), old(base), head, ok)
      ensures events == old(events) + due[..taken] && logHead == LogAfter(old(logHead), due, taken)
      ensures MarksOk(old(packs)) ==> MarksOk(packs)
      ensures MarksRelated(old(packs)) ==> MarksRelated(packs)
      ensures ReportExact(old(packs), head, due)
      ensures ok && MarksOk(old(packs)) ==> ReportWhole(old(packs), head, due)
    {
      ok, due, taken := true, [], 0;
      var earliest := Lowest(packs, packs.Keys);
      var h := packs[head];
      HeadDecides(packs, base, head, earliest);
      if packs[earliest].num < h.confirmedNum {
        ok, due, taken := OnLastConfirmedGrow(h.confirmedId, h.confirmedNum);
      } else if packs[earliest].num < h.dposNum {
        ok := h.dposId in packs;
        if ok {
          ok, due, taken := ForceConfirm(h.dposId);
        }
      }
      SettlementFacts(old(packs), old(base), old(logHead), head, ok, due, taken, packs);
    }

    /** Stores a block and lets what the head then knows take effect. */
    method AddBlock(child: Id, prev: Id, ghost summary: BlockId.Bits, arrival: Arrival)
      returns (stored: bool, ok: bool, due: seq<Id>, taken: nat)
      requires Valid() && IdAfter(child, prev, summary) && ArrivalOk(child, arrival)
      modifies this
      ensures Valid() && stored == (prev in old(packs) && child !in old(packs))
      ensures !stored ==> !ok && packs == old(packs) && head == old(head) && due == [] && taken == 0
      ensures !stored ==> base == old(base)
      ensures stored ==>
                AddedTo(old(packs), old(base), old(logHead), child, prev, arrival, head, ok, due, taken, packs, base)
      ensures taken <= |due| && events == old(events) + due[..taken] && logHead == LogAfter(old(logHead), due, taken)
      ensures MarksOk(old(packs)) ==> MarksOk(packs)
      ensures MarksRelated(old(packs)) && (prev in old(packs) ==> !BelowItsMark(old(packs), prev)) ==>
                MarksRelated(packs)
    {
      stored := Insert(child, prev, summary, arrival);
      ok, due, taken := false, [], 0;
      if stored {
        ok, due, taken := Settle();
      }
    }
  }

  /** The lowest stored number decides what the head makes happen. */
  lemma {:induction false} HeadDecides(packs: Packs, base: nat, head: Id, earliest: Id)
    requires Sound(packs, base) && IsBest(packs, head)
    requires earliest in packs && forall id :: id in packs ==> packs[earliest].num <= packs[id].num
    ensures GrowsByConfirm(packs, head) <==> packs[earliest].num < packs[head].confirmedNum
    ensures GrowsByDpos(packs, head) <==>
            packs[head].confirmedNum <= packs[earliest].num < packs[head].dposNum
    ensures packs[head].confirmedNum == packs[head].confirmedId.num
    ensures GrowsByConfirm(packs, head) ==> base <= packs[head].confirmedNum
  {
    assert PackOk(packs, base, head);
    LowestDecides(packs, earliest, packs[head].confirmedNum);
    LowestDecides(packs, earliest, packs[head].dposNum);
    BestKnowsMost(packs, base, head);
  }

  lemma {:induction false} LowestDecides(packs: Packs, low: Id, num: nat)
    requires low in packs && forall id :: id in packs ==> packs[low].num <= packs[id].num
    ensures HasBelow(packs, num) <==> packs[low].num < num
  {
  }

  /** The first `n` blocks of a report have been taken and flagged. */
  ghost predicate Reporting(was: Packs, log: Id, due: seq<Id>, n: nat, packs: Packs, logHead: Id) {
    && n <= |due| && Takes(was, log, due, n)
    && packs == Flagged(was, Elements(due[..n])) && logHead == LogAfter(log, due, n)
  }

  lemma {:induction false} ReportingNext(was: Packs, log: Id, due: seq<Id>, n: nat, packs: Packs, logHead: Id)
    requires n < |due| && due[n] in was && Reporting(was, log, due, n, packs, logHead)
    ensures due[n] in packs && due[..n + 1] == due[..n] + [due[n]]
    ensures var id := due[n];
            && FollowsLog(was, logHead, id) == (packs[id].num == logHead.num + 1 && packs[id].prev == logHead)
            && (FollowsLog(was, logHead, id) ==>
                  Reporting(was, log, due, n + 1, packs[id := packs[id].(reported := true)], id))
  {
    assert due[..n + 1] == due[..n] + [due[n]];
    ElementsAppend(due[..n], due[n]);
  }

  /** The scan by ascending number, main chain first: what to report, in order, and what to remove. */
  method Collect(packs: Packs, c: Id, num: nat) returns (due: seq<Id>, rem: set<Id>)
    ensures Ascending(packs, due) && forall id :: id in due <==> IsDue(packs, c, num, id)
    ensures forall id :: id in rem <==> id in packs && !Stays(packs, c, num, id)
  {
    due, rem := [], {};
    var todo := set id | id in packs && packs[id].num <= num;
    ghost var seen: set<Id> := {};
    while todo != {}
      invariant forall id :: id in packs && packs[id].num <= num <==> id in seen || id in todo
      invariant seen !! todo && Scanned(packs, c, num, seen, due, rem)
      invariant forall a, b :: a in seen && b in todo ==> !Precedes(packs[b], packs[a])
      decreases |todo|
    {
      var id := Lowest(packs, todo);
      ghost var due0, rem0 := due, rem;
      if packs[id].confirmedId == c {
        if !packs[id].reported {
          due := due + [id];
        }
        if id != c {
          rem := rem + {id};
        }
      } else {
        rem := rem + {id};
      }
      ScanOne(packs, c, num, seen, due0, rem0, id);
      todo, seen := todo - {id}, seen + {id};
    }
  }

  /** The lists after the blocks in `seen`, all of them low enough, have been looked at. */
  ghost predicate Scanned(packs: Packs, c: Id, num: nat, seen: set<Id>, due: seq<Id>, rem: set<Id>) {
    && (forall id :: id in seen ==> id in packs && packs[id].num <= num)
    && (forall id :: id in rem <==> id in seen && !Stays(packs, c, num, id))
    && (forall id :: id in due <==> id in seen && IsDue(packs, c, num, id))
    && Ascending(packs, due)
  }

  lemma {:induction false} ScanOne(packs: Packs, c: Id, num: nat, seen: set<Id>, due: seq<Id>, rem: set<Id>, id: Id)
    requires Scanned(packs, c, num, seen, due, rem)
    requires id in packs && id !in seen && packs[id].num <= num
    requires forall k :: k in seen ==> !Precedes(packs[id], packs[k])
    ensures Scanned(packs, c, num, seen + {id},
                    if packs[id].confirmedId == c && !packs[id].reported then due + [id] else due,
                    if packs[id].confirmedId == c && id == c then rem else rem + {id})
  {
    forall k | 0 <= k < |due| ensures due[k] in seen {
      assert due[k] in due;
    }
  }

  /** A report taken completely, and what was listed for removal gone. */
  lemma {:induction false} CompleteGrowth(
    packs: Packs, base: nat, c: Id, logHead: Id, due: seq<Id>, rem: set<Id>)
    requires Sound(packs, base) && LogOk(packs, base, logHead) && base <= c.num && IsReport(packs, c, due)
    requires Takes(packs, logHead, due, |due|) && forall id :: id in rem <==> id in packs && !Stays(packs, c, c.num, id)
    ensures due[..|due|] == due && Flagged(packs, Elements(due)) - rem == Grown(packs, c, c.num)
    ensures Sound(Grown(packs, c, c.num), c.num)
    ensures LogOk(Grown(packs, c, c.num), c.num, LogAfter(logHead, due, |due|))
    ensures OwnMark(packs, c) ==> due == Pending(packs, c)
  {
    FlagAndRemove(packs, c, c.num, due, rem);
    GrowKeepsSound(packs, c, base);
    GrowKeepsLog(packs, base, c, logHead, due);
    if OwnMark(packs, c) {
      CompleteIsPath(packs, base, c, logHead, due);
    }
  }

  lemma {:induction false} FlagAndRemove(packs: Packs, c: Id, num: nat, due: seq<Id>, rem: set<Id>)
    requires forall id :: id in due <==> IsDue(packs, c, num, id)
    requires forall id :: id in rem <==> id in packs && !Stays(packs, c, num, id)
    ensures Flagged(packs, Elements(due)) - rem == Grown(packs, c, num)
  {
  }

  ghost function Up(links: map<Id, Link>, c: Id): set<Id>
    requires Tree(links)
  {
    set id | id in links && Ancestor(links, id, c)
  }

  /** The walk from a block to its oldest stored ancestor. */
  method MarkUp(packs: Packs, c: Id, num: nat) returns (marked: Packs)
    requires Tree(Links(packs)) && c in packs && EMPTY_CHAIN_ID !in packs
    ensures MarkedAs(packs, marked, Elements(Path(Links(packs), c)), c, num)
  {
    ghost var done := [c];
    marked := packs[c := Mark(packs[c], c, num)];
    var at := packs[c].prev;
    MarkFirst(packs, c, num);
    while at in marked && at != EMPTY_CHAIN_ID
      invariant Marking(packs, marked, done, at, c, num)
      decreases if at in packs then packs[at].num else 0
    {
      var next := marked[at].prev;
      MarkNext(packs, marked, done, at, c, num);
      marked := marked[at := Mark(marked[at], c, num)];
      done := done + [at];
      at := next;
    }
    assert Path(Links(packs), at) == [];
    assert done + [] == done;
  }

  /** The blocks walked over are marked, and the walk goes on at `at`. */
  ghost predicate Marking(packs: Packs, marked: Packs, done: seq<Id>, at: Id, c: Id, num: nat)
    requires Tree(Links(packs))
  {
    MarkedAs(packs, marked, Elements(done), c, num) && Path(Links(packs), c) == done + Path(Links(packs), at)
  }

  lemma {:induction false} MarkFirst(packs: Packs, c: Id, num: nat)
    requires Tree(Links(packs)) && c in packs
    ensures Marking(packs, packs[c := Mark(packs[c], c, num)], [c], packs[c].prev, c, num)
  {
    assert Links(packs)[c].prev == packs[c].prev;
  }

  lemma {:induction false} MarkNext(packs: Packs, marked: Packs, done: seq<Id>, at: Id, c: Id, num: nat)
    requires Tree(Links(packs)) && Marking(packs, marked, done, at, c, num) && at in packs
    ensures marked[at].prev == packs[at].prev && (packs[at].prev in packs ==> packs[packs[at].prev].num < packs[at].num)
    ensures packs[at].num > 0
    ensures Marking(packs, marked[at := Mark(marked[at], c, num)], done + [at], packs[at].prev, c, num)
  {
    var links := Links(packs);
    assert links[at].prev == packs[at].prev && links[at].num == packs[at].num;
    assert links[at].prev in links ==> links[links[at].prev].num == packs[links[at].prev].num;
    assert Path(links, at) == [at] + Path(links, links[at].prev);
    MarkStep(packs, marked, Elements(done), at, c, num);
    ElementsAppend(done, at);
  }

  lemma {:induction false} MarkStep(packs: Packs, marked: Packs, ids: set<Id>, id: Id, c: Id, num: nat)
    requires MarkedAs(packs, marked, ids, c, num) && id in packs
    ensures MarkedAs(packs, marked[id := Mark(marked[id], c, num)], ids + {id}, c, num)
  {
  }

  lemma {:induction false} ElementsAppend(list: seq<Id>, id: Id)
    ensures Elements(list + [id]) == Elements(list) + {id}
  {
  }

  ghost predicate MarkedAs(packs: Packs, marked: Packs, ids: set<Id>, c: Id, num: nat) {
    && marked.Keys == packs.Keys
    && forall id :: id in packs ==> marked[id] == if id in ids then Mark(packs[id], c, num) else packs[id]
  }

  lemma {:induction false} PathIsUp(links: map<Id, Link>, c: Id)
    requires Tree(links)
    ensures Elements(Path(links, c)) == Up(links, c)
  {
    forall id | id in Path(links, c) ensures id in links {
      AncestorNumber(links, id, c);
    }
  }

  method MarkList(packs: Packs, list: seq<Id>, c: Id, num: nat) returns (marked: Packs)
    requires forall id :: id in list ==> id in packs
    ensures marked == MarkAll(packs, Elements(list), c, num)
  {
    marked := packs;
    for i := 0 to |list|
      invariant MarkedAs(packs, marked, Elements(list[..i]), c, num)
    {
      assert list[i] in list && list[..i + 1] == list[..i] + [list[i]];
      MarkStep(packs, marked, Elements(list[..i]), list[i], c, num);
      ElementsAppend(list[..i], list[i]);
      marked := marked[list[i] := Mark(marked[list[i]], c, num)];
    }
    assert list[..|list|] == list;
    assert marked == MarkAll(packs, Elements(list), c, num);
  }

  lemma {:induction false} MarkTwice(packs: Packs, a: set<Id>, b: set<Id>, c: Id, num: nat)
    ensures MarkAll(MarkAll(packs, a, c, num), b, c, num) == MarkAll(packs, a + b, c, num)
  {
  }

  lemma {:induction false} FamilyIsUpAndDown(links: map<Id, Link>, c: Id, list: seq<Id>)
    requires Tree(links) && c in links && list != [] && list[0] == c
    requires forall id :: id in list <==> Ancestor(links, c, id)
    ensures Up(links, c) + Elements(list[1..]) == Family(links, c)
  {
    assert Path(links, c)[0] == c;
    forall id ensures id in Up(links, c) + Elements(list[1..]) <==> id in Family(links, c) {
      if Ancestor(links, c, id) {
        AncestorNumber(links, c, id);
        var k :| 0 <= k < |list| && list[k] == id;
        assert k > 0 ==> list[1..][k - 1] == id;
      }
      assert id in list[1..] ==> id in list;
    }
  }

  /** The lowest-numbered block of a set, main chain first among equals. */
  method Lowest(packs: Packs, ids: set<Id>) returns (low: Id)
    requires ids != {} && ids <= packs.Keys
    ensures low in ids && forall id :: id in ids ==> !Precedes(packs[id], packs[low])
  {
    low :| low in ids;
    var todo := ids - {low};
    while todo != {}
      invariant low in ids && todo <= ids && low !in todo
      invariant forall id :: id in ids && id !in todo ==> !Precedes(packs[id], packs[low])
      decreases |todo|
    {
      var id :| id in todo;
      if Precedes(packs[id], packs[low]) {
        low := id;
      }
      todo := todo - {id};
    }
  }

  ghost predicate Distinct(list: seq<Id>) {
    forall i, j :: 0 <= i < j < |list| ==> list[i] != list[j]
  }

  lemma {:induction false} DistinctBound(list: seq<Id>, ids: set<Id>)
    requires Distinct(list) && forall id :: id in list ==> id in ids
    ensures |list| <= |ids|
  {
    if list != [] {
      var n := |list| - 1;
      assert list[n] in list;
      DistinctBound(list[..n], ids - {list[n]});
    }
  }

  /** The work list after its first `i` entries have been expanded. */
  ghost predicate Worklist(packs: Packs, c: Id, list: seq<Id>, i: nat)
    requires Tree(Links(packs)) && c in packs
  {
    && i <= |list| && |list| > 0 && list[0] == c
    && Distinct(list)
    && AllBelow(packs, c, list)
    && ParentsDone(packs, list, i)
    && ClosedUpTo(packs, list, i)
  }

  ghost predicate AllBelow(packs: Packs, c: Id, list: seq<Id>)
    requires Tree(Links(packs))
  {
    forall id :: id in list ==> Ancestor(Links(packs), c, id) && id in packs
  }

  ghost predicate ParentsDone(packs: Packs, list: seq<Id>, i: nat)
    requires i <= |list|
  {
    forall k :: 0 < k < |list| ==> list[k] in packs && packs[list[k]].prev in list[..i]
  }

  ghost predicate ClosedUpTo(packs: Packs, list: seq<Id>, i: nat)
    requires i <= |list|
  {
    forall id :: id in packs && packs[id].prev in list[..i] ==> id in list
  }

  /** The children of an entry that is not expanded yet are new descendants. */
  lemma {:induction false} ChildIsNew(packs: Packs, c: Id, list: seq<Id>, i: nat, id: Id)
    requires Tree(Links(packs)) && c in packs && i < |list| && Worklist(packs, c, list, i)
    requires id in packs && packs[id].prev == list[i]
    ensures id !in list && Ancestor(Links(packs), c, id)
  {
    var links := Links(packs);
    assert list[i] in list;
    assert links[id].prev == list[i] && Path(links, id) == [id] + Path(links, list[i]);
    AncestorNumber(links, c, list[i]);
  }

  lemma {:induction false} Expand(packs: Packs, c: Id, list: seq<Id>, i: nat, more: seq<Id>)
    requires Tree(Links(packs)) && c in packs && i < |list| && Worklist(packs, c, list, i)
    requires |more| >= |list| && more[..|list|] == list && Distinct(more)
    requires forall k :: |list| <= k < |more| ==> more[k] in packs && packs[more[k]].prev == list[i]
    requires forall id :: id in more <==> id in list || (id in packs && packs[id].prev == list[i])
    ensures Worklist(packs, c, more, i + 1)
  {
    assert more[0] == list[0];
    assert AllBelow(packs, c, more) by {
      forall id | id in more ensures Ancestor(Links(packs), c, id) && id in packs {
        if id !in list {
          ChildIsNew(packs, c, list, i, id);
        }
      }
    }
    ExpandParents(packs, list, i, more);
    ExpandClosed(packs, list, i, more);
  }

  lemma {:induction false} ExpandParents(packs: Packs, list: seq<Id>, i: nat, more: seq<Id>)
    requires i < |list| <= |more| && more[..|list|] == list && ParentsDone(packs, list, i)
    requires forall k :: |list| <= k < |more| ==> more[k] in packs && packs[more[k]].prev == list[i]
    ensures ParentsDone(packs, more, i + 1)
  {
    assert more[..i + 1] == list[..i] + [list[i]];
    forall k | 0 < k < |more| ensures more[k] in packs && packs[more[k]].prev in more[..i + 1] {
      if k < |list| {
        assert more[k] == list[k];
      }
    }
  }

  lemma {:induction false} ExpandClosed(packs: Packs, list: seq<Id>, i: nat, more: seq<Id>)
    requires i < |list| <= |more| && more[..|list|] == list && ClosedUpTo(packs, list, i)
    requires forall id :: id in more <==> id in list || (id in packs && packs[id].prev == list[i])
    ensures ClosedUpTo(packs, more, i + 1)
  {
    assert more[..i + 1] == list[..i] + [list[i]];
  }

  /** A work list that grows by the children of its entries until no entry is left. */
  method Descendants(packs: Packs, c: Id) returns (list: seq<Id>)
    requires Tree(Links(packs)) && c in packs
    ensures list != [] && list[0] == c
    ensures forall id :: id in list <==> Ancestor(Links(packs), c, id)
    ensures forall id :: id in list ==> id in packs
  {
    list := [c];
    assert Path(Links(packs), c)[0] == c;
    var i := 0;
    while i < |list|
      invariant Worklist(packs, c, list, i)
      decreases |packs| - i
    {
      var children := set id | id in packs && packs[id].prev == list[i];
      forall id | id in children ensures id !in list {
        ChildIsNew(packs, c, list, i, id);
      }
      DistinctBound(list, packs.Keys);
      var more := AppendAll(list, children);
      Expand(packs, c, list, i, more);
      list, i := more, i + 1;
    }
    assert list[..i] == list;
    forall id | Ancestor(Links(packs), c, id) ensures id in list {
      DescendantIsListed(packs, c, list, id);
    }
  }

  lemma {:induction false} DescendantIsListed(packs: Packs, c: Id, list: seq<Id>, id: Id)
    requires Tree(Links(packs)) && c in list && Ancestor(Links(packs), c, id)
    requires forall k :: k in packs && packs[k].prev in list ==> k in list
    ensures id in list
    decreases if id in packs then packs[id].num else 0
  {
    AncestorNumber(Links(packs), c, id);
    if id != c {
      assert Path(Links(packs), id) == [id] + Path(Links(packs), packs[id].prev);
      AncestorNumber(Links(packs), c, packs[id].prev);
      assert Links(packs)[id].prev == packs[id].prev;
      DescendantIsListed(packs, c, list, packs[id].prev);
    }
  }

  method AppendAll(list: seq<Id>, ids: set<Id>) returns (more: seq<Id>)
    requires Distinct(list) && forall id :: id in ids ==> id !in list
    ensures |more| >= |list| && more[..|list|] == list && Distinct(more)
    ensures forall k :: |list| <= k < |more| ==> more[k] in ids
    ensures forall id :: id in more <==> id in list || id in ids
  {
    more := list;
    var todo := ids;
    while todo != {}
      invariant todo <= ids && |more| >= |list| && more[..|list|] == list && Distinct(more)
      invariant forall k :: |list| <= k < |more| ==> more[k] in ids
      invariant forall id :: id in more <==> id in list || id in ids - todo
      decreases |todo|
    {
      var id :| id in todo;
      more := more + [id];
      todo := todo - {id};
    }
  }
}
