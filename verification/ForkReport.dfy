/**
 What reporting, pruning and the choice of the head do to the stored blocks, as values.
 */
module ForkReport {
  import opened ForkTree
  import opened ForkConfirm
  import opened ForkMarks
  import opened ForkLog
  import BlockId

  /** The predecessor id of the first block; no stored block has it. */
  const EMPTY_CHAIN_ID := BlockId.Id(0, 0, 0)

  /** The order by which the head is chosen: confirmation, irreversibility, number, main chain. */
  predicate Better(a: Pack, b: Pack) {
    || a.confirmedNum > b.confirmedNum
    || (a.confirmedNum == b.confirmedNum && a.dposNum > b.dposNum)
    || (a.confirmedNum == b.confirmedNum && a.dposNum == b.dposNum && a.num > b.num)
    || (a.confirmedNum == b.confirmedNum && a.dposNum == b.dposNum && a.num == b.num && a.mainChain && !b.mainChain)
  }

  /** The first block knows itself as confirmed and has been reported. */
  function FirstPack(genesis: Id): Pack {
    Pack(EMPTY_CHAIN_ID, 1, 1, genesis, 0, EMPTY_CHAIN_ID, true, true)
  }

  predicate ArrivalOk(child: Id, arrival: Arrival) {
    arrival.dposNum == arrival.dposId.num && arrival.dposNum < child.num
  }

  ghost predicate IsBest(packs: Packs, head: Id) {
    head in packs && forall id :: id in packs ==> !Better(packs[id], packs[head])
  }

  /**
   A best block has the highest confirmation; of those the highest irreversible number; of those
   the highest number; and of those one on the main chain, if there is one.
   */
  lemma {:induction false} BestRanks(packs: Packs, head: Id, id: Id)
    requires IsBest(packs, head) && id in packs
    ensures var a, h := packs[id], packs[head];
            && a.confirmedNum <= h.confirmedNum
            && (a.confirmedNum == h.confirmedNum ==> a.dposNum <= h.dposNum)
            && (a.confirmedNum == h.confirmedNum && a.dposNum == h.dposNum ==> a.num <= h.num)
            && (a.confirmedNum == h.confirmedNum && a.dposNum == h.dposNum && a.num == h.num && a.mainChain ==>
                  h.mainChain)
  {
  }

  // ---------------------------------------------------------------------
  // Arriving blocks and flags
  // ---------------------------------------------------------------------

  lemma {:induction false} InsertKeepsValid(
    packs: Packs, base: nat, logHead: Id, child: Id, prev: Id, arrival: Arrival)
    requires Sound(packs, base) && LogOk(packs, base, logHead) && child !in packs && prev in packs
    requires child.num == prev.num + 1 && ArrivalOk(child, arrival)
    ensures var more := Inserted(packs, child, prev, arrival);
            && Sound(more, base) && LogOk(more, base, logHead)
            && (MarksOk(packs) ==> MarksOk(more))
            && (MarksRelated(packs) ==> (MarksRelated(more) <==> !BelowItsMark(packs, prev)))
  {
    InsertKeepsSound(packs, child, prev, arrival, base);
    assert PackOk(packs, base, prev);
    forall id | id in Inserted(packs, child, prev, arrival)
      ensures LoggedAt(Inserted(packs, child, prev, arrival), logHead, id)
    {
      assert id != child ==> LoggedAt(packs, logHead, id);
    }
    if MarksOk(packs) {
      InsertKeepsMarksOk(packs, child, prev, arrival);
    }
    if MarksRelated(packs) {
      InsertKeepsMarksRelated(packs, child, prev, arrival);
    }
  }

  /** A block with its main-chain flag set or cleared. */
  function WithFlag(packs: Packs, id: Id, flag: bool): Packs
    requires id in packs
  {
    packs[id := packs[id].(mainChain := flag)]
  }

  lemma {:induction false} FlagKeeps(packs: Packs, base: nat, logHead: Id, id: Id, flag: bool)
    requires Sound(packs, base) && LogOk(packs, base, logHead) && id in packs
    ensures var flagged := WithFlag(packs, id, flag);
            && Links(flagged) == Links(packs)
            && Sound(flagged, base) && LogOk(flagged, base, logHead) && (MarksOk(packs) ==> MarksOk(flagged))
  {
    var flagged := WithFlag(packs, id, flag);
    assert Links(flagged) == Links(packs);
    forall k | k in flagged ensures PackOk(flagged, base, k) && LoggedAt(flagged, logHead, k) {
      assert PackOk(packs, base, k) && LoggedAt(packs, logHead, k);
    }
    if MarksOk(packs) {
      SameMarksOk(packs, flagged);
    }
  }

  // ---------------------------------------------------------------------
  // What the head makes happen
  // ---------------------------------------------------------------------

  ghost predicate HasBelow(packs: Packs, num: nat) {
    exists id :: id in packs && packs[id].num < num
  }

  /** Something lies below the confirmation that the head knows. */
  ghost predicate GrowsByConfirm(packs: Packs, head: Id)
    requires head in packs
  {
    HasBelow(packs, packs[head].confirmedNum)
  }

  /** Otherwise, something lies below the irreversible block that the head knows. */
  ghost predicate GrowsByDpos(packs: Packs, head: Id)
    requires head in packs
  {
    !GrowsByConfirm(packs, head) && HasBelow(packs, packs[head].dposNum)
  }

  /** A report of `c`: everything was taken and what is not needed any more is gone, or nothing is gone. */
  ghost predicate Growth(packs: Packs, c: Id, logHead: Id, ok: bool, due: seq<Id>, taken: nat, after: Packs) {
    && IsReport(packs, c, due) && Reported(packs, logHead, due, taken) && ok == (taken == |due|)
    && after == if ok then Grown(packs, c, c.num) else Flagged(packs, Elements(due[..taken]))
  }

  /** What the confirmation or irreversibility that the head knows does when it takes effect. */
  ghost predicate Settlement(
    packs: Packs, logHead: Id, head: Id, ok: bool, due: seq<Id>, taken: nat, after: Packs)
    requires head in packs && Tree(Links(packs))
  {
    var h := packs[head];
    if GrowsByConfirm(packs, head) then Growth(packs, h.confirmedId, logHead, ok, due, taken, after)
    else if GrowsByDpos(packs, head) && h.dposId in packs then
      Growth(Confirmed(packs, h.dposId), h.dposId, logHead, ok, due, taken, after)
    else due == [] && taken == 0 && after == packs && ok == !GrowsByDpos(packs, head)
  }

  /** The best head knows the highest confirmation, and if nothing lies below that, no block is confirmed from above. */
  lemma {:induction false} BestKnowsMost(packs: Packs, base: nat, head: Id)
    requires Sound(packs, base) && IsBest(packs, head)
    ensures forall id :: id in packs ==> packs[id].confirmedNum <= packs[head].confirmedNum
    ensures GrowsByConfirm(packs, head) ==> packs[head].confirmedId in packs && base <= packs[head].confirmedNum
    ensures GrowsByDpos(packs, head) && packs[head].dposId in packs ==> !Settles(packs, packs[head].dposId)
  {
    forall id | id in packs ensures PackOk(packs, base, id) {
    }
    assert PackOk(packs, base, head);
    if GrowsByConfirm(packs, head) {
      var low :| low in packs && packs[low].num < packs[head].confirmedNum;
      assert PackOk(packs, base, low);
    }
    if GrowsByDpos(packs, head) && packs[head].dposId in packs {
      var low :| low in packs && packs[low].num < packs[head].dposNum;
      assert PackOk(packs, base, packs[head].dposId);
    }
  }

  lemma {:induction false} GrowthKeepsMarks(
    packs: Packs, base: nat, c: Id, logHead: Id, ok: bool, due: seq<Id>, taken: nat, after: Packs)
    requires Sound(packs, base) && LogOk(packs, base, logHead) && Growth(packs, c, logHead, ok, due, taken, after)
    ensures Tree(Links(after))
    ensures MarksOk(packs) ==> MarksOk(after)
    ensures MarksRelated(packs) ==> MarksRelated(after)
  {
    if ok {
      GrownIsTree(packs, c, c.num);
      if MarksOk(packs) {
        GrowKeepsMarksOk(packs, c, c.num);
      }
      if MarksRelated(packs) {
        assert c in packs ==> PackOk(packs, base, c);
        GrowKeepsMarksRelated(packs, c, c.num);
      }
    } else {
      FlagKeepsValid(packs, base, logHead, due, taken);
      if MarksOk(packs) {
        SameMarksOk(packs, after);
      }
    }
  }

  /**
   What a report lists is what carries the mark, lies low enough and has not been reported. Taken
   completely it leaves the block, if it carries its own mark, and what lies above, all else unchanged;
   cut short it only flags what was taken.
   */
  lemma {:induction false} GrowthSays(
    packs: Packs, c: Id, logHead: Id, ok: bool, due: seq<Id>, taken: nat, after: Packs)
    requires Growth(packs, c, logHead, ok, due, taken, after)
    ensures forall id :: id in due <==>
                         id in packs && packs[id].num <= c.num && packs[id].confirmedId == c && !packs[id].reported
    ensures taken <= |due| && (ok <==> taken == |due|)
    ensures ok ==> forall id :: id in after <==>
                                id in packs && (packs[id].num > c.num || (id == c && packs[id].confirmedId == c))
    ensures !ok ==> after.Keys == packs.Keys
    ensures forall id :: id in after ==>
                           after[id] == if id in due[..taken] then packs[id].(reported := true) else packs[id]
  {
    assert ok ==> due[..taken] == due;
  }

  /**
   Once a best block's knowledge has taken effect completely, nothing is stored below the highest
   confirmation it knows; and if nothing was stored below that before, nothing below its irreversible block.
   */
  lemma {:induction false} SettlementClears(
    packs: Packs, base: nat, logHead: Id, head: Id, due: seq<Id>, taken: nat, after: Packs, id: Id)
    requires Sound(packs, base) && IsBest(packs, head) && id in after
    requires Settlement(packs, logHead, head, true, due, taken, after)
    ensures after[id].num >= packs[head].confirmedNum
    ensures (forall k :: k in packs ==> packs[k].num >= packs[head].confirmedNum) ==>
              after[id].num >= packs[head].dposNum
  {
    BestKnowsMost(packs, base, head);
    var h := packs[head];
    assert PackOk(packs, base, head) && (id in packs ==> PackOk(packs, base, id));
    if GrowsByConfirm(packs, head) {
      GrowthSays(packs, h.confirmedId, logHead, true, due, taken, after);
    } else if GrowsByDpos(packs, head) {
      GrowthSays(Confirmed(packs, h.dposId), h.dposId, logHead, true, due, taken, after);
      SameLink(packs, Confirmed(packs, h.dposId), id);
    }
  }

  /** A report that was cut short is cut short again when the same confirmation grows the next time. */
  lemma {:induction false} RefusedAgain(
    packs: Packs, base: nat, c: Id, logHead: Id, due: seq<Id>, taken: nat, after: Packs,
    ok: bool, due2: seq<Id>, taken2: nat, after2: Packs)
    requires Sound(packs, base) && LogOk(packs, base, logHead)
    requires Growth(packs, c, logHead, false, due, taken, after)
    requires Growth(after, c, LogAfter(logHead, due, taken), ok, due2, taken2, after2)
    ensures !ok && after2.Keys == packs.Keys
  {
    FlagKeepsValid(packs, base, logHead, due, taken);
    if ok {
      RestIsList(packs, base, c, LogAfter(logHead, due, taken), due, taken, due2);
    }
  }

  /** What is taken completely of the blocks left over is these blocks in their order. */
  lemma {:induction false} RestIsList(
    packs: Packs, base: nat, c: Id, logHead: Id, due: seq<Id>, taken: nat, due2: seq<Id>)
    requires IsReport(packs, c, due) && taken < |due|
    requires var after := Flagged(packs, Elements(due[..taken]));
             && Sound(after, base) && IsReport(after, c, due2) && Takes(after, logHead, due2, |due2|)
    ensures due2 == due[taken..] && FollowsLog(packs, logHead, due[taken])
  {
    var after, rest := Flagged(packs, Elements(due[..taken])), due[taken..];
    forall id ensures id in due2 <==> id in rest {
      RestIsDue(packs, c, due, taken, id);
    }
    forall i | 0 <= i < |due2| ensures due2[i] in after && after[due2[i]].num == logHead.num + 1 + i {
      TakenNumbers(after, base, logHead, due2, |due2|, i);
    }
    forall i, j | 0 <= i < j < |rest| ensures rest[i] in after && after[rest[i]].num < after[rest[j]].num {
      assert rest[i] in due2 && rest[j] in due2 && rest[i] == due[taken + i] && rest[j] == due[taken + j];
      assert !Precedes(packs[rest[j]], packs[rest[i]]);
    }
    forall i | 0 <= i < |rest| ensures rest[i] in after {
      assert rest[i] == due[taken + i];
    }
    SameAscending(after, due2, rest);
    assert FollowsLog(after, LogAfter(logHead, due2, 0), due2[0]) && rest[0] == due[taken];
    SameLink(packs, after, due[taken]);
  }

  lemma {:induction false} RestIsDue(packs: Packs, c: Id, due: seq<Id>, taken: nat, id: Id)
    requires IsReport(packs, c, due) && taken < |due|
    ensures IsDue(Flagged(packs, Elements(due[..taken])), c, c.num, id) <==> id in due[taken..]
  {
    assert id in due <==> IsDue(packs, c, c.num, id);
    assert due == due[..taken] + due[taken..];
  }

  /** Settling keeps the marks in order. */
  lemma {:induction false} SettlementKeepsMarks(
    packs: Packs, base: nat, logHead: Id, head: Id, ok: bool, due: seq<Id>, taken: nat, after: Packs)
    requires Sound(packs, base) && LogOk(packs, base, logHead) && IsBest(packs, head)
    requires Settlement(packs, logHead, head, ok, due, taken, after)
    ensures Tree(Links(after))
    ensures MarksOk(packs) ==> MarksOk(after)
    ensures MarksRelated(packs) ==> MarksRelated(after)
  {
    BestKnowsMost(packs, base, head);
    var c := packs[head].dposId;
    if GrowsByConfirm(packs, head) {
      GrowthKeepsMarks(packs, base, packs[head].confirmedId, logHead, ok, due, taken, after);
    } else if GrowsByDpos(packs, head) && c in packs {
      ConfirmKeepsValid(packs, base, logHead, c);
      GrowthKeepsMarks(Confirmed(packs, c), base, c, logHead, ok, due, taken, after);
      if MarksOk(packs) {
        ConfirmKeepsMarksOk(packs, c);
      }
      if MarksRelated(packs) {
        ConfirmKeepsMarksRelated(packs, c);
      }
    }
  }

  /**
   What is reported when the head's confirmation takes effect is the unreported path to the
   confirmed block exactly if no stray block carries its mark and the whole path does; what is
   reported when the head's irreversible block is marked first, exactly if there is no stray mark.
   */
  ghost predicate ReportExact(packs: Packs, head: Id, due: seq<Id>)
    requires Tree(Links(packs)) && head in packs
  {
    var h := packs[head];
    && (GrowsByConfirm(packs, head) ==>
          && h.confirmedId in packs
          && (due == Pending(packs, h.confirmedId) <==>
              NoStrayMark(packs, h.confirmedId) && PathMarked(packs, h.confirmedId)))
    && (GrowsByDpos(packs, head) && h.dposId in packs ==>
          (due == Pending(packs, h.dposId) <==> NoStrayMark(packs, h.dposId)))
  }

  /** What is reported when the head's confirmation or irreversible block takes effect is the unreported path. */
  ghost predicate ReportWhole(packs: Packs, head: Id, due: seq<Id>)
    requires Tree(Links(packs)) && head in packs
  {
    && (GrowsByConfirm(packs, head) ==> due == Pending(packs, packs[head].confirmedId))
    && (GrowsByDpos(packs, head) ==> due == Pending(packs, packs[head].dposId))
  }

  /**
   Besides, a report that is taken completely is always right: one with a stray block, or without
   a part of the path, is refused at some block, and then nothing is removed.
   */
  lemma {:induction false} SettlementReports(
    packs: Packs, base: nat, logHead: Id, head: Id, ok: bool, due: seq<Id>, taken: nat, after: Packs)
    requires Sound(packs, base) && LogOk(packs, base, logHead) && IsBest(packs, head)
    requires Settlement(packs, logHead, head, ok, due, taken, after)
    ensures ReportExact(packs, head, due)
    ensures ok && MarksOk(packs) ==> ReportWhole(packs, head, due)
    ensures !ok ==> after.Keys == packs.Keys
  {
    BestKnowsMost(packs, base, head);
    var h := packs[head];
    if GrowsByConfirm(packs, head) {
      var c := h.confirmedId;
      assert PackOk(packs, base, c);
      GrowReportIsPath(packs, c, due);
      if ok && MarksOk(packs) {
        BestHolds(packs, base, head);
        CompleteIsPath(packs, base, c, logHead, due);
      }
    } else if GrowsByDpos(packs, head) && h.dposId in packs {
      assert PackOk(packs, base, h.dposId);
      ReportIsPath(packs, h.dposId, due);
      if ok {
        MarkedIsWhole(packs, base, h.dposId, logHead, due);
      }
    }
  }

  /** The confirmed block that the best block knows carries its own mark. */
  lemma {:induction false} BestHolds(packs: Packs, base: nat, head: Id)
    requires Sound(packs, base) && IsBest(packs, head) && MarksOk(packs) && packs[head].confirmedId in packs
    ensures packs[packs[head].confirmedId].confirmedId == packs[head].confirmedId
  {
    BestKnowsMost(packs, base, head);
    assert HolderOk(packs, head) && PackOk(packs, base, head) && PackOk(packs, base, packs[head].confirmedId);
  }

  /** A report right after a confirmation that is taken completely is the unreported path. */
  lemma {:induction false} MarkedIsWhole(packs: Packs, base: nat, c: Id, logHead: Id, due: seq<Id>)
    requires Sound(packs, base) && LogOk(packs, base, logHead) && c in packs
    requires IsReport(Confirmed(packs, c), c, due) && Takes(Confirmed(packs, c), logHead, due, |due|)
    ensures due == Pending(packs, c) && NoStrayMark(packs, c)
  {
    ConfirmKeepsValid(packs, base, logHead, c);
    FamilyHead(packs, c);
    assert PackOk(packs, base, c);
    CompleteIsPath(Confirmed(packs, c), base, c, logHead, due);
    PendingSame(packs, c, c);
    ReportIsPath(packs, c, due);
  }

  /** What the head makes happen, once all of it is taken, leaves this block stored. */
  ghost predicate Outlives(packs: Packs, head: Id, id: Id) {
    && head in packs && var h := packs[head];
                     && (GrowsByConfirm(packs, head) ==> id.num > h.confirmedId.num || id == h.confirmedId)
                     && (GrowsByDpos(packs, head) ==> id.num > h.dposId.num || id == h.dposId)
  }

  lemma {:induction false} OutlivesExactly(
    packs: Packs, base: nat, logHead: Id, head: Id, due: seq<Id>, taken: nat, after: Packs, id: Id)
    requires Sound(packs, base) && IsBest(packs, head) && MarksOk(packs) && id in packs
    requires Settlement(packs, logHead, head, true, due, taken, after)
    ensures id in after <==> Outlives(packs, head, id)
  {
    BestKnowsMost(packs, base, head);
    NumberOf(packs, base, id);
    if GrowsByConfirm(packs, head) {
      BestHolds(packs, base, head);
    } else if GrowsByDpos(packs, head) {
      FamilyHead(packs, packs[head].dposId);
      SameLink(packs, Confirmed(packs, packs[head].dposId), id);
    }
  }

  lemma {:induction false} SettlementFacts(
    packs: Packs, base: nat, logHead: Id, head: Id, ok: bool, due: seq<Id>, taken: nat, after: Packs)
    requires Sound(packs, base) && LogOk(packs, base, logHead) && IsBest(packs, head)
    requires Settlement(packs, logHead, head, ok, due, taken, after)
    ensures Tree(Links(after)) && ReportExact(packs, head, due)
    ensures ok && MarksOk(packs) ==> ReportWhole(packs, head, due)
    ensures MarksOk(packs) ==> MarksOk(after)
    ensures MarksRelated(packs) ==> MarksRelated(after)
  {
    SettlementKeepsMarks(packs, base, logHead, head, ok, due, taken, after);
    SettlementReports(packs, base, logHead, head, ok, due, taken, after);
  }

  /** The number up to which settling prunes. */
  ghost function PrunedTo(packs: Packs, base: nat, head: Id, ok: bool): nat
    requires head in packs
  {
    if !ok then base
    else if GrowsByConfirm(packs, head) then packs[head].confirmedId.num
    else if GrowsByDpos(packs, head) && packs[head].dposId in packs then packs[head].dposId.num
    else base
  }

  /**
   A trigger and nothing else: a definition that quantifies over it stays folded until a proof
   asserts `UnfoldHint(0)`.
   */
  predicate UnfoldHint(k: nat) {
    k >= 0
  }

  /** A block has been stored, the best block chosen, and what that block knows has taken effect. */
  ghost predicate AddedTo(
    packs: Packs, base: nat, logHead: Id, child: Id, prev: Id, arrival: Arrival,
    best: Id, ok: bool, due: seq<Id>, taken: nat, after: Packs, lower: nat)
  {
    && prev in packs && child !in packs && taken <= |due|
    && forall k: nat {:trigger UnfoldHint(k)} ::
         UnfoldHint(k) ==> AddedParts(packs, base, logHead, child, prev, arrival, best, ok, due, taken, after, lower)
  }

  ghost predicate AddedParts(
    packs: Packs, base: nat, logHead: Id, child: Id, prev: Id, arrival: Arrival,
    best: Id, ok: bool, due: seq<Id>, taken: nat, after: Packs, lower: nat)
    requires prev in packs && taken <= |due|
  {
    && var more := Inserted(packs, child, prev, arrival);
    && Tree(Links(more)) && IsBest(more, best)
    && Settlement(more, logHead, best, ok, due, taken, after) && ReportExact(more, best, due)
    && (ok && MarksOk(more) ==> ReportWhole(more, best, due))
    && lower == PrunedTo(more, base, best, ok)
  }

  /** A block that is the best as soon as it is stored stays stored: it is no stray block of what it makes final. */
  lemma {:induction false} BestStays(
    packs: Packs, base: nat, logHead: Id, child: Id, prev: Id, arrival: Arrival,
    due: seq<Id>, taken: nat, after: Packs, lower: nat)
    requires Sound(packs, base) && LogOk(packs, base, logHead) && MarksOk(packs)
    requires child.num == prev.num + 1 && ArrivalOk(child, arrival)
    requires AddedTo(packs, base, logHead, child, prev, arrival, child, true, due, taken, after, lower)
    ensures child in after
  {
    assert UnfoldHint(0);
    var more := Inserted(packs, child, prev, arrival);
    InsertKeepsValid(packs, base, logHead, child, prev, arrival);
    if GrowsByConfirm(more, child) && child.num <= more[child].confirmedId.num {
      StrayIsListed(packs, base, child, prev, arrival, due);
    }
    OutlivesExactly(more, base, logHead, child, due, taken, after, child);
  }

  /** A new block below the confirmed block it knows is no part of the path to it. */
  lemma {:induction false} StrayIsListed(
    packs: Packs, base: nat, child: Id, prev: Id, arrival: Arrival, due: seq<Id>)
    requires Sound(packs, base) && child !in packs && prev in packs
    requires child.num == prev.num + 1 && ArrivalOk(child, arrival) && child.num <= packs[prev].confirmedId.num
    ensures var more := Inserted(packs, child, prev, arrival);
            Sound(more, base) && child !in Pending(more, packs[prev].confirmedId)
            && IsDue(more, packs[prev].confirmedId, packs[prev].confirmedId.num, child)
  {
    var more, c := Inserted(packs, child, prev, arrival), packs[prev].confirmedId;
    InsertKeepsSound(packs, child, prev, arrival, base);
    assert PackOk(packs, base, prev) && PackOk(more, base, child);
    PendingOnPath(more, c);
    PathAfterInsert(packs, more, child, c);
    if Ancestor(Links(more), child, c) {
      AncestorNumber(Links(packs), child, c);
    }
  }

  /** The highest number that a report makes final; none if nothing was taken. */
  ghost function Final(due: seq<Id>, taken: nat): nat
    requires taken <= |due|
  {
    if taken == 0 then 0 else due[taken - 1].num
  }

  function Max(a: int, b: int): int {
    if a < b then b else a
  }

  /**
   A report that was taken completely leaves nothing stored below what has become final; one
   that was cut short leaves a block that knows a confirmation at or above it.
   */
  lemma {:induction false} SettlementCovers(
    packs: Packs, base: nat, logHead: Id, head: Id, ok: bool, due: seq<Id>, taken: nat, after: Packs, floor: int)
    requires Sound(packs, base) && IsBest(packs, head) && Covered(packs, floor)
    requires Settlement(packs, logHead, head, ok, due, taken, after)
    ensures ok ==> AllAbove(after, Max(floor, Final(due, taken)))
    ensures Covered(after, Max(floor, Final(due, taken)))
  {
    BestKnowsMost(packs, base, head);
    var h := packs[head];
    assert PackOk(packs, base, head);
    if GrowsByConfirm(packs, head) {
      GrowthCovers(packs, base, h.confirmedId, head, logHead, ok, due, taken, after, floor);
    } else {
      assert AllAbove(packs, floor);
      if GrowsByDpos(packs, head) && h.dposId in packs {
        MarkedFacts(packs, base, h.dposId, floor);
        GrowthCovers(Confirmed(packs, h.dposId), base, h.dposId, h.dposId, logHead, ok, due, taken, after, floor);
      }
    }
  }

  lemma {:induction false} MarkedFacts(packs: Packs, base: nat, c: Id, floor: int)
    requires Sound(packs, base) && c in packs && AllAbove(packs, floor)
    ensures var marked := Confirmed(packs, c);
            && Sound(marked, base) && AllAbove(marked, floor) && marked[c].confirmedNum == c.num
            && (HasBelow(packs, c.num) ==> HasBelow(marked, c.num))
  {
    var marked := Confirmed(packs, c);
    ConfirmKeepsSound(packs, c, base);
    forall id | id in marked ensures AboveAt(marked, floor, id) {
      SameLink(packs, marked, id);
      assert AboveAt(packs, floor, id);
    }
    assert PackOk(packs, base, c) && Path(Links(packs), c)[0] == c;
    if HasBelow(packs, c.num) {
      var low :| low in packs && packs[low].num < c.num;
      SameLink(packs, marked, low);
      assert marked[low].num < c.num;
    }
  }

  lemma {:induction false} GrowthCovers(
    packs: Packs, base: nat, c: Id, known: Id, logHead: Id,
    ok: bool, due: seq<Id>, taken: nat, after: Packs, floor: int)
    requires Sound(packs, base) && Growth(packs, c, logHead, ok, due, taken, after)
    requires HasBelow(packs, c.num) && known in packs && packs[known].confirmedNum == c.num
    requires AllAbove(packs, floor) || floor <= c.num
    ensures ok ==> AllAbove(after, Max(floor, Final(due, taken)))
    ensures Covered(after, Max(floor, Final(due, taken)))
  {
    var low :| low in packs && packs[low].num < c.num;
    assert AllAbove(packs, floor) ==> AboveAt(packs, floor, low);
    assert floor <= c.num;
    FinalBelow(packs, base, c, due, taken);
    var high := Max(floor, Final(due, taken));
    if ok {
      forall id | id in after ensures AboveAt(after, high, id) {
        assert PackOk(packs, base, id);
      }
    } else {
      assert high <= after[known].confirmedNum;
    }
  }

  lemma {:induction false} FinalBelow(packs: Packs, base: nat, c: Id, due: seq<Id>, taken: nat)
    requires Sound(packs, base) && IsReport(packs, c, due) && taken <= |due|
    ensures Final(due, taken) <= c.num
  {
    if taken > 0 {
      var last := due[taken - 1];
      assert last in due && PackOk(packs, base, last);
    }
  }

  lemma {:induction false} NumberOf(packs: Packs, base: nat, id: Id)
    requires Sound(packs, base)
    ensures id in packs ==> packs[id].num == id.num && base <= id.num && id.num > 0
  {
    assert id in packs ==> PackOk(packs, base, id);
  }

  lemma {:induction false} FamilyHead(packs: Packs, c: Id)
    requires Tree(Links(packs)) && c in packs
    ensures c in Family(Links(packs), c) && Confirmed(packs, c)[c].confirmedId == c
  {
    assert Path(Links(packs), c)[0] == c;
  }

  /** After a confirmation only the block, now reported, and higher blocks are stored. */
  lemma {:induction false} KeptAfter(packs: Packs, c: Id)
    requires Tree(Links(packs)) && c in packs
    ensures var kept := Grown(Confirmed(packs, c), c, packs[c].num);
            && c in kept && kept[c].reported
            && forall id :: id in kept <==> id in packs && (packs[id].num > packs[c].num || id == c)
  {
    FamilyHead(packs, c);
    var marked := Confirmed(packs, c);
    forall id | id in packs ensures marked[id].num == packs[id].num {
      assert Links(marked)[id] == Links(packs)[id];
    }
  }
}
