/**
 What storing a block, settling and committing do to a node, as values.
 */
module ChainAdd {
  import opened Optional
  import opened SnapshotStack
  import opened Database
  import opened Replay
  import opened ForkTree
  import opened ForkConfirm
  import opened ForkMarks
  import opened ForkLog
  import opened ForkReport
  import opened ChainHistory

  /** A block has been stored and what the best block then knows has taken effect; nothing is committed yet. */
  ghost predicate Added<V>(
    was: Stage<V>, child: Id, prev: Id, arrival: Arrival, block: Block<V>,
    best: Id, ok: bool, due: seq<Id>, taken: nat, now: Stage<V>)
  {
    && AddedTo(was.packs, was.base, was.logHead, child, prev, arrival, best, ok, due, taken, now.packs, now.base)
    && now == Arrived(was, child, prev, arrival, block).(
              packs := now.packs, base := now.base, logHead := LogAfter(was.logHead, due, taken))
  }

  /** Storing a block of another branch keeps a node in order if its head stays stored. */
  lemma {:induction false} AddForeignKeeps<V>(
    was: Stage<V>, child: Id, prev: Id, arrival: Arrival, block: Block<V>,
    best: Id, ok: bool, due: seq<Id>, taken: nat, now: Stage<V>)
    requires Healthy(was) && Added(was, child, prev, arrival, block, best, ok, due, taken, now)
    requires !arrival.mainChain && child.num == prev.num + 1 && ArrivalOk(child, arrival)
    requires Sound(now.packs, now.base) && LogOk(now.packs, now.base, now.logHead) && was.head in now.packs
    ensures Healthy(now.(copies := Committed(was.copies, due, taken)))
    ensures ok ==> AllAbove(now.packs, Floor(Committed(was.copies, due, taken))) && Final(due, taken) <= was.head.num
  {
    assert UnfoldHint(0);
    var mid := Arrived(was, child, prev, arrival, block);
    ForeignKeepsHealthy(was, child, prev, arrival, block);
    SettleKeepsHealthy(mid, best, ok, due, taken, now.packs);
  }

  /** Storing an own block keeps a node in order, with that block as the head, if the block stays stored. */
  lemma {:induction false} AddOwnKeeps<V>(
    was: Stage<V>, child: Id, arrival: Arrival, block: Block<V>, after: Rows<V>,
    best: Id, due: seq<Id>, taken: nat, now: Stage<V>)
    requires Healthy(was) && Added(was, child, was.head, arrival, block, best, true, due, taken, now)
    requires arrival.mainChain && child.num == was.head.num + 1 && ArrivalOk(child, arrival)
    requires BodyMeaning(block, was.copies.now) == Some(after)
    requires Sound(now.packs, now.base) && LogOk(now.packs, now.base, now.logHead) && child in now.packs
    ensures var copies := Committed(Applied(was.copies, after), due, taken);
            Healthy(now.(head := child, copies := copies)) && AllAbove(now.packs, Floor(copies))
  {
    assert UnfoldHint(0);
    var mid := Arrived(was, child, was.head, arrival, block).(head := child, copies := Applied(was.copies, after));
    OwnKeepsHealthy(was, child, arrival, block, after);
    SettleKeepsHealthy(mid, best, true, due, taken, now.packs);
  }

  /** The log takes blocks of ascending numbers. */
  ghost predicate Rising(due: seq<Id>, taken: nat)
    requires taken <= |due|
  {
    forall i :: 0 < i < taken ==> due[i - 1].num <= due[i].num
  }

  lemma {:induction false} TakenRise<V>(
    was: Stage<V>, child: Id, prev: Id, arrival: Arrival, block: Block<V>,
    best: Id, ok: bool, due: seq<Id>, taken: nat, now: Stage<V>)
    requires Added(was, child, prev, arrival, block, best, ok, due, taken, now)
    requires Sound(was.packs, was.base) && child.num == prev.num + 1 && ArrivalOk(child, arrival)
    ensures Rising(due, taken)
  {
    assert UnfoldHint(0);
    InsertKeepsSound(was.packs, child, prev, arrival, was.base);
    var packs := Inserted(was.packs, child, prev, arrival);
    var h := packs[best];
    if GrowsByConfirm(packs, best) {
      ReportedRise(packs, was.base, was.logHead, due, taken);
    } else if GrowsByDpos(packs, best) && h.dposId in packs {
      ConfirmKeepsSound(packs, h.dposId, was.base);
      ReportedRise(Confirmed(packs, h.dposId), was.base, was.logHead, due, taken);
    }
  }

  lemma {:induction false} ReportedRise(packs: Packs, base: nat, logHead: Id, due: seq<Id>, taken: nat)
    requires Sound(packs, base) && Reported(packs, logHead, due, taken)
    ensures Rising(due, taken)
  {
    forall i | 0 < i < taken ensures due[i - 1].num <= due[i].num {
      assert FollowsLog(packs, LogAfter(logHead, due, i), due[i]) && PackOk(packs, base, due[i]);
    }
  }

  /** With no session open, or nothing final above the head, committing commits below the open session. */
  ghost predicate SessionSurvives<S>(content: Copies<S>, building: bool, due: seq<Id>, taken: nat)
    requires taken <= |due|
  {
    building && taken > 0 ==> due[taken - 1].num < content.revision
  }

  /** The copies apart from an open session. */
  ghost function Apart<S>(content: Copies<S>, building: bool): Copies<S> {
    if building then Pop(content) else content
  }

  lemma {:induction false} CommitApart<S>(content: Copies<S>, building: bool, due: seq<Id>, taken: nat)
    requires taken <= |due| && (building ==> content.saved != [])
    ensures SessionSurvives(content, building, due, taken) ==>
              && (building ==> Committed(content, due, taken).saved != [])
              && Apart(Committed(content, due, taken), building) == Committed(Apart(content, building), due, taken)
    ensures !SessionSurvives(content, building, due, taken) ==> Committed(content, due, taken).saved == []
  {
    if building && taken > 0 {
      ForgetBelowOpen(content, due[taken - 1].num);
    }
  }

  /** A block has been stored and what the log took has been committed, below or with an open session. */
  ghost predicate StoredAndCommitted<V>(
    was: Stage<V>, content: Copies<Rows<V>>, building: bool,
    child: Id, prev: Id, arrival: Arrival, block: Block<V>,
    best: Id, ok: bool, due: seq<Id>, taken: nat, now: Stage<V>, after: Copies<Rows<V>>)
  {
    && Added(was, child, prev, arrival, block, best, ok, due, taken, now.(copies := was.copies))
    && after == Committed(content, due, taken) && now.copies == Apart(after, building)
  }

  /** A report that was cut short removes nothing. */
  lemma {:induction false} CutShortKeepsAll(
    packs: Packs, base: nat, logHead: Id, child: Id, prev: Id, arrival: Arrival,
    best: Id, due: seq<Id>, taken: nat, after: Packs, lower: nat)
    requires AddedTo(packs, base, logHead, child, prev, arrival, best, false, due, taken, after, lower)
    ensures after.Keys == packs.Keys + {child}
  {
    assert UnfoldHint(0);
  }

  /** The head stays stored exactly if it lies above the block that takes effect, or is that block. */
  lemma {:induction false} HeadOutlives<V>(
    was: Stage<V>, child: Id, prev: Id, arrival: Arrival,
    best: Id, due: seq<Id>, taken: nat, after: Packs, lower: nat)
    requires Healthy(was) && child.num == prev.num + 1 && ArrivalOk(child, arrival)
    requires AddedTo(was.packs, was.base, was.logHead, child, prev, arrival, best, true, due, taken, after, lower)
    ensures was.head in after <==> Outlives(Inserted(was.packs, child, prev, arrival), best, was.head)
  {
    assert UnfoldHint(0);
    InsertKeepsValid(was.packs, was.base, was.logHead, child, prev, arrival);
    var more := Inserted(was.packs, child, prev, arrival);
    OutlivesExactly(more, was.base, was.logHead, best, due, taken, after, was.head);
  }

  /**
   A block of another branch has been stored, and what the log took has been committed. The node is in
   order if its head is still stored and an open session was not committed; which is so whenever the
   report was taken completely and the head is still stored.
   */
  lemma {:induction false} ForkAddOutcome<V>(
    was: Stage<V>, content: Copies<Rows<V>>, building: bool,
    child: Id, prev: Id, arrival: Arrival, block: Block<V>,
    best: Id, ok: bool, due: seq<Id>, taken: nat, now: Stage<V>, after: Copies<Rows<V>>)
    requires Healthy(was)
    requires StoredAndCommitted(
               was, content, building, child, prev, arrival, block, best, ok, due, taken, now, after)
    requires !arrival.mainChain && child.num == prev.num + 1 && ArrivalOk(child, arrival)
    requires Sound(now.packs, now.base) && LogOk(now.packs, now.base, now.logHead)
    requires was.copies == Apart(content, building) && (building ==> content.saved != [])
    ensures was.head in now.packs && SessionSurvives(content, building, due, taken) ==> Healthy(now)
    ensures ok && was.head in now.packs ==>
              SessionSurvives(content, building, due, taken) && AllAbove(now.packs, Floor(now.copies))
    ensures !ok ==> was.head in now.packs
    ensures ok ==> (was.head in now.packs <==> Outlives(Inserted(was.packs, child, prev, arrival), best, was.head))
    ensures now.head == was.head
  {
    assert UnfoldHint(0);
    var before := now.(copies := was.copies);
    CommitApart(content, building, due, taken);
    if ok {
      HeadOutlives(was, child, prev, arrival, best, due, taken, now.packs, now.base);
    }
    if !ok {
      CutShortKeepsAll(
        was.packs, was.base, was.logHead, child, prev, arrival, best, due, taken, now.packs, now.base);
    }
    if was.head in now.packs {
      AddForeignKeeps(was, child, prev, arrival, block, best, ok, due, taken, before);
      if SessionSurvives(content, building, due, taken) {
        assert now == before.(copies := Committed(was.copies, due, taken));
      }
    }
  }

  /** An own block has been applied to the copies and stored, and what the log took has been committed. */
  ghost predicate Extended<V>(
    was: Stage<V>, id: Id, arrival: Arrival, block: Block<V>, after: Rows<V>,
    best: Id, ok: bool, due: seq<Id>, taken: nat, now: Stage<V>, content: Copies<Rows<V>>)
  {
    && Added(was, id, was.head, arrival, block, best, ok, due, taken, now.(head := was.head, copies := was.copies))
    && content == Committed(Applied(was.copies, after), due, taken)
  }

  /** A block refused, one stored before, one accepted, and one that was stored and then not accepted. */
  datatype Extension = Refused | Duplicate | Accepted | Torn

  /**
   What becomes of a block after the head. `open` is the content in which its signer was looked up.
   It is accepted exactly if it is applied, new, every report it causes is taken, and it is then the
   best block. One that is stored and not accepted is torn.
   */
  ghost predicate ExtendedBy<V>(
    was: Stage<V>, open: Rows<V>, id: Id, arrival: Arrival, block: Block<V>,
    best: Id, ok: bool, due: seq<Id>, taken: nat, now: Stage<V>, content: Copies<Rows<V>>, r: Extension)
  {
    var meaning := BlockMeaning(block, open, was.copies.now);
    && (r.Refused? <==> meaning.None?)
    && (r.Duplicate? <==> meaning.Some? && id in was.packs)
    && (r.Refused? || r.Duplicate? ==> now == was)
    && (r.Accepted? || r.Torn? ==>
          && Extended(was, id, arrival, block, meaning.value, best, ok, due, taken, now, content)
          && (r.Accepted? <==> ok && best == id)
          && now.head == if ok then best else was.head)
    && (r.Accepted? ==> now.copies == content)
  }

  lemma {:induction false} CommittedIsExtended<V>(
    was: Stage<V>, content: Copies<Rows<V>>, id: Id, arrival: Arrival, block: Block<V>, after: Rows<V>,
    best: Id, ok: bool, due: seq<Id>, taken: nat, mid: Stage<V>, committed: Copies<Rows<V>>, now: Stage<V>)
    requires StoredAndCommitted(
               was, content, true, id, was.head, arrival, block, best, ok, due, taken, mid, committed)
    requires content == Applied(was.copies, after) && now == mid.(head := now.head, copies := now.copies)
    ensures Extended(was, id, arrival, block, after, best, ok, due, taken, now, committed)
    ensures mid.head == was.head
  {
    assert now.(head := was.head, copies := was.copies) == mid.(copies := was.copies);
  }

  lemma {:induction false} OwnIsExtended<V>(
    was: Stage<V>, open: Rows<V>, id: Id, arrival: Arrival, block: Block<V>,
    best: Id, ok: bool, due: seq<Id>, taken: nat, now: Stage<V>, content: Copies<Rows<V>>, r: Extension)
    requires BlockMeaning(block, open, was.copies.now).Some? && !r.Refused?
    requires r.Duplicate? <==> id in was.packs
    requires r.Duplicate? ==> now == was
    requires !r.Duplicate? ==>
               && Extended(was, id, arrival, block, BlockMeaning(block, open, was.copies.now).value,
                           best, ok, due, taken, now, content)
               && (r.Accepted? <==> ok && best == id) && now.head == (if ok then best else was.head)
    requires r.Accepted? ==> now.copies == content
    ensures ExtendedBy(was, open, id, arrival, block, best, ok, due, taken, now, content, r)
  {
  }

  lemma {:induction false} AcceptedKeeps<V>(
    was: Stage<V>, open: Rows<V>, id: Id, arrival: Arrival, block: Block<V>,
    best: Id, ok: bool, due: seq<Id>, taken: nat, now: Stage<V>, content: Copies<Rows<V>>)
    requires Healthy(was)
    requires ExtendedBy(was, open, id, arrival, block, best, ok, due, taken, now, content, Accepted)
    requires arrival.mainChain && id.num == was.head.num + 1 && ArrivalOk(id, arrival)
    requires Sound(now.packs, now.base) && LogOk(now.packs, now.base, now.logHead)
    ensures Healthy(now) && AllAbove(now.packs, Floor(now.copies))
  {
    assert UnfoldHint(0);
    var after := BlockMeaning(block, open, was.copies.now).value;
    var before := now.(head := was.head, copies := was.copies);
    BestStays(was.packs, was.base, was.logHead, id, was.head, arrival, due, taken, now.packs, now.base);
    AddOwnKeeps(was, id, arrival, block, after, best, due, taken, before);
    assert now == before.(head := id, copies := content);
  }

  // ---------------------------------------------------------------------
  // When an own block is accepted
  // ---------------------------------------------------------------------

  ghost predicate NothingBetter(packs: Packs, pack: Pack) {
    forall id :: id in packs ==> !Better(packs[id], pack)
  }

  /** A block after the head is the best once it is stored exactly if no stored block is better than it. */
  lemma {:induction false} BestIfNothingBetter<V>(s: Stage<V>, id: Id, arrival: Arrival, best: Id)
    requires Healthy(s) && arrival.mainChain && id !in s.packs && id.num == s.head.num + 1
    requires IsBest(Inserted(s.packs, id, s.head, arrival), best)
    ensures best == id <==> NothingBetter(s.packs, Child(s.packs[s.head], s.head, arrival))
  {
    assert UnfoldHint(0);
    var more := Inserted(s.packs, id, s.head, arrival);
    assert more[id] == Child(s.packs[s.head], s.head, arrival) && PackOk(s.packs, s.base, s.head);
    if best == id {
      forall k | k in s.packs ensures !Better(s.packs[k], more[id]) {
        assert !Better(more[k], more[best]);
      }
    } else {
      assert !Better(more[id], more[best]);
      if s.packs[best].mainChain && s.packs[best].num == more[id].num {
        assert FlagAt(s.packs, s.links, s.head, best) && RecordedAt(s.packs, s.links, best);
        assert RecordedAt(s.packs, s.links, s.head);
        AncestorNumber(s.links, best, s.head);
      }
      assert Better(s.packs[best], more[id]);
    }
  }

  /**
   A confirmation of a block that the head is not related to, above what the head knows as confirmed,
   makes the next block after the head torn.
   */
  lemma {:induction false} TornAfterConfirmation<V>(s: Stage<V>, z: Id, id: Id, arrival: Arrival, best: Id)
    requires Healthy(s) && arrival.mainChain && id !in s.packs && id.num == s.head.num + 1
    requires z in s.packs && !Related(Links(s.packs), z, s.head) && s.packs[s.head].confirmedNum < s.packs[z].num
    requires !Settles(s.packs, z) && IsBest(Inserted(Confirmed(s.packs, z), id, s.head, arrival), best)
    ensures best != id
  {
    var marked := s.(packs := Confirmed(s.packs, z));
    ConfirmKeepsHealthy(s, z);
    BestIfNothingBetter(marked, id, arrival, best);
    assert Path(Links(s.packs), z)[0] == z;
    assert marked.packs[z].confirmedNum == s.packs[z].num && marked.packs[s.head] == s.packs[s.head];
    assert Better(marked.packs[z], Child(marked.packs[s.head], s.head, arrival));
  }
}
