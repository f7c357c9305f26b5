/**
 The node: the chain of blocks over the state database and the fork database.

 Blocks of other branches are stored, confirmations are marked, what becomes irreversible is
 committed and pruned, and the node switches to a better branch. Blocks built here or applied
 after the head extend the chain. In every state in order, whatever the next step is, a switch
 finds every block it pops still undoable.
 */
module ChainState {
  import opened Optional
  import opened SnapshotStack
  import opened Database
  import opened Replay
  import opened BlockSession
  import opened ForkTree
  import opened ForkBranch
  import opened ForkConfirm
  import opened ForkMarks
  import opened ForkLog
  import opened ForkReport
  import opened ForkDb
  import opened ChainHistory
  import opened ChainSwitch
  import opened ChainAdd
  import BlockId

  class Chain<V(!new)> {
    const work: Workspace<V>
    const fork: ForkContext
    var blocks: map<Id, Block<V>>
    var head: Id
    /** Every block ever stored. */
    ghost var links: map<Id, Link>

    ghost predicate Valid()
      reads this, work, work.db, work.db.tables, fork
    {
      work.Valid() && fork.Valid() && Healthy(Now())
    }

    ghost function Now(): Stage<V>
      reads this, work, work.db, fork
    {
      Stage(fork.packs, fork.base, fork.logHead, links, blocks, head, work.Idle())
    }

    /** Every stored block could be the fork block of a switch: what lies above it can be undone. */
    ghost predicate AllUndoable()
      reads this, work, work.db, fork
    {
      AllAbove(fork.packs, Floor(work.Idle()))
    }

    /** After the first block: no open session, revision one, the block on the main chain. */
    constructor (workspace: Workspace<V>, context: ForkContext, genesis: Id, block: Block<V>)
      requires workspace.Valid() && !workspace.building
      requires workspace.db.content.saved == [] && workspace.db.content.revision == 1
      requires context.Valid() && context.base == 1 && genesis.num == 1
      requires context.packs == map[genesis := FirstPack(genesis)] && MarksOk(context.packs)
      ensures Valid() && work == workspace && fork == context && head == genesis
    {
      work, fork := workspace, context;
      blocks := map[genesis := block];
      head := genesis;
      links := map[genesis := Link(EMPTY_CHAIN_ID, 1)];
      new;
      HistoryIsTree(links);
      assert Path(links, EMPTY_CHAIN_ID) == [];
      assert Path(links, genesis) == [genesis];
    }

    // -------------------------------------------------------------------
    // Confirmations
    // -------------------------------------------------------------------

    /** A block that gathered enough confirmations. */
    method PushConfirmation(c: Id) returns (ok: bool)
      requires Valid()
      modifies fork
      ensures Valid() && ok == (c in old(fork.packs))
      ensures fork.packs == if ok && !Settles(old(fork.packs), c) then Confirmed(old(fork.packs), c)
                            else old(fork.packs)
    {
      ok := c in fork.packs;
      if ok && fork.packs[c].confirmedNum < fork.packs[c].num {
        MarkConfirmed(c);
      }
    }

    method MarkConfirmed(c: Id)
      requires Valid() && c in fork.packs && !Settles(fork.packs, c)
      modifies fork
      ensures Valid() && fork.packs == Confirmed(old(fork.packs), c)
    {
      ghost var was := Now();
      ConfirmKeepsHealthy(was, c);
      MarkInFork(c);
      assert Now() == was.(packs := Confirmed(was.packs, c));
    }

    method MarkInFork(c: Id)
      requires work.Valid() && fork.Valid() && c in fork.packs
      modifies fork
      ensures work.Valid() && fork.Valid()
      ensures Now() == old(Now()).(packs := Confirmed(old(fork.packs), c))
    {
      var _ := fork.SetLastConfirmed(c);
    }

    // -------------------------------------------------------------------
    // One block back, one block on
    // -------------------------------------------------------------------

    method FlagAndMove(id: Id, flag: bool, to: Id)
      requires work.Valid() && fork.Valid() && id in fork.packs
      modifies this`head, fork
      ensures work.Valid() && fork.Valid() && fork.head == old(fork.head)
      ensures Now() == old(Now()).(packs := WithFlag(old(fork.packs), id, flag), head := to)
    {
      var _ := fork.ChangeMainChainFlag(id, flag);
      head := to;
    }

    method UndoNewest()
      requires work.Valid() && fork.Valid() && work.Idle().saved != []
      modifies work.db, work.db.tables
      ensures work.Valid() && fork.Valid() && work.db.content == Pop(old(work.db.content))
      ensures Now() == old(Now()).(copies := Pop(old(work.Idle())))
    {
      work.UndoOne();
    }

    /** Undoes the newest block and moves the head to its predecessor. */
    method PopBlock()
      requires work.Valid() && fork.Valid() && head in fork.packs && work.Idle().saved != []
      modifies this`head, fork, work.db, work.db.tables
      ensures work.Valid() && fork.Valid() && Now() == Popped(old(Now())) && fork.head == old(fork.head)
      ensures work.db.content == Pop(old(work.db.content))
    {
      ghost var was := Now();
      FlagAndMove(head, false, fork.packs[head].prev);
      UndoNewest();
      assert Now() == Popped(was);
    }

    /** Applies a block and keeps its session; a failed block's session stays open. */
    method ApplyAndKeep(block: Block<V>) returns (ok: bool)
      requires work.Valid() && fork.Valid()
      modifies work, work.db, work.db.tables
      ensures work.Valid() && fork.Valid()
      ensures ok == BlockMeaning(block, old(work.db.content).now, old(work.Idle()).now).Some?
      ensures !ok ==> Now() == old(Now())
      ensures ok ==> !work.building
      ensures ok ==>
                var after := BlockMeaning(block, old(work.db.content).now, old(work.Idle()).now).value;
                Now() == old(Now()).(copies := Applied(old(work.Idle()), after))
    {
      ok := work.ApplySigned(block);
      if ok {
        work.KeepBlock();
      }
    }

    /** Applies a stored child of the head and, on success, makes it the head. */
    method PushBlock(id: Id) returns (ok: bool)
      requires work.Valid() && fork.Valid() && id in fork.packs && id in blocks && fork.packs[id].prev == head
      modifies this`head, fork, work, work.db, work.db.tables
      ensures work.Valid() && fork.Valid() && fork.head == old(fork.head)
      ensures ok == BlockMeaning(blocks[id], old(work.db.content).now, old(work.Idle()).now).Some?
      ensures !ok ==> Now() == old(Now())
      ensures ok ==> !work.building
      ensures ok ==>
                var after := BlockMeaning(blocks[id], old(work.db.content).now, old(work.Idle()).now).value;
                Now() == Pushed(old(Now()), id, after)
    {
      ghost var was := Now();
      ghost var meaning := BlockMeaning(blocks[id], work.db.content.now, work.Idle().now);
      ok := ApplyAndKeep(blocks[id]);
      if ok {
        FlagAndMove(id, true, id);
        assert Now() == Pushed(was, id, meaning.value);
      }
    }

    // -------------------------------------------------------------------
    // A switch
    // -------------------------------------------------------------------

    /** Pops `n` blocks of the main chain. */
    method PopBlocks(n: nat)
      requires Valid() && n < |Path(Links(fork.packs), head)| && n <= |work.Idle().saved|
      modifies this`head, fork, work.db, work.db.tables
      ensures work.Valid() && fork.Valid() && fork.head == old(fork.head)
      ensures PoppedBy(old(Now()), n, Now()) && work.db.content == PopN(old(work.db.content), n)
    {
      ghost var was := Now();
      PopTimesIs(was, n);
      PopMany(was, n);
    }

    method PopMany(ghost was: Stage<V>, n: nat)
      requires work.Valid() && fork.Valid() && was == Now() && Healthy(was)
      requires n < |Path(Links(was.packs), was.head)| && n <= |was.copies.saved|
      modifies this`head, fork, work.db, work.db.tables
      ensures work.Valid() && fork.Valid() && fork.head == old(fork.head)
      ensures Now() == PopTimes(was, n) && work.db.content == PopN(old(work.db.content), n)
    {
      ghost var open := work.db.content;
      for i := 0 to n
        invariant work.Valid() && fork.Valid() && fork.head == old(fork.head)
        invariant Now() == PopTimes(was, i) && work.db.content == PopN(open, i)
      {
        NextPop(was, i);
        PopNStep(open, i);
        PopBlock();
      }
    }

    /** Applies the listed blocks, each a child of the one before, until one fails. */
    method PushBlocks(ids: seq<Id>) returns (applied: nat)
      requires Valid() && Linked(Links(fork.packs), head, ids)
      modifies this`head, fork, work, work.db, work.db.tables
      ensures work.Valid() && fork.Valid() && fork.head == old(fork.head)
      ensures applied <= |ids|
      ensures var check := CheckFor(applied, old(work.db.content).now, work.Idle());
              && PushedBy(old(Now()), old(work.db.content).now, ids, applied, Now(), check)
              && (applied < |ids| ==> Fails(blocks, ids[applied], check, work.Idle().now))
    {
      ghost var was, check := Now(), work.db.content.now;
      applied := 0;
      PushNone(was, check, ids);
      while applied < |ids|
        invariant work.Valid() && fork.Valid() && fork.head == old(fork.head)
        invariant applied <= |ids| && PushedBy(was, check, ids, applied, Now(), work.db.content.now)
      {
        var ok := PushNext(was, check, ids, applied);
        if !ok {
          return;
        }
        applied := applied + 1;
      }
    }

    method PushNext(ghost was: Stage<V>, ghost check: Rows<V>, ids: seq<Id>, n: nat) returns (ok: bool)
      requires work.Valid() && fork.Valid() && PushedBy(was, check, ids, n, Now(), work.db.content.now)
      requires Linked(Links(was.packs), was.head, ids) && n < |ids|
      modifies this`head, fork, work, work.db, work.db.tables
      ensures work.Valid() && fork.Valid() && fork.head == old(fork.head)
      ensures ok ==> PushedBy(was, check, ids, n + 1, Now(), work.db.content.now)
      ensures !ok ==> Now() == old(Now()) && Fails(blocks, ids[n], old(work.db.content).now, work.Idle().now)
    {
      ghost var now, open := Now(), work.db.content.now;
      NextIsStored(was, check, ids, n, now, open);
      ok := PushBlock(ids[n]);
      if ok {
        PushOneMore(was, check, ids, n, now, open);
      }
    }

    /** Pops the one branch and applies the other, oldest block first, as far as it goes. */
    method SwitchTo(newHead: Id, br: Branches) returns (applied: nat)
      requires Valid() && AllUndoable() && newHead in fork.packs
      requires SplitsAtFork(Links(fork.packs), head, newHead, br)
      modifies this`head, fork, work, work.db, work.db.tables
      ensures work.Valid() && fork.Valid() && fork.head == old(fork.head) && applied <= |br.second|
      ensures var open := PopN(old(work.db.content), |br.first|).now;
              && SwitchedBy(old(Now()), open, newHead, br, applied, Now())
              && (applied < |br.second| ==>
                    Fails(blocks, Reversed(br.second)[applied], CheckFor(applied, open, work.Idle()), work.Idle().now))
      ensures applied == |br.second| ==> head == newHead
    {
      ghost var was := Now();
      SwitchReady(was, newHead, br);
      var ids := ReverseIds(br.second);
      PopBlocks(|br.first|);
      ghost var mid, check := Now(), work.db.content.now;
      applied := PushBlocks(ids);
      ComposeSwitch(was, mid, Now(), check, CheckFor(applied, check, work.Idle()), newHead, br, applied);
    }

    /**
     Switches to the branch of the best block if that is not on the main chain. There is nothing to
     do this from if the two heads have no stored common ancestor, or if the present head lies on
     the other branch. Every block that a switch pops can be undone.
     */
    method CheckFork() returns (result: SwitchResult, ghost br: Branches)
      requires fork.Valid() && (head in fork.packs ==> Valid() && AllUndoable())
      modifies this`head, fork, work, work.db, work.db.tables
      ensures fork.Valid() && fork.head == old(fork.head)
      ensures Checked(old(Now()), fork.head, old(work.db.content), result, br, Now())
      ensures result.Stayed? <==> fork.head in old(fork.packs) && old(fork.packs)[fork.head].mainChain
      ensures result.Switched? ==> head == fork.head
      ensures !result.Switched? && !result.BadBlock? ==> head == old(head) && fork.packs == old(fork.packs)
      ensures !result.Switched? && !result.BadBlock? ==> work.db.content == old(work.db.content)
      ensures old(head) in old(fork.packs) ==> Valid() && AllUndoable()
      ensures old(head) !in old(fork.packs) ==> Now() == old(Now())
    {
      var plan;
      plan, result := FindBranch();
      br := plan;
      if result.Switched? {
        result := MakeSwitch(plan);
      }
    }

    method MakeSwitch(br: Branches) returns (result: SwitchResult)
      requires Valid() && AllUndoable() && BranchWanted(fork.packs, fork.head) && fork.head in fork.packs
      requires SplitsAtFork(Links(fork.packs), head, fork.head, br) && br.first != []
      modifies this`head, fork, work, work.db, work.db.tables
      ensures work.Valid() && fork.Valid() && fork.head == old(fork.head)
      ensures Checked(old(Now()), fork.head, old(work.db.content), result, br, Now())
      ensures result.Switched? || result.BadBlock?
      ensures Healthy(Now()) && AllUndoable()
    {
      ghost var was, content := Now(), work.db.content;
      var applied := SwitchTo(fork.head, br);
      result := if applied == |br.second| then Switched else BadBlock(applied);
      SwitchIsChecked(was, fork.head, content, result, br, applied, Now());
      SwitchStaysUndoable(was, PopN(content, |br.first|).now, fork.head, br, applied, Now());
    }

    /** What a look for a better branch finds; Switched stands for a switch to be made. */
    method FindBranch() returns (br: Branches, result: SwitchResult)
      requires fork.Valid() && (head in fork.packs ==> Healthy(Now()) && AllUndoable())
      ensures !result.BadBlock?
      ensures result.Stayed? || result.NoCommonAncestor? || result.EmptyOrigin? ==>
                Checked(Now(), fork.head, work.db.content, result, br, Now())
      ensures result.Switched? ==>
                && head in fork.packs && fork.head in fork.packs && BranchWanted(fork.packs, fork.head)
                && SplitsAtFork(Links(fork.packs), head, fork.head, br) && br.first != []
                && HaveCommonAncestor(Links(fork.packs), head, fork.head)
    {
      br := Branches(head, [], []);
      if fork.head in fork.packs && fork.packs[fork.head].mainChain {
        return br, Stayed;
      }
      var found := FetchBranchFromFork(fork.packs, head, fork.head);
      FoundMeansStored(fork.packs, head, fork.head);
      if found.None? {
        return br, NoCommonAncestor;
      }
      br := found.value;
      SwitchReady(Now(), fork.head, br);
      return br, if br.first == [] then EmptyOrigin else Switched;
    }

    // -------------------------------------------------------------------
    // Blocks of other branches
    // -------------------------------------------------------------------

    /** Stores a block and lets what the best block then knows take effect. */
    method StoreBlock(child: Id, prev: Id, ghost summary: BlockId.Bits, arrival: Arrival, block: Block<V>)
      returns (stored: bool, ok: bool, due: seq<Id>, taken: nat)
      requires work.Valid() && fork.Valid() && IdAfter(child, prev, summary) && ArrivalOk(child, arrival)
      modifies this`blocks, this`links, fork
      ensures work.Valid() && fork.Valid() && stored == (prev in old(fork.packs) && child !in old(fork.packs))
      ensures taken <= |due|
      ensures !stored ==> Now() == old(Now()) && fork.head == old(fork.head)
      ensures stored ==> Added(old(Now()), child, prev, arrival, block, fork.head, ok, due, taken, Now())
    {
      ghost var was := Now();
      stored, ok, due, taken := StoreInFork(child, prev, summary, arrival);
      if stored {
        ghost var now := Now();
        Record(child, prev, block);
        assert Now() == now.(blocks := was.blocks[child := block], links := Longer(was.links, child, prev));
      }
    }

    method Record(child: Id, prev: Id, block: Block<V>)
      requires work.Valid() && fork.Valid()
      modifies this`blocks, this`links
      ensures work.Valid() && fork.Valid()
      ensures Now() == old(Now()).(blocks := old(blocks)[child := block], links := Longer(old(links), child, prev))
    {
      blocks := blocks[child := block];
      links := Longer(links, child, prev);
    }

    method StoreInFork(child: Id, prev: Id, ghost summary: BlockId.Bits, arrival: Arrival)
      returns (stored: bool, ok: bool, due: seq<Id>, taken: nat)
      requires work.Valid() && fork.Valid() && IdAfter(child, prev, summary) && ArrivalOk(child, arrival)
      modifies fork
      ensures work.Valid() && fork.Valid() && stored == (prev in old(fork.packs) && child !in old(fork.packs))
      ensures taken <= |due|
      ensures Now() ==
              old(Now()).(packs := fork.packs, base := fork.base, logHead := LogAfter(old(fork.logHead), due, taken))
      ensures !stored ==> Now() == old(Now()) && fork.head == old(fork.head)
      ensures stored ==>
                AddedTo(old(fork.packs), old(fork.base), old(fork.logHead), child, prev, arrival,
                        fork.head, ok, due, taken, fork.packs, fork.base)
    {
      stored, ok, due, taken := fork.AddBlock(child, prev, summary, arrival);
    }

    /** Commits, one after the other, the blocks that the log took. */
    method CommitReported(due: seq<Id>, taken: nat)
      requires work.Valid() && fork.Valid() && taken <= |due| && Rising(due, taken)
      modifies work.db, work.db.tables
      ensures work.db.Valid() && fork.Valid()
      ensures work.Valid() == SessionSurvives(old(work.db.content), work.building, due, taken)
      ensures work.db.content == Committed(old(work.db.content), due, taken)
      ensures Now() == old(Now()).(copies := Apart(work.db.content, work.building))
    {
      CommitApart(work.db.content, work.building, due, taken);
      CommitEach(due, taken);
    }

    method CommitEach(due: seq<Id>, taken: nat)
      requires work.db.Valid() && taken <= |due| && Rising(due, taken)
      modifies work.db, work.db.tables
      ensures work.db.Valid() && work.db.content == Committed(old(work.db.content), due, taken)
    {
      ghost var start := work.db.content;
      for i := 0 to taken
        invariant work.db.Valid() && work.db.content == Committed(start, due, i)
      {
        if i > 0 {
          ForgetTwice(start, due[i - 1].num, due[i].num);
        }
        work.Commit(due[i].num);
      }
    }

    /** Stores a block, lets what the best block then knows take effect, and commits what the log took. */
    method StoreAndCommit(child: Id, prev: Id, ghost summary: BlockId.Bits, arrival: Arrival, block: Block<V>)
      returns (stored: bool, ok: bool, due: seq<Id>, taken: nat)
      requires work.Valid() && fork.Valid() && IdAfter(child, prev, summary) && ArrivalOk(child, arrival)
      modifies this`blocks, this`links, fork, work.db, work.db.tables
      ensures work.db.Valid() && fork.Valid() && taken <= |due|
      ensures stored == (prev in old(fork.packs) && child !in old(fork.packs))
      ensures !stored ==> work.Valid() && Now() == old(Now()) && work.db.content == old(work.db.content)
      ensures stored ==>
                StoredAndCommitted(old(Now()), old(work.db.content), work.building, child, prev, arrival, block,
                                   fork.head, ok, due, taken, Now(), work.db.content)
      ensures stored ==> work.Valid() == SessionSurvives(old(work.db.content), work.building, due, taken)
    {
      ghost var was := Now();
      stored, ok, due, taken := StoreBlock(child, prev, summary, arrival, block);
      if stored {
        IdAfterNumber(child, prev, summary);
        TakenRise(was, child, prev, arrival, block, fork.head, ok, due, taken, Now());
        CommitReported(due, taken);
      }
    }

    /**
     Stores a block of another branch. The node stays in order exactly if its head stays stored, or,
     when the report was cut short, exactly if no open session was committed with it. Taken
     completely, a report leaves only blocks that can be undone to.
     */
    method AddFork(child: Id, prev: Id, ghost summary: BlockId.Bits, arrival: Arrival, block: Block<V>)
      returns (stored: bool, ok: bool, due: seq<Id>, taken: nat)
      requires Valid() && IdAfter(child, prev, summary) && ArrivalOk(child, arrival) && !arrival.mainChain
      modifies this`blocks, this`links, fork, work.db, work.db.tables
      ensures work.db.Valid() && fork.Valid() && taken <= |due|
      ensures stored == (prev in old(fork.packs) && child !in old(fork.packs))
      ensures !stored ==> Valid() && Now() == old(Now()) && work.db.content == old(work.db.content)
      ensures stored ==>
                StoredAndCommitted(old(Now()), old(work.db.content), work.building, child, prev, arrival, block,
                                   fork.head, ok, due, taken, Now(), work.db.content)
      ensures stored && ok ==> (Valid() <==> head in fork.packs)
      ensures stored && ok ==>
                (head in fork.packs <==> Outlives(Inserted(old(fork.packs), child, prev, arrival), fork.head, head))
      ensures stored && ok && head in fork.packs ==> AllUndoable()
      ensures stored && !ok ==> (Valid() <==> SessionSurvives(old(work.db.content), work.building, due, taken))
    {
      ghost var was, content := Now(), work.db.content;
      stored, ok, due, taken := StoreAndCommit(child, prev, summary, arrival, block);
      if stored {
        IdAfterNumber(child, prev, summary);
        ForkAddOutcome(
          was, content, work.building, child, prev, arrival, block, fork.head, ok, due, taken, Now(), work.db.content);
      }
    }

    /**
     A block of another branch arrives: it is stored, what it makes final is committed and pruned, and
     the node looks for a better branch. `mid` is the node between the two, `content` its database.
     After a complete report the node is in order exactly if its head lies above the block that took
     effect, or is that block; after one cut short, exactly if no open session was committed with it.
     */
    method PushFork(
      child: Id, prev: Id, ghost summary: BlockId.Bits, arrival: Arrival, block: Block<V>, admitted: bool)
      returns (r: ForkResult, due: seq<Id>, taken: nat, ghost br: Branches,
               ghost mid: Stage<V>, ghost content: Copies<Rows<V>>)
      requires Valid() && IdAfter(child, prev, summary) && ArrivalOk(child, arrival) && !arrival.mainChain
      modifies this, fork, work, work.db, work.db.tables
      ensures fork.Valid() && taken <= |due|
      ensures r.NotStored? <==> !admitted || prev !in old(fork.packs) || child in old(fork.packs)
      ensures r.NotStored? ==> Valid() && Now() == old(Now())
      ensures ForkPushed(old(Now()), old(work.db.content), old(work.building), child, prev, arrival, block,
                         fork.head, r, due, taken, br, mid, content, Now())
      ensures r.ReportRefused? ==> (Valid() <==> SessionSurvives(old(work.db.content), old(work.building), due, taken))
      ensures r.Looked? ==>
                (Valid() <==> Outlives(Inserted(old(fork.packs), child, prev, arrival), fork.head, old(head)))
    {
      if admitted {
        r, due, taken, br, mid, content := AddAndLook(child, prev, summary, arrival, block);
      } else {
        r, due, taken, br := NotStored, [], 0, Branches(head, [], []);
        mid, content := Now(), work.db.content;
      }
    }

    method AddAndLook(child: Id, prev: Id, ghost summary: BlockId.Bits, arrival: Arrival, block: Block<V>)
      returns (r: ForkResult, due: seq<Id>, taken: nat, ghost br: Branches,
               ghost mid: Stage<V>, ghost content: Copies<Rows<V>>)
      requires Valid() && IdAfter(child, prev, summary) && ArrivalOk(child, arrival) && !arrival.mainChain
      modifies this, fork, work, work.db, work.db.tables
      ensures fork.Valid() && taken <= |due|
      ensures r.NotStored? <==> prev !in old(fork.packs) || child in old(fork.packs)
      ensures r.NotStored? ==> Valid() && Now() == old(Now())
      ensures ForkPushed(old(Now()), old(work.db.content), old(work.building), child, prev, arrival, block,
                         fork.head, r, due, taken, br, mid, content, Now())
      ensures r.ReportRefused? ==> (Valid() <==> SessionSurvives(old(work.db.content), old(work.building), due, taken))
      ensures r.Looked? ==> (Valid() <==> old(head) in mid.packs)
      ensures r.Looked? ==>
                (old(head) in mid.packs <==>
                 Outlives(Inserted(old(fork.packs), child, prev, arrival), fork.head, old(head)))
    {
      br := Branches(head, [], []);
      var stored, ok;
      stored, ok, due, taken := AddFork(child, prev, summary, arrival, block);
      mid, content := Now(), work.db.content;
      if !stored {
        return NotStored, due, taken, br, mid, content;
      }
      if !ok {
        return ReportRefused, due, taken, br, mid, content;
      }
      var result;
      result, br := CheckFork();
      r := Looked(result);
    }

    // -------------------------------------------------------------------
    // Blocks built here or applied after the head
    // -------------------------------------------------------------------

    /** Applies a block in a session that stays open. */
    method ApplyOpen(block: Block<V>) returns (ok: bool)
      requires work.Valid() && fork.Valid()
      modifies work, work.db, work.db.tables
      ensures work.Valid() && fork.Valid() && Now() == old(Now())
      ensures ok == BlockMeaning(block, old(work.db.content).now, old(work.Idle()).now).Some?
      ensures ok ==> work.building
      ensures ok ==>
                var after := BlockMeaning(block, old(work.db.content).now, old(work.Idle()).now).value;
                work.db.content == Applied(old(work.Idle()), after)
    {
      ok := work.ApplySigned(block);
    }

    /**
     A block built here, or received; one that does not follow the head is refused. It is applied,
     stored in the fork database, and becomes the head if the fork database then has it as its best
     block. If it does not, or if the log refuses a report, the block is torn: stored and flagged, but
     not on the chain of the head, with its session still open and the head, in the first case, moved
     to a block never applied.
     */
    method ConfirmBlock(id: Id, prev: Id, ghost summary: BlockId.Bits, arrival: Arrival, block: Block<V>)
      returns (r: Extension, due: seq<Id>, taken: nat, ghost ok: bool)
      requires Valid() && IdAfter(id, prev, summary) && ArrivalOk(id, arrival) && arrival.mainChain
      modifies this, fork, work, work.db, work.db.tables
      ensures work.db.Valid() && fork.Valid() && taken <= |due|
      ensures prev != old(head) ==> r.Refused? && Now() == old(Now()) && work.db.content == old(work.db.content)
      ensures prev == old(head) ==>
                ExtendedBy(old(Now()), old(work.db.content).now, id, arrival, block,
                           fork.head, ok, due, taken, Now(), work.db.content, r)
      ensures prev == old(head) ==>
                (r.Refused? <==> !BlockApplies(block, old(work.db.content).now, old(work.Idle()).now))
      ensures r.Refused? || r.Duplicate? ==> Valid()
      ensures r.Accepted? ==> Valid() && AllUndoable()
      ensures r.Torn? ==> work.building
    {
      BlockExactly(block, work.db.content.now, work.Idle().now);
      if prev != head {
        return Refused, [], 0, false;
      }
      r, due, taken, ok := FollowHead(id, summary, arrival, block);
    }

    method FollowHead(id: Id, ghost summary: BlockId.Bits, arrival: Arrival, block: Block<V>)
      returns (r: Extension, due: seq<Id>, taken: nat, ghost ok: bool)
      requires Valid() && IdAfter(id, head, summary) && ArrivalOk(id, arrival) && arrival.mainChain
      modifies this, fork, work, work.db, work.db.tables
      ensures work.db.Valid() && fork.Valid() && taken <= |due|
      ensures ExtendedBy(old(Now()), old(work.db.content).now, id, arrival, block,
                         fork.head, ok, due, taken, Now(), work.db.content, r)
      ensures r.Refused? || r.Duplicate? ==> Valid()
      ensures r.Accepted? ==> Valid() && AllUndoable()
      ensures r.Torn? ==> work.building
    {
      ghost var was, open := Now(), work.db.content.now;
      IdAfterNumber(id, head, summary);
      r, due, taken, ok := Extend(id, summary, arrival, block);
      if r.Accepted? {
        AcceptedKeeps(was, open, id, arrival, block, fork.head, ok, due, taken, Now(), work.db.content);
      }
    }

    method Extend(id: Id, ghost summary: BlockId.Bits, arrival: Arrival, block: Block<V>)
      returns (r: Extension, due: seq<Id>, taken: nat, ghost ok: bool)
      requires work.Valid() && fork.Valid() && head in fork.packs && IdAfter(id, head, summary) &&
               ArrivalOk(id, arrival)
      modifies this, fork, work, work.db, work.db.tables
      ensures work.db.Valid() && fork.Valid() && taken <= |due|
      ensures ExtendedBy(old(Now()), old(work.db.content).now, id, arrival, block,
                         fork.head, ok, due, taken, Now(), work.db.content, r)
      ensures r.Refused? || r.Duplicate? || r.Accepted? ==> work.Valid()
      ensures r.Torn? ==> work.building
    {
      due, taken, ok := [], 0, false;
      ghost var was, open := Now(), work.db.content.now;
      var applied := ApplyOpen(block);
      if !applied {
        return Refused, due, taken, ok;
      }
      ghost var after := BlockMeaning(block, open, was.copies.now).value;
      ghost var content, mid := work.db.content, was;
      r, due, taken, ok, mid := StoreOwn(id, summary, arrival, block);
      if !r.Duplicate? {
        CommittedIsExtended(
          was, content, id, arrival, block, after, fork.head, ok, due, taken, mid, work.db.content, Now());
      }
      OwnIsExtended(was, open, id, arrival, block, fork.head, ok, due, taken, Now(), work.db.content, r);
    }

    /** Stores a block whose session is open, commits what it makes final, and takes it as head if it is the best. */
    method StoreOwn(id: Id, ghost summary: BlockId.Bits, arrival: Arrival, block: Block<V>)
      returns (r: Extension, due: seq<Id>, taken: nat, ghost ok: bool, ghost mid: Stage<V>)
      requires work.Valid() && fork.Valid() && head in fork.packs && IdAfter(id, head, summary) &&
               ArrivalOk(id, arrival)
      requires work.building
      modifies this`blocks, this`links, this`head, fork, work, work.db, work.db.tables
      ensures work.db.Valid() && fork.Valid() && taken <= |due| && !r.Refused?
      ensures r.Duplicate? <==> id in old(fork.packs)
      ensures r.Duplicate? ==> work.Valid() && Now() == old(Now())
      ensures !r.Duplicate? ==>
                StoredAndCommitted(old(Now()), old(work.db.content), true, id, old(head), arrival, block,
                                   fork.head, ok, due, taken, mid, work.db.content)
      ensures !r.Duplicate? ==>
                Now() == mid.(head := if ok then fork.head else mid.head, copies := Now().copies)
      ensures r.Accepted? <==> !r.Duplicate? && ok && fork.head == id
      ensures r.Accepted? ==> work.Valid() && Now().copies == work.db.content
      ensures r.Torn? ==> work.building
    {
      var stored, added;
      stored, added, due, taken := StoreAndCommit(id, head, summary, arrival, block);
      ok, mid := added, Now();
      r := TakeOver(id, stored, added);
    }

    /**
     If a block was stored and its report taken, the best block of the fork database becomes the head; if
     that is the new block, its session is kept.
     */
    method TakeOver(id: Id, stored: bool, added: bool) returns (r: Extension)
      requires work.db.Valid() && fork.Valid() && (stored ==> work.building)
      modifies this`head, work
      ensures work.db.Valid() && fork.Valid() && work.db.content == old(work.db.content)
      ensures r == if !stored then Duplicate else if added && fork.head == id then Accepted else Torn
      ensures r.Duplicate? ==> Now() == old(Now()) && work.Valid() == old(work.Valid())
      ensures r.Accepted? ==> work.Valid() && Now().copies == work.db.content
      ensures r.Torn? ==> work.building
      ensures Now() == old(Now()).(head := if stored && added then fork.head else old(head), copies := Now().copies)
    {
      if !stored {
        return Duplicate;
      }
      if added {
        head := fork.head;
        if head == id {
          work.building := false;
          return Accepted;
        }
      }
      return Torn;
    }
  }

  /** A block of another branch that was not stored; one whose report the log refused; or the look that followed. */
  datatype ForkResult = NotStored | ReportRefused | Looked(result: SwitchResult)

  /** A block of another branch was stored, its effects committed, and a better branch looked for. */
  ghost predicate ForkPushed<V(!new)>(
    was: Stage<V>, open: Copies<Rows<V>>, building: bool, child: Id, prev: Id, arrival: Arrival, block: Block<V>,
    best: Id, r: ForkResult, due: seq<Id>, taken: nat, br: Branches,
    mid: Stage<V>, content: Copies<Rows<V>>, now: Stage<V>)
  {
    && (!r.NotStored? ==>
          StoredAndCommitted(
            was, open, building, child, prev, arrival, block, best, r.Looked?, due, taken, mid, content))
    && (r.ReportRefused? ==> now == mid)
    && (r.Looked? ==> Checked(mid, best, content, r.result, br, now))
  }

  lemma {:induction false} FoundMeansStored(packs: Packs, head: Id, newHead: Id)
    requires Tree(Links(packs))
    ensures HaveCommonAncestor(Links(packs), head, newHead) ==> head in packs && newHead in packs
  {
    if HaveCommonAncestor(Links(packs), head, newHead) {
      var c :| Ancestor(Links(packs), c, head) && Ancestor(Links(packs), c, newHead);
      AncestorNumber(Links(packs), c, head);
      AncestorNumber(Links(packs), c, newHead);
    }
  }
}
