/**
 Transactions and blocks applied to the database in sessions of their own.
 */
module BlockSession {
  import opened Optional
  import opened SnapshotStack
  import opened Database
  import opened Replay

  class Workspace<V(!new)> {
    const db: Db<V>
    /** A block session is open on the database. */
    var building: bool

    ghost predicate Valid()
      reads this, db, db.tables
    {
      db.Valid() && (building ==> db.content.saved != [])
    }

    /** The copies without the block under construction. */
    ghost function Idle(): Copies<Rows<V>>
      reads this, db
    {
      if building then Pop(db.content) else db.content
    }

    constructor (database: Db<V>)
      requires database.Valid()
      ensures Valid() && db == database && !building
    {
      db := database;
      building := false;
    }

    /** Makes the edits one by one until one does not apply. */
    method PlayEdits(edits: seq<Edit<V>>) returns (ok: bool)
      requires db.Valid()
      modifies db, db.tables
      ensures db.Valid() && ok == Play(edits, old(db.content).now).Some?
      ensures db.content == old(db.content).(now := db.content.now)
      ensures ok ==> db.content.now == Play(edits, old(db.content).now).value
    {
      ok := true;
      ghost var start := db.content;
      for i := 0 to |edits|
        invariant db.Valid() && ok
        invariant db.content == start.(now := db.content.now)
        invariant Play(edits, start.now) == Play(edits[i..], db.content.now)
      {
        ok := db.Exec(edits[i]);
        if !ok {
          return;
        }
        assert edits[i..][1..] == edits[i + 1..];
      }
    }

    /** Runs a transaction in its own session; a failed one leaves nothing behind. */
    method ApplyTransaction(tx: Tx<V>) returns (ok: bool)
      requires db.Valid() && db.content.saved != []
      modifies db, db.tables
      ensures db.Valid() && ok == Outcome(tx.script(old(db.content).now), old(db.content).now).Some?
      ensures db.content == old(db.content).(now := TxMeaning(tx, old(db.content).now))
      ensures tx.script(old(db.content).now).throws ==> !ok
      ensures !ok ==> db.content == old(db.content)
      ensures ok <==> var script := tx.script(old(db.content).now);
                      !script.throws && AllApply(script.edits, old(db.content).now)
      ensures ok ==> Reaches(tx.script(old(db.content).now).edits, old(db.content).now, db.content.now)
    {
      ghost var start := db.content;
      OutcomeExactly(tx.script(start.now), start.now);
      ok := PlayInSession(tx);
      InSession(start, db.content.now);
      CloseSession(ok);
    }

    /** Opens a session and runs a transaction in it. */
    method PlayInSession(tx: Tx<V>) returns (ok: bool)
      requires db.Valid()
      modifies db, db.tables
      ensures db.Valid() && ok == Outcome(tx.script(old(db.content).now), old(db.content).now).Some?
      ensures db.content == Push(old(db.content)).(now := db.content.now)
      ensures ok ==> Some(db.content.now) == Outcome(tx.script(old(db.content).now), old(db.content).now)
    {
      db.NowIsContent();
      var script := tx.script(db.Now());
      db.StartUndoSession();
      ok := PlayEdits(script.edits);
      ok := ok && !script.throws;
    }

    /** Keeps what a transaction did as part of the block, or takes it back. */
    method CloseSession(keep: bool)
      requires db.Valid()
      modifies db, db.tables
      ensures db.Valid() && db.content == if keep then Join(old(db.content)) else Pop(old(db.content))
    {
      if keep {
        db.Squash();
      } else {
        db.Undo();
      }
    }

    /** The transactions of a block, inside the open block session, and which of them succeeded. */
    method ApplyTransactions(txs: seq<Tx<V>>) returns (successes: seq<bool>)
      requires db.Valid() && db.content.saved != []
      modifies db, db.tables
      ensures db.Valid() && successes == Successes(txs, old(db.content).now)
      ensures db.content == old(db.content).(now := TxsMeaning(txs, old(db.content).now))
    {
      ghost var start := db.content;
      successes := [];
      assert txs[0..] == txs;
      for i := 0 to |txs|
        invariant db.Valid() && db.content == start.(now := db.content.now)
        invariant Ran(txs, start.now, i, db.content.now, successes)
      {
        RanNext(txs, start.now, i, db.content.now, successes);
        var ok := ApplyTransaction(txs[i]);
        successes := successes + [ok];
      }
      assert txs[|txs|..] == [];
    }

    /** The transactions, the comparison of the header and the closing update of a block. */
    method ApplyBody(block: Block<V>) returns (ok: bool)
      requires db.Valid() && db.content.saved != []
      modifies db, db.tables
      ensures db.Valid() && ok == BodyMeaning(block, old(db.content).now).Some?
      ensures db.content == old(db.content).(now := db.content.now)
      ensures ok ==> db.content.now == BodyMeaning(block, old(db.content).now).value
      ensures ok <==>
              var now := old(db.content).now;
              var after := TxsMeaning(block.txs, now);
              && block.matches(now, Successes(block.txs, now))
              && !block.final(after).throws && AllApply(block.final(after).edits, after)
      ensures ok ==>
                var after := TxsMeaning(block.txs, old(db.content).now);
                Reaches(block.final(after).edits, after, db.content.now)
    {
      BodyExactly(block, db.content.now);
      db.NowIsContent();
      var before := db.Now();
      var successes := ApplyTransactions(block.txs);
      ok := block.matches(before, successes);
      if ok {
        db.NowIsContent();
        var script := block.final(db.Now());
        ok := PlayEdits(script.edits);
        ok := ok && !script.throws;
      }
    }

    method SetBuilding(flag: bool)
      requires db.Valid()
      modifies this`building
      ensures building == flag && db.Valid()
    {
      building := flag;
    }

    /** Drops the block under construction: the content before it is back. */
    method AbortBuild()
      requires Valid()
      modifies this`building, db, db.tables
      ensures Valid() && !building && db.content == old(Idle())
    {
      if building {
        db.Undo();
        SetBuilding(false);
      }
    }

    /** Applies a block in a new session, which stays open, after dropping any session left open. */
    method ApplyInSession(block: Block<V>) returns (ok: bool)
      requires Valid()
      modifies this`building, db, db.tables
      ensures Valid() && building && Idle() == old(Idle())
      ensures ok == BodyMeaning(block, old(Idle()).now).Some?
      ensures ok ==> db.content == Applied(old(Idle()), BodyMeaning(block, old(Idle()).now).value)
    {
      ghost var start := Idle();
      OpenBlock();
      ok := ApplyBody(block);
      InSession(start, db.content.now);
    }

    method OpenBlock()
      requires Valid()
      modifies this`building, db, db.tables
      ensures Valid() && building && db.content == Push(old(Idle()))
    {
      AbortBuild();
      db.StartUndoSession();
      SetBuilding(true);
    }

    /** Looks up the signer in the present content and applies the block. */
    method ApplySigned(block: Block<V>) returns (ok: bool)
      requires Valid()
      modifies this`building, db, db.tables
      ensures Valid() && Idle() == old(Idle())
      ensures ok == BlockMeaning(block, old(db.content).now, old(Idle()).now).Some?
      ensures ok ==> building
      ensures ok ==>
                db.content == Applied(old(Idle()), BlockMeaning(block, old(db.content).now, old(Idle()).now).value)
      ensures !block.signed(old(db.content).now) ==> !ok && db.content == old(db.content)
      ensures ok <==>
              var now := old(Idle()).now;
              var after := TxsMeaning(block.txs, now);
              && block.signed(old(db.content).now) && block.matches(now, Successes(block.txs, now))
              && !block.final(after).throws && AllApply(block.final(after).edits, after)
    {
      BodyExactly(block, Idle().now);
      db.NowIsContent();
      ok := block.signed(db.Now());
      if ok {
        ok := ApplyInSession(block);
      }
    }

    /** Keeps the block: its session stays as the copy of the content before it. */
    method KeepBlock()
      requires Valid()
      modifies this`building
      ensures Valid() && !building
    {
      SetBuilding(false);
    }

    /** Undoes the newest session of the database. */
    method UndoOne()
      requires Valid()
      modifies db, db.tables
      ensures db.Valid() && db.content == Pop(old(db.content)) && Idle() == Pop(old(Idle()))
    {
      db.Undo();
    }

    /** Nothing at or below the number can be undone any more. */
    method Commit(num: nat)
      requires db.Valid()
      modifies db, db.tables
      ensures db.Valid() && db.content == Forget(old(db.content), num)
    {
      db.Commit(num);
    }
  }

  /** The first `i` transactions have been run from `start`, and led to `now`. */
  ghost predicate Ran<V>(txs: seq<Tx<V>>, start: Rows<V>, i: nat, now: Rows<V>, successes: seq<bool>) {
    && i <= |txs|
    && TxsMeaning(txs, start) == TxsMeaning(txs[i..], now)
    && Successes(txs, start) == successes + Successes(txs[i..], now)
  }

  lemma {:induction false} RanNext<V>(txs: seq<Tx<V>>, start: Rows<V>, i: nat, now: Rows<V>, successes: seq<bool>)
    requires i < |txs| && Ran(txs, start, i, now, successes)
    ensures var ok := Outcome(txs[i].script(now), now).Some?;
            Ran(txs, start, i + 1, TxMeaning(txs[i], now), successes + [ok])
  {
    assert txs[i..][0] == txs[i] && txs[i..][1..] == txs[i + 1..];
  }
}
