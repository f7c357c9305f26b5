/**
 The database: a list of tables whose sessions are opened, joined, undone and
 committed together.

 All tables keep the same number of open sessions and the same revision, so the whole
 database is again a content with a stack of copies, and the session operations of the
 database are the session operations on those copies.
 */
module Database {
  import opened UndoLog
  import opened SnapshotStack
  import opened GenericIndex

  /** The content of all tables. */
  type Rows<V> = seq<Snapshot<V>>

  ghost predicate Lockstep<V>(views: seq<Copies<Snapshot<V>>>) {
    && views != []
    && forall t :: 0 <= t < |views| ==> SameShape(views[t], views[0])
  }

  ghost predicate SameShape<S>(a: Copies<S>, b: Copies<S>) {
    |a.saved| == |b.saved| && a.revision == b.revision
  }

  /** The copies of the whole database: the k-th copy holds the k-th copy of every table. */
  ghost function Together<V>(views: seq<Copies<Snapshot<V>>>): Copies<Rows<V>>
    requires Lockstep(views)
  {
    Copies(
      seq(|views|, t requires 0 <= t < |views| => views[t].now),
      seq(|views[0].saved|, k requires 0 <= k < |views[0].saved| => Layer(views, k)),
      views[0].revision)
  }

  ghost function Layer<V>(views: seq<Copies<Snapshot<V>>>, k: nat): Rows<V>
    requires Lockstep(views) && k < |views[0].saved|
  {
    seq(|views|, t requires 0 <= t < |views| => assert SameShape(views[t], views[0]); views[t].saved[k])
  }

  predicate SessionOp<V>(op: Op<V>) {
    op.OpStart? || op.OpUndo? || op.OpUndoAll? || op.OpSquash? || op.OpCommit?
  }

  /** Every table of `after` is the table of `before` with the operation applied. */
  ghost predicate Stepped<V>(before: seq<Copies<Snapshot<V>>>, after: seq<Copies<Snapshot<V>>>, op: Op<V>)
    requires SessionOp(op)
  {
    |after| == |before| && forall t :: 0 <= t < |before| ==> after[t] == CopyStep(before[t], op)
  }

  lemma {:induction false} TogetherPush<V>(before: seq<Copies<Snapshot<V>>>, after: seq<Copies<Snapshot<V>>>)
    requires Lockstep(before) && Stepped(before, after, OpStart)
    ensures Lockstep(after) && Together(after) == Push(Together(before))
  {
    forall t | 0 <= t < |after| ensures SameShape(after[t], after[0]) {
      assert SameShape(before[t], before[0]);
    }
    var a, b := Together(after), Push(Together(before));
    assert a.now == b.now;
    forall k | 0 <= k < |a.saved| ensures a.saved[k] == b.saved[k] {
    }
  }

  lemma {:induction false} TogetherPop<V>(before: seq<Copies<Snapshot<V>>>, after: seq<Copies<Snapshot<V>>>)
    requires Lockstep(before) && Stepped(before, after, OpUndo)
    ensures Lockstep(after) && Together(after) == Pop(Together(before))
  {
    forall t | 0 <= t < |after| ensures SameShape(after[t], after[0]) {
      assert SameShape(before[t], before[0]);
    }
    var a, b := Together(after), Pop(Together(before));
    assert a.now == b.now;
    forall k | 0 <= k < |a.saved| ensures a.saved[k] == b.saved[k] {
    }
  }

  lemma {:induction false} TogetherPopAll<V>(before: seq<Copies<Snapshot<V>>>, after: seq<Copies<Snapshot<V>>>)
    requires Lockstep(before) && Stepped(before, after, OpUndoAll)
    ensures Lockstep(after) && Together(after) == PopAll(Together(before))
  {
    forall t | 0 <= t < |after| ensures SameShape(after[t], after[0]) {
      assert SameShape(before[t], before[0]);
    }
    assert Together(after).now == PopAll(Together(before)).now;
  }

  lemma {:induction false} TogetherJoin<V>(before: seq<Copies<Snapshot<V>>>, after: seq<Copies<Snapshot<V>>>)
    requires Lockstep(before) && Stepped(before, after, OpSquash)
    ensures Lockstep(after) && Together(after) == Join(Together(before))
  {
    forall t | 0 <= t < |after| ensures SameShape(after[t], after[0]) {
      assert SameShape(before[t], before[0]);
    }
    var a, b := Together(after), Join(Together(before));
    assert a.now == b.now;
    forall k | 0 <= k < |a.saved| ensures a.saved[k] == b.saved[k] {
    }
  }

  lemma {:induction false} TogetherForget<V>(
    before: seq<Copies<Snapshot<V>>>, after: seq<Copies<Snapshot<V>>>, revision: int)
    requires Lockstep(before) && Stepped(before, after, OpCommit(revision))
    ensures Lockstep(after) && Together(after) == Forget(Together(before), revision)
  {
    forall t | 0 <= t < |after| ensures SameShape(after[t], after[0]) {
      assert SameShape(before[t], before[0]);
    }
    var a, b := Together(after), Forget(Together(before), revision);
    assert a.now == b.now;
    forall k | 0 <= k < |a.saved| ensures a.saved[k] == b.saved[k] {
    }
  }

  // ---------------------------------------------------------------------
  // Edits of the content
  // ---------------------------------------------------------------------

  datatype Edit<V> = Insert(table: nat, value: V) | Update(table: nat, id: nat, value: V) | Delete(table: nat, id: nat)

  /** An edit refers to a table of the database and, unless it inserts, to an object of that table. */
  predicate Applies<V>(edit: Edit<V>, now: Rows<V>) {
    && edit.table < |now|
    && (edit.Insert? || edit.id in now[edit.table].rows)
  }

  function OpOf<V>(edit: Edit<V>): Op<V> {
    match edit
    case Insert(_, value) => OpCreate(value)
    case Update(_, id, value) => OpModify(id, value)
    case Delete(_, id) => OpRemove(id)
  }

  function Apply<V>(edit: Edit<V>, now: Rows<V>): Rows<V>
    requires Applies(edit, now)
  {
    var t := edit.table;
    now[t := CopyStep(Copies(now[t], [], 0), OpOf(edit)).now]
  }

  /** What an edit does: one object of one table appears, changes or goes. */
  lemma {:induction false} ApplySays<V>(edit: Edit<V>, now: Rows<V>)
    requires Applies(edit, now)
    ensures var t := edit.table;
            && |Apply(edit, now)| == |now| && (forall u :: 0 <= u < |now| && u != t ==> Apply(edit, now)[u] == now[u])
            && match edit
               case Insert(_, value) =>
                 && Apply(edit, now)[t].rows == now[t].rows[now[t].nextId := value]
                 && Apply(edit, now)[t].nextId == now[t].nextId + 1
               case Update(_, id, value) =>
                 id in now[t].rows && Apply(edit, now)[t] == Snapshot(now[t].rows[id := value], now[t].nextId)
               case Delete(_, id) =>
                 id in now[t].rows && Apply(edit, now)[t] == Snapshot(now[t].rows - {id}, now[t].nextId)
  {
  }

  lemma {:induction false} TogetherApply<V>(
    before: seq<Copies<Snapshot<V>>>, after: seq<Copies<Snapshot<V>>>, edit: Edit<V>)
    requires Lockstep(before) && Applies(edit, Together(before).now)
    requires after == before[edit.table := CopyStep(before[edit.table], OpOf(edit))]
    ensures Lockstep(after)
    ensures Together(after) == Together(before).(now := Apply(edit, Together(before).now))
  {
    forall t | 0 <= t < |after| ensures SameShape(after[t], after[0]) {
      assert SameShape(before[t], before[0]);
    }
    var a, b := Together(after), Together(before).(now := Apply(edit, Together(before).now));
    assert a.now == b.now;
    forall k | 0 <= k < |a.saved| ensures a.saved[k] == b.saved[k] {
    }
  }

  // ---------------------------------------------------------------------
  // The object
  // ---------------------------------------------------------------------

  class Db<V> {
    const tables: seq<Index<V>>
    /** The content with one copy per open session, all tables together. */
    ghost var content: Copies<Rows<V>>

    ghost function Views(): (views: seq<Copies<Snapshot<V>>>)
      reads tables
      ensures |views| == |tables|
    {
      seq(|tables|, t requires 0 <= t < |tables| reads tables => View(tables[t].State()))
    }

    ghost predicate TablesValid()
      reads tables
    {
      && (forall i, j :: 0 <= i < j < |tables| ==> tables[i] != tables[j])
      && (forall t :: 0 <= t < |tables| ==> tables[t].Valid())
    }

    ghost predicate Valid()
      reads this, tables
    {
      && TablesValid()
      && Lockstep(Views())
      && content == Together(Views())
    }

    /** The present content of all tables. */
    function Now(): Rows<V>
      reads tables
    {
      seq(|tables|, t requires 0 <= t < |tables| reads tables => Snapshot(tables[t].rows, tables[t].nextId))
    }

    lemma {:induction false} NowIsContent()
      requires Valid()
      ensures Now() == content.now
    {
    }

    constructor (indexes: seq<Index<V>>)
      requires indexes != []
      requires forall i, j :: 0 <= i < j < |indexes| ==> indexes[i] != indexes[j]
      requires forall t :: 0 <= t < |indexes| ==>
                             indexes[t].Valid() && View(indexes[t].State()) == Copies(Snapshot(map[], 0), [], 0)
      ensures tables == indexes && Valid()
      ensures content.saved == [] && content.revision == 0
    {
      tables := indexes;
      new;
      content := Together(Views());
    }

    method Exec(edit: Edit<V>) returns (ok: bool)
      requires Valid()
      modifies this, tables
      ensures Valid() && ok == Applies(edit, old(content).now)
      ensures ok <==> edit.table < |old(content).now| && (edit.Insert? || edit.id in old(content).now[edit.table].rows)
      ensures content == if ok then old(content).(now := Apply(edit, old(content).now)) else old(content)
    {
      var t := edit.table;
      ok := t < |tables| && (edit.Insert? || edit.id in tables[t].rows);
      if !ok {
        return;
      }
      ExecOn(edit);
      TogetherApply(old(Views()), Views(), edit);
      content := content.(now := Apply(edit, content.now));
    }

    method ExecOn(edit: Edit<V>)
      requires TablesValid() && edit.table < |tables| && (edit.Insert? || edit.id in tables[edit.table].rows)
      modifies tables
      ensures TablesValid()
      ensures Views() == old(Views())[edit.table := CopyStep(old(Views())[edit.table], OpOf(edit))]
    {
      var t := edit.table;
      match edit {
        case Insert(_, value) => var _ := tables[t].Emplace(value);
        case Update(_, id, value) => tables[t].Modify(id, value);
        case Delete(_, id) => tables[t].Remove(id);
      }
      assert forall u :: 0 <= u < |tables| && u != t ==> unchanged(tables[u]);
    }

    /** Applies one session operation to every table. */
    method ForEachTable(op: Op<V>)
      requires TablesValid() && SessionOp(op)
      modifies tables
      ensures TablesValid() && Stepped(old(Views()), Views(), op)
    {
      for i := 0 to |tables|
        invariant forall t :: 0 <= t < |tables| ==> tables[t].Valid()
        invariant forall t :: 0 <= t < i ==> View(tables[t].State()) == CopyStep(old(Views())[t], op)
        invariant forall t :: i <= t < |tables| ==> unchanged(tables[t])
      {
        OneTable(tables[i], op);
      }
    }

    method StartUndoSession()
      requires Valid()
      modifies this, tables
      ensures Valid() && content == Push(old(content))
    {
      ForEachTable(OpStart);
      TogetherPush(old(Views()), Views());
      content := Push(content);
    }

    method Undo()
      requires Valid()
      modifies this, tables
      ensures Valid() && content == Pop(old(content))
    {
      ForEachTable(OpUndo);
      TogetherPop(old(Views()), Views());
      content := Pop(content);
    }

    method Squash()
      requires Valid()
      modifies this, tables
      ensures Valid() && content == Join(old(content))
    {
      ForEachTable(OpSquash);
      TogetherJoin(old(Views()), Views());
      content := Join(content);
    }

    method Commit(revision: int)
      requires Valid()
      modifies this, tables
      ensures Valid() && content == Forget(old(content), revision)
    {
      ForEachTable(OpCommit(revision));
      TogetherForget(old(Views()), Views(), revision);
      content := Forget(content, revision);
    }

    method UndoAll()
      requires Valid()
      modifies this, tables
      ensures Valid() && content == PopAll(old(content))
    {
      ForEachTable(OpUndoAll);
      TogetherPopAll(old(Views()), Views());
      content := PopAll(content);
    }
  }

  method OneTable<V>(table: Index<V>, op: Op<V>)
    requires table.Valid() && SessionOp(op)
    modifies table
    ensures table.Valid() && View(table.State()) == CopyStep(old(View(table.State())), op)
  {
    match op
    case OpStart => var _ := table.StartUndoSession(true);
    case OpUndo => table.Undo();
    case OpUndoAll => table.UndoAll();
    case OpSquash => table.Squash();
    case OpCommit(revision) => table.Commit(revision);
  }
}
