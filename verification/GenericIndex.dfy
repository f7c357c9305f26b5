/**
 One object table of the database with its undo log, updated in place.

 Every method is tied to the operation of UndoLog that it implements; what those
 operations mean for the sessions of a table is proved in SnapshotStack.
 */
module GenericIndex {
  import opened UndoLog
  import opened SnapshotStack

  class Index<V> {
    var rows: map<nat, V>
    var nextId: nat
    var stack: seq<UndoState<V>>
    var revision: int

    ghost function State(): IndexState<V>
      reads this
    {
      IndexState(Snapshot(rows, nextId), stack, revision)
    }

    /** What every reachable table satisfies. */
    ghost predicate Valid()
      reads this
    {
      Consistent(State())
    }

    constructor ()
      ensures Valid() && View(State()) == Copies(Snapshot(map[], 0), [], 0)
    {
      rows, nextId, stack, revision := map[], 0, [], 0;
    }

    method Emplace(value: V) returns (id: nat)
      requires Valid()
      modifies this
      ensures Valid() && State() == Create(old(State()), value)
      ensures View(State()) == CopyStep(old(View(State())), OpCreate(value))
      ensures id == old(nextId) && id !in old(rows)
      ensures rows == old(rows)[id := value] && nextId == old(nextId) + 1
    {
      RefinesObjectOp(State(), OpCreate(value));
      id := nextId;
      rows := rows[id := value];
      nextId := nextId + 1;
      if stack != [] {
        var head := stack[|stack| - 1];
        stack := stack[..|stack| - 1] + [head.(newIds := head.newIds + {id})];
      }
    }

    method Modify(id: nat, value: V)
      requires Valid() && id in rows
      modifies this
      ensures Valid() && State() == UndoLog.Modify(old(State()), id, value)
      ensures View(State()) == CopyStep(old(View(State())), OpModify(id, value))
      ensures rows == old(rows)[id := value] && nextId == old(nextId)
    {
      RefinesObjectOp(State(), OpModify(id, value));
      if stack != [] {
        var head := stack[|stack| - 1];
        if id in head.newIds {
        } else if id in head.oldValues {
        } else {
          head := head.(oldValues := head.oldValues[id := rows[id]]);
        }
        stack := stack[..|stack| - 1] + [head];
      }
      rows := rows[id := value];
    }

    method Remove(id: nat)
      requires Valid() && id in rows
      modifies this
      ensures Valid() && State() == UndoLog.Remove(old(State()), id)
      ensures View(State()) == CopyStep(old(View(State())), OpRemove(id))
      ensures rows == old(rows) - {id} && nextId == old(nextId)
    {
      RefinesObjectOp(State(), OpRemove(id));
      if stack != [] {
        var head := stack[|stack| - 1];
        if id in head.newIds {
          head := head.(newIds := head.newIds - {id});
        } else if id in head.oldValues {
          head := head.(removedValues := UndoLog.Emplace(head.removedValues, id, head.oldValues[id]),
          oldValues := head.oldValues - {id});
        } else if id in head.removedValues {
        } else {
          head := head.(removedValues := head.removedValues[id := rows[id]]);
        }
        stack := stack[..|stack| - 1] + [head];
      }
      rows := rows - {id};
    }

    /** Removal by number, which fails on an unknown object. */
    method RemoveObject(id: nat) returns (ok: bool)
      requires Valid()
      modifies this
      ensures Valid() && ok == (id in old(rows))
      ensures View(State()) == if ok then CopyStep(old(View(State())), OpRemove(id)) else old(View(State()))
    {
      ok := id in rows;
      if ok {
        Remove(id);
      }
    }

    method StartUndoSession(enabled: bool) returns (session: int)
      requires Valid()
      modifies this
      ensures Valid() && State() == if enabled then Start(old(State())) else old(State())
      ensures View(State()) == if enabled then Push(old(View(State()))) else old(View(State()))
      ensures session == if enabled then revision else -1
    {
      if enabled {
        RefinesStart(State());
        stack := stack + [UndoState(map[], map[], {}, nextId, revision + 1)];
        revision := revision + 1;
        session := revision;
      } else {
        session := -1;
      }
    }

    /**
     Puts back the old values, erases the new objects and re-inserts the removed ones.
     The objects looked up are found and the ids re-inserted are free.
     */
    method Undo()
      requires Valid()
      modifies this
      ensures Valid() && State() == UndoLog.Undo(old(State()))
      ensures View(State()) == Pop(old(View(State())))
    {
      RefinesUndo(State());
      if stack == [] {
        return;
      }
      var head := stack[|stack| - 1];
      rows := PutBack(rows, head.oldValues);
      rows := Erase(rows, head.newIds);
      nextId := head.oldNextId;
      rows := Reinsert(rows, head.removedValues);
      stack := stack[..|stack| - 1];
      revision := revision - 1;
    }

    /**
     Merges the two newest undo states. The table does not change, and the two
     combinations the merge declares impossible do not occur.
     */
    method Squash()
      requires Valid()
      modifies this
      ensures Valid() && State() == UndoLog.Squash(old(State()))
      ensures View(State()) == Join(old(View(State())))
      ensures rows == old(rows) && nextId == old(nextId)
      ensures |stack| == if old(stack) == [] then 0 else |old(stack)| - 1
      ensures revision == if |old(stack)| >= 2 then old(revision) - 1 else old(revision)
    {
      RefinesSquash(State());
      if stack == [] {
        return;
      }
      if |stack| == 1 {
        stack := [];
        return;
      }
      var n := |stack|;
      NewestFit(stack, State().now);
      var merged := MergeInto(stack[n - 2], stack[n - 1], State().now);
      stack := stack[..n - 2] + [merged];
      revision := revision - 1;
      assert State() == UndoLog.Squash(old(State()));
    }

    method Commit(upTo: int)
      requires Valid()
      modifies this
      ensures Valid() && State() == UndoLog.Commit(old(State()), upTo)
      ensures View(State()) == Forget(old(View(State())), upTo)
      ensures rows == old(rows) && nextId == old(nextId) && revision == old(revision)
      ensures |stack| <= |old(stack)| && stack == old(stack)[|old(stack)| - |stack|..]
      ensures forall i :: 0 <= i < |old(stack)| - |stack| ==> old(stack)[i].revision <= upTo
      ensures stack != [] ==> stack[0].revision > upTo
    {
      RefinesCommit(State(), upTo);
      CommitDrops(State(), upTo);
      while stack != [] && stack[0].revision <= upTo
        invariant rows == old(rows) && nextId == old(nextId) && revision == old(revision)
        invariant UndoLog.Commit(State(), upTo) == UndoLog.Commit(old(State()), upTo)
        decreases |stack|
      {
        stack := stack[1..];
      }
    }

    method UndoAll()
      requires Valid()
      modifies this
      ensures Valid() && State() == UndoLog.UndoAll(old(State()))
      ensures View(State()) == PopAll(old(View(State())))
    {
      RefinesUndoAll(State());
      while stack != []
        invariant Valid() && UndoLog.UndoAll(State()) == UndoLog.UndoAll(old(State()))
        decreases |stack|
      {
        Undo();
      }
    }

    method SetRevision(number: int) returns (ok: bool)
      requires Valid()
      modifies this
      ensures Valid() && ok == (old(stack) == [])
      ensures View(State()) == if ok then old(View(State())).(revision := number) else old(View(State()))
    {
      ok := stack == [];
      if ok {
        revision := number;
      }
    }
  }

  /** The first loop of an undo: every object it looks up is in the table. */
  method PutBack<V>(rows: map<nat, V>, values: map<nat, V>) returns (out: map<nat, V>)
    requires values.Keys <= rows.Keys
    ensures out == rows + values
  {
    out := rows;
    var todo := values.Keys;
    while todo != {}
      invariant todo <= values.Keys && out.Keys == rows.Keys
      invariant forall k :: k in rows ==> out[k] == if k in values && k !in todo then values[k] else rows[k]
      decreases |todo|
    {
      var id :| id in todo;
      assert id in out;
      out := out[id := values[id]];
      todo := todo - {id};
    }
  }

  /** The second loop of an undo: every object it erases is in the table. */
  method Erase<V>(rows: map<nat, V>, ids: set<nat>) returns (out: map<nat, V>)
    requires ids <= rows.Keys
    ensures out == rows - ids
  {
    out := rows;
    var todo := ids;
    while todo != {}
      invariant todo <= ids && out == rows - (ids - todo)
      decreases |todo|
    {
      var id :| id in todo;
      assert id in out;
      out := out - {id};
      todo := todo - {id};
    }
  }

  /** The third loop of an undo: every id it inserts is free. */
  method Reinsert<V>(rows: map<nat, V>, values: map<nat, V>) returns (out: map<nat, V>)
    requires values.Keys !! rows.Keys
    ensures out == rows + values
  {
    out := rows;
    var todo := values.Keys;
    while todo != {}
      invariant todo <= values.Keys && out.Keys == rows.Keys + (values.Keys - todo)
      invariant forall k :: k in out ==> out[k] == if k in rows then rows[k] else values[k]
      decreases |todo|
    {
      var id :| id in todo;
      assert id !in out;
      out := out[id := values[id]];
      todo := todo - {id};
    }
  }

  /** The merge of `state` into `prev`: over what the newer state updated, created and removed. */
  method MergeInto<V>(prev: UndoState<V>, state: UndoState<V>, ghost now: Snapshot<V>)
    returns (merged: UndoState<V>)
    requires Fits(state, now) && Fits(prev, Before(state, now))
    ensures merged == Merge(prev, state)
  {
    forall id ensures !NotApplicable(ChangeOf(prev, id), ChangeOf(state, id)) {
      MergeIsMatrix(prev, state, now, id);
    }
    merged := MergeUpdated(prev, state.oldValues);
    merged := merged.(newIds := merged.newIds + state.newIds);
    merged := MergeRemoved(merged, state.removedValues);
  }

  method MergeUpdated<V>(prev: UndoState<V>, updated: map<nat, V>) returns (merged: UndoState<V>)
    requires forall id :: id in updated && id !in prev.newIds && id !in prev.oldValues ==> id !in prev.removedValues
    ensures merged == FoldUpdated(prev, updated)
  {
    merged := prev;
    var todo := updated.Keys;
    ghost var part: map<nat, V> := map[];
    assert FoldUpdated(prev, part).oldValues == prev.oldValues;
    while todo != {}
      invariant todo <= updated.Keys && part.Keys == updated.Keys - todo
      invariant forall k :: k in part ==> part[k] == updated[k]
      invariant merged == FoldUpdated(prev, part)
      decreases |todo|
    {
      var id :| id in todo;
      UpdateStep(prev, part, id, updated[id]);
      if id in merged.newIds {
      } else if id in merged.oldValues {
      } else {
        assert id !in merged.removedValues;
        merged := merged.(oldValues := merged.oldValues[id := updated[id]]);
      }
      todo := todo - {id};
      part := part[id := updated[id]];
    }
    assert part == updated;
  }

  method MergeRemoved<V>(half: UndoState<V>, removed: map<nat, V>) returns (merged: UndoState<V>)
    requires forall id :: id in removed ==> id !in half.removedValues
    ensures merged == FoldRemoved(half, removed)
  {
    merged := half;
    var todo := removed.Keys;
    ghost var part: map<nat, V> := map[];
    FoldNothing(half);
    while todo != {}
      invariant todo <= removed.Keys && part.Keys == removed.Keys - todo
      invariant forall k :: k in part ==> part[k] == removed[k]
      invariant merged == FoldRemoved(half, part)
      decreases |todo|
    {
      var id :| id in todo;
      RemovalStep(half, part, id, removed[id]);
      if id in merged.newIds {
        merged := merged.(newIds := merged.newIds - {id});
      } else if id in merged.oldValues {
        merged := merged.(removedValues := Emplace(merged.removedValues, id, merged.oldValues[id]),
        oldValues := merged.oldValues - {id});
      } else {
        merged := merged.(removedValues := Emplace(merged.removedValues, id, removed[id]));
      }
      todo := todo - {id};
      part := part[id := removed[id]];
    }
    assert part == removed;
  }

  lemma {:induction false} UpdateStep<V>(u: UndoState<V>, done: map<nat, V>, id: nat, value: V)
    requires id !in done
    ensures FoldUpdated(u, done[id := value]) == OnModify(FoldUpdated(u, done), id, value)
  {
    var a, b := FoldUpdated(u, done[id := value]), OnModify(FoldUpdated(u, done), id, value);
    assert a.oldValues == b.oldValues;
  }

  lemma {:induction false} FoldNothing<V>(u: UndoState<V>)
    ensures FoldRemoved(u, map[]) == u
  {
    var a := FoldRemoved(u, map[]);
    assert a.oldValues == u.oldValues;
    assert a.removedValues == u.removedValues;
  }

  lemma {:induction false} RemovalStep<V>(u: UndoState<V>, done: map<nat, V>, id: nat, value: V)
    requires id !in done && id !in u.removedValues
    ensures FoldRemoved(u, done[id := value]) == OnRemove(FoldRemoved(u, done), id, value)
  {
    var more := done[id := value];
    var a, b := FoldRemoved(u, more), OnRemove(FoldRemoved(u, done), id, value);
    assert a.newIds == b.newIds;
    forall k ensures At(a.oldValues, k) == At(b.oldValues, k) && At(a.removedValues, k) == At(b.removedValues, k) {
      RemovalStepOld(u, done, id, value, k);
      RemovalStepGone(u, done, id, value, k);
    }
    SameRows(a.oldValues, b.oldValues);
    SameRows(a.removedValues, b.removedValues);
  }

  lemma {:induction false} RemovalStepOld<V>(u: UndoState<V>, done: map<nat, V>, id: nat, value: V, k: nat)
    requires id !in done && id !in u.removedValues
    ensures var a, b := FoldRemoved(u, done[id := value]), OnRemove(FoldRemoved(u, done), id, value);
            At(a.oldValues, k) == At(b.oldValues, k)
  {
  }

  lemma {:induction false} RemovalStepGone<V>(u: UndoState<V>, done: map<nat, V>, id: nat, value: V, k: nat)
    requires id !in done && id !in u.removedValues
    ensures var a, b := FoldRemoved(u, done[id := value]), OnRemove(FoldRemoved(u, done), id, value);
            At(a.removedValues, k) == At(b.removedValues, k)
  {
  }
}
