/**
 The undo log of one object table, as values.

 A table is a map from object id to object plus the next id to hand out. An undo
 state remembers, for one session, the old value of every object the session
 changed, the value of every object it removed, and the ids it created. The
 functions below say what each table operation does to the table and to its log;
 SnapshotStack says what the log means.
 */
module UndoLog {

  datatype Snapshot<V> = Snapshot(rows: map<nat, V>, nextId: nat)

  datatype UndoState<V> = UndoState(
    oldValues: map<nat, V>,
    removedValues: map<nat, V>,
    newIds: set<nat>,
    oldNextId: nat,
    revision: int)

  datatype IndexState<V> = IndexState(now: Snapshot<V>, stack: seq<UndoState<V>>, revision: int) {

    function Head(): UndoState<V>
      requires stack != []
    {
      stack[|stack| - 1]
    }

    function Below(): seq<UndoState<V>>
      requires stack != []
    {
      stack[..|stack| - 1]
    }

    /** Replaces the newest undo state. */
    function WithHead(head: UndoState<V>): IndexState<V>
      requires stack != []
    {
      this.(stack := Below() + [head])
    }
  }

  // ---------------------------------------------------------------------
  // Object operations
  // ---------------------------------------------------------------------

  function OnCreate<V>(u: UndoState<V>, id: nat): UndoState<V> {
    u.(newIds := u.newIds + {id})
  }

  function OnModify<V>(u: UndoState<V>, id: nat, value: V): UndoState<V> {
    if id in u.newIds || id in u.oldValues then u
    else u.(oldValues := u.oldValues[id := value])
  }

  function OnRemove<V>(u: UndoState<V>, id: nat, value: V): UndoState<V> {
    if id in u.newIds then u.(newIds := u.newIds - {id})
    else if id in u.oldValues then
      u.(removedValues := Emplace(u.removedValues, id, u.oldValues[id]), oldValues := u.oldValues - {id})
    else u.(removedValues := Emplace(u.removedValues, id, value))
  }

  /** Ordered-map insertion: an existing entry is kept. */
  function Emplace<V>(m: map<nat, V>, id: nat, value: V): map<nat, V> {
    if id in m then m else m[id := value]
  }

  function Create<V>(s: IndexState<V>, value: V): IndexState<V> {
    var now := Snapshot(s.now.rows[s.now.nextId := value], s.now.nextId + 1);
    if s.stack == [] then s.(now := now)
    else s.WithHead(OnCreate(s.Head(), s.now.nextId)).(now := now)
  }

  function Modify<V>(s: IndexState<V>, id: nat, value: V): IndexState<V>
    requires id in s.now.rows
  {
    var now := s.now.(rows := s.now.rows[id := value]);
    if s.stack == [] then s.(now := now)
    else s.WithHead(OnModify(s.Head(), id, s.now.rows[id])).(now := now)
  }

  function Remove<V>(s: IndexState<V>, id: nat): IndexState<V>
    requires id in s.now.rows
  {
    var now := s.now.(rows := s.now.rows - {id});
    if s.stack == [] then s.(now := now)
    else s.WithHead(OnRemove(s.Head(), id, s.now.rows[id])).(now := now)
  }

  // ---------------------------------------------------------------------
  // Session operations
  // ---------------------------------------------------------------------

  function Start<V>(s: IndexState<V>): IndexState<V> {
    s.(stack := s.stack + [UndoState(map[], map[], {}, s.now.nextId, s.revision + 1)], revision := s.revision + 1)
  }

  /** The table that an undo state leads back to. */
  function Before<V>(u: UndoState<V>, now: Snapshot<V>): Snapshot<V> {
    Snapshot((now.rows + u.oldValues - u.newIds) + u.removedValues, u.oldNextId)
  }

  function Undo<V>(s: IndexState<V>): IndexState<V> {
    if s.stack == [] then s
    else IndexState(Before(s.Head(), s.now), s.Below(), s.revision - 1)
  }

  function UndoAll<V>(s: IndexState<V>): IndexState<V>
    decreases |s.stack|
  {
    if s.stack == [] then s else UndoAll(Undo(s))
  }

  /** Drops the states whose revision is at most `revision`, oldest first. */
  function Commit<V>(s: IndexState<V>, revision: int): IndexState<V>
    decreases |s.stack|
  {
    if s.stack == [] || revision < s.stack[0].revision then s
    else Commit(s.(stack := s.stack[1..]), revision)
  }

  /** A commit drops states at the front while their revision is not above the given one. */
  lemma {:induction false} CommitDrops<V>(s: IndexState<V>, revision: int)
    ensures var t := Commit(s, revision);
            && t.now == s.now && t.revision == s.revision
            && |t.stack| <= |s.stack| && t.stack == s.stack[|s.stack| - |t.stack|..]
            && (forall i :: 0 <= i < |s.stack| - |t.stack| ==> s.stack[i].revision <= revision)
            && (t.stack != [] ==> t.stack[0].revision > revision)
    decreases |s.stack|
  {
    if s.stack != [] && s.stack[0].revision <= revision {
      var rest := s.(stack := s.stack[1..]);
      CommitDrops(rest, revision);
      forall i | 0 <= i < |s.stack| - |Commit(s, revision).stack| ensures s.stack[i].revision <= revision {
        assert i > 0 ==> s.stack[i] == rest.stack[i - 1];
      }
    }
  }

  /** `u` after the updates of a newer session have been folded in. */
  function FoldUpdated<V>(u: UndoState<V>, updated: map<nat, V>): UndoState<V> {
    var ids := set id | id in u.oldValues.Keys + updated.Keys && (id in u.oldValues || id !in u.newIds);
    var olds := map id | id in ids :: if id in u.oldValues then u.oldValues[id] else updated[id];
    u.(oldValues := olds)
  }

  /** `u` after the removals of a newer session have been folded in. */
  function FoldRemoved<V>(u: UndoState<V>, removed: map<nat, V>): UndoState<V> {
    var olds := map id | id in u.oldValues && (id in u.newIds || id !in removed) :: u.oldValues[id];
    var gone := set id | id in u.removedValues.Keys + removed.Keys && (id in u.removedValues || id !in u.newIds);
    var values :=
      map id | id in gone ::
        if id in u.removedValues then u.removedValues[id]
        else if id in u.oldValues then u.oldValues[id]
        else removed[id];
    u.(oldValues := olds, newIds := u.newIds - removed.Keys, removedValues := values)
  }

  /** The effect of folding state `b` (the newer) into state `a`. */
  function Merge<V>(a: UndoState<V>, b: UndoState<V>): UndoState<V> {
    FoldRemoved(FoldUpdated(a, b.oldValues).(newIds := a.newIds + b.newIds), b.removedValues)
  }

  function Squash<V>(s: IndexState<V>): IndexState<V> {
    if s.stack == [] then s
    else if |s.stack| == 1 then s.(stack := [])
    else
      var n := |s.stack|;
      s.(stack := s.stack[..n - 2] + [Merge(s.stack[n - 2], s.stack[n - 1])], revision := s.revision - 1)
  }

  // ---------------------------------------------------------------------
  // What every reachable log satisfies
  // ---------------------------------------------------------------------

  /** The undo state `u` is a legal record of how `now` came about. */
  ghost predicate Fits<V>(u: UndoState<V>, now: Snapshot<V>) {
    && u.oldNextId <= now.nextId
    && (forall id :: id in now.rows && u.oldNextId <= id <==> id in u.newIds)
    && (forall id :: id in u.oldValues ==> id in now.rows && id < u.oldNextId)
    && (forall id :: id in u.removedValues ==> id !in now.rows && id < u.oldNextId)
  }

  ghost predicate IdsBelowNext<V>(now: Snapshot<V>) {
    forall id :: id in now.rows ==> id < now.nextId
  }

  ghost predicate Linked<V>(stack: seq<UndoState<V>>, now: Snapshot<V>) {
    && IdsBelowNext(now)
    && (stack == [] ||
        var u := stack[|stack| - 1];
        Fits(u, now) && Linked(stack[..|stack| - 1], Before(u, now)))
  }

  /** Revisions are consecutive and the newest one is the table's own. */
  ghost predicate Numbered<V>(stack: seq<UndoState<V>>, revision: int) {
    forall i :: 0 <= i < |stack| ==> stack[i].revision == revision - |stack| + 1 + i
  }

  ghost predicate Consistent<V>(s: IndexState<V>) {
    Linked(s.stack, s.now) && Numbered(s.stack, s.revision)
  }
}
