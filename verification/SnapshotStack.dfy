/**
 The meaning of the undo log: a stack of complete copies of the table.

 Saved(s) rebuilds, from the log alone, the table as it was when each open session
 started. Every table operation is shown to do to those copies exactly what the
 corresponding operation does on a plain stack of copies, so the log may be thought
 of as that stack in every reachable state.
 */
module SnapshotStack {
  import opened Optional
  import opened UndoLog

  /** A content with one full copy of it per open session, oldest first. */
  datatype Copies<S> = Copies(now: S, saved: seq<S>, revision: int)

  datatype Op<V> =
    | OpCreate(value: V)
    | OpModify(id: nat, value: V)
    | OpRemove(id: nat)
    | OpStart
    | OpUndo
    | OpUndoAll
    | OpSquash
    | OpCommit(revision: int)

  /** An operation on an object needs a reference to an object of the table. */
  ghost predicate Enabled<V>(op: Op<V>, now: Snapshot<V>) {
    match op
    case OpModify(id, _) => id in now.rows
    case OpRemove(id) => id in now.rows
    case _ => true
  }

  function Step<V>(s: IndexState<V>, op: Op<V>): IndexState<V>
    requires Enabled(op, s.now)
  {
    match op
    case OpCreate(value) => Create(s, value)
    case OpModify(id, value) => Modify(s, id, value)
    case OpRemove(id) => Remove(s, id)
    case OpStart => Start(s)
    case OpUndo => Undo(s)
    case OpUndoAll => UndoAll(s)
    case OpSquash => Squash(s)
    case OpCommit(revision) => Commit(s, revision)
  }

  /** How many of `depth` copies, numbered up to `newest`, have a number of at most `revision`. */
  function Forgotten(depth: nat, newest: int, revision: int): nat {
    if revision <= newest - depth then 0
    else if newest <= revision then depth
    else revision - (newest - depth)
  }

  // The session operations on full copies.

  function Push<S>(c: Copies<S>): Copies<S> {
    Copies(c.now, c.saved + [c.now], c.revision + 1)
  }

  function Pop<S>(c: Copies<S>): Copies<S> {
    var n := |c.saved|;
    if n == 0 then c else Copies(c.saved[n - 1], c.saved[..n - 1], c.revision - 1)
  }

  function PopAll<S>(c: Copies<S>): Copies<S> {
    if c.saved == [] then c else Copies(c.saved[0], [], c.revision - |c.saved|)
  }

  /** Joins the newest session to the one below it. With one session only, the number stays. */
  function Join<S>(c: Copies<S>): Copies<S> {
    var n := |c.saved|;
    if n == 0 then c
    else Copies(c.now, c.saved[..n - 1], if n == 1 then c.revision else c.revision - 1)
  }

  function Forget<S>(c: Copies<S>, revision: int): Copies<S> {
    c.(saved := c.saved[Forgotten(|c.saved|, c.revision, revision)..])
  }

  /** The operations of a table on full copies. */
  function CopyStep<V>(c: Copies<Snapshot<V>>, op: Op<V>): Copies<Snapshot<V>>
    requires Enabled(op, c.now)
  {
    match op
    case OpCreate(value) => c.(now := Snapshot(c.now.rows[c.now.nextId := value], c.now.nextId + 1))
    case OpModify(id, value) => c.(now := c.now.(rows := c.now.rows[id := value]))
    case OpRemove(id) => c.(now := c.now.(rows := c.now.rows - {id}))
    case OpStart => Push(c)
    case OpUndo => Pop(c)
    case OpUndoAll => PopAll(c)
    case OpSquash => Join(c)
    case OpCommit(revision) => Forget(c, revision)
  }

  /** The tables the log leads back to, oldest session first. */
  ghost function Saved<V>(stack: seq<UndoState<V>>, now: Snapshot<V>): (saved: seq<Snapshot<V>>)
    ensures |saved| == |stack|
  {
    if stack == [] then []
    else
      var before := Before(stack[|stack| - 1], now);
      Saved(stack[..|stack| - 1], before) + [before]
  }

  ghost function View<V>(s: IndexState<V>): (c: Copies<Snapshot<V>>)
    ensures |c.saved| == |s.stack|
  {
    Copies(s.now, Saved(s.stack, s.now), s.revision)
  }

  // ---------------------------------------------------------------------
  // One object at a time
  // ---------------------------------------------------------------------

  /** What one state records about one object. */
  datatype Change<V> = New | Upd(was: V) | Del(was: V) | Nop

  function ChangeOf<V>(u: UndoState<V>, id: nat): Change<V> {
    if id in u.newIds then New
    else if id in u.oldValues then Upd(u.oldValues[id])
    else if id in u.removedValues then Del(u.removedValues[id])
    else Nop
  }

  function At<V>(rows: map<nat, V>, id: nat): Option<V> {
    if id in rows then Some(rows[id]) else None
  }

  /** The object before a change, given the object after it. */
  function Was<V>(change: Change<V>, after: Option<V>): Option<V> {
    match change
    case New => None
    case Nop => after
    case Upd(was) => Some(was)
    case Del(was) => Some(was)
  }

  lemma {:induction false} BeforeAt<V>(u: UndoState<V>, now: Snapshot<V>, id: nat)
    requires Fits(u, now)
    ensures At(Before(u, now).rows, id) == Was(ChangeOf(u, id), At(now.rows, id))
  {
  }

  lemma {:induction false} SameRows<V>(a: map<nat, V>, b: map<nat, V>)
    requires forall id :: At(a, id) == At(b, id)
    ensures a == b
  {
    forall id ensures id in a <==> id in b {
      assert At(a, id) == At(b, id);
    }
    forall id | id in a ensures a[id] == b[id] {
      assert At(a, id) == At(b, id);
    }
  }

  // ---------------------------------------------------------------------
  // Object operations leave every copy alone
  // ---------------------------------------------------------------------

  lemma {:induction false} CreateKeepsBefore<V>(u: UndoState<V>, now: Snapshot<V>, value: V)
    requires Fits(u, now) && IdsBelowNext(now)
    ensures var after := Snapshot(now.rows[now.nextId := value], now.nextId + 1);
            Fits(OnCreate(u, now.nextId), after) && Before(OnCreate(u, now.nextId), after) == Before(u, now)
  {
    var after := Snapshot(now.rows[now.nextId := value], now.nextId + 1);
    assert Before(OnCreate(u, now.nextId), after).rows == Before(u, now).rows;
  }

  lemma {:induction false} ModifyKeepsBefore<V>(u: UndoState<V>, now: Snapshot<V>, id: nat, value: V)
    requires Fits(u, now) && id in now.rows
    ensures var after := now.(rows := now.rows[id := value]);
            var v := OnModify(u, id, now.rows[id]);
            Fits(v, after) && Before(v, after) == Before(u, now)
  {
    var after := now.(rows := now.rows[id := value]);
    var v := OnModify(u, id, now.rows[id]);
    assert Fits(v, after);
    forall k ensures At(Before(v, after).rows, k) == At(Before(u, now).rows, k) {
      BeforeAt(u, now, k);
      BeforeAt(v, after, k);
    }
    SameRows(Before(v, after).rows, Before(u, now).rows);
  }

  lemma {:induction false} RemoveKeepsBefore<V>(u: UndoState<V>, now: Snapshot<V>, id: nat)
    requires Fits(u, now) && id in now.rows
    ensures var after := now.(rows := now.rows - {id});
            var v := OnRemove(u, id, now.rows[id]);
            Fits(v, after) && Before(v, after) == Before(u, now)
  {
    var after := now.(rows := now.rows - {id});
    var v := OnRemove(u, id, now.rows[id]);
    assert Fits(v, after);
    forall k ensures At(Before(v, after).rows, k) == At(Before(u, now).rows, k) {
      BeforeAt(u, now, k);
      BeforeAt(v, after, k);
    }
    SameRows(Before(v, after).rows, Before(u, now).rows);
  }

  /** Replacing the newest state by one that leads back to the same table changes no copy. */
  lemma {:induction false} SameBefore<V>(s: IndexState<V>, head: UndoState<V>, now: Snapshot<V>)
    requires Consistent(s) && s.stack != [] && head.revision == s.Head().revision
    requires IdsBelowNext(now) && Fits(head, now) && Before(head, now) == Before(s.Head(), s.now)
    ensures Consistent(s.WithHead(head).(now := now))
    ensures View(s.WithHead(head).(now := now)) == View(s).(now := now)
  {
    var t := s.WithHead(head).(now := now);
    assert t.stack[..|t.stack| - 1] == s.Below();
  }

  lemma {:induction false} RefinesObjectOp<V>(s: IndexState<V>, op: Op<V>)
    requires Consistent(s) && Enabled(op, s.now)
    requires op.OpCreate? || op.OpModify? || op.OpRemove?
    ensures Consistent(Step(s, op)) && View(Step(s, op)) == CopyStep(View(s), op)
  {
    var now := Step(s, op).now;
    if s.stack != [] {
      var u := s.Head();
      match op {
        case OpCreate(value) =>
          CreateKeepsBefore(u, s.now, value);
          SameBefore(s, OnCreate(u, s.now.nextId), now);
        case OpModify(id, value) =>
          ModifyKeepsBefore(u, s.now, id, value);
          SameBefore(s, OnModify(u, id, s.now.rows[id]), now);
        case OpRemove(id) =>
          RemoveKeepsBefore(u, s.now, id);
          SameBefore(s, OnRemove(u, id, s.now.rows[id]), now);
      }
    }
  }

  // ---------------------------------------------------------------------
  // Session operations
  // ---------------------------------------------------------------------

  lemma {:induction false} RefinesStart<V>(s: IndexState<V>)
    requires Consistent(s)
    ensures Consistent(Start(s)) && View(Start(s)) == Push(View(s))
  {
    var t := Start(s);
    assert t.stack[..|t.stack| - 1] == s.stack;
    assert Before(t.Head(), s.now).rows == s.now.rows;
  }

  lemma {:induction false} RefinesUndo<V>(s: IndexState<V>)
    requires Consistent(s)
    ensures Consistent(Undo(s)) && View(Undo(s)) == Pop(View(s))
  {
    if s.stack != [] {
      var before := Before(s.Head(), s.now);
      assert Saved(s.stack, s.now)[..|s.stack| - 1] == Saved(s.Below(), before);
    }
  }

  lemma {:induction false} RefinesUndoAll<V>(s: IndexState<V>)
    requires Consistent(s)
    ensures Consistent(UndoAll(s)) && View(UndoAll(s)) == PopAll(View(s))
    decreases |s.stack|
  {
    if s.stack != [] {
      RefinesUndo(s);
      RefinesUndoAll(Undo(s));
    }
  }

  /** Forgetting the oldest state forgets the oldest copy and touches no other. */
  lemma {:induction false} DropOldest<V>(stack: seq<UndoState<V>>, now: Snapshot<V>)
    requires stack != [] && Linked(stack, now)
    ensures Linked(stack[1..], now) && Saved(stack[1..], now) == Saved(stack, now)[1..]
    decreases |stack|
  {
    if |stack| > 1 {
      var n := |stack|;
      var before := Before(stack[n - 1], now);
      DropOldest(stack[..n - 1], before);
      assert stack[1..][..n - 2] == stack[..n - 1][1..];
      assert Saved(stack, now)[1..] == Saved(stack[..n - 1], before)[1..] + [before];
    }
  }

  lemma {:induction false} ForgetOneMore<S>(c: Copies<S>, revision: int)
    requires c.saved != [] && c.revision - |c.saved| < revision
    ensures Forget(c.(saved := c.saved[1..]), revision) == Forget(c, revision)
  {
    var k := Forgotten(|c.saved| - 1, c.revision, revision);
    assert c.saved[1..][k..] == c.saved[k + 1..];
  }

  lemma {:induction false} RefinesCommit<V>(s: IndexState<V>, revision: int)
    requires Consistent(s)
    ensures Consistent(Commit(s, revision)) && View(Commit(s, revision)) == Forget(View(s), revision)
    decreases |s.stack|
  {
    if s.stack == [] || revision < s.stack[0].revision {
    } else {
      var t := s.(stack := s.stack[1..]);
      DropOldest(s.stack, s.now);
      assert View(t) == View(s).(saved := View(s).saved[1..]);
      ForgetOneMore(View(s), revision);
      assert Numbered(t.stack, t.revision);
      RefinesCommit(t, revision);
    }
  }

  // ---------------------------------------------------------------------
  // Squash is composition
  // ---------------------------------------------------------------------

  /** The cells of the merge matrix that cannot occur. */
  predicate NotApplicable<V>(a: Change<V>, b: Change<V>) {
    (b.New? && !a.Nop?) || (a.Del? && !b.Nop?)
  }

  /** The merge matrix: row `a` is the older state, column `b` the newer one. */
  function Matrix<V>(a: Change<V>, b: Change<V>): Change<V>
    requires !NotApplicable(a, b)
  {
    match (a, b)
    case (New, Del(_)) => Nop
    case (Upd(x), Del(_)) => Del(x)
    case (Nop, _) => b
    case _ => a
  }

  /** Two successive records never meet in a forbidden cell, and Merge computes the matrix. */
  lemma {:induction false} MergeIsMatrix<V>(a: UndoState<V>, b: UndoState<V>, now: Snapshot<V>, id: nat)
    requires Fits(b, now) && Fits(a, Before(b, now))
    ensures !NotApplicable(ChangeOf(a, id), ChangeOf(b, id))
    ensures ChangeOf(Merge(a, b), id) == Matrix(ChangeOf(a, id), ChangeOf(b, id))
  {
    BeforeAt(b, now, id);
    assert id in a.newIds <==> (id in Before(b, now).rows && a.oldNextId <= id);
    assert id in b.newIds <==> (id in now.rows && b.oldNextId <= id);
  }

  lemma {:induction false} MergeFits<V>(a: UndoState<V>, b: UndoState<V>, now: Snapshot<V>)
    requires Fits(b, now) && Fits(a, Before(b, now))
    ensures Fits(Merge(a, b), now)
  {
    forall id: nat
      ensures id in now.rows && a.oldNextId <= id <==> id in Merge(a, b).newIds
      ensures id in Merge(a, b).oldValues ==> id in now.rows && id < a.oldNextId
      ensures id in Merge(a, b).removedValues ==> id !in now.rows && id < a.oldNextId
    {
      MergeFitsAt(a, b, now, id);
    }
  }

  /** Undoing the merged state is undoing the newer state and then the older one. */
  lemma {:induction false} MergeComposes<V>(a: UndoState<V>, b: UndoState<V>, now: Snapshot<V>)
    requires Fits(b, now) && Fits(a, Before(b, now))
    ensures Fits(Merge(a, b), now)
    ensures Before(Merge(a, b), now) == Before(a, Before(b, now))
  {
    MergeFits(a, b, now);
    forall id ensures At(Before(Merge(a, b), now).rows, id) == At(Before(a, Before(b, now)).rows, id) {
      MergeComposesAt(a, b, now, id);
    }
    SameRows(Before(Merge(a, b), now).rows, Before(a, Before(b, now)).rows);
  }

  lemma {:induction false} MergeComposesAt<V>(a: UndoState<V>, b: UndoState<V>, now: Snapshot<V>, id: nat)
    requires Fits(b, now) && Fits(a, Before(b, now)) && Fits(Merge(a, b), now)
    ensures At(Before(Merge(a, b), now).rows, id) == At(Before(a, Before(b, now)).rows, id)
  {
    BeforeAt(Merge(a, b), now, id);
    BeforeAt(b, now, id);
    BeforeAt(a, Before(b, now), id);
    MergeIsMatrix(a, b, now, id);
  }

  lemma {:induction false} MergeFitsAt<V>(a: UndoState<V>, b: UndoState<V>, now: Snapshot<V>, id: nat)
    requires Fits(b, now) && Fits(a, Before(b, now))
    ensures id in now.rows && a.oldNextId <= id <==> id in Merge(a, b).newIds
    ensures id in Merge(a, b).oldValues ==> id in now.rows && id < a.oldNextId
    ensures id in Merge(a, b).removedValues ==> id !in now.rows && id < a.oldNextId
  {
    BeforeAt(b, now, id);
    assert id in a.newIds <==> (id in Before(b, now).rows && a.oldNextId <= id);
    assert id in b.newIds <==> (id in now.rows && b.oldNextId <= id);
  }

  /** The two newest records of a linked log, and the table below them. */
  lemma {:induction false} TwoNewest<V>(stack: seq<UndoState<V>>, now: Snapshot<V>)
    requires |stack| >= 2 && Linked(stack, now)
    ensures var n := |stack|;
            var a, b := stack[n - 2], stack[n - 1];
            var before := Before(b, now);
            && Fits(b, now) && Fits(a, before) && Linked(stack[..n - 2], Before(a, before))
            && Saved(stack, now) == Saved(stack[..n - 2], Before(a, before)) + [Before(a, before)] + [before]
  {
    var n := |stack|;
    var below := stack[..n - 1];
    assert below[..n - 2] == stack[..n - 2] && below[n - 2] == stack[n - 2];
    assert Linked(below, Before(stack[n - 1], now));
  }

  lemma {:induction false} NewestFit<V>(stack: seq<UndoState<V>>, now: Snapshot<V>)
    requires |stack| >= 2 && Linked(stack, now)
    ensures Fits(stack[|stack| - 1], now) && Fits(stack[|stack| - 2], Before(stack[|stack| - 1], now))
  {
    TwoNewest(stack, now);
  }

  lemma {:induction false} RefinesSquash<V>(s: IndexState<V>)
    requires Consistent(s)
    ensures Consistent(Squash(s)) && View(Squash(s)) == Join(View(s))
  {
    var n := |s.stack|;
    if n >= 2 {
      var a, b := s.stack[n - 2], s.stack[n - 1];
      TwoNewest(s.stack, s.now);
      MergeComposes(a, b, s.now);
      var t := Squash(s);
      assert t.stack[..n - 2] == s.stack[..n - 2] && t.stack[n - 2] == Merge(a, b);
    }
  }

  // ---------------------------------------------------------------------
  // Every run
  // ---------------------------------------------------------------------

  /** One operation on the log is the same operation on the copies. */
  lemma {:induction false} StepRefines<V>(s: IndexState<V>, op: Op<V>)
    requires Consistent(s) && Enabled(op, s.now)
    ensures Consistent(Step(s, op)) && View(Step(s, op)) == CopyStep(View(s), op)
  {
    match op
    case OpStart => RefinesStart(s);
    case OpUndo => RefinesUndo(s);
    case OpUndoAll => RefinesUndoAll(s);
    case OpSquash => RefinesSquash(s);
    case OpCommit(revision) => RefinesCommit(s, revision);
    case _ => RefinesObjectOp(s, op);
  }

  /** A run is a list of operations, each enabled where it is applied. */
  ghost predicate RunEnabled<V>(c: Copies<Snapshot<V>>, ops: seq<Op<V>>)
    decreases |ops|
  {
    ops == [] || (Enabled(ops[0], c.now) && RunEnabled(CopyStep(c, ops[0]), ops[1..]))
  }

  ghost function CopyRun<V>(c: Copies<Snapshot<V>>, ops: seq<Op<V>>): Copies<Snapshot<V>>
    requires RunEnabled(c, ops)
    decreases |ops|
  {
    if ops == [] then c else CopyRun(CopyStep(c, ops[0]), ops[1..])
  }

  /** The log executed operation by operation; stops at an operation that is not enabled. */
  ghost function Run<V>(s: IndexState<V>, ops: seq<Op<V>>): IndexState<V>
    decreases |ops|
  {
    if ops == [] || !Enabled(ops[0], s.now) then s else Run(Step(s, ops[0]), ops[1..])
  }

  lemma {:induction false} RunRefines<V>(s: IndexState<V>, ops: seq<Op<V>>)
    requires Consistent(s) && RunEnabled(View(s), ops)
    ensures Consistent(Run(s, ops)) && View(Run(s, ops)) == CopyRun(View(s), ops)
    decreases |ops|
  {
    if ops != [] {
      StepRefines(s, ops[0]);
      RunRefines(Step(s, ops[0]), ops[1..]);
    }
  }

  /** The copy numbered `r` is there. */
  ghost predicate Alive<S>(c: Copies<S>, r: int) {
    c.revision - |c.saved| < r <= c.revision
  }

  /** A commit forgets exactly the copies numbered at or below the revision; the others keep number and content. */
  lemma {:induction false} ForgetsExactly<S>(c: Copies<S>, n: int, r: int)
    ensures Alive(Forget(c, n), r) <==> Alive(c, r) && r > n
    ensures Alive(Forget(c, n), r) ==> CopyAt(Forget(c, n), r) == CopyAt(c, r)
    ensures Forget(c, n).now == c.now && Forget(c, n).revision == c.revision
  {
  }

  /** The copy numbered `r`: the newest is numbered by the revision, and numbers go down one by one. */
  ghost function CopyAt<S>(c: Copies<S>, r: int): S
    requires Alive(c, r)
  {
    c.saved[|c.saved| - 1 - (c.revision - r)]
  }

  /** The copy numbered `r` and those below it. */
  ghost function UpTo<S>(c: Copies<S>, r: int): (saved: seq<S>)
    requires Alive(c, r)
    ensures saved != []
  {
    c.saved[..r - (c.revision - |c.saved|)]
  }

  /** Throughout the run the session numbered `r` stays open and is not committed. */
  ghost predicate KeepsSession<V>(c: Copies<Snapshot<V>>, ops: seq<Op<V>>, r: int)
    requires RunEnabled(c, ops)
    decreases |ops|
  {
    Alive(c, r) && (ops == [] || KeepsSession(CopyStep(c, ops[0]), ops[1..], r))
  }

  /** One list is what is left of another after some entries at its front are gone. */
  ghost predicate EndOf<T>(whole: seq<T>, part: seq<T>) {
    |part| <= |whole| && part == whole[|whole| - |part|..]
  }

  /** No operation changes the copy of a session that stays open; a commit may drop copies below it. */
  lemma {:induction false} StepKeepsCopy<V>(c: Copies<Snapshot<V>>, op: Op<V>, r: int)
    requires Enabled(op, c.now) && Alive(c, r) && Alive(CopyStep(c, op), r)
    ensures EndOf(UpTo(c, r), UpTo(CopyStep(c, op), r))
  {
    var next := CopyStep(c, op);
    var k := |UpTo(c, r)| - |UpTo(next, r)|;
    if op.OpCommit? {
      assert c.saved[k..][..|UpTo(next, r)|] == c.saved[..|UpTo(c, r)|][k..];
    } else {
      assert k == 0 && UpTo(next, r) == UpTo(c, r);
    }
  }

  lemma {:induction false} RunKeepsCopy<V>(c: Copies<Snapshot<V>>, ops: seq<Op<V>>, r: int)
    requires RunEnabled(c, ops) && KeepsSession(c, ops, r)
    ensures Alive(c, r) && Alive(CopyRun(c, ops), r) && EndOf(UpTo(c, r), UpTo(CopyRun(c, ops), r))
    decreases |ops|
  {
    if ops != [] {
      var next := CopyStep(c, ops[0]);
      RunKeepsCopy(next, ops[1..], r);
      StepKeepsCopy(c, ops[0], r);
      var a, b, d := UpTo(c, r), UpTo(next, r), UpTo(CopyRun(c, ops), r);
      assert d == a[|a| - |b|..][|b| - |d|..];
    }
  }

  lemma {:induction false} CopySessionRestores<V>(c: Copies<Snapshot<V>>, ops: seq<Op<V>>)
    requires RunEnabled(Push(c), ops) && KeepsSession(Push(c), ops, c.revision + 1)
    requires CopyRun(Push(c), ops).revision == c.revision + 1
    ensures Pop(CopyRun(Push(c), ops)).now == c.now && EndOf(c.saved, Pop(CopyRun(Push(c), ops)).saved)
  {
    var t := CopyRun(Push(c), ops);
    RunKeepsCopy(Push(c), ops, c.revision + 1);
    assert UpTo(Push(c), c.revision + 1) == c.saved + [c.now] && UpTo(t, c.revision + 1) == t.saved;
    LastOfEnd(c.saved, c.now, t.saved);
  }

  /**
   Whatever happens between the start of a session and its end, commits below it included: if the
   session is the newest open one again, undoing it restores the objects and the next id it began
   with, and leaves those of the older copies that were not committed.
   */
  lemma {:induction false} SessionRestores<V>(s: IndexState<V>, ops: seq<Op<V>>)
    requires Consistent(s)
    requires RunEnabled(View(Start(s)), ops) && KeepsSession(View(Start(s)), ops, s.revision + 1)
    requires Run(Start(s), ops).revision == s.revision + 1
    ensures Undo(Run(Start(s), ops)).now == s.now
    ensures EndOf(Saved(s.stack, s.now), Saved(Undo(Run(Start(s), ops)).stack, s.now))
  {
    RefinesStart(s);
    RunRefines(Start(s), ops);
    CopySessionRestores(View(s), ops);
    RefinesUndo(Run(Start(s), ops));
  }

  lemma {:induction false} LastOfEnd<T>(whole: seq<T>, last: T, part: seq<T>)
    requires part != [] && EndOf(whole + [last], part)
    ensures part[|part| - 1] == last && EndOf(whole, part[..|part| - 1])
  {
  }
}
