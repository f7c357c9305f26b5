/**
 Reports to the log of irreversible blocks, as values: what a report lists, how much of it the log
 takes, and what that has to do with the path to the confirmed block.
 */
module ForkLog {
  import opened ForkTree
  import opened ForkConfirm
  import opened ForkMarks

  // ---------------------------------------------------------------------
  // The log
  // ---------------------------------------------------------------------

  /**
   The head of the log has been reported if it is stored, and otherwise lies at or below the pruned
   number. Nothing above it has been reported.
   */
  ghost predicate LogOk(packs: Packs, base: nat, logHead: Id) {
    && (if logHead in packs then packs[logHead].reported else logHead.num <= base)
    && forall id {:trigger LoggedAt(packs, logHead, id)} :: id in packs ==> LoggedAt(packs, logHead, id)
  }

  ghost predicate LoggedAt(packs: Packs, logHead: Id, id: Id)
    requires id in packs
  {
    packs[id].reported ==> packs[id].num <= logHead.num
  }

  /** The log takes a block only right after its head. */
  ghost predicate FollowsLog(packs: Packs, logHead: Id, id: Id) {
    id in packs && packs[id].num == logHead.num + 1 && packs[id].prev == logHead
  }

  ghost function LogAfter(logHead: Id, due: seq<Id>, n: nat): Id
    requires n <= |due|
  {
    if n == 0 then logHead else due[n - 1]
  }

  /** The log takes the first `n` blocks of a report. */
  ghost predicate Takes(packs: Packs, logHead: Id, due: seq<Id>, n: nat)
    requires n <= |due|
  {
    forall i :: 0 <= i < n ==> FollowsLog(packs, LogAfter(logHead, due, i), due[i])
  }

  /** Of a report, the log took the first `taken` blocks and refused the next one. */
  ghost predicate Reported(packs: Packs, logHead: Id, due: seq<Id>, taken: nat) {
    && taken <= |due| && Takes(packs, logHead, due, taken)
    && (taken < |due| ==> !FollowsLog(packs, LogAfter(logHead, due, taken), due[taken]))
  }

  /** The due blocks, lowest first. */
  ghost predicate IsReport(packs: Packs, c: Id, due: seq<Id>) {
    Ascending(packs, due) && forall id :: id in due <==> IsDue(packs, c, c.num, id)
  }

  ghost function Elements(list: seq<Id>): set<Id> {
    set id | id in list
  }

  ghost function Flagged(packs: Packs, ids: set<Id>): Packs {
    map id | id in packs :: if id in ids then packs[id].(reported := true) else packs[id]
  }

  /** The log takes consecutive numbers. */
  lemma {:induction false} TakenNumbers(packs: Packs, base: nat, logHead: Id, due: seq<Id>, n: nat, k: nat)
    requires Sound(packs, base) && n <= |due| && Takes(packs, logHead, due, n) && k < n
    ensures due[k] in packs && packs[due[k]].num == due[k].num == logHead.num + 1 + k
    decreases k
  {
    assert FollowsLog(packs, LogAfter(logHead, due, k), due[k]);
    assert PackOk(packs, base, due[k]);
    if k > 0 {
      TakenNumbers(packs, base, logHead, due, n, k - 1);
    }
  }

  lemma {:induction false} ConfirmKeepsValid(packs: Packs, base: nat, logHead: Id, c: Id)
    requires Sound(packs, base) && LogOk(packs, base, logHead) && c in packs
    ensures Sound(Confirmed(packs, c), base) && LogOk(Confirmed(packs, c), base, logHead)
  {
    var marked := Confirmed(packs, c);
    ConfirmKeepsSound(packs, c, base);
    forall id | id in marked ensures LoggedAt(marked, logHead, id) {
      assert LoggedAt(packs, logHead, id);
      SameLink(packs, marked, id);
    }
  }

  /** Flagging what the log took keeps the database in order: the log only takes what follows it. */
  lemma {:induction false} FlagKeepsValid(packs: Packs, base: nat, logHead: Id, due: seq<Id>, n: nat)
    requires Sound(packs, base) && LogOk(packs, base, logHead) && n <= |due| && Takes(packs, logHead, due, n)
    ensures var flagged := Flagged(packs, Elements(due[..n]));
            Sound(flagged, base) && LogOk(flagged, base, LogAfter(logHead, due, n)) && SameMarks(packs, flagged)
  {
    var flagged := Flagged(packs, Elements(due[..n]));
    assert Links(flagged) == Links(packs);
    forall id | id in flagged ensures PackOk(flagged, base, id) {
      FlaggedPack(packs, base, logHead, due, n, id);
    }
    forall id | id in flagged ensures LoggedAt(flagged, LogAfter(logHead, due, n), id) {
      FlaggedLog(packs, base, logHead, due, n, id);
    }
    if n > 0 {
      TakenNumbers(packs, base, logHead, due, n, n - 1);
      assert due[n - 1] in due[..n];
    }
  }

  lemma {:induction false} FlaggedPack(packs: Packs, base: nat, logHead: Id, due: seq<Id>, n: nat, id: Id)
    requires Sound(packs, base) && LogOk(packs, base, logHead) && n <= |due| && Takes(packs, logHead, due, n)
    requires id in packs
    ensures PackOk(Flagged(packs, Elements(due[..n])), base, id)
  {
    assert PackOk(packs, base, id);
    if id in due[..n] {
      var i :| 0 <= i < n && due[i] == id;
      assert FollowsLog(packs, LogAfter(logHead, due, i), due[i]);
      assert i > 0 ==> due[i - 1] in due[..n];
    }
  }

  lemma {:induction false} FlaggedLog(packs: Packs, base: nat, logHead: Id, due: seq<Id>, n: nat, id: Id)
    requires Sound(packs, base) && LogOk(packs, base, logHead) && n <= |due| && Takes(packs, logHead, due, n)
    requires id in packs
    ensures LoggedAt(Flagged(packs, Elements(due[..n])), LogAfter(logHead, due, n), id)
  {
    assert LoggedAt(packs, logHead, id);
    TakenIsNumbered(packs, base, logHead, due, n);
    assert Elements(due[..n]) == set i | 0 <= i < n :: due[i];
  }

  lemma {:induction false} TakenIsNumbered(packs: Packs, base: nat, logHead: Id, due: seq<Id>, n: nat)
    requires Sound(packs, base) && n <= |due| && Takes(packs, logHead, due, n)
    ensures forall i :: 0 <= i < n ==> due[i].num == logHead.num + 1 + i
    ensures forall i :: 0 <= i < n ==> due[i] in packs && packs[due[i]].num == due[i].num
    ensures LogAfter(logHead, due, n).num == logHead.num + n
  {
    forall i | 0 <= i < n ensures due[i] in packs && packs[due[i]].num == due[i].num == logHead.num + 1 + i {
      TakenNumbers(packs, base, logHead, due, n, i);
    }
  }

  lemma {:induction false} GrowKeepsLog(packs: Packs, base: nat, c: Id, logHead: Id, due: seq<Id>)
    requires Sound(packs, base) && LogOk(packs, base, logHead) && base <= c.num && IsReport(packs, c, due)
    requires Takes(packs, logHead, due, |due|)
    ensures LogOk(Grown(packs, c, c.num), c.num, LogAfter(logHead, due, |due|))
  {
    var last, grown := LogAfter(logHead, due, |due|), Grown(packs, c, c.num);
    if due != [] {
      assert last in due;
    }
    if last in packs {
      assert PackOk(packs, base, last);
    }
    forall id | id in grown ensures LoggedAt(grown, last, id) {
      FlaggedLog(packs, base, logHead, due, |due|, id);
      assert due[..|due|] == due;
      assert id in due <==> IsDue(packs, c, c.num, id);
    }
  }

  // ---------------------------------------------------------------------
  // What the log takes
  // ---------------------------------------------------------------------

  ghost predicate NoneReported(packs: Packs, due: seq<Id>) {
    forall i :: 0 <= i < |due| ==> due[i] in packs && !packs[due[i]].reported
  }

  lemma {:induction false} DueIsUnreported(packs: Packs, c: Id, due: seq<Id>)
    requires IsReport(packs, c, due)
    ensures NoneReported(packs, due)
  {
    forall i | 0 <= i < |due| ensures due[i] in packs && !packs[due[i]].reported {
      assert due[i] in due;
    }
  }

  /** What the log has taken up to one block is the unreported path to that block. */
  lemma {:induction false} TakenIsPending(packs: Packs, base: nat, logHead: Id, due: seq<Id>, n: nat, k: nat)
    requires Sound(packs, base) && LogOk(packs, base, logHead) && NoneReported(packs, due)
    requires n <= |due| && Takes(packs, logHead, due, n) && k < n
    ensures due[..k + 1] == Pending(packs, due[k]) && packs[due[0]].prev == logHead
    decreases k
  {
    assert FollowsLog(packs, LogAfter(logHead, due, k), due[k]);
    assert due[..k + 1] == due[..k] + [due[k]];
    if k > 0 {
      TakenIsPending(packs, base, logHead, due, n, k - 1);
    } else {
      LoggedHasNone(packs, base, logHead);
    }
  }

  /** Nothing is pending up to the head of the log. */
  lemma {:induction false} LoggedHasNone(packs: Packs, base: nat, logHead: Id)
    requires Sound(packs, base) && LogOk(packs, base, logHead)
    ensures Pending(packs, logHead) == []
  {
    PendingIsChain(packs, logHead, base);
  }

  /** The log takes a list that is the unreported path to a block, if that path follows it. */
  lemma {:induction false} PendingIsTaken(packs: Packs, base: nat, logHead: Id, due: seq<Id>, n: nat, x: Id)
    requires Sound(packs, base) && 0 < n <= |due| && due[..n] == Pending(packs, x)
    requires due[0] in packs && packs[due[0]].prev == logHead
    ensures Takes(packs, logHead, due, n)
  {
    PendingIsChain(packs, x, base);
    var path := due[..n];
    forall i | 0 <= i < n ensures FollowsLog(packs, LogAfter(logHead, due, i), due[i]) {
      assert path[i] == due[i] && PackOk(packs, base, due[i]);
      if i > 0 {
        assert packs[path[i - 1 + 1]].prev == path[i - 1];
      }
    }
  }

  /** The unreported path to a due block is due and follows the log, and no other due block comes before it. */
  ghost predicate Continues(packs: Packs, c: Id, logHead: Id, x: Id)
    requires Tree(Links(packs))
  {
    && x in packs
    && (forall y :: IsDue(packs, c, c.num, y) && Precedes(packs[y], packs[x]) ==> Ancestor(Links(packs), y, x))
    && (forall y :: y in packs && Ancestor(Links(packs), y, x) && !packs[y].reported ==> IsDue(packs, c, c.num, y))
    && Pending(packs, x) != [] && Follows(packs, logHead, Pending(packs, x))
  }

  /** The list is empty, or its first block is the one after the head of the log. */
  ghost predicate Follows(packs: Packs, logHead: Id, list: seq<Id>) {
    list != [] ==> list[0] in packs && packs[list[0]].prev == logHead
  }

  /** The first entry of its number. */
  ghost predicate FirstOfNumber(packs: Packs, due: seq<Id>, k: nat) {
    && k < |due| && due[k] in packs
    && forall i :: 0 <= i < k ==> due[i] in packs && packs[due[i]].num < packs[due[k]].num
  }

  /** The entries up to one that is taken are due ancestors of it, with ascending numbers. */
  lemma {:induction false} ListAscends(packs: Packs, c: Id, logHead: Id, due: seq<Id>, k: nat)
    requires Tree(Links(packs)) && IsReport(packs, c, due) && k < |due|
    requires Continues(packs, c, logHead, due[k]) && FirstOfNumber(packs, due, k)
    ensures forall i :: 0 <= i <= k ==> due[i] in packs && Ancestor(Links(packs), due[i], due[k])
    ensures forall i, j :: 0 <= i < j <= k ==> packs[due[i]].num < packs[due[j]].num
  {
    var links, x := Links(packs), due[k];
    assert Path(links, x)[0] == x;
    forall i | 0 <= i <= k ensures due[i] in packs && Ancestor(links, due[i], x) {
      assert due[i] in due && IsDue(packs, c, c.num, due[i]);
      assert i < k ==> Precedes(packs[due[i]], packs[x]);
    }
    forall i, j | 0 <= i < j <= k ensures packs[due[i]].num < packs[due[j]].num {
      if packs[due[i]].num == packs[due[j]].num {
        AncestorUnique(links, due[i], due[j], x);
      }
    }
  }

  /** The unreported path to an entry is listed up to there. */
  lemma {:induction false} PathIsListed(packs: Packs, c: Id, logHead: Id, due: seq<Id>, k: nat, y: Id)
    requires Tree(Links(packs)) && IsReport(packs, c, due) && k < |due|
    requires Continues(packs, c, logHead, due[k])
    requires y in packs && Ancestor(Links(packs), y, due[k]) && !packs[y].reported
    ensures y in due[..k + 1]
  {
    AncestorNumber(Links(packs), y, due[k]);
    assert IsDue(packs, c, c.num, y) && y in due;
    var j :| 0 <= j < |due| && due[j] == y;
    assert j <= k;
    assert due[..k + 1][j] == y;
  }

  lemma {:induction false} ListIsPath(packs: Packs, base: nat, c: Id, logHead: Id, due: seq<Id>, k: nat)
    requires Sound(packs, base) && IsReport(packs, c, due) && k < |due|
    requires Continues(packs, c, logHead, due[k]) && FirstOfNumber(packs, due, k)
    ensures due[..k + 1] == Pending(packs, due[k])
  {
    var links, x, list := Links(packs), due[k], due[..k + 1];
    PendingOnPath(packs, x);
    ListAscends(packs, c, logHead, due, k);
    DueIsUnreported(packs, c, due);
    forall y | y in list ensures y in Pending(packs, x) {
      var i :| 0 <= i <= k && list[i] == y;
      assert due[i] == y;
    }
    forall y | y in Pending(packs, x) ensures y in list {
      PathIsListed(packs, c, logHead, due, k, y);
    }
    SameAscending(packs, list, Pending(packs, x));
  }

  lemma {:induction false} PathContinues(packs: Packs, base: nat, c: Id, logHead: Id, due: seq<Id>, k: nat)
    requires Sound(packs, base) && IsReport(packs, c, due) && k < |due|
    requires due[..k + 1] == Pending(packs, due[k]) && packs[due[0]].prev == logHead
    ensures Continues(packs, c, logHead, due[k]) && FirstOfNumber(packs, due, k)
  {
    var links, x, list := Links(packs), due[k], due[..k + 1];
    PendingOnPath(packs, x);
    assert forall i :: 0 <= i <= k ==> list[i] == due[i];
    forall y | IsDue(packs, c, c.num, y) && Precedes(packs[y], packs[x]) ensures Ancestor(links, y, x) {
      var j :| 0 <= j < |due| && due[j] == y;
      assert j < k;
      assert list[j] in Pending(packs, x);
    }
    forall y | y in packs && Ancestor(links, y, x) && !packs[y].reported ensures IsDue(packs, c, c.num, y) {
      assert y in list;
    }
  }

  /**
   The log takes an entry of a report exactly if the unreported path to that block is due and
   follows the log, no other due block comes before it, and it is the first of its number.
   */
  lemma {:induction false} EntersExactly(
    packs: Packs, base: nat, c: Id, logHead: Id, due: seq<Id>, taken: nat, k: nat)
    requires Sound(packs, base) && LogOk(packs, base, logHead) && IsReport(packs, c, due)
    requires Reported(packs, logHead, due, taken) && k < |due|
    ensures k < taken <==> Continues(packs, c, logHead, due[k]) && FirstOfNumber(packs, due, k)
  {
    DueIsUnreported(packs, c, due);
    if k < taken {
      TakenIsPending(packs, base, logHead, due, taken, k);
      PathContinues(packs, base, c, logHead, due, k);
    }
    if Continues(packs, c, logHead, due[k]) && FirstOfNumber(packs, due, k) {
      ListIsPath(packs, base, c, logHead, due, k);
      assert due[..k + 1][0] == due[0];
      PendingIsTaken(packs, base, logHead, due, k + 1, due[k]);
    }
  }

  /** Of two due blocks with the same number the log takes at most one, and never before the main chain's. */
  lemma {:induction false} MainChainFirst(
    packs: Packs, base: nat, c: Id, logHead: Id, due: seq<Id>, taken: nat, x: Id, y: Id)
    requires Sound(packs, base) && LogOk(packs, base, logHead) && IsReport(packs, c, due)
    requires Reported(packs, logHead, due, taken) && x in due[..taken]
    requires IsDue(packs, c, c.num, y) && y != x && packs[y].num == packs[x].num
    ensures y !in due[..taken] && (packs[y].mainChain ==> packs[x].mainChain)
  {
    var k :| 0 <= k < taken && due[k] == x;
    EntersExactly(packs, base, c, logHead, due, taken, k);
    if Precedes(packs[y], packs[x]) {
      AncestorNumber(Links(packs), y, x);
    }
    if y in due[..taken] {
      TakenOnce(packs, base, logHead, due, taken, x, y);
    }
  }

  lemma {:induction false} TakenOnce(
    packs: Packs, base: nat, logHead: Id, due: seq<Id>, taken: nat, x: Id, y: Id)
    requires Sound(packs, base) && taken <= |due| && Takes(packs, logHead, due, taken)
    requires x in due[..taken] && y in due[..taken] && x in packs && y in packs && packs[x].num == packs[y].num
    ensures x == y
  {
    var i, j :| 0 <= i < taken && due[i] == x && 0 <= j < taken && due[j] == y;
    TakenNumbers(packs, base, logHead, due, taken, i);
    TakenNumbers(packs, base, logHead, due, taken, j);
  }

  /** A due block that continues the log is taken if no other due block has its number and flag. */
  lemma {:induction false} AloneEnters(
    packs: Packs, base: nat, c: Id, logHead: Id, due: seq<Id>, taken: nat, x: Id)
    requires Sound(packs, base) && LogOk(packs, base, logHead) && IsReport(packs, c, due)
    requires Reported(packs, logHead, due, taken) && IsDue(packs, c, c.num, x) && Continues(packs, c, logHead, x)
    requires forall y :: IsDue(packs, c, c.num, y) && y != x && packs[y].num == packs[x].num ==>
                           packs[y].mainChain != packs[x].mainChain
    ensures x in due[..taken]
  {
    assert x in due;
    var k :| 0 <= k < |due| && due[k] == x;
    forall i | 0 <= i < k ensures packs[due[i]].num < packs[x].num {
      assert due[i] in due;
      if Precedes(packs[due[i]], packs[x]) {
        AncestorNumber(Links(packs), due[i], x);
      }
    }
    EntersExactly(packs, base, c, logHead, due, taken, k);
    assert due[..taken][k] == x;
  }

  // ---------------------------------------------------------------------
  // Reports taken completely
  // ---------------------------------------------------------------------

  /** The block has been reported, or carries its own mark. */
  ghost predicate OwnMark(packs: Packs, c: Id) {
    c in packs && (packs[c].reported || packs[c].confirmedId == c)
  }

  /** A report taken completely is the unreported path to the confirmed block. */
  lemma {:induction false} CompleteIsPath(packs: Packs, base: nat, c: Id, logHead: Id, due: seq<Id>)
    requires Sound(packs, base) && LogOk(packs, base, logHead) && OwnMark(packs, c)
    requires IsReport(packs, c, due) && Takes(packs, logHead, due, |due|)
    ensures due == Pending(packs, c) && NoStrayMark(packs, c) && PathMarked(packs, c)
  {
    assert PackOk(packs, base, c);
    if packs[c].reported {
      ReportedHasNone(packs, base, c, logHead, due);
    } else {
      assert IsDue(packs, c, c.num, c) && c in due;
      var k :| 0 <= k < |due| && due[k] == c;
      LastIsHighest(packs, base, c, logHead, due, k);
      DueIsUnreported(packs, c, due);
      TakenIsPending(packs, base, logHead, due, |due|, k);
      assert due[..k + 1] == due;
    }
    GrowReportIsPath(packs, c, due);
  }

  lemma {:induction false} ReportedHasNone(packs: Packs, base: nat, c: Id, logHead: Id, due: seq<Id>)
    requires Sound(packs, base) && LogOk(packs, base, logHead) && c in packs && packs[c].reported
    requires IsReport(packs, c, due) && Takes(packs, logHead, due, |due|)
    ensures due == [] == Pending(packs, c)
  {
    PendingIsChain(packs, c, base);
    assert LoggedAt(packs, logHead, c) && PackOk(packs, base, c);
    DueLeadsOn(packs, base, c, logHead, due);
  }

  lemma {:induction false} DueLeadsOn(packs: Packs, base: nat, c: Id, logHead: Id, due: seq<Id>)
    requires Sound(packs, base) && IsReport(packs, c, due) && Takes(packs, logHead, due, |due|)
    ensures due != [] ==> logHead.num < c.num
  {
    if due != [] {
      assert due[0] in due;
      TakenNumbers(packs, base, logHead, due, |due|, 0);
    }
  }

  lemma {:induction false} LastIsHighest(packs: Packs, base: nat, c: Id, logHead: Id, due: seq<Id>, k: nat)
    requires Sound(packs, base) && IsReport(packs, c, due) && Takes(packs, logHead, due, |due|)
    requires k < |due| && due[k] == c
    ensures k == |due| - 1
  {
    var n := |due| - 1;
    assert due[n] in due;
    TakenNumbers(packs, base, logHead, due, |due|, k);
    TakenNumbers(packs, base, logHead, due, |due|, n);
  }

  /**
   A report is taken completely exactly if it is the whole unreported path, without stray blocks, and
   that path follows the log.
   */
  lemma {:induction false} CompleteExactly(
    packs: Packs, base: nat, c: Id, logHead: Id, due: seq<Id>, taken: nat)
    requires Sound(packs, base) && LogOk(packs, base, logHead) && OwnMark(packs, c)
    requires IsReport(packs, c, due) && Reported(packs, logHead, due, taken)
    ensures taken == |due| <==>
            NoStrayMark(packs, c) && PathMarked(packs, c) && Follows(packs, logHead, Pending(packs, c))
  {
    assert PackOk(packs, base, c);
    if taken == |due| {
      CompleteIsPath(packs, base, c, logHead, due);
      if due != [] {
        assert FollowsLog(packs, LogAfter(logHead, due, 0), due[0]);
      }
    } else if NoStrayMark(packs, c) && PathMarked(packs, c) && Follows(packs, logHead, Pending(packs, c)) {
      GrowReportIsPath(packs, c, due);
      assert due[..|due|] == due;
      PendingIsTaken(packs, base, logHead, due, |due|, c);
    }
  }

  /** A confirmation does not change which blocks are pending. */
  lemma {:induction false} PendingSame(packs: Packs, c: Id, id: Id)
    requires Tree(Links(packs)) && c in packs
    ensures Pending(Confirmed(packs, c), id) == Pending(packs, id)
    decreases if id in packs then packs[id].num else 0
  {
    SameLink(packs, Confirmed(packs, c), id);
    if id in packs {
      var prev := packs[id].prev;
      assert prev in packs ==> Links(packs)[id].num == Links(packs)[prev].num + 1;
      PendingSame(packs, c, prev);
    }
  }
}
