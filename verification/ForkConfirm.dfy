/**
 What a confirmation means on the tree of blocks, as values.
 */
module ForkConfirm {
  import opened ForkTree

  ghost predicate Related(links: map<Id, Link>, a: Id, b: Id)
    requires Tree(links)
  {
    Ancestor(links, a, b) || Ancestor(links, b, a)
  }

  /** The stored ancestors of a block, the block, and its stored descendants. */
  ghost function Family(links: map<Id, Link>, c: Id): set<Id>
    requires Tree(links)
  {
    set id | id in links && Related(links, id, c)
  }

  function Mark(pack: Pack, c: Id, num: nat): Pack {
    pack.(confirmedNum := num, confirmedId := c)
  }

  ghost function MarkAll(packs: Packs, who: set<Id>, c: Id, num: nat): (marked: Packs)
    ensures Links(marked) == Links(packs)
  {
    var marked := map id | id in packs :: if id in who then Mark(packs[id], c, num) else packs[id];
    assert Links(marked) == Links(packs);
    marked
  }

  /** The blocks that the growth of the confirmation to `c` reports: marked, low enough, not reported yet. */
  ghost predicate IsDue(packs: Packs, c: Id, num: nat, id: Id) {
    id in packs && packs[id].num <= num && packs[id].confirmedId == c && !packs[id].reported
  }

  /** The blocks that stay: everything above `num`, and `c` itself if it carries its own mark. */
  ghost predicate Stays(packs: Packs, c: Id, num: nat, id: Id) {
    id in packs && (packs[id].num > num || (id == c && packs[c].confirmedId == c))
  }

  ghost function Grown(packs: Packs, c: Id, num: nat): (grown: Packs)
    ensures forall id :: id in grown <==> Stays(packs, c, num, id)
  {
    map id | id in packs && Stays(packs, c, num, id) ::
      if IsDue(packs, c, num, id) then packs[id].(reported := true) else packs[id]
  }

  /** The order of the scan: lower numbers first, and of equal numbers the main chain. */
  predicate Precedes(a: Pack, b: Pack) {
    a.num < b.num || (a.num == b.num && a.mainChain && !b.mainChain)
  }

  ghost predicate Ascending(packs: Packs, ids: seq<Id>) {
    && (forall i :: 0 <= i < |ids| ==> ids[i] in packs)
    && (forall i, j :: 0 <= i < j < |ids| ==> !Precedes(packs[ids[j]], packs[ids[i]]) && ids[i] != ids[j])
  }

  // ---------------------------------------------------------------------
  // The reference: the unreported part of the path, oldest first
  // ---------------------------------------------------------------------

  ghost function Pending(packs: Packs, id: Id): seq<Id>
    requires Tree(Links(packs))
    decreases if id in packs then packs[id].num else 0
  {
    if id !in packs then []
    else Pending(packs, packs[id].prev) + if packs[id].reported then [] else [id]
  }

  lemma {:induction false} PendingOnPath(packs: Packs, c: Id)
    requires Tree(Links(packs))
    ensures forall id :: id in Pending(packs, c) <==>
                         id in packs && Ancestor(Links(packs), id, c) && !packs[id].reported
    ensures forall i :: 0 <= i < |Pending(packs, c)| ==>
                          Pending(packs, c)[i] in packs && c in packs && packs[Pending(packs, c)[i]].num <= packs[c].num
    ensures forall i, j :: 0 <= i < j < |Pending(packs, c)| ==>
                             packs[Pending(packs, c)[i]].num < packs[Pending(packs, c)[j]].num
    decreases if c in packs then packs[c].num else 0
  {
    PathNumbers(Links(packs), c);
    if c in packs {
      var prev := packs[c].prev;
      PendingOnPath(packs, prev);
      assert Path(Links(packs), c) == [c] + Path(Links(packs), prev);
      forall id ensures id in Pending(packs, c) <==>
                        id in packs && Ancestor(Links(packs), id, c) && !packs[id].reported {
        if Ancestor(Links(packs), id, prev) {
          AncestorNumber(Links(packs), id, prev);
        }
      }
    }
  }

  /** Two ascending lists with distinct numbers and the same blocks are equal. */
  lemma {:induction false} SameAscending(packs: Packs, a: seq<Id>, b: seq<Id>)
    requires forall i :: 0 <= i < |a| ==> a[i] in packs
    requires forall i :: 0 <= i < |b| ==> b[i] in packs
    requires forall i, j :: 0 <= i < j < |a| ==> packs[a[i]].num < packs[a[j]].num
    requires forall i, j :: 0 <= i < j < |b| ==> packs[b[i]].num < packs[b[j]].num
    requires forall id :: id in a <==> id in b
    ensures a == b
  {
    assert b != [] ==> b[0] in b;
    if a != [] {
      assert a[0] in b;
      var n, m := |a| - 1, |b| - 1;
      assert a[n] in b && b[m] in a;
      var i :| 0 <= i <= m && b[i] == a[n];
      var j :| 0 <= j <= n && a[j] == b[m];
      assert a[n] == b[m];
      var a', b' := a[..n], b[..m];
      forall id ensures id in a' <==> id in b' {
        if id in a' {
          var k :| 0 <= k < n && a[k] == id;
          assert id in b && id != a[n];
        }
        if id in b' {
          var k :| 0 <= k < m && b[k] == id;
          assert id in a && id != b[m];
        }
      }
      SameAscending(packs, a', b');
    }
  }

  // ---------------------------------------------------------------------
  // When the report is right
  // ---------------------------------------------------------------------

  /** Every block that knows a stored confirmed block lies on one line with it. */
  ghost predicate MarksRelated(packs: Packs)
    requires Tree(Links(packs))
  {
    forall id :: id in packs && packs[id].confirmedId in packs ==> Related(Links(packs), id, packs[id].confirmedId)
  }

  /** No unreported block at or below `c` carries the mark `c` without being an ancestor of `c`. */
  ghost predicate NoStrayMark(packs: Packs, c: Id)
    requires Tree(Links(packs)) && c in packs
  {
    forall id :: IsDue(packs, c, packs[c].num, id) ==> Ancestor(Links(packs), id, c)
  }

  ghost function Confirmed(packs: Packs, c: Id): (marked: Packs)
    requires Tree(Links(packs)) && c in packs
    ensures Links(marked) == Links(packs)
  {
    MarkAll(packs, Family(Links(packs), c), c, packs[c].num)
  }

  /** A confirmation changes the mark of the stored ancestors and descendants of the block, and nothing else. */
  lemma {:induction false} ConfirmedSays(packs: Packs, c: Id, id: Id)
    requires Tree(Links(packs)) && c in packs && id in packs
    ensures Confirmed(packs, c).Keys == packs.Keys
    ensures Confirmed(packs, c)[id] ==
            if Ancestor(Links(packs), id, c) || Ancestor(Links(packs), c, id)
            then packs[id].(confirmedNum := packs[c].num, confirmedId := c)
            else packs[id]
  {
  }

  /**
   Right after `c` has been marked, the list to be reported is exactly the unreported blocks of its
   path, oldest first, if and only if no stray block already carried the mark.
   */
  lemma {:induction false} ReportIsPath(packs: Packs, c: Id, due: seq<Id>)
    requires Tree(Links(packs)) && c in packs
    requires Ascending(Confirmed(packs, c), due)
    requires forall id :: id in due <==> IsDue(Confirmed(packs, c), c, packs[c].num, id)
    ensures due == Pending(packs, c) <==> NoStrayMark(packs, c)
  {
    PendingOnPath(packs, c);
    if NoStrayMark(packs, c) {
      DueIsPending(packs, c, due);
    }
    if due == Pending(packs, c) {
      forall id | IsDue(packs, c, packs[c].num, id) ensures Ancestor(Links(packs), id, c) {
        assert Links(Confirmed(packs, c))[id] == Links(packs)[id];
        assert IsDue(Confirmed(packs, c), c, packs[c].num, id);
        assert id in due;
      }
    }
  }

  lemma {:induction false} DueIsPending(packs: Packs, c: Id, due: seq<Id>)
    requires Tree(Links(packs)) && c in packs && NoStrayMark(packs, c)
    requires Ascending(Confirmed(packs, c), due)
    requires forall id :: id in due <==> IsDue(Confirmed(packs, c), c, packs[c].num, id)
    ensures due == Pending(packs, c)
  {
    var links, marked := Links(packs), Confirmed(packs, c);
    PendingOnPath(packs, c);
    forall id ensures id in due <==> id in Pending(packs, c) {
      if id in due {
        DueIsAncestor(packs, c, id);
      }
      if id in Pending(packs, c) {
        AncestorNumber(links, id, c);
        assert Links(marked)[id] == links[id];
      }
    }
    forall i, j | 0 <= i < j < |due| ensures packs[due[i]].num < packs[due[j]].num {
      assert due[i] in due && due[j] in due;
      assert Links(marked)[due[i]] == links[due[i]] && Links(marked)[due[j]] == links[due[j]];
      if packs[due[i]].num == packs[due[j]].num {
        AncestorUnique(links, due[i], due[j], c);
      }
    }
    SameAscending(packs, due, Pending(packs, c));
  }

  lemma {:induction false} DueIsAncestor(packs: Packs, c: Id, id: Id)
    requires Tree(Links(packs)) && c in packs && NoStrayMark(packs, c)
    requires IsDue(Confirmed(packs, c), c, packs[c].num, id)
    ensures Ancestor(Links(packs), id, c)
  {
    assert Links(Confirmed(packs, c))[id] == Links(packs)[id];
    if id in Family(Links(packs), c) {
      if Ancestor(Links(packs), c, id) {
        AncestorNumber(Links(packs), c, id);
        assert Path(Links(packs), c)[0] == c;
      }
    } else {
      assert IsDue(packs, c, packs[c].num, id);
    }
  }

  /** Every unreported block on the path to `c` carries the mark `c`. */
  ghost predicate PathMarked(packs: Packs, c: Id)
    requires Tree(Links(packs)) && c in packs
  {
    forall id :: id in packs && Ancestor(Links(packs), id, c) && !packs[id].reported ==> packs[id].confirmedId == c
  }

  /**
   When an earlier confirmation of `c` takes effect, the list to be reported is the unreported path
   to `c` if and only if no stray block carries the mark and the whole path still does.
   */
  lemma {:induction false} GrowReportIsPath(packs: Packs, c: Id, due: seq<Id>)
    requires Tree(Links(packs)) && c in packs && Ascending(packs, due)
    requires forall id :: id in due <==> IsDue(packs, c, packs[c].num, id)
    ensures due == Pending(packs, c) <==> NoStrayMark(packs, c) && PathMarked(packs, c)
  {
    PendingOnPath(packs, c);
    if NoStrayMark(packs, c) && PathMarked(packs, c) {
      GrowDueIsPending(packs, c, due);
    }
    if due == Pending(packs, c) {
      forall id | IsDue(packs, c, packs[c].num, id) ensures Ancestor(Links(packs), id, c) {
        assert id in due;
      }
      forall id | id in packs && Ancestor(Links(packs), id, c) && !packs[id].reported
        ensures packs[id].confirmedId == c
      {
        assert id in Pending(packs, c);
      }
    }
  }

  lemma {:induction false} GrowDueIsPending(packs: Packs, c: Id, due: seq<Id>)
    requires Tree(Links(packs)) && c in packs && NoStrayMark(packs, c) && PathMarked(packs, c)
    requires Ascending(packs, due) && forall id :: id in due <==> IsDue(packs, c, packs[c].num, id)
    ensures due == Pending(packs, c)
  {
    var links := Links(packs);
    PendingOnPath(packs, c);
    forall id ensures id in due <==> id in Pending(packs, c) {
      if id in Pending(packs, c) {
        AncestorNumber(links, id, c);
      }
    }
    forall i, j | 0 <= i < j < |due| ensures packs[due[i]].num < packs[due[j]].num {
      assert due[i] in due && due[j] in due;
      if packs[due[i]].num == packs[due[j]].num {
        AncestorUnique(links, due[i], due[j], c);
      }
    }
    SameAscending(packs, due, Pending(packs, c));
  }

  /** If all marks are on one line with their blocks, there is no stray mark. */
  lemma {:induction false} RelatedMarksAreNotStray(packs: Packs, c: Id)
    requires Tree(Links(packs)) && c in packs && MarksRelated(packs)
    ensures NoStrayMark(packs, c)
  {
    forall id | IsDue(packs, c, packs[c].num, id) ensures Ancestor(Links(packs), id, c) {
      if Ancestor(Links(packs), c, id) {
        AncestorNumber(Links(packs), c, id);
        assert Path(Links(packs), c)[0] == c;
      }
    }
  }

  // ---------------------------------------------------------------------
  // What the steps keep
  // ---------------------------------------------------------------------

  lemma {:induction false} ConfirmKeepsMarksRelated(packs: Packs, c: Id)
    requires Tree(Links(packs)) && c in packs && MarksRelated(packs)
    ensures MarksRelated(Confirmed(packs, c))
  {
    var marked := Confirmed(packs, c);
    forall id | id in marked && marked[id].confirmedId in marked
      ensures Related(Links(marked), id, marked[id].confirmedId)
    {
      if id !in Family(Links(packs), c) {
        assert marked[id] == packs[id];
      }
    }
  }

  /** Pruning a lower set of blocks keeps every path between two kept blocks. */
  lemma {:induction false} PathAfterPruning(packs: Packs, kept: Packs, a: Id, b: Id)
    requires Tree(Links(packs)) && Tree(Links(kept))
    requires kept.Keys <= packs.Keys && forall id :: id in kept ==> Links(kept)[id] == Links(packs)[id]
    requires forall id :: id in packs && a in kept && packs[id].num > packs[a].num ==> id in kept
    requires a in kept && b in kept && Ancestor(Links(packs), a, b)
    ensures Ancestor(Links(kept), a, b)
    decreases packs[b].num
  {
    if a != b {
      var prev := packs[b].prev;
      assert Links(kept)[b] == Links(packs)[b];
      assert Path(Links(packs), b) == [b] + Path(Links(packs), prev);
      AncestorNumber(Links(packs), a, prev);
      PathAfterPruning(packs, kept, a, prev);
    } else {
      assert Path(Links(kept), b)[0] == b;
    }
  }

  lemma {:induction false} GrownIsTree(packs: Packs, c: Id, num: nat)
    requires Tree(Links(packs))
    ensures Tree(Links(Grown(packs, c, num)))
    ensures forall id :: id in Grown(packs, c, num) ==> Links(Grown(packs, c, num))[id] == Links(packs)[id]
  {
    var kept := Grown(packs, c, num);
    forall id | id in kept ensures Links(kept)[id] == Links(packs)[id] {
    }
    forall id | id in Links(kept)
      ensures Links(kept)[id].prev in Links(kept) ==> Links(kept)[Links(kept)[id].prev].num + 1 == Links(kept)[id].num
    {
      assert Links(kept)[id] == Links(packs)[id];
    }
  }

  lemma {:induction false} GrowKeepsMarksRelated(packs: Packs, c: Id, num: nat)
    requires Tree(Links(packs)) && MarksRelated(packs) && (c in packs ==> packs[c].num == num)
    ensures Tree(Links(Grown(packs, c, num))) && MarksRelated(Grown(packs, c, num))
  {
    var kept := Grown(packs, c, num);
    GrownIsTree(packs, c, num);
    forall id | id in kept && kept[id].confirmedId in kept
      ensures Related(Links(kept), id, kept[id].confirmedId)
    {
      var m := packs[id].confirmedId;
      assert Related(Links(packs), id, m);
      if Ancestor(Links(packs), id, m) {
        PathAfterPruning(packs, kept, id, m);
      } else {
        PathAfterPruning(packs, kept, m, id);
      }
    }
  }

  /** What a block brings along: what it makes irreversible, and whether it was built or applied here. */
  datatype Arrival = Arrival(dposNum: nat, dposId: Id, mainChain: bool)

  /** A new block takes over the confirmation its predecessor knows. */
  function Child(parent: Pack, prev: Id, arrival: Arrival): Pack {
    Pack(prev, parent.num + 1, parent.confirmedNum, parent.confirmedId, arrival.dposNum, arrival.dposId, false,
         arrival.mainChain)
  }

  /** The predecessor is a proper ancestor of the confirmed block it knows. */
  ghost predicate BelowItsMark(packs: Packs, id: Id)
    requires Tree(Links(packs)) && id in packs
  {
    var m := packs[id].confirmedId;
    m in packs && m != id && Ancestor(Links(packs), id, m)
  }

  lemma {:induction false} PathAfterInsert(packs: Packs, more: Packs, child: Id, id: Id)
    requires Tree(Links(packs)) && Tree(Links(more)) && child !in packs && id in packs
    requires more.Keys == packs.Keys + {child}
    requires forall k :: k in packs ==> more[k] == packs[k] && packs[k].prev != child
    ensures Path(Links(more), id) == Path(Links(packs), id)
  {
    PathAfterNew(Links(packs), Links(more), child, id);
  }

  /** The database with the block `child` linked to the stored block `prev`. */
  ghost function Inserted(packs: Packs, child: Id, prev: Id, arrival: Arrival): Packs
    requires prev in packs
  {
    packs[child := Child(packs[prev], prev, arrival)]
  }

  /** A new block knows the confirmation its predecessor knows, and brings along the rest. */
  lemma {:induction false} InsertedSays(packs: Packs, child: Id, prev: Id, arrival: Arrival)
    requires prev in packs
    ensures var more := Inserted(packs, child, prev, arrival);
            && more.Keys == packs.Keys + {child} && (forall id :: id in packs && id != child ==> more[id] == packs[id])
            && more[child].prev == prev && more[child].num == packs[prev].num + 1 && !more[child].reported
            && more[child].confirmedNum == packs[prev].confirmedNum
            && more[child].confirmedId == packs[prev].confirmedId
            && more[child].dposNum == arrival.dposNum && more[child].dposId == arrival.dposId
            && more[child].mainChain == arrival.mainChain
  {
  }

  /** No stored block names the new block as its predecessor or as a confirmed block. */
  ghost predicate Unheard(packs: Packs, child: Id) {
    child !in packs && forall id :: id in packs ==> packs[id].prev != child && packs[id].confirmedId != child
  }

  /**
   Adding a block keeps every mark on one line with its block if and only if the
   predecessor is not a proper ancestor of the confirmed block it knows.
   */
  lemma {:induction false} InsertKeepsMarksRelated(packs: Packs, child: Id, prev: Id, arrival: Arrival)
    requires Tree(Links(packs)) && Unheard(packs, child) && prev in packs && MarksRelated(packs)
    requires Tree(Links(Inserted(packs, child, prev, arrival)))
    ensures MarksRelated(Inserted(packs, child, prev, arrival)) <==> !BelowItsMark(packs, prev)
  {
    var more := Inserted(packs, child, prev, arrival);
    var m := packs[prev].confirmedId;
    forall id | id in packs ensures Path(Links(more), id) == Path(Links(packs), id) {
      PathAfterInsert(packs, more, child, id);
    }
    if m in packs {
      ChildOfMark(packs, more, child, prev, m);
    }
    if !BelowItsMark(packs, prev) {
      forall id | id in more && more[id].confirmedId in more ensures Related(Links(more), id, more[id].confirmedId) {
        if id != child {
          assert more[id] == packs[id] && Related(Links(packs), id, packs[id].confirmedId);
        }
      }
    } else {
      assert child in more && more[child].confirmedId in more;
    }
  }

  lemma {:induction false} ChildOfMark(packs: Packs, more: Packs, child: Id, prev: Id, m: Id)
    requires Tree(Links(packs)) && Tree(Links(more)) && child !in packs && prev in packs && m in packs
    requires child in more && Links(more)[child].prev == prev && Related(Links(packs), prev, m)
    requires forall id :: id in packs ==> Path(Links(more), id) == Path(Links(packs), id)
    ensures Related(Links(more), child, m) <==> m == prev || !Ancestor(Links(packs), prev, m)
  {
    assert Path(Links(more), child) == [child] + Path(Links(more), prev);
    assert Path(Links(packs), prev)[0] == prev;
    if Ancestor(Links(packs), child, m) {
      AncestorNumber(Links(packs), child, m);
    }
    if Ancestor(Links(packs), prev, m) && Ancestor(Links(packs), m, prev) {
      AncestorNumber(Links(packs), prev, m);
      AncestorNumber(Links(packs), m, prev);
    }
  }

  // ---------------------------------------------------------------------
  // The report continues the chain
  // ---------------------------------------------------------------------

  /** Each block follows the one before it. */
  ghost predicate Chained(packs: Packs, ids: seq<Id>) {
    && (forall i :: 0 <= i < |ids| ==> ids[i] in packs)
    && (forall i :: 0 <= i < |ids| - 1 ==> packs[ids[i + 1]].prev == ids[i])
  }

  /**
   The pending blocks form a chain that ends at the confirmed block and starts right after
   a block that has been reported or is no longer stored.
   */
  lemma {:induction false} PendingIsChain(packs: Packs, c: Id, base: nat)
    requires Sound(packs, base)
    ensures Chained(packs, Pending(packs, c))
    ensures c in packs && !packs[c].reported ==>
              && Pending(packs, c) != []
              && Pending(packs, c)[|Pending(packs, c)| - 1] == c
              && var first := packs[Pending(packs, c)[0]].prev; first !in packs || packs[first].reported
    ensures c in packs && packs[c].reported ==> Pending(packs, c) == []
    decreases if c in packs then packs[c].num else 0
  {
    if c in packs {
      assert PackOk(packs, base, c);
      PendingIsChain(packs, packs[c].prev, base);
    }
  }

  // ---------------------------------------------------------------------
  // What every reachable database satisfies
  // ---------------------------------------------------------------------

  /**
   Numbers are the ones the ids carry. Stored numbers start at `base`, and only the two lowest
   levels may lack a stored predecessor. A confirmed block that is no longer stored lies at or
   below `base`. A stored predecessor of a reported block has been reported.
   */
  ghost predicate PackOk(packs: Packs, base: nat, id: Id)
    requires id in packs
  {
    var p := packs[id];
    && p.num == id.num && p.num == p.prev.num + 1 && p.num >= base
    && (p.num >= base + 2 ==> p.prev in packs)
    && p.confirmedNum == p.confirmedId.num && p.dposNum == p.dposId.num && p.dposNum < p.num
    && (p.confirmedId in packs || p.confirmedNum <= base)
    && (p.reported && p.prev in packs ==> packs[p.prev].reported)
  }

  ghost predicate Sound(packs: Packs, base: nat) {
    && Tree(Links(packs))
    && forall id {:trigger PackOk(packs, base, id)} :: id in packs ==> PackOk(packs, base, id)
  }

  lemma {:induction false} PacksOkIsSound(packs: Packs, base: nat)
    requires forall id {:trigger PackOk(packs, base, id)} :: id in packs ==> PackOk(packs, base, id)
    ensures Sound(packs, base)
  {
    forall id | id in packs ensures packs[id].num == id.num && packs[id].num == packs[id].prev.num + 1 {
      assert PackOk(packs, base, id);
    }
    NumberedByIdIsTree(packs);
  }

  lemma {:induction false} ConfirmKeepsSound(packs: Packs, c: Id, base: nat)
    requires Sound(packs, base) && c in packs
    ensures Sound(Confirmed(packs, c), base)
  {
    var marked := Confirmed(packs, c);
    assert PackOk(packs, base, c);
    forall id | id in marked ensures PackOk(marked, base, id) {
      assert PackOk(packs, base, id);
    }
  }

  lemma {:induction false} GrowKeepsSound(packs: Packs, c: Id, base: nat)
    requires Sound(packs, base) && base <= c.num
    ensures Sound(Grown(packs, c, c.num), c.num)
  {
    var kept := Grown(packs, c, c.num);
    forall id | id in kept ensures PackOk(kept, c.num, id) {
      GrowKeepsPackOk(packs, c, base, id);
    }
    PacksOkIsSound(kept, c.num);
  }

  lemma {:induction false} GrowKeepsPackOk(packs: Packs, c: Id, base: nat, id: Id)
    requires Sound(packs, base) && base <= c.num && id in Grown(packs, c, c.num)
    ensures PackOk(Grown(packs, c, c.num), c.num, id)
  {
    assert PackOk(packs, base, id);
    if packs[id].prev in packs {
      assert PackOk(packs, base, packs[id].prev);
    }
    if packs[id].confirmedId in packs {
      assert PackOk(packs, base, packs[id].confirmedId);
    }
  }

  lemma {:induction false} InsertKeepsSound(packs: Packs, child: Id, prev: Id, arrival: Arrival, base: nat)
    requires Sound(packs, base) && child !in packs && prev in packs && child.num == prev.num + 1
    requires arrival.dposNum == arrival.dposId.num && arrival.dposNum < child.num
    ensures Sound(Inserted(packs, child, prev, arrival), base) && Unheard(packs, child)
  {
    var more := Inserted(packs, child, prev, arrival);
    assert PackOk(packs, base, prev);
    forall id | id in packs ensures packs[id].prev != child && packs[id].confirmedId != child {
      assert PackOk(packs, base, id);
    }
    forall id | id in more ensures PackOk(more, base, id) {
      if id != child {
        assert PackOk(packs, base, id);
      }
    }
    PacksOkIsSound(more, base);
  }
}
