/**
 Confirmation marks over every run: how far the marks reach never falls behind what has been
 reported, even if reports were cut short.
 */
module ForkMarks {
  import opened ForkTree
  import opened ForkConfirm

  /** The block carries the mark of a block at or above itself. */
  ghost predicate Settles(packs: Packs, id: Id)
    requires id in packs
  {
    packs[id].confirmedNum >= packs[id].num
  }

  /** Every ancestor of a block up to the number the block knows as confirmed carries such a mark. */
  ghost predicate LineOk(packs: Packs, p: Id, y: Id)
    requires Tree(Links(packs))
  {
    p in packs && y in packs && Ancestor(Links(packs), y, p) && packs[y].num <= packs[p].confirmedNum ==>
      Settles(packs, y)
  }

  /** The confirmed block that a block knows, if it is stored, carries its own mark or that of a higher block. */
  ghost predicate HolderOk(packs: Packs, p: Id)
    requires p in packs
  {
    var c := packs[p].confirmedId;
    c in packs ==> Settles(packs, c) && (packs[c].confirmedId == c || packs[c].confirmedNum > packs[c].num)
  }

  ghost predicate MarksOk(packs: Packs)
    requires Tree(Links(packs))
  {
    && (forall p, y {:trigger LineOk(packs, p, y)} :: LineOk(packs, p, y))
    && (forall p {:trigger HolderOk(packs, p)} :: p in packs ==> HolderOk(packs, p))
  }

  /** The same blocks with the same marks. */
  ghost predicate SameMarks(packs: Packs, other: Packs) {
    && Links(other) == Links(packs)
    && forall id :: id in packs ==>
                      other[id].confirmedNum == packs[id].confirmedNum && other[id].confirmedId == packs[id].confirmedId
  }

  lemma {:induction false} SameMarksOk(packs: Packs, other: Packs)
    requires Tree(Links(packs)) && MarksOk(packs) && SameMarks(packs, other)
    ensures MarksOk(other)
  {
    forall p, y ensures LineOk(other, p, y) {
      assert LineOk(packs, p, y);
      SameLink(packs, other, y);
    }
    forall p | p in other ensures HolderOk(other, p) {
      assert HolderOk(packs, p);
      SameLink(packs, other, packs[p].confirmedId);
    }
  }

  lemma {:induction false} SameLink(packs: Packs, other: Packs, id: Id)
    requires Links(other) == Links(packs)
    ensures id in packs <==> id in other
    ensures id in packs ==> other[id].num == packs[id].num && other[id].prev == packs[id].prev
  {
    if id in Links(packs) {
      assert Links(other)[id] == Links(packs)[id];
    }
  }

  /** Inserting keeps the marks in order: a child knows what its parent knows. */
  lemma {:induction false} InsertKeepsMarksOk(packs: Packs, child: Id, prev: Id, arrival: Arrival)
    requires Tree(Links(packs)) && MarksOk(packs) && Unheard(packs, child) && prev in packs
    requires Tree(Links(Inserted(packs, child, prev, arrival)))
    ensures MarksOk(Inserted(packs, child, prev, arrival))
  {
    var more := Inserted(packs, child, prev, arrival);
    forall p, y ensures LineOk(more, p, y) {
      InsertLine(packs, child, prev, arrival, p, y);
    }
    forall p | p in more ensures HolderOk(more, p) {
      assert HolderOk(packs, if p == child then prev else p);
    }
  }

  lemma {:induction false} InsertLine(packs: Packs, child: Id, prev: Id, arrival: Arrival, p: Id, y: Id)
    requires Tree(Links(packs)) && MarksOk(packs) && Unheard(packs, child) && prev in packs
    requires Tree(Links(Inserted(packs, child, prev, arrival)))
    ensures LineOk(Inserted(packs, child, prev, arrival), p, y)
  {
    var more := Inserted(packs, child, prev, arrival);
    if p in more && y in more && Ancestor(Links(more), y, p) && y != p {
      var q := if p == child then prev else p;
      PathAfterInsert(packs, more, child, q);
      assert Links(more)[p].prev == more[p].prev;
      assert Path(Links(more), p) == [p] + Path(Links(more), more[p].prev);
      AncestorNumber(Links(more), y, q);
      if Ancestor(Links(packs), y, q) {
        AncestorNumber(Links(packs), y, q);
      }
      assert LineOk(packs, q, y);
    }
  }

  /** Confirming a block that knows no confirmation at or above itself keeps the marks in order. */
  lemma {:induction false} ConfirmKeepsMarksOk(packs: Packs, z: Id)
    requires Tree(Links(packs)) && MarksOk(packs) && z in packs && !Settles(packs, z)
    ensures MarksOk(Confirmed(packs, z))
  {
    var marked := Confirmed(packs, z);
    forall p, y ensures LineOk(marked, p, y) {
      ConfirmLine(packs, z, p, y);
    }
    forall p | p in marked ensures HolderOk(marked, p) {
      ConfirmHolder(packs, z, p);
    }
  }

  /** What a confirmation leaves of a mark at or above its own block. */
  lemma {:induction false} ConfirmKeepsSettled(packs: Packs, z: Id, y: Id)
    requires Tree(Links(packs)) && MarksOk(packs) && z in packs && !Settles(packs, z) && y in packs && Settles(packs, y)
    ensures Settles(Confirmed(packs, z), y)
  {
    var links := Links(packs);
    SameLink(packs, Confirmed(packs, z), y);
    if y in Family(links, z) && !Ancestor(links, y, z) {
      AncestorNumber(links, z, y);
      assert LineOk(packs, y, z);
    } else if y in Family(links, z) {
      AncestorNumber(links, y, z);
    }
  }

  lemma {:induction false} ConfirmLine(packs: Packs, z: Id, p: Id, y: Id)
    requires Tree(Links(packs)) && MarksOk(packs) && z in packs && !Settles(packs, z)
    ensures LineOk(Confirmed(packs, z), p, y)
  {
    var links, marked := Links(packs), Confirmed(packs, z);
    SameLink(packs, marked, p);
    SameLink(packs, marked, y);
    if p in packs && y in packs && Ancestor(links, y, p) && marked[y].num <= marked[p].confirmedNum {
      assert LineOk(packs, p, y);
      if p in Family(links, z) {
        OnLine(links, z, p, y);
        AncestorNumber(links, y, z);
        assert y in Family(links, z);
      } else {
        ConfirmKeepsSettled(packs, z, y);
      }
    }
  }

  /** A block below `z` on the path of a relative of `z` is an ancestor of `z`. */
  lemma {:induction false} OnLine(links: map<Id, Link>, z: Id, p: Id, y: Id)
    requires Tree(links) && z in links && p in Family(links, z) && Ancestor(links, y, p)
    requires y in links && links[y].num <= links[z].num
    ensures Ancestor(links, y, z)
  {
    if Ancestor(links, p, z) {
      PathTail(links, p, z);
    } else {
      PathTail(links, z, p);
      PathNumbers(links, p);
      assert Path(links, z)[0] == z;
      InTail(links, Path(links, p), links[p].num, |Path(links, p)| - |Path(links, z)|, y);
    }
  }

  /** An entry with a number at or below that of the tail's first entry lies in the tail. */
  lemma {:induction false} InTail(links: map<Id, Link>, path: seq<Id>, top: nat, k: nat, y: Id)
    requires k < |path| && y in path
    requires forall i :: 0 <= i < |path| ==> path[i] in links && links[path[i]].num == top - i
    requires y in links && links[y].num <= links[path[k]].num
    ensures y in path[k..]
  {
    var i :| 0 <= i < |path| && path[i] == y;
    assert path[k..][i - k] == y;
  }

  lemma {:induction false} RelatedSame(links: map<Id, Link>, a: Id, b: Id)
    requires Tree(links) && Related(links, a, b) && a in links && b in links && links[a].num == links[b].num
    ensures a == b
  {
    if Ancestor(links, a, b) {
      AncestorNumber(links, a, b);
    } else {
      AncestorNumber(links, b, a);
    }
  }

  lemma {:induction false} ConfirmHolder(packs: Packs, z: Id, p: Id)
    requires Tree(Links(packs)) && MarksOk(packs) && z in packs && !Settles(packs, z) && p in packs
    ensures HolderOk(Confirmed(packs, z), p)
  {
    var links, marked := Links(packs), Confirmed(packs, z);
    assert Path(links, z)[0] == z;
    SameLink(packs, marked, z);
    if p !in Family(links, z) {
      assert HolderOk(packs, p);
      var q := packs[p].confirmedId;
      if q in packs {
        ConfirmKeepsSettled(packs, z, q);
        SameLink(packs, marked, q);
        if q in Family(links, z) && links[q].num == links[z].num {
          RelatedSame(links, q, z);
        }
      }
    }
  }

  /** Pruning keeps the marks in order. */
  lemma {:induction false} GrowKeepsMarksOk(packs: Packs, c: Id, num: nat)
    requires Tree(Links(packs)) && MarksOk(packs)
    ensures Tree(Links(Grown(packs, c, num))) && MarksOk(Grown(packs, c, num))
  {
    var kept := Grown(packs, c, num);
    GrownIsTree(packs, c, num);
    forall p, y ensures LineOk(kept, p, y) {
      assert LineOk(packs, p, y);
      if p in kept && Ancestor(Links(kept), y, p) {
        PathAmongFewer(Links(packs), Links(kept), p);
        assert Ancestor(Links(packs), y, p);
      }
    }
    forall p | p in kept ensures HolderOk(kept, p) {
      assert HolderOk(packs, p);
    }
  }

  // ---------------------------------------------------------------------
  // How far the marks reach
  // ---------------------------------------------------------------------

  ghost predicate AboveAt(packs: Packs, floor: int, id: Id)
    requires id in packs
  {
    floor <= packs[id].num
  }

  ghost predicate AllAbove(packs: Packs, floor: int) {
    forall id {:trigger AboveAt(packs, floor, id)} :: id in packs ==> AboveAt(packs, floor, id)
  }

  /** Nothing below `floor` is left, or some block knows a confirmation at or above it. */
  ghost predicate Covered(packs: Packs, floor: int) {
    AllAbove(packs, floor) || exists id :: id in packs && floor <= packs[id].confirmedNum
  }

  lemma {:induction false} ConfirmKeepsCovered(packs: Packs, base: nat, z: Id, floor: int)
    requires Sound(packs, base) && MarksOk(packs) && z in packs && !Settles(packs, z) && Covered(packs, floor)
    ensures Covered(Confirmed(packs, z), floor)
  {
    var marked := Confirmed(packs, z);
    if AllAbove(packs, floor) {
      forall id | id in marked ensures AboveAt(marked, floor, id) {
        SameLink(packs, marked, id);
        assert AboveAt(packs, floor, id);
      }
    } else {
      var p :| p in packs && floor <= packs[p].confirmedNum;
      assert PackOk(packs, base, p) && HolderOk(packs, p);
      var q := packs[p].confirmedId;
      if q in packs {
        assert PackOk(packs, base, q);
        SameLink(packs, marked, q);
        ConfirmKeepsSettled(packs, z, q);
        assert floor <= marked[q].confirmedNum;
      } else {
        assert false by {
          forall id | id in packs ensures AboveAt(packs, floor, id) {
            assert PackOk(packs, base, id);
          }
        }
      }
    }
  }

  lemma {:induction false} InsertKeepsCovered(packs: Packs, child: Id, prev: Id, arrival: Arrival, floor: int)
    requires Covered(packs, floor) && child !in packs && prev in packs
    ensures Covered(Inserted(packs, child, prev, arrival), floor)
  {
    var more := Inserted(packs, child, prev, arrival);
    if !AllAbove(packs, floor) {
      var p :| p in packs && floor <= packs[p].confirmedNum;
      assert floor <= more[p].confirmedNum;
    } else {
      forall id | id in more ensures AboveAt(more, floor, id) {
        assert AboveAt(packs, floor, if id == child then prev else id);
      }
    }
  }
}
