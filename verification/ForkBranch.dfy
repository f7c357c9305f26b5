/**
 The search for the block where two branches of the fork database part.
 */
module ForkBranch {
  import opened Optional
  import opened ForkTree

  /** The last common block, and each branch from its head down to, but without, that block. */
  datatype Branches = Branches(fork: Id, first: seq<Id>, second: seq<Id>)

  ghost predicate HaveCommonAncestor(links: map<Id, Link>, a: Id, b: Id)
    requires Tree(links)
  {
    exists c :: Ancestor(links, c, a) && Ancestor(links, c, b)
  }

  /**
   `r` splits the two paths at the deepest block they share: what lies above it is on one
   path only, and every shared block is at or below it.
   */
  ghost predicate SplitsAtFork(links: map<Id, Link>, a: Id, b: Id, r: Branches)
    requires Tree(links)
  {
    && Path(links, a) == r.first + Path(links, r.fork)
    && Path(links, b) == r.second + Path(links, r.fork)
    && r.fork in links
    && (forall c :: Ancestor(links, c, a) && Ancestor(links, c, b) ==> Ancestor(links, c, r.fork))
    && (forall c :: c in r.first ==> c !in Path(links, b))
    && (forall c :: c in r.second ==> c !in Path(links, a))
  }

  /** Walked-over blocks and the rest of a path, with nothing shared among the former. */
  ghost predicate Walked(links: map<Id, Link>, a: Id, b: Id, done: seq<Id>, at: Id)
    requires Tree(links)
  {
    && Path(links, a) == done + Path(links, at)
    && at in links
    && (forall c :: c in done ==> c !in Path(links, b))
  }

  /** Stepping over a block that is not on the other path. */
  lemma {:induction false} WalkOn(links: map<Id, Link>, a: Id, b: Id, done: seq<Id>, at: Id)
    requires Tree(links) && Walked(links, a, b, done, at) && at !in Path(links, b)
    ensures Path(links, a) == done + [at] + Path(links, links[at].prev)
    ensures links[at].prev in links ==> Walked(links, a, b, done + [at], links[at].prev)
    ensures links[at].prev !in links ==> !HaveCommonAncestor(links, a, b)
  {
    if links[at].prev !in links {
      assert Path(links, links[at].prev) == [];
      assert Path(links, a) == done + [at];
    }
  }

  /** A cursor above the other one, or level with it but different, is not on the other path. */
  lemma {:induction false} NotShared(
    links: map<Id, Link>, a: Id, b: Id, first: seq<Id>, at: Id, second: seq<Id>, other: Id)
    requires Tree(links) && Walked(links, a, b, first, at) && Walked(links, b, a, second, other)
    requires links[at].num > links[other].num || (links[at].num == links[other].num && at != other)
    ensures at !in Path(links, b)
  {
    assert Path(links, a)[|first|] == at;
    if Ancestor(links, at, other) {
      AncestorNumber(links, at, other);
    }
  }

  lemma {:induction false} Meet(links: map<Id, Link>, a: Id, b: Id, r: Branches)
    requires Tree(links) && Walked(links, a, b, r.first, r.fork) && Walked(links, b, a, r.second, r.fork)
    ensures SplitsAtFork(links, a, b, r) && HaveCommonAncestor(links, a, b)
  {
    assert Path(links, a)[|r.first|] == r.fork && Path(links, b)[|r.second|] == r.fork;
    assert Ancestor(links, r.fork, a) && Ancestor(links, r.fork, b);
  }

  /** The walk: raise the higher cursor until the numbers agree, then both until the blocks agree. */
  method FetchBranchFromFork(packs: Packs, firstId: Id, secondId: Id) returns (r: Option<Branches>)
    requires Tree(Links(packs))
    ensures r.Some? <==> HaveCommonAncestor(Links(packs), firstId, secondId)
    ensures r.Some? ==> SplitsAtFork(Links(packs), firstId, secondId, r.value)
  {
    ghost var links := Links(packs);
    if firstId !in packs || secondId !in packs {
      assert Path(links, firstId) == [] || Path(links, secondId) == [];
      return None;
    }
    var branch1, branch2 := firstId, secondId;
    var first, second := [], [];

    while packs[branch1].num > packs[branch2].num
      invariant branch2 == secondId && second == []
      invariant Walked(links, firstId, secondId, first, branch1)
      decreases packs[branch1].num
    {
      NotShared(links, firstId, secondId, first, branch1, second, branch2);
      WalkOn(links, firstId, secondId, first, branch1);
      first := first + [branch1];
      branch1 := packs[branch1].prev;
      if branch1 !in packs {
        return None;
      }
    }
    while packs[branch1].num < packs[branch2].num
      invariant branch1 in packs && branch2 in packs && packs[branch1].num <= packs[branch2].num
      invariant Walked(links, firstId, secondId, first, branch1) && Walked(links, secondId, firstId, second, branch2)
      decreases packs[branch2].num
    {
      NotShared(links, secondId, firstId, second, branch2, first, branch1);
      WalkOn(links, secondId, firstId, second, branch2);
      second := second + [branch2];
      branch2 := packs[branch2].prev;
      if branch2 !in packs {
        return None;
      }
    }
    while branch1 != branch2
      invariant branch1 in packs && branch2 in packs && packs[branch1].num == packs[branch2].num
      invariant Walked(links, firstId, secondId, first, branch1) && Walked(links, secondId, firstId, second, branch2)
      decreases packs[branch1].num
    {
      NotShared(links, firstId, secondId, first, branch1, second, branch2);
      NotShared(links, secondId, firstId, second, branch2, first, branch1);
      WalkOn(links, firstId, secondId, first, branch1);
      WalkOn(links, secondId, firstId, second, branch2);
      first, second := first + [branch1], second + [branch2];
      branch1, branch2 := packs[branch1].prev, packs[branch2].prev;
      if branch1 !in packs || branch2 !in packs {
        return None;
      }
    }
    r := Some(Branches(branch1, first, second));
    Meet(links, firstId, secondId, r.value);
  }
}
