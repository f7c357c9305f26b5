/**
 The tree of blocks held by the fork database, as values.

 A block names its predecessor; the blocks reached by following predecessors as long
 as they are stored form its path. Numbers grow by one along every link, so paths are
 finite and a block occurs at most once on a path.
 */
module ForkTree {
  import BlockId

  type Id = BlockId.Id

  /** A stored block: its links and number, the confirmation it knows, and its flags. */
  datatype Pack = Pack(
    prev: Id,
    num: nat,
    confirmedNum: nat,
    confirmedId: Id,
    dposNum: nat,
    dposId: Id,
    reported: bool,
    mainChain: bool)

  type Packs = map<Id, Pack>

  /** The part of a block that never changes. */
  datatype Link = Link(prev: Id, num: nat)

  ghost function Links(packs: Packs): (links: map<Id, Link>)
    ensures links.Keys == packs.Keys
  {
    map id | id in packs :: Link(packs[id].prev, packs[id].num)
  }

  /** Numbers are positive and grow by one from a stored predecessor. */
  ghost predicate Tree(links: map<Id, Link>) {
    forall id :: id in links ==>
                   && links[id].num > 0
                   && (links[id].prev in links ==> links[links[id].prev].num + 1 == links[id].num)
  }

  /** Every stored block has the number its id carries, one more than its predecessor's id carries. */
  ghost predicate NumberedById(packs: Packs) {
    forall id :: id in packs ==>
                   && packs[id].num == id.num
                   && packs[id].num == packs[id].prev.num + 1
  }

  lemma {:induction false} NumberedByIdIsTree(packs: Packs)
    requires NumberedById(packs)
    ensures Tree(Links(packs))
  {
    var links := Links(packs);
    forall id | id in links
      ensures links[id].num > 0
      ensures links[id].prev in links ==> links[links[id].prev].num + 1 == links[id].num
    {
      assert packs[id].num == packs[id].prev.num + 1;
    }
  }

  /** The block and its stored ancestors, newest first. */
  ghost function Path(links: map<Id, Link>, id: Id): seq<Id>
    requires Tree(links)
    decreases if id in links then links[id].num else 0
  {
    if id !in links then [] else [id] + Path(links, links[id].prev)
  }

  /** `a` is `b` or one of its stored ancestors. */
  ghost predicate Ancestor(links: map<Id, Link>, a: Id, b: Id)
    requires Tree(links)
  {
    a in Path(links, b)
  }

  /** Along a path every block is stored and numbers count down by one. */
  lemma {:induction false} PathNumbers(links: map<Id, Link>, id: Id)
    requires Tree(links)
    ensures forall i :: 0 <= i < |Path(links, id)| ==>
                          && Path(links, id)[i] in links && id in links
                          && links[Path(links, id)[i]].num == links[id].num - i
    decreases if id in links then links[id].num else 0
  {
    if id in links {
      PathNumbers(links, links[id].prev);
    }
  }

  lemma {:induction false} AncestorNumber(links: map<Id, Link>, a: Id, b: Id)
    requires Tree(links) && Ancestor(links, a, b)
    ensures a in links && b in links && links[a].num <= links[b].num
    ensures links[a].num == links[b].num ==> a == b
  {
    PathNumbers(links, b);
    var i :| 0 <= i < |Path(links, b)| && Path(links, b)[i] == a;
  }

  /** The path of an ancestor is the tail of the path. */
  lemma {:induction false} PathTail(links: map<Id, Link>, a: Id, b: Id)
    requires Tree(links) && Ancestor(links, a, b)
    ensures |Path(links, a)| <= |Path(links, b)|
    ensures Path(links, a) == Path(links, b)[|Path(links, b)| - |Path(links, a)|..]
    decreases if b in links then links[b].num else 0
  {
    if a != b {
      PathTail(links, a, links[b].prev);
      var p := Path(links, links[b].prev);
      var k := |p| - |Path(links, a)|;
      assert Path(links, b)[k + 1..] == p[k..];
    }
  }

  /** Two ancestors of the same block with the same number are the same block. */
  lemma {:induction false} AncestorUnique(links: map<Id, Link>, a: Id, b: Id, c: Id)
    requires Tree(links) && Ancestor(links, a, c) && Ancestor(links, b, c)
    requires a in links && b in links && links[a].num == links[b].num
    ensures a == b
  {
    PathNumbers(links, c);
    var i :| 0 <= i < |Path(links, c)| && Path(links, c)[i] == a;
    var j :| 0 <= j < |Path(links, c)| && Path(links, c)[j] == b;
  }

  /** Each block of a path is followed by its predecessor. */
  lemma {:induction false} PathLinks(links: map<Id, Link>, id: Id)
    requires Tree(links)
    ensures forall i :: 0 <= i < |Path(links, id)| - 1 ==>
                          Path(links, id)[i] in links && links[Path(links, id)[i]].prev == Path(links, id)[i + 1]
    decreases if id in links then links[id].num else 0
  {
    if id in links {
      PathLinks(links, links[id].prev);
    }
  }

  // ---------------------------------------------------------------------
  // Ids of new blocks
  // ---------------------------------------------------------------------

  /** `child` is the id of a block that names `prev`: a summary with the next number put into it. */
  ghost predicate IdAfter(child: Id, prev: Id, summary: BlockId.Bits) {
    && BlockId.Fits(child) && BlockId.Fits(prev) && prev.num + 1 < BlockId.WORD32
    && BlockId.ToBits(child) == BlockId.MakeId(summary, BlockId.BlockNum(BlockId.ToBits(prev)))
  }

  lemma {:induction false} IdAfterNumber(child: Id, prev: Id, summary: BlockId.Bits)
    requires IdAfter(child, prev, summary)
    ensures child.num == prev.num + 1
  {
    BlockId.IdNumber(prev);
    BlockId.IdNumber(child);
    BlockId.ChildNumber(summary, BlockId.ToBits(prev));
  }

  // ---------------------------------------------------------------------
  // More and fewer blocks
  // ---------------------------------------------------------------------

  /** A block that nobody names as predecessor changes no path but its own. */
  lemma {:induction false} PathAfterNew(links: map<Id, Link>, more: map<Id, Link>, child: Id, id: Id)
    requires Tree(links) && Tree(more) && child !in links && id in links
    requires more.Keys == links.Keys + {child}
    requires forall k :: k in links ==> more[k] == links[k] && links[k].prev != child
    ensures Path(more, id) == Path(links, id)
    decreases links[id].num
  {
    var prev := links[id].prev;
    if prev in links {
      PathAfterNew(links, more, child, prev);
    } else {
      assert prev !in more;
    }
  }

  /** A path among some of the links is the beginning of the path among all of them. */
  lemma {:induction false} PathAmongFewer(links: map<Id, Link>, fewer: map<Id, Link>, id: Id)
    requires Tree(links) && Tree(fewer)
    requires forall k :: k in fewer ==> k in links && fewer[k] == links[k]
    ensures |Path(fewer, id)| <= |Path(links, id)|
    ensures Path(links, id)[..|Path(fewer, id)|] == Path(fewer, id)
    decreases if id in fewer then fewer[id].num else 0
  {
    if id in fewer {
      PathAmongFewer(links, fewer, links[id].prev);
    }
  }
}
