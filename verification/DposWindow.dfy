/**
 The sliding window by which a block becomes irreversible.

 Each block carries the last blocks of the most recent runs of equal builders among its
 ancestors, and the block it makes irreversible. Both are kept up to date one block at a
 time; the reference below computes them from the whole chain of ancestors.
 */
module DposWindow {
  import BlockId

  type Id = BlockId.Id
  type Name = nat

  const BLOCKS_PER_BUILDER := 1
  const BUILDERS_PER_ROUND := 21
  const DPOS_IRREVERSIBLE_NEED := BUILDERS_PER_ROUND * 2 / 3
  const BLOCKS_PER_ROUND := BLOCKS_PER_BUILDER * BUILDERS_PER_ROUND

  datatype Brief = Brief(builder: Name, num: nat, id: Id)

  /** The window and the irreversible block a pack carries. */
  datatype Dpos = Dpos(window: seq<Brief>, num: nat, id: Id)

  function Last<T>(s: seq<T>): T
    requires s != []
  {
    s[|s| - 1]
  }

  // ---------------------------------------------------------------------
  // The reference: runs of equal builders
  // ---------------------------------------------------------------------

  /** The last block of every run of blocks by the same builder, oldest first. */
  function RunEnds(chain: seq<Brief>): seq<Brief>
    decreases |chain|
  {
    if |chain| <= 1 then chain
    else if chain[0].builder == chain[1].builder then RunEnds(chain[1..])
    else [chain[0]] + RunEnds(chain[1..])
  }

  /** The last K run ends, and the run end before them if there is one. */
  function FromEnds(ends: seq<Brief>, start: Dpos): Dpos {
    var n, k := |ends|, DPOS_IRREVERSIBLE_NEED;
    if n <= k then Dpos(ends, start.num, start.id)
    else Dpos(ends[n - k..], ends[n - k - 1].num, ends[n - k - 1].id)
  }

  /**
   What a block carries whose ancestors are `chain`, oldest first, when the ancestor before
   the chain carried an empty window and the irreversible block `start`.
   */
  function FromChain(chain: seq<Brief>, start: Dpos): Dpos {
    FromEnds(RunEnds(chain), start)
  }

  /** One more block either ends the last run later or starts a new one. */
  lemma {:induction false} RunEndsAppend(chain: seq<Brief>, b: Brief)
    ensures chain != [] ==> RunEnds(chain) != [] && Last(RunEnds(chain)) == Last(chain)
    ensures RunEnds(chain + [b]) ==
            if chain != [] && Last(chain).builder == b.builder
            then RunEnds(chain)[..|RunEnds(chain)| - 1] + [b]
            else RunEnds(chain) + [b]
    decreases |chain|
  {
    if |chain| >= 2 {
      var rest := chain[1..];
      RunEndsAppend(rest, b);
      assert (chain + [b])[1..] == rest + [b];
      assert Last(rest) == Last(chain);
      var ends := RunEnds(rest);
      if chain[0].builder == chain[1].builder {
        assert RunEnds(chain) == ends && RunEnds(chain + [b]) == RunEnds(rest + [b]);
      } else {
        assert RunEnds(chain) == [chain[0]] + ends && RunEnds(chain + [b]) == [chain[0]] + RunEnds(rest + [b]);
        assert ([chain[0]] + ends)[..|ends|] == [chain[0]] + ends[..|ends| - 1];
      }
    } else if |chain| == 1 {
      assert (chain + [b])[1..] == [b];
    }
  }

  // ---------------------------------------------------------------------
  // One block at a time
  // ---------------------------------------------------------------------

  function NextDpos(pre: Dpos, parent: Brief): Dpos {
    if pre.window == [] then pre.(window := [parent])
    else if Last(pre.window).builder == parent.builder then
      pre.(window := pre.window[|pre.window| - 1 := parent])
    else if |pre.window| < DPOS_IRREVERSIBLE_NEED then pre.(window := pre.window + [parent])
    else Dpos(pre.window[1..] + [parent], pre.window[0].num, pre.window[0].id)
  }

  lemma {:induction false} NextMovesEnd(ends: seq<Brief>, start: Dpos, b: Brief)
    requires ends != [] && Last(ends).builder == b.builder
    ensures NextDpos(FromEnds(ends, start), b) == FromEnds(ends[..|ends| - 1] + [b], start)
  {
    var next := ends[..|ends| - 1] + [b];
    assert next == ends[|ends| - 1 := b];
    var n, k := |ends|, DPOS_IRREVERSIBLE_NEED;
    if n > k {
      assert ends[n - k..][k - 1 := b] == next[n - k..];
    }
  }

  lemma {:induction false} NextAddsEnd(ends: seq<Brief>, start: Dpos, b: Brief)
    requires ends != [] ==> Last(ends).builder != b.builder
    requires start.window == []
    ensures NextDpos(FromEnds(ends, start), b) == FromEnds(ends + [b], start)
  {
    var n, k := |ends|, DPOS_IRREVERSIBLE_NEED;
    if n >= k {
      assert FromEnds(ends, start).window == ends[n - k..];
      assert ends[n - k..][1..] + [b] == (ends + [b])[n + 1 - k..];
    }
  }

  /** The incremental window is the one computed from all ancestors. */
  lemma {:induction false} NextIsFromChain(chain: seq<Brief>, start: Dpos, b: Brief)
    requires start.window == []
    ensures NextDpos(FromChain(chain, start), b) == FromChain(chain + [b], start)
  {
    RunEndsAppend(chain, b);
    if chain != [] && Last(chain).builder == b.builder {
      NextMovesEnd(RunEnds(chain), start, b);
    } else {
      NextAddsEnd(RunEnds(chain), start, b);
    }
  }

  function Grow(pre: Dpos, parents: seq<Brief>): Dpos
    decreases |parents|
  {
    if parents == [] then pre else NextDpos(Grow(pre, parents[..|parents| - 1]), Last(parents))
  }

  /** Along every chain grown from a pack with an empty window. */
  lemma {:induction false} GrowIsFromChain(start: Dpos, chain: seq<Brief>)
    requires start.window == []
    ensures Grow(start, chain) == FromChain(chain, start)
    decreases |chain|
  {
    if chain != [] {
      var n := |chain| - 1;
      GrowIsFromChain(start, chain[..n]);
      NextIsFromChain(chain[..n], start, chain[n]);
      assert chain[..n] + [chain[n]] == chain;
    }
  }

  // ---------------------------------------------------------------------
  // What follows for the window and the irreversible block
  // ---------------------------------------------------------------------

  /** Blocks are numbered consecutively. */
  ghost predicate Consecutive(chain: seq<Brief>) {
    forall i :: 0 <= i < |chain| ==> chain[i].num == chain[0].num + i
  }

  /** Numbers grow from each entry to the next. */
  ghost predicate Ascending(s: seq<Brief>) {
    forall i :: 0 <= i < |s| - 1 ==> s[i].num < s[i + 1].num
  }

  /** Each entry and the next have different builders. */
  ghost predicate Alternating(s: seq<Brief>) {
    forall i :: 0 <= i < |s| - 1 ==> s[i].builder != s[i + 1].builder
  }

  lemma {:induction false} AscendingDistance(s: seq<Brief>, i: nat, j: nat)
    requires Ascending(s) && i <= j < |s|
    ensures s[i].num + (j - i) <= s[j].num
    decreases j - i
  {
    if i < j {
      AscendingDistance(s, i, j - 1);
      assert s[j - 1].num < s[j - 1 + 1].num;
    }
  }

  /** Run ends are blocks of the chain, the first one by the first builder, the last one the last block. */
  lemma {:induction false} RunEndsMembers(chain: seq<Brief>)
    requires chain != [] && Consecutive(chain)
    ensures RunEnds(chain) != [] && RunEnds(chain)[0].builder == chain[0].builder && Last(RunEnds(chain)) == Last(chain)
    ensures forall b :: b in RunEnds(chain) ==> b in chain && b.num >= chain[0].num
    decreases |chain|
  {
    if |chain| >= 2 {
      assert chain[1].num == chain[0].num + 1;
      RunEndsMembers(chain[1..]);
      assert Last(chain[1..]) == Last(chain);
    }
  }

  lemma {:induction false} OrderCons(b: Brief, s: seq<Brief>)
    requires Ascending(s) && Alternating(s) && (s != [] ==> b.num < s[0].num && b.builder != s[0].builder)
    ensures Ascending([b] + s) && Alternating([b] + s)
  {
    var t := [b] + s;
    forall i | 0 <= i < |t| - 1 ensures t[i].num < t[i + 1].num && t[i].builder != t[i + 1].builder {
      if i > 0 {
        assert t[i] == s[i - 1] && t[i + 1] == s[i - 1 + 1];
      }
    }
  }

  lemma {:induction false} RunEndsAscend(chain: seq<Brief>)
    requires Consecutive(chain)
    ensures Ascending(RunEnds(chain)) && Alternating(RunEnds(chain))
    decreases |chain|
  {
    if |chain| >= 2 {
      assert chain[1].num == chain[0].num + 1;
      var ends := RunEnds(chain[1..]);
      RunEndsAscend(chain[1..]);
      RunEndsMembers(chain[1..]);
      assert ends[0] in ends;
      if chain[0].builder != chain[1].builder {
        OrderCons(chain[0], ends);
      }
    }
  }

  /** The window: at most K ancestors with growing numbers, neighbours by different builders, ending at the parent. */
  lemma {:induction false} WindowShape(chain: seq<Brief>, start: Dpos)
    requires chain != [] && Consecutive(chain)
    ensures var w := FromChain(chain, start).window;
            && 0 < |w| <= 14 && Last(w) == Last(chain)
            && (forall b :: b in w ==> b in chain)
            && Ascending(w) && Alternating(w)
  {
    RunEndsMembers(chain);
    RunEndsAscend(chain);
    var ends := RunEnds(chain);
    if |ends| > DPOS_IRREVERSIBLE_NEED {
      SuffixKeepsOrder(ends, |ends| - DPOS_IRREVERSIBLE_NEED);
    }
  }

  lemma {:induction false} SuffixKeepsOrder(s: seq<Brief>, k: nat)
    requires Ascending(s) && Alternating(s) && k < |s|
    ensures Ascending(s[k..]) && Alternating(s[k..]) && Last(s[k..]) == Last(s)
    ensures forall b :: b in s[k..] ==> b in s
  {
    forall i | 0 <= i < |s| - k - 1 ensures s[k..][i].num < s[k..][i + 1].num &&
                                            s[k..][i].builder != s[k..][i + 1].builder {
      assert s[k + i].num < s[k + i + 1].num && s[k + i].builder != s[k + i + 1].builder;
    }
  }

  /**
   The irreversible block is the start one, or an ancestor with at least K later run ends,
   so that it lies at least K + 1 blocks below the block that settles it.
   */
  lemma {:induction false} IrreversibleShape(chain: seq<Brief>, start: Dpos)
    requires chain != [] && Consecutive(chain)
    ensures var d := FromChain(chain, start);
            || (d.num == start.num && d.id == start.id && |RunEnds(chain)| <= 14)
            || (&& (exists b :: b in chain && b.num == d.num && b.id == d.id)
                && d.num + 14 <= Last(chain).num)
  {
    RunEndsMembers(chain);
    RunEndsAscend(chain);
    var ends := RunEnds(chain);
    if |ends| > DPOS_IRREVERSIBLE_NEED {
      var i := |ends| - DPOS_IRREVERSIBLE_NEED - 1;
      assert ends[i] in ends;
      AscendingDistance(ends, i, |ends| - 1);
    }
  }

  /** The irreversible number never decreases along a chain. */
  lemma {:induction false} IrreversibleGrows(chain: seq<Brief>, start: Dpos, b: Brief)
    requires Consecutive(chain + [b]) && start.window == []
    requires start.num <= (chain + [b])[0].num
    ensures FromChain(chain, start).num <= FromChain(chain + [b], start).num
  {
    var longer := chain + [b];
    forall i | 0 <= i < |chain| ensures chain[i].num == chain[0].num + i {
      assert longer[i] == chain[i];
    }
    RunEndsAppend(chain, b);
    RunEndsMembers(longer);
    RunEndsAscend(longer);
    EndsGrow(RunEnds(chain), RunEnds(longer), start);
  }

  lemma {:induction false} EndsGrow(ends: seq<Brief>, next: seq<Brief>, start: Dpos)
    requires Ascending(next) && forall b :: b in next ==> start.num <= b.num
    requires |ends| <= |next| && forall i :: 0 <= i < |ends| - 1 ==> next[i] == ends[i]
    ensures FromEnds(ends, start).num <= FromEnds(next, start).num
  {
    var k := DPOS_IRREVERSIBLE_NEED;
    if |next| > k {
      assert next[|next| - k - 1] in next;
      if |ends| > k {
        assert next[|ends| - k - 1] == ends[|ends| - k - 1];
        AscendingDistance(next, |ends| - k - 1, |next| - k - 1);
      }
    }
  }

  // ---------------------------------------------------------------------
  // Which block becomes irreversible
  // ---------------------------------------------------------------------

  /** How often the builder changes along a chain. */
  function Changes(chain: seq<Brief>): nat
    decreases |chain|
  {
    if |chain| <= 1 then 0 else (if chain[0].builder != chain[1].builder then 1 else 0) + Changes(chain[1..])
  }

  lemma {:induction false} RunsAreChanges(chain: seq<Brief>)
    requires chain != []
    ensures |RunEnds(chain)| == Changes(chain) + 1
    decreases |chain|
  {
    if |chain| > 1 {
      RunsAreChanges(chain[1..]);
    }
  }

  /** A run end at position `j` is a block after which the builder changes, with the later run ends after it. */
  lemma {:induction false} RunEndAt(chain: seq<Brief>, j: nat) returns (i: nat)
    requires j + 1 < |RunEnds(chain)|
    ensures i + 1 < |chain| && chain[i] == RunEnds(chain)[j] && chain[i].builder != chain[i + 1].builder
    ensures RunEnds(chain[i + 1..]) == RunEnds(chain)[j + 1..]
    decreases |chain|
  {
    var ends := RunEnds(chain);
    if chain[0].builder == chain[1].builder {
      var k := RunEndAt(chain[1..], j);
      i := k + 1;
      assert chain[1..][k + 1..] == chain[i + 1..];
    } else if j == 0 {
      i := 0;
      assert ends[1..] == RunEnds(chain[1..]);
    } else {
      assert ends[1..] == RunEnds(chain[1..]);
      var k := RunEndAt(chain[1..], j - 1);
      i := k + 1;
      assert chain[1..][k + 1..] == chain[i + 1..];
      assert ends[j + 1..] == ends[1..][j..];
    }
  }

  /**
   With fourteen changes of builder or more, the irreversible block is the last one after which exactly
   fourteen runs of equal builders follow; before that it is the one the chain started with.
   */
  lemma {:induction false} IrreversibleExactly(chain: seq<Brief>, start: Dpos) returns (i: nat)
    requires chain != []
    ensures var d := FromChain(chain, start);
            if Changes(chain) < 14 then d.num == start.num && d.id == start.id
            else
              && i + 1 < |chain| && d.num == chain[i].num && d.id == chain[i].id
              && chain[i].builder != chain[i + 1].builder && Changes(chain[i + 1..]) == 13
  {
    i := 0;
    RunsAreChanges(chain);
    if Changes(chain) >= 14 {
      i := RunEndAt(chain, |RunEnds(chain)| - 15);
      RunsAreChanges(chain[i + 1..]);
    }
  }
}
