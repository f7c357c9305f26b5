/**
 Blocks reported by the fork database go to the log, one by one and in the order of the report.
 The log takes all of them exactly if the report starts right after the head of the log.
 */
module IrreversibleLog {
  import opened Optional
  import opened LogFormat
  import opened BlockLog
  import opened ForkTree
  import opened ForkConfirm

  /** The blocks follow each other, the first of them the given one. */
  ghost predicate Continues<B>(f: Format<B>, before: B, list: seq<B>) {
    && (list != [] ==> Follows(f, list[0], before))
    && forall i :: 0 < i < |list| ==> Follows(f, list[i], list[i - 1])
  }

  /** The blocks behind stored packs: `code` writes ids as bytes, and different ids differently. */
  ghost predicate Describes<B>(f: Format<B>, packs: Packs, blocks: map<Id, B>, code: Id -> Bytes) {
    && packs.Keys <= blocks.Keys
    && (forall id :: id in packs ==>
                       f.number(blocks[id]) == packs[id].num && f.id(blocks[id]) == code(id) &&
                       f.previous(blocks[id]) == code(packs[id].prev))
    && (forall i: Id, j: Id :: code(i) == code(j) ==> i == j)
  }

  ghost function BlocksOf<B>(blocks: map<Id, B>, ids: seq<Id>): seq<B>
    requires forall i :: 0 <= i < |ids| ==> ids[i] in blocks
  {
    seq(|ids|, i requires 0 <= i < |ids| => blocks[ids[i]])
  }

  /** A report of the path to a confirmed block continues the log exactly if it starts after the log's head. */
  lemma {:induction false} ReportContinues<B>(
    f: Format<B>, packs: Packs, base: nat, blocks: map<Id, B>, code: Id -> Bytes, c: Id, head: B, headId: Id)
    requires Sound(packs, base) && Describes(f, packs, blocks, code) && c in packs && !packs[c].reported
    requires f.id(head) == code(headId) && f.number(head) == headId.num
    ensures Pending(packs, c) != [] && forall i :: 0 <= i < |Pending(packs, c)| ==> Pending(packs, c)[i] in packs
    ensures Continues(f, head, BlocksOf(blocks, Pending(packs, c))) <==> packs[Pending(packs, c)[0]].prev == headId
  {
    PendingIsChain(packs, c, base);
    var ids := Pending(packs, c);
    var list := BlocksOf(blocks, ids);
    forall i | 0 < i < |list| ensures Follows(f, list[i], list[i - 1]) {
      assert packs[ids[i - 1 + 1]].prev == ids[i - 1];
      assert PackOk(packs, base, ids[i]) && PackOk(packs, base, ids[i - 1]);
    }
    assert PackOk(packs, base, ids[0]);
  }

  /** The log after the first `n` blocks of a report have been taken. */
  ghost predicate Fed<B>(f: Format<B>, was: seq<B>, list: seq<B>, n: nat, now: seq<B>)
    requires was != []
  {
    n <= |list| && now == was + list[..n] && Continues(f, Last(was), list[..n])
  }

  lemma {:induction false} FedOneMore<B>(f: Format<B>, was: seq<B>, list: seq<B>, n: nat, now: seq<B>)
    requires was != [] && n < |list| && Fed(f, was, list, n, now) && Follows(f, list[n], Last(now))
    ensures Fed(f, was, list, n + 1, now + [list[n]])
  {
    assert list[..n + 1] == list[..n] + [list[n]];
    ContinueOne(f, Last(was), list, n);
  }

  /** Hands a report to the log. It stops at the first block the log does not take. */
  method Feed<B(!new)>(log: BlockLog<B>, list: seq<B>) returns (taken: nat)
    requires log.Valid() && log.log != [] && HashLinked(log.format, log.log)
    modifies log`blocks, log`index, log`head, log`log
    ensures log.Valid() && HashLinked(log.format, log.log) && Fed(log.format, old(log.log), list, taken, log.log)
    ensures taken < |list| ==>
              log.Broken() || !Follows(log.format, list[taken], Last(log.log)) ||
              !Room(log.format, list[taken], |log.blocks|)
  {
    ghost var was := log.log;
    taken := 0;
    while taken < |list|
      invariant taken <= |list| && log.Valid() && HashLinked(log.format, log.log)
      invariant Fed(log.format, was, list, taken, log.log)
    {
      ghost var now := log.log;
      var ok := log.OnIrreversible(list[taken]);
      if !ok {
        return;
      }
      FedOneMore(log.format, was, list, taken, now);
      taken := taken + 1;
    }
  }

  lemma {:induction false} ContinueOne<B>(f: Format<B>, before: B, list: seq<B>, n: nat)
    requires n < |list| && Continues(f, before, list[..n])
    requires Follows(f, list[n], if n == 0 then before else list[n - 1])
    ensures Continues(f, before, list[..n + 1])
  {
    var more := list[..n + 1];
    forall i | 0 < i < |more| ensures Follows(f, more[i], more[i - 1]) {
      if i < n {
        assert Follows(f, list[..n][i], list[..n][i - 1]);
      }
    }
    if n > 0 {
      assert Follows(f, list[..n][0], before);
    }
  }
}
