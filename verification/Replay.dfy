/**
 What transactions and blocks mean for the content of the database, and what a stack of
 copies looks like after blocks have been undone or applied.
 */
module Replay {
  import opened Optional
  import opened SnapshotStack
  import opened Database

  /**
   What a piece of deterministic code does to the database when started on some content:
   the edits it makes, and whether it ends by throwing. An edit that does not apply
   (an unknown object) throws as well.
   */
  datatype Script<V> = Script(edits: seq<Edit<V>>, throws: bool)

  datatype Tx<!V> = Tx(script: Rows<V> -> Script<V>)

  /**
   A block: whether its signer is right by some content, its transactions, whether its header is
   the one made anew from the content before it and from which transactions succeeded, and the
   closing state update.
   */
  datatype Block<!V> = Block(
    signed: Rows<V> -> bool,
    txs: seq<Tx<V>>,
    matches: (Rows<V>, seq<bool>) -> bool,
    final: Rows<V> -> Script<V>)

  function Play<V>(edits: seq<Edit<V>>, rows: Rows<V>): Option<Rows<V>>
    decreases |edits|
  {
    if edits == [] then Some(rows)
    else if Applies(edits[0], rows) then Play(edits[1..], Apply(edits[0], rows))
    else None
  }

  function Outcome<V>(script: Script<V>, rows: Rows<V>): Option<Rows<V>> {
    if script.throws then None else Play(script.edits, rows)
  }

  /** The contents between the edits: each edit applies where it is made and leads to the next content. */
  ghost predicate Trace<V>(edits: seq<Edit<V>>, contents: seq<Rows<V>>) {
    && |contents| == |edits| + 1
    && forall i :: 0 <= i < |edits| ==>
                     Applies(edits[i], contents[i]) && contents[i + 1] == Apply(edits[i], contents[i])
  }

  /** The edits, made one after the other, apply and lead from one content to the other. */
  ghost predicate Reaches<V(!new)>(edits: seq<Edit<V>>, rows: Rows<V>, after: Rows<V>) {
    exists contents: seq<Rows<V>> :: Trace(edits, contents) && contents[0] == rows && contents[|edits|] == after
  }

  /** Every edit applies where it is made. */
  ghost predicate AllApply<V(!new)>(edits: seq<Edit<V>>, rows: Rows<V>) {
    exists contents: seq<Rows<V>> :: Trace(edits, contents) && contents[0] == rows
  }

  lemma {:induction false} PlayIsTrace<V>(edits: seq<Edit<V>>, rows: Rows<V>) returns (contents: seq<Rows<V>>)
    ensures Play(edits, rows).Some? ==>
              Trace(edits, contents) && contents[0] == rows && contents[|edits|] == Play(edits, rows).value
    decreases |edits|
  {
    contents := [rows];
    if edits != [] && Applies(edits[0], rows) {
      var rest := PlayIsTrace(edits[1..], Apply(edits[0], rows));
      contents := [rows] + rest;
      if Play(edits, rows).Some? {
        forall i | 0 <= i < |edits|
          ensures Applies(edits[i], contents[i]) && contents[i + 1] == Apply(edits[i], contents[i])
        {
          if i > 0 {
            assert edits[i] == edits[1..][i - 1] && contents[i] == rest[i - 1];
          }
        }
      }
    }
  }

  lemma {:induction false} TraceIsPlay<V>(edits: seq<Edit<V>>, contents: seq<Rows<V>>)
    requires Trace(edits, contents)
    ensures Play(edits, contents[0]) == Some(contents[|edits|])
    decreases |edits|
  {
    if edits != [] {
      forall i | 0 <= i < |edits| - 1
        ensures Applies(edits[1..][i], contents[1..][i])
        ensures contents[1..][i + 1] == Apply(edits[1..][i], contents[1..][i])
      {
        assert edits[1..][i] == edits[i + 1] && contents[1..][i] == contents[i + 1];
      }
      TraceIsPlay(edits[1..], contents[1..]);
    }
  }

  /** A script has an outcome exactly if it does not throw and every edit applies where it is made. */
  lemma {:induction false} OutcomeExactly<V(!new)>(script: Script<V>, rows: Rows<V>)
    ensures Outcome(script, rows).Some? <==> !script.throws && AllApply(script.edits, rows)
    ensures forall after :: Outcome(script, rows) == Some(after) <==>
                            !script.throws && Reaches(script.edits, rows, after)
  {
    var contents := PlayIsTrace(script.edits, rows);
    forall reached: seq<Rows<V>> | Trace(script.edits, reached) && reached[0] == rows
      ensures Play(script.edits, rows) == Some(reached[|script.edits|])
    {
      TraceIsPlay(script.edits, reached);
    }
  }

  /** A transaction takes effect completely or not at all. */
  function TxMeaning<V>(tx: Tx<V>, rows: Rows<V>): Rows<V> {
    match Outcome(tx.script(rows), rows)
    case Some(after) => after
    case None => rows
  }

  function TxsMeaning<V>(txs: seq<Tx<V>>, rows: Rows<V>): Rows<V>
    decreases |txs|
  {
    if txs == [] then rows else TxsMeaning(txs[1..], TxMeaning(txs[0], rows))
  }

  /** Which of the transactions, one after the other, succeed. */
  function Successes<V>(txs: seq<Tx<V>>, rows: Rows<V>): seq<bool>
    decreases |txs|
  {
    if txs == [] then []
    else [Outcome(txs[0].script(rows), rows).Some?] + Successes(txs[1..], TxMeaning(txs[0], rows))
  }

  /** The transactions that succeed: those that a builder puts into its block. */
  function Kept<V>(txs: seq<Tx<V>>, rows: Rows<V>): seq<Tx<V>>
    decreases |txs|
  {
    if txs == [] then []
    else
      var rest := Kept(txs[1..], TxMeaning(txs[0], rows));
      if Outcome(txs[0].script(rows), rows).Some? then [txs[0]] + rest else rest
  }

  /**
   The transactions run one after the other, each on what the ones before it left: it succeeds exactly if
   it does not throw and all its edits apply, and otherwise leaves nothing.
   */
  lemma {:induction false} TxsInOrder<V(!new)>(txs: seq<Tx<V>>, rows: Rows<V>, i: nat)
    requires i < |txs|
    ensures |Successes(txs, rows)| == |txs| && TxsMeaning(txs[..0], rows) == rows
    ensures var before, after := TxsMeaning(txs[..i], rows), TxsMeaning(txs[..i + 1], rows);
            var script := txs[i].script(before);
            && (Successes(txs, rows)[i] <==> !script.throws && AllApply(script.edits, before))
            && (if Successes(txs, rows)[i] then Reaches(script.edits, before, after) else after == before)
    decreases |txs|
  {
    var next := TxMeaning(txs[0], rows);
    SuccessCount(txs, rows);
    if i == 0 {
      assert txs[..1] == [txs[0]] && txs[..1][1..] == [];
      OutcomeExactly(txs[0].script(rows), rows);
    } else {
      TxsInOrder(txs[1..], next, i - 1);
      assert txs[..i][0] == txs[0] && txs[..i][1..] == txs[1..][..i - 1];
      assert txs[..i + 1][0] == txs[0] && txs[..i + 1][1..] == txs[1..][..i];
    }
  }

  lemma {:induction false} SuccessCount<V>(txs: seq<Tx<V>>, rows: Rows<V>)
    ensures |Successes(txs, rows)| == |txs|
    decreases |txs|
  {
    if txs != [] {
      SuccessCount(txs[1..], TxMeaning(txs[0], rows));
    }
  }

  /** Whoever applies the block finds that all its transactions succeed, and gets the builder's content. */
  lemma {:induction false} KeptApplies<V>(txs: seq<Tx<V>>, rows: Rows<V>)
    ensures TxsMeaning(Kept(txs, rows), rows) == TxsMeaning(txs, rows)
    ensures |Successes(Kept(txs, rows), rows)| == |Kept(txs, rows)|
    ensures forall i :: 0 <= i < |Kept(txs, rows)| ==> Successes(Kept(txs, rows), rows)[i]
    decreases |txs|
  {
    if txs != [] {
      var next := TxMeaning(txs[0], rows);
      KeptApplies(txs[1..], next);
      if Outcome(txs[0].script(rows), rows).Some? {
        var kept := Kept(txs, rows);
        assert kept[0] == txs[0] && kept[1..] == Kept(txs[1..], next);
      }
    }
  }

  /** The content after the transactions and the closing update, if the block is acceptable. */
  function BodyMeaning<V>(block: Block<V>, rows: Rows<V>): Option<Rows<V>> {
    var after := TxsMeaning(block.txs, rows);
    if block.matches(rows, Successes(block.txs, rows)) then Outcome(block.final(after), after) else None
  }

  /** The same for a block whose signer is looked up in the content `check`. */
  function BlockMeaning<V>(block: Block<V>, check: Rows<V>, rows: Rows<V>): Option<Rows<V>> {
    if block.signed(check) then BodyMeaning(block, rows) else None
  }

  /**
   A block applies exactly if its header matches the content before it and the transactions that
   succeed, and its closing update, made on what they leave, does not throw and applies.
   */
  lemma {:induction false} BodyExactly<V(!new)>(block: Block<V>, rows: Rows<V>)
    ensures var after := TxsMeaning(block.txs, rows);
            var script := block.final(after);
            && (BodyMeaning(block, rows).Some? <==>
                block.matches(rows, Successes(block.txs, rows)) && !script.throws && AllApply(script.edits, after))
            && (BodyMeaning(block, rows).Some? ==> Reaches(script.edits, after, BodyMeaning(block, rows).value))
  {
    var after := TxsMeaning(block.txs, rows);
    OutcomeExactly(block.final(after), after);
  }

  /**
   The signer is right by the content `check`, the header matches, and the closing update, made on what the
   transactions leave, does not throw and applies.
   */
  ghost predicate BlockApplies<V(!new)>(block: Block<V>, check: Rows<V>, rows: Rows<V>) {
    var after := TxsMeaning(block.txs, rows);
    && block.signed(check) && block.matches(rows, Successes(block.txs, rows))
    && !block.final(after).throws && AllApply(block.final(after).edits, after)
  }

  lemma {:induction false} BlockExactly<V(!new)>(block: Block<V>, check: Rows<V>, rows: Rows<V>)
    ensures BlockMeaning(block, check, rows).Some? <==> BlockApplies(block, check, rows)
  {
    BodyExactly(block, rows);
  }

  /**
   Applying blocks one after the other, without any undo log. The first signer is looked up in
   `check`, every other in the content the block is applied to.
   */
  function ReplayRows<V>(blocks: seq<Block<V>>, check: Rows<V>, rows: Rows<V>): Option<Rows<V>>
    decreases |blocks|
  {
    if blocks == [] then Some(rows)
    else match BlockMeaning(blocks[0], check, rows)
         case None => None
         case Some(after) => ReplayRows(blocks[1..], after, after)
  }

  // ---------------------------------------------------------------------
  // The same on the stack of copies
  // ---------------------------------------------------------------------

  /** One applied block: a copy of the content before it, and the content after it. */
  function Applied<S>(c: Copies<S>, after: S): Copies<S> {
    Copies(after, c.saved + [c.now], c.revision + 1)
  }

  /** Content changed inside a session: undoing the session, and keeping it. */
  lemma {:induction false} InSession<S>(c: Copies<S>, after: S)
    ensures Pop(Push(c).(now := after)) == c
    ensures Push(c).(now := after) == Applied(c, after)
    ensures c.saved != [] ==> Join(Push(c).(now := after)) == c.(now := after)
  {
    assert (c.saved + [c.now])[..|c.saved|] == c.saved;
  }

  /** Popping `k` times: one copy per step as long as there are copies. */
  function PopN<S>(c: Copies<S>, k: nat): Copies<S>
    decreases k
  {
    if k == 0 then c else PopN(Pop(c), k - 1)
  }

  /** All contents the database can be brought back to, oldest first, ending with the present one. */
  function Layers<S>(c: Copies<S>): seq<S> {
    c.saved + [c.now]
  }

  /**
   Popping `k` blocks restores the content before the oldest of them if it is still
   remembered, and otherwise the oldest content that is.
   */
  lemma {:induction false} PopNRestores<S>(c: Copies<S>, k: nat)
    ensures var d := |c.saved|;
            var kept := if k <= d then d - k else 0;
            PopN(c, k) == Copies(Layers(c)[kept], c.saved[..kept], c.revision - (d - kept))
    decreases k
  {
    if k > 0 {
      PopNRestores(Pop(c), k - 1);
      if c.saved != [] {
        PopLayers(c);
        var kept := if k <= |c.saved| then |c.saved| - k else 0;
        assert Pop(c).saved[..kept] == c.saved[..kept] && Layers(c)[kept] == c.saved[kept];
      }
    } else {
      assert c.saved[..|c.saved|] == c.saved;
    }
  }

  lemma {:induction false} PopLayers<S>(c: Copies<S>)
    requires c.saved != []
    ensures Layers(Pop(c)) == c.saved
  {
    var n := |c.saved| - 1;
    assert Layers(Pop(c)) == c.saved[..n] + [c.saved[n]];
  }

  /** Popping once more at the end is the same as at the beginning. */
  lemma {:induction false} PopNStep<S>(c: Copies<S>, k: nat)
    ensures PopN(c, k + 1) == Pop(PopN(c, k))
    decreases k
  {
    if k > 0 {
      PopNStep(Pop(c), k - 1);
    }
  }

  /** Applying blocks with a copy taken before each of them. */
  function ReplayCopies<V>(blocks: seq<Block<V>>, check: Rows<V>, c: Copies<Rows<V>>): Option<Copies<Rows<V>>>
    decreases |blocks|
  {
    if blocks == [] then Some(c)
    else match BlockMeaning(blocks[0], check, c.now)
         case None => None
         case Some(after) => ReplayCopies(blocks[1..], after, Applied(c, after))
  }

  /** The copies do not influence the result; there is one more per block, and the older ones stay. */
  lemma {:induction false} ReplayCopiesIsReplay<V>(blocks: seq<Block<V>>, check: Rows<V>, c: Copies<Rows<V>>)
    ensures ReplayCopies(blocks, check, c).Some? <==> ReplayRows(blocks, check, c.now).Some?
    ensures ReplayCopies(blocks, check, c).Some? ==>
              var r := ReplayCopies(blocks, check, c).value;
              && r.now == ReplayRows(blocks, check, c.now).value
              && r.revision == c.revision + |blocks|
              && |r.saved| == |c.saved| + |blocks|
              && r.saved[..|c.saved|] == c.saved
              && Layers(r)[|c.saved|] == c.now
    decreases |blocks|
  {
    if blocks != [] {
      match BlockMeaning(blocks[0], check, c.now)
      case None =>
      case Some(after) =>
        var next := Applied(c, after);
        ReplayCopiesIsReplay(blocks[1..], after, next);
        if ReplayCopies(blocks, check, c).Some? {
          var r := ReplayCopies(blocks, check, c).value;
          assert r.saved[..|c.saved|] == r.saved[..|next.saved|][..|c.saved|];
          assert Layers(r)[|c.saved|] == r.saved[..|next.saved|][|c.saved|];
        }
    }
  }

  /** The content in which the next signer is looked up. */
  function NextCheck<V>(blocks: seq<Block<V>>, check: Rows<V>, r: Copies<Rows<V>>): Rows<V> {
    if blocks == [] then check else r.now
  }

  lemma {:induction false} ReplayCopiesAppend<V>(
    blocks: seq<Block<V>>, block: Block<V>, check: Rows<V>, c: Copies<Rows<V>>)
    ensures ReplayCopies(blocks + [block], check, c) ==
            match ReplayCopies(blocks, check, c)
            case None => None
            case Some(r) => ReplayCopies([block], NextCheck(blocks, check, r), r)
    decreases |blocks|
  {
    if blocks == [] {
      assert [] + [block] == [block];
    } else {
      assert (blocks + [block])[1..] == blocks[1..] + [block];
      match BlockMeaning(blocks[0], check, c.now)
      case None =>
      case Some(after) => ReplayCopiesAppend(blocks[1..], block, after, Applied(c, after));
    }
  }

  // ---------------------------------------------------------------------
  // The copies agree with the chain
  // ---------------------------------------------------------------------

  /** `chain` lists blocks newest first; block k led from the copy taken before it to the one after it. */
  ghost predicate Explains<V>(chain: seq<Block<V>>, c: Copies<Rows<V>>) {
    && |c.saved| <= |chain|
    && forall k :: 0 <= k < |c.saved| ==> Leads(chain, c, k)
  }

  ghost predicate Leads<V>(chain: seq<Block<V>>, c: Copies<Rows<V>>, k: nat)
    requires k < |c.saved| <= |chain|
  {
    var d := |c.saved|;
    BodyMeaning(chain[k], c.saved[d - 1 - k]) == Some(Layers(c)[d - k])
  }

  lemma {:induction false} ApplyExplains<V>(chain: seq<Block<V>>, c: Copies<Rows<V>>, block: Block<V>, after: Rows<V>)
    requires Explains(chain, c) && BodyMeaning(block, c.now) == Some(after)
    ensures Explains([block] + chain, Applied(c, after))
  {
    var c', chain' := Applied(c, after), [block] + chain;
    forall k | 0 <= k < |c'.saved| ensures Leads(chain', c', k) {
      if k > 0 {
        assert Leads(chain, c, k - 1);
        assert chain'[k] == chain[k - 1];
      }
    }
  }

  lemma {:induction false} PopExplains<V>(chain: seq<Block<V>>, c: Copies<Rows<V>>)
    requires Explains(chain, c) && chain != []
    ensures Explains(chain[1..], Pop(c))
  {
    var c', chain' := Pop(c), chain[1..];
    forall k | 0 <= k < |c'.saved| ensures Leads(chain', c', k) {
      assert Leads(chain, c, k + 1);
      assert Layers(c')[|c'.saved| - k] == c.saved[|c'.saved| - k];
    }
  }

  lemma {:induction false} ForgetExplains<V>(chain: seq<Block<V>>, c: Copies<Rows<V>>, revision: int)
    requires Explains(chain, c)
    ensures Explains(chain, Forget(c, revision))
  {
    var c' := Forget(c, revision);
    var cut := |c.saved| - |c'.saved|;
    assert c'.saved == c.saved[cut..];
    forall k | 0 <= k < |c'.saved| ensures Leads(chain, c', k) {
      assert Leads(chain, c, k);
      assert Layers(c') == Layers(c)[cut..];
    }
  }
}
