/**
 The pack of data that travels with a block, and its agreement with the database.
 */
module BlockPack {
  import opened Optional
  import opened DposWindow
  import opened Schedule

  datatype Header = Header(previous: Id, timestamp: nat, builder: Name, nextBuilders: Option<Rule>)

  datatype State = State(
    num: nat,
    id: Id,
    header: Header,
    bldInfo: Builder,
    roundSlot: nat,
    current: Rule,
    next: Rule,
    newRound: bool,
    dpos: Dpos,
    mainChain: bool)

  /** The builder lists and the slot as the database holds them. */
  datatype Config = Config(current: Rule, next: Rule, roundSlot: nat)

  // ---------------------------------------------------------------------
  // The operations as functions
  // ---------------------------------------------------------------------

  /** A pack that follows `pre` at the given time; its id is not known yet. */
  function Follow(pre: State, when: nat, mainChain: bool, id: Id): State
    requires pre.current.builders != []
  {
    var slot := Add32(pre.roundSlot, DeltaSlot(pre.header.timestamp, when));
    var b := SelectBuilder(pre.current, pre.next, slot);
    var newRound := slot >= BLOCKS_PER_ROUND;
    var moves := newRound && pre.next.builders != [];
    State(
      pre.num + 1, id, Header(pre.id, when, b.name, None), b,
      slot % BLOCKS_PER_ROUND,
      if moves then pre.next else pre.current,
      if moves then NO_RULE else pre.next,
      newRound,
      NextDpos(pre.dpos, Brief(pre.header.builder, pre.num, pre.id)),
      mainChain)
  }

  /**
   A round opens exactly if the slot runs past its end; only then, and only if a list is waiting, that list
   comes into force and nothing waits any more.
   */
  lemma {:induction false} FollowSays(pre: State, when: nat, mainChain: bool, id: Id)
    requires pre.current.builders != []
    ensures var p := Follow(pre, when, mainChain, id);
            && p.num == pre.num + 1 && p.id == id && p.mainChain == mainChain
            && p.header == Header(pre.id, when, p.bldInfo.name, None)
            && (var slot := (pre.roundSlot + DeltaSlot(pre.header.timestamp, when)) % WORD32;
                && (p.newRound <==> slot >= BLOCKS_PER_ROUND) && p.roundSlot == slot % BLOCKS_PER_ROUND
                && p.current.builders != [] && p.bldInfo == p.current.builders[slot % |p.current.builders|])
            && (p.newRound && pre.next.builders != [] ==> p.current == pre.next && p.next.builders == [])
            && (!p.newRound || pre.next.builders == [] ==> p.current == pre.current && p.next == pre.next)
  {
    SeatOf(pre.current, pre.next, (pre.roundSlot + DeltaSlot(pre.header.timestamp, when)) % WORD32);
  }

  /** The assertions made when the list for the next round is set. */
  predicate MaySetNext(p: State, rule: Rule) {
    p.current.version + 1 == rule.version && p.next.builders == []
  }

  function WithNext(p: State, rule: Rule): State {
    p.(header := p.header.(nextBuilders := Some(rule)), next := rule)
  }

  /** A new round gets a new list, numbered after the current one. */
  function WithRound(p: State, list: seq<Builder>): State {
    if p.newRound then WithNext(p, Rule(p.current.version + 1, list)) else p
  }

  /** What applying the block writes to the database. */
  function Finalised(config: Config, p: State): Config {
    if p.newRound then Config(p.current, p.next, p.roundSlot) else config.(roundSlot := p.roundSlot)
  }

  /** The builder the database names for a number of slots after the head. */
  function BlockBuilder(config: Config, delta: nat): Builder
    requires config.current.builders != []
  {
    SelectBuilder(config.current, config.next, Add32(config.roundSlot, delta))
  }

  // ---------------------------------------------------------------------
  // Agreement
  // ---------------------------------------------------------------------

  /** The database holds the lists and slot of the head, lists have builders, and the next list is the next version. */
  ghost predicate Agree(head: State, config: Config) {
    && head.current == config.current && head.next == config.next && head.roundSlot == config.roundSlot
    && head.current.builders != [] && head.next.builders != []
    && head.next.version == head.current.version + 1
    && head.roundSlot < BLOCKS_PER_ROUND
  }

  /**
   From an agreeing head, for every time: the builder in the next header is the one the
   database names, the assertions about the next list hold, and the new head agrees again.
   */
  lemma {:induction false} StepAgrees(
    head: State, config: Config, when: nat, mainChain: bool, id: Id, list: seq<Builder>)
    requires Agree(head, config) && list != []
    ensures var p := Follow(head, when, mainChain, id);
            && p.bldInfo == BlockBuilder(config, DeltaSlot(head.header.timestamp, when))
            && p.header.builder == p.bldInfo.name
            && (p.newRound ==> MaySetNext(p, Rule(p.current.version + 1, list)))
            && Agree(WithRound(p, list), Finalised(config, WithRound(p, list)))
  {
  }

  /** The first block, which opens a round and therefore sets a next list. */
  lemma {:induction false} GenesisAgrees(p: State, config: Config, list: seq<Builder>)
    requires p.newRound && p.roundSlot == 0 && p.current.builders != [] && p.next == NO_RULE && list != []
    ensures MaySetNext(p, Rule(p.current.version + 1, list))
    ensures Agree(WithRound(p, list), Finalised(config, WithRound(p, list)))
  {
  }

  /** Whatever list the pack's round is given, it may be set, and the pack then agrees with the database. */
  ghost predicate OpensRound(p: State) {
    forall list: seq<Builder>, config: Config :: list != [] ==> RoundAgrees(p, list, config)
  }

  ghost predicate RoundAgrees(p: State, list: seq<Builder>, config: Config) {
    && MaySetNext(p, Rule(p.current.version + 1, list))
    && Agree(WithRound(p, list), Finalised(config, WithRound(p, list)))
  }

  lemma {:induction false} FirstOpensRound(p: State)
    requires p.newRound && p.roundSlot == 0 && p.current.builders != [] && p.next == NO_RULE
    ensures OpensRound(p)
  {
    forall list: seq<Builder>, config: Config | list != []
      ensures RoundAgrees(p, list, config)
    {
      GenesisAgrees(p, config, list);
    }
  }

  /** The pack that the fork database makes from a block's header. */
  function FromHeader(pre: State, header: Header, id: Id): State
    requires pre.current.builders != []
  {
    var p := Follow(pre, header.timestamp, false, id);
    p.(header := header, next := if header.nextBuilders.Some? then header.nextBuilders.value else p.next)
  }

  /** From the header of a block on the same predecessor it is the builder's own pack but for the main-chain flag. */
  lemma {:induction false} ForkPackIsBuiltPack(pre: State, when: nat, id: Id, list: seq<Builder>)
    requires pre.current.builders != []
    ensures var built := WithRound(Follow(pre, when, true, id), list);
            FromHeader(pre, built.header, id) == built.(mainChain := false)
  {
  }

  // ---------------------------------------------------------------------
  // Every run of building, applying and popping blocks
  // ---------------------------------------------------------------------

  /** A head with what the database holds for it. */
  datatype Level = Level(head: State, config: Config)

  datatype Move =
    | Build(when: nat, id: Id, list: seq<Builder>)
    | Pop

  /** Chain heads with the database content of each, newest last; a switch of branches is pops followed by builds. */
  function Move1(levels: seq<Level>, move: Move): seq<Level>
    requires levels != [] && (forall l :: l in levels ==> l.head.current.builders != [])
  {
    match move
    case Pop => if |levels| == 1 then levels else levels[..|levels| - 1]
    case Build(when, id, list) =>
      var top := Last(levels);
      var p := WithRound(Follow(top.head, when, true, id), list);
      levels + [Level(p, Finalised(top.config, p))]
  }

  ghost predicate AllAgree(levels: seq<Level>) {
    levels != [] && forall l :: l in levels ==> Agree(l.head, l.config)
  }

  ghost function Moves(levels: seq<Level>, moves: seq<Move>): seq<Level>
    requires AllAgree(levels) && forall m :: m in moves && m.Build? ==> m.list != []
    ensures AllAgree(Moves(levels, moves))
    decreases |moves|
  {
    if moves == [] then levels
    else
      MoveAgrees(levels, moves[0]);
      Moves(Move1(levels, moves[0]), moves[1..])
  }

  lemma {:induction false} MoveAgrees(levels: seq<Level>, move: Move)
    requires AllAgree(levels) && (move.Build? ==> move.list != [])
    ensures AllAgree(Move1(levels, move))
  {
    match move
    case Pop =>
    case Build(when, id, list) =>
      var top := Last(levels);
      assert top in levels;
      StepAgrees(top.head, top.config, when, true, id, list);
  }

  /** In every reachable state the builder the database names for the next block is the one the next pack gets. */
  lemma {:induction false} ScheduleAgreement(levels: seq<Level>, moves: seq<Move>, when: nat, id: Id)
    requires AllAgree(levels) && forall m :: m in moves && m.Build? ==> m.list != []
    ensures var top := Last(Moves(levels, moves));
            && Agree(top.head, top.config)
            && Follow(top.head, when, true, id).bldInfo ==
               BlockBuilder(top.config, DeltaSlot(top.head.header.timestamp, when))
  {
    var top := Last(Moves(levels, moves));
    assert top in Moves(levels, moves);
    StepAgrees(top.head, top.config, when, true, id, [Builder(0, 0)]);
  }

  // ---------------------------------------------------------------------
  // The window along a chain of packs
  // ---------------------------------------------------------------------

  datatype Step = Step(when: nat, id: Id, list: seq<Builder>)

  function BriefOf(p: State): Brief {
    Brief(p.header.builder, p.num, p.id)
  }

  /** Each pack follows the one before it. */
  ghost predicate PackChain(packs: seq<State>, steps: seq<Step>) {
    && |packs| == |steps| + 1
    && forall i :: 0 <= i < |steps| ==> FollowsBy(packs[i], packs[i + 1], steps[i])
  }

  ghost predicate FollowsBy(p: State, q: State, step: Step) {
    p.current.builders != [] && q == WithRound(Follow(p, step.when, true, step.id), step.list)
  }

  /** The ancestors of the pack at position `n`, oldest first. */
  ghost function Briefs(packs: seq<State>, n: nat): (chain: seq<Brief>)
    requires n <= |packs|
    ensures |chain| == n && forall i :: 0 <= i < n ==> chain[i] == BriefOf(packs[i])
  {
    seq(n, i requires 0 <= i < n => BriefOf(packs[i]))
  }

  /** Every pack carries the window and irreversible block that the whole chain of its ancestors gives. */
  lemma {:induction false} ChainCarriesReference(packs: seq<State>, steps: seq<Step>, n: nat)
    requires PackChain(packs, steps) && packs[0].dpos.window == [] && n <= |steps|
    ensures packs[n].dpos == FromChain(Briefs(packs, n), packs[0].dpos)
    ensures Consecutive(Briefs(packs, n)) && packs[n].num == packs[0].num + n
    decreases n
  {
    if n > 0 {
      ChainCarriesReference(packs, steps, n - 1);
      assert FollowsBy(packs[n - 1], packs[n], steps[n - 1]);
      var chain := Briefs(packs, n - 1);
      NextIsFromChain(chain, packs[0].dpos, BriefOf(packs[n - 1]));
      assert Briefs(packs, n) == chain + [BriefOf(packs[n - 1])];
    }
  }

  // ---------------------------------------------------------------------
  // From one opening of a round to the next
  // ---------------------------------------------------------------------

  /** Between two openings the lists stay; at the second the list waiting since the first comes into force. */
  lemma {:induction false} WaitingBecomesCurrent(packs: seq<State>, steps: seq<Step>, i: nat, j: nat)
    requires PackChain(packs, steps) && i < j <= |steps|
    requires packs[i].next.builders != [] && forall k :: i < k < j ==> !packs[k].newRound
    ensures if packs[j].newRound then packs[j].current == packs[i].next
            else packs[j].current == packs[i].current && packs[j].next == packs[i].next
    decreases j
  {
    assert FollowsBy(packs[j - 1], packs[j], steps[j - 1]);
    if i < j - 1 {
      WaitingBecomesCurrent(packs, steps, i, j - 1);
    }
  }

  /**
   The list that is set when a round opens is numbered after the one in force, travels in the header,
   and is in force from the next opening on.
   */
  lemma {:induction false} ElectedBecomesCurrent(packs: seq<State>, steps: seq<Step>, i: nat, j: nat)
    requires PackChain(packs, steps) && 0 < i < j <= |steps| && steps[i - 1].list != []
    requires packs[i].newRound && packs[j].newRound && forall k :: i < k < j ==> !packs[k].newRound
    ensures packs[i].header.nextBuilders == Some(packs[j].current)
    ensures packs[j].current == Rule(packs[i].current.version + 1, steps[i - 1].list)
    ensures forall k :: i <= k < j ==> packs[k].current == packs[i].current
  {
    assert FollowsBy(packs[i - 1], packs[i], steps[i - 1]);
    WaitingBecomesCurrent(packs, steps, i, j);
    forall k | i <= k < j ensures packs[k].current == packs[i].current {
      if i < k {
        WaitingBecomesCurrent(packs, steps, i, k);
      }
    }
  }

  // ---------------------------------------------------------------------
  // The object
  // ---------------------------------------------------------------------

  class Pack {
    var num: nat
    var id: Id
    var header: Header
    var bldInfo: Builder
    var roundSlot: nat
    var current: Rule
    var next: Rule
    var newRound: bool
    var window: seq<Brief>
    var dposNum: nat
    var dposId: Id
    var mainChain: bool

    ghost function View(): State
      reads this
    {
      State(num, id, header, bldInfo, roundSlot, current, next, newRound, Dpos(window, dposNum, dposId), mainChain)
    }

    /** An empty pack. */
    constructor ()
      ensures window == [] && next == NO_RULE
    {
      num, id, roundSlot, newRound, mainChain := 0, BlockId.Id(0, 0, 0), 0, false, false;
      header := Header(BlockId.Id(0, 0, 0), 0, 0, None);
      bldInfo, current, next := Builder(0, 0), NO_RULE, NO_RULE;
      window, dposNum, dposId := [], 0, BlockId.Id(0, 0, 0);
    }

    /** The first pack of a chain. */
    method InitDefault(time: nat, b: Builder, rule: Rule, genesis: Id)
      requires window == [] && next == NO_RULE
      modifies this
      ensures View() == State(1, genesis, Header(BlockId.Id(0, 0, 0), time, b.name, None), b, 0, rule, NO_RULE, true,
                              Dpos([], old(dposNum), old(dposId)), true)
      ensures rule.builders != [] ==> OpensRound(View())
    {
      header := Header(BlockId.Id(0, 0, 0), time, b.name, None);
      num := header.previous.num + 1;
      id := genesis;
      bldInfo, roundSlot, current := b, 0, rule;
      mainChain, newRound := true, true;
      if rule.builders != [] {
        FirstOpensRound(View());
      }
    }

    /** Fills an empty pack as the successor of `pre`. */
    method InitByPrePack(pre: Pack, when: nat, mainchain: bool, newId: Id)
      requires pre != this && pre.current.builders != []
      requires window == [] && next == NO_RULE
      modifies this
      ensures View() == Follow(old(pre.View()), when, mainchain, newId)
      ensures num == old(pre.num) + 1 && id == newId && mainChain == mainchain
      ensures header == Header(old(pre.id), when, bldInfo.name, None)
      ensures var slot := (old(pre.roundSlot) + DeltaSlot(old(pre.header.timestamp), when)) % WORD32;
              && (newRound <==> slot >= BLOCKS_PER_ROUND) && roundSlot == slot % BLOCKS_PER_ROUND
              && current.builders != [] && bldInfo == current.builders[slot % |current.builders|]
      ensures newRound && old(pre.next).builders != [] ==> current == old(pre.next) && next.builders == []
      ensures !newRound || old(pre.next).builders == [] ==> current == old(pre.current) && next == old(pre.next)
    {
      FollowSays(pre.View(), when, mainchain, newId);
      FillFrom(pre, when, mainchain, newId);
    }

    method FillFrom(pre: Pack, when: nat, mainchain: bool, newId: Id)
      requires pre != this && pre.current.builders != []
      requires window == [] && next == NO_RULE
      modifies this
      ensures View() == Follow(old(pre.View()), when, mainchain, newId)
    {
      var delta := DeltaSlot(pre.header.timestamp, when);
      num, id := pre.num + 1, newId;
      var slot := Add32(pre.roundSlot, delta);
      bldInfo := SelectBuilder(pre.current, pre.next, slot);
      header := Header(pre.id, when, bldInfo.name, None);
      mainChain := mainchain;
      SetRound(pre, slot);
      GenerateDpos(pre);
    }

    /** Whether a round opens, the slot in it, and the lists from then on. */
    method SetRound(pre: Pack, slot: nat)
      requires pre != this && next == NO_RULE
      modifies this`roundSlot, this`newRound, this`current, this`next
      ensures newRound == (slot >= BLOCKS_PER_ROUND) && roundSlot == slot % BLOCKS_PER_ROUND
      ensures newRound && pre.next.builders != [] ==> current == pre.next && next == NO_RULE
      ensures !newRound || pre.next.builders == [] ==> current == pre.current && next == pre.next
    {
      roundSlot := slot;
      newRound := roundSlot >= BLOCKS_PER_ROUND;
      if newRound {
        if pre.next.builders != [] {
          current := pre.next;
        } else {
          current, next := pre.current, pre.next;
        }
        roundSlot := roundSlot % BLOCKS_PER_ROUND;
      } else {
        current, next := pre.current, pre.next;
      }
    }

    /** Updates the window by the predecessor and settles a block once the window is full. */
    method GenerateDpos(pre: Pack)
      requires pre != this && window == []
      modifies this`window, this`dposNum, this`dposId
      ensures Dpos(window, dposNum, dposId) ==
              NextDpos(Dpos(pre.window, pre.dposNum, pre.dposId), Brief(pre.header.builder, pre.num, pre.id))
    {
      var brief := Brief(pre.header.builder, pre.num, pre.id);
      if |pre.window| == 0 {
        dposNum, dposId := pre.dposNum, pre.dposId;
        window := window + [brief];
      } else if pre.window[|pre.window| - 1].builder == pre.header.builder {
        window := pre.window;
        dposNum, dposId := pre.dposNum, pre.dposId;
        window := window[|window| - 1 := brief];
      } else if |pre.window| < DPOS_IRREVERSIBLE_NEED {
        window := pre.window + [brief];
        dposNum, dposId := pre.dposNum, pre.dposId;
      } else {
        dposNum, dposId := pre.window[0].num, pre.window[0].id;
        window := pre.window[1..] + [brief];
      }
    }

    /** Sets the list for the next round, unless one of the two assertions about it fails. */
    method SetNextBuilders(rule: Rule) returns (ok: bool)
      modifies this`header, this`next
      ensures ok == MaySetNext(old(View()), rule)
      ensures View() == if ok then WithNext(old(View()), rule) else old(View())
      ensures ok <==> rule.version == current.version + 1 && old(next).builders == []
      ensures ok ==> next == rule && header == old(header).(nextBuilders := Some(rule)) && current == old(current)
      ensures !ok ==> next == old(next) && header == old(header) && current == old(current)
    {
      ok := current.version + 1 == rule.version && |next.builders| == 0;
      if ok {
        header := header.(nextBuilders := Some(rule));
        next := rule;
      }
    }

    /** Makes the pack of a received block that follows `pre`. */
    method InitFromBlock(pre: Pack, received: Header, blockId: Id)
      requires pre != this && pre.current.builders != [] && window == [] && next == NO_RULE
      requires received.previous == pre.id && pre.num == pre.id.num
      modifies this
      ensures View() == FromHeader(old(pre.View()), received, blockId)
    {
      InitByPrePack(pre, received.timestamp, false, blockId);
      GenerateByBlock(received, blockId);
    }

    /** Takes the header of a received block. */
    method GenerateByBlock(received: Header, blockId: Id)
      modifies this`id, this`num, this`header, this`next
      ensures View() == old(View()).(
                        num := received.previous.num + 1, id := blockId, header := received,
                        next := if received.nextBuilders.Some? then received.nextBuilders.value else old(next))
    {
      id := blockId;
      num := received.previous.num + 1;
      if received.nextBuilders.Some? {
        next := received.nextBuilders.value;
      }
      header := received;
    }
  }
}
