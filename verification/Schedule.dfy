/**
 Whose turn it is: slots, rounds and builder lists.
 */
module Schedule {
  import opened DposWindow

  const WORD32 := 0x1_0000_0000

  datatype Builder = Builder(name: Name, key: nat)

  /** A builder list with its version; a list without builders counts as empty. */
  datatype Rule = Rule(version: nat, builders: seq<Builder>)

  const NO_RULE := Rule(0, [])

  /** 32-bit addition. */
  function Add32(a: nat, b: nat): nat {
    (a + b) % WORD32
  }

  /** The slots from one time to another: none if not even one slot later, in 32-bit arithmetic. */
  function DeltaSlot(begin: nat, when: nat): nat {
    var first := Add32(begin, 1);
    if when < first then 0 else Add32(when - first, 1)
  }

  /** A time that is not later is no slot away. */
  lemma {:induction false} NotLater(begin: nat, when: nat)
    requires when <= begin && begin + 1 < WORD32
    ensures DeltaSlot(begin, when) == 0
  {
  }

  /** A later time, short of the wrap-around, is as many slots away as the stamps differ. */
  lemma {:induction false} DeltaSlotCounts(begin: nat, when: nat)
    requires begin < when < WORD32
    ensures DeltaSlot(begin, when) == when - begin
  {
    assert Add32(begin, 1) == begin + 1;
  }

  function SelectBuilder(current: Rule, next: Rule, index: nat): (b: Builder)
    requires current.builders != []
    ensures b in current.builders || b in next.builders
    ensures index < BLOCKS_PER_ROUND || next.builders == [] ==> b in current.builders
    ensures index >= BLOCKS_PER_ROUND && next.builders != [] ==> b in next.builders
  {
    if index < BLOCKS_PER_ROUND || next.builders == [] then
      current.builders[index / BLOCKS_PER_BUILDER % |current.builders|]
    else
      next.builders[index / BLOCKS_PER_BUILDER % |next.builders|]
  }

  /** The seat of the list whose turn it is. */
  function Seat(rule: Rule, index: nat): nat
    requires rule.builders != []
  {
    index / BLOCKS_PER_BUILDER % |rule.builders|
  }

  /** Within a round the turns go through the current list seat by seat, and then from the front again. */
  lemma {:induction false} TurnsGoRound(current: Rule, next: Rule, index: nat)
    requires current.builders != [] && index + 1 < BLOCKS_PER_ROUND
    ensures SelectBuilder(current, next, index) == current.builders[Seat(current, index)]
    ensures Seat(current, 0) == 0
    ensures Seat(current, index + 1) ==
            if Seat(current, index) + 1 == |current.builders| then 0 else Seat(current, index) + 1
  {
    NextRemainder(|current.builders|, index);
    RemainderOf(|current.builders|, 0, 0);
  }

  /**
   The seat for every slot number. Up to the last slot of a round it is one of the current list; after it one
   of the next list, if there is one, counted on from the same slot numbers.
   */
  lemma {:induction false} SeatOf(current: Rule, next: Rule, index: nat)
    requires current.builders != []
    ensures index < BLOCKS_PER_ROUND || next.builders == [] ==>
              SelectBuilder(current, next, index) == current.builders[index % |current.builders|]
    ensures index >= BLOCKS_PER_ROUND && next.builders != [] ==>
              SelectBuilder(current, next, index) == next.builders[index % |next.builders|]
    ensures index + 1 >= BLOCKS_PER_ROUND && next.builders != [] ==>
              SelectBuilder(current, next, index + 1) ==
              next.builders[if index % |next.builders| + 1 == |next.builders| then 0 else index % |next.builders| + 1]
  {
    if next.builders != [] {
      NextRemainder(|next.builders|, index);
    }
  }

  lemma {:induction false} NextRemainder(n: nat, i: nat)
    requires n > 0
    ensures (i + 1) % n == if i % n + 1 == n then 0 else i % n + 1
  {
    var q, r := i / n, i % n;
    assert i == n * q + r;
    if r + 1 == n {
      RemainderOf(n, q + 1, 0);
      assert n * (q + 1) == n * q + n;
    } else {
      RemainderOf(n, q, r + 1);
    }
  }

  lemma {:induction false} RemainderOf(n: nat, q: nat, r: nat)
    requires r < n
    ensures (n * q + r) % n == r
  {
    var x := n * q + r;
    var k := q - x / n;
    assert x == n * (x / n) + x % n;
    assert n * k == n * q - n * (x / n);
    if k >= 1 {
      MultiplesGrow(n, 1, k);
    } else if k <= -1 {
      MultiplesGrow(n, k, -1);
    }
  }

  lemma {:induction false} MultiplesGrow(n: int, j: int, k: int)
    requires n > 0 && j <= k
    ensures n * j <= n * k
  {
    assert n * k - n * j == n * (k - j);
  }

  // ---------------------------------------------------------------------
  // The list for the next round
  // ---------------------------------------------------------------------

  /** A registered builder; one that has withdrawn has the empty key. */
  datatype Info = Info(owner: Name, votes: nat, key: nat)

  const EMPTY_KEY := 0

  predicate SortedByName(s: seq<Builder>) {
    forall i, j :: 0 <= i < j < |s| ==> s[i].name <= s[j].name
  }

  /** The active builders among the given ones, in order. */
  function Active(infos: seq<Info>): seq<Builder> {
    if infos == [] then []
    else if infos[0].key != EMPTY_KEY then [Builder(infos[0].owner, infos[0].key)] + Active(infos[1..])
    else Active(infos[1..])
  }

  ghost predicate ByVotes(infos: seq<Info>) {
    forall i, j :: 0 <= i < j < |infos| ==> infos[i].votes >= infos[j].votes
  }

  /** The builder is the one of that position of the list by votes. */
  ghost predicate StandsFor(infos: seq<Info>, b: Builder, i: nat) {
    i < |infos| && infos[i].key != EMPTY_KEY && b == Builder(infos[i].owner, infos[i].key)
  }

  /**
   Which builders are taken: those at ascending positions, all of them active; and as long as a round is
   not full nobody active is left out. Whoever is left out comes after everybody taken.
   */
  ghost predicate Taken(infos: seq<Info>, chosen: seq<Builder>, places: seq<nat>) {
    && |places| == |chosen| <= BLOCKS_PER_ROUND
    && (forall k :: 0 <= k < |chosen| ==> StandsFor(infos, chosen[k], places[k]))
    && (forall k, l :: 0 <= k < l < |places| ==> places[k] < places[l])
    && (forall i :: 0 <= i < |infos| && infos[i].key != EMPTY_KEY && i !in places ==>
                      |chosen| == BLOCKS_PER_ROUND && forall k :: 0 <= k < |places| ==> places[k] < i)
  }

  function FirstRound(s: seq<Builder>): seq<Builder> {
    if |s| <= BLOCKS_PER_ROUND then s else s[..BLOCKS_PER_ROUND]
  }

  /** The places, from `from` on, of active builders: ascending, and none left out. */
  ghost predicate ActiveFrom(infos: seq<Info>, from: nat, active: seq<Builder>, places: seq<nat>) {
    && |places| == |active| && (forall k :: 0 <= k < |active| ==> StandsFor(infos, active[k], places[k]))
    && (forall k :: 0 <= k < |places| ==> from <= places[k])
    && (forall k, l :: 0 <= k < l < |places| ==> places[k] < places[l])
    && (forall i :: from <= i < |infos| && infos[i].key != EMPTY_KEY ==> i in places)
  }

  /** The active builders from a place on. */
  lemma {:induction false} ActivePlaces(infos: seq<Info>, from: nat) returns (places: seq<nat>)
    requires from <= |infos|
    ensures ActiveFrom(infos, from, Active(infos[from..]), places)
    decreases |infos| - from
  {
    places := [];
    if from < |infos| {
      places := ActivePlaces(infos, from + 1);
      assert infos[from..][0] == infos[from] && infos[from..][1..] == infos[from + 1..];
      if infos[from].key != EMPTY_KEY {
        OneMorePlace(infos, from, Active(infos[from + 1..]), places);
        places := [from] + places;
      }
    }
  }

  lemma {:induction false} OneMorePlace(infos: seq<Info>, from: nat, active: seq<Builder>, places: seq<nat>)
    requires from < |infos| && infos[from].key != EMPTY_KEY && ActiveFrom(infos, from + 1, active, places)
    ensures ActiveFrom(infos, from, [Builder(infos[from].owner, infos[from].key)] + active, [from] + places)
  {
    var more, all := [from] + places, [Builder(infos[from].owner, infos[from].key)] + active;
    forall k | 0 <= k < |all| ensures StandsFor(infos, all[k], more[k]) {
      assert k > 0 ==> all[k] == active[k - 1] && more[k] == places[k - 1];
    }
    forall k, l | 0 <= k < l < |more| ensures more[k] < more[l] {
      assert more[l] == places[l - 1] && (k > 0 ==> more[k] == places[k - 1]);
    }
    forall i | from <= i < |infos| && infos[i].key != EMPTY_KEY ensures i in more {
      assert i == from ==> more[0] == i;
    }
  }

  /** The builders that are taken for a round, with their places. */
  lemma {:induction false} FirstRoundTaken(infos: seq<Info>) returns (places: seq<nat>)
    ensures Taken(infos, FirstRound(Active(infos)), places)
  {
    assert infos[0..] == infos;
    var all := ActivePlaces(infos, 0);
    places := all[..|FirstRound(Active(infos))|];
    FirstAreTaken(infos, Active(infos), all);
  }

  lemma {:induction false} FirstAreTaken(infos: seq<Info>, active: seq<Builder>, all: seq<nat>)
    requires ActiveFrom(infos, 0, active, all)
    ensures Taken(infos, FirstRound(active), all[..|FirstRound(active)|])
  {
    var n := |FirstRound(active)|;
    forall i | 0 <= i < |infos| && infos[i].key != EMPTY_KEY && i !in all[..n]
      ensures n == BLOCKS_PER_ROUND && forall k :: 0 <= k < n ==> all[k] < i
    {
      assert i in all;
      var k :| 0 <= k < |all| && all[k] == i;
      assert all[..n] + all[n..] == all;
      assert k >= n;
    }
  }

  method InsertByName(s: seq<Builder>, b: Builder) returns (r: seq<Builder>)
    requires SortedByName(s)
    ensures SortedByName(r) && multiset(r) == multiset(s) + multiset{b}
  {
    var i := |s|;
    while i > 0 && b.name < s[i - 1].name
      invariant 0 <= i <= |s| && forall k :: i <= k < |s| ==> b.name < s[k].name
    {
      i := i - 1;
    }
    r := s[..i] + [b] + s[i..];
    InsertKeepsOrder(s, i, b);
    InsertAdds(s, i, b);
  }

  lemma {:induction false} InsertKeepsOrder(s: seq<Builder>, i: nat, b: Builder)
    requires SortedByName(s) && i <= |s|
    requires i > 0 ==> s[i - 1].name <= b.name
    requires i < |s| ==> b.name <= s[i].name
    ensures SortedByName(s[..i] + [b] + s[i..])
  {
    var r := s[..i] + [b] + s[i..];
    forall j, k | 0 <= j < k < |r| ensures r[j].name <= r[k].name {
      assert r[j] == if j < i then s[j] else if j == i then b else s[j - 1];
      assert r[k] == if k < i then s[k] else if k == i then b else s[k - 1];
      assert j < i - 1 ==> s[j].name <= s[i - 1].name;
      assert k - 1 > i ==> s[i].name <= s[k - 1].name;
    }
  }

  lemma {:induction false} InsertAdds(s: seq<Builder>, i: nat, b: Builder)
    requires i <= |s|
    ensures multiset(s[..i] + [b] + s[i..]) == multiset(s) + multiset{b}
  {
    assert multiset(s[..i] + s[i..]) == multiset(s[..i]) + multiset(s[i..]);
    assert s == s[..i] + s[i..];
  }

  /**
   Takes the first active builders in the order of votes, at most one round of them, and
   sorts them by name; without any active builder the system account builds alone.
   */
  method NextRound(byVotes: seq<Info>, system: Builder) returns (round: seq<Builder>)
    ensures 0 < |round| <= BLOCKS_PER_ROUND && SortedByName(round)
    ensures var chosen := FirstRound(Active(byVotes));
            multiset(round) == if chosen == [] then multiset{system} else multiset(chosen)
  {
    var chosen := Choose(byVotes);
    round := [];
    for i := 0 to |chosen|
      invariant SortedByName(round) && multiset(round) == multiset(chosen[..i])
    {
      assert chosen[..i + 1] == chosen[..i] + [chosen[i]];
      round := InsertByName(round, chosen[i]);
    }
    assert chosen[..|chosen|] == chosen;
    assert |multiset(round)| == |round| && |multiset(chosen)| == |chosen|;
    if round == [] {
      round := [system];
    }
  }

  /**
   Nobody active who is left out comes before anybody taken or has more votes; and somebody active is
   left out only if the round is full.
   */
  lemma {:induction false} NobodyBetterLeftOut(infos: seq<Info>, i: nat, b: Builder) returns (place: nat)
    requires ByVotes(infos) && i < |infos| && infos[i].key != EMPTY_KEY && b in FirstRound(Active(infos))
    ensures place < |infos| && b == Builder(infos[place].owner, infos[place].key) && infos[place].key != EMPTY_KEY
    ensures Builder(infos[i].owner, infos[i].key) !in FirstRound(Active(infos)) ==>
              && place < i && infos[place].votes >= infos[i].votes
              && |FirstRound(Active(infos))| == BLOCKS_PER_ROUND
  {
    var chosen := FirstRound(Active(infos));
    var places := FirstRoundTaken(infos);
    var k :| 0 <= k < |chosen| && chosen[k] == b;
    assert StandsFor(infos, chosen[k], places[k]);
    place := places[k];
    if Builder(infos[i].owner, infos[i].key) !in chosen {
      forall l | 0 <= l < |places| ensures places[l] != i {
        assert StandsFor(infos, chosen[l], places[l]);
      }
    }
  }

  /** The scan by votes, which stops after one round of active builders. */
  method Choose(byVotes: seq<Info>) returns (chosen: seq<Builder>)
    ensures chosen == FirstRound(Active(byVotes))
  {
    chosen := [];
    var i := 0;
    while i < |byVotes| && |chosen| < BLOCKS_PER_ROUND
      invariant 0 <= i <= |byVotes| && |chosen| <= BLOCKS_PER_ROUND
      invariant Active(byVotes) == chosen + Active(byVotes[i..])
    {
      ActiveNext(byVotes, i, chosen);
      if byVotes[i].key != EMPTY_KEY {
        chosen := chosen + [Builder(byVotes[i].owner, byVotes[i].key)];
      }
      i := i + 1;
    }
    if i == |byVotes| {
      assert Active(byVotes[i..]) == [];
    }
  }

  lemma {:induction false} ActiveNext(infos: seq<Info>, i: nat, chosen: seq<Builder>)
    requires i < |infos|
    ensures var more := if infos[i].key != EMPTY_KEY then chosen + [Builder(infos[i].owner, infos[i].key)] else chosen;
            chosen + Active(infos[i..]) == more + Active(infos[i + 1..])
  {
    assert infos[i..][0] == infos[i] && infos[i..][1..] == infos[i + 1..];
  }
}
