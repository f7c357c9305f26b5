/**
 Main tokens, locked tokens and votes under one roof.

 Every handler either fails, and then its transaction leaves nothing behind, or moves
 tokens between an account's main, locked and unlocked balances without making or losing
 any. What an account has locked is its stake in the votes.
 */
module Ledger {
  import opened Optional
  import opened Sums
  import opened Totals
  import opened Voting
  import opened VotingHandlers

  datatype Resource = Resource(locked: int, unlocked: int)

  datatype Books = Books(
    accounts: set<Name>,
    main: map<Name, int>,
    resources: map<Name, Resource>,
    votes: State)

  const NO_RESOURCE := Resource(0, 0)

  function MainOf(l: Books, i: nat): int {
    if i < LIMIT && i in l.main then l.main[i] else 0
  }

  function ResourceOf(l: Books, i: nat): Resource {
    if i < LIMIT && i in l.resources then l.resources[i] else NO_RESOURCE
  }

  // ---------------------------------------------------------------------
  // The handlers
  // ---------------------------------------------------------------------

  /** Takes an amount from one main balance and then adds it to another, which may be the same. */
  function MoveMain(main: map<Name, int>, from: Name, to: Name, amount: int): map<Name, int>
    requires from in main && to in main
  {
    var taken := main[from := main[from] - amount];
    taken[to := taken[to] + amount]
  }

  function Transfer(l: Books, from: Name, to: Name, amount: nat): Option<Books> {
    if amount > 0 && from in l.main && l.main[from] >= amount && to in l.main
    then Some(l.(main := MoveMain(l.main, from, to, amount)))
    else None
  }

  /** The gas of a transaction goes from its payer to the builder of the block. */
  function PayGas(l: Books, payer: Name, builder: Name, gas: nat): Option<Books> {
    if gas == 0 then Some(l)
    else if payer in l.main && builder in l.main && l.main[payer] >= gas
    then Some(l.(main := MoveMain(l.main, payer, builder, gas)))
    else None
  }

  function AddAccount(l: Books, creator: Name, name: Name, deposit: int): Option<Books> {
    if name !in l.accounts && deposit > 0 && creator in l.main && l.main[creator] >= deposit && name !in l.main
    then Some(l.(accounts := l.accounts + {name},
              main := l.main[creator := l.main[creator] - deposit][name := deposit]))
    else None
  }

  /** The account's proxy, if it uses one, is another account's row. */
  predicate ProxyFound(s: State, a: Name) {
    VoterOf(s, a).proxy != EMPTY_NAME ==> VoterOf(s, a).proxy in s.voters && VoterOf(s, a).proxy != a
  }

  function IncreaseVotes(s: State, a: Name, amount: int): State
    requires ProxyFound(s, a)
  {
    Adjust(s, a, amount)
  }

  /** A positive amount leaves the stake; otherwise what was being unstaked returns to it. */
  function DecreaseVotes(s: State, a: Name, amount: int): Option<State>
    requires ProxyFound(s, a)
  {
    if a !in s.voters then None
    else if amount > 0 then if amount <= s.voters[a].staked then Some(Adjust(s, a, -amount)) else None
    else
      var v := s.voters[a];
      Some(s.(voters := s.voters[a := v.(staked := v.staked + v.unstaking, unstaking := 0)]))
  }

  function Lock(l: Books, from: Name, to: Name, amount: int): Option<Books>
    requires ProxyFound(l.votes, to)
  {
    if amount > 0 && from in l.main && l.main[from] >= amount && to in l.resources
    then
      var r := l.resources[to];
      Some(l.(main := l.main[from := l.main[from] - amount],
           resources := l.resources[to := r.(locked := r.locked + amount)],
           votes := IncreaseVotes(l.votes, to, amount)))
    else None
  }

  function Unlock(l: Books, a: Name, amount: int): Option<Books>
    requires ProxyFound(l.votes, a)
  {
    if amount >= 0 && a in l.resources && l.resources[a].locked >= amount
    then
      var r := l.resources[a];
      match DecreaseVotes(l.votes, a, amount)
      case None => None
      case Some(votes) =>
        Some(l.(resources := l.resources[a := Resource(r.locked - amount, r.unlocked + amount)], votes := votes))
    else None
  }

  // ---------------------------------------------------------------------
  // What every handler keeps
  // ---------------------------------------------------------------------

  function MainTerm(main: map<Name, int>): nat -> int {
    (i: nat) => if i < LIMIT && i in main then main[i] else 0
  }

  function HeldTerm(resources: map<Name, Resource>): nat -> int {
    (i: nat) => if i < LIMIT && i in resources then resources[i].locked + resources[i].unlocked else 0
  }

  ghost function MainSum(main: map<Name, int>): int {
    Total(MainTerm(main))
  }

  ghost function HeldSum(resources: map<Name, Resource>): int {
    Total(HeldTerm(resources))
  }

  /** All tokens there are. */
  ghost function Supply(l: Books): int {
    MainSum(l.main) + HeldSum(l.resources)
  }

  ghost predicate AccountOk(l: Books, i: nat) {
    && MainOf(l, i) >= 0 && ResourceOf(l, i).locked >= 0 && ResourceOf(l, i).unlocked >= 0
    && ResourceOf(l, i).locked == VoterOf(l.votes, i).staked
  }

  /** No balance is negative, what is locked is what is staked, and the votes are in order. */
  ghost predicate BooksOk(l: Books) {
    && Inv(l.votes)
    && forall i: nat {:trigger AccountOk(l, i)} :: AccountOk(l, i)
  }

  lemma {:induction false} MainSumPut(main: map<Name, int>, i: Name, amount: int)
    ensures MainSum(main[i := amount]) == MainSum(main) + amount - if i in main then main[i] else 0
  {
    TotalChange(MainTerm(main), MainTerm(main[i := amount]), i);
  }

  lemma {:induction false} HeldSumPut(resources: map<Name, Resource>, i: Name, r: Resource)
    ensures HeldSum(resources[i := r]) == HeldSum(resources) + r.locked + r.unlocked
                                          - if i in resources then resources[i].locked + resources[i].unlocked else 0
  {
    TotalChange(HeldTerm(resources), HeldTerm(resources[i := r]), i);
  }

  lemma {:induction false} MoveMainSupply(l: Books, from: Name, to: Name, amount: int)
    requires from in l.main && to in l.main
    ensures Supply(l.(main := MoveMain(l.main, from, to, amount))) == Supply(l)
  {
    var taken := l.main[from := l.main[from] - amount];
    MainSumPut(l.main, from, l.main[from] - amount);
    MainSumPut(taken, to, taken[to] + amount);
  }

  lemma {:induction false} MoveMainAccount(l: Books, from: Name, to: Name, amount: int, i: nat)
    requires from in l.main && to in l.main && 0 <= amount <= l.main[from] && AccountOk(l, i)
    ensures AccountOk(l.(main := MoveMain(l.main, from, to, amount)), i)
  {
  }

  /** The handlers change nothing but the balances of at most two accounts, by amounts that cancel. */
  lemma {:induction false} MoveMainKeeps(l: Books, from: Name, to: Name, amount: int)
    requires BooksOk(l) && from in l.main && to in l.main && 0 <= amount <= l.main[from]
    ensures var t := l.(main := MoveMain(l.main, from, to, amount));
            BooksOk(t) && Supply(t) == Supply(l)
  {
    var t := l.(main := MoveMain(l.main, from, to, amount));
    forall i: nat ensures AccountOk(t, i) {
      assert AccountOk(l, i);
      MoveMainAccount(l, from, to, amount, i);
    }
    MoveMainSupply(l, from, to, amount);
  }

  lemma {:induction false} AddAccountSupply(l: Books, creator: Name, name: Name, deposit: int)
    requires AddAccount(l, creator, name, deposit).Some?
    ensures Supply(AddAccount(l, creator, name, deposit).value) == Supply(l)
  {
    MainSumPut(l.main, creator, l.main[creator] - deposit);
    MainSumPut(l.main[creator := l.main[creator] - deposit], name, deposit);
  }

  lemma {:induction false} AddAccountKeeps(l: Books, creator: Name, name: Name, deposit: int)
    requires BooksOk(l) && AddAccount(l, creator, name, deposit).Some?
    ensures var t := AddAccount(l, creator, name, deposit).value;
            BooksOk(t) && Supply(t) == Supply(l)
  {
    var t := AddAccount(l, creator, name, deposit).value;
    forall i: nat ensures AccountOk(t, i) {
      assert AccountOk(l, i);
    }
    AddAccountSupply(l, creator, name, deposit);
  }

  /** Adjusting the stake of one account leaves every other stake alone. */
  lemma {:induction false} AdjustStakes(s: State, a: Name, delta: int, i: nat)
    requires ProxyFound(s, a)
    ensures VoterOf(Adjust(s, a, delta), i).staked == VoterOf(s, i).staked + if i == a then delta else 0
  {
  }

  lemma {:induction false} LockSupply(l: Books, from: Name, to: Name, amount: int)
    requires ProxyFound(l.votes, to) && Lock(l, from, to, amount).Some?
    ensures Supply(Lock(l, from, to, amount).value) == Supply(l)
  {
    MainSumPut(l.main, from, l.main[from] - amount);
    HeldSumPut(l.resources, to, l.resources[to].(locked := l.resources[to].locked + amount));
  }

  lemma {:induction false} LockAccount(l: Books, from: Name, to: Name, amount: int, i: nat)
    requires ProxyFound(l.votes, to) && Lock(l, from, to, amount).Some? && AccountOk(l, i)
    ensures AccountOk(Lock(l, from, to, amount).value, i)
  {
    AdjustStakes(l.votes, to, amount, i);
  }

  lemma {:induction false} LockKeeps(l: Books, from: Name, to: Name, amount: int)
    requires BooksOk(l) && ProxyFound(l.votes, to) && Lock(l, from, to, amount).Some?
    ensures var t := Lock(l, from, to, amount).value;
            BooksOk(t) && Supply(t) == Supply(l)
  {
    assert AccountOk(l, to);
    AdjustKeepsInv(l.votes, to, amount);
    forall i: nat ensures AccountOk(Lock(l, from, to, amount).value, i) {
      assert AccountOk(l, i);
      LockAccount(l, from, to, amount, i);
    }
    LockSupply(l, from, to, amount);
  }

  lemma {:induction false} UnlockSupply(l: Books, a: Name, amount: int)
    requires ProxyFound(l.votes, a) && Unlock(l, a, amount).Some?
    ensures Supply(Unlock(l, a, amount).value) == Supply(l)
  {
    var r := l.resources[a];
    HeldSumPut(l.resources, a, Resource(r.locked - amount, r.unlocked + amount));
  }

  lemma {:induction false} UnlockAccount(l: Books, a: Name, amount: int, i: nat)
    requires ProxyFound(l.votes, a) && Unlock(l, a, amount).Some? && AccountOk(l, i) &&
             VoterOf(l.votes, a).unstaking == 0
    ensures AccountOk(Unlock(l, a, amount).value, i)
  {
    AdjustStakes(l.votes, a, -amount, i);
  }

  lemma {:induction false} UnlockVotes(s: State, a: Name, amount: int)
    requires Inv(s) && ProxyFound(s, a) && DecreaseVotes(s, a, amount).Some?
    ensures Inv(DecreaseVotes(s, a, amount).value)
  {
    assert RowOk(s, a);
    if amount > 0 {
      AdjustKeepsInv(s, a, -amount);
    } else {
      assert DecreaseVotes(s, a, amount).value.voters == s.voters;
    }
  }

  lemma {:induction false} UnlockKeeps(l: Books, a: Name, amount: int)
    requires BooksOk(l) && ProxyFound(l.votes, a) && Unlock(l, a, amount).Some?
    ensures var t := Unlock(l, a, amount).value;
            BooksOk(t) && Supply(t) == Supply(l)
  {
    UnlockVotes(l.votes, a, amount);
    assert RowOk(l.votes, a);
    forall i: nat ensures AccountOk(Unlock(l, a, amount).value, i) {
      assert AccountOk(l, i);
      UnlockAccount(l, a, amount, i);
    }
    UnlockSupply(l, a, amount);
  }

  // ---------------------------------------------------------------------
  // Every run
  // ---------------------------------------------------------------------

  /** A call of a native handler, as a message, a notification or a gas payment makes it. */
  datatype Call =
    | CallTransfer(from: Name, to: Name, amount: nat)
    | CallAddAccount(creator: Name, name: Name, deposit: int)
    | CallLock(from: Name, to: Name, locked: int)
    | CallUnlock(account: Name, unlocked: int)
    | CallPayGas(payer: Name, builder: Name, gas: nat)
    | CallVote(voter: Name, proxy: Name, list: seq<Name>)
    | CallRegProxy(account: Name)
    | CallUnregProxy(account: Name)
    | CallRegBuilder(account: Name, active: bool)
    | CallUnregBuilder(account: Name)

  function OnVotes(l: Books, votes: Option<State>): Option<Books> {
    match votes
    case None => None
    case Some(s) => Some(l.(votes := s))
  }

  /** The calls that concern the votes only. */
  ghost function VotesOutcome(s: State, call: Call): Option<State>
    requires Inv(s)
  {
    ProxiesExist(s);
    match call
    case CallVote(voter, proxy, list) => VoteBuilder(s, voter, proxy, list)
    case CallRegProxy(account) => RegProxy(s, account)
    case CallUnregProxy(account) => UnregProxy(s, account)
    case CallRegBuilder(account, active) => Some(RegBuilder(s, account, active))
    case CallUnregBuilder(account) => UnregBuilder(s, account)
    case _ => Some(s)
  }

  /** What a call comes to. */
  ghost function Outcome(l: Books, call: Call): Option<Books>
    requires BooksOk(l)
  {
    match call
    case CallTransfer(from, to, amount) => Transfer(l, from, to, amount)
    case CallAddAccount(creator, name, deposit) => AddAccount(l, creator, name, deposit)
    case CallLock(from, to, amount) => ProxyExists(l.votes, to); Lock(l, from, to, amount)
    case CallUnlock(account, amount) => ProxyExists(l.votes, account); Unlock(l, account, amount)
    case CallPayGas(payer, builder, gas) => PayGas(l, payer, builder, gas)
    case _ => OnVotes(l, VotesOutcome(l.votes, call))
  }

  /** Votes do not touch stakes. */
  lemma {:induction false} VotesKeepStakes(l: Books, votes: State)
    requires BooksOk(l) && Inv(votes)
    requires forall i: nat :: VoterOf(votes, i).staked == VoterOf(l.votes, i).staked
    ensures BooksOk(l.(votes := votes)) && Supply(l.(votes := votes)) == Supply(l)
  {
    var t := l.(votes := votes);
    forall i: nat ensures AccountOk(t, i) {
      assert AccountOk(l, i);
    }
  }

  lemma {:induction false} TokenCallKeeps(l: Books, call: Call)
    requires BooksOk(l) && Outcome(l, call).Some?
    requires call.CallTransfer? || call.CallAddAccount? || call.CallLock? || call.CallUnlock? || call.CallPayGas?
    ensures BooksOk(Outcome(l, call).value) && Supply(Outcome(l, call).value) == Supply(l)
  {
    match call
    case CallTransfer(from, to, amount) => MoveMainKeeps(l, from, to, amount);
    case CallAddAccount(creator, name, deposit) => AddAccountKeeps(l, creator, name, deposit);
    case CallLock(from, to, amount) => ProxyExists(l.votes, to); LockKeeps(l, from, to, amount);
    case CallUnlock(account, amount) => ProxyExists(l.votes, account); UnlockKeeps(l, account, amount);
    case CallPayGas(payer, builder, gas) =>
      if gas > 0 {
        MoveMainKeeps(l, payer, builder, gas);
      }
  }

  lemma {:induction false} VoteCallInv(s: State, call: Call)
    requires Inv(s) && VotesOutcome(s, call).Some?
    ensures Inv(VotesOutcome(s, call).value)
  {
    match call
    case CallVote(voter, proxy, list) => VoteKeepsInv(s, voter, proxy, list);
    case CallRegProxy(account) => ProxyFlagKeepsInv(s, account);
    case CallUnregProxy(account) => ProxyFlagKeepsInv(s, account);
    case CallRegBuilder(account, active) => RegKeepsInv(s, account, active);
    case CallUnregBuilder(account) => RegKeepsInv(s, account, true);
    case _ =>
  }

  lemma {:induction false} VoteCallStakes(s: State, call: Call, i: nat)
    requires Inv(s) && VotesOutcome(s, call).Some?
    ensures VoterOf(VotesOutcome(s, call).value, i).staked == VoterOf(s, i).staked
  {
    match call
    case CallVote(voter, proxy, list) =>
      if voter in s.voters {
        ProxiesExist(s);
        VoteStakes(s, voter, proxy, list, i);
      }
    case _ =>
  }

  lemma {:induction false} VoteStakes(s: State, a: Name, proxy: Name, list: seq<Name>, i: nat)
    requires forall i :: i in s.voters && s.voters[i].proxy != EMPTY_NAME ==> s.voters[i].proxy in s.voters
    requires VoteBuilder(s, a, proxy, list).Some?
    ensures VoterOf(VoteBuilder(s, a, proxy, list).value, i).staked == VoterOf(s, i).staked
  {
  }

  lemma {:induction false} CallKeeps(l: Books, call: Call)
    requires BooksOk(l)
    ensures Outcome(l, call).Some? ==> BooksOk(Outcome(l, call).value) && Supply(Outcome(l, call).value) == Supply(l)
  {
    if Outcome(l, call).Some? {
      if call.CallTransfer? || call.CallAddAccount? || call.CallLock? || call.CallUnlock? || call.CallPayGas? {
        TokenCallKeeps(l, call);
      } else {
        VoteCallInv(l.votes, call);
        forall i: nat ensures VoterOf(VotesOutcome(l.votes, call).value, i).staked == VoterOf(l.votes, i).staked {
          VoteCallStakes(l.votes, call, i);
        }
        VotesKeepStakes(l, VotesOutcome(l.votes, call).value);
      }
    }
  }

  /** The books after a list of calls; a failed call changes nothing. */
  ghost function After(l: Books, calls: seq<Call>): (t: Books)
    requires BooksOk(l)
    ensures BooksOk(t) && Supply(t) == Supply(l)
    decreases |calls|
  {
    if calls == [] then l
    else
      CallKeeps(l, calls[0]);
      match Outcome(l, calls[0])
      case None => After(l, calls[1..])
      case Some(next) => After(next, calls[1..])
  }

  /**
   After every run of handler calls: no balance is negative or above the constant supply,
   locked tokens are stakes, and every builder's total is the stake that supports it.
   */
  lemma {:induction false} EveryRun(l: Books, calls: seq<Call>, i: Name, b: Name)
    requires BooksOk(l)
    ensures var t := After(l, calls);
            && Supply(t) == Supply(l)
            && 0 <= MainOf(t, i) <= Supply(l)
            && 0 <= ResourceOf(t, i).locked == VoterOf(t.votes, i).staked <= Supply(l)
            && (b in t.votes.builders ==> t.votes.builders[b].votes == Total(StakeFor(t.votes, b)))
            && (b in t.votes.builders ==> 0 <= t.votes.builders[b].votes <= Supply(l))
  {
    var t := After(l, calls);
    forall k: nat ensures MainTerm(t.main)(k) >= 0 && HeldTerm(t.resources)(k) >= 0 {
      assert AccountOk(t, k);
    }
    TermAtMostTotal(MainTerm(t.main), i);
    TermAtMostTotal(HeldTerm(t.resources), i);
    assert AccountOk(t, i);
    if b in t.votes.builders {
      TotalIsSupport(t.votes, b);
      StakesAreHeld(t, b);
    }
  }

  /** The books a chain starts with: one account with all the tokens. */
  function Genesis(system: Name, supply: nat): Books {
    Books({system}, map[system := supply], map[], State(map[], map[]))
  }

  lemma {:induction false} GenesisOk(system: Name, supply: nat)
    ensures BooksOk(Genesis(system, supply)) && Supply(Genesis(system, supply)) == supply
  {
    var l := Genesis(system, supply);
    forall i: nat ensures AccountOk(l, i) {
    }
    NothingHeld();
    MainSumPut(map[], system, supply);
    assert map[][system := supply] == l.main;
  }

  lemma {:induction false} NothingHeld()
    ensures MainSum(map[]) == 0 && HeldSum(map[]) == 0
  {
    var zero := (i: nat) => 0;
    TotalIsSum(zero);
    SumZero(LIMIT, zero);
    TotalSame(MainTerm(map[]), zero);
    TotalSame(HeldTerm(map[]), zero);
  }

  /** After every run of calls from there, no account has more than there was at the start. */
  lemma {:induction false} FromGenesis(system: Name, supply: nat, calls: seq<Call>, i: Name)
    ensures BooksOk(Genesis(system, supply))
    ensures var t := After(Genesis(system, supply), calls);
            && BooksOk(t) && Supply(t) == supply && 0 <= MainOf(t, i) <= supply
  {
    GenesisOk(system, supply);
    EveryRun(Genesis(system, supply), calls, i, system);
  }

  lemma {:induction false} StakesAreHeld(t: Books, b: Name)
    requires BooksOk(t) && b in t.votes.builders
    ensures 0 <= t.votes.builders[b].votes <= HeldSum(t.resources)
  {
    TotalsBounded(t.votes, b);
    forall k: nat ensures StakeOf(t.votes)(k) <= HeldTerm(t.resources)(k) {
      assert AccountOk(t, k);
    }
    TotalAtMost(StakeOf(t.votes), HeldTerm(t.resources));
    TotalIsSum(HeldTerm(t.resources));
  }

  // ---------------------------------------------------------------------
  // Account by account
  // ---------------------------------------------------------------------

  /** The stake of `a` changes by `delta`, and with it every total that `a` supports; nobody's choice changes. */
  ghost predicate StakeChanged(s: State, t: State, a: Name, delta: int) {
    && a in t.voters && t.voters[a].staked == VoterOf(s, a).staked + delta
    && t.voters[a].proxy == VoterOf(s, a).proxy && t.voters[a].builders == VoterOf(s, a).builders
    && t.voters[a].isProxy == VoterOf(s, a).isProxy
    && (forall i :: i != a ==> SameVoter(s, t, i)) && SameBuilders(s, t)
    && forall b :: b in s.builders ==>
                     t.builders[b].votes == s.builders[b].votes +
                     if b in Supported(s, VoterOf(s, a)) then delta else 0
  }

  lemma {:induction false} IncreaseSays(s: State, a: Name, amount: int)
    requires Inv(s) && ProxyFound(s, a)
    ensures StakeChanged(s, IncreaseVotes(s, a, amount), a, amount)
  {
    if a in s.voters {
      assert RowOk(s, a);
    }
  }

  lemma {:induction false} DecreaseSays(s: State, a: Name, amount: int)
    requires Inv(s) && ProxyFound(s, a)
    ensures DecreaseVotes(s, a, amount).Some? <==> a in s.voters && (amount > 0 ==> amount <= s.voters[a].staked)
    ensures DecreaseVotes(s, a, amount).Some? && amount > 0 ==>
              StakeChanged(s, DecreaseVotes(s, a, amount).value, a, -amount)
    ensures DecreaseVotes(s, a, amount).Some? && amount <= 0 ==> DecreaseVotes(s, a, amount).value == s
  {
    if a in s.voters {
      assert RowOk(s, a);
      assert s.voters[a := s.voters[a]] == s.voters;
    }
  }

  /** The amount leaves one balance and reaches the other, which may be the same; no other changes. */
  ghost predicate Paid(main: map<Name, int>, after: map<Name, int>, from: Name, to: Name, amount: int) {
    && after.Keys == main.Keys
    && forall i :: i in main ==>
                     after[i] == main[i] - (if i == from then amount else 0) + if i == to then amount else 0
  }

  lemma {:induction false} PaymentSays(l: Books, from: Name, to: Name, amount: nat)
    ensures Transfer(l, from, to, amount).Some? <==>
            amount > 0 && from in l.main && to in l.main && l.main[from] >= amount
    ensures PayGas(l, from, to, amount).Some? <==>
            amount == 0 || (from in l.main && to in l.main && l.main[from] >= amount)
    ensures Transfer(l, from, to, amount).Some? ==>
              var t := Transfer(l, from, to, amount).value;
              t == l.(main := t.main) && Paid(l.main, t.main, from, to, amount)
    ensures PayGas(l, from, to, amount).Some? ==>
              var t := PayGas(l, from, to, amount).value;
              t == l.(main := t.main) && Paid(l.main, t.main, from, to, amount)
  {
  }

  /** The creator pays the deposit, with which the new account starts. */
  lemma {:induction false} AddAccountSays(l: Books, creator: Name, name: Name, deposit: int)
    ensures AddAccount(l, creator, name, deposit).Some? <==>
            name !in l.accounts && name !in l.main && deposit > 0 && creator in l.main && l.main[creator] >= deposit
    ensures AddAccount(l, creator, name, deposit).Some? ==>
              var t := AddAccount(l, creator, name, deposit).value;
              && t == l.(accounts := l.accounts + {name}, main := t.main)
              && t.main.Keys == l.main.Keys + {name} && t.main[name] == deposit
              && forall i :: i in l.main ==> t.main[i] == l.main[i] - if i == creator then deposit else 0
  {
  }

  /** One account pays; the other has that much more locked and at stake. */
  lemma {:induction false} LockSays(l: Books, from: Name, to: Name, amount: int)
    requires Inv(l.votes) && ProxyFound(l.votes, to)
    ensures Lock(l, from, to, amount).Some? <==>
            amount > 0 && from in l.main && l.main[from] >= amount && to in l.resources
    ensures Lock(l, from, to, amount).Some? ==>
              var t := Lock(l, from, to, amount).value;
              && t.accounts == l.accounts && t.main.Keys == l.main.Keys && t.resources.Keys == l.resources.Keys
              && (forall i :: i in l.main ==> t.main[i] == l.main[i] - if i == from then amount else 0)
              && (forall i :: i in l.resources && i != to ==> t.resources[i] == l.resources[i])
              && t.resources[to] == Resource(l.resources[to].locked + amount, l.resources[to].unlocked)
              && StakeChanged(l.votes, t.votes, to, amount)
  {
    IncreaseSays(l.votes, to, amount);
  }

  /** What is locked and at stake becomes unlocked. */
  lemma {:induction false} UnlockSays(l: Books, a: Name, amount: int)
    requires Inv(l.votes) && ProxyFound(l.votes, a)
    ensures Unlock(l, a, amount).Some? <==>
            && amount >= 0 && a in l.resources && l.resources[a].locked >= amount
            && a in l.votes.voters && (amount > 0 ==> l.votes.voters[a].staked >= amount)
    ensures Unlock(l, a, amount).Some? ==>
              var t := Unlock(l, a, amount).value;
              && t.accounts == l.accounts && t.main == l.main && t.resources.Keys == l.resources.Keys
              && (forall i :: i in l.resources && i != a ==> t.resources[i] == l.resources[i])
              && t.resources[a] == Resource(l.resources[a].locked - amount, l.resources[a].unlocked + amount)
              && (if amount > 0 then StakeChanged(l.votes, t.votes, a, -amount) else t.votes == l.votes)
  {
    DecreaseSays(l.votes, a, amount);
  }
}
