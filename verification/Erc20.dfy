/**
 Tokens issued by accounts: supply, balances, the end of minting and revocation.

 The running supply of a token is the sum of its balances in every reachable state. The
 flags are one-way: a token whose minting has stopped keeps its supply, and a revoked
 token keeps every balance too.
 */
module Erc20 {
  import opened Optional
  import opened Totals

  type Symbol = Name

  const MAX_SHARE: int := 0x7fff_ffff_ffff_ffff
  const MIN_SHARE: int := -0x8000_0000_0000_0000

  datatype Token = Token(owner: Name, supply: int, stopmint: bool, revoked: bool)

  datatype Market = Market(
    accounts: set<Name>,
    tokens: map<Symbol, Token>,
    balances: map<(Symbol, Name), int>)

  /** Checked addition of 64-bit shares: the sum must not be less than the first operand. */
  function SafeAdd(a: int, b: int): Option<int> {
    if a <= a + b <= MAX_SHARE then Some(a + b) else None
  }

  /** Checked subtraction: the second operand must not be more than the first. */
  function SafeSub(a: int, b: int): Option<int> {
    if b <= a && a - b <= MAX_SHARE then Some(a - b) else None
  }

  // ---------------------------------------------------------------------
  // The handlers
  // ---------------------------------------------------------------------

  function AddToken(m: Market, creator: Name, t: Symbol, account: Name, total: int): Option<Market> {
    if account !in m.accounts && t !in m.tokens && (t, creator) !in m.balances
    then Some(Market(m.accounts + {account}, m.tokens[t := Token(creator, total, false, false)],
                     m.balances[(t, creator) := total]))
    else None
  }

  function Mint(m: Market, t: Symbol, amount: int): Option<Market> {
    if t in m.tokens && !m.tokens[t].revoked && !m.tokens[t].stopmint && (t, m.tokens[t].owner) in m.balances then
      var token := m.tokens[t];
      var balance, supply := SafeAdd(m.balances[(t, token.owner)], amount), SafeAdd(token.supply, amount);
      if balance.Some? && supply.Some?
      then Some(m.(tokens := m.tokens[t := token.(supply := supply.value)],
                balances := m.balances[(t, token.owner) := balance.value]))
      else None
    else None
  }

  function StopMint(m: Market, t: Symbol): Option<Market> {
    if t in m.tokens && !m.tokens[t].revoked && !m.tokens[t].stopmint
    then Some(m.(tokens := m.tokens[t := m.tokens[t].(stopmint := true)]))
    else None
  }

  function Revoke(m: Market, t: Symbol): Option<Market> {
    if t in m.tokens && !m.tokens[t].revoked
    then Some(m.(tokens := m.tokens[t := m.tokens[t].(revoked := true)]))
    else None
  }

  /** The rows with one for the receiver. */
  function Opened(m: Market, t: Symbol, to: Name): map<(Symbol, Name), int> {
    if (t, to) in m.balances then m.balances else m.balances[(t, to) := 0]
  }

  /** The sender must keep something: the balance has to be more than the value sent. */
  function TransferFrom(m: Market, t: Symbol, from: Name, to: Name, value: int): Option<Market> {
    if t in m.tokens && !m.tokens[t].revoked && (t, from) in m.balances then
      var rows := Opened(m, t, to);
      var left := SafeSub(rows[(t, from)], value);
      if rows[(t, from)] > value && left.Some? then
        var taken := rows[(t, from) := left.value];
        var more := SafeAdd(taken[(t, to)], value);
        if more.Some? then Some(m.(balances := taken[(t, to) := more.value])) else None
      else None
    else None
  }

  // ---------------------------------------------------------------------
  // Supply and balances
  // ---------------------------------------------------------------------

  function BalanceOf(m: Market, t: Symbol, i: nat): int {
    if i < LIMIT && (t, i) in m.balances then m.balances[(t, i)] else 0
  }

  function BalanceTerm(m: Market, t: Symbol): nat -> int {
    (i: nat) => BalanceOf(m, t, i)
  }

  /** The sum of all balances of a token. */
  ghost function Held(m: Market, t: Symbol): int {
    Total(BalanceTerm(m, t))
  }

  ghost predicate TokenOk(m: Market, t: Symbol)
    requires t in m.tokens
  {
    m.tokens[t].supply == Held(m, t) && (t, m.tokens[t].owner) in m.balances
  }

  /** What every reachable state satisfies. */
  ghost predicate MarketOk(m: Market) {
    && (forall t {:trigger TokenOk(m, t)} :: t in m.tokens ==> TokenOk(m, t))
    && (forall t: Symbol, i: Name :: (t, i) in m.balances ==> t in m.tokens)
  }

  lemma {:induction false} HeldSame(m: Market, n: Market, t: Symbol)
    requires forall i: nat :: BalanceOf(n, t, i) == BalanceOf(m, t, i)
    ensures Held(n, t) == Held(m, t)
  {
    TotalChange(BalanceTerm(m, t), BalanceTerm(n, t), EMPTY_NAME);
  }

  lemma {:induction false} HeldChange(m: Market, n: Market, t: Symbol, k: Name)
    requires forall i: nat :: i != k ==> BalanceOf(n, t, i) == BalanceOf(m, t, i)
    ensures Held(n, t) == Held(m, t) + BalanceOf(n, t, k) - BalanceOf(m, t, k)
  {
    TotalChange(BalanceTerm(m, t), BalanceTerm(n, t), k);
  }

  lemma {:induction false} HeldNothing(m: Market, t: Symbol)
    requires MarketOk(m) && t !in m.tokens
    ensures Held(m, t) == 0
  {
    TotalZero(BalanceTerm(m, t));
  }

  lemma {:induction false} TransferKeepsHeld(m: Market, t: Symbol, from: Name, to: Name, value: int, u: Symbol)
    requires TransferFrom(m, t, from, to, value).Some?
    ensures Held(TransferFrom(m, t, from, to, value).value, u) == Held(m, u)
  {
    var n := TransferFrom(m, t, from, to, value).value;
    if u != t {
      HeldSame(m, n, u);
    } else {
      var rows := Opened(m, t, to);
      var middle := m.(balances := rows[(t, from) := rows[(t, from)] - value]);
      HeldChange(m, middle, t, from);
      HeldChange(middle, n, t, to);
    }
  }

  // ---------------------------------------------------------------------
  // Every run
  // ---------------------------------------------------------------------

  datatype Call =
    | CallAdd(creator: Name, symbol: Symbol, account: Name, total: int)
    | CallMint(symbol: Symbol, amount: int)
    | CallStopMint(symbol: Symbol)
    | CallRevoke(symbol: Symbol)
    | CallTransfer(symbol: Symbol, from: Name, to: Name, value: int)

  function Outcome(m: Market, call: Call): Option<Market> {
    match call
    case CallAdd(creator, t, account, total) => AddToken(m, creator, t, account, total)
    case CallMint(t, amount) => Mint(m, t, amount)
    case CallStopMint(t) => StopMint(m, t)
    case CallRevoke(t) => Revoke(m, t)
    case CallTransfer(t, from, to, value) => TransferFrom(m, t, from, to, value)
  }

  /** A failed call leaves everything as it was. */
  function Step(m: Market, call: Call): Market {
    match Outcome(m, call)
    case None => m
    case Some(n) => n
  }

  function After(m: Market, calls: seq<Call>): Market
    decreases |calls|
  {
    if calls == [] then m else After(Step(m, calls[0]), calls[1..])
  }

  lemma {:induction false} TokenStep(m: Market, call: Call, u: Symbol)
    requires MarketOk(m) && u in Step(m, call).tokens
    ensures TokenOk(Step(m, call), u)
  {
    var n := Step(m, call);
    assert u in m.tokens ==> TokenOk(m, u);
    match call
    case CallAdd(creator, t, account, total) =>
      if u !in m.tokens {
        HeldNothing(m, u);
      }
      HeldChange(m, n, u, creator);
    case CallMint(t, amount) =>
      if Outcome(m, call).Some? {
        HeldChange(m, n, u, m.tokens[t].owner);
      }
    case CallStopMint(t) => HeldSame(m, n, u);
    case CallRevoke(t) => HeldSame(m, n, u);
    case CallTransfer(t, from, to, value) =>
      if Outcome(m, call).Some? {
        TransferKeepsHeld(m, t, from, to, value, u);
      }
  }

  lemma {:induction false} StepKeepsOk(m: Market, call: Call)
    requires MarketOk(m)
    ensures MarketOk(Step(m, call))
  {
    var n := Step(m, call);
    forall t | t in n.tokens ensures TokenOk(n, t) {
      TokenStep(m, call, t);
    }
  }

  /** What a call may do to a token that is there. */
  ghost predicate Allowed(m: Market, n: Market, t: Symbol)
    requires t in m.tokens
  {
    && t in n.tokens && n.tokens[t].owner == m.tokens[t].owner
    && (m.tokens[t].stopmint ==> n.tokens[t].stopmint && n.tokens[t].supply == m.tokens[t].supply)
    && (m.tokens[t].revoked ==>
          n.tokens[t] == m.tokens[t] && forall i: Name :: ((t, i) in n.balances) == ((t, i) in m.balances))
    && n.tokens[t].supply >= m.tokens[t].supply
    && (forall i: Name :: (t, i) in m.balances ==>
                            && (t, i) in n.balances
                            && (m.tokens[t].revoked ==> n.balances[(t, i)] == m.balances[(t, i)])
                            && (m.balances[(t, i)] > 0 ==> n.balances[(t, i)] > 0))
  }

  lemma {:induction false} StepAllowed(m: Market, call: Call, t: Symbol)
    requires MarketOk(m) && t in m.tokens
    ensures Allowed(m, Step(m, call), t)
  {
    assert TokenOk(m, t);
  }

  /** From a market in order: one in order, in which nothing happened to a token that is not allowed. */
  ghost predicate Lawful(m: Market, n: Market) {
    MarketOk(m) ==> MarketOk(n) && forall t {:trigger Allowed(m, n, t)} :: t in m.tokens ==> Allowed(m, n, t)
  }

  lemma {:induction false} StepLawful(m: Market, call: Call)
    ensures Lawful(m, Step(m, call))
  {
    if MarketOk(m) {
      StepKeepsOk(m, call);
      forall t | t in m.tokens ensures Allowed(m, Step(m, call), t) {
        StepAllowed(m, call, t);
      }
    }
  }

  /**
   After every run of calls a token's supply is the sum of its balances; supply never
   shrinks, is frozen once minting has stopped, and a revoked token is frozen altogether.
   An account that ever has a positive balance keeps one, as a transfer cannot empty it.
   */
  lemma {:induction false} EveryRun(m: Market, calls: seq<Call>, t: Symbol)
    requires MarketOk(m) && t in m.tokens
    ensures MarketOk(After(m, calls)) && Allowed(m, After(m, calls), t)
    ensures After(m, calls).tokens[t].supply == Held(After(m, calls), t)
    decreases |calls|
  {
    if calls == [] {
      assert TokenOk(m, t);
    } else {
      var n := Step(m, calls[0]);
      StepKeepsOk(m, calls[0]);
      StepAllowed(m, calls[0], t);
      EveryRun(n, calls[1..], t);
    }
  }

  // ---------------------------------------------------------------------
  // Negative balances
  // ---------------------------------------------------------------------

  ghost predicate NonNegative(m: Market, t: Symbol) {
    forall i: Name :: (t, i) in m.balances ==> m.balances[(t, i)] >= 0
  }

  /** The total a token is created with is not checked: it decides whether balances can be negative. */
  lemma {:induction false} CreatedNonNegative(m: Market, creator: Name, t: Symbol, account: Name, total: int)
    requires MarketOk(m) && AddToken(m, creator, t, account, total).Some?
    ensures NonNegative(AddToken(m, creator, t, account, total).value, t) <==> total >= 0
  {
    var n := AddToken(m, creator, t, account, total).value;
    assert n.balances[(t, creator)] == total;
  }

  lemma {:induction false} StaysNonNegative(m: Market, calls: seq<Call>, t: Symbol)
    requires MarketOk(m) && t in m.tokens && NonNegative(m, t)
    ensures NonNegative(After(m, calls), t)
    decreases |calls|
  {
    if calls != [] {
      StepKeepsOk(m, calls[0]);
      StepAllowed(m, calls[0], t);
      StaysNonNegative(Step(m, calls[0]), calls[1..], t);
    }
  }

  /** Before the first token, whatever accounts there are. */
  function NoTokens(accounts: set<Name>): Market {
    Market(accounts, map[], map[])
  }

  lemma {:induction false} RunKeepsOk(m: Market, calls: seq<Call>)
    requires MarketOk(m)
    ensures MarketOk(After(m, calls))
    decreases |calls|
  {
    if calls != [] {
      StepKeepsOk(m, calls[0]);
      RunKeepsOk(Step(m, calls[0]), calls[1..]);
    }
  }

  /** So every token a run of calls ever creates has the sum of its balances as its supply. */
  lemma {:induction false} FromNothing(accounts: set<Name>, calls: seq<Call>, t: Symbol)
    ensures MarketOk(NoTokens(accounts))
    ensures var m := After(NoTokens(accounts), calls);
            MarketOk(m) && (t in m.tokens ==> m.tokens[t].supply == Held(m, t))
  {
    RunKeepsOk(NoTokens(accounts), calls);
    assert t in After(NoTokens(accounts), calls).tokens ==> TokenOk(After(NoTokens(accounts), calls), t);
  }
}
