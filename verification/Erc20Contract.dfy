/** The token handlers, working on the table rows one after the other. */
module Erc20Contract {
  import opened Optional
  import opened Totals
  import opened Erc20

  class Contract {
    var accounts: set<Name>
    var tokens: map<Symbol, Token>
    var balances: map<(Symbol, Name), int>

    function Rows(): Market
      reads this
    {
      Market(accounts, tokens, balances)
    }

    method AddToken(creator: Name, t: Symbol, account: Name, total: int) returns (ok: bool)
      modifies this
      ensures ok == Erc20.AddToken(old(Rows()), creator, t, account, total).Some?
      ensures ok ==> Rows() == Erc20.AddToken(old(Rows()), creator, t, account, total).value
      ensures ok ==> Lawful(old(Rows()), Rows())
      ensures ok <==> account !in old(accounts) && t !in old(tokens) && (t, creator) !in old(balances)
      ensures ok ==> accounts == old(accounts) + {account}
      ensures ok ==> tokens == old(tokens)[t := Token(creator, total, false, false)]
      ensures ok ==> balances == old(balances)[(t, creator) := total]
    {
      StepLawful(Rows(), CallAdd(creator, t, account, total));
      if account in accounts {
        return false;
      }
      accounts := accounts + {account};
      if t in tokens {
        return false;
      }
      tokens := tokens[t := Token(creator, total, false, false)];
      if (t, creator) in balances {
        return false;
      }
      balances := balances[(t, creator) := total];
      return true;
    }

    method Mint(t: Symbol, amount: int) returns (ok: bool)
      modifies this
      ensures ok == Erc20.Mint(old(Rows()), t, amount).Some?
      ensures ok ==> Rows() == Erc20.Mint(old(Rows()), t, amount).value
      ensures ok ==> Lawful(old(Rows()), Rows())
      ensures ok <==> && t in old(tokens) && !old(tokens)[t].revoked && !old(tokens)[t].stopmint
                      && (t, old(tokens)[t].owner) in old(balances) && amount >= 0
                      && old(balances)[(t, old(tokens)[t].owner)] + amount <= MAX_SHARE
                      && old(tokens)[t].supply + amount <= MAX_SHARE
      ensures ok ==> var token := old(tokens)[t];
                     && tokens == old(tokens)[t := token.(supply := token.supply + amount)] && accounts == old(accounts)
                     && balances == old(balances)[(t, token.owner) := old(balances)[(t, token.owner)] + amount]
    {
      StepLawful(Rows(), CallMint(t, amount));
      if t !in tokens || tokens[t].revoked || tokens[t].stopmint {
        return false;
      }
      var owner := tokens[t].owner;
      if (t, owner) !in balances {
        return false;
      }
      var balance := SafeAdd(balances[(t, owner)], amount);
      if balance.None? {
        return false;
      }
      balances := balances[(t, owner) := balance.value];
      var supply := SafeAdd(tokens[t].supply, amount);
      if supply.None? {
        return false;
      }
      tokens := tokens[t := tokens[t].(supply := supply.value)];
      return true;
    }

    method TransferFrom(t: Symbol, from: Name, to: Name, value: int) returns (ok: bool)
      modifies this
      ensures ok == Erc20.TransferFrom(old(Rows()), t, from, to, value).Some?
      ensures ok ==> Rows() == Erc20.TransferFrom(old(Rows()), t, from, to, value).value
      ensures ok ==> Lawful(old(Rows()), Rows())
      ensures ok <==> && t in old(tokens) && !old(tokens)[t].revoked && (t, from) in old(balances)
                      && 0 <= value < old(balances)[(t, from)] && old(balances)[(t, from)] - value <= MAX_SHARE
                      && Balance(old(balances), t, to) + (if from == to then 0 else value) <= MAX_SHARE
      ensures ok ==> tokens == old(tokens) && accounts == old(accounts)
      ensures ok ==> balances.Keys == old(balances).Keys + {(t, to)}
      ensures ok ==> forall k :: k in balances ==>
                                   balances[k] == Balance(old(balances), k.0, k.1)
                                   - (if k == (t, from) then value else 0)
                                   + if k == (t, to) then value else 0
    {
      StepLawful(Rows(), CallTransfer(t, from, to, value));
      if t !in tokens || tokens[t].revoked || (t, from) !in balances {
        return false;
      }
      if (t, to) !in balances {
        balances := balances[(t, to) := 0];
      }
      if balances[(t, from)] <= value {
        return false;
      }
      var left := SafeSub(balances[(t, from)], value);
      if left.None? {
        return false;
      }
      balances := balances[(t, from) := left.value];
      var more := SafeAdd(balances[(t, to)], value);
      if more.None? {
        return false;
      }
      balances := balances[(t, to) := more.value];
      return true;
    }

    method StopMint(t: Symbol) returns (ok: bool)
      modifies this`tokens
      ensures ok == Erc20.StopMint(old(Rows()), t).Some?
      ensures Rows() == if ok then Erc20.StopMint(old(Rows()), t).value else old(Rows())
      ensures ok ==> Lawful(old(Rows()), Rows())
      ensures ok <==> t in old(tokens) && !old(tokens)[t].revoked && !old(tokens)[t].stopmint
      ensures ok ==> tokens == old(tokens)[t := old(tokens)[t].(stopmint := true)]
    {
      StepLawful(Rows(), CallStopMint(t));
      if t !in tokens || tokens[t].revoked || tokens[t].stopmint {
        return false;
      }
      tokens := tokens[t := tokens[t].(stopmint := true)];
      return true;
    }

    method Revoke(t: Symbol) returns (ok: bool)
      modifies this`tokens
      ensures ok == Erc20.Revoke(old(Rows()), t).Some?
      ensures Rows() == if ok then Erc20.Revoke(old(Rows()), t).value else old(Rows())
      ensures ok ==> Lawful(old(Rows()), Rows())
      ensures ok <==> t in old(tokens) && !old(tokens)[t].revoked
      ensures ok ==> tokens == old(tokens)[t := old(tokens)[t].(revoked := true)]
    {
      StepLawful(Rows(), CallRevoke(t));
      if t !in tokens || tokens[t].revoked {
        return false;
      }
      tokens := tokens[t := tokens[t].(revoked := true)];
      return true;
    }
  }

  /** What an account has of a token; nothing without a row. */
  function Balance(balances: map<(Symbol, Name), int>, t: Symbol, i: Name): int {
    if (t, i) in balances then balances[(t, i)] else 0
  }
}
