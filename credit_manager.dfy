/**
 * The credit manager contract's storage and entry points. Its methods change
 * the stored accounts and ledger in place, step by step, and are proved to
 * have exactly the effect the value-level model in `Actions` gives.
 */
module CreditManager {
  import opened Results
  import opened Uint128
  import opened Coins
  import opened DebtShares
  import opened Actions
  import RedBank

  /** One debt holding as the position query reports it. */
  datatype DebtHolding = DebtHolding(shares: Uint128, owed: nat)

  /** The position query's answer: coin balances and debt holdings per denom. */
  datatype PositionResponse = PositionResponse(coins: map<Denom, Uint128>, debts: map<Denom, DebtHolding>)

  class CreditManager {
    const config: Config
    const redBank: RedBank.RedBank
    var owners: seq<Addr>
    var positions: seq<Position>
    var totalDebtShares: map<Denom, Uint128>

    /** The stored state, with the reserve's books, as a value. */
    function Model(): State
      reads this, redBank
    {
      State(owners, positions, totalDebtShares, redBank.Books())
    }

    ghost predicate Valid()
      reads this, redBank
    {
      Actions.Valid(Model())
    }

    /** A credit manager with no accounts, borrowing from `redBank`. */
    constructor (config: Config, redBank: RedBank.RedBank)
      ensures this.config == config && this.redBank == redBank
      ensures owners == [] && positions == [] && totalDebtShares == map[]
      ensures Valid()
    {
      this.config := config;
      this.redBank := redBank;
      owners := [];
      positions := [];
      totalDebtShares := map[];
    }

    /** Opens a credit account for `user`: a new token id and an empty position. */
    method CreateCreditAccount(user: Addr) returns (t: TokenId)
      requires Valid()
      modifies this
      ensures Valid()
      ensures t == |old(owners)|
      ensures owners == old(owners) + [user]
      ensures positions == old(positions) + [Position(map[], map[])]
      ensures totalDebtShares == old(totalDebtShares)
    {
      t := |owners|;
      forall d
        ensures SumShares(positions + [Position(map[], map[])], d) == SumShares(positions, d)
      {
        SumSharesAppendEmpty(positions, d);
      }
      owners := owners + [user];
      positions := positions + [Position(map[], map[])];
    }

    /**
     * Runs a request from `sender` on account `t`. On success the new state is
     * the one the model gives; on any error nothing at all has changed, even
     * when actions before the failing one had succeeded.
     */
    method UpdateCreditAccount(sender: Addr, t: TokenId, actions: seq<Action>) returns (r: Outcome<ContractError>)
      requires Valid()
      modifies this, redBank
      ensures Valid()
      ensures match Actions.UpdateCreditAccount(config, old(Model()), sender, t, actions)
              case Ok(s) => r == Pass && Model() == s
              case Err(e) => r == Fail(e) && Model() == old(Model())
    {
      if t >= |owners| {
        return Fail(TokenNotFound(t));
      }
      if owners[t] != sender {
        return Fail(NotTokenOwner(sender, t));
      }
      var saved := Model();
      var i := 0;
      while i < |actions|
        invariant 0 <= i <= |actions|
        invariant Valid() && owners == saved.owners
        invariant ApplyActions(config, saved, t, actions) == ApplyActions(config, Model(), t, actions[i..])
      {
        ghost var before := Model();
        var step := ExecuteAction(t, actions[i]);
        assert actions[i..][0] == actions[i] && actions[i..][1..] == actions[i + 1..];
        if step.Fail? {
          positions, totalDebtShares := saved.positions, saved.totalDebtShares;
          redBank.liquidity, redBank.debt := saved.redBank.liquidity, saved.redBank.debt;
          return step;
        }
        ActionPreservesValid(config, before, t, actions[i]);
        i := i + 1;
      }
      return Pass;
    }

    /** One action of a request; a failing action changes nothing. */
    method ExecuteAction(t: TokenId, a: Action) returns (r: Outcome<ContractError>)
      requires t < |positions|
      modifies this, redBank
      ensures match ApplyAction(config, old(Model()), t, a)
              case Ok(s) => r == Pass && Model() == s
              case Err(e) => r == Fail(e) && Model() == old(Model())
    {
      match a
      case Deposit(coin) => r := Deposit(t, coin);
      case Borrow(coin) => r := Borrow(t, coin);
    }

    /** Credits a deposited coin to account `t`. */
    method Deposit(t: TokenId, coin: Coin) returns (r: Outcome<ContractError>)
      requires t < |positions|
      modifies this
      ensures match ApplyDeposit(old(Model()), t, coin)
              case Ok(s) => r == Pass && Model() == s
              case Err(e) => r == Fail(e) && Model() == old(Model())
    {
      var p := positions[t];
      var balance := CheckedAdd(Get(p.coins, coin.denom), coin.amount);
      if balance.Err? {
        return Fail(Math(balance.error));
      }
      positions := positions[t := p.(coins := p.coins[coin.denom := balance.value])];
      return Pass;
    }

    /**
     * Borrows `coin` for account `t`: the checks in order, then the shares at
     * the ledger's rate against the reserve's debt read just before, then the
     * reserve's loan, and only when it is granted the position and the total.
     */
    method Borrow(t: TokenId, coin: Coin) returns (r: Outcome<ContractError>)
      requires t < |positions|
      modifies this, redBank
      ensures match ApplyBorrow(config, old(Model()), t, coin)
              case Ok(s) => r == Pass && Model() == s
              case Err(e) => r == Fail(e) && Model() == old(Model())
    {
      if coin.amount == 0 {
        return Fail(NoAmount);
      }
      if coin.denom !in config.allowedCoins {
        return Fail(NotWhitelisted(coin.denom));
      }
      var d := coin.denom;
      var totalBefore := Get(totalDebtShares, d);
      var debtBefore := redBank.QueryDebt(d);
      var issued := IssueShares(coin.amount, totalBefore, debtBefore, config.debtUnitsPerCoin);
      if issued.Err? {
        return Fail(Math(issued.error));
      }
      var total := CheckedAdd(totalBefore, issued.value);
      if total.Err? {
        return Fail(Math(total.error));
      }
      var p := positions[t];
      var shares := CheckedAdd(Get(p.debtShares, d), issued.value);
      if shares.Err? {
        return Fail(Math(shares.error));
      }
      var balance := CheckedAdd(Get(p.coins, d), coin.amount);
      if balance.Err? {
        return Fail(Math(balance.error));
      }
      var lent := redBank.Borrow(d, coin.amount);
      if !lent {
        return Fail(RedBankRefused);
      }
      positions := positions[t := Position(p.coins[d := balance.value], p.debtShares[d := shares.value])];
      totalDebtShares := totalDebtShares[d := total.value];
      return Pass;
    }

    /** The total debt shares of `d`: the sum of every account's holding. */
    method QueryTotalDebtShares(d: Denom) returns (shares: Uint128)
      requires Valid()
      ensures shares == SumShares(positions, d)
    {
      shares := if d in totalDebtShares then totalDebtShares[d] else 0;
    }

    /**
     * The position of account `t`: its coin balances, and per denom its debt
     * shares with what they are worth at the reserve's current debt, which is
     * never more than that debt. An id no account has reads as empty.
     */
    method QueryPosition(t: TokenId) returns (r: PositionResponse)
      requires Valid()
      ensures t >= |positions| ==> r == PositionResponse(map[], map[])
      ensures t < |positions| ==>
                && r.coins == positions[t].coins
                && r.debts.Keys == positions[t].debtShares.Keys
                && forall d :: d in r.debts ==>
                     && r.debts[d].shares == positions[t].debtShares[d]
                     && r.debts[d].owed == DebtOwed(Model(), t, d)
                     && r.debts[d].owed <= Get(redBank.debt, d)
    {
      if t >= |positions| {
        return PositionResponse(map[], map[]);
      }
      var p := positions[t];
      forall d | d in p.debtShares
        ensures p.debtShares[d] <= Get(totalDebtShares, d)
      {
        HoldingAtMostSum(positions, t, d);
      }
      var debts := map d | d in p.debtShares ::
        DebtHolding(p.debtShares[d], ValueShares(Get(redBank.debt, d), p.debtShares[d], Get(totalDebtShares, d)));
      r := PositionResponse(p.coins, debts);
    }
  }
}
