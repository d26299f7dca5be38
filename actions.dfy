/**
 * The credit manager's state as a value, and what one `UpdateCreditAccount`
 * request does to it: check that the sender owns the account's token, then
 * apply the request's actions in order, each seeing the effects of the ones
 * before it. The first failing action fails the whole request.
 */
module Actions {
  import opened Results
  import opened Uint128
  import opened Coins
  import opened DebtShares
  import RedBank

  /** An account holder's address. */
  type Addr = string

  /** A credit account's token id; accounts are numbered in creation order. */
  type TokenId = nat

  datatype Action = Deposit(coin: Coin) | Borrow(coin: Coin)

  datatype ContractError =
    | NotTokenOwner(user: Addr, tokenId: TokenId)
    | TokenNotFound(tokenId: TokenId)
    | NotWhitelisted(denom: Denom)
    | NoAmount
    | Math(reason: MathError)
    | RedBankRefused

  /**
   * The coins that may be deposited and borrowed, and the number of debt
   * shares minted per coin by the first borrow of a denom.
   */
  datatype Config = Config(allowedCoins: set<Denom>, debtUnitsPerCoin: UnitsPerCoin)

  /** An account's coin balances and its debt shares, per denom. */
  datatype Position = Position(coins: map<Denom, Uint128>, debtShares: map<Denom, Uint128>)

  /**
   * Account `t` is owned by `owners[t]` and holds `positions[t]`; the ledger
   * keeps each denom's total debt shares; the reserve's books come last.
   */
  datatype State = State(
    owners: seq<Addr>,
    positions: seq<Position>,
    totalDebtShares: map<Denom, Uint128>,
    redBank: RedBank.State)

  function Lift<T>(r: Result<T, MathError>): Result<T, ContractError> {
    match r
    case Ok(v) => Ok(v)
    case Err(e) => Err(Math(e))
  }

  /** The debt shares of `d` held over all the accounts in `ps`. */
  function SumShares(ps: seq<Position>, d: Denom): nat {
    if ps == [] then 0 else Get(ps[0].debtShares, d) + SumShares(ps[1..], d)
  }

  /** Every denom's total debt shares is the sum of the accounts' holdings of it. */
  ghost predicate SharesConsistent(ps: seq<Position>, totals: map<Denom, Uint128>) {
    forall d :: Get(totals, d) == SumShares(ps, d)
  }

  ghost predicate Valid(s: State) {
    |s.owners| == |s.positions| && SharesConsistent(s.positions, s.totalDebtShares)
  }

  /** Deposit credits the account's balance of the deposited denom. */
  function ApplyDeposit(s: State, t: TokenId, coin: Coin): (r: Result<State, ContractError>)
    requires t < |s.positions|
    ensures r.Ok? <==> Get(s.positions[t].coins, coin.denom) + coin.amount <= MAX
    ensures r.Ok? ==> && r.value.owners == s.owners
                      && r.value.totalDebtShares == s.totalDebtShares
                      && r.value.redBank == s.redBank
                      && |r.value.positions| == |s.positions|
                      && Get(r.value.positions[t].coins, coin.denom)
                         == Get(s.positions[t].coins, coin.denom) + coin.amount
                      && r.value.positions[t].debtShares == s.positions[t].debtShares
                      && (forall e :: e != coin.denom ==>
                            Get(r.value.positions[t].coins, e) == Get(s.positions[t].coins, e))
                      && (forall u :: 0 <= u < |s.positions| && u != t ==>
                            r.value.positions[u] == s.positions[u])
  {
    var p := s.positions[t];
    var balance :- Lift(CheckedAdd(Get(p.coins, coin.denom), coin.amount));
    Ok(s.(positions := s.positions[t := p.(coins := p.coins[coin.denom := balance])]))
  }

  /**
   * Borrow `coin` against account `t`. A zero amount is refused first, then a
   * denom outside the whitelist. Otherwise shares are minted at the ledger's
   * rate, the reserve lends the amount, the borrowed coins are credited to the
   * account, and the minted shares are added to both the account and the
   * denom's total.
   */
  function ApplyBorrow(c: Config, s: State, t: TokenId, coin: Coin): (r: Result<State, ContractError>)
    requires t < |s.positions|
    ensures coin.amount == 0 ==> r == Err(NoAmount)
    ensures coin.amount > 0 && coin.denom !in c.allowedCoins ==> r == Err(NotWhitelisted(coin.denom))
    // A borrow succeeds exactly when it is eligible: a whitelisted denom, a
    // non-zero amount the reserve can lend, and share counts and a balance
    // that stay within 128 bits.
    ensures r.Ok? <==>
      var d := coin.denom;
      var issued := IssueShares(coin.amount, Get(s.totalDebtShares, d), Get(s.redBank.debt, d), c.debtUnitsPerCoin);
      && coin.amount > 0 && d in c.allowedCoins
      && issued.Ok?
      && Get(s.totalDebtShares, d) + issued.value <= MAX
      && Get(s.positions[t].debtShares, d) + issued.value <= MAX
      && Get(s.positions[t].coins, d) + coin.amount <= MAX
      && RedBank.Lend(s.redBank, d, coin.amount).Some?
    ensures r.Ok? ==>
      var d, s' := coin.denom, r.value;
      var issued := IssueShares(coin.amount, Get(s.totalDebtShares, d), Get(s.redBank.debt, d), c.debtUnitsPerCoin);
      && coin.amount > 0 && d in c.allowedCoins
      && |s'.positions| == |s.positions|
      // Shares: minted by the ledger's rate, added to the account and to the total.
      && issued.Ok?
      && Get(s'.totalDebtShares, d) == Get(s.totalDebtShares, d) + issued.value
      && Get(s'.positions[t].debtShares, d) == Get(s.positions[t].debtShares, d) + issued.value
      // Funds: the account gains exactly what the reserve lends.
      && Get(s'.positions[t].coins, d) == Get(s.positions[t].coins, d) + coin.amount
      && RedBank.Lend(s.redBank, d, coin.amount) == Some(s'.redBank)
      // Nothing else changes.
      && s'.owners == s.owners
      && s'.positions == s.positions[t := s'.positions[t]]
      && (forall e :: e != d ==>
            && Get(s'.totalDebtShares, e) == Get(s.totalDebtShares, e)
            && Get(s'.positions[t].debtShares, e) == Get(s.positions[t].debtShares, e)
            && Get(s'.positions[t].coins, e) == Get(s.positions[t].coins, e))
  {
    if coin.amount == 0 then Err(NoAmount)
    else if coin.denom !in c.allowedCoins then Err(NotWhitelisted(coin.denom))
    else
      var d := coin.denom;
      var p := s.positions[t];
      var totalBefore := Get(s.totalDebtShares, d);
      var minted :- Lift(IssueShares(coin.amount, totalBefore, Get(s.redBank.debt, d), c.debtUnitsPerCoin));
      var total :- Lift(CheckedAdd(totalBefore, minted));
      var shares :- Lift(CheckedAdd(Get(p.debtShares, d), minted));
      var balance :- Lift(CheckedAdd(Get(p.coins, d), coin.amount));
      match RedBank.Lend(s.redBank, d, coin.amount)
      case None => Err(RedBankRefused)
      case Some(bank) =>
        var p' := Position(p.coins[d := balance], p.debtShares[d := shares]);
        Ok(State(s.owners, s.positions[t := p'], s.totalDebtShares[d := total], bank))
  }

  function ApplyAction(c: Config, s: State, t: TokenId, a: Action): Result<State, ContractError>
    requires t < |s.positions|
  {
    match a
    case Deposit(coin) => ApplyDeposit(s, t, coin)
    case Borrow(coin) => ApplyBorrow(c, s, t, coin)
  }

  /**
   * The actions applied in order, each to the state the previous one left. Only
   * account `t` changes, its debt shares never decrease, and the ledger stays
   * consistent with the accounts' holdings.
   */
  function ApplyActions(c: Config, s: State, t: TokenId, actions: seq<Action>): (r: Result<State, ContractError>)
    requires t < |s.positions|
    ensures r.Ok? ==> && r.value.owners == s.owners
                      && |r.value.positions| == |s.positions|
                      && (forall u :: 0 <= u < |s.positions| && u != t ==> r.value.positions[u] == s.positions[u])
                      && (forall d :: Get(r.value.positions[t].debtShares, d) >= Get(s.positions[t].debtShares, d))
                      && (Valid(s) ==> Valid(r.value))
    decreases |actions|
  {
    if actions == [] then Ok(s)
    else
      var s' :- ApplyAction(c, s, t, actions[0]);
      ActionPreservesValid(c, s, t, actions[0]);
      ApplyActions(c, s', t, actions[1..])
  }

  /**
   * An `UpdateCreditAccount` request from `sender` on account `t`: refused
   * unless `sender` owns the account's token, otherwise its actions in order.
   */
  function UpdateCreditAccount(c: Config, s: State, sender: Addr, t: TokenId, actions: seq<Action>)
    : (r: Result<State, ContractError>)
    requires |s.owners| == |s.positions|
    ensures r.Ok? ==> t < |s.owners| && s.owners[t] == sender
    ensures t < |s.owners| && s.owners[t] != sender ==> r == Err(NotTokenOwner(sender, t))
  {
    if t >= |s.owners| then Err(TokenNotFound(t))
    else if s.owners[t] != sender then Err(NotTokenOwner(sender, t))
    else ApplyActions(c, s, t, actions)
  }

  /** What the debt shares held by account `t` in `d` are worth now. */
  function DebtOwed(s: State, t: TokenId, d: Denom): nat
    requires t < |s.positions|
  {
    ValueShares(Get(s.redBank.debt, d), Get(s.positions[t].debtShares, d), Get(s.totalDebtShares, d))
  }

  /** The owed amounts in `d` of all the accounts in `ps`, each rounded down on its own. */
  function SumOwed(ps: seq<Position>, d: Denom, debt: nat, total: nat): nat {
    if ps == [] then 0
    else ValueShares(debt, Get(ps[0].debtShares, d), total) + SumOwed(ps[1..], d, debt, total)
  }

  // ----- Lemmas -----

  /** Replacing one account's position changes a denom's sum by the change in that holding. */
  lemma {:induction false} SumSharesUpdate(ps: seq<Position>, t: nat, p: Position, d: Denom)
    requires t < |ps|
    ensures SumShares(ps[t := p], d) + Get(ps[t].debtShares, d) == SumShares(ps, d) + Get(p.debtShares, d)
  {
    if t > 0 {
      assert ps[t := p][1..] == ps[1..][t - 1 := p];
      SumSharesUpdate(ps[1..], t - 1, p, d);
    } else {
      assert ps[t := p][1..] == ps[1..];
    }
  }

  /** A new account, holding nothing, leaves every denom's sum as it was. */
  lemma {:induction false} SumSharesAppendEmpty(ps: seq<Position>, d: Denom)
    ensures SumShares(ps + [Position(map[], map[])], d) == SumShares(ps, d)
  {
    if ps != [] {
      assert (ps + [Position(map[], map[])])[1..] == ps[1..] + [Position(map[], map[])];
      SumSharesAppendEmpty(ps[1..], d);
    }
  }

  /** No account holds more shares of a denom than all accounts together. */
  lemma {:induction false} HoldingAtMostSum(ps: seq<Position>, t: nat, d: Denom)
    requires t < |ps|
    ensures Get(ps[t].debtShares, d) <= SumShares(ps, d)
  {
    if t > 0 {
      HoldingAtMostSum(ps[1..], t - 1, d);
    }
  }

  /** Every action keeps the ledger consistent with the accounts' holdings. */
  lemma ActionPreservesValid(c: Config, s: State, t: TokenId, a: Action)
    requires t < |s.positions|
    requires ApplyAction(c, s, t, a).Ok?
    ensures Valid(s) ==> Valid(ApplyAction(c, s, t, a).value)
  {
    if Valid(s) {
      var s' := ApplyAction(c, s, t, a).value;
      forall d
        ensures Get(s'.totalDebtShares, d) == SumShares(s'.positions, d)
      {
        SumSharesUpdate(s.positions, t, s'.positions[t], d);
        assert s'.positions == s.positions[t := s'.positions[t]];
      }
    }
  }

  /**
   * Concatenated action lists run one after the other: the second list starts
   * from the state the first one leaves, and an error in the first stops all.
   */
  lemma {:induction false} ApplyActionsAppend(c: Config, s: State, t: TokenId, xs: seq<Action>, ys: seq<Action>)
    requires t < |s.positions|
    ensures ApplyActions(c, s, t, xs + ys) ==
              match ApplyActions(c, s, t, xs)
              case Err(e) => Err(e)
              case Ok(s1) => ApplyActions(c, s1, t, ys)
    decreases |xs|
  {
    if xs == [] {
      assert xs + ys == ys;
    } else {
      assert (xs + ys)[0] == xs[0];
      assert (xs + ys)[1..] == xs[1..] + ys;
      var r := ApplyAction(c, s, t, xs[0]);
      if r.Ok? {
        ApplyActionsAppend(c, r.value, t, xs[1..], ys);
      }
    }
  }

  /**
   * A borrow of nothing fails the request it belongs to, wherever it stands:
   * with `NoAmount` when every action before it succeeds, and with the earlier
   * error otherwise. So no request that contains one ever changes any state.
   */
  lemma ZeroBorrowFailsRequest(c: Config, s: State, t: TokenId, actions: seq<Action>, k: nat)
    requires t < |s.positions| && k < |actions|
    requires actions[k].Borrow? && actions[k].coin.amount == 0
    ensures ApplyActions(c, s, t, actions).Err?
    ensures ApplyActions(c, s, t, actions[..k]).Ok? ==> ApplyActions(c, s, t, actions) == Err(NoAmount)
  {
    assert actions == actions[..k] + actions[k..];
    ApplyActionsAppend(c, s, t, actions[..k], actions[k..]);
  }

  /**
   * A borrow of a denom outside the whitelist fails the request it belongs to:
   * with `NotWhitelisted` when every action before it succeeds.
   */
  lemma NotWhitelistedBorrowFailsRequest(c: Config, s: State, t: TokenId, actions: seq<Action>, k: nat)
    requires t < |s.positions| && k < |actions|
    requires actions[k].Borrow? && actions[k].coin.amount > 0 && actions[k].coin.denom !in c.allowedCoins
    ensures ApplyActions(c, s, t, actions).Err?
    ensures ApplyActions(c, s, t, actions[..k]).Ok? ==>
              ApplyActions(c, s, t, actions) == Err(NotWhitelisted(actions[k].coin.denom))
  {
    assert actions == actions[..k] + actions[k..];
    ApplyActionsAppend(c, s, t, actions[..k], actions[k..]);
  }

  /**
   * A borrow of a denom that already has debt shares mints exactly what the
   * ledger's `multiply_ratio` of the total by the amount over the reserve's
   * debt gives, that debt being read just before the borrow.
   */
  lemma LaterBorrowMintsAtCurrentRate(c: Config, s: State, t: TokenId, coin: Coin)
    requires t < |s.positions|
    requires Get(s.totalDebtShares, coin.denom) > 0
    requires ApplyBorrow(c, s, t, coin).Ok?
    ensures var d := coin.denom;
            var minted := Get(ApplyBorrow(c, s, t, coin).value.totalDebtShares, d) - Get(s.totalDebtShares, d);
            MultiplyRatio(Get(s.totalDebtShares, d), coin.amount, Get(s.redBank.debt, d)) == Ok(minted)
  {
    var d := coin.denom;
    var total, debt := Get(s.totalDebtShares, d), Get(s.redBank.debt, d);
    var minted := IssueShares(coin.amount, total, debt, c.debtUnitsPerCoin).value;
    var r := MultiplyRatio(total, coin.amount, debt);
    assert total * coin.amount == coin.amount * total;
    assert r.Ok?;
    FloorUnique(coin.amount * total, debt, minted);
    FloorUnique(coin.amount * total, debt, r.value);
  }

  /** With no shares of a denom issued, no account owes anything in it. */
  lemma {:induction false} SumOwedNoShares(ps: seq<Position>, d: Denom, debt: nat)
    ensures SumOwed(ps, d, debt, 0) == 0
  {
    if ps != [] {
      SumOwedNoShares(ps[1..], d, debt);
    }
  }

  /** One more account keeps the brackets of `SumOwedBrackets`. */
  lemma BracketStep(total: nat, debt: nat, o0: nat, s0: nat, owed: nat, shares: nat, n: nat)
    requires o0 * total <= debt * s0 < (o0 + 1) * total
    requires total * owed <= debt * shares
    requires debt * shares + n <= total * (owed + n)
    ensures total * (o0 + owed) <= debt * (s0 + shares)
    ensures debt * (s0 + shares) + (n + 1) <= total * (o0 + owed + (n + 1))
  {
    assert total * (o0 + owed) == total * o0 + total * owed;
    assert debt * (s0 + shares) == debt * s0 + debt * shares;
    assert total * (o0 + owed + (n + 1)) == total * (o0 + 1) + total * (owed + n);
  }

  /**
   * Summed over accounts, the floors lose less than one unit per account:
   * total * owed <= debt * shares, and debt * shares + n <= total * (owed + n)
   * for n accounts.
   */
  lemma {:induction false} SumOwedBrackets(ps: seq<Position>, d: Denom, debt: nat, total: nat)
    requires total > 0
    ensures total * SumOwed(ps, d, debt, total) <= debt * SumShares(ps, d)
    ensures debt * SumShares(ps, d) + |ps| <= total * (SumOwed(ps, d, debt, total) + |ps|)
  {
    if ps != [] {
      SumOwedBrackets(ps[1..], d, debt, total);
      var s0 := Get(ps[0].debtShares, d);
      BracketStep(total, debt, ValueShares(debt, s0, total), s0,
                  SumOwed(ps[1..], d, debt, total), SumShares(ps[1..], d), |ps[1..]|);
    }
  }

  /**
   * Valuing every account's shares on its own and rounding each down never
   * allocates more than the reserve's debt, and leaves less than one unit per
   * account unallocated.
   */
  lemma OwedNeverExceedsDebt(s: State, d: Denom)
    requires Valid(s)
    ensures var debt, total := Get(s.redBank.debt, d), Get(s.totalDebtShares, d);
            && SumOwed(s.positions, d, debt, total) <= debt
            && (total > 0 ==> debt < SumOwed(s.positions, d, debt, total) + |s.positions|)
  {
    var debt, total := Get(s.redBank.debt, d), Get(s.totalDebtShares, d);
    if total == 0 {
      SumOwedNoShares(s.positions, d, debt);
    } else {
      var owed := SumOwed(s.positions, d, debt, total);
      SumOwedBrackets(s.positions, d, debt, total);
      assert total * owed <= total * debt;
      MulCancel(owed, debt, total);
      assert debt * total < total * (owed + |s.positions|);
      MulCancelStrict(debt, owed + |s.positions|, total);
    }
  }

  /** The owner's request to deposit and then borrow is the deposit followed by the borrow. */
  lemma DepositBorrowRequest(c: Config, s: State, t: TokenId, deposit: Coin, coin: Coin)
    requires |s.owners| == |s.positions| && t < |s.owners|
    ensures UpdateCreditAccount(c, s, s.owners[t], t, [Deposit(deposit), Borrow(coin)]) ==
              match ApplyDeposit(s, t, deposit)
              case Err(e) => Err(e)
              case Ok(s1) => ApplyBorrow(c, s1, t, coin)
  {
    var actions := [Deposit(deposit), Borrow(coin)];
    assert actions[0] == Deposit(deposit) && actions[1..] == [Borrow(coin)];
    var r1 := ApplyDeposit(s, t, deposit);
    if r1.Ok? {
      var rest := [Borrow(coin)];
      assert rest[0] == Borrow(coin) && rest[1..] == [];
      assert ApplyActions(c, s, t, actions) == ApplyActions(c, r1.value, t, rest);
      var r2 := ApplyBorrow(c, r1.value, t, coin);
      if r2.Ok? {
        assert ApplyActions(c, r1.value, t, rest) == ApplyActions(c, r2.value, t, []);
      }
    }
  }

  /** Accounts that hold no debt shares add up to no shares. */
  lemma {:induction false} SumSharesNoHoldings(ps: seq<Position>, d: Denom)
    requires forall u :: 0 <= u < |ps| ==> ps[u].debtShares == map[]
    ensures SumShares(ps, d) == 0
  {
    if ps != [] {
      SumSharesNoHoldings(ps[1..], d);
    }
  }

  /**
   * A fresh account deposits `deposit` of a whitelisted denom nobody has
   * borrowed yet and then borrows `amount` of it in the same request (300 and
   * 42 in the credit manager's own scenario). The account then holds one coin
   * balance, deposit + amount, and one debt holding, amount * units shares,
   * which is also the denom's total; the reserve's liquidity drops by exactly
   * the amount and its debt rises by it; and once the reserve accrues
   * `interest`, the account, holding every share, owes all of amount + interest.
   */
  lemma DepositThenBorrowNewDebt(
    c: Config, s: State, t: TokenId, d: Denom, deposit: Uint128, amount: Uint128, interest: Uint128)
    requires |s.owners| == |s.positions| && t < |s.owners|
    requires s.positions[t] == Position(map[], map[])
    requires d in c.allowedCoins
    requires 0 < amount <= Get(s.redBank.liquidity, d) && deposit + amount <= MAX
    requires amount * c.debtUnitsPerCoin <= MAX && amount + interest <= MAX
    requires Get(s.totalDebtShares, d) == 0 && Get(s.redBank.debt, d) == 0
    ensures var r := UpdateCreditAccount(c, s, s.owners[t], t, [Deposit(Coin(d, deposit)), Borrow(Coin(d, amount))]);
            && r.Ok?
            && r.value.positions[t].coins == map[d := deposit + amount]
            && r.value.positions[t].debtShares == map[d := amount * c.debtUnitsPerCoin]
            && Get(r.value.totalDebtShares, d) == amount * c.debtUnitsPerCoin
            && Get(r.value.redBank.liquidity, d) == Get(s.redBank.liquidity, d) - amount
            && Get(r.value.redBank.debt, d) == amount
            && DebtOwed(r.value, t, d) == amount
            && DebtOwed(r.value.(redBank := RedBank.Accrue(r.value.redBank, d, interest)), t, d) == amount + interest
  {
    DepositBorrowRequest(c, s, t, Coin(d, deposit), Coin(d, amount));
    var s1 := ApplyDeposit(s, t, Coin(d, deposit)).value;
    assert s1.positions[t] == Position(map[d := deposit], map[]);
    var s2 := ApplyBorrow(c, s1, t, Coin(d, amount)).value;
    assert s2.positions[t].debtShares == map[d := amount * c.debtUnitsPerCoin];
    FirstBorrowerOwesWholeDebt(amount, 0, c.debtUnitsPerCoin, amount);
    FirstBorrowerOwesWholeDebt(amount, 0, c.debtUnitsPerCoin, amount + interest);
  }

  /**
   * With a shares per coin for the first `a` coins lent, and the debt grown to
   * at least `a`, a second loan of `b` coins mints a quotient that fits 128
   * bits, whenever (a + b) * u does.
   */
  lemma SecondMintFits(a: nat, b: nat, u: nat, debt: nat)
    requires 0 < a <= debt && (a + b) * u <= MAX
    ensures b * (a * u) < (MAX + 1) * debt
  {
    assert b * u <= (a + b) * u;
    MulMono(b * u, MAX, a);
    MulMono(a, debt, MAX);
    assert b * (a * u) == a * (b * u);
  }

  /** ... and it mints no more than b * u shares: the later coins are never dearer in shares. */
  lemma SecondMintBounded(a: nat, b: nat, u: nat, debt: nat, m: nat)
    requires 0 < a <= debt && m * debt <= b * (a * u)
    ensures m <= b * u
  {
    MulMono(a, debt, b * u);
    assert b * (a * u) == a * (b * u);
    MulCancel(m, b * u, debt);
  }

  /**
   * Two fresh accounts each deposit and then borrow the same denom in a
   * request of their own, and the reserve's debt grows by `interest` in
   * between (deposits 300 and 450, loans 50 and 50, and one unit of interest
   * in the credit manager's own scenario). Both requests succeed. The first
   * borrower gets amountA * units shares; the second gets
   * multiply_ratio(first's shares, amountB, reserve debt before its borrow);
   * the denom's total is the sum of the two; and the two owed amounts, each
   * rounded down, add up to no more than the reserve's debt.
   */
  lemma TwoBorrowersWithInterest(
    c: Config, s0: State, d: Denom, depositA: Uint128, amountA: Uint128,
    depositB: Uint128, amountB: Uint128, interest: Uint128)
    requires |s0.owners| == 2 && s0.positions == [Position(map[], map[]), Position(map[], map[])]
    requires s0.totalDebtShares == map[] && Get(s0.redBank.debt, d) == 0
    requires d in c.allowedCoins && 0 < amountA && 0 < amountB
    requires amountA + amountB <= Get(s0.redBank.liquidity, d)
    requires amountA + interest + amountB <= MAX && (amountA + amountB) * c.debtUnitsPerCoin <= MAX
    requires depositA + amountA <= MAX && depositB + amountB <= MAX
    ensures var rA := UpdateCreditAccount(c, s0, s0.owners[0], 0, [Deposit(Coin(d, depositA)), Borrow(Coin(d, amountA))]);
            && rA.Ok?
            && Get(rA.value.redBank.debt, d) == amountA
            && var s1 := rA.value.(redBank := RedBank.Accrue(rA.value.redBank, d, interest));
               var rB := UpdateCreditAccount(c, s1, s0.owners[1], 1, [Deposit(Coin(d, depositB)), Borrow(Coin(d, amountB))]);
               && rB.Ok?
               && var s2 := rB.value;
                  var sharesA, sharesB := Get(s2.positions[0].debtShares, d), Get(s2.positions[1].debtShares, d);
                  && sharesA == amountA * c.debtUnitsPerCoin
                  && MultiplyRatio(sharesA, amountB, amountA + interest) == Ok(sharesB)
                  && Get(s2.totalDebtShares, d) == sharesA + sharesB
                  && DebtOwed(s2, 0, d) + DebtOwed(s2, 1, d) <= Get(s2.redBank.debt, d)
  {
    var u := c.debtUnitsPerCoin;
    MulMono(amountA, amountA + amountB, u);
    forall e
      ensures Get(s0.totalDebtShares, e) == SumShares(s0.positions, e)
    {
      SumSharesNoHoldings(s0.positions, e);
    }
    // The first request.
    var coinA := Coin(d, amountA);
    DepositBorrowRequest(c, s0, 0, Coin(d, depositA), coinA);
    var sD := ApplyDeposit(s0, 0, Coin(d, depositA)).value;
    var sA := ApplyBorrow(c, sD, 0, coinA).value;
    var sharesA := amountA * u;
    MulMono(1, u, amountA);
    assert Get(sA.totalDebtShares, d) == sharesA > 0;
    assert Get(sA.positions[0].debtShares, d) == sharesA;
    assert Valid(sA) by {
      ActionPreservesValid(c, s0, 0, Deposit(Coin(d, depositA)));
      ActionPreservesValid(c, sD, 0, Borrow(coinA));
    }
    // The reserve accrues interest.
    var s1 := sA.(redBank := RedBank.Accrue(sA.redBank, d, interest));
    assert Valid(s1);
    // The second request.
    var coinB := Coin(d, amountB);
    DepositBorrowRequest(c, s1, 1, Coin(d, depositB), coinB);
    var sE := ApplyDeposit(s1, 1, Coin(d, depositB)).value;
    assert sE.positions[1] == Position(map[d := depositB], map[]);
    var debt1 := amountA + interest;
    SecondMintFits(amountA, amountB, u, debt1);
    var minted := IssueShares(amountB, sharesA, debt1, u).value;
    SecondMintBounded(amountA, amountB, u, debt1, minted);
    MulMono(amountB, amountA + amountB, u);
    var s2 := ApplyBorrow(c, sE, 1, coinB).value;
    LaterBorrowMintsAtCurrentRate(c, sE, 1, coinB);
    assert Valid(s2) by {
      ActionPreservesValid(c, s1, 1, Deposit(Coin(d, depositB)));
      ActionPreservesValid(c, sE, 1, Borrow(coinB));
    }
    OwedOfTwoAccounts(s2, d);
  }

  /** With two accounts in a consistent state, their owed amounts add up to no more than the reserve's debt. */
  lemma OwedOfTwoAccounts(s: State, d: Denom)
    requires Valid(s) && |s.positions| == 2
    ensures DebtOwed(s, 0, d) + DebtOwed(s, 1, d) <= Get(s.redBank.debt, d)
  {
    OwedNeverExceedsDebt(s, d);
    assert s.positions[1..][1..] == [];
  }
}
