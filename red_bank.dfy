/**
 * The external reserve ("red bank") as far as the credit manager sees it: the
 * liquidity it can lend per denom, and the debt the credit manager owes it per
 * denom. The reserve grows that debt by interest on its own; this model only
 * lets it grow, it does not compute it.
 */
module RedBank {
  import opened Results
  import opened Uint128
  import opened Coins

  datatype State = State(liquidity: map<Denom, Uint128>, debt: map<Denom, Uint128>)

  /**
   * The reserve lends `amount` of `denom` to the credit manager: the funds
   * leave its liquidity and the credit manager's debt grows by the same amount.
   * It refuses when it lacks the liquidity.
   */
  function Lend(s: State, denom: Denom, amount: Uint128): (r: Option<State>)
    ensures r.Some? <==> amount <= Get(s.liquidity, denom) && Get(s.debt, denom) + amount <= MAX
    ensures r.Some? ==> Get(r.value.liquidity, denom) + amount == Get(s.liquidity, denom)
    ensures r.Some? ==> Get(r.value.debt, denom) == Get(s.debt, denom) + amount
    ensures r.Some? ==> forall e :: e != denom ==>
              Get(r.value.liquidity, e) == Get(s.liquidity, e) && Get(r.value.debt, e) == Get(s.debt, e)
  {
    var available := Get(s.liquidity, denom);
    var owed := Get(s.debt, denom);
    if amount <= available && owed + amount <= MAX then
      Some(State(s.liquidity[denom := available - amount], s.debt[denom := owed + amount]))
    else None
  }

  /**
   * The reserve's books after it accrues `interest` on the credit manager's
   * debt in `denom`: that debt grows by the interest, and nothing else changes.
   */
  function Accrue(s: State, denom: Denom, interest: Uint128): (r: State)
    requires Get(s.debt, denom) + interest <= MAX
    ensures Get(r.debt, denom) == Get(s.debt, denom) + interest
    ensures r.liquidity == s.liquidity
    ensures forall e :: e != denom ==> Get(r.debt, e) == Get(s.debt, e)
  {
    s.(debt := s.debt[denom := Get(s.debt, denom) + interest])
  }

  class RedBank {
    var liquidity: map<Denom, Uint128>
    var debt: map<Denom, Uint128>

    function Books(): State
      reads this
    {
      State(liquidity, debt)
    }

    /** A reserve funded with `liquidity` that has lent nothing yet. */
    constructor (liquidity: map<Denom, Uint128>)
      ensures Books() == State(liquidity, map[])
    {
      this.liquidity := liquidity;
      this.debt := map[];
    }

    /** The credit manager's current debt in `denom`. */
    method QueryDebt(denom: Denom) returns (amount: Uint128)
      ensures amount == Get(debt, denom)
    {
      amount := if denom in debt then debt[denom] else 0;
    }

    /** The credit manager borrows `amount` of `denom`; nothing changes when refused. */
    method Borrow(denom: Denom, amount: Uint128) returns (ok: bool)
      modifies this
      ensures ok == Lend(old(Books()), denom, amount).Some?
      ensures Books() == if ok then Lend(old(Books()), denom, amount).value else old(Books())
    {
      var available := if denom in liquidity then liquidity[denom] else 0;
      var owed := if denom in debt then debt[denom] else 0;
      ok := amount <= available && owed + amount <= MAX;
      if ok {
        liquidity := liquidity[denom := available - amount];
        debt := debt[denom := owed + amount];
      }
    }

    /**
     * Interest accrued by the reserve on the credit manager's debt. It stands
     * for the reserve's own accrual, which is not modelled: only its effect,
     * a debt that grows, is.
     */
    method AccrueInterest(denom: Denom, interest: Uint128)
      requires Get(debt, denom) + interest <= MAX
      modifies this
      ensures Books() == Accrue(old(Books()), denom, interest)
    {
      var owed := if denom in debt then debt[denom] else 0;
      debt := debt[denom := owed + interest];
    }
  }
}
