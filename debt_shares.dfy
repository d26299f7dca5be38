/**
 * The debt-share ledger's two conversions. A borrow of a denom is recorded as
 * shares of the pool of debt the credit manager owes the reserve for that
 * denom; an account's owed amount is its proportional part of the reserve's
 * current debt, rounded down.
 */
module DebtShares {
  import opened Results
  import opened Uint128

  /** Debt shares minted per coin by the first borrow of a denom; always positive. */
  type UnitsPerCoin = u: Uint128 | 0 < u witness 1

  /**
   * Shares minted for a borrow of `amount`, given the denom's total shares and
   * the reserve's debt just before the borrow. The first borrow of a denom
   * seeds the exchange rate at `unitsPerCoin` shares per coin; every later one
   * mints at the current rate, rounded down in the protocol's favour.
   */
  function IssueShares(amount: Uint128, totalBefore: Uint128, debtBefore: Uint128, unitsPerCoin: UnitsPerCoin)
    : (r: Result<Uint128, MathError>)
    ensures totalBefore == 0 ==> (r.Ok? <==> amount * unitsPerCoin <= MAX)
    ensures totalBefore == 0 && r.Ok? ==> r.value == amount * unitsPerCoin
    ensures totalBefore > 0 ==> (r.Ok? <==> 0 < debtBefore && amount * totalBefore < (MAX + 1) * debtBefore)
    ensures totalBefore > 0 && r.Ok? ==>
              r.value * debtBefore <= amount * totalBefore < (r.value + 1) * debtBefore
  {
    if totalBefore == 0 then CheckedMul(amount, unitsPerCoin)
    else MultiplyRatio(amount, totalBefore, debtBefore)
  }

  /**
   * The amount owed for `shares` out of `total` when the reserve reports
   * `debt`: the floor of debt * shares / total, and nothing when no share exists.
   */
  function ValueShares(debt: nat, shares: nat, total: nat): (owed: nat)
    ensures total == 0 ==> owed == 0
    ensures total > 0 ==> owed * total <= debt * shares < (owed + 1) * total
    ensures shares <= total ==> owed <= debt
  {
    if total == 0 then 0
    else
      var owed := debt * shares / total;
      FloorWithinDebt(debt, shares, total, owed);
      owed
  }

  /** The floor quotient brackets the product, and stays within the debt for a holding within the total. */
  lemma FloorWithinDebt(debt: nat, shares: nat, total: nat, owed: nat)
    requires total > 0 && owed == debt * shares / total
    ensures owed * total <= debt * shares < (owed + 1) * total
    ensures shares <= total ==> owed <= debt
  {
    FloorDiv(debt * shares, total);
    if shares <= total {
      MulMono(shares, total, debt);
      MulCancel(owed, debt, total);
    }
  }

  /** Multiplying both sides of an inequality between naturals by a natural. */
  lemma MulMono(a: nat, b: nat, c: nat)
    requires a <= b
    ensures a * c <= b * c && c * a <= c * b
  {
  }

  /** A product inequality with a positive common factor cancels it. */
  lemma MulCancel(a: nat, b: nat, c: nat)
    requires c > 0 && a * c <= b * c
    ensures a <= b
  {
  }

  /** A strict product inequality with a common factor cancels it. */
  lemma MulCancelStrict(a: nat, b: nat, c: nat)
    requires a * c < b * c
    ensures a < b
  {
  }

  /** The quotient bracketed by a divisor's multiples is the floor quotient. */
  lemma FloorUnique(p: nat, d: nat, q: nat)
    requires d > 0 && q * d <= p < (q + 1) * d
    ensures q == p / d
  {
    FloorDiv(p, d);
    MulCancelStrict(q, p / d + 1, d);
    MulCancelStrict(p / d, q + 1, d);
  }

  /** Valuing shares is exactly the `multiply_ratio` that the ledger applies. */
  lemma ValueSharesIsMultiplyRatio(debt: Uint128, shares: Uint128, total: Uint128)
    requires 0 < total && shares <= total
    ensures MultiplyRatio(debt, shares, total) == Ok(ValueShares(debt, shares, total) as Uint128)
  {
    var owed := ValueShares(debt, shares, total);
    MulMono(debt, MAX, total);
    MulMono(shares, total, debt);
    var r := MultiplyRatio(debt, shares, total);
    assert r.Ok?;
    FloorUnique(debt * shares, total, r.value);
    FloorUnique(debt * shares, total, owed);
  }

  /**
   * The first borrower of a denom receives every share of it, so whatever the
   * reserve's debt grows to afterwards, they owe all of it.
   */
  lemma FirstBorrowerOwesWholeDebt(amount: Uint128, debtBefore: Uint128, unitsPerCoin: UnitsPerCoin, debt: nat)
    requires amount > 0
    requires IssueShares(amount, 0, debtBefore, unitsPerCoin).Ok?
    ensures var minted := IssueShares(amount, 0, debtBefore, unitsPerCoin).value;
            minted > 0 && ValueShares(debt, minted, minted) == debt
  {
    var minted := IssueShares(amount, 0, debtBefore, unitsPerCoin).value;
    MulMono(1, unitsPerCoin, amount);
    FloorUnique(debt * minted, minted, debt);
  }

  /** Reordering the factors of a triple product. */
  lemma Rotate(x: nat, y: nat, z: nat)
    ensures (x * y) * z == (x * z) * y
  {
  }

  /** From q * t <= d * s and m * d <= a * t it follows that q * m <= a * s. */
  lemma RateStep(q: nat, t: nat, d: nat, s: nat, m: nat, a: nat)
    requires t > 0 && q * t <= d * s && m * d <= a * t
    ensures q * m <= a * s
  {
    MulMono(q * t, d * s, m);
    MulMono(m * d, a * t, s);
    calc {
      (q * m) * t;
    ==  { Rotate(q, m, t); }
      (q * t) * m;
    <=
      (d * s) * m;
    ==  { Rotate(d, s, m); }
      (d * m) * s;
    ==
      (m * d) * s;
    <=
      (a * t) * s;
    ==  { Rotate(a, t, s); }
      (a * s) * t;
    }
    MulCancel(q * m, a * s, t);
  }

  /**
   * A floor quotient q of d * s by t stays below q' + 1 whenever (d + a) * s is
   * below (q' + 1) * (t + m) and m * d <= a * t.
   */
  lemma KeepStep(q: nat, q': nat, t: nat, m: nat, d: nat, a: nat, s: nat)
    requires t > 0 && q * t <= d * s && m * d <= a * t
    requires (d + a) * s < (q' + 1) * (t + m)
    ensures q <= q'
  {
    RateStep(q, t, d, s, m, a);
    assert q * (t + m) == q * t + q * m;
    assert (d + a) * s == d * s + a * s;
    MulCancelStrict(q, q' + 1, t + m);
  }

  /**
   * When at most `amount * totalBefore / debtBefore` shares are minted for a
   * borrow of `amount`, a holding of existing shares is worth no less after the
   * borrow than before it.
   */
  lemma ExistingHoldingKeepsValue(debtBefore: nat, amount: nat, totalBefore: nat, minted: nat, shares: nat)
    requires totalBefore > 0 && minted * debtBefore <= amount * totalBefore
    ensures ValueShares(debtBefore, shares, totalBefore)
            <= ValueShares(debtBefore + amount, shares, totalBefore + minted)
  {
    KeepStep(ValueShares(debtBefore, shares, totalBefore),
             ValueShares(debtBefore + amount, shares, totalBefore + minted),
             totalBefore, minted, debtBefore, amount, shares);
  }

  /**
   * When at most `amount * totalBefore / debtBefore` shares are minted for a
   * borrow of `amount`, the new shares are worth no more than `amount`.
   */
  lemma {:induction false} NewSharesWorthAtMostAmount(debtBefore: nat, amount: nat, totalBefore: nat, minted: nat)
    requires totalBefore > 0 && minted * debtBefore <= amount * totalBefore
    ensures ValueShares(debtBefore + amount, minted, totalBefore + minted) <= amount
  {
    var d, a, t, m := debtBefore, amount, totalBefore, minted;
    var n := ValueShares(d + a, m, t + m);
    assert (d + a) * m == m * d + a * m;
    assert a * (t + m) == a * t + a * m;
    MulCancel(n, a, t + m);
  }

  /**
   * A later borrow does not dilute anyone: every existing holding of at most
   * the old total is worth no less afterwards, and the shares minted are worth
   * no more than the amount borrowed.
   */
  lemma IssueSharesNeverDilutes(
    amount: Uint128, totalBefore: Uint128, debtBefore: Uint128, unitsPerCoin: UnitsPerCoin, shares: nat)
    requires totalBefore > 0
    requires IssueShares(amount, totalBefore, debtBefore, unitsPerCoin).Ok?
    ensures var minted := IssueShares(amount, totalBefore, debtBefore, unitsPerCoin).value;
            && ValueShares(debtBefore, shares, totalBefore)
               <= ValueShares(debtBefore + amount, shares, totalBefore + minted)
            && ValueShares(debtBefore + amount, minted, totalBefore + minted) <= amount
  {
    var minted := IssueShares(amount, totalBefore, debtBefore, unitsPerCoin).value;
    ExistingHoldingKeepsValue(debtBefore, amount, totalBefore, minted, shares);
    NewSharesWorthAtMostAmount(debtBefore, amount, totalBefore, minted);
  }
}
