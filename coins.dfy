/** Denominations, coins and per-denom balances. */
module Coins {
  import opened Uint128

  /** A case-sensitive denomination such as "uosmo". */
  type Denom = string

  datatype Coin = Coin(denom: Denom, amount: Uint128)

  /** The balance a per-denom map records for `d`; an absent entry reads as zero. */
  function Get(m: map<Denom, Uint128>, d: Denom): Uint128 {
    if d in m then m[d] else 0
  }
}
