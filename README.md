# Credit-manager debt shares and incentives administration, in Dafny

This project models two stateful pieces of a collateralized borrowing protocol
on a CosmWasm chain, as their integration tests pin them down.

**The credit manager's borrow action and debt-share ledger.** A credit account
is a token owned by one address and holds a position: coin balances and debt
shares per denom. An `UpdateCreditAccount` request names an account and a list
of actions (`Deposit`, `Borrow`). The sender must own the account's token. The
actions then run in order, each seeing the effects of the ones before it, and
the first failing action fails the whole request with nothing changed. A
borrow is refused for a zero amount (`NoAmount`) and then for a denom outside
the whitelist (`NotWhitelisted`). Otherwise shares are minted:
`amount * DEFAULT_DEBT_UNITS_PER_COIN_BORROWED` for the first borrow of a
denom, and `multiply_ratio` (the floor of amount * total shares / reserve
debt, with the reserve debt read just before the borrow) for every later one.
The reserve (the "red bank") lends the amount, the account is credited with it,
and the minted shares are added to both the account and the denom's total. An
account owes the floor of reserve debt * its shares / total shares.

**The incentives contract's admin config.** Instantiation stores
`{owner, mars_denom}`. `UpdateConfig` (owner only) replaces each field that is
given and keeps each field left out. `ExecuteCosmosMsg` (owner only) forwards
the given message unchanged as the one sub-message of its response.

Files:

- `results.dfy`: `Result`, `Option` and `Outcome`.
- `uint128.dfy`: cosmwasm `Uint128`: checked addition and multiplication, and `multiply_ratio` with its 256-bit intermediate product. Overflow and division by zero are errors, never wrap-around.
- `coins.dfy`: denoms, coins, and per-denom maps where an absent entry reads as zero.
- `debt_shares.dfy`: the ledger's two conversions, share issuance and share valuation, with the proofs that issuance never dilutes anyone.
- `red_bank.dfy`: the reserve as the credit manager sees it: liquidity per denom, and the credit manager's debt per denom.
- `actions.dfy`: the credit manager's state as a value; what a request and each action do to it; the ledger invariant and the lemmas.
- `credit_manager.dfy`: the contract as a class whose fields the entry points update in place. `UpdateCreditAccount`, `ExecuteAction`, `Deposit` and `Borrow` are each proved to have exactly the effect that `actions.dfy` gives; `CreateCreditAccount` and the two queries carry contracts of their own.
- `incentives.dfy`: the incentives contract's config and its three admin entry points.

A borrow of nothing is an error: the request fails with `NoAmount` and the
account's position stays empty (`borrow_test.rs:112-126`). Like every other
failing action, it rolls back the whole request.

The ledger keeps one invariant, `Actions.Valid`: every denom's total debt
shares equal the sum of the accounts' holdings of it. Every action preserves
it (`Actions.ActionPreservesValid`, `Actions.ApplyActions`), and so does the
class (`CreditManager.CreditManager.UpdateCreditAccount`). From it follows
`Actions.OwedNeverExceedsDebt`: the floor-valued owed amounts never add up to
more than the reserve's debt, and fall short of it by less than one unit per
account.

## Model

| member | source | states |
|---|---|---|
| `Uint128.MultiplyRatio` | contracts/credit-manager/tests/borrow_test.rs:333-335 | the floor of x * num / den: result * den <= x * num < (result + 1) * den; fails exactly on a zero denominator or a quotient beyond 128 bits |
| `DebtShares.IssueShares` | contracts/credit-manager/tests/borrow_test.rs:203-208 | first borrow of a denom (no shares yet): exactly amount * units shares, failing only on overflow; later borrows: the floor of amount * total / debt, at the debt read just before, failing on zero debt or overflow |
| `DebtShares.ValueShares` | contracts/credit-manager/tests/borrow_test.rs:360-374 | owed amount is the floor of debt * shares / total (0 with no shares); never more than the debt for a holding within the total |
| `DebtShares.ValueSharesIsMultiplyRatio` | contracts/credit-manager/tests/borrow_test.rs:360-362 | for a holding within a positive total, valuing shares is exactly `debt.multiply_ratio(shares, total)` and cannot fail |
| `DebtShares.FirstBorrowerOwesWholeDebt` | contracts/credit-manager/tests/borrow_test.rs:203-214 | the first borrower of a denom gets a positive number of shares, all of them, and so owes the whole reserve debt whatever it has grown to (42 + 1 after the simulated yield) |
| `DebtShares.IssueSharesNeverDilutes` | contracts/credit-manager/tests/borrow_test.rs:333-338 | after a later borrow, every existing holding is worth no less than before, and the new shares are worth no more than the amount borrowed |
| `RedBank.Lend` | contracts/credit-manager/tests/borrow_test.rs:222-229 | the reserve lends only what its liquidity covers; its liquidity drops by exactly the amount and the credit manager's debt rises by it; other denoms unchanged |
| `RedBank.Accrue` | contracts/credit-manager/tests/borrow_test.rs:210 | interest grows the credit manager's debt in one denom by exactly the interest; liquidity and the other denoms' debt are unchanged |
| `RedBank.RedBank.constructor` | contracts/credit-manager/tests/borrow_test.rs:160-164 | a funded reserve with the given liquidity and no debt |
| `RedBank.RedBank.QueryDebt` | contracts/credit-manager/tests/borrow_test.rs:306-311 | reports the credit manager's current debt in a denom, zero when none |
| `RedBank.RedBank.Borrow` | contracts/credit-manager/tests/borrow_test.rs:222-229 | the reserve's books change exactly as `Lend` gives when the loan is granted, and not at all when refused |
| `RedBank.RedBank.AccrueInterest` | contracts/credit-manager/tests/borrow_test.rs:210 | the reserve's books become exactly what `Accrue` gives |
| `Actions.ApplyDeposit` | contracts/credit-manager/tests/borrow_test.rs:174-178 | a deposit adds exactly its amount to the account's balance of its denom, fails only on overflow, and changes no other balance, account, share or reserve entry |
| `Actions.ApplyBorrow` | contracts/credit-manager/tests/borrow_test.rs:73-241 | zero amount gives `NoAmount`; a non-whitelisted denom gives `NotWhitelisted(denom)`; the borrow succeeds exactly when it is non-zero, whitelisted, within the reserve's liquidity and within 128 bits for the minted shares, the total and the balance; on success the shares that `IssueShares` gives are added to both the account and the total; the account gains exactly the amount; the reserve lends it; no other account or denom changes |
| `Actions.ApplyActions` | contracts/credit-manager/tests/borrow_test.rs:169-187 | actions apply in order; on success owners and the number of accounts are kept, no other account changes, the account's debt shares never decrease, and the ledger invariant is preserved |
| `Actions.UpdateCreditAccount` | contracts/credit-manager/tests/borrow_test.rs:37-54 | a request succeeds only for the account's owner; any other sender gets `NotTokenOwner{user, token_id}` whatever the actions |
| `Actions.SumSharesUpdate` | contracts/credit-manager/tests/borrow_test.rs:341-351 | replacing one account's position changes a denom's summed shares by exactly the change in that account's holding |
| `Actions.ActionPreservesValid` | contracts/credit-manager/tests/borrow_test.rs:341-351 | after a successful deposit or borrow, every denom's total debt shares still equals the sum of the accounts' holdings |
| `Actions.ApplyActionsAppend` | contracts/credit-manager/tests/borrow_test.rs:174-183 | running two action lists back to back equals running them in sequence, the second from the state the first leaves; an error in the first stops all |
| `Actions.ZeroBorrowFailsRequest` | contracts/credit-manager/tests/borrow_test.rs:112-126 | a request containing a zero-amount borrow anywhere always fails, with `NoAmount` when the actions before it succeed |
| `Actions.NotWhitelistedBorrowFailsRequest` | contracts/credit-manager/tests/borrow_test.rs:73-89 | a request containing a borrow of a non-whitelisted denom always fails, with `NotWhitelisted(denom)` when the actions before it succeed |
| `Actions.LaterBorrowMintsAtCurrentRate` | contracts/credit-manager/tests/borrow_test.rs:306-338 | when a denom already has shares, a borrow mints exactly `total.multiply_ratio(amount, reserve_debt_before)` shares |
| `Actions.SumOwedBrackets` | contracts/credit-manager/tests/borrow_test.rs:376-387 | summed over accounts, total * owed <= debt * shares, and debt * shares + n <= total * (owed + n) for n accounts |
| `Actions.OwedNeverExceedsDebt` | contracts/credit-manager/tests/borrow_test.rs:376-387 | with the ledger consistent, the accounts' owed amounts never add up to more than the reserve's debt; with shares issued, the shortfall is less than the number of accounts |
| `Actions.DepositThenBorrowNewDebt` | contracts/credit-manager/tests/borrow_test.rs:169-241 | a fresh account deposits then borrows a new debt denom in one request, which succeeds: one coin balance of deposit + amount (300 + 42 = 342); one debt holding of amount * units, equal to the denom's total; reserve liquidity down and reserve debt up by exactly the amount; the account owes the amount, and after interest the amount plus the interest (42 + 1) |
| `Actions.DepositBorrowRequest` | contracts/credit-manager/tests/borrow_test.rs:169-187 | the owner's request to deposit and then borrow has exactly the deposit's effect followed by the borrow's, and fails with the deposit's error if it fails |
| `Actions.OwedOfTwoAccounts` | contracts/credit-manager/tests/borrow_test.rs:360-387 | with two accounts, their owed amounts add up to no more than the reserve's debt |
| `Actions.TwoBorrowersWithInterest` | contracts/credit-manager/tests/borrow_test.rs:245-388 | two accounts each deposit then borrow in requests of their own, with interest accrued in between, and both requests succeed; the first gets amountA * units shares; the second gets `multiply_ratio(first's shares, amountB, debt)`; the total is their sum; the two owed amounts add up to no more than the reserve's debt |
| `CreditManager.CreditManager.constructor` | contracts/credit-manager/tests/borrow_test.rs:32 | a credit manager with no accounts and no debt shares, which satisfies the ledger invariant |
| `CreditManager.CreditManager.CreateCreditAccount` | contracts/credit-manager/tests/borrow_test.rs:166-168 | a new account gets the next token id and an empty position; the totals are unchanged and the invariant kept |
| `CreditManager.CreditManager.UpdateCreditAccount` | contracts/credit-manager/tests/borrow_test.rs:38-54 | the stored state after a request is exactly the one `Actions.UpdateCreditAccount` gives; on any error nothing changes, even actions that succeeded before the failing one are undone; the invariant is kept |
| `CreditManager.CreditManager.ExecuteAction` | contracts/credit-manager/tests/borrow_test.rs:174-183 | one action has exactly the modelled effect; a failing action changes nothing |
| `CreditManager.CreditManager.Deposit` | contracts/credit-manager/tests/borrow_test.rs:175-178 | the in-place deposit has exactly `ApplyDeposit`'s effect |
| `CreditManager.CreditManager.Borrow` | contracts/credit-manager/tests/borrow_test.rs:179-182 | the in-place borrow has exactly `ApplyBorrow`'s effect, reading the reserve's debt just before minting; a refused borrow changes nothing |
| `CreditManager.CreditManager.QueryTotalDebtShares` | contracts/credit-manager/tests/borrow_test.rs:341-351 | the reported total debt shares of a denom equal the sum of every account's holding of it |
| `CreditManager.CreditManager.QueryPosition` | contracts/credit-manager/tests/borrow_test.rs:189-214 | the reported position has the account's coin balances and one debt entry per denom it holds shares of; each entry's value is the floor valuation, never more than the reserve's debt; an unknown id reads as empty |
| `Incentives.MergeConfig` | contracts/mars-incentives/tests/test_admin.rs:53-65 | each field given replaces the stored one, and each field left out keeps it |
| `Incentives.MergeConfigComposes` | contracts/mars-incentives/tests/test_admin.rs:53-65 | two updates in a row equal one update where the later update's given fields win |
| `Incentives.Incentives.Instantiate` | contracts/mars-incentives/tests/test_admin.rs:17-33 | instantiation stores exactly the given owner and mars_denom and returns no messages |
| `Incentives.Incentives.Execute` | contracts/mars-incentives/tests/test_admin.rs:42-95 | a non-owner gets `Unauthorized` with the config unchanged; for the owner, `UpdateConfig` sends nothing and merges the config, and `ExecuteCosmosMsg` responds with exactly the given message as its one sub-message and the attribute `action = outposts/incentives/execute_cosmos_msg` |
| `Incentives.Incentives.UpdateConfig` | contracts/mars-incentives/tests/test_admin.rs:36-66 | a non-owner gets `Unauthorized` and the config is unchanged; the owner's update sends no message and leaves the config merged field by field |
| `Incentives.Incentives.ExecuteCosmosMsg` | contracts/mars-incentives/tests/test_admin.rs:68-96 | a non-owner gets `Unauthorized`; for the owner the response's only sub-message is the given message, with attribute `action = outposts/incentives/execute_cosmos_msg` |

## Left out

- Prices and `total_value`: prices come from the oracle, and `Decimal` is a fixed-point library type. Owed amounts are modelled in integer units only.
- The reserve's interest accrual is not computed. `RedBank.Accrue` and `RedBank.RedBank.AccrueInterest` only let the debt grow by a given amount. The test reserve adds one unit to every reported debt as simulated yield; that is not modelled.
- The reserve tracks debt per borrower; the model keeps only the credit manager's debt per denom.
- Bank balances are not modelled: the credit manager's custody balance (`borrow_test.rs:216-220`), the user's funds, and the funds attached to a request.
- Deposit validation is not modelled. The tests never show a deposit refused (for a denom outside the whitelist, or funds not matching the coins attached). `Actions.ApplyDeposit` only credits, with an overflow check.
- Token ids are numbers in creation order, not the account NFT's strings. Extracting them from events is not modelled. `TokenNotFound` stands for the NFT contract's owner query failing on an id it never minted; the tests do not show that case.
- Risk parameters (max LTV, liquidation threshold) and health checks are not modelled. The whitelist is only a set of denoms.
- `DEFAULT_DEBT_UNITS_PER_COIN_BORROWED` is a parameter (`Config.debtUnitsPerCoin`, of the positive type `DebtShares.UnitsPerCoin`), because its value is not shown.
- The order of the checks after the whitelist (share overflow, then the reserve's refusal) decides only which error a failing borrow reports. It is a modelling choice, since nothing in the tests fixes it.
- `DebtShares.ValueShares`: returns 0 when no shares exist, and is not bounded to 128 bits for a holding above the total. The tests never value shares in either case. Under the ledger invariant neither can happen to a holding.
- The host: `cw_multi_test` `App`, message dispatch, queries by address, and the atomic rollback the host provides. The class undoes a failed request itself.
- The other credit-manager actions and the other incentives messages (asset incentives, balance changes, reward claims) are not modelled.
- Address validation of a new owner in `UpdateConfig` is not modelled.
- The contents of a forwarded `CosmosMsg` are not modelled; the message is an opaque encoded value.
- `Incentives.Incentives.UpdateConfig` returns the attribute `action = outposts/incentives/update_config`. The tests only assert that no message is sent, so the attribute is not part of its contract.
- The oracle's test helpers (`contracts/oracle/osmosis/tests/helpers.rs`) are not part of this model. They are mock-querier setup and protobuf encoding only.
