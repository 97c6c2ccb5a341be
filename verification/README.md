# Boing: exchange contracts, indexer pipeline and transaction encoding

A Dafny model of three parts of the Boing network and its SDK, with proofs about them.
`dafny verify dfyconfig.toml` checks the whole project.

**Exchange.** The reference token v2, the custody pools v8 to v11, the custody router and the LP vault v2, at two
levels. The *storage* is what runs: each contract has one table of 256-bit slots under 256-bit keys, in which a
holder's slot is the holder's id under a mask (`Slots`). `TokenStorage`, `PoolStorage` and `VaultStorage` are the
calls on one contract, `Machine` the calls between contracts, transactions and runs, with wrapping words and locks.
`Chain` is the mutable form, a class whose methods load and store slot by slot and equal `Machine` in every state.
The *ledger* is what it means: `Curve` prices a pool's steps with exact integers, `World` has one balance per
holder and one allowance per pair; `Safety`, `Routes`, `Vaults` and `Runs` show what each step keeps, `Theorems`
and `Settings` what holds over runs. `Refinement` ties the two: on ids that are *apart* (`Slots.Apart`, a condition
on the ids alone) every call on the storage is the call on the ledger it shows. `Deployed` states the promises of
the exchange about the storage under that condition, `Collisions` what goes wrong without it. `Quotes`, `Routing`
and `Plans` are the client's side, tied to what execution on the ledger then does.

**Indexer.** `WorkerPool` is the concurrency-limited map as an interleaved step system and as a class over
the shared counter; `HeightRanges` the algebra of inclusive ranges; `LogChunks` chunked log queries;
`Ingestion` the planner, the gap summary and the cursor, over every run of ticks and backfills.

**Transactions.** `Bincode` is the wire format for arbitrary layouts, with encoder and decoder;
`Transactions` the SDK's encoder for all 40 payloads; `NodeFormat` the node's layouts and the agreement of
the two; `TransactionCodec` the decoder back to transactions; `SignedTransactions` the signed wire form, the
signing preimages and the transaction-id parser.

Conventions: `None` stands for a thrown error or a fault. Account ids are integers, 0 the zero id. Strings
stand for their UTF-8 bytes. Block heights, chain tips, RPC answers and the scheduler's choices are
parameters. The hash of a body is modelled by the body itself.

Slots can meet. The token keeps balances and allowances in one key space and the token's documentation says that
colliding needs a 2^128 search because the owner half comes from the caller; but a spender, a transfer's recipient and
a share transfer's recipient are free words, so an approval can be the approver's own balance, a credit an
allowance of a pool (`Collisions`), and a share transfer can rewrite the vault's pool slot
(`VaultStorage.ShareTransferMovesPool`). `Slots.BalanceMeetsAllowance` and
`VaultStorage.ShareTransferKeepsConfigIff` say exactly when, and every promise about the storage is made for runs
that name only ids that are apart.

Where sources disagree the deployed form is followed. The pinned v8 to v10 pool bytecode lets anyone set the fee
and the fee admin while the pool is empty and does not bind the admin in `set_tokens`; the generator in
`native_amm_v8.rs`, the only source of v11, binds it and requires it, and the model branches on the version. The
router's documentation says every failure reverts the whole route; a last hop that names no pool is no failure,
so the minimum is honoured exactly when the last hop names a pool (`Routing.RouteHonoursMinimumIff`). The next
cursor is documented as one reached without holes; for a summary of an empty range it moves back
(`Ingestion.CursorNeverMovesBackIff`). The transaction-id parser is documented to match the node's id; for an
untipped transaction it does under the condition of `SignedTransactions.UntippedBodyIsFoundIff`. The domain tag
is documented to separate signatures; it does for every nonce but one (`SignedTransactions.FormatsMeetIff`).
bincode's default reader tolerates trailing bytes, and so does `SignedTransactions.FromBincode`. The worker pool
is stepped finer than the program suspends, which allows more schedules.

## Model

| member | source | states |
|---|---|---|
| `Quotes.OutKeepsProduct` | boing-sdk/src/boingPool.ts:164-178 | the quoted output is below the output reserve and never shrinks the reserve product, for every fee up to 100% |
| `Quotes.OutMonotone` | boing-sdk/src/boingPool.ts:164-178 | a larger input is never quoted a smaller output |
| `Quotes.MinOutIsAttainable` | boing-sdk/src/boingPool.ts:181-185 | a minimum exists exactly for a slippage of 0 to 10000; it is the part m of the quote with m*10000 <= quote*(10000-slippage) < (m+1)*10000, or 1 where that is 0, and at most the quote |
| `Quotes.DefaultFeeQuote` | boing-sdk/src/boingPool.ts:164-178 | where a pool stores no fee, 9970 of 10000 input units are traded and the quote is the rounded-down constant-product output of those |
| `Quotes.BabylonianIsqrt` | boing-sdk/src/boingPool.ts:188-200 | the loop ends for every input and returns the exact integer square root, or throws on a negative input |
| `Quotes.Isqrt` | boing-sdk/src/boingPool.ts:188-200 | reference definition: the z with z*z <= y < (z+1)*(z+1) |
| `Quotes.IsqrtUnique` | boing-sdk/src/boingPool.ts:188-200 | there is only one such z |
| `Quotes.FirstCandidate` | boing-sdk/src/boingPool.ts:192-193 | the first candidate y/2+1, which is no Newton step of z = y, is still between the root and y |
| `Quotes.NewtonStaysAbove` | boing-sdk/src/boingPool.ts:194-197 | a Newton step from any positive point does not fall below the root |
| `Quotes.NoProgressMeansRoot` | boing-sdk/src/boingPool.ts:194-199 | a point at which the loop stops is the root |
| `Quotes.VaultDepositIsBalanced` | boing-sdk/src/boingLpVaultV2.ts:102-115 | a balanced deposit quote exists exactly when side A is worth one LP unit; side B is the least amount not below the ratio, side A alone decides the shares, and minShares is what the slippage leaves of them, but at least 1 |
| `Curve.AddIff` | crates/boing-execution/src/native_amm_v8.rs:478-563 | from a sound state a deposit goes through exactly when configured, below 2^64 (v8, v9) or 2^128 (v10, v11) on both sides and, from v10 on, in the supply, and the client's LP quote is positive and at least the minimum; it mints that quote |
| `Curve.MintMatchesQuote` | boing-sdk/src/boingPool.ts:203-226 | in a sound state the client's LP quote is what the pool mints, and its zero-reserve branch is unreachable once LP exists |
| `Curve.AddKeeps` | crates/boing-execution/src/native_amm_v8.rs:478-563 | a deposit keeps the pool sound (LP squared at most the reserve product, supply zero exactly with either reserve, LP balances summing to supply) and never lowers reserveA*reserveB/LP^2 |
| `Curve.RemoveIff` | crates/boing-execution/src/native_amm_v8.rs:565-628 | from a sound state a burn goes through exactly when covered and both quoted outputs meet their minimums; the both-outputs-zero fault never decides |
| `Curve.RemoveKeeps` | crates/boing-execution/src/native_amm_v8.rs:565-628 | a burn keeps the pool sound and never lowers reserveA*reserveB/LP^2 |
| `Curve.SwapIff` | crates/boing-execution/src/native_amm_v8.rs:630-707 | a swap goes through exactly when the input side stays below 2^64 (v8, v9) or 2^128 (v10, v11) and the client's quote at the stored fee, or 0.3% where none is stored, is nonzero and at least the minimum; it pays that quote |
| `Curve.SwapOut` | crates/boing-execution/src/native_amm_v8.rs:657-707 | the output equals the client's quote, lies strictly inside the reserve, and the reserve product does not shrink |
| `Curve.SwapKeeps` | crates/boing-execution/src/native_amm_v8.rs:630-707 | a swap keeps the pool sound, leaves the supply and never lowers reserveA*reserveB/LP^2 |
| `Curve.SupplyBelowLimit` | crates/boing-execution/src/native_amm_v8.rs:478-563 | the LP supply of a sound pool is below the reserve limit, also in v8 and v9 where no code checks it |
| `Curve.FirstMintBound` | crates/boing-execution/src/native_amm_v8.rs:513-526 | min(a,b) and the v11 square root both start with LP squared at most a*b |
| `Curve.ExitIsOpen` | crates/boing-execution/src/native_amm_v8.rs:565-628 | burning any held amount with no minimums never faults, pays at least the burned amount on one side, and burning the whole supply empties both reserves exactly |
| `Curve.AddThenRemoveNeverProfits` | crates/boing-execution/src/native_amm_v8.rs:478-628 | deposit then burn of the minted LP goes through and returns at most what was put in, restoring supply and balance |
| `Curve.SwapBackNeverProfits` | crates/boing-execution/src/native_amm_v8.rs:630-707 | swapping the proceeds straight back never returns more than was put in |
| `Curve.GrowsTransitive` | crates/boing-execution/src/native_amm_v8.rs:478-707 | growth of the product per LP^2 composes through any state with positive supply |
| `Curve.NoFreeDrain` | crates/boing-execution/src/native_amm_v8.rs:478-707 | with equal supply before and after, the product did not fall and the reserves cannot both be no larger with one strictly smaller |
| `Safety.PullEffect` | crates/boing-execution/src/native_amm_v8.rs:274-294 | a pull succeeds exactly when positive, allowed and covered, and moves exactly the amount |
| `Safety.PayEffect` | crates/boing-execution/src/native_amm_v8.rs:296-311 | a payment out of what a pool holds beyond its record arrives in full |
| `Safety.AddEffect` | crates/boing-execution/src/native_amm_v8.rs:478-563 | a deposit that goes through moves both sides to the pool, credits the LP, conserves supplies and touches nobody else |
| `Safety.RemoveEffect` | crates/boing-execution/src/native_amm_v8.rs:565-628 | a burn that goes through pays both outputs in full and keeps the pool covered, even to itself |
| `Safety.SwapEffect` | crates/boing-execution/src/native_amm_v8.rs:630-707 | a swap that goes through moves the input in and the output out, with any recipient including the pool, and keeps every pool covered |
| `Safety.PullsIff` | crates/boing-execution/src/native_amm_v8.rs:536-545 | a deposit's two pulls both succeed exactly when both sides are allowed and covered |
| `Safety.SwapDoneIff` | crates/boing-execution/src/native_amm_v8.rs:630-707 | a swap transaction succeeds exactly when in time, priced and the pull is covered and allowed |
| `Routes.HopsKeep` | crates/boing-execution/src/native_dex_custody_router.rs:134-187 | the router's hop loop keeps every pool covered and sound, conserves supplies and leaves everybody off the path alone |
| `Routes.RouteKeeps` | crates/boing-execution/src/native_dex_custody_router.rs:95-194 | so does a whole route from its pull |
| `Vaults.DepositEffect` | crates/boing-execution/src/native_lp_vault_v2.rs:281-316 | a deposit that goes through grows shares and the vault's LP by the same word, leaves the vault's token balances where they were and no allowance behind |
| `Vaults.WithdrawEffect` | crates/boing-execution/src/native_lp_vault_v2.rs:319-345 | a withdrawal burns shares and the vault's LP together and the pool pays the holder |
| `Runs.PoolCmdGood` | boing-sdk/src/defaultNativeCpPoolBytecodeHex.ts:13-15 | every pool call by a user keeps the joint invariant |
| `Runs.RouteGood` | boing-sdk/src/defaultNativeCpPoolBytecodeHex.ts:20 | every route keeps the joint invariant |
| `Theorems.WithdrawPays` | crates/boing-execution/src/native_lp_vault_v2.rs:319-345 | a vault withdrawal goes through if and only if in time, covered by shares and quoted no less than its minimums, and pays the quote in full |
| `Routing.CheckRoutePath` | boing-sdk/src/boingRouter.ts:63-70 | accepts exactly 1 to 4 hops in which each output token is the next input token |
| `Routing.RoutableIff` | boing-sdk/src/boingRouter.ts:63-77 | hops resolved from live pools can be executed at their quote exactly when they pass the path check, can be quoted, stay within 64 or 128 bits as each pool's version demands, and no pool but the last is v8 |
| `Routing.QuoteRouteLive` | boing-sdk/src/boingRouter.ts:114-123 | the client's loop computes the chained quote, failing at the first hop quoted 0 |
| `Routing.QuoteRouteMonotone` | boing-sdk/src/boingRouter.ts:114-123 | the chained quote is monotone in the input |
| `Routing.QuoteRouteFrame` | boing-sdk/src/boingRouter.ts:114-123 | a quote depends on no pool off its path |
| `Routing.SwapMatchesQuote` | boing-sdk/src/boingPool.ts:164-178 | a quotable hop within limits trades at its quote for every minimum up to it and no other |
| `Routing.SwapIsQuoted` | boing-sdk/src/boingPool.ts:164-178 | whenever a v8 or v9 pool swaps, the client has quoted exactly what it pays |
| `Routing.HopsPayQuote` | crates/boing-execution/src/native_dex_custody_router.rs:134-187 | hop by hop, with no v8 pool before the last, execution succeeds exactly for minimums up to the chained quote and passes every intermediate output on in full |
| `Routing.RoutePaysQuote` | crates/boing-execution/src/native_dex_custody_router.rs:95-194 | a funded, approved, connected route over different pools, none but the last v8, goes through exactly for minimums up to the chained quote, pays the recipient exactly the quote, returns it unless the last pool is v8, and leaves the router's balances as they were |
| `Routing.RouteRunsIff` | crates/boing-execution/src/native_dex_custody_router.rs:134-187 | a funded, approved, connected and quotable route over different pools goes through if and only if it has at most four hops, every hop but the last is on a v9, v10 or v11 pool and the minimum is at most the chained quote; it pays the quote and returns it, or 0 from a last v8 pool |
| `Routing.MiddleMustReturn` | crates/boing-execution/src/native_dex_custody_router.rs:183-186 | every completed hop sequence of any shape has a v9, v10 or v11 pool at every hop but the last: a v8 pool there faults the route |
| `Routing.HopsOutcome` | crates/boing-execution/src/native_dex_custody_router.rs:134-187 | every completed hop sequence, connected or not: all hops but the last name pools, and they leave everybody's holdings beyond recorded reserves alone but the router's |
| `Routing.RouteHonoursMinimumIff` | crates/boing-execution/src/native_dex_custody_router.rs:95-194 | for every recipient, router and pools on the path included: the last hop of a completed route pays it at least the minimum if and only if that hop names a pool; then the router keeps no allowance, otherwise the hop pays nobody, and no earlier step gives anybody but the router anything |
| `Routing.NonPoolHopGoesThrough` | crates/boing-execution/src/native_dex_custody_router.rs:168-187 | such routes exist: a last hop to an account without code or to a token goes through for every minimum |
| `Plans.PlanDeliversIff` | boing-sdk/src/boingCustodySwap.ts:122-169 | a plan made from live state goes through if and only if the input is held, the deadline open, the recipient nonzero and the pool's limit has room; it then pays exactly its quoted output; its minimum gives up no more than the slippage and part of a unit, and its nonces, fee and hop are as asked |
| `Plans.DepositDoneIff` | crates/boing-execution/src/native_lp_vault_v2.rs:281-316 | a deposit into any vault goes through if and only if its signer is an account, the vault is configured on a pool with its pair (or its pair crossed and equal amounts), both sides are held and approved, it is in time and the pool accepts them; it credits what the pool minted |
| `Plans.QuotedDepositMintsIff` | boing-sdk/src/boingLpVaultV2.ts:102-115 | a balanced deposit quoted from the live pool goes through if and only if the pair serves the pool, it is funded, in time and within the pool's limits, and mints exactly the quoted shares; its minimum is what the slippage leaves of them |
| `Plans.DepositFlowIff` | boing-sdk/src/boingLpVaultV2.ts:89-96 | the flow exists if and only if its numbers fit 128 bits; its two approvals and deposit, under consecutive nonces, go through if and only if the signer holds both sides and the vault and pool accept them, whatever was approved before; both approvals are used up |
| `Plans.QuotedWithdrawPaysIff` | boing-sdk/src/boingLpVaultV2.ts:118-126 | a withdrawal with the quoted minimums, which are what the slippage leaves of each output, goes through if and only if in time and covered by shares, and pays the quoted outputs exactly |
| `Settings.StepSettles` | crates/boing-execution/src/native_amm_v8.rs:440-476 | on the ledger every transaction keeps every vault's setup and every pool's pair, fee admin and fee (but for the 0.3% a first deposit stores), except one pool in a setting call that its version allows: v11 binds its admin in set_tokens and asks for it throughout, v8 to v10 only once there is liquidity |
| `Slots.XorSplits` | crates/boing-execution/src/reference_token_v2.rs:13-19 | an exclusive-or of two numbers, cut after any number of bits, is the exclusive-or of the parts |
| `Slots.MasksAreNames` | crates/boing-execution/src/reference_token_v2.rs:30-32 | the four masks are the contracts' names in ASCII, padded with zeros to 32 bytes |
| `Slots.BalanceMeetsAllowance` | crates/boing-execution/src/reference_token_v2.rs:35-44 | the balance slot of h is the allowance slot of owner o and spender s if and only if h and o share their first 16 bytes and the first 16 bytes of s are the last 16 of h under the gap between the two masks |
| `Slots.AllowancesMeet` | crates/boing-execution/src/reference_token_v2.rs:35-44 | two allowance slots are one if and only if owners and spenders agree in their first 16 bytes |
| `Slots.ApartIffOwnSlots` | crates/boing-execution/src/reference_token_v2.rs:13-19 | a condition on the ids alone (Apart) holds if and only if no two slots that the ids own in a token coincide and none is a reserved slot of a token, pool or vault |
| `Slots.PlainHalvesAreApart` | crates/boing-execution/src/reference_token_v2.rs:13-19 | ids are apart whenever their first halves differ from each other, from the names in the masks and from the second halves under the gap |
| `TokenStorage.MovedRefines` | crates/boing-execution/src/reference_token_v2.rs:104-127 | on ids that are apart, the loads, checks and stores of a balance move on slots are the move on a ledger with one balance per holder |
| `TokenStorage.TransferRefines` | crates/boing-execution/src/reference_token_v2.rs:193-198 | so is transfer, the lazy admin slot included |
| `TokenStorage.TransferFromRefines` | crates/boing-execution/src/reference_token_v2.rs:208-221 | so is transfer_from with its allowance slot and its return word |
| `TokenStorage.ApproveRefines` | crates/boing-execution/src/reference_token_v2.rs:201-205 | so is approve |
| `TokenStorage.MintRefines` | crates/boing-execution/src/reference_token_v2.rs:165-190 | so is mint_first with the admin slot 0xf0 and the minted slot 0xf1 |
| `TokenStorage.ApproveOverwrites` | crates/boing-execution/src/reference_token_v2.rs:201-205 | on any ids: approve overwrites the balance of exactly the holders whose slot meets the approval, with the approved amount |
| `TokenStorage.ApproveKeepsBalancesIff` | crates/boing-execution/src/reference_token_v2.rs:201-205 | approve leaves the balances of a set of ids alone if and only if each of them that meets the approval already is the amount |
| `TokenStorage.TransferShiftsAllowance` | crates/boing-execution/src/reference_token_v2.rs:193-198 | on any ids: a transfer adds its amount to exactly the allowances that meet its recipient and takes it from those that meet its sender |
| `TokenStorage.TransferKeepsAllowanceIff` | crates/boing-execution/src/reference_token_v2.rs:193-198 | an allowance survives a transfer if and only if the transfer stops or neither party's balance slot meets it |
| `PoolStorage.PriceAddRefines` | crates/boing-execution/src/native_amm_v8.rs:478-533 | from a sound pool the word checks of add_liquidity accept exactly the deposits of the exact step and price them alike; nothing wraps |
| `PoolStorage.RecordAddRefines` | crates/boing-execution/src/native_amm_v8.rs:536-560 | on ids that are apart its stores are the exact step's new pool |
| `PoolStorage.MintFits` | crates/boing-execution/src/native_amm_v8.rs:478-563 | minting never wraps the supply, also where the code does not check it |
| `PoolStorage.PriceRemoveRefines` | crates/boing-execution/src/native_amm_v8.rs:574-605 | the word checks and outputs of remove_liquidity are the exact step's |
| `PoolStorage.RecordRemoveRefines` | crates/boing-execution/src/native_amm_v8.rs:606-622 | so are its stores |
| `PoolStorage.PriceSwapRefines` | crates/boing-execution/src/native_amm_v8.rs:637-677 | the word checks and the output of a swap are the exact step's |
| `PoolStorage.RecordSwapRefines` | crates/boing-execution/src/native_amm_v8.rs:679-699 | so are its stores, on the side the direction selects |
| `VaultStorage.ShareTransferKeepsConfigIff` | crates/boing-execution/src/native_lp_vault_v2.rs:348-374 | a completed transfer_shares between different holders leaves the vault's set flag, pool, pair and total alone if and only if neither holder's share slot is one of them |
| `VaultStorage.ShareTransferMovesPool` | crates/boing-execution/src/native_lp_vault_v2.rs:348-374 | it does not always: any shares sent to the id whose share slot is 0xe2 move the vault to another pool id |
| `VaultStorage.SharesMovedRefines` | crates/boing-execution/src/native_lp_vault_v2.rs:348-374 | on ids that are apart transfer_shares on slots is the move of shares on the ledger |
| `Refinement.AddRefines` | crates/boing-execution/src/native_amm_v8.rs:478-563 | on ids that are apart and from a sound state, add_liquidity on slots, from lock to lock and with its token calls, is World.DoAdd: same fault, same return word, same new state |
| `Refinement.RemoveRefines` | crates/boing-execution/src/native_amm_v8.rs:565-628 | so is remove_liquidity_to |
| `Refinement.SwapRefines` | crates/boing-execution/src/native_amm_v8.rs:630-707 | so is swap_to |
| `Refinement.HopsRefine` | crates/boing-execution/src/native_dex_custody_router.rs:134-187 | so is the router's run of hops, whatever each hop names |
| `Refinement.RouteRefines` | crates/boing-execution/src/native_dex_custody_router.rs:95-194 | so is a whole route |
| `Refinement.DepositRefines` | crates/boing-execution/src/native_lp_vault_v2.rs:281-316 | so is a vault deposit; no share addition wraps |
| `Refinement.WithdrawRefines` | crates/boing-execution/src/native_lp_vault_v2.rs:319-345 | so is a vault withdrawal |
| `Refinement.TransferSharesRefines` | crates/boing-execution/src/native_lp_vault_v2.rs:348-374 | so is transfer_shares |
| `Refinement.ExecRefines` | crates/boing-execution/src/executor.rs:447-582 | so is every transaction whose holders are among ids that are apart |
| `Deployed.FreshIsSound` | boing-sdk/src/defaultNativeCpPoolBytecodeHex.ts:13-24 | storage never written is sound for every set of ids that are apart and hold its contracts |
| `Deployed.RunRefines` | crates/boing-execution/src/executor.rs:447-582 | over every run whose transactions name only ids that are apart the storage stays sound, and what it shows is the run of what it showed |
| `Deployed.RunIsSolvent` | boing-sdk/src/defaultNativeCpPoolBytecodeHex.ts:13-24 | after any run from deployment on ids that are apart, mixing token, pool, router and vault calls: under each pool's id the balance slots hold at least its reserve slots; LP^2 <= reserveA*reserveB with supply zero exactly when either reserve is; provider slots sum to a supply below the limit; share slots sum to the total and to the vault's own LP slot |
| `Deployed.SupplyIsKept` | crates/boing-execution/src/reference_token_v2.rs:165-190 | once the minted slot is set, the balance slots of the ids sum to the same after every further run on them |
| `Deployed.ProviderCanExit` | boing-sdk/src/boingPool.ts:229-232 | in every reachable storage any provider can burn any part of their LP slot: the transaction does not fault, pays the quoted amounts in full, and the last burn empties the reserve slots |
| `Deployed.SharesCanExit` | boing-sdk/src/boingLpVaultV2.ts:2-5 | the same through a vault: every share slot is redeemable for its part of the pool |
| `Deployed.OnlyOwnersSpend` | boing-sdk/src/defaultNativeCpPoolBytecodeHex.ts:13-24 | an account's balance slot falls only in a transaction it signed, or in a transfer_from by a party whose allowance slot had that much and falls with it |
| `Deployed.PairSlotsAreFixed` | crates/boing-execution/src/native_amm_v8.rs:440-453 | in every run on ids that are apart a configured pool keeps its pair slots and a configured vault its pool and pair slots |
| `Deployed.FeeSlotNeedsAdmin` | crates/boing-execution/src/native_amm_v8.rs:455-476 | in every such run that keeps a pool live its fee admin slot stays, and its fee slot changes only if that admin sets it |
| `Deployed.NoValueLeaves` | boing-sdk/src/defaultNativeCpPoolBytecodeHex.ts:13-15 | in every such run reserveA*reserveB/LP^2 over the pool's slots does not fall, and one that ends on the starting supply cannot leave both reserves no larger and one strictly smaller |
| `Collisions.ApprovalSetsBalance` | crates/boing-execution/src/reference_token_v2.rs:201-205 | without the condition: for every account there is a spender whose approval sets the account's own balance to any amount |
| `Collisions.CreditBreaksSolvency` | crates/boing-execution/src/reference_token_v2.rs:193-221 | without the condition: a transfer to an id whose balance slot is an allowance slot of a pool, then transfer_from, leave an exactly backed pool below its reserve without a call to it |
| `Chain.Chain.MoveBalance` | crates/boing-execution/src/reference_token_v2.rs:104-127 | in every state: debit and credit on slots with the wrap check, or no store at all, as TokenStorage.Moved |
| `Chain.Chain.Transfer` | crates/boing-execution/src/reference_token_v2.rs:193-198 | in every state equals TokenStorage.Transferred |
| `Chain.Chain.TransferFrom` | crates/boing-execution/src/reference_token_v2.rs:208-221 | in every state equals TokenStorage.TransferredFrom, return word included |
| `Chain.Chain.Approve` | crates/boing-execution/src/reference_token_v2.rs:201-205 | in every state equals TokenStorage.Approved and returns 1 |
| `Chain.Chain.MintFirst` | crates/boing-execution/src/reference_token_v2.rs:165-190 | in every state equals TokenStorage.Minted |
| `Chain.Chain.PullCall` | crates/boing-execution/src/native_amm_v8.rs:274-294 | pulls exactly when the token returns 1 |
| `Chain.Chain.PayCall` | crates/boing-execution/src/native_amm_v8.rs:296-311 | skips zero, pays through a token, faults on another contract of the exchange |
| `Chain.Chain.RootOfWord` | crates/boing-execution/src/native_amm_v8.rs:230-272 | the v11 square-root loop on words returns the exact root and no sum in it wraps |
| `Chain.Chain.PriceAdd` | crates/boing-execution/src/native_amm_v8.rs:478-533 | the loads, checks and words of add_liquidity equal PoolStorage.PriceAdd in every state |
| `Chain.Chain.AddLiquidity` | crates/boing-execution/src/native_amm_v8.rs:478-563 | one call from lock to lock equals Machine.AddLiquidity in every state, fault for fault |
| `Chain.Chain.RemoveLiquidity` | crates/boing-execution/src/native_amm_v8.rs:565-628 | one call equals Machine.RemoveLiquidity; the pair is loaded after the stores |
| `Chain.Chain.SwapTo` | crates/boing-execution/src/native_amm_v8.rs:630-707 | one call equals Machine.SwapTo |
| `Chain.Chain.RunHops` | crates/boing-execution/src/native_dex_custody_router.rs:134-187 | the loop over the hops equals Machine.Hops |
| `Chain.Chain.Route` | crates/boing-execution/src/native_dex_custody_router.rs:95-194 | one call equals Machine.Route |
| `Chain.Chain.Deposit` | crates/boing-execution/src/native_lp_vault_v2.rs:281-316 | one call equals Machine.Deposit |
| `Chain.Chain.Withdraw` | crates/boing-execution/src/native_lp_vault_v2.rs:319-345 | one call equals Machine.Withdraw; the pool slot is loaded after the shares are burnt |
| `Chain.Chain.TransferShares` | crates/boing-execution/src/native_lp_vault_v2.rs:348-374 | one call equals Machine.TransferShares; the recipient's slot is read after the debit |
| `Chain.Chain.Execute` | crates/boing-execution/src/executor.rs:447-582 | checkpoint, run, restore on fault: the new storage is Machine.Step in every state |
| `Chain.Chain.ExecuteAll` | crates/boing-execution/src/executor.rs:447-582 | a block of transactions is Machine.Run, to which the run results above apply |
| `HeightRanges.MergeRanges` | boing-sdk/src/indexerGaps.ts:29-48 | the checks, the sort and the widening loop compute Merge, or throw on an invalid range |
| `HeightRanges.MergeNormalizes` | boing-sdk/src/indexerGaps.ts:29-48 | merging succeeds exactly on valid ranges and yields the same heights sorted and separated by at least one missing height |
| `HeightRanges.NormalFormUnique` | boing-sdk/src/indexerGaps.ts:29-48 | two normal lists of the same heights are equal |
| `HeightRanges.MergeIsCanonical` | boing-sdk/src/indexerGaps.ts:29-48 | inputs denoting the same heights merge to the same list |
| `HeightRanges.UnionLaws` | boing-sdk/src/indexerGaps.ts:51-56 | union is set union and, as lists, commutative, associative and idempotent |
| `HeightRanges.SubtractRange` | boing-sdk/src/indexerGaps.ts:76-88 | the loop over merged gaps computes Subtract, or throws |
| `HeightRanges.SubtractOneExact` | boing-sdk/src/indexerGaps.ts:58-70 | cutting one gap leaves exactly its other heights, in normal form |
| `HeightRanges.PiecesNormal` | boing-sdk/src/indexerGaps.ts:76-88 | the pieces of a normal list are already normal |
| `HeightRanges.SubtractIsDifference` | boing-sdk/src/indexerGaps.ts:76-88 | subtraction is exact set difference in normal form and its final merge is the identity |
| `Ingestion.PlanIsTight` | boing-sdk/src/indexerSync.ts:120-144 | a valid tick plans a fetch if and only if the cursor is below min(head, finalized) and is idle otherwise; a planned range starts at cursor+1, stays at or below min(head, finalized) and the cap, and is as long as they allow |
| `Ingestion.FullTickAdvances` | boing-sdk/src/indexerGaps.ts:135-153 | a tick that fetches all it plans moves the cursor to the end of the plan |
| `Ingestion.FullTicksCatchUp` | boing-sdk/src/indexerSync.ts:120-144 | n such ticks with cap c put the cursor exactly at min(tip, cursor + n*c), so enough of them reach the durable tip |
| `Ingestion.MergeOmitted` | boing-sdk/src/indexerBatch.ts:215-232 | the single pass over ascending heights computes their runs |
| `Ingestion.RunsAreTheMerge` | boing-sdk/src/indexerBatch.ts:215-232 | that single pass equals the general merge of one range per height |
| `Ingestion.SummarizeGaps` | boing-sdk/src/indexerBatch.ts:239-286 | the set, the omission list, the runs and the watermark loop compute Summary, or throw |
| `Ingestion.SummaryExact` | boing-sdk/src/indexerBatch.ts:239-286 | omitted and missing denote requested minus fetched exactly, and the watermark is the greatest height with everything up to it fetched |
| `Ingestion.CursorStopsAtHole` | boing-sdk/src/indexerGaps.ts:135-153 | the next cursor stops exactly before the first height not fetched |
| `Ingestion.CursorNeverMovesBackIff` | boing-sdk/src/indexerGaps.ts:135-153 | the cursor does not move back exactly when the requested range does not end below it |
| `Ingestion.EmptyRangeMovesCursorBack` | boing-sdk/src/indexerGaps.ts:135-153 | a summary of an empty range does move it back |
| `Ingestion.TickKeeps` | boing-sdk/src/indexerSync.ts:120-144 | one plan, fetch with arbitrary omissions, summary and advance keeps: all heights up to the cursor fetched, requested heights fetched or in a gap, gaps normal |
| `Ingestion.BackfillKeeps` | boing-sdk/src/indexerGaps.ts:76-88 | a backfill keeps the same and removes exactly its heights from the gaps |
| `Ingestion.EveryRunIsComplete` | boing-sdk/src/indexerGaps.ts:135-153 | over every run of ticks and backfills with arbitrary tips, caps and omissions these hold and the cursor never moves back |
| `Ingestion.EveryRunFromFresh` | boing-sdk/src/indexerGaps.ts:135-153 | so in every history from a fresh indexer: all heights up to the cursor fetched, every requested height fetched or in a stored gap, gaps in normal form |
| `WorkerPool.StepKeeps` | boing-sdk/src/indexerBatch.ts:38-48 | every worker step under any interleaving keeps: each index claimed once, in flight or stored with its own outcome |
| `WorkerPool.StepCounts` | boing-sdk/src/indexerBatch.ts:38-48 | every step of any worker brings the end exactly one step closer |
| `WorkerPool.EverySchedule` | boing-sdk/src/indexerBatch.ts:25-53 | for every schedule: no index claimed twice, at most min(limit, n) in flight, exactly 2n + min(limit, n) claim and store steps to the end, no deadlock, and at the end result i is the outcome of item i |
| `WorkerPool.AllFinishedMeansDone` | boing-sdk/src/indexerBatch.ts:50-52 | when all workers have returned every result is its item's outcome |
| `WorkerPool.Pool.Turn` | boing-sdk/src/indexerBatch.ts:38-48 | one turn on the shared counter, results and workers is one step of the system |
| `WorkerPool.MapWithConcurrencyLimit` | boing-sdk/src/indexerBatch.ts:25-53 | with the next worker chosen arbitrarily at every turn, result i is fn(items[i], i); a limit below 1 throws |
| `LogChunks.PlanLogBlockChunks` | boing-sdk/src/indexerBatch.ts:58-77 | the loop computes Chunks, or throws on a span below 1 |
| `LogChunks.ChunksTile` | boing-sdk/src/indexerBatch.ts:58-77 | the chunks partition the range in order, each within the span |
| `LogChunks.ChunkCount` | boing-sdk/src/indexerBatch.ts:58-77 | their number is the block count divided by the span, rounded up |
| `LogChunks.ChunksAreFewest` | boing-sdk/src/indexerBatch.ts:58-77 | no cover of the range by spans of that size has fewer parts |
| `LogChunks.GetLogsChunked` | boing-sdk/src/indexerBatch.ts:98-126 | plan, concurrent queries, flatten and sort return exactly the rows of all chunks, by block, then transaction, then log, or throw |
| `LogChunks.OrderedUnique` | boing-sdk/src/indexerBatch.ts:79-83 | with distinct keys there is one ordering of a bag of rows |
| `LogChunks.ChunkedEqualsWhole` | boing-sdk/src/indexerBatch.ts:98-126 | against a node that returns exactly the matching rows, the chunked answer equals the sorted answer of one query, for every range and span |
| `Bincode.NumberOfLE` | boing-sdk/src/bincode.ts:166-186 | writing w little-endian bytes keeps the integer modulo 256^w, negative integers included |
| `Bincode.SameBytesIffCongruent` | boing-sdk/src/bincode.ts:166-186 | two integers are written alike exactly when congruent modulo 256^w |
| `Bincode.RoundTrip` | docs/BOING-SIGNED-TRANSACTION-ENCODING.md:13-101 | for every layout and value it admits, whatever bytes follow, decoding the encoding gives back the value and leaves what followed |
| `Bincode.DecodeIsSound` | docs/BOING-SIGNED-TRANSACTION-ENCODING.md:13-101 | nothing else decodes: the bytes consumed are the encoding of an admitted value |
| `Bincode.PrefixFree` | docs/BOING-SIGNED-TRANSACTION-ENCODING.md:13-101 | every layout's encoding is prefix-free |
| `Transactions.ValidateBatchCalls` | boing-sdk/src/bincode.ts:108-131 | the loop returns the first reason to refuse a batch, or none |
| `Transactions.NodeValidateBatchCalls` | crates/boing-primitives/src/types.rs:811-850 | the node's loop with checked addition gives the same reason on every batch the node can hold |
| `Transactions.BatchAmountsFit` | boing-sdk/src/bincode.ts:108-131 | passing the batch check alone makes every amount fit 128 bits |
| `Transactions.WriteU128Le` | boing-sdk/src/bincode.ts:178-186 | the byte loop writes the 16-byte little-endian form of any integer |
| `Transactions.ConcatBytes` | boing-sdk/src/bincode.ts:155-164 | sizing then copying every part to its offset is concatenation |
| `Transactions.EncodeVecAccountIds` | boing-sdk/src/bincode.ts:188-195 | count and ids, or a throw on an id that is not 32 bytes |
| `NodeFormat.SameDiscriminant` | boing-sdk/src/bincode.ts:11-75 | the SDK's 40 discriminants are the node's declaration positions |
| `NodeFormat.SameLayout` | crates/boing-primitives/src/types.rs:512-769 | the fields of each payload have the layout the node declares at that position |
| `NodeFormat.FieldsMatch` | boing-sdk/src/bincode.ts:361-650 | the SDK's bytes for each payload are its fields' encoding; it takes a payload if and only if its own rules (1 to 16 batch calls with totals in range, 1 to 10 years, a 64-byte node signature) hold and the node can hold every field it looks at; what it takes the node can hold exactly when canonical |
| `NodeFormat.AcceptedBatch` | boing-sdk/src/bincode.ts:133-153 | every call of an accepted batch is one the node can hold |
| `NodeFormat.EvidenceIsSound` | crates/boing-primitives/src/equivocation.rs:13-17 | evidence bytes stand for two votes exactly when 288 long with both signature lengths in place |
| `TransactionCodec.BodyIsSound` | boing-sdk/src/bincode.ts:665-673 | an encoded transaction is the node's encoding of its value exactly when canonical with a 32-byte sender |
| `TransactionCodec.NodeReadsBackIff` | boing-sdk/src/bincode.ts:665-673 | the SDK encodes a transaction and the node reads it back, leaving exactly what follows, if and only if the node's types can hold it and the SDK's rules allow it |
| `TransactionCodec.EncodesIff` | boing-sdk/src/bincode.ts:361-673 | the SDK encodes a transaction if and only if its rules allow the payload and the node can hold the transaction with the nonce and the fields it writes unchecked zeroed; otherwise it throws |
| `TransactionCodec.EncodesWhatFits` | boing-sdk/src/bincode.ts:361-673 | every transaction the node can hold and the rules allow is encoded, and decodes to itself |
| `TransactionCodec.PayloadComesBack` | crates/boing-primitives/src/types.rs:512-769 | the payload is recovered from the node's value of it, for all 40 variants |
| `TransactionCodec.DecodeInvertsEncode` | boing-sdk/src/bincode.ts:665-673 | a decoder inverts the SDK's encoding of every canonical transaction, whatever follows |
| `TransactionCodec.EncodingIsPrefixFree` | boing-sdk/src/bincode.ts:665-673 | the encoding of canonical transactions is prefix-free and injective |
| `TransactionCodec.NoncesCollideIff` | boing-sdk/src/bincode.ts:172-176 | two nonces give the same bytes exactly when congruent modulo 2^64 |
| `SignedTransactions.NodeReadsSigned` | crates/boing-primitives/src/signature.rs:368-381 | every encodable transaction with a 64-byte signature is sent, and the node's two-layout reader recovers transaction, signature and tip |
| `SignedTransactions.NodeHashesUntipped` | crates/boing-primitives/src/signature.rs:100-109 | the untipped signing preimage reads as the letters BOING_TX_V2, the chain id and the transaction, with nothing left: what the node hashes |
| `SignedTransactions.NodeHashesTipped` | crates/boing-primitives/src/signature.rs:116-133 | the tipped one as BOING_TX_PRIORITY, the chain id, the transaction and last the tip |
| `SignedTransactions.TippedBodyIsFound` | boing-sdk/src/bincode.ts:760-783 | the id parser finds exactly the encoded body of every tipped transaction |
| `SignedTransactions.UntippedBodyIsFoundIff` | boing-sdk/src/bincode.ts:760-783 | for an untipped one it does if and only if the access list does not put a length of 64 sixteen bytes before the body's end; otherwise it stops 16 bytes short |
| `SignedTransactions.MisreadExample` | boing-sdk/src/bincode.ts:760-783 | for every account with those bytes and every signature, a transaction on which the parser takes too few bytes |
| `SignedTransactions.PreimagesSeparate` | boing-sdk/src/bincode.ts:714-747 | signing preimages are injective in chain id, transaction and tip, across both domains |
| `SignedTransactions.FormatsSeparate` | boing-sdk/src/bincode.ts:693-747 | a first-format preimage equals a chain-bound one only for the one nonce, above 2^56, that spells the domain |
| `SignedTransactions.FormatsMeet` | boing-sdk/src/bincode.ts:693-747 | for that nonce it does happen: a family of signable deploys and claims with equal preimages |
| `SignedTransactions.FormatsMeetIff` | boing-sdk/src/bincode.ts:693-747 | so the two formats share a nonce if and only if it is that one |
| `Words.WrapsModuloWord` | crates/boing-execution/src/interpreter.rs:278-298 | the word addition and subtraction used throughout are reduction modulo 2^256 |

## Left out

- Pools v1 to v7, token v1, the secured token, NFT, registry and wrapped-coin bytecode: superseded, and they would add members of the same kind.
- Tokens other than the reference token v2, and third-party contracts as hops or vault targets: a call to an account outside the exchange is modelled as a call to an account without code.
- Gas, logs and call depth. The router's lock is its only slot, is set and cleared within one call, and is left out.
- Routing and Plans speak of the ledger; on ids that are apart Refinement.ExecRefines carries them to the storage.
- Network fees, priority tips charged by the executor and account nonces: outside the contracts' storage.
- Calldata and deploy builders, canonical addresses, access-list suggestions, name normalisation and hex parsing: constants and easy members.
- Ed25519 and BLAKE3: no statement about signatures or hash collisions.
- UTF-8 validity of strings, which the node checks and the SDK's text encoder guarantees.
- Non-integer JavaScript numbers, which several functions refuse with a TypeError.
- The JSON-RPC client, retries, connection monitor and wallet bridges.
- Safety.SwapDoneIff: callers that are pools are excluded, because pools never call pools.
- Routing.RoutePaysQuote: pools on the path are pairwise different and intermediate pools return their output, as the quote reads every reserve before the route changes any.
- Collisions.CreditBreaksSolvency: one token side and one pool, as a counterexample needs no more.
- WorkerPool.MapWithConcurrencyLimit: a call that throws and an abort signal are not modelled.
- LogChunks.ChunkedEqualsWhole: a node that caps its result size is not modelled, and rows have distinct (height, transaction, log) keys.
