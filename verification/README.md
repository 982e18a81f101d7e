# DasCoin node: a Dafny model

DasCoin is a Graphene-style blockchain node: a deterministic state machine fed by blocks, with a
tree of competing branches underneath it and an exchange, a crowd-sale platform and a minting
queue on top. This project models the parts of the node that carry real invariants, and proves
them for every input, every run or every reachable state.

How the pieces are modelled:

- An in-place object (`fork_database`, `database`, `undo_database`, the evaluators' view of the
  object database) is a class whose methods change its fields. Each method is proved equal to a
  function on values, and the laws are proved about those functions. Loops are loops.
- `share_type` is an unbounded `int`; an `FC_ASSERT` or a thrown exception is `None`, `Failure`
  or a `false` result, and the state is then what it was before.
- A block id is the block under a constructor (`HashOf`), that is, the hash is taken as collision
  free. An id fixes the block and all its ancestors.
- Applying a block is a parameter: `Rules.apply` is any deterministic, partial function on object
  states. Clocks, oracle prices, votes and the rounding of floating point shares are parameters.
- Balance objects are found by owner and asset; they are never removed.

| files | what they hold |
|---|---|
| `Blocks`, `ForkDatabase`, `ForkSwitch`, `ChainDatabase`, `GenesisFork` | the block tree, the sliding window of cached blocks, what a push comes to, popping, fork switch and restore |
| `UndoDatabase` | undo sessions over the object store: record, revert, merge |
| `Ledger`, `LedgerActions` | balances, supplies, fees; transfers, fee payments, issue, burn, claims, cycle purchases |
| `Prices`, `Market`, `OrderBook`, `MarketPayments`, `Exchange`, `FeeOnNothing`, `OutOfReach` | exact prices, matching, the sorted book, who is paid, creates and cancels; a fee on nothing, an offer that is not found |
| `Settlement` | global settlement of a market-issued asset and redemption from the fund |
| `PledgeTerms`, `Das33`, `Das33Accounting`, `Das33Payments` | crowd-sale pledges, distribution and rejection, who is paid |
| `RewardQueue` | the queue that turns cycles into DasCoin |
| `Conservation` | all ledger operations together: nothing is made or lost |
| `WitnessSchedule`, `Irreversible`, `Maintenance` | slots and shuffle, last irreversible block, maintenance clock and budget |
| `Synopsis`, `Sync`, `PoppedBlocks`, `MemberIndex`, `AmountText` | sync summaries and answers, over the chain database; what popped blocks do to them; the authority index; amounts as text |
| `Wrappers`, `Sums`, `Arithmetic`, `Permutations` | results, sums over sequences, floor division, reordering |

Where the code does not do what its comments or assertions promise, the code is modelled as it is,
with a concrete witness and the exact condition:

- A failed fork switch does not always restore the old chain. `ForkSwitch.PopFails` is the exact
  condition, tied to the outcome `Stuck` by `ChainDatabase.PushBlock`; `ForkSwitch.PopFailsExactly`
  and `ForkSwitch.OneLonger` reduce it for the windows the node reports. `GenesisFork.Demonstrate`
  pushes three blocks into an empty database and ends on the wrong one.
- `pay_market_fees` asserts that the fee is at most the proceeds. It is not for a taker that
  receives nothing (`Market.FeeWithinProceeds`), which happens exactly if what it offers is worth
  less than one unit (`Exchange.NothingToReceive`); `FeeOnNothing.FeeExceedsProceeds` is a run of
  three orders in which it does.
- `apply_order` does not always leave an uncrossed book. It searches from the highest price on, and
  misses orders above it: exactly those are missed (`OrderBook.RangeIsExact`), and the book stays
  uncrossed over a run exactly if no order that stays misses one (`Exchange.RunUncrossedExactly`,
  `Conservation.RunUncrossedExactly`). `OutOfReach.LeavesBookCrossed` is a run of two orders.
- The cap on DasCoin can be passed by rounding: `RewardQueue.PassesCapExactly` says by which
  operation, `RewardQueue.RunTotal` over a run, and `RewardQueue.CapMayBeExceeded` is a run from the
  empty queue; `RewardQueue.RunTracked` bounds the excess.
- A new phase limit can be set below what is already sold (`Das33Accounting.UpdateUndercutsExactly`,
  `Das33Accounting.MayUndercut`), a pledge cut at a limit can be free (`PledgeTerms.FreeExactly`,
  `PledgeTerms.CutMayBeFree`), and a sale can take a token past its own maximum if units exist that
  it did not sell: `Das33Accounting.PassesMaximumExactly` says by which operation,
  `Das33Accounting.StaysWithinMaximum` when no run can, and `Das33Accounting.MayPassMaximum` is an
  instance.
- Popped blocks stay on file above the head. A synopsis for one of them leaves its line exactly if
  the file does (`Synopsis.SummaryIsGood`), and a peer that still has one is answered with an error
  or with nothing exactly if the search meets it (`Synopsis.AnswerContinues`).
  `PoppedBlocks.Demonstrate` reaches both with five pushes and two pops.
- A minus sign is accepted anywhere in an amount: `AmountText.SignedIsTurned` says what is read then,
  and `AmountText.MisplacedSign` is a text with the sign in the middle.

## Model

| member | source | states |
|---|---|---|
| Blocks.ForkPointIsCommon | libraries/chain/fork_database.cpp:197-239 | the point where the two backward walks stop is an ancestor of both blocks and lies strictly below both |
| Blocks.ForkPointIsMostRecent | libraries/chain/fork_database.cpp:197-239 | if neither block is an ancestor of the other, every common ancestor is an ancestor of the fork point |
| Blocks.ForkPointOfAncestor | libraries/chain/fork_database.cpp:197-239 | if one block is an ancestor of the other, both walks end in that ancestor, one step before its parent |
| ForkDatabase.PushedHead | libraries/chain/fork_database.cpp:57-104 | a push never lowers the head, returns the higher of head and new block, and adds nothing else to the cache |
| ForkDatabase.PushedKeeps | libraries/chain/fork_database.cpp:87-104 | a cached block stays exactly if it is within the window of a new head; the objects that stay are the same |
| ForkDatabase.PushRefusedExactly | libraries/chain/fork_database.cpp:73-89 | a push is refused exactly if there is a head and the block is a whole window below it, or names a previous block that is not cached; which of the two errors it is |
| ForkDatabase.PushLinks | libraries/chain/fork_database.cpp:82-104 | what is put into the cache is the block, linked to the cached object of the block it names; the head is kept exactly if it is at least as high |
| ForkDatabase.RunLinks | libraries/chain/fork_database.cpp:57-104 | over any run of pushes from an empty cache the head is cached and the highest block, and every block but the first leads to the cached object of the block it names, until that is a whole window below the head |
| ForkDatabase.LockExactly | libraries/chain/fork_database.cpp:38-44 | a weak parent pointer leads to an object exactly if it was set and that very object, not another one of the same block, is still owned |
| ForkDatabase.ResizedKeeps | libraries/chain/fork_database.cpp:127-156 | a new window keeps exactly the blocks that are not further below the head than it is |
| ForkDatabase.BranchesDisjoint | libraries/chain/fork_database.cpp:197-239 | the branches of two incomparable blocks share no block |
| ForkDatabase.BranchEnd | libraries/chain/fork_database.cpp:197-239 | a branch is a gap-free parent chain that ends in the child of the fork point |
| ForkDatabase.ForkDatabase.PushBlock | libraries/chain/fork_database.cpp:57-104 | in place: which blocks are refused, in both directions, and that nothing changes then; the new cache and head, the new object linked to the cached object of its previous block |
| ForkDatabase.ForkDatabase.SetMaxSize | libraries/chain/fork_database.cpp:127-156 | the erase loop keeps exactly the blocks inside the window below the head |
| ForkDatabase.ForkDatabase.PopBlock | libraries/chain/fork_database.cpp:38-44 | the head moves to its parent exactly if the weak parent pointer still leads to a live object |
| ForkDatabase.ForkDatabase.FetchBranchFrom | libraries/chain/fork_database.cpp:197-239 | succeeds exactly if both blocks are cached and both walks find live parents; gives the two branches down to the fork point |
| ChainDatabase.ChainDatabase.PopBlock | libraries/chain/db_block.cpp:457-469 | exactly when a pop succeeds; head and undo stack go back one block, its transactions go in front of the popped queue; the head of the cache moves even if the undo state is missing |
| ChainDatabase.ChainDatabase.ApplyAndStore | libraries/chain/db_block.cpp:189-196 | one session: the block applies exactly if it extends the head and its line replays; otherwise head, state and store are unchanged; the new undo stack and both windows, applied or not |
| ChainDatabase.ChainDatabase.PopUntil | libraries/chain/db_block.cpp:178-183 | how many blocks are popped, and the head, undo stack, queue and cache after it; it gets to the fork point exactly if there are enough undo states and live parents |
| ChainDatabase.ChainDatabase.ApplyBranch | libraries/chain/db_block.cpp:185-228 | applies a branch oldest first up to the first block that does not replay; the exact undo depth and cache it leaves |
| ChainDatabase.ChainDatabase.Unwind | libraries/chain/db_block.cpp:197-227 | the restore handler: it completes exactly if the applied blocks can be popped, and then the head is the old head and their transactions are queued; otherwise where it breaks off |
| ChainDatabase.ChainDatabase.SwitchTo | libraries/chain/db_block.cpp:176-229 | a switch ends at the new head, or back at the old head with all transactions queued, or stuck; stuck exactly if popping fails; head, queue, undo depth and cache it leaves in each case |
| ChainDatabase.ChainDatabase.PushBlock | libraries/chain/db_block.cpp:159-247 | which outcome a push has, from the cache, the old head, the undo depth and the rules; unlinked exactly if there is a head and the block is too low or its previous block is not cached; the database after it, stuck or not; whenever the chain is not moved, head, object state and stored blocks up to the head are those before |
| ChainDatabase.ChainDatabase.PushAll | libraries/chain/db_block.cpp:159-247 | over any run of pushes the object state is the replay of the chain; unless a push gets stuck the chain is only ever replaced by a longer one; valid blocks on top of each other extend it to the last of them |
| ChainDatabase.ExtendsInStep | libraries/chain/db_block.cpp:159-247 | if cache and chain have the same head, a valid block on top of it is always applied, and they still have |
| ChainDatabase.ClimbsOrStays | libraries/chain/db_block.cpp:159-247 | every push that is not stuck leaves the head, or a higher one |
| ForkSwitch.PopFailsExactly | libraries/chain/db_block.cpp:178-226 | for windows that reach the irreversible block, a fork not much longer than the old branch, and a cached head object: a switch is not all-or-nothing exactly if the undo history is shorter than the old branch, or a refused branch reached the old height and the fork point is not cached far enough back |
| ForkSwitch.AdoptsLongerFork | libraries/chain/db_block.cpp:176-229 | a higher fork that is cached and replays is adopted if there are undo states for the blocks it replaces |
| ForkSwitch.OneLonger | libraries/chain/db_block.cpp:178-226 | for a fork one block longer those windows always suffice, and only the fork point itself can be missing |
| ForkSwitch.GaugeReaches | libraries/chain/db_update.cpp:100-101 | windows of the distance to the irreversible block keep an undo state for every applied block and the cache down to the first window |
| ForkSwitch.TrimmedIs | libraries/db/undo_database.cpp:33-46 | the newest undo states stay, as many as the maximum allows |
| ForkSwitch.GenesisForkSticks | libraries/chain/db_block.cpp:197-226 | a fork from block 1 that is refused at or above the old height has the outcome stuck, whatever the undo depth and the windows |
| ForkSwitch.WalkForgets | libraries/chain/db_block.cpp:197-226 | removing the refused branch never changes how far the old head can be walked back |
| ForkSwitch.RefusedAreForgotten | libraries/chain/db_block.cpp:197-212 | after a restore none of the refused blocks is cached |
| ForkSwitch.ReplayPrefix | libraries/chain/db_block.cpp:159-247 | every prefix of a line that replays also replays |
| GenesisFork.Demonstrate | libraries/chain/db_block.cpp:159-247 | from an empty database three pushes end in extended, ignored and stuck, on the other block number 1, with the window of 2 that block 1 reports |
| GenesisFork.GetsStuck | libraries/chain/db_block.cpp:197-226 | the third push is stuck however deep the undo stack |
| UndoDatabase.RevertRestores | libraries/db/undo_database.cpp:95-123 | reverting a record gives back exactly the store the session was opened in, ids included |
| UndoDatabase.ChangesAre | libraries/db/include/graphene/db/generic_index.hpp:57-95 | what creating, modifying and removing do to the store: that object, the counter of its kind for a creation, and nothing else |
| UndoDatabase.CreateDescribes | libraries/db/undo_database.cpp:47-59 | after a creation the record still describes the way back to the opening store |
| UndoDatabase.ModifyDescribes | libraries/db/undo_database.cpp:60-72 | the same for a modification: only the first old value of an object is kept |
| UndoDatabase.RemoveDescribes | libraries/db/undo_database.cpp:73-93 | the same for a removal, of old and of newly created objects |
| UndoDatabase.MergeDescribes | libraries/db/undo_database.cpp:125-244 | the merge table: the merged record describes both sessions together, in every combination of cases |
| UndoDatabase.NeverReused | libraries/db/undo_database.cpp:125-244 | an id that was removed in one session is not created again in the next |
| UndoDatabase.MergeRecords | libraries/db/undo_database.cpp:125-244 | the three loops of a merge compute that table |
| UndoDatabase.UndoDatabase.StartSession | libraries/db/undo_database.cpp:33-46 | a session opens on the current store; the oldest records beyond the maximum are dropped, those of active sessions exactly if there are more of them than the maximum |
| UndoDatabase.UndoDatabase.Undo | libraries/db/undo_database.cpp:95-123 | the store is the snapshot the top session was opened in |
| UndoDatabase.UndoDatabase.MergeTop | libraries/db/undo_database.cpp:131-244 | exactly when it succeeds; the top session joins the one below, which still goes back to its own snapshot |
| UndoDatabase.UndoDatabase.PopCommit | libraries/db/undo_database.cpp:251-287 | exactly when it succeeds, and then the store is the snapshot of the last committed record |
| UndoDatabase.UndoDatabase.ChangeAll | libraries/db/undo_database.cpp:47-93 | creations, modifications and removals in any order, recorded in the open session |
| UndoDatabase.UndoDatabase.CommitAndPop | libraries/db/undo_database.cpp:245-287 | any changes that are committed as one session and popped again leave the store as it was |
| Ledger.AdjustMoves | libraries/chain/db_balance.cpp:190-236 | an adjustment changes what is held of one asset by exactly its amount and overdraws nobody |
| Ledger.AdjustPays | libraries/chain/db_balance.cpp:190-236 | it changes the balance of the named account and of no other |
| Ledger.AdjustAcceptedExactly | libraries/chain/db_balance.cpp:190-236 | an adjustment is refused exactly if it would overdraw the cash or the reserve, or is the first one and not a credit of cash |
| Ledger.AdjustKeepsObjects | libraries/chain/db_balance.cpp:190-236 | a balance object is never removed |
| Ledger.IssueMoves | libraries/chain/db_balance.cpp:171-188 | issuing adds the same amount to balances and supply |
| Ledger.RawAcceptedExactly | libraries/chain/db_balance.cpp:171-188 | raw changes, supply and fees are changed exactly if the balance or the asset is there |
| LedgerActions.ApplyKeeps | libraries/chain/evaluator.cpp:88-116 | every ledger operation keeps balances plus fees less supply, for every asset, and overdraws nobody |
| LedgerActions.ApplyPays | libraries/chain/cycle_evaluator.cpp:429-471 | every ledger operation pays and charges exactly the accounts it names |
| LedgerActions.ApplySupplies | libraries/chain/asset_evaluator.cpp:176-217 | how every ledger operation changes the supply of every asset, and its accumulated fees: only claims take from them |
| LedgerActions.ApplyAcceptedExactly | libraries/chain/cycle_evaluator.cpp:429-537 | a ledger operation is accepted exactly if the amount is positive, the payer can pay, the fee can be collected, the maximum is kept, and the balances and assets it needs are there |
| LedgerActions.ActionsCancel | libraries/chain/asset_evaluator.cpp:176-217 | the two sides of every ledger operation cancel, for every asset |
| LedgerActions.LedgerDatabase.ChargeFee | libraries/chain/evaluator.cpp:88-116 | a fee leaves the payer and goes to the fee pool, or out of the supply; all or nothing |
| LedgerActions.LedgerDatabase.ClaimAccumulated | libraries/chain/asset_evaluator.cpp:570-585 | claimed fees go from the accumulator to the issuer; never more than accumulated |
| Prices.LessTransitive | libraries/chain/protocol/asset.cpp:43-54 | the price order by cross multiplication is transitive |
| Market.TradeFailsExactly | libraries/chain/db_market.cpp:220-261 | the amounts of a trade cannot be computed exactly if the taker is used up and would buy more than the maximum share supply |
| Market.TradeIsFair | libraries/chain/db_market.cpp:220-261 | in every trade neither side pays more than it offers, one side is used up, and the maker gets at least one unit |
| Market.TradeKeepsLimits | libraries/chain/db_market.cpp:220-261 | each side receives at least what its own limit price asks for what it pays, rounded down |
| Market.FeeWithinProceeds | libraries/chain/db_market.cpp:633-673 | for valid fee options the market fee is at most the proceeds exactly if there are proceeds or nothing is charged |
| Market.FeeIsPercentage | libraries/chain/db_market.cpp:633-673 | the fee is the one number that is the percentage of the proceeds rounded down, at least one unit and at most the maximal fee; none if the asset does not charge |
| FeeOnNothing.FeeExceedsProceeds | libraries/chain/db_market.cpp:633-673 | a run of three creates from an empty book: one unit is left over, buys nothing, and is charged a fee of one |
| OutOfReach.LeavesBookCrossed | libraries/chain/db_market.cpp:158-207 | a run of two creates from an empty book that leaves two crossing orders unmatched, one of them above the highest price |
| MarketPayments.MatchPays | libraries/chain/db_market.cpp:220-355 | a match pays each receiver the other side's payment less the percentage fee of that asset, refunds a dust maker, and touches nobody else |
| MarketPayments.PayOutPays | libraries/chain/db_market.cpp:621-673 | proceeds less the percentage fee go to the receiver, the fee to the asset's accumulator |
| MarketPayments.CancelPays | libraries/chain/db_market.cpp:111-135 | the unsold part of an order goes back to its seller, to the reserve if it came from there |
| OrderBook.RangeIsExact | libraries/chain/db_market.cpp:179-190 | the iterator range of `apply_order` holds exactly the orders that cross the new one and are not above the highest price |
| OrderBook.CullEffect | libraries/chain/db_market.cpp:137-156 | an order that stays buys at least one unit at its price; a dust order is refunded in full |
| OrderBook.CullExactly | libraries/chain/db_market.cpp:137-156 | an order is refunded exactly if it would buy less than one unit at its own price |
| OrderBook.FillEffect | libraries/chain/db_market.cpp:302-355 | one side of a trade: proceeds in, payment out, the rest of the order kept or refunded |
| OrderBook.MatchEffect | libraries/chain/db_market.cpp:220-261 | a match conserves every asset and uses up at least one order |
| OrderBook.MatchLeaves | libraries/chain/db_market.cpp:220-261 | what is left of both orders: what they did not pay; a maker whose rest buys less than one unit is gone |
| OrderBook.SweepShape | libraries/chain/db_market.cpp:158-207 | makers are used up best price first; the new order survives only if all of them are |
| OrderBook.SweepConserves | libraries/chain/db_market.cpp:158-207 | a sweep conserves every asset across balances, fees and orders |
| OrderBook.InsertIsOrderly | libraries/chain/db_market.cpp:158-207 | a new order keeps the book sorted with distinct ids |
| OrderBook.InsertIsUncrossed | libraries/chain/db_market.cpp:158-207 | it keeps the book uncrossed exactly if it crosses nothing |
| OrderBook.PriceTimePriority | libraries/chain/db_market.cpp:158-207 | in one market a better price comes first, and of equal prices the older order |
| OrderBook.ApplyOrderExactly | libraries/chain/db_market.cpp:158-207 | when an order can be applied, and that it stays exactly if something of it is left that buys at least one unit |
| Exchange.ApplyOrderOrderly | libraries/chain/db_market.cpp:158-207 | `apply_order` keeps the book sorted and overdraws nobody; the new order is reported filled exactly if it is not in the book |
| Exchange.ApplyOrderLeaves | libraries/chain/db_market.cpp:158-207 | in any sorted book, a new order that stays is crossed by some order exactly if the book held a crossing order above the highest price |
| Exchange.ApplyOrderKeeps | libraries/chain/db_market.cpp:158-207 | an uncrossed book stays uncrossed exactly if the new order is gone or misses no such order |
| Exchange.ApplyOrderConserves | libraries/chain/db_market.cpp:158-207 | the units of a new order end up in the book, with the sellers, or back with the owner |
| Exchange.CreateConserves | libraries/chain/market_evaluator.cpp:40-107 | a create keeps the book sorted, overdraws nobody and conserves every asset, whatever the supplies |
| Exchange.CreateKeeps | libraries/chain/market_evaluator.cpp:40-107 | it keeps the book uncrossed exactly if it misses no order; it misses none if no offer is above the highest price |
| Exchange.CreateAcceptedExactly | libraries/chain/market_evaluator.cpp:40-107 | a create succeeds exactly if the seller may create it, the order can be matched, and nothing of it is left if it is fill-or-kill; what it leaves then |
| Exchange.SweepSucceeds | libraries/chain/db_market.cpp:158-207 | a sweep goes through if the asset bought charges no fee on nothing and no maker sells more than the maximum share supply |
| Exchange.CancelConserves | libraries/chain/market_evaluator.cpp:109-135 | a cancel conserves every asset and keeps the book sorted, and uncrossed if it was |
| Exchange.CancelAcceptedExactly | libraries/chain/market_evaluator.cpp:109-135 | only the seller of an order in the book can cancel it; that order leaves the book and no other |
| Exchange.StepUncrossedExactly | libraries/chain/market_evaluator.cpp:40-135 | the same for every operation |
| Exchange.RunConserves | libraries/chain/db_market.cpp:158-207 | over every run of creates and cancels every asset is conserved, nobody is overdrawn and the book stays sorted |
| Exchange.RunUncrossedExactly | libraries/chain/db_market.cpp:158-207 | the book is uncrossed all through a run exactly if no create misses an order |
| Exchange.RunSettles | libraries/chain/db_market.cpp:158-207 | none does if no one offers more than the highest price |
| Exchange.RunKeeps | libraries/chain/db_market.cpp:158-207 | and no one can if no asset has more than the maximum share supply in circulation |
| Exchange.NothingToReceive | libraries/chain/db_market.cpp:220-261 | in a trade the taker receives nothing exactly if all it offers is worth less than one unit at the price of the maker |
| Exchange.MatchFailsExactly | libraries/chain/db_market.cpp:220-261 | a match of valid orders fails in exactly two cases: the taker would buy more than the maximum share supply, or its offer is worth less than one unit and the minimal fee cannot be paid |
| Exchange.MatchLoop | libraries/chain/db_market.cpp:179-190 | the matching loop computes the sweep, and terminates |
| Exchange.MarketDatabase.PlaceOrder | libraries/chain/market_evaluator.cpp:40-107 | in place: the create succeeds exactly as specified, or changes nothing; the invariant holds either way |
| Exchange.MarketDatabase.CancelLimitOrder | libraries/chain/market_evaluator.cpp:109-135 | in place: the cancel, or no change |
| Settlement.GloballySettleConserves | libraries/chain/db_market.cpp:44-94 | every unit of collateral is in the fund or returned; supply and balances of the issued asset are as before |
| Settlement.ClosePays | libraries/chain/db_market.cpp:358-410 | a closed position pays its debt at the price, or all its collateral if that is less; the borrower gets the rest back and nobody else is paid; the debt leaves the supply |
| Settlement.CloseAcceptedExactly | libraries/chain/db_market.cpp:358-410 | a position can be closed exactly if the price is one of the issued asset, the asset is listed, and the debt is not worth more than the maximum share supply |
| Settlement.GloballySettlePays | libraries/chain/db_market.cpp:44-94 | the fund is the sum of what all positions owe at the price, each at most its collateral; every borrower gets the rest of its own back; the settlement price is the supply against the fund |
| Settlement.SettlesExactly | libraries/chain/db_market.cpp:44-94 | a settlement goes through exactly if the two assets differ, the issued one is listed, and every position can be closed |
| Settlement.SettledIsCovered | libraries/chain/db_market.cpp:44-94 | right after a settlement the fund covers every outstanding unit |
| Settlement.RedeemIsCovered | libraries/chain/asset_evaluator.cpp:442-491 | a redemption succeeds exactly if the account holds the units; the fund is never short, and stays covering |
| Settlement.RedeemPays | libraries/chain/asset_evaluator.cpp:442-491 | a redemption takes the units and pays their share of the fund to that account only |
| Settlement.RunIsCovered | libraries/chain/asset_evaluator.cpp:442-491 | over every run of redemptions the fund covers what is outstanding, and keeps less than one unit of rounding for each |
| Settlement.ClosePositions | libraries/chain/db_market.cpp:64-78 | the loop over the margin positions |
| Settlement.BitassetDatabase.GlobalSettle | libraries/chain/db_market.cpp:44-94 | in place: the fund is the sum of what is owed, every borrower has the rest of its collateral, the backing asset is conserved; a second settlement is refused |
| Settlement.BitassetDatabase.Settle | libraries/chain/asset_evaluator.cpp:442-491 | in place: succeeds exactly if the account holds the units |
| PledgeTerms.RoundedIsAtMost | libraries/chain/das33_evaluator.cpp:65-108 | a conversion over two prices never exceeds the exact value |
| PledgeTerms.ConvertIsClose | libraries/chain/das33_evaluator.cpp:65-108 | a conversion is at most the exact value and short of it by less than the three roundings |
| PledgeTerms.PrecisionGrows | libraries/chain/das33_evaluator.cpp:53-61 | the modifier is ten for every decimal more |
| PledgeTerms.PrecisionNeverLoses | libraries/chain/das33_evaluator.cpp:53-108 | the precision modifier never rounds further down |
| PledgeTerms.ConvertIsTwoPrices | libraries/chain/das33_evaluator.cpp:65-108 | without it the conversion is two multiplications by a price in a row |
| PledgeTerms.RoundTripLoses | libraries/chain/das33_evaluator.cpp:65-108 | converting there and back over the same prices never gains, whatever the two precisions |
| PledgeTerms.LegsAreInverse | libraries/chain/das33_evaluator.cpp:65-108 | the way back takes the two price ratios upside down, in all four directions |
| PledgeTerms.CutFits | libraries/chain/das33_evaluator.cpp:414-427 | the cut sale is positive, fits below both limits, and meets a limit if it is cut |
| PledgeTerms.TermsAreGood | libraries/chain/das33_evaluator.cpp:345-444 | a pledge takes at most what was offered, in the offered asset, and buys a positive number of tokens within supply, phase and allowance |
| PledgeTerms.TermsExactly | libraries/chain/das33_evaluator.cpp:345-444 | when a pledge is accepted, and at which terms: one that asks for no more than is left is taken in full; another one is cut to what is left, and costs what that converts back to |
| PledgeTerms.FreeExactly | libraries/chain/das33_evaluator.cpp:414-440 | a pledge takes nothing exactly if it asks for more than is left to sell, and what is left converts back to nothing at the discount |
| PledgeTerms.CutMayBeFree | libraries/chain/das33_evaluator.cpp:414-440 | a cut pledge that takes nothing and still buys a token |
| Das33.DistributeLoop | libraries/chain/das33_evaluator.cpp:497-576 | the distribution loop pays the selected pledges in order, all or nothing |
| Das33.RejectLoop | libraries/chain/das33_evaluator.cpp:606-641 | the rejection loop refunds the pledges of a project in order |
| Das33.Das33Database.PledgeAsset | libraries/chain/das33_evaluator.cpp:345-479 | in place: checks, charge, tokens counted as sold, pledge kept; or no change |
| Das33.Das33Database.PledgedInPhase | libraries/chain/das33_evaluator.cpp:33-43 | the loop that sums what an account pledged for in a phase |
| Das33.Das33Database.DistributeProjectPledges | libraries/chain/das33_evaluator.cpp:481-576 | in place, for a project and optionally one phase |
| Das33.Das33Database.RejectProjectPledges | libraries/chain/das33_evaluator.cpp:578-641 | in place; refused if any pledge of the project was touched |
| Das33Accounting.PaidOutEffect | libraries/chain/das33_evaluator.cpp:515-556 | what leaves a pledge is exactly what the owner gets and what is issued |
| Das33Accounting.PaidOutPays | libraries/chain/das33_evaluator.cpp:515-556 | the project owner gets the pledged asset, the pledger the tokens, nobody else anything |
| Das33Accounting.PledgeEffect | libraries/chain/das33_evaluator.cpp:345-479 | a pledge charges the payer at most the offer, and the number sold stays within supply and phase |
| Das33Accounting.PledgeAcceptedExactly | libraries/chain/das33_evaluator.cpp:345-479 | a pledge is accepted exactly if the account may pledge, the terms are accepted, and what it takes can be valued |
| Das33Accounting.PledgeTakes | libraries/chain/das33_evaluator.cpp:345-479 | one that is not cut takes all that was offered; one that is cut buys all that is left; the project has collected the value of what was taken |
| Das33Accounting.UpdateKeeps | libraries/chain/das33_evaluator.cpp:198-310 | an update changes neither the token nor the number sold |
| Das33Accounting.UpdateUndercutsExactly | libraries/chain/das33_evaluator.cpp:257-269 | exactly when a new phase limit can be set below what is sold |
| Das33Accounting.MayUndercut | libraries/chain/das33_evaluator.cpp:257-269 | a pledge and an update after which one token is sold under a limit of none |
| Das33Accounting.FullDistribution | libraries/chain/das33_evaluator.cpp:664-721 | at full rates, with a rounding that does not lose, a pledge is paid out and removed |
| Das33Payments.RatesMoveTheirParts | libraries/chain/das33_evaluator.cpp:515-556 | the escrow rate moves the pledged asset, the base rate the base tokens and the bonus rate the bonus tokens, each at most what remains; nothing else of a pledge changes |
| Das33Payments.DistributeProjectPays | libraries/chain/das33_evaluator.cpp:481-576 | a distribution pays the owner and the pledgers of exactly the selected pledges what leaves each of them, and keeps those of which something remains |
| Das33Payments.DistributeAllAcceptedExactly | libraries/chain/das33_evaluator.cpp:497-576 | it goes through exactly if the tokens that come out exist as an asset |
| Das33Payments.DistributeOnePays | libraries/chain/das33_evaluator.cpp:664-721 | the same for one pledge |
| Das33Payments.DistributeOneAcceptedExactly | libraries/chain/das33_evaluator.cpp:664-721 | and when it is refused |
| Das33Payments.RejectProjectPays | libraries/chain/das33_evaluator.cpp:578-641 | a rejection gives every pledger of the project back what it pledged, and removes exactly those pledges |
| Das33Payments.RejectProjectAcceptedExactly | libraries/chain/das33_evaluator.cpp:578-641 | it goes through exactly if no pledge of the project was touched and every pledger still has a balance of what it pledged |
| Das33Payments.RejectOnePays | libraries/chain/das33_evaluator.cpp:723-779 | the same for one pledge, both directions |
| Das33Payments.UntouchedMeans | libraries/chain/das33_evaluator.cpp:590-598 | a pledge is untouched exactly if all it holds and expects remains |
| Das33Payments.UpdateAppliesExactly | libraries/chain/das33_evaluator.cpp:198-310 | when an update is accepted, and which fields it sets and which not |
| Das33Payments.PreviousCounts | libraries/chain/das33_evaluator.cpp:33-43 | what an account pledged for counts per account, project and phase, at the full amount it expects |
| Das33Accounting.StepKeeps | libraries/chain/das33_evaluator.cpp:345-779 | every operation conserves every asset and keeps issued plus promised in step with sold less rejected |
| Das33Accounting.RunKeeps | libraries/chain/das33_evaluator.cpp:345-779 | over every run: no asset made or lost, and tokens issued, promised and rejected add up to tokens sold, for every project |
| Das33Accounting.NeverOversold | libraries/chain/das33_evaluator.cpp:345-779 | a sale never issues and promises more than the maximum supply, on top of what existed |
| Das33Accounting.PledgeCommits | libraries/chain/das33_evaluator.cpp:345-479 | an accepted pledge commits exactly the tokens it asks for, or what is left to sell if that is less |
| Das33Accounting.PassesMaximumExactly | libraries/chain/das33_evaluator.cpp:345-779 | an operation takes a token past its maximum exactly if it is an accepted pledge for more than the issued and promised units leave room; no other operation commits tokens |
| Das33Accounting.StaysWithinMaximum | libraries/chain/das33_evaluator.cpp:345-779 | if no more is issued and promised than was sold, no run passes the maximum |
| Das33Accounting.MayPassMaximum | libraries/chain/das33_evaluator.cpp:345-479 | a sale of one unit of a token whose maximum of one already exists |
| RewardQueue.PartialPayout | libraries/chain/db_update.cpp:569-582 | a partial payout leaves a positive amount; the exact rounding it adds, its bounds, and when it is zero |
| RewardQueue.RoundKeepsOrder | libraries/chain/db_update.cpp:542-595 | a round removes finished entries from the front and keeps the rest in order, each with cycles left |
| RewardQueue.RoundPaysInOrder | libraries/chain/db_update.cpp:542-595 | first come first served: a prefix in full, at most one more entry in part |
| RewardQueue.RoundPays | libraries/chain/db_update.cpp:542-595 | a round pays exactly the smaller of the reward and what is owed; rounding adds between nothing and `K` |
| RewardQueue.PushTracked | libraries/chain/db_queue.cpp:36-71 | a guarded submission moves the fast and the true total by the same amount, and numbers the entry |
| RewardQueue.PushAppends | libraries/chain/db_queue.cpp:36-71 | a submission goes to the end of the queue under the next number, for that account, amount and frequency; the sum at its end grows by its worth |
| RewardQueue.MintTracked | libraries/chain/db_update.cpp:542-595 | a round never lowers the fast total, and moves the true total by its rounding only |
| RewardQueue.RunTracked | libraries/chain/db_util.cpp:89-97 | over every run the fast total is at most minted plus owed, behind it by at most the rounding, and the cap is passed by at most that |
| RewardQueue.PassesCapExactly | libraries/chain/db_update.cpp:542-595 | an operation takes minted plus owed past the cap exactly if it is a submission that only the fast total lets through, or a round whose rounding is more than there is room |
| RewardQueue.RunTotal | libraries/chain/db_update.cpp:542-595 | over every run minted plus owed grows by exactly what was accepted and the rounding; so exactly when it passes the cap |
| RewardQueue.CapMayBeExceeded | libraries/chain/db_update.cpp:569-582 | from the empty queue a submission and two rounds after which minted plus owed is the cap and one unit, unseen by the fast total |
| RewardQueue.IssueAllMoves | libraries/chain/db_update.cpp:554-586 | the supply grows by exactly what a round pays, and balances with it |
| RewardQueue.IssueAllPays | libraries/chain/db_update.cpp:554-586 | every account receives the sum of its payments |
| RewardQueue.IssueAllAcceptedExactly | libraries/chain/db_update.cpp:554-586 | a round can be paid exactly if every account in it has a balance and the asset is listed |
| RewardQueue.PayQueue | libraries/chain/db_update.cpp:553-586 | the loop of a round, all or nothing; it terminates |
| RewardQueue.RewardDatabase.Submit | libraries/chain/cycle_evaluator.cpp:61-80 | in place: accepted exactly if positive and within the cap by the fast total, which grows by the amount; the entry that is appended; how far the fast total lags does not change |
| RewardQueue.RewardDatabase.MintRewards | libraries/chain/db_update.cpp:542-595 | in place: queue, minted total, last minted number and ledger after a round |
| Conservation.TradeKeeps | libraries/chain/market_evaluator.cpp:40-135 | orders and cancels keep every unit of every supply accounted for, whatever the supplies |
| Conservation.SaleKeeps | libraries/chain/das33_evaluator.cpp:446-779 | so do pledges, distributions and rejections |
| Conservation.MoveKeeps | libraries/chain/cycle_evaluator.cpp:429-537 | so do transfers, fees, issue, burn, fee claims, cycle purchases and cycles from a licence |
| Conservation.SubmitPoolKeeps | libraries/chain/cycle_evaluator.cpp:145-163 | so does the fee pool's submission of cycles |
| Conservation.SubmitPoolDoes | libraries/chain/cycle_evaluator.cpp:145-163 | exactly when the fee pool can submit cycles; they leave its balance and the supply, and one entry for the pool is appended |
| Conservation.RewardKeeps | libraries/chain/db_update.cpp:542-595 | so does a reward round |
| Conservation.StepKeeps | libraries/chain/db_balance.cpp:171-236 | so does every operation of the combined machine |
| Conservation.StepDoes | libraries/chain/db_balance.cpp:171-236 | an operation does what it does in its own part, if that accepts it, and touches nothing else; otherwise nothing changes |
| Conservation.RunKeeps | libraries/chain/db_balance.cpp:171-236 | over every run, for every asset: supply = balances and reserves + orders + accumulated fees + pledges |
| Conservation.RunUncrossedExactly | libraries/chain/db_market.cpp:158-207 | whatever else happens to the ledger, the book is uncrossed all through a run exactly if no create misses an order above the highest price; none does if no one offers more than that |
| Conservation.RunStaysSettled | libraries/chain/db_market.cpp:158-207 | in particular if the supplies stay within the maximum share supply |
| WitnessSchedule.ShuffleFromPermutes | libraries/chain/db_witness_schedule.cpp:111-138 | whatever the random numbers, swapping permutes and leaves finished positions alone |
| WitnessSchedule.ShuffleIsPermutation | libraries/chain/db_witness_schedule.cpp:111-138 | at every time the schedule is a permutation of the active witnesses |
| WitnessSchedule.ShuffleStep | libraries/chain/db_witness_schedule.cpp:121-136 | one step swaps the witness at its position with one chosen among those from there on |
| WitnessSchedule.ShuffleChooses | libraries/chain/db_witness_schedule.cpp:121-136 | which one is chosen, by the generator and the time |
| XorShift.Samples | libraries/chain/db_witness_schedule.cpp:121-131 | two numbers of the generator |
| WitnessSchedule.Shuffle | libraries/chain/db_witness_schedule.cpp:121-136 | the shuffle loop, in place |
| WitnessSchedule.WindowIsPermutation | libraries/chain/db_witness_schedule.cpp:35-41 | every window of as many slots as witnesses schedules each of them exactly once |
| WitnessSchedule.SameWitnessIsRoundsApart | libraries/chain/db_witness_schedule.cpp:35-41 | under one schedule a witness has two absolute slots exactly if they are whole rounds apart |
| WitnessSchedule.ScheduledIs | libraries/chain/db_witness_schedule.cpp:35-41 | the schedule is followed from the absolute slot on, and again from its start after its end |
| WitnessSchedule.SlotAtTimeIsLargest | libraries/chain/db_witness_schedule.cpp:43-79 | `get_slot_at_time` is the largest slot that has begun, 0 if none has |
| WitnessSchedule.SlotRoundTrip | libraries/chain/db_witness_schedule.cpp:43-79 | it inverts `get_slot_time` at genesis, normally and after maintenance |
| WitnessSchedule.FirstSlotIs | libraries/chain/db_witness_schedule.cpp:43-71 | the first slot is one interval after genesis; later at the next whole interval, plus the skipped slots after a maintenance block |
| WitnessSchedule.SlotsAreLater | libraries/chain/db_witness_schedule.cpp:43-71 | every slot for a next block lies after the head block |
| Irreversible.NthElement | libraries/chain/db_update.cpp:144-148 | a permutation with the n-th smallest confirmation in its place |
| Irreversible.CandidateIsLargest | libraries/chain/db_update.cpp:126-150 | the candidate is the largest number confirmed by at least the threshold of the active witnesses, rounded up |
| Irreversible.QuorumIs | libraries/chain/db_update.cpp:126-150 | a quorum is the least number of witnesses that is at least seventy percent of them |
| Irreversible.QuorumsOverlap | libraries/chain/db_update.cpp:126-150 | two views of the same witnesses: at least two fifths of them confirmed both irreversible blocks |
| Irreversible.ApplyKeeps | libraries/chain/db_update.cpp:104-159 | a block never lowers the irreversible block and never puts it above the head; it rises to exactly what a quorum confirmed |
| Irreversible.NeverReverted | libraries/chain/db_update.cpp:104-159 | along every run with elections the irreversible block only rises, stays at or below the head and within the undo history |
| Irreversible.WitnessDatabase.ApplyBlock | libraries/chain/db_update.cpp:81-159 | in place: head, confirmation and irreversible block after a block, refused if the undo history gets too long |
| Maintenance.NextTimeIsLeast | libraries/chain/db_maint.cpp:1007-1036 | the next maintenance time is the least one after now that is whole intervals away, at the first block and later |
| Maintenance.NextTimeStays | libraries/chain/db_maint.cpp:1007-1036 | it stays as it is until a block has passed it |
| Maintenance.BlocksAreCovered | libraries/chain/db_maint.cpp:381-403 | the blocks until maintenance are at most as many as the witness budget was made for |
| Maintenance.BlocksAreLeast | libraries/chain/db_maint.cpp:381-403 | the budget is made for the least number of blocks that reaches the maintenance time |
| Maintenance.RankingIsRanked | libraries/chain/db_maint.cpp:116-135 | exactly the eligible workers, by votes and then by id |
| Maintenance.RankingMeans | libraries/chain/db_maint.cpp:116-135 | ranked are the workers within their term that have votes; most votes first, the lower id first among equals |
| Maintenance.RequestIs | libraries/chain/db_maint.cpp:137-156 | a worker asks for its daily pay in proportion to the time, rounded down |
| Maintenance.PaymentsFit | libraries/chain/db_maint.cpp:137-156 | workers are paid in order and in full until the budget ends, never more than the budget |
| Maintenance.PayWorkers | libraries/chain/db_maint.cpp:137-156 | the payment loop |
| Maintenance.BudgetFits | libraries/chain/db_maint.cpp:320-366 | a positive reserve and time give a budget between one unit and the reserve |
| Maintenance.BudgetIs | libraries/chain/db_maint.cpp:320-366 | the budget is 17 of 2^32 parts of the reserve for every second, rounded up, at most the reserve |
| Maintenance.ReserveIs | libraries/chain/db_maint.cpp:320-366 | the reserve is all that accounts do not hold; the time since the last budget |
| Maintenance.DivisionFits | libraries/chain/db_maint.cpp:399-419 | witnesses and workers together get at most the budget |
| Maintenance.DivisionIs | libraries/chain/db_maint.cpp:399-419 | the witnesses get the pay for all blocks until maintenance, then the workers their daily budget in proportion to the time, each as far as the budget allows |
| Maintenance.MaintainKeeps | libraries/chain/db_maint.cpp:371-465 | a maintenance step keeps every core unit accounted for, the supply within its maximum and the next time in the future |
| Maintenance.MaintainIs | libraries/chain/db_maint.cpp:371-465 | what a maintenance does: accounts get the payments that are not given back, the new witness budget replaces the old one, fees are burned, the clocks go on |
| Maintenance.StepIs | libraries/chain/db_update.cpp:104-124 | what blocks, fees, burns and maintenance do, and when they are refused |
| Maintenance.RunKeeps | libraries/chain/db_maint.cpp:371-465 | over every run of blocks, fees, burns and maintenance the core supply never passes its maximum |
| Maintenance.MaintenanceDatabase.ProduceBlock | libraries/chain/db_update.cpp:104-124 | in place: the signer is paid from the witness budget, what is held and budgeted stays the same together, and the pay is short only if the budget is used up |
| Maintenance.MaintenanceDatabase.PerformMaintenance | libraries/chain/db_maint.cpp:371-465 | in place: clock, budget, workers and supply |
| Synopsis.EntriesAreFew | libraries/app/application.cpp:823-835 | each entry halves the distance: at most the logarithm and one; exactly that, ending at the reference, if no blocks follow |
| Synopsis.EntriesAreNumbered | libraries/app/application.cpp:823-835 | the entries are the blocks of the range with the listed numbers, strictly increasing |
| Synopsis.PickIsAncestor | libraries/app/application.cpp:731-835 | every block looked up is the ancestor of the reference block with that number, on the chain or on a fork; for a popped reference block it is what the file holds |
| Synopsis.SummaryIsGood | libraries/app/application.cpp:721-839 | a synopsis is strictly increasing, short, and ends at the reference block if no blocks follow; it stays on the line of that block exactly if the block was not popped or the file still follows it |
| Synopsis.SummaryStarts | libraries/app/application.cpp:731-800 | a synopsis starts at the last block that cannot be undone, block 1 if there is none, or at the reference block if that is on file and lower |
| Synopsis.SummaryFailsExactly | libraries/app/application.cpp:731-821 | exactly which synopses cannot be made, and with which error |
| Synopsis.SummaryIsSpaced | libraries/app/application.cpp:823-835 | the step from one entry to the next is just over half of what is left to the end |
| Synopsis.CollectEntries | libraries/app/application.cpp:823-835 | the do-while loop |
| Synopsis.IdsAreChain | libraries/app/application.cpp:627-634 | the ids of an answer are a gap-free run of the chain, as long as limit and head allow |
| Synopsis.IncludedExactly | libraries/app/application.cpp:575-580 | a block passes for included exactly if it is on the chain, or popped and still on file |
| Synopsis.SearchFinds | libraries/app/application.cpp:613-626 | the backward search finds the highest shared entry exactly if no known entry above it is unfiled or popped; otherwise it fails or finds a popped block |
| Synopsis.SharedComeFirst | libraries/app/application.cpp:613-626 | the shared entries of a synopsis are its first ones |
| Synopsis.AnswerContinues | libraries/app/application.cpp:591-637 | both ends together: the answer starts at the highest shared entry and last number plus remaining count is the head, exactly if the search is not obstructed; otherwise an error or nothing |
| Synopsis.AnswerFromStart | libraries/app/application.cpp:591-637 | an empty synopsis, or one that ends before block 1, is answered from block 1 on; a node without blocks has nothing to answer |
| Synopsis.SearchFails | libraries/app/application.cpp:613-626 | without a shared or obstructing entry the search ends in an error |
| Synopsis.SharedGap | libraries/app/application.cpp:591-637 | the highest shared entry is less than such a step below the highest shared block |
| PoppedBlocks.Demonstrate | libraries/app/application.cpp:575-637 | five pushes and two pops after which the synopsis for a popped block lists a block that is not its ancestor, and a peer with the popped blocks gets an empty answer |
| Synopsis.GetBlockIds | libraries/app/application.cpp:591-637 | the loops of the answer |
| Sync.ViewIsValid | libraries/app/application.cpp:575-580 | what the node layer reads of a valid chain database is the chain, filed without gaps, with no more undo states than blocks |
| Sync.GetBlockIdsOnFork | libraries/chain/db_block.cpp:120-136 | succeeds exactly if the fork database can walk both lines; the ids from the block back to the fork point |
| Sync.ForkHistory | libraries/app/application.cpp:764-777 | turned around they are the line of the block above the fork point |
| Sync.GetBlockchainSynopsis | libraries/app/application.cpp:721-839 | on the chain database and its cache: the specified summary, or the specified error; where it starts and what is in it is proved of the summary |
| Sync.ChainIsKnown | libraries/chain/db_block.cpp:41-44 | every block of the chain is known |
| Sync.KnownIs | libraries/chain/db_block.cpp:41-44 | a block is known exactly if it is cached, or on file under its number |
| Sync.GetBlockIds | libraries/app/application.cpp:591-637 | on the chain database: the specified answer |
| Sync.Synchronize | libraries/app/application.cpp:591-839 | a node and a peer that share a block the node cannot undo, or a later one: the synopsis ascends to the head of the node, and the answer starts at the highest entry on the chain of the peer, exactly if the search is not obstructed; that entry is at most half of the way to the head below the highest shared block |
| MemberIndex.AddTo | libraries/chain/account_object.cpp:143-159 | the insertion loop lists the account under exactly the given keys |
| MemberIndex.EraseFrom | libraries/chain/account_object.cpp:161-177 | the erasing loop removes it from exactly the given keys |
| MemberIndex.ModifyAgrees | libraries/chain/account_object.cpp:190-255 | erasing what is gone and adding what is new turns the index before into the index after |
| MemberIndex.AgreementIsUnique | libraries/chain/account_object.cpp:113-255 | an index that agrees with the accounts answers like one made from scratch |
| MemberIndex.LookupFinds | libraries/chain/account_object.cpp:113-159 | which accounts are listed: those whose owner or active authority mentions the account, key or address, and for keys and addresses those with that memo key |
| MemberIndex.AppliedIs | libraries/chain/account_object.cpp:143-255 | the accounts after an insertion, a removal and a modification |
| MemberIndex.AccountMemberIndex.ObjectInserted | libraries/chain/account_object.cpp:143-159 | the three maps agree with the accounts and the new one |
| MemberIndex.AccountMemberIndex.ObjectRemoved | libraries/chain/account_object.cpp:161-177 | the three maps agree with the accounts that are left |
| MemberIndex.AccountMemberIndex.ObjectModified | libraries/chain/account_object.cpp:190-255 | the three maps agree with the changed account, memo key included |
| MemberIndex.AccountMemberIndex.Follow | libraries/chain/account_object.cpp:143-255 | over every run of insertions, removals and modifications the maps agree with the accounts |
| AmountText.PrintShape | libraries/chain/asset_object.cpp:157-170 | the text is a sign, the whole part and the padded decimals, also between -1 and 0 |
| AmountText.ParseWellFormed | libraries/chain/asset_object.cpp:102-155 | reading a sign, digits, and a point with at most as many decimals as the precision gives the number it stands for, missing decimals counted as zeros, or a refusal above the maximum share supply |
| AmountText.TooManyDecimals | libraries/chain/asset_object.cpp:133-138 | more decimals than the precision are refused |
| AmountText.ScanExactly | libraries/chain/asset_object.cpp:102-123 | a text passes the scan exactly if it holds nothing but digits, at most one minus sign and at most one point |
| AmountText.MalformedIsRefused | libraries/chain/asset_object.cpp:102-123 | any other text is refused |
| AmountText.SignedIsTurned | libraries/chain/asset_object.cpp:102-155 | a text with a sign anywhere and no point: what follows the first character is read and its sign turned around |
| AmountText.MisplacedSign | libraries/chain/asset_object.cpp:102-155 | so "5-3" is accepted, and is 3 |
| AmountText.RoundTrip | libraries/chain/asset_object.cpp:102-170 | print then read is the identity exactly up to the maximum share supply, and is refused above, at every precision |
| AmountText.PrintIsInjective | libraries/chain/asset_object.cpp:157-170 | no two amounts within the supply print alike |
| AmountText.AmountFromString | libraries/chain/asset_object.cpp:102-155 | the scan and padding loops compute the reading |

## Left out

- Exchange.RunKeeps: the case of supplies within `GRAPHENE_MAX_SHARE_SUPPLY` only; the exact condition is `Exchange.RunUncrossedExactly`.
- Conservation.RunStaysSettled: the same case only, because cycle purchases, licences and token issue do not check the maximum; the exact condition is `Conservation.RunUncrossedExactly`.
- ForkSwitch.PopFailsExactly: assumes that the windows reach back to the irreversible block, that the fork is longer than the old branch by little enough for them, and that the head pointer of the cache is the indexed object; in every other case the exact condition is `PopFails` itself, over the windows reported on the way.
- Das33Accounting.RunKeeps: the projects and their maximum supplies are fixed during a run; creating and deleting projects is not modelled, nor is a change of the token's maximum supply.
- Das33.Das33Database.DistributeProjectPledges: the floating point share is any non-negative integer before it is clamped, so the size of one partial distribution is not determined.
- RewardQueue.RunTracked: covers the guarded submissions; licence issue pushes entries under another guard, over the licence's maximal reward.
- PledgeTerms.TermsAreGood: amounts are unbounded, so a product beyond 128 bits is not truncated as `uint128_t` would.
- WitnessSchedule.SlotRoundTrip: times and slots are unbounded, so wrap-around of 32-bit seconds is not modelled.
- AmountText.RoundTrip: holds for every precision; the node itself refuses precisions above 18.
- Irreversible.ApplyKeeps: confirmations and the irreversible block only; missed-slot statistics and `recent_slots_filled` are not modelled.
- Margin calls, black swan detection and force settlement by `check_call_orders`: only global settlement and later redemption are modelled.
- The unlinked index of the fork database: a block with an unknown parent is refused before anything is put there, so it stays empty.
- Block files, `reindex`, and what a block does to the object state: stored blocks are a map from number to block, applying is a parameter.
- Pending transactions, signatures, authorities, hashing of headers and addresses, and serialization.
- Deferred fees, cashback and `total_core_in_orders` of the core asset, and the `spent` statistic of balances.
- DasPay clearing, delayed operations, wire-out, vesting policies, worker voting and licence upgrade policies.
- The price check of a cycle purchase and the grouping of prices, which are floating point.
