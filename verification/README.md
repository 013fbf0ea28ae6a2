# Accrue: a verified model

Accrue keeps tokenised stock as collateral in a lending market, borrows USDC against it and holds the USDC as a
yield token. A Solana program moves the funds, a keeper decides when, and a TypeScript core computes the same numbers
off the chain. This project models all three in Dafny and proves what they promise. `dafny verify dfyconfig.toml`
checks it.

## What is modelled

**The position program.** `Runtime` keeps accounts as a map from key to account, with owning program, lamports and
data, and says what the runtime lets an untrusted call do: only writable accounts change, only a running program
changes its own data, and only a signing authority takes tokens. `Market` is the lending market as abstract steps,
with arbitrary interest, prices, exchange rates, fees and refusals. `Instructions` gives each instruction as a function
of the accounts and of an `Environment` that holds everything it does not control, the router included: the router is
any function of the accounts, so every theorem about a committed instruction holds for every router. `Program` has the
same instructions as they run, methods over mutable accounts with early returns and a rollback, each proved equal to
its function. `Gates` says in plain comparisons what each act asks and what each refusal means. `Steps`, `Leaving`,
`Growing`, `Protecting` and `Depositing` prove what a committed instruction comes to, `Committing` exactly when it
commits, and `Runs` what holds over any sequence of transactions with other instructions, payments and market moves in
between. `Examples` follows three leaves on concrete accounts: one for each ending, and one that sells through a router.

**The guard arithmetic.** `Scope` and `Guard` are the program's checked integer arithmetic, `Money` and `CoreGuard` the
app's unbounded one. `Refinement` relates the two, `Meaning` multiplies each of the program's divisions back out,
`Rounding` says what each rounding is the least or greatest of, and `GuardRun`, `ProtectSale`, `GrowSizing`, `TopUp`, `Strategy` and `Sandbox` prove what the numbers are for.

**The keeper and its machines.** `Decide`, `Anticipation`, `KeeperRound`, `PriceWatch`, `Limiter`, `BorrowCurve` and
`Base58`.

Five results are about where the code falls short of what one would expect, each with the exact condition:

- the sampled walk in `guard.rs` truncates 5000/6500 to 769 permille, one fall of which already reaches the threshold
  (`GuardRun.TheTruncatedWorstFallIsTooDeep`); a fall is safe exactly when its numerator times the threshold is at
  least its denominator times the guard level (`GuardRun.AFallIsSafeExactlyInsideTheRoom`), and the room is enough
  exactly from under the guard level (`GuardRun.TheRoomIsEnoughExactlyUnderTheGuardLevel`);
- the sandbox fill always meets the oracle floor exactly when at least one basis point of slippage is allowed, over
  all tokens (`Sandbox.EveryFillMeetsTheFloorExactlyWithSomeSlippage`) and for the listed pair
  (`Sandbox.TheListedPairMeetsTheFloorExactlyWithSomeSlippage`);
- a leave the program would allow is decided by the keeper exactly when the position is open, under its guard level,
  and not at its grow level with growing paused or switched on (`Decide.LeavingIsHiddenByGrowing`);
- past the liquidation line the program lets a stranger protect without waiting and the keeper still waits: a protect
  whose gates are open is decided exactly when there is something to sell and the interval is over
  (`Decide.ProtectingIsComplete`);
- landed plus reverted is attempted exactly when the log took every landing
  (`KeeperRound.TheCountsAddUpExactlyWhileTheLogHolds`); a landing whose own write fails is written down as reverted
  while it stays counted as landed (`KeeperRound.ALandingCanGoUnrecorded`).

## Model

| member | source | states |
|---|---|---|
| `Leaving.ACommittedLeaveHasTwoOutcomes` | programs/accrue/src/instructions/leave.rs:265-431 | A committed leave came through every gate: not closed, at a retiring program or with the exit flag on, a reason standing at this clock, the yield token listed, and for a stranger with something to sell both prices young. Then for every router and market it ends in exactly one of two ways, told apart by whether the USDC held after the sale covers the debt rounded up; the sale returns at least the oracle floor of everything held of the yield token. Covered: Closed, no debt, no collateral, all three balances zero, every unit in the owner's accounts or the vault. Not covered: Closing, all its USDC repaid, exactly the positive rest recorded as owed, stock and collateral where they were. Nothing is minted or burnt after the sale |
| `Committing.ALeaveCommitsExactly` | programs/accrue/src/instructions/leave.rs:163-431 | A leave commits if and only if its gates are open, its sale at the floor, its repayment and one of its two endings go through, and then to exactly that ending's accounts |
| `Anticipation.ALeaveIsRefusedAtItsFirstClosedGate` | programs/accrue/src/instructions/leave.rs:168-287 | A leave is refused at its first closed gate with that gate's error, and with no gate's error when all are open |
| `Gates.TheLeaveGatesAgree` | programs/accrue/src/instructions/leave.rs:168-239 | The gates in plain comparisons refuse exactly what the instruction's do, in the same order and with the same errors |
| `Gates.ALeaveIsSizedExactly` | programs/accrue/src/instructions/leave.rs:265-312 | A leave sells everything held, at exactly the oracle floor of it at that call's prices, for a stranger only on young prices |
| `Leaving.TheOwnerLosesNothingByALeave` | programs/accrue/src/instructions/leave.rs:477-534 | No router takes a unit from the owner's own token accounts during a leave, and neither does the leave |
| `Leaving.ALeaveConserves` | programs/accrue/src/instructions/leave.rs:163-431 | When the programs the router brings in mint and burn nothing, every mint's supply is the same after a leave |
| `Leaving.ClosingFollowsAWholeLeave` | programs/accrue/src/instructions/close_position.rs:63-89 | After a leave that ended closed, close_position commits for the owner, whatever the clock, prices or route of that later call |
| `Leaving.SendingEverything` | programs/accrue/src/instructions/leave.rs:477-534 | Every unit of the three tokens moves to the owner's accounts, the position's end at zero, and no other account changes |
| `Leaving.WithdrawingEverything` | programs/accrue/src/instructions/leave.rs:383-414 | Once the debt is gone all the collateral comes back as stock, and the obligation then reads as nothing whether the market keeps or closes its account |
| `Leaving.Repaying` | programs/accrue/src/instructions/leave.rs:321-367 | The repayment between two refreshes in one slot moves exactly its amount to the vault, and takes exactly that off the debt |
| `Steps.ACommittedSwap` | programs/accrue/src/swap.rs:20-88 | For every router the runtime allows: at most the amount in is spent, at least the minimum arrives, and the obligation, the record, the token account outside the swap and every account of the program, the market and its farms are as they were |
| `Steps.ASwapCommitsExactly` | programs/accrue/src/swap.rs:20-88 | A swap commits if and only if there is something to swap and a route carrying nothing forbidden, the accounts are what the router made of them and the runtime allowed it, and both measured balances keep to their bounds |
| `Steps.TheRouterTakesNothingFromTheOwner` | programs/accrue/src/swap.rs:36-66 | A token account none of whose authorities signs the call only gains, so the owner's accounts lose nothing to any router |
| `Invariants.TheDenyListAloneKeepsTheStock` | programs/accrue/src/invariants.rs:163-224 | The deny list and the runtime rules alone, before any check after the call, leave the obligation, the record and every token account outside the swap untouched |
| `Invariants.TheDenyListKeepsTheProgramsOut` | programs/accrue/src/invariants.rs:163-224 | Behind the deny list neither the program, the lending market nor its farms runs inside the call, so for every router every account of theirs keeps its data and its program and is at most paid |
| `Invariants.AssertSwapRouteTouchesNothingItMustNot` | programs/accrue/src/invariants.rs:163-224 | The loop refuses a route exactly when some account on it other than the position is the obligation, one of the three programs, owned by the program or the market, or a token account of the position outside the swap, with the forbidden account error |
| `Invariants.OutOfReachNeverLoses` | programs/accrue/src/swap.rs:55-66 | A token account out of reach of the call keeps its holder, delegate, closer and mint, and can only be paid |
| `Invariants.PassingTheChecksMeans` | programs/accrue/src/invariants.rs:226-355 | Passing the closing checks means custody of all three token accounts, no lamports taken, the movement of collateral that was claimed, and spending and receipts inside the bounds |
| `Invariants.TheChecksPassExactly` | programs/accrue/src/invariants.rs:226-355 | The closing checks pass if and only if the accounts exist, the position holds its three alone and lost no lamports, the obligation can be read and moved as claimed, and a checked swap ended within its bounds |
| `Growing.ACommittedGrow` | programs/accrue/src/instructions/grow.rs:120-337 | For every router and market: every gate was open (open, not paused, enabled on both sides, at or under the grow level, the interval over, prices young for a stranger), the borrow is the one that reaches the target and within the share of the reserve, no USDC held before it is spent, it buys at least the owner's minimum or for anyone else the oracle floor of that very borrow, the loan is exactly what the borrow made it, loan to value ends at or under target, stock, custody and lamports are kept, and the record gains one grow at this time and of this amount |
| `Committing.AGrowCommitsExactly` | programs/accrue/src/instructions/grow.rs:120-337 | A grow commits if and only if some plan and trade go through: gates open, borrow sized, minimum met, target and checks passed, room in the record; and then to exactly the accounts of that trade and the record that says so |
| `Anticipation.AGrowIsRefusedAtItsFirstClosedGate` | programs/accrue/src/instructions/grow.rs:126-214 | A grow is refused at its first closed gate with that gate's error, and with no gate's error when all are open |
| `Gates.TheGrowGatesAgree` | programs/accrue/src/instructions/grow.rs:184-214 | Level, interval and freshness as cross multiplied and subtracted comparisons, refusing exactly what the instruction refuses and with the same errors |
| `Gates.AGrowIsSizedExactly` | programs/accrue/src/instructions/grow.rs:215-249 | The sizing goes through if and only if the borrow reaches the target, is positive and within the share of what the reserve has, and the minimum is the owner's or for anyone else the oracle floor of that borrow |
| `Growing.ACommittedBuy` | programs/accrue/src/instructions/buy_destination.rs:62-137 | The owner, on an enabled collateral: awaiting swap becomes open; the owner's minimum arrives, the loan and the stock are untouched, custody and lamports are kept |
| `Committing.ABuyCommitsExactly` | programs/accrue/src/instructions/buy_destination.rs:62-137 | A first purchase commits if and only if the owner calls on an enabled collateral, all the USDC held is swapped for at least a positive minimum and the checks pass; only the state of the record changes |
| `Growing.Borrowing` | programs/accrue/src/instructions/grow.rs:275-300 | A borrow moves exactly what the market pays out from the vault to the position, and its fee to the fee receiver, and changes only the debt of the loan |
| `Growing.TheSizingPassesTheTargetCheck` | programs/accrue/src/instructions/grow.rs:218-319 | End to end: a planned borrow that the market weighs at most rounded up at every step leaves a loan to value that can be read and is at or under target after the swap, whatever the router does |
| `Protecting.ACommittedProtect` | programs/accrue/src/instructions/protect.rs:124-396 | For every router and market: every gate was open, the repayment, the bounty and the sale are sized by the rules on the refreshed loan and everything held, the sale raised at least the owner's minimum or for anyone else the oracle floor of that very sale, capped or not, the repayment is the least of what is needed, what was raised and the debt, the bounty at most what is left of the sale, the USDC held before is untouched, the loan is down by exactly the repayment, and loan to value ends at or under target unless everything was sold |
| `Committing.AProtectCommitsExactly` | programs/accrue/src/instructions/protect.rs:124-396 | A protect commits if and only if some plan and trade go through, and then to exactly their accounts and the record that says so |
| `Anticipation.AProtectIsRefusedAtItsFirstClosedGate` | programs/accrue/src/instructions/protect.rs:130-223 | A protect is refused at its first closed gate with that gate's error, and with no gate's error when all are open |
| `Gates.TheProtectGatesAgree` | programs/accrue/src/instructions/protect.rs:186-223 | At or over the guard level, past the interval unless past the liquidation line or the owner's, on young prices unless the owner's: the same refusals with the same errors |
| `Gates.AProtectIsPlannedExactly` | programs/accrue/src/instructions/protect.rs:225-276 | The plan goes through if and only if it is the repayment to target, the capped bounty, and the sale that raises both at the worst fill or everything held, with the owner's minimum or for anyone else the oracle floor of that very sale |
| `Protecting.AnUncappedPlanRaisesEnough` | programs/accrue/src/instructions/protect.rs:225-276 | The least a stranger's uncapped protect may raise is at most three raw USDC units short of the repayment and the bounty together |
| `Protecting.ThePlanIsSizedOnTheRefreshedLoan` | programs/accrue/src/instructions/protect.rs:225-276 | A protect is sized on the refreshed loan and on everything held of the yield token |
| `Protecting.AnUncappedProtectRepaysWhatItNeeded` | programs/accrue/src/instructions/protect.rs:305-315 | So a stranger's uncapped protect repays what it needed or the whole debt, or at worst three raw units less |
| `Depositing.ACommittedAddition` | programs/accrue/src/instructions/add_collateral.rs:113-257 | The stock goes from the owner to the vault, the position keeps what it had, the obligation gains exactly what the market minted, nothing else changes, and nothing is minted or burnt |
| `Committing.AnAdditionCommitsExactly` | programs/accrue/src/instructions/add_collateral.rs:113-257 | An addition commits if and only if the owner transfers a positive amount, the market refreshes and takes it, and the checks pass |
| `Depositing.ACommittedClose` | programs/accrue/src/instructions/close_position.rs:16-137 | Only the owner on the record can do it; nothing was owed or held, the four accounts are gone, all their rent is that owner's, and nothing else changes |
| `Committing.ACloseCommitsExactly` | programs/accrue/src/instructions/close_position.rs:57-137 | A close commits if and only if the owner calls, nothing is owed, lent or held, and the three token accounts are the position's alone |
| `Market.RepayingAll` | programs/accrue/src/instructions/leave.rs:316-336 | Covering the debt rounded up clears it and anything less does not; what is left rounds up to exactly the difference |
| `Market.MarketStepsConserve` | programs/accrue/src/instructions/leave.rs:321-414 | No refresh, borrow, repayment, deposit or withdrawal mints or burns a token |
| `Runtime.TransferConserves` | programs/accrue/src/instructions/leave.rs:507-534 | A token transfer neither mints nor burns |
| `Runs.TheStageNeverGoesBack` | programs/accrue/src/instructions/leave.rs:373-430 | Over every run of these instructions, each with any router, market, clock and caller, a position only moves on: awaiting swap, open, closing, closed, gone |
| `Runs.ClosedAcceptsOnlyTheClose` | programs/accrue/src/instructions/leave.rs:168 | Once a position is closed nothing commits but close, and after that nothing does |
| `Runs.TheTokenAccountsStayThePositions` | programs/accrue/src/invariants.rs:88-118 | Over every run the three token accounts keep their holder with no delegate and no close authority, and no rent is taken, for as long as the position exists |
| `Runs.TheStockIsConserved` | programs/accrue/src/invariants.rs:163-327 | Over every run that has not closed, the stock in the wallet is what it was, and the collateral in the market what it was plus what the additions were minted |
| `Runs.GrowsAreApart` | programs/accrue/src/guard.rs:150-164 | On a positive clock that never runs back, any two grows of a run are at least the interval apart |
| `Runs.GrowsAreBounded` | programs/accrue/src/instructions/grow.rs:329-334 | The counter counts the grows of a run, and they are at most elapsed time over interval, plus one |
| `Runs.TheOwnerPaysOnlyWhatWasAdded` | programs/accrue/src/instructions/add_collateral.rs:113-257 | Over every run, whatever the routers do, the owner's accounts lose nothing but the stock the owner added |
| `Runs.EveryMintIsConserved` | programs/accrue/src/swap.rs:20-88 | Over every run in which routers and outsiders mint and burn nothing, neither does the program |
| `Runs.ATransactionAdvances` | programs/accrue/src/instructions/grow.rs:120-337 | Every committed transaction, whichever instruction it runs, came through that instruction's gates, moved the state as it may, and keeps all of the promises the run theorems are built from |
| `Runs.EverySwapMeetsItsFloor` | programs/accrue/src/swap.rs:67-82 | Over every run each committed transaction came through its gates, and its swap takes no more than it was let and brings in at least what was asked: the owner's minimum in a buy; in a grow or a protect the owner's minimum or a stranger's oracle floor of the very amount borrowed or sold; the oracle floor of everything held in a leave |
| `Examples.WithThreeItEndsClosing` | programs/accrue/src/instructions/leave.rs:368-379 | A concrete leave with three in hand and four owed commits and ends closing |
| `Examples.WithFiveItEndsClosed` | programs/accrue/src/instructions/leave.rs:383-431 | A concrete leave with five in hand and four owed commits and ends closed |
| `Examples.ALeaveThatSellsEndsClosed` | programs/accrue/src/instructions/leave.rs:265-312 | A concrete leave by a stranger, through a route of six accounts and a router that moves tokens, sells above the floor, commits and ends closed |
| `Program.Ledger.ExecuteJupiterSwap` | programs/accrue/src/swap.rs:20-88 | The measured call, step by step over mutable accounts, does exactly what the swap is specified to do, errors included |
| `Program.Ledger.HandleBuyDestination` | programs/accrue/src/instructions/buy_destination.rs:62-137 | The handler leaves the accounts its specification leaves, or fails with the same error |
| `Program.Ledger.HandleGrow` | programs/accrue/src/instructions/grow.rs:120-337 | The same for grow |
| `Program.Ledger.HandleProtect` | programs/accrue/src/instructions/protect.rs:124-396 | The same for protect |
| `Program.Ledger.HandleLeave` | programs/accrue/src/instructions/leave.rs:163-431 | The same for leave |
| `Program.Ledger.HandEverythingBack` | programs/accrue/src/instructions/leave.rs:383-431 | The withdrawal, the transfers, the checks and the closed record, against the specification of a whole ending |
| `Program.Ledger.HandleAddCollateral` | programs/accrue/src/instructions/add_collateral.rs:113-257 | The same for add_collateral |
| `Program.Ledger.HandleClosePosition` | programs/accrue/src/instructions/close_position.rs:57-137 | The same for close_position |
| `Program.Ledger.Process` | programs/accrue/src/instructions/leave.rs:163-431 | A transaction commits its instruction whole, or rolls back everything it had done and returns the error |
| `Refinement.CeilingsAgree` | packages/core/src/money.ts:21-29 | Where the program's rounding up returns a value the app's returns the same one, and it is the ceiling |
| `Refinement.PricesAgree` | packages/core/src/money.ts:36-41 | The same agreement for the scaled price |
| `Refinement.ValuesAgree` | packages/core/src/money.ts:43-49 | The same for the value of a raw amount |
| `Refinement.RawAmountsAgree` | packages/core/src/money.ts:51-74 | The same for a raw amount worth a value, rounded either way |
| `Refinement.BuffersAgree` | packages/core/src/money.ts:76-86 | The same for the slippage buffer |
| `Refinement.FloorsAgree` | packages/core/src/money.ts:94-115 | The same for the least output the oracle allows |
| `Refinement.WeightingsAgree` | packages/core/src/guard.ts:22-39 | The same for turning a weighted value back into a real one |
| `Refinement.AllowancesAgree` | packages/core/src/guard.ts:15-20 | The same for the debt a target allows |
| `Refinement.RepaymentsAndBorrowsAgree` | packages/core/src/guard.ts:41-62 | The same for the repayment and the borrow that reach the target |
| `Refinement.ProtectAmountsAgree` | packages/core/src/guard.ts:64-82 | The same for the repayment and bounty of a protect |
| `Refinement.LoanToValuesAgree` | packages/core/src/guard.ts:84-94 | The program's loan to value is the app's, capped at sixteen bits |
| `Refinement.FeesAgree` | packages/core/src/guard.ts:96-104 | The same agreement for the performance fee |
| `Refinement.ReasonsToLeaveAgree` | packages/core/src/guard.ts:149-185 | Both sides find a reason to leave on exactly the same signals, at every clock, negative ones and overflowing periods included |
| `Refinement.ProtectSalesAgree` | packages/core/src/guard.ts:203-236 | The app sizes the sale of a protect exactly as the instruction does |
| `Refinement.GrowAmountsAgree` | apps/keeper/src/guard.ts:101-112 | The keeper routes a grow for exactly the amount the instruction borrows |
| `Meaning.ThePriceExactly` | programs/accrue/src/scope.rs:23-32 | The program returns a scaled price if and only if the price is positive and its power of ten fits, and it is the floor, multiplied out |
| `Meaning.TheValueExactly` | programs/accrue/src/scope.rs:74-80 | The value of a raw amount, exactly when nothing overflows, as the floor multiplied out |
| `Meaning.TheAmountWorthExactly` | programs/accrue/src/scope.rs:82-105 | The raw amount worth a value, exactly when nothing overflows, as the ceiling and as the floor |
| `Meaning.TheBufferExactly` | programs/accrue/src/scope.rs:107-120 | The slippage buffer, exactly when the slippage is under one hundred percent, as the ceiling |
| `Meaning.TheOracleFloorExactly` | programs/accrue/src/scope.rs:128-148 | The oracle floor as three floors multiplied out: the value sold, the amount it buys, and what the slippage leaves of it |
| `Meaning.TheRepaymentAndTheBorrowExactly` | programs/accrue/src/guard.rs:41-63 | The repayment is what the debt is over the allowance by, over the borrow factor, rounded up; the borrow what it is short by, rounded down |
| `Meaning.TheGuardAmountsExactly` | programs/accrue/src/guard.rs:65-89 | The bounty is the floored share of the repayment |
| `Meaning.TheFeeExactly` | programs/accrue/src/guard.rs:91-105 | The performance fee is the floored share of what sales brought over repayments, and nothing at a loss |
| `Gates.ReasonsStand` | programs/accrue/src/guard.rs:117-148 | A reason to leave stands exactly when the reserve or the program is done, the loan is called, or deleveraging is on both ways and a limit was crossed a period ago; no overflow or negative clock makes one |
| `Gates.ElapsedMeansWaitedOut` | programs/accrue/src/guard.rs:150-164 | The interval check passes exactly when the act never happened or happened the interval ago and the interval fits the clock, and otherwise says which |
| `Rounding.RawAmountIsTheLeastWorthTheValue` | programs/accrue/src/scope.rs:74-92 | Rounding up and valuing are adjoint: an amount is worth the value if and only if it reaches the rounded up amount |
| `Rounding.BufferIsTheLeastThatSurvivesSlippage` | programs/accrue/src/scope.rs:107-120 | The buffered amount is the least that survives the slippage |
| `Rounding.RepaymentIsTheLeastThatClosesTheGap` | programs/accrue/src/guard.rs:21-52 | A repayment closes the gap to target if and only if it reaches the computed one |
| `Rounding.BorrowIsTheGreatestThatFits` | programs/accrue/src/guard.rs:54-63 | A borrow fits under the target if and only if it is within the computed one |
| `Strategy.RefusalsAgree` | packages/core/src/positions/strategy.ts:17-44 | The app refuses exactly the strategies the program refuses, each for the same reason |
| `Strategy.AcceptedExactly` | packages/core/src/positions/strategy.ts:17-44 | An accepted strategy is exactly one whose levels are in order with five hundred basis points between target, guard level and threshold, its target positive and within the reserve's limit |
| `GuardRun.EveryRunStaysUnderTheThreshold` | programs/accrue/src/guard.rs:468-534 | For an accepted strategy, over every run of moves inside the guard room, protects and grows, loan to value stays under the threshold at every state and at or under target after every protect and grow, for any positive borrow factor |
| `GuardRun.AMoveStaysUnderTheThreshold` | programs/accrue/src/guard.rs:477-518 | One move inside the guard room from under the guard level never reaches the threshold |
| `GuardRun.AProtectEndsAtTarget` | programs/accrue/src/guard.rs:41-52 | A protect ends at or under target |
| `GuardRun.AGrowEndsAtTarget` | programs/accrue/src/guard.rs:54-63 | A grow ends at or under target |
| `GuardRun.AtOneDebtOnlyThePriceCounts` | programs/accrue/src/guard.rs:477-479 | At an unchanged debt the guard room is exactly a fall of guard level over threshold |
| `GuardRun.AFallIsSafeExactlyInsideTheRoom` | programs/accrue/src/guard.rs:477-479 | At an unchanged debt a fall of the collateral to num over den never carries a position from under the guard level to the threshold if and only if num times threshold is at least den times guard level |
| `GuardRun.TheTruncatedWorstFallIsTooDeep` | programs/accrue/src/guard.rs:477-479 | So the sampled test's truncated fall is not safe; a position just under the guard level that it carries to the threshold |
| `GuardRun.TheRoomIsEnoughExactlyUnderTheGuardLevel` | programs/accrue/src/guard.rs:504-526 | Every move inside the guard room ends under the threshold if and only if the position started under the guard level |
| `GuardRun.TheGuardHasToActBetweenMoves` | programs/accrue/src/guard.rs:504-526 | From the sampled levels, two moves inside the room with no protect between reach the threshold |
| `ProtectSale.TheWorstFillIsAtMostThreeUnitsShort` | packages/core/src/guard.ts:203-236 | Through all six roundings the worst allowed fill of an uncapped sale is at most three raw USDC units short |
| `ProtectSale.ThreeUnitsShortHappens` | packages/core/src/guard.ts:203-236 | A concrete sale that is exactly three units short, so the bound is tight |
| `ProtectSale.TheSaleGrowsAsThePositionWorsens` | packages/core/src/guard.ts:203-236 | A deeper debt or a smaller collateral never makes the guard sell less |
| `GrowSizing.TheBorrowFitsUnderTheTarget` | programs/accrue/src/instructions/grow.rs:218-232 | At unmoved prices and no fee the computed borrow keeps the weighted debt within the allowance even when the market rounds up, and the loan to value is read without overflow, at or under target |
| `GrowSizing.TheWholeDebtFitsUnderTheTarget` | programs/accrue/src/instructions/grow.rs:314-319 | The same when the market revalues the whole debt at once after the borrow |
| `TopUp.TheBorrowSurvivesTheMove` | packages/core/src/positions/topUp.ts:33-80 | A borrow that leaves room stays at or under target for every valuation down to one percent below the one read, and for any extra debt up to the margin held back |
| `TopUp.TheBorrowAndTheMarginFillTheRoom` | packages/core/src/positions/topUp.ts:7-14 | A thousandth of the room and never less than a cent is held back, and the borrow is all the rest of the room |
| `TopUp.TheRoomIsTheGreatest` | packages/core/src/positions/topUp.ts:33-50 | A borrow is within the room if and only if with it the debt stays within the target against the value used, one percent under the one read when the price may have moved |
| `TopUp.AddingMoreNeverBorrowsLess` | packages/core/src/positions/topUp.ts:61-80 | The borrow is monotone in the value added, with or without the room |
| `TopUp.WithoutTheRoomAOnePercentFallIsAboveTarget` | packages/core/src/positions/priceMargin.ts:8-15 | Without the room the same fall ends above target |
| `Sandbox.EveryFillMeetsTheFloorExactlyWithSomeSlippage` | packages/solana/src/swap/sandbox.ts:138-146 | From one price book, every fill meets the program's oracle floor for every amount and pair if and only if at least one basis point of slippage is allowed |
| `Sandbox.SomeSlippageIsEnough` | scripts/devnet/router.ts:77-88 | One basis point outweighs everything the two sides floor differently |
| `Sandbox.ARouteIsQuotedForEveryPositiveFloor` | packages/solana/src/swap/sandbox.ts:180-188 | The router quotes a route at or above the floor whenever the floor is positive and some slippage is allowed |
| `Sandbox.TheListedPairMeetsTheFloorExactlyWithSomeSlippage` | scripts/devnet/router.ts:40-44 | The same equivalence for the one pair the sandbox lists, both ways, at whatever prices |
| `Sandbox.NoSlippageIsNotEnough` | scripts/devnet/tokens.ts:82-89 | At no slippage the floor can sit above the fill: 1160.847112 USDC into the yield token at 1.000183 dollars is filled one raw unit under the floor |
| `Sandbox.TheExponentCancels` | scripts/devnet/tokens.ts:82-89 | The exponent a feed is written with cancels out of the price read back |
| `Sandbox.TheFillExactly` | packages/solana/src/swap/sandbox.ts:138-146 | The fill is the floored product of the amount and the rate, and a route is quoted exactly when that is positive |
| `Sandbox.ThereAndBackNeverGains` | packages/solana/src/swap/sandbox.ts:138-146 | A there and back fill at reciprocal rates never gains |
| `Base58.DecodeUndoesEncode` | scripts/shared/base58.ts:3-23 | Every byte string, leading zeros and the empty one included, is decoded back from its encoding |
| `Base58.EncodeUndoesDecode` | scripts/shared/base58.ts:3-23 | Every string over the alphabet is the encoding of what it decodes to |
| `Base58.EncodeIsInjective` | scripts/shared/base58.ts:3-23 | No two byte strings share an encoding |
| `Base58.ConvertIsUndone` | scripts/shared/base58.ts:3-23 | Changing base there and back gives the digits back, for any two bases |
| `Base58.ConvertKeepsTheValue` | scripts/shared/base58.ts:3-23 | A change of base keeps the number and the count of leading zeros |
| `Base58.TheAlphabetSpelledOut` | scripts/shared/base58.ts:1 | The alphabet, built from the runs it skips letters between, is the fifty-eight characters of the source |
| `Base58.EncodeBase58` | scripts/shared/base58.ts:3-23 | The loops compute the encoding |
| `Base58.ToBase58` | apps/web/src/client/encoding.ts:5-23 | The web encoder computes the same string on every non-empty input, and one digit on the empty one |
| `Limiter.RateLimiter.TakeATurn` | packages/solana/src/rpc/limiter.ts:17-34 | A caller is granted after at most one sleep, and without one exactly when fewer than the limit are unexpired; after a sleep, exactly a second and the sleep's own lateness after the oldest of those; the queue is exactly the unexpired grants in order |
| `Limiter.RateLimiter.DropExpired` | packages/solana/src/rpc/limiter.ts:20-25 | The inner loop leaves a suffix of the history that starts with an unexpired grant, or nothing |
| `Limiter.CreateRateLimiter` | packages/solana/src/rpc/limiter.ts:9-15 | A limiter is made exactly for a positive rate, with nothing granted yet |
| `Limiter.NoSecondHoldsMore` | packages/solana/src/rpc/limiter.ts:17-34 | Grants spaced by the limit never put more than the limit into any half open second, wherever it starts |
| `Limiter.TheLimitHolds` | packages/solana/src/rpc/limiter.ts:9-44 | Whatever turns a limiter has granted, no second ever held more than the limit rounded up |
| `Limiter.FewerThanTheRate` | packages/solana/src/rpc/limiter.ts:26 | Comparing with a fractional rate is comparing with the rate rounded up |
| `BorrowCurve.BorrowRateBps` | packages/solana/src/kamino/rates.ts:17-47 | The search returns the specified rate on the usable points, whatever the curve, and never divides by zero |
| `BorrowCurve.UsablePoints` | packages/solana/src/kamino/rates.ts:56-65 | The loop keeps the points up to the first at full utilisation |
| `BorrowCurve.SupplyRateBps` | packages/solana/src/kamino/rates.ts:49-54 | The supply rate is the borrow rate times utilisation less the protocol's take |
| `BorrowCurve.TheRateIsTheSegmentsOwn` | packages/solana/src/kamino/rates.ts:17-47 | On a sorted curve the rate is the interpolation of the segment the utilisation falls in |
| `BorrowCurve.TheRateIsMonotoneAndBounded` | packages/solana/src/kamino/rates.ts:17-47 | The rate never falls as utilisation rises, and stays between the first and last usable rates |
| `BorrowCurve.InterpolationIsMonotone` | packages/solana/src/kamino/rates.ts:33-45 | Interpolation on one segment is monotone and stays between its ends, through the rounding |
| `BorrowCurve.TheSupplyRateNeverExceedsTheBorrowRate` | packages/solana/src/kamino/rates.ts:49-54 | What the depositor earns never exceeds what the borrower pays |
| `BorrowCurve.UsableIsAPrefix` | packages/solana/src/kamino/rates.ts:56-65 | The usable points are the curve up to and including its first point at full utilisation, or all of it, and sorted when the curve is |
| `BorrowCurve.TheUtilisationExactly` | packages/solana/src/kamino/rates.ts:8-15 | Utilisation is the floored share of what is lent in what there is, by cross multiplication, and zero of nothing |
| `BorrowCurve.RoundedIsNearest` | packages/solana/src/kamino/rates.ts:33-45 | The interpolated rate is rounded to the nearest, halves up |
| `BorrowCurve.TheSupplyExactly` | packages/solana/src/kamino/rates.ts:49-54 | The supply rate from both sides: the floored lent share of the rate less the floored take |
| `PriceWatch.NoFalseAlarm` | apps/keeper/src/priceWatch.ts:19-39 | A reported crossing means the true loan to value at the new price has reached the guard level |
| `PriceWatch.ACrossingExactly` | apps/keeper/src/priceWatch.ts:19-39 | A crossing is reported exactly from under the guard level to at or over it by cross multiplication, never for a position already there or a feed without a price |
| `PriceWatch.AMissIsSmall` | apps/keeper/src/priceWatch.ts:19-39 | A missed crossing is less than old price over new price basis points above the level |
| `PriceWatch.Scan` | apps/keeper/src/priceWatch.ts:75-88 | The scan over distinct feeds reports a crossing if and only if some watched position crossed at its own feed's price |
| `PriceWatch.DistinctFeeds` | apps/keeper/src/priceWatch.ts:65-69 | Each feed appears once, and exactly the watched feeds appear |
| `PriceWatch.WaitForTheNextRound` | apps/keeper/src/priceWatch.ts:54-93 | The wait ends at the first scan with a crossing, and reports one exactly when there is one |
| `Decide.GrowingIsSound` | apps/keeper/src/decide.ts:53-129 | On one snapshot a decision to grow passes every gate of the instruction exactly when the program can compute them |
| `Decide.GrowingIsComplete` | apps/keeper/src/decide.ts:104-129 | And when the gates are open a position whose levels are in order is decided to grow |
| `Decide.ProtectingIsSound` | apps/keeper/src/decide.ts:64-81 | A decision to protect passes every gate of the instruction exactly when the program can compute them |
| `Decide.ProtectingIsComplete` | apps/keeper/src/decide.ts:64-81 | When the program's gates are open a protect is decided if and only if there is something to sell and the interval is over |
| `Decide.EveryDecisionAtTheGuardLevel` | apps/keeper/src/decide.ts:64-81 | At the guard level each of protecting and the three waits is decided exactly when it should be, whatever growing and leaving would say |
| `Decide.EveryDecisionBelowTheGuardLevel` | apps/keeper/src/decide.ts:83-129 | Below it the same for growing, leaving and their waits |
| `Decide.LeavingIsSound` | apps/keeper/src/decide.ts:90-101 | A decision to leave passes every gate of the instruction |
| `Decide.LeavingIsHiddenByGrowing` | apps/keeper/src/decide.ts:53-101 | Leaving is not complete: a leave the program would allow is decided if and only if the position is open, under its guard level, and growing does not come first |
| `Decide.SomeLeavesAreHidden` | apps/keeper/src/decide.ts:58-60 | Three concrete leaves the program would allow and the keeper waits on: behind a paused grow, awaiting the first swap, and part way out |
| `Decide.TheOldestAgeStandsForBoth` | apps/keeper/src/watch.ts:27-38 | The single oldest age is within the limit exactly when both prices are fresh to the program |
| `Anticipation.ADecidedGrowPassesEveryGate` | apps/keeper/src/decide.ts:104-129 | A grow decided on the refreshed chain is never refused by grow with a state, level, interval or freshness error |
| `Anticipation.ADecidedLeavePassesEveryGate` | apps/keeper/src/decide.ts:90-101 | A leave decided on the chain is never refused by leave with a state, permission, reason or freshness error |
| `Anticipation.ADecidedProtectPassesEveryGate` | apps/keeper/src/decide.ts:64-81 | A protect decided on the refreshed chain is never refused by protect with a state, level, interval or freshness error |
| `Anticipation.AGrowNeverEndsAboveTheTarget` | programs/accrue/src/instructions/grow.rs:314-319 | On a market that weighs the planned borrow at most rounded up, grow never fails with the loan to value above target error |
| `KeeperRound.RunOneRound` | apps/keeper/src/loop.ts:37-99 | A round throws exactly when some log write that nothing catches does; otherwise it has written one record per candidate in order, attempted plus skipped is considered, and landed is the landed records plus the landings whose record was lost |
| `KeeperRound.MostStretchedFirstIsAStableSort` | apps/keeper/src/decide.ts:132-136 | The visiting order is a permutation in non-increasing loan to value that keeps equals in order |
| `KeeperRound.NoLandingIsLostWhileTheLogHolds` | apps/keeper/src/loop.ts:65-96 | No landing is lost if and only if the log took every landing of an act that was decided |
| `KeeperRound.TheCountsAddUpExactlyWhileTheLogHolds` | apps/keeper/src/loop.ts:65-98 | Landed plus reverted is attempted if and only if the same holds |
| `KeeperRound.ALandingCanGoUnrecorded` | apps/keeper/src/loop.ts:68-88 | A round of one candidate that does not throw, reports one landing and has written no landed record |
| `KeeperRound.NothingElseIsRecorded` | apps/keeper/src/loop.ts:68-88 | Whatever that round wrote and reported, it was that |

## Left out

- Runs.TheStockIsConserved: counts the additions of the program only; a liquidation or a deposit the market makes between transactions is excluded by hypothesis, as are payments of stock into the wallet.
- Runs.TheOwnerPaysOnlyWhatWasAdded: assumes that no authority over the owner's accounts signs the call into the router, because the runtime lets a signing owner spend anything.
- Runs.EveryMintIsConserved: assumes it of the routers and of the steps outside the program, since the program cannot check what other accounts are paid.
- Runs.GrowsAreApart: asks for a clock that never runs back and one interval throughout, since either can undo it.
- GuardRun.EveryRunStaysUnderTheThreshold: the guard acts whenever its level is reached, before the next move; `TheGuardHasToActBetweenMoves` shows why it must.
- Protecting.AnUncappedPlanRaisesEnough: asks for a scaled USDC price of at least one scaled unit per raw unit, and a sale the holding does not cap.
- Growing.TheSizingPassesTheTargetCheck: asks the market to weigh the borrow at no more than its value and weight rounded up, so without an origination fee on the debt and at unmoved prices; the market of the other theorems charges any fee.
- KeeperRound.RunOneRound: a record log that throws ends the round, as in the source; the reporter is taken never to throw.
- Limiter.RateLimiter.TakeATurn: the clock never runs back and a sleep never ends early; a rate is a real number, so the refusal of an infinite one is left out.
- BorrowCurve.TheRateIsMonotoneAndBounded: numbers are exact, with `Math.round` on exact quotients; floating point error is not modelled.
- Sandbox.EveryFillMeetsTheFloorExactlyWithSomeSlippage: prices are whole micro dollars, as the price book rounds them.
- Addresses and account constraints: a position's addresses and the market's are thirteen distinct keys by assumption, and the checks of reserves, vaults, feeds and token programs by key are not repeated.
- Market.RefreshIsIdempotentWithinASlot: that interest accrues at most once a slot is part of the definition of the market model, which is all the lemma rests on; that the lending market does so is assumed.
- The market's flag for a debt is the debt being positive, and the margin call marker is a value the environment supplies.
- A token account is an amount with a mint, a holder, a delegate and a close authority: delegated allowances, transfer fees and hooks of the newer token program, and the market's own collateral token, are not modelled. The sum of lamports across a router call is not modelled either.
- Runs.TheStageNeverGoesBack: about the six instructions modelled. The others (open_position, top_up, repay, unwind, rescue, withdraw_collateral, set_strategy and the configuration setters) are steps a run allows in between as long as they keep custody and rent, do not go back a stage and leave what paces grows; a top up that leaves its USDC for a later swap takes an open position back to awaiting swap (`programs/accrue/src/instructions/top_up.rs:303-305`) and is what that excludes.
- The keeper's gates on an enabled destination and on the share of available liquidity, which it does not read before sending.
- RPC reading, transaction compiling and sending, the Jupiter client, the database, the web server, decoders and byte offsets, the byte helpers of the sandbox route, and the cost of closing a position: input and output or single lookups.
