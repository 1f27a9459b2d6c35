# PonsDesk market maker: a verified model

PonsDesk runs market-making strategies on pons bonding curves. This project
models the parts of it that handle exact money or interleaved steps, and proves
what they keep:

- **The curve and the planners on it.** A constant-product market with floor
  division and a fee in basis points (`Curve`), the strategy's decision and
  slippage rules (`Decide`), the concurrent full exit at one shared quote
  (`ExitPlan`, `ExitRun`), exactly which exits reject one of their own sells
  (`ExitLimits`, and `ExitExact` for a quote of any amount) and what an exit brings
  in (`ExitProceeds`), and the price-target sell and buy plans (`TargetPlan`,
  `TargetGoal`, `TargetResponse`).
- **The engine's event loop** (`EngineSteps`, `Engine`, `EngineSafety`, `EngineBuys`,
  `EngineEffects`, `Distribution`): retail events, ticks, buy settlements, batch results, exit
  requests, and the accumulation round and response batches that run beside the
  loop, in any order.
- **The trade monitor** (`RetailPosition`, `TradeMonitor`, `TradeReplay`,
  `TradeBooks`): live
  delivery and block replay feeding one deduplicated accounting.
- **The router contract and its client** (`Router`, `RouterSafety`,
  `RouterCalls`, `RouterCallbacks`, `LaunchBundle`): a deposit ledger with external calls, an atomic
  launch with maker buys, deposits made from inside those calls, and the client that
  funds it.
- **The funding route** (`FundingPlan`, `FundingSplit`, `FundingLedger`,
  `FundingRun`, `FundingRestart`): seven hops of splits and sweeps, stoppable and
  restartable.

Code that changes state in place is modelled by classes and methods with loops,
each proved against a function or predicate on values; the properties of whole
runs are lemmas about those functions. What the network answers (reserves,
receipts, balances, heads, random draws, gas) is a parameter everywhere, so every
theorem holds whatever it answers. `dafny verify dfyconfig.toml` checks the
project.

Where the repository's own text and its code disagree:

- The repository's README says the 9999-bps tolerance keeps concurrent sells from
  being rejected. With floors of whole wei and nobody else selling, that holds exactly
  up to a batch size that depends on the fee (`ExitLimits.ExactlyPaid`): 9999 token
  reserves and one token without a fee, about 5050 at a fee of 1%, and never less than
  4999; for a quote of any other amount, rescaled or not, exactly where
  `ExitExact.ExactlyPaidAtAnyQuote` says. Others selling during the exit count towards
  its size (`ExitRun.NeverRejected`). A floor clamped up to one wei can be missed at
  any size (`ExitLimits.ClampedFloorMisses`).
- A full exit decided because its quote beats the total cost can return no more
  than that cost. It always covers it if and only if a single wallet holds the
  position (`ExitProceeds.AlwaysCoversIffOneWallet`), and the least margin that
  repairs this for n wallets is floor((2n - 1) * 9999 / 10000) wei
  (`ExitProceeds.LeastMargin`). The decision quotes the monitor's tracked position;
  where that exceeds what the wallets hold no margin is enough
  (`ExitProceeds.TrackedCoversIffHeld`).
- The repository's README says each maker buys once per cycle. An accumulation tick
  checks for pending buys before it takes the round's lock, and a round that ends in
  between lets the next one buy again from a wallet whose buy is not settled
  (`EngineBuys.RacedTickBuysTwice`). Runs in which no round starts over a pending buy
  keep the promise (`EngineBuys.AlwaysOneBuyEach`). A settlement that failed, as it
  does when no receipt arrives in time, readmits its wallet whatever it holds on chain
  (`EngineBuys.ReadmittedIff`).
- The strategy can end over a buy that was broadcast and not yet counted, in either
  mode (`EngineBuys.DoneCanStrandABuy`, `EngineBuys.TargetDoneCanStrandABuy`), and
  over no other (`EngineBuys.OpenAtDone`).
- The router's `deposit` may be called from inside a maker buy, whose refund then
  counts it a second time. The router stays solvent (`RouterCallbacks.AlwaysSolventWith`):
  the launch caller's refund pays for it, or the call reverts
  (`RouterCallbacks.CallerPaysForParked`).
- A stopped funding run can be started again "to continue from the current chain
  state". A sender can then afford all it plans, whatever the gas, only with none of its
  transfers pending (`FundingRestart.RestartNeedsNonePending`).
- A sell towards the price target is planned as if it were one sell. Its wallets sell one
  by one, which can leave a wei more in the curve for each but the first and so miss the
  target (`TargetGoal.PartsStayNear`, `TargetGoal.PartsCanMiss`).
- The comment on `randomNearEvenSplit` puts every part within 15% of the mean.
  Only the weights are; the parts are exactly when there are at most two
  (`FundingSplit.NearMeanIffTwoParts`).

## Model

| member | source | states |
|---|---|---|
| Curve.SellKeepsProduct | internal/pons/curve.go:29-38 | a sell leaves both reserves positive and never lowers their product; it lifts it by less than the new token reserve |
| Curve.BuyKeepsProduct | internal/pons/curve.go:16-25 | a buy leaves both reserves positive and never lowers their product |
| Curve.RunKeepsProduct | internal/pons/curve.go:16-51 | over any run of buys and sells the reserves stay positive and the product never falls |
| Curve.RunConservesQuote | internal/pons/curve.go:40-51 | the curve gains at most what its traders paid less what they received |
| Curve.NoFreeMoney | internal/pons/curve.go:16-51 | traders who give up no tokens over a run receive at most the quote they paid |
| Curve.SplitFee | internal/pons/curve.go:42-51 | a payment split in n parts keeps at most what the whole keeps, and at most n - 1 units less |
| Curve.BuyerGetsMost | internal/pons/curve.go:16-25 | a buyer gets the most tokens that do not lower the reserves' product, once fee and creator tax together are off the payment |
| Curve.SellerGetsMost | internal/pons/curve.go:29-38 | a seller gets, of the most quote that does not lower the product, what fee and creator tax together leave |
| Curve.BuyMovesReserves | internal/pons/curve.go:16-25 | a buy moves in exactly what the fee leaves and out exactly the tokens bought |
| Decide.ScaleIsLargest | internal/ponsmm/decide.go:56-66 | scaling takes the largest amount within the fraction, never more than there is |
| ExitPlan.PlanFastSells | internal/ponsmm/engine.go:1610-1641 | one sell per holding wallet for its whole balance, in list order, at its part of one shared quote: with nothing in hand the plan is priced off the live reserves by a quote for exactly the batch, and at zero without reserves; a quote in hand is rescaled when named for another amount and used as it is otherwise |
| ExitPlan.HeldIsSound | internal/ponsmm/engine.go:1616-1625 | every planned sell is a distinct wallet's whole positive balance, in order |
| ExitPlan.HeldIsComplete | internal/ponsmm/engine.go:1616-1625 | every wallet with a positive balance is planned |
| ExitPlan.HeldTotal | internal/ponsmm/engine.go:1617-1625 | the planned amounts add up to everything the wallets hold |
| ExitPlan.FreshIsPriced | internal/ponsmm/engine.go:1629-1631 | shares of a fresh quote are a plan the exit theorems speak about |
| ExitPlan.RescaledIsPriced | internal/ponsmm/engine.go:1632-1636 | so are shares of a quote for another amount, rescaled |
| ExitPlan.NamelessIsUnscaled | internal/ponsmm/engine.go:965-970 | a quote whose amount is not named is priced unscaled, as the immediate exit theorems take it |
| ExitRun.SellPaysFloor | internal/ponsmm/engine.go:1737-1740 | at any later reserves the exit can reach, a sell with a whole-wei floor pays it when the fee leaves room for the batch |
| ExitRun.NeverRejected | internal/ponsmm/engine.go:1610-1667 | no sell of a concurrent exit misses its own minimum output, in any order and between any outside buys and sells, for a quote of any amount rescaled to the batch, within a size set by the fee and the quoted amount that counts the outsiders' tokens with the batch |
| ExitRun.OrdinaryExitQualifies | internal/ponsmm/engine.go:1610-1667 | an ordinary exit, among outsiders who sell more than it does, meets all the conditions of the theorem |
| ExitRun.UnscaledNeverRejected | internal/ponsmm/engine.go:945-970 | nor does one of the immediate exit after a retail buy, whose quote for the tracked position, larger or smaller than the holdings, is not rescaled |
| ExitLimits.ExactlyPaid | internal/ponsmm/engine.go:1610-1667 | for every token reserve, batch size and fee: no exit of that size, at any quote reserve, wallets, order and outside buys, rejects one of its own sells if and only if the last token of a two-wallet exit is paid for each floor up to the basis points the fee keeps |
| ExitLimits.WithinRoom | internal/ponsmm/decide.go:51-53 | in simple terms, every exit is paid when the fee room (kept basis points times the least gross output worth one wei) times the curve tokens after the exit less one is at most 10^8 token reserves |
| ExitLimits.BeyondRoom | internal/ponsmm/decide.go:51-53 | and some exit rejects its own last sell when the fee room times those tokens less two reaches 10^8 token reserves, so the two halves meet within one token |
| ExitLimits.RoomIsExact | internal/ponsmm/decide.go:51-53 | where the fee room divides 10^8 token reserves the first condition is exact |
| ExitLimits.NoFeeLimit | internal/ponsmm/decide.go:51-53 | without a fee exits are always paid if and only if the batch is at most 9999 token reserves and one token |
| ExitLimits.EveryFeeHasRoom | internal/ponsmm/decide.go:51-53 | at every fee a batch of up to 4999 token reserves is within the room |
| ExitLimits.NoExitAtFullFee | internal/pons/curve.go:42-51 | with a fee of everything no exit has a whole-wei floor to miss |
| ExitLimits.UnscaledMisses | internal/ponsmm/engine.go:965-970 | for every token reserve, batch, fee and unscaled quote beyond a bound just above the one that is safe, some exit rejects its last sell |
| ExitLimits.RescaledMisses | internal/ponsmm/engine.go:1632-1636 | the same for a quote of any amount rescaled to the batch |
| ExitLimits.ClampedFloorMisses | internal/ponsmm/engine.go:1738-1740 | without whole-wei floors no size is safe: every batch of any wallets misses its clamped floor at some reserves |
| ExitLimits.ClampedShareMisses | internal/ponsmm/engine.go:1738-1740 | also with every quote positive: for every token reserve and every batch of two or more tokens a wallet quoted one wei is paid none |
| ExitLimits.EnoughSellingMisses | internal/ponsmm/engine.go:1737-1740 | any exit with whole-wei floors is rejected once outsiders sell as many tokens as the product of the reserves |
| ExitExact.ExactlyPaidAtAnyQuote | internal/ponsmm/engine.go:1629-1641 | for every token reserve, batch, quoted amount and fee, rescaled or not: no exit of those sizes, at any quote reserve, wallets, order and outside buys, rejects one of its own sells if and only if, for each amount of one wallet and each floor of one period, that wallet is paid when all the rest is sold first at the least reserve giving both their floors, and that reserve grows as fast as the floor needs |
| ExitExact.FloorNeedsReserve | internal/ponsmm/engine.go:1629-1641 | a wallet's share of a quote gives it a floor exactly from one least quote reserve on |
| ExitExact.WorstIsLast | internal/pons/curve.go:29-38 | a sell paid after everything else was sold at once is paid at any reserves the exit can reach |
| ExitExact.NoExitAtFullFee | internal/pons/curve.go:42-51 | with a fee of everything no exit at any quote has a whole-wei floor to miss |
| ExitProceeds.SplitSellBracket | internal/ponsmm/engine.go:1915-1926 | sold in n parts a position leaves between 0 and n - 1 wei more in the curve than sold at once |
| ExitProceeds.QuoteBracketsProceeds | internal/ponsmm/engine.go:1915-1926 | the one-hop quote is at least the net proceeds of n sells in any order, and at most floor((2n - 1) * 9999 / 10000) wei above them |
| ExitProceeds.ShortfallInWei | internal/ponsmm/engine.go:1915-1926 | that shortfall is 2(n - 1) wei if and only if n is at most 5000 |
| ExitProceeds.ShortfallReached | internal/ponsmm/engine.go:1915-1926 | for every n there is an exit of n wallets that falls the whole of it short |
| ExitProceeds.LeastMargin | internal/ponsmm/decide.go:25-36 | deciding a full exit of n wallets at a margin over total cost always covers the cost if and only if the margin is at least the shortfall |
| ExitProceeds.AlwaysCoversIffOneWallet | internal/ponsmm/decide.go:25-36 | without a margin, as the code decides, it always does if and only if one wallet holds the position |
| ExitProceeds.ClearsAtItsCost | internal/ponsmm/decide.go:25-36 | even without a fee: for every n of two or more an exit is decided and brings in exactly its cost |
| ExitProceeds.TrackedCoversIffHeld | internal/ponsmm/engine.go:945-963 | quoted on the tracked position, the margin suffices at all reserves if and only if no more is tracked than the wallets hold |
| ExitProceeds.ClearAllCoversCost | internal/ponsmm/engine.go:945-963 | a full exit decided with the margin on the tracked position brings in more than its total cost, in whatever order its wallets sell, when no more is tracked than they hold |
| TargetPlan.PlanTargetSellCount | internal/ponsmm/target.go:107-121 | the shortest prefix of wallets whose sale reaches the target; not reached if and only if selling everything stays above it, and then everything is planned |
| TargetPlan.ProjectedPriceFalls | internal/ponsmm/target.go:41-50 | selling more strictly lowers the projected price, floor rounding included |
| TargetPlan.ReachIsUpward | internal/ponsmm/target.go:41-50 | once an amount reaches the target every larger amount does |
| TargetPlan.QuoteNeededIsExact | internal/ponsmm/target.go:56-71 | a net input keeps the ideal price at or below the target if and only if it is at most the planned one |
| TargetPlan.NothingNeededAbove | internal/ponsmm/target.go:56-71 | with the price above the target nothing is needed |
| TargetPlan.GrossIsLeast | internal/ponsmm/target.go:75-91 | the gross payment leaves exactly the net after the fee, and is the least payment that leaves as much |
| TargetPlan.SplitBuysEnter | internal/pons/curve.go:16-25 | buys in parts bring in at most what one payment of their sum would |
| TargetPlan.SplitBuysNeverBeatOne | internal/pons/curve.go:16-25 | split buys leave the curve at least as many tokens as one buy of their sum |
| TargetPlan.NeverOvershoots | internal/ponsmm/target.go:205-228 | buys paying at most the planned gross never lift the price past the target, at any order and any extra tax |
| TargetPlan.PlannedBuysNeverOvershoot | internal/ponsmm/target.go:205-228 | any part of a buy plan, landing in any order, keeps the price at or below the target |
| TargetGoal.ReachesIsWithin | internal/ponsmm/target.go:162-164 | the target is the average plus the ratio of it: reaching it is costing no more than that, cross-multiplied |
| TargetGoal.ProjectedIsWithin | internal/ponsmm/target.go:41-50 | the projected price is that of the reserves one sell leaves |
| TargetGoal.PartsStayNear | internal/ponsmm/target.go:243-246 | sold in parts, in any order, the plan reaches the target up to a wei for each part but the first |
| TargetGoal.PartsCanMiss | internal/ponsmm/target.go:243-246 | reserves at which one sell reaches the target and two do not |
| TargetGoal.NeedIffOneUnitFits | internal/ponsmm/target.go:200-209 | something is needed if and only if one unit of quote stays within the target and the fee is not everything |
| TargetGoal.NeedIsEnough | internal/ponsmm/target.go:200-228 | what is planned is exactly enough: one unit more would pass the target, and no smaller payment brings in as much, unless it is every fund |
| TargetGoal.PlannedBuysStayWithin | internal/ponsmm/target.go:205-228 | whatever part of a buy plan lands, in whatever order and at whatever extra tax, the price stays within the ratio of the average |
| TargetResponse.PlanBuys | internal/ponsmm/target.go:210-228 | distinct wallets in order, each spending at most its funds, together the smaller of the need and all funds; only the last is capped |
| TargetResponse.PlanSellBatch | internal/ponsmm/target.go:169-198 | above the target, the shortest prefix of the holders that reaches it with the quote for exactly its tokens, or all of them; none if and only if nobody holds |
| TargetResponse.PlanBuyBatch | internal/ponsmm/target.go:210-240 | buys that together meet the need or use every fund; none if and only if there are no funds |
| TargetResponse.PlanTargetResponse | internal/ponsmm/target.go:146-241 | a plan if and only if one is called for: with an average and a curve, a price more than the ratio away above a lower target and a holder, or room for one unit of quote below a higher target, a fee below everything and a funded maker; it then sells the fewest first holders whose tokens bring the price within the ratio of the average, or all, or buys exactly enough |
| Router.PonsMMRouter.Deposit | contracts/src/PonsMMRouter.sol:225-236 | refuses a zero operator, a zero value and another operator while a balance is parked; otherwise credits the sender and totalDeposits by exactly the value; a revert leaves storage alone |
| Router.PonsMMRouter.Withdraw | contracts/src/PonsMMRouter.sol:239-249 | debits exactly the amount, zero meaning everything, and rolls the ledger back when it is too much or the payment is refused |
| Router.PonsMMRouter.Launch | contracts/src/PonsMMRouter.sol:175-183 | forwards the launch, records its block, and refunds everything that is not a deposit; any failure leaves storage alone |
| Router.PonsMMRouter.BuyAfterLaunch | contracts/src/PonsMMRouter.sol:190-202 | refused as not launched here exactly without a block on record, as expired exactly more than the given blocks past it; otherwise the routed buy |
| Router.PonsMMRouter.BuyWithin | contracts/src/PonsMMRouter.sol:208-217 | refused as expired exactly past the absolute block; otherwise the routed buy |
| Router.PonsMMRouter.RoutedBuy | contracts/src/PonsMMRouter.sol:316-325 | passes the whole value to the curve and refunds what is free, deposits untouched |
| Router.PonsMMRouter.BuyForMaker | contracts/src/PonsMMRouter.sol:267-287 | one maker buy out of its deposit, with the refund measured as a balance difference and credited to the maker |
| Router.PonsMMRouter.LaunchAndBuyAtomic | contracts/src/PonsMMRouter.sol:257-289 | the whole atomic launch: every buy in order, or no change at all |
| RouterSafety.CallKeepsSolvent | contracts/src/PonsMMRouter.sol:175-334 | every call keeps the deposits summing to totalDeposits and covered by the balance, and none of its subtractions or own payments can underflow |
| RouterSafety.AlwaysSolvent | contracts/src/PonsMMRouter.sol:175-334 | over every sequence of calls from deployment the deposits sum to totalDeposits, the balance covers them, and parked ETH has an operator |
| RouterSafety.NothingStranded | contracts/src/PonsMMRouter.sol:328-334 | after a successful launch or buy the balance is exactly the deposits, plus what the refunded caller sent straight back |
| RouterSafety.AtomicMovesDeposits | contracts/src/PonsMMRouter.sol:266-287 | each wallet's deposit moves by exactly minus its quotes plus its refunds, however often it appears; wallets of other operators are untouched |
| RouterSafety.AtomicGoesThrough | contracts/src/PonsMMRouter.sol:266-287 | the loop goes through if and only if every buy passes its own checks with the earlier ones applied |
| RouterSafety.CallKeepsCustody | contracts/src/PonsMMRouter.sol:225-289 | one call changes a wallet's account with each operator by exactly what that call parked, refunded, spent or withdrew under it |
| RouterSafety.CustodyHolds | contracts/src/PonsMMRouter.sol:225-289 | over every run a deposit consists of what was parked or refunded under the operator now registered, and other operators have nothing |
| RouterSafety.OperatorChangesAtZero | contracts/src/PonsMMRouter.sol:228-232 | a registered operator changes only by the wallet's own deposit, at zero balance |
| RouterSafety.OnlyOwnerOrOperatorSpends | contracts/src/PonsMMRouter.sol:239-289 | a deposit falls only by its wallet's withdrawal or its operator's atomic launch |
| RouterCalls.RecordIsLatest | contracts/src/PonsMMRouter.sol:297-314 | after any run the block on record for a curve is that of its latest launch that went through |
| RouterCalls.BuysOnlyInWindow | contracts/src/PonsMMRouter.sol:190-202 | after any run a window buy goes through if and only if the curve's latest launch here left a block on record, this block is at most the window past it, and the buy works; it returns the curve's tokens |
| RouterCalls.WindowRefusals | contracts/src/PonsMMRouter.sol:196-200 | it is refused as expired exactly after that window, and as not launched here exactly without a record |
| RouterCalls.BuysOnlyByDeadline | contracts/src/PonsMMRouter.sol:208-217 | a buy with an absolute deadline goes through exactly up to that block, when it works |
| RouterCalls.LaunchGoesThrough | contracts/src/PonsMMRouter.sol:175-183 | a launch goes through if and only if it is well-formed, funded, carried out, and its refund accepted; its tokens are those of its own buy |
| RouterCalls.DepositGoesThrough | contracts/src/PonsMMRouter.sol:225-236 | a deposit goes through if and only if it names an operator and a value and no other operator holds a balance; what it changes, what it leaves alone, and each refusal |
| RouterCalls.WithdrawGoesThrough | contracts/src/PonsMMRouter.sol:239-249 | a withdrawal goes through if and only if something is taken, no more than is parked, and accepted; it pays exactly that out of router and deposit; each refusal |
| RouterCalls.AtomicCallGoesThrough | contracts/src/PonsMMRouter.sol:257-289 | an atomic launch goes through if and only if the launch works, every buy passes with the earlier ones applied, and the refund is accepted; it returns each buy's tokens in order |
| RouterCalls.CallAccountsForEth | contracts/src/PonsMMRouter.sol:175-334 | after every call that goes through, the ETH without an owner is exactly what arrived unasked or was sent straight back |
| RouterCallbacks.Undisturbed | contracts/src/PonsMMRouter.sol:175-334 | with nothing deposited from inside them these are the calls themselves |
| RouterCallbacks.CallWithKeepsSolvent | contracts/src/PonsMMRouter.sol:225-236 | with any deposits made from inside a launch, a buy, a payment or a refund, every call keeps the deposits summing to totalDeposits and covered; only an atomic call with more deposited inside its maker buys than was free can stop on its own arithmetic, and such a call never commits |
| RouterCallbacks.AlwaysSolventWith | contracts/src/PonsMMRouter.sol:175-334 | over every sequence of such calls from deployment the deposits sum to totalDeposits and the balance covers them |
| RouterCallbacks.MakerBuysWithKeep | contracts/src/PonsMMRouter.sol:266-287 | the maker buys take out of what is free exactly what was deposited inside them, and run out of the router's ETH only where that was more than was free |
| RouterCallbacks.CallerPaysForParked | contracts/src/PonsMMRouter.sol:281-289 | an atomic launch whose maker buys went through commits if and only if what was deposited inside them fits what was free, and its caller's refund is short by exactly that |
| RouterCallbacks.ParkedIsCreditedTwice | contracts/src/PonsMMRouter.sol:277-287 | a deposit made inside a maker buy is credited to its depositor and once more to the maker, while its ETH arrives once |
| RouterCallbacks.ParkedInBuyIsCreditedOnce | contracts/src/PonsMMRouter.sol:316-325 | made inside a launch or a buy of the caller's own it is credited once |
| RouterCallbacks.ParkedInRefundIsCreditedOnce | contracts/src/PonsMMRouter.sol:328-334 | and so inside a refund |
| RouterCallbacks.ParkedInPaymentIsCreditedOnce | contracts/src/PonsMMRouter.sol:239-249 | and inside a withdrawal's payment |
| LaunchBundle.BundleBuySpend | internal/ponsmm/bundle.go:257-265 | a positive spend fits with its full gas and the reserve into the wallet's balance |
| LaunchBundle.SpendIsLargest | internal/ponsmm/bundle.go:257-265 | it is the largest amount within the buy fraction of what gas and reserve leave |
| LaunchBundle.Bundle.RefreshWindowBuys | internal/ponsmm/bundle.go:271-285 | keeps, in order, exactly the makers with a positive spend, each covering value plus gas |
| LaunchBundle.Bundle.FindBuy | internal/ponsmm/bundle.go:238-245 | the first entry of the wallet, or an empty one |
| LaunchBundle.Bundle.TopUp | internal/ponsmm/bundle.go:145-203 | one maker's outcome, that a kept or confirmed maker is funded under the treasury, and exactly what is parked for it afterwards |
| LaunchBundle.Bundle.TopUpAll | internal/ponsmm/bundle.go:145-206 | in whatever order the workers finish, fails if and only if a deposit read failed |
| LaunchBundle.Bundle.ConfirmDeposits | internal/ponsmm/bundle.go:207-221 | every pending deposit joins the kept list if and only if its receipt confirms it |
| LaunchBundle.Bundle.Reorder | internal/ponsmm/bundle.go:222-231 | the kept entries in the original order |
| LaunchBundle.Bundle.EnsureDeposits | internal/ponsmm/bundle.go:132-236 | the bundle ends as the makers each worker would keep, in the original order and distinct, all funded with the treasury as operator, each maker's deposit exactly what its worker left, the router still solvent; it fails if and only if a read failed or nobody is left |
| LaunchBundle.KeptIsSublist | internal/ponsmm/bundle.go:222-231 | the result is an order-preserving sub-list by wallet |
| LaunchBundle.KeptExactly | internal/ponsmm/bundle.go:155-203 | a maker is kept if and only if no other operator holds its balance and its deposit covers its spend, or its gas is known and the deposit it then needs, if any, is confirmed; with the largest spend parked already or reached by one deposit that pays its own gas |
| LaunchBundle.KeepsExactly | internal/ponsmm/bundle.go:222-231 | the list holds exactly those makers, in order |
| LaunchBundle.FundedBuysFill | internal/ponsmm/bundle.go:120-126 | a funded bundle of distinct makers cannot revert on a maker's own checks |
| LaunchBundle.LaunchSpendsDeposits | internal/ponsmm/bundle.go:120-126 | and takes exactly each maker's own spend from its deposit, returning what the curve hands back |
| LaunchBundle.LaunchNeverBlamesMakers | internal/ponsmm/bundle.go:132-236 | the atomic launch of a funded bundle reverts only for the launch, the curve or the refund, never with a maker's error |
| LaunchBundle.Bundle.EnsureAndLaunch | internal/ponsmm/engine.go:438-490 | deposits then atomic launch, end to end from any solvent router: whatever makes it revert, it is never a wrong operator, a short deposit or a zero value |
| Engine.MarketMaker.constructor | internal/ponsmm/engine.go:709-740 | a bound engine accumulates with nothing pending |
| Engine.MarketMaker.TotalTokens | internal/ponsmm/wallets.go:282-288 | the sum of all cached balances |
| Engine.MarketMaker.HeldWallets | internal/ponsmm/engine.go:1161-1166 | the wallets with a positive balance, in pool order |
| Engine.MarketMaker.DistributionWalletBatch | internal/ponsmm/engine.go:1160-1180 | the first holders up to the size, which is drawn once per response and only with a holder |
| Engine.MarketMaker.StartDistributionRound | internal/ponsmm/engine.go:1133-1158 | at most one batch at a time; with nobody holding and nothing pending the strategy ends |
| Engine.MarketMaker.StartTargetResponse | internal/ponsmm/target.go:127-144 | shares the batch guard, so responses never overlap |
| Engine.MarketMaker.BeginRetailDistribution | internal/ponsmm/engine.go:998-1007 | opens a response and clears the size only when none is active |
| Engine.MarketMaker.ResumeAfterRetailSell | internal/ponsmm/engine.go:1009-1016 | back to accumulation |
| Engine.MarketMaker.OnRetail | internal/ponsmm/engine.go:933-996 | an outside buy is answered by a full exit, selling every wallet, if and only if the cost basis is known and the quote beats net investment, gas and launch fee together; an outside sell resumes accumulation |
| Engine.MarketMaker.OnRetailBuy | internal/ponsmm/engine.go:935-985 | cancels unsent buys, then exits, responds or distributes as decided; the exit leaves every wallet that sold with what its sell left, and is done exactly when nothing is unsold, held or pending |
| Engine.MarketMaker.OnRetailSell | internal/ponsmm/engine.go:986-996 | resumes accumulation only out of an active distribution |
| Engine.MarketMaker.InterruptBuys | internal/ponsmm/engine.go:1076-1082 | cancels the running round, if any |
| Engine.MarketMaker.CheckAccumulation | internal/ponsmm/engine.go:1021-1040 | the first half of a tick: goes on only with nothing pending and no hold |
| Engine.MarketMaker.StartRound | internal/ponsmm/engine.go:1041-1060 | the second half, under the lock: starts a round only with none running by then |
| Engine.MarketMaker.BuyEligibleMakers | internal/ponsmm/engine.go:1309-1318 | exactly the funded makers whose cached balance is zero |
| Engine.MarketMaker.SellAllFast | internal/ponsmm/engine.go:1600-1602 | every holding wallet ends at its confirmed balance; fails if and only if some sell fails |
| Engine.MarketMaker.ClearAllStepWithQuote | internal/ponsmm/engine.go:1217-1228 | the sweep, ending the strategy when it leaves nothing |
| Engine.MarketMaker.AddPendingBuy | internal/ponsmm/engine.go:1473-1477 | one more counted buy |
| Engine.MarketMaker.FinishPendingBuy | internal/ponsmm/engine.go:1479-1485 | one fewer, never below zero |
| Engine.MarketMaker.ApplyBuySettlement | internal/ponsmm/engine.go:1493-1532 | counts the buy off, updates its wallet, and sells or distributes it as the mode demands |
| Engine.MarketMaker.FinishDrainIfEmpty | internal/ponsmm/engine.go:1534-1538 | an exit with nothing pending and nothing held is done |
| Engine.MarketMaker.ApplyDistributionResult | internal/ponsmm/engine.go:1192-1202 | frees the guard, and ends an emptied distribution |
| Engine.MarketMaker.ExitAll | internal/ponsmm/engine.go:851-860 | cancels, refreshes, sells every wallet off the fresh balances, and leaves the loop exactly when a sell failed |
| Engine.MarketMaker.HandleLoop | internal/ponsmm/engine.go:826-896 | every turn of the event loop is one step of the state machine |
| Engine.MarketMaker.HandleBackground | internal/ponsmm/engine.go:1084-1119 | every action of the accumulation round or of a batch is one step of the state machine |
| Engine.MarketMaker.Drive | internal/ponsmm/engine.go:744-897 | any schedule of both is a run of the state machine, and keeps the books from a bound start |
| EngineSafety.ClampNeverFires | internal/ponsmm/engine.go:1479-1485 | whenever a settlement is applied the pending count is positive |
| EngineSafety.AlwaysBookkept | internal/ponsmm/engine.go:826-896 | over every run the pending count is the counted buys not settled, a batch is out exactly while its guard is set, and the retail flag agrees with the mode |
| EngineSafety.StepBookkept | internal/ponsmm/engine.go:933-1016 | every single step of the loop or beside it keeps those books |
| EngineSafety.DoneOnlyWhenEmpty | internal/ponsmm/engine.go:1534-1538 | except by graduation the strategy ends only with no counted buy pending and every cached balance zero |
| EngineBuys.OpenAtDone | internal/ponsmm/engine.go:1409-1415 | in either mode, when it so ends, the buys left open are exactly those broadcast, by the round or a response batch, and not yet counted when the step began |
| EngineBuys.DoneCanStrandABuy | internal/ponsmm/engine.go:1137-1145 | a run that ends over such a buy |
| EngineBuys.TargetDoneCanStrandABuy | internal/ponsmm/target.go:243-264 | a run in target mode that ends over a response batch's buy |
| EngineBuys.AlwaysOneBuyEach | internal/ponsmm/engine.go:1084-1119 | in distribute mode no wallet ever has two buys open, over every run in which no round starts over a pending buy |
| EngineBuys.StartIsSafeIff | internal/ponsmm/engine.go:1041-1060 | the converse: a start after the check, with no round running, is safe for a maker that holds nothing if and only if the maker's earlier buy is settled |
| EngineBuys.RacedTickBuysTwice | internal/ponsmm/engine.go:1022-1050 | a run in which a buy is counted and its round ends inside the next tick starts a round over it and buys twice from one wallet |
| EngineBuys.BroadcastOnlyWhenFlat | internal/ponsmm/engine.go:1306-1318 | over those runs no buy is broadcast by the treasury, or by a wallet that holds tokens or has a buy open |
| EngineBuys.BuysAreConserved | internal/ponsmm/engine.go:1368-1423 | over every run, in either mode, each wallet's broadcast buys are its settled ones plus those open |
| EngineBuys.StepOpen | internal/ponsmm/engine.go:1368-1423 | a wallet's open buys rise with a broadcast by the round or a batch, fall with a settlement, and change with nothing else |
| EngineBuys.RebuyNeedsSettlement | internal/ponsmm/engine.go:1493-1515 | over those runs a wallet is bought from again only after a settlement of its earlier buy, failed or not, was applied and with its cached balance at zero |
| EngineBuys.ReadmittedIff | internal/ponsmm/engine.go:1425-1429 | a maker whose buy was the only one pending may buy again if and only if its settlement failed, as on a receipt timeout, or left the cached balance at zero, as on a failed balance read |
| EngineEffects.ProfitableBuyExits | internal/ponsmm/engine.go:965-970 | a retail buy that pays for leaving leaves every wallet that sold with what its sell left and every other as it was; done if and only if no sell failed, nothing is pending and nothing is held |
| EngineEffects.RequestedExitSells | internal/ponsmm/engine.go:851-860 | a one-click exit does the same off freshly read balances |
| EngineEffects.ExitTickSells | internal/ponsmm/engine.go:868-872 | and so does every tick of an exit |
| EngineEffects.ExitIsGivenUpIff | internal/ponsmm/engine.go:956-985 | an exit is given up if and only if a retail buy does not pay for leaving, in distribute mode, with something open, held or pending |
| EngineEffects.ExitGoesOn | internal/ponsmm/engine.go:826-896 | over any run without such a buy it goes on until it is done |
| EngineEffects.UnprofitableBuyDistributes | internal/ponsmm/engine.go:971-983 | otherwise a retail buy opens a response with a batch of the first holders, its size drawn anew, or joins the open one |
| EngineEffects.UnprofitableBuyTargets | internal/ponsmm/engine.go:955-961 | in target mode it sends the planned response unless one is out, and changes neither mode nor balances |
| EngineEffects.SellTickDistributes | internal/ponsmm/engine.go:866-868 | a sell tick of a distribution sends the first holders, or ends it with nothing held or pending, or waits for the batch that is out |
| EngineEffects.RetailSellResumes | internal/ponsmm/engine.go:991-996 | an outside sell closes an open distribution and changes nothing else |
| EngineEffects.SettlementReacts | internal/ponsmm/engine.go:1493-1532 | a settlement is counted off and its balance read; an exit sells it and ends exactly when nothing is left; a distribution goes on with it |
| EngineEffects.BatchSaleSells | internal/ponsmm/engine.go:1600-1602 | a batch's sell changes its own wallet's balance, as the sell left it, and no other |
| EngineEffects.ResultFreesGuard | internal/ponsmm/engine.go:1192-1202 | a batch's result frees the guard and ends an emptied distribution |
| EngineEffects.OnlySellsMoveBalances | internal/ponsmm/engine.go:826-896 | balances change only by sells and by the reads of settlements and exits |
| EngineEffects.RoundBuysFromFlatMakers | internal/ponsmm/engine.go:1021-1060 | a tick, a start and a plan of a round do exactly what their guards allow |
| EngineEffects.OnlyThoseCancel | internal/ponsmm/engine.go:1076-1082 | a round is cancelled exactly by retail buys, exit requests and shutdown |
| EngineEffects.NothingStartsAfterEnd | internal/ponsmm/engine.go:826-896 | after the end no mode changes, no batch starts, and balances move only by the sells already out |
| Distribution.OneBatch | internal/ponsmm/engine.go:1133-1202 | a successful batch empties exactly the first holders, and ends the strategy when they were the last |
| Distribution.DoneAfterCeilBatches | internal/ponsmm/engine.go:1133-1202 | with h holders and batch size k the strategy is done after exactly ceil(h / k) successful batches |
| Distribution.DoneAtOnceWhenFlat | internal/ponsmm/engine.go:1137-1145 | with nobody holding the first tick ends it |
| Distribution.HoldersNeverRise | internal/ponsmm/engine.go:1133-1202 | through failed and partial batches the number of holders never rises |
| RetailPosition.NetIsBestSuffix | internal/ponsmm/monitor.go:445-460 | the net outside position is the largest balance over any run of the latest trades, the empty one counting zero |
| RetailPosition.AverageIffHolding | internal/ponsmm/monitor.go:447-460 | tokens bought since flat cover the position, and there is an average exactly while there is a position |
| RetailPosition.FlatAtIsFlat | internal/ponsmm/monitor.go:453-459 | the mark lies at the last moment outsiders held nothing |
| RetailPosition.AverageCoversBuysSinceFlat | internal/ponsmm/monitor.go:449-459 | the totals behind the average are those of exactly the buys since that moment |
| RetailPosition.AverageLiesBetween | internal/ponsmm/monitor.go:513-523 | the average lies between two prices paid since then |
| RetailPosition.ClampedIsBestSuffix | internal/ponsmm/monitor.go:134-142 | a holding clamped at zero is the best balance over a suffix of its fills |
| TradeMonitor.Monitor.MarkOurTx | internal/ponsmm/monitor.go:119-123 | tags one more transaction as ours |
| TradeMonitor.Monitor.RecordOurBuy | internal/ponsmm/monitor.go:126-131 | books a fill of ours |
| TradeMonitor.Monitor.RecordOurSell | internal/ponsmm/monitor.go:134-142 | books a sell, the holding never below zero |
| TradeMonitor.Monitor.Classify | internal/ponsmm/monitor.go:503-511 | ours if and only if the transaction is tagged or either address is in the pool |
| TradeMonitor.Monitor.OnTrade | internal/ponsmm/monitor.go:435-482 | an outside trade moves the position and is queued while there is room; ours changes neither |
| TradeMonitor.Monitor.ConsumeTrade | internal/ponsmm/monitor.go:486-499 | books a log unless its identity was seen; logs without a hash repeat |
| TradeMonitor.Monitor.RecoveryStart | internal/ponsmm/monitor.go:342-360 | at the launch block, or after the first head seen |
| TradeMonitor.Monitor.Replay | internal/ponsmm/monitor.go:394-433 | consumes the answered range and moves the cursor past the head; any failure leaves the cursor alone |
| TradeMonitor.Monitor.Tick | internal/ponsmm/monitor.go:330-338 | one poll of the loop |
| TradeReplay.Drive | internal/ponsmm/monitor.go:294-340 | any schedule of deliveries, polls and bookings is a run of the monitor |
| TradeReplay.NeverTwice | internal/ponsmm/monitor.go:486-499 | no log with a transaction hash is processed twice, whatever is delivered |
| TradeReplay.PositionsAreBestSuffixes | internal/ponsmm/monitor.go:126-142 | after every run both positions are best suffixes of the outside trades and of our fills |
| TradeReplay.ExactlyOnceBehindCursor | internal/ponsmm/monitor.go:394-433 | once the cursor is past a block, every trade from the start of recovery through it was processed exactly once |
| TradeReplay.RecoveryBeginsAtLaunch | internal/ponsmm/monitor.go:110-114 | a start block set before recovery began is where it begins, whatever happens later |
| TradeReplay.LateStartIsIgnored | internal/ponsmm/monitor.go:342-348 | set once recovery has begun, it changes nothing else in any later step |
| TradeBooks.LogIsBooked | internal/ponsmm/monitor.go:435-499 | a log is booked unless its identity was; it is an outside trade exactly when neither side is a pool wallet and its transaction is not tagged, and queued while there is room |
| TradeBooks.AlwaysSorted | internal/ponsmm/monitor.go:503-511 | over every run outside trades and ours are told apart by address and tag |
| TradeBooks.BooksAreBookings | internal/ponsmm/monitor.go:119-142 | net outlay, fills and tags are exactly those booked |
| TradeBooks.QueueLosesNothing | internal/ponsmm/monitor.go:477-481 | while the queue never fills, what was taken and what is queued are all outside trades, in order |
| TradeBooks.TickMovesCursor | internal/ponsmm/monitor.go:330-433 | an answered pass moves the cursor just past the head, any other leaves it, and recovery begins at the launch block or after the head |
| TradeBooks.PassCatchesUp | internal/ponsmm/monitor.go:394-433 | after an answered pass every trade from the start of recovery through the head is booked exactly once |
| TradeBooks.DeliveredIsBooked | internal/ponsmm/monitor.go:486-499 | every trade delivered live is booked under its identity |
| TradeBooks.LastPriceIsLatestBuy | internal/ponsmm/monitor.go:445-460 | the last price is that of the latest outside buy since flat |
| FundingPlan.SlicesTile | internal/control/funding_engine.go:405-407 | the ten slices run from 0 to n without gap, their sizes within one of each other |
| FundingPlan.SliceStartIsLargest | internal/control/funding_engine.go:405-407 | a slice starts at its relays' tenths of the slots, rounded down |
| FundingPlan.EverySlotHasOneRelay | internal/control/funding_engine.go:405-407 | every slot belongs to exactly one relay |
| FundingPlan.ActiveRelays | internal/control/funding_engine.go:344-353 | min(10, n) relays own a slot |
| FundingPlan.EdgesMoveForward | internal/control/funding_engine.go:276-285 | an allowed transfer goes to the next stage and stays with its slot |
| FundingPlan.EverySlotIsReached | internal/control/funding_engine.go:276-285 | every slot has a path of seven transfers to its own target |
| FundingPlan.EverySourceIsCollected | internal/control/funding_engine.go:276-285 | and every source one to the withdraw wallet |
| FundingPlan.PathsAreUnique | internal/control/funding_engine.go:286-401 | and no other: nobody is paid by two wallets, or, withdrawing, pays two |
| FundingPlan.SweepHop | internal/control/funding_engine.go:329-335 | one sweep per sender to its own counterpart |
| FundingPlan.BatchHops | internal/control/funding_engine.go:364-367 | each of the four hops between batches moves every slot to the same slot of the next batch |
| FundingPlan.SplitRelays | internal/control/funding_engine.go:347-358 | one split per relay with slots, over exactly the slots it owns |
| FundingPlan.GatherIntoRelays | internal/control/funding_engine.go:381-390 | each last-batch wallet pays the relay that owns its slot |
| FundingPlan.RelaysToCold | internal/control/funding_engine.go:391-396 | every withdraw relay pays the cold wallet |
| FundingPlan.BuildFundingHops | internal/control/funding_engine.go:286-401 | seven hops, each moving exactly the transfers the route allows out of its stage, each sender once, and no split to nobody |
| FundingSplit.RandomNearEvenSplit | internal/control/funding_engine.go:627-644 | the parts sum to the total, and each but the last is its weight's share rounded down |
| FundingSplit.LastTakesDust | internal/control/funding_engine.go:634-643 | the last part is its share plus less than max(1, n - 1) units |
| FundingSplit.PartsNonNegative | internal/control/funding_engine.go:634-643 | no part is negative |
| FundingSplit.PartAtMost | internal/control/funding_engine.go:627-644 | no part but the last exceeds total * 1150 / (850 n) |
| FundingSplit.NearMeanIffTwoParts | internal/control/funding_engine.go:625-632 | every split stays within 15% of the mean, up to a unit, if and only if it has at most two parts |
| FundingLedger.GroupConserves | internal/control/funding_engine.go:489-573 | for any group of wallets, holdings, outflow and gas equal what was held and what came in |
| FundingLedger.LaneNeverLeaks | internal/control/funding_engine.go:286-401 | over any run, with stops and restarts, a slot's batch wallets, what moved on to its own target or relay, and its gas equal what entered the lane |
| FundingLedger.NothingFlowsBack | internal/control/funding_engine.go:276-285 | what lies beyond a stage changes only by what crosses into it, outside arrivals and gas; over the whole route nothing is lost but gas |
| FundingLedger.StageList | internal/control/funding_engine.go:286-401 | the wallets from any stage on can be listed, so the statement above covers all of them |
| FundingLedger.RunsJoin | internal/control/funding_engine.go:220-274 | a stop and a restart make one longer run |
| FundingRun.ExecSplit | internal/control/funding_engine.go:489-533 | every transfer is allowed and covers its value and its full gas reserve when sent; what is sent is a beginning of one split of the spendable balance by the drawn weights; without errors all of it is sent and every recipient but the last gains its weight's share rounded down, at most 1150 parts in 850 n |
| FundingRun.SplitReachesAll | internal/control/funding_engine.go:509-527 | on the ledger, the recipients of an error-free split gain those shares |
| FundingRun.ExecSweep | internal/control/funding_engine.go:537-573 | the transfer covers its value and its full gas reserve when sent; without errors the sender keeps at most one reserve |
| FundingRun.ExecFundingHop | internal/control/funding_engine.go:409-623 | every transfer of a hop is allowed, carries its sender's own reserve and covers value plus that reserve when sent; without errors every sender is left at most its reserves |
| FundingRun.RunFundingTask | internal/control/funding_engine.go:220-274 | the hops in order up to the first failure, every transfer affordable in that sense; the senders of every finished hop still hold at most their reserves at the end |
| FundingRestart.PossibleIff | internal/control/funding_engine.go:489-533 | a sender's transfers are all affordable if and only if what they plan exceeds its balance by at most the gas that all but the last leave unused |
| FundingRestart.RestartIsAffordableIff | internal/control/funding_engine.go:489-533 | planned on the whole balance read, they are affordable after pending transfers if and only if those take no more than that gas |
| FundingRestart.RestartNeedsNonePending | internal/control/funding_engine.go:220-274 | whatever gas its transfers cost, a restarted sender can afford all it plans if and only if none of its own transfers is pending |

## Left out

- The exact conditions on exits are for exits with nobody else selling between their sells; with others selling there are only the size that is enough (ExitRun.NeverRejected) and the one that never is (ExitLimits.EnoughSellingMisses).
- Rounding of `big.Float`: fractions and prices are exact ratios, the square root is the exact integer one, and scaling rounds down.
- A missing big integer counts as zero, and amounts never overflow: int64, uint64 and uint256 bounds are not modelled.
- Wallets are positions in the pool's list with a cached token balance; their mutexes, nonces, ETH cache and the clamped `subtractToken` fallback are not.
- Handlers and background actions are atomic steps, the accumulation tick two of them; reads of counters and balances inside one step see one moment. The background refresh at start-up, reserve polling and logging are left out.
- A buy whose settlement never reaches the loop, because the context ended, stays counted.
- A sell planned earlier and cut down to a smaller current balance by the per-wallet lock keeps its planned quote; the exit theorems take the planned amounts.
- Which makers are funded, the snipe-tax filter, the chip target and the wallet cap enter as the set of makers a round may use; non-concurrent rounds use one of them.
- Deposits from inside other calls are modelled for solvency; the per-wallet accounts of the atomic launch and of custody are stated without them. Upgrades, ownership and events are not modelled.
- The window launch's resubmission loop, settling of bundled buys and withdrawal of unused deposits.
- The v1 Uniswap path, launch sequencing, snipers, vaults, the desktop service and its interface.
- Live trades and replayed logs come from one chain without reorganisations, and a filter query returns its whole range.
- The retail channel's drops are modelled but no claim is made that the engine sees every outside trade.
- Funding: key derivation (wallets are taken as distinct), gas estimation and rate limits; senders of one hop are executed one after another, while the ledger theorems hold for any order of transfers. Inside one run every sent transfer is mined or reverted before the next sender reads; transfers still pending after a stop are modelled at the restart.
- Statistics other than the cost the decision compares with.
