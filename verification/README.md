# August vault and XLM strategy: a verified model

This project models two Soroban contracts, the share vault `august-vault` and the strategy `xlm-strategy`, together
with the token both of them use, and proves what they keep over whole runs.

**Specification on values.** `Accounting` (the vault's instance storage and its bookkeeping), `Limiter` (the two-level AUM
limiter), `StrategyModel` (the strategy), `Pricing` and `Token` are functions on immutable values. `System` puts them
into one `World` and defines `Step`: what a transaction does, or which trap it ends in. A trap leaves the world as it was
(`Apply`), and `Run` is any list of transactions. Besides the contracts' entry points, a transaction can be a token
transfer by anybody (a donation, say), a share transfer, the passage of time, or a strategy becoming unreachable.

**The contracts as objects.** `TokenContract`, `StorageContract`, `StrategyContract` and `VaultContract` are classes whose
methods overwrite fields in the order the contracts do: the window is reset before the limit can fail, the strategy
writes its tracker before its shortfall check, balances are differenced around transfers, and the batch makes two passes
over live storage. Each method is proved to end in exactly the specified state, or with exactly the specified trap.
`Host` executes transactions on the objects and undoes every write of a trapped one; its `Transact` and `TransactAll` are
proved equal to `Apply` and `Run`, and `Launch` reaches a state that satisfies `Genesis`, so every theorem about runs is a
theorem about the objects.

**Reading the theorems.** `Nav` is net asset value as an exact integer, `N` is supply plus 10^offset, `D` is net asset
value plus one, so `D/N` is the share price. `Gap` is the aggregate `deployed_assets` minus the sum of the trackers of
whitelisted wallets. `Valid` is the invariant of every reachable state. A *recognised loss* is a transaction other than a
user call that lowers net asset value.

## Where the documentation says more than the code

The model follows the code. `Promises`, `CompoundingProofs`, `ShareProofs` and `ExitProofs` say exactly when each promise
holds, and `Witnesses` gives runs from construction on which it does not.

- contracts/august-vault/src/contract.rs:71-74 lists `remove_wallet_and_reconcile` among the calls that move tracker and
  aggregate by the same delta. The new total is free (998-1003): `ReconcileKeepsSumExactly`, `ReconcileStrandsValue`.
- contracts/august-vault/src/contract.rs:1203-1206 says several calls can step the aggregate down to zero. With a per-call
  decrease limit below 10000 none can, nor with a cumulative one below 10000 while the window has expired, or has a
  positive base that accounts for the aggregate, and no wallet pays back: `NeverWrittenOff`, `WindowNeverWrittenOff`,
  `ExpiredWindowNeverWrittenOff`, `WriteOffExactly`.
- contracts/august-vault/src/contract.rs:1229-1236 says every change of the aggregate emits `DeployedAssetsChanged`. Wallet
  deposits and withdrawals do not (1060-1064, 1151-1174): `AnnouncedExactly`, `InvestmentGoesUnannounced`. The log
  still determines the aggregate, through the events those calls do emit: `ReplayRebuildsBooks`.
- contracts/xlm-strategy/src/lib.rs:867-871 calls `seed_local_balance` one-time. Its guard reopens whenever the tracker is
  zero again (888): `SeedsNeedDrains`, `NextSeedAcceptedExactly`, `SeedReopens`.
- contracts/august-vault/src/contract.rs:1602-1605 names local liquidity as what lowers `max_redeem`. After a loss it stays
  below the balance even with everything local, and a redemption within it can trap when it is worth less than one unit:
  `RedeemCapCoversExactly`, `RedeemCapExact`, `LossShrinksMaxRedeem`, `DustTrapsWithinMaxRedeem`.

## Model

| member | source | states |
|---|---|---|
| InflationProofs.InflationUnprofitable | contracts/august-vault/src/contract.rs:236-242 | Somebody holds every real share. After at most 10^offset accepted positive deposits by others, redeeming all those shares pays at most the net asset value there was before those deposits, whatever had been donated to reach it. |
| InflationProofs.AttackNeverPays | contracts/august-vault/src/contract.rs:236-242 | The same end to end from construction: the redemption pays the preparing party no more than it paid in (donations included) less what it took out. |
| InflationProofs.VictimRunDrift | contracts/august-vault/src/contract.rs:153-179 | Over a run with n accepted deposits the price obeys (T+1)*N0*(N0+1) <= (T0+1)*(N0+n+1)*N, by induction on the run. |
| InflationProofs.AcceptedDepositBuys | contracts/august-vault/src/contract.rs:1669-1673 | An accepted positive deposit buys at least one share; the zero-share rejection is what makes the drift bound work. |
| InflationProofs.ZeroSharesExactly | contracts/august-vault/src/contract.rs:153-179 | A deposit of v > 0 rounds to zero shares if and only if net asset value is at least v*(supply + 10^offset). |
| PriceProofs.StepKeepsPrice | contracts/august-vault/src/contract.rs:1657-1762 | No accepted transaction other than a recognised loss lowers (total assets + 1) / (supply + 10^offset). |
| PriceProofs.PriceNeverFalls | contracts/august-vault/src/contract.rs:1018-1178 | Over every run without recognised losses the share price does not fall. |
| PriceProofs.UserTradesFairly | contracts/august-vault/src/contract.rs:1657-1762 | Each user call exchanges shares and assets at a rate no better for the caller than the price before it. |
| PriceProofs.OthersNeverLose | contracts/august-vault/src/contract.rs:1657-1762 | A user call that spends only a group's shares cannot shrink the shares (virtual ones included) of everybody else. |
| PriceProofs.CoalitionRunEffect | contracts/august-vault/src/contract.rs:1657-1762 | Over a run of coalition steps price and others' shares do not fall and net asset value moves by exactly paid in minus taken out. |
| PriceProofs.NoExtraction | contracts/august-vault/src/contract.rs:1657-1762 | Over every run in which only a coalition's shares are spent, assets taken out plus the exact (real-valued) worth of its remaining shares never exceed assets paid in plus the worth of its first holding. |
| ExitProofs.Solvency | contracts/august-vault/src/contract.rs:1597-1599 | The floor-converted values of all holders together never exceed net asset value. |
| ExitProofs.BackedWithoutLosses | contracts/august-vault/src/contract.rs:189-215 | In every run from construction without recognised losses, supply <= net asset value * 10^offset. |
| ExitProofs.RedeemCapCoversExactly | contracts/august-vault/src/contract.rs:1636-1646 | With all value local, max_redeem equals the holder's balance if and only if balance*(assets+1) <= assets*(supply+10^offset); this is where a past loss shows. |
| ExitProofs.FullExit | contracts/august-vault/src/contract.rs:1736-1762 | With everything local and every share backed, any distinct holders whose shares are worth a unit can redeem their whole balances in any order to any receivers, and nobody else's shares move. |
| ExitProofs.FullExitAfterLossFreeRun | contracts/august-vault/src/contract.rs:1736-1762 | The full exit holds after every loss-free run from construction once nothing is deployed. |
| ShareProofs.TotalAssetsExact | contracts/august-vault/src/contract.rs:86-99 | total_assets answers if and only if every whitelisted strategy is reachable and the sum fits in 128 bits, and then it is exactly local balance plus strategy positions plus the aggregate. |
| ShareProofs.QueryExact | contracts/august-vault/src/contract.rs:120-143 | The strategy query over any prefix of the whitelist is the exact sum of positions, and traps exactly at an unreachable strategy or an overflowing sum. |
| ShareProofs.SharesPrice | contracts/august-vault/src/contract.rs:153-179 | An answered conversion to shares is the directed quotient assets*(supply+10^offset)/(total+1), pinned by both its bounds. |
| ShareProofs.AssetsPrice | contracts/august-vault/src/contract.rs:189-215 | An answered conversion to assets is the directed quotient shares*(total+1)/(supply+10^offset), pinned by both its bounds. |
| ShareProofs.DepositMintAdjunction | contracts/august-vault/src/contract.rs:1585-1591 | preview_deposit(a) >= s if and only if a >= preview_mint(s). |
| ShareProofs.RedeemWithdrawAdjunction | contracts/august-vault/src/contract.rs:1593-1599 | preview_redeem(s) >= a if and only if s >= preview_withdraw(a). |
| ShareProofs.ExitNeverGains | contracts/august-vault/src/contract.rs:1585-1599 | Deposit-then-redeem and redeem-then-deposit previews never return more than went in. |
| ShareProofs.EntryNeverUndercharges | contracts/august-vault/src/contract.rs:1585-1599 | Mint-then-withdraw and withdraw-then-mint previews never cost less than they give. |
| ShareProofs.WithdrawCapExact | contracts/august-vault/src/contract.rs:1699-1734 | For an authorised caller of an unpaused vault, withdraw is accepted if and only if 0 <= assets <= max_withdraw, and then burns no more than the owner's shares and pays no more than the local balance. |
| ShareProofs.RedeemCapExact | contracts/august-vault/src/contract.rs:1736-1762 | redeem is accepted if and only if 0 <= shares <= max_redeem and the shares are zero or worth at least one asset unit; it never pays more than the local balance. |
| TradeProofs.DepositExactly | contracts/august-vault/src/contract.rs:1657-1677 | From every valid state deposit is accepted if and only if payer and operator consent, the vault is unpaused and readable, the payer holds the assets, and they buy nothing for nothing or at least one share within range; it answers the floor price, which is what the receiver gains while exactly the payer pays the vault, and nothing else moves. |
| TradeProofs.MintExactly | contracts/august-vault/src/contract.rs:1679-1697 | mint is accepted if and only if the consenting payer's assets cover the price of the shares; it answers the ceiling price, which is what exactly the payer pays while the receiver gains the shares. |
| TradeProofs.MaxWithdrawLargest | contracts/august-vault/src/contract.rs:1621-1634 | max_withdraw is zero when paused, answers exactly when total assets do (and convert, for a holder), and is the largest amount that the vault holds and the owner's shares are worth. |
| TradeProofs.WithdrawExactly | contracts/august-vault/src/contract.rs:1699-1734 | withdraw is accepted if and only if the owner consents, the vault is unpaused and readable, 0 <= assets <= local balance, and assets*(supply+10^offset) <= shares*(total+1); it answers the ceiling price, which is exactly what the owner loses while the receiver gains the assets. |
| TradeProofs.MaxRedeemLargest | contracts/august-vault/src/contract.rs:1636-1646 | max_redeem is zero when paused, and otherwise the largest number of shares that the owner holds and the local balance is worth, whether or not anything is deployed. |
| TradeProofs.RedeemExactly | contracts/august-vault/src/contract.rs:1736-1762 | redeem is accepted if and only if the owner consents, the vault is unpaused and readable, the owner holds the shares, the local balance covers their worth, and they are none or worth a unit; it answers the floor price, which is exactly what the receiver is paid. |
| TradeProofs.TransferExactly | contracts/august-vault/src/contract.rs:1538-1546 | Shares are transferred exactly on the holder's consent and out of the holder's balance, and no other balance moves. |
| DiagnosisProofs.PausedTrades | contracts/august-vault/src/contract.rs:1657-1662 | A paused vault answers every share operation with VaultPaused, whoever signs it. |
| DiagnosisProofs.UnsignedTrades | contracts/august-vault/src/contract.rs:1736-1739 | An unpaused vault asks every share operation for its operator's signature before anything else. |
| DiagnosisProofs.DepositDiagnoses | contracts/august-vault/src/contract.rs:1664-1674 | Deposits of negative amounts or of less than a share are invalid amounts; payers without consent or without the assets trap in the transfer. |
| DiagnosisProofs.WithdrawDiagnoses | contracts/august-vault/src/contract.rs:1717-1730 | An amount the vault does not hold or the shares are not worth exceeds max_withdraw; a covered amount without the owner's consent lacks an allowance. |
| DiagnosisProofs.RedeemDiagnoses | contracts/august-vault/src/contract.rs:1752-1759 | Shares beyond the cap exceed max_redeem; covered shares worth less than a unit are an invalid amount. |
| ConsentProofs.HoldingsNeedConsent | contracts/august-vault/src/contract.rs:1657-1762 | Over any run in which an account neither signs nor approves anything, its shares do not fall, and its tokens do not if it is no contract of the system. |
| ConsentProofs.TrackersNeedOperator | contracts/august-vault/src/contract.rs:352-360 | Over any run no part of which the operator of the time signs, the aggregate stays as it is and no wallet tracker falls: the admin alone cannot strand value. |
| CapitalProofs.FundingExactly | contracts/august-vault/src/contract.rs:1018-1073 | deposit_to_subaccount is accepted if and only if the operator signs, the vault is unpaused and holds the positive amount, and the listed subaccount can take it (a strategy answers, a wallet's tracker and the aggregate fit); exactly that amount is moved, booked on that subaccount and logged. |
| CapitalProofs.CollectionExactly | contracts/august-vault/src/contract.rs:1091-1178 | withdraw_from_subaccount is accepted if and only if the operator signs, the vault is unpaused, and the listed subaccount can give (a strategy answers and tracks something; a wallet approved, holds the amount, and tracker and aggregate cover it); exactly what comes back is moved, booked and logged. |
| DiagnosisProofs.FundingDiagnoses | contracts/august-vault/src/contract.rs:1018-1050 | Which code deposit_to_subaccount reports to a signed caller for a missing role, a pause, a non-positive amount, an unlisted subaccount, missing liquidity, or the vault itself. |
| DiagnosisProofs.CollectionDiagnoses | contracts/august-vault/src/contract.rs:1091-1174 | Which code withdraw_from_subaccount reports for an empty strategy, a missing approval, an over-pull, and an aggregate below the tracker. |
| LimitProofs.CheckChangeExactly | contracts/august-vault/src/contract.rs:652-703 | A change of a positive aggregate passes if and only if it is within the per-call share of the aggregate and, with what the running window recorded, within the window's share of its base; a window that never started or whose duration has passed is reset to the present and the old aggregate, and records only this change. |
| LimitProofs.MovesExactly | contracts/august-vault/src/contract.rs:1255-1307 | The shared aggregate move is accepted if and only if the total with the local balance fits, a paused vault is only lowered, and the limiter admits the change; it leaves exactly the new total, the window, and one event with both totals. |
| LimitProofs.FreshLimitsExactly | contracts/august-vault/src/storage.rs:46-56 | A fresh vault is unpaused and empty, and its first change of a positive aggregate may raise it by a tenth and lower it by a twentieth and no more, in a window of a day. |
| DiagnosisProofs.LimiterDiagnoses | contracts/august-vault/src/contract.rs:616-703 | A change over the per-call share reports AumChangeExceedsLimit; one within it but over the window's share reports AumCumulativeChangeExceedsLimit. |
| DiagnosisProofs.PausedRaise | contracts/august-vault/src/contract.rs:1266-1272 | A paused vault refuses every raise of the aggregate with VaultPaused. |
| ManagementProofs.ManagementExactly | contracts/august-vault/src/contract.rs:263-474 | Every management call is accepted if and only if it is permitted by the books (roles, listing, limits, deadlines, pause), and leaves exactly its outcome in the books and nothing anywhere else. |
| ManagementProofs.FirstPassExactly | contracts/august-vault/src/contract.rs:1460-1484 | The first pass of a batch passes if and only if every entry is permitted and every running sum fits, and then returns the sum of differences. |
| DiagnosisProofs.AdminDiagnoses | contracts/august-vault/src/contract.rs:716-835 | Which codes the signed admin is told about registration, removal, seeding and proposals. |
| DiagnosisProofs.OperatorDiagnoses | contracts/august-vault/src/contract.rs:1328-1446 | Which codes the signed operator is told about negative totals, unlisted or strategy subaccounts, empty batches and duplicates. |
| DiagnosisProofs.StrangersDiagnosed | contracts/august-vault/src/storage.rs:75-134 | A signature without the role is unauthorised. |
| EventProofs.EventsTruthful | contracts/august-vault/src/events.rs:142-527 | Every accepted transaction only appends to the log, and every field of every appended event agrees with the state before and after it. |
| EventProofs.BatchTruthful | contracts/august-vault/src/contract.rs:1500-1517 | A batch logs one truthful event per entry and closes with its size and the exact change of the aggregate. |
| GapProofs.StepGap | contracts/august-vault/src/contract.rs:60-79 | Each accepted transaction moves aggregate minus tracker sum by the contribution of its escape hatch, and by zero if it is anything else. |
| GapProofs.GapLedger | contracts/august-vault/src/contract.rs:60-79 | Over any run that difference moves by exactly the contributions of update_deployed_assets, seed_wallet_net_deployed and remove_wallet_and_reconcile. |
| GapProofs.TrackersMatchAggregate | contracts/august-vault/src/contract.rs:540-551 | From construction, with contributions adding up to zero, the tracker sum equals deployed_assets. |
| GapProofs.StepNeverUnderflows | contracts/august-vault/src/contract.rs:1151-1174 | While the aggregate covers the trackers, no transaction of any kind fails with DeployedAssetsUnderflow. |
| GapProofs.UnderflowUnreachable | contracts/august-vault/src/contract.rs:1151-1174 | After every run from construction with non-negative contributions, no next transaction can fail with DeployedAssetsUnderflow. |
| AccountingProofs.ManageKeeps | contracts/august-vault/src/contract.rs:809-835 | Every management entry point keeps the storage invariant and moves the gap by its stated contribution. |
| AccountingProofs.NoteDepositKeeps | contracts/august-vault/src/contract.rs:1054-1070 | The bookkeeping of a deposit to a subaccount moves tracker and aggregate together and keeps the gap. |
| AccountingProofs.NoteWithdrawalKeeps | contracts/august-vault/src/contract.rs:1151-1175 | The bookkeeping of a withdrawal moves tracker and aggregate together and keeps the gap. |
| AccountingProofs.BatchTrackerSum | contracts/august-vault/src/contract.rs:1499-1515 | Overwriting the trackers of distinct wallets moves the tracker sum by the batch's net delta and touches no other tracker. |
| AccountingProofs.BatchNeverUnderflows | contracts/august-vault/src/contract.rs:1486-1492 | With distinct targets and an aggregate that covers the trackers, a batch cannot underflow. |
| WindowProofs.WindowConservation | contracts/august-vault/src/contract.rs:652-703 | In every state of every run, recorded changes stay within the limits of the frozen base, and base + increases - decreases + wallet transfers + unrecorded moves since the reset is exactly the aggregate. |
| WindowProofs.WindowConservationFromGenesis | contracts/august-vault/src/contract.rs:1255-1307 | The same from construction, starting from empty tallies. |
| WindowProofs.LimitsChangeOnlyWithReset | contracts/august-vault/src/contract.rs:436-446 | Duration and cumulative limits change only together with a reset to the current time and aggregate. |
| WindowProofs.LiveWindow | contracts/august-vault/src/contract.rs:652-703 | While a started window lives there is no reset, and unless its base is zero every rate-checked increase and decrease is recorded in it. |
| WindowProofs.AtMostOneReset | contracts/august-vault/src/contract.rs:652-703 | Any interval shorter than the window, whatever window it starts in, has at most one reset, and what passes the rate limits from there on is within the limits of the new base. |
| WindowProofs.SlidingBound | contracts/august-vault/src/contract.rs:652-703 | For such an interval that starts before the first window or at a positive base, recorded plus rate-checked increases, and likewise decreases, stay within the limit of the two bases together. |
| WindowProofs.SlidingBoundFromGenesis | contracts/august-vault/src/contract.rs:652-703 | For every such interval of every run from construction: at most one reset and the bound from it on in every case, the two-base bound for increases and decreases when the first base is not a started zero. |
| Witnesses.ZeroBaseBoundsNothing | contracts/august-vault/src/contract.rs:443-446 | A run that resets the window at a zero aggregate and then raises a wallet by 10% past the two-base bound: that bound does need its positive base. |
| WindowProofs.WindowNeverWrittenOff | contracts/august-vault/src/contract.rs:652-703 | While the cumulative decrease limit is below 10000 and no wallet pays back, no run takes an aggregate explained by a window with a positive base to zero. |
| WindowProofs.ExpiredWindowNeverWrittenOff | contracts/august-vault/src/contract.rs:652-703 | The same for every positive aggregate whose window never started or has expired. |
| BatchProofs.BatchRefinesSingles | contracts/august-vault/src/contract.rs:1411-1518 | An accepted batch ends, window and log aside, in the books of the single-wallet moves; and if the aggregate covers the trackers and fits throughout, the series of single updates with limits off is accepted and ends there too. |
| BatchProofs.UpdateIsLimitedMove | contracts/august-vault/src/contract.rs:1328-1375 | update_wallet_deployed is accepted if and only if the operator signed, the update with pause and limits off is accepted, and the aggregate may move that far; it then ends in the single move, window and log aside. |
| BatchProofs.OneByOneAccepted | contracts/august-vault/src/contract.rs:1440-1518 | When the aggregate covers the trackers, the entries of an accepted first pass are accepted one by one with limits off exactly as long as the aggregate fits; no intermediate underflow exists. |
| BatchProofs.SinglesAgree | contracts/august-vault/src/contract.rs:1499-1515 | With distinct targets, moves that read live trackers end where moves that read the stored trackers end. |
| BatchProofs.BatchOrderIrrelevant | contracts/august-vault/src/contract.rs:1440-1518 | Every permutation of an accepted batch whose running sum fits is accepted and ends in the same trackers, aggregate and window. |
| BatchProofs.PausedBatchRaisesNothing | contracts/august-vault/src/contract.rs:1460-1484 | A batch accepted while paused raises no tracker and does not raise the aggregate. |
| ReplayProofs.ReplayRebuildsBooks | contracts/august-vault/src/events.rs:142-253 | Folding the emitted log from the empty record rebuilds whitelist, types, trackers and deployed_assets exactly, in every reachable state. |
| ReplayProofs.StepFaithful | contracts/august-vault/src/events.rs:366-525 | Each accepted transaction emits exactly the events an indexer needs to follow it. |
| ReplayProofs.UpdateEventsReplay | contracts/august-vault/src/contract.rs:1499-1515 | The per-wallet events of a batch replay to its overwritten trackers. |
| CompoundingProofs.ReconciliationsCompound | contracts/august-vault/src/contract.rs:1279-1303 | After k accepted reconciliations from positive aggregates with fixed limits and no wallet transfers, D0*(10000-dec)^k <= Dk*10000^k <= D0*(10000+inc)^k. |
| CompoundingProofs.NeverWrittenOff | contracts/august-vault/src/contract.rs:1203-1206 | With a per-call decrease limit below 10000 the aggregate of such a run never reaches zero. |
| CompoundingProofs.WriteOffExactly | contracts/august-vault/src/contract.rs:652-703 | On any window, writing a positive aggregate off to zero is accepted if and only if the per-call limit is 10000 and the current window has base zero or room for the whole aggregate, overflows included. |
| CompoundingProofs.WriteOffNeedsFullLimits | contracts/august-vault/src/contract.rs:1203-1206 | On an expired window that means: if and only if both decrease limits are 10000. |
| CompoundingProofs.SettleLimiterMatchesVault | contracts/xlm-strategy/src/lib.rs:985-1037 | Once latched and absent overflow, a settle is accepted if and only if the vault's cross-multiplied limiter at 1000/500 accepts the same move. |
| CompoundingProofs.SettlesCompoundInRuns | contracts/xlm-strategy/src/lib.rs:583-617 | Over any run of the system in which its controller neither deploys nor recalls, k accepted settles of a positive deployed total stay within its 0.95^k and 1.1^k multiples and above zero. |
| NeutralityProofs.CapitalMovesNeutral | contracts/august-vault/src/contract.rs:1018-1178 | Accepted deposits to and withdrawals from subaccounts of either kind, deploy_to_protocol and recover_donation leave total_assets unchanged. |
| NeutralityProofs.RecallRecognisesYield | contracts/xlm-strategy/src/lib.rs:489-545 | An accepted recall of a listed strategy raises total_assets by exactly max(0, received - deployed_total), and the total stays readable if and only if it stays in range. |
| StrategyProofs.ReportIgnoresDonations | contracts/xlm-strategy/src/lib.rs:677-736 | In every reachable state the tracker is covered by tokens, so get_balance is local_balance + deployed_total however many tokens were donated. |
| StrategyProofs.OutsideFlowsInvisible | contracts/xlm-strategy/src/lib.rs:818-865 | No user call, token transfer or recover_donation changes what any strategy reports. |
| StrategyProofs.LocalBalanceLedger | contracts/xlm-strategy/src/lib.rs:346-545 | Over any run local_balance is its start plus seeds, vault deposits and recalls, minus vault withdrawals and deployments. |
| StrategyProofs.StepStrategy | contracts/xlm-strategy/src/lib.rs:346-545 | Only its own controller changes a strategy's deployed total and latch; the tracker moves only with vault transfers and controller calls, by the stated amount. |
| StrategyProofs.LatchOneWay | contracts/xlm-strategy/src/lib.rs:450-464 | The latch is one-way, nothing is deployed before it, and at most one nonzero seed or settle of any run escapes the rate limit, none once it is set. |
| StrategyProofs.ZeroStaysUntilDeploy | contracts/xlm-strategy/src/lib.rs:985-1037 | Once latched at zero, deployed_total stays zero until a deploy_to_protocol. |
| ControllerProofs.ControllerExactly | contracts/xlm-strategy/src/lib.rs:424-933 | A controller call is accepted if and only if the strategy answers, its own controller signs, and the stated bounds on trackers, totals and balances hold; it leaves exactly that strategy and those tokens changed. |
| ControllerProofs.SettleExactly | contracts/xlm-strategy/src/lib.rs:583-617 | A settle is accepted if and only if it changes nothing, or the latch is open, or it stays within a tenth up and a twentieth down; a positive one closes the latch. |
| ControllerProofs.DeploymentSeededOnce | contracts/xlm-strategy/src/lib.rs:915-933 | No run accepts seed_deployed_total twice, not even for zero, and none once the latch is set. |
| ControllerProofs.ConstructedExactly | contracts/xlm-strategy/src/lib.rs:317-332 | A strategy is constructed if and only if strategy, vault and controller are three different accounts, and starts empty and unlatched. |
| ControllerProofs.ControllersStayOutside | contracts/xlm-strategy/src/lib.rs:622-641 | In every run no strategy is ever controlled by itself or by its vault, if none was at the start; none is at construction. |
| ControllerProofs.ReportExactly | contracts/xlm-strategy/src/lib.rs:677-736 | For every tracker and real balance the report counts as idle the lesser of the two. |
| CapitalProofs.StrategyTakesExactly | contracts/xlm-strategy/src/lib.rs:346-375 | A strategy accepts a deposit if and only if its vault announces it and the tokens cover the new tracker, down to the last one. |
| CapitalProofs.StrategyGivesExactly | contracts/xlm-strategy/src/lib.rs:383-405 | A covered strategy pays exactly its vault, and the lesser of request and tracker, whatever else it holds. |
| DiagnosisProofs.ControllerDiagnoses | contracts/xlm-strategy/src/lib.rs:424-933 | Which codes a strategy reports to its own signed controller for bad targets, missing idle funds, missing signatures, missing donations, reseeding, a closed latch, and settles over the limit. |
| DiagnosisProofs.StrangersKeptOut | contracts/xlm-strategy/src/lib.rs:948-960 | Strangers do not control a strategy, nobody but the vault funds or drains it, and an uncovered deposit is a shortfall. |
| PauseProofs.PausedStretch | contracts/august-vault/src/contract.rs:1270-1272 | Over any run that starts paused and never unpauses, supply is constant, the aggregate does not grow, no address joins the whitelist, and a tracker rises only by what is seeded into it. |
| Promises.ReconcileKeepsSumExactly | contracts/august-vault/src/contract.rs:966-1004 | remove_wallet_and_reconcile keeps the tracker-sum invariant if and only if the new total is the old one less the wallet's tracker. |
| Witnesses.ReconcileStrandsValue | contracts/august-vault/src/contract.rs:998-1003 | A run from construction with aggregate and tracker both 100, after which an accepted removal leaves 100 in the aggregate and no tracker. |
| Promises.SeedsNeedDrains | contracts/xlm-strategy/src/lib.rs:880-902 | Over any run, accepted positive seeds are at most the drainings of the tracker to zero, plus one from an empty tracker; so a run that never drains it accepts at most one. |
| Promises.NextSeedAcceptedExactly | contracts/xlm-strategy/src/lib.rs:880-902 | After any run from an empty tracker, a positive seed is accepted if and only if it is properly signed, the strategy answers, the tokens are there, and everything the tracker took in has left it. |
| Witnesses.SeedReopens | contracts/xlm-strategy/src/lib.rs:888-890 | A run from construction that seeds 5, deploys 5, and then has a second seed of 3 accepted. |
| Promises.AnnouncedExactly | contracts/august-vault/src/contract.rs:1060-1064 | A transaction that changes the aggregate emits DeployedAssetsChanged if and only if it is a reconciliation; wallet transfers do not. |
| Witnesses.InvestmentGoesUnannounced | contracts/august-vault/src/contract.rs:1060-1064 | A run from construction whose next accepted investment takes the aggregate from 0 to 100 with no announcing event in the log. |
| Witnesses.LossShrinksMaxRedeem | contracts/august-vault/src/contract.rs:1636-1646 | A run from construction that recognises a 5% loss and brings everything back, after which the only holder of 100000 shares has max_redeem 99947. |
| Witnesses.DustTrapsWithinMaxRedeem | contracts/august-vault/src/contract.rs:1756-1758 | After that run a redemption of one share, within max_redeem, traps. |
| AuthorityProofs.ManagementNeedsRole | contracts/august-vault/src/contract.rs:263-308 | An accepted management call was signed by the admin, the operator, or the pending admin in time; without the admin's signature operator, limits, window configuration, pause and whitelist stay; the admin is replaced only by an acceptance, and a proposal comes only from the admin. |
| AuthorityProofs.BooksNeedARole | contracts/august-vault/src/storage.rs:75-134 | Over any run that neither the admin, nor the operator, nor a pending admin before the deadline signs, the vault's books (everything but shares and supply) stay exactly as they are, whatever everybody else does. |
| AuthorityProofs.AdminsAreProposedAndAccept | contracts/august-vault/src/contract.rs:263-308 | Whoever ends any run as admin began it as admin, or was proposed by an admin of the time (or pending at the start) and signed an acceptance in time. |
| AuthorityProofs.HeirAcceptsExactly | contracts/august-vault/src/contract.rs:280-296 | After an accepted proposal and any run without another handover call, the acceptance is accepted if and only if the proposed address signs it no later than the deadline, and then it is the admin. |
| Witnesses.HeirTakesOver | contracts/august-vault/src/contract.rs:280-296 | A run from construction in which an acceptance signed by neither admin nor operator replaces the admin, who can then pause. |
| RecoveryProofs.AdminRestoresTotalAssets | contracts/august-vault/src/contract.rs:114-119 | From every valid state whose admin can sign, removing the unreachable strategies one after another is accepted whole; then every listed strategy answers and total_assets reports the old value less what they held, if and only if that is in range. |
| RecoveryProofs.UnreachableIsDiagnosed | contracts/august-vault/src/contract.rs:101-112 | While a listed strategy cannot be reached and nothing overflows, total_assets traps, and always with StrategyUnreachable. |
| NavAccounting.StepEffect | contracts/august-vault/src/contract.rs:1018-1178 | Every accepted transaction keeps the system invariant and moves net asset value and share supply by exactly the amounts its arguments give. |
| NavAccounting.ManageEffect | contracts/august-vault/src/contract.rs:716-1004 | A management call moves net asset value by its change of the aggregate plus the positions it registers or removes. |
| NavAccounting.ToSubaccountEffect | contracts/august-vault/src/contract.rs:1018-1073 | A deposit to a subaccount of either kind keeps net asset value, gap and invariant. |
| NavAccounting.FromSubaccountEffect | contracts/august-vault/src/contract.rs:1091-1178 | A withdrawal from a subaccount of either kind keeps net asset value, gap and invariant. |
| NavAccounting.ControllerEffect | contracts/xlm-strategy/src/lib.rs:424-617 | Each controller call keeps the strategy covered by tokens and moves its position by exactly the stated amount. |
| NavAccounting.AggregateMoves | contracts/august-vault/src/contract.rs:1255-1307 | All four reconciling entry points move the aggregate through the one shared helper, by the same signed amount. |
| NavAccounting.RunValid | contracts/august-vault/src/contract.rs:60-79 | The system invariant holds along every run. |
| Effects.GenesisValid | contracts/august-vault/src/contract.rs:222-252 | A freshly constructed system satisfies the invariant with a zero gap. |
| VaultLemmas.TrackedTotalIsSum | contracts/august-vault/src/contract.rs:540-551 | The monitoring view is the tracker sum whenever it answers. |
| VaultLemmas.TrackedTotalExactly | contracts/august-vault/src/contract.rs:540-551 | On valid books the view answers if and only if the sum of the trackers so far fits. |
| Host.Network.Transact | contracts/august-vault/src/contract.rs:108-112 | A transaction on the contract objects ends in exactly the state of the specification: full effect when accepted, no effect when it traps. |
| Host.Network.TransactAll | contracts/august-vault/src/contract.rs:1018-1178 | Any list of transactions on the contract objects ends in the state of the specification's run, so the run theorems hold of the objects. |
| Host.Launch | contracts/august-vault/src/contract.rs:222-252 | Constructing token, strategies and vault reaches a state from which every theorem about runs starts. |
| Host.Network.Execute | contracts/august-vault/src/contract.rs:1018-1178 | Every kind of transaction, executed on the objects, ends as the specification or with the same trap. |
| VaultContract.AugustVault.constructor | contracts/august-vault/src/contract.rs:222-252 | A new vault has no shares and the initial storage. |
| VaultContract.AugustVault.Deposit | contracts/august-vault/src/contract.rs:1657-1677 | Mutates shares and token to exactly the specified world and returns the specified shares, or fails with the specified trap. |
| VaultContract.AugustVault.Mint | contracts/august-vault/src/contract.rs:1679-1697 | As Deposit, for a requested number of shares. |
| VaultContract.AugustVault.Withdraw | contracts/august-vault/src/contract.rs:1699-1734 | As specified, total assets read once and threaded through. |
| VaultContract.AugustVault.Redeem | contracts/august-vault/src/contract.rs:1736-1762 | As specified, total assets read once and threaded through. |
| VaultContract.AugustVault.TransferShares | contracts/august-vault/src/contract.rs:1538-1546 | Moves shares between holders under the holder's or an approved spender's signature, supply unchanged. |
| VaultContract.AugustVault.MaxWithdraw | contracts/august-vault/src/contract.rs:1621-1634 | The lesser of the floor value of the owner's shares and the local balance; zero when paused; total_assets' trap otherwise. |
| VaultContract.AugustVault.MaxRedeem | contracts/august-vault/src/contract.rs:1636-1646 | The lesser of the owner's shares and the shares the local balance is worth; zero when paused. |
| VaultContract.AugustVault.ConvertToShares | contracts/august-vault/src/contract.rs:147-149 | Reads total assets and converts with the given rounding, or traps as specified. |
| VaultContract.AugustVault.ConvertToAssets | contracts/august-vault/src/contract.rs:183-185 | Reads total assets and converts with the given rounding, or traps as specified. |
| VaultContract.AugustVault.QueryStrategyBalances | contracts/august-vault/src/contract.rs:120-143 | The loop returns the specified sum over the whole whitelist, or the trap of the first strategy that fails. |
| VaultContract.AugustVault.TotalAssetsFrom | contracts/august-vault/src/contract.rs:86-99 | Adds local balance, strategies and aggregate with overflow checks, as specified. |
| VaultContract.AugustVault.TryGetBalance | contracts/august-vault/src/contract.rs:126-137 | Maps an unreachable or trapping strategy to StrategyUnreachable and a negative report to NegativeStrategyBalance. |
| VaultContract.AugustVault.GetWalletDeployedAssets | contracts/august-vault/src/contract.rs:540-551 | The loop returns the checked sum of the trackers of whitelisted wallets. |
| VaultContract.AugustVault.FindSubaccountIndex | contracts/august-vault/src/contract.rs:573-578 | The loop returns the first index of the address, or none exactly when it is not listed. |
| VaultContract.AugustVault.SubaccountsWithoutIndex | contracts/august-vault/src/contract.rs:595-607 | The loop returns the list with exactly the given position dropped, order kept. |
| VaultContract.AugustVault.CheckAumCumulativeLimit | contracts/august-vault/src/contract.rs:652-703 | Resets an expired window, skips a zero base, otherwise accumulates and checks; the stored window is the specified one. |
| VaultContract.AugustVault.CheckAumLimits | contracts/august-vault/src/contract.rs:1279-1303 | Both limiter levels on a change of the aggregate, skipped at a zero aggregate and for no change. |
| VaultContract.AugustVault.ApplyDeployedAssetsChange | contracts/august-vault/src/contract.rs:1255-1307 | Overflow check, pause check, both limits, the write and the event, as specified; the storage is otherwise unchanged. |
| VaultContract.AugustVault.UpdateDeployedAssets | contracts/august-vault/src/contract.rs:1207-1222 | Overwrites the aggregate under operator auth and both limits; trackers unchanged. |
| VaultContract.AugustVault.UpdateWalletDeployed | contracts/august-vault/src/contract.rs:1328-1375 | Moves one tracker and the aggregate by the same delta under both limits. |
| VaultContract.AugustVault.CheckNoDuplicates | contracts/august-vault/src/contract.rs:1438-1446 | The nested loop accepts exactly the batches with pairwise distinct addresses. |
| VaultContract.AugustVault.AccumulateNetDelta | contracts/august-vault/src/contract.rs:1460-1484 | The first pass validates every entry against the stored trackers and returns their net delta, or the first trap. |
| VaultContract.AugustVault.CommitTrackers | contracts/august-vault/src/contract.rs:1499-1515 | The second pass, reading live trackers, leaves exactly the overwritten trackers and the per-wallet events of the stored ones. |
| VaultContract.AugustVault.UpdateWalletDeployedBatch | contracts/august-vault/src/contract.rs:1411-1518 | The whole batch ends in the specified storage or the specified trap. |
| VaultContract.AugustVault.SeedWalletNetDeployed | contracts/august-vault/src/contract.rs:361-384 | Raises one tracker, never lowers it, and leaves the aggregate alone. |
| VaultContract.AugustVault.ProposeAdmin | contracts/august-vault/src/contract.rs:263-275 | Stores the proposed admin and a deadline in the future under admin auth, replacing any earlier proposal. |
| VaultContract.AugustVault.AcceptAdmin | contracts/august-vault/src/contract.rs:280-296 | Makes the pending admin the admin under its own signature until the deadline, and clears the proposal. |
| VaultContract.AugustVault.CancelAdminProposal | contracts/august-vault/src/contract.rs:300-308 | Clears a pending proposal under admin auth. |
| VaultContract.AugustVault.SetOperator | contracts/august-vault/src/contract.rs:316-322 | Replaces the operator under admin auth. |
| VaultContract.AugustVault.SetAumLimits | contracts/august-vault/src/contract.rs:396-410 | Stores the per-call limits within 1..10000. |
| VaultContract.AugustVault.SetAumWindowLimits | contracts/august-vault/src/contract.rs:424-460 | Stores the window configuration and resets the window to the present. |
| VaultContract.AugustVault.SetPaused | contracts/august-vault/src/contract.rs:462-474 | Pauses or unpauses under admin auth. |
| VaultContract.AugustVault.ProbeStrategy | contracts/august-vault/src/contract.rs:742-763 | The zero-amount smoke test changes nothing and ends as specified. |
| VaultContract.AugustVault.AddSubaccount | contracts/august-vault/src/contract.rs:716-770 | Appends the address with its type after guard, capacity and smoke test. |
| VaultContract.AugustVault.RemoveSubaccount | contracts/august-vault/src/contract.rs:809-835 | Removes address, type and tracker entry when the tracker is zero; the aggregate stays. |
| VaultContract.AugustVault.RemoveListed | contracts/august-vault/src/contract.rs:842-930 | The shared removal: whitelist, type and tracker entries go, the event records the aggregate. |
| VaultContract.AugustVault.RemoveWalletAndReconcile | contracts/august-vault/src/contract.rs:966-1004 | Aggregate move and removal together under both authorities, one signature when the keys coincide. |
| VaultContract.AugustVault.DepositToSubaccount | contracts/august-vault/src/contract.rs:1018-1073 | Sends tokens, measures what left, notifies a strategy or books a wallet, as specified. |
| VaultContract.AugustVault.WithdrawFromSubaccount | contracts/august-vault/src/contract.rs:1091-1178 | Pulls from a wallet or asks a strategy, measures what arrived, books it, as specified. |
| VaultContract.AugustVault.NoteDepositTo | contracts/august-vault/src/contract.rs:1060-1072 | Aggregate and tracker of a wallet rise by what was sent; a strategy changes neither. |
| VaultContract.AugustVault.NoteWithdrawalFrom | contracts/august-vault/src/contract.rs:1151-1177 | Aggregate and tracker of a wallet fall by what arrived, with the over-pull and underflow traps. |
| VaultContract.AugustVault.CheckOperator | contracts/august-vault/src/storage.rs:128-134 | Accepts exactly the signed, configured operator. |
| VaultContract.AugustVault.CheckWhitelisted | contracts/august-vault/src/contract.rs:582-587 | Accepts exactly the listed addresses. |
| StorageContract.Storage.SetDeployedAssets | contracts/august-vault/src/storage.rs:145-152 | Overwrites the aggregate, rejecting negatives. |
| StorageContract.Storage.SetSubaccounts | contracts/august-vault/src/storage.rs:163-170 | Overwrites the whitelist, rejecting more than ten entries. |
| StorageContract.Storage.SetSubaccountType | contracts/august-vault/src/storage.rs:190-200 | Reads, sets and writes back one entry of the type map. |
| StorageContract.Storage.RemoveSubaccountType | contracts/august-vault/src/storage.rs:202-213 | Drops one entry of the type map. |
| StorageContract.Storage.SetWalletNetDeployed | contracts/august-vault/src/storage.rs:237-257 | Reads, sets and writes back one tracker, rejecting negatives. |
| StorageContract.Storage.RemoveWalletNetDeployed | contracts/august-vault/src/storage.rs:259-270 | Drops one tracker. |
| StorageContract.Storage.StoreAumLimits | contracts/august-vault/src/storage.rs:307-319 | Stores both per-call limits or rejects the pair. |
| StorageContract.Storage.StoreAumWindowLimits | contracts/august-vault/src/storage.rs:372-395 | Stores duration and cumulative limits or rejects them; counters, start and base stay. |
| StorageContract.Storage.ResetAumWindow | contracts/august-vault/src/storage.rs:397-410 | Restarts the window at the given time and base with empty counters. |
| StrategyContract.XlmStrategy.constructor | contracts/xlm-strategy/src/lib.rs:317-332 | A new strategy has empty trackers and an open latch. |
| StrategyContract.XlmStrategy.Deposit | contracts/xlm-strategy/src/lib.rs:346-375 | Credits the tracker and traps when the tokens do not cover it. |
| StrategyContract.XlmStrategy.Withdraw | contracts/xlm-strategy/src/lib.rs:383-405 | Sends at most the tracked balance to the vault and debits exactly that. |
| StrategyContract.XlmStrategy.DeployToProtocol | contracts/xlm-strategy/src/lib.rs:424-472 | Moves tracked tokens out, books them as deployed and sets the latch. |
| StrategyContract.XlmStrategy.RecallFromProtocol | contracts/xlm-strategy/src/lib.rs:489-545 | Books what arrived as idle and lowers the deployed total, saturating at zero. |
| StrategyContract.XlmStrategy.CheckSettleRateLimit | contracts/xlm-strategy/src/lib.rs:985-1037 | The read-only limiter with floor division, as specified. |
| StrategyContract.XlmStrategy.SettleProtocolReturns | contracts/xlm-strategy/src/lib.rs:583-617 | Overwrites the deployed total within the limiter and trips the latch on a positive value. |
| StrategyContract.XlmStrategy.SetController | contracts/xlm-strategy/src/lib.rs:622-641 | Rotates the controller, never to the vault or the strategy itself. |
| StrategyContract.XlmStrategy.RecoverDonation | contracts/xlm-strategy/src/lib.rs:818-865 | Sends out at most the untracked excess; both trackers stay. |
| StrategyContract.XlmStrategy.SeedLocalBalance | contracts/xlm-strategy/src/lib.rs:880-902 | Seeds an empty tracker within the real balance. |
| StrategyContract.XlmStrategy.SeedDeployedTotal | contracts/xlm-strategy/src/lib.rs:915-933 | Seeds the deployed total while the latch is open and closes it. |
| StrategyContract.XlmStrategy.GetBalance | contracts/xlm-strategy/src/lib.rs:677-736 | Tracker when tokens cover it, real balance otherwise, plus the deployed total. |

## Left out

- Host plumbing without arithmetic: TTL bumps, upgrades, metadata, constructor probes of the asset, and the read-only
  getters of single keys. The decimals offset is between 3 and 10 by the constructor's guards.
- Cryptographic authorisation: a transaction carries the set of accounts that signed it. Contracts never sign, and the
  direct calls from vault to strategy and token are authenticated by construction.
- Allowances are a guard only: the set of owners whose approval covers the call. Amounts and expiry are not tracked, and
  after the guard a call can trap for no other allowance reason.
- The OpenZeppelin library (`deposit_internal`, `withdraw_internal`, `mul_div_i128`, share transfers) is not part of the
  repository; it is given the small explicit specifications in `System` and `Pricing`.
- The SEP-41 token moves amounts exactly and its total supply fits in 128 bits. Fee-on-transfer, rebasing and re-entrant
  tokens are not modelled, so the shortfall branches of the strategy are modelled but not reached.
- Every strategy in the system is an instance of the XLM strategy, deployed for this vault before the run starts, on the
  same asset; `AssetMismatch` and foreign implementations are not modelled. An unreachable strategy stands for one that
  traps, has expired or returns something undecodable.
- Foreign calls that only inform: the balance probes on removal and their advisory events. Events that carry no
  accounting (roles, limits, pause, deposits and withdrawals of users, the strategy's own events) are not in the log.
- Storage written before the type map existed: runs start from a fresh constructor, so every listed address has a type.
- Integer widths other than 128-bit amounts: timestamps and basis points are integers within the guards' ranges.
- Storage: the keys of one limiter level are grouped in a record, and the setters write the record.
- Trap codes: `DiagnosisProofs` covers calls with one fault; a call with several reports the first in its method's order,
  which no separate theorem states, and codes for overflow are not covered there.
- CompoundingProofs.ReconciliationsCompound: reconciliations from a zero aggregate are excluded, because there no limit
  applies and no bound by the start value exists.
- Scripts, continuous integration, the generated interfaces and the documentation folder.
