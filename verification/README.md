# Reserve accounting, verified

A Dafny model of the lending reserve's reference accounting: the records that
`test-suites/helpers/utils/calculations.ts` expects after every action, on the
fixed-point arithmetic of `test-suites/helpers/utils/wadraymath.ts`.

A reserve holds liquidity and lends it at a variable rate, tracked as a scaled
debt times a growing index, or at a stable rate, tracked as a principal
compounding at an average rate. Suppliers earn through a second index. Each
action first brings the indexes, the debts and the treasury's share up to date,
then moves liquidity and debt, then derives utilization and the three rates.
All amounts are unbounded signed integers, divisions truncate toward zero, and
`rayMul`, `rayDiv` and `percentMul` round half up.

## Layout

| file | contents |
|---|---|
| WadRayMath.dfy | the rounding arithmetic and its exact laws |
| DecimalOrder.dfy | what `>` means on two big numbers in JavaScript |
| Interest.dfy, AgedDebt.dfy | linear and compounded interest, against exact compounding over the reals, and against each other on debt that has compounded already |
| RateStrategy.dfy | utilization, the kinked curve, the overall and liquidity rates, as functions and as the source computes them |
| RateCurve.dfy | the shape of the curve: rounding at the kink, range, order |
| RateValues.dfy | what each rate is worth, on the fields of a strategy, to within its roundings |
| RateFunding.dfy | what suppliers are promised against what borrowers owe |
| ReserveModel.dfy | the records as values, balances and indexes, what makes a reserve sound |
| ReserveActions.dfy, DebtActions.dfy, RepayActions.dfy | the reserve after each action, as a function |
| ReserveRecords.dfy, UserModel.dfy, UserRecords.dfy | the imperative calculations on record objects, proved against those functions |
| RecordFields.dfy, AverageFields.dfy | the liquidity, debts, utilizations and average rate on the record each action leaves |
| UserFields.dfy | the balances, rates and wallet on the user's record each action leaves |
| Balances.dfy, SwapRoundTrip.dfy | full exits, deposits, swapping there and back |
| StableDrift.dfy, StableTotals.dfy | the average stable rate against the true mean, the total at it against the borrowers' balances |
| RebalanceMean.dfy | rebalancing among several stable borrowers against the debt-weighted mean |
| Bridge.dfy, BridgeShares.dfy | the bridge fee, and how it is shared |
| UpdateBetween.dfy | an update in between against one update over the whole interval |
| Runs.dfy, Treasury.dfy, Ledger.dfy, Conservation.dfy | what holds over every run |
| SoleBorrower.dfy, SoleVariableBorrower.dfy | a single borrower's record against the reserve's, over every history |
| CurrentRates.dfy, Earnings.dfy, AgedDebtRun.dfy | the interest suppliers realise against the debt that accrues |
| Solvency.dfy | all tokens against all liquidity and debt, over every run |

## What the proofs found

- The cap on the supply utilization compares decimal strings. Numerically it
  never binds, so it can only do harm: it replaces a share by a larger one
  exactly when the share beats the leading digits of the borrow utilization.
  Suppliers are then promised, beyond their part of what borrowers pay, what the
  overall rate would collect on the unbacked tokens. With everything lent out and
  as much again unbacked that is twice what borrowers pay.
- The rate curve is monotone exactly when the first unit above the kink earns back
  what rounding added at it. With the kink above a third of a ray that is at most
  one unit, and every second slope of at least RAY / (2 · RayDiv(1, RAY - kink))
  earns it back: about 10% for a kink at 80%. Smaller second slopes, and kinks
  below a third, can lose up to the overshoot.
- Leaving the stable mode has none of the clamps a stable repayment has. Swapping
  to stable and straight back can leave a negative average rate, because the way
  in rounds down and weighs with the total on record. The exact condition is
  stated in the fields of the reserve before.
- A slightly negative weighted rate truncates to zero, so a stable repayment
  does not always erase the leftover its second clamp is meant for.
- Nothing caps a variable repayment or a swap: a reserve stays sound exactly if
  its own debt contains the amount. Nothing holds back a borrow or a withdrawal
  either: it does exactly if the liquidity is there.
- A full repayment is resolved at the transaction for the reserve and at the
  current time for the user. Over any run wallet and reserve lose exactly the
  difference, and nothing else.
- Rebalancing a single borrower gives the current stable rate for every rate
  exactly from a debt of 10^18 base units on.
- Among several borrowers a rebalance turns the debt it moves into rays and leaves the
  rest as it is. So that debt weighs 10^9 times too much, and the average is the
  debt-weighted mean only on an exact condition: for a user at the average rate, if
  nobody else owes anything or the rate on offer is that average. When one of two equal
  borrowers is rebalanced to a rate 2% above it, the average rises by more than 1.99%.
  Where the others owe 10^9 times more than the user it may even go negative.
- A single stable borrower's record never comes apart from the reserve's, unless
  its timestamp is zero, which a user's balance takes for "never". A single
  variable borrower's never does, also through the borrow that starts from the
  reserve's scaled debt.
- What suppliers earn over an interval is their part of the debt that accrues and
  of what linear interest is ahead by. The latter depends on rates, interval and
  the age of the stable debt only: compounding on the variable debt keeps it
  back, while aged stable debt lets it run ahead, because the third term of the
  expanded interest earns nothing further. Suppliers are covered if it is not
  positive, and overpaid if it is positive beyond the roundings. Three ordinary
  actions lead to a reserve where, ten years on, they earn more than three times
  what accrues.
- Stable debt is kept at one average rate, and compounding is convex in the rate. So
  the total on record is at most the sum of the borrowers' balances, up to rounding,
  and may be far less: then the last full repayment exceeds the record and its
  clamp erases what others still owe.
- On a monotone rate curve an update in between never lowers what variable borrowers
  owe, up to rounding; nor what suppliers hold, while it does not lower the liquidity
  rate. Without stable debt and unbacked tokens it does not.
- A bridge fee raises the index for the supply, and with it, unasked, the value of
  the treasury's tokens. Nothing pays for that part.
- Over every run the reserve is solvent but for an explicit dust per step: roundings,
  stable debt that clamps erase, and the exceptions above.

## Model

| member | source | states |
|---|---|---|
| WadRayMath.DivTruncates | test-suites/helpers/utils/wadraymath.ts:50-57 | big-number division leaves a remainder smaller than the divisor and of the dividend's sign, for every sign of both operands |
| WadRayMath.RayMulNearest | test-suites/helpers/utils/wadraymath.ts:50-52 | the product in rays is the nearest integer, halves up |
| WadRayMath.RayDivNearest | test-suites/helpers/utils/wadraymath.ts:54-57 | the quotient in rays is the nearest integer, halves up, for odd and even divisors |
| WadRayMath.PercentMulNearest | test-suites/helpers/utils/wadraymath.ts:59-61 | likewise for basis points |
| WadRayMath.NearestSameRatio | test-suites/helpers/utils/wadraymath.ts:54-57 | equal ratios round equally, so rounding is unique |
| WadRayMath.RayDivMonotone | test-suites/helpers/utils/wadraymath.ts:54-57 | a quotient grows with the dividend and falls with the divisor |
| WadRayMath.RayDivScaleInvariant | test-suites/helpers/utils/wadraymath.ts:54-75 | a common factor, such as wadToRay on both sides, cancels exactly |
| WadRayMath.ScaledRoundTrip | test-suites/helpers/utils/wadraymath.ts:50-57 | a scaled balance valued at an index of at least one ray scales back to itself |
| WadRayMath.ScaledRoundTripExactlyFromOneRay | test-suites/helpers/utils/wadraymath.ts:50-57 | and one ray is exactly the threshold: every smaller index loses some balance |
| WadRayMath.AmountRoundTrip | test-suites/helpers/utils/wadraymath.ts:50-57 | scaling an amount down and up again moves it by at most half a unit plus half the index |
| DecimalOrder.JsGreaterMeaning | test-suites/helpers/utils/calculations.ts:1363-1364 | for a <= b the operator says "greater" exactly when a exceeds b's leading digits |
| Interest.LinearInterestExact | test-suites/helpers/utils/calculations.ts:1189-1199 | supplier interest is the exact proportion of the year's rate rounded down, and the whole rate after a year |
| Interest.LinearInterestAdds | test-suites/helpers/utils/calculations.ts:1189-1199 | over two adjacent intervals it adds up to within one unit |
| Interest.CompoundedTerms | test-suites/helpers/utils/calculations.ts:1206-1225 | the second and third terms are binomial coefficients times the rounded powers of the rate, with no division error |
| Interest.CompoundedMonotone | test-suites/helpers/utils/calculations.ts:1201-1226 | debt interest never falls in the rate or in the elapsed time, and is at least one ray |
| Interest.CompoundedAtLeastLinear | test-suites/helpers/utils/calculations.ts:1189-1226 | compounding charges at least linear interest |
| AgedDebt.CompoundedLead | test-suites/helpers/utils/calculations.ts:1189-1226 | linear interest on a unit that has compounded for some time leads the unit's compounded gain by a closed expression in rate, age and interval, to within explicit rounding on both sides |
| AgedDebt.AgedGain | test-suites/helpers/utils/calculations.ts:1166-1226 | the same for a debt of any principal as the source rounds it |
| Interest.CompoundedSandwich | test-suites/helpers/utils/calculations.ts:1201-1226 | it stays within explicit slack of the cubic binomial expansion on both sides, and below exact per-second compounding plus that slack, for every rate and interval |
| RateStrategy.CalcExpectedUtilizationRates | test-suites/helpers/utils/calculations.ts:1348-1367 | both utilizations lie in [0, RAY] and supply never exceeds borrow, whatever the string comparison says |
| RateStrategy.UtilizationAntitone | test-suites/helpers/utils/calculations.ts:1354-1357 | more liquidity under the same debt never raises utilization |
| RateStrategy.UtilizationMonotone | test-suites/helpers/utils/calculations.ts:1354-1361 | more debt over the same liquidity never lowers it |
| RateStrategy.SupplyUtilizationIsShareExactly | test-suites/helpers/utils/calculations.ts:1359-1364 | the reported supply utilization is the debt's share of all claims if and only if that share does not beat the leading digits of the borrow utilization |
| RateStrategy.CapMisfires | test-suites/helpers/utils/calculations.ts:1363-1364 | concrete reserve where half the claims are lent and 100% is reported |
| RateStrategy.CalcExpectedInterestRates | test-suites/helpers/utils/calculations.ts:1228-1325 | the branch-by-branch reassignment computes the curve, offset, overall and liquidity rate specified as functions |
| RateCurve.CurveAtKink | test-suites/helpers/utils/calculations.ts:1292-1303 | at the kink the curve is the first slope plus an overshoot given by slope and kink alone |
| RateCurve.OvershootBounds | test-suites/helpers/utils/calculations.ts:1292-1303 | the overshoot is at most 1/2 + RAY/(2·optimal); with the kink above a third of a ray at most one unit, and exactly when it is one |
| RateCurve.MonotoneOnEachSide | test-suites/helpers/utils/calculations.ts:1272-1303 | non-decreasing on each side of the kink |
| RateCurve.CurveDrop | test-suites/helpers/utils/calculations.ts:1272-1303 | between any two utilizations it falls by at most the overshoot, one unit when the kink is above a third of a ray |
| RateCurve.MonotoneExactly | test-suites/helpers/utils/calculations.ts:1272-1303 | monotone everywhere if and only if the overshoot is earned back by the second slope in the first unit above the kink, an inequality between the strategy's parameters |
| RateCurve.MonotoneFromAThird | test-suites/helpers/utils/calculations.ts:1272-1303 | the same with the kink above a third of a ray, as a condition on the remainder of slope1 · optimal and on slope2 |
| RateCurve.SteepSecondSlopeIsMonotone | test-suites/helpers/utils/calculations.ts:1272-1303 | so with the kink above a third of a ray every second slope that shows in one unit of utilization gives a monotone curve |
| RateCurve.RateDropsAcrossKink | test-suites/helpers/utils/calculations.ts:1272-1303 | concrete slopes where one more unit of utilization lowers the rate |
| RateValues.CurveValue | test-suites/helpers/utils/calculations.ts:1272-1303 | the curve is slope1 in proportion to the utilization up to the kink and slope1 plus slope2 in proportion to the rest of the ray above it, to within explicit rounding |
| RateValues.OffsetValue | test-suites/helpers/utils/calculations.ts:1305-1312 | the stable surcharge is nothing up to the optimal ratio, all of it at one ray, and in proportion between |
| RateValues.SharesNearest | test-suites/helpers/utils/calculations.ts:1265-1361 | utilization and stable ratio are the shares of the debt and of the stable debt, to the nearest ray |
| RateValues.BorrowRates | test-suites/helpers/utils/calculations.ts:1228-1325 | both rates charged, beyond their bases, lie on those curves at those shares, the stable one with the surcharge on top |
| RateValues.WholeSurcharge | test-suites/helpers/utils/calculations.ts:1305-1312 | with 20% as the optimal ratio and 8% as the surcharge, an all-stable debt pays market rate, curve and 8% |
| RateCurve.WithinSlopesExactly | test-suites/helpers/utils/calculations.ts:1272-1303 | the curve stays within its two slopes if and only if the overshoot is at most the second one |
| RateCurve.RateRanges | test-suites/helpers/utils/calculations.ts:1258-1312 | variable rate between base and base + slope1 + max(slope2, overshoot), stable rate between market and market + the same + offset, for every strategy |
| RateCurve.LiquidityCheapensDebt | test-suites/helpers/utils/calculations.ts:1251-1303 | adding liquidity at fixed debt raises neither rate by more than its overshoot, so by at most one unit with the kink above a third of a ray |
| RateFunding.OverallRateIsWeightedMean | test-suites/helpers/utils/calculations.ts:1327-1346 | overall rate times debt is what both kinds of borrowers owe, to within 10^18 + debt/2 |
| RateFunding.InterestIsFunded | test-suites/helpers/utils/calculations.ts:1320-1322 | for a utilization up to the debt's share, the supplier rate on all claims is at most the lent part of the overall rate on the debt, plus an explicit rounding term |
| RateFunding.SuppliersAccount | test-suites/helpers/utils/calculations.ts:1228-1364 | for every reserve, two-sided: what suppliers are promised over all claims is their part of what borrowers owe and of the overall rate on the utilization's excess over the debt, to within explicit rounding |
| RateFunding.ExcessOfShare | test-suites/helpers/utils/calculations.ts:1359-1364 | that excess is only rounding for the debt's share, and for a cap that fires at least as much, and what the overall rate collects on the unbacked tokens |
| RateFunding.SuppliersArePaidByBorrowers | test-suites/helpers/utils/calculations.ts:1228-1364 | end to end: funded, and fully paid, when the utilization is the share; overpaid when the cap fires with an excess over the rounding term, unfunded when it is over twice that |
| RateFunding.MisfireOverpaysSuppliers | test-suites/helpers/utils/calculations.ts:1320-1322 | a concrete reserve where suppliers are promised twice what borrowers pay |
| RateFunding.RatesNonNegative | test-suites/helpers/utils/calculations.ts:1228-1325 | no rate is negative, and nothing is promised while nothing is lent |
| ReserveModel.IndexesGrow | test-suites/helpers/utils/calculations.ts:1422-1450 | on sound reserves neither index ever falls |
| ReserveActions.DebtNeverShrinks | test-suites/helpers/utils/calculations.ts:1474-1502 | an update never computes negative accrued debt or a negative amount to mint |
| ReserveActions.UpdatedReady | test-suites/helpers/utils/calculations.ts:1513-1548 | bringing the state up to date keeps debts, indexes and treasury in order and lets none of them fall |
| ReserveActions.SettledValid | test-suites/helpers/utils/calculations.ts:1550-1585 | deriving liquidity, utilization and rates makes any such record sound |
| ReserveActions.DepositValid | test-suites/helpers/utils/calculations.ts:149-184 | a deposit keeps the reserve sound |
| ReserveActions.WithdrawValid | test-suites/helpers/utils/calculations.ts:314-358 | a withdrawal within the liquidity does |
| ReserveActions.WithdrawValidExactly | test-suites/helpers/utils/calculations.ts:314-358 | whenever no division by zero occurs, a withdrawal keeps the reserve sound if and only if the liquidity is there |
| ReserveActions.MintUnbackedValid | test-suites/helpers/utils/calculations.ts:186-230 | minting unbacked tokens does |
| ReserveActions.BackUnbackedValid | test-suites/helpers/utils/calculations.ts:232-312 | backing does, and raises index and treasury beyond the update |
| DebtActions.NothingLentBefore | test-suites/helpers/utils/calculations.ts:1359-1364 | if the aged debt rounds to no supply utilization, so did the smaller debt the rates were set for |
| DebtActions.BorrowValid | test-suites/helpers/utils/calculations.ts:360-508 | a borrow in either mode keeps the reserve sound although rates and totals belong to different times |
| DebtActions.BorrowValidExactly | test-suites/helpers/utils/calculations.ts:360-508 | whenever no division by zero occurs, a borrow keeps the reserve sound if and only if the liquidity is there |
| RepayActions.StableRepaidReady | test-suites/helpers/utils/calculations.ts:557-591 | for any amount and any user rate the clamps leave principal, total and average non-negative |
| RepayActions.VariableRepaidReady | test-suites/helpers/utils/calculations.ts:592-601 | a repayment of any amount leaves the variable debt in order if and only if its scaled form is within the scaled debt |
| RepayActions.RepayValidExactly | test-suites/helpers/utils/calculations.ts:510-630 | whenever no division by zero occurs, a repayment keeps the reserve sound if and only if it stays within the variable debt or goes to the stable debt |
| RepayActions.SwapValidExactly | test-suites/helpers/utils/calculations.ts:842-880 | entering the stable mode keeps the reserve sound if and only if its debt contains the user's; leaving it, if and only if also the user's excess weighted rate is below the remaining debt |
| RepayActions.AverageSign | test-suites/helpers/utils/calculations.ts:1119-1132 | when the truncating average after a removal is non-negative, exactly |
| RepayActions.RebalanceValidExactly | test-suites/helpers/utils/calculations.ts:972-1047 | a rebalance keeps the reserve sound if and only if its two re-averaging steps end at no negative rate |
| RepayActions.SoleRebalanceValid | test-suites/helpers/utils/calculations.ts:972-1047 | so does rebalancing the only stable borrower, however small the debt |
| RepayActions.SoleBorrowerRebalance | test-suites/helpers/utils/calculations.ts:990-1020 | removing and re-adding the only stable debt sets the average to the current stable rate |
| RepayActions.SoleBorrowerRebalanceExactlyFromOneToken | test-suites/helpers/utils/calculations.ts:1134-1147 | for every rate, if and only if the debt is at least 10^18 |
| RebalanceMean.RebalancedAverage | test-suites/helpers/utils/calculations.ts:972-1047 | for any number of borrowers: the average a rebalance leaves is that of the two re-averaging steps on the records' fields, with 10^9 times the user's debt as its weight, to within explicit rounding |
| RebalanceMean.RebalanceIsMeanExactly | test-suites/helpers/utils/calculations.ts:990-1020 | without the roundings that is the debt-weighted mean if and only if the rates make up for the weights; for a user at the average rate, if and only if nobody else owes anything or the rate on offer is that average |
| RebalanceMean.RebalanceTakesOver | test-suites/helpers/utils/calculations.ts:972-1047 | for such a user the average ends as close to the rate on offer as if the others owed 10^9 times less |
| RebalanceMean.HalfRebalancedTakesAll | test-suites/helpers/utils/calculations.ts:972-1047 | one of two equal borrowers rebalanced to a rate 2% higher: the mean rises by 1%, the record by more than 1.99% |
| RebalanceMean.CommonRebalanceValid | test-suites/helpers/utils/calculations.ts:972-1047 | a user at the average rate who owes at least a token, the others at most 10^8 times as much: rebalancing keeps the reserve sound |
| RebalanceMean.ReAddedSign | test-suites/helpers/utils/calculations.ts:1134-1147 | with the debt added again the rate is not negative if and only if RAY times what is divided exceeds -3/2 of the divisor |
| RebalanceMean.RebalanceGoesNegative | test-suites/helpers/utils/calculations.ts:972-1047 | one unit at 100% of 2·10^9 units at 5%: rebalancing leaves a negative average |
| ReserveRecords.UpdateState | test-suites/helpers/utils/calculations.ts:1513-1548 | filling the fields in this order gives the brought-up-to-date record and touches no other field |
| ReserveRecords.UpdateLiquidityAndUtils | test-suites/helpers/utils/calculations.ts:1550-1571 | sets liquidity, total and both utilizations and nothing else |
| ReserveRecords.UpdateTotalLiquidityAndUtil | test-suites/helpers/utils/calculations.ts:1573-1585 | re-derives them from the current fields |
| ReserveRecords.CalcExpectedReserveDataAfterDeposit | test-suites/helpers/utils/calculations.ts:149-184 | the filled record is the specified one in every field |
| ReserveRecords.CalcExpectedReserveDataAfterMintUnbacked | test-suites/helpers/utils/calculations.ts:186-230 | the same, with unbacked set between the two updates |
| ReserveRecords.CalcExpectedReserveDataAfterBackUnbacked | test-suites/helpers/utils/calculations.ts:232-312 | the same, with the index raised after the update and before the treasury's premium is scaled |
| ReserveRecords.CalcExpectedReserveDataAfterWithdraw | test-suites/helpers/utils/calculations.ts:314-358 | the same, with the full amount resolved before the update |
| ReserveRecords.CalcExpectedReserveDataAfterBorrow | test-suites/helpers/utils/calculations.ts:360-508 | the same for both modes, rates at the transaction and totals at the current time |
| ReserveRecords.CalcExpectedReserveDataAfterRepay | test-suites/helpers/utils/calculations.ts:510-630 | the same for both modes, both clamps and every amount that divides by nothing zero |
| ReserveRecords.RepayStable | test-suites/helpers/utils/calculations.ts:557-591 | the nested clamps leave exactly the specified principal, total and average |
| ReserveRecords.CalcExpectedReserveDataAfterSwapRateMode | test-suites/helpers/utils/calculations.ts:807-905 | the same for both directions, whatever the user owes |
| ReserveRecords.CalcExpectedReserveDataAfterStableRateRebalance | test-suites/helpers/utils/calculations.ts:972-1047 | the same for the two-step re-averaging |
| RecordFields.LiquidityFields | test-suites/helpers/utils/calculations.ts:149-1562 | after every action the available liquidity, the unbacked tokens and the total liquidity are those before moved by the action's amounts |
| RecordFields.IndexFields | test-suites/helpers/utils/calculations.ts:149-1450 | after every action the liquidity index carries the year's rate in proportion to the time passed, the variable one, if there is debt, compounds, both to within explicit rounding; only backing raises the former further |
| RecordFields.BorrowLeavesAgedTotals | test-suites/helpers/utils/calculations.ts:360-508 | a borrow's totals are what bringing its own record up to the current time gives: both debts with all interest since the transaction, at the rates the borrow has set |
| RecordFields.DebtFields | test-suites/helpers/utils/calculations.ts:149-1047 | after every action both totals are the record's own debts at the time it describes |
| RecordFields.UtilizationFields | test-suites/helpers/utils/calculations.ts:1348-1367 | after every action both utilizations are the shares of the total debt on record, to the nearest ray, or where the cap acts the supply utilization is the borrow utilization |
| AverageFields.AverageFields | test-suites/helpers/utils/calculations.ts:149-905 | the average stable rate after every action but a rebalance: the weighted rate left over the debt left, rounded down, and zero once either is used up |
| UserRecords.CalcExpectedUserDataAfterDeposit | test-suites/helpers/utils/calculations.ts:13-81 | the user record after all its overwrites |
| UserRecords.CalcExpectedUserDataAfterWithdraw | test-suites/helpers/utils/calculations.ts:83-147 | the user record, collateral flag included |
| UserRecords.CalcExpectedUserDataAfterBorrow | test-suites/helpers/utils/calculations.ts:632-711 | the user record for both modes |
| UserRecords.CalcExpectedUserDataAfterRepay | test-suites/helpers/utils/calculations.ts:713-792 | the user record for both modes, own or other's behalf |
| UserRecords.CalcExpectedUserDataAfterSwapRateMode | test-suites/helpers/utils/calculations.ts:907-970 | the copied record with the swapped debts |
| UserRecords.CalcExpectedUserDataAfterStableRateRebalance | test-suites/helpers/utils/calculations.ts:1049-1094 | the copied record that SoleBorrower proves in step with the reserve's |
| UserFields.DepositCredits | test-suites/helpers/utils/calculations.ts:13-81 | the balance rises by exactly the amount, the scaled balance by the amount at the new index, which is what the supply gains; the wallet pays it |
| UserFields.WithdrawDebits | test-suites/helpers/utils/calculations.ts:83-147 | for every amount the balance falls by exactly what is withdrawn, the scaled balance by that at the new index, which is what the supply loses; both agree to within 1 + index/(2·RAY) |
| UserFields.BorrowRecord | test-suites/helpers/utils/calculations.ts:632-711 | all balances are the record's own at the current time; a stable borrow adds the amount to the accrued principal at the weighted mean rate, a variable one scales it to the new index |
| UserFields.RepayRecord | test-suites/helpers/utils/calculations.ts:713-792 | the debt falls by exactly what is repaid, stable rate and timestamp are reset exactly when nothing is left, and the wallet pays only on the own behalf |
| UserFields.SwapRecord | test-suites/helpers/utils/calculations.ts:907-970 | the whole debt of one mode moves into the other, also onto a stable debt the user already has, at the weighted mean rate |
| UserFields.RebalanceRecord | test-suites/helpers/utils/calculations.ts:1049-1094 | the accrued debt becomes the principal of a new interval at the reserve's new average rate |
| UserFields.CarriedBalances | test-suites/helpers/utils/calculations.ts:1107-1164 | the balances those records carry over are the scaled ones at the indexes the action leaves |
| Balances.IncomeIsNextIndex | test-suites/helpers/utils/calculations.ts:1369-1435 | the guards on liquidity rate and on supply utilization value balances at the same index |
| Balances.NormalizedDebtIsNextIndex | test-suites/helpers/utils/calculations.ts:1391-1450 | the guards on variable rate and on total debt value debts at the same index |
| Balances.VariableDebtScalesBack | test-suites/helpers/utils/calculations.ts:1149-1164 | a user's accrued variable debt scales back to the user's scaled debt and is part of the reserve's |
| Balances.FullWithdrawalLeavesNoDust | test-suites/helpers/utils/calculations.ts:94-144 | withdrawing everything leaves no scaled balance, and the wallet gains what the reserve loses |
| Balances.FullRepaymentLeavesNoDust | test-suites/helpers/utils/calculations.ts:534-601 | repaying all variable debt clears the user's scaled debt and takes exactly that much off the reserve's |
| Balances.FullStableRepaymentClears | test-suites/helpers/utils/calculations.ts:541-758 | repaying all stable debt resets the user's principal, rate and timestamp and leaves the reserve exactly the others' debt, or none when a clamp fires; the wallet pays what the reserve receives |
| Balances.DepositAgreement | test-suites/helpers/utils/calculations.ts:44-54 | expected balance and revalued scaled balance differ by at most 1 + index/(2·RAY), so by at most 3 below six rays |
| Balances.SplitDeposit | test-suites/helpers/utils/calculations.ts:1096-1105 | splitting a deposit into n parts changes the scaled credit by at most (n + 1)/2 |
| SwapRoundTrip.SwapThereAndBack | test-suites/helpers/utils/calculations.ts:807-970 | variable to stable at any time and back at once restores both scaled debts exactly and total stable debt to its accrued value; the average rate that results, and exactly when the reserve ends sound, in its fields before |
| SwapRoundTrip.WeightyAverageReturnsSound | test-suites/helpers/utils/calculations.ts:842-880 | with totals up to date, an average rate worth the swapped debt is enough for that |
| SwapRoundTrip.RoundTripEndsUnsound | test-suites/helpers/utils/calculations.ts:842-880 | a sound reserve and a user whose round trip leaves an average rate of -1 |
| StableDrift.AverageStep | test-suites/helpers/utils/calculations.ts:1119-1132 | one step rounds the weighted mean down and stays between the old average and the new rate |
| StableDrift.UserRateIsWeightedMean | test-suites/helpers/utils/calculations.ts:1413-1420 | the user's stable rate is the same mean, between old and new rate |
| StableDrift.AverageDrift | test-suites/helpers/utils/calculations.ts:386-401 | after n stable borrows at one time, each at the rate then offered, the stored average is at most the true mean and below it by less than n |
| StableDrift.StableClampsExactly | test-suites/helpers/utils/calculations.ts:565-590 | exactly when a stable repayment erases the leftover, and when truncation only resets the average |
| StableDrift.LeavingStableGoesNegative | test-suites/helpers/utils/calculations.ts:842-858 | a sound reserve and a user whose swap leaves a negative average where a repayment of the same debt would clear it |
| StableDrift.RepaidTwiceOver | test-suites/helpers/utils/calculations.ts:592-601 | a repayment beyond the variable debt for which the calculation goes through and leaves a negative scaled debt |
| StableDrift.TakenBeyondLiquidity | test-suites/helpers/utils/calculations.ts:314-508 | a reserve without liquidity from which a borrow and a withdrawal go through and leave it negative |
| StableDrift.SwappedBeyondDebt | test-suites/helpers/utils/calculations.ts:842-858 | a swap of more than the reserve's stable debt that goes through and leaves it negative |
| StableDrift.LeftoverStays | test-suites/helpers/utils/calculations.ts:582-590 | a repayment after which the second clamp does not fire although the weighted rate left is negative |
| StableTotals.TotalBelowBalances | test-suites/helpers/utils/calculations.ts:1119-1187 | for any principals and rates whose weighted mean the average does not exceed, the total at the average rate is at any time at most the sum of the balances, up to explicit rounding |
| StableTotals.NewBorrowersPosition | test-suites/helpers/utils/calculations.ts:643-672 | a new borrower's record holds the amount at the rate on offer |
| StableTotals.BorrowersOweMoreThanRecorded | test-suites/helpers/utils/calculations.ts:386-401 | so it is after any number of stable borrows at one time, for ever after |
| StableTotals.RecordFallsBehind | test-suites/helpers/utils/calculations.ts:557-591 | two borrowers of whom, after a year, one owes more than the record, so that the repayment erases what the other owes |
| Bridge.FeeBecomesLiquidity | test-suites/helpers/utils/calculations.ts:253-286 | total liquidity rises by exactly the fee, backing only moves unbacked to available, the premiums are parts of the fee |
| Bridge.SuppliersReceivePremium | test-suites/helpers/utils/calculations.ts:240-273 | the supply revalued at the new index gains the premium p to within 1 + p/(2·TS) + (TS + supply + 1)/(2·RAY) |
| Bridge.BackingPaysSuppliers | test-suites/helpers/utils/calculations.ts:232-312 | that bound for the index the action leaves |
| BridgeShares.FeeIsShared | test-suites/helpers/utils/calculations.ts:253-286 | the treasury gains, valued at the new index, the fee times the protocol's basis points, and the supply the fee times the rest, to within explicit rounding |
| Runs.FirstDepositIsRun | test-suites/helpers/utils/calculations.ts:149-184 | an unused reserve is sound and a first deposit into it is a run, so runs exist |
| Runs.StepKeeps | test-suites/helpers/utils/calculations.ts:149-1047 | every enabled action by any user keeps the reserve sound and lowers neither index nor treasury |
| Runs.RunInvariant | test-suites/helpers/utils/calculations.ts:149-1047 | the same over every run of any length |
| Treasury.DebtMovesByInterest | test-suites/helpers/utils/calculations.ts:1480-1500 | an action that leaves debts alone moves the total debt by exactly the accrual the treasury is paid on |
| Treasury.TreasuryIsCredited | test-suites/helpers/utils/calculations.ts:1502-1510 | the scaled credit, valued at the new index, is the minted amount to within 1/2 + index/(2·RAY) |
| Treasury.AccrualTelescopes | test-suites/helpers/utils/calculations.ts:1474-1548 | over n such actions accruals sum exactly to the debt's growth and mints to the reserve factor's share within n/2 |
| Ledger.StepBooked | test-suites/helpers/utils/calculations.ts:360-1047 | every action moves the total debt by interest plus its own flow, to within 1 + index/(2·RAY) |
| Ledger.DebtConserved | test-suites/helpers/utils/calculations.ts:149-1047 | over every run the total debt is the initial debt plus interest plus flows, to within that per action |
| Ledger.StepLiquidity | test-suites/helpers/utils/calculations.ts:1550-1562 | every action moves the total liquidity by exactly its own flow, unbacked tokens included |
| Ledger.LiquidityConserved | test-suites/helpers/utils/calculations.ts:149-1047 | over every run the total liquidity is the initial one plus all flows, with no rounding at all |
| Conservation.ConservedExactly | test-suites/helpers/utils/calculations.ts:541-785 | wallet plus available liquidity loses exactly what a full repayment leaks, so it is kept by every deal, a full repayment included if and only if the debt is the same at both its times |
| Conservation.LateRepaymentNeverGains | test-suites/helpers/utils/calculations.ts:726-742 | a full repayment valued later than it is booked can only cost the wallet more |
| Conservation.LateFullRepaymentLeaks | test-suites/helpers/utils/calculations.ts:726-742 | a concrete user whose late full repayment pays more than any reserve receives |
| Conservation.TokensConserved | test-suites/helpers/utils/calculations.ts:63-785 | over any mix of deals, full amounts included, wallet plus available liquidity loses exactly the leaks, and nothing if full repayments are valued when they are booked |
| UpdateBetween.FactorsMultiply | test-suites/helpers/utils/calculations.ts:1201-1226 | compounding in two steps, the second at no lower a rate, charges at least what one step does, up to explicit rounding |
| UpdateBetween.RefreshKeepsRate | test-suites/helpers/utils/calculations.ts:1251-1303 | an update lowers the variable rate by at most the overshoot at the kink, and not at all on a monotone curve |
| UpdateBetween.BorrowersOweNoLess | test-suites/helpers/utils/calculations.ts:1422-1450 | on a monotone curve an update in between never lowers the debt index at the end, up to explicit rounding |
| UpdateBetween.SuppliersHoldNoLess | test-suites/helpers/utils/calculations.ts:1422-1450 | nor the liquidity index, while it does not lower the liquidity rate |
| UpdateBetween.RefreshKeepsLiquidityRate | test-suites/helpers/utils/calculations.ts:1314-1367 | without stable debt and unbacked tokens, from 10^18 of variable debt on, it does not |
| SoleBorrower.SoleBorrowerDebtsAgree | test-suites/helpers/utils/calculations.ts:1166-1187 | a single stable borrower's balance equals the reserve's total despite different guards, if and only if the stable timestamp is not zero or the interest is under half a unit |
| SoleBorrower.TurnKeepsStep | test-suites/helpers/utils/calculations.ts:386-1094 | stable borrow, rebalancing, repayment up to all of the debt, and anyone's other actions keep the borrower's principal, rate and timestamp equal to the reserve's; no clamp fires |
| SoleBorrower.AlwaysInStep | test-suites/helpers/utils/calculations.ts:386-1094 | the same over every history, so that at any later time the borrower's balance is the whole stable debt |
| SoleVariableBorrower.TurnKeepsScaled | test-suites/helpers/utils/calculations.ts:632-970 | deposits, withdrawals, borrows, repayments and swaps of a single variable borrower keep the user's scaled debt equal to the reserve's, also the borrow that starts from the reserve's |
| SoleVariableBorrower.ScaledDebtsAgree | test-suites/helpers/utils/calculations.ts:632-970 | the same over every history, so that at any later time the borrower's balance is the whole variable debt |
| CurrentRates.ActionsSetRates | test-suites/helpers/utils/calculations.ts:149-1047 | every action leaves rates set for exactly the variable debt at its transaction and for a stable debt that is the record's own if and only if no variable borrow meets a timestamp of zero with half a unit of interest behind it |
| CurrentRates.BorrowedStable | test-suites/helpers/utils/calculations.ts:417-470 | the stable debt a variable borrow sets rates for is the debt it leaves if and only if its timestamp is not zero or the interest is under half a unit |
| Earnings.ShortfallIsLead | test-suites/helpers/utils/calculations.ts:1166-1226 | stable debt of any age accrues less than linear interest by the lead on its principal, to within rounding on both sides |
| Earnings.FreshDebtHasNoLead | test-suites/helpers/utils/calculations.ts:1201-1226 | with an age up to two seconds that lead is not positive |
| Earnings.FreshStableDebtFallsNoShorter | test-suites/helpers/utils/calculations.ts:1201-1226 | stable debt moved at the last update has no shortfall but half a unit |
| Earnings.AccrualAccount | test-suites/helpers/utils/calculations.ts:1189-1226 | the debt accrued, and what linear interest is ahead by, add up to linear interest on both debts, two-sided |
| Earnings.EarningsAccount | test-suites/helpers/utils/calculations.ts:1189-1548 | for every reserve, any age of its stable debt and whatever the cap reports, two-sided: suppliers earn over an interval their part of the debt accrued, of what linear interest is ahead by and of the reported excess |
| Earnings.SuppliersEarnWhatAccrues | test-suites/helpers/utils/calculations.ts:1189-1548 | while the utilization is the share they are covered by the accrual if linear interest is not ahead, strictly overpaid if it is ahead beyond the slack, and beyond every bound with twice the slack |
| Earnings.InterestCoversEveryone | test-suites/helpers/utils/calculations.ts:1474-1510 | suppliers' income and the amount minted to the treasury together, likewise |
| Earnings.EarnedAfterEveryAction | test-suites/helpers/utils/calculations.ts:149-1047 | both after every action, always without unbacked tokens and otherwise while the cap keeps quiet |
| AgedDebtRun.AgedDebtOverpaysSuppliers | test-suites/helpers/utils/calculations.ts:149-508 | a run of deposit, stable borrow and, ten years later, an empty deposit, after which suppliers earn over a year more than three times what all borrowers accrue |
| Solvency.UpdateKeepsBacked | test-suites/helpers/utils/calculations.ts:1474-1548 | bringing a reserve up to date keeps suppliers' and treasury's tokens, valued at the index, within liquidity and accrued debt, up to explicit slack |
| Solvency.StepKeepsBacked | test-suites/helpers/utils/calculations.ts:149-1047 | so does every action, up to an explicit dust |
| Solvency.StaysBacked | test-suites/helpers/utils/calculations.ts:149-1047 | solvency over every run: the tokens stay backed up to the dust of the steps, which holds roundings, what linear interest is ahead by, a misfiring cap, erased debt and the bridge's gift |
| Solvency.FreshReserveIsBacked | test-suites/helpers/utils/interfaces/index.ts:18-44 | a fresh reserve is fully backed, so such runs exist |
| Solvency.BridgeGift | test-suites/helpers/utils/calculations.ts:262-277 | backing raises the tokens' value by the fee and by the treasury's tokens times the raise of the index, two-sided |
| Solvency.CreditedReserve | test-suites/helpers/utils/calculations.ts:1513-1548 | a reserve as the next row asks for |
| Solvency.GiftWorthTheFee | test-suites/helpers/utils/calculations.ts:262-277 | concrete amounts for which the value rises by twice the fee |

## Left out

- The contracts themselves: the reserve logic, debt tokens and rate strategy on chain are not part of this model, nor are overflow, reverts and gas.
- Addresses, symbols, decimals and the lookup of a reserve's configuration by symbol: one strategy record is a parameter. It carries the reserve factor of the configuration, apart from the reserve record's own.
- Records start from non-negative chain data: negative liquidity or debts before an action are excluded by `Sound`. The records after an action may hold them.
- The two timestamps and the market rate that the source leaves unset are completed the way the comparison in `test-suites/helpers/actions.ts` assumes: the update time, and the stable time when stable principal moved.
- Assignments that a later line of the same calculation overwrites before they are read, such as the first of two utilizations, appear once, at their last place.
- `calcExpectedUserDataAfterSetUseAsCollateral` only copies a flag.
- `wadMul`, `wadDiv`, `percentDiv` and `rayToWad` are not used by these calculations.
- The user fields the source fills inconsistently, the principal after a deposit, the crossed stable fields after a variable repayment, and the scaled debt after a variable borrow, which starts from the reserve's, are stated as the source fills them; no claim is made on what they mean.
- EarnedAfterEveryAction: leaves out a variable borrow while stable debt carries the timestamp zero and has accrued half a unit, because the rates are then set for less stable debt than there is; ActionsSetRates has the exact condition.
- StaysBacked: the same exception. It follows the total scaled supply as a ghost of deposits, withdrawals and bridge mints; transfers, and the minting of the treasury's tokens, do not change what it counts.
- BorrowersOweMoreThanRecorded: the borrowers' debts start at one time, as they do on record; a borrower whose balance has compounded longer than the record since its last change is not followed.
