/** What the treasury takes of the interest, summed over runs that leave the debts alone. */
module Treasury {
  import opened WadRayMath
  import opened Interest
  import opened RateStrategy
  import opened ReserveModel
  import opened ReserveActions
  import opened Balances
  import opened Runs

  predicate LeavesDebtsAlone(a: Action) {
    a.Deposit? || a.Withdraw? || a.MintUnbacked? || a.BackUnbacked?
  }

  /** Whatever such an action does to rates and liquidity, it moves the total debt by exactly the interest
      that the treasury's share is computed from. */
  lemma DebtMovesByInterest(s: Strategy, r: Reserve, a: Action, t: int)
    requires ValidStrategy(s) && Sound(r) && Enabled(r, a, t) && LeavesDebtsAlone(a)
    ensures var next := After(s, r, a, t);
            TotalDebtAtLastUpdate(next) == TotalDebtAtLastUpdate(r) + DebtAccrued(r, Updated(r, t))
  {
    hide RayMul, CalcCompoundedInterest, Enabled, Sound, After;
    EnabledInTime(r, a, t);
    DebtFieldsKept(s, r, a, t);
    var u, next := Updated(r, t), After(s, r, a, t);
    UpdatedDebts(r, t);
    RayMulCommutes(r.principalStableDebt,
                   CalcCompoundedInterest(r.averageStableBorrowRate, t, r.totalStableDebtLastUpdated));
    if r.principalStableDebt == 0 { ZeroDebt(r, next, t); }
  }

  lemma EnabledInTime(r: Reserve, a: Action, t: int)
    requires Enabled(r, a, t)
    ensures t >= r.lastUpdateTimestamp
  {
    hide RayMul;
  }

  lemma ZeroDebt(r: Reserve, next: Reserve, t: int)
    ensures RayMul(0, CalcCompoundedInterest(r.averageStableBorrowRate, t, r.totalStableDebtLastUpdated)) == 0
    ensures RayMul(0, CalcCompoundedInterest(next.averageStableBorrowRate, t, next.totalStableDebtLastUpdated)) == 0
  {
    hide CalcCompoundedInterest;
    var x, y := CalcCompoundedInterest(r.averageStableBorrowRate, t, r.totalStableDebtLastUpdated),
                CalcCompoundedInterest(next.averageStableBorrowRate, t, next.totalStableDebtLastUpdated);
    assert 0 * x == 0 && 0 * y == 0;
  }

  lemma UpdatedDebts(r: Reserve, t: int)
    requires Sound(r) && t >= r.lastUpdateTimestamp
    ensures var u := Updated(r, t);
            && u.scaledVariableDebt == r.scaledVariableDebt && u.principalStableDebt == r.principalStableDebt
            && u.averageStableBorrowRate == r.averageStableBorrowRate && u.reserveFactor == r.reserveFactor
            && u.totalStableDebtLastUpdated == r.totalStableDebtLastUpdated
            && u.variableBorrowIndex == NextVariableBorrowIndex(r, t)
            && u.totalStableDebt
               == TotalStableDebt(r.principalStableDebt, r.averageStableBorrowRate, r.totalStableDebtLastUpdated, t)
  {
    hide RayMul, TotalStableDebt, AccruedToTreasury, NextVariableBorrowIndex;
    IndexesGrow(r, t);
  }

  /** The averaging in the bridge actions, over a zero amount, changes nothing unless nothing is owed. */
  lemma DebtFieldsKept(s: Strategy, r: Reserve, a: Action, t: int)
    requires ValidStrategy(s) && Sound(r) && Enabled(r, a, t) && LeavesDebtsAlone(a)
    ensures var u, next := Updated(r, t), After(s, r, a, t);
            && next.scaledVariableDebt == u.scaledVariableDebt && next.variableBorrowIndex == u.variableBorrowIndex
            && next.principalStableDebt == u.principalStableDebt && next.lastUpdateTimestamp == t
            && next.totalStableDebtLastUpdated == u.totalStableDebtLastUpdated
            && next.reserveFactor == u.reserveFactor
            && (r.principalStableDebt != 0 ==> next.averageStableBorrowRate == u.averageStableBorrowRate)
  {
    hide InterestRates, BorrowUtilization, SupplyUtilization, BroughtUpTo, AverageStableRate, WithdrawnAmount, RayMul,
         RayDiv, PremiumToProtocol, CumulateToLiquidityIndex, Ready, CanBack;
    UpdatedDebts(r, t);
    SameAverage(r.averageStableBorrowRate, r.totalStableDebt, r.stableBorrowRate);
  }

  lemma SameAverage(average: int, total: int, rate: int)
    requires average >= 0 && total >= 0
    ensures total != 0 ==> AverageStableRate(average, total, 0, rate) == average
  {
    if total > 0 {
      MulLe(0, average, total);
      assert average * total / total == average by {
        var q := average * total / total;
        assert total * q <= average * total < total * q + total;
        MulLtCancel(q, average + 1, total) by { assert (average + 1) * total == average * total + total; }
        MulLtCancel(average, q + 1, total) by { assert (q + 1) * total == total * q + total; }
      }
    }
  }

  /** What an update credits to the treasury is scaled by the new index: valued there, the credit is the
      amount minted to within 1/2 + index/(2·RAY). */
  lemma TreasuryIsCredited(r: Reserve, t: int)
    requires Sound(r) && t >= r.lastUpdateTimestamp
    ensures var u := Updated(r, t);
            var credit := u.accruedToTreasuryScaled - r.accruedToTreasuryScaled;
            && credit >= 0
            && 2 * RAY * Abs(RayMul(credit, u.liquidityIndex) - AmountToMint(r, u)) <= RAY + u.liquidityIndex
  {
    hide RayMul, RayDiv, AmountToMint, NextVariableBorrowIndex, NextLiquidityIndex, TotalStableDebt, Sound;
    DebtNeverShrinks(r, t);
    UpdatedReady(r, t);
    UpdatedIndex(r, t);
    AmountReads(r, t);
    var u := Updated(r, t);
    var m := AmountToMint(r, u);
    AmountRoundTrip(m, u.liquidityIndex);
    if m == 0 { RayMulZero(u.liquidityIndex); }
  }

  /** The amount is computed while the record is still being filled in; what is filled in last does not matter. */
  lemma AmountReads(r: Reserve, t: int)
    requires Sound(r) && t >= r.lastUpdateTimestamp
    ensures Updated(r, t).liquidityIndex > 0
    ensures var u, m := Updated(r, t), AmountToMint(r, Updated(r, t));
            u.accruedToTreasuryScaled ==
              r.accruedToTreasuryScaled + (if m > 0 then RayDiv(m, u.liquidityIndex) else 0)
  {
    hide RayMul, RayDiv, NextVariableBorrowIndex, NextLiquidityIndex, TotalStableDebt, PercentMul;
    IndexesGrow(r, t);
  }

  // ---------- Sums over a run ----------

  ghost predicate LeaveDebtsAlone(steps: seq<Step>) {
    forall k | 0 <= k < |steps| :: LeavesDebtsAlone(steps[k].action)
  }

  /** The interest accrued over a run, step by step. */
  ghost function InterestOf(s: Strategy, r: Reserve, steps: seq<Step>): int
    requires ValidStrategy(s) && Sound(r) && IsRun(s, r, steps)
    decreases |steps|
  {
    if steps == [] then 0
    else
      StepKeeps(s, r, steps[0].action, steps[0].time);
      DebtAccrued(r, Updated(r, steps[0].time)) + InterestOf(s, After(s, r, steps[0].action, steps[0].time), steps[1..])
  }

  /** The amounts minted to the treasury over it. */
  ghost function MintedOf(s: Strategy, r: Reserve, steps: seq<Step>): int
    requires ValidStrategy(s) && Sound(r) && IsRun(s, r, steps)
    decreases |steps|
  {
    if steps == [] then 0
    else
      StepKeeps(s, r, steps[0].action, steps[0].time);
      AmountToMint(r, Updated(r, steps[0].time)) + MintedOf(s, After(s, r, steps[0].action, steps[0].time), steps[1..])
  }

  /** The accrual telescopes: summed over any such run it is exactly the growth of the debt, and the
      treasury's part of it is the reserve factor's share to within half a unit a step. */
  lemma {:induction false} AccrualTelescopes(s: Strategy, r: Reserve, steps: seq<Step>)
    requires ValidStrategy(s) && Sound(r) && IsRun(s, r, steps) && LeaveDebtsAlone(steps)
    ensures InterestOf(s, r, steps) == TotalDebtAtLastUpdate(Final(s, r, steps)) - TotalDebtAtLastUpdate(r)
    ensures InterestOf(s, r, steps) >= 0 && MintedOf(s, r, steps) >= 0
    ensures Abs(10000 * MintedOf(s, r, steps) - r.reserveFactor * InterestOf(s, r, steps)) <= 5000 * |steps|
    decreases |steps|
  {
    hide Sound, After, Enabled, Updated, TotalDebtAtLastUpdate, DebtAccrued, AmountToMint, LeavesDebtsAlone;
    if steps != [] {
      var a, t, rest := steps[0].action, steps[0].time, steps[1..];
      var next := After(s, r, a, t);
      EnabledInTime(r, a, t);
      StepKeeps(s, r, a, t);
      assert forall k | 0 <= k < |rest| :: rest[k] == steps[k + 1];
      AccrualTelescopes(s, next, rest);
      DebtMovesByInterest(s, r, a, t);
      DebtNeverShrinks(r, t);
      MintIsShare(r, t);
      SharesAdd(r.reserveFactor, DebtAccrued(r, Updated(r, t)), AmountToMint(r, Updated(r, t)),
                InterestOf(s, next, rest), MintedOf(s, next, rest), |rest|);
    }
  }

  lemma SharesAdd(factor: int, interest: int, minted: int, laterInterest: int, laterMinted: int, n: nat)
    requires Abs(10000 * minted - factor * interest) <= 5000
    requires Abs(10000 * laterMinted - factor * laterInterest) <= 5000 * n
    ensures Abs(10000 * (minted + laterMinted) - factor * (interest + laterInterest)) <= 5000 * (n + 1)
  {
    assert factor * (interest + laterInterest) == factor * interest + factor * laterInterest;
  }

  lemma MintIsShare(r: Reserve, t: int)
    requires Sound(r) && t >= r.lastUpdateTimestamp
    ensures Abs(10000 * AmountToMint(r, Updated(r, t)) - r.reserveFactor * DebtAccrued(r, Updated(r, t))) <= 5000
  {
    hide Updated, DebtAccrued;
    DebtNeverShrinks(r, t);
    SoundFactor(r);
    var accrued := DebtAccrued(r, Updated(r, t));
    if r.reserveFactor != 0 {
      MulLe(0, accrued, r.reserveFactor);
      PercentMulNearest(accrued, r.reserveFactor);
    }
  }

  lemma SoundFactor(r: Reserve)
    requires Sound(r)
    ensures r.reserveFactor >= 0
  {
    hide Div;
  }
}
