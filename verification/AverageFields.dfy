/** The average stable rate each action leaves: what is left of the weighted rate over what is left of the debt. */
module AverageFields {
  import opened WadRayMath
  import opened RateStrategy
  import opened ReserveModel
  import opened ReserveActions
  import opened DebtActions
  import opened RepayActions
  import opened StableDrift
  import opened Runs
  import opened Treasury

  /** A weighted rate over a debt, rounded down, and zero if either is used up. */
  ghost predicate RoundedDown(rate: int, weighted: int, debt: int) {
    if debt <= 0 || weighted <= 0 then rate == 0 else rate * debt <= weighted < (rate + 1) * debt
  }

  /** The average an action leaves, in the fields of the record before it. Debt that joins is weighted with the rate on
      offer, debt that leaves with the rate the user has borne. A swap into the stable mode weighs the debt already
      there with the total on record, every other action with the accrued one. */
  lemma AverageFields(s: Strategy, r: Reserve, a: Action, t: int)
    requires ValidStrategy(s) && Sound(r) && Enabled(r, a, t) && !a.Rebalance?
    ensures var rate, now := After(s, r, a, t).averageStableBorrowRate, StableDebtNow(r, t);
            var average, offered := r.averageStableBorrowRate, r.stableBorrowRate;
            match a
            case Borrow(amount, Stable, current) => RoundedDown(rate, average * now + offered * amount, now + amount)
            case Repay(amount, Stable, user) =>
              var repaid := RepaidAmount(r, user, amount, Stable, t);
              RoundedDown(rate, average * now - user.stableBorrowRate * repaid, now - repaid)
            case Swap(Stable, user) =>
              var debt := UserStableDebt(user, t);
              RoundedDown(rate, average * now - user.stableBorrowRate * debt, now - debt)
            case Swap(Variable, user) =>
              var debt := VariableDebtBalance(r, user, t);
              RoundedDown(rate, average * r.totalStableDebt + offered * debt, r.totalStableDebt + debt)
            case MintUnbacked(_) => rate == if r.totalStableDebt != 0 then average else 0
            case BackUnbacked(_, _, _, _) => rate == if r.totalStableDebt != 0 then average else 0
            case _ => rate == average
  {
    hide After, Sound, Enabled, StableDebtNow, UserStableDebt, VariableDebtBalance, RepaidAmount, RoundedDown,
         AverageStableRate;
    AverageSet(s, r, a, t);
    EnabledInTime(r, a, t);
    match a
    case Borrow(amount, Stable, current) => BorrowedAverage(r, a, t);
    case Repay(amount, Stable, user) =>
      RepaidAverage(r, RepaidAmount(r, user, amount, Stable, t), user.stableBorrowRate, t);
    case Swap(mode, user) => SwapAverage(r, mode, user, t);
    case _ => ZeroChange(r);
  }

  /** Which of its calculations the record's average comes from. */
  lemma AverageSet(s: Strategy, r: Reserve, a: Action, t: int)
    requires ValidStrategy(s) && Sound(r) && Enabled(r, a, t) && !a.Rebalance?
    ensures t >= r.lastUpdateTimestamp
    ensures var rate, now := After(s, r, a, t).averageStableBorrowRate, StableDebtNow(r, t);
            var average, offered := r.averageStableBorrowRate, r.stableBorrowRate;
            match a
            case Borrow(amount, Stable, current) => rate == AverageStableRate(average, now, amount, offered)
            case Repay(amount, Stable, user) =>
              rate == WithStableRepaid(r, RepaidAmount(r, user, amount, Stable, t), user.stableBorrowRate, t)
                      .averageStableBorrowRate
            case Swap(Stable, user) =>
              rate == AverageStableRate(average, now, Negated(UserStableDebt(user, t)), user.stableBorrowRate)
            case Swap(Variable, user) =>
              rate == AverageStableRate(average, r.totalStableDebt, VariableDebtBalance(r, user, t), offered)
            case MintUnbacked(_) => rate == AverageStableRate(average, r.totalStableDebt, 0, offered)
            case BackUnbacked(_, _, _, _) => rate == AverageStableRate(average, r.totalStableDebt, 0, offered)
            case _ => rate == average
  {
    hide InterestRates, BorrowUtilization, SupplyUtilization, BroughtUpTo, NextVariableBorrowIndex, TotalStableDebt,
         NormalizedDebt, RayMul, RayDiv, PercentMul, AverageStableRate, AverageStableRateRebalance, UserStableDebt,
         VariableDebtBalance, StableDebtTokenBalance, CanRepay, CanSwap, CanBack, RepaidAmount, WithStableRepaid,
         WithdrawnAmount, Ready, CumulateToLiquidityIndex, StableDebtAged, AgeDefined, BorrowSettles, RepayDefined,
         SwapDefined, WithdrawDefined, Sound;
    UpdatedDebts(r, t);
    if a.Swap? && a.mode.Stable? { SwappedAverage(r, UserStableDebt(a.user, t), a.user.stableBorrowRate, t); }
  }

  lemma ZeroChange(r: Reserve)
    requires Sound(r)
    ensures AverageStableRate(r.averageStableBorrowRate, r.totalStableDebt, 0, r.stableBorrowRate)
         == if r.totalStableDebt != 0 then r.averageStableBorrowRate else 0
  {
    hide Div;
    SameAverage(r.averageStableBorrowRate, r.totalStableDebt, r.stableBorrowRate);
  }

  /** The truncated average is the quotient rounded down, as long as truncation swallows what is negative. */
  lemma AverageRoundedDown(average: int, total: int, change: int, rate: int, weighted: int)
    requires total + change >= 0 && weighted == average * total + rate * change
    requires total + change > 0 ==> weighted > -(total + change)
    ensures RoundedDown(AverageStableRate(average, total, change, rate), weighted, total + change)
  {
    hide Div;
    var debt := total + change;
    if debt > 0 {
      var next := Div(weighted, debt);
      if weighted > 0 {
        DivTruncates(weighted, debt);
        assert (next + 1) * debt == next * debt + debt;
      } else {
        TruncatesToZero(weighted, debt);
      }
    }
  }

  lemma BorrowedAverage(r: Reserve, a: Action, t: int)
    requires Sound(r) && Enabled(r, a, t) && a.Borrow?
    ensures var average, now := r.averageStableBorrowRate, StableDebtNow(r, t);
            RoundedDown(AverageStableRate(average, now, a.amount, r.stableBorrowRate),
                        average * now + r.stableBorrowRate * a.amount, now + a.amount)
  {
    hide Sound, StableDebtNow, AverageStableRate, RoundedDown;
    SoundDebts(r);
    TotalStableNonNegative(r, t);
    MulLe(0, r.averageStableBorrowRate, StableDebtNow(r, t));
    MulLe(0, r.stableBorrowRate, a.amount);
    AverageRoundedDown(r.averageStableBorrowRate, StableDebtNow(r, t), a.amount, r.stableBorrowRate,
                       r.averageStableBorrowRate * StableDebtNow(r, t) + r.stableBorrowRate * a.amount);
  }

  lemma RepaidAverage(r: Reserve, repaid: int, userRate: int, t: int)
    requires Sound(r) && t >= r.lastUpdateTimestamp
    ensures var average, now := r.averageStableBorrowRate, StableDebtNow(r, t);
            RoundedDown(WithStableRepaid(r, repaid, userRate, t).averageStableBorrowRate,
                        average * now - userRate * repaid, now - repaid)
  {
    hide Sound, TotalStableDebt, RayMul, BroughtUpTo, AverageStableRate;
    var average, now := r.averageStableBorrowRate, StableDebtNow(r, t);
    NegatedProduct(userRate, repaid);
    if repaid <= now {
      AverageSign(average, now, repaid, userRate);
      if repaid == now || average * now - userRate * repaid > -(now - repaid) {
        AverageRoundedDown(average, now, Negated(repaid), userRate, average * now - userRate * repaid);
      }
    }
  }

  lemma SwapAverage(r: Reserve, mode: RateMode, user: User, t: int)
    requires Sound(r) && Enabled(r, Swap(mode, user), t)
    ensures mode.Stable? ==>
              var average, now, debt := r.averageStableBorrowRate, StableDebtNow(r, t), UserStableDebt(user, t);
              RoundedDown(AverageStableRate(average, now, Negated(debt), user.stableBorrowRate),
                          average * now - user.stableBorrowRate * debt, now - debt)
    ensures mode.Variable? ==>
              var average, debt := r.averageStableBorrowRate, VariableDebtBalance(r, user, t);
              RoundedDown(AverageStableRate(average, r.totalStableDebt, debt, r.stableBorrowRate),
                          average * r.totalStableDebt + r.stableBorrowRate * debt, r.totalStableDebt + debt)
  {
    hide Sound, StableDebtNow, UserStableDebt, VariableDebtBalance, AverageStableRate, RoundedDown, InVariableDebt;
    if mode.Stable? {
      var debt := UserStableDebt(user, t);
      NegatedProduct(user.stableBorrowRate, debt);
      AverageRoundedDown(r.averageStableBorrowRate, StableDebtNow(r, t), Negated(debt), user.stableBorrowRate,
                         r.averageStableBorrowRate * StableDebtNow(r, t) - user.stableBorrowRate * debt);
    } else {
      var debt := VariableDebtBalance(r, user, t);
      SoundDebts(r);
      MulLe(0, r.averageStableBorrowRate, r.totalStableDebt);
      MulLe(0, r.stableBorrowRate, debt);
      AverageRoundedDown(r.averageStableBorrowRate, r.totalStableDebt, debt, r.stableBorrowRate,
                         r.averageStableBorrowRate * r.totalStableDebt + r.stableBorrowRate * debt);
    }
  }
}
