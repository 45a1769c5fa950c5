/** Tokens are conserved between the acting user's wallet and the reserve. */
module Conservation {
  import opened WadRayMath
  import opened Interest
  import opened RateStrategy
  import opened ReserveModel
  import opened ReserveActions
  import opened DebtActions
  import opened RepayActions
  import opened UserModel
  import opened Runs

  /** What one user does on the user's own account; amounts may be MAX_UINT_AMOUNT. A repayment names the
      time its user record is computed for. */
  datatype Deal =
    | Supply(amount: int)
    | Redeem(amount: int)
    | Lend(amount: int, mode: RateMode, current: int)
    | PayBack(amount: int, mode: RateMode, current: int)

  datatype TimedDeal = TimedDeal(deal: Deal, time: int)

  function ActionOf(d: Deal, u: User): Action {
    match d
    case Supply(amount) => Deposit(amount)
    case Redeem(amount) => Withdraw(amount, u)
    case Lend(amount, mode, current) => Borrow(amount, mode, current)
    case PayBack(amount, mode, current) => Repay(amount, mode, u)
  }

  /** A stable borrow divides by the resulting debt. */
  predicate DealEnabled(r: Reserve, u: User, d: Deal, t: int) {
    Enabled(r, ActionOf(d, u), t) && (d.Lend? && d.mode.Stable? ==> UserStableDebt(u, t) + d.amount != 0)
  }

  function ReserveAfter(s: Strategy, r: Reserve, u: User, d: Deal, t: int): Reserve
    requires ValidStrategy(s) && Sound(r) && DealEnabled(r, u, d, t)
  {
    After(s, r, ActionOf(d, u), t)
  }

  function UserAfter(s: Strategy, r: Reserve, u: User, d: Deal, t: int): User
    requires ValidStrategy(s) && Sound(r) && DealEnabled(r, u, d, t)
  {
    var after := ReserveAfter(s, r, u, d, t);
    AfterHasIndexes(s, r, u, d, t);
    match d
    case Supply(amount) => UserAfterDeposit(u, amount, r, after, t)
    case Redeem(amount) => UserAfterWithdraw(u, amount, r, after, t)
    case Lend(amount, mode, current) => UserAfterBorrow(u, amount, mode, r, after, t, current)
    case PayBack(amount, mode, current) => UserAfterRepay(u, amount, mode, r, after, true, t, current)
  }

  lemma AfterHasIndexes(s: Strategy, r: Reserve, u: User, d: Deal, t: int)
    requires ValidStrategy(s) && Sound(r) && DealEnabled(r, u, d, t)
    ensures var after := ReserveAfter(s, r, u, d, t);
            Sound(after) && after.liquidityIndex != 0 && after.variableBorrowIndex != 0
  {
    hide Enabled, After;
    StepKeeps(s, r, ActionOf(d, u), t);
  }

  /** What the reserve's liquidity gains, as the reserve side computes it. */
  function Inflow(r: Reserve, u: User, d: Deal, t: int): int {
    match d
    case Supply(amount) => amount
    case Redeem(amount) => -WithdrawnAmount(r, u, amount, t)
    case Lend(amount, mode, current) => -amount
    case PayBack(amount, mode, current) => RepaidAmount(r, u, amount, mode, t)
  }

  /** What the wallet pays, as the user side computes it. */
  function Payment(r: Reserve, u: User, d: Deal, t: int): int {
    match d
    case Supply(amount) => amount
    case Redeem(amount) => -WithdrawnAmount(r, u, amount, t)
    case Lend(amount, mode, current) => -amount
    case PayBack(amount, mode, current) => UserRepaidAmount(u, amount, mode, r, current)
  }

  lemma LiquidityMoves(s: Strategy, r: Reserve, u: User, d: Deal, t: int)
    requires ValidStrategy(s) && Sound(r) && DealEnabled(r, u, d, t)
    ensures ReserveAfter(s, r, u, d, t).availableLiquidity == r.availableLiquidity + Inflow(r, u, d, t)
  {
    hide InterestRates, BorrowUtilization, SupplyUtilization, Updated, WithdrawnAmount, RepaidAmount, CanRepay, CanSwap,
         CanBack, Ready, Sound, WithStableBorrowed, WithVariableBorrowed, WithRepaid, TotalStableDebt, NormalizedDebt,
         RayMul;
  }

  lemma WalletMoves(s: Strategy, r: Reserve, u: User, d: Deal, t: int)
    requires ValidStrategy(s) && Sound(r) && DealEnabled(r, u, d, t)
    ensures UserAfter(s, r, u, d, t).walletBalance == u.walletBalance - Payment(r, u, d, t)
  {
    hide After, Sound, WithdrawnAmount, RepaidAmount, ATokenBalance, VariableDebtBalance, UserStableDebt,
         StableDebtTokenBalance, RayMul, RayDiv, UserStableRate;
  }

  /** How much more debt a full repayment pays for, at `current`, than it is booked for at the transaction. */
  function Leak(r: Reserve, u: User, d: Deal, t: int): int {
    if d.PayBack? && Abs(d.amount) == MAX_UINT_AMOUNT then
      if d.mode.Stable? then UserStableDebt(u, d.current) - UserStableDebt(u, t)
      else VariableDebtBalance(r, u, d.current) - VariableDebtBalance(r, u, t)
    else 0
  }

  /** Both sides resolve a full repayment independently, the reserve at the transaction and the user at
      `current`. Tokens are conserved exactly when the amount was given, or the debt did not change in
      between; every other deal conserves them. */
  lemma ConservedExactly(s: Strategy, r: Reserve, u: User, d: Deal, t: int)
    requires ValidStrategy(s) && Sound(r) && DealEnabled(r, u, d, t)
    ensures var before := u.walletBalance + r.availableLiquidity;
            var after := UserAfter(s, r, u, d, t).walletBalance + ReserveAfter(s, r, u, d, t).availableLiquidity;
            && after == before - Leak(r, u, d, t)
            && (after == before
                <==> (d.PayBack? && Abs(d.amount) == MAX_UINT_AMOUNT ==>
                        if d.mode.Stable? then UserStableDebt(u, d.current) == UserStableDebt(u, t)
                        else VariableDebtBalance(r, u, d.current) == VariableDebtBalance(r, u, t)))
  {
    hide After, Sound, UserAfter, ReserveAfter, DealEnabled, WithdrawnAmount, VariableDebtBalance, UserStableDebt;
    LiquidityMoves(s, r, u, d, t);
    WalletMoves(s, r, u, d, t);
  }

  /** A full repayment valued later than it is booked can only cost the wallet more. */
  lemma LateRepaymentNeverGains(r: Reserve, u: User, d: Deal, t: int)
    requires Sound(r) && d.PayBack? && r.lastUpdateTimestamp <= t <= d.current
    requires u.principalStableDebt >= 0 && u.stableBorrowRate >= 0 && u.stableRateLastUpdated <= t
    requires u.scaledVariableDebt >= 0
    ensures Leak(r, u, d, t) >= 0
  {
    hide RayMul, CalcCompoundedInterest, Sound;
    SoundRates(r);
    if d.mode.Stable? {
      var rate, last := u.stableBorrowRate, u.stableRateLastUpdated;
      CompoundedMonotone(rate, t - last, last, rate, d.current - last, last, CalcCompoundedInterest(rate, t, last),
                         CalcCompoundedInterest(rate, d.current, last));
      RayMulMonotone(u.principalStableDebt, CalcCompoundedInterest(rate, t, last),
                     u.principalStableDebt, CalcCompoundedInterest(rate, d.current, last));
      RayMulByIndex(u.principalStableDebt, CalcCompoundedInterest(rate, d.current, last));
    } else {
      var rate, last, index := r.variableBorrowRate, r.lastUpdateTimestamp, r.variableBorrowIndex;
      CompoundedMonotone(rate, t - last, last, rate, d.current - last, last, CalcCompoundedInterest(rate, t, last),
                         CalcCompoundedInterest(rate, d.current, last));
      RayMulMonotone(CalcCompoundedInterest(rate, t, last), index, CalcCompoundedInterest(rate, d.current, last),
                     index);
      var x, y := NormalizedDebt(rate, index, last, t), NormalizedDebt(rate, index, last, d.current);
      RayMulMonotone(u.scaledVariableDebt, x, u.scaledVariableDebt, y);
    }
  }

  lemma SoundRates(r: Reserve)
    requires Sound(r)
    ensures r.variableBorrowRate >= 0 && r.variableBorrowIndex >= 0
  {
    hide Div;
  }

  /** A user owing one ray at 100%, whose full repayment is booked at second 1 and valued at second 2: the
      wallet pays more than any reserve receives. */
  lemma LateFullRepaymentLeaks(s: Strategy, r: Reserve, u: User)
    requires u == User(0, 0, 0, 0, RAY, 0, 0, RAY, 1, false, 0)
    requires ValidStrategy(s) && Sound(r) && DealEnabled(r, u, PayBack(MAX_UINT_AMOUNT, Stable, 2), 1)
    ensures var d := PayBack(MAX_UINT_AMOUNT, Stable, 2);
            UserAfter(s, r, u, d, 1).walletBalance + ReserveAfter(s, r, u, d, 1).availableLiquidity
              < u.walletBalance + r.availableLiquidity
  {
    hide After, Sound, UserAfter, ReserveAfter, DealEnabled, WithdrawnAmount, VariableDebtBalance, UserStableDebt;
    LiquidityMoves(s, r, u, PayBack(MAX_UINT_AMOUNT, Stable, 2), 1);
    WalletMoves(s, r, u, PayBack(MAX_UINT_AMOUNT, Stable, 2), 1);
    OneSecondAtFullRate(u);
  }

  lemma OneSecondAtFullRate(u: User)
    requires u.principalStableDebt == RAY && u.stableBorrowRate == RAY && u.stableRateLastUpdated == 1
    ensures UserStableDebt(u, 1) == RAY < UserStableDebt(u, 2)
  {
    hide RayMul;
    CompoundedAtLeastLinear(RAY, 2, 1);
    RayMulByRay(CalcCompoundedInterest(RAY, 2, 1));
  }

  // ---------- Runs ----------

  ghost predicate IsDealing(s: Strategy, r: Reserve, u: User, deals: seq<TimedDeal>)
    requires ValidStrategy(s) && Sound(r)
    decreases |deals|
  {
    deals == [] ||
    (var d, t := deals[0].deal, deals[0].time;
     && DealEnabled(r, u, d, t)
     && (AfterHasIndexes(s, r, u, d, t);
         IsDealing(s, ReserveAfter(s, r, u, d, t), UserAfter(s, r, u, d, t), deals[1..])))
  }

  /** What wallet and reserve hold together at the end. */
  ghost function HeldAtEnd(s: Strategy, r: Reserve, u: User, deals: seq<TimedDeal>): int
    requires ValidStrategy(s) && Sound(r) && IsDealing(s, r, u, deals)
    decreases |deals|
  {
    if deals == [] then u.walletBalance + r.availableLiquidity
    else
      var d, t := deals[0].deal, deals[0].time;
      AfterHasIndexes(s, r, u, d, t);
      HeldAtEnd(s, ReserveAfter(s, r, u, d, t), UserAfter(s, r, u, d, t), deals[1..])
  }

  /** What all full repayments along the way leak. */
  ghost function LeakOf(s: Strategy, r: Reserve, u: User, deals: seq<TimedDeal>): int
    requires ValidStrategy(s) && Sound(r) && IsDealing(s, r, u, deals)
    decreases |deals|
  {
    if deals == [] then 0
    else
      var d, t := deals[0].deal, deals[0].time;
      AfterHasIndexes(s, r, u, d, t);
      Leak(r, u, d, t) + LeakOf(s, ReserveAfter(s, r, u, d, t), UserAfter(s, r, u, d, t), deals[1..])
  }

  /** Every full repayment is valued at the very time it is booked. */
  predicate Prompt(deals: seq<TimedDeal>) {
    forall k | 0 <= k < |deals| ::
      deals[k].deal.PayBack? && Abs(deals[k].deal.amount) == MAX_UINT_AMOUNT ==> deals[k].deal.current == deals[k].time
  }

  /** Through any mix of deals, each on the records the previous one leaves, wallet and available liquidity
      together lose exactly what full repayments leak. If those are prompt, full amounts included, the two
      together stay what they were. */
  lemma {:induction false} TokensConserved(s: Strategy, r: Reserve, u: User, deals: seq<TimedDeal>)
    requires ValidStrategy(s) && Sound(r) && IsDealing(s, r, u, deals)
    ensures HeldAtEnd(s, r, u, deals) == u.walletBalance + r.availableLiquidity - LeakOf(s, r, u, deals)
    ensures Prompt(deals) ==> LeakOf(s, r, u, deals) == 0
    decreases |deals|
  {
    hide Sound, UserAfter, ReserveAfter, DealEnabled, VariableDebtBalance, UserStableDebt;
    if deals != [] {
      var d, t, rest := deals[0].deal, deals[0].time, deals[1..];
      AfterHasIndexes(s, r, u, d, t);
      ConservedExactly(s, r, u, d, t);
      TokensConserved(s, ReserveAfter(s, r, u, d, t), UserAfter(s, r, u, d, t), rest);
      assert forall k | 0 <= k < |rest| :: rest[k] == deals[k + 1];
    }
  }
}
