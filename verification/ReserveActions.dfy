/** The reserve record after each action, and that every action keeps the record valid. */
module ReserveActions {
  import opened WadRayMath
  import opened Interest
  import opened RateStrategy
  import opened RateFunding
  import opened ReserveModel

  /** A record whose debts are in place but whose utilization and rates still have to be derived. */
  ghost predicate Ready(e: Reserve, t: int) {
    && RAY <= e.liquidityIndex && RAY <= e.variableBorrowIndex
    && 0 <= e.unbacked && 0 <= e.averageStableBorrowRate && 0 <= e.marketStableRate
    && 0 <= e.principalStableDebt <= e.totalStableDebt
    && 0 <= e.scaledVariableDebt <= e.totalVariableDebt && (e.scaledVariableDebt == 0 ==> e.totalVariableDebt == 0)
    && e.totalStableDebtLastUpdated <= t
    && 0 <= e.reserveFactor <= PERCENTAGE_FACTOR && 0 <= e.accruedToTreasuryScaled
  }

  lemma StableDebtGrows(principal: int, rate: int, last: int, t1: int, t2: int)
    requires principal >= 0 && rate >= 0 && last <= t1 <= t2
    ensures principal <= TotalStableDebt(principal, rate, last, t1) <= TotalStableDebt(principal, rate, last, t2)
  {
    CompoundedMonotone(rate, t1 - last, last, rate, t2 - last, last, CalcCompoundedInterest(rate, t1, last),
                       CalcCompoundedInterest(rate, t2, last));
    RayMulByIndex(principal, CalcCompoundedInterest(rate, t1, last));
    RayMulMonotone(CalcCompoundedInterest(rate, t1, last), principal, CalcCompoundedInterest(rate, t2, last),
                   principal);
  }

  lemma ScaledDebtUp(scaled: int, index: int)
    requires scaled >= 0 && index >= RAY
    ensures scaled <= RayMul(scaled, index)
    ensures RayMul(0, index) == 0
  {
    RayMulByIndex(scaled, index);
    RayMulNearest(0, index);
  }

  /** Interest only ever adds debt, so an update never mints a negative amount to the treasury. */
  lemma DebtNeverShrinks(b: Reserve, t: int)
    requires Sound(b) && t >= b.lastUpdateTimestamp
    ensures DebtAccrued(b, Updated(b, t)) >= 0
    ensures AmountToMint(b, Updated(b, t)) >= 0
  {
    hide Div;
    IndexesGrow(b, t);
    var i, j := b.variableBorrowIndex, NextVariableBorrowIndex(b, t);
    RayMulMonotone(b.scaledVariableDebt, i, b.scaledVariableDebt, j);
    StableDebtGrows(b.principalStableDebt, b.averageStableBorrowRate, b.totalStableDebtLastUpdated,
                    b.lastUpdateTimestamp, t);
    RayMulCommutes(b.principalStableDebt,
                   CalcCompoundedInterest(b.averageStableBorrowRate, b.lastUpdateTimestamp,
                                          b.totalStableDebtLastUpdated));
    var accrued := DebtAccrued(b, Updated(b, t));
    MulLe(0, accrued, b.reserveFactor);
    PercentMulNearest(accrued, b.reserveFactor);
  }

  lemma RayMulCommutes(a: int, b: int)
    ensures RayMul(a, b) == RayMul(b, a)
  {
    assert a * b == b * a;
  }

  lemma UpdatedReady(b: Reserve, t: int)
    requires Sound(b) && t >= b.lastUpdateTimestamp
    ensures Ready(Updated(b, t), t)
    ensures Updated(b, t).liquidityIndex >= b.liquidityIndex
    ensures Updated(b, t).variableBorrowIndex >= b.variableBorrowIndex
    ensures Updated(b, t).accruedToTreasuryScaled >= b.accruedToTreasuryScaled
  {
    hide Div;
    IndexesGrow(b, t);
    StableDebtGrows(b.principalStableDebt, b.averageStableBorrowRate, b.totalStableDebtLastUpdated, t, t);
    ScaledDebtUp(b.scaledVariableDebt, NextVariableBorrowIndex(b, t));
    var m := AmountToMint(b, Updated(b, t));
    if m > 0 { RayDivMonotone(m, NextLiquidityIndex(b, t), m, NextLiquidityIndex(b, t)); }
  }

  lemma SettledValid(s: Strategy, e: Reserve, available: int, t: int, stableMoved: bool)
    requires ValidStrategy(s) && Ready(e, t) && available >= 0
    ensures Sound(Settled(s, e, available, t, stableMoved))
  {
    hide InterestRates, BorrowUtilization, SupplyUtilization, UncappedSupplyUtilization;
    RatesNonNegative(s, e.marketStableRate, e.totalStableDebt, e.totalVariableDebt, e.averageStableBorrowRate,
                     available, available + e.unbacked);
  }

  // ---------- Deposit, withdraw, bridge ----------

  function AfterDeposit(s: Strategy, b: Reserve, amount: int, t: int): Reserve
    requires ValidStrategy(s) && Sound(b) && t >= b.lastUpdateTimestamp && amount >= 0
  {
    UpdatedReady(b, t);
    Settled(s, Updated(b, t), b.availableLiquidity + amount, t, false)
  }

  function WithdrawnAmount(b: Reserve, u: User, amount: int, t: int): int {
    if amount == MAX_UINT_AMOUNT then ATokenBalance(b, u, t) else amount
  }

  /** No divisor is zero once the liquidity is gone, which is always so if it was there. */
  predicate WithdrawDefined(s: Strategy, b: Reserve, u: User, amount: int, t: int)
    requires Sound(b) && t >= b.lastUpdateTimestamp
    ensures WithdrawnAmount(b, u, amount, t) <= b.availableLiquidity ==> WithdrawDefined(s, b, u, amount, t)
  {
    UpdatedReady(b, t);
    Settleable(s, Updated(b, t), b.availableLiquidity - WithdrawnAmount(b, u, amount, t))
  }

  function AfterWithdraw(s: Strategy, b: Reserve, u: User, amount: int, t: int): Reserve
    requires ValidStrategy(s) && Sound(b) && t >= b.lastUpdateTimestamp && WithdrawDefined(s, b, u, amount, t)
  {
    Settled(s, Updated(b, t), b.availableLiquidity - WithdrawnAmount(b, u, amount, t), t, false)
  }

  function WithUnbackedMinted(b: Reserve, amount: int, t: int): Reserve
    requires Sound(b) && t >= b.lastUpdateTimestamp
  {
    Updated(b, t).(
      unbacked := b.unbacked + amount,
      averageStableBorrowRate := AverageStableRate(b.averageStableBorrowRate, b.totalStableDebt, 0, b.stableBorrowRate))
  }

  function AfterMintUnbacked(s: Strategy, b: Reserve, amount: int, t: int): Reserve
    requires ValidStrategy(s) && Sound(b) && t >= b.lastUpdateTimestamp && amount >= 0
  {
    UpdatedReady(b, t);
    Settled(s, WithUnbackedMinted(b, amount, t), b.availableLiquidity, t, false)
  }

  function BackingAmount(b: Reserve, amount: int): int {
    if amount < b.unbacked then amount else b.unbacked
  }

  function PremiumToProtocol(fee: int, bridgeProtocolFee: int): int {
    PercentMul(fee, bridgeProtocolFee)
  }

  function CumulateToLiquidityIndex(liquidityIndex: int, totalLiquidity: int, amount: int): int
    requires totalLiquidity != 0
  {
    RayMul(RayDiv(WadToRay(amount), WadToRay(totalLiquidity)) + RAY, liquidityIndex)
  }

  /** Conditions under which backing is defined: someone holds aTokens to receive the fee, and the
      protocol's part is at most all of it. */
  predicate CanBack(scaledATokenSupply: int, amount: int, fee: int, bridgeProtocolFee: int) {
    scaledATokenSupply > 0 && amount >= 0 && fee >= 0 && 0 <= bridgeProtocolFee <= PERCENTAGE_FACTOR
  }

  /** The reserve with the fee shared out and the backing booked, before utilization and rates. */
  function WithUnbackedBacked(scaledATokenSupply: int, amount: int, fee: int, bridgeProtocolFee: int, b: Reserve,
                              t: int): Reserve
    requires Sound(b) && t >= b.lastUpdateTimestamp
    requires CanBack(scaledATokenSupply, amount, fee, bridgeProtocolFee)
  {
    var u := Updated(b, t);
    UpdatedReady(b, t);
    BackedIndexGrows(u.liquidityIndex, scaledATokenSupply, fee, bridgeProtocolFee);
    var premiumToProtocol := PremiumToProtocol(fee, bridgeProtocolFee);
    var index :=
      CumulateToLiquidityIndex(u.liquidityIndex, RayMul(scaledATokenSupply, u.liquidityIndex), fee - premiumToProtocol);
    u.(
      liquidityIndex := index,
      accruedToTreasuryScaled := u.accruedToTreasuryScaled + RayDiv(premiumToProtocol, index),
      unbacked := b.unbacked - BackingAmount(b, amount),
      averageStableBorrowRate := AverageStableRate(b.averageStableBorrowRate, b.totalStableDebt, 0, b.stableBorrowRate))
  }

  function AfterBackUnbacked(s: Strategy, scaledATokenSupply: int, amount: int, fee: int, bridgeProtocolFee: int,
                             b: Reserve, t: int): Reserve
    requires ValidStrategy(s) && Sound(b) && t >= b.lastUpdateTimestamp
    requires CanBack(scaledATokenSupply, amount, fee, bridgeProtocolFee)
  {
    UpdatedReady(b, t);
    Settled(s, WithUnbackedBacked(scaledATokenSupply, amount, fee, bridgeProtocolFee, b, t),
            b.availableLiquidity + BackingAmount(b, amount) + fee, t, false)
  }

  lemma PremiumWithinFee(fee: int, bridgeProtocolFee: int)
    requires fee >= 0 && 0 <= bridgeProtocolFee <= PERCENTAGE_FACTOR
    ensures 0 <= PremiumToProtocol(fee, bridgeProtocolFee) <= fee
  {
    MulLe(0, fee, bridgeProtocolFee);
    MulLe(bridgeProtocolFee, PERCENTAGE_FACTOR, fee);
    PercentMulNearest(fee, bridgeProtocolFee);
  }

  lemma BackedIndexGrows(index: int, supply: int, fee: int, bridgeProtocolFee: int)
    requires index >= RAY && supply > 0 && fee >= 0 && 0 <= bridgeProtocolFee <= PERCENTAGE_FACTOR
    ensures RayMul(supply, index) >= supply
    ensures CumulateToLiquidityIndex(index, RayMul(supply, index), fee - PremiumToProtocol(fee, bridgeProtocolFee))
            >= index
    ensures var toSuppliers := fee - PremiumToProtocol(fee, bridgeProtocolFee);
            var next := CumulateToLiquidityIndex(index, RayMul(supply, index), toSuppliers);
            RayDiv(PremiumToProtocol(fee, bridgeProtocolFee), next) >= 0
  {
    PremiumWithinFee(fee, bridgeProtocolFee);
    RayMulByIndex(supply, index);
    var n := WadToRay(fee - PremiumToProtocol(fee, bridgeProtocolFee));
    var d := WadToRay(RayMul(supply, index));
    RayDivMonotone(n, d, n, d);
    RayMulByIndex(index, RayDiv(n, d) + RAY);
    var next := RayMul(RayDiv(n, d) + RAY, index);
    var p := PremiumToProtocol(fee, bridgeProtocolFee);
    RayDivMonotone(p, next, p, next);
  }

  lemma AverageNonNegative(average: int, total: int, amount: int, rate: int)
    requires average >= 0 && total >= 0 && amount >= 0 && rate >= 0
    ensures AverageStableRate(average, total, amount, rate) >= 0
  {
    MulLe(0, average, total);
    MulLe(0, rate, amount);
  }

  lemma DepositValid(s: Strategy, b: Reserve, amount: int, t: int)
    requires ValidStrategy(s) && Sound(b) && t >= b.lastUpdateTimestamp && amount >= 0
    ensures Sound(AfterDeposit(s, b, amount, t))
  {
    hide Updated, Settled, Ready, Sound;
    SoundAmounts(b);
    UpdatedReady(b, t);
    SettledValid(s, Updated(b, t), b.availableLiquidity + amount, t, false);
  }

  lemma WithdrawValid(s: Strategy, b: Reserve, u: User, amount: int, t: int)
    requires ValidStrategy(s) && Sound(b) && t >= b.lastUpdateTimestamp
    requires WithdrawnAmount(b, u, amount, t) <= b.availableLiquidity
    ensures Sound(AfterWithdraw(s, b, u, amount, t))
  {
    hide Updated, Settled, WithdrawnAmount, Ready, Sound;
    SoundAmounts(b);
    UpdatedReady(b, t);
    SettledValid(s, Updated(b, t), b.availableLiquidity - WithdrawnAmount(b, u, amount, t), t, false);
  }

  /** Nothing in the calculation holds a withdrawal back: it keeps the reserve sound exactly if the liquidity is
      there. */
  lemma WithdrawValidExactly(s: Strategy, b: Reserve, u: User, amount: int, t: int)
    requires ValidStrategy(s) && Sound(b) && t >= b.lastUpdateTimestamp && WithdrawDefined(s, b, u, amount, t)
    ensures Sound(AfterWithdraw(s, b, u, amount, t)) <==> WithdrawnAmount(b, u, amount, t) <= b.availableLiquidity
  {
    hide InterestRates, BorrowUtilization, SupplyUtilization, Updated, WithdrawnAmount, WithdrawDefined, RatesDefined;
    if WithdrawnAmount(b, u, amount, t) <= b.availableLiquidity { WithdrawValid(s, b, u, amount, t); }
  }

  lemma MintUnbackedValid(s: Strategy, b: Reserve, amount: int, t: int)
    requires ValidStrategy(s) && Sound(b) && t >= b.lastUpdateTimestamp && amount >= 0
    ensures Sound(AfterMintUnbacked(s, b, amount, t))
  {
    hide Updated, Settled, WithUnbackedMinted, Ready, Sound;
    SoundAmounts(b);
    MintedReady(b, amount, t);
    SettledValid(s, WithUnbackedMinted(b, amount, t), b.availableLiquidity, t, false);
  }

  lemma MintedReady(b: Reserve, amount: int, t: int)
    requires Sound(b) && t >= b.lastUpdateTimestamp && amount >= 0
    ensures Ready(WithUnbackedMinted(b, amount, t), t)
  {
    hide Updated, AverageStableRate;
    AverageNonNegative(b.averageStableBorrowRate, b.totalStableDebt, 0, b.stableBorrowRate);
    UpdatedReady(b, t);
  }

  lemma BackUnbackedValid(s: Strategy, supply: int, amount: int, fee: int, bridgeProtocolFee: int, b: Reserve, t: int)
    requires ValidStrategy(s) && Sound(b) && t >= b.lastUpdateTimestamp
    requires CanBack(supply, amount, fee, bridgeProtocolFee)
    ensures var r := AfterBackUnbacked(s, supply, amount, fee, bridgeProtocolFee, b, t);
            && Sound(r)
            && r.liquidityIndex >= Updated(b, t).liquidityIndex
            && r.accruedToTreasuryScaled >= Updated(b, t).accruedToTreasuryScaled
  {
    hide Updated, WithUnbackedBacked, InterestRates, BorrowUtilization, SupplyUtilization, BackingAmount, Ready, Sound;
    SoundAmounts(b);
    BackedReady(supply, amount, fee, bridgeProtocolFee, b, t);
    SettledValid(s, WithUnbackedBacked(supply, amount, fee, bridgeProtocolFee, b, t),
                 b.availableLiquidity + BackingAmount(b, amount) + fee, t, false);
  }

  lemma SoundAmounts(b: Reserve)
    requires Sound(b)
    ensures b.availableLiquidity >= 0 && b.unbacked >= 0
    ensures forall amount :: amount >= 0 ==> 0 <= BackingAmount(b, amount) <= b.unbacked
  {
    hide Div;
  }

  lemma BackedReady(supply: int, amount: int, fee: int, bridgeProtocolFee: int, b: Reserve, t: int)
    requires Sound(b) && t >= b.lastUpdateTimestamp
    requires CanBack(supply, amount, fee, bridgeProtocolFee)
    ensures var e := WithUnbackedBacked(supply, amount, fee, bridgeProtocolFee, b, t);
            && Ready(e, t)
            && e.liquidityIndex >= Updated(b, t).liquidityIndex
            && e.accruedToTreasuryScaled >= Updated(b, t).accruedToTreasuryScaled
  {
    hide Updated, AverageStableRate, RayMul, RayDiv, PremiumToProtocol, CumulateToLiquidityIndex;
    AverageNonNegative(b.averageStableBorrowRate, b.totalStableDebt, 0, b.stableBorrowRate);
    UpdatedReady(b, t);
    BackedIndexGrows(Updated(b, t).liquidityIndex, supply, fee, bridgeProtocolFee);
  }
}
