/** The calculations in their own form: every action allocates an empty reserve record and fills it in
    field by field. Each method is proved to leave the record that ReserveActions, DebtActions and
    RepayActions specify. */
module ReserveRecords {
  import opened WadRayMath
  import opened Interest
  import opened RateStrategy
  import opened ReserveModel
  import opened ReserveActions
  import opened DebtActions
  import opened RepayActions

  /** A record under construction: fields hold arbitrary values until they are assigned. */
  class ReserveData {
    var reserveFactor: int
    var availableLiquidity: int
    var totalLiquidity: int
    var totalStableDebt: int
    var totalVariableDebt: int
    var principalStableDebt: int
    var scaledVariableDebt: int
    var averageStableBorrowRate: int
    var variableBorrowRate: int
    var stableBorrowRate: int
    var supplyUtilizationRate: int
    var borrowUtilizationRate: int
    var liquidityIndex: int
    var variableBorrowIndex: int
    var marketStableRate: int
    var lastUpdateTimestamp: int
    var totalStableDebtLastUpdated: int
    var liquidityRate: int
    var unbacked: int
    var accruedToTreasuryScaled: int

    function View(): Reserve
      reads this
    {
      Reserve(reserveFactor, availableLiquidity, totalLiquidity, totalStableDebt, totalVariableDebt,
              principalStableDebt, scaledVariableDebt, averageStableBorrowRate, variableBorrowRate, stableBorrowRate,
              supplyUtilizationRate, borrowUtilizationRate, liquidityIndex, variableBorrowIndex, marketStableRate,
              lastUpdateTimestamp, totalStableDebtLastUpdated, liquidityRate, unbacked, accruedToTreasuryScaled)
    }
  }

  method UpdateState(before: ReserveData, expected: ReserveData, txTimestamp: int)
    requires before != expected && NextLiquidityIndex(before.View(), txTimestamp) != 0
    modifies expected
    ensures expected.View() == Filled(old(expected.View()), BroughtUpTo(before.View(), txTimestamp))
  {
    hide RayMul, RayDiv, PercentMul, CalcCompoundedInterest, CalcLinearInterest;
    var b := before.View();
    expected.liquidityIndex := NextLiquidityIndex(b, txTimestamp);
    expected.variableBorrowIndex := NextVariableBorrowIndex(b, txTimestamp);
    expected.totalStableDebt :=
      TotalStableDebt(before.principalStableDebt, before.averageStableBorrowRate, before.totalStableDebtLastUpdated,
                      txTimestamp);
    expected.totalVariableDebt := RayMul(before.scaledVariableDebt, expected.variableBorrowIndex);
    expected.scaledVariableDebt := before.scaledVariableDebt;
    expected.principalStableDebt := before.principalStableDebt;
    expected.accruedToTreasuryScaled := AccruedToTreasury(b, expected.View());
  }

  lemma UpdatedParts(b: Reserve, t: int)
    requires Sound(b) && t >= b.lastUpdateTimestamp
    ensures NextLiquidityIndex(b, t) != 0
    ensures var u := BroughtUpTo(b, t);
            && u == Updated(b, t)
            && u.totalStableDebt >= 0 && u.totalVariableDebt >= 0
            && u == Filled(b, u)
    ensures b.availableLiquidity >= 0 && b.unbacked >= 0
  {
    hide RayMul, RayDiv, TotalStableDebt, AccruedToTreasury;
    IndexesGrow(b, t);
    UpdatedReady(b, t);
  }

  method UpdateLiquidityAndUtils(before: ReserveData, expected: ReserveData, liquidityAdded: int, liquidityTaken: int)
    requires before != expected
    requires Measurable(expected.View(), before.availableLiquidity + liquidityAdded - liquidityTaken)
    modifies expected
    ensures expected.View()
            == Measured(old(expected.View()), before.availableLiquidity + liquidityAdded - liquidityTaken)
  {
    hide BorrowUtilization, SupplyUtilization;
    expected.availableLiquidity := before.availableLiquidity + liquidityAdded - liquidityTaken;
    expected.totalLiquidity := expected.availableLiquidity + expected.unbacked;
    expected.borrowUtilizationRate, expected.supplyUtilizationRate := CalcExpectedUtilizationRates(
      expected.totalStableDebt, expected.totalVariableDebt, expected.availableLiquidity, expected.totalLiquidity);
  }

  method UpdateTotalLiquidityAndUtil(expected: ReserveData)
    requires Measurable(expected.View(), expected.availableLiquidity)
    modifies expected
    ensures expected.View() == Measured(old(expected.View()), old(expected.availableLiquidity))
  {
    hide BorrowUtilization, SupplyUtilization;
    expected.totalLiquidity := expected.availableLiquidity + expected.unbacked;
    expected.borrowUtilizationRate, expected.supplyUtilizationRate := CalcExpectedUtilizationRates(
      expected.totalStableDebt, expected.totalVariableDebt, expected.availableLiquidity, expected.totalLiquidity);
  }

  /** x and e agree on everything that utilization and rates are derived from, and on what an action
      carries along. */
  ghost predicate Agree(x: Reserve, e: Reserve) {
    && x.reserveFactor == e.reserveFactor && x.unbacked == e.unbacked
    && x.totalStableDebt == e.totalStableDebt && x.totalVariableDebt == e.totalVariableDebt
    && x.principalStableDebt == e.principalStableDebt && x.scaledVariableDebt == e.scaledVariableDebt
    && x.averageStableBorrowRate == e.averageStableBorrowRate
    && x.liquidityIndex == e.liquidityIndex && x.variableBorrowIndex == e.variableBorrowIndex
    && x.accruedToTreasuryScaled == e.accruedToTreasuryScaled
  }

  method SetRates(s: Strategy, before: ReserveData, expected: ReserveData, totalStableDebt: int, totalVariableDebt: int)
    requires ValidStrategy(s) && before != expected
    requires RatesDefined(s, totalStableDebt, totalVariableDebt, expected.availableLiquidity, expected.totalLiquidity)
    modifies expected`liquidityRate, expected`stableBorrowRate, expected`variableBorrowRate
    ensures Rates(expected.liquidityRate, expected.stableBorrowRate, expected.variableBorrowRate)
         == InterestRates(s, before.marketStableRate, totalStableDebt, totalVariableDebt,
                          expected.averageStableBorrowRate, expected.availableLiquidity, expected.totalLiquidity)
  {
    hide InterestRates;
    var rates := CalcExpectedInterestRates(s, before.marketStableRate, totalStableDebt, totalVariableDebt,
      expected.averageStableBorrowRate, expected.availableLiquidity, expected.totalLiquidity);
    expected.liquidityRate, expected.stableBorrowRate, expected.variableBorrowRate :=
      rates.liquidityRate, rates.stableBorrowRate, rates.variableBorrowRate;
  }

  /** The three fields that the source leaves to be read back from the chain before the next action. */
  method Complete(before: ReserveData, expected: ReserveData, txTimestamp: int, stableMoved: bool)
    requires before != expected
    modifies expected`marketStableRate, expected`lastUpdateTimestamp, expected`totalStableDebtLastUpdated
    ensures expected.View()
            == Stamped(old(expected.View()).(marketStableRate := before.marketStableRate,
                                             totalStableDebtLastUpdated := before.totalStableDebtLastUpdated),
                       txTimestamp, stableMoved)
  {
    expected.marketStableRate := before.marketStableRate;
    expected.lastUpdateTimestamp := txTimestamp;
    expected.totalStableDebtLastUpdated := if stableMoved then txTimestamp else before.totalStableDebtLastUpdated;
  }

  /** The common end of the actions: rates, then liquidity and utilization once more. */
  method SetRatesAndTotals(s: Strategy, before: ReserveData, expected: ReserveData, txTimestamp: int, stableMoved: bool,
                           ghost e: Reserve)
    requires ValidStrategy(s) && before != expected && Agree(expected.View(), e)
    requires Settleable(s, e, expected.availableLiquidity)
    requires expected.totalLiquidity == expected.availableLiquidity + expected.unbacked
    requires e.marketStableRate == before.marketStableRate
    requires e.totalStableDebtLastUpdated == before.totalStableDebtLastUpdated
    modifies expected
    ensures expected.View() == Settled(s, e, old(expected.availableLiquidity), txTimestamp, stableMoved)
  {
    hide InterestRates, BorrowUtilization, SupplyUtilization, ValidStrategy;
    SetRates(s, before, expected, expected.totalStableDebt, expected.totalVariableDebt);
    UpdateTotalLiquidityAndUtil(expected);
    Complete(before, expected, txTimestamp, stableMoved);
  }

  /** The common start: an empty record, the state brought up to date, liquidity moved. */
  method Opened(before: ReserveData, txTimestamp: int, liquidityAdded: int, liquidityTaken: int)
    returns (expected: ReserveData)
    requires Sound(before.View()) && txTimestamp >= before.lastUpdateTimestamp
    requires Measurable(Updated(before.View(), txTimestamp),
                        before.availableLiquidity + liquidityAdded - liquidityTaken)
    ensures fresh(expected)
    ensures expected.availableLiquidity == before.availableLiquidity + liquidityAdded - liquidityTaken
    ensures expected.totalLiquidity == expected.availableLiquidity + expected.unbacked
    ensures Agree(expected.View().(averageStableBorrowRate := before.averageStableBorrowRate),
                  Updated(before.View(), txTimestamp))
  {
    hide BorrowUtilization, SupplyUtilization, BroughtUpTo, NextLiquidityIndex, Sound;
    UpdatedParts(before.View(), txTimestamp);
    expected := new ReserveData;
    expected.unbacked := before.unbacked;
    expected.reserveFactor := before.reserveFactor;
    UpdateState(before, expected, txTimestamp);
    UpdateLiquidityAndUtils(before, expected, liquidityAdded, liquidityTaken);
  }

  method CalcExpectedReserveDataAfterDeposit(s: Strategy, amountDeposited: int, before: ReserveData, txTimestamp: int)
    returns (expected: ReserveData)
    requires ValidStrategy(s) && Sound(before.View()) && txTimestamp >= before.lastUpdateTimestamp
    requires amountDeposited >= 0
    ensures fresh(expected) && expected.View() == AfterDeposit(s, before.View(), amountDeposited, txTimestamp)
  {
    hide InterestRates, BorrowUtilization, SupplyUtilization, BroughtUpTo, NextLiquidityIndex, Sound, Settled;
    ghost var b := before.View();
    UpdatedParts(b, txTimestamp);
    expected := Opened(before, txTimestamp, amountDeposited, 0);
    expected.averageStableBorrowRate := before.averageStableBorrowRate;
    SetRatesAndTotals(s, before, expected, txTimestamp, false, Updated(b, txTimestamp));
  }

  method CalcExpectedReserveDataAfterWithdraw(s: Strategy, amountWithdrawn: int, before: ReserveData, user: User,
                                              txTimestamp: int)
    returns (expected: ReserveData)
    requires ValidStrategy(s) && Sound(before.View()) && txTimestamp >= before.lastUpdateTimestamp
    requires WithdrawDefined(s, before.View(), user, amountWithdrawn, txTimestamp)
    ensures fresh(expected) && expected.View() == AfterWithdraw(s, before.View(), user, amountWithdrawn, txTimestamp)
  {
    hide InterestRates, BorrowUtilization, SupplyUtilization, BroughtUpTo, NextLiquidityIndex, Sound, Settled,
         ATokenBalance;
    ghost var b := before.View();
    UpdatedParts(b, txTimestamp);
    var amount := amountWithdrawn;
    if amount == MAX_UINT_AMOUNT {
      amount := ATokenBalance(before.View(), user, txTimestamp);
    }
    expected := Opened(before, txTimestamp, 0, amount);
    expected.averageStableBorrowRate := before.averageStableBorrowRate;
    SetRatesAndTotals(s, before, expected, txTimestamp, false, Updated(b, txTimestamp));
  }

  method CalcExpectedReserveDataAfterMintUnbacked(s: Strategy, amountMinted: int, before: ReserveData, txTimestamp: int)
    returns (expected: ReserveData)
    requires ValidStrategy(s) && Sound(before.View()) && txTimestamp >= before.lastUpdateTimestamp && amountMinted >= 0
    ensures fresh(expected) && expected.View() == AfterMintUnbacked(s, before.View(), amountMinted, txTimestamp)
  {
    hide InterestRates, BorrowUtilization, SupplyUtilization, BroughtUpTo, NextLiquidityIndex, Sound, Settled,
         AverageStableRate;
    ghost var b := before.View();
    UpdatedParts(b, txTimestamp);
    expected := new ReserveData;
    expected.reserveFactor := before.reserveFactor;
    UpdateState(before, expected, txTimestamp);
    expected.unbacked := before.unbacked + amountMinted;
    UpdateLiquidityAndUtils(before, expected, 0, 0);
    expected.averageStableBorrowRate :=
      AverageStableRate(before.averageStableBorrowRate, before.totalStableDebt, 0, before.stableBorrowRate);
    SetRatesAndTotals(s, before, expected, txTimestamp, false, WithUnbackedMinted(b, amountMinted, txTimestamp));
  }

  /** The fee's two parts: suppliers get theirs through the index, and only then the protocol's part is
      scaled, by the new index. */
  method DistributeFee(scaledATokenSupply: int, fee: int, bridgeProtocolFee: int, expected: ReserveData)
    requires RayMul(scaledATokenSupply, expected.liquidityIndex) != 0
    requires CumulateToLiquidityIndex(expected.liquidityIndex, RayMul(scaledATokenSupply, expected.liquidityIndex),
                                      fee - PremiumToProtocol(fee, bridgeProtocolFee)) != 0
    modifies expected`liquidityIndex, expected`accruedToTreasuryScaled
    ensures expected.liquidityIndex ==
              CumulateToLiquidityIndex(old(expected.liquidityIndex),
                                       RayMul(scaledATokenSupply, old(expected.liquidityIndex)),
                                       fee - PremiumToProtocol(fee, bridgeProtocolFee))
    ensures expected.accruedToTreasuryScaled ==
              old(expected.accruedToTreasuryScaled)
                + RayDiv(PremiumToProtocol(fee, bridgeProtocolFee), expected.liquidityIndex)
  {
    hide RayMul, RayDiv, PercentMul, CumulateToLiquidityIndex;
    var premiumToProtocol := PercentMul(fee, bridgeProtocolFee);
    var premiumToLP := fee - premiumToProtocol;
    var totalSupply := RayMul(scaledATokenSupply, expected.liquidityIndex);
    expected.liquidityIndex := CumulateToLiquidityIndex(expected.liquidityIndex, totalSupply, premiumToLP);
    expected.accruedToTreasuryScaled :=
      expected.accruedToTreasuryScaled + RayDiv(premiumToProtocol, expected.liquidityIndex);
  }

  method CalcExpectedReserveDataAfterBackUnbacked(s: Strategy, scaledATokenSupply: int, amount: int, fee: int,
                                                  bridgeProtocolFee: int, before: ReserveData, txTimestamp: int)
    returns (expected: ReserveData)
    requires ValidStrategy(s) && Sound(before.View()) && txTimestamp >= before.lastUpdateTimestamp
    requires CanBack(scaledATokenSupply, amount, fee, bridgeProtocolFee)
    ensures fresh(expected)
    ensures expected.View() ==
              AfterBackUnbacked(s, scaledATokenSupply, amount, fee, bridgeProtocolFee, before.View(), txTimestamp)
  {
    hide InterestRates, BorrowUtilization, SupplyUtilization, BroughtUpTo, NextLiquidityIndex, Sound, Settled,
         AverageStableRate, RayMul, RayDiv, PremiumToProtocol, CumulateToLiquidityIndex, Ready;
    ghost var b := before.View();
    UpdatedParts(b, txTimestamp);
    BackedParts(scaledATokenSupply, amount, fee, bridgeProtocolFee, b, txTimestamp);
    expected := new ReserveData;
    expected.reserveFactor := before.reserveFactor;
    UpdateState(before, expected, txTimestamp);
    BookBacking(scaledATokenSupply, amount, fee, bridgeProtocolFee, before, expected, txTimestamp);
    SetRatesAndTotals(s, before, expected, txTimestamp, false,
                      WithUnbackedBacked(scaledATokenSupply, amount, fee, bridgeProtocolFee, b, txTimestamp));
  }

  /** The fee shared out and the backing booked, on a record whose state is up to date. */
  method BookBacking(scaledATokenSupply: int, amount: int, fee: int, bridgeProtocolFee: int,
                     before: ReserveData, expected: ReserveData, txTimestamp: int)
    requires before != expected && Sound(before.View()) && txTimestamp >= before.lastUpdateTimestamp
    requires CanBack(scaledATokenSupply, amount, fee, bridgeProtocolFee)
    requires Agree(expected.View().(unbacked := before.unbacked,
                                    averageStableBorrowRate := before.averageStableBorrowRate),
                   Updated(before.View(), txTimestamp))
    modifies expected
    ensures Agree(expected.View(),
                  WithUnbackedBacked(scaledATokenSupply, amount, fee, bridgeProtocolFee, before.View(), txTimestamp))
    ensures expected.availableLiquidity == before.availableLiquidity + BackingAmount(before.View(), amount) + fee >= 0
    ensures expected.totalLiquidity == expected.availableLiquidity + expected.unbacked
  {
    hide BorrowUtilization, SupplyUtilization, BroughtUpTo, Sound, AverageStableRate, RayMul, RayDiv, PremiumToProtocol,
         CumulateToLiquidityIndex, Ready;
    UpdatedParts(before.View(), txTimestamp);
    BackedParts(scaledATokenSupply, amount, fee, bridgeProtocolFee, before.View(), txTimestamp);
    var backingAmount := if amount < before.unbacked then amount else before.unbacked;
    DistributeFee(scaledATokenSupply, fee, bridgeProtocolFee, expected);
    expected.unbacked := before.unbacked - backingAmount;
    UpdateLiquidityAndUtils(before, expected, backingAmount + fee, 0);
    expected.averageStableBorrowRate :=
      AverageStableRate(before.averageStableBorrowRate, before.totalStableDebt, 0, before.stableBorrowRate);
  }

  lemma BackedParts(supply: int, amount: int, fee: int, bridgeProtocolFee: int, b: Reserve, t: int)
    requires Sound(b) && t >= b.lastUpdateTimestamp && CanBack(supply, amount, fee, bridgeProtocolFee)
    ensures 0 <= BackingAmount(b, amount) <= b.unbacked
    ensures var index := Updated(b, t).liquidityIndex;
            && RayMul(supply, index) != 0
            && CumulateToLiquidityIndex(index, RayMul(supply, index),
                                        fee - PremiumToProtocol(fee, bridgeProtocolFee)) != 0
  {
    hide Updated, RayMul, RayDiv, PercentMul, CumulateToLiquidityIndex;
    UpdatedReady(b, t);
    BackedIndexGrows(Updated(b, t).liquidityIndex, supply, fee, bridgeProtocolFee);
  }

  // ---------- Borrow ----------

  /** The end of a borrow: rates for the debts at the transaction, then totals aged to the current time
      and utilization for those. */
  method SetRatesAndAge(s: Strategy, before: ReserveData, expected: ReserveData, stableAtTx: int, variableAtTx: int,
                        stableNow: int, txTimestamp: int, currentTimestamp: int, stableMoved: bool, ghost e: Reserve)
    requires ValidStrategy(s) && before != expected
    requires AgeDefined(s, e, expected.availableLiquidity, stableNow, txTimestamp, currentTimestamp)
    requires Agree(expected.View().(totalStableDebt := stableAtTx, totalVariableDebt := variableAtTx), e)
    requires expected.totalLiquidity == expected.availableLiquidity + expected.unbacked
    requires e.marketStableRate == before.marketStableRate
    requires e.totalStableDebtLastUpdated == before.totalStableDebtLastUpdated
    modifies expected
    ensures expected.View() ==
              Aged(s, e, old(expected.availableLiquidity), stableNow, txTimestamp, currentTimestamp, stableMoved)
  {
    hide InterestRates, BorrowUtilization, SupplyUtilization, NormalizedDebt, RayMul, ValidStrategy;
    SetRates(s, before, expected, stableAtTx, variableAtTx);
    expected.totalStableDebt := stableNow;
    expected.totalVariableDebt := RayMul(expected.scaledVariableDebt,
      NormalizedDebt(expected.variableBorrowRate, expected.variableBorrowIndex, txTimestamp, currentTimestamp));
    UpdateTotalLiquidityAndUtil(expected);
    Complete(before, expected, txTimestamp, stableMoved);
  }

  method CalcExpectedReserveDataAfterBorrow(s: Strategy, amountBorrowed: int, borrowRateMode: RateMode,
                                            before: ReserveData, txTimestamp: int, currentTimestamp: int)
    returns (expected: ReserveData)
    requires ValidStrategy(s) && Sound(before.View()) && before.lastUpdateTimestamp <= txTimestamp <= currentTimestamp
    requires BorrowDefined(s, before.View(), amountBorrowed, borrowRateMode, txTimestamp, currentTimestamp)
    ensures fresh(expected)
    ensures expected.View()
            == AfterBorrow(s, before.View(), amountBorrowed, borrowRateMode, txTimestamp, currentTimestamp)
  {
    hide InterestRates, BorrowUtilization, SupplyUtilization, BroughtUpTo, NextLiquidityIndex, Sound, AgeDefined, Aged;
    ghost var b := before.View();
    UpdatedParts(b, txTimestamp);
    expected := Opened(before, txTimestamp, 0, amountBorrowed);
    if borrowRateMode.Stable? {
      BorrowStable(s, amountBorrowed, before, expected, txTimestamp, currentTimestamp);
    } else {
      BorrowVariable(s, amountBorrowed, before, expected, txTimestamp, currentTimestamp);
    }
  }

  method BorrowStable(s: Strategy, amountBorrowed: int, before: ReserveData, expected: ReserveData, txTimestamp: int,
                      currentTimestamp: int)
    requires ValidStrategy(s) && before != expected && Sound(before.View())
    requires before.lastUpdateTimestamp <= txTimestamp <= currentTimestamp
    requires BorrowDefined(s, before.View(), amountBorrowed, Stable, txTimestamp, currentTimestamp)
    requires before.availableLiquidity == expected.availableLiquidity + amountBorrowed
    requires expected.totalLiquidity == expected.availableLiquidity + expected.unbacked
    requires Agree(expected.View().(averageStableBorrowRate := before.averageStableBorrowRate),
                   Updated(before.View(), txTimestamp))
    modifies expected
    ensures expected.View() == AfterBorrow(s, before.View(), amountBorrowed, Stable, txTimestamp, currentTimestamp)
  {
    hide InterestRates, BorrowUtilization, SupplyUtilization, BroughtUpTo, Sound, AgeDefined, Aged, TotalStableDebt,
         AverageStableRate;
    ghost var b := before.View();
    ghost var e := WithBorrowed(b, amountBorrowed, Stable, txTimestamp);
    UpdatedCarries(b, txTimestamp);
    var expectedStableDebtUntilTx :=
      TotalStableDebt(before.principalStableDebt, before.averageStableBorrowRate, before.totalStableDebtLastUpdated,
                      txTimestamp);
    expected.averageStableBorrowRate :=
      AverageStableRate(before.averageStableBorrowRate, expectedStableDebtUntilTx, amountBorrowed,
                        before.stableBorrowRate);
    expected.principalStableDebt := expectedStableDebtUntilTx + amountBorrowed;
    var stableNow :=
      TotalStableDebt(expected.principalStableDebt, expected.averageStableBorrowRate, txTimestamp, currentTimestamp);
    SetRatesAndAge(s, before, expected, expected.principalStableDebt, expected.totalVariableDebt, stableNow,
                   txTimestamp, currentTimestamp, true, e);
  }

  /** What an update leaves alone. */
  lemma UpdatedCarries(b: Reserve, t: int)
    requires Sound(b) && t >= b.lastUpdateTimestamp
    ensures var u := Updated(b, t);
            && u.marketStableRate == b.marketStableRate && u.totalStableDebtLastUpdated == b.totalStableDebtLastUpdated
            && u.scaledVariableDebt == b.scaledVariableDebt && u.principalStableDebt == b.principalStableDebt
            && u.unbacked == b.unbacked && u.reserveFactor == b.reserveFactor
            && u.averageStableBorrowRate == b.averageStableBorrowRate
            && u.variableBorrowIndex == NextVariableBorrowIndex(b, t) != 0
  {
    hide RayMul, TotalStableDebt, AccruedToTreasury;
    IndexesGrow(b, t);
  }

  method BorrowVariable(s: Strategy, amountBorrowed: int, before: ReserveData, expected: ReserveData, txTimestamp: int,
                        currentTimestamp: int)
    requires ValidStrategy(s) && before != expected && Sound(before.View())
    requires before.lastUpdateTimestamp <= txTimestamp <= currentTimestamp
    requires BorrowDefined(s, before.View(), amountBorrowed, Variable, txTimestamp, currentTimestamp)
    requires before.availableLiquidity == expected.availableLiquidity + amountBorrowed
    requires expected.totalLiquidity == expected.availableLiquidity + expected.unbacked
    requires Agree(expected.View().(averageStableBorrowRate := before.averageStableBorrowRate),
                   Updated(before.View(), txTimestamp))
    modifies expected
    ensures expected.View() == AfterBorrow(s, before.View(), amountBorrowed, Variable, txTimestamp, currentTimestamp)
  {
    hide InterestRates, BorrowUtilization, SupplyUtilization, BroughtUpTo, Sound, AgeDefined, Aged, TotalStableDebt,
         StableDebtTokenBalance, RayMul, RayDiv;
    ghost var b := before.View();
    ghost var e := WithBorrowed(b, amountBorrowed, Variable, txTimestamp);
    UpdatedCarries(b, txTimestamp);
    expected.principalStableDebt := before.principalStableDebt;
    var totalStableDebtAfterTx :=
      StableDebtTokenBalance(before.principalStableDebt, before.averageStableBorrowRate,
                             before.totalStableDebtLastUpdated, txTimestamp);
    expected.totalStableDebt :=
      TotalStableDebt(before.principalStableDebt, before.averageStableBorrowRate, before.totalStableDebtLastUpdated,
                      currentTimestamp);
    expected.averageStableBorrowRate := before.averageStableBorrowRate;
    expected.scaledVariableDebt := before.scaledVariableDebt + RayDiv(amountBorrowed, expected.variableBorrowIndex);
    var totalVariableDebtAfterTx := RayMul(expected.scaledVariableDebt, expected.variableBorrowIndex);
    SetRatesAndAge(s, before, expected, totalStableDebtAfterTx, totalVariableDebtAfterTx, expected.totalStableDebt,
                   txTimestamp, currentTimestamp, false, e);
  }

  // ---------- Repay ----------

  method CalcExpectedReserveDataAfterRepay(s: Strategy, amountRepaid: int, borrowRateMode: RateMode,
                                           before: ReserveData, user: User, txTimestamp: int)
    returns (expected: ReserveData)
    requires ValidStrategy(s) && Sound(before.View()) && txTimestamp >= before.lastUpdateTimestamp
    requires RepayDefined(s, before.View(), user, amountRepaid, borrowRateMode, txTimestamp)
    ensures fresh(expected)
    ensures expected.View() == AfterRepay(s, before.View(), user, amountRepaid, borrowRateMode, txTimestamp)
  {
    hide InterestRates, BorrowUtilization, SupplyUtilization, BroughtUpTo, NextLiquidityIndex, Sound, Ready, Settled,
         WithRepaid, RepaidAmount, RayMul, RatesDefined, Updated;
    ghost var b := before.View();
    UpdatedParts(b, txTimestamp);
    var repaid := ResolvedRepayment(amountRepaid, borrowRateMode, before, user, txTimestamp);
    RepaidParts(b, repaid, user.stableBorrowRate, borrowRateMode, txTimestamp);
    expected := Opened(before, txTimestamp, repaid, 0);
    if borrowRateMode.Stable? {
      RepayStable(before, expected, repaid, user.stableBorrowRate, txTimestamp);
    } else {
      RepayVariable(before, expected, repaid, user.stableBorrowRate, txTimestamp);
    }
    SetRatesAndTotals(s, before, expected, txTimestamp, borrowRateMode.Stable?,
                      WithRepaid(b, repaid, user.stableBorrowRate, borrowRateMode, txTimestamp));
  }

  /** The full amount stands for the user's debt at the transaction. */
  method ResolvedRepayment(amountRepaid: int, borrowRateMode: RateMode, before: ReserveData, user: User,
                           txTimestamp: int)
    returns (repaid: int)
    ensures repaid == RepaidAmount(before.View(), user, amountRepaid, borrowRateMode, txTimestamp)
  {
    hide UserStableDebt, VariableDebtBalance;
    repaid := amountRepaid;
    if Abs(repaid) == MAX_UINT_AMOUNT {
      if borrowRateMode.Stable? {
        repaid := UserStableDebt(user, txTimestamp);
      } else {
        repaid := VariableDebtBalance(before.View(), user, txTimestamp);
      }
    }
  }

  lemma RepaidParts(b: Reserve, repaid: int, userRate: int, mode: RateMode, t: int)
    requires Sound(b) && t >= b.lastUpdateTimestamp
    ensures var e := WithRepaid(b, repaid, userRate, mode, t);
            && e.marketStableRate == b.marketStableRate && e.totalStableDebtLastUpdated == b.totalStableDebtLastUpdated
  {
    hide RayMul, RayDiv, AverageStableRate, TotalStableDebt, AccruedToTreasury;
  }

  method RepayStable(before: ReserveData, expected: ReserveData, amountRepaid: int, userRate: int, txTimestamp: int)
    requires before != expected && Sound(before.View()) && txTimestamp >= before.lastUpdateTimestamp
    requires Agree(expected.View().(averageStableBorrowRate := before.averageStableBorrowRate),
                   Updated(before.View(), txTimestamp))
    modifies expected`principalStableDebt, expected`totalStableDebt, expected`averageStableBorrowRate
    ensures Agree(expected.View(), WithRepaid(before.View(), amountRepaid, userRate, Stable, txTimestamp))
  {
    hide BroughtUpTo, Sound, TotalStableDebt, AverageStableRate;
    var expectedDebt :=
      TotalStableDebt(before.principalStableDebt, before.averageStableBorrowRate, before.totalStableDebtLastUpdated,
                      txTimestamp);
    expected.totalStableDebt := expectedDebt - amountRepaid;
    expected.principalStableDebt := expected.totalStableDebt;
    if expected.totalStableDebt < 0 {
      expected.averageStableBorrowRate := 0;
      expected.totalStableDebt := 0;
      expected.principalStableDebt := 0;
    } else {
      expected.averageStableBorrowRate :=
        AverageStableRate(before.averageStableBorrowRate, expectedDebt, Negated(amountRepaid), userRate);
      if expected.averageStableBorrowRate < 0 {
        expected.averageStableBorrowRate := 0;
        expected.totalStableDebt := 0;
        expected.principalStableDebt := 0;
      }
    }
  }

  method RepayVariable(before: ReserveData, expected: ReserveData, amountRepaid: int, ghost userRate: int,
                       txTimestamp: int)
    requires before != expected && Sound(before.View()) && txTimestamp >= before.lastUpdateTimestamp
    requires Agree(expected.View().(averageStableBorrowRate := before.averageStableBorrowRate),
                   Updated(before.View(), txTimestamp))
    modifies expected`scaledVariableDebt, expected`totalVariableDebt, expected`averageStableBorrowRate
    ensures Agree(expected.View(), WithRepaid(before.View(), amountRepaid, userRate, Variable, txTimestamp))
  {
    hide BroughtUpTo, Sound, RayMul, RayDiv;
    UpdatedCarries(before.View(), txTimestamp);
    expected.scaledVariableDebt := before.scaledVariableDebt - RayDiv(amountRepaid, expected.variableBorrowIndex);
    expected.totalVariableDebt := RayMul(expected.scaledVariableDebt, expected.variableBorrowIndex);
    expected.averageStableBorrowRate := before.averageStableBorrowRate;
  }

  // ---------- Swap and rebalance ----------

  method CalcExpectedReserveDataAfterSwapRateMode(s: Strategy, before: ReserveData, user: User, rateMode: RateMode,
                                                  txTimestamp: int)
    returns (expected: ReserveData)
    requires ValidStrategy(s) && Sound(before.View()) && txTimestamp >= before.lastUpdateTimestamp
    requires SwapDefined(s, before.View(), user, rateMode, txTimestamp)
    ensures fresh(expected)
    ensures expected.View() == AfterSwapRateMode(s, before.View(), user, rateMode, txTimestamp)
  {
    hide InterestRates, BorrowUtilization, SupplyUtilization, BroughtUpTo, NextLiquidityIndex, Sound, Settled,
         WithSwapped, UserStableDebt, VariableDebtBalance, CanSwap;
    ghost var b := before.View();
    UpdatedParts(b, txTimestamp);
    SwappedParts(b, user, rateMode, txTimestamp);
    expected := Opened(before, txTimestamp, 0, 0);
    var variableDebt := VariableDebtBalance(before.View(), user, txTimestamp);
    var stableDebt := UserStableDebt(user, txTimestamp);
    if rateMode.Stable? {
      SwapToVariable(before, expected, user, stableDebt, txTimestamp);
    } else {
      SwapToStable(before, expected, user, variableDebt, txTimestamp);
    }
    SetRatesAndTotals(s, before, expected, txTimestamp, true, WithSwapped(b, user, rateMode, txTimestamp));
  }

  lemma SwappedParts(b: Reserve, u: User, mode: RateMode, t: int)
    requires Sound(b) && t >= b.lastUpdateTimestamp
    ensures var e := WithSwapped(b, u, mode, t);
            && e.marketStableRate == b.marketStableRate && e.totalStableDebtLastUpdated == b.totalStableDebtLastUpdated
  {
    hide RayMul, RayDiv, AverageStableRate, TotalStableDebt, AccruedToTreasury, UserStableDebt, VariableDebtBalance,
         CanSwap;
  }

  /** The fields in which a record differs from the one merely brought up to date. */
  ghost predicate DiffersInDebts(e: Reserve, u: Reserve, scaled: int, variable: int, stable: int, average: int) {
    Agree(e, u.(scaledVariableDebt := scaled, totalVariableDebt := variable, principalStableDebt := stable,
                totalStableDebt := stable, averageStableBorrowRate := average))
  }

  lemma SwappedToVariableFields(b: Reserve, u: User, t: int)
    requires Sound(b) && t >= b.lastUpdateTimestamp
    ensures var index, debt := NextVariableBorrowIndex(b, t), UserStableDebt(u, t);
            var total := Updated(b, t).totalStableDebt;
            && index != 0
            && var scaled := b.scaledVariableDebt + RayDiv(debt, index);
               DiffersInDebts(WithSwapped(b, u, Stable, t), Updated(b, t), scaled, RayMul(scaled, index), total - debt,
                              AverageStableRate(b.averageStableBorrowRate, total - debt + debt, Negated(debt),
                                                u.stableBorrowRate))
  {
    hide BroughtUpTo, Sound, RayMul, RayDiv, AverageStableRate, UserStableDebt, VariableDebtBalance;
    UpdatedCarries(b, t);
  }

  lemma SwappedToStableFields(b: Reserve, u: User, t: int)
    requires Sound(b) && t >= b.lastUpdateTimestamp
    ensures var index, debt := NextVariableBorrowIndex(b, t), VariableDebtBalance(b, u, t);
            var total := Updated(b, t).totalStableDebt;
            && index != 0
            && var scaled := b.scaledVariableDebt - RayDiv(debt, index);
               DiffersInDebts(WithSwapped(b, u, Variable, t), Updated(b, t), scaled, RayMul(scaled, index),
                              total + debt,
                              AverageStableRate(b.averageStableBorrowRate, b.totalStableDebt, debt, b.stableBorrowRate))
  {
    hide BroughtUpTo, Sound, RayMul, RayDiv, AverageStableRate, UserStableDebt, VariableDebtBalance;
    UpdatedCarries(b, t);
  }

  method SwapToVariable(before: ReserveData, expected: ReserveData, user: User, stableDebt: int, txTimestamp: int)
    requires before != expected && Sound(before.View()) && txTimestamp >= before.lastUpdateTimestamp
    requires stableDebt == UserStableDebt(user, txTimestamp)
    requires Agree(expected.View().(averageStableBorrowRate := before.averageStableBorrowRate),
                   Updated(before.View(), txTimestamp))
    modifies expected`scaledVariableDebt, expected`totalVariableDebt, expected`principalStableDebt,
             expected`totalStableDebt, expected`averageStableBorrowRate
    ensures Agree(expected.View(), WithSwapped(before.View(), user, Stable, txTimestamp))
  {
    hide Updated, WithSwapped, Sound, RayMul, RayDiv, AverageStableRate, UserStableDebt, VariableDebtBalance;
    UpdatedCarries(before.View(), txTimestamp);
    SwappedToVariableFields(before.View(), user, txTimestamp);
    var totalStableDebtUntilTx := expected.totalStableDebt;
    expected.scaledVariableDebt := before.scaledVariableDebt + RayDiv(stableDebt, expected.variableBorrowIndex);
    expected.totalVariableDebt := RayMul(expected.scaledVariableDebt, expected.variableBorrowIndex);
    expected.totalStableDebt := totalStableDebtUntilTx - stableDebt;
    expected.principalStableDebt := expected.totalStableDebt;
    expected.averageStableBorrowRate := AverageStableRate(before.averageStableBorrowRate,
      expected.principalStableDebt + stableDebt, Negated(stableDebt), user.stableBorrowRate);
  }

  method SwapToStable(before: ReserveData, expected: ReserveData, user: User, variableDebt: int, txTimestamp: int)
    requires before != expected && Sound(before.View()) && txTimestamp >= before.lastUpdateTimestamp
    requires variableDebt == VariableDebtBalance(before.View(), user, txTimestamp)
    requires Agree(expected.View().(averageStableBorrowRate := before.averageStableBorrowRate),
                   Updated(before.View(), txTimestamp))
    modifies expected`scaledVariableDebt, expected`totalVariableDebt, expected`principalStableDebt,
             expected`totalStableDebt, expected`averageStableBorrowRate
    ensures Agree(expected.View(), WithSwapped(before.View(), user, Variable, txTimestamp))
  {
    hide Updated, WithSwapped, Sound, RayMul, RayDiv, AverageStableRate, UserStableDebt, VariableDebtBalance;
    UpdatedCarries(before.View(), txTimestamp);
    SwappedToStableFields(before.View(), user, txTimestamp);
    var totalStableDebtUntilTx := expected.totalStableDebt;
    expected.totalStableDebt := totalStableDebtUntilTx + variableDebt;
    expected.principalStableDebt := expected.totalStableDebt;
    expected.scaledVariableDebt := before.scaledVariableDebt - RayDiv(variableDebt, expected.variableBorrowIndex);
    expected.totalVariableDebt := RayMul(expected.scaledVariableDebt, expected.variableBorrowIndex);
    expected.averageStableBorrowRate := AverageStableRate(before.averageStableBorrowRate, before.totalStableDebt,
      variableDebt, before.stableBorrowRate);
  }

  method CalcExpectedReserveDataAfterStableRateRebalance(s: Strategy, before: ReserveData, user: User, txTimestamp: int)
    returns (expected: ReserveData)
    requires ValidStrategy(s) && Sound(before.View()) && txTimestamp >= before.lastUpdateTimestamp
    ensures fresh(expected)
    ensures expected.View() == AfterStableRateRebalance(s, before.View(), user, txTimestamp)
  {
    hide InterestRates, BorrowUtilization, SupplyUtilization, NextLiquidityIndex, NextVariableBorrowIndex, Sound,
         Settled, TotalStableDebt, AverageStableRateRebalance, UserStableDebt, RayMul, AccruedToTreasury;
    ghost var b := before.View();
    UpdatedParts(b, txTimestamp);
    RebalancedDebts(b, user, txTimestamp);
    expected := Opened(before, txTimestamp, 0, 0);
    var userStableDebt := UserStableDebt(user, txTimestamp);
    expected.totalStableDebt :=
      TotalStableDebt(before.principalStableDebt, before.averageStableBorrowRate, before.totalStableDebtLastUpdated,
                      txTimestamp);
    expected.principalStableDebt := expected.totalStableDebt;
    var avgRateBefore := AverageStableRateRebalance(before.averageStableBorrowRate, expected.totalStableDebt,
      Negated(userStableDebt), user.stableBorrowRate);
    expected.averageStableBorrowRate :=
      AverageStableRateRebalance(avgRateBefore, expected.totalStableDebt - userStableDebt,
                                 userStableDebt, before.stableBorrowRate);
    SetRatesAndTotals(s, before, expected, txTimestamp, true,
                      WithRebalanced(b, userStableDebt, user.stableBorrowRate, txTimestamp));
  }
}
