/** Solvency: everything suppliers and treasury hold, valued at the liquidity index, against everything the reserve
    has or is owed, over every run. */
module Solvency {
  import opened WadRayMath
  import opened Interest
  import opened AgedDebt
  import opened RateStrategy
  import opened RateFunding
  import opened ReserveModel
  import opened ReserveActions
  import opened DebtActions
  import opened RepayActions
  import opened Balances
  import opened Bridge
  import opened Runs
  import opened Treasury
  import opened Ledger
  import opened CurrentRates
  import opened Earnings

  /** The unit of the account of realised interest. */
  const UNIT := 20000 * RAY * ONE_YEAR

  /** Scaled tokens that claim on the reserve: the suppliers' and the treasury's. */
  function Tokens(r: Reserve, supply: int): int {
    supply + r.accruedToTreasuryScaled
  }

  /** All but `short` of the scaled tokens are backed by liquidity and debt. */
  ghost predicate Backed(r: Reserve, supply: int, short: int) {
    (Tokens(r, supply) - short) * r.liquidityIndex <= RAY * Claims(r)
  }

  /** What realised interest may exceed the accrual by. */
  function InterestSlack(s: Strategy, r: Reserve, t: int): int
    requires RatesCurrent(s, r) && t >= r.lastUpdateTimestamp
  {
    PartOfAhead(s, r, t) + PartOfExcess(s, r, t) + AccountSlackAbove(s, r, t) + 10000 * RAY * RAY * ONE_YEAR
  }

  // ---------- Bringing the reserve up to date ----------

  /** The tokens gain what suppliers earn and what the treasury is minted, which the accrued debt covers. */
  lemma UpdateKeepsBacked(s: Strategy, r: Reserve, supply: int, short: int, t: int)
    requires RatesCurrent(s, r) && t >= r.lastUpdateTimestamp && r.reserveFactor == s.reserveFactor
    requires short >= 0 && Backed(r, supply, short)
    ensures var u := Updated(r, t);
            var over := (Tokens(u, supply) - short) * u.liquidityIndex - RAY * (Claims(r) + DebtAccrued(r, u));
            UNIT * (2 * over)
            <= 2 * InterestSlack(s, r, t) + UNIT * (Max(0, Tokens(r, supply)) + u.liquidityIndex)
  {
    hide Sound, RatesCurrent, Updated, DebtAccrued, AmountToMint, RayMul, RayDiv, Claims, CalcLinearInterest,
         InterestSlack, NextLiquidityIndex, PartOfAhead, PartOfExcess, AccountSlackAbove;
    SoundOfCurrent(s, r);
    InterestAndTreasury(s, r, t);
    GrownIndex(r, t);
    MintedValue(r, t);
    ClaimsNonNegative(s, r);
    var u, x := Updated(r, t), CalcLinearInterest(r.liquidityRate, t, r.lastUpdateTimestamp) - RAY;
    TokensGrow(Tokens(r, supply) - short, r.liquidityIndex, u.liquidityIndex, x, Claims(r));
    DebtNeverShrinks(r, t);
    var minted := AmountToMint(r, u);
    var credit := u.accruedToTreasuryScaled - r.accruedToTreasuryScaled;
    assert (Tokens(u, supply) - short) * u.liquidityIndex
        == (Tokens(r, supply) - short) * u.liquidityIndex + credit * u.liquidityIndex;
    InterestSlackIs(s, r, t);
    CoverTokens((Tokens(r, supply) - short) * u.liquidityIndex, credit * u.liquidityIndex, RAY * Claims(r),
                Income(r, t), minted, DebtAccrued(r, u), Max(0, Tokens(r, supply)), u.liquidityIndex,
                InterestSlack(s, r, t));
  }

  lemma InterestSlackIs(s: Strategy, r: Reserve, t: int)
    requires RatesCurrent(s, r) && Sound(r) && t >= r.lastUpdateTimestamp
    ensures InterestSlack(s, r, t)
         == PartOfAhead(s, r, t) + PartOfExcess(s, r, t) + AccountSlackAbove(s, r, t) + 10000 * RAY * RAY * ONE_YEAR
  {
    hide Sound, RatesCurrent, PartOfAhead, PartOfExcess, AccountSlackAbove;
  }

  lemma CoverTokens(grown: int, credit: int, claims: int, income: int, minted: int, accrued: int, tokens: int,
                    index: int, slack: int)
    requires 2 * grown <= 2 * claims + 2 * income + tokens && 2 * credit <= 2 * RAY * minted + index
    requires UNIT * (income + RAY * minted) <= UNIT * (RAY * accrued) + slack
    ensures UNIT * (2 * (grown + credit - (claims + RAY * accrued))) <= 2 * slack + UNIT * (tokens + index)
  {
  }

  lemma ClaimsNonNegative(s: Strategy, r: Reserve)
    requires RatesCurrent(s, r)
    ensures Claims(r) >= 0
  {
    hide Sound, RayMul, StableAtLastUpdate, VariableAtLastUpdate, InterestRates;
  }

  /** The liquidity index grows by linear interest, whichever guard stops it. */
  lemma GrownIndex(r: Reserve, t: int)
    requires Sound(r) && t >= r.lastUpdateTimestamp
    ensures var x := CalcLinearInterest(r.liquidityRate, t, r.lastUpdateTimestamp) - RAY;
            var next := Updated(r, t).liquidityIndex;
            && x >= 0 && r.liquidityIndex >= RAY && next >= r.liquidityIndex && r.accruedToTreasuryScaled >= 0
            && 2 * RAY * next <= 2 * ((RAY + x) * r.liquidityIndex) + RAY
  {
    hide RayMul, CalcLinearInterest, NextLiquidityIndex, Sound;
    IndexOfSound(r);
    UpdatedIndex(r, t);
    UpdatedReady(r, t);
    IncomeIsNextIndex(r, t);
    RatesOfSound(r);
    LinearIsCompoundedAtLeast(r, t);
    var lin := CalcLinearInterest(r.liquidityRate, t, r.lastUpdateTimestamp);
    DebtRounded(lin, r.liquidityIndex, RayMul(lin, r.liquidityIndex));
    MulLe(RAY, lin, r.liquidityIndex);
  }

  lemma IndexOfSound(r: Reserve)
    requires Sound(r)
    ensures r.liquidityIndex >= RAY && r.accruedToTreasuryScaled >= 0
  {
    hide Div;
  }

  lemma LinearIsCompoundedAtLeast(r: Reserve, t: int)
    requires r.liquidityRate >= 0 && t >= r.lastUpdateTimestamp
    ensures CalcLinearInterest(r.liquidityRate, t, r.lastUpdateTimestamp) >= RAY
  {
    CompoundedAtLeastLinear(r.liquidityRate, t, r.lastUpdateTimestamp);
  }

  lemma TokensGrow(tokens: int, index: int, next: int, x: int, claims: int)
    requires x >= 0 && index >= RAY && next >= index && claims >= 0
    requires 2 * RAY * next <= 2 * ((RAY + x) * index) + RAY && tokens * index <= RAY * claims
    ensures 2 * (tokens * next) <= 2 * (RAY * claims) + 2 * (claims * x) + Max(0, tokens)
  {
    MulLe(0, claims, x);
    if tokens <= 0 {
      MulLe(tokens, 0, next);
    } else {
      GrowPositive(tokens, index, next, x, claims);
    }
  }

  lemma GrowPositive(tokens: int, index: int, next: int, x: int, claims: int)
    requires x >= 0 && tokens > 0
    requires 2 * RAY * next <= 2 * ((RAY + x) * index) + RAY && tokens * index <= RAY * claims
    ensures 2 * (tokens * next) <= 2 * (RAY * claims) + 2 * (claims * x) + tokens
  {
    MulLe(2 * RAY * next, 2 * ((RAY + x) * index) + RAY, tokens);
    MulLe(tokens * index, RAY * claims, RAY + x);
    GrowProducts(tokens, index, next, x, claims);
  }

  lemma GrowProducts(tokens: int, index: int, next: int, x: int, claims: int)
    ensures tokens * (2 * RAY * next) == 2 * RAY * (tokens * next)
    ensures tokens * (2 * ((RAY + x) * index) + RAY) == 2 * ((RAY + x) * (tokens * index)) + RAY * tokens
    ensures (RAY + x) * (RAY * claims) == RAY * (RAY * claims + claims * x)
  {
    ThreeFactors(tokens, RAY + x, index);
  }

  /** The treasury's credit, valued at the index, is what was minted, up to half the index. */
  lemma MintedValue(r: Reserve, t: int)
    requires Sound(r) && t >= r.lastUpdateTimestamp
    ensures var u := Updated(r, t);
            2 * ((u.accruedToTreasuryScaled - r.accruedToTreasuryScaled) * u.liquidityIndex)
            <= 2 * RAY * AmountToMint(r, u) + u.liquidityIndex
  {
    hide Sound, Updated, AmountToMint, RayDiv;
    AmountReads(r, t);
    DebtNeverShrinks(r, t);
    UpdatedReadyIndex(r, t);
    CreditValue(Updated(r, t).accruedToTreasuryScaled - r.accruedToTreasuryScaled, AmountToMint(r, Updated(r, t)),
                Updated(r, t).liquidityIndex);
  }

  lemma CreditValue(credit: int, minted: int, index: int)
    requires index > 0 && minted >= 0 && credit == if minted > 0 then RayDiv(minted, index) else 0
    ensures 2 * (credit * index) <= 2 * RAY * minted + index
  {
    hide RayDiv;
    if minted > 0 { ScaledValue(minted, index); }
  }

  lemma UpdatedReadyIndex(r: Reserve, t: int)
    requires Sound(r) && t >= r.lastUpdateTimestamp
    ensures Updated(r, t).liquidityIndex >= RAY
  {
    hide Div;
    UpdatedReady(r, t);
  }

  /** An amount scaled down and valued again is itself, up to half the index. */
  lemma ScaledValue(amount: int, index: int)
    requires amount >= 0 && index > 0
    ensures Abs(2 * (RayDiv(amount, index) * index) - 2 * RAY * amount) <= index
  {
    RayDivNearest(amount, index);
    var q := RayDiv(amount, index);
    assert index * q == q * index;
  }

  // ---------- The action ----------

  /** The scaled supply after an action: deposits, unbacked ones included, and withdrawals move it. */
  function SupplyAfter(s: Strategy, r: Reserve, supply: int, a: Action, t: int): int
    requires ValidStrategy(s) && Sound(r) && Enabled(r, a, t)
  {
    AfterIndex(s, r, a, t);
    var index := After(s, r, a, t).liquidityIndex;
    match a
    case Deposit(amount) => supply + RayDiv(amount, index)
    case MintUnbacked(amount) => supply + RayDiv(amount, index)
    case Withdraw(amount, user) => supply - RayDiv(WithdrawnAmount(r, user, amount, t), index)
    case _ => supply
  }

  lemma AfterIndex(s: Strategy, r: Reserve, a: Action, t: int)
    requires ValidStrategy(s) && Sound(r) && Enabled(r, a, t)
    ensures var next := After(s, r, a, t);
            && Sound(next) && next.liquidityIndex >= RAY && next.variableBorrowIndex >= RAY
            && t >= r.lastUpdateTimestamp
  {
    hide Enabled, After, Sound;
    EnabledInTime(r, a, t);
    StepKeeps(s, r, a, t);
    IndexOfSound(After(s, r, a, t));
    IndexAtLeastRay(After(s, r, a, t));
  }

  /** Scaling an amount rounds by half the index, or by one and a half below zero, where division truncates. */
  function MoveRounding(r: Reserve, a: Action, t: int, index: int): int {
    if a.Withdraw? && WithdrawnAmount(r, a.user, a.amount, t) < 0 then 3 * index else index
  }

  /** Stable debt that a repayment's clamps erase beyond the repayment; negative if more is repaid than owed. */
  function WrittenOff(r: Reserve, a: Action, t: int): int {
    if a.Repay? then -(RepaidAmount(r, a.user, a.amount, a.mode, t) + Flow(r, a, t)) else 0
  }

  /** A bridge fee raises the index for the supply it is told of, and thereby unasked for all other tokens, the
      treasury's above all: twice that gift, and the roundings of the premium. */
  function BridgeSlack(s: Strategy, r: Reserve, supply: int, a: Action, t: int): int
    requires ValidStrategy(s) && Sound(r) && Enabled(r, a, t)
  {
    if a.BackUnbacked? then
      AfterIndex(s, r, a, t);
      BackedTotal(r, a, t);
      var u := Updated(r, t);
      var total := RayMul(a.scaledATokenSupply, u.liquidityIndex);
      2 * ((Tokens(u, supply) - a.scaledATokenSupply) * (After(s, r, a, t).liquidityIndex - u.liquidityIndex))
      + total + RayDiv(a.fee - PremiumToProtocol(a.fee, a.bridgeProtocolFee), total) + a.scaledATokenSupply
    else 0
  }

  lemma BackedTotal(r: Reserve, a: Action, t: int)
    requires Sound(r) && Enabled(r, a, t) && a.BackUnbacked?
    ensures t >= r.lastUpdateTimestamp && RayMul(a.scaledATokenSupply, Updated(r, t).liquidityIndex) > 0
    ensures a.scaledATokenSupply > 0 && a.fee >= 0 && 0 <= a.bridgeProtocolFee <= PERCENTAGE_FACTOR
  {
    hide Sound, Updated, RayMul;
    UpdatedReadyIndex(r, t);
    RayMulByIndex(a.scaledATokenSupply, Updated(r, t).liquidityIndex);
  }

  /** What the action itself adds to the tokens is what it adds to the claims, debts written off apart. */
  lemma TokensMove(s: Strategy, r: Reserve, supply: int, short: int, a: Action, t: int)
    requires ValidStrategy(s) && Sound(r) && Enabled(r, a, t) && short >= 0
    ensures t >= r.lastUpdateTimestamp
    ensures var u, next := Updated(r, t), After(s, r, a, t);
            2 * ((Tokens(next, SupplyAfter(s, r, supply, a, t)) - short) * next.liquidityIndex)
            <= 2 * ((Tokens(u, supply) - short) * u.liquidityIndex)
               + 2 * RAY * (LiquidityFlow(r, a, t) + Flow(r, a, t) + WrittenOff(r, a, t))
               + MoveRounding(r, a, t, next.liquidityIndex) + BridgeSlack(s, r, supply, a, t)
  {
    hide Sound, After, Updated, RayMul, RayDiv, WithdrawnAmount, RepaidAmount, AverageStableRate, StableDebtNow,
         CanRepay, CanSwap, CanBack, UserStableDebt;
    AfterIndex(s, r, a, t);
    if a.BackUnbacked? {
      BridgeMoves(s, r, supply, short, a, t);
    } else {
      SameIndex(s, r, a, t);
      var index := Updated(r, t).liquidityIndex;
      match a {
        case Deposit(amount) => MovedValue(Tokens(Updated(r, t), supply) - short, amount, 1, index);
        case MintUnbacked(amount) => MovedValue(Tokens(Updated(r, t), supply) - short, amount, 1, index);
        case Withdraw(amount, user) =>
          MovedValue(Tokens(Updated(r, t), supply) - short, WithdrawnAmount(r, user, amount, t), -1, index);
        case _ =>
      }
    }
  }

  lemma MovedValue(tokens: int, amount: int, sign: int, index: int)
    requires index > 0 && (sign == 1 || sign == -1)
    ensures 2 * ((tokens + sign * RayDiv(amount, index)) * index)
            <= 2 * (tokens * index) + 2 * RAY * (sign * amount) + (if amount < 0 then 3 * index else index)
  {
    hide RayDiv;
    if amount >= 0 { ScaledValue(amount, index); } else { ScaledValueBelowZero(amount, index); }
    var q := RayDiv(amount, index);
    if sign == 1 { assert (tokens + q) * index == tokens * index + q * index; }
    else { assert (tokens - q) * index == tokens * index - q * index; }
  }

  lemma ScaledValueBelowZero(amount: int, index: int)
    requires index > 0
    ensures Abs(2 * (RayDiv(amount, index) * index) - 2 * RAY * amount) <= 3 * index
  {
    DivTruncates(index / 2 + amount * RAY, index);
    hide Div;
    var q := RayDiv(amount, index);
    assert index * q == q * index;
  }

  /** Every other action leaves the liquidity index and the treasury as the update left them. */
  lemma SameIndex(s: Strategy, r: Reserve, a: Action, t: int)
    requires ValidStrategy(s) && Sound(r) && Enabled(r, a, t) && !a.BackUnbacked?
    ensures t >= r.lastUpdateTimestamp
    ensures var u, next := Updated(r, t), After(s, r, a, t);
            && next.liquidityIndex == u.liquidityIndex && u.liquidityIndex >= RAY
            && next.accruedToTreasuryScaled == u.accruedToTreasuryScaled
  {
    hide InterestRates, BorrowUtilization, SupplyUtilization, BroughtUpTo, NextVariableBorrowIndex, TotalStableDebt,
         NormalizedDebt, RayMul, RayDiv, AverageStableRate, AverageStableRateRebalance, UserStableDebt,
         VariableDebtBalance, StableDebtTokenBalance, StableDebtNow, CanRepay, CanSwap, RepaidAmount, WithdrawnAmount,
         Ready, Sound, RepayDefined, SwapDefined, BorrowDefined, WithdrawDefined, AgeDefined, StableDebtAged;
    UpdatedReadyIndex(r, t);
  }

  /** The bridge fee. */
  lemma BridgeMoves(s: Strategy, r: Reserve, supply: int, short: int, a: Action, t: int)
    requires ValidStrategy(s) && Sound(r) && Enabled(r, a, t) && a.BackUnbacked? && short >= 0
    ensures t >= r.lastUpdateTimestamp
    ensures var u, next := Updated(r, t), After(s, r, a, t);
            2 * ((Tokens(next, supply) - short) * next.liquidityIndex)
            <= 2 * ((Tokens(u, supply) - short) * u.liquidityIndex) + 2 * RAY * a.fee
               + next.liquidityIndex + BridgeSlack(s, r, supply, a, t)
  {
    hide Sound, After, Updated, RayMul, RayDiv, PremiumToProtocol, CumulateToLiquidityIndex, Enabled;
    AfterIndex(s, r, a, t);
    BackedTotal(r, a, t);
    UpdatedReadyIndex(r, t);
    BackedIndex(s, r, a, t);
    var u, next := Updated(r, t), After(s, r, a, t);
    var toProtocol := PremiumToProtocol(a.fee, a.bridgeProtocolFee);
    var part := a.scaledATokenSupply;
    PremiumRaises(part, u.liquidityIndex, next.liquidityIndex, a.fee - toProtocol, RayMul(part, u.liquidityIndex));
    ScaledValue(toProtocol, next.liquidityIndex);
    BridgeSum(Tokens(u, supply), part, RayDiv(toProtocol, next.liquidityIndex), short, u.liquidityIndex,
              next.liquidityIndex);
  }

  lemma BackedIndex(s: Strategy, r: Reserve, a: Action, t: int)
    requires ValidStrategy(s) && Sound(r) && Enabled(r, a, t) && a.BackUnbacked? && t >= r.lastUpdateTimestamp
    ensures var u, next := Updated(r, t), After(s, r, a, t);
            var toProtocol := PremiumToProtocol(a.fee, a.bridgeProtocolFee);
            && 0 <= toProtocol <= a.fee && next.liquidityIndex >= u.liquidityIndex > 0
            && RayMul(a.scaledATokenSupply, u.liquidityIndex) != 0
            && next.liquidityIndex
               == CumulateToLiquidityIndex(u.liquidityIndex, RayMul(a.scaledATokenSupply, u.liquidityIndex),
                                           a.fee - toProtocol)
            && next.accruedToTreasuryScaled == u.accruedToTreasuryScaled + RayDiv(toProtocol, next.liquidityIndex)
            && u.accruedToTreasuryScaled >= 0
  {
    hide Sound, Updated, RayMul, RayDiv, PremiumToProtocol, CumulateToLiquidityIndex, AfterBackUnbacked;
    FeeBecomesLiquidity(s, a.scaledATokenSupply, a.amount, a.fee, a.bridgeProtocolFee, r, t);
    IndexOfSound(r);
    TreasuryGrows(r, t);
  }

  lemma TreasuryGrows(r: Reserve, t: int)
    requires Sound(r) && t >= r.lastUpdateTimestamp
    ensures Updated(r, t).accruedToTreasuryScaled >= r.accruedToTreasuryScaled
  {
    hide Div;
    UpdatedReady(r, t);
  }

  /** The raised index is worth the premium to the supply, up to rounding. */
  lemma PremiumRaises(supply: int, index: int, next: int, premium: int, total: int)
    requires supply > 0 && index >= RAY && premium >= 0 && total == RayMul(supply, index) && total > 0
    requires next == CumulateToLiquidityIndex(index, total, premium)
    ensures Abs(2 * (supply * (next - index)) - 2 * RAY * premium) <= total + RayDiv(premium, total) + supply
  {
    hide RayMul, RayDiv;
    var ratio := RayDiv(premium, total);
    RayDivScaleInvariant(WAD_RAY_RATIO, premium, total);
    RayDivMonotone(premium, total, premium, total);
    RayDivNearest(premium, total);
    DebtRounded(ratio + RAY, index, next);
    DebtRounded(supply, index, total);
    RaisedBy(supply, index, next, ratio, total, premium);
  }

  lemma RaisedBy(supply: int, index: int, next: int, ratio: int, total: int, premium: int)
    requires supply >= 0 && ratio >= 0
    requires Abs(2 * RAY * next - 2 * ((ratio + RAY) * index)) <= RAY
    requires Abs(2 * RAY * total - 2 * (supply * index)) <= RAY
    requires Abs(2 * (total * ratio) - 2 * (premium * RAY)) <= total
    ensures Abs(2 * (supply * (next - index)) - 2 * RAY * premium) <= total + ratio + supply
  {
    ScaledGap(2 * RAY * next, 2 * ((ratio + RAY) * index), RAY, supply);
    ScaledGap(2 * RAY * total, 2 * (supply * index), RAY, ratio);
    RaisedProducts(supply, index, next, ratio, total);
    AtMost(supply * next, supply * index, ratio * (supply * index), ratio * total, ratio, total, premium, supply);
    AtLeast(supply * next, supply * index, ratio * (supply * index), ratio * total, ratio, total, premium, supply);
  }

  lemma RaisedProducts(supply: int, index: int, next: int, ratio: int, total: int)
    ensures supply * (2 * RAY * next) == 2 * RAY * (supply * next)
    ensures supply * (next - index) == supply * next - supply * index
    ensures supply * (2 * ((ratio + RAY) * index)) == 2 * (ratio * (supply * index)) + 2 * RAY * (supply * index)
    ensures ratio * (2 * (supply * index)) == 2 * (ratio * (supply * index))
    ensures ratio * (2 * RAY * total) == 2 * RAY * (ratio * total) && ratio * total == total * ratio
  {
    ThreeFactors(supply, ratio, index);
    assert (ratio + RAY) * index == ratio * index + RAY * index;
    assert supply * (ratio * index + RAY * index) == supply * (ratio * index) + RAY * (supply * index);
  }

  lemma AtMost(sn: int, si: int, rsi: int, rt: int, ratio: int, total: int, premium: int, supply: int)
    requires 2 * RAY * sn <= 2 * rsi + 2 * RAY * si + RAY * supply
    requires 2 * rsi <= 2 * RAY * rt + RAY * ratio && 2 * rt <= 2 * (premium * RAY) + total
    ensures 2 * (sn - si) <= 2 * RAY * premium + total + ratio + supply
  {
  }

  lemma AtLeast(sn: int, si: int, rsi: int, rt: int, ratio: int, total: int, premium: int, supply: int)
    requires 2 * RAY * sn >= 2 * rsi + 2 * RAY * si - RAY * supply
    requires 2 * rsi >= 2 * RAY * rt - RAY * ratio && 2 * rt >= 2 * (premium * RAY) - total
    ensures 2 * (sn - si) >= 2 * RAY * premium - total - ratio - supply
  {
  }

  lemma BridgeSum(tokens: int, part: int, credit: int, short: int, index: int, next: int)
    ensures (tokens + credit - short) * next
         == (tokens - short) * index + part * (next - index) + (tokens - part) * (next - index)
            - short * (next - index) + credit * next
    ensures short >= 0 && next >= index ==> short * (next - index) >= 0
  {
    if short >= 0 && next >= index { MulLe(0, short, next - index); }
  }

  /** The gift is real: backing adds to the tokens' value the whole fee, which is also what it adds to the claims,
      and the tokens outside the supply, the treasury's, times the raise of the index, which nothing pays for; up to
      rounding either way. */
  lemma BridgeGift(s: Strategy, r: Reserve, supply: int, a: Action, t: int)
    requires ValidStrategy(s) && Sound(r) && Enabled(r, a, t) && a.BackUnbacked?
    ensures t >= r.lastUpdateTimestamp
    ensures var u, next := Updated(r, t), After(s, r, a, t);
            var total := RayMul(a.scaledATokenSupply, u.liquidityIndex);
            var gift := (Tokens(u, supply) - a.scaledATokenSupply) * (next.liquidityIndex - u.liquidityIndex);
            && next.totalLiquidity == r.totalLiquidity + a.fee && total > 0
            && Abs(2 * (Tokens(next, supply) * next.liquidityIndex) - 2 * (Tokens(u, supply) * u.liquidityIndex)
                   - 2 * RAY * a.fee - 2 * gift)
               <= total + RayDiv(a.fee - PremiumToProtocol(a.fee, a.bridgeProtocolFee), total) + a.scaledATokenSupply
                  + next.liquidityIndex
  {
    hide Sound, After, Updated, RayMul, RayDiv, PremiumToProtocol, CumulateToLiquidityIndex, Enabled;
    AfterIndex(s, r, a, t);
    BackedTotal(r, a, t);
    UpdatedReadyIndex(r, t);
    BackedIndex(s, r, a, t);
    StepLiquidity(s, r, a, t);
    var u, next := Updated(r, t), After(s, r, a, t);
    var toProtocol, part := PremiumToProtocol(a.fee, a.bridgeProtocolFee), a.scaledATokenSupply;
    PremiumRaises(part, u.liquidityIndex, next.liquidityIndex, a.fee - toProtocol, RayMul(part, u.liquidityIndex));
    ScaledValue(toProtocol, next.liquidityIndex);
    BridgeSum(Tokens(u, supply), part, RayDiv(toProtocol, next.liquidityIndex), 0, u.liquidityIndex,
              next.liquidityIndex);
  }

  /** With as many tokens in the treasury as in the suppliers' hands, a fee worth the whole supply raises the value
      of all tokens by twice the fee. */
  lemma GiftWorthTheFee(s: Strategy, r: Reserve, a: Action, t: int)
    requires ValidStrategy(s) && Sound(r) && t >= r.lastUpdateTimestamp && a == BackUnbacked(RAY, 0, RAY, 0)
    requires Updated(r, t).liquidityIndex == RAY && Updated(r, t).accruedToTreasuryScaled == RAY
    ensures Enabled(r, a, t)
    ensures var u, next := Updated(r, t), After(s, r, a, t);
            && next.totalLiquidity == r.totalLiquidity + RAY
            && Tokens(next, RAY) * next.liquidityIndex == Tokens(u, RAY) * u.liquidityIndex + 2 * (RAY * RAY)
  {
    hide Sound, After, Updated, RayMul, RayDiv, PremiumToProtocol, CumulateToLiquidityIndex, ValidStrategy;
    RaiseByWholeSupply();
    BackedIndex(s, r, a, t);
    StepLiquidity(s, r, a, t);
  }

  /** A fresh reserve whose treasury has been credited one ray of tokens is such a reserve. */
  lemma CreditedReserve(s: Strategy)
    requires ValidStrategy(s)
    ensures var r := FreshReserve(s, 0, 0, 1).(accruedToTreasuryScaled := RAY);
            && Sound(r) && Updated(r, 1).liquidityIndex == RAY && Updated(r, 1).accruedToTreasuryScaled == RAY
  {
    FreshReserveIsSound(s, 0, 0, 1);
  }

  lemma RaiseByWholeSupply()
    ensures RayMul(RAY, RAY) == RAY && PremiumToProtocol(RAY, 0) == 0
    ensures CumulateToLiquidityIndex(RAY, RAY, RAY) == 2 * RAY && RayDiv(0, 2 * RAY) == 0
  {
  }

  // ---------- One step ----------

  /** Everything one step may leave unbacked, at twice the unit. */
  function StepSlack(s: Strategy, r: Reserve, supply: int, a: Action, t: int): int
    requires RatesCurrent(s, r) && Enabled(r, a, t)
  {
    AfterIndex(s, r, a, t);
    var next := After(s, r, a, t);
    2 * InterestSlack(s, r, t)
    + UNIT * (Max(0, Tokens(r, supply)) + Updated(r, t).liquidityIndex + MoveRounding(r, a, t, next.liquidityIndex)
              + next.variableBorrowIndex + 2 * RAY + 2 * RAY * WrittenOff(r, a, t) + BridgeSlack(s, r, supply, a, t))
  }

  /** Slack in scaled tokens, rounded up. */
  function Dust(slack: int): (dust: int)
    ensures dust >= 1
  {
    Max(0, slack) / (2 * UNIT * RAY) + 1
  }

  function StepDust(s: Strategy, r: Reserve, supply: int, a: Action, t: int): (dust: int)
    requires RatesCurrent(s, r) && Enabled(r, a, t)
    ensures dust >= 1
  {
    Dust(StepSlack(s, r, supply, a, t))
  }

  lemma ClaimsMove(s: Strategy, r: Reserve, a: Action, t: int)
    requires ValidStrategy(s) && Sound(r) && Enabled(r, a, t)
    ensures t >= r.lastUpdateTimestamp
    ensures var next := After(s, r, a, t);
            2 * RAY * Claims(next)
            >= 2 * RAY * (Claims(r) + DebtAccrued(r, Updated(r, t)) + LiquidityFlow(r, a, t) + Flow(r, a, t))
               - 2 * RAY - next.variableBorrowIndex
  {
    hide Sound, After, Enabled, Updated, RayMul, CalcCompoundedInterest, DebtAccrued, Flow, LiquidityFlow;
    EnabledInTime(r, a, t);
    StepLiquidity(s, r, a, t);
    StepBooked(s, r, a, t);
  }

  /** A step keeps all but its own dust of the tokens backed. */
  lemma StepKeepsBacked(s: Strategy, r: Reserve, supply: int, short: int, a: Action, t: int)
    requires RatesCurrent(s, r) && r.reserveFactor == s.reserveFactor
    requires Enabled(r, a, t) && short >= 0 && Backed(r, supply, short)
    ensures Backed(After(s, r, a, t), SupplyAfter(s, r, supply, a, t), short + StepDust(s, r, supply, a, t))
  {
    hide Sound, RatesCurrent, After, Enabled, Updated, DebtAccrued, Claims, Flow, LiquidityFlow,
         WrittenOff, BridgeSlack, InterestSlack, SupplyAfter, MoveRounding;
    SoundOfCurrent(s, r);
    FactorOfCurrent(s, r);
    EnabledInTime(r, a, t);
    AfterIndex(s, r, a, t);
    UpdateKeepsBacked(s, r, supply, short, t);
    TokensMove(s, r, supply, short, a, t);
    ClaimsMove(s, r, a, t);
    var u, next := Updated(r, t), After(s, r, a, t);
    var left := Tokens(next, SupplyAfter(s, r, supply, a, t)) - short;
    CombineStep(left * next.liquidityIndex, (Tokens(u, supply) - short) * u.liquidityIndex,
                Claims(r) + DebtAccrued(r, u), Claims(next), LiquidityFlow(r, a, t) + Flow(r, a, t),
                WrittenOff(r, a, t), InterestSlack(s, r, t), Max(0, Tokens(r, supply)) + u.liquidityIndex,
                MoveRounding(r, a, t, next.liquidityIndex), next.variableBorrowIndex, BridgeSlack(s, r, supply, a, t));
    DustPays(left, next.liquidityIndex, RAY * Claims(next), StepSlack(s, r, supply, a, t));
  }

  lemma CombineStep(after: int, updated: int, claims: int, next: int, flow: int, off: int, slack: int, rounding: int,
                    index: int, variable: int, bridge: int)
    requires UNIT * (2 * (updated - RAY * claims)) <= 2 * slack + UNIT * rounding
    requires 2 * after <= 2 * updated + 2 * RAY * (flow + off) + index + bridge
    requires 2 * RAY * next >= 2 * RAY * (claims + flow) - 2 * RAY - variable
    ensures UNIT * (2 * (after - RAY * next))
            <= 2 * slack + UNIT * (rounding + index + variable + 2 * RAY + 2 * RAY * off + bridge)
  {
  }

  /** Tokens worth no more than the slack beyond the claims are dust. */
  lemma DustPays(tokens: int, index: int, claims: int, slack: int)
    requires index >= RAY && UNIT * (2 * (tokens * index - claims)) <= slack
    ensures (tokens - Dust(slack)) * index <= claims
  {
    DustCovers(slack);
    MulLe(RAY, index, Dust(slack));
    assert (tokens - Dust(slack)) * index == tokens * index - Dust(slack) * index;
  }

  lemma DustCovers(slack: int)
    ensures 2 * UNIT * (Dust(slack) * RAY) >= slack
  {
  }

  // ---------- Over a run ----------

  /** A run in which no variable borrow takes a stable timestamp of zero for "never". */
  ghost predicate IsTimelyRun(s: Strategy, r: Reserve, supply: int, steps: seq<Step>)
    requires RatesCurrent(s, r)
    decreases |steps|
  {
    steps == [] ||
    (var a, t := steps[0].action, steps[0].time;
     && Enabled(r, a, t) && StableTimeKnown(r, a, t)
     && (ActionsSetCurrentRates(s, r, a, t);
         IsTimelyRun(s, After(s, r, a, t), SupplyAfter(s, r, supply, a, t), steps[1..])))
  }

  ghost function EndOf(s: Strategy, r: Reserve, supply: int, steps: seq<Step>): (Reserve, int)
    requires RatesCurrent(s, r) && IsTimelyRun(s, r, supply, steps)
    decreases |steps|
  {
    if steps == [] then (r, supply)
    else
      var a, t := steps[0].action, steps[0].time;
      ActionsSetCurrentRates(s, r, a, t);
      EndOf(s, After(s, r, a, t), SupplyAfter(s, r, supply, a, t), steps[1..])
  }

  ghost function DustOf(s: Strategy, r: Reserve, supply: int, steps: seq<Step>): int
    requires RatesCurrent(s, r) && IsTimelyRun(s, r, supply, steps)
    decreases |steps|
  {
    if steps == [] then 0
    else
      var a, t := steps[0].action, steps[0].time;
      ActionsSetCurrentRates(s, r, a, t);
      StepDust(s, r, supply, a, t) + DustOf(s, After(s, r, a, t), SupplyAfter(s, r, supply, a, t), steps[1..])
  }

  /** Solvency over every such run: suppliers' and treasury's tokens, valued at the liquidity index, stay backed by
      liquidity and debt, up to an explicit dust per step. Beyond roundings that dust holds what a misfiring cap,
      aged stable debt, erased debt and the bridge's gift to the treasury cost, and nothing else. */
  lemma {:induction false} StaysBacked(s: Strategy, r: Reserve, supply: int, short: int, steps: seq<Step>)
    requires RatesCurrent(s, r) && r.reserveFactor == s.reserveFactor && IsTimelyRun(s, r, supply, steps)
    requires short >= 0 && Backed(r, supply, short)
    ensures var (end, supplied) := EndOf(s, r, supply, steps);
            RatesCurrent(s, end) && Backed(end, supplied, short + DustOf(s, r, supply, steps))
    decreases |steps|
  {
    hide Sound, RatesCurrent, After, Enabled, Backed, SupplyAfter, StepDust, StableTimeKnown;
    if steps != [] {
      var a, t := steps[0].action, steps[0].time;
      FactorOfCurrent(s, r);
      SoundOfCurrent(s, r);
      StepKeeps(s, r, a, t);
      StepKeepsBacked(s, r, supply, short, a, t);
      ActionsSetCurrentRates(s, r, a, t);
      StaysBacked(s, After(s, r, a, t), SupplyAfter(s, r, supply, a, t), short + StepDust(s, r, supply, a, t),
                  steps[1..]);
    }
  }

  /** Such runs are runs, with the same end. */
  lemma {:induction false} TimelyRunIsRun(s: Strategy, r: Reserve, supply: int, steps: seq<Step>)
    requires RatesCurrent(s, r) && IsTimelyRun(s, r, supply, steps)
    ensures ValidStrategy(s) && Sound(r) && IsRun(s, r, steps) && EndOf(s, r, supply, steps).0 == Final(s, r, steps)
    decreases |steps|
  {
    hide Sound, RatesCurrent, After, Enabled, SupplyAfter, StableTimeKnown, ValidStrategy;
    FactorOfCurrent(s, r);
    SoundOfCurrent(s, r);
    if steps != [] {
      var a, t := steps[0].action, steps[0].time;
      StepKeeps(s, r, a, t);
      ActionsSetCurrentRates(s, r, a, t);
      TimelyRunIsRun(s, After(s, r, a, t), SupplyAfter(s, r, supply, a, t), steps[1..]);
    }
  }

  /** A fresh reserve, with no tokens yet, is fully backed and carries current rates: solvency starts there. */
  lemma FreshReserveIsBacked(s: Strategy, marketStableRate: int, t: int)
    requires ValidStrategy(s) && marketStableRate >= 0
    ensures var r := FreshReserve(s, s.reserveFactor, marketStableRate, t);
            RatesCurrent(s, r) && Backed(r, 0, 0)
  {
    hide CalcCompoundedInterest;
    FreshReserveIsSound(s, s.reserveFactor, marketStableRate, t);
    RayMulZero(RAY);
    RayMulZero(CalcCompoundedInterest(marketStableRate, t, t));
    NoRateUnused(s);
  }

  lemma NoRateUnused(s: Strategy)
    requires ValidStrategy(s)
    ensures Curve(s.optimalUtilizationRate, s.variableRateSlope1, s.variableRateSlope2, 0) == 0
    ensures Curve(s.optimalUtilizationRate, s.stableRateSlope1, s.stableRateSlope2, 0) == 0
    ensures LiquidityRate(s, 0, 0) == 0
  {
    hide RayDiv;
    RayMulZeroRight(s.variableRateSlope1);
    RayMulZeroRight(s.stableRateSlope1);
    RayDivZero(s.optimalUtilizationRate);
  }

  lemma RayMulZeroRight(x: int)
    ensures RayMul(x, 0) == 0
  {
  }
}
