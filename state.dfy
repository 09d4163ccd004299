/** The program's accounts and the read-only calculations defined on them:
    a market's long/short skew, a position's unrealized PnL, equity and
    liquidation test, and the insurance fund's coverage ratio.
    Prices carry six implied decimals (`FP`); sizes are whole base units. */
module State {

  import opened Common

  /** Fixed-point scale of every `_fp` quantity. */
  const FP: nat := 1_000_000
  /** Protocol-wide leverage ceiling. */
  const MAX_LEVERAGE_X: nat := 40

  /** An account address (32 bytes). */
  type Pubkey = s: seq<bv8> | |s| == 32 witness seq(32, _ => 0)

  /** Protocol configuration, written by the admin instructions. */
  class Config {
    var admin: Pubkey
    var quoteMint: Pubkey
    var feeBps: nat
    var liqFeeBps: nat
    var feeDestination: Pubkey
    var insuranceVault: Pubkey
    var creatorRewardMint: Pubkey
    var creatorRewardBps: nat
    var paused: bool
    var maxPositionsPerUser: nat
    var maxTotalPositions: nat
    var emergencyPauseThreshold: nat
    var circuitBreakerThresholdBps: nat

    /** The bounds `initialize_config` establishes and no admin instruction breaks. */
    ghost predicate Valid()
      reads this
    {
      && feeBps <= 1000
      && liqFeeBps <= 2000
      && creatorRewardBps <= 5000
      && 1 <= maxPositionsPerUser <= 200
      && IsU32(maxTotalPositions)
      && IsU64(emergencyPauseThreshold)
      && 100 <= circuitBreakerThresholdBps <= 5000
    }
  }

  /** The fields of a market that the modelled instructions read or write. */
  class Market {
    var maxPositionBase: nat
    var maintenanceMarginBps: nat
    var takerLeverageCapX: nat
    var totalLongSize: nat
    var totalShortSize: nat
    var totalVolume: nat
    var isPaused: bool

    ghost predicate Valid()
      reads this
    {
      && IsU64(maxPositionBase)
      && IsU16(maintenanceMarginBps)
      && IsU16(takerLeverageCapX)
      && IsU64(totalLongSize)
      && IsU64(totalShortSize)
      && IsU128(totalVolume)
    }
  }

  /** One user's position in one market. `baseSize` is signed: positive
      for a long, negative for a short, zero when there is no position. */
  class UserPosition {
    var owner: Pubkey
    var market: Pubkey
    var isLong: bool
    var baseSize: int
    var entryPriceFp: nat
    var marginDeposited: nat
    var lastFundingSettled: int
    var fundingDebtFp: int
    var liquidationPriceFp: nat
    var lastUpdatedTs: int
    var realizedPnlFp: int
    var totalFeesPaid: nat

    /** Field widths (an i64 size other than i64::MIN, whose `abs` would
        abort), and the direction flag agreeing with the sign of an open size. */
    ghost predicate Valid()
      reads this
    {
      && -I64_MAX <= baseSize <= I64_MAX
      && IsU64(marginDeposited)
      && IsU64(totalFeesPaid)
      && IsI64(lastFundingSettled)
      && IsI64(lastUpdatedTs)
      && (baseSize != 0 ==> (isLong <==> baseSize > 0))
    }
  }

  /** The program's own price account for a market. */
  class OraclePrice {
    var priceFp: nat
    var lastUpdatedTs: int
    var confidenceFp: nat
    var numPublishers: nat
    var isValid: bool

    ghost predicate Valid()
      reads this
    {
      IsI64(lastUpdatedTs) && IsU8(numPublishers)
    }
  }

  class StopLossOrder {
    var owner: Pubkey
    var market: Pubkey
    var positionKey: Pubkey
    var triggerPriceFp: nat
    var closePercentage: nat
    var isActive: bool
    var createdAt: int
    var executedAt: Option<int>
  }

  /** The insurance fund's ledger: what went in and what was paid out. */
  class InsuranceFund {
    var totalDeposits: nat
    var totalClaims: nat
    var vaultAuthority: Pubkey
    var vaultTokenAccount: Pubkey

    ghost predicate Valid()
      reads this
    {
      IsU64(totalDeposits) && IsU64(totalClaims)
    }
  }

  // ---------------------------------------------------------------------
  // Market skew

  /** `Market::skew_ratio` as written: both u64 totals are cast `as u32`
      (keeping their low 32 bits) before the arithmetic. `None` stands for
      the abort of an overflowing u32 product or of a division by a
      truncated divisor of zero. */
  function SkewRatioAsWritten(totalLongSize: nat, totalShortSize: nat): (r: Option<nat>)
    requires IsU64(totalLongSize) && IsU64(totalShortSize)
    ensures r.Some? ==> IsU32(r.value)
    ensures totalShortSize == 0 ==> r == Some(U32_MAX)
  {
    if totalShortSize == 0 then Some(U32_MAX)
    else
      var long32 := AsU32(totalLongSize);
      var short32 := AsU32(totalShortSize);
      if long32 * 10_000 > U32_MAX then None
      else if short32 == 0 then None
      else
        DivByAtLeastOne(long32 * 10_000, short32);
        Some(long32 * 10_000 / short32)
  }

  /** A short side of exactly 2^32 units passes the zero test but truncates
      to a zero divisor: the instruction aborts. */
  lemma SkewRatioTruncatedShortAborts()
    ensures SkewRatioAsWritten(0, U32_MAX + 1) == None
  {
    assert AsU32(U32_MAX + 1) == 0;
  }

  /** 2^32 + 1 longs against one short is reported as a 1:1 market. */
  lemma SkewRatioTruncatedLongMisreports()
    ensures SkewRatioAsWritten(U32_MAX + 2, 1) == Some(10_000)
    ensures SkewRatio(U32_MAX + 2, 1) == U32_MAX
  {
    assert AsU32(U32_MAX + 2) == 1;
    assert AsU32(1) == 1;
  }

  /** Where the as-written ratio does not abort and neither total needs
      more than 32 bits, it agrees with the corrected one. */
  lemma SkewRatioAsWrittenAgrees(totalLongSize: nat, totalShortSize: nat)
    requires IsU32(totalLongSize) && IsU32(totalShortSize)
    requires SkewRatioAsWritten(totalLongSize, totalShortSize).Some?
    ensures SkewRatioAsWritten(totalLongSize, totalShortSize) == Some(SkewRatio(totalLongSize, totalShortSize))
  {
    if totalShortSize > 0 {
      DivByAtLeastOne(totalLongSize * 10_000, totalShortSize);
    }
  }

  /** The long:short ratio in basis points, rounded down and saturating at
      u32::MAX (also the value when there is no short interest). */
  function SkewRatio(totalLongSize: nat, totalShortSize: nat): (r: nat)
    ensures IsU32(r)
    ensures totalShortSize == 0 ==> r == U32_MAX
    ensures totalShortSize > 0 && r < U32_MAX ==>
              r * totalShortSize <= totalLongSize * 10_000 < (r + 1) * totalShortSize
  {
    if totalShortSize == 0 then U32_MAX
    else
      var q := totalLongSize * 10_000 / totalShortSize;
      assert q * totalShortSize <= totalLongSize * 10_000 < (q + 1) * totalShortSize;
      Min(q, U32_MAX)
  }

  /** `Market::is_balanced`: the skew lies between 0.5x and 1.5x, i.e.
      shorts at most twice the longs and longs below 1.5001 times the shorts;
      a market without shorts is never balanced. */
  function IsBalanced(totalLongSize: nat, totalShortSize: nat): (b: bool)
    ensures b <==> totalShortSize > 0
                   && totalShortSize <= 2 * totalLongSize
                   && 10_000 * totalLongSize < 15_001 * totalShortSize
  {
    var skew := SkewRatio(totalLongSize, totalShortSize);
    if totalShortSize > 0 then
      var q := totalLongSize * 10_000 / totalShortSize;
      DivAtMost(totalLongSize * 10_000, totalShortSize, 15_000);
      DivAtMost(totalLongSize * 10_000, totalShortSize, 4_999);
      assert skew == Min(q, U32_MAX);
      5_000 <= skew <= 15_000
    else
      5_000 <= skew <= 15_000
  }

  // ---------------------------------------------------------------------
  // Position valuation

  /** `UserPosition::unrealized_pnl_fp`: the size times the price move,
      divided by FP with Rust's truncation toward zero, signed in the
      position's favour. */
  function UnrealizedPnl(baseSize: int, isLong: bool, entryPriceFp: nat, currentPriceFp: nat): (pnl: int)
    ensures baseSize == 0 ==> pnl == 0
    ensures currentPriceFp == entryPriceFp ==> pnl == 0
    ensures Abs(pnl) * FP <= Abs(baseSize) * Abs(currentPriceFp - entryPriceFp) < (Abs(pnl) + 1) * FP
    ensures (isLong == (currentPriceFp >= entryPriceFp)) ==> pnl >= 0
    ensures (isLong == (currentPriceFp <= entryPriceFp)) ==> pnl <= 0
  {
    if baseSize == 0 then 0
    else
      var size := Abs(baseSize);
      var entryNotional := size * entryPriceFp;
      var currentNotional := size * currentPriceFp;
      assert Abs(currentNotional - entryNotional) == size * Abs(currentPriceFp - entryPriceFp);
      if isLong then TruncDiv(currentNotional - entryNotional, FP)
      else TruncDiv(entryNotional - currentNotional, FP)
  }

  /** A long and a short of the same size and entry have exactly opposite PnL. */
  lemma {:induction false} PnlLongIsNegatedShort(baseSize: int, entryPriceFp: nat, currentPriceFp: nat)
    ensures UnrealizedPnl(baseSize, true, entryPriceFp, currentPriceFp)
         == -UnrealizedPnl(baseSize, false, entryPriceFp, currentPriceFp)
  {
    if baseSize != 0 {
      var size := Abs(baseSize);
      TruncDivNeg(size * currentPriceFp - size * entryPriceFp, FP);
    }
  }

  /** A long gains (weakly) as the price rises, a short loses. */
  lemma {:induction false} PnlMonotoneInPrice(baseSize: int, entryPriceFp: nat, lowerPriceFp: nat, higherPriceFp: nat)
    requires lowerPriceFp <= higherPriceFp
    ensures UnrealizedPnl(baseSize, true, entryPriceFp, lowerPriceFp)
         <= UnrealizedPnl(baseSize, true, entryPriceFp, higherPriceFp)
    ensures UnrealizedPnl(baseSize, false, entryPriceFp, lowerPriceFp)
         >= UnrealizedPnl(baseSize, false, entryPriceFp, higherPriceFp)
  {
    if baseSize != 0 {
      var size := Abs(baseSize);
      MulMono(lowerPriceFp, higherPriceFp, size);
      TruncDivMono(size * lowerPriceFp - size * entryPriceFp, size * higherPriceFp - size * entryPriceFp, FP);
      TruncDivMono(size * entryPriceFp - size * higherPriceFp, size * entryPriceFp - size * lowerPriceFp, FP);
    }
  }

  /** `UserPosition::equity_fp`: margin scaled by FP, plus unrealized PnL,
      minus accumulated funding debt. */
  function EquityFp(marginDeposited: nat, fundingDebtFp: int, baseSize: int, isLong: bool,
                    entryPriceFp: nat, currentPriceFp: nat): (equity: int)
    ensures baseSize == 0 || currentPriceFp == entryPriceFp ==>
              equity == marginDeposited * FP - fundingDebtFp
    ensures (isLong == (currentPriceFp >= entryPriceFp)) ==> equity >= marginDeposited * FP - fundingDebtFp
    ensures (isLong == (currentPriceFp <= entryPriceFp)) ==> equity <= marginDeposited * FP - fundingDebtFp
  {
    marginDeposited * FP + UnrealizedPnl(baseSize, isLong, entryPriceFp, currentPriceFp) - fundingDebtFp
  }

  /** The maintenance requirement that `is_liquidatable`, `enhanced_liquidate`
      and `modify_position_margin` all compute: the notional `size * price / FP`
      (rounded down) times `maintenance_margin_bps / 10000` (rounded down). */
  function MaintenanceRequirement(absSize: nat, priceFp: nat, maintenanceMarginBps: nat): (req: nat)
    ensures req * 10_000 * FP <= absSize * priceFp * maintenanceMarginBps
    ensures maintenanceMarginBps == 0 || absSize == 0 || priceFp == 0 ==> req == 0
    ensures maintenanceMarginBps <= 10_000 ==> req <= absSize * priceFp / FP
  {
    var notional := absSize * priceFp / FP;
    var req := notional * maintenanceMarginBps / 10_000;
    RequirementBounds(absSize, priceFp, maintenanceMarginBps, notional, req);
    req
  }

  /** The two roundings of the maintenance requirement keep it under the
      exact requirement, and under the notional for a ratio up to 100%. */
  lemma RequirementBounds(absSize: nat, priceFp: nat, maintenanceMarginBps: nat, notional: nat, req: nat)
    requires notional == absSize * priceFp / FP
    requires req == notional * maintenanceMarginBps / 10_000
    ensures req * 10_000 * FP <= absSize * priceFp * maintenanceMarginBps
    ensures maintenanceMarginBps == 0 || absSize == 0 || priceFp == 0 ==> req == 0
    ensures maintenanceMarginBps <= 10_000 ==> req <= notional
  {
    assert req * 10_000 * FP <= absSize * priceFp * maintenanceMarginBps by {
      FloorDivBounds(absSize * priceFp, FP);
      FloorDivBounds(notional * maintenanceMarginBps, 10_000);
      MulMono(req * 10_000, notional * maintenanceMarginBps, FP);
      assert notional * maintenanceMarginBps * FP == notional * FP * maintenanceMarginBps;
      MulMono(notional * FP, absSize * priceFp, maintenanceMarginBps);
    }
    if maintenanceMarginBps == 0 || absSize == 0 || priceFp == 0 {
      assert notional * maintenanceMarginBps == 0 by {
        if maintenanceMarginBps != 0 {
          assert absSize * priceFp == 0;
        }
      }
    }
    if maintenanceMarginBps <= 10_000 {
      MulMono(maintenanceMarginBps, 10_000, notional);
      DivMono(notional * maintenanceMarginBps, notional * 10_000, 10_000);
      DivUnique(notional * 10_000, 10_000, notional, 0);
    }
  }

  /** `UserPosition::is_liquidatable`: an open position whose equity is
      below the maintenance requirement at the current price. */
  function IsLiquidatable(baseSize: int, isLong: bool, entryPriceFp: nat, marginDeposited: nat,
                          fundingDebtFp: int, currentPriceFp: nat, maintenanceMarginBps: nat): (liq: bool)
    ensures baseSize == 0 ==> !liq
    ensures liq ==> EquityFp(marginDeposited, fundingDebtFp, baseSize, isLong, entryPriceFp, currentPriceFp)
                    < MaintenanceRequirement(Abs(baseSize), currentPriceFp, maintenanceMarginBps)
  {
    if baseSize == 0 then false
    else
      EquityFp(marginDeposited, fundingDebtFp, baseSize, isLong, entryPriceFp, currentPriceFp)
        < MaintenanceRequirement(Abs(baseSize), currentPriceFp, maintenanceMarginBps)
  }

  /** With no maintenance requirement, a position is liquidatable exactly
      when it is open and its equity is negative. */
  lemma LiquidatableWithoutMaintenance(baseSize: int, isLong: bool, entryPriceFp: nat, marginDeposited: nat,
                                       fundingDebtFp: int, currentPriceFp: nat)
    ensures IsLiquidatable(baseSize, isLong, entryPriceFp, marginDeposited, fundingDebtFp, currentPriceFp, 0)
        <==> baseSize != 0 && EquityFp(marginDeposited, fundingDebtFp, baseSize, isLong, entryPriceFp, currentPriceFp) < 0
  {
  }

  /** Adding margin never turns a safe position into a liquidatable one. */
  lemma LiquidatableAntitoneInMargin(baseSize: int, isLong: bool, entryPriceFp: nat, lessMargin: nat, moreMargin: nat,
                                     fundingDebtFp: int, currentPriceFp: nat, maintenanceMarginBps: nat)
    requires lessMargin <= moreMargin
    ensures IsLiquidatable(baseSize, isLong, entryPriceFp, moreMargin, fundingDebtFp, currentPriceFp, maintenanceMarginBps)
        ==> IsLiquidatable(baseSize, isLong, entryPriceFp, lessMargin, fundingDebtFp, currentPriceFp, maintenanceMarginBps)
  {
  }

  /** A long's equity rises (weakly) with the price and a short's falls,
      margin and funding debt held fixed. */
  lemma {:induction false} EquityMonotoneInPrice(marginDeposited: nat, fundingDebtFp: int, baseSize: int,
                                                       entryPriceFp: nat, lowerPriceFp: nat, higherPriceFp: nat)
    requires lowerPriceFp <= higherPriceFp
    ensures EquityFp(marginDeposited, fundingDebtFp, baseSize, true, entryPriceFp, lowerPriceFp)
         <= EquityFp(marginDeposited, fundingDebtFp, baseSize, true, entryPriceFp, higherPriceFp)
    ensures EquityFp(marginDeposited, fundingDebtFp, baseSize, false, entryPriceFp, lowerPriceFp)
         >= EquityFp(marginDeposited, fundingDebtFp, baseSize, false, entryPriceFp, higherPriceFp)
  {
    PnlMonotoneInPrice(baseSize, entryPriceFp, lowerPriceFp, higherPriceFp);
  }

  // ---------------------------------------------------------------------
  // Insurance fund coverage

  /** `InsuranceFund::fund_ratio`: deposits over claims in basis points,
      rounded down; u64::MAX when nothing has been claimed. The product
      `deposits * 10000` is a u64 and must not overflow. */
  function FundRatio(totalDeposits: nat, totalClaims: nat): (r: nat)
    requires IsU64(totalDeposits) && IsU64(totalClaims)
    requires totalClaims == 0 || totalDeposits * 10_000 <= U64_MAX
    ensures IsU64(r)
    ensures totalClaims == 0 ==> r == U64_MAX
    ensures totalClaims > 0 ==> r * totalClaims <= totalDeposits * 10_000 < (r + 1) * totalClaims
  {
    if totalClaims == 0 then U64_MAX
    else
      DivByAtLeastOne(totalDeposits * 10_000, totalClaims);
      totalDeposits * 10_000 / totalClaims
  }

  /** `InsuranceFund::is_healthy`: coverage strictly above 150%, which for
      rounded-down basis points means deposits of at least 1.5001 times the
      claims; a fund with no claims is healthy. */
  function IsHealthy(totalDeposits: nat, totalClaims: nat): (h: bool)
    requires IsU64(totalDeposits) && IsU64(totalClaims)
    requires totalClaims == 0 || totalDeposits * 10_000 <= U64_MAX
    ensures h <==> totalClaims == 0 || 10_000 * totalDeposits >= 15_001 * totalClaims
  {
    if totalClaims > 0 then
      DivAtMost(totalDeposits * 10_000, totalClaims, 15_000);
      FundRatio(totalDeposits, totalClaims) > 15_000
    else
      FundRatio(totalDeposits, totalClaims) > 15_000
  }
}
