/** Liquidation of an under-margined position, in full or by a
    percentage, with the fee split between liquidator and protocol and any
    shortfall credited to the insurance fund; and the insurance fund's own
    ledger: initialisation, deposits, withdrawals and contributions. The
    closed portion is valued exactly as a partial close values it. */
module EnhancedLiquidation {

  import opened Common
  import opened Errors
  import opened State
  import opened Oracle
  import opened AdvancedPosition

  // ---------------------------------------------------------------------
  // Amounts

  /** The liquidation fee split: half (rounded down) to the liquidator, the
      rest to the protocol. Nothing is lost and the protocol gets the odd
      unit. */
  function SplitLiquidationFee(liquidationFee: nat): (split: (nat, nat))
    ensures split.0 + split.1 == liquidationFee
    ensures split.0 <= split.1 <= split.0 + 1
  {
    var liquidatorReward := liquidationFee / 2;
    (liquidatorReward, liquidationFee - liquidatorReward)
  }

  /** The settlement before fees: exit notional plus a gain, or less a loss.
      The unsigned subtraction needs the loss to be at most the exit notional. */
  predicate SettlementBaseDefined(exitNotional: nat, pnl: int)
  {
    pnl >= 0 || -pnl <= exitNotional
  }

  function SettlementBase(exitNotional: nat, pnl: int): (base: nat)
    requires SettlementBaseDefined(exitNotional, pnl)
    ensures base == exitNotional + pnl
  {
    if pnl >= 0 then exitNotional + pnl else exitNotional - (-pnl)
  }

  /** The settlement base is always defined for a short; for a long it is
      defined exactly when the exit notional is at least half the entry
      notional. */
  lemma SettlementBaseDefinedCases(liquidationSize: nat, entryPriceFp: nat, markPriceFp: nat)
    ensures SettlementBaseDefined(liquidationSize * markPriceFp / FP,
                                  PartialClosePnl(liquidationSize, entryPriceFp, markPriceFp, false))
    ensures SettlementBaseDefined(liquidationSize * markPriceFp / FP,
                                  PartialClosePnl(liquidationSize, entryPriceFp, markPriceFp, true))
        <==> 2 * (liquidationSize * markPriceFp / FP) >= liquidationSize * entryPriceFp / FP
  {
  }

  /** A long whose price has fallen to a third of its entry, with margin
      below the 5% maintenance requirement, so it is liquidatable, yet its
      settlement base underflows: the source aborts instead of liquidating. */
  lemma DeepLossLongUnderflows()
    ensures MaintenanceRequirement(10_000, FP, 500) == 500
    ensures !SettlementBaseDefined(10_000 * FP / FP, PartialClosePnl(10_000, 3 * FP, FP, true))
  {
  }

  /** The settlement base floored at zero, as the `saturating_sub` that
      follows it in the source suggests was meant. It is the source's value
      wherever that is defined. */
  function ClampedSettlementBase(exitNotional: nat, pnl: int): (base: nat)
    ensures base == Max(0, exitNotional + pnl)
    ensures SettlementBaseDefined(exitNotional, pnl) ==> base == SettlementBase(exitNotional, pnl)
  {
    if pnl >= 0 then exitNotional + pnl else SaturatingSub(exitNotional, -pnl)
  }

  /** The shortfall against the position's margin: what the net settlement
      fails to cover, zero when it covers it all. */
  function LiquidationDeficit(marginDeposited: nat, netSettlement: nat): (deficit: nat)
    ensures deficit == Max(0, marginDeposited - netSettlement)
    ensures deficit <= marginDeposited
    ensures deficit == 0 <==> netSettlement >= marginDeposited
  {
    if netSettlement < marginDeposited then marginDeposited - netSettlement else 0
  }

  /** `calculate_optimal_liquidation_size`: the given percentage of the
      position (cast to u64), capped at the whole position. Up to 100% it is
      exactly the percentage of the position, rounded down. */
  function CalculateOptimalLiquidationSize(baseSize: int, markPriceFp: nat, maxPercentage: nat): (r: Result<nat>)
    requires -I64_MAX <= baseSize <= I64_MAX && IsU8(maxPercentage)
    ensures r.Ok?
    ensures r.value <= Abs(baseSize)
    ensures maxPercentage <= 100 ==> r.value == CloseSize(Abs(baseSize), maxPercentage)
  {
    var positionSize := Abs(baseSize);
    var maxLiquidationSize := AsU64(positionSize * maxPercentage / 100);
    assert maxPercentage <= 100 ==> positionSize * maxPercentage / 100 <= positionSize by {
      if maxPercentage <= 100 {
        MulMono(maxPercentage, 100, positionSize);
        DivAtMost(positionSize * maxPercentage, 100, positionSize);
      }
    }
    Ok(Min(maxLiquidationSize, positionSize))
  }

  // ---------------------------------------------------------------------
  // Insurance fund ledger

  /** `initialize_insurance_fund`: an empty ledger owned by the
      configuration account, which the fund ratio reports as fully covered. */
  method InitializeInsuranceFund(fund: InsuranceFund, configKey: Pubkey, vaultTokenKey: Pubkey)
    modifies fund
    ensures fund.Valid()
    ensures fund.totalDeposits == 0 && fund.totalClaims == 0
    ensures fund.vaultAuthority == configKey && fund.vaultTokenAccount == vaultTokenKey
    ensures FundRatio(fund.totalDeposits, fund.totalClaims) == U64_MAX
    ensures IsHealthy(fund.totalDeposits, fund.totalClaims)
  {
    fund.totalDeposits := 0;
    fund.totalClaims := 0;
    fund.vaultAuthority := configKey;
    fund.vaultTokenAccount := vaultTokenKey;
  }

  /** `deposit_insurance_fund`: a zero amount is `InvalidMarketParameters`,
      a total beyond u64 is `MathOverflow`; otherwise the deposits grow by
      the amount and nothing else changes. A deposit never turns a healthy
      fund unhealthy. */
  method DepositInsuranceFund(fund: InsuranceFund, amount: nat) returns (r: Result<()>)
    requires fund.Valid() && IsU64(amount)
    modifies fund
    ensures fund.Valid()
    ensures amount == 0 ==> r == Err(InvalidMarketParameters)
    ensures amount > 0 && old(fund.totalDeposits) + amount > U64_MAX ==> r == Err(MathOverflow)
    ensures r.Ok? <==> amount > 0 && old(fund.totalDeposits) + amount <= U64_MAX
    ensures r.Err? ==> unchanged(fund)
    ensures r.Ok? ==> fund.totalDeposits == old(fund.totalDeposits) + amount
    ensures fund.totalClaims == old(fund.totalClaims)
    ensures fund.vaultAuthority == old(fund.vaultAuthority) && fund.vaultTokenAccount == old(fund.vaultTokenAccount)
    ensures (r.Ok? && fund.totalDeposits * 10_000 <= U64_MAX
             && IsHealthy(old(fund.totalDeposits), old(fund.totalClaims))) ==> IsHealthy(fund.totalDeposits, fund.totalClaims)
  {
    if amount == 0 { return Err(InvalidMarketParameters); }
    if fund.totalDeposits + amount > U64_MAX { return Err(MathOverflow); }
    fund.totalDeposits := fund.totalDeposits + amount;
    return Ok(());
  }

  /** `withdraw_insurance_fund`: a zero amount or a reason longer than 200
      bytes is `InvalidMarketParameters`, an amount above the deposits
      `InsufficientBalance`, claims beyond u64 `MathOverflow`; otherwise
      the claims grow by the amount, which is paid out, and the deposits are
      left as they were. A withdrawal never turns an unhealthy fund
      healthy. */
  method WithdrawInsuranceFund(fund: InsuranceFund, amount: nat, reason: seq<bv8>) returns (r: Result<nat>)
    requires fund.Valid() && IsU64(amount)
    modifies fund
    ensures fund.Valid()
    ensures amount == 0 || |reason| > 200 ==> r == Err(InvalidMarketParameters)
    ensures amount > 0 && |reason| <= 200 && amount > old(fund.totalDeposits) ==> r == Err(InsufficientBalance)
    ensures (0 < amount <= old(fund.totalDeposits) && |reason| <= 200
             && old(fund.totalClaims) + amount > U64_MAX) ==> r == Err(MathOverflow)
    ensures r.Ok? <==> 0 < amount <= old(fund.totalDeposits) && |reason| <= 200
                       && old(fund.totalClaims) + amount <= U64_MAX
    ensures r.Err? ==> unchanged(fund)
    ensures r.Ok? ==> r.value == amount && fund.totalClaims == old(fund.totalClaims) + amount
    ensures fund.totalDeposits == old(fund.totalDeposits)
    ensures fund.vaultAuthority == old(fund.vaultAuthority) && fund.vaultTokenAccount == old(fund.vaultTokenAccount)
    ensures (r.Ok? && fund.totalDeposits * 10_000 <= U64_MAX
             && IsHealthy(fund.totalDeposits, fund.totalClaims)) ==> IsHealthy(old(fund.totalDeposits), old(fund.totalClaims))
  {
    if amount == 0 { return Err(InvalidMarketParameters); }
    if |reason| > 200 { return Err(InvalidMarketParameters); }
    if amount > fund.totalDeposits { return Err(InsufficientBalance); }
    if fund.totalClaims + amount > U64_MAX { return Err(MathOverflow); }
    fund.totalClaims := fund.totalClaims + amount;
    return Ok(amount);
  }

  /** `contribute_to_insurance_fund`: credits the deposits, saturating at
      u64::MAX; a zero amount changes nothing. */
  method ContributeToInsuranceFund(fund: InsuranceFund, amount: nat)
    requires fund.Valid() && IsU64(amount)
    modifies fund
    ensures fund.Valid()
    ensures amount == 0 ==> unchanged(fund)
    ensures fund.totalDeposits == SaturatingAddU64(old(fund.totalDeposits), amount)
    ensures fund.totalClaims == old(fund.totalClaims)
    ensures fund.vaultAuthority == old(fund.vaultAuthority) && fund.vaultTokenAccount == old(fund.vaultTokenAccount)
  {
    if amount == 0 {
      return;
    }
    fund.totalDeposits := SaturatingAddU64(fund.totalDeposits, amount);
  }

  // ---------------------------------------------------------------------
  // Liquidation

  /** Every check of `enhanced_liquidate` passes: a percentage in 1..100, a
      running market, a fresh price, an open position, and a margin below
      the maintenance requirement at that price. */
  ghost predicate LiquidationProceeds(market: Market, position: UserPosition, oracle: OraclePrice,
                                      maxLiquidationPercentage: nat, now: int)
    reads market, position, oracle
  {
    && 0 < maxLiquidationPercentage <= 100
    && !market.isPaused
    && ReadOracleFp(oracle.priceFp, oracle.lastUpdatedTs, now).Ok?
    && position.baseSize != 0
    && position.marginDeposited
       < MaintenanceRequirement(Abs(position.baseSize), oracle.priceFp, market.maintenanceMarginBps)
  }

  /** What a liquidation moves: the size taken, the PnL of that portion,
      the liquidator's reward and the protocol's fee (each over FP, cast to
      u64), and the shortfall credited to the insurance fund. */
  datatype LiquidationOutcome = LiquidationOutcome(
    liquidationSize: nat, pnl: int, liquidatorReward: nat, protocolFee: nat, insuranceContribution: nat)

  /** The position after a liquidation: wiped when everything was taken,
      otherwise the rest of the size with the margin scaled down in
      proportion. */
  method ReducePosition(position: UserPosition, liquidationSize: nat, maxLiquidationPercentage: nat)
    requires position.Valid() && position.baseSize != 0
    requires 0 < maxLiquidationPercentage <= 100
    requires liquidationSize == CloseSize(Abs(position.baseSize), maxLiquidationPercentage)
    modifies position
    ensures position.Valid()
    ensures maxLiquidationPercentage == 100 ==>
              position.baseSize == 0 && position.marginDeposited == 0 && !position.isLong && position.entryPriceFp == 0
    ensures maxLiquidationPercentage < 100 ==>
              var originalSize := Abs(old(position.baseSize));
              && Abs(position.baseSize) == originalSize - liquidationSize > 0
              && (position.baseSize > 0 <==> old(position.baseSize) > 0)
              && position.marginDeposited == ScaledMargin(old(position.marginDeposited), originalSize - liquidationSize, originalSize)
              && position.isLong == old(position.isLong) && position.entryPriceFp == old(position.entryPriceFp)
    ensures position.realizedPnlFp == old(position.realizedPnlFp) && position.totalFeesPaid == old(position.totalFeesPaid)
    ensures position.fundingDebtFp == old(position.fundingDebtFp) && position.lastUpdatedTs == old(position.lastUpdatedTs)
    ensures position.lastFundingSettled == old(position.lastFundingSettled)
    ensures position.liquidationPriceFp == old(position.liquidationPriceFp)
    ensures position.owner == old(position.owner) && position.market == old(position.market)
  {
    var originalSize := Abs(position.baseSize);
    if maxLiquidationPercentage == 100 {
      position.baseSize := 0;
    } else if position.isLong {
      position.baseSize := position.baseSize - liquidationSize;
    } else {
      position.baseSize := position.baseSize + liquidationSize;
    }
    if maxLiquidationPercentage == 100 || position.baseSize == 0 {
      position.baseSize := 0;
      position.marginDeposited := 0;
      position.isLong := false;
      position.entryPriceFp := 0;
    } else {
      var remainingSize := originalSize - liquidationSize;
      position.marginDeposited := ScaledMargin(position.marginDeposited, remainingSize, originalSize);
    }
  }

  /** The market side of a liquidation: the taken size leaves the
      position's side, saturating at zero. */
  method ReduceOpenInterest(market: Market, isLong: bool, liquidationSize: nat)
    requires market.Valid()
    modifies market
    ensures market.Valid()
    ensures market.totalLongSize == (if isLong then SaturatingSub(old(market.totalLongSize), liquidationSize) else old(market.totalLongSize))
    ensures market.totalShortSize == (if isLong then old(market.totalShortSize) else SaturatingSub(old(market.totalShortSize), liquidationSize))
    ensures market.totalVolume == old(market.totalVolume) && market.isPaused == old(market.isPaused)
    ensures market.maxPositionBase == old(market.maxPositionBase)
    ensures market.maintenanceMarginBps == old(market.maintenanceMarginBps)
    ensures market.takerLeverageCapX == old(market.takerLeverageCapX)
  {
    if isLong {
      market.totalLongSize := SaturatingSub(market.totalLongSize, liquidationSize);
    } else {
      market.totalShortSize := SaturatingSub(market.totalShortSize, liquidationSize);
    }
  }

  /** `enhanced_liquidate`: a percentage outside 1..100 is
      `InvalidMarketParameters`, a paused market `MarketPaused`, a stale or
      zero price `BadOracle`, an empty position `PositionNotFound`, and a
      margin at or above the maintenance requirement
      `PositionNotLiquidatable`. Otherwise the percentage of the position is
      taken at the mark; the fee on it goes half to the liquidator and half
      to the protocol; the part of the margin the net settlement does not
      cover is credited to the insurance fund; the position is reduced or
      wiped; and the market side shrinks by the size taken. */
  method EnhancedLiquidate(cfg: Config, market: Market, position: UserPosition, oracle: OraclePrice,
                           fund: InsuranceFund, maxLiquidationPercentage: nat, now: int)
    returns (r: Result<LiquidationOutcome>)
    requires cfg.Valid() && market.Valid() && position.Valid() && oracle.Valid() && fund.Valid()
    requires IsU8(maxLiquidationPercentage)
    modifies market, position, fund
    ensures market.Valid() && position.Valid() && fund.Valid()
    ensures !(0 < maxLiquidationPercentage <= 100) ==> r == Err(InvalidMarketParameters)
    ensures 0 < maxLiquidationPercentage <= 100 && old(market.isPaused) ==> r == Err(MarketPaused)
    ensures (0 < maxLiquidationPercentage <= 100 && !old(market.isPaused)
             && ReadOracleFp(oracle.priceFp, oracle.lastUpdatedTs, now).Err?) ==> r == Err(BadOracle)
    ensures (0 < maxLiquidationPercentage <= 100 && !old(market.isPaused)
             && ReadOracleFp(oracle.priceFp, oracle.lastUpdatedTs, now).Ok? && old(position.baseSize) == 0)
            ==> r == Err(PositionNotFound)
    ensures (0 < maxLiquidationPercentage <= 100 && !old(market.isPaused)
             && ReadOracleFp(oracle.priceFp, oracle.lastUpdatedTs, now).Ok? && old(position.baseSize) != 0
             && old(position.marginDeposited)
                >= MaintenanceRequirement(Abs(old(position.baseSize)), oracle.priceFp, old(market.maintenanceMarginBps)))
            ==> r == Err(PositionNotLiquidatable)
    ensures r.Ok? <==> old(LiquidationProceeds(market, position, oracle, maxLiquidationPercentage, now))
    ensures r.Err? ==> unchanged(market) && unchanged(position) && unchanged(fund)
    ensures r.Ok? ==>
              var originalSize := Abs(old(position.baseSize));
              var size := CloseSize(originalSize, maxLiquidationPercentage);
              var exit := size * oracle.priceFp / FP;
              var pnl := PartialClosePnl(size, old(position.entryPriceFp), oracle.priceFp, old(position.isLong));
              var fee := PartialCloseFee(exit, cfg.feeBps);
              var split := SplitLiquidationFee(fee);
              var deficit := LiquidationDeficit(old(position.marginDeposited), SaturatingSub(ClampedSettlementBase(exit, pnl), fee));
              && r.value == LiquidationOutcome(size, pnl, AsU64(split.0 / FP), AsU64(split.1 / FP), AsU64(deficit / FP))
              && fund.totalDeposits == SaturatingAddU64(old(fund.totalDeposits), AsU64(deficit / FP))
              && fund.totalClaims == old(fund.totalClaims)
    ensures r.Ok? && maxLiquidationPercentage == 100 ==>
              position.baseSize == 0 && position.marginDeposited == 0 && !position.isLong && position.entryPriceFp == 0
    ensures r.Ok? && maxLiquidationPercentage < 100 ==>
              var originalSize := Abs(old(position.baseSize));
              var size := r.value.liquidationSize;
              && Abs(position.baseSize) == originalSize - size > 0
              && (position.baseSize > 0 <==> old(position.baseSize) > 0)
              && position.marginDeposited == ScaledMargin(old(position.marginDeposited), originalSize - size, originalSize)
              && position.isLong == old(position.isLong) && position.entryPriceFp == old(position.entryPriceFp)
    ensures r.Ok? ==>
              && position.realizedPnlFp == old(position.realizedPnlFp)
              && position.totalFeesPaid == old(position.totalFeesPaid)
              && position.fundingDebtFp == old(position.fundingDebtFp)
              && position.lastUpdatedTs == old(position.lastUpdatedTs)
              && position.lastFundingSettled == old(position.lastFundingSettled)
              && position.liquidationPriceFp == old(position.liquidationPriceFp)
              && position.owner == old(position.owner) && position.market == old(position.market)
    ensures r.Ok? ==>
              && market.isPaused == old(market.isPaused) && market.maxPositionBase == old(market.maxPositionBase)
              && market.maintenanceMarginBps == old(market.maintenanceMarginBps)
              && market.takerLeverageCapX == old(market.takerLeverageCapX)
    ensures fund.vaultAuthority == old(fund.vaultAuthority) && fund.vaultTokenAccount == old(fund.vaultTokenAccount)
    ensures r.Ok? ==>
              var size := r.value.liquidationSize;
              && market.totalLongSize
                 == (if old(position.isLong) then SaturatingSub(old(market.totalLongSize), size) else old(market.totalLongSize))
              && market.totalShortSize
                 == (if old(position.isLong) then old(market.totalShortSize) else SaturatingSub(old(market.totalShortSize), size))
              && market.totalVolume == old(market.totalVolume)
  {
    if !(0 < maxLiquidationPercentage <= 100) { return Err(InvalidMarketParameters); }
    if market.isPaused { return Err(MarketPaused); }

    var read := ReadOracleFp(oracle.priceFp, oracle.lastUpdatedTs, now);
    if read.Err? { return Err(read.error); }
    var markFp := read.value;

    var positionIsLong := position.isLong;
    var positionBaseSize := position.baseSize;
    var positionMargin := position.marginDeposited;
    if positionBaseSize == 0 { return Err(PositionNotFound); }

    var requiredMargin := MaintenanceRequirement(Abs(positionBaseSize), markFp, market.maintenanceMarginBps);
    if positionMargin >= requiredMargin { return Err(PositionNotLiquidatable); }

    var originalSize := Abs(positionBaseSize);
    var liquidationSize := CloseSize(originalSize, maxLiquidationPercentage);

    var exitNotional := liquidationSize * markFp / FP;
    var pnl := PartialClosePnl(liquidationSize, position.entryPriceFp, markFp, positionIsLong);
    var liquidationFee := PartialCloseFee(exitNotional, cfg.feeBps);
    var split := SplitLiquidationFee(liquidationFee);

    // The source subtracts without saturating here and aborts on a deep
    // loss; the clamped base lets such a position be liquidated.
    var settlementBase := ClampedSettlementBase(exitNotional, pnl);
    var netSettlement := SaturatingSub(settlementBase, liquidationFee);
    var deficit := LiquidationDeficit(positionMargin, netSettlement);

    if deficit > 0 {
      ContributeToInsuranceFund(fund, AsU64(deficit / FP));
    } else {
      assert AsU64(deficit / FP) == 0;
    }
    ReducePosition(position, liquidationSize, maxLiquidationPercentage);
    ReduceOpenInterest(market, positionIsLong, liquidationSize);
    return Ok(LiquidationOutcome(liquidationSize, pnl, AsU64(split.0 / FP), AsU64(split.1 / FP), AsU64(deficit / FP)));
  }
}
