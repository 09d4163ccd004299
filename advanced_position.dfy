/** Managing an open position: closing a percentage of it, adding or
    removing margin, and placing a stop-loss order. Prices come from the
    program's own price account read with the default freshness rule;
    token transfers are the amounts the instructions return. */
module AdvancedPosition {

  import opened Common
  import opened Errors
  import opened State
  import opened Oracle

  // ---------------------------------------------------------------------
  // Partial close

  /** The size a partial close removes: the stated percentage of the
      position, rounded down. Below 100% it never takes the whole position. */
  function CloseSize(originalSize: nat, closePercentage: nat): (closeSize: nat)
    requires IsU64(originalSize) && closePercentage <= 100
    ensures closeSize * 100 <= originalSize * closePercentage < (closeSize + 1) * 100
    ensures closePercentage < 100 && originalSize > 0 ==> closeSize < originalSize
  {
    var product := originalSize * closePercentage;
    MulMono(closePercentage, 100, originalSize);
    DivAtMost(product, 100, originalSize);
    DivAtMost(product, 100, product / 100);
    assert closePercentage < 100 && originalSize > 0 ==> product / 100 < originalSize by {
      if closePercentage < 100 && originalSize > 0 {
        MulMono(closePercentage, 99, originalSize);
        DivAtMost(product, 100, originalSize - 1);
      }
    }
    AsU64(product / 100)
  }

  /** The margin kept after a partial close: the margin times the
      fixed-point ratio `remaining * FP / original`, over FP. It is never
      more than the remaining share of the margin, so never more than the
      margin itself. */
  function ScaledMargin(marginDeposited: nat, remainingSize: nat, originalSize: nat): (kept: nat)
    requires IsU64(marginDeposited) && remainingSize <= originalSize && originalSize > 0
    ensures kept * originalSize <= marginDeposited * remainingSize
    ensures kept <= marginDeposited
  {
    var remainingRatio := remainingSize * FP / originalSize;
    var scaled := marginDeposited * remainingRatio / FP;
    ScaledMarginBounds(marginDeposited, remainingSize, originalSize, remainingRatio, scaled);
    AsU64(scaled)
  }

  /** The two roundings of `ScaledMargin` keep it under both the margin and
      the exact remaining share of the margin. */
  lemma ScaledMarginBounds(marginDeposited: nat, remainingSize: nat, originalSize: nat, remainingRatio: nat, scaled: nat)
    requires remainingSize <= originalSize && originalSize > 0
    requires remainingRatio == remainingSize * FP / originalSize
    requires scaled == marginDeposited * remainingRatio / FP
    ensures scaled <= marginDeposited
    ensures scaled * originalSize <= marginDeposited * remainingSize
  {
    FloorDivBounds(remainingSize * FP, originalSize);
    FloorDivBounds(marginDeposited * remainingRatio, FP);
    assert remainingRatio <= FP by {
      MulMono(remainingSize, originalSize, FP);
      DivMono(remainingSize * FP, originalSize * FP, originalSize);
      DivUnique(originalSize * FP, originalSize, FP, 0);
    }
    assert scaled <= marginDeposited by {
      MulMono(remainingRatio, FP, marginDeposited);
      DivMono(marginDeposited * remainingRatio, marginDeposited * FP, FP);
      DivUnique(marginDeposited * FP, FP, marginDeposited, 0);
    }
    ProportionThroughRatio(marginDeposited, remainingRatio, scaled, remainingSize, originalSize, FP);
  }

  /** Scaling by a rounded-down ratio never exceeds scaling by the exact
      proportion: from `s * f <= m * q` and `q * o <= n * f`, `s * o <= m * n`. */
  lemma ProportionThroughRatio(m: nat, q: nat, s: nat, n: nat, o: nat, f: nat)
    requires f > 0
    requires s * f <= m * q
    requires q * o <= n * f
    ensures s * o <= m * n
  {
    calc {
      (s * o) * f;
    ==
      (s * f) * o;
    <= { MulMono(s * f, m * q, o); }
      (m * q) * o;
    ==
      m * (q * o);
    <= { MulMono(q * o, n * f, m); }
      m * (n * f);
    ==
      (m * n) * f;
    }
    if s * o > m * n {
      MulMono(m * n + 1, s * o, f);
    }
  }

  /** The partial-close fee: `exit * fee_bps / (10000 * FP)`. */
  function PartialCloseFee(closeNotionalExit: nat, feeBps: nat): (fee: nat)
    ensures feeBps <= 10_000 ==> fee <= closeNotionalExit
  {
    assert feeBps <= 10_000 ==> closeNotionalExit * feeBps / (10_000 * FP) <= closeNotionalExit by {
      if feeBps <= 10_000 {
        MulMono(feeBps, 10_000 * FP, closeNotionalExit);
        DivMono(closeNotionalExit * feeBps, closeNotionalExit * (10_000 * FP), 10_000 * FP);
      }
    }
    closeNotionalExit * feeBps / (10_000 * FP)
  }

  /** The partial-close settlement: exit notional less fee, plus a gain or
      less a loss (the latter saturating). Whatever the sign of the PnL it is
      the exit less fee plus PnL, floored at zero. */
  function PartialSettlement(closeNotionalExit: nat, fee: nat, pnl: int): (s: nat)
    requires fee <= closeNotionalExit
    ensures s == Max(0, closeNotionalExit - fee + pnl)
  {
    if pnl >= 0 then (closeNotionalExit - fee) + pnl
    else SaturatingSub(closeNotionalExit - fee, -pnl)
  }

  /** The PnL of the closed portion: the change in its notional (each
      notional rounded down to whole quote units), in the position's favour. */
  function PartialClosePnl(closeSize: nat, entryPriceFp: nat, markPriceFp: nat, isLong: bool): (pnl: int)
    ensures entryPriceFp == markPriceFp ==> pnl == 0
    ensures (isLong == (markPriceFp >= entryPriceFp)) ==> pnl >= 0
    ensures (isLong == (markPriceFp <= entryPriceFp)) ==> pnl <= 0
  {
    var closeNotionalEntry := closeSize * entryPriceFp / FP;
    var closeNotionalExit := closeSize * markPriceFp / FP;
    assert markPriceFp >= entryPriceFp ==> closeNotionalExit >= closeNotionalEntry by {
      if markPriceFp >= entryPriceFp {
        MulMono(entryPriceFp, markPriceFp, closeSize);
        DivMono(closeSize * entryPriceFp, closeSize * markPriceFp, FP);
      }
    }
    assert markPriceFp <= entryPriceFp ==> closeNotionalExit <= closeNotionalEntry by {
      if markPriceFp <= entryPriceFp {
        MulMono(markPriceFp, entryPriceFp, closeSize);
        DivMono(closeSize * markPriceFp, closeSize * entryPriceFp, FP);
      }
    }
    if isLong then closeNotionalExit - closeNotionalEntry else closeNotionalEntry - closeNotionalExit
  }

  /** A long and a short partial close of the same size and prices book
      opposite PnL. */
  lemma PartialClosePnlAntisymmetric(closeSize: nat, entryPriceFp: nat, markPriceFp: nat)
    ensures PartialClosePnl(closeSize, entryPriceFp, markPriceFp, true)
         == -PartialClosePnl(closeSize, entryPriceFp, markPriceFp, false)
  {
  }

  /** What a partial close moves: the size closed, the PnL booked, and the
      settlement and fee amounts (each over FP, cast to u64). */
  datatype PartialCloseOutcome = PartialCloseOutcome(closeSize: nat, pnl: int, settlementAmount: nat, feeAmount: nat)

  /** The position and market writes of a successful partial close. */
  method ShrinkPosition(market: Market, position: UserPosition, closeSize: nat)
    requires market.Valid() && position.Valid()
    requires 0 < closeSize < Abs(position.baseSize)
    modifies market, position
    ensures market.Valid() && position.Valid()
    ensures Abs(position.baseSize) == Abs(old(position.baseSize)) - closeSize
    ensures position.baseSize > 0 <==> old(position.baseSize) > 0
    ensures position.marginDeposited
            == ScaledMargin(old(position.marginDeposited), Abs(old(position.baseSize)) - closeSize, Abs(old(position.baseSize)))
    ensures position.isLong == old(position.isLong) && position.entryPriceFp == old(position.entryPriceFp)
    ensures position.realizedPnlFp == old(position.realizedPnlFp) && position.totalFeesPaid == old(position.totalFeesPaid)
    ensures position.fundingDebtFp == old(position.fundingDebtFp) && position.lastUpdatedTs == old(position.lastUpdatedTs)
    ensures position.lastFundingSettled == old(position.lastFundingSettled)
    ensures position.liquidationPriceFp == old(position.liquidationPriceFp)
    ensures position.owner == old(position.owner) && position.market == old(position.market)
    ensures market.totalLongSize
            == (if position.isLong then SaturatingSub(old(market.totalLongSize), closeSize) else old(market.totalLongSize))
    ensures market.totalShortSize
            == (if position.isLong then old(market.totalShortSize) else SaturatingSub(old(market.totalShortSize), closeSize))
    ensures market.totalVolume == old(market.totalVolume) && market.isPaused == old(market.isPaused)
    ensures market.maxPositionBase == old(market.maxPositionBase)
    ensures market.maintenanceMarginBps == old(market.maintenanceMarginBps)
    ensures market.takerLeverageCapX == old(market.takerLeverageCapX)
  {
    var originalSize := Abs(position.baseSize);
    var remainingSize := originalSize - closeSize;
    position.baseSize := if position.isLong then position.baseSize - closeSize else position.baseSize + closeSize;
    position.marginDeposited := ScaledMargin(position.marginDeposited, remainingSize, originalSize);
    if position.isLong {
      market.totalLongSize := SaturatingSub(market.totalLongSize, closeSize);
    } else {
      market.totalShortSize := SaturatingSub(market.totalShortSize, closeSize);
    }
  }

  /** `partial_close_position`: a percentage outside 1..99 is
      `InvalidClosePercentage`, a paused market `MarketPaused`, an empty
      position `PositionNotFound`, a stale or zero price `BadOracle`, and a
      percentage that rounds to no units `PositionTooSmall`. Otherwise the
      closed portion's PnL is settled net of the fee, the position keeps the
      rest of its size, on the same side, with its margin scaled down in
      proportion, and the market side shrinks by the closed size. */
  method PartialClosePosition(cfg: Config, market: Market, position: UserPosition, oracle: OraclePrice,
                              closePercentage: nat, now: int)
    returns (r: Result<PartialCloseOutcome>)
    requires cfg.Valid() && market.Valid() && position.Valid() && oracle.Valid()
    requires IsU8(closePercentage)
    modifies market, position
    ensures market.Valid() && position.Valid()
    ensures !(0 < closePercentage < 100) ==> r == Err(InvalidClosePercentage)
    ensures 0 < closePercentage < 100 && old(market.isPaused) ==> r == Err(MarketPaused)
    ensures (0 < closePercentage < 100 && !old(market.isPaused) && old(position.baseSize) == 0) ==> r == Err(PositionNotFound)
    ensures (0 < closePercentage < 100 && !old(market.isPaused) && old(position.baseSize) != 0
             && ReadOracleFp(oracle.priceFp, oracle.lastUpdatedTs, now).Err?) ==> r == Err(BadOracle)
    ensures (0 < closePercentage < 100 && !old(market.isPaused) && old(position.baseSize) != 0
             && ReadOracleFp(oracle.priceFp, oracle.lastUpdatedTs, now).Ok?
             && CloseSize(Abs(old(position.baseSize)), closePercentage) == 0) ==> r == Err(PositionTooSmall)
    ensures r.Ok? <==>
              && 0 < closePercentage < 100 && !old(market.isPaused) && old(position.baseSize) != 0
              && ReadOracleFp(oracle.priceFp, oracle.lastUpdatedTs, now).Ok?
              && CloseSize(Abs(old(position.baseSize)), closePercentage) > 0
    ensures r.Err? ==> unchanged(market) && unchanged(position)
    ensures r.Ok? ==>
              var originalSize := Abs(old(position.baseSize));
              var markPriceFp := oracle.priceFp;
              var closeSize := CloseSize(originalSize, closePercentage);
              var exit := closeSize * markPriceFp / FP;
              var pnl := PartialClosePnl(closeSize, old(position.entryPriceFp), markPriceFp, old(position.isLong));
              var fee := PartialCloseFee(exit, cfg.feeBps);
              && ReadOracleFp(oracle.priceFp, oracle.lastUpdatedTs, now) == Ok(markPriceFp)
              && 0 < closeSize < originalSize
              && r.value == PartialCloseOutcome(closeSize, pnl, AsU64(PartialSettlement(exit, fee, pnl) / FP), AsU64(fee / FP))
              && Abs(position.baseSize) == originalSize - closeSize
              && (position.baseSize > 0 <==> old(position.baseSize) > 0)
              && position.marginDeposited == ScaledMargin(old(position.marginDeposited), originalSize - closeSize, originalSize)
              && position.marginDeposited <= old(position.marginDeposited)
              && position.isLong == old(position.isLong)
              && position.realizedPnlFp == old(position.realizedPnlFp)
              && position.totalFeesPaid == old(position.totalFeesPaid)
    ensures r.Ok? ==>
              && position.entryPriceFp == old(position.entryPriceFp)
              && position.fundingDebtFp == old(position.fundingDebtFp)
              && position.lastUpdatedTs == old(position.lastUpdatedTs)
              && position.lastFundingSettled == old(position.lastFundingSettled)
              && position.liquidationPriceFp == old(position.liquidationPriceFp)
              && position.owner == old(position.owner) && position.market == old(position.market)
    ensures r.Ok? ==>
              && market.isPaused == old(market.isPaused) && market.maxPositionBase == old(market.maxPositionBase)
              && market.maintenanceMarginBps == old(market.maintenanceMarginBps)
              && market.takerLeverageCapX == old(market.takerLeverageCapX)
    ensures r.Ok? ==>
              var closeSize := r.value.closeSize;
              && market.totalLongSize
                 == (if old(position.isLong) then SaturatingSub(old(market.totalLongSize), closeSize) else old(market.totalLongSize))
              && market.totalShortSize
                 == (if old(position.isLong) then old(market.totalShortSize) else SaturatingSub(old(market.totalShortSize), closeSize))
              && market.totalVolume == old(market.totalVolume)
  {
    if !(0 < closePercentage < 100) { return Err(InvalidClosePercentage); }
    if market.isPaused { return Err(MarketPaused); }
    if position.baseSize == 0 { return Err(PositionNotFound); }

    var read := ReadOracleFp(oracle.priceFp, oracle.lastUpdatedTs, now);
    if read.Err? { return Err(read.error); }
    var markFp := read.value;

    var originalSize := Abs(position.baseSize);
    var closeSize := CloseSize(originalSize, closePercentage);
    if closeSize == 0 { return Err(PositionTooSmall); }

    var closeNotionalExit := closeSize * markFp / FP;
    var pnl := PartialClosePnl(closeSize, position.entryPriceFp, markFp, position.isLong);
    var feeAmt := PartialCloseFee(closeNotionalExit, cfg.feeBps);
    var settlementAmt := PartialSettlement(closeNotionalExit, feeAmt, pnl);

    ShrinkPosition(market, position, closeSize);
    return Ok(PartialCloseOutcome(closeSize, pnl, AsU64(settlementAmt / FP), AsU64(feeAmt / FP)));
  }

  // ---------------------------------------------------------------------
  // Margin adjustment

  /** `modify_position_margin`: a paused market is `MarketPaused`, an empty
      position `PositionNotFound`, a stale or zero price `BadOracle`. A
      positive change is added to the margin, saturating at u64::MAX; a
      negative one must leave some margin (`InsufficientFunds`) and at least
      the maintenance requirement at the mark (`WouldBeLiquidated`); a zero
      change does nothing. Returns the tokens moved into the vault
      (negative when margin is paid back). */
  method ModifyPositionMargin(market: Market, position: UserPosition, oracle: OraclePrice, marginChange: int, now: int)
    returns (r: Result<int>)
    requires market.Valid() && position.Valid() && oracle.Valid()
    requires I64_MIN < marginChange <= I64_MAX
    modifies position
    ensures position.Valid()
    ensures market.isPaused ==> r == Err(MarketPaused)
    ensures !market.isPaused && old(position.baseSize) == 0 ==> r == Err(PositionNotFound)
    ensures (!market.isPaused && old(position.baseSize) != 0
             && ReadOracleFp(oracle.priceFp, oracle.lastUpdatedTs, now).Err?) ==> r == Err(BadOracle)
    ensures r.Err? ==> unchanged(position)
    ensures r.Ok? ==> ReadOracleFp(oracle.priceFp, oracle.lastUpdatedTs, now) == Ok(oracle.priceFp)
    ensures r.Ok? && marginChange > 0 ==>
              r.value == marginChange
              && position.marginDeposited == SaturatingAddU64(old(position.marginDeposited), marginChange)
    ensures r.Ok? && marginChange == 0 ==> r.value == 0 && unchanged(position)
    ensures (!market.isPaused && old(position.baseSize) != 0
             && ReadOracleFp(oracle.priceFp, oracle.lastUpdatedTs, now).Ok? && marginChange >= 0) ==> r.Ok?
    ensures (!market.isPaused && old(position.baseSize) != 0
             && ReadOracleFp(oracle.priceFp, oracle.lastUpdatedTs, now).Ok? && marginChange < 0) ==>
              r == (if -marginChange >= old(position.marginDeposited) then Err(InsufficientFunds)
                    else if old(position.marginDeposited) + marginChange
                            < MaintenanceRequirement(Abs(old(position.baseSize)), oracle.priceFp, market.maintenanceMarginBps)
                    then Err(WouldBeLiquidated)
                    else Ok(marginChange))
    ensures r.Ok? && marginChange < 0 ==>
              r.value == marginChange
              && position.marginDeposited == old(position.marginDeposited) + marginChange
              && position.marginDeposited
                 >= MaintenanceRequirement(Abs(position.baseSize), oracle.priceFp, market.maintenanceMarginBps)
              && position.marginDeposited > 0
    ensures r.Ok? ==>
              && position.baseSize == old(position.baseSize) && position.isLong == old(position.isLong)
              && position.entryPriceFp == old(position.entryPriceFp)
              && position.realizedPnlFp == old(position.realizedPnlFp)
              && position.totalFeesPaid == old(position.totalFeesPaid)
              && position.fundingDebtFp == old(position.fundingDebtFp)
              && position.lastUpdatedTs == old(position.lastUpdatedTs)
              && position.lastFundingSettled == old(position.lastFundingSettled)
              && position.liquidationPriceFp == old(position.liquidationPriceFp)
              && position.owner == old(position.owner) && position.market == old(position.market)
  {
    if market.isPaused { return Err(MarketPaused); }
    if position.baseSize == 0 { return Err(PositionNotFound); }

    var read := ReadOracleFp(oracle.priceFp, oracle.lastUpdatedTs, now);
    if read.Err? { return Err(read.error); }
    var markFp := read.value;

    if marginChange > 0 {
      position.marginDeposited := SaturatingAddU64(position.marginDeposited, marginChange);
      return Ok(marginChange);
    } else if marginChange < 0 {
      var removeAmount := -marginChange;
      if !(position.marginDeposited > removeAmount) { return Err(InsufficientFunds); }
      var newMargin := position.marginDeposited - removeAmount;
      var requiredMargin := MaintenanceRequirement(Abs(position.baseSize), markFp, market.maintenanceMarginBps);
      if newMargin < requiredMargin { return Err(WouldBeLiquidated); }
      position.marginDeposited := newMargin;
      return Ok(marginChange);
    }
    return Ok(0);
  }

  // ---------------------------------------------------------------------
  // Stop-loss placement

  /** A stop-loss trigger on the losing side of the current price: below
      it for a long, above it for a short. */
  predicate StopOnLosingSide(isLong: bool, triggerPriceFp: nat, currentPriceFp: nat)
  {
    if isLong then triggerPriceFp < currentPriceFp else triggerPriceFp > currentPriceFp
  }

  /** `set_stop_loss`: a percentage outside 1..100 is
      `InvalidMarketParameters`, an empty position `PositionNotFound`, a zero
      trigger `InvalidPrice`, a stale or zero price `BadOracle`, and a
      trigger not on the losing side of the current price `InvalidStopLoss`.
      Otherwise the order is written, active and not yet executed. */
  method SetStopLoss(position: UserPosition, order: StopLossOrder, oracle: OraclePrice,
                     marketKey: Pubkey, positionKey: Pubkey, triggerPriceFp: nat, closePercentage: nat, now: int)
    returns (r: Result<()>)
    requires position.Valid() && oracle.Valid()
    requires IsU8(closePercentage) && IsI64(now)
    modifies order
    ensures !(0 < closePercentage <= 100) ==> r == Err(InvalidMarketParameters)
    ensures 0 < closePercentage <= 100 && position.baseSize == 0 ==> r == Err(PositionNotFound)
    ensures (0 < closePercentage <= 100 && position.baseSize != 0 && triggerPriceFp == 0) ==> r == Err(InvalidPrice)
    ensures (0 < closePercentage <= 100 && position.baseSize != 0 && triggerPriceFp > 0
             && ReadOracleFp(oracle.priceFp, oracle.lastUpdatedTs, now).Err?) ==> r == Err(BadOracle)
    ensures (0 < closePercentage <= 100 && position.baseSize != 0 && triggerPriceFp > 0
             && ReadOracleFp(oracle.priceFp, oracle.lastUpdatedTs, now).Ok?
             && !StopOnLosingSide(position.isLong, triggerPriceFp, oracle.priceFp)) ==> r == Err(InvalidStopLoss)
    ensures r.Ok? <==>
              && 0 < closePercentage <= 100 && position.baseSize != 0 && triggerPriceFp > 0
              && ReadOracleFp(oracle.priceFp, oracle.lastUpdatedTs, now).Ok?
              && StopOnLosingSide(position.isLong, triggerPriceFp, oracle.priceFp)
    ensures r.Err? ==> unchanged(order)
    ensures r.Ok? ==>
              && order.owner == position.owner && order.market == marketKey && order.positionKey == positionKey
              && order.triggerPriceFp == triggerPriceFp && order.closePercentage == closePercentage
              && order.isActive && order.createdAt == now && order.executedAt == None
  {
    if !(0 < closePercentage <= 100) { return Err(InvalidMarketParameters); }
    if position.baseSize == 0 { return Err(PositionNotFound); }
    if triggerPriceFp == 0 { return Err(InvalidPrice); }

    var read := ReadOracleFp(oracle.priceFp, oracle.lastUpdatedTs, now);
    if read.Err? { return Err(read.error); }
    var currentPriceFp := read.value;

    if position.isLong {
      if !(triggerPriceFp < currentPriceFp) { return Err(InvalidStopLoss); }
    } else {
      if !(triggerPriceFp > currentPriceFp) { return Err(InvalidStopLoss); }
    }

    order.owner := position.owner;
    order.market := marketKey;
    order.positionKey := positionKey;
    order.triggerPriceFp := triggerPriceFp;
    order.closePercentage := closePercentage;
    order.isActive := true;
    order.createdAt := now;
    order.executedAt := None;
    return Ok(());
  }

  /** A stop-loss accepted for a long lies below the price it was placed
      at, so it fires only on a fall, which for a long is a loss; for a
      short, symmetrically, only on a rise. */
  lemma StopLossTriggersOnLoss(baseSize: int, isLong: bool, entryPriceFp: nat, triggerPriceFp: nat, currentPriceFp: nat)
    requires StopOnLosingSide(isLong, triggerPriceFp, currentPriceFp)
    ensures UnrealizedPnl(baseSize, isLong, entryPriceFp, triggerPriceFp)
         <= UnrealizedPnl(baseSize, isLong, entryPriceFp, currentPriceFp)
  {
    if isLong {
      PnlMonotoneInPrice(baseSize, entryPriceFp, triggerPriceFp, currentPriceFp);
    } else {
      PnlMonotoneInPrice(baseSize, entryPriceFp, currentPriceFp, triggerPriceFp);
    }
  }
}
