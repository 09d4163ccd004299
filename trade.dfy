/** Opening and closing a leveraged position. The mark price, which the
    program reads through its price module, is the `markPriceFp` parameter;
    the token transfers are the amounts the instructions return. Every guard
    is evaluated before any account is written, as a failed instruction
    leaves no write behind. */
module Trade {

  import opened Common
  import opened Errors
  import opened State

  // ---------------------------------------------------------------------
  // Liquidation price

  /** Scaling a price by `factor / 10000`, rounded down: the result brackets
      the exact product and lies below the price for a factor under 1, above
      it for a factor over 1, and is the price itself for a factor of 1. */
  lemma ScaleByBps(priceFp: nat, factor: nat)
    ensures var q := priceFp * factor / 10_000;
            && q * 10_000 <= priceFp * factor < (q + 1) * 10_000
            && (factor <= 10_000 ==> q <= priceFp)
            && (factor >= 10_000 ==> priceFp <= q)
            && (factor == 10_000 ==> q == priceFp)
  {
    var n := priceFp * factor;
    var q := n / 10_000;
    assert n == 10_000 * q + n % 10_000;
    DivUnique(priceFp * 10_000, 10_000, priceFp, 0);
    if factor <= 10_000 {
      MulMono(factor, 10_000, priceFp);
      DivMono(n, priceFp * 10_000, 10_000);
    }
    if factor >= 10_000 {
      MulMono(10_000, factor, priceFp);
      DivMono(priceFp * 10_000, n, 10_000);
    }
  }

  /** `calculate_liquidation_price`: the entry price moved by the
      maintenance ratio, down for a long and up for a short, rounded down.
      Margin and size do not enter. A long's `10000 - maintenance` must not
      underflow. */
  function CalculateLiquidationPrice(entryPriceFp: nat, margin: nat, baseSize: nat,
                                     maintenanceMarginBps: nat, isLong: bool): (r: Result<nat>)
    requires isLong ==> maintenanceMarginBps <= 10_000
    ensures r.Ok?
    ensures isLong ==> r.value <= entryPriceFp
    ensures !isLong ==> entryPriceFp <= r.value
    ensures maintenanceMarginBps == 0 ==> r.value == entryPriceFp
    ensures isLong ==> r.value * 10_000 <= entryPriceFp * (10_000 - maintenanceMarginBps) < (r.value + 1) * 10_000
    ensures !isLong ==> r.value * 10_000 <= entryPriceFp * (10_000 + maintenanceMarginBps) < (r.value + 1) * 10_000
  {
    var factor := if isLong then 10_000 - maintenanceMarginBps else 10_000 + maintenanceMarginBps;
    ScaleByBps(entryPriceFp, factor);
    Ok(entryPriceFp * factor / 10_000)
  }

  /** The long and the short liquidation prices sit on either side of the
      entry at the same distance, up to one unit of rounding: the long's
      distance is the short's, or one more. */
  lemma LiquidationBandSymmetric(entryPriceFp: nat, margin: nat, baseSize: nat, maintenanceMarginBps: nat)
    requires maintenanceMarginBps <= 10_000
    ensures var down := entryPriceFp - CalculateLiquidationPrice(entryPriceFp, margin, baseSize, maintenanceMarginBps, true).value;
            var up := CalculateLiquidationPrice(entryPriceFp, margin, baseSize, maintenanceMarginBps, false).value - entryPriceFp;
            up <= down <= up + 1
  {
    var long := CalculateLiquidationPrice(entryPriceFp, margin, baseSize, maintenanceMarginBps, true).value;
    var short := CalculateLiquidationPrice(entryPriceFp, margin, baseSize, maintenanceMarginBps, false).value;
    var shift := entryPriceFp * maintenanceMarginBps;
    assert entryPriceFp * (10_000 - maintenanceMarginBps) == entryPriceFp * 10_000 - shift;
    assert entryPriceFp * (10_000 + maintenanceMarginBps) == entryPriceFp * 10_000 + shift;
    // short = entry + floor(shift / 10000), long = entry - ceil(shift / 10000)
    DivUnique(entryPriceFp * 10_000 + shift, 10_000, entryPriceFp + shift / 10_000, shift % 10_000);
    if shift % 10_000 == 0 {
      DivUnique(entryPriceFp * 10_000 - shift, 10_000, entryPriceFp - shift / 10_000, 0);
    } else {
      DivUnique(entryPriceFp * 10_000 - shift, 10_000, entryPriceFp - shift / 10_000 - 1, 10_000 - shift % 10_000);
    }
  }

  /** A higher maintenance ratio moves both liquidation prices away from
      the entry. */
  lemma LiquidationPriceMonotoneInMaintenance(entryPriceFp: nat, margin: nat, baseSize: nat, lowerBps: nat, higherBps: nat)
    requires lowerBps <= higherBps <= 10_000
    ensures CalculateLiquidationPrice(entryPriceFp, margin, baseSize, higherBps, true).value
         <= CalculateLiquidationPrice(entryPriceFp, margin, baseSize, lowerBps, true).value
    ensures CalculateLiquidationPrice(entryPriceFp, margin, baseSize, lowerBps, false).value
         <= CalculateLiquidationPrice(entryPriceFp, margin, baseSize, higherBps, false).value
  {
    MulMono(10_000 - higherBps, 10_000 - lowerBps, entryPriceFp);
    DivMono(entryPriceFp * (10_000 - higherBps), entryPriceFp * (10_000 - lowerBps), 10_000);
    MulMono(10_000 + lowerBps, 10_000 + higherBps, entryPriceFp);
    DivMono(entryPriceFp * (10_000 + lowerBps), entryPriceFp * (10_000 + higherBps), 10_000);
  }

  // ---------------------------------------------------------------------
  // Opening

  /** The size bought: `quote * FP / price` in fixed point, truncated to
      whole units. Going through fixed point loses nothing: it is the
      quote divided by the price, rounded down. */
  function BaseUnits(quoteToSpend: nat, priceFp: nat): (units: nat)
    requires IsU64(quoteToSpend) && priceFp > 0
    ensures units * priceFp <= quoteToSpend < (units + 1) * priceFp
    ensures units <= quoteToSpend
  {
    var baseSizeFp := quoteToSpend * FP / priceFp;
    NestedDiv(quoteToSpend * FP, priceFp, FP);
    ScaledDiv(quoteToSpend, priceFp, FP);
    DivAtMost(quoteToSpend, priceFp, quoteToSpend / priceFp);
    DivByAtLeastOne(quoteToSpend, priceFp);
    AsU64(baseSizeFp / FP)
  }

  /** The first checks of `open_position`: neither the protocol nor the
      market is paused, and the leverage is within both caps. */
  predicate OpenAdmitted(protocolPaused: bool, marketPaused: bool, takerLeverageCapX: nat, leverageX: nat)
  {
    !protocolPaused && !marketPaused && leverageX <= MAX_LEVERAGE_X && leverageX <= takerLeverageCapX
  }

  /** The checks `open_position` makes before it writes anything, in source
      order, each with its own error; `sideTotal` is the open interest on the
      side being traded. On success, the number of units bought. */
  function OpenChecks(protocolPaused: bool, marketPaused: bool, takerLeverageCapX: nat, maxPositionBase: nat,
                      sideTotal: nat, totalVolume: nat, quoteToSpend: nat, leverageX: nat, markPriceFp: nat)
    : (r: Result<nat>)
    requires IsU64(quoteToSpend)
    ensures protocolPaused ==> r == Err(ProtocolPaused)
    ensures !protocolPaused && marketPaused ==> r == Err(MarketPaused)
    ensures (!protocolPaused && !marketPaused
             && (leverageX > MAX_LEVERAGE_X || leverageX > takerLeverageCapX)) ==> r == Err(LeverageTooHigh)
    ensures OpenAdmitted(protocolPaused, marketPaused, takerLeverageCapX, leverageX) && quoteToSpend == 0
            ==> r == Err(InvalidMarketParameters)
    ensures OpenAdmitted(protocolPaused, marketPaused, takerLeverageCapX, leverageX) && quoteToSpend > 0 && leverageX == 0
            ==> r == Err(MathOverflow)
    ensures (OpenAdmitted(protocolPaused, marketPaused, takerLeverageCapX, leverageX) && quoteToSpend > 0 && leverageX > 0
             && quoteToSpend / leverageX == 0) ==> r == Err(InsufficientMargin)
    ensures (OpenAdmitted(protocolPaused, marketPaused, takerLeverageCapX, leverageX) && leverageX > 0
             && quoteToSpend / leverageX > 0 && markPriceFp == 0) ==> r == Err(DivisionByZero)
    ensures (OpenAdmitted(protocolPaused, marketPaused, takerLeverageCapX, leverageX) && leverageX > 0
             && quoteToSpend / leverageX > 0 && markPriceFp > 0 && BaseUnits(quoteToSpend, markPriceFp) == 0)
            ==> r == Err(PositionTooSmall)
    ensures (OpenAdmitted(protocolPaused, marketPaused, takerLeverageCapX, leverageX) && leverageX > 0
             && quoteToSpend / leverageX > 0 && markPriceFp > 0 && BaseUnits(quoteToSpend, markPriceFp) > maxPositionBase)
            ==> r == Err(MaxPositionExceeded)
    ensures (OpenAdmitted(protocolPaused, marketPaused, takerLeverageCapX, leverageX) && leverageX > 0
             && quoteToSpend / leverageX > 0 && markPriceFp > 0
             && 0 < BaseUnits(quoteToSpend, markPriceFp) <= maxPositionBase
             && (BaseUnits(quoteToSpend, markPriceFp) > I64_MAX
                 || sideTotal + BaseUnits(quoteToSpend, markPriceFp) > U64_MAX
                 || totalVolume + quoteToSpend > U128_MAX)) ==> r == Err(MathOverflow)
    ensures r.Ok? <==>
              && OpenAdmitted(protocolPaused, marketPaused, takerLeverageCapX, leverageX)
              && quoteToSpend > 0 && leverageX > 0 && quoteToSpend / leverageX > 0 && markPriceFp > 0
              && 0 < BaseUnits(quoteToSpend, markPriceFp) <= maxPositionBase
              && BaseUnits(quoteToSpend, markPriceFp) <= I64_MAX
              && sideTotal + BaseUnits(quoteToSpend, markPriceFp) <= U64_MAX
              && totalVolume + quoteToSpend <= U128_MAX
    ensures r.Ok? ==> r.value == BaseUnits(quoteToSpend, markPriceFp)
  {
    if protocolPaused then Err(ProtocolPaused)
    else if marketPaused then Err(MarketPaused)
    else if leverageX > MAX_LEVERAGE_X || leverageX > takerLeverageCapX then Err(LeverageTooHigh)
    else if quoteToSpend == 0 then Err(InvalidMarketParameters)
    // `checked_div` by a zero leverage
    else if leverageX == 0 then Err(MathOverflow)
    else if quoteToSpend / leverageX == 0 then Err(InsufficientMargin)
    else if markPriceFp == 0 then Err(DivisionByZero)
    else
      var units := BaseUnits(quoteToSpend, markPriceFp);
      if units == 0 then Err(PositionTooSmall)
      else if units > maxPositionBase then Err(MaxPositionExceeded)
      // The source's later `as i64` would wrap; a checked conversion rejects,
      // with the same code as the overflow checks beside it.
      else if units > I64_MAX then Err(MathOverflow)
      else if sideTotal + units > U64_MAX then Err(MathOverflow)
      else if totalVolume + quoteToSpend > U128_MAX then Err(MathOverflow)
      else Ok(units)
  }

  /** `units as i64`: a u64 above i64::MAX wraps to a negative value. */
  function AsI64(units: nat): (v: int)
    requires IsU64(units)
    ensures IsI64(v)
    ensures units <= I64_MAX ==> v == units
    ensures units > I64_MAX ==> v < 0
  {
    if units <= I64_MAX then units else units - (U64_MAX + 1)
  }

  /** The signed size `open_position` writes, as the code computes it: the
      units cast `as i64`, negated for a short. `None` stands for the abort
      of negating i64::MIN. Up to i64::MAX units it is the intended size. */
  function SignedSizeAsWritten(units: nat, isLong: bool): (size: Option<int>)
    requires IsU64(units)
    ensures units <= I64_MAX ==> size == Some(if isLong then units as int else -(units as int))
  {
    var v := AsI64(units);
    if isLong then Some(v) else if v == I64_MIN then None else Some(-v)
  }

  /** Above i64::MAX units the cast wraps: a long is recorded with a
      negative size and a short with a positive one. A quote of 2^63 at the
      smallest price buys that many units. */
  lemma OpenedSizeWraps()
    ensures SignedSizeAsWritten(I64_MAX + 1, true) == Some(I64_MIN)
    ensures SignedSizeAsWritten(I64_MAX + 2, false) == Some(I64_MAX)
    ensures BaseUnits(I64_MAX + 1, 1) == I64_MAX + 1
  {
  }

  /** The market side of a successful open: the size goes to the
      position's side, the quote to the volume. */
  method AddOpenInterest(market: Market, isLong: bool, units: nat, quoteToSpend: nat)
    requires market.Valid()
    requires isLong ==> market.totalLongSize + units <= U64_MAX
    requires !isLong ==> market.totalShortSize + units <= U64_MAX
    requires market.totalVolume + quoteToSpend <= U128_MAX
    modifies market
    ensures market.Valid()
    ensures market.totalLongSize == old(market.totalLongSize) + (if isLong then units else 0)
    ensures market.totalShortSize == old(market.totalShortSize) + (if isLong then 0 else units)
    ensures market.totalVolume == old(market.totalVolume) + quoteToSpend
    ensures market.maxPositionBase == old(market.maxPositionBase)
    ensures market.maintenanceMarginBps == old(market.maintenanceMarginBps)
    ensures market.takerLeverageCapX == old(market.takerLeverageCapX)
    ensures market.isPaused == old(market.isPaused)
  {
    if isLong {
      market.totalLongSize := market.totalLongSize + units;
    } else {
      market.totalShortSize := market.totalShortSize + units;
    }
    market.totalVolume := market.totalVolume + quoteToSpend;
  }

  /** The position record a successful open writes: signed size, entry at
      the mark, the margin, and every running total reset. */
  method WriteOpenedPosition(position: UserPosition, user: Pubkey, marketKey: Pubkey, isLong: bool, units: nat,
                             entryPriceFp: nat, margin: nat, liquidationPriceFp: nat, now: int)
    requires 0 < units <= I64_MAX && IsU64(margin) && IsI64(now)
    modifies position
    ensures position.Valid()
    ensures position.owner == user && position.market == marketKey
    ensures position.isLong == isLong
    ensures position.baseSize == (if isLong then units as int else -(units as int))
    ensures position.entryPriceFp == entryPriceFp
    ensures position.marginDeposited == margin
    ensures position.lastFundingSettled == now && position.lastUpdatedTs == now
    ensures position.fundingDebtFp == 0 && position.realizedPnlFp == 0 && position.totalFeesPaid == 0
    ensures position.liquidationPriceFp == liquidationPriceFp
  {
    position.owner := user;
    position.market := marketKey;
    position.isLong := isLong;
    position.baseSize := if isLong then units as int else -(units as int);
    position.entryPriceFp := entryPriceFp;
    position.marginDeposited := margin;
    position.lastFundingSettled := now;
    position.fundingDebtFp := 0;
    position.liquidationPriceFp := liquidationPriceFp;
    position.lastUpdatedTs := now;
    position.realizedPnlFp := 0;
    position.totalFeesPaid := 0;
  }

  /** `open_position`: checks, in order, the protocol pause, the market
      pause, both leverage caps, a positive quote, a non-zero leverage, a
      positive margin, a non-zero price, and a size between one unit and the
      market's maximum; then adds the size to the position's side of the
      market, the quote to the market's volume, and writes a fresh position
      at the mark price. Returns the margin taken from the user. */
  method OpenPosition(cfg: Config, market: Market, position: UserPosition, isLong: bool, quoteToSpend: nat,
                      leverageX: nat, markPriceFp: nat, now: int, user: Pubkey, marketKey: Pubkey)
    returns (r: Result<nat>)
    requires cfg.Valid() && market.Valid()
    requires IsU64(quoteToSpend) && IsU16(leverageX) && IsI64(now)
    requires isLong ==> market.maintenanceMarginBps <= 10_000
    modifies market, position
    ensures market.Valid()
    ensures var check := OpenChecks(cfg.paused, old(market.isPaused), old(market.takerLeverageCapX),
                                    old(market.maxPositionBase),
                                    if isLong then old(market.totalLongSize) else old(market.totalShortSize),
                                    old(market.totalVolume), quoteToSpend, leverageX, markPriceFp);
            && (check.Err? ==> r == Err(check.error))
            && (check.Ok? ==> r == Ok(quoteToSpend / leverageX))
    ensures r.Err? ==> unchanged(market) && unchanged(position)
    ensures r.Ok? ==>
              var units := BaseUnits(quoteToSpend, markPriceFp);
              var margin := quoteToSpend / leverageX;
              && r.value == margin
              && position.Valid()
              && position.owner == user && position.market == marketKey
              && position.isLong == isLong
              && position.baseSize == (if isLong then units as int else -(units as int))
              && position.entryPriceFp == markPriceFp
              && position.marginDeposited == margin
              && position.lastFundingSettled == now && position.lastUpdatedTs == now
              && position.fundingDebtFp == 0 && position.realizedPnlFp == 0 && position.totalFeesPaid == 0
              && position.liquidationPriceFp
                 == CalculateLiquidationPrice(markPriceFp, margin, units, old(market.maintenanceMarginBps), isLong).value
    ensures r.Ok? ==>
              var units := BaseUnits(quoteToSpend, markPriceFp);
              && market.totalLongSize == old(market.totalLongSize) + (if isLong then units else 0)
              && market.totalShortSize == old(market.totalShortSize) + (if isLong then 0 else units)
              && market.totalVolume == old(market.totalVolume) + quoteToSpend
              && market.maxPositionBase == old(market.maxPositionBase)
              && market.maintenanceMarginBps == old(market.maintenanceMarginBps)
              && market.takerLeverageCapX == old(market.takerLeverageCapX)
              && market.isPaused == old(market.isPaused)
  {
    var sideTotal := if isLong then market.totalLongSize else market.totalShortSize;
    var check := OpenChecks(cfg.paused, market.isPaused, market.takerLeverageCapX, market.maxPositionBase,
                            sideTotal, market.totalVolume, quoteToSpend, leverageX, markPriceFp);
    if check.Err? { return Err(check.error); }
    var baseSizeUnits := check.value;
    var margin := quoteToSpend / leverageX;
    var liquidationPriceFp := CalculateLiquidationPrice(markPriceFp, margin, baseSizeUnits,
                                                        market.maintenanceMarginBps, isLong).value;

    AddOpenInterest(market, isLong, baseSizeUnits, quoteToSpend);
    WriteOpenedPosition(position, user, marketKey, isLong, baseSizeUnits, markPriceFp, margin, liquidationPriceFp, now);
    return Ok(margin);
  }

  /** A position just opened, with no funding owed yet, is not liquidatable
      at its own entry price: its margin, at least a fortieth of the quote,
      covers any fraction of the notional the maintenance ratio asks for. */
  lemma OpenedPositionIsSafe(isLong: bool, quoteToSpend: nat, leverageX: nat, markPriceFp: nat, maintenanceMarginBps: nat)
    requires IsU64(quoteToSpend) && 1 <= leverageX <= MAX_LEVERAGE_X
    requires quoteToSpend / leverageX > 0 && markPriceFp > 0
    requires maintenanceMarginBps <= 10_000
    ensures var units := BaseUnits(quoteToSpend, markPriceFp);
            !IsLiquidatable(if isLong then units as int else -(units as int), isLong, markPriceFp, quoteToSpend / leverageX,
                            0, markPriceFp, maintenanceMarginBps)
  {
    var units := BaseUnits(quoteToSpend, markPriceFp);
    var margin := quoteToSpend / leverageX;
    var requirement := MaintenanceRequirement(units, markPriceFp, maintenanceMarginBps);
    // the requirement is at most the notional, which is at most the quote over FP
    DivMono(units * markPriceFp, quoteToSpend, FP);
    DivByAtLeastOne(quoteToSpend, FP);
    // and the quote is less than (margin + 1) * leverage <= 80 * margin
    DivAtMost(quoteToSpend, leverageX, margin);
    MulMono(leverageX, MAX_LEVERAGE_X, margin + 1);
    assert requirement <= quoteToSpend;
    assert quoteToSpend < 80 * margin;
    assert requirement < margin * FP;
  }

  // ---------------------------------------------------------------------
  // Closing

  /** The PnL `close_position` books: the size times the price move,
      oriented by the sign of the stored size and divided by FP with
      truncation toward zero. */
  function ClosePnl(baseSize: int, entryPriceFp: nat, markPriceFp: nat): int
  {
    var size := Abs(baseSize);
    var direction := if baseSize >= 0 then 1 else -1;
    TruncDiv(direction * (size * markPriceFp - size * entryPriceFp), FP)
  }

  /** The PnL booked on close is the position's unrealized PnL at the mark:
      the direction the close derives from the sign of the size is the
      position's own direction. */
  lemma ClosePnlIsUnrealized(baseSize: int, isLong: bool, entryPriceFp: nat, markPriceFp: nat)
    requires baseSize != 0 && (isLong <==> baseSize > 0)
    ensures ClosePnl(baseSize, entryPriceFp, markPriceFp) == UnrealizedPnl(baseSize, isLong, entryPriceFp, markPriceFp)
  {
    var size := Abs(baseSize);
    if !isLong {
      assert -1 * (size * markPriceFp - size * entryPriceFp) == size * entryPriceFp - size * markPriceFp;
    }
  }

  /** The trading fee on the exit notional, in fixed point. */
  function CloseFeeFp(absSize: nat, markPriceFp: nat, feeBps: nat): (feeFp: nat)
    ensures feeBps == 0 || absSize == 0 ==> feeFp == 0
    ensures feeBps <= 10_000 ==> feeFp <= absSize * markPriceFp
  {
    var notionalExitFp := absSize * markPriceFp;
    assert feeBps <= 10_000 ==> notionalExitFp * feeBps / 10_000 <= notionalExitFp by {
      if feeBps <= 10_000 {
        MulMono(feeBps, 10_000, notionalExitFp);
        DivMono(notionalExitFp * feeBps, notionalExitFp * 10_000, 10_000);
      }
    }
    notionalExitFp * feeBps / 10_000
  }

  /** The fee in tokens: the fixed-point fee over FP, cast to u64, which
      keeps the whole-token floor whenever it fits. */
  function FeeAmount(feeFp: nat): (amount: nat)
    ensures IsU64(amount)
    ensures feeFp < (U64_MAX + 1) * FP ==> amount * FP <= feeFp < (amount + 1) * FP
  {
    FloorDivBounds(feeFp, FP);
    DivAtMost(feeFp, FP, U64_MAX);
    AsU64(feeFp / FP)
  }

  /** The amount paid back on close: margin (scaled by FP) plus PnL minus
      the fee, floored at zero, over FP, cast to u64. A position that is
      not in profit beyond its fee gets back at most its margin; one whose
      losses and fee exhaust the scaled margin gets nothing. */
  function Settlement(marginDeposited: nat, pnlFp: int, feeFp: nat): (s: nat)
    requires IsU64(marginDeposited)
    ensures IsU64(s)
    ensures marginDeposited * FP + pnlFp - feeFp < FP ==> s == 0
    ensures pnlFp <= feeFp ==> s <= marginDeposited
    ensures feeFp <= pnlFp && marginDeposited * FP + pnlFp - feeFp <= U64_MAX * FP ==> marginDeposited <= s
  {
    var settleFp := marginDeposited * FP + pnlFp - feeFp;
    var settleClamped: nat := if settleFp < 0 then 0 else settleFp;
    assert pnlFp <= feeFp ==> settleClamped / FP <= marginDeposited by {
      if pnlFp <= feeFp {
        DivMono(settleClamped, marginDeposited * FP, FP);
      }
    }
    assert settleClamped < FP ==> settleClamped / FP == 0;
    assert feeFp <= pnlFp && settleClamped <= U64_MAX * FP ==> marginDeposited <= settleClamped / FP <= U64_MAX by {
      if feeFp <= pnlFp && settleClamped <= U64_MAX * FP {
        DivMono(marginDeposited * FP, settleClamped, FP);
        DivMono(settleClamped, U64_MAX * FP, FP);
      }
    }
    AsU64(settleClamped / FP)
  }

  /** What a close moves: the PnL booked, the fee and the amount paid out. */
  datatype CloseOutcome = CloseOutcome(pnlFp: int, feeAmount: nat, settlementAmount: nat)

  /** `close_position`: a paused market is `MarketPaused` and an empty
      position `PositionNotFound`. Otherwise the PnL at the mark is booked,
      the fee and the settlement are paid out, the size is removed from the
      position's side of the market (saturating at zero), and the position
      is left with no size and no margin. */
  method ClosePosition(cfg: Config, market: Market, position: UserPosition, markPriceFp: nat, now: int)
    returns (r: Result<CloseOutcome>)
    requires cfg.Valid() && market.Valid() && position.Valid() && IsI64(now)
    requires !market.isPaused && position.baseSize != 0 ==>
               IsU64(position.totalFeesPaid
                     + FeeAmount(CloseFeeFp(Abs(position.baseSize), markPriceFp, cfg.feeBps)))
    modifies market, position
    ensures market.Valid() && position.Valid()
    ensures old(market.isPaused) ==> r == Err(MarketPaused)
    ensures !old(market.isPaused) && old(position.baseSize) == 0 ==> r == Err(PositionNotFound)
    ensures r.Ok? <==> !old(market.isPaused) && old(position.baseSize) != 0
    ensures r.Err? ==> unchanged(market) && unchanged(position)
    ensures r.Ok? ==>
              var size := Abs(old(position.baseSize));
              var feeFp := CloseFeeFp(size, markPriceFp, cfg.feeBps);
              var pnlFp := ClosePnl(old(position.baseSize), old(position.entryPriceFp), markPriceFp);
              && r.value.pnlFp == pnlFp
              && r.value.feeAmount == FeeAmount(feeFp)
              && r.value.settlementAmount == Settlement(old(position.marginDeposited), pnlFp, feeFp)
              && position.baseSize == 0 && position.marginDeposited == 0
              && position.realizedPnlFp == old(position.realizedPnlFp) + pnlFp
              && position.totalFeesPaid == old(position.totalFeesPaid) + r.value.feeAmount
              && position.lastUpdatedTs == now
              && position.isLong == old(position.isLong)
              && position.entryPriceFp == old(position.entryPriceFp)
              && position.fundingDebtFp == old(position.fundingDebtFp)
              && position.liquidationPriceFp == old(position.liquidationPriceFp)
              && position.lastFundingSettled == old(position.lastFundingSettled)
              && position.owner == old(position.owner) && position.market == old(position.market)
    ensures r.Ok? ==>
              var size := Abs(old(position.baseSize));
              && market.totalLongSize
                 == (if old(position.isLong) then SaturatingSub(old(market.totalLongSize), size) else old(market.totalLongSize))
              && market.totalShortSize
                 == (if old(position.isLong) then old(market.totalShortSize) else SaturatingSub(old(market.totalShortSize), size))
              && market.totalVolume == old(market.totalVolume)
              && market.maxPositionBase == old(market.maxPositionBase)
              && market.maintenanceMarginBps == old(market.maintenanceMarginBps)
              && market.takerLeverageCapX == old(market.takerLeverageCapX)
              && market.isPaused == old(market.isPaused)
  {
    if market.isPaused { return Err(MarketPaused); }

    var signedBase := position.baseSize;
    var entryFp := position.entryPriceFp;
    var marginDeposited := position.marginDeposited;
    var isLong := position.isLong;
    var baseSizeAbs := Abs(signedBase);

    if signedBase == 0 { return Err(PositionNotFound); }

    var pnlFp := ClosePnl(signedBase, entryFp, markPriceFp);
    var feeFp := CloseFeeFp(baseSizeAbs, markPriceFp, cfg.feeBps);
    var feeAmt := FeeAmount(feeFp);
    var settleAmt := Settlement(marginDeposited, pnlFp, feeFp);

    if isLong {
      market.totalLongSize := SaturatingSub(market.totalLongSize, baseSizeAbs);
    } else {
      market.totalShortSize := SaturatingSub(market.totalShortSize, baseSizeAbs);
    }

    position.realizedPnlFp := position.realizedPnlFp + pnlFp;
    position.totalFeesPaid := position.totalFeesPaid + feeAmt;
    position.baseSize := 0;
    position.marginDeposited := 0;
    position.lastUpdatedTs := now;
    return Ok(CloseOutcome(pnlFp, feeAmt, settleAmt));
  }
}
