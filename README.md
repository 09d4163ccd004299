# Perpetual-futures program: a verified model

This project is a Dafny model of the on-chain Solana program `solana-perps-flywheel`, a perpetual-futures exchange. All money and prices are fixed-point integers with scale `FP = 1_000_000`. Leverage is capped at 40x.

The model covers:

- **Accounts.** The protocol `Config`, one `Market`, a trader's `UserPosition`, the stored `OraclePrice`, a `StopLossOrder` and the `InsuranceFund`. Each is a class whose fields the instructions update in place. `Valid()` states the integer widths of the stored fields and the cross-field invariants the instructions keep (for example, `is_long` agrees with the sign of `base_size`).
- **Position math.** Unrealized PnL, equity, the maintenance requirement, the liquidation test, the market skew and balance test, and the insurance-fund ratio and health test.
- **Oracle logic.** Staleness and positivity checks, the basis-point deviation between two prices, and reading a Pyth price record. Also the 70/30 aggregation of two sources, the averaging fallback over recent prices, the circuit-breaker price update and the post-trade health check.
- **Trading instructions.** `open_position`, `close_position`, `partial_close_position`, `modify_position_margin` and `set_stop_loss`.
- **Liquidation and the insurance fund.** `enhanced_liquidate` and its fee split, deficit and insurance credit. The insurance-fund ledger: initialize, deposit, withdraw and contribute.
- **Administration.** `initialize_config`, `set_fee_destination`, `edit_max_position`, `pause` and `update_risk_parameters`.
- **The error-code table** and its classification predicates.

How the model handles the runtime:

- **Rollback.** A Solana instruction that fails rolls back every account write. Each instruction method therefore checks all its guards before writing anything. Every method's contract says that on `Err` no account changed.
- **Transfers.** SPL-token transfers are the amounts a method returns (the margin taken, the settlement paid out, the fee, the liquidator's reward).
- **Inputs.** The clock is the parameter `now`. The mark price that `open_position` and `close_position` obtain from `math::current_mark_price_fp` is the parameter `markPriceFp`.
- **Integers.** Rust's `i128` division truncates toward zero and is modelled by `Common.TruncDiv`. `as u64` and `as u32` casts keep the low bits (`AsU64`, `AsU32`). `saturating_*` and `checked_*` are written out. `u128`/`i128` intermediates are unbounded integers.
- **Panics.** An arithmetic panic the code does not guard against is a precondition of the member that contains it. Each is listed under "Left out".

Modules, one per source file: `Common` (integer widths and Rust arithmetic), `Errors`, `State`, `Oracle`, `Trade`, `AdvancedPosition`, `EnhancedLiquidation`, `Admin`.

Where the code and its comments or tests disagree, the model follows the code:

- **Deviation test.** The unit test of `calculate_deviation_bps` expects 526 bps for prices 100 and 95, but the code divides by the higher price and yields 500 (`oracle.rs:137-144`, `oracle.rs:234`). `Oracle.DeviationExamples` proves 500.
- **Liquidation test.** `enhanced_liquidate` decides liquidatability by comparing the bare margin (not equity) with the maintenance requirement. This is unlike `UserPosition::is_liquidatable`, and the model keeps the difference.
- **Mixed scales in equity.** `equity_fp` (`state.rs:213-217`) adds the margin multiplied by `FP` to a PnL already divided by `FP`, and `is_liquidatable` (`state.rs:220-230`) compares that sum with a requirement that is not multiplied by `FP`. So `State.IsLiquidatable` holds only once the loss reaches about `FP` times the margin. The model keeps the code's scales.
- **Mixed scales.** `close_position` adds a PnL already divided by `FP` to a margin multiplied by `FP`. `partial_close_position` and `enhanced_liquidate` divide the fee by `FP` twice. Both are modelled as written.

## Model

All source paths are under `programs/solana-perps-flywheel/src/`.

| member | source | states |
|---|---|---|
| Errors.ErrorCode | programs/solana-perps-flywheel/src/errors.rs:137-214 | the code table itself; its layout and round trip are stated by the three lemmas below |
| Errors.FromErrorCode | programs/solana-perps-flywheel/src/errors.rs:137-214 | the inverse table: a code outside [6000, 6200) or unused in its block decodes to nothing; `ErrorCodeRoundTrip` proves it inverts `ErrorCode` |
| Errors.ErrorCodeInBlock | programs/solana-perps-flywheel/src/errors.rs:137-214 | every code lies in its category's block of twenty (6000, 6020, ..., 6180), hence in [6000, 6189] |
| Errors.ErrorCodeRoundTrip | programs/solana-perps-flywheel/src/errors.rs:137-214 | decoding a variant's code gives back that variant |
| Errors.ErrorCodeInjective | programs/solana-perps-flywheel/src/errors.rs:137-214 | no two variants share a code |
| Errors.IsRecoverable | programs/solana-perps-flywheel/src/errors.rs:216-223 | recoverable errors are all oracle or market errors |
| Errors.RequiresEmergencyPause | programs/solana-perps-flywheel/src/errors.rs:225-231 | errors calling for an emergency pause are all oracle or risk errors |
| Errors.RecoverableCodes | programs/solana-perps-flywheel/src/errors.rs:216-223 | recoverable exactly for codes 6040, 6044, 6063, 6064 (BadOracle, OracleConfidenceLow, InsufficientLiquidity, MarketImpactTooHigh) |
| Errors.EmergencyPauseCodes | programs/solana-perps-flywheel/src/errors.rs:225-231 | emergency pause exactly for codes 6043, 6101, 6102 (OracleConsensusFailure, ExceedsRiskLimits, CircuitBreakerTriggered) |
| Errors.RecoverableExcludesEmergencyPause | programs/solana-perps-flywheel/src/errors.rs:216-231 | no error is both recoverable and a reason for an emergency pause |
| State.SkewRatioAsWritten | programs/solana-perps-flywheel/src/state.rs:131-136 | the skew as the code computes it (u32 casts, u32 product): a u32 when it does not abort, u32::MAX without shorts |
| State.SkewRatioTruncatedShortAborts | programs/solana-perps-flywheel/src/state.rs:131-136 | 2^32 shorts pass the zero test but truncate to a zero divisor: the skew computation aborts |
| State.SkewRatioTruncatedLongMisreports | programs/solana-perps-flywheel/src/state.rs:131-142 | 2^32+1 longs against 1 short is reported as skew 10000 (balanced); the corrected skew saturates at u32::MAX |
| State.SkewRatioAsWrittenAgrees | programs/solana-perps-flywheel/src/state.rs:131-136 | on 32-bit totals where the code does not abort, it agrees with the corrected skew |
| State.SkewRatio | programs/solana-perps-flywheel/src/state.rs:131-136 | u32::MAX without shorts; otherwise the floor of long*10000/short, saturated at u32::MAX |
| State.IsBalanced | programs/solana-perps-flywheel/src/state.rs:139-142 | balanced iff there are shorts and 0.5 <= long/short <= 1.5 (in integer form, shorts <= 2*longs and 10000*longs < 15001*shorts) |
| State.UnrealizedPnl | programs/solana-perps-flywheel/src/state.rs:196-210 | 0 for an empty position or an unchanged price; magnitude is |size|*|price move|/FP truncated; sign follows the side and the direction of the move |
| State.PnlLongIsNegatedShort | programs/solana-perps-flywheel/src/state.rs:201-209 | long PnL is exactly the negation of short PnL (truncating division is odd) |
| State.PnlMonotoneInPrice | programs/solana-perps-flywheel/src/state.rs:205-209 | long PnL is non-decreasing and short PnL non-increasing in the current price |
| State.EquityFp | programs/solana-perps-flywheel/src/state.rs:213-217 | margin*FP minus funding debt when flat or at entry price; above it when the price moved in the position's favour, below otherwise |
| State.EquityMonotoneInPrice | programs/solana-perps-flywheel/src/state.rs:213-217 | long equity rises and short equity falls with the current price |
| State.MaintenanceRequirement | programs/solana-perps-flywheel/src/state.rs:226-227 | the requirement is at most size*price*mm/(10000*FP); 0 when any factor is 0; at most the notional when mm <= 100% |
| State.IsLiquidatable | programs/solana-perps-flywheel/src/state.rs:220-230 | an empty position is never liquidatable; a liquidatable one has equity below the maintenance requirement |
| State.LiquidatableWithoutMaintenance | programs/solana-perps-flywheel/src/state.rs:220-230 | with mm = 0, liquidatable iff open and equity is negative |
| State.LiquidatableAntitoneInMargin | programs/solana-perps-flywheel/src/state.rs:220-230 | removing margin never makes a liquidatable position safe |
| State.FundRatio | programs/solana-perps-flywheel/src/state.rs:324-329 | u64::MAX without claims; otherwise the floor of deposits*10000/claims |
| State.IsHealthy | programs/solana-perps-flywheel/src/state.rs:332-334 | healthy iff there are no claims or deposits/claims > 1.5 (10000*deposits >= 15001*claims) |
| Oracle.DeviationBps | programs/solana-perps-flywheel/src/oracle.rs:137-144 | never above 10000 bps; 0 for equal prices |
| Oracle.DeviationSymmetric | programs/solana-perps-flywheel/src/oracle.rs:137-144 | the deviation does not depend on the argument order |
| Oracle.DeviationExamples | programs/solana-perps-flywheel/src/oracle.rs:231-236 | 100 to 105 is 476 bps, 100 to 95 is 500 bps (the code's value), equal prices 0 |
| Oracle.DeviationAtMost | programs/solana-perps-flywheel/src/oracle.rs:137-144 | deviation <= k iff (9999-k)*higher < 10000*lower: the threshold tests as a plain ratio of the prices |
| Oracle.DeviationBetween | programs/solana-perps-flywheel/src/oracle.rs:137-144 | a price between p and q deviates from p no more than q does |
| Oracle.ReadOracleWithConfig | programs/solana-perps-flywheel/src/oracle.rs:46-58 | Ok iff the price is fresh (age <= max staleness) and positive; the price is returned unchanged; otherwise BadOracle |
| Oracle.ReadOracleFp | programs/solana-perps-flywheel/src/oracle.rs:29-43 | the same with the default configuration (60 s staleness, 500 bps confidence, 200 bps deviation, 3 publishers): Ok iff at most a minute old and positive |
| Oracle.ScaledPythPrice | programs/solana-perps-flywheel/src/oracle.rs:77-81 | a non-positive price stays non-positive; a positive exponent never shrinks a positive price; a negative one is the division truncated toward zero |
| Oracle.ReadPythPrice | programs/solana-perps-flywheel/src/oracle.rs:61-96 | each check in order with its own code: short data, wrong magic, stale timestamp and non-positive scaled price are BadOracle; too few publishers and a confidence ratio above the bound are OracleConfidenceLow; Ok iff every check passes, returning the positive scaled price |
| Oracle.WeightedPrice | programs/solana-perps-flywheel/src/oracle.rs:127-128 | the 70/30 average lies between the two prices and equals them when they agree |
| Oracle.WeightedPriceExample | programs/solana-perps-flywheel/src/oracle.rs:238-244 | primary 100 and secondary 102 aggregate to 100.6 |
| Oracle.AggregateOraclePrices | programs/solana-perps-flywheel/src/oracle.rs:99-134 | a bad primary is BadOracle; a missing or failing secondary gives the primary; two readable sources further apart than the bound are OraclePriceDeviation, otherwise their 70/30 blend; an accepted result deviates from the primary by at most the bound |
| Oracle.Sum | programs/solana-perps-flywheel/src/oracle.rs:152 | the sum of the recent prices, zeros included; bounded by `SumAtMost` and `SumAtLeast` |
| Oracle.CountPositive | programs/solana-perps-flywheel/src/oracle.rs:153 | the number of positive recent prices, at most the number of prices |
| Oracle.MaxOfIsLargest | programs/solana-perps-flywheel/src/oracle.rs:147-160 | the maximum bounds every recent price and is one of them |
| Oracle.MinPositiveIsSmallest | programs/solana-perps-flywheel/src/oracle.rs:147-160 | the smallest positive recent price is at most every positive price and is one of them |
| Oracle.SumAtMost | programs/solana-perps-flywheel/src/oracle.rs:152-157 | a sum of prices each at most m is at most (number of positives)*m |
| Oracle.SumAtLeast | programs/solana-perps-flywheel/src/oracle.rs:152-157 | a sum whose positive prices are each at least m is at least (number of positives)*m |
| Oracle.SumBounds | programs/solana-perps-flywheel/src/oracle.rs:152-157 | the sum lies between count*smallest positive and count*largest price |
| Oracle.EmergencyPriceFallback | programs/solana-perps-flywheel/src/oracle.rs:147-160 | OracleFeedNotFound iff fewer than 3 of the 5 prices are positive; otherwise the average of the positives, between the smallest positive and the largest price |
| Oracle.CircuitBreakerTrips | programs/solana-perps-flywheel/src/oracle.rs:173-178 | the breaker trips iff a price is stored and the move from it exceeds the limit; `UpdateOraclePrice` fails exactly then |
| Oracle.UpdateOraclePrice | programs/solana-perps-flywheel/src/oracle.rs:164-189 | CircuitBreakerTriggered iff a previous price exists and the move exceeds the bound, and then nothing changes; otherwise only price and timestamp change, and the move is within the bound |
| Oracle.HealthCheck | programs/solana-perps-flywheel/src/oracle.rs:192-225 | BadOracle when older than 300 s, InvalidPrice for a zero price, OraclePriceDeviation for a move over 5000 bps from a stored price; Ok iff fresh, positive and within 5000 bps of the stored price, so the higher price is below 10000/4999 (about 2.0004) times the lower |
| Trade.CalculateLiquidationPrice | programs/solana-perps-flywheel/src/instructions/trade.rs:190-210 | long liquidation price <= entry <= short liquidation price; entry itself when mm = 0; entry*(1 -/+ mm) rounded down (enhanced_liquidation.rs:347-365 holds an identical copy, modelled by the same member) |
| Trade.LiquidationBandSymmetric | programs/solana-perps-flywheel/src/instructions/trade.rs:190-210 | the band below entry (long) and above entry (short) have the same width, up to one unit of rounding |
| Trade.LiquidationPriceMonotoneInMaintenance | programs/solana-perps-flywheel/src/instructions/trade.rs:190-210 | a larger maintenance margin moves both liquidation prices closer to entry |
| Trade.BaseUnits | programs/solana-perps-flywheel/src/instructions/trade.rs:30-36 | the number of whole units the quote buys: units*price <= quote < (units+1)*price |
| Trade.AddOpenInterest | programs/solana-perps-flywheel/src/instructions/trade.rs:63-76 | exactly the traded side grows by the units and the volume by the quote; nothing else in the market changes |
| Trade.WriteOpenedPosition | programs/solana-perps-flywheel/src/instructions/trade.rs:79-96 | the new position's fields: side, signed size, entry, margin, timestamps, zeroed debt, PnL and fees |
| Trade.OpenChecks | programs/solana-perps-flywheel/src/instructions/trade.rs:16-76 | each failing guard, in source order, gives its own code: ProtocolPaused, MarketPaused, LeverageTooHigh for either cap, InvalidMarketParameters for a zero quote, MathOverflow for a zero leverage, InsufficientMargin, DivisionByZero for a zero price, PositionTooSmall, MaxPositionExceeded, MathOverflow for more than i64::MAX units or either total overflowing; Ok iff every guard passes, with the units bought |
| Trade.AsI64 | programs/solana-perps-flywheel/src/instructions/trade.rs:84-88 | the `as i64` cast of a u64: unchanged up to i64::MAX, negative above it |
| Trade.SignedSizeAsWritten | programs/solana-perps-flywheel/src/instructions/trade.rs:84-88 | the signed size the code writes; equal to plus or minus the units when they fit in an i64 |
| Trade.OpenedSizeWraps | programs/solana-perps-flywheel/src/instructions/trade.rs:84-88 | 2^63 units opened long are recorded as i64::MIN, and 2^63+1 units short as +i64::MAX; a quote of 2^63 at price 1 buys 2^63 units |
| Trade.OpenPosition | programs/solana-perps-flywheel/src/instructions/trade.rs:8-117 | fails with exactly the code `OpenChecks` gives, and then nothing changes; otherwise returns the margin quote/leverage, and the position holds BaseUnits on the chosen side at the mark price with that margin while the market totals and volume grow |
| Trade.OpenedPositionIsSafe | programs/solana-perps-flywheel/src/instructions/trade.rs:24-47 | a freshly opened position (leverage <= 40, mm <= 100%) is not liquidatable at its entry price |
| Trade.ClosePnl | programs/solana-perps-flywheel/src/instructions/trade.rs:138-141 | the close PnL as the code computes it; `ClosePnlIsUnrealized` proves it equals the unrealized PnL |
| Trade.ClosePnlIsUnrealized | programs/solana-perps-flywheel/src/instructions/trade.rs:137-141 | the closing PnL is the position's unrealized PnL at the mark price |
| Trade.CloseFeeFp | programs/solana-perps-flywheel/src/instructions/trade.rs:143-144 | no fee for zero rate or size; never above the exit notional |
| Trade.Settlement | programs/solana-perps-flywheel/src/instructions/trade.rs:147-150 | a u64 payout; 0 when the net value is under one unit; at most the margin on a net loss; at least the margin on a net profit that fits |
| Trade.FeeAmount | programs/solana-perps-flywheel/src/instructions/trade.rs:145 | the fee in whole tokens fits a u64 and is the floor of the fixed-point fee over FP whenever that fits |
| Trade.ClosePosition | programs/solana-perps-flywheel/src/instructions/trade.rs:119-187 | MarketPaused, then PositionNotFound, else Ok with the PnL, fee and settlement above; the position is emptied, PnL and fees accumulated; the position's side shrinks, saturating at 0; on failure nothing changes |
| AdvancedPosition.CloseSize | programs/solana-perps-flywheel/src/instructions/advanced_position.rs:28-31 | the floor of size*percentage/100; strictly below the size for a percentage under 100 |
| AdvancedPosition.ScaledMargin | programs/solana-perps-flywheel/src/instructions/advanced_position.rs:94-96 | the kept margin is at most margin*remaining/original, so never above the old margin |
| AdvancedPosition.PartialCloseFee | programs/solana-perps-flywheel/src/instructions/advanced_position.rs:44 | the fee never exceeds the exit notional for a rate up to 100% |
| AdvancedPosition.PartialSettlement | programs/solana-perps-flywheel/src/instructions/advanced_position.rs:46-50 | the settlement is max(0, exit - fee + pnl), never negative |
| AdvancedPosition.PartialClosePnl | programs/solana-perps-flywheel/src/instructions/advanced_position.rs:34-41 | 0 at an unchanged price; signed by the side and the direction of the move |
| AdvancedPosition.PartialClosePnlAntisymmetric | programs/solana-perps-flywheel/src/instructions/advanced_position.rs:34-41 | long and short partial-close PnL are exact negations |
| AdvancedPosition.ShrinkPosition | programs/solana-perps-flywheel/src/instructions/advanced_position.rs:86-103 | |size| drops by the close size and keeps its sign, the margin is scaled, the matching side total shrinks (saturating); nothing else changes |
| AdvancedPosition.PartialClosePosition | programs/solana-perps-flywheel/src/instructions/advanced_position.rs:12-129 | InvalidClosePercentage outside 1..99, MarketPaused, PositionNotFound, BadOracle, PositionTooSmall when the share rounds to zero; Ok iff every check passes; on success 0 < close size < size, the remainder keeps its side, the margin shrinks proportionally, the outcome carries PnL, settlement and fee, and every other position and market field is kept; on failure nothing changes |
| AdvancedPosition.ModifyPositionMargin | programs/solana-perps-flywheel/src/instructions/advanced_position.rs:131-211 | MarketPaused, PositionNotFound, BadOracle; past those checks an addition or zero change always succeeds, adding saturates, and a removal is InsufficientFunds unless below the margin, then WouldBeLiquidated unless it leaves the maintenance requirement, else Ok; zero changes nothing; only the margin changes |
| AdvancedPosition.StopOnLosingSide | programs/solana-perps-flywheel/src/instructions/advanced_position.rs:228-232 | the accepted side of the current price: below it for a long, above for a short; `StopLossTriggersOnLoss` shows such a trigger is a loss |
| AdvancedPosition.SetStopLoss | programs/solana-perps-flywheel/src/instructions/advanced_position.rs:213-253 | InvalidMarketParameters, PositionNotFound, InvalidPrice, BadOracle and InvalidStopLoss each pinned in source order; Ok iff percentage in 1..100, position open, trigger positive, oracle fresh and trigger on the losing side of the current price; then the order holds the trigger and percentage, active and unexecuted; on failure nothing changes |
| AdvancedPosition.StopLossTriggersOnLoss | programs/solana-perps-flywheel/src/instructions/advanced_position.rs:228-232 | an accepted trigger price is a loss relative to the current price: PnL at the trigger is at most PnL now |
| EnhancedLiquidation.SplitLiquidationFee | programs/solana-perps-flywheel/src/instructions/enhanced_liquidation.rs:64-66 | reward plus protocol fee is the whole fee; the protocol gets the odd unit |
| EnhancedLiquidation.SettlementBase | programs/solana-perps-flywheel/src/instructions/enhanced_liquidation.rs:69-73 | exit notional plus the signed PnL |
| EnhancedLiquidation.SettlementBaseDefinedCases | programs/solana-perps-flywheel/src/instructions/enhanced_liquidation.rs:69-73 | the base never underflows for a short; for a long it does iff the mark price is below about half the entry |
| EnhancedLiquidation.DeepLossLongUnderflows | programs/solana-perps-flywheel/src/instructions/enhanced_liquidation.rs:69-73 | a long at a third of its entry price with margin under the 5% requirement is liquidatable, yet its settlement base underflows |
| EnhancedLiquidation.ClampedSettlementBase | programs/solana-perps-flywheel/src/instructions/enhanced_liquidation.rs:69-75 | the settlement base floored at zero; equal to the source's base wherever that does not underflow |
| EnhancedLiquidation.LiquidationDeficit | programs/solana-perps-flywheel/src/instructions/enhanced_liquidation.rs:75-80 | max(0, margin - net settlement), at most the margin, 0 iff the settlement covers the margin |
| EnhancedLiquidation.CalculateOptimalLiquidationSize | programs/solana-perps-flywheel/src/instructions/enhanced_liquidation.rs:268-282 | never above |size|; equals the percentage share of the size for percentages up to 100 |
| EnhancedLiquidation.InitializeInsuranceFund | programs/solana-perps-flywheel/src/instructions/enhanced_liquidation.rs:255-265 | an empty fund with the given authority and vault, which is healthy |
| EnhancedLiquidation.DepositInsuranceFund | programs/solana-perps-flywheel/src/instructions/enhanced_liquidation.rs:169-203 | zero is InvalidMarketParameters, overflow is MathOverflow; else deposits grow by the amount, claims untouched, health preserved |
| EnhancedLiquidation.WithdrawInsuranceFund | programs/solana-perps-flywheel/src/instructions/enhanced_liquidation.rs:206-252 | zero or a reason over 200 bytes is InvalidMarketParameters, more than the deposits is InsufficientBalance, claims overflow is MathOverflow; else claims grow by the amount, deposits untouched, and a withdrawal never makes an unhealthy fund healthy |
| EnhancedLiquidation.ContributeToInsuranceFund | programs/solana-perps-flywheel/src/instructions/enhanced_liquidation.rs:305-326 | deposits grow by the amount, saturating; zero changes nothing; claims untouched |
| EnhancedLiquidation.ReducePosition | programs/solana-perps-flywheel/src/instructions/enhanced_liquidation.rs:122-143 | at 100% the position is reset (size, margin, side, entry); below, the size drops by the liquidated part, keeps its sign and the margin is scaled; every other field is kept |
| EnhancedLiquidation.ReduceOpenInterest | programs/solana-perps-flywheel/src/instructions/enhanced_liquidation.rs:147-154 | the liquidated side's total shrinks by the size, saturating at 0; nothing else changes |
| EnhancedLiquidation.EnhancedLiquidate | programs/solana-perps-flywheel/src/instructions/enhanced_liquidation.rs:10-166 | InvalidMarketParameters outside 1..100, MarketPaused, BadOracle, PositionNotFound, PositionNotLiquidatable when margin covers the requirement; on success the reward, protocol fee and deficit are paid out, the fund is credited the deficit, the position and market shrink, and every other position, market and fund field is kept; on failure nothing changes |
| Admin.InitializeConfig | programs/solana-perps-flywheel/src/instructions/admin.rs:6-37 | InvalidProtocolConfig iff a rate exceeds its cap (10%, 20%, 50%); otherwise a valid unpaused configuration with the given accounts and rates and the default risk limits |
| Admin.WriteRiskDefaults | programs/solana-perps-flywheel/src/instructions/admin.rs:30-33 | the four default risk limits (50 positions per user, 10000 in all, pause threshold 1000000, breaker 1000 bps) are written and nothing else changes |
| Admin.SetFeeDestination | programs/solana-perps-flywheel/src/instructions/admin.rs:39-43 | only the fee destination changes; validity kept |
| Admin.EditMaxPosition | programs/solana-perps-flywheel/src/instructions/admin.rs:45-50 | zero is InvalidMarketParameters and changes nothing; otherwise only the position cap changes |
| Admin.Pause | programs/solana-perps-flywheel/src/instructions/admin.rs:52-56 | the pause flag becomes the argument; nothing else changes |
| Admin.UpdateRiskParameters | programs/solana-perps-flywheel/src/instructions/admin.rs:58-77 | Ok iff each supplied value is in range (1..200, 100..5000); absent values keep their field; on failure nothing changes; fee rates never change |

## Left out

- Token transfers (`token::transfer` and the `CpiContext` builders) are foreign SPL-token calls. They are the amounts the methods return, and a failing transfer is not modelled.
- Anchor account plumbing is runtime and serialization, not behaviour:
  - account structs, PDA seeds and bumps, `find_pda`;
  - `has_one`/`constraint`/`init_if_needed` checks, so `UnauthorizedAccess` and ownership errors are never produced;
  - the space constants and account deserialization failures (including the one in `health_check`).
- `msg!`/`emit!` logging and the event records carry no logic.
- `Clock::get()` is the parameter `now`.
- `math::current_mark_price_fp` is not part of this model. `open_position` and `close_position` take the mark price as the parameter `markPriceFp`, so their oracle error paths are not modelled.
- The unsafe byte-to-struct cast in `read_pyth_price` is a record of the Pyth fields plus the data length.
- `u128`/`i128` intermediates are unbounded: their overflow at absurd prices is not modelled.
- `emergency_price_fallback`'s market key is used only in a log and is not modelled. `health_check`'s maintenance margin is unused by the source; `Oracle.HealthCheck` keeps it as the parameter `maintenanceMarginBps` and ignores it.
- `lib.rs`, `instructions/mod.rs`, `advanced_position_fixed.rs` and `advanced_position_old.rs` are not part of the program's behaviour modelled here. The last two are not declared in the instruction module.
- Trade.CalculateLiquidationPrice: requires maintenance margin <= 10000 bps for a long, because `10_000 - maintenance_ratio` panics on underflow otherwise.
- Trade.OpenPosition: requires, for a long, maintenance margin <= 10000 bps; above that the liquidation-price subtraction would misbehave.
- Trade.ClosePosition: requires that `total_fees_paid + fee` fits a u64, because the `+=` panics otherwise.
- AdvancedPosition.ModifyPositionMargin: requires the change to differ from `i64::MIN`, whose negation panics.
- Oracle.ReadPythPrice: requires that the power of ten and the scaled price fit an i64 for an admissible record, because `pow` and the multiplication panic otherwise.
- Oracle.AggregateOraclePrices: carries the same requirement for the secondary record.
- State.FundRatio: requires `deposits * 10000` to fit a u64 when there are claims, because the product panics otherwise.
- State.IsHealthy: carries the same requirement as `State.FundRatio`.
- Oracle.EmergencyPriceFallback: requires exactly five prices, which is the fixed array length of the source.

## Findings

| source | as written | input that shows it | evidently intended | confidence | as-written member | corrected member |
|---|---|---|---|---|---|---|
| programs/solana-perps-flywheel/src/state.rs:131-136 | `skew_ratio` casts both u64 totals `as u32` and multiplies in u32 | total_long_size = 2^32+1, total_short_size = 1 gives skew 10000, a balanced market. total_short_size = 2^32 passes the zero test but divides by 0. total_long_size > 429496 makes the u32 product `* 10_000` overflow: an abort under overflow checks, a wrap without them (the as-written member takes the abort) | the long:short ratio of the full u64 totals, saturating at u32::MAX | not executed | State.SkewRatioAsWritten (with State.SkewRatioTruncatedLongMisreports, State.SkewRatioTruncatedShortAborts) | State.SkewRatio (used by State.IsBalanced) |
| programs/solana-perps-flywheel/src/instructions/trade.rs:84-88 | `base_size_units as i64` wraps a u64 above i64::MAX | `edit_max_position` sets max_position_base = u64::MAX; quote 2^63 at price_fp 1 and leverage 1 opens a long recorded with base_size i64::MIN | a checked conversion that rejects the trade | not executed | Trade.SignedSizeAsWritten (with Trade.OpenedSizeWraps) | Trade.OpenChecks (MathOverflow above i64::MAX units, used by Trade.OpenPosition) |
| programs/solana-perps-flywheel/src/instructions/enhanced_liquidation.rs:69-73 | for a losing position the u128 `exit_notional - (-pnl)` underflows | a long of 10000 units entered at 3*FP, mark FP, maintenance 500 bps, margin below 500: liquidatable, but the subtraction aborts, so it can never be liquidated | a base floored at zero, like the `saturating_sub` on the next line | not executed | EnhancedLiquidation.SettlementBase (with EnhancedLiquidation.SettlementBaseDefinedCases, EnhancedLiquidation.DeepLossLongUnderflows) | EnhancedLiquidation.ClampedSettlementBase (used by EnhancedLiquidation.EnhancedLiquidate) |
