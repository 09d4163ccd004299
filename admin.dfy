/** The administrator's instructions: setting up the protocol
    configuration, redirecting fees, pausing, capping a market's position
    size, and tuning the risk parameters. Who may call them is enforced by
    account constraints outside this model; what they write is below. Each
    keeps the configuration within the bounds `Config.Valid` states, and
    none after `InitializeConfig` touches the fee rates. */
module Admin {

  import opened Common
  import opened Errors
  import opened State

  /** `initialize_config`: a trading fee above 10%, a liquidation fee above
      20% or a creator reward above 50% is `InvalidProtocolConfig`.
      Otherwise the configuration is written unpaused, with the given
      accounts and rates and the default risk limits (50 positions per
      user, 10000 in total, a 1000000 pause threshold and a 10% circuit
      breaker). */
  method InitializeConfig(cfg: Config, admin: Pubkey, quoteMint: Pubkey, feeDestination: Pubkey,
                          insuranceVault: Pubkey, creatorRewardMint: Pubkey,
                          feeBps: nat, liqFeeBps: nat, creatorRewardBps: nat)
    returns (r: Result<()>)
    requires IsU16(feeBps) && IsU16(liqFeeBps) && IsU16(creatorRewardBps)
    modifies cfg
    ensures r.Ok? <==> feeBps <= 1000 && liqFeeBps <= 2000 && creatorRewardBps <= 5000
    ensures r.Err? ==> r.error == InvalidProtocolConfig && unchanged(cfg)
    ensures r.Ok? ==>
              && cfg.Valid()
              && cfg.admin == admin && cfg.quoteMint == quoteMint
              && cfg.feeBps == feeBps && cfg.liqFeeBps == liqFeeBps
              && cfg.feeDestination == feeDestination && cfg.insuranceVault == insuranceVault
              && cfg.creatorRewardMint == creatorRewardMint && cfg.creatorRewardBps == creatorRewardBps
              && !cfg.paused
              && cfg.maxPositionsPerUser == 50 && cfg.maxTotalPositions == 10_000
              && cfg.emergencyPauseThreshold == 1_000_000 && cfg.circuitBreakerThresholdBps == 1000
  {
    if feeBps > 1000 { return Err(InvalidProtocolConfig); }
    if liqFeeBps > 2000 { return Err(InvalidProtocolConfig); }
    if creatorRewardBps > 5000 { return Err(InvalidProtocolConfig); }

    cfg.admin := admin;
    cfg.quoteMint := quoteMint;
    cfg.feeBps := feeBps;
    cfg.liqFeeBps := liqFeeBps;
    cfg.feeDestination := feeDestination;
    cfg.insuranceVault := insuranceVault;
    cfg.creatorRewardMint := creatorRewardMint;
    cfg.creatorRewardBps := creatorRewardBps;
    cfg.paused := false;
    WriteRiskDefaults(cfg);
    return Ok(());
  }

  /** The default risk limits `initialize_config` writes. */
  method WriteRiskDefaults(cfg: Config)
    modifies cfg
    ensures cfg.maxPositionsPerUser == 50 && cfg.maxTotalPositions == 10_000
    ensures cfg.emergencyPauseThreshold == 1_000_000 && cfg.circuitBreakerThresholdBps == 1000
    ensures cfg.admin == old(cfg.admin) && cfg.quoteMint == old(cfg.quoteMint)
    ensures cfg.feeBps == old(cfg.feeBps) && cfg.liqFeeBps == old(cfg.liqFeeBps)
    ensures cfg.feeDestination == old(cfg.feeDestination) && cfg.insuranceVault == old(cfg.insuranceVault)
    ensures cfg.creatorRewardMint == old(cfg.creatorRewardMint) && cfg.creatorRewardBps == old(cfg.creatorRewardBps)
    ensures cfg.paused == old(cfg.paused)
  {
    cfg.maxPositionsPerUser := 50;
    cfg.maxTotalPositions := 10_000;
    cfg.emergencyPauseThreshold := 1_000_000;
    cfg.circuitBreakerThresholdBps := 1000;
  }

  /** `set_fee_destination`: only the fee destination changes. */
  method SetFeeDestination(cfg: Config, newFeeDestination: Pubkey)
    requires cfg.Valid()
    modifies cfg
    ensures cfg.Valid()
    ensures cfg.feeDestination == newFeeDestination
    ensures cfg.admin == old(cfg.admin) && cfg.quoteMint == old(cfg.quoteMint)
    ensures cfg.feeBps == old(cfg.feeBps) && cfg.liqFeeBps == old(cfg.liqFeeBps)
    ensures cfg.insuranceVault == old(cfg.insuranceVault) && cfg.creatorRewardMint == old(cfg.creatorRewardMint)
    ensures cfg.creatorRewardBps == old(cfg.creatorRewardBps) && cfg.paused == old(cfg.paused)
    ensures cfg.maxPositionsPerUser == old(cfg.maxPositionsPerUser) && cfg.maxTotalPositions == old(cfg.maxTotalPositions)
    ensures cfg.emergencyPauseThreshold == old(cfg.emergencyPauseThreshold)
    ensures cfg.circuitBreakerThresholdBps == old(cfg.circuitBreakerThresholdBps)
  {
    cfg.feeDestination := newFeeDestination;
  }

  /** `edit_max_position`: a zero cap is `InvalidMarketParameters`;
      otherwise only the market's position cap changes. */
  method EditMaxPosition(market: Market, newMaxBase: nat) returns (r: Result<()>)
    requires market.Valid() && IsU64(newMaxBase)
    modifies market
    ensures market.Valid()
    ensures r.Ok? <==> newMaxBase > 0
    ensures r.Err? ==> r.error == InvalidMarketParameters && unchanged(market)
    ensures r.Ok? ==> market.maxPositionBase == newMaxBase
    ensures market.maintenanceMarginBps == old(market.maintenanceMarginBps)
    ensures market.takerLeverageCapX == old(market.takerLeverageCapX)
    ensures market.totalLongSize == old(market.totalLongSize) && market.totalShortSize == old(market.totalShortSize)
    ensures market.totalVolume == old(market.totalVolume) && market.isPaused == old(market.isPaused)
  {
    if newMaxBase == 0 { return Err(InvalidMarketParameters); }
    market.maxPositionBase := newMaxBase;
    return Ok(());
  }

  /** `pause`: the pause flag becomes exactly the argument; nothing else
      changes. */
  method Pause(cfg: Config, paused: bool)
    requires cfg.Valid()
    modifies cfg
    ensures cfg.Valid()
    ensures cfg.paused == paused
    ensures cfg.admin == old(cfg.admin) && cfg.quoteMint == old(cfg.quoteMint)
    ensures cfg.feeBps == old(cfg.feeBps) && cfg.liqFeeBps == old(cfg.liqFeeBps)
    ensures cfg.feeDestination == old(cfg.feeDestination) && cfg.insuranceVault == old(cfg.insuranceVault)
    ensures cfg.creatorRewardMint == old(cfg.creatorRewardMint) && cfg.creatorRewardBps == old(cfg.creatorRewardBps)
    ensures cfg.maxPositionsPerUser == old(cfg.maxPositionsPerUser) && cfg.maxTotalPositions == old(cfg.maxTotalPositions)
    ensures cfg.emergencyPauseThreshold == old(cfg.emergencyPauseThreshold)
    ensures cfg.circuitBreakerThresholdBps == old(cfg.circuitBreakerThresholdBps)
  {
    cfg.paused := paused;
  }

  /** `update_risk_parameters`: each supplied value must lie in its range
      (1..200 positions per user, 100..5000 bps for the circuit breaker),
      else `InvalidProtocolConfig` and nothing is written; an absent value
      leaves its field as it was; nothing else changes. */
  method UpdateRiskParameters(cfg: Config, maxPositionsPerUser: Option<nat>, circuitBreakerThresholdBps: Option<nat>)
    returns (r: Result<()>)
    requires cfg.Valid()
    requires maxPositionsPerUser.Some? ==> IsU32(maxPositionsPerUser.value)
    requires circuitBreakerThresholdBps.Some? ==> IsU64(circuitBreakerThresholdBps.value)
    modifies cfg
    ensures cfg.Valid()
    ensures r.Ok? <==> (maxPositionsPerUser.Some? ==> 0 < maxPositionsPerUser.value <= 200)
                       && (circuitBreakerThresholdBps.Some? ==> 100 <= circuitBreakerThresholdBps.value <= 5000)
    ensures r.Err? ==> r.error == InvalidProtocolConfig && unchanged(cfg)
    ensures r.Ok? ==>
              && cfg.maxPositionsPerUser
                 == (if maxPositionsPerUser.Some? then maxPositionsPerUser.value else old(cfg.maxPositionsPerUser))
              && cfg.circuitBreakerThresholdBps
                 == (if circuitBreakerThresholdBps.Some? then circuitBreakerThresholdBps.value
                     else old(cfg.circuitBreakerThresholdBps))
    ensures cfg.admin == old(cfg.admin) && cfg.quoteMint == old(cfg.quoteMint)
    ensures cfg.feeBps == old(cfg.feeBps) && cfg.liqFeeBps == old(cfg.liqFeeBps)
    ensures cfg.feeDestination == old(cfg.feeDestination) && cfg.insuranceVault == old(cfg.insuranceVault)
    ensures cfg.creatorRewardMint == old(cfg.creatorRewardMint) && cfg.creatorRewardBps == old(cfg.creatorRewardBps)
    ensures cfg.paused == old(cfg.paused) && cfg.maxTotalPositions == old(cfg.maxTotalPositions)
    ensures cfg.emergencyPauseThreshold == old(cfg.emergencyPauseThreshold)
  {
    if maxPositionsPerUser.Some? && !(0 < maxPositionsPerUser.value <= 200) {
      return Err(InvalidProtocolConfig);
    }
    if circuitBreakerThresholdBps.Some? && !(100 <= circuitBreakerThresholdBps.value <= 5000) {
      return Err(InvalidProtocolConfig);
    }
    if maxPositionsPerUser.Some? {
      cfg.maxPositionsPerUser := maxPositionsPerUser.value;
    }
    if circuitBreakerThresholdBps.Some? {
      cfg.circuitBreakerThresholdBps := circuitBreakerThresholdBps.value;
    }
    return Ok(());
  }
}
