/** Price validation: freshness and positivity of the program's own price
    account, the checks on a Pyth price record, the basis-point deviation
    between two prices, the 70/30 blend of two sources, the moving-average
    fallback, the circuit-breaking price update and the post-trade health
    check. Clock reads are the `now` parameter (unix seconds). */
module Oracle {

  import opened Common
  import opened Errors
  import opened State

  datatype OracleConfig = OracleConfig(
    maxStalenessSeconds: int,
    maxConfidenceDeviationBps: nat,  // largest confidence band, in bps of the price
    maxPriceDeviationBps: nat,       // largest disagreement between two sources
    minPublishers: nat)

  /** `OracleConfig::default`: one minute, 5%, 2%, three publishers. */
  const DefaultOracleConfig: OracleConfig := OracleConfig(60, 500, 200, 3)

  const PYTH_MAGIC: nat := 0xa1b2c3d4
  /** `size_of::<PythPriceAccount>()` under `#[repr(C)]`: four u32, i64, u64,
      i64, two u8, two bytes of padding, i32. */
  const PYTH_RECORD_SIZE: nat := 48
  /** Staleness allowed by the post-trade health check (five minutes). */
  const HEALTH_MAX_STALENESS: int := 300
  /** Largest move from the stored price the health check lets through (50%). */
  const HEALTH_MAX_DEVIATION_BPS: nat := 5000

  /** The fields of a Pyth price record. */
  datatype PythPriceAccount = PythPriceAccount(
    magic: nat, version: nat, priceType: nat, size: nat,
    price: int, confidence: nat, timestamp: int,
    minPublishers: nat, numPublishers: nat, expo: int)

  /** A Pyth account as handed to the program: the length of its data and
      the record read from the front of it. */
  datatype PythAccountInfo = PythAccountInfo(dataLen: nat, record: PythPriceAccount)

  // ---------------------------------------------------------------------
  // Deviation between two prices

  /** `calculate_deviation_bps`: the gap between two prices as basis points
      of the higher one, rounded down; zero when both are zero. */
  function DeviationBps(price1: nat, price2: nat): (d: nat)
    ensures d <= 10_000
    ensures price1 == price2 ==> d == 0
  {
    var higher := Max(price1, price2);
    var lower := Min(price1, price2);
    if higher == 0 then 0
    else
      DivAtMost((higher - lower) * 10_000, higher, 10_000);
      MulMono(higher - lower, higher, 10_000);
      (higher - lower) * 10_000 / higher
  }

  lemma DeviationSymmetric(price1: nat, price2: nat)
    ensures DeviationBps(price1, price2) == DeviationBps(price2, price1)
  {
  }

  /** The first and third values the source's unit test pins. The second
      pair gives 500, measured against the higher price as for every other
      pair; the test's 526 is the gap measured against the lower price. */
  lemma DeviationExamples()
    ensures DeviationBps(100_000_000, 105_000_000) == 476
    ensures DeviationBps(100_000_000, 95_000_000) == 500
    ensures DeviationBps(100_000_000, 100_000_000) == 0
  {
  }

  /** A deviation of at most `k` bps means the lower price exceeds
      `(9999 - k) / 10000` of the higher one, and conversely. */
  lemma DeviationAtMost(price1: nat, price2: nat, k: nat)
    requires k < 10_000
    requires Max(price1, price2) > 0
    ensures DeviationBps(price1, price2) <= k
        <==> (9_999 - k) * Max(price1, price2) < 10_000 * Min(price1, price2)
  {
    var higher := Max(price1, price2);
    var lower := Min(price1, price2);
    DivAtMost((higher - lower) * 10_000, higher, k);
    assert (k + 1) * higher == 10_000 * higher - (9_999 - k) * higher;
  }

  /** A price between two others is no farther, in deviation terms, from
      the first than the second is. */
  lemma DeviationBetween(price: nat, other: nat, between: nat)
    requires Min(price, other) <= between <= Max(price, other)
    ensures DeviationBps(price, between) <= DeviationBps(price, other)
  {
    if price < other && between > 0 {
      // (between - price) / between <= (other - price) / other, cross-multiplied
      var a := between - price;
      var b := other - price;
      assert a * other <= b * between by {
        assert a * other == between * other - price * other;
        assert b * between == other * between - price * between;
        MulMono(between, other, price);
      }
      MulMono(a * other, b * between, 10_000);
      assert (a * 10_000) * other <= (b * 10_000) * between;
      CrossDivMono(a * 10_000, between, b * 10_000, other);
    } else if other < price {
      DivMono((price - between) * 10_000, (price - other) * 10_000, price);
    }
  }

  // ---------------------------------------------------------------------
  // Reading the program's own price account

  /** `read_oracle_with_config`: the stored price, if it is fresh enough and
      positive; `BadOracle` otherwise. */
  function ReadOracleWithConfig(priceFp: nat, lastUpdatedTs: int, now: int, config: OracleConfig): (r: Result<nat>)
    ensures r.Ok? <==> now - lastUpdatedTs <= config.maxStalenessSeconds && priceFp > 0
    ensures r.Ok? ==> r.value == priceFp
    ensures r.Err? ==> r.error == BadOracle
  {
    if now - lastUpdatedTs > config.maxStalenessSeconds then Err(BadOracle)
    else if priceFp == 0 then Err(BadOracle)
    else Ok(priceFp)
  }

  /** `read_oracle_fp`: the same with the default configuration, which
      accepts a price at most a minute old. */
  function ReadOracleFp(priceFp: nat, lastUpdatedTs: int, now: int): (r: Result<nat>)
    ensures r.Ok? <==> now - lastUpdatedTs <= 60 && priceFp > 0
    ensures r.Ok? ==> r.value == priceFp
    ensures r.Err? ==> r.error == BadOracle
  {
    ReadOracleWithConfig(priceFp, lastUpdatedTs, now, DefaultOracleConfig)
  }

  // ---------------------------------------------------------------------
  // Reading a Pyth record

  function Pow10(n: nat): (p: nat)
    ensures p >= 1
  {
    if n == 0 then 1 else 10 * Pow10(n - 1)
  }

  /** The record's integer price brought to exponent zero: multiplied by
      `10^expo`, or divided by `10^-expo` truncating toward zero as i64
      division does. */
  function ScaledPythPrice(price: int, expo: int): (scaled: int)
    ensures price <= 0 ==> scaled <= 0
    ensures expo >= 0 && price > 0 ==> scaled >= price
    ensures expo < 0 ==> Abs(scaled) * Pow10(-expo) <= Abs(price) < (Abs(scaled) + 1) * Pow10(-expo)
  {
    assert expo >= 0 && price > 0 ==> price * Pow10(expo) >= price by {
      if expo >= 0 && price > 0 { MulMono(1, Pow10(expo), price); }
    }
    assert expo >= 0 && price <= 0 ==> price * Pow10(expo) <= 0 by {
      if expo >= 0 && price <= 0 { MulMono(0, Pow10(expo), -price); }
    }
    if expo >= 0 then price * Pow10(expo) else TruncDiv(price, Pow10(-expo))
  }

  /** The scaling step stays within i64: `10_i64.pow` of at most 18, and a
      product that fits. Beyond this the source aborts. */
  predicate PythScalingFits(record: PythPriceAccount)
  {
    -18 <= record.expo <= 18
    && (record.expo >= 0 ==> IsI64(record.price * Pow10(record.expo)))
  }

  /** The checks `read_pyth_price` makes before it scales the price. */
  predicate PythRecordAdmissible(account: PythAccountInfo, now: int, config: OracleConfig)
  {
    && account.dataLen >= PYTH_RECORD_SIZE
    && account.record.magic == PYTH_MAGIC
    && account.record.numPublishers >= config.minPublishers
    && now - account.record.timestamp <= config.maxStalenessSeconds
  }

  /** `read_pyth_price`: an account too short for the record, a wrong magic
      number or a stale timestamp is `BadOracle`, as is a scaled price that
      is not positive; too few publishers, or a confidence band wider than
      `max_confidence_deviation_bps` of the price, is `OracleConfidenceLow`.
      An accepted price is the positive scaled price. */
  function ReadPythPrice(account: PythAccountInfo, now: int, config: OracleConfig): (r: Result<nat>)
    requires PythRecordAdmissible(account, now, config) ==> PythScalingFits(account.record)
    ensures account.dataLen < PYTH_RECORD_SIZE ==> r == Err(BadOracle)
    ensures account.dataLen >= PYTH_RECORD_SIZE && account.record.magic != PYTH_MAGIC ==> r == Err(BadOracle)
    ensures (account.dataLen >= PYTH_RECORD_SIZE && account.record.magic == PYTH_MAGIC
             && account.record.numPublishers < config.minPublishers) ==> r == Err(OracleConfidenceLow)
    ensures (account.dataLen >= PYTH_RECORD_SIZE && account.record.magic == PYTH_MAGIC
             && account.record.numPublishers >= config.minPublishers
             && now - account.record.timestamp > config.maxStalenessSeconds) ==> r == Err(BadOracle)
    ensures (PythRecordAdmissible(account, now, config)
             && ScaledPythPrice(account.record.price, account.record.expo) <= 0) ==> r == Err(BadOracle)
    ensures (PythRecordAdmissible(account, now, config) && ScaledPythPrice(account.record.price, account.record.expo) > 0
             && account.record.confidence * 10_000
                >= (config.maxConfidenceDeviationBps + 1) * ScaledPythPrice(account.record.price, account.record.expo)) ==>
              r == Err(OracleConfidenceLow)
    ensures r.Ok? <==>
              && PythRecordAdmissible(account, now, config)
              && ScaledPythPrice(account.record.price, account.record.expo) > 0
              && account.record.confidence * 10_000
                 < (config.maxConfidenceDeviationBps + 1) * ScaledPythPrice(account.record.price, account.record.expo)
    ensures r.Ok? ==> r.value > 0 && r.value == ScaledPythPrice(account.record.price, account.record.expo)
    ensures r.Ok? ==> account.record.confidence * 10_000 < (config.maxConfidenceDeviationBps + 1) * r.value
    ensures r.Err? ==> r.error == BadOracle || r.error == OracleConfidenceLow
  {
    var record := account.record;
    if account.dataLen < PYTH_RECORD_SIZE then Err(BadOracle)
    else if record.magic != PYTH_MAGIC then Err(BadOracle)
    else if record.numPublishers < config.minPublishers then Err(OracleConfidenceLow)
    else if now - record.timestamp > config.maxStalenessSeconds then Err(BadOracle)
    else
      var priceScaled := ScaledPythPrice(record.price, record.expo);
      if priceScaled <= 0 then Err(BadOracle)
      else
        var priceFp := priceScaled * FP / 1_000_000;
        var confidenceFp := record.confidence * FP / 1_000_000;
        var confidenceRatioBps := confidenceFp * 10_000 / priceFp;
        DivAtMost(confidenceFp * 10_000, priceFp, config.maxConfidenceDeviationBps);
        if confidenceRatioBps > config.maxConfidenceDeviationBps then Err(OracleConfidenceLow)
        else Ok(priceFp)
  }

  // ---------------------------------------------------------------------
  // Combining two sources

  /** The 70% primary / 30% secondary blend, rounded down. */
  function WeightedPrice(primaryPrice: nat, secondaryPrice: nat): (w: nat)
    ensures Min(primaryPrice, secondaryPrice) <= w <= Max(primaryPrice, secondaryPrice)
    ensures primaryPrice == secondaryPrice ==> w == primaryPrice
  {
    var total := primaryPrice * 70 + secondaryPrice * 30;
    DivAtMost(total, 100, Max(primaryPrice, secondaryPrice));
    assert Min(primaryPrice, secondaryPrice) <= total / 100 by {
      if Min(primaryPrice, secondaryPrice) > 0 {
        DivAtMost(total, 100, Min(primaryPrice, secondaryPrice) - 1);
      }
    }
    total / 100
  }

  /** The value the source's unit test pins. */
  lemma WeightedPriceExample()
    ensures WeightedPrice(100_000_000, 102_000_000) == 100_600_000
  {
  }

  /** `aggregate_oracle_prices`: a failing primary read fails the whole
      call; with no secondary source, or a secondary that fails its own
      checks, the primary price is used; two sources further apart than
      `max_price_deviation_bps` are `OraclePriceDeviation`; otherwise the
      70/30 blend. */
  function AggregateOraclePrices(primaryPriceFp: nat, primaryLastUpdatedTs: int, pyth: Option<PythAccountInfo>,
                                 now: int, config: OracleConfig): (r: Result<nat>)
    requires pyth.Some? && PythRecordAdmissible(pyth.value, now, config) ==> PythScalingFits(pyth.value.record)
    ensures ReadOracleWithConfig(primaryPriceFp, primaryLastUpdatedTs, now, config).Err? ==> r == Err(BadOracle)
    ensures (ReadOracleWithConfig(primaryPriceFp, primaryLastUpdatedTs, now, config).Ok?
             && (pyth.None? || ReadPythPrice(pyth.value, now, config).Err?)) ==> r == Ok(primaryPriceFp)
    ensures (ReadOracleWithConfig(primaryPriceFp, primaryLastUpdatedTs, now, config).Ok?
             && pyth.Some? && ReadPythPrice(pyth.value, now, config).Ok?) ==>
              var secondary := ReadPythPrice(pyth.value, now, config).value;
              r == (if DeviationBps(primaryPriceFp, secondary) > config.maxPriceDeviationBps then Err(OraclePriceDeviation)
                    else Ok(WeightedPrice(primaryPriceFp, secondary)))
    ensures r.Ok? ==> r.value > 0
    ensures r.Ok? ==> DeviationBps(primaryPriceFp, r.value) <= config.maxPriceDeviationBps
    ensures r.Err? ==> r.error == BadOracle || r.error == OraclePriceDeviation
  {
    match ReadOracleWithConfig(primaryPriceFp, primaryLastUpdatedTs, now, config)
    case Err(e) => Err(e)
    case Ok(primaryPrice) =>
      if pyth.None? then Ok(primaryPrice)
      else
        match ReadPythPrice(pyth.value, now, config)
        case Err(_) => Ok(primaryPrice)
        case Ok(pythPrice) =>
          var deviationBps := DeviationBps(primaryPrice, pythPrice);
          if deviationBps > config.maxPriceDeviationBps then Err(OraclePriceDeviation)
          else
            var aggregated := WeightedPrice(primaryPrice, pythPrice);
            DeviationBetween(primaryPrice, pythPrice, aggregated);
            Ok(aggregated)
  }

  // ---------------------------------------------------------------------
  // Moving-average fallback

  function Sum(prices: seq<nat>): nat
  {
    if prices == [] then 0 else prices[0] + Sum(prices[1..])
  }

  function CountPositive(prices: seq<nat>): (n: nat)
    ensures n <= |prices|
  {
    if prices == [] then 0 else (if prices[0] > 0 then 1 else 0) + CountPositive(prices[1..])
  }

  /** The largest entry (0 for no entries). */
  function MaxOf(prices: seq<nat>): nat
  {
    if prices == [] then 0 else Max(prices[0], MaxOf(prices[1..]))
  }

  /** The smallest positive entry (0 when there is none). */
  function MinPositive(prices: seq<nat>): nat
  {
    if prices == [] then 0
    else
      var rest := MinPositive(prices[1..]);
      if prices[0] == 0 then rest
      else if rest == 0 then prices[0]
      else Min(prices[0], rest)
  }

  lemma {:induction false} MaxOfIsLargest(prices: seq<nat>)
    ensures forall i :: 0 <= i < |prices| ==> prices[i] <= MaxOf(prices)
    ensures prices != [] ==> MaxOf(prices) in prices
  {
    if prices != [] {
      MaxOfIsLargest(prices[1..]);
      assert forall i :: 1 <= i < |prices| ==> prices[i] == prices[1..][i - 1];
    }
  }

  lemma {:induction false} MinPositiveIsSmallest(prices: seq<nat>)
    ensures forall i :: 0 <= i < |prices| && prices[i] > 0 ==> 0 < MinPositive(prices) <= prices[i]
    ensures CountPositive(prices) > 0 ==> MinPositive(prices) in prices && MinPositive(prices) > 0
    ensures CountPositive(prices) == 0 ==> MinPositive(prices) == 0
  {
    if prices != [] {
      MinPositiveIsSmallest(prices[1..]);
      assert forall i :: 1 <= i < |prices| ==> prices[i] == prices[1..][i - 1];
    }
  }

  /** Every entry at most `m` bounds the sum by `m` per positive entry. */
  lemma {:induction false} SumAtMost(prices: seq<nat>, m: nat)
    requires forall i :: 0 <= i < |prices| ==> prices[i] <= m
    ensures Sum(prices) <= CountPositive(prices) * m
  {
    if prices != [] {
      var rest := prices[1..];
      assert forall i :: 0 <= i < |rest| ==> rest[i] == prices[i + 1];
      SumAtMost(rest, m);
      var n := CountPositive(rest);
      assert (n + 1) * m == n * m + m;
    }
  }

  /** Every positive entry at least `m` bounds the sum from below by `m`
      per positive entry. */
  lemma {:induction false} SumAtLeast(prices: seq<nat>, m: nat)
    requires forall i :: 0 <= i < |prices| && prices[i] > 0 ==> m <= prices[i]
    ensures CountPositive(prices) * m <= Sum(prices)
  {
    if prices != [] {
      var rest := prices[1..];
      assert forall i :: 0 <= i < |rest| ==> rest[i] == prices[i + 1];
      SumAtLeast(rest, m);
      var n := CountPositive(rest);
      assert (n + 1) * m == n * m + m;
    }
  }

  /** The sum lies between the count of positive entries times the smallest
      positive entry and that count times the largest entry. */
  lemma SumBounds(prices: seq<nat>)
    ensures CountPositive(prices) * MinPositive(prices) <= Sum(prices)
    ensures Sum(prices) <= CountPositive(prices) * MaxOf(prices)
  {
    MinPositiveIsSmallest(prices);
    MaxOfIsLargest(prices);
    SumAtLeast(prices, MinPositive(prices));
    SumAtMost(prices, MaxOf(prices));
  }

  /** The average of the positive entries (the sum over their count,
      rounded down) lies between the smallest positive and the largest
      entry. */
  lemma AverageBetween(prices: seq<nat>)
    requires CountPositive(prices) > 0
    ensures MinPositive(prices) <= Sum(prices) / CountPositive(prices) <= MaxOf(prices)
  {
    SumBounds(prices);
    QuotientBetween(Sum(prices), CountPositive(prices), MinPositive(prices), MaxOf(prices));
  }

  /** `emergency_price_fallback`: with at least three positive entries among
      the last five prices, the sum of the prices divided (rounding down) by
      the number of positive ones; `OracleFeedNotFound` otherwise. The
      result lies between the smallest positive and the largest price. */
  function EmergencyPriceFallback(lastValidPrices: seq<nat>): (r: Result<nat>)
    requires |lastValidPrices| == 5
    ensures r.Err? <==> CountPositive(lastValidPrices) < 3
    ensures r.Err? ==> r.error == OracleFeedNotFound
    ensures r.Ok? ==> MinPositive(lastValidPrices) <= r.value <= MaxOf(lastValidPrices)
  {
    var count := CountPositive(lastValidPrices);
    if count < 3 then Err(OracleFeedNotFound)
    else
      AverageBetween(lastValidPrices);
      Ok(Sum(lastValidPrices) / count)
  }

  // ---------------------------------------------------------------------
  // Circuit-breaking update and health check

  /** Whether replacing `oldPriceFp` by `newPriceFp` trips the circuit breaker. */
  predicate CircuitBreakerTrips(oldPriceFp: nat, newPriceFp: nat, maxPriceChangeBps: nat)
  {
    oldPriceFp > 0 && DeviationBps(oldPriceFp, newPriceFp) > maxPriceChangeBps
  }

  /** `update_oracle_price`: a move larger than `max_price_change_bps` away
      from a positive stored price fails with `CircuitBreakerTriggered` and
      leaves the account alone; otherwise only the price and its timestamp
      change. */
  method UpdateOraclePrice(oracle: OraclePrice, newPriceFp: nat, maxPriceChangeBps: nat, now: int)
    returns (r: Result<()>)
    requires oracle.Valid() && IsI64(now)
    modifies oracle
    ensures oracle.Valid()
    ensures r.Err? <==> CircuitBreakerTrips(old(oracle.priceFp), newPriceFp, maxPriceChangeBps)
    ensures r.Err? ==> r.error == CircuitBreakerTriggered && unchanged(oracle)
    ensures r.Ok? ==> oracle.priceFp == newPriceFp && oracle.lastUpdatedTs == now
    ensures r.Ok? ==> oracle.confidenceFp == old(oracle.confidenceFp)
                      && oracle.numPublishers == old(oracle.numPublishers)
                      && oracle.isValid == old(oracle.isValid)
    ensures r.Ok? && old(oracle.priceFp) > 0 ==> DeviationBps(old(oracle.priceFp), oracle.priceFp) <= maxPriceChangeBps
  {
    var oldPrice := oracle.priceFp;
    if oldPrice > 0 {
      var deviationBps := DeviationBps(oldPrice, newPriceFp);
      if deviationBps > maxPriceChangeBps {
        return Err(CircuitBreakerTriggered);
      }
    }
    oracle.priceFp := newPriceFp;
    oracle.lastUpdatedTs := now;
    return Ok(());
  }

  /** `health_check`: the stored price must be at most five minutes old
      (`BadOracle`), the current price positive (`InvalidPrice`), and, when a
      price is stored, the current one within 50% of it (`OraclePriceDeviation`).
      A passing check keeps the current price above roughly half the stored
      one and below roughly double it. The maintenance-margin argument is
      unused by the source. */
  function HealthCheck(oraclePriceFp: nat, oracleLastUpdatedTs: int, now: int, currentPriceFp: nat,
                       maintenanceMarginBps: nat): (r: Result<()>)
    ensures now - oracleLastUpdatedTs > HEALTH_MAX_STALENESS ==> r == Err(BadOracle)
    ensures now - oracleLastUpdatedTs <= HEALTH_MAX_STALENESS && currentPriceFp == 0 ==> r == Err(InvalidPrice)
    ensures (now - oracleLastUpdatedTs <= HEALTH_MAX_STALENESS && currentPriceFp > 0 && oraclePriceFp > 0
             && DeviationBps(oraclePriceFp, currentPriceFp) > HEALTH_MAX_DEVIATION_BPS) ==> r == Err(OraclePriceDeviation)
    ensures r.Ok? <==> now - oracleLastUpdatedTs <= HEALTH_MAX_STALENESS && currentPriceFp > 0
                       && (oraclePriceFp == 0 || DeviationBps(oraclePriceFp, currentPriceFp) <= HEALTH_MAX_DEVIATION_BPS)
    ensures r.Ok? && oraclePriceFp > 0 ==>
              4_999 * Max(oraclePriceFp, currentPriceFp) < 10_000 * Min(oraclePriceFp, currentPriceFp)
  {
    if now - oracleLastUpdatedTs > HEALTH_MAX_STALENESS then Err(BadOracle)
    else if currentPriceFp == 0 then Err(InvalidPrice)
    else if oraclePriceFp > 0 && DeviationBps(oraclePriceFp, currentPriceFp) > HEALTH_MAX_DEVIATION_BPS then
      Err(OraclePriceDeviation)
    else
      if oraclePriceFp > 0 then
        DeviationAtMost(oraclePriceFp, currentPriceFp, HEALTH_MAX_DEVIATION_BPS);
        Ok(())
      else Ok(())
  }
}
