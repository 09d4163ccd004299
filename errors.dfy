/** The program's error enum, its numeric codes and its two classifications
    (recoverable errors, errors that call for an emergency pause). */
module Errors {

  import opened Common

  datatype PerpsError
    = MathOverflow
    | DivisionByZero
    | InvalidFixedPoint
    | LeverageTooHigh
    | InsufficientMargin
    | MaxPositionExceeded
    | PositionNotFound
    | PositionTooSmall
    | InsufficientMarginForModification
    | PositionAtLiquidation
    | PositionNotLiquidatable
    | InsufficientFunds
    | WouldBeLiquidated
    | InvalidClosePercentage
    | BadOracle
    | OracleFeedNotFound
    | OraclePriceDeviation
    | OracleConsensusFailure
    | OracleConfidenceLow
    | InvalidPrice
    | MarketPaused
    | MarketNotFound
    | InvalidMarketParameters
    | InsufficientLiquidity
    | MarketImpactTooHigh
    | Unauthorized
    | InvalidSigner
    | InvalidAccountOwner
    | InvalidPDA
    | ExceedsPositionLimits
    | ExceedsRiskLimits
    | CircuitBreakerTriggered
    | EmergencyPauseActive
    | ConcentrationLimitExceeded
    | InsufficientBalance
    | InvalidTokenAccount
    | TokenTransferFailed
    | InvalidTokenMint
    | FundingRateError
    | SettlementError
    | FundingPaymentFailed
    | ProtocolPaused
    | InvalidProtocolConfig
    | InitializationFailed
    | AlreadyInitialized
    | OrderNotActive
    | InvalidStopLoss
    | StopLossNotTriggered
    | UnauthorizedAccess
    | InvalidParameters
    | UseFullCloseForCompletePosition
    | OrderAlreadyExecuted
    | WouldCauseLiquidation
    | InvalidStopLossCondition
    | StopLossConditionNotMet

  /** An instruction's outcome: a value, or the error the instruction fails with.
      On-chain, an `Err` rolls back every account write of the instruction. */
  datatype Result<T> = Ok(value: T) | Err(error: PerpsError)

  /** The ten groups the enum declares, each owning a block of twenty codes. */
  datatype Category = Math | Position | Oracle | Market | Access | Risk | Token | Funding | Protocol | Order

  function CategoryOf(e: PerpsError): Category
  {
    match e
    case MathOverflow | DivisionByZero | InvalidFixedPoint => Math
    case LeverageTooHigh | InsufficientMargin | MaxPositionExceeded | PositionNotFound | PositionTooSmall | InsufficientMarginForModification | PositionAtLiquidation | PositionNotLiquidatable | InsufficientFunds | WouldBeLiquidated | InvalidClosePercentage => Position
    case BadOracle | OracleFeedNotFound | OraclePriceDeviation | OracleConsensusFailure | OracleConfidenceLow | InvalidPrice => Oracle
    case MarketPaused | MarketNotFound | InvalidMarketParameters | InsufficientLiquidity | MarketImpactTooHigh => Market
    case Unauthorized | InvalidSigner | InvalidAccountOwner | InvalidPDA => Access
    case ExceedsPositionLimits | ExceedsRiskLimits | CircuitBreakerTriggered | EmergencyPauseActive | ConcentrationLimitExceeded => Risk
    case InsufficientBalance | InvalidTokenAccount | TokenTransferFailed | InvalidTokenMint => Token
    case FundingRateError | SettlementError | FundingPaymentFailed => Funding
    case ProtocolPaused | InvalidProtocolConfig | InitializationFailed | AlreadyInitialized => Protocol
    case OrderNotActive | InvalidStopLoss | StopLossNotTriggered | UnauthorizedAccess | InvalidParameters | UseFullCloseForCompletePosition | OrderAlreadyExecuted | WouldCauseLiquidation | InvalidStopLossCondition | StopLossConditionNotMet => Order
  }

  /** First code of a category's block: 6000, 6020, ..., 6180. */
  function BlockStart(c: Category): nat
  {
    match c
    case Math => 6000
    case Position => 6020
    case Oracle => 6040
    case Market => 6060
    case Access => 6080
    case Risk => 6100
    case Token => 6120
    case Funding => 6140
    case Protocol => 6160
    case Order => 6180
  }

  /** `to_error_code`. */
  function ErrorCode(e: PerpsError): nat
  {
    match e
    case MathOverflow => 6000
    case DivisionByZero => 6001
    case InvalidFixedPoint => 6002
    case LeverageTooHigh => 6020
    case InsufficientMargin => 6021
    case MaxPositionExceeded => 6022
    case PositionNotFound => 6023
    case PositionTooSmall => 6024
    case InsufficientMarginForModification => 6025
    case PositionAtLiquidation => 6026
    case PositionNotLiquidatable => 6027
    case InsufficientFunds => 6028
    case WouldBeLiquidated => 6029
    case InvalidClosePercentage => 6030
    case BadOracle => 6040
    case OracleFeedNotFound => 6041
    case OraclePriceDeviation => 6042
    case OracleConsensusFailure => 6043
    case OracleConfidenceLow => 6044
    case InvalidPrice => 6045
    case MarketPaused => 6060
    case MarketNotFound => 6061
    case InvalidMarketParameters => 6062
    case InsufficientLiquidity => 6063
    case MarketImpactTooHigh => 6064
    case Unauthorized => 6080
    case InvalidSigner => 6081
    case InvalidAccountOwner => 6082
    case InvalidPDA => 6083
    case ExceedsPositionLimits => 6100
    case ExceedsRiskLimits => 6101
    case CircuitBreakerTriggered => 6102
    case EmergencyPauseActive => 6103
    case ConcentrationLimitExceeded => 6104
    case InsufficientBalance => 6120
    case InvalidTokenAccount => 6121
    case TokenTransferFailed => 6122
    case InvalidTokenMint => 6123
    case FundingRateError => 6140
    case SettlementError => 6141
    case FundingPaymentFailed => 6142
    case ProtocolPaused => 6160
    case InvalidProtocolConfig => 6161
    case InitializationFailed => 6162
    case AlreadyInitialized => 6163
    case OrderNotActive => 6180
    case InvalidStopLoss => 6181
    case StopLossNotTriggered => 6182
    case UnauthorizedAccess => 6183
    case InvalidParameters => 6184
    case UseFullCloseForCompletePosition => 6185
    case OrderAlreadyExecuted => 6186
    case WouldCauseLiquidation => 6187
    case InvalidStopLossCondition => 6188
    case StopLossConditionNotMet => 6189
  }

  /** Decoding a code back to its variant, block by block; used to prove
      that no two variants share a code. */
  function FromErrorCode(code: int): Option<PerpsError>
  {
    if code < 6000 || code >= 6200 then None
    else if code < 6020 then
      match code
      case 6000 => Some(MathOverflow)
      case 6001 => Some(DivisionByZero)
      case 6002 => Some(InvalidFixedPoint)
      case _ => None
    else if code < 6040 then
      match code
      case 6020 => Some(LeverageTooHigh)
      case 6021 => Some(InsufficientMargin)
      case 6022 => Some(MaxPositionExceeded)
      case 6023 => Some(PositionNotFound)
      case 6024 => Some(PositionTooSmall)
      case 6025 => Some(InsufficientMarginForModification)
      case 6026 => Some(PositionAtLiquidation)
      case 6027 => Some(PositionNotLiquidatable)
      case 6028 => Some(InsufficientFunds)
      case 6029 => Some(WouldBeLiquidated)
      case 6030 => Some(InvalidClosePercentage)
      case _ => None
    else if code < 6060 then
      match code
      case 6040 => Some(BadOracle)
      case 6041 => Some(OracleFeedNotFound)
      case 6042 => Some(OraclePriceDeviation)
      case 6043 => Some(OracleConsensusFailure)
      case 6044 => Some(OracleConfidenceLow)
      case 6045 => Some(InvalidPrice)
      case _ => None
    else if code < 6080 then
      match code
      case 6060 => Some(MarketPaused)
      case 6061 => Some(MarketNotFound)
      case 6062 => Some(InvalidMarketParameters)
      case 6063 => Some(InsufficientLiquidity)
      case 6064 => Some(MarketImpactTooHigh)
      case _ => None
    else if code < 6100 then
      match code
      case 6080 => Some(Unauthorized)
      case 6081 => Some(InvalidSigner)
      case 6082 => Some(InvalidAccountOwner)
      case 6083 => Some(InvalidPDA)
      case _ => None
    else if code < 6120 then
      match code
      case 6100 => Some(ExceedsPositionLimits)
      case 6101 => Some(ExceedsRiskLimits)
      case 6102 => Some(CircuitBreakerTriggered)
      case 6103 => Some(EmergencyPauseActive)
      case 6104 => Some(ConcentrationLimitExceeded)
      case _ => None
    else if code < 6140 then
      match code
      case 6120 => Some(InsufficientBalance)
      case 6121 => Some(InvalidTokenAccount)
      case 6122 => Some(TokenTransferFailed)
      case 6123 => Some(InvalidTokenMint)
      case _ => None
    else if code < 6160 then
      match code
      case 6140 => Some(FundingRateError)
      case 6141 => Some(SettlementError)
      case 6142 => Some(FundingPaymentFailed)
      case _ => None
    else if code < 6180 then
      match code
      case 6160 => Some(ProtocolPaused)
      case 6161 => Some(InvalidProtocolConfig)
      case 6162 => Some(InitializationFailed)
      case 6163 => Some(AlreadyInitialized)
      case _ => None
    else if code < 6200 then
      match code
      case 6180 => Some(OrderNotActive)
      case 6181 => Some(InvalidStopLoss)
      case 6182 => Some(StopLossNotTriggered)
      case 6183 => Some(UnauthorizedAccess)
      case 6184 => Some(InvalidParameters)
      case 6185 => Some(UseFullCloseForCompletePosition)
      case 6186 => Some(OrderAlreadyExecuted)
      case 6187 => Some(WouldCauseLiquidation)
      case 6188 => Some(InvalidStopLossCondition)
      case 6189 => Some(StopLossConditionNotMet)
      case _ => None
    else None
  }


  lemma MathCodes(e: PerpsError)
    requires CategoryOf(e) == Math
    ensures BlockStart(Math) <= ErrorCode(e) < BlockStart(Math) + 20
    ensures FromErrorCode(ErrorCode(e)) == Some(e)
  {
  }

  lemma PositionCodes(e: PerpsError)
    requires CategoryOf(e) == Position
    ensures BlockStart(Position) <= ErrorCode(e) < BlockStart(Position) + 20
    ensures FromErrorCode(ErrorCode(e)) == Some(e)
  {
  }

  lemma OracleCodes(e: PerpsError)
    requires CategoryOf(e) == Oracle
    ensures BlockStart(Oracle) <= ErrorCode(e) < BlockStart(Oracle) + 20
    ensures FromErrorCode(ErrorCode(e)) == Some(e)
  {
  }

  lemma MarketCodes(e: PerpsError)
    requires CategoryOf(e) == Market
    ensures BlockStart(Market) <= ErrorCode(e) < BlockStart(Market) + 20
    ensures FromErrorCode(ErrorCode(e)) == Some(e)
  {
  }

  lemma AccessCodes(e: PerpsError)
    requires CategoryOf(e) == Access
    ensures BlockStart(Access) <= ErrorCode(e) < BlockStart(Access) + 20
    ensures FromErrorCode(ErrorCode(e)) == Some(e)
  {
  }

  lemma RiskCodes(e: PerpsError)
    requires CategoryOf(e) == Risk
    ensures BlockStart(Risk) <= ErrorCode(e) < BlockStart(Risk) + 20
    ensures FromErrorCode(ErrorCode(e)) == Some(e)
  {
  }

  lemma TokenCodes(e: PerpsError)
    requires CategoryOf(e) == Token
    ensures BlockStart(Token) <= ErrorCode(e) < BlockStart(Token) + 20
    ensures FromErrorCode(ErrorCode(e)) == Some(e)
  {
  }

  lemma FundingCodes(e: PerpsError)
    requires CategoryOf(e) == Funding
    ensures BlockStart(Funding) <= ErrorCode(e) < BlockStart(Funding) + 20
    ensures FromErrorCode(ErrorCode(e)) == Some(e)
  {
  }

  lemma ProtocolCodes(e: PerpsError)
    requires CategoryOf(e) == Protocol
    ensures BlockStart(Protocol) <= ErrorCode(e) < BlockStart(Protocol) + 20
    ensures FromErrorCode(ErrorCode(e)) == Some(e)
  {
  }

  lemma OrderCodes(e: PerpsError)
    requires CategoryOf(e) == Order
    ensures BlockStart(Order) <= ErrorCode(e) < BlockStart(Order) + 20
    ensures FromErrorCode(ErrorCode(e)) == Some(e)
  {
  }

  /** Every code lies in its category's block of twenty, hence in
      [6000, 6189]; proved one category at a time. */
  lemma ErrorCodeInBlock(e: PerpsError)
    ensures BlockStart(CategoryOf(e)) <= ErrorCode(e) < BlockStart(CategoryOf(e)) + 20
    ensures 6000 <= ErrorCode(e) <= 6189
  {
    match CategoryOf(e)
    case Math => MathCodes(e);
    case Position => PositionCodes(e);
    case Oracle => OracleCodes(e);
    case Market => MarketCodes(e);
    case Access => AccessCodes(e);
    case Risk => RiskCodes(e);
    case Token => TokenCodes(e);
    case Funding => FundingCodes(e);
    case Protocol => ProtocolCodes(e);
    case Order => OrderCodes(e);
  }

  /** Decoding a variant's code gives the variant back. */
  lemma ErrorCodeRoundTrip(e: PerpsError)
    ensures FromErrorCode(ErrorCode(e)) == Some(e)
  {
    match CategoryOf(e)
    case Math => MathCodes(e);
    case Position => PositionCodes(e);
    case Oracle => OracleCodes(e);
    case Market => MarketCodes(e);
    case Access => AccessCodes(e);
    case Risk => RiskCodes(e);
    case Token => TokenCodes(e);
    case Funding => FundingCodes(e);
    case Protocol => ProtocolCodes(e);
    case Order => OrderCodes(e);
  }

  /** `to_error_code` is injective. */
  lemma ErrorCodeInjective(a: PerpsError, b: PerpsError)
    requires ErrorCode(a) == ErrorCode(b)
    ensures a == b
  {
    ErrorCodeRoundTrip(a);
    ErrorCodeRoundTrip(b);
  }

  /** `is_recoverable`: transient oracle and liquidity conditions. */
  predicate IsRecoverable(e: PerpsError)
    ensures IsRecoverable(e) ==> CategoryOf(e) == Oracle || CategoryOf(e) == Market
  {
    e == BadOracle || e == InsufficientLiquidity || e == MarketImpactTooHigh || e == OracleConfidenceLow
  }

  /** `requires_emergency_pause`: oracle consensus loss and risk-limit breaches. */
  predicate RequiresEmergencyPause(e: PerpsError)
    ensures RequiresEmergencyPause(e) ==> CategoryOf(e) == Oracle || CategoryOf(e) == Risk
  {
    e == OracleConsensusFailure || e == CircuitBreakerTriggered || e == ExceedsRiskLimits
  }

  /** The recoverable errors, named by their codes. */
  lemma RecoverableCodes(e: PerpsError)
    ensures IsRecoverable(e) <==> ErrorCode(e) in {6040, 6044, 6063, 6064}
  {
    ErrorCodeInBlock(e);
    if CategoryOf(e) == Oracle || CategoryOf(e) == Market {
      ErrorCodeRoundTrip(e);
    }
  }

  /** The errors that call for an emergency pause, named by their codes. */
  lemma EmergencyPauseCodes(e: PerpsError)
    ensures RequiresEmergencyPause(e) <==> ErrorCode(e) in {6043, 6101, 6102}
  {
    ErrorCodeInBlock(e);
    if CategoryOf(e) == Oracle || CategoryOf(e) == Risk {
      ErrorCodeRoundTrip(e);
    }
  }

  /** No error is both recoverable and a reason for an emergency pause. */
  lemma RecoverableExcludesEmergencyPause(e: PerpsError)
    ensures !(IsRecoverable(e) && RequiresEmergencyPause(e))
  {
  }
}
