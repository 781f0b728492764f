/** Result codes of one activation and their classification for the two resident surfaces. */
module Outcomes {
  import opened Prelude

  datatype RefusalCode =
    | UnknownOffer | NotAnnouncedToRequester | SourceUnavailableRefusal | SourceChangedRefusal
    | BusyRefusal | MalformedRefusal | UnsupportedRefusal

  datatype AdmissionCode =
    | Accepted | RefusedBusy | InvalidManifest | TooLarge | InsufficientSpace
    | DestinationUnavailable | AllocationFailed | UnsupportedMode | CancelledAdmission

  datatype AbortCode = SourceUnavailableAbort | SourceChangedAbort | CancelledAbort | InternalErrorAbort

  datatype ReceiptCode =
    | CompletedReceipt | ConnectionLostReceipt | CancelledReceipt | VerificationFailedReceipt
    | ClipboardFailedReceipt | UncertainReceipt | InternalErrorReceipt

  /** Why a transfer broke off, with the files and bytes the receiver had when the peer is to be told. */
  datatype ReceiveFailure =
    | Disconnected(files: U32, bytes: U64)
    | Aborted(code: AbortCode, files: U32, bytes: U64)
    | Verification(files: U32, bytes: U64)
    | ProtocolFailure(files: U32, bytes: U64)
    | StreamIo
    | LocalCancelled
    | LocalIo

  /** A cancelled run or a failing local disk: not the peer's doing. */
  predicate IsLocal(failure: ReceiveFailure) { failure.LocalCancelled? || failure.LocalIo? }

  /** What the text of a rejection mentions; the classifier looks for nothing else in it. */
  datatype Rejection = CleanupOrUncertainty | DestinationOrAbsolute | OtherRejection

  datatype NetError =
    | FetchRefused(refusal: RefusalCode)
    | FetchAdmissionRefused(admission: AdmissionCode)
    | FetchTerminal(receipt: ReceiptCode)
    | FetchAborted(abort: AbortCode)
    | Rejected(rejection: Rejection)
    | IdentityMismatch | Timeout | Protocol | UnexpectedMessage | FetchLocalIo | Io
    | FetchServiceOwned | FetchService | OfferStorage | OtherError

  datatype RefuseCode =
    | UnknownOfferCode | NotAnnouncedCode | SourceUnavailableCode | SourceChangedCode | BusyCode
    | MalformedCode | UnsupportedCode | InvalidManifestCode | TooLargeCode | InsufficientSpaceCode
    | DestinationUnavailableCode | AllocationFailedCode | UnsupportedModeCode | DuplicateCode

  datatype FailCode =
    | SourceUnavailableFail | SourceChangedFail | VerificationFail | ClipboardFail
    | ConnectionLostFail | LocalIoFail | ProtocolFail | InternalFail

  datatype Outcome =
    | Completed
    | Refused(refuse: RefuseCode)
    | Failed(fail: FailCode)
    | Cancelled
    | UncertainNoReplayOutcome

  function RefusalOutcome(code: RefusalCode): RefuseCode {
    match code
    case UnknownOffer => UnknownOfferCode
    case NotAnnouncedToRequester => NotAnnouncedCode
    case SourceUnavailableRefusal => SourceUnavailableCode
    case SourceChangedRefusal => SourceChangedCode
    case BusyRefusal => BusyCode
    case MalformedRefusal => MalformedCode
    case UnsupportedRefusal => UnsupportedCode
  }

  function AdmissionOutcome(code: AdmissionCode): Outcome {
    match code
    case Accepted => Completed
    case CancelledAdmission => Cancelled
    case RefusedBusy => Refused(BusyCode)
    case InvalidManifest => Refused(InvalidManifestCode)
    case TooLarge => Refused(TooLargeCode)
    case InsufficientSpace => Refused(InsufficientSpaceCode)
    case DestinationUnavailable => Refused(DestinationUnavailableCode)
    case AllocationFailed => Refused(AllocationFailedCode)
    case UnsupportedMode => Refused(UnsupportedModeCode)
  }

  function AbortOutcome(code: AbortCode): Outcome {
    match code
    case CancelledAbort => Cancelled
    case SourceUnavailableAbort => Failed(SourceUnavailableFail)
    case SourceChangedAbort => Failed(SourceChangedFail)
    case InternalErrorAbort => Failed(InternalFail)
  }

  function ReceiptOutcome(code: ReceiptCode): Outcome {
    match code
    case CompletedReceipt => Completed
    case CancelledReceipt => Cancelled
    case UncertainReceipt => UncertainNoReplayOutcome
    case VerificationFailedReceipt => Failed(VerificationFail)
    case ClipboardFailedReceipt => Failed(ClipboardFail)
    case ConnectionLostReceipt => Failed(ConnectionLostFail)
    case InternalErrorReceipt => Failed(InternalFail)
  }

  /** `classify_activation_result`: some errors are outcomes, the others stay errors. */
  function Classify(result: Result<(), NetError>): Result<Outcome, NetError> {
    match result
    case Success(_) => Success(Completed)
    case Failure(error) =>
      match error
      case FetchRefused(code) => Success(Refused(RefusalOutcome(code)))
      case FetchAdmissionRefused(code) => Success(AdmissionOutcome(code))
      case FetchTerminal(code) => Success(ReceiptOutcome(code))
      case FetchAborted(code) => Success(AbortOutcome(code))
      case Rejected(CleanupOrUncertainty) => Success(Refused(BusyCode))
      case Rejected(DestinationOrAbsolute) => Success(Refused(DestinationUnavailableCode))
      case IdentityMismatch => Success(Refused(MalformedCode))
      case Timeout => Success(Failed(ConnectionLostFail))
      case Protocol => Success(Failed(ProtocolFail))
      case UnexpectedMessage => Success(Failed(ProtocolFail))
      case FetchLocalIo => Success(Failed(LocalIoFail))
      case Io => Success(Failed(ConnectionLostFail))
      case FetchServiceOwned => Success(Failed(InternalFail))
      case FetchService => Success(Failed(InternalFail))
      case OfferStorage => Success(Failed(InternalFail))
      case _ => Failure(error)
  }

  /** The two error values that the conversions would call a completion. */
  predicate LooksCompleted(error: NetError) {
    error == FetchAdmissionRefused(Accepted) || error == FetchTerminal(CompletedReceipt)
  }
}
