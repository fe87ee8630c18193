/**
 The Expo outcome vocabulary of workers/push/protocol.ts: the closed set of reason codes, the
 canonical kind of each, and the parser that copies an untrusted transport outcome.
 */
module ExpoProtocol {
  import opened Wrappers

  const EXPO_SEND_CHUNK_SIZE := 100
  const EXPO_EMERGENCY_TTL_MILLISECONDS := 60 * 60 * 1_000

  /** One constructor per EXPO_ (and PROVIDER_RETRY_EXHAUSTED) safe reason code. */
  datatype Reason =
    | DeviceNotRegistered
    | HttpClientError
    | HttpRateLimited
    | HttpServerError
    | InvalidCredentials
    | LiveTransportDisabled
    | MessageRateExceeded
    | MessageTooBig
    | MismatchSenderId
    | NetworkOutcomeAmbiguous
    | NotificationExpired
    | ReceiptErrorUnknown
    | ReceiptHorizonExpired
    | ReceiptMissing
    | ReceiptReferenceConflict
    | ReceiptResponseInvalid
    | TicketErrorUnknown
    | TicketMissing
    | TicketResponseInvalid
    | ResponseTooLarge
    | RetryExhausted

  datatype FailState = FailedState | ExpiredState

  datatype Outcome =
    | Accepted(reference: string)
    | Failed(state: FailState, failedReference: Option<string>, failedReason: Reason, invalidates: bool)
    | Retry(retryReference: Option<string>, retryReason: Reason)
    | Unknown(unknownReference: Option<string>, unknownReason: Reason)
  {
    function ProviderReference(): Option<string> {
      match this
      case Accepted(r) => Some(r)
      case Failed(_, r, _, _) => r
      case Retry(r, _) => r
      case Unknown(r, _) => r
    }
  }

  // What an untrusted value may hold in each field; the last constructor stands for "anything else".
  datatype RawKind = AcceptedKind | FailedKind | RetryKind | UnknownKind | OtherKind
  datatype RawState = RawAccepted | RawFailed | RawExpired | RawUnknown | OtherState
  datatype RawReference = NullReference | TextReference(text: string) | OtherReference
  datatype RawReason = NullReason | SafeReason(reason: Reason) | OtherReason
  datatype RawFlag = Flag(value: bool) | OtherFlag
  datatype RawOutcome =
    | NotARecord
    | Record(kind: RawKind, state: RawState, reference: RawReference, reason: RawReason, invalidates: RawFlag)

  datatype Phase = Ticket | Receipt

  predicate IsAlphanumeric(c: char) {
    'A' <= c <= 'Z' || 'a' <= c <= 'z' || '0' <= c <= '9'
  }

  /** SAFE_PROVIDER_REFERENCE_PATTERN. */
  predicate IsSafeReference(s: string) {
    && 1 <= |s| <= 500
    && IsAlphanumeric(s[0])
    && forall i :: 0 <= i < |s| ==> IsAlphanumeric(s[i]) || s[i] in {'.', '_', ':', '-'}
  }

  /** EXPO_CANONICAL_TRANSPORT_OUTCOME_KIND_BY_REASON. */
  function CanonicalKind(reason: Reason): Option<RawKind> {
    match reason
    case DeviceNotRegistered | InvalidCredentials | MessageTooBig | MismatchSenderId | NotificationExpired =>
      Some(FailedKind)
    case MessageRateExceeded => Some(RetryKind)
    case NetworkOutcomeAmbiguous | ReceiptErrorUnknown | ReceiptMissing | ReceiptResponseInvalid => Some(UnknownKind)
    case TicketErrorUnknown | TicketMissing | TicketResponseInvalid => Some(UnknownKind)
    case _ => None
  }

  predicate IsReasonForPhase(reason: Reason, phase: Option<Phase>) {
    match phase
    case None => true
    case Some(Ticket) =>
      reason in {DeviceNotRegistered, InvalidCredentials, MessageRateExceeded, MessageTooBig, MismatchSenderId,
                 NetworkOutcomeAmbiguous, NotificationExpired, TicketErrorUnknown, TicketMissing, TicketResponseInvalid}
    case Some(Receipt) =>
      reason in {DeviceNotRegistered, InvalidCredentials, MessageRateExceeded, MessageTooBig, MismatchSenderId,
                 NetworkOutcomeAmbiguous, ReceiptErrorUnknown, ReceiptMissing, ReceiptResponseInvalid}
  }

  function AcceptedOutcome(reference: string): Outcome {
    if IsSafeReference(reference) then Accepted(reference) else Unknown(None, TicketResponseInvalid)
  }

  function ExpiredOutcome(reference: Option<string>): Outcome {
    Failed(ExpiredState, reference, NotificationExpired, false)
  }

  function FailedOutcome(reason: Reason, reference: Option<string>, invalidates: bool): Outcome {
    if reason.NotificationExpired? then ExpiredOutcome(reference)
    else Failed(FailedState, reference, reason, invalidates)
  }

  /** The reference as the parsed outcome carries it; only called on null and text. */
  function ReferenceOf(raw: RawReference): Option<string> {
    if raw.TextReference? then Some(raw.text) else None
  }

  /**
   What the parser admits, said without its control flow: an outcome comes back exactly when the
   value is the canonical record of that outcome, and the outcome is a legal one of the phase.
   */
  function ParseOutcome(raw: RawOutcome, phase: Option<Phase>): (r: Option<Outcome>)
    ensures forall outcome :: r == Some(outcome) <==> raw == ToRaw(outcome) && IsCanonical(outcome, phase)
  {
    if raw.NotARecord? then None
    else if raw.reference.OtherReference? || (raw.reference.TextReference? && !IsSafeReference(raw.reference.text)) then
      None
    else if raw.kind.AcceptedKind? then
      if raw.state.RawAccepted? && raw.reference.TextReference? && raw.reason.NullReason? &&
        raw.invalidates == Flag(false)
      then Some(AcceptedOutcome(raw.reference.text))
      else None
    else if !raw.reason.SafeReason? || raw.invalidates.OtherFlag? || !IsReasonForPhase(raw.reason.reason, phase) then
      None
    else if CanonicalKind(raw.reason.reason) != Some(raw.kind) then None
    else
      var reason, reference, invalidates := raw.reason.reason, ReferenceOf(raw.reference), raw.invalidates.value;
      match raw.kind
      case FailedKind =>
        if reason.NotificationExpired? then
          if raw.state.RawExpired? && !invalidates then Some(ExpiredOutcome(reference)) else None
        else if raw.state.RawFailed? && invalidates == reason.DeviceNotRegistered?
        then Some(FailedOutcome(reason, reference, invalidates))
        else None
      case RetryKind =>
        if raw.state.RawFailed? && !invalidates then Some(Retry(reference, reason)) else None
      case UnknownKind =>
        if raw.state.RawUnknown? && !invalidates then Some(Unknown(reference, reason)) else None
      case _ => None
  }

  /** The record a parsed outcome is, seen again as an untrusted value. */
  function ToRaw(outcome: Outcome): RawOutcome {
    match outcome
    case Accepted(r) => Record(AcceptedKind, RawAccepted, TextReference(r), NullReason, Flag(false))
    case Failed(state, r, reason, invalidates) =>
      var raw := if state.ExpiredState? then RawExpired else RawFailed;
      Record(FailedKind, raw, RawRef(r), SafeReason(reason), Flag(invalidates))
    case Retry(r, reason) => Record(RetryKind, RawFailed, RawRef(r), SafeReason(reason), Flag(false))
    case Unknown(r, reason) => Record(UnknownKind, RawUnknown, RawRef(r), SafeReason(reason), Flag(false))
  }

  function RawRef(r: Option<string>): RawReference {
    if r.Some? then TextReference(r.value) else NullReference
  }

  /** A legal outcome of the phase, with the fields its reason code dictates. */
  ghost predicate IsCanonical(outcome: Outcome, phase: Option<Phase>) {
    && (outcome.ProviderReference().Some? ==> IsSafeReference(outcome.ProviderReference().value))
    && match outcome
       case Accepted(_) => true
       case Failed(state, _, reason, invalidates) =>
         && IsReasonForPhase(reason, phase) && CanonicalKind(reason) == Some(FailedKind)
         && state.ExpiredState? == reason.NotificationExpired?
         && invalidates == reason.DeviceNotRegistered?
       case Retry(_, reason) => IsReasonForPhase(reason, phase) && CanonicalKind(reason) == Some(RetryKind)
       case Unknown(_, reason) => IsReasonForPhase(reason, phase) && CanonicalKind(reason) == Some(UnknownKind)
  }
}
