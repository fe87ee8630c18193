/**
 The pure part of the direct APNs and FCM path: the outcome parser of workers/push/direct-protocol.ts,
 the response classifiers of apns-transport.ts and fcm-transport.ts, and the ledger records of
 direct-adapter.ts.
 */
module DirectSend {
  import opened Wrappers
  import ExpoProtocol
  import opened SendOutcomes

  datatype Kind =
    | AcceptedKind | TerminalFailureKind | RetryableFailureKind | UnknownKind | ExpiredKind | InvalidatingKind
    | OtherKind

  datatype RawState = Named(state: SendState) | OtherState

  datatype RawReason = NullReason | Known(reason: DirectReason) | OtherReason

  datatype RawReference = NullReference | Text(text: string) | OtherReference

  datatype RawFlag = Flag(value: bool) | OtherFlag

  /** Both the untrusted value and, since the parser copies, the parsed one. */
  datatype DirectOutcome = DirectOutcome(
    kind: Kind, state: RawState, reference: RawReference, reason: RawReason, invalidates: RawFlag,
    occurredAt: Option<Timestamp>)

  predicate IsTerminalReason(r: DirectReason) {
    r in {ApnsAuthenticationFailed, ApnsEndpointIneligible, ApnsLiveTransportDisabled, ApnsPayloadRejected,
      ApnsTopicRejected,
          FcmAuthenticationFailed, FcmEndpointIneligible, FcmLiveTransportDisabled, FcmPayloadInvalid}
  }

  predicate IsRetryableReason(r: DirectReason) {
    r in {ApnsServerError, ApnsThrottled, FcmServerError, FcmThrottled, FcmAuthenticationUnavailable}
  }

  predicate IsUnknownReason(r: DirectReason) {
    r in {ApnsNetworkOutcomeAmbiguous, ApnsResponseInvalid, FcmNetworkOutcomeAmbiguous, FcmResponseInvalid}
  }

  predicate IsInvalidatingReason(r: DirectReason) {
    r in {ApnsBadDeviceToken, ApnsUnregistered, FcmInvalidArgument, FcmUnregistered}
  }

  predicate IsApnsReason(r: DirectReason) {
    r in {ApnsAuthenticationFailed, ApnsBadDeviceToken, ApnsEndpointIneligible, ApnsLiveTransportDisabled,
          ApnsNetworkOutcomeAmbiguous, ApnsNotificationExpired, ApnsPayloadRejected, ApnsResponseInvalid,
          ApnsServerError, ApnsThrottled, ApnsTopicRejected, ApnsUnregistered}
  }

  predicate IsCanonicalCombination(o: DirectOutcome) {
    if o.kind.AcceptedKind? then
      o.state == Named(ProviderAccepted) && o.reason.NullReason? && o.invalidates == Flag(false)
    else
      && o.reason.Known?
      && match o.kind
         case TerminalFailureKind =>
           o.state == Named(SendFailed) && o.invalidates == Flag(false) && IsTerminalReason(o.reason.reason)
         case RetryableFailureKind =>
           o.state == Named(SendFailed) && o.invalidates == Flag(false) && IsRetryableReason(o.reason.reason)
         case UnknownKind =>
           o.state == Named(SendUnknown) && o.invalidates == Flag(false) && IsUnknownReason(o.reason.reason)
         case ExpiredKind =>
           && o.state == Named(SendExpired) && o.invalidates == Flag(false) && o.reference.NullReference?
           && o.reason.reason in {ApnsNotificationExpired, FcmNotificationExpired}
         case InvalidatingKind =>
           o.state == Named(SendFailed) && o.invalidates == Flag(true) && IsInvalidatingReason(o.reason.reason)
         case _ => false
  }

  predicate IsHex(c: char) { '0' <= c <= '9' || 'a' <= c <= 'f' || 'A' <= c <= 'F' }

  predicate IsLowerHex(c: char) { '0' <= c <= '9' || 'a' <= c <= 'f' }

  /** The reference pattern of each provider. */
  predicate IsProviderReference(s: string, apns: bool) {
    && ExpoProtocol.IsSafeReference(s)
    && if apns then 16 <= |s| <= 64 && forall i :: 0 <= i < |s| ==> IsHex(s[i]) || s[i] == '-'
       else |s| == 68 && s[..4] == "fcm-" && forall i :: 4 <= i < 68 ==> IsLowerHex(s[i])
  }

  /** `parseDirectPushProviderOutcome`: the value itself, or nothing. */
  function Parse(o: DirectOutcome, apns: bool): Option<DirectOutcome> {
    if !IsCanonicalCombination(o) then None
    else if o.reference.OtherReference? || (o.reference.Text? && !IsProviderReference(o.reference.text, apns)) then None
    else if o.kind.AcceptedKind? && o.reference.NullReference? then None
    else if o.reason.Known? && IsApnsReason(o.reason.reason) != apns then None
    else if o.reason == Known(ApnsUnregistered) then
      if o.occurredAt.Some? && o.occurredAt.value.IsoTime? then Some(o) else None
    else if o.occurredAt.Some? then None
    else Some(o)
  }

  // ----- outcome constructors -----

  function RefOf(reference: Option<string>): RawReference {
    if reference.Some? then Text(reference.value) else NullReference
  }

  function AcceptedPush(reference: string): DirectOutcome {
    DirectOutcome(AcceptedKind, Named(ProviderAccepted), Text(reference), NullReason, Flag(false), None)
  }

  function TerminalPush(reason: DirectReason, reference: Option<string>): DirectOutcome {
    DirectOutcome(TerminalFailureKind, Named(SendFailed), RefOf(reference), Known(reason), Flag(false), None)
  }

  function RetryablePush(reason: DirectReason, reference: Option<string>): DirectOutcome {
    DirectOutcome(RetryableFailureKind, Named(SendFailed), RefOf(reference), Known(reason), Flag(false), None)
  }

  function UnknownPush(reason: DirectReason, reference: Option<string>): DirectOutcome {
    DirectOutcome(UnknownKind, Named(SendUnknown), RefOf(reference), Known(reason), Flag(false), None)
  }

  function ExpiredPush(apns: bool): DirectOutcome {
    DirectOutcome(ExpiredKind, Named(SendExpired), NullReference,
                  Known(if apns then ApnsNotificationExpired else FcmNotificationExpired), Flag(false), None)
  }

  function InvalidatingPush(reason: DirectReason, reference: Option<string>,
                            occurredAt: Option<Timestamp>): DirectOutcome
  {
    DirectOutcome(InvalidatingKind, Named(SendFailed), RefOf(reference), Known(reason), Flag(true), occurredAt)
  }

  // ----- the APNs classifier -----

  const MAX_APNS_RESPONSE_BYTES := 16 * 1_024
  /** The last millisecond of an ECMAScript time value; `toISOString` throws past it. */
  const MAX_TIME_VALUE := 8_640_000_000_000_000

  datatype ApnsBody = ApnsBody(reason: string, timestamp: Option<nat>)

  /** `body` is the exact record the bytes hold, if they hold one. */
  datatype ApnsResponse = ApnsResponse(status: int, apnsId: Option<string>, byteLength: nat, body: Option<ApnsBody>)

  /** APNS_ID_PATTERN: hexadecimal groups of 8, 4, 4, 4 and 12. */
  predicate IsApnsId(s: string) {
    && |s| == 36
    && forall i :: 0 <= i < 36 ==> if i in {8, 13, 18, 23} then s[i] == '-' else IsHex(s[i])
  }

  function ClassifyApns(r: ApnsResponse): (o: DirectOutcome)
    ensures Parse(o, true) == Some(o)
  {
    var reference := if r.apnsId.Some? && IsApnsId(r.apnsId.value) then r.apnsId else None;
    ApnsIdIsReference(reference);
    if !(100 <= r.status <= 599) || r.byteLength > MAX_APNS_RESPONSE_BYTES then
      UnknownPush(ApnsResponseInvalid, reference)
    else if r.status == 200 then
      if r.byteLength == 0 && reference.Some? then AcceptedPush(reference.value)
      else UnknownPush(ApnsResponseInvalid, reference)
    else if r.byteLength < 2 || r.body.None? then UnknownPush(ApnsResponseInvalid, reference)
    else
      var body := r.body.value;
      if r.status == 410 && body.reason == "Unregistered" then
        if body.timestamp.Some? && body.timestamp.value <= MAX_TIME_VALUE
        then InvalidatingPush(ApnsUnregistered, reference, Some(IsoTime(body.timestamp.value)))
        else UnknownPush(ApnsResponseInvalid, reference)
      else if r.status == 400 && (body.reason == "BadDeviceToken" || body.reason == "DeviceTokenNotForTopic") then
        InvalidatingPush(ApnsBadDeviceToken, reference, None)
      else if r.status == 429 then RetryablePush(ApnsThrottled, reference)
      else if r.status >= 500 then RetryablePush(ApnsServerError, reference)
      else if r.status == 401 || r.status == 403 then TerminalPush(ApnsAuthenticationFailed, reference)
      else if body.reason in {"BadTopic", "MissingTopic", "TopicDisallowed"} then
        TerminalPush(ApnsTopicRejected, reference)
      else TerminalPush(ApnsPayloadRejected, reference)
  }

  lemma ApnsIdIsReference(reference: Option<string>)
    requires reference.Some? ==> IsApnsId(reference.value)
    ensures reference.Some? ==> IsProviderReference(reference.value, true)
  {
    if reference.Some? {
      var s := reference.value;
      assert IsHex(s[0]);
      assert forall i :: 0 <= i < |s| ==> IsHex(s[i]) || s[i] == '-';
    }
  }

  // ----- the FCM classifier -----

  /** One entry of `error.details`, by its `@type` and shape. */
  datatype FcmDetail = BadRequest | FcmError(errorCode: string) | OtherDetail | MalformedDetail

  datatype FcmErrorBody = FcmErrorBody(code: int, status: string, details: seq<FcmDetail>)

  datatype ParsedFcmError = ParsedFcmError(code: int, status: string, hasBadRequest: bool, fcmErrorCode: Option<string>)

  /** `name` is present when the body of a 200 is the exact record of a message name of the project. */
  datatype FcmBody = Unreadable | MessageName(name: string) | ErrorBody(error: FcmErrorBody) | OtherBody

  datatype FcmResponse = FcmResponse(status: int, body: FcmBody)

  function LastErrorCode(details: seq<FcmDetail>): Option<string> {
    if details == [] then None
    else if details[|details| - 1].FcmError? then Some(details[|details| - 1].errorCode)
    else LastErrorCode(details[..|details| - 1])
  }

  function ParsedError(body: FcmErrorBody): Option<ParsedFcmError> {
    if |body.details| > 16 || MalformedDetail in body.details then None
    else Some(ParsedFcmError(body.code, body.status, BadRequest in body.details, LastErrorCode(body.details)))
  }

  method ParseFcmError(body: FcmErrorBody) returns (r: Option<ParsedFcmError>)
    ensures r == ParsedError(body)
  {
    if |body.details| > 16 {
      return None;
    }
    var hasBadRequest, fcmErrorCode := false, None;
    for i := 0 to |body.details|
      invariant MalformedDetail !in body.details[..i]
      invariant hasBadRequest == (BadRequest in body.details[..i])
      invariant fcmErrorCode == LastErrorCode(body.details[..i])
    {
      assert body.details[..i + 1] == body.details[..i] + [body.details[i]];
      match body.details[i] {
        case MalformedDetail => return None;
        case BadRequest => hasBadRequest := true;
        case FcmError(code) => fcmErrorCode := Some(code);
        case OtherDetail =>
      }
    }
    assert body.details[..|body.details|] == body.details;
    r := Some(ParsedFcmError(body.code, body.status, hasBadRequest, fcmErrorCode));
  }

  predicate IsSha256Hex(s: string) { |s| == 64 && forall i :: 0 <= i < 64 ==> IsLowerHex(s[i]) }

  /** `safeFcmProviderReference`, for any digest function. */
  function FcmReference(name: string, sha256: string -> string): Option<string> {
    if 1 <= |name| <= 2_048 then Some("fcm-" + sha256(name)) else None
  }

  function ClassifyFcm(r: FcmResponse, locallyValidated: bool, sha256: string -> string): DirectOutcome {
    if r.body.Unreadable? then UnknownPush(FcmResponseInvalid, None)
    else if r.status == 200 then
      var reference := if r.body.MessageName? then FcmReference(r.body.name, sha256) else None;
      if reference.Some? then AcceptedPush(reference.value) else UnknownPush(FcmResponseInvalid, None)
    else
      var error := if r.body.ErrorBody? then ParsedError(r.body.error) else None;
      if error.None? || error.value.code != r.status then UnknownPush(FcmResponseInvalid, None)
      else if error.value.fcmErrorCode == Some("UNREGISTERED") && (r.status == 400 || r.status == 404) then
        InvalidatingPush(FcmUnregistered, None, None)
      else if r.status == 400 &&
        (error.value.status == "INVALID_ARGUMENT" || error.value.fcmErrorCode == Some("INVALID_ARGUMENT")) then
        if error.value.hasBadRequest || !locallyValidated then TerminalPush(FcmPayloadInvalid, None)
        else InvalidatingPush(FcmInvalidArgument, None, None)
      else if r.status == 429 || error.value.status == "RESOURCE_EXHAUSTED" then RetryablePush(FcmThrottled, None)
      else if r.status >= 500 || error.value.status == "UNAVAILABLE" || error.value.status == "INTERNAL" then
        RetryablePush(FcmServerError, None)
      else if r.status == 401 || r.status == 403 then TerminalPush(FcmAuthenticationFailed, None)
      else TerminalPush(FcmPayloadInvalid, None)
  }

  /** Every classified FCM response is taken by the outcome parser exactly as it is. */
  lemma ClassifiedFcmParses(r: FcmResponse, locallyValidated: bool, sha256: string -> string)
    requires forall name :: IsSha256Hex(sha256(name))
    ensures var o := ClassifyFcm(r, locallyValidated, sha256); Parse(o, false) == Some(o)
  {
    var o := ClassifyFcm(r, locallyValidated, sha256);
    if o.kind.AcceptedKind? {
      var digest := sha256(r.body.name);
      var s := "fcm-" + digest;
      assert forall i :: 4 <= i < 68 ==> s[i] == digest[i - 4] && IsLowerHex(digest[i - 4]);
      assert s[..4] == "fcm-";
      assert IsProviderReference(s, false);
    }
  }

  // ----- the ledger records -----

  function ProviderOf(apns: bool): Provider { if apns then ApnsDirect else FcmDirect }

  function AmbiguousReason(apns: bool): DirectReason {
    if apns then ApnsNetworkOutcomeAmbiguous else FcmNetworkOutcomeAmbiguous
  }

  function InvalidReason(apns: bool): DirectReason { if apns then ApnsResponseInvalid else FcmResponseInvalid }

  /** `completionFromDirect`, of a parsed outcome. */
  function CompletionFromDirect(o: DirectOutcome): Completion
    requires o.state.Named? && !o.reference.OtherReference? && (o.reason.Known? || o.kind.AcceptedKind?)
  {
    if o.kind.RetryableFailureKind? then FailureOf(DirectCode(o.reason.reason), SafeToRetry)
    else OutcomeOf(o.state.state, if o.reference.Text? then Some(o.reference.text) else None,
                   if o.reason.Known? then Some(DirectCode(o.reason.reason)) else None, o.occurredAt)
  }

  function UnknownCompletion(apns: bool): Completion {
    CompletionFromDirect(UnknownPush(AmbiguousReason(apns), None))
  }

  /** The completion of whatever `prepared.send()` came to; `None` is a thrown error. */
  function SendCompletion(result: Option<DirectOutcome>, apns: bool): Completion {
    if result.None? then UnknownCompletion(apns)
    else CompletionFromDirect(Parse(result.value, apns).GetOr(UnknownPush(InvalidReason(apns), None)))
  }

  function FailureDisposition(code: Code): Option<Disposition> {
    match code
    case DirectEligibilityBlocked | DirectLiveTransportDisabled => Some(TerminalDisposition)
    case DirectEligibilityUnavailable => Some(SafeToRetry)
    case DirectLedgerFailed => Some(Ambiguous)
    case DirectCode(r) => if IsRetryableReason(r) then Some(SafeToRetry) else None
    case _ => None
  }

  predicate IsStoredFailureReason(r: DirectReason, apns: bool) {
    if apns then r in {ApnsAuthenticationFailed, ApnsBadDeviceToken, ApnsEndpointIneligible, ApnsLiveTransportDisabled,
                       ApnsPayloadRejected, ApnsTopicRejected, ApnsUnregistered}
    else r in {FcmAuthenticationFailed, FcmEndpointIneligible, FcmInvalidArgument, FcmLiveTransportDisabled,
               FcmPayloadInvalid, FcmUnregistered}
  }

  /** `storedCompletion`. */
  function ParseCompletion(stored: Stored, apns: bool): Option<Completion> {
    match stored
    case NotACompletion => None
    case StoredFailure(code, disposition, digest) =>
      if !digest && FailureDisposition(code) == Some(disposition) then Some(FailureOf(code, disposition)) else None
    case StoredOutcome(state, provider, reference, reason, proof, digest, occurredAt) =>
      if provider != ProviderOf(apns) || proof || digest then None
      else
        var canonical :=
          match state
          case ProviderAccepted => reference.Some? && reason.None?
          case SendExpired =>
            reference.None? && reason ==
              Some(DirectCode(if apns then ApnsNotificationExpired else FcmNotificationExpired))
          case SendUnknown =>
            reason == Some(DirectCode(AmbiguousReason(apns))) || reason == Some(DirectCode(InvalidReason(apns)))
          case SendFailed =>
            reason.Some? && reason.value.DirectCode? && IsStoredFailureReason(reason.value.direct, apns);
        if canonical then Some(OutcomeOf(state, reference, reason, occurredAt)) else None
  }

  datatype Check = Passed | Refused | CheckThrew(retryable: bool)

  /** The last authorization and eligibility checks of `#executePrepared`; `None` lets the send go on. */
  function AuthorizationFailure(check: Check): Option<Completion> {
    if check.Passed? then None else Some(FailureOf(DirectLiveTransportDisabled, TerminalDisposition))
  }

  function EligibilityFailure(check: Check): Option<Completion> {
    match check
    case Passed => None
    case Refused => Some(FailureOf(DirectEligibilityBlocked, TerminalDisposition))
    case CheckThrew(true) => Some(FailureOf(DirectEligibilityUnavailable, SafeToRetry))
    case CheckThrew(false) => Some(FailureOf(DirectEligibilityBlocked, TerminalDisposition))
  }

  ghost predicate CanWrite(c: Completion, apns: bool) {
    || (exists check :: AuthorizationFailure(check) == Some(c))
    || (exists check :: EligibilityFailure(check) == Some(c))
    || (exists result :: SendCompletion(result, apns) == c)
  }

  /** Every completion the adapter writes is read back as it was written. */
  lemma WrittenCompletionsParseBack(c: Completion, apns: bool)
    requires CanWrite(c, apns)
    ensures ParseCompletion(Write(c, ProviderOf(apns)), apns) == Some(c)
  {
  }
}
