/** The pure part of workers/push/adapter.ts: what is written to the send ledger, and what is read back. */
module ExpoSend {
  import opened Wrappers
  import opened ExpoProtocol
  import opened SendOutcomes

  const UNKNOWN_SEND_OUTCOME := OutcomeOf(SendUnknown, None, Some(ExpoSendOutcomeAmbiguous), None)

  /** EXPO_PROVIDER_FAILURE_DISPOSITIONS. */
  function FailureDisposition(code: Code): Option<Disposition> {
    match code
    case ExpoEligibilityBlocked | ExpoEndpointIneligible => Some(TerminalDisposition)
    case ExpoEligibilityUnavailable => Some(SafeToRetry)
    case ExpoCode(r) =>
      (match r
       case HttpRateLimited | HttpServerError | MessageRateExceeded => Some(SafeToRetry)
       case HttpClientError | InvalidCredentials | LiveTransportDisabled => Some(TerminalDisposition)
       case NetworkOutcomeAmbiguous | ResponseTooLarge => Some(Ambiguous)
       case _ => None)
    case ProviderOutcomeAmbiguous => Some(Ambiguous)
    case _ => None
  }

  predicate IsCanonicalOutcome(state: SendState, reference: Option<string>, reason: Option<Code>, proof: bool,
                               digest: bool)
  {
    && !proof && !digest && (reference.Some? ==> IsSafeReference(reference.value))
    && match state
       case ProviderAccepted => reference.Some? && reason.None?
       case SendExpired => reference.None? && reason == Some(ExpoCode(NotificationExpired))
       case SendFailed =>
         && reference.None? && reason.Some?
         && reason.value in {ExpoCode(DeviceNotRegistered), ExpoCode(InvalidCredentials),
                             ExpoCode(MessageTooBig), ExpoCode(MismatchSenderId)}
       case SendUnknown =>
         && reference.None? && reason.Some?
         && reason.value in {ExpoSendOutcomeAmbiguous, ExpoCode(TicketErrorUnknown),
                             ExpoCode(TicketMissing), ExpoCode(TicketResponseInvalid)}
  }

  /** `parseLedgerCompletion`; `None` is EXPO_SEND_LEDGER_INVALID. */
  function ParseCompletion(stored: Stored): Option<Completion> {
    match stored
    case NotACompletion => None
    case StoredOutcome(state, provider, reference, reason, proof, digest, _) =>
      if provider.ExpoPush? && IsCanonicalOutcome(state, reference, reason, proof, digest)
      then Some(OutcomeOf(state, reference, reason, None))
      else None
    case StoredFailure(code, disposition, digest) =>
      if !digest && FailureDisposition(code) == Some(disposition) then Some(FailureOf(code, disposition)) else None
  }

  function StateOf(outcome: Outcome): SendState {
    match outcome
    case Accepted(_) => ProviderAccepted
    case Failed(state, _, _, _) => if state.ExpiredState? then SendExpired else SendFailed
    case Retry(_, _) => SendFailed
    case Unknown(_, _) => SendUnknown
  }

  function CodeOf(outcome: Outcome): Option<Code> {
    match outcome
    case Accepted(_) => None
    case Failed(_, _, r, _) => Some(ExpoCode(r))
    case Retry(_, r) => Some(ExpoCode(r))
    case Unknown(_, r) => Some(ExpoCode(r))
  }

  function CompletionFromOutcome(outcome: Outcome): Completion {
    if outcome.Retry? then FailureOf(ExpoCode(outcome.retryReason), SafeToRetry)
    else OutcomeOf(StateOf(outcome), outcome.ProviderReference(), CodeOf(outcome), None)
  }

  /** `safeCompletionFromExpoOutcome`: anything the ledger would not read back degrades to unknown first. */
  function SafeCompletion(raw: Option<RawOutcome>): Completion {
    var parsed := if raw.Some? then ParseOutcome(raw.value, Some(Ticket)) else None;
    if parsed.None? then UNKNOWN_SEND_OUTCOME
    else
      var c := CompletionFromOutcome(parsed.value);
      if c.OutcomeOf? && !IsCanonicalOutcome(c.state, c.reference, c.reason, false, false) then UNKNOWN_SEND_OUTCOME
      else c
  }

  function FailureFromError(thrown: Thrown): Completion {
    if !thrown.digest && FailureDisposition(thrown.code) == Some(thrown.disposition)
    then FailureOf(thrown.code, thrown.disposition)
    else FailureOf(ProviderOutcomeAmbiguous, Ambiguous)
  }

  const EXPIRED_COMPLETION := CompletionFromOutcome(ExpiredOutcome(None))

  datatype Eligibility = Eligible | Ineligible | NotABoolean | CheckerThrew(retryable: bool)

  /** The failure an eligibility answer completes with; `None` lets the send go on. */
  function EligibilityFailure(answer: Eligibility): Option<Completion> {
    match answer
    case Eligible => None
    case Ineligible => Some(FailureOf(ExpoEndpointIneligible, TerminalDisposition))
    case NotABoolean => Some(FailureOf(ExpoEligibilityBlocked, TerminalDisposition))
    case CheckerThrew(true) => Some(FailureOf(ExpoEligibilityUnavailable, SafeToRetry))
    case CheckerThrew(false) => Some(FailureOf(ExpoEligibilityBlocked, TerminalDisposition))
  }

  datatype Clock = ClockThrew | ClockNotFinite | ClockAt(time: int)

  datatype TransportResult = TransportThrew(thrown: Thrown) | TransportReturned(item: Option<RawOutcome>)

  function TransportCompletion(result: TransportResult): Completion {
    match result
    case TransportThrew(thrown) => FailureFromError(thrown)
    case TransportReturned(item) => SafeCompletion(item)
  }

  /** The completions the adapter can write, by where in the chunk routine they arise. */
  ghost predicate CanWrite(c: Completion) {
    || c == UNKNOWN_SEND_OUTCOME
    || c == EXPIRED_COMPLETION
    || (exists answer :: EligibilityFailure(answer) == Some(c))
    || (exists result :: TransportCompletion(result) == c)
  }

  /** Every completion the adapter writes is read back as it was written, never rejected or degraded. */
  lemma WrittenCompletionsParseBack(c: Completion)
    requires CanWrite(c)
    ensures ParseCompletion(Write(c, ExpoPush)) == Some(c)
  {
    if result :| TransportCompletion(result) == c {
      if result.TransportReturned? {
        SafeCompletionParsesBack(result.item);
      }
    }
  }

  lemma SafeCompletionParsesBack(raw: Option<RawOutcome>)
    ensures ParseCompletion(Write(SafeCompletion(raw), ExpoPush)) == Some(SafeCompletion(raw))
  {
    if raw.Some? {
      var parsed := ParseOutcome(raw.value, Some(Ticket));
      if parsed.Some? && parsed.value.Retry? {
        assert IsCanonical(parsed.value, Some(Ticket));
      }
    }
  }

  /** A completion says accepted only when the transport returned the canonical accepted ticket. */
  lemma AcceptedOnlyByTransport(result: TransportResult)
    requires var c := TransportCompletion(result); c.OutcomeOf? && c.state.ProviderAccepted?
    ensures result.TransportReturned? && result.item.Some?
    ensures var c := TransportCompletion(result);
            c.reference.Some? && result.item.value == ToRaw(Accepted(c.reference.value))
  {
    var parsed := ParseOutcome(result.item.value, Some(Ticket));
    assert result.item.value == ToRaw(parsed.value);
  }
}
