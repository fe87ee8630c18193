/**
 When a send may be called accepted, failed or retryable: what each adapter makes of each answer
 (workers/push/adapter.ts, workers/push/direct-adapter.ts, workers/email/ses-adapter.ts), told by the
 answer itself. An answer that is thrown, malformed or ambiguous proves nothing.
 */
module SendVerdicts {
  import opened Wrappers
  import opened SendOutcomes
  import opened SendProtocol
  import opened SendSafety
  import ExpoProtocol
  import ExpoSend
  import DirectSend

  // ----- Expo -----

  const EXPO_FAILURES :=
    {ExpoProtocol.DeviceNotRegistered, ExpoProtocol.InvalidCredentials, ExpoProtocol.MessageTooBig,
     ExpoProtocol.MismatchSenderId}

  /** The transport returned exactly the record of this ticket. */
  predicate Returned(result: ExpoSend.TransportResult, ticket: ExpoProtocol.Outcome) {
    result == ExpoSend.TransportReturned(Some(ExpoProtocol.ToRaw(ticket)))
  }

  function FailedTicket(reason: ExpoProtocol.Reason): ExpoProtocol.Outcome {
    ExpoProtocol.Failed(ExpoProtocol.FailedState, None, reason, reason == ExpoProtocol.DeviceNotRegistered)
  }

  /** Tickets that came too late. */
  predicate IsExpiredTicket(result: ExpoSend.TransportResult) {
    Returned(result, ExpoProtocol.Failed(ExpoProtocol.ExpiredState, None, ExpoProtocol.NotificationExpired, false))
  }

  predicate IsRateLimitedWith(result: ExpoSend.TransportResult, ref: Option<string>) {
    && Returned(result, ExpoProtocol.Retry(ref, ExpoProtocol.MessageRateExceeded))
    && (ref.Some? ==> ExpoProtocol.IsSafeReference(ref.value))
  }

  /** Rate-limited, with a safe reference or none. */
  ghost predicate IsRateLimitedTicket(result: ExpoSend.TransportResult) {
    exists ref: Option<string> :: IsRateLimitedWith(result, ref)
  }

  /** The failures the push client may throw, by what they say about a repetition. */
  predicate IsExpoFailure(code: Code, disposition: Disposition) {
    match disposition
    case SafeToRetry =>
      code in {ExpoEligibilityUnavailable, ExpoCode(ExpoProtocol.HttpRateLimited),
               ExpoCode(ExpoProtocol.HttpServerError), ExpoCode(ExpoProtocol.MessageRateExceeded)}
    case TerminalDisposition =>
      code in {ExpoEligibilityBlocked, ExpoEndpointIneligible, ExpoCode(ExpoProtocol.HttpClientError),
               ExpoCode(ExpoProtocol.InvalidCredentials), ExpoCode(ExpoProtocol.LiveTransportDisabled)}
    case Ambiguous =>
      code in {ProviderOutcomeAmbiguous, ExpoCode(ExpoProtocol.NetworkOutcomeAmbiguous),
               ExpoCode(ExpoProtocol.ResponseTooLarge)}
  }

  predicate Threw(result: ExpoSend.TransportResult, code: Code, disposition: Disposition) {
    result == ExpoSend.TransportThrew(Thrown(code, disposition, false)) && IsExpoFailure(code, disposition)
  }

  lemma ExpoFailuresAre(code: Code, disposition: Disposition)
    ensures ExpoSend.FailureDisposition(code) == Some(disposition) <==> IsExpoFailure(code, disposition)
  {
  }

  lemma TicketTells(raw: ExpoProtocol.RawOutcome, ticket: ExpoProtocol.Outcome)
    requires ExpoProtocol.ParseOutcome(raw, Some(ExpoProtocol.Ticket)) == Some(ticket)
    ensures raw == ExpoProtocol.ToRaw(ticket) && ExpoProtocol.IsCanonical(ticket, Some(ExpoProtocol.Ticket))
    ensures ExpoSend.SafeCompletion(Some(raw)) ==
            match ticket
            case Accepted(ref) => OutcomeOf(ProviderAccepted, Some(ref), None, None)
            case Failed(_, Some(_), _, _) => ExpoSend.UNKNOWN_SEND_OUTCOME
            case Failed(ExpiredState, None, r, _) => OutcomeOf(SendExpired, None, Some(ExpoCode(r)), None)
            case Failed(FailedState, None, r, _) => OutcomeOf(SendFailed, None, Some(ExpoCode(r)), None)
            case Retry(_, r) => FailureOf(ExpoCode(r), SafeToRetry)
            case Unknown(Some(_), _) => ExpoSend.UNKNOWN_SEND_OUTCOME
            case Unknown(None, r) =>
              if r.NetworkOutcomeAmbiguous? then ExpoSend.UNKNOWN_SEND_OUTCOME
              else OutcomeOf(SendUnknown, None, Some(ExpoCode(r)), None)
  {
    assert ExpoProtocol.IsCanonical(ticket, Some(ExpoProtocol.Ticket));
  }

  /** The completion of each ticket record. */
  lemma TicketCompletion(result: ExpoSend.TransportResult, ticket: ExpoProtocol.Outcome)
    requires Returned(result, ticket) && ExpoProtocol.IsCanonical(ticket, Some(ExpoProtocol.Ticket))
    ensures ExpoSend.TransportCompletion(result) == ExpoSend.SafeCompletion(Some(ExpoProtocol.ToRaw(ticket)))
    ensures ExpoProtocol.ParseOutcome(ExpoProtocol.ToRaw(ticket), Some(ExpoProtocol.Ticket)) == Some(ticket)
  {
    hide ExpoProtocol.IsCanonical, ExpoProtocol.ParseOutcome, ExpoProtocol.ToRaw, ExpoSend.SafeCompletion;
  }

  /** Either the result records a canonical ticket, or it is called unknown or what was thrown. */
  lemma ResultCases(result: ExpoSend.TransportResult) returns (ticket: Option<ExpoProtocol.Outcome>)
    ensures ticket.Some? ==>
              && Returned(result, ticket.value)
              && ExpoProtocol.IsCanonical(ticket.value, Some(ExpoProtocol.Ticket))
    ensures ticket.None? ==>
              && (forall o :: Returned(result, o) ==> !ExpoProtocol.IsCanonical(o, Some(ExpoProtocol.Ticket)))
              && ExpoSend.TransportCompletion(result) ==
                   if result.TransportThrew? then ExpoSend.FailureFromError(result.thrown)
                   else ExpoSend.UNKNOWN_SEND_OUTCOME
  {
    hide ExpoProtocol.IsCanonical, ExpoProtocol.ParseOutcome, ExpoProtocol.ToRaw, ExpoSend.FailureFromError;
    ticket := None;
    if result.TransportReturned? && result.item.Some? {
      ticket := ExpoProtocol.ParseOutcome(result.item.value, Some(ExpoProtocol.Ticket));
    }
  }

  lemma TicketsDiffer(result: ExpoSend.TransportResult, o: ExpoProtocol.Outcome, q: ExpoProtocol.Outcome)
    requires Returned(result, o) && Returned(result, q)
    ensures o == q
  {
  }

  /** What the push client's result is called, and which results are called so. */
  lemma ExpoAnswerIff(result: ExpoSend.TransportResult, ref: string, reason: ExpoProtocol.Reason)
    ensures ExpoSend.TransportCompletion(result) == OutcomeOf(ProviderAccepted, Some(ref), None, None) <==>
              Returned(result, ExpoProtocol.Accepted(ref)) && ExpoProtocol.IsSafeReference(ref)
    ensures ExpoSend.TransportCompletion(result) == OutcomeOf(SendFailed, None, Some(ExpoCode(reason)), None) <==>
              reason in EXPO_FAILURES && Returned(result, FailedTicket(reason))
    ensures ExpoSend.TransportCompletion(result) ==
              OutcomeOf(SendExpired, None, Some(ExpoCode(ExpoProtocol.NotificationExpired)), None) <==>
              IsExpiredTicket(result)
  {
    var ticket := ResultCases(result);
    if ticket.Some? {
      hide ExpoSend.SafeCompletion, ExpoSend.TransportCompletion, ExpoProtocol.ToRaw;
      TicketCompletion(result, ticket.value);
      TicketTells(ExpoProtocol.ToRaw(ticket.value), ticket.value);
      ExpoTicketIs(result, ticket.value, ref, reason);
    }
  }

  /** The record of a ticket is the record of no other. */
  lemma ExpoTicketIs(result: ExpoSend.TransportResult, o: ExpoProtocol.Outcome, ref: string,
                     reason: ExpoProtocol.Reason)
    requires Returned(result, o)
    ensures Returned(result, ExpoProtocol.Accepted(ref)) <==> o == ExpoProtocol.Accepted(ref)
    ensures Returned(result, FailedTicket(reason)) <==> o == FailedTicket(reason)
    ensures IsExpiredTicket(result) <==>
              o == ExpoProtocol.Failed(ExpoProtocol.ExpiredState, None, ExpoProtocol.NotificationExpired, false)
  {
  }

  lemma RateLimitedIff(result: ExpoSend.TransportResult, o: ExpoProtocol.Outcome)
    requires Returned(result, o) && ExpoProtocol.IsCanonical(o, Some(ExpoProtocol.Ticket))
    ensures IsRateLimitedTicket(result) <==> o.Retry?
    ensures o.Retry? ==> o.retryReason == ExpoProtocol.MessageRateExceeded
  {
    if o.Retry? {
      assert IsRateLimitedWith(result, o.retryReference);
    }
    if ref: Option<string> :| IsRateLimitedWith(result, ref) {
      TicketsDiffer(result, o, ExpoProtocol.Retry(ref, ExpoProtocol.MessageRateExceeded));
    }
  }

  lemma RateLimitedIsTicket(result: ExpoSend.TransportResult) returns (ticket: ExpoProtocol.Outcome)
    requires IsRateLimitedTicket(result)
    ensures Returned(result, ticket) && ExpoProtocol.IsCanonical(ticket, Some(ExpoProtocol.Ticket))
  {
    var ref: Option<string> :| IsRateLimitedWith(result, ref);
    ticket := ExpoProtocol.Retry(ref, ExpoProtocol.MessageRateExceeded);
  }

  /** A failure is one the client threw as such, a rate limit, or, called ambiguous, any other throw. */
  lemma ExpoFailureIff(result: ExpoSend.TransportResult, code: Code, disposition: Disposition)
    ensures ExpoSend.TransportCompletion(result) == FailureOf(code, disposition) <==>
              || Threw(result, code, disposition)
              || (IsRateLimitedTicket(result) && code == ExpoCode(ExpoProtocol.MessageRateExceeded)
                  && disposition == SafeToRetry)
              || (result.TransportThrew? && code == ProviderOutcomeAmbiguous && disposition == Ambiguous
                  && !Threw(result, result.thrown.code, result.thrown.disposition))
  {
    if result.TransportThrew? {
      ExpoFailuresAre(result.thrown.code, result.thrown.disposition);
    } else {
      hide ExpoSend.SafeCompletion, ExpoSend.TransportCompletion, ExpoProtocol.ToRaw, IsRateLimitedTicket, Returned;
      hide ExpoProtocol.IsCanonical;
      var ticket := ResultCases(result);
      if ticket.Some? {
        TicketCompletion(result, ticket.value);
        TicketTells(ExpoProtocol.ToRaw(ticket.value), ticket.value);
        RateLimitedIff(result, ticket.value);
      } else if IsRateLimitedTicket(result) {
        var o := RateLimitedIsTicket(result);
        assert false;
      }
    }
  }

  // ----- direct push -----

  function TerminalReasons(apns: bool): set<DirectReason> {
    if apns then {ApnsAuthenticationFailed, ApnsEndpointIneligible, ApnsLiveTransportDisabled, ApnsPayloadRejected,
                  ApnsTopicRejected}
    else {FcmAuthenticationFailed, FcmEndpointIneligible, FcmLiveTransportDisabled, FcmPayloadInvalid}
  }

  function RetryableReasons(apns: bool): set<DirectReason> {
    if apns then {ApnsServerError, ApnsThrottled} else {FcmServerError, FcmThrottled, FcmAuthenticationUnavailable}
  }

  function InvalidatingReasons(apns: bool): set<DirectReason> {
    if apns then {ApnsBadDeviceToken, ApnsUnregistered} else {FcmInvalidArgument, FcmUnregistered}
  }

  function UnknownReasons(apns: bool): set<DirectReason> {
    if apns then {ApnsNetworkOutcomeAmbiguous, ApnsResponseInvalid}
    else {FcmNetworkOutcomeAmbiguous, FcmResponseInvalid}
  }

  predicate IsReference(ref: Option<string>, apns: bool) {
    ref.Some? ==> DirectSend.IsProviderReference(ref.value, apns)
  }

  /** The time a device unregistered goes with exactly that reason. */
  predicate IsTimeOf(reason: DirectReason, at: Option<Timestamp>) {
    if reason == ApnsUnregistered then at.Some? && at.value.IsoTime? else at.None?
  }

  lemma ReasonClasses(r: DirectReason, apns: bool)
    ensures DirectSend.IsTerminalReason(r) && DirectSend.IsApnsReason(r) == apns <==> r in TerminalReasons(apns)
    ensures DirectSend.IsRetryableReason(r) && DirectSend.IsApnsReason(r) == apns <==> r in RetryableReasons(apns)
    ensures DirectSend.IsInvalidatingReason(r) && DirectSend.IsApnsReason(r) == apns <==> r in InvalidatingReasons(apns)
    ensures DirectSend.IsUnknownReason(r) && DirectSend.IsApnsReason(r) == apns <==> r in UnknownReasons(apns)
  {
  }

  /** The outcomes the adapter takes from a transport, constructor by constructor. */
  ghost predicate IsCanonicalPush(o: DirectSend.DirectOutcome, apns: bool) {
    || (exists ref :: o == DirectSend.AcceptedPush(ref) && DirectSend.IsProviderReference(ref, apns))
    || (exists r, ref :: o == DirectSend.TerminalPush(r, ref) && r in TerminalReasons(apns) && IsReference(ref, apns))
    || (exists r, ref :: o == DirectSend.RetryablePush(r, ref) && r in RetryableReasons(apns) && IsReference(ref, apns))
    || (exists r, ref :: o == DirectSend.UnknownPush(r, ref) && r in UnknownReasons(apns) && IsReference(ref, apns))
    || (exists r, ref, at :: o == DirectSend.InvalidatingPush(r, ref, at) && r in InvalidatingReasons(apns) &&
                             IsReference(ref, apns) && IsTimeOf(r, at))
    || o == DirectSend.ExpiredPush(apns)
  }

  /** A reference as the constructors take it. */
  function RefIn(o: DirectSend.DirectOutcome): Option<string> {
    if o.reference.Text? then Some(o.reference.text) else None
  }

  lemma CanonicalPushParses(o: DirectSend.DirectOutcome, apns: bool)
    requires IsCanonicalPush(o, apns)
    ensures DirectSend.Parse(o, apns) == Some(o)
  {
    if o.reason.Known? {
      ReasonClasses(o.reason.reason, apns);
    }
  }

  /** The parser takes exactly these outcomes, each as it is. */
  lemma ParsesIff(o: DirectSend.DirectOutcome, apns: bool)
    ensures DirectSend.Parse(o, apns) == Some(o) <==> IsCanonicalPush(o, apns)
    ensures DirectSend.Parse(o, apns).None? <==> !IsCanonicalPush(o, apns)
  {
    if IsCanonicalPush(o, apns) {
      CanonicalPushParses(o, apns);
    }
    if DirectSend.Parse(o, apns).Some? {
      var ref := RefIn(o);
      assert ref.Some? || o.reference.NullReference?;
      assert DirectSend.RefOf(ref) == o.reference;
      if o.reason.Known? {
        ReasonClasses(o.reason.reason, apns);
        var r := o.reason.reason;
        match o.kind
        case TerminalFailureKind => assert o == DirectSend.TerminalPush(r, ref);
        case RetryableFailureKind => assert o == DirectSend.RetryablePush(r, ref);
        case UnknownKind => assert o == DirectSend.UnknownPush(r, ref);
        case InvalidatingKind => assert o == DirectSend.InvalidatingPush(r, ref, o.occurredAt);
        case ExpiredKind => assert o == DirectSend.ExpiredPush(apns);
        case _ =>
      } else {
        assert o == DirectSend.AcceptedPush(ref.value);
      }
    }
  }

  /** Whether a direct answer proves that nothing was delivered and nothing will be. */
  ghost predicate IsFailedPush(o: DirectSend.DirectOutcome, apns: bool, ref: Option<string>, r: DirectReason) {
    && IsReference(ref, apns)
    && (|| (o == DirectSend.TerminalPush(r, ref) && r in TerminalReasons(apns))
        || (exists at :: o == DirectSend.InvalidatingPush(r, ref, at) && r in InvalidatingReasons(apns) &&
                         IsTimeOf(r, at)))
  }

  ghost predicate IsRetryablePush(o: DirectSend.DirectOutcome, apns: bool, r: DirectReason) {
    exists ref :: o == DirectSend.RetryablePush(r, ref) && r in RetryableReasons(apns) && IsReference(ref, apns)
  }

  lemma DirectCompletionOf(o: DirectSend.DirectOutcome, apns: bool)
    requires IsCanonicalPush(o, apns)
    ensures DirectSend.SendCompletion(Some(o), apns) ==
            if o.kind.RetryableFailureKind? then FailureOf(DirectCode(o.reason.reason), SafeToRetry)
            else OutcomeOf(o.state.state, RefIn(o), if o.reason.Known? then Some(DirectCode(o.reason.reason)) else None,
                           o.occurredAt)
  {
    ParsesIff(o, apns);
  }

  lemma UnprovedPush(result: Option<DirectSend.DirectOutcome>, apns: bool)
    requires result.Some? ==> !IsCanonicalPush(result.value, apns)
    ensures DirectSend.SendCompletion(result, apns) ==
            OutcomeOf(SendUnknown, None,
                      Some(DirectCode(if result.None? then (if apns then ApnsNetworkOutcomeAmbiguous
                                                            else FcmNetworkOutcomeAmbiguous)
                                      else if apns then ApnsResponseInvalid else FcmResponseInvalid)), None)
  {
    if result.Some? {
      ParsesIff(result.value, apns);
    }
  }

  /** The kinds of the canonical outcomes are those of the constructors. */
  lemma KindsOfPush(o: DirectSend.DirectOutcome, apns: bool)
    requires IsCanonicalPush(o, apns)
    ensures o.state.Named? && !o.reference.OtherReference? && (o.reason.Known? || o.kind.AcceptedKind?)
    ensures o.kind.AcceptedKind? <==> o.state.state.ProviderAccepted?
    ensures o.kind.AcceptedKind? <==>
              && RefIn(o).Some? && o == DirectSend.AcceptedPush(RefIn(o).value)
              && DirectSend.IsProviderReference(RefIn(o).value, apns)
    ensures o.kind.RetryableFailureKind? <==> o.reason.Known? && IsRetryablePush(o, apns, o.reason.reason)
    ensures o.state.state.SendExpired? <==> o == DirectSend.ExpiredPush(apns)
    ensures o.state.state.SendFailed? && !o.kind.RetryableFailureKind? <==>
              o.reason.Known? && IsFailedPush(o, apns, RefIn(o), o.reason.reason)
  {
    hide DirectSend.IsProviderReference;
    if ref :| o == DirectSend.AcceptedPush(ref) && DirectSend.IsProviderReference(ref, apns) {
    } else if r, ref :| o == DirectSend.TerminalPush(r, ref) && r in TerminalReasons(apns) && IsReference(ref, apns) {
      assert RefIn(o) == ref;
    } else if r, ref :| o == DirectSend.RetryablePush(r, ref) && r in RetryableReasons(apns) && IsReference(ref, apns) {
      assert RefIn(o) == ref;
    } else if r, ref, at :| o == DirectSend.InvalidatingPush(r, ref, at) && r in InvalidatingReasons(apns) &&
                            IsReference(ref, apns) && IsTimeOf(r, at) {
      assert RefIn(o) == ref;
    }
  }

  // ----- what an answer proves -----

  predicate ExpoProvesFailure(result: ExpoSend.TransportResult, code: Code) {
    || (code.ExpoCode? && code.reason in EXPO_FAILURES && Returned(result, FailedTicket(code.reason)))
    || Threw(result, code, SafeToRetry) || Threw(result, code, TerminalDisposition)
  }

  /** The push client's result proves the verdict. */
  ghost predicate ExpoProves(result: ExpoSend.TransportResult, v: Verdict) {
    match v.state
    case ProviderAccepted =>
      && v.reference.Some? && v.reason.None? && ExpoProtocol.IsSafeReference(v.reference.value)
      && Returned(result, ExpoProtocol.Accepted(v.reference.value))
    case SendFailed =>
      && v.reference.None? && v.reason.Some?
      && (|| ExpoProvesFailure(result, v.reason.value)
          || (IsRateLimitedTicket(result) && v.reason.value == ExpoCode(ExpoProtocol.MessageRateExceeded)))
    case SendExpired =>
      v.reference.None? && v.reason == Some(ExpoCode(ExpoProtocol.NotificationExpired)) && IsExpiredTicket(result)
    case SendUnknown => false
  }

  /** The direct transport's outcome proves the verdict; a thrown error proves none. */
  ghost predicate DirectProves(result: Option<DirectSend.DirectOutcome>, apns: bool, v: Verdict) {
    && result.Some?
    && match v.state
       case ProviderAccepted =>
         && v.reference.Some? && v.reason.None? && DirectSend.IsProviderReference(v.reference.value, apns)
         && result.value == DirectSend.AcceptedPush(v.reference.value)
       case SendFailed =>
         && v.reason.Some? && v.reason.value.DirectCode?
         && var r := v.reason.value.direct;
            || IsFailedPush(result.value, apns, v.reference, r)
            || (v.reference.None? && IsRetryablePush(result.value, apns, r))
       case SendExpired =>
         && result.value == DirectSend.ExpiredPush(apns) && v.reference.None?
         && v.reason == Some(DirectCode(if apns then ApnsNotificationExpired else FcmNotificationExpired))
       case SendUnknown => false
  }

  /** The SES client's answer proves the verdict. */
  predicate SesProves(r: SesResult, v: Verdict) {
    match v.state
    case ProviderAccepted =>
      v.reference.Some? && v.reason.None? && r == Response(v.reference) && IsSesMessageId(v.reference.value)
    case SendFailed =>
      v.reference.None? && v.reason.Some? &&
      (r == DispatchError(v.reason.value, SafeToRetry) || r == DispatchError(v.reason.value, TerminalDisposition))
    case _ => false
  }

  ghost predicate Proves(adapter: Adapter, answer: Answer, v: Verdict)
    requires AnswerFits(adapter, answer)
  {
    match adapter
    case Expo => ExpoProves(answer.result, v)
    case Direct(apns) => DirectProves(answer.outcome, apns, v)
    case Ses => SesProves(answer.ses, v)
  }

  lemma ExpoDefiniteIff(result: ExpoSend.TransportResult, v: Verdict)
    ensures Definite(ExpoSend.TransportCompletion(result)) == Some(v) <==> ExpoProves(result, v)
  {
    hide ExpoSend.TransportCompletion, Returned, Threw, IsExpiredTicket, IsRateLimitedTicket, IsExpoFailure;
    hide ExpoProtocol.IsSafeReference;
    var c := ExpoSend.TransportCompletion(result);
    ExpoShape(result);
    var reason := if v.reason.Some? && v.reason.value.ExpoCode? then v.reason.value.reason
    else ExpoProtocol.MessageTooBig;
    ExpoAnswerIff(result, v.reference.GetOr(""), reason);
    if v.reason.Some? {
      ExpoFailureIff(result, v.reason.value, SafeToRetry);
      ExpoFailureIff(result, v.reason.value, TerminalDisposition);
    }
  }

  lemma ExpoShape(result: ExpoSend.TransportResult)
    ensures var c := ExpoSend.TransportCompletion(result);
            c.OutcomeOf? ==>
              && c.occurredAt.None?
              && match c.state
                 case ProviderAccepted => c.reference.Some? && c.reason.None?
                 case SendFailed => c.reference.None? && c.reason.Some? && c.reason.value.ExpoCode?
                 case SendExpired => c.reference.None? && c.reason == Some(ExpoCode(ExpoProtocol.NotificationExpired))
                 case SendUnknown => true
  {
    if result.TransportReturned? && result.item.Some? {
      var parsed := ExpoProtocol.ParseOutcome(result.item.value, Some(ExpoProtocol.Ticket));
      if parsed.Some? {
        TicketTells(result.item.value, parsed.value);
      }
    }
  }

  lemma DirectDefiniteIff(result: Option<DirectSend.DirectOutcome>, apns: bool, v: Verdict)
    ensures Definite(DirectSend.SendCompletion(result, apns)) == Some(v) <==> DirectProves(result, apns, v)
  {
    hide DirectSend.SendCompletion, DirectSend.IsProviderReference, DirectSend.Parse;
    if result.Some? && IsCanonicalPush(result.value, apns) {
      var o := result.value;
      DirectCompletionOf(o, apns);
      KindsOfPush(o, apns);
      ProvesOfCanonical(o, apns, v);
    } else {
      UnprovedPush(result, apns);
      if DirectProves(result, apns, v) {
        ProvedIsCanonical(result.value, apns, v);
      }
    }
  }

  lemma ProvedIsCanonical(o: DirectSend.DirectOutcome, apns: bool, v: Verdict)
    requires DirectProves(Some(o), apns, v)
    ensures IsCanonicalPush(o, apns)
  {
    hide DirectSend.IsProviderReference;
  }

  /** Which verdict a canonical outcome proves, if any. */
  lemma ProvesOfCanonical(o: DirectSend.DirectOutcome, apns: bool, v: Verdict)
    requires IsCanonicalPush(o, apns)
    ensures DirectProves(Some(o), apns, v) <==>
              && o.state.Named? && !o.state.state.SendUnknown? && (o.reason.Known? || o.kind.AcceptedKind?)
              && v == if o.kind.AcceptedKind? then Verdict(ProviderAccepted, RefIn(o), None)
                      else if o.kind.RetryableFailureKind?
                      then Verdict(SendFailed, None, Some(DirectCode(o.reason.reason)))
                      else Verdict(o.state.state, RefIn(o), Some(DirectCode(o.reason.reason)))
  {
    hide DirectSend.IsProviderReference;
    KindsOfPush(o, apns);
    ReferencesAgree(o, apns, v);
  }

  lemma ReferencesAgree(o: DirectSend.DirectOutcome, apns: bool, v: Verdict)
    ensures forall ref, r :: IsFailedPush(o, apns, ref, r) ==> ref == RefIn(o) && o.reason == DirectSend.Known(r)
    ensures forall r :: IsRetryablePush(o, apns, r) ==> o.reason == DirectSend.Known(r) && o.kind.RetryableFailureKind?
    ensures forall ref :: o == DirectSend.AcceptedPush(ref) ==> RefIn(o) == Some(ref)
  {
  }

  /** An answer makes a completion definite exactly if it proves the verdict, and then says that verdict. */
  lemma DefiniteIff(adapter: Adapter, answer: Answer, v: Verdict)
    requires AnswerFits(adapter, answer)
    ensures Definite(Written(adapter, answer)) == Some(v) <==> Proves(adapter, answer, v)
    ensures Definite(ToldAfter(adapter, answer)) == Some(v) <==> Proves(adapter, answer, v)
  {
    hide Proves, Definite, Written, ToldAfter;
    ToldAgrees(adapter, answer);
    WrittenIff(adapter, answer, v);
  }

  lemma WrittenIff(adapter: Adapter, answer: Answer, v: Verdict)
    requires AnswerFits(adapter, answer)
    ensures Definite(Written(adapter, answer)) == Some(v) <==> Proves(adapter, answer, v)
  {
    hide ExpoProves, DirectProves, ExpoSend.TransportCompletion, DirectSend.SendCompletion;
    match adapter
    case Expo => ExpoDefiniteIff(answer.result, v);
    case Direct(apns) => DirectDefiniteIff(answer.outcome, apns, v);
    case Ses =>
  }

  /** An unknown outcome keeps the reason the answer gives, and says when there was none to read. */
  lemma SesUnknownIff(r: SesResult, code: Code)
    ensures SesOutcome(r) == OutcomeOf(SendUnknown, None, Some(code), None) <==>
              || r == DispatchError(code, Ambiguous)
              || (r.OtherError? && code == SesOutcomeUnknown)
              || (r.Response? && !(r.messageId.Some? && IsSesMessageId(r.messageId.value)) &&
                  code == SesResponseInvalid)
  {
  }

  lemma ExpoUnknownIff(result: ExpoSend.TransportResult, reason: ExpoProtocol.Reason)
    ensures ExpoSend.TransportCompletion(result) == OutcomeOf(SendUnknown, None, Some(ExpoCode(reason)), None) <==>
              && reason in {ExpoProtocol.TicketErrorUnknown, ExpoProtocol.TicketMissing,
                            ExpoProtocol.TicketResponseInvalid}
              && Returned(result, ExpoProtocol.Unknown(None, reason))
  {
    if result.TransportReturned? && result.item.Some? {
      var parsed := ExpoProtocol.ParseOutcome(result.item.value, Some(ExpoProtocol.Ticket));
      if parsed.Some? {
        hide ExpoSend.SafeCompletion;
        TicketTells(result.item.value, parsed.value);
      }
    }
  }

  // ----- what may be repeated -----

  /** The answer says that nothing was sent and the attempt may be repeated. */
  ghost predicate SaysRetry(adapter: Adapter, answer: Answer, code: Code)
    requires AnswerFits(adapter, answer)
  {
    match adapter
    case Expo =>
      || Threw(answer.result, code, SafeToRetry)
      || (IsRateLimitedTicket(answer.result) && code == ExpoCode(ExpoProtocol.MessageRateExceeded))
    case Direct(apns) =>
      answer.outcome.Some? && code.DirectCode? && IsRetryablePush(answer.outcome.value, apns, code.direct)
    case Ses => answer.ses == DispatchError(code, SafeToRetry)
  }

  /** An attempt is called safe to repeat exactly if the answer says so, and with the answer's reason. */
  lemma RetryIff(adapter: Adapter, answer: Answer, code: Code)
    requires AnswerFits(adapter, answer)
    ensures ToldAfter(adapter, answer) == FailureOf(code, SafeToRetry) <==> SaysRetry(adapter, answer, code)
    ensures !adapter.Ses? ==>
              (Written(adapter, answer) == FailureOf(code, SafeToRetry) <==> SaysRetry(adapter, answer, code))
    ensures adapter.Ses? && SaysRetry(adapter, answer, code) ==>
              Written(adapter, answer) == OutcomeOf(SendFailed, None, Some(code), None)
  {
    hide ExpoSend.TransportCompletion, DirectSend.SendCompletion, IsRateLimitedTicket, Threw, IsRetryablePush;
    match adapter
    case Expo => ExpoFailureIff(answer.result, code, SafeToRetry);
    case Direct(apns) => DirectRetryIff(answer.outcome, apns, code);
    case Ses =>
  }

  lemma DirectRetryIff(result: Option<DirectSend.DirectOutcome>, apns: bool, code: Code)
    ensures DirectSend.SendCompletion(result, apns) == FailureOf(code, SafeToRetry) <==>
              result.Some? && code.DirectCode? && IsRetryablePush(result.value, apns, code.direct)
  {
    hide DirectSend.SendCompletion, DirectSend.IsProviderReference;
    if result.Some? && IsCanonicalPush(result.value, apns) {
      DirectCompletionOf(result.value, apns);
      KindsOfPush(result.value, apns);
      ReferencesAgree(result.value, apns, Verdict(SendFailed, None, None));
    } else {
      UnprovedPush(result, apns);
    }
  }

  // ----- the checks before the provider boundary -----

  /** Before the message is an hour old. */
  predicate InTime(work: Work, clock: ExpoSend.Clock) {
    clock.ClockAt? && work.createdAt.Some? && clock.time - work.createdAt.value < 3_600_000
  }

  predicate TooLate(work: Work, clock: ExpoSend.Clock) {
    clock.ClockAt? && work.createdAt.Some? && clock.time - work.createdAt.value >= 3_600_000
  }

  /** The code an answer of the eligibility check of the Expo adapter stands for. */
  predicate ExpoRefuses(answer: ExpoSend.Eligibility, code: Code, disposition: Disposition) {
    || (answer.Ineligible? && code == ExpoEndpointIneligible && disposition == TerminalDisposition)
    || (answer == ExpoSend.CheckerThrew(true) && code == ExpoEligibilityUnavailable && disposition == SafeToRetry)
    || ((answer.NotABoolean? || answer == ExpoSend.CheckerThrew(false)) && code == ExpoEligibilityBlocked
        && disposition == TerminalDisposition)
  }

  /** The code a failed check of the direct adapters stands for: authorization first, then eligibility. */
  predicate DirectRefuses(authorization: DirectSend.Check, eligibility: DirectSend.Check, code: Code,
                          disposition: Disposition)
  {
    if !authorization.Passed? then code == DirectLiveTransportDisabled && disposition == TerminalDisposition
    else if eligibility == DirectSend.CheckThrew(true) then
      code == DirectEligibilityUnavailable && disposition == SafeToRetry
    else !eligibility.Passed? && code == DirectEligibilityBlocked && disposition == TerminalDisposition
  }

  predicate Passes(adapter: Adapter, work: Work, c: Checks)
    requires ChecksFit(adapter, c)
  {
    match adapter
    case Expo => !c.chunkFailed && InTime(work, c.before) && c.eligibility.Eligible? && InTime(work, c.after)
    case Direct(_) => c.authorization.Passed? && c.eligibilityCheck.Passed?
    case Ses => true
  }

  /** The check that failed proves that nothing is sent, for this reason. */
  predicate Refuses(adapter: Adapter, work: Work, c: Checks, code: Code, disposition: Disposition)
    requires ChecksFit(adapter, c)
  {
    match adapter
    case Expo => !c.chunkFailed && InTime(work, c.before) && ExpoRefuses(c.eligibility, code, disposition)
    case Direct(_) => DirectRefuses(c.authorization, c.eligibilityCheck, code, disposition)
    case Ses => false
  }

  predicate Expires(adapter: Adapter, work: Work, c: Checks)
    requires ChecksFit(adapter, c)
  {
    && adapter.Expo? && !c.chunkFailed
    && (TooLate(work, c.before) || (InTime(work, c.before) && c.eligibility.Eligible? && TooLate(work, c.after)))
  }

  /** What the last checks come to: a send, a refusal by its reason, an expiry, or, with no readable time, unknown. */
  lemma CheckIff(adapter: Adapter, work: Work, c: Checks, code: Code, disposition: Disposition)
    requires ChecksFit(adapter, c)
    ensures CheckFailure(adapter, work, c).None? <==> Passes(adapter, work, c)
    ensures CheckFailure(adapter, work, c) == Some(FailureOf(code, disposition)) <==>
              Refuses(adapter, work, c, code, disposition)
    ensures CheckFailure(adapter, work, c) ==
              Some(OutcomeOf(SendExpired, None, Some(ExpoCode(ExpoProtocol.NotificationExpired)), None)) <==>
              Expires(adapter, work, c)
    ensures var failure := CheckFailure(adapter, work, c);
            failure.Some? && failure.value.OutcomeOf? && !Expires(adapter, work, c) ==> Definite(failure.value).None?
  {
  }

  /** The refusal proves the verdict, and the provider was not reached. */
  ghost predicate CheckProves(adapter: Adapter, work: Work, c: Checks, v: Verdict)
    requires ChecksFit(adapter, c)
  {
    || (Expires(adapter, work, c)
        && v == Verdict(SendExpired, None, Some(ExpoCode(ExpoProtocol.NotificationExpired))))
    || (v.state.SendFailed? && v.reference.None? && v.reason.Some?
        && (|| Refuses(adapter, work, c, v.reason.value, TerminalDisposition)
            || Refuses(adapter, work, c, v.reason.value, SafeToRetry)))
  }

  lemma CheckDefiniteIff(adapter: Adapter, work: Work, c: Checks, v: Verdict)
    requires ChecksFit(adapter, c)
    ensures var failure := CheckFailure(adapter, work, c);
            failure.Some? && Definite(failure.value) == Some(v) <==> CheckProves(adapter, work, c, v)
  {
    hide CheckFailure, Refuses, Expires, Passes;
    CheckIff(adapter, work, c, v.reason.GetOr(OtherCode("")), TerminalDisposition);
    CheckIff(adapter, work, c, v.reason.GetOr(OtherCode("")), SafeToRetry);
  }

  // ----- the direct adapter before its claim -----

  /** In whole seconds, an hour after the batch was made. */
  predicate IsStale(work: Work, now: int) {
    work.createdAt.Some? && now / 1_000 - work.createdAt.value / 1_000 >= 3_600
  }

  /** What the preparation comes to, in its order: the clock, the expiry, the checks, what was prepared. */
  lemma PreparationTells(apns: bool, work: Work, p: Preparation)
    ensures PreparationAnswer(apns, work, p) ==
            var unknown :=
              Some(OutcomeOf(SendUnknown, None,
                             Some(DirectCode(if apns then ApnsResponseInvalid else FcmResponseInvalid)), None));
            if p.now.None? then unknown
            else if IsStale(work, p.now.value) then
              Some(OutcomeOf(SendExpired, None,
                             Some(DirectCode(if apns then ApnsNotificationExpired else FcmNotificationExpired)), None))
            else if !p.authorization.Passed? then Some(FailureOf(DirectLiveTransportDisabled, TerminalDisposition))
            else if p.eligibility == DirectSend.CheckThrew(true) then
              Some(FailureOf(DirectEligibilityUnavailable, SafeToRetry))
            else if !p.eligibility.Passed? then Some(FailureOf(DirectEligibilityBlocked, TerminalDisposition))
            else if p.prepared.ReadyToSend? then None
            else if p.prepared.PreparedOutcome? && IsCanonicalPush(p.prepared.outcome, apns) then
              Some(DirectSend.SendCompletion(Some(p.prepared.outcome), apns))
            else unknown
  {
    hide IsCanonicalPush;
    if p.prepared.PreparedOutcome? {
      ParsesIff(p.prepared.outcome, apns);
    }
  }
}
