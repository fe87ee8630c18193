/**
 Which ledger records each adapter trusts (workers/push/adapter.ts, workers/push/direct-adapter.ts,
 workers/email/ses-adapter.ts): exactly those it could have written, whatever else is stored.
 */
module SendRecords {
  import opened Wrappers
  import opened SendOutcomes
  import opened SendProtocol
  import opened SendVerdicts
  import ExpoProtocol
  import ExpoSend
  import DirectSend

  /** The record is this outcome of the provider, with no proof and no digest. */
  predicate Records(stored: Stored, c: Completion, provider: Provider)
    requires c.OutcomeOf?
  {
    && stored.StoredOutcome? && stored.provider == provider && !stored.proof && !stored.digest
    && stored.state == c.state && stored.reference == c.reference && stored.reason == c.reason
  }

  predicate IsExpoOutcome(c: Completion)
    requires c.OutcomeOf?
  {
    && c.occurredAt.None?
    && match c.state
       case ProviderAccepted =>
         c.reference.Some? && ExpoProtocol.IsSafeReference(c.reference.value) && c.reason.None?
       case SendExpired => c.reference.None? && c.reason == Some(ExpoCode(ExpoProtocol.NotificationExpired))
       case SendFailed =>
         && c.reference.None? && c.reason.Some? && c.reason.value.ExpoCode?
         && c.reason.value.reason in EXPO_FAILURES
       case SendUnknown =>
         && c.reference.None? && c.reason.Some?
         && (|| c.reason.value == ExpoSendOutcomeAmbiguous
             || (&& c.reason.value.ExpoCode?
                 && c.reason.value.reason in {ExpoProtocol.TicketErrorUnknown, ExpoProtocol.TicketMissing,
                                              ExpoProtocol.TicketResponseInvalid}))
  }

  /** The Expo adapter trusts the records of its own outcomes and failures, and no other. */
  lemma ExpoTrustsIff(stored: Stored, c: Completion)
    ensures ExpoSend.ParseCompletion(stored) == Some(c) <==>
              match c
              case OutcomeOf(_, _, _, _) => Records(stored, c, ExpoPush) && IsExpoOutcome(c)
              case FailureOf(code, disposition) =>
                stored == StoredFailure(code, disposition, false) && IsExpoFailure(code, disposition)
  {
    if c.FailureOf? {
      ExpoFailuresAre(c.code, c.disposition);
    }
  }

  predicate IsDirectOutcome(c: Completion, apns: bool)
    requires c.OutcomeOf?
  {
    match c.state
    case ProviderAccepted => c.reference.Some? && c.reason.None?
    case SendExpired =>
      && c.reference.None?
      && c.reason == Some(DirectCode(if apns then ApnsNotificationExpired else FcmNotificationExpired))
    case SendFailed =>
      && c.reason.Some? && c.reason.value.DirectCode?
      && c.reason.value.direct in TerminalReasons(apns) + InvalidatingReasons(apns)
    case SendUnknown =>
      c.reason.Some? && c.reason.value.DirectCode? && c.reason.value.direct in UnknownReasons(apns)
  }

  /** The failures of the direct adapters, by what they say about a repetition. */
  predicate IsDirectFailure(code: Code, disposition: Disposition) {
    match disposition
    case TerminalDisposition => code in {DirectEligibilityBlocked, DirectLiveTransportDisabled}
    case SafeToRetry =>
      || code == DirectEligibilityUnavailable
      || (code.DirectCode? && code.direct in RetryableReasons(true) + RetryableReasons(false))
    case Ambiguous => code == DirectLedgerFailed
  }

  /** So do the direct adapters; the time a device unregistered is kept as it was stored. */
  lemma DirectTrustsIff(stored: Stored, apns: bool, c: Completion)
    ensures DirectSend.ParseCompletion(stored, apns) == Some(c) <==>
              match c
              case OutcomeOf(_, _, _, _) =>
                Records(stored, c, if apns then ApnsDirect else FcmDirect) && IsDirectOutcome(c, apns)
                && stored.occurredAt == c.occurredAt
              case FailureOf(code, disposition) =>
                stored == StoredFailure(code, disposition, false) && IsDirectFailure(code, disposition)
  {
  }

  /** The SES adapter trusts the outcomes of SES that did not expire, proof and digest included. */
  lemma SesTrustsIff(stored: Stored, c: Completion)
    ensures SesReadBack(stored) == Some(c) <==>
              && c.OutcomeOf? && !c.state.SendExpired? && stored.StoredOutcome?
              && stored == StoredOutcome(c.state, SesV2, c.reference, c.reason, stored.proof, stored.digest,
                                         c.occurredAt)
  {
  }
}
