/** What a send adapter concludes about an attempt, in the terms the three send ledgers share. */
module SendOutcomes {
  import opened Wrappers
  import opened ExpoProtocol

  datatype DirectReason =
    | ApnsAuthenticationFailed | ApnsBadDeviceToken | ApnsEndpointIneligible | ApnsLiveTransportDisabled
    | ApnsNetworkOutcomeAmbiguous | ApnsNotificationExpired | ApnsPayloadRejected | ApnsResponseInvalid
    | ApnsServerError | ApnsThrottled | ApnsTopicRejected | ApnsUnregistered
    | FcmAuthenticationFailed | FcmAuthenticationUnavailable | FcmEndpointIneligible | FcmInvalidArgument
    | FcmLiveTransportDisabled | FcmNetworkOutcomeAmbiguous | FcmNotificationExpired | FcmPayloadInvalid
    | FcmResponseInvalid | FcmServerError | FcmThrottled | FcmUnregistered

  /** Every reason and failure code the three adapters name; any other text is `OtherCode`. */
  datatype Code =
    | ExpoCode(reason: Reason)
    | ExpoSendOutcomeAmbiguous
    | ExpoEligibilityBlocked
    | ExpoEligibilityUnavailable
    | ExpoEndpointIneligible
    | ProviderOutcomeAmbiguous
    | DirectCode(direct: DirectReason)
    | DirectEligibilityBlocked
    | DirectEligibilityUnavailable
    | DirectLedgerFailed
    | DirectLiveTransportDisabled
    | SesAlreadyClaimed
    | SesResponseInvalid
    | SesOutcomeUnknown
    | OtherCode(text: string)

  datatype Disposition = TerminalDisposition | SafeToRetry | Ambiguous

  datatype SendState = ProviderAccepted | SendFailed | SendExpired | SendUnknown

  /** A text field that should hold a time; `Date.parse` is finite exactly on the first. */
  datatype Timestamp = IsoTime(milliseconds: nat) | OtherText(text: string)

  datatype Completion =
    | OutcomeOf(state: SendState, reference: Option<string>, reason: Option<Code>, occurredAt: Option<Timestamp>)
    | FailureOf(code: Code, disposition: Disposition)

  /** The record as the ledger hands it back, before it is trusted. */
  datatype Stored =
    | NotACompletion
    | StoredOutcome(state: SendState, provider: Provider, reference: Option<string>, reason: Option<Code>,
                    proof: bool, digest: bool, occurredAt: Option<Timestamp>)
    | StoredFailure(code: Code, disposition: Disposition, failureDigest: bool)

  datatype Provider = ExpoPush | ApnsDirect | FcmDirect | SesV2 | OtherProvider

  /** How a provider client's thrown value normalises: a code, a disposition, perhaps a digest. */
  datatype Thrown = Thrown(code: Code, disposition: Disposition, digest: bool)

  /** What an adapter writes: proof and digest are null, the provider is its own. */
  function Write(c: Completion, provider: Provider): Stored {
    match c
    case OutcomeOf(state, reference, reason, occurredAt) =>
      StoredOutcome(state, provider, reference, reason, false, false, occurredAt)
    case FailureOf(code, disposition) => StoredFailure(code, disposition, false)
  }
}
