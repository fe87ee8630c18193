/**
 The values of the Expo receipt lifecycle (workers/push/receipt-lifecycle.ts): targets, pending
 actions, claims and durable decisions, the claim parser, and the pure choice of what to do with a
 polled outcome.
 */
module ReceiptClaims {
  import opened Wrappers
  import opened ExpoProtocol
  import opened PollSchedule

  const MAX_LEASE_CLOCK_SKEW := 30_000

  type AttemptId = string
  type Token = nat
  /** The attempt schema numbers send attempts from one. */
  type Positive = n: int | 1 <= n witness 1

  /** What every runner of one deployment shares. */
  datatype Config = Config(provider: string, leaseMilliseconds: int, maxSendAttempts: int) {
    predicate Valid() { 1_000 <= leaseMilliseconds <= 15 * 60_000 && 1 <= maxSendAttempts <= 10 }
  }

  datatype Target = Target(
    attemptId: AttemptId, attemptNumber: Positive, fingerprint: string, receiptId: string,
    provider: string, recordedAt: int, batchCreatedAt: int, expiresAt: int)
  {
    function FirstPollAt(): int { recordedAt + INITIAL_DELAY }
    function HorizonAt(): int { recordedAt + HORIZON }
  }

  datatype ReferenceState = Unique | Conflict

  datatype Action =
    | TerminalFailure(reason: Reason, invalidatesEndpoint: bool)
    | TerminalExpiry
    | TerminalUnknown(unknownReason: Reason)
    | Resend(nextAttemptNumber: int, delay: int, retryAt: int, expiresAt: int)

  const CONFLICT_ACTION := TerminalUnknown(ReceiptReferenceConflict)

  datatype TerminalState = FailedEnd | ExpiredEnd | UnknownEnd

  /** `decidedAt` is audit data and is not modelled. */
  datatype Decision =
    | Stage(action: Action)
    | Reschedule(nextPollAt: int, nextPollAttemptNumber: int, reason: Reason)
    | Complete
    | ResendScheduled(nextAttemptNumber: int, delay: int, retryAt: int, expiresAt: int)
    | TerminalDlq(state: TerminalState, dlqReason: Reason)

  datatype Claim = Claim(
    target: Target, dueAt: int, horizonAt: int, pollAttemptNumber: int, lastReason: Option<Reason>,
    referenceState: ReferenceState, pendingAction: Option<Action>, leaseToken: Token, leaseExpiresAt: int)

  predicate IsRescheduleReason(r: Reason) {
    r in {HttpClientError, HttpRateLimited, HttpServerError, InvalidCredentials, LiveTransportDisabled,
          NetworkOutcomeAmbiguous, ReceiptErrorUnknown, ReceiptMissing, ReceiptResponseInvalid, ResponseTooLarge}
  }

  predicate IsDefiniteFailureReason(r: Reason) {
    r in {DeviceNotRegistered, MessageTooBig, MismatchSenderId, InvalidCredentials, RetryExhausted}
  }

  predicate IsTerminalUnknownReason(r: Reason) {
    IsRescheduleReason(r) || r == ReceiptHorizonExpired || r == ReceiptReferenceConflict
  }

  /** `parsePendingAction`: an action that does not satisfy it makes the parser throw. */
  predicate ActionIsValid(action: Action, sourceAttemptNumber: int, maxSendAttempts: int, expectedExpiresAt: int) {
    match action
    case TerminalFailure(r, invalidates) => IsDefiniteFailureReason(r) && invalidates == r.DeviceNotRegistered?
    case TerminalExpiry => true
    case TerminalUnknown(r) => IsTerminalUnknownReason(r)
    case Resend(next, delay, retryAt, expiresAt) =>
      && next == sourceAttemptNumber + 1 && next <= maxSendAttempts
      && 1 <= delay <= MAX_DELAY
      && expiresAt == expectedExpiresAt && retryAt < expectedExpiresAt
  }

  /** `createPersistedExpoReceiptTarget` and `parsePersistedExpoReceiptTarget`, without the hash. */
  predicate TargetIsConsistent(cfg: Config, target: Target) {
    && IsSafeReference(target.receiptId)
    && target.provider == cfg.provider
    && target.expiresAt == target.batchCreatedAt + EXPO_EMERGENCY_TTL_MILLISECONDS
  }

  function HorizonReason(lastReason: Option<Reason>): Reason { lastReason.GetOr(ReceiptHorizonExpired) }

  predicate TerminalUnknownIsConsistent(claim: Claim, now: int) {
    match claim.pendingAction
    case Some(TerminalUnknown(r)) =>
      if r.ReceiptReferenceConflict? then claim.referenceState.Conflict?
      else claim.referenceState.Unique? && now >= claim.horizonAt && r == HorizonReason(claim.lastReason)
    case _ => true
  }

  /** `parseClaim`: a claim that does not satisfy it is left for its lease to run out. */
  predicate ClaimIsValid(cfg: Config, claim: Claim, now: int) {
    && TargetIsConsistent(cfg, claim.target)
    && (claim.pendingAction.Some? ==>
          ActionIsValid(claim.pendingAction.value, claim.target.attemptNumber, cfg.maxSendAttempts,
            claim.target.expiresAt))
    && claim.horizonAt == claim.target.HorizonAt()
    && claim.target.FirstPollAt() <= claim.dueAt <= claim.horizonAt
    && claim.dueAt <= now
    && 1 <= claim.pollAttemptNumber <= 10_000
    && (claim.pollAttemptNumber == 1 ==> claim.dueAt == claim.target.FirstPollAt())
    && (claim.pollAttemptNumber == 1 <==> claim.lastReason.None?)
    && (claim.lastReason.Some? ==> IsRescheduleReason(claim.lastReason.value))
    && TerminalUnknownIsConsistent(claim, now)
    && (claim.referenceState.Conflict? && claim.pendingAction.Some? ==> claim.pendingAction == Some(CONFLICT_ACTION))
    && 0 < claim.leaseExpiresAt - now <= cfg.leaseMilliseconds + MAX_LEASE_CLOCK_SKEW
  }

  /** What one position of the receipt query came to: the whole call, or this slot of its result. */
  datatype QueryResult =
    | CallFailed(code: Option<Reason>, ambiguous: bool)
    | Slot(raw: Option<RawOutcome>)

  /** `None` is a thrown error, after which nothing is decided. */
  datatype Plan =
    | PlanComplete
    | PlanReschedule(reason: Reason)
    | PlanStage(action: Action)
    | PlanUnstagedTerminal(outcome: Outcome)

  function BoundedFailureCode(code: Option<Reason>, ambiguous: bool): Reason {
    if code.Some? && IsRescheduleReason(code.value) then code.value
    else if ambiguous then NetworkOutcomeAmbiguous
    else ReceiptErrorUnknown
  }

  function SlotOutcome(raw: Option<RawOutcome>, receiptId: string): Outcome {
    var parsed := if raw.Some? then ParseOutcome(raw.value, Some(Receipt)) else None;
    if parsed.Some? && parsed.value.ProviderReference() == Some(receiptId) then parsed.value
    else Unknown(Some(receiptId), ReceiptResponseInvalid)
  }

  function PlanForRateLimit(cfg: Config, claim: Claim, now: int, random: Random): Option<Plan>
  {
    var delay := RetryDelay(claim.target.attemptNumber, random);
    if delay.None? then None
    else
      var retryAt := now + delay.value;
      if claim.target.attemptNumber < cfg.maxSendAttempts && retryAt < claim.target.expiresAt then
        Some(PlanStage(Resend(claim.target.attemptNumber + 1, delay.value, retryAt, claim.target.expiresAt)))
      else if retryAt >= claim.target.expiresAt then Some(PlanStage(TerminalExpiry))
      else Some(PlanStage(TerminalFailure(RetryExhausted, false)))
  }

  function PlanForOutcome(cfg: Config, claim: Claim, outcome: Outcome, now: int, random: Random): Option<Plan>
  {
    if outcome.Accepted? then Some(PlanComplete)
    else if outcome.Retry? && outcome.retryReason.MessageRateExceeded? then PlanForRateLimit(cfg, claim, now, random)
    else if outcome.Unknown? &&
            outcome.unknownReason in {ReceiptMissing, ReceiptResponseInvalid, ReceiptErrorUnknown,
              NetworkOutcomeAmbiguous}
    then Some(PlanReschedule(outcome.unknownReason))
    else if outcome.Retry? then Some(PlanReschedule(ReceiptResponseInvalid))
    else if outcome.Failed? && IsDefiniteFailureReason(outcome.failedReason) then
      Some(PlanStage(TerminalFailure(outcome.failedReason, outcome.invalidates)))
    else if outcome.Failed? then Some(PlanReschedule(ReceiptResponseInvalid))
    else Some(PlanUnstagedTerminal(outcome))
  }

  function PlanFor(cfg: Config, claim: Claim, query: QueryResult, now: int, random: Random): Option<Plan>
  {
    match query
    case CallFailed(code, ambiguous) => Some(PlanReschedule(BoundedFailureCode(code, ambiguous)))
    case Slot(raw) => PlanForOutcome(cfg, claim, SlotOutcome(raw, claim.target.receiptId), now, random)
  }

  /**
   Whatever the receipt transport returns, a poll completes, reschedules with an allowed reason, or
   stages an action that the pending-action parser accepts; it never ends an attempt unstaged.
   */
  lemma PollNeverEndsUnstaged(cfg: Config, claim: Claim, query: QueryResult, now: int, random: Random)
    ensures match PlanFor(cfg, claim, query, now, random)
            case None => query.Slot?
            case Some(PlanComplete) => query.Slot? && query.raw == Some(ToRaw(Accepted(claim.target.receiptId)))
            case Some(PlanReschedule(r)) => IsRescheduleReason(r)
            case Some(PlanStage(a)) =>
              && query.Slot? && !a.TerminalUnknown?
              && ActionIsValid(a, claim.target.attemptNumber, cfg.maxSendAttempts, claim.target.expiresAt)
            case Some(PlanUnstagedTerminal(_)) => false
  {
    if query.Slot? && query.raw.Some? {
      var parsed := ParseOutcome(query.raw.value, Some(Receipt));
      if parsed.Some? {
        assert IsCanonical(parsed.value, Some(Receipt));
      }
    }
  }

  function NextPollAt(claim: Claim, now: int, delay: int): int { Min(claim.horizonAt, now + delay) }
}
