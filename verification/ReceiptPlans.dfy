/**
 What a polled receipt leads to (`runDue`, workers/push/receipt-lifecycle.ts), told by the value the
 transport returned: every plan has its own answers, and every answer its one plan.
 */
module ReceiptPlans {
  import opened Wrappers
  import opened ExpoProtocol
  import opened PollSchedule
  import opened ReceiptClaims

  /** The slot holds exactly the record of this outcome. */
  predicate Reads(query: QueryResult, outcome: Outcome) { query == Slot(Some(ToRaw(outcome))) }

  const FAILURE_REASONS := {DeviceNotRegistered, InvalidCredentials, MessageTooBig, MismatchSenderId}

  const UNKNOWN_REASONS := {NetworkOutcomeAmbiguous, ReceiptErrorUnknown, ReceiptMissing, ReceiptResponseInvalid}

  /** The receipt of an undelivered push: its reason, and the endpoint's end exactly for an unregistered device. */
  function FailedReceipt(receiptId: string, reason: Reason): Outcome {
    Failed(FailedState, Some(receiptId), reason, reason == DeviceNotRegistered)
  }

  /** The records that mean something as the receipt of this ID; any other value is an invalid response. */
  ghost predicate IsReceipt(query: QueryResult, receiptId: string) {
    && IsSafeReference(receiptId)
    && (|| Reads(query, Accepted(receiptId))
        || Reads(query, Retry(Some(receiptId), MessageRateExceeded))
        || (exists r :: r in FAILURE_REASONS && Reads(query, FailedReceipt(receiptId, r)))
        || (exists r :: r in UNKNOWN_REASONS && Reads(query, Unknown(Some(receiptId), r))))
  }

  lemma ReasonsOfReceipts(r: Reason)
    ensures IsReasonForPhase(r, Some(Receipt)) && CanonicalKind(r) == Some(FailedKind) <==> r in FAILURE_REASONS
    ensures IsReasonForPhase(r, Some(Receipt)) && CanonicalKind(r) == Some(UnknownKind) <==> r in UNKNOWN_REASONS
    ensures IsReasonForPhase(r, Some(Receipt)) && CanonicalKind(r) == Some(RetryKind) <==> r == MessageRateExceeded
  {
  }

  lemma RecordIsReceipt(o: Outcome, receiptId: string)
    requires IsCanonical(o, Some(Receipt)) && o.ProviderReference() == Some(receiptId)
    ensures IsReceipt(Slot(Some(ToRaw(o))), receiptId)
  {
    match o
    case Accepted(_) =>
    case Failed(_, _, r, _) =>
      ReasonsOfReceipts(r);
      assert o == FailedReceipt(receiptId, r);
    case Retry(_, r) => ReasonsOfReceipts(r);
    case Unknown(_, r) => ReasonsOfReceipts(r);
  }

  lemma ReceiptIsRecord(raw: RawOutcome, receiptId: string) returns (o: Outcome)
    requires IsReceipt(Slot(Some(raw)), receiptId)
    ensures raw == ToRaw(o) && IsCanonical(o, Some(Receipt)) && o.ProviderReference() == Some(receiptId)
  {
    hide IsSafeReference, IsReasonForPhase, CanonicalKind;
    ReasonsOfReceipts(MessageRateExceeded);
    var query := Slot(Some(raw));
    if Reads(query, Accepted(receiptId)) {
      o := Accepted(receiptId);
    } else if Reads(query, Retry(Some(receiptId), MessageRateExceeded)) {
      o := Retry(Some(receiptId), MessageRateExceeded);
    } else if r :| r in FAILURE_REASONS && Reads(query, FailedReceipt(receiptId, r)) {
      ReasonsOfReceipts(r);
      o := FailedReceipt(receiptId, r);
    } else {
      var r :| r in UNKNOWN_REASONS && Reads(query, Unknown(Some(receiptId), r));
      ReasonsOfReceipts(r);
      o := Unknown(Some(receiptId), r);
    }
  }

  /** A slot is taken for the receipt it records of this ID, and for an invalid response otherwise. */
  lemma SlotTells(raw: Option<RawOutcome>, receiptId: string)
    ensures var o := SlotOutcome(raw, receiptId);
            if IsReceipt(Slot(raw), receiptId) then raw == Some(ToRaw(o)) && o.ProviderReference() == Some(receiptId)
            else o == Unknown(Some(receiptId), ReceiptResponseInvalid)
    ensures IsReceipt(Slot(raw), receiptId) ==> IsCanonical(SlotOutcome(raw, receiptId), Some(Receipt))
  {
    hide ParseOutcome, IsCanonical, IsReceipt, ToRaw;
    if raw.None? {
      NoRecord(receiptId);
    } else {
      var parsed := ParseOutcome(raw.value, Some(Receipt));
      if IsReceipt(Slot(raw), receiptId) {
        var o := ReceiptIsRecord(raw.value, receiptId);
        assert parsed == Some(o);
      } else if parsed.Some? && parsed.value.ProviderReference() == Some(receiptId) {
        RecordIsReceipt(parsed.value, receiptId);
      }
    }
  }

  lemma NoRecord(receiptId: string)
    ensures !IsReceipt(Slot(None), receiptId)
  {
  }

  lemma PlanTells(cfg: Config, claim: Claim, raw: Option<RawOutcome>, now: int, random: Random)
    ensures var o, plan := SlotOutcome(raw, claim.target.receiptId), PlanFor(cfg, claim, Slot(raw), now, random);
            match o
            case Accepted(_) => plan == Some(PlanComplete)
            case Failed(_, _, r, inv) => r in FAILURE_REASONS && plan == Some(PlanStage(TerminalFailure(r, inv)))
            case Unknown(_, r) => r in UNKNOWN_REASONS && plan == Some(PlanReschedule(r))
            case Retry(_, r) => r == MessageRateExceeded && plan == PlanForRateLimit(cfg, claim, now, random)
  {
    var o := SlotOutcome(raw, claim.target.receiptId);
    SlotTells(raw, claim.target.receiptId);
    if o.Failed? {
      ReasonsOfReceipts(o.failedReason);
    }
  }

  /** The plans of a rate-limited push, by the delay drawn. */
  lemma RateLimitTells(cfg: Config, claim: Claim, now: int, random: Random)
    ensures var plan, t := PlanForRateLimit(cfg, claim, now, random), claim.target;
            var delay := RetryDelay(t.attemptNumber, random);
            && (plan.None? <==> delay.None?)
            && (delay.Some? && now + delay.value >= t.expiresAt <==> plan == Some(PlanStage(TerminalExpiry)))
            && (delay.Some? && now + delay.value < t.expiresAt && t.attemptNumber >= cfg.maxSendAttempts <==>
                  plan == Some(PlanStage(TerminalFailure(RetryExhausted, false))))
            && (delay.Some? && now + delay.value < t.expiresAt && t.attemptNumber < cfg.maxSendAttempts ==>
                  plan == Some(PlanStage(Resend(t.attemptNumber + 1, delay.value, now + delay.value, t.expiresAt))))
  {
  }

  // ----- every plan has its own answers -----

  /** The provider took the push and only asked to send it again later. */
  predicate IsRateLimit(query: QueryResult, receiptId: string) {
    IsSafeReference(receiptId) && Reads(query, Retry(Some(receiptId), MessageRateExceeded))
  }

  /** A receipt is complete exactly on the canonical accepted record of the claim's own receipt. */
  lemma CompletesIff(cfg: Config, claim: Claim, query: QueryResult, now: int, random: Random)
    ensures PlanFor(cfg, claim, query, now, random) == Some(PlanComplete) <==>
              IsSafeReference(claim.target.receiptId) && Reads(query, Accepted(claim.target.receiptId))
  {
    hide SlotOutcome, PlanForOutcome;
    if query.Slot? {
      SlotTells(query.raw, claim.target.receiptId);
      PlanTells(cfg, claim, query.raw, now, random);
      RateLimitTells(cfg, claim, now, random);
    }
  }

  /** What the receipt of this claim is, by the outcome read from the slot. */
  lemma SlotIff(raw: Option<RawOutcome>, receiptId: string, r: Reason, inv: bool)
    ensures var o, query := SlotOutcome(raw, receiptId), Slot(raw);
            && (o.Accepted? <==> IsSafeReference(receiptId) && Reads(query, Accepted(receiptId)))
            && (o.Retry? <==> IsRateLimit(query, receiptId))
            && (o.Failed? && o.failedReason == r && o.invalidates == inv <==>
                  && IsSafeReference(receiptId) && r in FAILURE_REASONS && inv == (r == DeviceNotRegistered)
                  && Reads(query, FailedReceipt(receiptId, r)))
            && (o.Unknown? && o.unknownReason == r <==>
                  || (IsSafeReference(receiptId) && r in UNKNOWN_REASONS && Reads(query, Unknown(Some(receiptId), r)))
                  || (!IsReceipt(query, receiptId) && r == ReceiptResponseInvalid))
  {
    hide SlotOutcome;
    var o := SlotOutcome(raw, receiptId);
    SlotTells(raw, receiptId);
    if o.Failed? {
      ReasonsOfReceipts(o.failedReason);
    } else if o.Unknown? {
      ReasonsOfReceipts(o.unknownReason);
    } else if o.Retry? {
      ReasonsOfReceipts(o.retryReason);
    }
  }

  /** A push is sent again exactly if it was rate-limited, attempts are left and the delay ends before its expiry. */
  lemma ResendsIff(cfg: Config, claim: Claim, query: QueryResult, now: int, random: Random, x: Action)
    requires x.Resend?
    ensures var t := claim.target;
            PlanFor(cfg, claim, query, now, random) == Some(PlanStage(x)) <==>
              && IsRateLimit(query, t.receiptId) && RetryDelay(t.attemptNumber, random) == Some(x.delay)
              && t.attemptNumber < cfg.maxSendAttempts && now + x.delay < t.expiresAt
              && x == Resend(t.attemptNumber + 1, x.delay, now + x.delay, t.expiresAt)
  {
    hide SlotOutcome, PlanForOutcome, IsReceipt, IsRateLimit, Reads;
    if query.Slot? {
      SlotIff(query.raw, claim.target.receiptId, MessageRateExceeded, false);
      PlanTells(cfg, claim, query.raw, now, random);
      RateLimitTells(cfg, claim, now, random);
    } else {
      CallIsNoReceipt(query, claim.target.receiptId);
    }
  }

  /** What ends a push for good: an expiry, exhausted attempts, or the failure its own receipt names. */
  lemma EndsIff(cfg: Config, claim: Claim, query: QueryResult, now: int, random: Random, r: Reason, inv: bool)
    ensures var plan, t := PlanFor(cfg, claim, query, now, random), claim.target;
            var delay := RetryDelay(t.attemptNumber, random);
            && (plan == Some(PlanStage(TerminalExpiry)) <==>
                  IsRateLimit(query, t.receiptId) && delay.Some? && now + delay.value >= t.expiresAt)
            && (plan == Some(PlanStage(TerminalFailure(RetryExhausted, false))) <==>
                  && IsRateLimit(query, t.receiptId) && delay.Some? && now + delay.value < t.expiresAt
                  && t.attemptNumber >= cfg.maxSendAttempts)
            && (r != RetryExhausted ==>
                  (plan == Some(PlanStage(TerminalFailure(r, inv))) <==>
                     && IsSafeReference(t.receiptId) && r in FAILURE_REASONS && inv == (r == DeviceNotRegistered)
                     && Reads(query, FailedReceipt(t.receiptId, r))))
            && (plan.None? <==> IsRateLimit(query, t.receiptId) && delay.None?)
  {
    hide SlotOutcome, PlanForOutcome, IsReceipt, IsRateLimit, Reads;
    if query.Slot? {
      SlotIff(query.raw, claim.target.receiptId, r, inv);
      PlanTells(cfg, claim, query.raw, now, random);
      RateLimitTells(cfg, claim, now, random);
    } else {
      CallIsNoReceipt(query, claim.target.receiptId);
    }
  }

  lemma CallIsNoReceipt(query: QueryResult, receiptId: string)
    requires query.CallFailed?
    ensures !IsRateLimit(query, receiptId) && forall o :: !Reads(query, o)
  {
  }

  const RESCHEDULE_REASONS :=
    {HttpClientError, HttpRateLimited, HttpServerError, InvalidCredentials, LiveTransportDisabled,
     NetworkOutcomeAmbiguous, ReceiptErrorUnknown, ReceiptMissing, ReceiptResponseInvalid, ResponseTooLarge}

  /** Why a call of the transport that threw is polled again: its own code if that is one, or how it failed. */
  predicate IsReasonOfCall(query: QueryResult, r: Reason) {
    && query.CallFailed?
    && if query.code.Some? && query.code.value in RESCHEDULE_REASONS then query.code == Some(r)
       else r == if query.ambiguous then NetworkOutcomeAmbiguous else ReceiptErrorUnknown
  }

  /** A failed call, an undecided record of this receipt, or no record of it at all. */
  ghost predicate IsUndecided(query: QueryResult, receiptId: string, r: Reason) {
    || IsReasonOfCall(query, r)
    || (IsSafeReference(receiptId) && r in UNKNOWN_REASONS && Reads(query, Unknown(Some(receiptId), r)))
    || (query.Slot? && !IsReceipt(query, receiptId) && r == ReceiptResponseInvalid)
  }

  /** A receipt is polled again exactly for such an answer, and for its reason. */
  lemma ReschedulesIff(cfg: Config, claim: Claim, query: QueryResult, now: int, random: Random, r: Reason)
    ensures PlanFor(cfg, claim, query, now, random) == Some(PlanReschedule(r)) <==>
              IsUndecided(query, claim.target.receiptId, r)
  {
    hide SlotOutcome, PlanForOutcome, IsReceipt, IsRateLimit, Reads;
    if query.Slot? {
      SlotIff(query.raw, claim.target.receiptId, r, false);
      PlanTells(cfg, claim, query.raw, now, random);
      RateLimitTells(cfg, claim, now, random);
    } else {
      CallIsNoReceipt(query, claim.target.receiptId);
    }
  }
}
