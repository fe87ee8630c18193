/**
 The three ledgered send adapters as step relations over one ledger: workers/push/adapter.ts,
 workers/push/direct-adapter.ts and workers/email/ses-adapter.ts. Any number of calls of `send` run
 for any attempts, redelivered or new. Every `await` is a boundary between two steps; a ledger
 request may take effect late, more than once or never, its reply may be lost, and a call may crash
 anywhere. A deployment has one adapter in front of one ledger.

 A claim token is the identity of the call it was granted to. What the environment answers, a clock,
 an eligibility check, the provider, is a parameter of the step.
 */
module SendProtocol {
  import opened Wrappers
  import opened SendOutcomes
  import opened PermitLedger
  import ExpoProtocol
  import ExpoSend
  import DirectSend

  datatype Adapter = Expo | Direct(apns: bool) | Ses

  /** `createdAt` is the parsed creation time of the batch; `None` is a time that does not parse. */
  datatype Work = Work(attemptId: AttemptId, fingerprint: string, createdAt: Option<int>)

  datatype Entry = Entry(fingerprint: string, holder: CallId, completion: Option<Stored>)

  datatype ClaimReply = Execute | Completed(record: Stored) | Uncertain | Conflict | Denied

  datatype Pc = Preparing | AwaitClaim | Permitted | AwaitProvider | AwaitComplete | Ended

  /** `written` is what the call asks the ledger to record, `told` what it answers once that is done. */
  datatype Call = Call(work: Work, pc: Pc, written: Option<Completion>, told: Option<Completion>)

  /**
   Where an answer comes from: the direct adapter's checks before the claim, a claim that threw or was
   turned down, someone else's unfinished claim, the call's own provider send, or the ledger's record.
   */
  datatype Origin = BeforeClaim | ClaimThrew | TurnedDown | Pending | Sent | Replayed

  datatype Report = Report(attemptId: AttemptId, call: CallId, origin: Origin, completion: Completion)

  datatype State = State(
    ledger: map<AttemptId, Entry>,
    calls: map<CallId, Call>,
    claims: set<CallId>,                     // every call that ever asked for a claim
    replies: set<(CallId, ClaimReply)>,      // every answer the ledger ever gave to a claim
    completes: set<CallId>,                  // every call that ever asked to record a completion
    crossings: seq<Crossing>,                // the provider sends, in order
    answers: set<(AttemptId, CallId, Answer)>,
    reports: set<Report>)

  const INITIAL := State(map[], map[], {}, {}, {}, [], {}, {})

  // ----- what the environment answers -----

  datatype Prepared = ReadyToSend | PreparedOutcome(outcome: DirectSend.DirectOutcome) | MalformedPreparation

  datatype Preparation = Preparation(
    now: Option<int>, authorization: DirectSend.Check, eligibility: DirectSend.Check, prepared: Prepared)

  /** `chunkFailed` is a clock that throws for the whole Expo chunk the call is in. */
  datatype Checks =
    | ExpoChecks(chunkFailed: bool, before: ExpoSend.Clock, eligibility: ExpoSend.Eligibility, after: ExpoSend.Clock)
    | DirectChecks(authorization: DirectSend.Check, eligibilityCheck: DirectSend.Check)
    | NoChecks

  datatype SesResult =
    | Response(messageId: Option<string>)
    | DispatchError(code: Code, disposition: Disposition)
    | OtherError

  datatype Answer =
    | ExpoAnswer(result: ExpoSend.TransportResult)
    | DirectAnswer(outcome: Option<DirectSend.DirectOutcome>)
    | SesAnswer(ses: SesResult)

  datatype Step =
    | Begin(call: CallId, work: Work)
    | Prepare(call: CallId, preparation: Preparation)
    | CommitClaim(call: CallId, denied: bool)
    | ClaimAnswered(call: CallId, reply: ClaimReply)
    | ClaimThrows(call: CallId)
    | Check(call: CallId, checks: Checks)
    | ProviderAnswers(call: CallId, answer: Answer)
    | CommitComplete(call: CallId)
    | CompleteAcknowledged(call: CallId)
    | CompleteThrows(call: CallId)
    | Recover(call: CallId, work: Work)
    | Crash(call: CallId)

  // ----- what each adapter says -----

  function ProviderOf(adapter: Adapter): Provider {
    match adapter
    case Expo => ExpoPush
    case Direct(apns) => DirectSend.ProviderOf(apns)
    case Ses => SesV2
  }

  /** The outcome for an attempt whose claim is held but not completed. */
  function UnknownFor(adapter: Adapter): Completion {
    match adapter
    case Expo => ExpoSend.UNKNOWN_SEND_OUTCOME
    case Direct(apns) => DirectSend.UnknownCompletion(apns)
    case Ses => OutcomeOf(SendUnknown, None, Some(SesAlreadyClaimed), None)
  }

  function ClaimFailure(adapter: Adapter): Completion {
    match adapter
    case Expo => FailureOf(OtherCode("EXPO_SEND_LEDGER_FAILED"), Ambiguous)
    case Direct(_) => FailureOf(DirectLedgerFailed, Ambiguous)
    case Ses => FailureOf(OtherCode("SES_SEND_LEDGER_UNAVAILABLE"), SafeToRetry)
  }

  function ConflictFailure(adapter: Adapter): Completion {
    match adapter
    case Expo => FailureOf(OtherCode("EXPO_SEND_LEDGER_CONFLICT"), TerminalDisposition)
    case Direct(_) => FailureOf(DirectLedgerFailed, Ambiguous)
    case Ses => FailureOf(OtherCode("SES_SEND_LEDGER_CONFLICT"), TerminalDisposition)
  }

  const SES_DENIED := FailureOf(OtherCode("SES_SEND_POLICY_DENIED"), TerminalDisposition)

  /** `parseStoredOutcome` of the SES adapter. */
  function SesReadBack(stored: Stored): Option<Completion> {
    if stored.StoredOutcome? && stored.provider.SesV2? && !stored.state.SendExpired?
    then Some(OutcomeOf(stored.state, stored.reference, stored.reason, stored.occurredAt))
    else None
  }

  function ReadBack(adapter: Adapter, stored: Stored): Option<Completion> {
    match adapter
    case Expo => ExpoSend.ParseCompletion(stored)
    case Direct(apns) => DirectSend.ParseCompletion(stored, apns)
    case Ses => SesReadBack(stored)
  }

  function UnreadableRecord(adapter: Adapter): Completion {
    match adapter
    case Expo => FailureOf(OtherCode("EXPO_SEND_LEDGER_INVALID"), Ambiguous)
    case Direct(_) => FailureOf(DirectLedgerFailed, Ambiguous)
    case Ses => FailureOf(OtherCode("INVALID_LEDGER_CLAIM"), Ambiguous)
  }

  /** What `send` and `recover` answer from a completed record. */
  function Replay(adapter: Adapter, stored: Stored): Completion {
    ReadBack(adapter, stored).GetOr(UnreadableRecord(adapter))
  }

  /** `#prepare` of the direct adapter; `None` goes on to the claim. */
  function PreparationAnswer(apns: bool, work: Work, p: Preparation): Option<Completion> {
    var invalid := DirectSend.UnknownPush(DirectSend.InvalidReason(apns), None);
    if p.now.None? then Some(DirectSend.CompletionFromDirect(invalid))
    else if work.createdAt.Some? && DirectExpiration(work.createdAt.value) <= p.now.value / 1_000 then
      Some(DirectSend.CompletionFromDirect(DirectSend.ExpiredPush(apns)))
    else if DirectSend.AuthorizationFailure(p.authorization).Some? then DirectSend.AuthorizationFailure(p.authorization)
    else if DirectSend.EligibilityFailure(p.eligibility).Some? then DirectSend.EligibilityFailure(p.eligibility)
    else
      match p.prepared
      case ReadyToSend => None
      case PreparedOutcome(o) => Some(DirectSend.CompletionFromDirect(DirectSend.Parse(o, apns).GetOr(invalid)))
      case MalformedPreparation => Some(DirectSend.CompletionFromDirect(invalid))
  }

  /** In whole seconds. */
  function DirectExpiration(createdAt: int): int { createdAt / 1_000 + 60 * 60 }

  function ExpoExpiresAt(createdAt: int): int { createdAt + ExpoProtocol.EXPO_EMERGENCY_TTL_MILLISECONDS }

  /** The Expo chunk routine, as it bears on one entry; `None` sends. */
  function ExpoCheckFailure(work: Work, c: Checks): Option<Completion>
    requires c.ExpoChecks?
  {
    if c.chunkFailed || !c.before.ClockAt? || work.createdAt.None? then Some(ExpoSend.UNKNOWN_SEND_OUTCOME)
    else if c.before.time >= ExpoExpiresAt(work.createdAt.value) then Some(ExpoSend.EXPIRED_COMPLETION)
    else if ExpoSend.EligibilityFailure(c.eligibility).Some? then ExpoSend.EligibilityFailure(c.eligibility)
    else if !c.after.ClockAt? then Some(ExpoSend.UNKNOWN_SEND_OUTCOME)
    else if c.after.time >= ExpoExpiresAt(work.createdAt.value) then Some(ExpoSend.EXPIRED_COMPLETION)
    else None
  }

  predicate ChecksFit(adapter: Adapter, c: Checks) {
    match adapter
    case Expo => c.ExpoChecks?
    case Direct(_) => c.DirectChecks?
    case Ses => c.NoChecks?
  }

  /** The last checks under the permit; `None` crosses the provider boundary. */
  function CheckFailure(adapter: Adapter, work: Work, c: Checks): Option<Completion>
    requires ChecksFit(adapter, c)
  {
    match adapter
    case Expo => ExpoCheckFailure(work, c)
    case Direct(_) =>
      if DirectSend.AuthorizationFailure(c.authorization).Some? then DirectSend.AuthorizationFailure(c.authorization)
      else DirectSend.EligibilityFailure(c.eligibilityCheck)
    case Ses => None
  }

  predicate AnswerFits(adapter: Adapter, answer: Answer) {
    match adapter
    case Expo => answer.ExpoAnswer?
    case Direct(_) => answer.DirectAnswer?
    case Ses => answer.SesAnswer?
  }

  predicate IsSesMessageId(s: string) {
    && 1 <= |s| <= 500
    && forall i :: 0 <= i < |s| ==>
         ExpoProtocol.IsAlphanumeric(s[i]) || s[i] in {'.', '_', '@', ':', '/', '+', '=', '-'}
  }

  /** What the SES adapter makes of the client's answer, before it is recorded. */
  function SesOutcome(r: SesResult): Completion {
    match r
    case Response(id) =>
      if id.Some? && IsSesMessageId(id.value) then OutcomeOf(ProviderAccepted, id, None, None)
      else OutcomeOf(SendUnknown, None, Some(SesResponseInvalid), None)
    case DispatchError(code, Ambiguous) => OutcomeOf(SendUnknown, None, Some(code), None)
    case DispatchError(code, _) => OutcomeOf(SendFailed, None, Some(code), None)
    case OtherError => OutcomeOf(SendUnknown, None, Some(SesOutcomeUnknown), None)
  }

  function Written(adapter: Adapter, answer: Answer): Completion
    requires AnswerFits(adapter, answer)
  {
    match adapter
    case Expo => ExpoSend.TransportCompletion(answer.result)
    case Direct(apns) => DirectSend.SendCompletion(answer.outcome, apns)
    case Ses => SesOutcome(answer.ses)
  }

  /** A provably unsent SES email is recorded as failed and answered as an error that may be retried. */
  function ToldAfter(adapter: Adapter, answer: Answer): Completion
    requires AnswerFits(adapter, answer)
  {
    if adapter.Ses? && answer.ses.DispatchError? && answer.ses.disposition.SafeToRetry?
    then FailureOf(answer.ses.code, SafeToRetry)
    else Written(adapter, answer)
  }

  /** The provider took the message and named it `reference`. */
  predicate Accepts(adapter: Adapter, answer: Answer, reference: string) {
    match adapter
    case Expo =>
      && answer.ExpoAnswer? && answer.result.TransportReturned?
      && answer.result.item == Some(ExpoProtocol.ToRaw(ExpoProtocol.Accepted(reference)))
    case Direct(apns) =>
      && answer.DirectAnswer? && answer.outcome == Some(DirectSend.AcceptedPush(reference))
      && DirectSend.IsProviderReference(reference, apns)
    case Ses => answer == SesAnswer(Response(Some(reference))) && IsSesMessageId(reference)
  }

  // ----- the steps -----

  function WithCall(s: State, c: CallId, call: Call): State { s.(calls := s.calls[c := call]) }

  predicate CallAt(s: State, c: CallId, pc: Pc) { c in s.calls && s.calls[c].pc == pc }

  /** The call ends with an answer. */
  function Answered(s: State, c: CallId, origin: Origin, completion: Completion): State
    requires c in s.calls
  {
    WithCall(s, c, s.calls[c].(pc := Ended))
      .(reports := s.reports + {Report(s.calls[c].work.attemptId, c, origin, completion)})
  }

  function AsksClaim(s: State, c: CallId, call: Call): State {
    WithCall(s, c, call.(pc := AwaitClaim)).(claims := s.claims + {c})
  }

  function AsksComplete(s: State, c: CallId, written: Completion, told: Completion): State
    requires c in s.calls
  {
    WithCall(s, c, s.calls[c].(pc := AwaitComplete, written := Some(written), told := Some(told)))
      .(completes := s.completes + {c})
  }

  function ApplyBegin(adapter: Adapter, s: State, c: CallId, work: Work): State {
    if c in s.calls then s
    else
      var call := Call(work, Preparing, None, None);
      if adapter.Direct? then WithCall(s, c, call) else AsksClaim(s, c, call)
  }

  function ApplyPrepare(adapter: Adapter, s: State, c: CallId, p: Preparation): State {
    if !adapter.Direct? || !CallAt(s, c, Preparing) then s
    else
      match PreparationAnswer(adapter.apns, s.calls[c].work, p)
      case Some(completion) => Answered(s, c, BeforeClaim, completion)
      case None => AsksClaim(s, c, s.calls[c])
  }

  /** The ledger's answer to a claim: the first one gets the permit, and no later one ever does. */
  function ReplyTo(s: State, c: CallId, work: Work): ClaimReply {
    if work.attemptId !in s.ledger then Execute
    else
      var entry := s.ledger[work.attemptId];
      if entry.fingerprint != work.fingerprint then Conflict
      else if entry.completion.Some? then Completed(entry.completion.value)
      else Uncertain
  }

  function ApplyCommitClaim(adapter: Adapter, s: State, c: CallId, denied: bool): State {
    if c !in s.claims || c !in s.calls then s
    else
      var work := s.calls[c].work;
      var reply := ReplyTo(s, c, work);
      if denied then if adapter.Ses? && reply.Execute? then s.(replies := s.replies + {(c, Denied)}) else s
      else
        s.(replies := s.replies + {(c, reply)},
           ledger := if reply.Execute? then s.ledger[work.attemptId := Entry(work.fingerprint, c, None)] else s.ledger)
  }

  function ApplyClaimAnswered(adapter: Adapter, s: State, c: CallId, reply: ClaimReply): State {
    if !CallAt(s, c, AwaitClaim) || (c, reply) !in s.replies then s
    else
      match reply
      case Execute => WithCall(s, c, s.calls[c].(pc := Permitted))
      case Completed(record) => Answered(s, c, Replayed, Replay(adapter, record))
      case Uncertain => Answered(s, c, Pending, UnknownFor(adapter))
      case Conflict => Answered(s, c, TurnedDown, ConflictFailure(adapter))
      case Denied => Answered(s, c, TurnedDown, SES_DENIED)
  }

  function ApplyClaimThrows(adapter: Adapter, s: State, c: CallId): State {
    if CallAt(s, c, AwaitClaim) then Answered(s, c, ClaimThrew, ClaimFailure(adapter)) else s
  }

  /** The checks end at the provider boundary: the same turn of the event loop makes the provider call. */
  function ApplyCheck(adapter: Adapter, s: State, c: CallId, checks: Checks): State {
    if !CallAt(s, c, Permitted) || !ChecksFit(adapter, checks) then s
    else
      var call := s.calls[c];
      match CheckFailure(adapter, call.work, checks)
      case Some(completion) => AsksComplete(s, c, completion, completion)
      case None =>
        WithCall(s, c, call.(pc := AwaitProvider)).(crossings := s.crossings + [Crossing(call.work.attemptId, c)])
  }

  function ApplyProviderAnswers(adapter: Adapter, s: State, c: CallId, answer: Answer): State {
    if !CallAt(s, c, AwaitProvider) || !AnswerFits(adapter, answer) then s
    else
      AsksComplete(s, c, Written(adapter, answer), ToldAfter(adapter, answer))
        .(answers := s.answers + {(s.calls[c].work.attemptId, c, answer)})
  }

  function ApplyCommitComplete(adapter: Adapter, s: State, c: CallId): State {
    if c !in s.completes || c !in s.calls || s.calls[c].written.None? then s
    else
      var work := s.calls[c].work;
      if work.attemptId !in s.ledger then s
      else
        var entry := s.ledger[work.attemptId];
        if entry.holder != c || entry.fingerprint != work.fingerprint || entry.completion.Some? then s
        else
          var record := Write(s.calls[c].written.value, ProviderOf(adapter));
          s.(ledger := s.ledger[work.attemptId := entry.(completion := Some(record))])
  }

  function ApplyCompleteAcknowledged(adapter: Adapter, s: State, c: CallId): State {
    if !CallAt(s, c, AwaitComplete) || s.calls[c].told.None? then s
    else
      var a := s.calls[c].work.attemptId;
      if a in s.ledger && s.ledger[a].holder == c && s.ledger[a].completion.Some?
      then Answered(s, c, Sent, s.calls[c].told.value)
      else s
  }

  /** Recording may fail, with or without effect: the push adapters then say unknown, SES what it knows. */
  function ApplyCompleteThrows(adapter: Adapter, s: State, c: CallId): State {
    if !CallAt(s, c, AwaitComplete) || s.calls[c].told.None? then s
    else Answered(s, c, Sent, if adapter.Ses? then s.calls[c].told.value else UnknownFor(adapter))
  }

  /** The push adapters' read-only recovery; `c` only names the lookup. */
  function ApplyRecover(adapter: Adapter, s: State, c: CallId, work: Work): State {
    var a := work.attemptId;
    if adapter.Ses? || a !in s.ledger then s
    else
      match ReplyTo(s, c, work)
      case Completed(record) => s.(reports := s.reports + {Report(a, c, Replayed, Replay(adapter, record))})
      case Uncertain => s.(reports := s.reports + {Report(a, c, Pending, UnknownFor(adapter))})
      case _ => s.(reports := s.reports + {Report(a, c, TurnedDown, ConflictFailure(adapter))})
  }

  function ApplyCrash(s: State, c: CallId): State {
    if c in s.calls then WithCall(s, c, s.calls[c].(pc := Ended)) else s
  }

  /** A step that is not enabled changes nothing. */
  function Apply(adapter: Adapter, s: State, step: Step): State {
    match step
    case Begin(c, work) => ApplyBegin(adapter, s, c, work)
    case Prepare(c, preparation) => ApplyPrepare(adapter, s, c, preparation)
    case CommitClaim(c, denied) => ApplyCommitClaim(adapter, s, c, denied)
    case ClaimAnswered(c, reply) => ApplyClaimAnswered(adapter, s, c, reply)
    case ClaimThrows(c) => ApplyClaimThrows(adapter, s, c)
    case Check(c, checks) => ApplyCheck(adapter, s, c, checks)
    case ProviderAnswers(c, answer) => ApplyProviderAnswers(adapter, s, c, answer)
    case CommitComplete(c) => ApplyCommitComplete(adapter, s, c)
    case CompleteAcknowledged(c) => ApplyCompleteAcknowledged(adapter, s, c)
    case CompleteThrows(c) => ApplyCompleteThrows(adapter, s, c)
    case Recover(c, work) => ApplyRecover(adapter, s, c, work)
    case Crash(c) => ApplyCrash(s, c)
  }

  function Run(adapter: Adapter, steps: seq<Step>): State {
    if steps == [] then INITIAL else Apply(adapter, Run(adapter, steps[..|steps| - 1]), steps[|steps| - 1])
  }
}
