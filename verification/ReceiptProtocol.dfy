/**
 The receipt lifecycle as one step relation: the durable store, the resend scheduler and any number
 of runners (workers/push/receipt-lifecycle.ts). Every `await` of the source is a boundary between
 two steps. Requests go into sets that only grow, so a request may take effect at any later time,
 more than once, or never, and its caller may crash before it learns which.

 A claim and the work done under it is a task, named by its lease token. The claims of one batch are
 separate tasks because each is settled on its own; what the batch adds, the count of receipt IDs
 that repeat in it, is the `duplicate` flag of the claim step.
 */
module ReceiptProtocol {
  import opened Wrappers
  import opened ExpoProtocol
  import opened PollSchedule
  import opened ReceiptClaims

  datatype Lease = Lease(token: Token, expiresAt: int)

  /** A row of the durable store. */
  datatype Row = Row(
    target: Target, dueAt: int, pollAttemptNumber: int, lastReason: Option<Reason>,
    referenceState: ReferenceState, pendingAction: Option<Action>, lease: Option<Lease>, final: Option<Decision>)
  {
    predicate Undecided() { pendingAction.None? && final.None? }
  }

  datatype DecideRequest = DecideRequest(
    attemptId: AttemptId, fingerprint: string, leaseToken: Token, decision: Decision)

  datatype ResendRequest = ResendRequest(
    target: Target, nextAttemptNumber: int, delay: int, retryAt: int, expiresAt: int)

  datatype ResendKind = Scheduled | Expired

  datatype Evidence = Evidence(
    attemptId: AttemptId, state: TerminalState, provider: string, providerReference: string, reason: Reason)

  /** Where a task stands; each of the waiting ones is an `await` whose call has been made. */
  datatype Pc =
    | Claimed(duplicate: bool)
    | Polling
    | AwaitStage
    | AwaitResend
    | AwaitEvidence(invalidates: bool, next: Decision)
    | AwaitInvalidation(next: Decision)
    | Ended

  /** `plan` is the action the task is carrying out: the claimed one, or the one it asked to stage. */
  datatype Task = Task(claim: Claim, now: int, plan: Option<Action>, pc: Pc) {
    function AttemptId(): AttemptId { claim.target.attemptId }
  }

  datatype State = State(
    storeClock: int, schedulerClock: int,
    rows: map<AttemptId, Row>,
    tasks: map<Token, Task>,
    decides: set<DecideRequest>,              // every decision a task ever asked for
    committed: set<DecideRequest>,            // every decision the store ever accepted
    staged: set<(AttemptId, Action)>,         // every action the store ever accepted as pending
    resends: set<ResendRequest>,              // every resend ever asked for
    retained: map<AttemptId, ResendRequest>,  // what the resend scheduler keeps
    replies: set<(AttemptId, ResendKind)>,    // every answer the resend scheduler ever gave
    evidence: set<Evidence>,                  // every evidence write ever asked for
    invalidated: set<AttemptId>)              // every endpoint invalidation ever asked for

  datatype Step =
    | AdvanceClocks(store: nat, scheduler: nat)
    | ScheduleAccepted(target: Target)
    | ClaimDue(attemptId: AttemptId, token: Token, leaseExpiresAt: int, now: int, duplicate: bool, replyLost: bool)
    | Triage(token: Token)
    | PollResult(token: Token, query: QueryResult, random: Random)
    | CommitDecision(request: DecideRequest)
    | StageAcknowledged(token: Token)
    | CommitResend(resend: ResendRequest)
    | ResendAnswered(token: Token, kind: ResendKind)
    | EvidenceRecorded(token: Token)
    | EndpointInvalidated(token: Token)
    | Crash(token: Token)

  function Initial(storeClock: int, schedulerClock: int): State {
    State(storeClock, schedulerClock, map[], map[], {}, {}, {}, {}, map[], {}, {}, {})
  }

  // ----- what a task asks for -----

  function EndStateOf(state: FailState): TerminalState { if state.ExpiredState? then ExpiredEnd else FailedEnd }

  function WithTask(s: State, token: Token, task: Task): State { s.(tasks := s.tasks[token := task]) }

  /** Asks the store for `decision`; nothing follows it except, for a staged action, its side effects. */
  function Decide(s: State, token: Token, task: Task, decision: Decision): State {
    var request := DecideRequest(task.AttemptId(), task.claim.target.fingerprint, token, decision);
    WithTask(s, token, task).(decides := s.decides + {request})
  }

  function EvidenceFor(target: Target, state: TerminalState, reason: Reason): Evidence {
    Evidence(target.attemptId, state, target.provider, target.receiptId, reason)
  }

  /** `#recordTerminal`, up to its first `await`. */
  function RecordTerminal(s: State, token: Token, task: Task, state: TerminalState, reason: Reason,
                          invalidates: bool): State
  {
    WithTask(s, token, task.(pc := AwaitEvidence(invalidates, TerminalDlq(state, reason))))
      .(evidence := s.evidence + {EvidenceFor(task.claim.target, state, reason)})
  }

  function ResendOf(target: Target, action: Action): ResendRequest
    requires action.Resend?
  {
    ResendRequest(target, action.nextAttemptNumber, action.delay, action.retryAt, action.expiresAt)
  }

  /** `#executePendingAction`, up to its first `await`. */
  function Execute(s: State, token: Token, task: Task, action: Action): State {
    match action
    case Resend(_, _, _, _) =>
      WithTask(s, token, task.(pc := AwaitResend)).(resends := s.resends + {ResendOf(task.claim.target, action)})
    case TerminalExpiry => RecordTerminal(s, token, task, ExpiredEnd, NotificationExpired, false)
    case TerminalUnknown(r) => RecordTerminal(s, token, task, UnknownEnd, r, false)
    case TerminalFailure(r, invalidates) => RecordTerminal(s, token, task, FailedEnd, r, invalidates)
  }

  /** `#stageKnownOutcome`, up to its first `await`; an action the parser rejects throws. */
  function StageKnown(cfg: Config, s: State, token: Token, task: Task, action: Action): State {
    if ActionIsValid(action, task.claim.target.attemptNumber, cfg.maxSendAttempts, task.claim.target.expiresAt)
    then Decide(s, token, task.(plan := Some(action), pc := AwaitStage), Stage(action))
    else WithTask(s, token, task.(pc := Ended))
  }

  // ----- the store -----

  predicate SharesReceipt(s: State, a: AttemptId, receiptId: string) {
    exists b :: b in s.rows && b != a && s.rows[b].target.receiptId == receiptId
  }

  /** The conflict mark of `schedule`: a staged or final outcome was observed first and is kept. */
  function MarkConflict(row: Row, receiptId: string): Row {
    if row.target.receiptId == receiptId && row.Undecided() then row.(referenceState := Conflict) else row
  }

  function NewRow(target: Target, referenceState: ReferenceState): Row {
    Row(target, target.FirstPollAt(), 1, None, referenceState, None, None, None)
  }

  function ClaimOf(row: Row, token: Token, leaseExpiresAt: int): Claim {
    Claim(row.target, row.dueAt, row.target.HorizonAt(), row.pollAttemptNumber, row.lastReason,
          row.referenceState, row.pendingAction, token, leaseExpiresAt)
  }

  predicate Claimable(s: State, row: Row) {
    && row.final.None?
    && row.dueAt <= s.storeClock
    && (row.lease.Some? ==> row.lease.value.expiresAt <= s.storeClock)
  }

  /** The decisions that settle a pending action; a resend that came too late settles as an expiry. */
  predicate Settles(action: Action, decision: Decision) {
    match action
    case TerminalFailure(r, _) => decision == TerminalDlq(FailedEnd, r)
    case TerminalExpiry => decision == TerminalDlq(ExpiredEnd, NotificationExpired)
    case TerminalUnknown(r) => decision == TerminalDlq(UnknownEnd, r)
    case Resend(next, delay, retryAt, expiresAt) =>
      decision == ResendScheduled(next, delay, retryAt, expiresAt) ||
        decision == TerminalDlq(ExpiredEnd, NotificationExpired)
  }

  predicate IsFinal(decision: Decision) { decision.Complete? || decision.ResendScheduled? || decision.TerminalDlq? }

  /** After a conflict only its own terminal unknown may be staged or decided. */
  predicate AllowedByReference(row: Row, decision: Decision) {
    row.referenceState.Conflict? ==>
      decision == Stage(CONFLICT_ACTION) || decision == TerminalDlq(UnknownEnd, ReceiptReferenceConflict)
  }

  /** A pending action is cleared by nothing but a decision that settles it. */
  predicate AllowedByPending(row: Row, decision: Decision) {
    row.pendingAction.Some? && !decision.Stage? ==> Settles(row.pendingAction.value, decision)
  }

  predicate Accepts(s: State, request: DecideRequest) {
    && request.attemptId in s.rows
    && var row := s.rows[request.attemptId];
       && row.final.None?
       && row.target.fingerprint == request.fingerprint
       && row.lease.Some? && row.lease.value.token == request.leaseToken && s.storeClock < row.lease.value.expiresAt
       && AllowedByReference(row, request.decision)
       && AllowedByPending(row, request.decision)
  }

  function Decided(row: Row, decision: Decision): Row {
    match decision
    case Stage(action) => row.(pendingAction := Some(action))
    case Reschedule(at, n, reason) =>
      row.(dueAt := at, pollAttemptNumber := n, lastReason := Some(reason), lease := None)
    case _ => row.(pendingAction := None, lease := None, final := Some(decision))
  }

  // ----- the steps -----

  predicate TaskAt(s: State, token: Token, pc: Pc) { token in s.tasks && s.tasks[token].pc == pc }

  function ApplySchedule(cfg: Config, s: State, target: Target): State {
    if !TargetIsConsistent(cfg, target) || target.attemptId in s.rows then s
    else
      var reference := if SharesReceipt(s, target.attemptId, target.receiptId) then Conflict else Unique;
      var marked := map a | a in s.rows :: MarkConflict(s.rows[a], target.receiptId);
      s.(rows := marked[target.attemptId := NewRow(target, reference)])
  }

  function ApplyClaim(cfg: Config, s: State, a: AttemptId, token: Token, leaseExpiresAt: int, now: int,
                      duplicate: bool, replyLost: bool): State {
    if token in s.tasks || a !in s.rows || !Claimable(s, s.rows[a]) then s
    else if duplicate && !SharesReceipt(s, a, s.rows[a].target.receiptId) then s
    else
      var claim := ClaimOf(s.rows[a], token, leaseExpiresAt);
      var pc := if replyLost || !ClaimIsValid(cfg, claim, now) then Ended else Claimed(duplicate);
      s.(rows := s.rows[a := s.rows[a].(lease := Some(Lease(token, leaseExpiresAt)))],
         tasks := s.tasks[token := Task(claim, now, None, pc)])
  }

  /** What `runDue` does with a parsed claim before the receipt query. */
  function ApplyTriage(cfg: Config, s: State, token: Token): State {
    if token !in s.tasks || !s.tasks[token].pc.Claimed? then s
    else
      var task := s.tasks[token];
      var claim := task.claim;
      if claim.pendingAction.Some? then
        Execute(s, token, task.(plan := claim.pendingAction), claim.pendingAction.value)
      else if claim.referenceState.Conflict? || task.pc.duplicate then StageKnown(cfg, s, token, task, CONFLICT_ACTION)
      else if task.now >= claim.horizonAt then
        StageKnown(cfg, s, token, task, TerminalUnknown(HorizonReason(claim.lastReason)))
      else WithTask(s, token, task.(pc := Polling))
  }

  function ApplyPoll(cfg: Config, s: State, token: Token, query: QueryResult, random: Random): State {
    if !TaskAt(s, token, Polling) || !ClaimIsValid(cfg, s.tasks[token].claim, s.tasks[token].now) then s
    else
      var task := s.tasks[token];
      match PlanFor(cfg, task.claim, query, task.now, random)
      case None => WithTask(s, token, task.(pc := Ended))
      case Some(PlanComplete) => Decide(s, token, task.(pc := Ended), Complete)
      case Some(PlanReschedule(reason)) =>
        var delay := RetryDelay(task.claim.pollAttemptNumber, random);
        if delay.None? then WithTask(s, token, task.(pc := Ended))
        else Decide(s, token, task.(pc := Ended),
                    Reschedule(NextPollAt(task.claim, task.now, delay.value), task.claim.pollAttemptNumber + 1, reason))
      case Some(PlanStage(action)) => StageKnown(cfg, s, token, task, action)
      case Some(PlanUnstagedTerminal(outcome)) => RecordUnstaged(s, token, task, outcome)
  }

  /** The call of `#recordTerminal` that no staged action precedes. */
  function RecordUnstaged(s: State, token: Token, task: Task, outcome: Outcome): State {
    match outcome
    case Failed(state, _, reason, invalidates) => RecordTerminal(s, token, task, EndStateOf(state), reason, invalidates)
    case Retry(_, reason) => RecordTerminal(s, token, task, FailedEnd, reason, false)
    case Unknown(_, reason) => RecordTerminal(s, token, task, UnknownEnd, reason, false)
    case Accepted(_) => s
  }

  function ApplyCommit(s: State, request: DecideRequest): State {
    if request !in s.decides || !Accepts(s, request) then s
    else
      var a := request.attemptId;
      s.(rows := s.rows[a := Decided(s.rows[a], request.decision)],
         committed := s.committed + {request},
         staged := if request.decision.Stage? then s.staged + {(a, request.decision.action)} else s.staged)
  }

  function ApplyStageAcknowledged(s: State, token: Token): State {
    if !TaskAt(s, token, AwaitStage) || s.tasks[token].plan.None? then s
    else
      var task := s.tasks[token];
      var request := DecideRequest(task.AttemptId(), task.claim.target.fingerprint, token, Stage(task.plan.value));
      if request in s.committed then Execute(s, token, task, task.plan.value) else s
  }

  /**
   The resend scheduler: an exact retained request replays as scheduled, a different one under the
   same attempt rejects, and only an absent one is checked against the scheduler's clock.
   */
  function ApplyResend(s: State, resend: ResendRequest): State {
    var a := resend.target.attemptId;
    if resend !in s.resends then s
    else if a in s.retained then
      if s.retained[a] == resend then s.(replies := s.replies + {(a, Scheduled)}) else s
    else if s.schedulerClock < resend.expiresAt then
      s.(retained := s.retained[a := resend], replies := s.replies + {(a, Scheduled)})
    else s.(replies := s.replies + {(a, Expired)})
  }

  function ApplyResendAnswered(s: State, token: Token, kind: ResendKind): State {
    if !TaskAt(s, token, AwaitResend) then s
    else
      var task := s.tasks[token];
      if (task.AttemptId(), kind) !in s.replies || task.plan.None? || !task.plan.value.Resend? then s
      else if kind.Expired? then RecordTerminal(s, token, task, ExpiredEnd, NotificationExpired, false)
      else
        var action := task.plan.value;
        var next := ResendScheduled(action.nextAttemptNumber, action.delay, action.retryAt, action.expiresAt);
        WithTask(s, token, task.(pc := AwaitEvidence(false, next)))
          .(evidence := s.evidence + {EvidenceFor(task.claim.target, FailedEnd, MessageRateExceeded)})
  }

  function ApplyEvidenceRecorded(s: State, token: Token): State {
    if token !in s.tasks || !s.tasks[token].pc.AwaitEvidence? then s
    else
      var task := s.tasks[token];
      if task.pc.invalidates
      then
        WithTask(s, token, task.(pc := AwaitInvalidation(task.pc.next)))
          .(invalidated := s.invalidated + {task.AttemptId()})
      else Decide(s, token, task.(pc := Ended), task.pc.next)
  }

  function ApplyEndpointInvalidated(s: State, token: Token): State {
    if token !in s.tasks || !s.tasks[token].pc.AwaitInvalidation? then s
    else Decide(s, token, s.tasks[token].(pc := Ended), s.tasks[token].pc.next)
  }

  function ApplyCrash(s: State, token: Token): State {
    if token in s.tasks then WithTask(s, token, s.tasks[token].(pc := Ended)) else s
  }

  /** A step that is not enabled changes nothing. */
  function Apply(cfg: Config, s: State, step: Step): State {
    match step
    case AdvanceClocks(store, scheduler) =>
      s.(storeClock := s.storeClock + store, schedulerClock := s.schedulerClock + scheduler)
    case ScheduleAccepted(target) => ApplySchedule(cfg, s, target)
    case ClaimDue(a, token, leaseExpiresAt, now, duplicate, replyLost) =>
      ApplyClaim(cfg, s, a, token, leaseExpiresAt, now, duplicate, replyLost)
    case Triage(token) => ApplyTriage(cfg, s, token)
    case PollResult(token, query, random) => ApplyPoll(cfg, s, token, query, random)
    case CommitDecision(request) => ApplyCommit(s, request)
    case StageAcknowledged(token) => ApplyStageAcknowledged(s, token)
    case CommitResend(resend) => ApplyResend(s, resend)
    case ResendAnswered(token, kind) => ApplyResendAnswered(s, token, kind)
    case EvidenceRecorded(token) => ApplyEvidenceRecorded(s, token)
    case EndpointInvalidated(token) => ApplyEndpointInvalidated(s, token)
    case Crash(token) => ApplyCrash(s, token)
  }

  /** The state after a whole run. */
  function Run(cfg: Config, s: State, steps: seq<Step>): State {
    if steps == [] then s else Apply(cfg, Run(cfg, s, steps[..|steps| - 1]), steps[|steps| - 1])
  }
}
