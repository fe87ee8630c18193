/** The inductive invariant of the receipt lifecycle, and the proof that every step keeps it. */
module ReceiptInvariant {
  import opened Wrappers
  import opened ExpoProtocol
  import opened PollSchedule
  import opened ReceiptClaims
  import opened ReceiptProtocol

  /** `d` is the one way the staged action `x` can end, given what the resend scheduler answered. */
  ghost predicate Follows(s: State, a: AttemptId, x: Action, d: Decision) {
    && Settles(x, d)
    && (x.Resend? ==> (a, if d.ResendScheduled? then Scheduled else Expired) in s.replies)
  }

  function EvidenceOf(target: Target, d: Decision): Evidence
    requires d.ResendScheduled? || d.TerminalDlq?
  {
    if d.ResendScheduled? then EvidenceFor(target, FailedEnd, MessageRateExceeded)
    else EvidenceFor(target, d.state, d.dlqReason)
  }

  /** Evidence was asked for, and it is what `d`, the end of a staged action, says. */
  ghost predicate EndsStaged(s: State, a: AttemptId, d: Decision) {
    && a in s.rows
    && (exists x :: (a, x) in s.staged && Follows(s, a, x, d))
    && EvidenceOf(s.rows[a].target, d) in s.evidence
  }

  // ----- rows -----

  predicate PollIsSound(row: Row) {
    && row.target.FirstPollAt() <= row.dueAt <= row.target.HorizonAt()
    && 1 <= row.pollAttemptNumber <= 36
    && (row.pollAttemptNumber == 1 ==> row.dueAt == row.target.FirstPollAt())
    && (row.pollAttemptNumber == 1 <==> row.lastReason.None?)
    && (row.lastReason.Some? ==> IsRescheduleReason(row.lastReason.value))
    && (row.dueAt < row.target.HorizonAt() ==> EarliestDue(row.pollAttemptNumber) <= row.dueAt - row.target.recordedAt)
  }

  /** The claim under the current lease still describes the row, up to the action it staged itself. */
  predicate LeaseMatches(s: State, row: Row) {
    row.lease.Some? ==>
      && row.lease.value.token in s.tasks
      && var task := s.tasks[row.lease.value.token];
         && task.claim.target == row.target
         && task.claim.dueAt == row.dueAt
         && task.claim.pollAttemptNumber == row.pollAttemptNumber
         && task.claim.lastReason == row.lastReason
         && (row.pendingAction == task.claim.pendingAction ||
              (task.claim.pendingAction.None? && row.pendingAction == task.plan))
  }

  ghost predicate RowOk(cfg: Config, s: State, a: AttemptId)
    requires a in s.rows
  {
    var row := s.rows[a];
    && row.target.attemptId == a
    && TargetIsConsistent(cfg, row.target)
    && PollIsSound(row)
    && LeaseMatches(s, row)
    && (row.pendingAction.Some? ==> row.final.None? && (a, row.pendingAction.value) in s.staged)
    && (row.Undecided() || (row.final.Some? && row.final.value.Complete?) ==> forall x :: (a, x) !in s.staged)
    && (row.final.Some? ==> IsFinal(row.final.value) && row.lease.None?)
    && (row.final.Some? && !row.final.value.Complete? ==> EndsStaged(s, a, row.final.value))
    && (row.referenceState.Conflict? ==> row.final in {None, Some(TerminalDlq(UnknownEnd, ReceiptReferenceConflict))})
  }

  ghost predicate StagedOk(cfg: Config, s: State, a: AttemptId, x: Action) {
    && a in s.rows
    && var row := s.rows[a];
       && ActionIsValid(x, row.target.attemptNumber, cfg.maxSendAttempts, row.target.expiresAt)
       && (row.referenceState.Conflict? <==> x == CONFLICT_ACTION)
       && (x.TerminalUnknown? && x != CONFLICT_ACTION ==> x.unknownReason == HorizonReason(row.lastReason))
       && (forall y :: (a, y) in s.staged ==> y == x)
  }

  /** Only one row bound to a receipt ID is not in conflict, and an undecided one shares it with none. */
  ghost predicate BindingOk(s: State, a: AttemptId, b: AttemptId)
    requires a in s.rows && b in s.rows
  {
    a != b && s.rows[a].target.receiptId == s.rows[b].target.receiptId && s.rows[a].referenceState.Unique? ==>
      s.rows[b].referenceState.Conflict? && !s.rows[a].Undecided()
  }

  // ----- tasks and the requests they made -----

  ghost predicate TaskOk(cfg: Config, s: State, t: Token)
    requires t in s.tasks
  {
    var task := s.tasks[t];
    var a := task.AttemptId();
    && task.claim.leaseToken == t
    && a in s.rows && s.rows[a].target == task.claim.target
    && task.claim.horizonAt == task.claim.target.HorizonAt()
    && (task.claim.dueAt < task.claim.horizonAt ==>
          1 <= task.claim.pollAttemptNumber &&
          EarliestDue(task.claim.pollAttemptNumber) <= task.claim.dueAt - task.claim.target.recordedAt)
    && (task.claim.referenceState.Conflict? ==> s.rows[a].referenceState.Conflict?)
    && (task.claim.pendingAction.Some? ==> (a, task.claim.pendingAction.value) in s.staged)
    && (!task.pc.Ended? ==> ClaimIsValid(cfg, task.claim, task.now))
    && match task.pc
       case Claimed(duplicate) =>
         task.plan.None? && (duplicate ==> task.claim.pendingAction.Some? || s.rows[a].referenceState.Conflict?)
       case Polling => task.plan.None? && task.claim.pendingAction.None? && task.now < task.claim.horizonAt
       case AwaitStage => task.plan.Some?
       case AwaitResend => task.plan.Some? && (a, task.plan.value) in s.staged
       case AwaitEvidence(invalidates, next) =>
         && (next.TerminalDlq? || next.ResendScheduled?) && EndsStaged(s, a, next)
         && (invalidates ==> next == TerminalDlq(FailedEnd, DeviceNotRegistered))
       case AwaitInvalidation(next) => next.TerminalDlq? && EndsStaged(s, a, next)
       case Ended => true
  }

  ghost predicate StageJustified(cfg: Config, s: State, task: Task, x: Action) {
    && task.claim.pendingAction.None?
    && task.plan == Some(x)
    && ActionIsValid(x, task.claim.target.attemptNumber, cfg.maxSendAttempts, task.claim.target.expiresAt)
    && (x == CONFLICT_ACTION ==> task.AttemptId() in s.rows && s.rows[task.AttemptId()].referenceState.Conflict?)
    && (x.TerminalUnknown? && x != CONFLICT_ACTION ==> x.unknownReason == HorizonReason(task.claim.lastReason))
  }

  ghost predicate RescheduleJustified(task: Task, at: int, n: int, reason: Reason) {
    && task.pc.Ended? && task.plan.None? && task.claim.pendingAction.None?
    && IsRescheduleReason(reason)
    && 1 <= task.claim.pollAttemptNumber && n == task.claim.pollAttemptNumber + 1
    && task.claim.dueAt < at <= task.claim.horizonAt
    && task.claim.dueAt < task.claim.horizonAt
    && (at < task.claim.horizonAt ==> 5 * (at - task.claim.dueAt) >= 4 * Exponential(task.claim.pollAttemptNumber))
  }

  ghost predicate DecideOk(cfg: Config, s: State, r: DecideRequest) {
    && r.leaseToken in s.tasks
    && var task := s.tasks[r.leaseToken];
       && r.attemptId == task.AttemptId()
       && match r.decision
          case Stage(x) => StageJustified(cfg, s, task, x)
          case Reschedule(at, n, reason) => RescheduleJustified(task, at, n, reason)
          case Complete => task.pc.Ended? && task.plan.None? && task.claim.pendingAction.None?
          case _ => EndsStaged(s, r.attemptId, r.decision)
  }

  ghost predicate CommittedOk(s: State, r: DecideRequest) {
    r.decision.Stage? ==> (r.attemptId, r.decision.action) in s.staged
  }

  // ----- the resend scheduler, evidence and invalidation -----

  ghost predicate ResendOk(s: State, r: ResendRequest) {
    var a := r.target.attemptId;
    && a in s.rows && s.rows[a].target == r.target
    && exists x: Action :: x.Resend? && (a, x) in s.staged && r == ResendOf(r.target, x)
  }

  ghost predicate ReplyOk(s: State, a: AttemptId, kind: ResendKind) {
    match kind
    case Scheduled => a in s.retained
    case Expired => a in s.rows && a !in s.retained && s.rows[a].target.expiresAt <= s.schedulerClock
  }

  ghost predicate EvidenceOk(s: State, e: Evidence) {
    && e.attemptId in s.rows
    && exists d: Decision :: (d.TerminalDlq? || d.ResendScheduled?) && EndsStaged(s, e.attemptId, d) &&
                   e == EvidenceOf(s.rows[e.attemptId].target, d)
  }

  ghost predicate Inv(cfg: Config, s: State) {
    && (forall a :: a in s.rows ==> RowOk(cfg, s, a))
    && (forall a, x :: (a, x) in s.staged ==> StagedOk(cfg, s, a, x))
    && (forall a, b :: a in s.rows && b in s.rows ==> BindingOk(s, a, b))
    && (forall t :: t in s.tasks ==> TaskOk(cfg, s, t))
    && (forall r :: r in s.decides ==> DecideOk(cfg, s, r))
    && (forall r :: r in s.committed ==> CommittedOk(s, r))
    && (forall r :: r in s.resends ==> ResendOk(s, r))
    && (forall a :: a in s.retained ==> s.retained[a] in s.resends && s.retained[a].target.attemptId == a)
    && (forall a, k :: (a, k) in s.replies ==> ReplyOk(s, a, k))
    && (forall e :: e in s.evidence ==> EvidenceOk(s, e))
    && (forall a :: a in s.invalidated ==> EndsStaged(s, a, TerminalDlq(FailedEnd, DeviceNotRegistered)))
  }

  // ----- what every step keeps -----

  ghost predicate TaskExtends(before: Task, after: Task) {
    && after.claim == before.claim && after.now == before.now
    && (after.plan == before.plan || before.pc.Claimed? || before.pc.Polling?)
    && (before.pc.Ended? ==> after == before)
  }

  ghost predicate RowExtends(before: Row, after: Row) {
    && after.target == before.target
    && (before.referenceState.Conflict? ==> after.referenceState.Conflict?)
  }

  /** What never shrinks. */
  ghost predicate Extends(s: State, s': State) {
    && s.schedulerClock <= s'.schedulerClock
    && (forall a :: a in s.rows ==> a in s'.rows && RowExtends(s.rows[a], s'.rows[a]))
    && (forall t :: t in s.tasks ==> t in s'.tasks && TaskExtends(s.tasks[t], s'.tasks[t]))
    && s.staged <= s'.staged && s.replies <= s'.replies && s.evidence <= s'.evidence
    && s.decides <= s'.decides && s.committed <= s'.committed && s.resends <= s'.resends
    && s.invalidated <= s'.invalidated
    && (forall a :: a in s.retained ==> a in s'.retained && s'.retained[a] == s.retained[a])
  }

  lemma EndsStagedExtends(s: State, s': State, a: AttemptId, d: Decision)
    requires Extends(s, s') && EndsStaged(s, a, d)
    ensures EndsStaged(s', a, d)
  {
    var x :| (a, x) in s.staged && Follows(s, a, x, d);
    assert (a, x) in s'.staged && Follows(s', a, x, d);
  }

  lemma TaskOkExtends(cfg: Config, s: State, s': State, t: Token)
    requires Extends(s, s') && t in s.tasks && TaskOk(cfg, s, t) && s'.tasks[t] == s.tasks[t]
    ensures TaskOk(cfg, s', t)
  {
    var task := s.tasks[t];
    if task.pc.AwaitEvidence? || task.pc.AwaitInvalidation? {
      EndsStagedExtends(s, s', task.AttemptId(), task.pc.next);
    }
  }

  lemma DecideOkExtends(cfg: Config, s: State, s': State, r: DecideRequest)
    requires Extends(s, s') && DecideOk(cfg, s, r)
    requires forall t :: t in s.tasks ==> TaskOk(cfg, s, t)
    ensures DecideOk(cfg, s', r)
  {
    assert TaskExtends(s.tasks[r.leaseToken], s'.tasks[r.leaseToken]);
    if r.decision.ResendScheduled? || r.decision.TerminalDlq? {
      EndsStagedExtends(s, s', r.attemptId, r.decision);
    }
  }

  lemma EvidenceOkExtends(s: State, s': State, e: Evidence)
    requires Extends(s, s') && EvidenceOk(s, e)
    ensures EvidenceOk(s', e)
  {
    var d: Decision :| (d.TerminalDlq? || d.ResendScheduled?) && EndsStaged(s, e.attemptId, d) &&
                       e == EvidenceOf(s.rows[e.attemptId].target, d);
    EndsStagedExtends(s, s', e.attemptId, d);
  }

  lemma ResendOkExtends(s: State, s': State, r: ResendRequest)
    requires Extends(s, s') && ResendOk(s, r)
    ensures ResendOk(s', r)
  {
    var a := r.target.attemptId;
    var x: Action :| x.Resend? && (a, x) in s.staged && r == ResendOf(r.target, x);
    assert (a, x) in s'.staged;
  }

  /** The half of the invariant about requests holds again after any extension that adds none. */
  lemma RequestsExtend(cfg: Config, s: State, s': State)
    requires Inv(cfg, s) && Extends(s, s')
    ensures forall r :: r in s.decides ==> DecideOk(cfg, s', r)
    ensures forall r :: r in s.resends ==> ResendOk(s', r)
    ensures forall e :: e in s.evidence ==> EvidenceOk(s', e)
    ensures forall r :: r in s.committed ==> CommittedOk(s', r)
    ensures forall a :: a in s.invalidated ==> EndsStaged(s', a, TerminalDlq(FailedEnd, DeviceNotRegistered))
    ensures forall t :: t in s.tasks && s'.tasks[t] == s.tasks[t] ==> TaskOk(cfg, s', t)
  {
    forall r | r in s.decides ensures DecideOk(cfg, s', r) { DecideOkExtends(cfg, s, s', r); }
    forall r | r in s.resends ensures ResendOk(s', r) { ResendOkExtends(s, s', r); }
    forall e | e in s.evidence ensures EvidenceOk(s', e) { EvidenceOkExtends(s, s', e); }
    forall a | a in s.invalidated ensures EndsStaged(s', a, TerminalDlq(FailedEnd, DeviceNotRegistered)) {
      EndsStagedExtends(s, s', a, TerminalDlq(FailedEnd, DeviceNotRegistered));
    }
    forall t | t in s.tasks && s'.tasks[t] == s.tasks[t] ensures TaskOk(cfg, s', t) { TaskOkExtends(cfg, s, s', t); }
  }

  /** A row that a step leaves alone stays sound if the step stages nothing for it. */
  lemma RowOkExtends(cfg: Config, s: State, s': State, a: AttemptId)
    requires Inv(cfg, s) && Extends(s, s') && a in s.rows && s'.rows[a] == s.rows[a]
    requires forall x :: (a, x) in s'.staged ==> (a, x) in s.staged
    ensures RowOk(cfg, s', a)
  {
    var row := s.rows[a];
    assert RowOk(cfg, s, a);
    if row.lease.Some? {
      var t := row.lease.value.token;
      assert TaskExtends(s.tasks[t], s'.tasks[t]) && TaskOk(cfg, s, t);
      LeaseUnderClaimed(cfg, s, a);
    }
    if row.final.Some? && !row.final.value.Complete? {
      EndsStagedExtends(s, s', a, row.final.value);
    }
  }

  /** Until its task plans an action, a leased row carries the action the claim carried. */
  lemma LeaseUnderClaimed(cfg: Config, s: State, a: AttemptId)
    requires Inv(cfg, s) && a in s.rows && s.rows[a].lease.Some?
    ensures var task := s.tasks[s.rows[a].lease.value.token];
            task.pc.Claimed? || task.pc.Polling? ==> s.rows[a].pendingAction == task.claim.pendingAction
  {
    var t := s.rows[a].lease.value.token;
    assert RowOk(cfg, s, a) && TaskOk(cfg, s, t);
  }
}
