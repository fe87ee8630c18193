/** Every step of the receipt lifecycle keeps the invariant. */
module ReceiptSteps {
  import opened Wrappers
  import opened ExpoProtocol
  import opened PollSchedule
  import opened ReceiptClaims
  import opened ReceiptProtocol
  import opened ReceiptInvariant

  // ----- the invariant, one instance at a time -----

  lemma TaskFact(cfg: Config, s: State, t: Token)
    requires Inv(cfg, s) && t in s.tasks
    ensures TaskOk(cfg, s, t)
  {
    hide DecideOk;
  }

  lemma StagedFact(cfg: Config, s: State, a: AttemptId, x: Action)
    requires Inv(cfg, s) && (a, x) in s.staged
    ensures StagedOk(cfg, s, a, x)
  {
    hide RowOk, StagedOk, TaskOk, EndsStaged, DecideOk;
  }

  lemma StagedRowFact(cfg: Config, s: State, a: AttemptId, x: Action)
    requires Inv(cfg, s) && (a, x) in s.staged
    ensures a in s.rows && RowOk(cfg, s, a)
  {
  }

  lemma DecisionFacts(cfg: Config, s: State, r: DecideRequest)
    requires Inv(cfg, s) && r in s.decides && Accepts(s, r)
    ensures RowOk(cfg, s, r.attemptId) && DecideOk(cfg, s, r) && TaskOk(cfg, s, r.leaseToken)
  {
  }

  // ----- steps of one task -----

  /** A step of task `t`: it may make requests, but touches no row and no scheduler state. */
  ghost predicate StepOfTask(s: State, s': State, t: Token) {
    && Extends(s, s') && t in s.tasks && t in s'.tasks
    && s'.rows == s.rows && s'.staged == s.staged && s'.committed == s.committed
    && s'.retained == s.retained && s'.replies == s.replies && s'.schedulerClock == s.schedulerClock
    && s'.tasks == s.tasks[t := s'.tasks[t]]
  }

  lemma StepOfTaskKeeps(cfg: Config, s: State, s': State, t: Token)
    requires Inv(cfg, s) && StepOfTask(s, s', t) && TaskOk(cfg, s', t)
    requires forall r :: r in s'.decides && r !in s.decides ==> DecideOk(cfg, s', r)
    requires forall r :: r in s'.resends && r !in s.resends ==> ResendOk(s', r)
    requires forall e :: e in s'.evidence && e !in s.evidence ==> EvidenceOk(s', e)
    requires forall a :: a in s'.invalidated && a !in s.invalidated ==>
               EndsStaged(s', a, TerminalDlq(FailedEnd, DeviceNotRegistered))
    ensures Inv(cfg, s')
  {
    hide RowOk, TaskOk, PollIsSound;
    RequestsExtend(cfg, s, s');
    forall a | a in s'.rows ensures RowOk(cfg, s', a) { RowOkExtends(cfg, s, s', a); }
    forall a, x | (a, x) in s'.staged ensures StagedOk(cfg, s', a, x) { assert StagedOk(cfg, s, a, x); }
    forall a, b | a in s'.rows && b in s'.rows ensures BindingOk(s', a, b) { assert BindingOk(s, a, b); }
    forall a, k | (a, k) in s'.replies ensures ReplyOk(s', a, k) { assert ReplyOk(s, a, k); }
  }

  lemma DecideKeeps(cfg: Config, s: State, t: Token, task: Task, decision: Decision)
    requires Inv(cfg, s) && t in s.tasks && TaskExtends(s.tasks[t], task)
    requires TaskOk(cfg, Decide(s, t, task, decision), t)
    requires DecideOk(cfg, Decide(s, t, task, decision),
                      DecideRequest(task.AttemptId(), task.claim.target.fingerprint, t, decision))
    ensures Inv(cfg, Decide(s, t, task, decision))
  {
    hide Inv;
    StepOfTaskKeeps(cfg, s, Decide(s, t, task, decision), t);
  }

  lemma EndKeeps(cfg: Config, s: State, t: Token, task: Task)
    requires Inv(cfg, s) && t in s.tasks && TaskExtends(s.tasks[t], task) && task.pc.Ended?
    ensures Inv(cfg, WithTask(s, t, task))
  {
    hide Inv;
    TaskFact(cfg, s, t);
    StepOfTaskKeeps(cfg, s, WithTask(s, t, task), t);
  }

  /** Recording the end `d` of a staged action: the evidence is asked for before the decision. */
  lemma RecordKeeps(cfg: Config, s: State, s': State, t: Token, x: Action, d: Decision)
    requires Inv(cfg, s) && StepOfTask(s, s', t)
    requires s'.decides == s.decides && s'.resends == s.resends && s'.invalidated == s.invalidated
    requires var a := s.tasks[t].AttemptId(); (a, x) in s.staged && Follows(s, a, x, d)
    requires !s.tasks[t].pc.Ended? && (d.TerminalDlq? || d.ResendScheduled?)
    requires s'.tasks[t].pc.AwaitEvidence? && s'.tasks[t].pc.next == d
    requires s'.tasks[t].pc.invalidates ==> d == TerminalDlq(FailedEnd, DeviceNotRegistered)
    requires s'.evidence == s.evidence + {EvidenceOf(s.tasks[t].claim.target, d)}
    ensures Inv(cfg, s')
  {
    hide Inv;
    var a := s.tasks[t].AttemptId();
    TaskFact(cfg, s, t);
    assert (a, x) in s'.staged && Follows(s', a, x, d);
    assert EndsStaged(s', a, d);
    StepOfTaskKeeps(cfg, s, s', t);
  }

  lemma ExecuteResendKeeps(cfg: Config, s: State, t: Token, task: Task, x: Action)
    requires Inv(cfg, s) && t in s.tasks && TaskExtends(s.tasks[t], task) && !s.tasks[t].pc.Ended?
    requires task.plan == Some(x) && (task.AttemptId(), x) in s.staged && x.Resend?
    ensures Inv(cfg, Execute(s, t, task, x))
  {
    hide Inv, DecideOk;
    var s', a := Execute(s, t, task, x), task.AttemptId();
    TaskFact(cfg, s, t);
    assert (a, x) in s'.staged && ResendOk(s', ResendOf(task.claim.target, x));
    StepOfTaskKeeps(cfg, s, s', t);
  }

  lemma ExecuteKeeps(cfg: Config, s: State, t: Token, task: Task, x: Action)
    requires Inv(cfg, s) && t in s.tasks && TaskExtends(s.tasks[t], task) && !s.tasks[t].pc.Ended?
    requires task.plan == Some(x) && (task.AttemptId(), x) in s.staged
    ensures Inv(cfg, Execute(s, t, task, x))
  {
    hide Inv;
    var s' := Execute(s, t, task, x);
    TaskFact(cfg, s, t);
    StagedFact(cfg, s, task.AttemptId(), x);
    match x
    case Resend(_, _, _, _) => ExecuteResendKeeps(cfg, s, t, task, x);
    case TerminalExpiry => RecordKeeps(cfg, s, s', t, x, TerminalDlq(ExpiredEnd, NotificationExpired));
    case TerminalUnknown(r) => RecordKeeps(cfg, s, s', t, x, TerminalDlq(UnknownEnd, r));
    case TerminalFailure(r, _) => RecordKeeps(cfg, s, s', t, x, TerminalDlq(FailedEnd, r));
  }

  lemma StageKnownKeeps(cfg: Config, s: State, t: Token, task: Task, x: Action)
    requires Inv(cfg, s) && t in s.tasks && TaskExtends(s.tasks[t], task)
    requires (s.tasks[t].pc.Claimed? || s.tasks[t].pc.Polling?) && task.claim.pendingAction.None?
    requires x == CONFLICT_ACTION ==> s.rows[task.AttemptId()].referenceState.Conflict?
    requires x.TerminalUnknown? && x != CONFLICT_ACTION ==> x.unknownReason == HorizonReason(task.claim.lastReason)
    ensures Inv(cfg, StageKnown(cfg, s, t, task, x))
  {
    hide Inv, RowOk, ClaimIsValid;
    TaskFact(cfg, s, t);
    if ActionIsValid(x, task.claim.target.attemptNumber, cfg.maxSendAttempts, task.claim.target.expiresAt) {
      DecideKeeps(cfg, s, t, task.(plan := Some(x), pc := AwaitStage), Stage(x));
    } else {
      EndKeeps(cfg, s, t, task.(pc := Ended));
    }
  }

  lemma TriageKeeps(cfg: Config, s: State, t: Token)
    requires Inv(cfg, s)
    ensures Inv(cfg, ApplyTriage(cfg, s, t))
  {
    hide Inv;
    if t in s.tasks && s.tasks[t].pc.Claimed? {
      var task := s.tasks[t];
      var claim := task.claim;
      TaskFact(cfg, s, t);
      if claim.pendingAction.Some? {
        ExecuteKeeps(cfg, s, t, task.(plan := claim.pendingAction), claim.pendingAction.value);
      } else if claim.referenceState.Conflict? || task.pc.duplicate {
        StageKnownKeeps(cfg, s, t, task, CONFLICT_ACTION);
      } else if task.now >= claim.horizonAt {
        assert IsRescheduleReason(HorizonReason(claim.lastReason)) || claim.lastReason.None?;
        StageKnownKeeps(cfg, s, t, task, TerminalUnknown(HorizonReason(claim.lastReason)));
      } else {
        StepOfTaskKeeps(cfg, s, ApplyTriage(cfg, s, t), t);
      }
    }
  }

  lemma PollKeeps(cfg: Config, s: State, t: Token, query: QueryResult, random: Random)
    requires Inv(cfg, s)
    ensures Inv(cfg, ApplyPoll(cfg, s, t, query, random))
  {
    hide Inv, PlanFor;
    if TaskAt(s, t, Polling) && ClaimIsValid(cfg, s.tasks[t].claim, s.tasks[t].now) {
      var task := s.tasks[t];
      var claim := task.claim;
      TaskFact(cfg, s, t);
      PollNeverEndsUnstaged(cfg, claim, query, task.now, random);
      match PlanFor(cfg, claim, query, task.now, random)
      case None => EndKeeps(cfg, s, t, task.(pc := Ended));
      case Some(PlanComplete) => DecideKeeps(cfg, s, t, task.(pc := Ended), Complete);
      case Some(PlanReschedule(reason)) =>
        var delay := RetryDelay(claim.pollAttemptNumber, random);
        if delay.None? {
          EndKeeps(cfg, s, t, task.(pc := Ended));
        } else {
          DecideKeeps(cfg, s, t, task.(pc := Ended),
                      Reschedule(NextPollAt(claim, task.now, delay.value), claim.pollAttemptNumber + 1, reason));
        }
      case Some(PlanStage(action)) => StageKnownKeeps(cfg, s, t, task, action);
    }
  }

  lemma StageAcknowledgedKeeps(cfg: Config, s: State, t: Token)
    requires Inv(cfg, s)
    ensures Inv(cfg, ApplyStageAcknowledged(s, t))
  {
    hide StagedOk, ResendOk, DecideOk, ClaimIsValid;
    if TaskAt(s, t, AwaitStage) && s.tasks[t].plan.Some? {
      var task := s.tasks[t];
      var request := DecideRequest(task.AttemptId(), task.claim.target.fingerprint, t, Stage(task.plan.value));
      if request in s.committed {
        assert CommittedOk(s, request);
        ExecuteKeeps(cfg, s, t, task, task.plan.value);
      }
    }
  }

  lemma ResendAnsweredKeeps(cfg: Config, s: State, t: Token, kind: ResendKind)
    requires Inv(cfg, s)
    ensures Inv(cfg, ApplyResendAnswered(s, t, kind))
  {
    hide Inv, EndsStaged;
    var s' := ApplyResendAnswered(s, t, kind);
    if s' != s {
      var task := s.tasks[t];
      var x := task.plan.value;
      TaskFact(cfg, s, t);
      var d := if kind.Expired? then TerminalDlq(ExpiredEnd, NotificationExpired)
               else ResendScheduled(x.nextAttemptNumber, x.delay, x.retryAt, x.expiresAt);
      RecordKeeps(cfg, s, s', t, x, d);
    }
  }

  lemma EvidenceRecordedKeeps(cfg: Config, s: State, t: Token)
    requires Inv(cfg, s)
    ensures Inv(cfg, ApplyEvidenceRecorded(s, t))
  {
    hide Inv, ResendOk, EvidenceOk, EndsStaged, StageJustified, RescheduleJustified;
    if t in s.tasks && s.tasks[t].pc.AwaitEvidence? {
      var task, s' := s.tasks[t], ApplyEvidenceRecorded(s, t);
      TaskFact(cfg, s, t);
      EndsStagedExtends(s, s', task.AttemptId(), task.pc.next);
      if task.pc.invalidates {
        StepOfTaskKeeps(cfg, s, s', t);
      } else {
        DecideKeeps(cfg, s, t, task.(pc := Ended), task.pc.next);
      }
    }
  }

  lemma EndpointInvalidatedKeeps(cfg: Config, s: State, t: Token)
    requires Inv(cfg, s)
    ensures Inv(cfg, ApplyEndpointInvalidated(s, t))
  {
    hide Inv, ClaimIsValid;
    if t in s.tasks && s.tasks[t].pc.AwaitInvalidation? {
      var task, s' := s.tasks[t], ApplyEndpointInvalidated(s, t);
      TaskFact(cfg, s, t);
      EndsStagedExtends(s, s', task.AttemptId(), task.pc.next);
      DecideKeeps(cfg, s, t, task.(pc := Ended), task.pc.next);
    }
  }

  // ----- steps of the store and the scheduler -----

  lemma StoreStepKeeps(cfg: Config, s: State, s': State)
    requires Inv(cfg, s) && Extends(s, s') && s'.tasks == s.tasks
    requires s'.decides == s.decides && s'.resends == s.resends && s'.evidence == s.evidence
    requires s'.invalidated == s.invalidated
    requires forall a :: a in s'.rows ==> RowOk(cfg, s', a)
    requires forall a, x :: (a, x) in s'.staged ==> StagedOk(cfg, s', a, x)
    requires forall a, b :: a in s'.rows && b in s'.rows ==> BindingOk(s', a, b)
    requires forall a, k :: (a, k) in s'.replies ==> ReplyOk(s', a, k)
    requires forall r :: r in s'.committed && r !in s.committed ==> CommittedOk(s', r)
    requires forall a :: a in s'.retained ==> s'.retained[a] in s'.resends && s'.retained[a].target.attemptId == a
    ensures Inv(cfg, s')
  {
    RequestsExtend(cfg, s, s');
  }

  lemma ScheduleExtends(cfg: Config, s: State, target: Target)
    ensures Extends(s, ApplySchedule(cfg, s, target))
  {
    hide TargetIsConsistent;
  }

  lemma ClaimKeeps(cfg: Config, s: State, a: AttemptId, t: Token, leaseExpiresAt: int, now: int, duplicate: bool,
                   replyLost: bool)
    requires Inv(cfg, s)
    ensures Inv(cfg, ApplyClaim(cfg, s, a, t, leaseExpiresAt, now, duplicate, replyLost))
  {
    hide RowOk, TaskOk, ResendOk, DecideOk, EvidenceOk, CommittedOk, EndsStaged, PollIsSound, ClaimIsValid;
    hide StageJustified, RescheduleJustified, ActionIsValid, TargetIsConsistent;
    var s' := ApplyClaim(cfg, s, a, t, leaseExpiresAt, now, duplicate, replyLost);
    if s' != s {
      assert Extends(s, s');
      RequestsExtend(cfg, s, s');
      RowFact(cfg, s, a);
      DuplicateIsConflict(cfg, s, a);
      ClaimedRowOk(cfg, s, a, t, leaseExpiresAt, now, duplicate, replyLost);
      ClaimedTaskOk(cfg, s, a, t, leaseExpiresAt, now, duplicate, replyLost);
      forall b | b in s'.rows && b != a ensures RowOk(cfg, s', b) { RowOkExtends(cfg, s, s', b); }
      forall b, x | (b, x) in s'.staged ensures StagedOk(cfg, s', b, x) { assert StagedOk(cfg, s, b, x); }
      forall b, c | b in s'.rows && c in s'.rows ensures BindingOk(s', b, c) { assert BindingOk(s, b, c); }
      forall b, k | (b, k) in s'.replies ensures ReplyOk(s', b, k) { assert ReplyOk(s, b, k); }
    }
  }

  lemma ClaimedRowOk(cfg: Config, s: State, a: AttemptId, t: Token, leaseExpiresAt: int, now: int, duplicate: bool,
                     replyLost: bool)
    requires ApplyClaim(cfg, s, a, t, leaseExpiresAt, now, duplicate, replyLost) != s && RowOk(cfg, s, a)
    ensures RowOk(cfg, ApplyClaim(cfg, s, a, t, leaseExpiresAt, now, duplicate, replyLost), a)
  {
    hide EndsStaged, ClaimIsValid, TargetIsConsistent;
  }

  lemma ClaimedTaskOk(cfg: Config, s: State, a: AttemptId, t: Token, leaseExpiresAt: int, now: int, duplicate: bool,
                      replyLost: bool)
    requires ApplyClaim(cfg, s, a, t, leaseExpiresAt, now, duplicate, replyLost) != s && RowOk(cfg, s, a)
    requires SharesReceipt(s, a, s.rows[a].target.receiptId) ==>
               s.rows[a].pendingAction.Some? || s.rows[a].referenceState.Conflict?
    ensures TaskOk(cfg, ApplyClaim(cfg, s, a, t, leaseExpiresAt, now, duplicate, replyLost), t)
  {
  }

  /** An open row whose receipt ID repeats in the store is in conflict or already has its action. */
  lemma DuplicateIsConflict(cfg: Config, s: State, a: AttemptId)
    requires Inv(cfg, s) && a in s.rows && s.rows[a].final.None?
    ensures SharesReceipt(s, a, s.rows[a].target.receiptId) ==>
              s.rows[a].pendingAction.Some? || s.rows[a].referenceState.Conflict?
  {
    if b :| b in s.rows && b != a && s.rows[b].target.receiptId == s.rows[a].target.receiptId {
      assert BindingOk(s, a, b);
    }
  }

  lemma ScheduleKeeps(cfg: Config, s: State, target: Target)
    requires Inv(cfg, s)
    ensures Inv(cfg, ApplySchedule(cfg, s, target))
  {
    hide RowOk, TaskOk, DecideOk;
    var s' := ApplySchedule(cfg, s, target);
    if TargetIsConsistent(cfg, target) && target.attemptId !in s.rows {
      ScheduleExtends(cfg, s, target);
      forall a, x | (a, x) in s'.staged ensures StagedOk(cfg, s', a, x) {
        StagedFact(cfg, s, a, x);
        StagedRowFact(cfg, s, a, x);
        ScheduledStagedOk(cfg, s, target, a, x);
      }
      NewRowOk(cfg, s, target);
      forall a | a in s.rows ensures RowOk(cfg, s', a) {
        RowFact(cfg, s, a);
        MarkedRowOk(cfg, s, target, a);
      }
      forall a, b | a in s'.rows && b in s'.rows ensures BindingOk(s', a, b) {
        if a in s.rows && b in s.rows {
          BindingFact(cfg, s, a, b);
          BindingFact(cfg, s, b, a);
        }
        ScheduledBindingOk(cfg, s, target, a, b);
      }
      forall a, k | (a, k) in s'.replies ensures ReplyOk(s', a, k) { assert ReplyOk(s, a, k); }
      StoreStepKeeps(cfg, s, s');
    }
  }

  lemma ScheduledStagedOk(cfg: Config, s: State, target: Target, a: AttemptId, x: Action)
    requires TargetIsConsistent(cfg, target) && target.attemptId !in s.rows && (a, x) in s.staged
    requires StagedOk(cfg, s, a, x) && RowOk(cfg, s, a)
    ensures StagedOk(cfg, ApplySchedule(cfg, s, target), a, x)
  {
  }

  lemma ScheduledBindingOk(cfg: Config, s: State, target: Target, a: AttemptId, b: AttemptId)
    requires TargetIsConsistent(cfg, target) && target.attemptId !in s.rows
    requires a in s.rows && b in s.rows ==> BindingOk(s, a, b) && BindingOk(s, b, a)
    requires a in ApplySchedule(cfg, s, target).rows && b in ApplySchedule(cfg, s, target).rows
    ensures BindingOk(ApplySchedule(cfg, s, target), a, b)
  {
    hide TargetIsConsistent;
  }

  lemma NewRowOk(cfg: Config, s: State, target: Target)
    requires Inv(cfg, s) && TargetIsConsistent(cfg, target) && target.attemptId !in s.rows
    ensures RowOk(cfg, ApplySchedule(cfg, s, target), target.attemptId)
  {
    assert forall x :: (target.attemptId, x) in s.staged ==> StagedOk(cfg, s, target.attemptId, x);
  }

  lemma MarkedRowOk(cfg: Config, s: State, target: Target, a: AttemptId)
    requires TargetIsConsistent(cfg, target) && target.attemptId !in s.rows && a in s.rows && RowOk(cfg, s, a)
    ensures RowOk(cfg, ApplySchedule(cfg, s, target), a)
  {
    hide Extends;
    var s' := ApplySchedule(cfg, s, target);
    ScheduleExtends(cfg, s, target);
    if s.rows[a].final.Some? && !s.rows[a].final.value.Complete? {
      EndsStagedExtends(s, s', a, s.rows[a].final.value);
    }
  }

  lemma CommitKeeps(cfg: Config, s: State, r: DecideRequest)
    requires Inv(cfg, s)
    ensures Inv(cfg, ApplyCommit(s, r))
  {
    hide RowOk, TaskOk;
    var s' := ApplyCommit(s, r);
    if r in s.decides && Accepts(s, r) {
      var a := r.attemptId;
      assert Extends(s, s');
      CommittedRowOk(cfg, s, r);
      forall b | b in s'.rows && b != a ensures RowOk(cfg, s', b) { RowOkExtends(cfg, s, s', b); }
      forall b, x | (b, x) in s'.staged ensures StagedOk(cfg, s', b, x) { CommittedStagedOk(cfg, s, r, b, x); }
      forall b, c | b in s'.rows && c in s'.rows ensures BindingOk(s', b, c) {
        assert BindingOk(s, b, c);
      }
      forall b, k | (b, k) in s'.replies ensures ReplyOk(s', b, k) { assert ReplyOk(s, b, k); }
      StoreStepKeeps(cfg, s, s');
    }
  }

  lemma CommittedRowOk(cfg: Config, s: State, r: DecideRequest)
    requires Inv(cfg, s) && r in s.decides && Accepts(s, r)
    ensures RowOk(cfg, ApplyCommit(s, r), r.attemptId)
  {
    hide Inv;
    DecisionFacts(cfg, s, r);
    var s', a, row, task := ApplyCommit(s, r), r.attemptId, s.rows[r.attemptId], s.tasks[r.leaseToken];
    match r.decision
    case Stage(x) =>
    case Reschedule(at, n, reason) =>
      RescheduledPollIsSound(row, task, at, n, reason);
    case Complete =>
    case _ => EndsStagedExtends(s, s', a, r.decision);
  }

  lemma RescheduledPollIsSound(row: Row, task: Task, at: int, n: int, reason: Reason)
    requires PollIsSound(row) && RescheduleJustified(task, at, n, reason)
    requires task.claim.target == row.target && task.claim.horizonAt == row.target.HorizonAt()
    requires task.claim.dueAt == row.dueAt && task.claim.pollAttemptNumber == row.pollAttemptNumber
    ensures PollIsSound(Decided(row, Reschedule(at, n, reason)))
  {
    DueBelowHorizonBoundsAttempt(row.pollAttemptNumber);
    ExponentialRange(row.pollAttemptNumber);
  }

  lemma CommittedStagedOk(cfg: Config, s: State, r: DecideRequest, b: AttemptId, x: Action)
    requires Inv(cfg, s) && r in s.decides && Accepts(s, r)
    requires (b, x) in ApplyCommit(s, r).staged
    ensures StagedOk(cfg, ApplyCommit(s, r), b, x)
  {
    hide BindingOk, ResendOk, ReplyOk, EvidenceOk, CommittedOk, EndsStaged, PollIsSound, ClaimIsValid, ActionIsValid;
    hide RescheduleJustified, TargetIsConsistent;
    var s', a := ApplyCommit(s, r), r.attemptId;
    DecisionFacts(cfg, s, r);
    if (b, x) in s.staged { assert StagedOk(cfg, s, b, x); }
    forall y | (b, y) in s'.staged ensures y == x {
      if (b, y) in s.staged { assert StagedOk(cfg, s, b, y); }
    }
  }

  lemma StagedOkStays(cfg: Config, s: State, s': State, a: AttemptId, x: Action)
    requires StagedOk(cfg, s, a, x) && s'.rows == s.rows && s'.staged == s.staged
    ensures StagedOk(cfg, s', a, x)
  {
  }

  lemma BindingFact(cfg: Config, s: State, a: AttemptId, b: AttemptId)
    requires Inv(cfg, s) && a in s.rows && b in s.rows
    ensures BindingOk(s, a, b)
  {
    hide DecideOk;
  }

  lemma RowFact(cfg: Config, s: State, a: AttemptId)
    requires Inv(cfg, s) && a in s.rows
    ensures RowOk(cfg, s, a)
  {
    hide DecideOk;
  }

  lemma BindingOkStays(s: State, s': State, a: AttemptId, b: AttemptId)
    requires s'.rows == s.rows && s'.staged == s.staged && a in s.rows && b in s.rows && BindingOk(s, a, b)
    ensures BindingOk(s', a, b)
  {
  }

  lemma CommitResendKeeps(cfg: Config, s: State, r: ResendRequest)
    requires Inv(cfg, s)
    ensures Inv(cfg, ApplyResend(s, r))
  {
    hide Inv, Extends, RowOk, StagedOk, TaskOk;
    var s' := ApplyResend(s, r);
    if s' != s {
      ResendExtends(cfg, s, r);
      forall b, k | (b, k) in s'.replies ensures ReplyOk(s', b, k) { AnsweredReplyOk(cfg, s, r, b, k); }
      forall b | b in s'.rows ensures RowOk(cfg, s', b) { RowFact(cfg, s, b); RowOkExtends(cfg, s, s', b); }
      forall b, y | (b, y) in s'.staged
        ensures StagedOk(cfg, s', b, y)
      {
        StagedFact(cfg, s, b, y);
        StagedOkStays(cfg, s, s', b, y);
      }
      forall b, c | b in s'.rows && c in s'.rows
        ensures BindingOk(s', b, c)
      {
        BindingFact(cfg, s, b, c);
        BindingOkStays(s, s', b, c);
      }
      RetainedFacts(cfg, s, r);
      StoreStepKeeps(cfg, s, s');
    }
  }

  lemma RetainedFacts(cfg: Config, s: State, r: ResendRequest)
    requires Inv(cfg, s)
    ensures var s' := ApplyResend(s, r);
            forall a :: a in s'.retained ==> s'.retained[a] in s'.resends && s'.retained[a].target.attemptId == a
  {
    hide RowOk, StagedOk;
  }

  lemma ResendExtends(cfg: Config, s: State, r: ResendRequest)
    ensures Extends(s, ApplyResend(s, r))
  {
    hide Inv;
  }

  /** A request is retained only before its deadline, so an answer of `Expired` stays true. */
  lemma AnsweredReplyOk(cfg: Config, s: State, r: ResendRequest, b: AttemptId, k: ResendKind)
    requires Inv(cfg, s) && r in s.resends && (b, k) in ApplyResend(s, r).replies
    ensures ReplyOk(ApplyResend(s, r), b, k)
  {
    hide RowOk, BindingOk, TaskOk, EvidenceOk, CommittedOk, EndsStaged;
    var a := r.target.attemptId;
    assert ResendOk(s, r);
    var x: Action :| x.Resend? && (a, x) in s.staged && r == ResendOf(r.target, x);
    StagedFact(cfg, s, a, x);
    if (b, k) in s.replies { assert ReplyOk(s, b, k); }
  }

  lemma AdvanceKeeps(cfg: Config, s: State, store: nat, scheduler: nat)
    requires Inv(cfg, s)
    ensures Inv(cfg, Apply(cfg, s, AdvanceClocks(store, scheduler)))
  {
    hide TaskOk;
    var s' := Apply(cfg, s, AdvanceClocks(store, scheduler));
    assert Extends(s, s');
    forall b | b in s'.rows ensures RowOk(cfg, s', b) { RowOkExtends(cfg, s, s', b); }
    forall b, y | (b, y) in s'.staged ensures StagedOk(cfg, s', b, y) { assert StagedOk(cfg, s, b, y); }
    forall b, c | b in s'.rows && c in s'.rows ensures BindingOk(s', b, c) { assert BindingOk(s, b, c); }
    forall b, k | (b, k) in s'.replies ensures ReplyOk(s', b, k) { assert ReplyOk(s, b, k); }
    StoreStepKeeps(cfg, s, s');
  }

  // ----- all of them -----

  lemma StepKeepsInvariant(cfg: Config, s: State, step: Step)
    requires Inv(cfg, s)
    ensures Inv(cfg, Apply(cfg, s, step))
  {
    hide Inv, PlanFor;
    match step
    case AdvanceClocks(store, scheduler) => AdvanceKeeps(cfg, s, store, scheduler);
    case ScheduleAccepted(target) => ScheduleKeeps(cfg, s, target);
    case ClaimDue(a, token, leaseExpiresAt, now, duplicate, replyLost) =>
      ClaimKeeps(cfg, s, a, token, leaseExpiresAt, now, duplicate, replyLost);
    case Triage(token) => TriageKeeps(cfg, s, token);
    case PollResult(token, query, random) => PollKeeps(cfg, s, token, query, random);
    case CommitDecision(request) => CommitKeeps(cfg, s, request);
    case StageAcknowledged(token) => StageAcknowledgedKeeps(cfg, s, token);
    case CommitResend(resend) => CommitResendKeeps(cfg, s, resend);
    case ResendAnswered(token, kind) => ResendAnsweredKeeps(cfg, s, token, kind);
    case EvidenceRecorded(token) => EvidenceRecordedKeeps(cfg, s, token);
    case EndpointInvalidated(token) => EndpointInvalidatedKeeps(cfg, s, token);
    case Crash(token) => if token in s.tasks { EndKeeps(cfg, s, token, s.tasks[token].(pc := Ended)); }
  }

  lemma {:induction false} RunKeepsInvariant(cfg: Config, s: State, steps: seq<Step>)
    requires Inv(cfg, s)
    ensures Inv(cfg, Run(cfg, s, steps))
  {
    if steps != [] {
      RunKeepsInvariant(cfg, s, steps[..|steps| - 1]);
      StepKeepsInvariant(cfg, Run(cfg, s, steps[..|steps| - 1]), steps[|steps| - 1]);
    }
  }
}
