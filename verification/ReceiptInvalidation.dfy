/**
 Order of the side effects of a device that is not registered: its endpoint is invalidated before the
 store is asked to close the attempt, so no attempt is closed with the invalidation forgotten.
 */
module ReceiptInvalidation {
  import opened Wrappers
  import opened ExpoProtocol
  import opened PollSchedule
  import opened ReceiptClaims
  import opened ReceiptProtocol
  import opened ReceiptInvariant
  import opened ReceiptSteps
  import opened ReceiptTheorems

  const NOT_REGISTERED := TerminalDlq(FailedEnd, DeviceNotRegistered)

  /** A task about to close an attempt so is about to invalidate its endpoint, or has done so. */
  predicate Announces(s: State, task: Task) {
    match task.pc
    case AwaitEvidence(invalidates, next) => next == NOT_REGISTERED ==> invalidates
    case AwaitInvalidation(_) => task.AttemptId() in s.invalidated
    case _ => true
  }

  ghost predicate Announced(s: State) {
    && (forall t :: t in s.tasks ==> Announces(s, s.tasks[t]))
    && (forall r :: r in s.decides && r.decision == NOT_REGISTERED ==> r.attemptId in s.invalidated)
    && (forall a :: a in s.rows && s.rows[a].final == Some(NOT_REGISTERED) ==> a in s.invalidated)
  }

  lemma DecideAnnounced(s: State, t: Token, task: Task, decision: Decision)
    requires Announced(s) && task.pc.Ended? && (decision == NOT_REGISTERED ==> task.AttemptId() in s.invalidated)
    ensures Announced(Decide(s, t, task, decision))
  {
  }

  lemma StageAnnounced(s: State, t: Token, task: Task, x: Action)
    requires Announced(s)
    ensures Announced(Decide(s, t, task.(plan := Some(x), pc := AwaitStage), Stage(x)))
  {
  }

  lemma TaskAnnounced(s: State, t: Token, task: Task)
    requires Announced(s) && Announces(s, task)
    ensures Announced(WithTask(s, t, task))
  {
  }

  lemma ExecuteAnnounced(s: State, t: Token, task: Task, x: Action, sourceAttemptNumber: int, maxSendAttempts: int,
                         expiresAt: int)
    requires Announced(s) && ActionIsValid(x, sourceAttemptNumber, maxSendAttempts, expiresAt)
    ensures Announced(Execute(s, t, task, x))
  {
  }

  lemma StageKnownAnnounced(cfg: Config, s: State, t: Token, task: Task, x: Action)
    requires Announced(s)
    ensures Announced(StageKnown(cfg, s, t, task, x))
  {
    hide Announced, ActionIsValid, Decide;
    StageAnnounced(s, t, task, x);
    TaskAnnounced(s, t, task.(pc := Ended));
  }

  lemma TriageAnnounced(cfg: Config, s: State, t: Token)
    requires Inv(cfg, s) && Announced(s)
    ensures Announced(ApplyTriage(cfg, s, t))
  {
    hide Inv, Announced, Execute, StageKnown, WithTask, ActionIsValid, StagedOk, RowOk, EndsStaged;
    if t in s.tasks && s.tasks[t].pc.Claimed? {
      var task := s.tasks[t];
      var claim := task.claim;
      TaskFact(cfg, s, t);
      if claim.pendingAction.Some? {
        ExecuteAnnounced(s, t, task.(plan := claim.pendingAction), claim.pendingAction.value,
                         claim.target.attemptNumber, cfg.maxSendAttempts, claim.target.expiresAt);
      } else {
        StageKnownAnnounced(cfg, s, t, task, CONFLICT_ACTION);
        StageKnownAnnounced(cfg, s, t, task, TerminalUnknown(HorizonReason(claim.lastReason)));
        TaskAnnounced(s, t, task.(pc := Polling));
      }
    }
  }

  lemma PollAnnounced(cfg: Config, s: State, t: Token, query: QueryResult, random: Random)
    requires Announced(s)
    ensures Announced(ApplyPoll(cfg, s, t, query, random))
  {
    hide Announced, PlanFor, StageKnown, WithTask, Decide, TargetIsConsistent, ActionIsValid;
    if TaskAt(s, t, Polling) && ClaimIsValid(cfg, s.tasks[t].claim, s.tasks[t].now) {
      var task := s.tasks[t];
      PollNeverEndsUnstaged(cfg, task.claim, query, task.now, random);
      match PlanFor(cfg, task.claim, query, task.now, random)
      case None => TaskAnnounced(s, t, task.(pc := Ended));
      case Some(PlanComplete) => DecideAnnounced(s, t, task.(pc := Ended), Complete);
      case Some(PlanReschedule(reason)) =>
        var delay := RetryDelay(task.claim.pollAttemptNumber, random);
        if delay.None? {
          TaskAnnounced(s, t, task.(pc := Ended));
        } else {
          var nextPollAt := NextPollAt(task.claim, task.now, delay.value);
          DecideAnnounced(s, t, task.(pc := Ended),
                          Reschedule(nextPollAt, task.claim.pollAttemptNumber + 1, reason));
        }
      case Some(PlanStage(action)) => StageKnownAnnounced(cfg, s, t, task, action);
    }
  }

  lemma StageAcknowledgedAnnounced(cfg: Config, s: State, t: Token)
    requires Inv(cfg, s) && Announced(s)
    ensures Announced(ApplyStageAcknowledged(s, t))
  {
    hide Announced, Execute, ActionIsValid, RowOk, TaskOk, BindingOk, DecideOk, ResendOk, ReplyOk, EvidenceOk;
    hide EndsStaged;
    if TaskAt(s, t, AwaitStage) && s.tasks[t].plan.Some? {
      var task := s.tasks[t];
      var request := DecideRequest(task.AttemptId(), task.claim.target.fingerprint, t, Stage(task.plan.value));
      if request in s.committed {
        assert CommittedOk(s, request);
        StagedFact(cfg, s, task.AttemptId(), task.plan.value);
        var target := s.rows[task.AttemptId()].target;
        ExecuteAnnounced(s, t, task, task.plan.value, target.attemptNumber, cfg.maxSendAttempts, target.expiresAt);
      }
    }
  }

  lemma LateStepAnnounced(cfg: Config, s: State, step: Step)
    requires Announced(s)
    requires step.ResendAnswered? || step.EvidenceRecorded? || step.EndpointInvalidated? || step.Crash?
    ensures Announced(Apply(cfg, s, step))
  {
  }

  lemma StoreStepAnnounced(cfg: Config, s: State, step: Step)
    requires Announced(s)
    requires step.ScheduleAccepted? || step.ClaimDue? || step.CommitDecision? || step.CommitResend? ||
               step.AdvanceClocks?
    ensures Announced(Apply(cfg, s, step))
  {
    hide ClaimIsValid, TargetIsConsistent;
  }

  lemma StepAnnounced(cfg: Config, s: State, step: Step)
    requires Inv(cfg, s) && Announced(s)
    ensures Announced(Apply(cfg, s, step))
  {
    hide Inv, Announced, ApplyTriage, ApplyPoll, ApplyStageAcknowledged;
    match step
    case Triage(t) => TriageAnnounced(cfg, s, t);
    case PollResult(t, query, random) => PollAnnounced(cfg, s, t, query, random);
    case StageAcknowledged(t) => StageAcknowledgedAnnounced(cfg, s, t);
    case ResendAnswered(_, _) | EvidenceRecorded(_) | EndpointInvalidated(_) | Crash(_) =>
      LateStepAnnounced(cfg, s, step);
    case _ => StoreStepAnnounced(cfg, s, step);
  }

  lemma {:induction false} RunAnnounced(cfg: Config, s: State, steps: seq<Step>)
    requires Inv(cfg, s) && Announced(s)
    ensures Announced(Run(cfg, s, steps))
  {
    hide Apply, Inv, Announced;
    if steps != [] {
      var before := steps[..|steps| - 1];
      RunAnnounced(cfg, s, before);
      RunKeepsInvariant(cfg, s, before);
      StepAnnounced(cfg, Run(cfg, s, before), steps[|steps| - 1]);
    }
  }

  /** No attempt is closed for an unregistered device, nor asked to be, before its endpoint was invalidated. */
  lemma UnregisteredIsInvalidated(cfg: Config, s: State, a: AttemptId)
    requires Reachable(cfg, s)
    ensures a in s.rows && s.rows[a].final == Some(TerminalDlq(FailedEnd, DeviceNotRegistered)) ==> a in s.invalidated
    ensures forall r :: r in s.decides && r.attemptId == a ==>
              r.decision == TerminalDlq(FailedEnd, DeviceNotRegistered) ==> a in s.invalidated
  {
    var store: int, scheduler: int, steps: seq<Step> :| s == Run(cfg, Initial(store, scheduler), steps);
    RunAnnounced(cfg, Initial(store, scheduler), steps);
  }
}
