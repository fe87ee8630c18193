/**
 What holds of the receipt lifecycle over every run: any number of runners, in any interleaving,
 with crashes, lost replies, late and repeated requests, expired leases and drifting runner clocks.
 */
module ReceiptTheorems {
  import opened Wrappers
  import opened ExpoProtocol
  import opened PollSchedule
  import opened ReceiptClaims
  import opened ReceiptProtocol
  import opened ReceiptInvariant
  import opened ReceiptSteps

  /** A state that some run of some deployment reaches. */
  ghost predicate Reachable(cfg: Config, s: State) {
    exists store: int, scheduler: int, steps: seq<Step> :: s == Run(cfg, Initial(store, scheduler), steps)
  }

  lemma ReachableInvariant(cfg: Config, s: State)
    requires Reachable(cfg, s)
    ensures Inv(cfg, s)
  {
    var store: int, scheduler: int, steps: seq<Step> :| s == Run(cfg, Initial(store, scheduler), steps);
    RunKeepsInvariant(cfg, Initial(store, scheduler), steps);
  }

  /** All evidence ever asked for one attempt is one piece of evidence, and follows from its one staged action. */
  lemma EvidenceIsUnique(cfg: Config, s: State, e: Evidence, f: Evidence)
    requires Reachable(cfg, s)
    requires e in s.evidence && f in s.evidence && e.attemptId == f.attemptId
    ensures e == f && e.attemptId in s.rows
    ensures exists x, d: Decision :: (e.attemptId, x) in s.staged && Settles(x, d) &&
              (d.TerminalDlq? || d.ResendScheduled?) &&
                           e == EvidenceOf(s.rows[e.attemptId].target, d)
  {
    ReachableInvariant(cfg, s);
    var a := e.attemptId;
    assert EvidenceOk(s, e) && EvidenceOk(s, f);
    var d: Decision :| (d.TerminalDlq? || d.ResendScheduled?) && EndsStaged(s, a, d) &&
      e == EvidenceOf(s.rows[a].target, d);
    var d': Decision :| (d'.TerminalDlq? || d'.ResendScheduled?) && EndsStaged(s, a, d') &&
      f == EvidenceOf(s.rows[a].target, d');
    EndIsUnique(cfg, s, a, d, d');
    var x :| (a, x) in s.staged && Follows(s, a, x, d);
  }

  lemma EndIsUnique(cfg: Config, s: State, a: AttemptId, d: Decision, d': Decision)
    requires Inv(cfg, s) && EndsStaged(s, a, d) && EndsStaged(s, a, d')
    ensures d == d'
  {
    hide RowOk, TaskOk, BindingOk, DecideOk, CommittedOk, ResendOk, EvidenceOk, ActionIsValid;
    var x :| (a, x) in s.staged && Follows(s, a, x, d);
    var y :| (a, y) in s.staged && Follows(s, a, y, d');
    assert StagedOk(cfg, s, a, x);
    assert (a, Scheduled) in s.replies ==> ReplyOk(s, a, Scheduled);
    assert (a, Expired) in s.replies ==> ReplyOk(s, a, Expired);
  }

  // ----- what the rest of a run can change -----

  /** A row is bound for good, moves its due time only forward, and stands still once it is final or in conflict. */
  ghost predicate RowKeeps(before: Row, after: Row) {
    && after.target == before.target
    && before.dueAt <= after.dueAt && before.pollAttemptNumber <= after.pollAttemptNumber
    && (after.pollAttemptNumber == before.pollAttemptNumber ==> after.dueAt == before.dueAt)
    && (after.pollAttemptNumber != before.pollAttemptNumber ==> before.dueAt < after.dueAt)
    && (before.referenceState.Conflict? ==>
          after.referenceState.Conflict? && after.pollAttemptNumber == before.pollAttemptNumber)
    && (before.final.Some? ==> after == before)
  }

  ghost predicate Grows(s: State, s': State) {
    && (forall a :: a in s.rows ==> a in s'.rows && RowKeeps(s.rows[a], s'.rows[a]))
    && s.staged <= s'.staged && s.evidence <= s'.evidence
    && (forall a :: a in s.retained ==> a in s'.retained && s'.retained[a] == s.retained[a])
  }

  lemma CommittingLeaseMatches(cfg: Config, s: State, r: DecideRequest)
    requires Inv(cfg, s) && r in s.decides && Accepts(s, r)
    ensures LeaseMatches(s, s.rows[r.attemptId])
  {
    hide Inv;
    DecisionFacts(cfg, s, r);
  }

  lemma CommitGrows(cfg: Config, s: State, r: DecideRequest)
    requires Inv(cfg, s)
    ensures Grows(s, ApplyCommit(s, r))
  {
    hide Inv, RowOk, EndsStaged, PollIsSound, StageJustified, ActionIsValid, ClaimIsValid, TargetIsConsistent;
    if r in s.decides && Accepts(s, r) {
      DecisionFacts(cfg, s, r);
      CommittingLeaseMatches(cfg, s, r);
    }
  }

  lemma StoreStepGrows(cfg: Config, s: State, step: Step)
    requires step.ScheduleAccepted? || step.ClaimDue? || step.CommitResend? || step.AdvanceClocks? || step.Crash?
    ensures Grows(s, Apply(cfg, s, step))
  {
    hide TargetIsConsistent, ClaimIsValid;
  }

  lemma EarlyTaskStepGrows(cfg: Config, s: State, step: Step)
    requires step.Triage? || step.PollResult? || step.StageAcknowledged?
    ensures Grows(s, Apply(cfg, s, step))
  {
    hide PlanFor, ActionIsValid, ClaimIsValid, RetryDelay, NextPollAt;
  }

  lemma LateTaskStepGrows(cfg: Config, s: State, step: Step)
    requires step.ResendAnswered? || step.EvidenceRecorded? || step.EndpointInvalidated?
    ensures Grows(s, Apply(cfg, s, step))
  {
  }

  lemma StepGrows(cfg: Config, s: State, step: Step)
    requires Inv(cfg, s)
    ensures Grows(s, Apply(cfg, s, step))
  {
    hide Inv, Grows;
    match step
    case CommitDecision(request) => CommitGrows(cfg, s, request);
    case ScheduleAccepted(_) | ClaimDue(_, _, _, _, _, _) | CommitResend(_) | AdvanceClocks(_, _) | Crash(_) =>
      StoreStepGrows(cfg, s, step);
    case Triage(_) | PollResult(_, _, _) | StageAcknowledged(_) => EarlyTaskStepGrows(cfg, s, step);
    case ResendAnswered(_, _) | EvidenceRecorded(_) | EndpointInvalidated(_) => LateTaskStepGrows(cfg, s, step);
  }

  lemma {:induction false} RunGrows(cfg: Config, s: State, steps: seq<Step>)
    requires Inv(cfg, s)
    ensures Grows(s, Run(cfg, s, steps))
  {
    hide Apply, Inv;
    if steps != [] {
      var before := steps[..|steps| - 1];
      RunGrows(cfg, s, before);
      RunKeepsInvariant(cfg, s, before);
      StepGrows(cfg, Run(cfg, s, before), steps[|steps| - 1]);
    }
  }

  /** An attempt is staged with at most one action, now and in every continuation of the run. */
  lemma StagedActionNeverChanges(cfg: Config, s: State, more: seq<Step>, a: AttemptId, x: Action, y: Action)
    requires Reachable(cfg, s)
    requires (a, x) in s.staged && (a, y) in Run(cfg, s, more).staged
    ensures x == y
  {
    ReachableInvariant(cfg, s);
    RunKeepsInvariant(cfg, s, more);
    RunGrows(cfg, s, more);
    assert StagedOk(cfg, Run(cfg, s, more), a, y);
  }

  // ----- resend and expiry, completion, invalidation -----

  /** A resend the scheduler keeps and an expiry are never both recorded. */
  lemma ResendExcludesExpiry(cfg: Config, s: State, e: Evidence)
    requires Reachable(cfg, s) && e in s.evidence && e.attemptId in s.retained
    ensures e.attemptId in s.rows && e == EvidenceFor(s.rows[e.attemptId].target, FailedEnd, MessageRateExceeded)
  {
    hide RowOk, TaskOk, BindingOk, DecideOk, CommittedOk, ActionIsValid, Run;
    ReachableInvariant(cfg, s);
    var a := e.attemptId;
    var d: Decision :| (d.TerminalDlq? || d.ResendScheduled?) && EndsStaged(s, a, d) &&
      e == EvidenceOf(s.rows[a].target, d);
    var x :| (a, x) in s.staged && Follows(s, a, x, d);
    assert ResendOk(s, s.retained[a]);
    var y: Action :| y.Resend? && (a, y) in s.staged && s.retained[a] == ResendOf(s.retained[a].target, y);
    assert StagedOk(cfg, s, a, x);
    assert (a, Expired) in s.replies ==> ReplyOk(s, a, Expired);
  }

  /**
   A final row says what the evidence says: completion means no evidence was ever asked for, any
   other end means that its own evidence was asked for before the decision was.
   */
  lemma FinalAgreesWithEvidence(cfg: Config, s: State, a: AttemptId)
    requires Reachable(cfg, s) && a in s.rows && s.rows[a].final.Some?
    ensures s.rows[a].final.value.Complete? ==> forall e :: e in s.evidence ==> e.attemptId != a
    ensures !s.rows[a].final.value.Complete? ==>
              && (s.rows[a].final.value.TerminalDlq? || s.rows[a].final.value.ResendScheduled?)
              && EvidenceOf(s.rows[a].target, s.rows[a].final.value) in s.evidence
              && (s.rows[a].final.value.ResendScheduled? ==> a in s.retained)
  {
    ReachableInvariant(cfg, s);
    assert RowOk(cfg, s, a);
    var d := s.rows[a].final.value;
    if d.Complete? {
      forall e | e in s.evidence ensures e.attemptId != a { assert EvidenceOk(s, e); }
    } else {
      var x :| (a, x) in s.staged && Follows(s, a, x, d);
      if d.ResendScheduled? { assert ReplyOk(s, a, Scheduled); }
    }
  }

  /** No runner asks the store for a terminal decision before its evidence, or without a staged action. */
  lemma TerminalDecisionsFollowEvidence(cfg: Config, s: State, r: DecideRequest)
    requires Reachable(cfg, s) && r in s.decides && (r.decision.TerminalDlq? || r.decision.ResendScheduled?)
    ensures r.attemptId in s.rows && EvidenceOf(s.rows[r.attemptId].target, r.decision) in s.evidence
    ensures exists x :: (r.attemptId, x) in s.staged && Settles(x, r.decision)
  {
    ReachableInvariant(cfg, s);
    assert DecideOk(cfg, s, r);
    var x :| (r.attemptId, x) in s.staged && Follows(s, r.attemptId, x, r.decision);
  }

  /** An endpoint is invalidated only for a device that is not registered, after that evidence. */
  lemma InvalidationFollowsEvidence(cfg: Config, s: State, a: AttemptId)
    requires Reachable(cfg, s) && a in s.invalidated
    ensures (a, TerminalFailure(DeviceNotRegistered, true)) in s.staged
    ensures a in s.rows && EvidenceFor(s.rows[a].target, FailedEnd, DeviceNotRegistered) in s.evidence
  {
    ReachableInvariant(cfg, s);
    var d := TerminalDlq(FailedEnd, DeviceNotRegistered);
    assert EndsStaged(s, a, d);
    var x :| (a, x) in s.staged && Follows(s, a, x, d);
    assert StagedOk(cfg, s, a, x);
  }

  // ----- conflicting receipt IDs -----

  ghost predicate EndsInConflict(row: Row) {
    row.final == Some(TerminalDlq(UnknownEnd, ReceiptReferenceConflict))
  }

  /** Of two attempts bound to one receipt ID, at most one ends with anything but the conflict. */
  lemma ConflictLeavesOneWinner(cfg: Config, s: State, a: AttemptId, b: AttemptId)
    requires Reachable(cfg, s) && a in s.rows && b in s.rows && a != b
    requires s.rows[a].target.receiptId == s.rows[b].target.receiptId
    requires s.rows[a].final.Some? && s.rows[b].final.Some?
    ensures EndsInConflict(s.rows[a]) || EndsInConflict(s.rows[b])
  {
    ReachableInvariant(cfg, s);
    assert BindingOk(s, a, b) && RowOk(cfg, s, a) && RowOk(cfg, s, b);
  }

  /**
   Once a conflict has won, it stays, and whatever stale claims are still at work, the attempt is
   never rescheduled, completed or resent, and its only evidence is the conflict's.
   */
  lemma ConflictIsSticky(cfg: Config, s: State, more: seq<Step>, a: AttemptId)
    requires Reachable(cfg, s) && a in s.rows && s.rows[a].referenceState.Conflict?
    ensures var s' := Run(cfg, s, more);
            && a in s'.rows && s'.rows[a].referenceState.Conflict?
            && s'.rows[a].dueAt == s.rows[a].dueAt && s'.rows[a].pollAttemptNumber == s.rows[a].pollAttemptNumber
            && (s'.rows[a].final.Some? ==> EndsInConflict(s'.rows[a]))
            && a !in s'.retained && (forall r :: r in s'.resends ==> r.target.attemptId != a)
            && (forall x :: (a, x) in s'.staged ==> x == CONFLICT_ACTION)
            && (forall e :: e in s'.evidence && e.attemptId == a ==>
                  e == EvidenceFor(s.rows[a].target, UnknownEnd, ReceiptReferenceConflict))
  {
    hide TaskOk, BindingOk, DecideOk, CommittedOk, ReplyOk, ActionIsValid, PollIsSound, LeaseMatches, Run;
    ReachableInvariant(cfg, s);
    RunKeepsInvariant(cfg, s, more);
    RunGrows(cfg, s, more);
    var s' := Run(cfg, s, more);
    assert RowOk(cfg, s', a);
    forall x | (a, x) in s'.staged ensures x == CONFLICT_ACTION { assert StagedOk(cfg, s', a, x); }
    forall r | r in s'.resends ensures r.target.attemptId != a { assert ResendOk(s', r); }
    forall e | e in s'.evidence && e.attemptId == a
      ensures e == EvidenceFor(s.rows[a].target, UnknownEnd, ReceiptReferenceConflict)
    {
      assert EvidenceOk(s', e);
    }
  }

  /** The batch-level duplicate check never stages a conflict that the store does not hold. */
  lemma DuplicateClaimIsConflict(cfg: Config, s: State, a: AttemptId)
    requires Reachable(cfg, s) && a in s.rows && Claimable(s, s.rows[a])
    requires SharesReceipt(s, a, s.rows[a].target.receiptId) && s.rows[a].pendingAction.None?
    ensures s.rows[a].referenceState.Conflict?
  {
    ReachableInvariant(cfg, s);
    DuplicateIsConflict(cfg, s, a);
  }

  // ----- leases -----

  /**
   What a step may do to a row: lease it to a new token, if it is due, open and under no live lease; mark it
   as conflicting; or, by the decision of the live lease's holder alone, anything else.
   */
  lemma LeaseGuardsRow(cfg: Config, s: State, step: Step, a: AttemptId)
    requires a in s.rows
    ensures a in Apply(cfg, s, step).rows
    ensures var row, next := s.rows[a], Apply(cfg, s, step).rows[a];
            && (next.lease == row.lease || next.lease.None?
                || (&& step.ClaimDue? && row.final.None? && row.dueAt <= s.storeClock
                    && (row.lease.Some? ==> row.lease.value.expiresAt <= s.storeClock)
                    && next.lease == Some(Lease(step.token, step.leaseExpiresAt)) && step.token !in s.tasks))
            && (next.(lease := row.lease, referenceState := row.referenceState) == row
                || (&& step.CommitDecision? && step.request.attemptId == a && row.lease.Some?
                    && row.lease.value.token == step.request.leaseToken
                    && s.storeClock < row.lease.value.expiresAt))
  {
    hide PlanFor, ActionIsValid, ClaimIsValid, RetryDelay, NextPollAt;
  }

  // ----- polling -----

  /**
   The limit of 10,000 polls is never near: no run takes an attempt past its 36th. Polls fall due between
   a quarter of an hour and 23 hours and 45 minutes after the receipt was recorded.
   */
  lemma PollingIsBounded(cfg: Config, s: State, a: AttemptId)
    requires Reachable(cfg, s) && a in s.rows
    ensures 1 <= s.rows[a].pollAttemptNumber <= 36
    ensures var recordedAt := s.rows[a].target.recordedAt;
            recordedAt + 15 * 60_000 <= s.rows[a].dueAt <= recordedAt + (23 * 60 + 45) * 60_000
  {
    ReachableInvariant(cfg, s);
    assert RowOk(cfg, s, a);
  }

  /** Every reschedule moves the due time strictly forward, over any part of a run. */
  lemma DueTimesRise(cfg: Config, s: State, more: seq<Step>, a: AttemptId)
    requires Reachable(cfg, s) && a in s.rows
    ensures a in Run(cfg, s, more).rows && RowKeeps(s.rows[a], Run(cfg, s, more).rows[a])
  {
    ReachableInvariant(cfg, s);
    RunGrows(cfg, s, more);
  }

  /**
   Whatever claim the store can hand out, the claim parser takes it exactly when the runner's clock
   agrees: the row is due by it, the lease is inside its window, and a staged horizon has passed.
   */
  lemma StoreClaimsParse(cfg: Config, s: State, a: AttemptId, token: Token, leaseExpiresAt: int, now: int)
    requires Reachable(cfg, s) && a in s.rows && Claimable(s, s.rows[a])
    ensures var row := s.rows[a];
            ClaimIsValid(cfg, ClaimOf(row, token, leaseExpiresAt), now) <==>
              && row.dueAt <= now
              && now < leaseExpiresAt <= now + cfg.leaseMilliseconds + 30_000
              && (row.pendingAction.Some? && row.pendingAction.value.TerminalUnknown? &&
                   row.pendingAction != Some(CONFLICT_ACTION) ==>
                    row.target.HorizonAt() <= now)
  {
    ReachableInvariant(cfg, s);
    var row := s.rows[a];
    assert RowOk(cfg, s, a);
    if row.pendingAction.Some? {
      assert StagedOk(cfg, s, a, row.pendingAction.value);
    }
  }
}
