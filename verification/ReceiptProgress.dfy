/**
 No attempt is ever stuck: whatever crashed, expired or was answered late, a run of the receipt
 lifecycle can always be continued so that a given attempt reaches a final decision.
 */
module ReceiptProgress {
  import opened Wrappers
  import opened PollSchedule
  import opened ReceiptClaims
  import opened ReceiptProtocol
  import opened ReceiptInvariant
  import opened ReceiptSteps
  import opened ReceiptTheorems

  ghost predicate IsFinished(s: State, a: AttemptId) { a in s.rows && s.rows[a].final.Some? }

  ghost predicate CanFinish(cfg: Config, s: State, a: AttemptId) {
    exists more: seq<Step> :: IsFinished(Run(cfg, s, more), a)
  }

  // ----- one step back -----

  lemma {:induction false} RunAfterStep(cfg: Config, s: State, step: Step, more: seq<Step>)
    ensures Run(cfg, s, [step] + more) == Run(cfg, Apply(cfg, s, step), more)
  {
    hide Apply;
    var steps := [step] + more;
    if more == [] {
      assert steps[..|steps| - 1] == [];
    } else {
      assert steps[..|steps| - 1] == [step] + more[..|more| - 1];
      RunAfterStep(cfg, s, step, more[..|more| - 1]);
    }
  }

  lemma StepFirst(cfg: Config, s: State, step: Step, a: AttemptId)
    requires CanFinish(cfg, Apply(cfg, s, step), a)
    ensures CanFinish(cfg, s, a)
  {
    hide Apply, Run, IsFinished;
    var more: seq<Step> :| IsFinished(Run(cfg, Apply(cfg, s, step), more), a);
    RunAfterStep(cfg, s, step, more);
  }

  lemma FinishedCanFinish(cfg: Config, s: State, a: AttemptId)
    requires IsFinished(s, a)
    ensures CanFinish(cfg, s, a)
  {
    assert Run(cfg, s, []) == s;
  }

  // ----- a task that holds the lease and carries out the staged action -----

  /** Task `t` holds the current lease of `a`, whose row has `x` staged. */
  ghost predicate Holds(s: State, a: AttemptId, t: Token, x: Action) {
    && a in s.rows && t in s.tasks
    && s.rows[a].final.None? && s.rows[a].pendingAction == Some(x)
    && s.rows[a].lease.Some? && s.rows[a].lease.value.token == t && s.storeClock < s.rows[a].lease.value.expiresAt
    && s.tasks[t].claim.target == s.rows[a].target && s.rows[a].target.attemptId == a
    && (s.rows[a].referenceState.Conflict? ==> x == CONFLICT_ACTION)
  }

  lemma DecidedFinishes(cfg: Config, s: State, a: AttemptId, t: Token, x: Action, task: Task, d: Decision)
    requires Holds(s, a, t, x) && Settles(x, d)
    requires task.claim == s.tasks[t].claim
    ensures CanFinish(cfg, Decide(s, t, task, d), a)
  {
    var s' := Decide(s, t, task, d);
    var request := DecideRequest(a, s.rows[a].target.fingerprint, t, d);
    assert request in s'.decides && Accepts(s', request);
    FinishedCanFinish(cfg, Apply(cfg, s', CommitDecision(request)), a);
    StepFirst(cfg, s', CommitDecision(request), a);
  }

  lemma AwaitingEvidenceFinishes(cfg: Config, s: State, a: AttemptId, t: Token, x: Action)
    requires Holds(s, a, t, x) && s.tasks[t].pc.AwaitEvidence? && Settles(x, s.tasks[t].pc.next)
    ensures CanFinish(cfg, s, a)
  {
    hide CanFinish, Accepts, Settles;
    var task := s.tasks[t];
    if task.pc.invalidates {
      var s' := Apply(cfg, s, EvidenceRecorded(t));
      DecidedFinishes(cfg, s', a, t, x, s'.tasks[t].(pc := Ended), task.pc.next);
      StepFirst(cfg, s', EndpointInvalidated(t), a);
    } else {
      DecidedFinishes(cfg, s, a, t, x, task.(pc := Ended), task.pc.next);
    }
    StepFirst(cfg, s, EvidenceRecorded(t), a);
  }

  /** What the scheduler keeps for the attempt, if anything, is the request that the action makes. */
  predicate ResendAgrees(s: State, a: AttemptId, x: Action) {
    x.Resend? && a in s.retained ==> a in s.rows && s.retained[a] == ResendOf(s.rows[a].target, x)
  }

  lemma StagedResendAgrees(cfg: Config, s: State, a: AttemptId, x: Action)
    requires Inv(cfg, s) && (a, x) in s.staged
    ensures ResendAgrees(s, a, x)
  {
    if a in s.retained {
      StagedFact(cfg, s, a, x);
      assert ResendOk(s, s.retained[a]);
    }
  }

  /** The scheduler always answers a resend that agrees with what it keeps. */
  lemma AwaitingResendFinishes(cfg: Config, s: State, a: AttemptId, t: Token, x: Action)
    requires Holds(s, a, t, x) && x.Resend? && ResendAgrees(s, a, x)
    requires s.tasks[t].pc.AwaitResend? && s.tasks[t].plan == Some(x) && ResendOf(s.rows[a].target, x) in s.resends
    ensures CanFinish(cfg, s, a)
  {
    hide CanFinish, Accepts;
    var r := ResendOf(s.rows[a].target, x);
    var s' := Apply(cfg, s, CommitResend(r));
    var kind := if (a, Scheduled) in s'.replies then Scheduled else Expired;
    assert (a, kind) in s'.replies;
    var s'' := Apply(cfg, s', ResendAnswered(t, kind));
    AwaitingEvidenceFinishes(cfg, s'', a, t, x);
    StepFirst(cfg, s', ResendAnswered(t, kind), a);
    StepFirst(cfg, s, CommitResend(r), a);
  }

  lemma ExecuteFinishes(cfg: Config, s: State, a: AttemptId, t: Token, x: Action, task: Task)
    requires Holds(s, a, t, x) && ResendAgrees(s, a, x)
    requires task.claim == s.tasks[t].claim && task.plan == Some(x)
    ensures CanFinish(cfg, Execute(s, t, task, x), a)
  {
    hide CanFinish, Accepts;
    var s' := Execute(s, t, task, x);
    if x.Resend? {
      AwaitingResendFinishes(cfg, s', a, t, x);
    } else {
      AwaitingEvidenceFinishes(cfg, s', a, t, x);
    }
  }

  // ----- from a fresh claim to the staged action -----

  /** Task `t` has just claimed `a`, at or after its horizon. */
  ghost predicate JustClaimed(s: State, a: AttemptId, t: Token) {
    && a in s.rows && t in s.tasks
    && var row, task := s.rows[a], s.tasks[t];
       && row.final.None? && row.target.attemptId == a
       && row.lease == Some(Lease(t, task.claim.leaseExpiresAt)) && s.storeClock < task.claim.leaseExpiresAt
       && task.claim == ClaimOf(row, t, task.claim.leaseExpiresAt)
       && task.pc == Claimed(false) && row.target.HorizonAt() <= task.now
       && (row.referenceState.Conflict? && row.pendingAction.Some? ==> row.pendingAction == Some(CONFLICT_ACTION))
  }

  /** What such a claim stages, if nothing is staged yet. */
  function ActionFor(row: Row): Action {
    if row.referenceState.Conflict? then CONFLICT_ACTION else TerminalUnknown(HorizonReason(row.lastReason))
  }

  lemma AcknowledgedFinishes(cfg: Config, s: State, a: AttemptId, t: Token, x: Action)
    requires Holds(s, a, t, x) && ResendAgrees(s, a, x)
    requires s.tasks[t].pc.AwaitStage? && s.tasks[t].plan == Some(x)
    requires DecideRequest(a, s.rows[a].target.fingerprint, t, Stage(x)) in s.committed
    ensures CanFinish(cfg, s, a)
  {
    hide CanFinish, Accepts, Execute;
    ExecuteFinishes(cfg, s, a, t, x, s.tasks[t]);
    StepFirst(cfg, s, StageAcknowledged(t), a);
  }

  lemma TriagedActionFinishes(cfg: Config, s: State, a: AttemptId, t: Token, x: Action)
    requires JustClaimed(s, a, t) && s.rows[a].pendingAction == Some(x) && ResendAgrees(s, a, x)
    ensures CanFinish(cfg, ApplyTriage(cfg, s, t), a)
  {
    hide CanFinish, Execute;
    ExecuteFinishes(cfg, s, a, t, x, s.tasks[t].(plan := Some(x)));
  }

  lemma TriagedStageFinishes(cfg: Config, s: State, a: AttemptId, t: Token)
    requires JustClaimed(s, a, t) && s.rows[a].pendingAction.None?
    requires IsTerminalUnknownReason(HorizonReason(s.rows[a].lastReason))
    ensures CanFinish(cfg, ApplyTriage(cfg, s, t), a)
  {
    hide CanFinish, Execute;
    var x := ActionFor(s.rows[a]);
    var s' := ApplyTriage(cfg, s, t);
    var request := DecideRequest(a, s.rows[a].target.fingerprint, t, Stage(x));
    AcknowledgedFinishes(cfg, ApplyCommit(s', request), a, t, x);
    StepFirst(cfg, s', CommitDecision(request), a);
  }

  lemma TriageFinishes(cfg: Config, s: State, a: AttemptId, t: Token)
    requires JustClaimed(s, a, t) && IsTerminalUnknownReason(HorizonReason(s.rows[a].lastReason))
    requires s.rows[a].pendingAction.Some? ==> ResendAgrees(s, a, s.rows[a].pendingAction.value)
    ensures CanFinish(cfg, s, a)
  {
    hide CanFinish, ApplyTriage, ResendAgrees;
    if s.rows[a].pendingAction.Some? {
      TriagedActionFinishes(cfg, s, a, t, s.rows[a].pendingAction.value);
    } else {
      TriagedStageFinishes(cfg, s, a, t);
    }
    StepFirst(cfg, s, Triage(t), a);
  }

  // ----- from anywhere -----

  /** A lease token not in use: leases are never handed out twice. */
  lemma {:induction false} FreshToken(used: set<Token>) returns (t: Token)
    ensures forall u :: u in used ==> u < t
  {
    if used == {} {
      t := 0;
    } else {
      var u :| u in used;
      var below := FreshToken(used - {u});
      t := if below <= u then u + 1 else below;
      assert forall v :: v in used ==> v == u || v in used - {u};
    }
  }

  /** A store clock by which the row of `a` is past its horizon and its lease has run out. */
  function Later(s: State, a: AttemptId): (at: int)
    requires a in s.rows
    ensures s.storeClock <= at && s.rows[a].target.HorizonAt() <= at
    ensures s.rows[a].lease.Some? ==> s.rows[a].lease.value.expiresAt <= at
  {
    var row := s.rows[a];
    Max(s.storeClock, Max(row.target.HorizonAt(), if row.lease.Some? then row.lease.value.expiresAt else s.storeClock))
  }

  lemma ClaimFinishes(cfg: Config, s: State, a: AttemptId, t: Token)
    requires cfg.Valid() && Inv(cfg, s) && a in s.rows && s.rows[a].final.None? && t !in s.tasks
    requires s.storeClock == Later(s, a)
    ensures CanFinish(cfg, s, a)
  {
    hide CanFinish, Inv, EndsStaged, LeaseMatches, TaskOk;
    var now := s.storeClock;
    var step := ClaimDue(a, t, now + 1, now, false, false);
    RowFact(cfg, s, a);
    if s.rows[a].pendingAction.Some? {
      StagedFact(cfg, s, a, s.rows[a].pendingAction.value);
      StagedResendAgrees(cfg, s, a, s.rows[a].pendingAction.value);
    }
    assert ClaimIsValid(cfg, ClaimOf(s.rows[a], t, now + 1), now);
    TriageFinishes(cfg, Apply(cfg, s, step), a, t);
    StepFirst(cfg, s, step, a);
  }

  /** From every reachable state, every attempt the store holds can still be brought to its end. */
  lemma EveryAttemptCanFinish(cfg: Config, s: State, a: AttemptId)
    requires cfg.Valid() && Reachable(cfg, s) && a in s.rows
    ensures exists more: seq<Step> :: a in Run(cfg, s, more).rows && Run(cfg, s, more).rows[a].final.Some?
  {
    ReachableInvariant(cfg, s);
    if s.rows[a].final.Some? {
      FinishedCanFinish(cfg, s, a);
    } else {
      var step := AdvanceClocks(Later(s, a) - s.storeClock, 0);
      var t := FreshToken(s.tasks.Keys);
      StepKeepsInvariant(cfg, s, step);
      ClaimFinishes(cfg, Apply(cfg, s, step), a, t);
      StepFirst(cfg, s, step, a);
    }
    assert CanFinish(cfg, s, a);
    var more: seq<Step> :| IsFinished(Run(cfg, s, more), a);
  }
}
