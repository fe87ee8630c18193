/**
 What an undisturbed runner makes of an attempt (workers/push/receipt-lifecycle.ts): from a claim that is
 due, or a poll under a lease that holds, to the final state of its row, the evidence and the side
 effects, for every answer of the receipt transport.
 */
module ReceiptOutcomes {
  import opened Wrappers
  import opened ExpoProtocol
  import opened PollSchedule
  import opened ReceiptClaims
  import opened ReceiptPlans
  import opened ReceiptProtocol
  import opened ReceiptInvariant
  import opened ReceiptSteps
  import opened ReceiptTheorems
  import opened ReceiptProgress

  /** Task `t` polls for attempt `a`, whose row is open and not in conflict, under a lease that holds. */
  ghost predicate Polls(s: State, a: AttemptId, t: Token) {
    && a in s.rows && TaskAt(s, t, Polling) && s.tasks[t].AttemptId() == a
    && s.rows[a].final.None? && s.rows[a].referenceState.Unique?
    && s.rows[a].lease.Some? && s.rows[a].lease.value.token == t && s.storeClock < s.rows[a].lease.value.expiresAt
  }

  lemma PollingFacts(cfg: Config, s: State, a: AttemptId, t: Token)
    requires Reachable(cfg, s) && Polls(s, a, t)
    ensures var row, task := s.rows[a], s.tasks[t];
            && row.target == task.claim.target && row.target.attemptId == a && row.pendingAction.None?
            && row.dueAt == task.claim.dueAt && row.pollAttemptNumber == task.claim.pollAttemptNumber
            && task.claim.horizonAt == row.target.HorizonAt() && ClaimIsValid(cfg, task.claim, task.now)
            && task.claim.pendingAction.None? && a !in s.retained
  {
    hide DecideOk, ClaimIsValid;
    ReachableInvariant(cfg, s);
    RowFact(cfg, s, a);
    TaskFact(cfg, s, t);
    LeaseUnderClaimed(cfg, s, a);
    RetainedIsStaged(cfg, s, a);
  }

  lemma RetainedIsStaged(cfg: Config, s: State, a: AttemptId)
    requires Inv(cfg, s)
    ensures a in s.retained ==> exists x :: (a, x) in s.staged
  {
    hide RowOk, TaskOk, DecideOk;
    if a in s.retained {
      assert ResendOk(s, s.retained[a]);
    }
  }

  function RequestOf(s: State, a: AttemptId, t: Token, d: Decision): DecideRequest
    requires a in s.rows
  {
    DecideRequest(a, s.rows[a].target.fingerprint, t, d)
  }

  lemma RunOne(cfg: Config, s: State, x: Step)
    ensures Run(cfg, s, [x]) == Apply(cfg, s, x)
  {
    hide Apply;
    assert [x][..0] == [];
  }

  lemma RunTwo(cfg: Config, s: State, x: Step, y: Step)
    ensures Run(cfg, s, [x, y]) == Apply(cfg, Apply(cfg, s, x), y)
  {
    hide Apply;
    assert [x, y][..1] == [x];
    RunOne(cfg, s, x);
  }

  // ----- the two decisions that need no staging -----

  /** A delivered push: the accepted record of the receipt and the commit of what it decides complete the row. */
  lemma AcceptedReceiptCompletes(cfg: Config, s: State, a: AttemptId, t: Token, random: Random)
    requires Reachable(cfg, s) && Polls(s, a, t)
    ensures var poll := PollResult(t, Slot(Some(ToRaw(Accepted(s.rows[a].target.receiptId)))), random);
            var done := Run(cfg, s, [poll, CommitDecision(RequestOf(s, a, t, Complete))]);
            && done.rows == s.rows[a := s.rows[a].(lease := None, final := Some(Complete))]
            && done.evidence == s.evidence && done.resends == s.resends && done.invalidated == s.invalidated
  {
    hide Apply, PlanFor, ClaimIsValid;
    var query := Slot(Some(ToRaw(Accepted(s.rows[a].target.receiptId))));
    var poll, commit := PollResult(t, query, random), CommitDecision(RequestOf(s, a, t, Complete));
    PollingFacts(cfg, s, a, t);
    assert IsSafeReference(s.rows[a].target.receiptId) by { ValidTarget(cfg, s.tasks[t].claim, s.tasks[t].now); }
    CompletesIff(cfg, s.tasks[t].claim, query, s.tasks[t].now, random);
    var polled := ApplyPoll(cfg, s, t, query, random);
    RunTwo(cfg, s, poll, commit);
    AppliesAre(cfg, s, polled, poll, commit);
  }

  lemma ValidTarget(cfg: Config, claim: Claim, now: int)
    requires ClaimIsValid(cfg, claim, now)
    ensures IsSafeReference(claim.target.receiptId)
  {
  }

  lemma AppliesAre(cfg: Config, s: State, polled: State, poll: Step, commit: Step)
    requires poll.PollResult? && commit.CommitDecision?
    ensures Apply(cfg, s, poll) == ApplyPoll(cfg, s, poll.token, poll.query, poll.random)
    ensures Apply(cfg, polled, commit) == ApplyCommit(polled, commit.request)
  {
  }

  /**
   An undecided answer: the row falls due again after the delay drawn, but not after its horizon, with
   the next poll number and the answer's reason.
   */
  lemma UndecidedReceiptIsPolledAgain(cfg: Config, s: State, a: AttemptId, t: Token, query: QueryResult, random: Random,
                                      r: Reason, delay: int)
    requires Reachable(cfg, s) && Polls(s, a, t) && IsUndecided(query, s.rows[a].target.receiptId, r)
    requires s.tasks[t].claim.pollAttemptNumber >= 1
    requires RetryDelay(s.tasks[t].claim.pollAttemptNumber, random) == Some(delay)
    ensures var row, now := s.rows[a], s.tasks[t].now;
            var at := if now + delay <= row.target.HorizonAt() then now + delay else row.target.HorizonAt();
            var decision := Reschedule(at, row.pollAttemptNumber + 1, r);
            Run(cfg, s, [PollResult(t, query, random), CommitDecision(RequestOf(s, a, t, decision))]).rows ==
              s.rows[a := row.(dueAt := at, pollAttemptNumber := row.pollAttemptNumber + 1, lastReason := Some(r),
                               lease := None)]
  {
    hide Apply, ApplyPoll, ApplyCommit, PlanFor, ClaimIsValid, RetryDelay, IsUndecided, Run, Polls;
    PollsAreThere(s, a, t);
    var row, now := s.rows[a], s.tasks[t].now;
    var at := if now + delay <= row.target.HorizonAt() then now + delay else row.target.HorizonAt();
    var poll := PollResult(t, query, random);
    var request := RequestOf(s, a, t, Reschedule(at, row.pollAttemptNumber + 1, r));
    PollingFacts(cfg, s, a, t);
    ReschedulesIff(cfg, s.tasks[t].claim, query, now, random, r);
    PollAsks(cfg, s, a, t, query, random, r, delay, request);
    var polled := ApplyPoll(cfg, s, t, query, random);
    CommitReschedules(s, polled, a, t, request);
    RunTwo(cfg, s, poll, CommitDecision(request));
    AppliesAre(cfg, s, polled, poll, CommitDecision(request));
  }

  /** The poll asks for the reschedule and changes no row. */
  lemma PollAsks(cfg: Config, s: State, a: AttemptId, t: Token, query: QueryResult, random: Random, r: Reason,
                 delay: int, request: DecideRequest)
    requires Polls(s, a, t) && ClaimIsValid(cfg, s.tasks[t].claim, s.tasks[t].now)
    requires s.rows[a].target == s.tasks[t].claim.target
    requires PlanFor(cfg, s.tasks[t].claim, query, s.tasks[t].now, random) == Some(PlanReschedule(r))
    requires s.tasks[t].claim.pollAttemptNumber >= 1
    requires RetryDelay(s.tasks[t].claim.pollAttemptNumber, random) == Some(delay)
    requires var claim := s.tasks[t].claim;
             request == RequestOf(s, a, t, Reschedule(NextPollAt(claim, s.tasks[t].now, delay),
                                                      claim.pollAttemptNumber + 1, r))
    ensures var polled := ApplyPoll(cfg, s, t, query, random);
            polled.rows == s.rows && polled.storeClock == s.storeClock && request in polled.decides
  {
    hide PlanFor, ClaimIsValid, RetryDelay, NextPollAt;
  }

  lemma CommitReschedules(s: State, polled: State, a: AttemptId, t: Token, request: DecideRequest)
    requires Polls(s, a, t) && s.rows[a].pendingAction.None? && request.decision.Reschedule?
    requires request == RequestOf(s, a, t, request.decision)
    requires polled.rows == s.rows && polled.storeClock == s.storeClock && request in polled.decides
    ensures ApplyCommit(polled, request).rows == s.rows[a := Decided(s.rows[a], request.decision)]
  {
  }

  // ----- what is staged, and how it ends -----

  /** How a staged action that sends nothing again ends. */
  function EndOf(x: Action): Decision
    requires !x.Resend?
  {
    match x
    case TerminalFailure(r, _) => TerminalDlq(FailedEnd, r)
    case TerminalExpiry => TerminalDlq(ExpiredEnd, NotificationExpired)
    case TerminalUnknown(r) => TerminalDlq(UnknownEnd, r)
  }

  /** The steps from a staged action that is acknowledged to the end of the row. */
  function EndSteps(s: State, a: AttemptId, t: Token, x: Action): seq<Step>
    requires a in s.rows && !x.Resend?
  {
    [EvidenceRecorded(t)]
    + (if x.TerminalFailure? && x.invalidatesEndpoint then [EndpointInvalidated(t)] else [])
    + [CommitDecision(RequestOf(s, a, t, EndOf(x)))]
  }

  function EndedRow(row: Row, d: Decision): Row { row.(pendingAction := None, lease := None, final := Some(d)) }

  predicate Invalidates(x: Action) { x.TerminalFailure? && x.invalidatesEndpoint }

  lemma DecisionEnds(cfg: Config, s: State, a: AttemptId, t: Token, x: Action, d: Decision)
    requires Holds(s, a, t, x) && Settles(x, d) && RequestOf(s, a, t, d) in s.decides
    ensures var done := Run(cfg, s, [CommitDecision(RequestOf(s, a, t, d))]);
            && done.rows == s.rows[a := EndedRow(s.rows[a], d)] && done.evidence == s.evidence
            && done.invalidated == s.invalidated && done.retained == s.retained
  {
    RunOne(cfg, s, CommitDecision(RequestOf(s, a, t, d)));
  }

  lemma EvidenceEnds(cfg: Config, s: State, a: AttemptId, t: Token, x: Action)
    requires Holds(s, a, t, x) && !x.Resend? && s.tasks[t].pc == AwaitEvidence(Invalidates(x), EndOf(x))
    ensures var done := Run(cfg, s, EndSteps(s, a, t, x));
            && done.rows == s.rows[a := EndedRow(s.rows[a], EndOf(x))] && done.evidence == s.evidence
            && done.invalidated == s.invalidated + if Invalidates(x) then {a} else {}
  {
    hide Run;
    var commit := [CommitDecision(RequestOf(s, a, t, EndOf(x)))];
    var s1 := Apply(cfg, s, EvidenceRecorded(t));
    if Invalidates(x) {
      var s2 := Apply(cfg, s1, EndpointInvalidated(t));
      DecisionEnds(cfg, s2, a, t, x, EndOf(x));
      RunAfterStep(cfg, s1, EndpointInvalidated(t), commit);
      RunAfterStep(cfg, s, EvidenceRecorded(t), [EndpointInvalidated(t)] + commit);
      assert EndSteps(s, a, t, x) == [EvidenceRecorded(t)] + ([EndpointInvalidated(t)] + commit);
    } else {
      DecisionEnds(cfg, s1, a, t, x, EndOf(x));
      RunAfterStep(cfg, s, EvidenceRecorded(t), commit);
      assert EndSteps(s, a, t, x) == [EvidenceRecorded(t)] + commit;
    }
  }

  /** The evidence that an ending action leaves. */
  function EvidenceOfEnd(target: Target, x: Action): Evidence
    requires !x.Resend?
  {
    match x
    case TerminalFailure(r, _) => Evidence(target.attemptId, FailedEnd, target.provider, target.receiptId, r)
    case TerminalExpiry =>
      Evidence(target.attemptId, ExpiredEnd, target.provider, target.receiptId, NotificationExpired)
    case TerminalUnknown(r) => Evidence(target.attemptId, UnknownEnd, target.provider, target.receiptId, r)
  }

  /** The row is over, its evidence was asked for and its endpoint invalidated if the action says so. */
  ghost predicate Ended(s: State, done: State, a: AttemptId, x: Action)
    requires a in s.rows && !x.Resend?
  {
    && done.rows == s.rows[a := EndedRow(s.rows[a], EndOf(x))]
    && done.evidence == s.evidence + {EvidenceOfEnd(s.rows[a].target, x)}
    && done.invalidated == s.invalidated + if Invalidates(x) then {a} else {}
  }

  lemma ExecutedEnds(cfg: Config, s: State, a: AttemptId, t: Token, x: Action, task: Task)
    requires Holds(s, a, t, x) && !x.Resend? && task.claim == s.tasks[t].claim
    ensures Ended(s, Run(cfg, Execute(s, t, task, x), EndSteps(s, a, t, x)), a, x)
  {
    hide Run, Accepts;
    EvidenceEnds(cfg, Execute(s, t, task, x), a, t, x);
  }

  /** The steps that stage an action and learn that it is kept. */
  function StageSteps(s: State, a: AttemptId, t: Token, x: Action): seq<Step>
    requires a in s.rows
  {
    [CommitDecision(RequestOf(s, a, t, Stage(x))), StageAcknowledged(t)]
  }

  /** Task `t` may stage `x`: its lease holds on an open row without a pending action. */
  ghost predicate MayStage(cfg: Config, s: State, a: AttemptId, t: Token, x: Action) {
    && a in s.rows && t in s.tasks && s.tasks[t].claim.target == s.rows[a].target && s.rows[a].target.attemptId == a
    && s.rows[a].final.None? && s.rows[a].pendingAction.None?
    && (s.rows[a].referenceState.Conflict? ==> x == CONFLICT_ACTION)
    && s.rows[a].lease.Some? && s.rows[a].lease.value.token == t && s.storeClock < s.rows[a].lease.value.expiresAt
    && ActionIsValid(x, s.rows[a].target.attemptNumber, cfg.maxSendAttempts, s.rows[a].target.expiresAt)
  }

  lemma StagedIsHeld(cfg: Config, s: State, a: AttemptId, t: Token, x: Action, task: Task)
    requires MayStage(cfg, s, a, t, x) && task.claim == s.tasks[t].claim
    ensures var s' := ApplyCommit(StageKnown(cfg, s, t, task, x), RequestOf(s, a, t, Stage(x)));
            && Holds(s', a, t, x) && s'.tasks[t] == task.(plan := Some(x), pc := AwaitStage)
            && ApplyStageAcknowledged(s', t) == Execute(s', t, s'.tasks[t], x)
            && s'.rows == s.rows[a := s.rows[a].(pendingAction := Some(x))]
            && s'.evidence == s.evidence && s'.invalidated == s.invalidated && s'.retained == s.retained
            && s'.schedulerClock == s.schedulerClock && s'.resends == s.resends
  {
    hide ActionIsValid, Execute;
  }

  lemma StageKnownEnds(cfg: Config, s: State, a: AttemptId, t: Token, x: Action, task: Task)
    requires MayStage(cfg, s, a, t, x) && task.claim == s.tasks[t].claim && !x.Resend?
    ensures Ended(s, Run(cfg, StageKnown(cfg, s, t, task, x), StageSteps(s, a, t, x) + EndSteps(s, a, t, x)), a, x)
  {
    hide Run, Apply, Execute, StageKnown, ApplyCommit, ApplyStageAcknowledged;
    var s0 := StageKnown(cfg, s, t, task, x);
    var commit := RequestOf(s, a, t, Stage(x));
    var s1 := ApplyCommit(s0, commit);
    StagedIsHeld(cfg, s, a, t, x, task);
    ExecutedEnds(cfg, s1, a, t, x, s1.tasks[t]);
    var rest := EndSteps(s, a, t, x);
    assert EndSteps(s1, a, t, x) == rest;
    assert Apply(cfg, s0, CommitDecision(commit)) == s1 by { CommitApplies(cfg, s0, commit); }
    assert Apply(cfg, s1, StageAcknowledged(t)) == ApplyStageAcknowledged(s1, t) by { AckApplies(cfg, s1, t); }
    RunAfterStep(cfg, s1, StageAcknowledged(t), rest);
    RunAfterStep(cfg, s0, CommitDecision(commit), [StageAcknowledged(t)] + rest);
    assert StageSteps(s, a, t, x) + rest == [CommitDecision(commit)] + ([StageAcknowledged(t)] + rest);
  }

  lemma CommitApplies(cfg: Config, s: State, request: DecideRequest)
    ensures Apply(cfg, s, CommitDecision(request)) == ApplyCommit(s, request)
  {
  }

  lemma AckApplies(cfg: Config, s: State, t: Token)
    ensures Apply(cfg, s, StageAcknowledged(t)) == ApplyStageAcknowledged(s, t)
  {
  }

  lemma PollMayStage(cfg: Config, s: State, a: AttemptId, t: Token, query: QueryResult, random: Random, x: Action)
    requires Reachable(cfg, s) && Polls(s, a, t)
    requires PlanFor(cfg, s.tasks[t].claim, query, s.tasks[t].now, random) == Some(PlanStage(x))
    ensures MayStage(cfg, s, a, t, x)
    ensures Apply(cfg, s, PollResult(t, query, random)) == StageKnown(cfg, s, t, s.tasks[t], x)
  {
    hide PlanFor, ClaimIsValid, ActionIsValid, StageKnown;
    PollingFacts(cfg, s, a, t);
    PollNeverEndsUnstaged(cfg, s.tasks[t].claim, query, s.tasks[t].now, random);
  }

  lemma PollEnds(cfg: Config, s: State, a: AttemptId, t: Token, query: QueryResult, random: Random, x: Action)
    requires Reachable(cfg, s) && Polls(s, a, t) && !x.Resend?
    requires PlanFor(cfg, s.tasks[t].claim, query, s.tasks[t].now, random) == Some(PlanStage(x))
    ensures var steps := [PollResult(t, query, random)] + (StageSteps(s, a, t, x) + EndSteps(s, a, t, x));
            Ended(s, Run(cfg, s, steps), a, x)
  {
    hide Run, Apply, PlanFor, StageKnown, Polls, MayStage, Ended;
    PollMayStage(cfg, s, a, t, query, random, x);
    assert t in s.tasks && a in s.rows by { PollsAreThere(s, a, t); }
    StageKnownEnds(cfg, s, a, t, x, s.tasks[t]);
    RunAfterStep(cfg, s, PollResult(t, query, random), StageSteps(s, a, t, x) + EndSteps(s, a, t, x));
  }

  lemma PollsAreThere(s: State, a: AttemptId, t: Token)
    requires Polls(s, a, t)
    ensures t in s.tasks && a in s.rows
  {
  }

  // ----- a failed or expired push -----

  /**
   The receipt names a definite failure: it becomes the evidence and the end of the row, and the endpoint
   of an unregistered device is invalidated.
   */
  lemma FailedReceiptEnds(cfg: Config, s: State, a: AttemptId, t: Token, r: Reason, random: Random)
    requires Reachable(cfg, s) && Polls(s, a, t) && r in FAILURE_REASONS
    ensures var x := TerminalFailure(r, r == DeviceNotRegistered);
            var query := Slot(Some(ToRaw(FailedReceipt(s.rows[a].target.receiptId, r))));
            var done := Run(cfg, s, [PollResult(t, query, random)] + (StageSteps(s, a, t, x) + EndSteps(s, a, t, x)));
            && a in done.rows && done.rows[a].final == Some(TerminalDlq(FailedEnd, r))
            && done.evidence == s.evidence + {EvidenceOfEnd(s.rows[a].target, x)}
            && done.invalidated == s.invalidated + if r == DeviceNotRegistered then {a} else {}
  {
    hide Run, PlanFor, ClaimIsValid;
    var x := TerminalFailure(r, r == DeviceNotRegistered);
    var query := Slot(Some(ToRaw(FailedReceipt(s.rows[a].target.receiptId, r))));
    PollingFacts(cfg, s, a, t);
    ValidTarget(cfg, s.tasks[t].claim, s.tasks[t].now);
    EndsIff(cfg, s.tasks[t].claim, query, s.tasks[t].now, random, r, r == DeviceNotRegistered);
    PollEnds(cfg, s, a, t, query, random, x);
  }

  /** A rate-limited push that would be sent again too late expires; one without attempts left fails for good. */
  lemma RateLimitedEnds(cfg: Config, s: State, a: AttemptId, t: Token, random: Random, delay: int)
    requires Reachable(cfg, s) && Polls(s, a, t)
    requires RetryDelay(s.rows[a].target.attemptNumber, random) == Some(delay)
    ensures var target := s.rows[a].target;
            var late := s.tasks[t].now + delay >= target.expiresAt;
            late || target.attemptNumber >= cfg.maxSendAttempts ==>
              var x := if late then TerminalExpiry else TerminalFailure(RetryExhausted, false);
              var query := Slot(Some(ToRaw(Retry(Some(target.receiptId), MessageRateExceeded))));
              var done := Run(cfg, s, [PollResult(t, query, random)] + (StageSteps(s, a, t, x) + EndSteps(s, a, t, x)));
              && a in done.rows
              && done.rows[a].final == Some(if late then TerminalDlq(ExpiredEnd, NotificationExpired)
                                            else TerminalDlq(FailedEnd, RetryExhausted))
              && done.evidence == s.evidence + {EvidenceOfEnd(target, x)} && done.invalidated == s.invalidated
  {
    hide Run, PlanFor, ClaimIsValid, RetryDelay;
    var target := s.rows[a].target;
    var late := s.tasks[t].now + delay >= target.expiresAt;
    var x := if late then TerminalExpiry else TerminalFailure(RetryExhausted, false);
    var query := Slot(Some(ToRaw(Retry(Some(target.receiptId), MessageRateExceeded))));
    PollingFacts(cfg, s, a, t);
    ValidTarget(cfg, s.tasks[t].claim, s.tasks[t].now);
    EndsIff(cfg, s.tasks[t].claim, query, s.tasks[t].now, random, RetryExhausted, false);
    if late || target.attemptNumber >= cfg.maxSendAttempts {
      PollEnds(cfg, s, a, t, query, random, x);
    }
  }

  // ----- a push that is sent again -----

  /** What the scheduler does with the staged resend and what the runner then records. */
  function ResendSteps(s: State, a: AttemptId, t: Token, x: Action, kind: ResendKind): seq<Step>
    requires a in s.rows && x.Resend?
  {
    [CommitResend(ResendOf(s.rows[a].target, x)), ResendAnswered(t, kind), EvidenceRecorded(t),
     CommitDecision(RequestOf(s, a, t, EndOfResend(x, kind)))]
  }

  function EndOfResend(x: Action, kind: ResendKind): Decision
    requires x.Resend?
  {
    if kind.Scheduled? then ResendScheduled(x.nextAttemptNumber, x.delay, x.retryAt, x.expiresAt)
    else TerminalDlq(ExpiredEnd, NotificationExpired)
  }

  function EvidenceOfResend(target: Target, kind: ResendKind): Evidence {
    if kind.Scheduled? then
      Evidence(target.attemptId, FailedEnd, target.provider, target.receiptId, MessageRateExceeded)
    else Evidence(target.attemptId, ExpiredEnd, target.provider, target.receiptId, NotificationExpired)
  }

  /** The scheduler keeps the resend exactly if it is in time, and the row ends as it answered. */
  ghost predicate SentAgain(s: State, done: State, a: AttemptId, x: Action, kind: ResendKind)
    requires a in s.rows && x.Resend?
  {
    && done.rows == s.rows[a := EndedRow(s.rows[a], EndOfResend(x, kind))]
    && done.retained == (if kind.Scheduled? then s.retained[a := ResendOf(s.rows[a].target, x)] else s.retained)
    && done.evidence == s.evidence + {EvidenceOfResend(s.rows[a].target, kind)}
    && done.invalidated == s.invalidated
  }

  lemma RunFour(cfg: Config, s: State, x: Step, y: Step, z: Step, w: Step)
    ensures Run(cfg, s, [x, y, z, w]) == Apply(cfg, Apply(cfg, Apply(cfg, Apply(cfg, s, x), y), z), w)
  {
    hide Apply;
    assert [x, y, z, w][..3] == [x, y, z] && [x, y, z][..2] == [x, y];
    RunTwo(cfg, s, x, y);
  }

  lemma ResendEnds(cfg: Config, s: State, a: AttemptId, t: Token, x: Action, task: Task)
    requires Holds(s, a, t, x) && x.Resend? && a !in s.retained
    requires task.claim == s.tasks[t].claim && task.plan == Some(x)
    ensures var kind := if s.schedulerClock < x.expiresAt then Scheduled else Expired;
            SentAgain(s, Run(cfg, Execute(s, t, task, x), ResendSteps(s, a, t, x, kind)), a, x, kind)
  {
    hide Run;
    var kind := if s.schedulerClock < x.expiresAt then Scheduled else Expired;
    var steps := ResendSteps(s, a, t, x, kind);
    var s0 := Execute(s, t, task, x);
    RunFour(cfg, s0, steps[0], steps[1], steps[2], steps[3]);
    var s1 := Apply(cfg, s0, steps[0]);
    assert (a, kind) in s1.replies;
    var s2 := Apply(cfg, s1, steps[1]);
    var s3 := Apply(cfg, s2, steps[2]);
    assert RequestOf(s, a, t, EndOfResend(x, kind)) in s3.decides;
  }

  lemma StagedResendEnds(cfg: Config, s: State, a: AttemptId, t: Token, x: Action, task: Task)
    requires MayStage(cfg, s, a, t, x) && task.claim == s.tasks[t].claim && x.Resend? && a !in s.retained
    ensures var kind := if s.schedulerClock < x.expiresAt then Scheduled else Expired;
            var steps := StageSteps(s, a, t, x) + ResendSteps(s, a, t, x, kind);
            SentAgain(s, Run(cfg, StageKnown(cfg, s, t, task, x), steps), a, x, kind)
  {
    hide Run, Apply, Execute, StageKnown, ApplyCommit, ApplyStageAcknowledged;
    var kind := if s.schedulerClock < x.expiresAt then Scheduled else Expired;
    var s0 := StageKnown(cfg, s, t, task, x);
    var commit := RequestOf(s, a, t, Stage(x));
    var s1 := ApplyCommit(s0, commit);
    StagedIsHeld(cfg, s, a, t, x, task);
    ResendEnds(cfg, s1, a, t, x, s1.tasks[t]);
    var rest := ResendSteps(s, a, t, x, kind);
    assert ResendSteps(s1, a, t, x, kind) == rest;
    CommitApplies(cfg, s0, commit);
    AckApplies(cfg, s1, t);
    RunAfterStep(cfg, s1, StageAcknowledged(t), rest);
    RunAfterStep(cfg, s0, CommitDecision(commit), [StageAcknowledged(t)] + rest);
    assert StageSteps(s, a, t, x) + rest == [CommitDecision(commit)] + ([StageAcknowledged(t)] + rest);
  }

  /**
   A rate-limited push with attempts left and time to spare: the scheduler is asked for the next attempt
   after the delay drawn and keeps it unless its own clock is past the expiry, and the row ends so.
   */
  lemma RateLimitedIsSentAgain(cfg: Config, s: State, a: AttemptId, t: Token, random: Random, delay: int)
    requires Reachable(cfg, s) && Polls(s, a, t)
    requires RetryDelay(s.rows[a].target.attemptNumber, random) == Some(delay)
    requires s.rows[a].target.attemptNumber < cfg.maxSendAttempts
    requires s.tasks[t].now + delay < s.rows[a].target.expiresAt
    ensures var target, now := s.rows[a].target, s.tasks[t].now;
            var x := Resend(target.attemptNumber + 1, delay, now + delay, target.expiresAt);
            var query := Slot(Some(ToRaw(Retry(Some(target.receiptId), MessageRateExceeded))));
            var kind := if s.schedulerClock < target.expiresAt then Scheduled else Expired;
            var steps := [PollResult(t, query, random)] + (StageSteps(s, a, t, x) + ResendSteps(s, a, t, x, kind));
            SentAgain(s, Run(cfg, s, steps), a, x, kind)
  {
    hide Run, Apply, PlanFor, ClaimIsValid, RetryDelay, StageKnown, SentAgain, MayStage;
    var target, now := s.rows[a].target, s.tasks[t].now;
    var x := Resend(target.attemptNumber + 1, delay, now + delay, target.expiresAt);
    var query := Slot(Some(ToRaw(Retry(Some(target.receiptId), MessageRateExceeded))));
    var kind := if s.schedulerClock < target.expiresAt then Scheduled else Expired;
    PollingFacts(cfg, s, a, t);
    ValidTarget(cfg, s.tasks[t].claim, s.tasks[t].now);
    ResendsIff(cfg, s.tasks[t].claim, query, now, random, x);
    PollMayStage(cfg, s, a, t, query, random, x);
    StagedResendEnds(cfg, s, a, t, x, s.tasks[t]);
    RunAfterStep(cfg, s, PollResult(t, query, random), StageSteps(s, a, t, x) + ResendSteps(s, a, t, x, kind));
  }

  // ----- from an attempt that is due -----

  /** The open row of `a` can be claimed now, under a lease of a length the runner accepts. */
  ghost predicate IsDue(cfg: Config, s: State, a: AttemptId, t: Token, leaseExpiresAt: int, now: int) {
    && a in s.rows && t !in s.tasks && Claimable(s, s.rows[a]) && s.rows[a].pendingAction.None?
    && s.rows[a].dueAt <= now && s.storeClock < leaseExpiresAt
    && now < leaseExpiresAt <= now + cfg.leaseMilliseconds + 30_000
  }

  function ClaimSteps(a: AttemptId, t: Token, leaseExpiresAt: int, now: int): seq<Step> {
    [ClaimDue(a, t, leaseExpiresAt, now, false, false), Triage(t)]
  }

  lemma ClaimsAre(cfg: Config, s: State, a: AttemptId, t: Token, leaseExpiresAt: int, now: int)
    requires Reachable(cfg, s) && IsDue(cfg, s, a, t, leaseExpiresAt, now)
    ensures var s' := ApplyClaim(cfg, s, a, t, leaseExpiresAt, now, false, false);
            && s' == s.(rows := s.rows[a := s.rows[a].(lease := Some(Lease(t, leaseExpiresAt)))], tasks := s'.tasks)
            && t in s'.tasks
            && s'.tasks[t] == Task(ClaimOf(s.rows[a], t, leaseExpiresAt), now, None, Claimed(false))
            && ClaimIsValid(cfg, ClaimOf(s.rows[a], t, leaseExpiresAt), now)
            && s.rows[a].target.attemptId == a
  {
    hide ClaimIsValid;
    StoreClaimsParse(cfg, s, a, t, leaseExpiresAt, now);
    ReachableInvariant(cfg, s);
    RowFact(cfg, s, a);
  }

  /** A due attempt that is not in conflict and before its horizon is polled, and nothing else is asked for it. */
  lemma DueAttemptIsPolled(cfg: Config, s: State, a: AttemptId, t: Token, leaseExpiresAt: int, now: int)
    requires Reachable(cfg, s) && IsDue(cfg, s, a, t, leaseExpiresAt, now)
    requires s.rows[a].referenceState.Unique? && now < s.rows[a].target.HorizonAt()
    ensures var s' := Run(cfg, s, ClaimSteps(a, t, leaseExpiresAt, now));
            && Polls(s', a, t) && s'.tasks[t].now == now
            && s'.rows == s.rows[a := s.rows[a].(lease := Some(Lease(t, leaseExpiresAt)))]
            && s' == s.(rows := s'.rows, tasks := s'.tasks)
  {
    hide Run, ClaimIsValid, ApplyClaim;
    RunTwo(cfg, s, ClaimDue(a, t, leaseExpiresAt, now, false, false), Triage(t));
    ClaimsAre(cfg, s, a, t, leaseExpiresAt, now);
  }

  /** A due attempt in conflict, or at its horizon, ends as unknown: with the conflict, or its last reason. */
  lemma DueAttemptEnds(cfg: Config, s: State, a: AttemptId, t: Token, leaseExpiresAt: int, now: int)
    requires Reachable(cfg, s) && IsDue(cfg, s, a, t, leaseExpiresAt, now)
    requires s.rows[a].referenceState.Conflict? || now >= s.rows[a].target.HorizonAt()
    ensures var row := s.rows[a];
            var reason := if row.referenceState.Conflict? then ReceiptReferenceConflict
                          else if row.lastReason.Some? then row.lastReason.value else ReceiptHorizonExpired;
            var x := TerminalUnknown(reason);
            var steps := ClaimSteps(a, t, leaseExpiresAt, now) + (StageSteps(s, a, t, x) + EndSteps(s, a, t, x));
            && Ended(s, Run(cfg, s, steps), a, x)
  {
    hide Run, Apply, ClaimIsValid, ApplyClaim, StageKnown;
    var row := s.rows[a];
    var x := if row.referenceState.Conflict? then CONFLICT_ACTION else TerminalUnknown(HorizonReason(row.lastReason));
    var s1 := ApplyClaim(cfg, s, a, t, leaseExpiresAt, now, false, false);
    ClaimsAre(cfg, s, a, t, leaseExpiresAt, now);
    RowReasons(cfg, s, a);
    assert MayStage(cfg, s1, a, t, x);
    StageKnownEnds(cfg, s1, a, t, x, s1.tasks[t]);
    var claim, rest := ClaimDue(a, t, leaseExpiresAt, now, false, false), StageSteps(s, a, t, x) + EndSteps(s, a, t, x);
    assert StageSteps(s1, a, t, x) + EndSteps(s1, a, t, x) == rest;
    ClaimAndTriage(cfg, s, s1, claim, t);
    RunAfterStep(cfg, s1, Triage(t), rest);
    RunAfterStep(cfg, s, claim, [Triage(t)] + rest);
    assert ClaimSteps(a, t, leaseExpiresAt, now) + rest == [claim] + ([Triage(t)] + rest);
  }

  lemma ClaimAndTriage(cfg: Config, s: State, s1: State, claim: Step, t: Token)
    requires claim.ClaimDue?
    ensures Apply(cfg, s, claim) ==
            ApplyClaim(cfg, s, claim.attemptId, claim.token, claim.leaseExpiresAt, claim.now, claim.duplicate,
                       claim.replyLost)
    ensures Apply(cfg, s1, Triage(t)) == ApplyTriage(cfg, s1, t)
  {
  }

  lemma RowReasons(cfg: Config, s: State, a: AttemptId)
    requires Reachable(cfg, s) && a in s.rows
    ensures s.rows[a].lastReason.Some? ==> IsRescheduleReason(s.rows[a].lastReason.value)
  {
    ReachableInvariant(cfg, s);
    RowFact(cfg, s, a);
  }

  // ----- from the schedule to the end -----

  /** A new target of its own receipt ID is stored, and is due fifteen minutes after its push was accepted. */
  lemma ScheduledAttemptFallsDue(cfg: Config, s: State, target: Target, wait: nat, t: Token)
    requires cfg.Valid() && TargetIsConsistent(cfg, target) && target.attemptId !in s.rows && t !in s.tasks
    requires forall b :: b in s.rows ==> s.rows[b].target.receiptId != target.receiptId
    requires target.recordedAt + 15 * 60_000 <= s.storeClock + wait
    ensures var s' := Run(cfg, s, [ScheduleAccepted(target), AdvanceClocks(wait, 0)]);
            && IsDue(cfg, s', target.attemptId, t, s'.storeClock + 1, s'.storeClock)
            && s'.rows[target.attemptId].target == target && s'.rows[target.attemptId].referenceState.Unique?
            && s'.storeClock == s.storeClock + wait
  {
    RunTwo(cfg, s, ScheduleAccepted(target), AdvanceClocks(wait, 0));
  }

  lemma {:induction false} RunOfParts(cfg: Config, s: State, first: seq<Step>, more: seq<Step>)
    ensures Run(cfg, s, first + more) == Run(cfg, Run(cfg, s, first), more)
    decreases |first|
  {
    hide Apply;
    if first == [] {
      assert [] + more == more;
    } else {
      assert first + more == [first[0]] + (first[1..] + more) && first == [first[0]] + first[1..];
      RunAfterStep(cfg, s, first[0], first[1..] + more);
      RunAfterStep(cfg, s, first[0], first[1..]);
      RunOfParts(cfg, Apply(cfg, s, first[0]), first[1..], more);
    }
  }

  lemma StillReachable(cfg: Config, s: State, more: seq<Step>)
    requires Reachable(cfg, s)
    ensures Reachable(cfg, Run(cfg, s, more))
  {
    hide Run;
    var store: int, scheduler: int, steps: seq<Step> :| s == Run(cfg, Initial(store, scheduler), steps);
    RunOfParts(cfg, Initial(store, scheduler), steps, more);
  }

  /** A delivered push whose receipt is due before its horizon is completed by the runner that claims it. */
  lemma DeliveredPushCompletes(cfg: Config, s: State, a: AttemptId, t: Token, leaseExpiresAt: int, now: int,
                               random: Random)
    requires Reachable(cfg, s) && IsDue(cfg, s, a, t, leaseExpiresAt, now)
    requires s.rows[a].referenceState.Unique? && now < s.rows[a].target.HorizonAt()
    ensures var poll := PollResult(t, Slot(Some(ToRaw(Accepted(s.rows[a].target.receiptId)))), random);
            var steps := ClaimSteps(a, t, leaseExpiresAt, now) + [poll, CommitDecision(RequestOf(s, a, t, Complete))];
            var done := Run(cfg, s, steps);
            a in done.rows && done.rows[a].final == Some(Complete) && done.evidence == s.evidence
  {
    hide Run, IsDue, Polls;
    var claim := ClaimSteps(a, t, leaseExpiresAt, now);
    var s' := Run(cfg, s, claim);
    assert a in s.rows by { DueIsThere(cfg, s, a, t, leaseExpiresAt, now); }
    DueAttemptIsPolled(cfg, s, a, t, leaseExpiresAt, now);
    StillReachable(cfg, s, claim);
    AcceptedReceiptCompletes(cfg, s', a, t, random);
    var poll := PollResult(t, Slot(Some(ToRaw(Accepted(s.rows[a].target.receiptId)))), random);
    RunOfParts(cfg, s, claim, [poll, CommitDecision(RequestOf(s, a, t, Complete))]);
  }

  lemma DueIsThere(cfg: Config, s: State, a: AttemptId, t: Token, leaseExpiresAt: int, now: int)
    requires IsDue(cfg, s, a, t, leaseExpiresAt, now)
    ensures a in s.rows
  {
  }
}
