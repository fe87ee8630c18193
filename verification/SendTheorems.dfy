/** What holds of the three ledgered send adapters over every run. */
module SendTheorems {
  import opened Wrappers
  import opened SendOutcomes
  import opened PermitLedger
  import opened SendProtocol
  import opened SendSafety
  import DirectSend

  // ----- one provider send per attempt -----

  /** The permits after each prefix of a run. */
  function Trace(adapter: Adapter, steps: seq<Step>): (trace: seq<Permits>)
    ensures |trace| == |steps| + 1 && trace[|steps|] == PermitsOf(Run(adapter, steps))
  {
    if steps == [] then [PermitsOf(INITIAL)]
    else Trace(adapter, steps[..|steps| - 1]) + [PermitsOf(Run(adapter, steps))]
  }

  /** Seen through its permits, every run of every adapter is a run of the abstract ledger. */
  lemma {:induction false} RunRefinesLedger(adapter: Adapter, steps: seq<Step>)
    ensures IsRun(Trace(adapter, steps))
  {
    hide Apply, PermitsOf;
    if steps == [] {
      assert PermitsOf(INITIAL) == NO_PERMITS by { NothingIsPermittedYet(); }
    } else {
      var before := steps[..|steps| - 1];
      RunRefinesLedger(adapter, before);
      RunKeepsInvariant(adapter, before);
      StepRefinesLedger(adapter, Run(adapter, before), steps[|steps| - 1]);
    }
  }

  lemma NothingIsPermittedYet()
    ensures PermitsOf(INITIAL) == NO_PERMITS
  {
  }

  /**
   Over every run, however it redelivers, interleaves and crashes, the provider is reached at most
   once for an attempt, by the call that holds the attempt's permit, for the work the permit is for.
   */
  lemma SentAtMostOnce(adapter: Adapter, steps: seq<Step>)
    ensures var s := Run(adapter, steps);
            && (forall i, j :: 0 <= i < j < |s.crossings| ==> s.crossings[i].attemptId != s.crossings[j].attemptId)
            && (forall x :: x in s.crossings ==>
                  && x.call in s.calls && x.attemptId in s.ledger
                  && s.calls[x.call].work.attemptId == x.attemptId
                  && s.ledger[x.attemptId].holder == x.call
                  && s.ledger[x.attemptId].fingerprint == s.calls[x.call].work.fingerprint)
  {
    hide Run;
    RunRefinesLedger(adapter, steps);
    RunIsSafe(Trace(adapter, steps));
    RunKeepsInvariant(adapter, steps);
    var s := Run(adapter, steps);
    forall x | x in s.crossings
      ensures CrossingOk(s, x)
    {
    }
  }

  // ----- what stands before a send -----

  /** The provider boundary is crossed only by a call that holds its permit and passed the adapter's last checks. */
  lemma CrossesOnlyChecked(adapter: Adapter, steps: seq<Step>, step: Step)
    requires Apply(adapter, Run(adapter, steps), step).crossings != Run(adapter, steps).crossings
    ensures var s := Run(adapter, steps);
            && step.Check? && step.call in s.calls && Holds(s, step.call)
            && match adapter
               case Expo =>
                 var expiry := ExpoExpiresAt(s.calls[step.call].work.createdAt.GetOr(0));
                 && s.calls[step.call].work.createdAt.Some? && step.checks.ExpoChecks? &&
                      step.checks.eligibility.Eligible?
                 && step.checks.before.ClockAt? && step.checks.before.time < expiry
                 && step.checks.after.ClockAt? && step.checks.after.time < expiry
               case Direct(_) =>
                 step.checks.DirectChecks? && step.checks.authorization.Passed? && step.checks.eligibilityCheck.Passed?
               case Ses => true
  {
    hide Run, WrittenOk, ReadBack, Write, WasAccepted, EntryOk, ReplyOk, ReportOk, PreparationAnswer;
    RunKeepsInvariant(adapter, steps);
    var s := Run(adapter, steps);
    if step.Check? && step.call in s.calls {
      assert CallOk(adapter, s, step.call);
    }
  }

  /** The direct adapter asks for a permit only for a push that was in time, authorized, eligible and ready. */
  lemma ClaimsOnlyPrepared(apns: bool, s: State, step: Step)
    requires !(Apply(Direct(apns), s, step).claims <= s.claims)
    ensures step.Prepare? && step.call in s.calls
    ensures var p := step.preparation;
            && p.now.Some? && p.authorization.Passed? && p.eligibility.Passed? && p.prepared.ReadyToSend?
            && var created := s.calls[step.call].work.createdAt;
               created.Some? ==> p.now.value / 1_000 < DirectExpiration(created.value)
  {
  }

  // ----- what is never taken back -----

  function RunFrom(adapter: Adapter, s: State, steps: seq<Step>): State {
    if steps == [] then s else Apply(adapter, RunFrom(adapter, s, steps[..|steps| - 1]), steps[|steps| - 1])
  }

  lemma {:induction false} RunFromExtends(adapter: Adapter, s: State, steps: seq<Step>)
    requires Inv(adapter, s)
    ensures Inv(adapter, RunFrom(adapter, s, steps)) && Extends(s, RunFrom(adapter, s, steps))
  {
    hide Apply, Inv;
    if steps != [] {
      var before := RunFrom(adapter, s, steps[..|steps| - 1]);
      RunFromExtends(adapter, s, steps[..|steps| - 1]);
      StepKeepsInvariant(adapter, before, steps[|steps| - 1]);
      ExtendsIsTransitive(s, before, RunFrom(adapter, s, steps));
    }
  }

  lemma ExtendsIsTransitive(s: State, t: State, u: State)
    requires Extends(s, t) && Extends(t, u)
    ensures Extends(s, u)
  {
    forall c | c in s.calls
      ensures CallStays(s, u, c)
    {
      assert CallStays(s, t, c) && CallStays(t, u, c);
    }
    forall a | a in s.ledger
      ensures EntryStays(s, u, a)
    {
      assert EntryStays(s, t, a) && EntryStays(t, u, a);
    }
  }

  /** A claim is never released and a recorded completion never changes, in any continuation of a run. */
  lemma LedgerIsIrrevocable(adapter: Adapter, steps: seq<Step>, more: seq<Step>, a: AttemptId)
    requires a in Run(adapter, steps).ledger
    ensures var s, t := Run(adapter, steps), RunFrom(adapter, Run(adapter, steps), more);
            && a in t.ledger && t.ledger[a].holder == s.ledger[a].holder &&
                 t.ledger[a].fingerprint == s.ledger[a].fingerprint
            && (s.ledger[a].completion.Some? ==> t.ledger[a].completion == s.ledger[a].completion)
  {
    hide Run, RunFrom, Inv;
    RunKeepsInvariant(adapter, steps);
    RunFromExtends(adapter, Run(adapter, steps), more);
    assert EntryStays(Run(adapter, steps), RunFrom(adapter, Run(adapter, steps), more), a);
  }

  // ----- what is reported -----

  /** An answer that rests on the permit: after the call's own send, or out of the ledger. */
  predicate RestsOnPermit(r: Report) { r.origin.Sent? || r.origin.Replayed? }

  /** Whatever an attempt is definitely said to have come to, it is always the same. */
  lemma DefiniteReportsAgree(adapter: Adapter, steps: seq<Step>, r: Report, q: Report)
    requires r in Run(adapter, steps).reports && q in Run(adapter, steps).reports && r.attemptId == q.attemptId
    requires RestsOnPermit(r) && RestsOnPermit(q)
    requires Definite(r.completion).Some? && Definite(q.completion).Some?
    ensures Definite(r.completion) == Definite(q.completion)
    ensures !adapter.Ses? ==> r.completion == q.completion
  {
    hide Run, Definite, WrittenOk, Write;
    var s := Run(adapter, steps);
    RunKeepsInvariant(adapter, steps);
    assert ReportOk(adapter, s, r) && ReportOk(adapter, s, q);
    HolderSaysOneThing(adapter, s, r.attemptId, r.completion);
    HolderSaysOneThing(adapter, s, r.attemptId, q.completion);
  }

  lemma HolderSaysOneThing(adapter: Adapter, s: State, a: AttemptId, c: Completion)
    requires Inv(adapter, s) && SaidByHolder(s, a, c)
    ensures var written := s.calls[s.ledger[a].holder].written.value;
            Definite(c) == Definite(written) && (!adapter.Ses? ==> c == written) &&
              (ClaimsAcceptance(c) ==> c == written)
    ensures WrittenOk(adapter, s, s.ledger[a].holder, s.calls[s.ledger[a].holder].written.value,
                      s.calls[s.ledger[a].holder].told.GetOr(c))
  {
    hide Definite, ReadBack, Write, WasAccepted, EntryOk, ReplyOk, CrossingOk, ReportOk;
    assert CallOk(adapter, s, s.ledger[a].holder);
  }

  /** It also agrees with the ledger: the record can be read, and reads as what was reported. */
  lemma DefiniteReportMatchesRecord(adapter: Adapter, steps: seq<Step>, r: Report)
    requires r in Run(adapter, steps).reports && RestsOnPermit(r) && Definite(r.completion).Some?
    ensures var s := Run(adapter, steps);
            && r.attemptId in s.ledger
            && (s.ledger[r.attemptId].completion.Some? ==>
                  && ReadBack(adapter, s.ledger[r.attemptId].completion.value).Some?
                  && Definite(ReadBack(adapter, s.ledger[r.attemptId].completion.value).value) ==
                       Definite(r.completion))
  {
    hide Run, Definite, Write, ReadBack;
    var s := Run(adapter, steps);
    RunKeepsInvariant(adapter, steps);
    assert ReportOk(adapter, s, r);
    HolderSaysOneThing(adapter, s, r.attemptId, r.completion);
    assert EntryOk(adapter, s, r.attemptId);
  }

  /** Accepted is reported only if the provider accepted that attempt's one send, under that very reference. */
  lemma AcceptedMeansAccepted(adapter: Adapter, steps: seq<Step>, r: Report)
    requires r in Run(adapter, steps).reports && RestsOnPermit(r) && ClaimsAcceptance(r.completion)
    ensures var s := Run(adapter, steps);
            && r.attemptId in s.ledger
            && WasAccepted(adapter, s, r.attemptId, s.ledger[r.attemptId].holder, r.completion.reference)
  {
    hide Run, WasAccepted, ReadBack, Write;
    var s := Run(adapter, steps);
    RunKeepsInvariant(adapter, steps);
    assert ReportOk(adapter, s, r);
    HolderSaysOneThing(adapter, s, r.attemptId, r.completion);
    assert EntryOk(adapter, s, r.attemptId);
  }

  /** A replayed answer is the record of the ledger, read back without loss. */
  lemma ReplayIsExact(adapter: Adapter, steps: seq<Step>, r: Report)
    requires r in Run(adapter, steps).reports && r.origin.Replayed?
    ensures var s := Run(adapter, steps);
            && r.attemptId in s.ledger
            && s.ledger[r.attemptId].completion == Some(Write(r.completion, ProviderOf(adapter)))
            && ReadBack(adapter, s.ledger[r.attemptId].completion.value) == Some(r.completion)
            && s.ledger[r.attemptId].holder in s.calls
            && s.calls[s.ledger[r.attemptId].holder].written == Some(r.completion)
  {
    hide Run, ReadBack, Definite;
    var s := Run(adapter, steps);
    RunKeepsInvariant(adapter, steps);
    assert ReportOk(adapter, s, r);
    assert EntryOk(adapter, s, r.attemptId);
    assert CallOk(adapter, s, s.ledger[r.attemptId].holder);
  }

  // ----- where the agreement ends -----

  predicate Contradict(r: Report, q: Report) {
    && r.attemptId == q.attemptId && !r.origin.TurnedDown? && !q.origin.TurnedDown?
    && Definite(r.completion).Some? && Definite(q.completion).Some? && Definite(r.completion) != Definite(q.completion)
  }

  const WORK := Work("attempt", "fingerprint", Some(0))
  const READY := Preparation(Some(0), DirectSend.Passed, DirectSend.Passed, ReadyToSend)
  const REFUSED := Preparation(Some(0), DirectSend.Refused, DirectSend.Passed, ReadyToSend)
  const LATE_FAILURE := FailureOf(DirectLiveTransportDisabled, TerminalDisposition)

  function Reference(apns: bool): string { if apns then "0123456789abcdef" else "fcm-" + seq(64, _ => '0') }

  /** A redelivered direct push is judged before its claim: it can fail although the first delivery was accepted. */
  function DirectRun(apns: bool): seq<Step> {
    [Begin(0, WORK), Prepare(0, READY), CommitClaim(0, false), ClaimAnswered(0, Execute),
     Check(0, DirectChecks(DirectSend.Passed, DirectSend.Passed)),
     ProviderAnswers(0, DirectAnswer(Some(DirectSend.AcceptedPush(Reference(apns))))),
     CommitComplete(0), CompleteAcknowledged(0), Begin(1, WORK), Prepare(1, REFUSED)]
  }

  /** A claim that threw is answered as safe to retry by SES, even while another delivery is being accepted. */
  const SES_RUN := [
    Begin(0, WORK), Begin(1, WORK), CommitClaim(0, false), ClaimAnswered(0, Execute), Check(0, NoChecks),
    ProviderAnswers(0, SesAnswer(Response(Some("message")))), CompleteThrows(0), ClaimThrows(1)]

  function AcceptedAs(reference: string): Completion { OutcomeOf(ProviderAccepted, Some(reference), None, None) }

  lemma EmptyRun(adapter: Adapter, steps: seq<Step>)
    ensures Run(adapter, steps[..0]) == INITIAL
  {
  }

  lemma TwoMore(adapter: Adapter, steps: seq<Step>, n: nat)
    requires n + 2 <= |steps|
    ensures Run(adapter, steps[..n + 2]) ==
              Apply(adapter, Apply(adapter, Run(adapter, steps[..n]), steps[n]), steps[n + 1])
  {
    assert steps[..n + 2][..n + 1] == steps[..n + 1] && steps[..n + 1][..n] == steps[..n];
  }

  lemma AcceptedIsWritten(apns: bool)
    ensures DirectSend.SendCompletion(Some(DirectSend.AcceptedPush(Reference(apns))), apns) ==
              AcceptedAs(Reference(apns))
  {
    assert DirectSend.IsProviderReference(Reference(apns), apns);
  }

  /** A lone first delivery of `WORK`, at a stage of its life. */
  ghost predicate Alone(s: State, call: Call) {
    && s.calls == map[0 := call] && call.work == WORK
    && (!call.pc.Preparing? && !call.pc.AwaitClaim? ==>
          && "attempt" in s.ledger && s.ledger["attempt"].holder == 0
          && s.ledger["attempt"].fingerprint == "fingerprint" && s.ledger["attempt"].completion.None?)
  }

  lemma DirectRunClaims(apns: bool, s: State)
    requires var d, run := Direct(apns), DirectRun(apns);
             s == Apply(d, Apply(d, Apply(d, Apply(d, INITIAL, run[0]), run[1]), run[2]), run[3])
    ensures Alone(s, Call(WORK, Permitted, None, None))
  {
    var d := Direct(apns);
    var s1 := ApplyBegin(d, INITIAL, 0, WORK);
    var s2 := ApplyPrepare(d, s1, 0, READY);
    assert PreparationAnswer(apns, WORK, READY).None?;
    assert s2.calls == map[0 := Call(WORK, AwaitClaim, None, None)] && s2.claims == {0} && s2.ledger == map[];
    var s3 := ApplyCommitClaim(d, s2, 0, false);
    assert s3.ledger["attempt"] == Entry("fingerprint", 0, None) && (0, Execute) in s3.replies;
  }

  lemma DirectRunSends(apns: bool, s: State, t: State)
    requires Alone(s, Call(WORK, Permitted, None, None))
    requires t == Apply(Direct(apns), Apply(Direct(apns), s, DirectRun(apns)[4]), DirectRun(apns)[5])
    ensures var accepted := Some(AcceptedAs(Reference(apns)));
            Alone(t, Call(WORK, AwaitComplete, accepted, accepted)) && 0 in t.completes
  {
    AcceptedIsWritten(apns);
    var accepted := Some(AcceptedAs(Reference(apns)));
    assert t.calls[0] == Call(WORK, AwaitComplete, accepted, accepted);
  }

  lemma DirectRunReports(apns: bool, s: State, t: State)
    requires var accepted := Some(AcceptedAs(Reference(apns)));
             Alone(s, Call(WORK, AwaitComplete, accepted, accepted)) && 0 in s.completes
    requires t == Apply(Direct(apns), Apply(Direct(apns), s, DirectRun(apns)[6]), DirectRun(apns)[7])
    ensures 1 !in t.calls && Report("attempt", 0, Sent, AcceptedAs(Reference(apns))) in t.reports
  {
  }

  lemma DirectRunFails(apns: bool, s: State, t: State)
    requires 1 !in s.calls
    requires t == Apply(Direct(apns), Apply(Direct(apns), s, DirectRun(apns)[8]), DirectRun(apns)[9])
    ensures s.reports <= t.reports && Report("attempt", 1, BeforeClaim, LATE_FAILURE) in t.reports
  {
    assert PreparationAnswer(apns, WORK, REFUSED) == Some(LATE_FAILURE);
  }

  lemma DirectRunContradicts(apns: bool)
    ensures var reports := Run(Direct(apns), DirectRun(apns)).reports;
            exists r, q :: r in reports && q in reports && Contradict(r, q)
  {
    hide Run, Apply, Alone;
    var d, run := Direct(apns), DirectRun(apns);
    EmptyRun(d, run);
    TwoMore(d, run, 0);
    TwoMore(d, run, 2);
    TwoMore(d, run, 4);
    TwoMore(d, run, 6);
    TwoMore(d, run, 8);
    DirectRunClaims(apns, Run(d, run[..4]));
    DirectRunSends(apns, Run(d, run[..4]), Run(d, run[..6]));
    DirectRunReports(apns, Run(d, run[..6]), Run(d, run[..8]));
    DirectRunFails(apns, Run(d, run[..8]), Run(d, run[..10]));
    assert run[..10] == run;
    assert Contradict(Report("attempt", 0, Sent, AcceptedAs(Reference(apns))),
             Report("attempt", 1, BeforeClaim, LATE_FAILURE));
  }

  ghost predicate SesPair(s: State, first: Call) {
    && s.calls == map[0 := first, 1 := Call(WORK, AwaitClaim, None, None)] && first.work == WORK
  }

  lemma SesRunClaims(s: State)
    requires s == Apply(Ses, Apply(Ses, Apply(Ses, Apply(Ses, INITIAL, SES_RUN[0]), SES_RUN[1]), SES_RUN[2]),
               SES_RUN[3])
    ensures SesPair(s, Call(WORK, Permitted, None, None))
  {
    var s2 := ApplyBegin(Ses, ApplyBegin(Ses, INITIAL, 0, WORK), 1, WORK);
    assert SesPair(s2, Call(WORK, AwaitClaim, None, None)) && 0 in s2.claims && s2.ledger == map[];
    assert (0, Execute) in ApplyCommitClaim(Ses, s2, 0, false).replies;
  }

  lemma SesRunSends(s: State, t: State)
    requires SesPair(s, Call(WORK, Permitted, None, None))
    requires t == Apply(Ses, Apply(Ses, s, SES_RUN[4]), SES_RUN[5])
    ensures SesPair(t, Call(WORK, AwaitComplete, Some(AcceptedAs("message")), Some(AcceptedAs("message"))))
  {
    assert IsSesMessageId("message");
  }

  lemma SesRunReports(s: State, t: State)
    requires SesPair(s, Call(WORK, AwaitComplete, Some(AcceptedAs("message")), Some(AcceptedAs("message"))))
    requires t == Apply(Ses, Apply(Ses, s, SES_RUN[6]), SES_RUN[7])
    ensures Report("attempt", 0, Sent, AcceptedAs("message")) in t.reports
    ensures Report("attempt", 1, ClaimThrew, ClaimFailure(Ses)) in t.reports
  {
  }

  lemma SesRunContradicts()
    ensures var reports := Run(Ses, SES_RUN).reports; exists r, q :: r in reports && q in reports && Contradict(r, q)
  {
    hide Run, Apply, SesPair;
    EmptyRun(Ses, SES_RUN);
    TwoMore(Ses, SES_RUN, 0);
    TwoMore(Ses, SES_RUN, 2);
    TwoMore(Ses, SES_RUN, 4);
    TwoMore(Ses, SES_RUN, 6);
    SesRunClaims(Run(Ses, SES_RUN[..4]));
    SesRunSends(Run(Ses, SES_RUN[..4]), Run(Ses, SES_RUN[..6]));
    SesRunReports(Run(Ses, SES_RUN[..6]), Run(Ses, SES_RUN[..8]));
    assert SES_RUN[..8] == SES_RUN;
    assert Contradict(Report("attempt", 0, Sent, AcceptedAs("message")),
             Report("attempt", 1, ClaimThrew, ClaimFailure(Ses)));
  }

  /**
   Which answers of a run contradict each other: a direct adapter's answer given before it asked for a
   claim against any other, or the SES adapter's answer for a claim that threw against one that rests
   on a permit. Nothing else ever does.
   */
  lemma ContradictionsAreOutsideTheClaim(adapter: Adapter, steps: seq<Step>, r: Report, q: Report)
    requires r in Run(adapter, steps).reports && q in Run(adapter, steps).reports && Contradict(r, q)
    ensures match adapter
            case Expo => false
            case Direct(_) => r.origin.BeforeClaim? || q.origin.BeforeClaim?
            case Ses => (r.origin.ClaimThrew? && RestsOnPermit(q)) || (q.origin.ClaimThrew? && RestsOnPermit(r))
  {
    hide Run, SaidByHolder, Write;
    RunKeepsInvariant(adapter, steps);
    var s := Run(adapter, steps);
    assert ReportOk(adapter, s, r) && ReportOk(adapter, s, q);
    if RestsOnPermit(r) && RestsOnPermit(q) {
      DefiniteReportsAgree(adapter, steps, r, q);
    }
  }

  /**
   Of everything an adapter ever says about the work it was given, only the Expo adapter never says
   two definite things: it asks the ledger first and calls a failed claim ambiguous.
   */
  lemma NeverContradictsIffExpo(adapter: Adapter)
    ensures (forall steps, r, q :: r in Run(adapter, steps).reports && q in Run(adapter, steps).reports ==>
              !Contradict(r, q))
            <==> adapter.Expo?
  {
    match adapter
    case Expo =>
      forall steps, r, q | r in Run(adapter, steps).reports && q in Run(adapter, steps).reports
        ensures !Contradict(r, q)
      {
        ExpoNeverContradicts(steps, r, q);
      }
    case Direct(apns) => DirectRunContradicts(apns);
    case Ses => SesRunContradicts();
  }

  lemma ExpoNeverContradicts(steps: seq<Step>, r: Report, q: Report)
    requires r in Run(Expo, steps).reports && q in Run(Expo, steps).reports
    ensures !Contradict(r, q)
  {
    hide Run;
    if Contradict(r, q) {
      ContradictionsAreOutsideTheClaim(Expo, steps, r, q);
    }
  }
}
