/**
 Why a send is called accepted, failed or retryable, over every run: what is recorded and answered is
 what the provider's own answer to that one send proves, or a check that failed before the provider
 was reached. And an undisturbed send is sent, recorded and answered, and a redelivery gets its record.
 */
module SendProof {
  import opened Wrappers
  import opened SendOutcomes
  import opened PermitLedger
  import opened SendProtocol
  import opened SendSafety
  import opened SendVerdicts
  import opened SendTheorems

  // ----- where a completion comes from -----

  /** The call crossed, the provider answered, and both completions are what is made of that answer. */
  ghost predicate FromAnswer(adapter: Adapter, s: State, c: CallId, answer: Answer)
    requires c in s.calls
  {
    && (s.calls[c].work.attemptId, c, answer) in s.answers
    && Crossing(s.calls[c].work.attemptId, c) in s.crossings
    && AnswerFits(adapter, answer)
    && s.calls[c].written == Some(Written(adapter, answer)) && s.calls[c].told == Some(ToldAfter(adapter, answer))
  }

  /** The call never crossed: its last checks failed. */
  ghost predicate FromCheck(adapter: Adapter, s: State, c: CallId, checks: Checks)
    requires c in s.calls
  {
    && Crossing(s.calls[c].work.attemptId, c) !in s.crossings
    && ChecksFit(adapter, checks)
    && CheckFailure(adapter, s.calls[c].work, checks).Some?
    && s.calls[c].written == CheckFailure(adapter, s.calls[c].work, checks) && s.calls[c].told == s.calls[c].written
  }

  ghost predicate HasOrigin(adapter: Adapter, s: State, c: CallId)
    requires c in s.calls
  {
    s.calls[c].written.Some? ==>
      (exists answer :: FromAnswer(adapter, s, c, answer)) || (exists checks :: FromCheck(adapter, s, c, checks))
  }

  /** What the ledger's reply to a claim says of the ledger. */
  ghost predicate ReplyTells(adapter: Adapter, s: State, c: CallId, reply: ClaimReply) {
    && c in s.calls
    && (reply.Denied? ==> adapter.Ses?)
    && (!reply.Denied? ==>
          && var work := s.calls[c].work;
             && work.attemptId in s.ledger
             && (reply.Conflict? <==> s.ledger[work.attemptId].fingerprint != work.fingerprint))
  }

  ghost predicate Proven(adapter: Adapter, s: State) {
    && (forall c :: c in s.calls ==> HasOrigin(adapter, s, c))
    && (forall r :: r in s.answers ==> r.1 in s.calls && s.calls[r.1].work.attemptId == r.0 &&
                                       FromAnswer(adapter, s, r.1, r.2))
    && (forall r :: r in s.replies ==> ReplyTells(adapter, s, r.0, r.1))
  }

  // ----- it is kept -----

  lemma FromAnswerStays(adapter: Adapter, s: State, t: State, c: CallId, answer: Answer)
    requires Extends(s, t) && c in s.calls && FromAnswer(adapter, s, c, answer)
    ensures c in t.calls && FromAnswer(adapter, t, c, answer)
  {
    hide Written, ToldAfter, AnswerFits;
    assert CallStays(s, t, c);
  }

  lemma OriginStays(adapter: Adapter, s: State, t: State, c: CallId)
    requires Extends(s, t) && c in s.calls && HasOrigin(adapter, s, c)
    requires t.calls[c].written == s.calls[c].written
    requires s.calls[c].written.Some? && Crossing(s.calls[c].work.attemptId, c) in t.crossings ==>
               Crossing(s.calls[c].work.attemptId, c) in s.crossings
    ensures HasOrigin(adapter, t, c)
  {
    hide FromAnswer, CheckFailure, Extends;
    assert CallStays(s, t, c) by { CallsStay(s, t, c); }
    if s.calls[c].written.Some? {
      if answer :| FromAnswer(adapter, s, c, answer) {
        FromAnswerStays(adapter, s, t, c, answer);
      } else {
        var checks :| FromCheck(adapter, s, c, checks);
        FromCheckStays(adapter, s, t, c, checks);
      }
    }
  }

  lemma CallsStay(s: State, t: State, c: CallId)
    requires Extends(s, t) && c in s.calls
    ensures CallStays(s, t, c)
  {
  }

  lemma FromCheckStays(adapter: Adapter, s: State, t: State, c: CallId, checks: Checks)
    requires c in s.calls && c in t.calls && CallStays(s, t, c) && FromCheck(adapter, s, c, checks)
    requires Crossing(s.calls[c].work.attemptId, c) !in t.crossings
    ensures FromCheck(adapter, t, c, checks)
  {
    hide CheckFailure;
  }

  lemma ReplyTellsStays(adapter: Adapter, s: State, t: State, c: CallId, reply: ClaimReply)
    requires Extends(s, t) && ReplyTells(adapter, s, c, reply)
    ensures ReplyTells(adapter, t, c, reply)
  {
    assert CallStays(s, t, c);
    if !reply.Denied? {
      assert EntryStays(s, t, s.calls[c].work.attemptId);
    }
  }

  /** What calls have asked to record, the crossings, the answers and the replies are left alone. */
  ghost predicate Quiet(s: State, t: State) {
    && t.answers == s.answers && t.crossings == s.crossings && t.replies == s.replies
    && forall c :: c in t.calls ==>
         if c in s.calls then t.calls[c].written == s.calls[c].written else t.calls[c].written.None?
  }

  /** A step that asks for nothing to be recorded, crosses nothing and replies to nothing. */
  lemma QuietStep(adapter: Adapter, s: State, t: State)
    requires Proven(adapter, s) && Extends(s, t)
    requires Quiet(s, t)
    ensures Proven(adapter, t)
  {
    hide HasOrigin, FromAnswer, ReplyTells, Extends;
    forall c | c in t.calls
      ensures HasOrigin(adapter, t, c)
    {
      if c in s.calls {
        OriginStays(adapter, s, t, c);
      } else {
        NothingWritten(adapter, t, c);
      }
    }
    AnswersStay(adapter, s, t);
    forall r | r in s.replies
      ensures ReplyTells(adapter, t, r.0, r.1)
    {
      ReplyTellsStays(adapter, s, t, r.0, r.1);
    }
  }

  lemma NothingWritten(adapter: Adapter, s: State, c: CallId)
    requires c in s.calls && s.calls[c].written.None?
    ensures HasOrigin(adapter, s, c)
  {
  }

  lemma AnswersStay(adapter: Adapter, s: State, t: State)
    requires Proven(adapter, s) && Extends(s, t)
    ensures forall r :: r in s.answers ==> r.1 in t.calls && t.calls[r.1].work.attemptId == r.0 &&
                                           FromAnswer(adapter, t, r.1, r.2)
  {
    hide HasOrigin, FromAnswer, ReplyTells, Extends;
    forall r | r in s.answers
      ensures r.1 in t.calls && t.calls[r.1].work.attemptId == r.0 && FromAnswer(adapter, t, r.1, r.2)
    {
      FromAnswerStays(adapter, s, t, r.1, r.2);
      CallsStay(s, t, r.1);
    }
  }

  lemma CommitClaimKeepsProof(adapter: Adapter, s: State, c: CallId, denied: bool)
    requires Proven(adapter, s) && Extends(s, ApplyCommitClaim(adapter, s, c, denied))
    ensures Proven(adapter, ApplyCommitClaim(adapter, s, c, denied))
  {
    hide HasOrigin, FromAnswer, ReplyTells, Extends;
    var t := ApplyCommitClaim(adapter, s, c, denied);
    forall d | d in t.calls
      ensures HasOrigin(adapter, t, d)
    {
      OriginStays(adapter, s, t, d);
    }
    AnswersStay(adapter, s, t);
    forall r | r in t.replies
      ensures ReplyTells(adapter, t, r.0, r.1)
    {
      if r in s.replies {
        ReplyTellsStays(adapter, s, t, r.0, r.1);
      } else {
        NewReplyTells(adapter, s, c, denied, r.0, r.1);
      }
    }
  }

  lemma NewReplyTells(adapter: Adapter, s: State, c: CallId, denied: bool, d: CallId, reply: ClaimReply)
    requires var t := ApplyCommitClaim(adapter, s, c, denied); (d, reply) in t.replies && (d, reply) !in s.replies
    ensures ReplyTells(adapter, ApplyCommitClaim(adapter, s, c, denied), d, reply)
  {
  }

  lemma CheckKeepsProof(adapter: Adapter, s: State, c: CallId, checks: Checks)
    requires Inv(adapter, s) && Proven(adapter, s) && Extends(s, ApplyCheck(adapter, s, c, checks))
    ensures Proven(adapter, ApplyCheck(adapter, s, c, checks))
  {
    hide HasOrigin, FromAnswer, ReplyTells, Extends, CheckFailure, CallOk, EntryOk, ReplyOk, CrossingOk, ReportOk;
    var t := ApplyCheck(adapter, s, c, checks);
    if CallAt(s, c, Permitted) && ChecksFit(adapter, checks) {
      assert CallOk(adapter, s, c);
      PermittedHolds(adapter, s, c);
      forall d | d in t.calls
        ensures HasOrigin(adapter, t, d)
      {
        if d == c {
          CheckedHasOrigin(adapter, s, c, checks);
        } else {
          OriginStays(adapter, s, t, d);
        }
      }
      AnswersStay(adapter, s, t);
      forall r | r in t.replies
        ensures ReplyTells(adapter, t, r.0, r.1)
      {
        ReplyTellsStays(adapter, s, t, r.0, r.1);
      }
    }
  }

  lemma CheckedHasOrigin(adapter: Adapter, s: State, c: CallId, checks: Checks)
    requires CallAt(s, c, Permitted) && ChecksFit(adapter, checks) && s.calls[c].written.None?
    requires Crossing(s.calls[c].work.attemptId, c) !in s.crossings
    ensures HasOrigin(adapter, ApplyCheck(adapter, s, c, checks), c)
  {
    hide CheckFailure;
    if CheckFailure(adapter, s.calls[c].work, checks).Some? {
      assert FromCheck(adapter, ApplyCheck(adapter, s, c, checks), c, checks);
    }
  }

  lemma ProviderAnswersKeepsProof(adapter: Adapter, s: State, c: CallId, answer: Answer)
    requires Inv(adapter, s) && Proven(adapter, s) && Extends(s, ApplyProviderAnswers(adapter, s, c, answer))
    ensures Proven(adapter, ApplyProviderAnswers(adapter, s, c, answer))
  {
    hide HasOrigin, FromAnswer, ReplyTells, Extends, Written, ToldAfter, AnswerFits, CallOk, EntryOk, ReplyOk;
    hide CrossingOk, ReportOk;
    var t := ApplyProviderAnswers(adapter, s, c, answer);
    if CallAt(s, c, AwaitProvider) && AnswerFits(adapter, answer) {
      assert CallOk(adapter, s, c);
      PermittedHolds(adapter, s, c);
      AnsweredHasOrigin(adapter, s, c, answer);
      forall d | d in t.calls
        ensures HasOrigin(adapter, t, d)
      {
        if d != c {
          OriginStays(adapter, s, t, d);
        }
      }
      AnswersStay(adapter, s, t);
      forall r | r in t.replies
        ensures ReplyTells(adapter, t, r.0, r.1)
      {
        ReplyTellsStays(adapter, s, t, r.0, r.1);
      }
    }
  }

  lemma AnsweredHasOrigin(adapter: Adapter, s: State, c: CallId, answer: Answer)
    requires CallAt(s, c, AwaitProvider) && AnswerFits(adapter, answer)
    requires Crossing(s.calls[c].work.attemptId, c) in s.crossings
    ensures var t := ApplyProviderAnswers(adapter, s, c, answer);
            HasOrigin(adapter, t, c) && FromAnswer(adapter, t, c, answer)
  {
    hide Written, ToldAfter, AnswerFits;
    var t := ApplyProviderAnswers(adapter, s, c, answer);
    assert (s.calls[c].work.attemptId, c, answer) in t.answers;
    assert FromAnswer(adapter, t, c, answer);
  }

  lemma AnsweredIsQuiet(s: State, c: CallId, origin: Origin, completion: Completion)
    requires c in s.calls
    ensures Quiet(s, Answered(s, c, origin, completion))
  {
  }

  lemma ClaimAnsweredIsQuiet(adapter: Adapter, s: State, c: CallId, reply: ClaimReply)
    ensures Quiet(s, ApplyClaimAnswered(adapter, s, c, reply))
  {
    hide Replay, UnknownFor, ConflictFailure;
  }

  lemma QuietSteps(adapter: Adapter, s: State, step: Step)
    requires !step.CommitClaim? && !step.Check? && !step.ProviderAnswers?
    ensures Quiet(s, Apply(adapter, s, step))
  {
    hide PreparationAnswer, Replay, UnknownFor, ConflictFailure, ClaimFailure, Write, ReplyTo, Answered;
    hide ApplyClaimAnswered;
    if step.call in s.calls {
      forall origin, completion
        ensures Quiet(s, Answered(s, step.call, origin, completion))
      {
        AnsweredIsQuiet(s, step.call, origin, completion);
      }
    }
    if step.ClaimAnswered? {
      ClaimAnsweredIsQuiet(adapter, s, step.call, step.reply);
    }
  }

  lemma StepKeepsProof(adapter: Adapter, s: State, step: Step)
    requires Inv(adapter, s) && Proven(adapter, s)
    ensures Proven(adapter, Apply(adapter, s, step))
  {
    StepKeepsInvariant(adapter, s, step);
    hide Inv, Extends, Proven, ApplyBegin, ApplyPrepare, ApplyCommitClaim, ApplyClaimAnswered, ApplyClaimThrows;
    hide ApplyCheck, ApplyProviderAnswers, ApplyCommitComplete, ApplyCompleteAcknowledged, ApplyCompleteThrows;
    hide ApplyRecover, ApplyCrash;
    match step
    case CommitClaim(c, denied) => CommitClaimKeepsProof(adapter, s, c, denied);
    case Check(c, checks) => CheckKeepsProof(adapter, s, c, checks);
    case ProviderAnswers(c, answer) => ProviderAnswersKeepsProof(adapter, s, c, answer);
    case _ =>
      QuietSteps(adapter, s, step);
      QuietStep(adapter, s, Apply(adapter, s, step));
  }

  /** In every run whatever is recorded comes from an answer of the provider or from a failed check. */
  lemma {:induction false} RunKeepsProof(adapter: Adapter, steps: seq<Step>)
    ensures Proven(adapter, Run(adapter, steps))
  {
    hide Apply, Inv;
    if steps != [] {
      var before := steps[..|steps| - 1];
      RunKeepsInvariant(adapter, before);
      RunKeepsProof(adapter, before);
      StepKeepsProof(adapter, Run(adapter, before), steps[|steps| - 1]);
    }
  }

  // ----- what that makes of the reports -----

  ghost predicate ReachedProvider(s: State, a: AttemptId) { exists x :: x in s.crossings && x.attemptId == a }

  /** The provider's answer to the attempt's one send proves the verdict. */
  ghost predicate AnswerProves(adapter: Adapter, s: State, a: AttemptId, c: CallId, v: Verdict) {
    && Crossing(a, c) in s.crossings
    && exists answer :: (a, c, answer) in s.answers && AnswerFits(adapter, answer) && Proves(adapter, answer, v)
  }

  /** A check of the call that holds the permit proves it, and the provider is never reached. */
  ghost predicate RefusalProves(adapter: Adapter, s: State, a: AttemptId, c: CallId, v: Verdict) {
    && !ReachedProvider(s, a) && c in s.calls
    && exists checks :: ChecksFit(adapter, checks) && CheckProves(adapter, s.calls[c].work, checks, v)
  }

  /**
   Whatever is definitely reported of an attempt under its permit is proved: by the provider's own
   answer to the one send, or by a check that kept the attempt from the provider.
   */
  lemma DefiniteIsProved(adapter: Adapter, steps: seq<Step>, r: Report, v: Verdict)
    requires r in Run(adapter, steps).reports && RestsOnPermit(r) && Definite(r.completion) == Some(v)
    ensures var s := Run(adapter, steps);
            && r.attemptId in s.ledger
            && (|| AnswerProves(adapter, s, r.attemptId, s.ledger[r.attemptId].holder, v)
                || RefusalProves(adapter, s, r.attemptId, s.ledger[r.attemptId].holder, v))
  {
    hide Run, Definite, Write, ReadBack, Proven, WrittenOk, FromAnswer, FromCheck, AnswerProves, RefusalProves;
    var s := Run(adapter, steps);
    RunKeepsInvariant(adapter, steps);
    assert ReportOk(adapter, s, r);
    HolderSaysOneThing(adapter, s, r.attemptId, r.completion);
    HolderOfEntry(adapter, s, r.attemptId);
    RunKeepsProof(adapter, steps);
    RecordIsProved(adapter, s, s.ledger[r.attemptId].holder, v);
  }

  lemma HolderOfEntry(adapter: Adapter, s: State, a: AttemptId)
    requires Inv(adapter, s) && a in s.ledger
    ensures var h := s.ledger[a].holder; h in s.calls && s.calls[h].work.attemptId == a
  {
    hide CallOk, ReplyOk, CrossingOk, ReportOk, Write;
    assert EntryOk(adapter, s, a);
  }

  lemma RecordIsProved(adapter: Adapter, s: State, c: CallId, v: Verdict)
    requires Inv(adapter, s) && Proven(adapter, s) && c in s.calls && Holds(s, c)
    requires s.calls[c].written.Some? && Definite(s.calls[c].written.value) == Some(v)
    ensures var a := s.calls[c].work.attemptId; AnswerProves(adapter, s, a, c, v) || RefusalProves(adapter, s, a, c, v)
  {
    hide Definite, Written, ToldAfter, AnswerFits, ChecksFit, CheckFailure, Proves, CheckProves, ReplyTells;
    hide CallOk, EntryOk, ReplyOk, ReportOk;
    assert HasOrigin(adapter, s, c);
    if answer :| FromAnswer(adapter, s, c, answer) {
      DefiniteIff(adapter, answer, v);
      assert (s.calls[c].work.attemptId, c, answer) in s.answers;
    } else {
      var checks :| FromCheck(adapter, s, c, checks);
      CheckDefiniteIff(adapter, s.calls[c].work, checks, v);
      forall x | x in s.crossings
        ensures x.attemptId != s.calls[c].work.attemptId
      {
        assert CrossingOk(s, x);
      }
    }
  }

  /** An attempt is reported safe to repeat only if the answer to its one send, or a check before it, says so. */
  lemma RetryIsProved(adapter: Adapter, steps: seq<Step>, r: Report, code: Code)
    requires r in Run(adapter, steps).reports && RestsOnPermit(r) && r.completion == FailureOf(code, SafeToRetry)
    ensures var s := Run(adapter, steps);
            && r.attemptId in s.ledger
            && var a, h := r.attemptId, s.ledger[r.attemptId].holder;
               || (exists answer :: (a, h, answer) in s.answers && AnswerFits(adapter, answer) &&
                                    SaysRetry(adapter, answer, code))
               || (!ReachedProvider(s, a) && h in s.calls &&
                   exists checks :: ChecksFit(adapter, checks) &&
                                    Refuses(adapter, s.calls[h].work, checks, code, SafeToRetry))
  {
    hide Run, Write, ReadBack, Proven, WrittenOk, FromAnswer, FromCheck, SaysRetry, Refuses, UnknownFor;
    var s := Run(adapter, steps);
    RunKeepsInvariant(adapter, steps);
    assert ReportOk(adapter, s, r);
    HolderSaysOneThing(adapter, s, r.attemptId, r.completion);
    HolderOfEntry(adapter, s, r.attemptId);
    RunKeepsProof(adapter, steps);
    RetryIsProvedFor(adapter, s, s.ledger[r.attemptId].holder, code);
  }

  lemma RetryIsProvedFor(adapter: Adapter, s: State, c: CallId, code: Code)
    requires Inv(adapter, s) && Proven(adapter, s) && c in s.calls && Holds(s, c)
    requires s.calls[c].written.Some?
    requires FailureOf(code, SafeToRetry) == s.calls[c].written.value ||
             Some(FailureOf(code, SafeToRetry)) == s.calls[c].told
    ensures var a := s.calls[c].work.attemptId;
            || (exists answer :: (a, c, answer) in s.answers && AnswerFits(adapter, answer) &&
                                 SaysRetry(adapter, answer, code))
            || (!ReachedProvider(s, a) &&
                exists checks :: ChecksFit(adapter, checks) &&
                                 Refuses(adapter, s.calls[c].work, checks, code, SafeToRetry))
  {
    hide Written, ToldAfter, AnswerFits, ChecksFit, CheckFailure, SaysRetry, Refuses, ReplyTells;
    hide CallOk, EntryOk, ReplyOk, ReportOk;
    assert HasOrigin(adapter, s, c);
    if answer :| FromAnswer(adapter, s, c, answer) {
      RetryIff(adapter, answer, code);
      if Written(adapter, answer) == FailureOf(code, SafeToRetry) {
        WrittenRetryIsSaid(adapter, answer, code);
      }
      assert (s.calls[c].work.attemptId, c, answer) in s.answers;
    } else {
      var checks :| FromCheck(adapter, s, c, checks);
      CheckIff(adapter, s.calls[c].work, checks, code, SafeToRetry);
      forall x | x in s.crossings
        ensures x.attemptId != s.calls[c].work.attemptId
      {
        assert CrossingOk(s, x);
      }
    }
  }

  /** The SES adapter records no failure as retryable: it answers so and records `failed`. */
  lemma WrittenRetryIsSaid(adapter: Adapter, answer: Answer, code: Code)
    requires AnswerFits(adapter, answer) && Written(adapter, answer) == FailureOf(code, SafeToRetry)
    ensures ToldAfter(adapter, answer) == FailureOf(code, SafeToRetry)
  {
    hide ExpoSend.TransportCompletion, DirectSend.SendCompletion;
  }

  /** What the provider answered is what the call asks to be recorded, in every run. */
  lemma AnswerIsRecorded(adapter: Adapter, steps: seq<Step>, a: AttemptId, c: CallId, answer: Answer)
    requires (a, c, answer) in Run(adapter, steps).answers
    ensures var s := Run(adapter, steps);
            && c in s.calls && AnswerFits(adapter, answer) && Crossing(a, c) in s.crossings
            && s.calls[c].written == Some(Written(adapter, answer))
            && (a in s.ledger && s.ledger[a].completion.Some? ==>
                  s.ledger[a].completion == Some(Write(Written(adapter, answer), ProviderOf(adapter))))
  {
    hide Run, Written, ToldAfter, AnswerFits, HasOrigin, ReplyTells, Write, CallOk, ReplyOk, ReportOk;
    RunKeepsProof(adapter, steps);
    RunKeepsInvariant(adapter, steps);
    var s := Run(adapter, steps);
    assert (a, c, answer).1 in s.calls && FromAnswer(adapter, s, (a, c, answer).1, (a, c, answer).2);
    assert CrossingOk(s, Crossing(a, c));
    if a in s.ledger && s.ledger[a].completion.Some? {
      assert EntryOk(adapter, s, a);
    }
  }

  /** A claim is turned down as a conflict exactly if the attempt's permit is for other work. */
  lemma ConflictsAreOtherWork(adapter: Adapter, steps: seq<Step>, c: CallId, reply: ClaimReply)
    requires (c, reply) in Run(adapter, steps).replies && !reply.Denied?
    ensures var s := Run(adapter, steps);
            && c in s.calls && s.calls[c].work.attemptId in s.ledger
            && (reply.Conflict? <==> s.ledger[s.calls[c].work.attemptId].fingerprint != s.calls[c].work.fingerprint)
  {
    hide Run, HasOrigin, FromAnswer;
    RunKeepsProof(adapter, steps);
    assert ReplyTells(adapter, Run(adapter, steps), (c, reply).0, (c, reply).1);
  }
}
