/**
 The send that nothing disturbs, from any state of any run: its steps reach the provider once, record
 what is made of the answer and answer it; a check that fails keeps it from the provider; and whoever
 delivers the attempt again gets the record, or is told to wait, or is turned down.
 */
module SendDelivery {
  import opened Wrappers
  import opened SendOutcomes
  import opened PermitLedger
  import opened SendProtocol
  import opened SendSafety
  import opened SendTheorems
  import opened SendVerdicts
  import opened SendProof

  // ----- the steps of a delivery -----

  /** Up to the claim; a direct push is prepared first. */
  function Asking(adapter: Adapter, c: CallId, work: Work, p: Preparation): seq<Step> {
    if adapter.Direct? then [Begin(c, work), Prepare(c, p)] else [Begin(c, work)]
  }

  function Claiming(c: CallId, reply: ClaimReply): seq<Step> { [CommitClaim(c, false), ClaimAnswered(c, reply)] }

  function Sending(c: CallId, checks: Checks, answer: Answer): seq<Step> {
    [Check(c, checks), ProviderAnswers(c, answer)]
  }

  function Recording(c: CallId): seq<Step> { [CommitComplete(c), CompleteAcknowledged(c)] }

  /** A call nobody has heard of; a direct push is one whose preparation lets it go on. */
  ghost predicate IsNew(adapter: Adapter, s: State, c: CallId, work: Work, p: Preparation) {
    && c !in s.calls
    && (adapter.Direct? ==> PreparationAnswer(adapter.apns, work, p).None?)
  }

  lemma RunFromTwo(adapter: Adapter, s: State, x: Step, y: Step)
    ensures RunFrom(adapter, s, [x, y]) == Apply(adapter, Apply(adapter, s, x), y)
    ensures RunFrom(adapter, s, [x]) == Apply(adapter, s, x)
  {
    hide Apply;
    assert [x, y][..1] == [x] && [x][..0] == [];
    assert RunFrom(adapter, s, []) == s;
    assert RunFrom(adapter, s, [x]) == Apply(adapter, s, x);
  }

  lemma {:induction false} RunFromParts(adapter: Adapter, s: State, first: seq<Step>, more: seq<Step>)
    ensures RunFrom(adapter, s, first + more) == RunFrom(adapter, RunFrom(adapter, s, first), more)
  {
    hide Apply;
    if more == [] {
      assert first + more == first;
    } else {
      assert (first + more)[..|first + more| - 1] == first + more[..|more| - 1];
      RunFromParts(adapter, s, first, more[..|more| - 1]);
    }
  }

  // ----- stage by stage -----

  /** The state is the old one but for the new call, its claim and the ledger's replies. */
  ghost predicate OnlyClaims(s: State, t: State, c: CallId, call: Call) {
    && t.calls == s.calls[c := call] && c in t.claims
    && t.crossings == s.crossings && t.reports == s.reports && t.answers == s.answers && t.completes == s.completes
  }

  lemma AskingAsks(adapter: Adapter, s: State, c: CallId, work: Work, p: Preparation)
    requires IsNew(adapter, s, c, work, p)
    ensures var t := RunFrom(adapter, s, Asking(adapter, c, work, p));
            OnlyClaims(s, t, c, Call(work, AwaitClaim, None, None)) && t.ledger == s.ledger
  {
    hide PreparationAnswer;
    RunFromTwo(adapter, s, Begin(c, work), Prepare(c, p));
    var call := Call(work, AwaitClaim, None, None);
    if adapter.Direct? {
      var s1 := ApplyBegin(adapter, s, c, work);
      var s2 := ApplyPrepare(adapter, s1, c, p);
      assert s2.calls == s.calls[c := call];
    } else {
      assert ApplyBegin(adapter, s, c, work).calls == s.calls[c := call];
    }
  }

  lemma ClaimingClaims(adapter: Adapter, s: State, t: State, c: CallId, work: Work)
    requires OnlyClaims(s, t, c, Call(work, AwaitClaim, None, None)) && t.ledger == s.ledger
    requires work.attemptId !in s.ledger
    ensures var u := RunFrom(adapter, t, Claiming(c, Execute));
            && OnlyClaims(s, u, c, Call(work, Permitted, None, None))
            && u.ledger == s.ledger[work.attemptId := Entry(work.fingerprint, c, None)]
  {
    RunFromTwo(adapter, t, CommitClaim(c, false), ClaimAnswered(c, Execute));
    var t1 := ApplyCommitClaim(adapter, t, c, false);
    assert (c, Execute) in t1.replies && t1.calls == t.calls;
    var u := ApplyClaimAnswered(adapter, t1, c, Execute);
    assert u.calls == s.calls[c := Call(work, Permitted, None, None)];
  }

  /** A call that holds its permit and has something to record. */
  ghost predicate MayRecord(s: State, t: State, c: CallId, work: Work, written: Completion, told: Completion) {
    && c in t.completes && t.reports == s.reports
    && t.calls == s.calls[c := Call(work, AwaitComplete, Some(written), Some(told))]
    && t.ledger == s.ledger[work.attemptId := Entry(work.fingerprint, c, None)]
  }

  lemma SendingSends(adapter: Adapter, s: State, t: State, c: CallId, work: Work, checks: Checks, answer: Answer)
    requires OnlyClaims(s, t, c, Call(work, Permitted, None, None))
    requires t.ledger == s.ledger[work.attemptId := Entry(work.fingerprint, c, None)]
    requires ChecksFit(adapter, checks) && CheckFailure(adapter, work, checks).None? && AnswerFits(adapter, answer)
    ensures var u := RunFrom(adapter, t, Sending(c, checks, answer));
            && u.crossings == s.crossings + [Crossing(work.attemptId, c)]
            && MayRecord(s, u, c, work, Written(adapter, answer), ToldAfter(adapter, answer))
  {
    hide CheckFailure, Written, ToldAfter;
    RunFromTwo(adapter, t, Check(c, checks), ProviderAnswers(c, answer));
    var t1 := ApplyCheck(adapter, t, c, checks);
    assert t1.calls == s.calls[c := Call(work, AwaitProvider, None, None)];
    var u := ApplyProviderAnswers(adapter, t1, c, answer);
    assert u.calls == s.calls[c := Call(work, AwaitComplete, Some(Written(adapter, answer)),
                                        Some(ToldAfter(adapter, answer)))];
  }

  lemma RefusingRefuses(adapter: Adapter, s: State, t: State, c: CallId, work: Work, checks: Checks)
    requires OnlyClaims(s, t, c, Call(work, Permitted, None, None))
    requires t.ledger == s.ledger[work.attemptId := Entry(work.fingerprint, c, None)]
    requires ChecksFit(adapter, checks) && CheckFailure(adapter, work, checks).Some?
    ensures var u, failure := RunFrom(adapter, t, [Check(c, checks)]), CheckFailure(adapter, work, checks).value;
            && u.crossings == s.crossings && MayRecord(s, u, c, work, failure, failure)
  {
    hide CheckFailure;
    RunFromTwo(adapter, t, Check(c, checks), Check(c, checks));
    var failure := CheckFailure(adapter, work, checks);
    assert ApplyCheck(adapter, t, c, checks).calls == s.calls[c := Call(work, AwaitComplete, failure, failure)];
  }

  lemma RecordingRecords(adapter: Adapter, s: State, t: State, c: CallId, work: Work, written: Completion,
                         told: Completion)
    requires MayRecord(s, t, c, work, written, told)
    ensures var u := RunFrom(adapter, t, Recording(c));
            && u.crossings == t.crossings
            && u.ledger == s.ledger[work.attemptId := Entry(work.fingerprint, c,
                                                            Some(Write(written, ProviderOf(adapter))))]
            && u.reports == s.reports + {Report(work.attemptId, c, Sent, told)}
  {
    hide Write, ProviderOf;
    RunFromTwo(adapter, t, CommitComplete(c), CompleteAcknowledged(c));
  }

  /** If recording throws, the push adapters call the outcome unknown and SES says what it knows. */
  lemma RecordingThrows(adapter: Adapter, s: State, t: State, c: CallId, work: Work, written: Completion,
                        told: Completion)
    returns (answer: Completion)
    requires MayRecord(s, t, c, work, written, told)
    ensures if adapter.Ses? then answer == told else Definite(answer).None? && answer.OutcomeOf?
    ensures var u := RunFrom(adapter, t, [CompleteThrows(c)]);
            && u.crossings == t.crossings && u.ledger == t.ledger
            && u.reports == s.reports + {Report(work.attemptId, c, Sent, answer)}
  {
    RunFromTwo(adapter, t, CompleteThrows(c), CompleteThrows(c));
    answer := if adapter.Ses? then told else UnknownFor(adapter);
  }

  // ----- a delivery as a whole -----

  /** The first delivery of an attempt, undisturbed: one send, its answer recorded and answered. */
  lemma UndisturbedSend(adapter: Adapter, s: State, c: CallId, work: Work, p: Preparation, checks: Checks,
                        answer: Answer)
    requires IsNew(adapter, s, c, work, p) && work.attemptId !in s.ledger
    requires ChecksFit(adapter, checks) && Passes(adapter, work, checks) && AnswerFits(adapter, answer)
    ensures var t := RunFrom(adapter, s, Asking(adapter, c, work, p) + Claiming(c, Execute) +
                                         Sending(c, checks, answer) + Recording(c));
            && t.crossings == s.crossings + [Crossing(work.attemptId, c)]
            && t.ledger == s.ledger[work.attemptId := Entry(work.fingerprint, c,
                                    Some(Write(Written(adapter, answer), ProviderOf(adapter))))]
            && t.reports == s.reports + {Report(work.attemptId, c, Sent, ToldAfter(adapter, answer))}
  {
    hide RunFrom, Written, ToldAfter, Write, CheckFailure, Passes, IsNew, OnlyClaims, MayRecord, AnswerFits;
    hide Asking, Claiming, Sending, Recording;
    var asking, claiming, sending := Asking(adapter, c, work, p), Claiming(c, Execute), Sending(c, checks, answer);
    RunFromParts(adapter, s, asking + claiming + sending, Recording(c));
    RunFromParts(adapter, s, asking + claiming, sending);
    RunFromParts(adapter, s, asking, claiming);
    var asked := RunFrom(adapter, s, asking);
    var claimed := RunFrom(adapter, asked, claiming);
    var sent := RunFrom(adapter, claimed, sending);
    AskingAsks(adapter, s, c, work, p);
    ClaimingClaims(adapter, s, asked, c, work);
    CheckIff(adapter, work, checks, OtherCode(""), Ambiguous);
    SendingSends(adapter, s, claimed, c, work, checks, answer);
    RecordingRecords(adapter, s, sent, c, work, Written(adapter, answer), ToldAfter(adapter, answer));
  }

  /** A check that fails under the permit: no send, and the reason is recorded and answered. */
  lemma UndisturbedRefusal(adapter: Adapter, s: State, c: CallId, work: Work, p: Preparation, checks: Checks)
    requires IsNew(adapter, s, c, work, p) && work.attemptId !in s.ledger
    requires ChecksFit(adapter, checks) && !Passes(adapter, work, checks)
    ensures CheckFailure(adapter, work, checks).Some?
    ensures var t := RunFrom(adapter, s, Asking(adapter, c, work, p) + Claiming(c, Execute) + [Check(c, checks)] +
                                         Recording(c));
            var failure := CheckFailure(adapter, work, checks).value;
            && t.crossings == s.crossings
            && t.ledger == s.ledger[work.attemptId := Entry(work.fingerprint, c,
                                                            Some(Write(failure, ProviderOf(adapter))))]
            && t.reports == s.reports + {Report(work.attemptId, c, Sent, failure)}
  {
    hide RunFrom, Write, CheckFailure, Passes, IsNew, OnlyClaims, MayRecord;
    hide Asking, Claiming, Recording;
    CheckIff(adapter, work, checks, OtherCode(""), Ambiguous);
    var asking, claiming := Asking(adapter, c, work, p), Claiming(c, Execute);
    RunFromParts(adapter, s, asking + claiming + [Check(c, checks)], Recording(c));
    RunFromParts(adapter, s, asking + claiming, [Check(c, checks)]);
    RunFromParts(adapter, s, asking, claiming);
    var asked := RunFrom(adapter, s, asking);
    var claimed := RunFrom(adapter, asked, claiming);
    AskingAsks(adapter, s, c, work, p);
    ClaimingClaims(adapter, s, asked, c, work);
    RefusingRefuses(adapter, s, claimed, c, work, checks);
    var failure := CheckFailure(adapter, work, checks).value;
    RecordingRecords(adapter, s, RunFrom(adapter, claimed, [Check(c, checks)]), c, work, failure, failure);
  }

  /** Other work is refused for good; the direct adapters only call it a failure of the ledger. */
  predicate TurnsDown(adapter: Adapter, completion: Completion) {
    match adapter
    case Expo => completion == FailureOf(OtherCode("EXPO_SEND_LEDGER_CONFLICT"), TerminalDisposition)
    case Direct(_) => completion == FailureOf(DirectLedgerFailed, Ambiguous)
    case Ses => completion == FailureOf(OtherCode("SES_SEND_LEDGER_CONFLICT"), TerminalDisposition)
  }

  /** What the ledger's entry makes of a later delivery, and what that one is answered. */
  ghost predicate RedeliveryTells(adapter: Adapter, entry: Entry, work: Work, reply: ClaimReply, origin: Origin,
                                  completion: Completion)
  {
    if entry.fingerprint != work.fingerprint then
      reply.Conflict? && origin.TurnedDown? && TurnsDown(adapter, completion)
    else if entry.completion.None? then reply.Uncertain? && origin.Pending? && Definite(completion).None?
    else
      && reply == Completed(entry.completion.value) && origin.Replayed?
      && entry.completion.value == Write(completion, ProviderOf(adapter))
  }

  /**
   A later delivery, after any run: it does not reach the provider again. It gets the record if there is
   one, no definite answer while there is none, and is turned down for other work under the same attempt.
   */
  lemma Redelivery(adapter: Adapter, steps: seq<Step>, d: CallId, work: Work, p: Preparation)
    returns (reply: ClaimReply, origin: Origin, completion: Completion)
    requires IsNew(adapter, Run(adapter, steps), d, work, p) && work.attemptId in Run(adapter, steps).ledger
    ensures RedeliveryTells(adapter, Run(adapter, steps).ledger[work.attemptId], work, reply, origin, completion)
    ensures var s := Run(adapter, steps);
            var t := RunFrom(adapter, s, Asking(adapter, d, work, p) + Claiming(d, reply));
            && t.crossings == s.crossings && t.ledger == s.ledger
            && t.reports == s.reports + {Report(work.attemptId, d, origin, completion)}
  {
    hide Run, RunFrom, IsNew, OnlyClaims, Write, Replay;
    var s := Run(adapter, steps);
    RunKeepsInvariant(adapter, steps);
    reply := ReplyTo(s, d, work);
    origin := if reply.Completed? then Replayed else if reply.Uncertain? then Pending else TurnedDown;
    completion := if reply.Completed? then Replay(adapter, reply.record)
                  else if reply.Uncertain? then UnknownFor(adapter) else ConflictFailure(adapter);
    if reply.Completed? {
      RecordReadsBack(adapter, s, work.attemptId);
    }
    AskingAsks(adapter, s, d, work, p);
    var asked := RunFrom(adapter, s, Asking(adapter, d, work, p));
    RunFromParts(adapter, s, Asking(adapter, d, work, p), Claiming(d, reply));
    AnswerToRedelivery(adapter, s, asked, d, work);
  }

  lemma AnswerToRedelivery(adapter: Adapter, s: State, t: State, d: CallId, work: Work)
    requires OnlyClaims(s, t, d, Call(work, AwaitClaim, None, None)) && t.ledger == s.ledger
    requires work.attemptId in s.ledger
    ensures var reply := ReplyTo(s, d, work);
            var u := RunFrom(adapter, t, Claiming(d, reply));
            && !reply.Execute? && !reply.Denied? && u.crossings == s.crossings && u.ledger == s.ledger
            && u.reports == s.reports + {Report(work.attemptId, d,
                 if reply.Completed? then Replayed else if reply.Uncertain? then Pending else TurnedDown,
                 if reply.Completed? then Replay(adapter, reply.record)
                 else if reply.Uncertain? then UnknownFor(adapter) else ConflictFailure(adapter))}
  {
    hide Replay, UnknownFor, ConflictFailure;
    var reply := ReplyTo(s, d, work);
    RunFromTwo(adapter, t, CommitClaim(d, false), ClaimAnswered(d, reply));
    assert (d, reply) in ApplyCommitClaim(adapter, t, d, false).replies;
  }

  /** Recovery only looks: it answers what a later delivery would be answered, and changes nothing. */
  lemma Recovery(adapter: Adapter, steps: seq<Step>, d: CallId, work: Work)
    returns (reply: ClaimReply, origin: Origin, completion: Completion)
    requires !adapter.Ses? && work.attemptId in Run(adapter, steps).ledger
    ensures RedeliveryTells(adapter, Run(adapter, steps).ledger[work.attemptId], work, reply, origin, completion)
    ensures var s := Run(adapter, steps);
            RunFrom(adapter, s, [Recover(d, work)]) ==
              s.(reports := s.reports + {Report(work.attemptId, d, origin, completion)})
  {
    hide Run, RunFrom, Write, Replay;
    var s := Run(adapter, steps);
    RunKeepsInvariant(adapter, steps);
    RunFromTwo(adapter, s, Recover(d, work), Recover(d, work));
    reply := ReplyTo(s, d, work);
    origin := if reply.Completed? then Replayed else if reply.Uncertain? then Pending else TurnedDown;
    completion := if reply.Completed? then Replay(adapter, reply.record)
                  else if reply.Uncertain? then UnknownFor(adapter) else ConflictFailure(adapter);
    if reply.Completed? {
      RecordReadsBack(adapter, s, work.attemptId);
    }
  }

  /** The end of a call that gets no permit: nothing is sent or recorded, and this is answered. */
  ghost predicate EndsUnsent(s: State, t: State, c: CallId, work: Work, origin: Origin, completion: Completion) {
    t.crossings == s.crossings && t.ledger == s.ledger &&
    t.reports == s.reports + {Report(work.attemptId, c, origin, completion)}
  }

  /** A claim that throws may have been granted: the push adapters call it ambiguous, SES safe to retry. */
  lemma ClaimThrowsTells(adapter: Adapter, s: State, t: State, c: CallId, work: Work) returns (completion: Completion)
    requires OnlyClaims(s, t, c, Call(work, AwaitClaim, None, None)) && t.ledger == s.ledger
    ensures EndsUnsent(s, RunFrom(adapter, t, [ClaimThrows(c)]), c, work, ClaimThrew, completion)
    ensures completion.FailureOf? && (completion.disposition.SafeToRetry? <==> adapter.Ses?)
    ensures Definite(completion).None? <==> !adapter.Ses?
  {
    RunFromTwo(adapter, t, ClaimThrows(c), ClaimThrows(c));
    completion := ClaimFailure(adapter);
  }

  /** What the policy of the SES ledger denies is refused for good, and leaves no permit behind. */
  lemma DeniedClaim(s: State, t: State, c: CallId, work: Work)
    requires OnlyClaims(s, t, c, Call(work, AwaitClaim, None, None)) && t.ledger == s.ledger
    requires work.attemptId !in s.ledger
    ensures EndsUnsent(s, RunFrom(Ses, t, [CommitClaim(c, true), ClaimAnswered(c, Denied)]), c, work, TurnedDown,
                       FailureOf(OtherCode("SES_SEND_POLICY_DENIED"), TerminalDisposition))
  {
    RunFromTwo(Ses, t, CommitClaim(c, true), ClaimAnswered(c, Denied));
    assert (c, Denied) in ApplyCommitClaim(Ses, t, c, true).replies;
  }
}
