/** The invariant of the send protocol, and what it gives over every run of every adapter. */
module SendSafety {
  import opened Wrappers
  import opened SendOutcomes
  import opened PermitLedger
  import opened SendProtocol
  import ExpoSend
  import DirectSend

  // ----- what a completion claims about an attempt -----

  datatype Verdict = Verdict(state: SendState, reference: Option<string>, reason: Option<Code>)

  /** The definite state a completion reports; an unknown outcome or an ambiguous error reports none. */
  function Definite(c: Completion): Option<Verdict> {
    match c
    case OutcomeOf(SendUnknown, _, _, _) => None
    case OutcomeOf(state, reference, reason, _) => Some(Verdict(state, reference, reason))
    case FailureOf(_, Ambiguous) => None
    case FailureOf(code, _) => Some(Verdict(SendFailed, None, Some(code)))
  }

  predicate ClaimsAcceptance(c: Completion) { c.OutcomeOf? && c.state.ProviderAccepted? }

  /** The provider accepted this very send. */
  ghost predicate WasAccepted(adapter: Adapter, s: State, a: AttemptId, c: CallId, reference: Option<string>) {
    && reference.Some?
    && Crossing(a, c) in s.crossings
    && exists answer :: (a, c, answer) in s.answers && Accepts(adapter, answer, reference.value)
  }

  // ----- the invariant -----

  predicate Holds(s: State, c: CallId) {
    && c in s.calls
    && var work := s.calls[c].work;
       && work.attemptId in s.ledger
       && s.ledger[work.attemptId].holder == c
       && s.ledger[work.attemptId].fingerprint == work.fingerprint
  }

  /** What a call asked to be recorded can be read back, agrees with what it answers, and tells the truth. */
  ghost predicate WrittenOk(adapter: Adapter, s: State, c: CallId, written: Completion, told: Completion)
    requires c in s.calls
  {
    && ReadBack(adapter, Write(written, ProviderOf(adapter))) == Some(written)
    && Definite(told) == Definite(written)
    && (!adapter.Ses? ==> told == written)
    && (ClaimsAcceptance(written) ==> WasAccepted(adapter, s, s.calls[c].work.attemptId, c, written.reference))
    && (ClaimsAcceptance(told) ==> told == written)
  }

  ghost predicate CallOk(adapter: Adapter, s: State, c: CallId)
    requires c in s.calls
  {
    var call := s.calls[c];
    && (call.pc.Preparing? || call.pc.AwaitClaim? || call.pc.Permitted? ==>
         Crossing(call.work.attemptId, c) !in s.crossings)
    && (call.pc.Permitted? || call.pc.AwaitProvider? || call.pc.AwaitComplete? ==> Holds(s, c))
    && (call.pc.AwaitProvider? ==> Crossing(call.work.attemptId, c) in s.crossings)
    && (call.written.Some? <==> call.told.Some?)
    && (call.pc.AwaitComplete? || c in s.completes ==> call.written.Some?)
    && (call.pc.Preparing? || call.pc.AwaitClaim? || call.pc.Permitted? || call.pc.AwaitProvider? ==>
         call.written.None?)
    && (call.written.Some? ==> Holds(s, c) && WrittenOk(adapter, s, c, call.written.value, call.told.value))
  }

  /** A record in the ledger is what the holder of the permit asked to be recorded. */
  ghost predicate EntryOk(adapter: Adapter, s: State, a: AttemptId)
    requires a in s.ledger
  {
    var entry := s.ledger[a];
    && entry.holder in s.calls && s.calls[entry.holder].work.attemptId == a && Holds(s, entry.holder)
    && (entry.completion.Some? ==>
          && s.calls[entry.holder].written.Some?
          && entry.completion.value == Write(s.calls[entry.holder].written.value, ProviderOf(adapter)))
  }

  ghost predicate ReplyOk(s: State, c: CallId, reply: ClaimReply) {
    && c in s.calls
    && (reply.Execute? ==> Holds(s, c))
    && (reply.Completed? ==>
          && s.calls[c].work.attemptId in s.ledger
          && s.ledger[s.calls[c].work.attemptId].completion == Some(reply.record))
  }

  ghost predicate CrossingOk(s: State, x: Crossing) {
    && x.call in s.calls && s.calls[x.call].work.attemptId == x.attemptId && Holds(s, x.call)
  }

  /** The holder of the attempt's permit wrote `c`, or answered `c` for it. */
  ghost predicate SaidByHolder(s: State, a: AttemptId, c: Completion) {
    && a in s.ledger
    && s.ledger[a].holder in s.calls
    && var call := s.calls[s.ledger[a].holder];
       && call.written.Some? && (call.written.value == c || call.told == Some(c))
  }

  ghost predicate ReportOk(adapter: Adapter, s: State, r: Report) {
    match r.origin
    case BeforeClaim => adapter.Direct?
    case ClaimThrew => r.completion == ClaimFailure(adapter)
    case Pending => Definite(r.completion).None?
    case Sent => Definite(r.completion).None? || SaidByHolder(s, r.attemptId, r.completion)
    case Replayed => SaidByHolder(s, r.attemptId, r.completion) && s.ledger[r.attemptId].completion.Some? &&
                     s.ledger[r.attemptId].completion.value == Write(r.completion, ProviderOf(adapter))
    case _ => true
  }

  ghost predicate Inv(adapter: Adapter, s: State) {
    && (forall c :: c in s.calls ==> CallOk(adapter, s, c))
    && (forall a :: a in s.ledger ==> EntryOk(adapter, s, a))
    && (forall r :: r in s.replies ==> ReplyOk(s, r.0, r.1))
    && (forall x :: x in s.crossings ==> CrossingOk(s, x))
    && (forall r :: r in s.reports ==> ReportOk(adapter, s, r))
    && s.completes <= s.calls.Keys
  }

  // ----- nothing the invariant rests on is ever taken back -----

  predicate CallStays(s: State, t: State, c: CallId)
    requires c in s.calls
  {
    && c in t.calls && t.calls[c].work == s.calls[c].work
    && (s.calls[c].written.Some? ==> t.calls[c].written == s.calls[c].written && t.calls[c].told == s.calls[c].told)
  }

  predicate EntryStays(s: State, t: State, a: AttemptId)
    requires a in s.ledger
  {
    && a in t.ledger && t.ledger[a].holder == s.ledger[a].holder && t.ledger[a].fingerprint == s.ledger[a].fingerprint
    && (s.ledger[a].completion.Some? ==> t.ledger[a].completion == s.ledger[a].completion)
  }

  ghost predicate Extends(s: State, t: State) {
    && (forall c :: c in s.calls ==> CallStays(s, t, c))
    && (forall a :: a in s.ledger ==> EntryStays(s, t, a))
    && s.crossings <= t.crossings && s.answers <= t.answers && s.reports <= t.reports
  }

  lemma HoldsStays(s: State, t: State, c: CallId)
    requires Extends(s, t) && Holds(s, c)
    ensures Holds(t, c)
  {
    assert CallStays(s, t, c);
    assert EntryStays(s, t, s.calls[c].work.attemptId);
  }

  lemma WrittenOkStays(adapter: Adapter, s: State, t: State, c: CallId, written: Completion, told: Completion)
    requires Extends(s, t) && c in s.calls && WrittenOk(adapter, s, c, written, told)
    ensures c in t.calls && WrittenOk(adapter, t, c, written, told)
  {
    hide ReadBack, Definite, Accepts;
    assert CallStays(s, t, c);
    if ClaimsAcceptance(written) {
      var a := s.calls[c].work.attemptId;
      assert Crossing(a, c) in t.crossings;
      var answer :| (a, c, answer) in s.answers && Accepts(adapter, answer, written.reference.value);
      assert (a, c, answer) in t.answers;
    }
  }

  lemma SaidStays(s: State, t: State, a: AttemptId, c: Completion)
    requires Extends(s, t) && SaidByHolder(s, a, c)
    ensures SaidByHolder(t, a, c)
  {
    assert EntryStays(s, t, a);
    var holder := s.ledger[a].holder;
    assert CallStays(s, t, holder);
  }

  lemma EntryOkStays(adapter: Adapter, s: State, t: State, a: AttemptId)
    requires Extends(s, t) && a in s.ledger && EntryOk(adapter, s, a) && a in t.ledger && t.ledger[a] == s.ledger[a]
    ensures EntryOk(adapter, t, a)
  {
    hide Write;
    HoldsStays(s, t, s.ledger[a].holder);
    assert CallStays(s, t, s.ledger[a].holder);
  }

  lemma ReplyOkStays(s: State, t: State, c: CallId, reply: ClaimReply)
    requires Extends(s, t) && ReplyOk(s, c, reply)
    ensures ReplyOk(t, c, reply)
  {
    assert CallStays(s, t, c);
    if reply.Execute? {
      HoldsStays(s, t, c);
    }
    if reply.Completed? {
      assert EntryStays(s, t, s.calls[c].work.attemptId);
    }
  }

  lemma CrossingOkStays(s: State, t: State, x: Crossing)
    requires Extends(s, t) && CrossingOk(s, x)
    ensures CrossingOk(t, x)
  {
    assert CallStays(s, t, x.call);
    HoldsStays(s, t, x.call);
  }

  lemma ReportOkStays(adapter: Adapter, s: State, t: State, r: Report)
    requires Extends(s, t) && ReportOk(adapter, s, r)
    ensures ReportOk(adapter, t, r)
  {
    hide Write, Definite, Extends;
    if SaidByHolder(s, r.attemptId, r.completion) {
      SaidStays(s, t, r.attemptId, r.completion);
      ReplayStays(s, t, r.attemptId);
    }
  }

  lemma ReplayStays(s: State, t: State, a: AttemptId)
    requires Extends(s, t) && a in s.ledger
    ensures EntryStays(s, t, a)
  {
  }

  /** A call that the step did not touch stays sound. */
  lemma CallOkStays(adapter: Adapter, s: State, t: State, c: CallId)
    requires Extends(s, t) && c in s.calls && CallOk(adapter, s, c)
    requires t.calls[c] == s.calls[c] && (c in t.completes <==> c in s.completes)
    requires Crossing(s.calls[c].work.attemptId, c) in t.crossings ==>
               Crossing(s.calls[c].work.attemptId, c) in s.crossings
    ensures CallOk(adapter, t, c)
  {
    hide WrittenOk, Extends, Holds;
    if Holds(s, c) {
      HoldsStays(s, t, c);
    }
    if s.calls[c].written.Some? {
      WrittenOkStays(adapter, s, t, c, s.calls[c].written.value, s.calls[c].told.value);
    }
    CrossingsStay(s, t);
  }

  lemma CrossingsStay(s: State, t: State)
    requires Extends(s, t)
    ensures forall x :: x in s.crossings ==> x in t.crossings
  {
  }

  /** What is left to prove of a step that extends the state: only what it touched. */
  lemma InvFromTouched(adapter: Adapter, s: State, t: State, c: CallId, a: AttemptId)
    requires Inv(adapter, s) && Extends(s, t)
    requires forall d :: d in t.calls && d != c ==> d in s.calls && t.calls[d] == s.calls[d]
    requires forall d :: d != c ==> (d in t.completes <==> d in s.completes)
    requires forall b :: b in t.ledger && b != a ==> b in s.ledger && t.ledger[b] == s.ledger[b]
    requires forall x :: x in t.crossings && x !in s.crossings ==> x.call == c && CrossingOk(t, x)
    requires forall r :: r in t.replies && r !in s.replies ==> ReplyOk(t, r.0, r.1)
    requires forall r :: r in t.reports && r !in s.reports ==> ReportOk(adapter, t, r)
    requires c in t.calls ==> CallOk(adapter, t, c)
    requires a in t.ledger ==> EntryOk(adapter, t, a)
    requires t.completes <= t.calls.Keys
    ensures Inv(adapter, t)
  {
    hide CallOk, EntryOk, ReplyOk, CrossingOk, ReportOk, Extends;
    forall d | d in t.calls && d != c
      ensures CallOk(adapter, t, d)
    {
      CallOkStays(adapter, s, t, d);
    }
    forall b | b in t.ledger && b != a
      ensures EntryOk(adapter, t, b)
    {
      EntryOkStays(adapter, s, t, b);
    }
    forall r | r in s.replies
      ensures ReplyOk(t, r.0, r.1)
    {
      ReplyOkStays(s, t, r.0, r.1);
    }
    forall x | x in s.crossings
      ensures CrossingOk(t, x)
    {
      CrossingOkStays(s, t, x);
    }
    forall r | r in s.reports
      ensures ReportOk(adapter, t, r)
    {
      ReportOkStays(adapter, s, t, r);
    }
  }

  // ----- the steps -----

  lemma BeginKeeps(adapter: Adapter, s: State, c: CallId, work: Work)
    requires Inv(adapter, s)
    ensures Inv(adapter, ApplyBegin(adapter, s, c, work)) && Extends(s, ApplyBegin(adapter, s, c, work))
  {
    hide CallOk, EntryOk, ReplyOk, CrossingOk, ReportOk;
    var t := ApplyBegin(adapter, s, c, work);
    if c !in s.calls {
      assert Extends(s, t);
      NewCallOk(adapter, s, c, work);
      if work.attemptId in s.ledger {
        EntryOkStays(adapter, s, t, work.attemptId);
      }
      InvFromTouched(adapter, s, t, c, work.attemptId);
    }
  }

  lemma NewCallOk(adapter: Adapter, s: State, c: CallId, work: Work)
    requires Inv(adapter, s) && c !in s.calls
    ensures CallOk(adapter, ApplyBegin(adapter, s, c, work), c)
  {
    hide WrittenOk, EntryOk, ReplyOk, ReportOk;
    assert Crossing(work.attemptId, c) in s.crossings ==> CrossingOk(s, Crossing(work.attemptId, c));
  }

  /** A step that only moves one call, or ends it with a sound answer. */
  lemma MoveKeeps(adapter: Adapter, s: State, t: State, c: CallId)
    requires Inv(adapter, s) && c in s.calls && c in t.calls
    requires t.calls == s.calls[c := t.calls[c]]
    requires t.ledger == s.ledger && t.replies == s.replies && t.completes == s.completes && t.crossings == s.crossings
    requires t.answers == s.answers && s.reports <= t.reports
    requires t.calls[c].work == s.calls[c].work && t.calls[c].written == s.calls[c].written
    requires t.calls[c].told == s.calls[c].told
    requires CallOk(adapter, t, c)
    requires forall r :: r in t.reports && r !in s.reports ==> ReportOk(adapter, t, r)
    ensures Inv(adapter, t) && Extends(s, t)
  {
    hide CallOk, EntryOk, ReplyOk, CrossingOk, ReportOk;
    var a := s.calls[c].work.attemptId;
    assert Extends(s, t);
    if a in t.ledger {
      EntryOkStays(adapter, s, t, a);
    }
    InvFromTouched(adapter, s, t, c, a);
  }

  lemma PrepareKeeps(adapter: Adapter, s: State, c: CallId, p: Preparation)
    requires Inv(adapter, s)
    ensures Inv(adapter, ApplyPrepare(adapter, s, c, p)) && Extends(s, ApplyPrepare(adapter, s, c, p))
  {
    hide PreparationAnswer, WrittenOk, Definite, Write;
    if adapter.Direct? && CallAt(s, c, Preparing) {
      assert CallOk(adapter, s, c);
      MoveKeeps(adapter, s, ApplyPrepare(adapter, s, c, p), c);
    }
  }

  lemma CommitClaimKeeps(adapter: Adapter, s: State, c: CallId, denied: bool)
    requires Inv(adapter, s)
    ensures Inv(adapter, ApplyCommitClaim(adapter, s, c, denied)) && Extends(s, ApplyCommitClaim(adapter, s, c, denied))
  {
    hide CallOk, EntryOk, ReplyOk, CrossingOk, ReportOk;
    var t := ApplyCommitClaim(adapter, s, c, denied);
    if c in s.claims && c in s.calls {
      var a := s.calls[c].work.attemptId;
      assert Extends(s, t);
      CallOkStays(adapter, s, t, c);
      ClaimedEntryOk(adapter, s, t, c, denied);
      InvFromTouched(adapter, s, t, c, a);
    }
  }

  lemma ClaimedEntryOk(adapter: Adapter, s: State, t: State, c: CallId, denied: bool)
    requires Inv(adapter, s) && c in s.claims && c in s.calls
    requires t == ApplyCommitClaim(adapter, s, c, denied) && Extends(s, t)
    ensures var a := s.calls[c].work.attemptId; a in t.ledger ==> EntryOk(adapter, t, a)
    ensures forall r :: r in t.replies && r !in s.replies ==> ReplyOk(t, r.0, r.1)
  {
    hide CallOk, CrossingOk, ReportOk, Extends;
    var a := s.calls[c].work.attemptId;
    if a in s.ledger {
      EntryOkStays(adapter, s, t, a);
    }
  }

  lemma ClaimAnsweredKeeps(adapter: Adapter, s: State, c: CallId, reply: ClaimReply)
    requires Inv(adapter, s)
    ensures Inv(adapter, ApplyClaimAnswered(adapter, s, c, reply))
    ensures Extends(s, ApplyClaimAnswered(adapter, s, c, reply))
  {
    hide CallOk, EntryOk, ReplyOk, CrossingOk, ReportOk;
    var t := ApplyClaimAnswered(adapter, s, c, reply);
    if CallAt(s, c, AwaitClaim) && (c, reply) in s.replies {
      assert Extends(s, t);
      AnsweredClaimOk(adapter, s, t, c, reply);
      MoveKeeps(adapter, s, t, c);
    }
  }

  lemma AnsweredClaimOk(adapter: Adapter, s: State, t: State, c: CallId, reply: ClaimReply)
    requires Inv(adapter, s) && CallAt(s, c, AwaitClaim) && (c, reply) in s.replies
    requires t == ApplyClaimAnswered(adapter, s, c, reply) && Extends(s, t)
    ensures CallOk(adapter, t, c)
    ensures forall r :: r in t.reports && r !in s.reports ==> ReportOk(adapter, t, r)
  {
    hide Write, ReadBack, WrittenOk, EntryOk, CrossingOk, Extends;
    assert CallOk(adapter, s, c);
    assert ReplyOk(s, c, reply) && ReplyOk(s, (c, reply).0, (c, reply).1);
    if reply.Completed? {
      var a := s.calls[c].work.attemptId;
      RecordReadsBack(adapter, s, a);
      SaidStays(s, t, a, Replay(adapter, reply.record));
    }
  }

  lemma RecordReadsBack(adapter: Adapter, s: State, a: AttemptId)
    requires Inv(adapter, s) && a in s.ledger && s.ledger[a].completion.Some?
    ensures SaidByHolder(s, a, Replay(adapter, s.ledger[a].completion.value))
    ensures s.ledger[a].completion.value == Write(Replay(adapter, s.ledger[a].completion.value), ProviderOf(adapter))
  {
    hide Write, ReadBack;
    assert EntryOk(adapter, s, a);
    assert CallOk(adapter, s, s.ledger[a].holder);
  }

  lemma ClaimThrowsKeeps(adapter: Adapter, s: State, c: CallId)
    requires Inv(adapter, s)
    ensures Inv(adapter, ApplyClaimThrows(adapter, s, c)) && Extends(s, ApplyClaimThrows(adapter, s, c))
  {
    hide WrittenOk, Definite, Write;
    if CallAt(s, c, AwaitClaim) {
      assert CallOk(adapter, s, c);
      MoveKeeps(adapter, s, ApplyClaimThrows(adapter, s, c), c);
    }
  }

  lemma CrashKeeps(adapter: Adapter, s: State, c: CallId)
    requires Inv(adapter, s)
    ensures Inv(adapter, ApplyCrash(s, c)) && Extends(s, ApplyCrash(s, c))
  {
    hide Definite, Write;
    if c in s.calls {
      assert CallOk(adapter, s, c);
      MoveKeeps(adapter, s, ApplyCrash(s, c), c);
    }
  }

  lemma AcknowledgedKeeps(adapter: Adapter, s: State, c: CallId)
    requires Inv(adapter, s)
    ensures Inv(adapter, ApplyCompleteAcknowledged(adapter, s, c))
    ensures Extends(s, ApplyCompleteAcknowledged(adapter, s, c))
  {
    hide Definite, Write;
    var t := ApplyCompleteAcknowledged(adapter, s, c);
    if t != s {
      assert CallOk(adapter, s, c);
      MoveKeeps(adapter, s, t, c);
    }
  }

  lemma CompleteThrowsKeeps(adapter: Adapter, s: State, c: CallId)
    requires Inv(adapter, s)
    ensures Inv(adapter, ApplyCompleteThrows(adapter, s, c)) && Extends(s, ApplyCompleteThrows(adapter, s, c))
  {
    hide Write;
    var t := ApplyCompleteThrows(adapter, s, c);
    if t != s {
      assert CallOk(adapter, s, c);
      MoveKeeps(adapter, s, t, c);
    }
  }

  lemma RecoverKeeps(adapter: Adapter, s: State, c: CallId, work: Work)
    requires Inv(adapter, s)
    ensures Inv(adapter, ApplyRecover(adapter, s, c, work)) && Extends(s, ApplyRecover(adapter, s, c, work))
  {
    hide Write, ReadBack, CallOk, EntryOk, ReplyOk, CrossingOk;
    var t := ApplyRecover(adapter, s, c, work);
    if t != s {
      assert Extends(s, t);
      if s.ledger[work.attemptId].completion.Some? {
        RecordReadsBack(adapter, s, work.attemptId);
      }
      if c in s.calls {
        CallOkStays(adapter, s, t, c);
      }
      EntryOkStays(adapter, s, t, work.attemptId);
      InvFromTouched(adapter, s, t, c, work.attemptId);
    }
  }

  lemma CommitCompleteKeeps(adapter: Adapter, s: State, c: CallId)
    requires Inv(adapter, s)
    ensures Inv(adapter, ApplyCommitComplete(adapter, s, c)) && Extends(s, ApplyCommitComplete(adapter, s, c))
  {
    hide Write, ReportOk, WrittenOk;
    var t := ApplyCommitComplete(adapter, s, c);
    if t != s {
      var a := s.calls[c].work.attemptId;
      assert CallOk(adapter, s, c) && EntryOk(adapter, s, a);
      assert Extends(s, t);
      CallOkStays(adapter, s, t, c);
      InvFromTouched(adapter, s, t, c, a);
    }
  }

  lemma CheckKeeps(adapter: Adapter, s: State, c: CallId, checks: Checks)
    requires Inv(adapter, s)
    ensures Inv(adapter, ApplyCheck(adapter, s, c, checks)) && Extends(s, ApplyCheck(adapter, s, c, checks))
  {
    hide CallOk, EntryOk, ReplyOk, CrossingOk, ReportOk, CheckFailure, Holds;
    var t := ApplyCheck(adapter, s, c, checks);
    if t != s {
      assert CallOk(adapter, s, c);
      PermittedHolds(adapter, s, c);
      assert Extends(s, t);
      CheckedCallOk(adapter, s, t, c, checks);
      var a := s.calls[c].work.attemptId;
      HoldsStays(s, t, c);
      EntryOkStays(adapter, s, t, a);
      assert t.crossings != s.crossings ==> t.crossings == s.crossings + [Crossing(a, c)];
      CrossingOkOfHolder(t, c);
      InvFromTouched(adapter, s, t, c, a);
    }
  }

  lemma PermittedHolds(adapter: Adapter, s: State, c: CallId)
    requires c in s.calls && CallOk(adapter, s, c)
    requires s.calls[c].pc.Permitted? || s.calls[c].pc.AwaitProvider? || s.calls[c].pc.AwaitComplete?
    ensures Holds(s, c) && s.calls[c].work.attemptId in s.ledger
    ensures s.calls[c].pc.Permitted? ==> Crossing(s.calls[c].work.attemptId, c) !in s.crossings
    ensures s.calls[c].pc.AwaitProvider? ==> Crossing(s.calls[c].work.attemptId, c) in s.crossings
    ensures !s.calls[c].pc.AwaitComplete? ==> s.calls[c].written.None?
  {
  }

  lemma CrossingOkOfHolder(s: State, c: CallId)
    requires Holds(s, c)
    ensures CrossingOk(s, Crossing(s.calls[c].work.attemptId, c))
  {
  }

  lemma CheckedCallOk(adapter: Adapter, s: State, t: State, c: CallId, checks: Checks)
    requires CallAt(s, c, Permitted) && CallOk(adapter, s, c) && ChecksFit(adapter, checks)
    requires t == ApplyCheck(adapter, s, c, checks)
    ensures CallOk(adapter, t, c)
  {
    hide CheckFailure;
    var failure := CheckFailure(adapter, s.calls[c].work, checks);
    if failure.Some? {
      CheckFailureWritesBack(adapter, s.calls[c].work, checks);
    } else {
      assert t.crossings[|s.crossings|] == Crossing(s.calls[c].work.attemptId, c);
    }
  }

  /** A completion of a failed check reads back, and never says accepted. */
  lemma CheckFailureWritesBack(adapter: Adapter, work: Work, checks: Checks)
    requires ChecksFit(adapter, checks)
    ensures var failure := CheckFailure(adapter, work, checks);
            failure.Some? ==>
              (!ClaimsAcceptance(failure.value) &&
                ReadBack(adapter, Write(failure.value, ProviderOf(adapter))) == failure)
  {
    var failure := CheckFailure(adapter, work, checks);
    if failure.Some? {
      match adapter
      case Expo =>
        assert ExpoSend.CanWrite(failure.value);
        ExpoSend.WrittenCompletionsParseBack(failure.value);
      case Direct(apns) =>
        assert DirectSend.CanWrite(failure.value, apns);
        DirectSend.WrittenCompletionsParseBack(failure.value, apns);
    }
  }

  lemma AnswerWritesBack(adapter: Adapter, answer: Answer)
    requires AnswerFits(adapter, answer)
    ensures var written := Written(adapter, answer);
            ReadBack(adapter, Write(written, ProviderOf(adapter))) == Some(written)
  {
    match adapter
    case Expo =>
      assert ExpoSend.CanWrite(Written(adapter, answer));
      ExpoSend.WrittenCompletionsParseBack(Written(adapter, answer));
    case Direct(apns) =>
      assert DirectSend.CanWrite(Written(adapter, answer), apns);
      DirectSend.WrittenCompletionsParseBack(Written(adapter, answer), apns);
    case Ses =>
  }

  lemma AcceptedAnswer(adapter: Adapter, answer: Answer)
    requires AnswerFits(adapter, answer) && ClaimsAcceptance(Written(adapter, answer))
    ensures var reference := Written(adapter, answer).reference;
            reference.Some? && Accepts(adapter, answer, reference.value)
  {
    match adapter
    case Expo => ExpoSend.AcceptedOnlyByTransport(answer.result);
    case Direct(apns) =>
    case Ses =>
  }

  lemma ToldAgrees(adapter: Adapter, answer: Answer)
    requires AnswerFits(adapter, answer)
    ensures Definite(ToldAfter(adapter, answer)) == Definite(Written(adapter, answer))
    ensures ClaimsAcceptance(ToldAfter(adapter, answer)) ==> ToldAfter(adapter, answer) == Written(adapter, answer)
    ensures !adapter.Ses? ==> ToldAfter(adapter, answer) == Written(adapter, answer)
  {
  }

  lemma ProviderAnswersKeeps(adapter: Adapter, s: State, c: CallId, answer: Answer)
    requires Inv(adapter, s)
    ensures Inv(adapter, ApplyProviderAnswers(adapter, s, c, answer))
    ensures Extends(s, ApplyProviderAnswers(adapter, s, c, answer))
  {
    hide CallOk, EntryOk, ReplyOk, CrossingOk, ReportOk, Holds, Written, ToldAfter, AnswerFits;
    var t := ApplyProviderAnswers(adapter, s, c, answer);
    if CallAt(s, c, AwaitProvider) && AnswerFits(adapter, answer) {
      assert CallOk(adapter, s, c);
      PermittedHolds(adapter, s, c);
      assert Extends(s, t);
      AnsweredCallOk(adapter, s, t, c, answer);
      EntryOkStays(adapter, s, t, s.calls[c].work.attemptId);
      InvFromTouched(adapter, s, t, c, s.calls[c].work.attemptId);
    }
  }

  lemma AnsweredCallOk(adapter: Adapter, s: State, t: State, c: CallId, answer: Answer)
    requires CallAt(s, c, AwaitProvider) && CallOk(adapter, s, c) && AnswerFits(adapter, answer)
    requires t == ApplyProviderAnswers(adapter, s, c, answer)
    ensures CallOk(adapter, t, c)
  {
    hide Written, ToldAfter, AnswerFits, Definite, ReadBack, Write, Accepts;
    AnswerWritesBack(adapter, answer);
    ToldAgrees(adapter, answer);
    if ClaimsAcceptance(Written(adapter, answer)) {
      AcceptedAnswer(adapter, answer);
      assert (s.calls[c].work.attemptId, c, answer) in t.answers;
    }
  }

  // ----- whole runs -----

  lemma StepKeepsInvariant(adapter: Adapter, s: State, step: Step)
    requires Inv(adapter, s)
    ensures Inv(adapter, Apply(adapter, s, step)) && Extends(s, Apply(adapter, s, step))
  {
    hide Inv, Extends;
    match step
    case Begin(c, work) => BeginKeeps(adapter, s, c, work);
    case Prepare(c, preparation) => PrepareKeeps(adapter, s, c, preparation);
    case CommitClaim(c, denied) => CommitClaimKeeps(adapter, s, c, denied);
    case ClaimAnswered(c, reply) => ClaimAnsweredKeeps(adapter, s, c, reply);
    case ClaimThrows(c) => ClaimThrowsKeeps(adapter, s, c);
    case Check(c, checks) => CheckKeeps(adapter, s, c, checks);
    case ProviderAnswers(c, answer) => ProviderAnswersKeeps(adapter, s, c, answer);
    case CommitComplete(c) => CommitCompleteKeeps(adapter, s, c);
    case CompleteAcknowledged(c) => AcknowledgedKeeps(adapter, s, c);
    case CompleteThrows(c) => CompleteThrowsKeeps(adapter, s, c);
    case Recover(c, work) => RecoverKeeps(adapter, s, c, work);
    case Crash(c) => CrashKeeps(adapter, s, c);
  }

  lemma {:induction false} RunKeepsInvariant(adapter: Adapter, steps: seq<Step>)
    ensures Inv(adapter, Run(adapter, steps))
  {
    hide Apply;
    if steps != [] {
      RunKeepsInvariant(adapter, steps[..|steps| - 1]);
      StepKeepsInvariant(adapter, Run(adapter, steps[..|steps| - 1]), steps[|steps| - 1]);
    }
  }

  function PermitsOf(s: State): Permits {
    Permits(map a | a in s.ledger :: s.ledger[a].holder, s.crossings)
  }

  lemma ClaimRefinesLedger(adapter: Adapter, s: State, c: CallId, denied: bool)
    ensures Next(PermitsOf(s), PermitsOf(ApplyCommitClaim(adapter, s, c, denied)))
  {
    var t := ApplyCommitClaim(adapter, s, c, denied);
    if t.ledger != s.ledger {
      assert Grants(PermitsOf(s), PermitsOf(t), Crossing(s.calls[c].work.attemptId, c));
    } else {
      assert PermitsOf(t) == PermitsOf(s);
    }
  }

  lemma CheckRefinesLedger(adapter: Adapter, s: State, c: CallId, checks: Checks)
    requires Inv(adapter, s)
    ensures Next(PermitsOf(s), PermitsOf(ApplyCheck(adapter, s, c, checks)))
  {
    hide CheckFailure, CallOk, EntryOk, ReplyOk, CrossingOk, ReportOk;
    var t := ApplyCheck(adapter, s, c, checks);
    if t.crossings != s.crossings {
      assert CallOk(adapter, s, c);
      PermittedHolds(adapter, s, c);
      assert Crosses(PermitsOf(s), PermitsOf(t), Crossing(s.calls[c].work.attemptId, c));
    }
  }

  lemma CompleteRefinesLedger(adapter: Adapter, s: State, c: CallId)
    ensures PermitsOf(ApplyCommitComplete(adapter, s, c)) == PermitsOf(s)
  {
    hide Write;
  }

  /** Every step of every adapter is a step of the abstract permit ledger. */
  lemma StepRefinesLedger(adapter: Adapter, s: State, step: Step)
    requires Inv(adapter, s)
    ensures Next(PermitsOf(s), PermitsOf(Apply(adapter, s, step)))
  {
    hide Replay, UnknownFor, PreparationAnswer, Written, ToldAfter, Inv, PermitsOf, ApplyCommitClaim, ApplyCheck;
    hide ApplyCommitComplete;
    match step
    case CommitClaim(c, denied) => ClaimRefinesLedger(adapter, s, c, denied);
    case Check(c, checks) => CheckRefinesLedger(adapter, s, c, checks);
    case CommitComplete(c) => CompleteRefinesLedger(adapter, s, c);
    case _ => PermitsDependOn(s, Apply(adapter, s, step));
  }

  lemma PermitsDependOn(s: State, t: State)
    ensures s.ledger == t.ledger && s.crossings == t.crossings ==> PermitsOf(s) == PermitsOf(t)
  {
  }
}
