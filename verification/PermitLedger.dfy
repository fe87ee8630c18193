/**
 The one idea behind the three send ledgers: a provider without idempotency is reached only under a
 permit that is granted once per attempt, to one call, and never taken back.
 */
module PermitLedger {
  type AttemptId = string
  type CallId = nat

  /** A call crossed the provider boundary for an attempt. */
  datatype Crossing = Crossing(attemptId: AttemptId, call: CallId)

  datatype Permits = Permits(granted: map<AttemptId, CallId>, crossings: seq<Crossing>)

  const NO_PERMITS := Permits(map[], [])

  /** Nothing happens, or an attempt gets its first permit, or the holder crosses for the first time. */
  ghost predicate Next(p: Permits, q: Permits) {
    || q == p
    || (exists x: Crossing :: Grants(p, q, x))
    || (exists x: Crossing :: Crosses(p, q, x))
  }

  ghost predicate Grants(p: Permits, q: Permits, x: Crossing) {
    x.attemptId !in p.granted && q == p.(granted := p.granted[x.attemptId := x.call])
  }

  ghost predicate Crosses(p: Permits, q: Permits, x: Crossing) {
    IsHolder(p, x) && x !in p.crossings && q == p.(crossings := p.crossings + [x])
  }

  predicate IsHolder(p: Permits, x: Crossing) {
    x.attemptId in p.granted && p.granted[x.attemptId] == x.call
  }

  predicate AtMostOnce(p: Permits) {
    && (forall x :: x in p.crossings ==> IsHolder(p, x))
    && (forall i, j :: 0 <= i < j < |p.crossings| ==> p.crossings[i].attemptId != p.crossings[j].attemptId)
  }

  ghost predicate IsRun(run: seq<Permits>) {
    && run != [] && run[0] == NO_PERMITS
    && forall i :: 0 < i < |run| ==> Next(run[i - 1], run[i])
  }

  lemma NextKeepsAtMostOnce(p: Permits, q: Permits)
    requires AtMostOnce(p) && Next(p, q)
    ensures AtMostOnce(q)
  {
    if x: Crossing :| Crosses(p, q, x) {
      forall i | 0 <= i < |p.crossings|
        ensures p.crossings[i].attemptId != x.attemptId
      {
        assert p.crossings[i] in p.crossings;
        assert IsHolder(p, p.crossings[i]);
      }
    }
  }

  /** In every run no attempt is sent twice, and it is sent only by the call that holds its permit. */
  lemma {:induction false} RunIsSafe(run: seq<Permits>)
    requires IsRun(run)
    ensures AtMostOnce(run[|run| - 1])
  {
    if |run| > 1 {
      var front := run[..|run| - 1];
      assert IsRun(front) by {
        forall i | 0 < i < |front|
          ensures Next(front[i - 1], front[i])
        {
          assert Next(run[i - 1], run[i]);
        }
      }
      RunIsSafe(front);
      NextKeepsAtMostOnce(run[|run| - 2], run[|run| - 1]);
    }
  }

  /** A permit and a crossing, once there, are there in every later state. */
  lemma {:induction false} NothingIsTakenBack(run: seq<Permits>, i: nat, j: nat)
    requires IsRun(run) && i <= j < |run|
    ensures run[i].crossings <= run[j].crossings
    ensures forall a :: a in run[i].granted ==> a in run[j].granted && run[j].granted[a] == run[i].granted[a]
  {
    if i < j {
      NothingIsTakenBack(run, i, j - 1);
      assert Next(run[j - 1], run[j]);
    }
  }
}
