/**
 The loops of `buildDraft` (scripts/ops/groups-inventory-report.ts), against what `Build` says they
 compute: the scoring pass with its sets and tables, the mapping of each facility, and the repair of
 groups proposed twice, which changes the mappings in place.
 */
module DraftLoops {
  import opened Wrappers
  import opened TopRanked
  import opened Facilities
  import opened BuildingMatches
  import opened BuildingDraft
  import opened DraftCheck

  // ----- the scoring pass -----

  function AmbiguousAmong(rules: GroupRules, eligible: seq<Group>, seen: seq<Group>): set<string> {
    set g | g in seen && HasAmbiguousScope(rules, eligible, g) :: g.id
  }

  function InactiveAmong(rules: GroupRules, eligible: seq<Group>, seen: seq<Group>): set<string> {
    set g | g in seen && MatchesInactive(rules, eligible, g) :: g.id
  }

  function MatchedAmong(rules: GroupRules, eligible: seq<Group>, seen: seq<Group>): seq<Group> {
    Filter(seen, MatchableIn(rules, eligible))
  }

  lemma OneMoreSeen(rules: GroupRules, eligible: seq<Group>, seen: seq<Group>, g: Group)
    ensures AmbiguousAmong(rules, eligible, seen + [g]) ==
            AmbiguousAmong(rules, eligible, seen) + if HasAmbiguousScope(rules, eligible, g) then {g.id} else {}
    ensures InactiveAmong(rules, eligible, seen + [g]) ==
            InactiveAmong(rules, eligible, seen) + if MatchesInactive(rules, eligible, g) then {g.id} else {}
    ensures MatchedAmong(rules, eligible, seen + [g]) ==
            MatchedAmong(rules, eligible, seen) + if IsMatchable(rules, eligible, g) then [g] else []
  {
    hide HasAmbiguousScope, MatchesInactive;
    assert (seen + [g])[..|seen|] == seen;
  }

  /** The search for a closed facility of a group that is not matched. */
  method FindInactive(r: Rules, g: Group) returns (found: bool)
    ensures found <==> ScoresInactive(r, g, r.contexts(g))
  {
    var contexts := r.contexts(g);
    for i := 0 to |contexts|
      invariant !ScoresInactive(r, g, contexts[..i])
    {
      assert contexts[..i + 1] == contexts[..i] + [contexts[i]];
      if contexts[i].active {
        continue;
      }
      if r.rate(contexts[i], g).score >= 90 {
        return true;
      }
    }
    assert contexts[..|contexts|] == contexts;
    return false;
  }

  /** What the pass holds once it has seen some of the eligible groups. */
  ghost predicate AreScoredTables(rules: GroupRules, facilities: seq<Facility>, matched: seq<Group>,
                                  byFacility: map<string, seq<Scored>>, byGroup: map<string, seq<Scored>>) {
    IsFacilityTable(rules.matching, matched, [], facilities, byFacility) &&
      byGroup == BestByGroup(rules.matching, matched)
  }

  lemma ScoredTables(rules: GroupRules, facilities: seq<Facility>, matched: seq<Group>,
                     byFacility: map<string, seq<Scored>>, byGroup: map<string, seq<Scored>>)
    requires AreScoredTables(rules, facilities, matched, byFacility, byGroup)
    ensures forall f :: f in facilities ==> f.id in byFacility
    ensures forall id :: id in byFacility ==> byFacility[id] == BestOfFacility(rules.matching, matched, id)
    ensures byGroup == BestByGroup(rules.matching, matched)
  {
    TableIsBest(rules.matching, matched, facilities, byFacility);
  }

  /** A matchable group's turn, in both tables. */
  method ScoreMatchable(rules: GroupRules, facilities: seq<Facility>, g: Group, byFacility: map<string, seq<Scored>>,
                        byGroup: map<string, seq<Scored>>, ghost matched: seq<Group>)
    returns (nextByFacility: map<string, seq<Scored>>, nextByGroup: map<string, seq<Scored>>, inactive: bool)
    requires AreScoredTables(rules, facilities, matched, byFacility, byGroup)
    ensures AreScoredTables(rules, facilities, matched + [g], nextByFacility, nextByGroup)
    ensures inactive <==> ScoresInactive(rules.matching, g, rules.matching.contexts(g))
  {
    var best;
    best, nextByFacility, inactive := ScoreGroup(rules.matching, facilities, g, byFacility, matched);
    TableOfGroup(rules.matching, matched, g, facilities, nextByFacility);
    BestOfOneMore(rules.matching, matched, g);
    nextByGroup := byGroup[g.id := best];
  }

  predicate HasScope(rules: GroupRules, g: Group) {
    rules.overflow(g) || exists f :: f in rules.matching.contexts(g) && !rules.whole(f, g)
  }

  /** What the sets of restricted and stale groups tell of one group. */
  lemma TurnOf(rules: GroupRules, eligible: seq<Group>, g: Group)
    ensures HasAmbiguousScope(rules, eligible, g) <==>
              g.id !in RestrictedIds(rules, eligible) && g.id !in StaleIds(rules, eligible) && HasScope(rules, g)
    ensures IsMatchable(rules, eligible, g) <==>
              g.id !in RestrictedIds(rules, eligible) && g.id !in StaleIds(rules, eligible) &&
                !HasAmbiguousScope(rules, eligible, g)
    ensures MatchesInactive(rules, eligible, g) <==>
              (!IsMatchable(rules, eligible, g) && rules.overflow(g) && rules.hasInactive(g))
              || ScoresInactive(rules.matching, g, rules.matching.contexts(g))
  {
  }

  lemma NothingSeen(rules: GroupRules, facilities: seq<Facility>, eligible: seq<Group>,
                    byFacility: map<string, seq<Scored>>)
    requires IsFacilityTable(rules.matching, [], [], facilities, byFacility)
    ensures AreScoredTables(rules, facilities, MatchedAmong(rules, eligible, []), byFacility, map[])
    ensures AmbiguousAmong(rules, eligible, []) == {} && InactiveAmong(rules, eligible, []) == {}
  {
  }

  lemma AllSeen(rules: GroupRules, eligible: seq<Group>)
    ensures AmbiguousAmong(rules, eligible, eligible) == AmbiguousIds(rules, eligible)
    ensures InactiveAmong(rules, eligible, eligible) == InactiveIds(rules, eligible)
    ensures MatchedAmong(rules, eligible, eligible) == Matchable(rules, eligible)
  {
  }

  /** The pass over the eligible groups: the two sets, and the tables of the matchable groups only. */
  method ScoreEligible(rules: GroupRules, facilities: seq<Facility>, eligible: seq<Group>)
    returns (byFacility: map<string, seq<Scored>>, byGroup: map<string, seq<Scored>>, ambiguous: set<string>,
      inactive: set<string>)
    ensures var matched := Matchable(rules, eligible);
            && (forall f :: f in facilities ==> f.id in byFacility)
            && (forall id :: id in byFacility ==> byFacility[id] == BestOfFacility(rules.matching, matched, id))
            && byGroup == BestByGroup(rules.matching, matched)
    ensures ambiguous == AmbiguousIds(rules, eligible) && inactive == InactiveIds(rules, eligible)
  {
    hide MatchedAmong;
    byFacility := EmptyTable(rules.matching, facilities);
    NothingSeen(rules, facilities, eligible, byFacility);
    byGroup, ambiguous, inactive := map[], {}, {};
    var restricted, stale := RestrictedIds(rules, eligible), StaleIds(rules, eligible);
    for i := 0 to |eligible|
      invariant AreScoredTables(rules, facilities, MatchedAmong(rules, eligible, eligible[..i]), byFacility, byGroup)
      invariant ambiguous == AmbiguousAmong(rules, eligible, eligible[..i])
      invariant inactive == InactiveAmong(rules, eligible, eligible[..i])
    {
      var g := eligible[i];
      ghost var matched := MatchedAmong(rules, eligible, eligible[..i]);
      assert eligible[..i + 1] == eligible[..i] + [g];
      OneMoreSeen(rules, eligible, eligible[..i], g);
      TurnOf(rules, eligible, g);
      var isRestricted, isStale := g.id in restricted, g.id in stale;
      var hasAmbiguousScope := !isRestricted && !isStale && HasScope(rules, g);
      if hasAmbiguousScope {
        ambiguous := ambiguous + {g.id};
      }
      if isRestricted || isStale || hasAmbiguousScope {
        if rules.overflow(g) && rules.hasInactive(g) {
          inactive := inactive + {g.id};
        }
        var found := FindInactive(rules.matching, g);
        if found {
          inactive := inactive + {g.id};
        }
        assert matched + [] == matched;
      } else {
        var scoresInactive;
        byFacility, byGroup, scoresInactive := ScoreMatchable(rules, facilities, g, byFacility, byGroup, matched);
        if scoresInactive {
          inactive := inactive + {g.id};
        }
      }
    }
    assert eligible[..|eligible|] == eligible;
    AllSeen(rules, eligible);
    ScoredTables(rules, facilities, Matchable(rules, eligible), byFacility, byGroup);
  }

  lemma BestOfOneMore(r: Rules, groups: seq<Group>, g: Group)
    ensures BestByGroup(r, groups + [g]) == BestByGroup(r, groups)[g.id := BestOfGroup(r, g)]
  {
    assert (groups + [g])[..|groups|] == groups;
  }

  // ----- the mapping of one facility -----

  /** One turn of the mapping loop. */
  method MapFacility(rules: GroupRules, f: Facility, byFacility: map<string, seq<Scored>>,
                     byGroup: map<string, seq<Scored>>, ghost matched: seq<Group>)
    returns (m: Mapping)
    requires f.id in byFacility && byFacility[f.id] == BestOfFacility(rules.matching, matched, f.id)
    requires byGroup == BestByGroup(rules.matching, matched)
    ensures m == MappingOf(rules, matched, f)
  {
    hide BestOfFacility, BestByGroup;
    var ranked := byFacility[f.id];
    var reasons: set<Why> := {};
    var outcome := if ranked == [] then Missing else Uncertain;
    var source: Option<Group> := None;
    if !f.active {
      reasons := reasons + {InactiveFacility};
    } else if ranked != [] && ranked[0].rating.score >= 110 && ranked[0].rating.strongEligible && HasClearLead(ranked) {
      var id := ranked[0].group.id;
      var reverse := if id in byGroup then byGroup[id] else [];
      if IsReverseUnique(reverse, f.id) {
        source := Some(ranked[0].group);
        outcome := StrongCandidate;
        reasons := reasons + {BidirectionallyUniqueMatch};
      } else {
        reasons := reasons + {GroupMatchesMultipleFacilities};
      }
    } else if ranked != [] {
      if !ranked[0].rating.strongEligible {
        reasons := reasons + {NoSafeBroadStaffMatch};
      }
      if ranked[0].group.displayName.None? {
        reasons := reasons + {MissingGroupDisplayName};
      }
      if !HasClearLead(ranked) {
        reasons := reasons + {CloseOrTiedCandidates};
      }
      if ranked[0].rating.score < 110 {
        reasons := reasons + {InsufficientExactEvidence};
      }
    }
    var bestScore := if ranked == [] then 0 else ranked[0].rating.score;
    m := Mapping(f, Assessment(bestScore, Candidates(ranked), outcome, reasons), source);
  }

  // ----- the repair of groups proposed twice -----

  /** The places, among the first `n`, of the mappings that propose the group. */
  function PlacesOf(mappings: seq<Mapping>, id: string, n: nat): seq<nat>
    requires n <= |mappings|
  {
    if n == 0 then [] else PlacesOf(mappings, id, n - 1) + if Proposes(mappings[n - 1], id) then [n - 1] else []
  }

  lemma {:induction false} PlacesAre(mappings: seq<Mapping>, id: string, n: nat)
    requires n <= |mappings|
    ensures var places := PlacesOf(mappings, id, n);
            && (forall k :: k in places <==> 0 <= k < n && Proposes(mappings[k], id))
            && NoRepeats(places)
  {
    if n > 0 {
      PlacesAre(mappings, id, n - 1);
    }
  }

  lemma {:induction false} PlacesAreProposing(mappings: seq<Mapping>, id: string, n: nat)
    requires n <= |mappings|
    ensures var places, proposing := PlacesOf(mappings, id, n), Proposing(mappings[..n], id);
            && |places| == |proposing|
            && forall j :: 0 <= j < |places| ==> places[j] < n && proposing[j] == mappings[places[j]]
  {
    if n > 0 {
      PlacesAreProposing(mappings, id, n - 1);
      assert mappings[..n][..n - 1] == mappings[..n - 1];
      assert mappings[..n][n - 1] == mappings[n - 1];
    }
  }

  /** What the map and its key order hold after `n` mappings. */
  ghost predicate AreProposals(mappings: seq<Mapping>, n: nat, ids: seq<string>, places: map<string, seq<nat>>)
    requires n <= |mappings|
  {
    && ids == ProposedIds(mappings, n)
    && (forall id :: id in places <==> id in ids)
    && (forall id :: PlacesOf(mappings, id, n) == if id in places then places[id] else [])
  }

  lemma {:induction false} ProposedIdsAre(mappings: seq<Mapping>, n: nat, id: string)
    requires n <= |mappings|
    ensures id in ProposedIds(mappings, n) <==> exists k :: 0 <= k < n && Proposes(mappings[k], id)
  {
    if n > 0 {
      ProposedIdsAre(mappings, n - 1, id);
      if Proposes(mappings[n - 1], id) {
        assert id in ProposedIds(mappings, n);
      }
    }
  }

  lemma {:induction false} ProposedIdsDiffer(mappings: seq<Mapping>, n: nat)
    requires n <= |mappings|
    ensures NoRepeats(ProposedIds(mappings, n))
  {
    if n > 0 {
      ProposedIdsDiffer(mappings, n - 1);
    }
  }

  lemma OneMoreProposal(mappings: seq<Mapping>, n: nat)
    requires n < |mappings|
    ensures forall id :: PlacesOf(mappings, id, n + 1) ==
                         PlacesOf(mappings, id, n) + if Proposes(mappings[n], id) then [n] else []
    ensures var before, source := ProposedIds(mappings, n), mappings[n].source;
            ProposedIds(mappings, n + 1) ==
              if source.None? || source.value.id in before then before else before + [source.value.id]
  {
  }

  lemma ProposalsStep(mappings: seq<Mapping>, n: nat, ids: seq<string>, places: map<string, seq<nat>>)
    requires n < |mappings| && AreProposals(mappings, n, ids, places)
    ensures var source := mappings[n].source;
            if source.None? then AreProposals(mappings, n + 1, ids, places)
            else
              var id := source.value.id;
              AreProposals(mappings, n + 1, if id in ids then ids else ids + [id],
                           places[id := (if id in places then places[id] else []) + [n]])
  {
    hide PlacesOf, ProposedIds;
    OneMoreProposal(mappings, n);
  }

  lemma NothingProposed(mappings: seq<Mapping>)
    ensures AreProposals(mappings, 0, [], map[])
  {
  }

  lemma ProposalsAt(mappings: seq<Mapping>, ids: seq<string>, places: map<string, seq<nat>>)
    requires AreProposals(mappings, |mappings|, ids, places)
    ensures ids == ProposedIds(mappings, |mappings|)
    ensures forall id :: id in ids ==> id in places && places[id] == PlacesOf(mappings, id, |mappings|)
  {
  }

  /** `proposedByGroup`, with its keys in the order in which they were first set. */
  method CollectProposals(mappings: seq<Mapping>) returns (ids: seq<string>, places: map<string, seq<nat>>)
    ensures AreProposals(mappings, |mappings|, ids, places)
  {
    hide AreProposals;
    ids, places := [], map[];
    NothingProposed(mappings);
    for n := 0 to |mappings|
      invariant AreProposals(mappings, n, ids, places)
    {
      ProposalsStep(mappings, n, ids, places);
      if mappings[n].source.None? {
        continue;
      }
      var id := mappings[n].source.value.id;
      places := places[id := (if id in places then places[id] else []) + [n]];
      if id !in ids {
        ids := ids + [id];
      }
    }
  }

  /** The mapping once the groups in `done` have been dealt with. */
  function RepairedAmong(was: seq<Mapping>, done: seq<string>, m: Mapping): Mapping {
    if m.source.Some? && m.source.value.id in done then Repaired(was, m) else m
  }

  lemma OneMoreDone(was: seq<Mapping>, done: seq<string>, id: string, m: Mapping)
    requires id !in done
    ensures RepairedAmong(was, done + [id], m) ==
            if !Proposes(m, id) then RepairedAmong(was, done, m)
            else if |Proposing(was, id)| >= 2 then Withdrawn(m) else m
    ensures Proposes(m, id) ==> RepairedAmong(was, done, m) == m
  {
  }

  lemma NoneDone(was: seq<Mapping>)
    ensures AreRepaired(was, [], was)
  {
  }

  lemma AllRepaired(was: seq<Mapping>, now: seq<Mapping>)
    requires AreRepaired(was, ProposedIds(was, |was|), now)
    ensures now == Repair(was)
  {
    forall k | 0 <= k < |was|
      ensures now[k] == Repaired(was, was[k])
    {
      AllDone(was, was[k]);
    }
  }

  lemma AllDone(was: seq<Mapping>, m: Mapping)
    requires m in was
    ensures RepairedAmong(was, ProposedIds(was, |was|), m) == Repaired(was, m)
  {
    if m.source.Some? {
      var k :| 0 <= k < |was| && was[k] == m;
      assert Proposes(was[k], m.source.value.id);
      ProposedIdsAre(was, |was|, m.source.value.id);
    }
  }

  ghost predicate AreRepaired(was: seq<Mapping>, done: seq<string>, now: seq<Mapping>) {
    |now| == |was| && forall k :: 0 <= k < |was| ==> now[k] == RepairedAmong(was, done, was[k])
  }

  lemma WithdrawnIsRepaired(was: seq<Mapping>, done: seq<string>, id: string, before: seq<Mapping>, after: seq<Mapping>)
    requires AreRepaired(was, done, before) && id !in done && |Proposing(was, id)| >= 2 && |after| == |was|
    requires forall k :: 0 <= k < |was| ==> after[k] == if Proposes(was[k], id) then Withdrawn(before[k]) else before[k]
    ensures AreRepaired(was, done + [id], after)
  {
    forall k | 0 <= k < |was|
      ensures after[k] == RepairedAmong(was, done + [id], was[k])
    {
      OneMoreDone(was, done, id, was[k]);
    }
  }

  /** The mappings at these places are withdrawn, the others as before. */
  ghost predicate AreWithdrawn(before: seq<Mapping>, places: seq<nat>, now: seq<Mapping>) {
    && |now| == |before|
    && forall k :: 0 <= k < |now| ==> now[k] == if k in places then Withdrawn(before[k]) else before[k]
  }

  lemma OneMoreWithdrawn(before: seq<Mapping>, places: seq<nat>, j: nat, now: seq<Mapping>)
    requires j < |places| && NoRepeats(places) && places[j] < |now| && AreWithdrawn(before, places[..j], now)
    ensures now[places[j]] == before[places[j]]
    ensures AreWithdrawn(before, places[..j + 1], now[places[j] := Withdrawn(before[places[j]])])
  {
    hide Withdrawn;
    assert places[..j + 1] == places[..j] + [places[j]] && places[j] !in places[..j];
  }

  /** The inner loop: every mapping that proposes the group gives it up. */
  method WithdrawAll(mappings: array<Mapping>, collisions: seq<nat>, ghost was: seq<Mapping>, ghost done: seq<string>,
                     ghost id: string)
    requires AreRepaired(was, done, mappings[..]) && id !in done
    requires collisions == PlacesOf(was, id, |was|) && |collisions| >= 2
    modifies mappings
    ensures AreRepaired(was, done + [id], mappings[..])
  {
    hide PlacesOf, RepairedAmong, Proposing, Proposes;
    PlacesAre(was, id, |was|);
    PlacesAreProposing(was, id, |was|);
    assert was[..|was|] == was;
    ghost var before := mappings[..];
    for j := 0 to |collisions|
      invariant AreWithdrawn(before, collisions[..j], mappings[..])
    {
      OneMoreWithdrawn(before, collisions, j, mappings[..]);
      var k := collisions[j];
      assert k in collisions;
      mappings[k] := mappings[k].(source := None, assessment := mappings[k].assessment.(
        outcome := Uncertain, reasons := mappings[k].assessment.reasons + {DuplicateGroupProposal}));
    }
    assert collisions[..|collisions|] == collisions;
    WithdrawnIsRepaired(was, done, id, before, mappings[..]);
  }

  /** The report of one group proposed twice, read off the mappings that propose it. */
  method ReportDuplicate(env: Env, group: Group, mappings: array<Mapping>, collisions: seq<nat>,
                         ghost was: seq<Mapping>, ghost done: seq<string>, ghost id: string)
    returns (d: Duplicate)
    requires AreRepaired(was, done, mappings[..]) && collisions == PlacesOf(was, id, |was|)
    ensures d == Duplicate(group, Ranked(FacilityIds(Proposing(was, id)), env.idBefore))
  {
    PlacesAreProposing(was, id, |was|);
    assert was[..|was|] == was;
    forall k | 0 <= k < |was|
      ensures mappings[k].facility == was[k].facility
    {
      assert mappings[..][k] == RepairedAmong(was, done, was[k]);
    }
    var facilityIds: seq<string> := [];
    for j := 0 to |collisions|
      invariant |facilityIds| == j && forall i :: 0 <= i < j ==> facilityIds[i] == was[collisions[i]].facility.id
    {
      facilityIds := facilityIds + [mappings[collisions[j]].facility.id];
    }
    assert facilityIds == FacilityIds(Proposing(was, id));
    d := Duplicate(group, Ranked(facilityIds, env.idBefore));
  }

  /** The second loop, in place; an error is its throw, a proposed group that is not eligible. */
  method RepairDuplicates(env: Env, eligible: seq<Group>, mappings: array<Mapping>)
    returns (r: Result<seq<Duplicate>, string>)
    modifies mappings
    ensures r.Ok? ==> mappings[..] == Repair(old(mappings[..]))
    ensures r.Ok? ==>
              r.value == Duplicates(env, eligible, old(mappings[..]), ProposedIds(old(mappings[..]), mappings.Length))
    ensures r.Err? ==>
              exists m :: m in old(mappings[..]) && m.source.Some? && FirstWith(eligible, m.source.value.id).None?
  {
    hide AreProposals, Proposing;
    ghost var was := mappings[..];
    var ids, places := CollectProposals(mappings[..]);
    ProposalsAt(was, ids, places);
    ProposedIdsDiffer(was, |was|);
    NoneDone(was);
    var duplicates: seq<Duplicate> := [];
    for i := 0 to |ids|
      invariant AreRepaired(was, ids[..i], mappings[..])
      invariant duplicates == Duplicates(env, eligible, was, ids[..i])
    {
      var id := ids[i];
      assert ids[..i + 1][..i] == ids[..i] && ids[..i + 1] == ids[..i] + [id] && id !in ids[..i];
      assert id in ids;
      var collisions := places[id];
      PlacesAreProposing(was, id, |was|);
      assert was[..|was|] == was;
      if |collisions| < 2 {
        NothingToWithdraw(was, ids[..i], id, mappings[..]);
        continue;
      }
      var group := FirstWith(eligible, id);
      if group.None? {
        ProposedBy(was, id);
        return Err("Draft matching lost a selected Google group.");
      }
      var duplicate := ReportDuplicate(env, group.value, mappings, collisions, was, ids[..i], id);
      duplicates := duplicates + [duplicate];
      WithdrawAll(mappings, collisions, was, ids[..i], id);
    }
    assert ids[..|ids|] == ids;
    AllRepaired(was, mappings[..]);
    r := Ok(duplicates);
  }

  lemma ProposedBy(was: seq<Mapping>, id: string)
    requires id in ProposedIds(was, |was|)
    ensures exists m :: m in was && m.source.Some? && m.source.value.id == id
  {
    ProposedIdsAre(was, |was|, id);
    var k :| 0 <= k < |was| && Proposes(was[k], id);
    assert was[k] in was;
  }

  lemma NothingToWithdraw(was: seq<Mapping>, done: seq<string>, id: string, now: seq<Mapping>)
    requires AreRepaired(was, done, now) && id !in done && |Proposing(was, id)| < 2
    ensures AreRepaired(was, done + [id], now)
  {
    forall k | 0 <= k < |was|
      ensures now[k] == RepairedAmong(was, done + [id], was[k])
    {
      OneMoreDone(was, done, id, was[k]);
    }
  }

  // ----- the whole build -----

  /** The loop over what may be stale. */
  method CollectStale(rules: GroupRules, eligible: seq<Group>, inactive: set<string>) returns (entries: seq<StaleEntry>)
    requires inactive == InactiveIds(rules, eligible)
    ensures entries == StaleEntries(rules, eligible, |eligible|)
  {
    entries := [];
    for i := 0 to |eligible|
      invariant entries == StaleEntries(rules, eligible, i)
    {
      var g := eligible[i];
      var reasons := StaleReasons(rules, eligible, g.id);
      if g.id in inactive {
        reasons := reasons + {INACTIVE_REASON};
      } else {
        assert reasons + {} == reasons;
      }
      if reasons != {} {
        entries := Put(entries, StaleEntry(g, reasons + {NO_PROOF_REASON}));
      }
    }
  }

  method MapFacilities(rules: GroupRules, facilities: seq<Facility>, byFacility: map<string, seq<Scored>>,
                       byGroup: map<string, seq<Scored>>, ghost matched: seq<Group>)
    returns (mappings: seq<Mapping>)
    requires forall f :: f in facilities ==> f.id in byFacility
    requires forall id :: id in byFacility ==> byFacility[id] == BestOfFacility(rules.matching, matched, id)
    requires byGroup == BestByGroup(rules.matching, matched)
    ensures mappings == MappingsOf(rules, matched, facilities)
  {
    hide MappingOf, BestOfFacility, BestByGroup;
    mappings := [];
    for i := 0 to |facilities|
      invariant |mappings| == i && forall j :: 0 <= j < i ==> mappings[j] == MappingOf(rules, matched, facilities[j])
    {
      var m := MapFacility(rules, facilities[i], byFacility, byGroup, matched);
      mappings := mappings + [m];
    }
    assert mappings == MappingsOf(rules, matched, facilities);
  }

  lemma {:induction false} IsFoundFirst(groups: seq<Group>, g: Group)
    requires g in groups
    ensures FirstWith(groups, g.id).Some?
  {
    if groups[0].id != g.id {
      IsFoundFirst(groups[1..], g);
    }
  }

  /** What is proposed is eligible. */
  lemma SourcesAreFound(rules: GroupRules, eligible: seq<Group>, facilities: seq<Facility>)
    ensures forall m :: m in MappingsOf(rules, Matchable(rules, eligible), facilities) && m.source.Some? ==>
              FirstWith(eligible, m.source.value.id).Some?
  {
    hide MappingOf;
    var matched := Matchable(rules, eligible);
    var mappings := MappingsOf(rules, matched, facilities);
    forall m | m in mappings && m.source.Some?
      ensures FirstWith(eligible, m.source.value.id).Some?
    {
      var i :| 0 <= i < |mappings| && mappings[i] == m;
      MappingFacts(rules, matched, facilities[i]);
      IsFoundFirst(eligible, m.source.value);
    }
  }

  /** The report of the eligible groups, computed by the loops; the throw of the repair is not reached. */
  method ReportEligible(env: Env, facilities: seq<Facility>, eligible: seq<Group>) returns (d: Draft)
    ensures d == Report(env, facilities, eligible)
  {
    hide MappingsOf, Matchable, InactiveIds, RestrictedIds, Repair, Duplicates, StaleEntries, UncertainIds, Filter;
    hide Ranked, MissingIds, SelectedIds, ProposedIds, AmbiguousIds;
    var rules, hints := env.rulesFor(facilities), env.hintsFor(facilities);
    ghost var matched := Matchable(rules, eligible);
    var byFacility, byGroup, ambiguous, inactive := ScoreEligible(rules, facilities, eligible);
    var drafted := MapFacilities(rules, facilities, byFacility, byGroup, matched);
    var mappings := new Mapping[|drafted|](i requires 0 <= i < |drafted| => drafted[i]);
    assert mappings[..] == drafted;
    SourcesAreFound(rules, eligible, facilities);
    var repaired := RepairDuplicates(env, eligible, mappings);
    assert repaired.Ok?;
    var stale := CollectStale(rules, eligible, inactive);
    var restricted := RestrictedIds(rules, eligible);
    var selected := SelectedIds(mappings[..]);
    d := Draft(
      eligible, mappings[..], hints, Inside(eligible, ambiguous), Inside(eligible, restricted),
      Ranked(stale, (a: StaleEntry, b: StaleEntry) => env.emailBefore(a.group, b.group)),
      Ranked(Outside(eligible, selected), env.emailBefore),
      Ranked(repaired.value, (a: Duplicate, b: Duplicate) => env.emailBefore(a.group, b.group)),
      MissingIds(env, mappings[..]), UncertainIds(env, mappings[..]), Warnings(rules, eligible, hints),
      0, |eligible|, |facilities|, |eligible|);
  }

  /** `buildDraft`. */
  method BuildDraft(env: Env, facilitiesInput: seq<Facility>, groupsInput: seq<Group>) returns (d: Draft)
    ensures d == Build(env, facilitiesInput, groupsInput)
  {
    hide Report;
    var facilities, groups := Ranked(facilitiesInput, env.facilityBefore), Ranked(groupsInput, env.groupBefore);
    var excluded := ExcludedIds(env.rulesFor(facilities), groups);
    d := ReportEligible(env, facilities, Outside(groups, excluded));
    d := d.(omitted := |excluded|, groupCount := |groups|);
  }
}
