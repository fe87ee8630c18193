/**
 The mapping draft (`buildDraft`, scripts/ops/groups-inventory-report.ts). The tests on a single group,
 which depend on the sorted facilities and the year only, and the locale's comparators are parameters.
 Reason lists that the source sorts and dedupes are sets.
 */
module BuildingDraft {
  import opened Wrappers
  import opened TopRanked
  import opened Facilities
  import opened BuildingMatches

  datatype GroupRules = GroupRules(
    matching: Rules,
    populated: Group -> bool,              // classifyPopulationGroup(...) !== 'none'
    serializable: Group -> bool,           // hasSerializableStaffIdentity
    restricted: Group -> bool,             // hasRestrictedRoleGroupMarker
    staleReasons: Group -> set<string>,    // staleSignalReasons
    whole: (Facility, Group) -> bool,      // isExactWholeBuildingIdentity
    overflow: Group -> bool,               // of automaticFacilityContextsForGroup
    hasInactive: Group -> bool)

  datatype Hints = Hints(proposals: seq<string>, skipped: seq<string>, warnings: seq<string>)

  datatype Env = Env(
    rulesFor: seq<Facility> -> GroupRules,
    hintsFor: seq<Facility> -> Hints,      // createNeighborhoodProposals
    facilityBefore: (Facility, Facility) -> bool,
    groupBefore: (Group, Group) -> bool,
    emailBefore: (Group, Group) -> bool,
    idBefore: (string, string) -> bool)

  datatype Candidate = Candidate(group: Group, score: int, reasons: seq<string>)

  datatype Outcome = Missing | Uncertain | StrongCandidate

  datatype Why =
    | InactiveFacility | BidirectionallyUniqueMatch | GroupMatchesMultipleFacilities | NoSafeBroadStaffMatch
    | MissingGroupDisplayName | CloseOrTiedCandidates | InsufficientExactEvidence | DuplicateGroupProposal

  datatype Assessment = Assessment(bestScore: int, candidates: seq<Candidate>, outcome: Outcome, reasons: set<Why>)

  datatype Mapping = Mapping(facility: Facility, assessment: Assessment, source: Option<Group>)

  datatype StaleEntry = StaleEntry(group: Group, reasons: set<string>)

  datatype Duplicate = Duplicate(group: Group, facilityIds: seq<string>)

  datatype Draft = Draft(
    inventory: seq<Group>, mappings: seq<Mapping>, hints: Hints,
    ambiguous: seq<Group>, restricted: seq<Group>, stale: seq<StaleEntry>, unassigned: seq<Group>,
    duplicates: seq<Duplicate>, missing: seq<string>, uncertain: seq<string>,
    warnings: seq<string>, omitted: nat, eligibleCount: nat, facilityCount: nat, groupCount: nat)

  function Filter<T(!new)>(xs: seq<T>, keep: T -> bool): (r: seq<T>)
    ensures forall x :: x in r <==> x in xs && keep(x)
  {
    if xs == [] then []
    else Filter(xs[..|xs| - 1], keep) + if keep(xs[|xs| - 1]) then [xs[|xs| - 1]] else []
  }

  /** The groups whose identifier is none of these. */
  function Outside(groups: seq<Group>, ids: set<string>): (r: seq<Group>)
    ensures forall g :: g in r <==> g in groups && g.id !in ids
  {
    if groups == [] then []
    else Outside(groups[..|groups| - 1], ids) + if groups[|groups| - 1].id in ids then [] else [groups[|groups| - 1]]
  }

  /** The groups whose identifier is one of these. */
  function Inside(groups: seq<Group>, ids: set<string>): (r: seq<Group>)
    ensures forall g :: g in r <==> g in groups && g.id in ids
    ensures |r| + |Outside(groups, ids)| == |groups|
  {
    if groups == [] then []
    else Inside(groups[..|groups| - 1], ids) + if groups[|groups| - 1].id in ids then [groups[|groups| - 1]] else []
  }

  // ----- which groups are drafted -----

  /** What a map keyed by identifier holds: the last group that has it. */
  function LastWith(groups: seq<Group>, id: string): Option<Group> {
    if groups == [] then None
    else if groups[|groups| - 1].id == id then Some(groups[|groups| - 1])
    else LastWith(groups[..|groups| - 1], id)
  }

  predicate IsExcluded(rules: GroupRules, groups: seq<Group>, g: Group) {
    || (LastWith(groups, g.id).Some? && rules.populated(LastWith(groups, g.id).value))
    || !rules.serializable(g)
  }

  function ExcludedIds(rules: GroupRules, groups: seq<Group>): set<string> {
    set g | g in groups && IsExcluded(rules, groups, g) :: g.id
  }

  function Eligible(rules: GroupRules, groups: seq<Group>): seq<Group> {
    Outside(groups, ExcludedIds(rules, groups))
  }

  // ----- what is drafted of the eligible groups -----

  function RestrictedIds(rules: GroupRules, eligible: seq<Group>): set<string> {
    set g | g in eligible && rules.restricted(g) :: g.id
  }

  function StaleReasons(rules: GroupRules, eligible: seq<Group>, id: string): set<string> {
    var g := LastWith(eligible, id);
    if g.Some? then rules.staleReasons(g.value) else {}
  }

  function StaleIds(rules: GroupRules, eligible: seq<Group>): set<string> {
    set g | g in eligible && StaleReasons(rules, eligible, g.id) != {} :: g.id
  }

  predicate IsQuarantined(rules: GroupRules, eligible: seq<Group>, g: Group) {
    g.id in RestrictedIds(rules, eligible) || g.id in StaleIds(rules, eligible)
  }

  predicate HasAmbiguousScope(rules: GroupRules, eligible: seq<Group>, g: Group) {
    && !IsQuarantined(rules, eligible, g)
    && (rules.overflow(g) || exists f :: f in rules.matching.contexts(g) && !rules.whole(f, g))
  }

  function AmbiguousIds(rules: GroupRules, eligible: seq<Group>): set<string> {
    set g | g in eligible && HasAmbiguousScope(rules, eligible, g) :: g.id
  }

  predicate IsMatchable(rules: GroupRules, eligible: seq<Group>, g: Group) {
    !IsQuarantined(rules, eligible, g) && !HasAmbiguousScope(rules, eligible, g)
  }

  function MatchableIn(rules: GroupRules, eligible: seq<Group>): Group -> bool { g => IsMatchable(rules, eligible, g) }

  function Matchable(rules: GroupRules, eligible: seq<Group>): seq<Group> {
    Filter(eligible, MatchableIn(rules, eligible))
  }

  predicate MatchesInactive(rules: GroupRules, eligible: seq<Group>, g: Group) {
    || (!IsMatchable(rules, eligible, g) && rules.overflow(g) && rules.hasInactive(g))
    || ScoresInactive(rules.matching, g, rules.matching.contexts(g))
  }

  function InactiveIds(rules: GroupRules, eligible: seq<Group>): set<string> {
    set g | g in eligible && MatchesInactive(rules, eligible, g) :: g.id
  }

  // ----- the mapping of one facility -----

  function Candidates(best: seq<Scored>): seq<Candidate> {
    if best == [] then []
    else Candidates(best[..|best| - 1]) +
         [Candidate(best[|best| - 1].group, best[|best| - 1].rating.score, best[|best| - 1].rating.reasons)]
  }

  function IfWhy(test: bool, why: Why): set<Why> { if test then {why} else {} }

  function AssessmentReasons(f: Facility, best: seq<Scored>, proposal: Option<Group>): set<Why> {
    if !f.active then {InactiveFacility}
    else if best == [] then {}
    else if best[0].rating.score >= 110 && best[0].rating.strongEligible && HasClearLead(best) then
      {if proposal.Some? then BidirectionallyUniqueMatch else GroupMatchesMultipleFacilities}
    else
      IfWhy(!best[0].rating.strongEligible, NoSafeBroadStaffMatch)
      + IfWhy(best[0].group.displayName.None?, MissingGroupDisplayName)
      + IfWhy(!HasClearLead(best), CloseOrTiedCandidates)
      + IfWhy(best[0].rating.score < 110, InsufficientExactEvidence)
  }

  function MappingOf(rules: GroupRules, matched: seq<Group>, f: Facility): Mapping {
    var best := BestOfFacility(rules.matching, matched, f.id);
    var proposal := Proposal(f, map[f.id := best], BestByGroup(rules.matching, matched));
    Mapping(f,
            Assessment(if best == [] then 0 else best[0].rating.score, Candidates(best),
                       if proposal.Some? then StrongCandidate else if best == [] then Missing else Uncertain,
                       AssessmentReasons(f, best, proposal)),
            proposal)
  }

  function MappingsOf(rules: GroupRules, matched: seq<Group>, facilities: seq<Facility>): (r: seq<Mapping>)
    ensures |r| == |facilities| && forall i :: 0 <= i < |r| ==> r[i] == MappingOf(rules, matched, facilities[i])
  {
    seq(|facilities|, i requires 0 <= i < |facilities| => MappingOf(rules, matched, facilities[i]))
  }

  // ----- the repair of groups proposed twice -----

  predicate Proposes(m: Mapping, groupId: string) { m.source.Some? && m.source.value.id == groupId }

  function Proposing(mappings: seq<Mapping>, groupId: string): (r: seq<Mapping>)
    ensures forall m :: m in r <==> m in mappings && Proposes(m, groupId)
  {
    if mappings == [] then []
    else
      Proposing(mappings[..|mappings| - 1], groupId) +
      if Proposes(mappings[|mappings| - 1], groupId) then [mappings[|mappings| - 1]] else []
  }

  predicate Collides(mappings: seq<Mapping>, m: Mapping) {
    m.source.Some? && |Proposing(mappings, m.source.value.id)| >= 2
  }

  function Withdrawn(m: Mapping): Mapping {
    m.(source := None,
       assessment := m.assessment.(outcome := Uncertain, reasons := m.assessment.reasons + {DuplicateGroupProposal}))
  }

  function Repaired(mappings: seq<Mapping>, m: Mapping): Mapping {
    if Collides(mappings, m) then Withdrawn(m) else m
  }

  function Repair(mappings: seq<Mapping>): (r: seq<Mapping>)
    ensures |r| == |mappings|
  {
    seq(|mappings|, i requires 0 <= i < |mappings| => Repaired(mappings, mappings[i]))
  }

  function FacilityIds(mappings: seq<Mapping>): (r: seq<string>)
    ensures |r| == |mappings| && forall i :: 0 <= i < |r| ==> r[i] == mappings[i].facility.id
  {
    seq(|mappings|, i requires 0 <= i < |mappings| => mappings[i].facility.id)
  }

  /** The groups that the first `n` mappings propose, in the order in which each is first proposed. */
  function ProposedIds(mappings: seq<Mapping>, n: nat): seq<string>
    requires n <= |mappings|
  {
    if n == 0 then []
    else
      var before, m := ProposedIds(mappings, n - 1), mappings[n - 1];
      if m.source.None? || m.source.value.id in before then before else before + [m.source.value.id]
  }

  /** `find`: the first group that has the identifier. */
  function FirstWith(groups: seq<Group>, id: string): Option<Group> {
    if groups == [] then None else if groups[0].id == id then Some(groups[0]) else FirstWith(groups[1..], id)
  }

  /** The groups among `ids` that are proposed twice; a group that is not eligible makes the source throw. */
  function Duplicates(env: Env, eligible: seq<Group>, mappings: seq<Mapping>, ids: seq<string>): seq<Duplicate> {
    if ids == [] then []
    else
      var id := ids[|ids| - 1];
      var proposing, g := Proposing(mappings, id), FirstWith(eligible, id);
      Duplicates(env, eligible, mappings, ids[..|ids| - 1]) +
      if |proposing| >= 2 && g.Some? then [Duplicate(g.value, Ranked(FacilityIds(proposing), env.idBefore))] else []
  }

  // ----- the report -----

  function SelectedIds(mappings: seq<Mapping>): set<string> {
    set m | m in mappings && m.source.Some? :: m.source.value.id
  }

  /** A map's entries in insertion order: a later value takes the place of an earlier one. */
  function Put(entries: seq<StaleEntry>, e: StaleEntry): seq<StaleEntry> {
    if entries == [] then [e]
    else if entries[0].group.id == e.group.id then [e] + entries[1..]
    else [entries[0]] + Put(entries[1..], e)
  }

  const INACTIVE_REASON := "GROUP_MATCHES_INACTIVE_FACILITY"
  const NO_PROOF_REASON := "HEURISTIC_NOT_STALENESS_PROOF"

  function SignalsOf(rules: GroupRules, eligible: seq<Group>, g: Group): set<string> {
    StaleReasons(rules, eligible, g.id) + if g.id in InactiveIds(rules, eligible) then {INACTIVE_REASON} else {}
  }

  function StaleEntries(rules: GroupRules, eligible: seq<Group>, n: nat): seq<StaleEntry>
    requires n <= |eligible|
  {
    if n == 0 then []
    else
      var g := eligible[n - 1];
      var signals := SignalsOf(rules, eligible, g);
      var before := StaleEntries(rules, eligible, n - 1);
      if signals == {} then before else Put(before, StaleEntry(g, signals + {NO_PROOF_REASON}))
  }

  /** The groups that may be stale, by email. */
  function StaleList(env: Env, rules: GroupRules, eligible: seq<Group>): seq<StaleEntry> {
    Ranked(StaleEntries(rules, eligible, |eligible|),
      (a: StaleEntry, b: StaleEntry) => env.emailBefore(a.group, b.group))
  }

  function IfWarning(test: bool, warning: string): seq<string> { if test then [warning] else [] }

  function Warnings(rules: GroupRules, eligible: seq<Group>, hints: Hints): seq<string> {
    IfWarning(AmbiguousIds(rules, eligible) != {}, "AMBIGUOUS_STAFF_SCOPE_GROUPS_REQUIRE_HUMAN_RESOLUTION")
    + IfWarning(RestrictedIds(rules, eligible) != {}, "RESTRICTED_ROLE_GROUPS_REQUIRE_HUMAN_RESOLUTION")
    + hints.warnings
    + ["AUTHORIZATION_COVERAGE_NOT_VERIFIED", "GROUP_MEMBERSHIP_AND_STAFF_POPULATION_NOT_FETCHED",
      "NO_GEOGRAPHY_HINTS_AVAILABLE"]
  }

  function MissingIds(env: Env, mappings: seq<Mapping>): seq<string> {
    Ranked(FacilityIds(Filter(mappings, (m: Mapping) => m.facility.active && m.assessment.outcome.Missing?)),
      env.idBefore)
  }

  function UncertainIds(env: Env, mappings: seq<Mapping>): seq<string> {
    Ranked(FacilityIds(Filter(mappings, (m: Mapping) => m.assessment.outcome.Uncertain?)), env.idBefore)
  }

  /** Everything but the counts of what was left out; `facilities` are sorted. */
  function Report(env: Env, facilities: seq<Facility>, eligible: seq<Group>): Draft {
    var rules, hints := env.rulesFor(facilities), env.hintsFor(facilities);
    var drafted := MappingsOf(rules, Matchable(rules, eligible), facilities);
    var mappings := Repair(drafted);
    Draft(
      eligible, mappings, hints,
      Inside(eligible, AmbiguousIds(rules, eligible)),
      Inside(eligible, RestrictedIds(rules, eligible)),
      StaleList(env, rules, eligible),
      Ranked(Outside(eligible, SelectedIds(mappings)), env.emailBefore),
      Ranked(Duplicates(env, eligible, drafted, ProposedIds(drafted, |drafted|)),
        (a: Duplicate, b: Duplicate) => env.emailBefore(a.group, b.group)),
      MissingIds(env, mappings), UncertainIds(env, mappings), Warnings(rules, eligible, hints),
      0, |eligible|, |facilities|, |eligible|)
  }

  function Build(env: Env, facilities: seq<Facility>, groups: seq<Group>): Draft {
    var fs, gs := Ranked(facilities, env.facilityBefore), Ranked(groups, env.groupBefore);
    var rules := env.rulesFor(fs);
    Report(env, fs, Eligible(rules, gs)).(omitted := |ExcludedIds(rules, gs)|, groupCount := |gs|)
  }

  function DraftedFacilities(d: Draft): (r: seq<Facility>)
    ensures |r| == |d.mappings|
  {
    seq(|d.mappings|, i requires 0 <= i < |d.mappings| => d.mappings[i].facility)
  }

  // ----- building again from the draft's own inventory -----

  lemma {:induction false} OutsideNone(groups: seq<Group>, ids: set<string>)
    requires forall g :: g in groups ==> g.id !in ids
    ensures Outside(groups, ids) == groups
  {
    if groups != [] {
      var front, last := groups[..|groups| - 1], groups[|groups| - 1];
      assert groups == front + [last] && last in groups;
      forall g | g in front
        ensures g.id !in ids
      {
        assert g in groups;
      }
      OutsideNone(front, ids);
      assert Outside(groups, ids) == front + [last];
    }
  }

  lemma {:induction false} OutsideIsRanked(groups: seq<Group>, ids: set<string>, before: (Group, Group) -> bool)
    requires IsRanked(groups, before)
    ensures IsRanked(Outside(groups, ids), before)
  {
    if groups != [] {
      var front, last := groups[..|groups| - 1], groups[|groups| - 1];
      OutsideIsRanked(front, ids, before);
      forall x | x in front
        ensures !before(last, x)
      {
        var i :| 0 <= i < |front| && front[i] == x;
        assert groups[i] == x;
      }
      var kept := Outside(front, ids);
      assert forall i :: 0 <= i < |kept| ==> kept[i] in front;
    }
  }

  lemma {:induction false} LastOutside(groups: seq<Group>, ids: set<string>, id: string)
    requires id !in ids
    ensures LastWith(Outside(groups, ids), id) == LastWith(groups, id)
  {
    if groups != [] {
      var front, last := groups[..|groups| - 1], groups[|groups| - 1];
      LastOutside(front, ids, id);
      var kept := Outside(front, ids);
      if last.id in ids {
        assert kept + [] == kept;
      } else {
        assert (kept + [last])[..|kept|] == kept;
      }
    }
  }

  lemma EligibleAgain(rules: GroupRules, groups: seq<Group>)
    ensures ExcludedIds(rules, Eligible(rules, groups)) == {}
    ensures Eligible(rules, Eligible(rules, groups)) == Eligible(rules, groups)
  {
    var excluded, eligible := ExcludedIds(rules, groups), Eligible(rules, groups);
    forall g | g in eligible
      ensures !IsExcluded(rules, eligible, g)
    {
      LastOutside(groups, excluded, g.id);
    }
    OutsideNone(eligible, {});
  }

  /**
   Building again from only the groups a draft kept, and its facilities, gives the same draft: the
   inventory, the mappings with their assessments, the hints and the whole report, all but the total
   and the number left out.
   */
  lemma BuildIsIdempotent(env: Env, facilities: seq<Facility>, groups: seq<Group>)
    requires IsOrder(env.facilityBefore) && IsOrder(env.groupBefore)
    ensures var d := Build(env, facilities, groups);
            Build(env, DraftedFacilities(d), d.inventory) == d.(omitted := 0, groupCount := |d.inventory|)
  {
    hide Report, IsOrder, Ranked;
    var fs, gs := Ranked(facilities, env.facilityBefore), Ranked(groups, env.groupBefore);
    var rules := env.rulesFor(fs);
    var eligible := Eligible(rules, gs);
    var d := Build(env, facilities, groups);
    ReportKeeps(env, fs, eligible);
    assert DraftedFacilities(d) == DraftedFacilities(Report(env, fs, eligible)) == fs;
    RankedIsRanked(facilities, env.facilityBefore);
    RankedOfRanked(fs, env.facilityBefore);
    RankedIsRanked(groups, env.groupBefore);
    OutsideIsRanked(gs, ExcludedIds(rules, gs), env.groupBefore);
    RankedOfRanked(eligible, env.groupBefore);
    EligibleAgain(rules, gs);
  }

  lemma ReportKeeps(env: Env, facilities: seq<Facility>, eligible: seq<Group>)
    ensures var d := Report(env, facilities, eligible);
            && d.inventory == eligible && DraftedFacilities(d) == facilities
            && d.omitted == 0 && d.groupCount == |eligible| && d.eligibleCount == |eligible|
  {
  }

  // ----- the count of what was left out -----

  predicate DistinctIds(groups: seq<Group>) { forall i, j :: 0 <= i < j < |groups| ==> groups[i].id != groups[j].id }

  function IdsOf(groups: seq<Group>): set<string> { set g | g in groups :: g.id }

  lemma {:induction false} CountOfIds(groups: seq<Group>)
    ensures |IdsOf(groups)| <= |groups|
    ensures |IdsOf(groups)| == |groups| <==> DistinctIds(groups)
  {
    if groups != [] {
      var front, last := groups[..|groups| - 1], groups[|groups| - 1];
      CountOfIds(front);
      OneMoreId(front, last);
      assert groups == front + [last];
    }
  }

  lemma OneMoreId(front: seq<Group>, last: Group)
    ensures IdsOf(front + [last]) == IdsOf(front) + {last.id}
    ensures DistinctIds(front + [last]) <==> DistinctIds(front) && last.id !in IdsOf(front)
  {
    var groups := front + [last];
    assert forall i :: 0 <= i < |front| ==> groups[i] == front[i] && front[i] in front;
    if last.id in IdsOf(front) {
      var g :| g in front && g.id == last.id;
      var i :| 0 <= i < |front| && front[i] == g;
      assert groups[i].id == groups[|front|].id;
    } else if DistinctIds(groups) {
      assert forall i, j :: 0 <= i < j < |front| ==> groups[i].id != groups[j].id;
    }
  }

  /** The validator's count check holds of a fresh draft exactly when the groups left out have different identifiers. */
  lemma CountsAddUpIff(env: Env, facilities: seq<Facility>, groups: seq<Group>)
    ensures var d := Build(env, facilities, groups);
            var sorted := Ranked(groups, env.groupBefore);
            var excluded := ExcludedIds(env.rulesFor(Ranked(facilities, env.facilityBefore)), sorted);
            d.groupCount == |d.inventory| + d.omitted <==> DistinctIds(Inside(sorted, excluded))
  {
    hide Report, IsExcluded;
    var fs, gs := Ranked(facilities, env.facilityBefore), Ranked(groups, env.groupBefore);
    var rules := env.rulesFor(fs);
    var excluded := ExcludedIds(rules, gs);
    ReportKeeps(env, fs, Eligible(rules, gs));
    var dropped := Inside(gs, excluded);
    assert IdsOf(dropped) == excluded;
    CountOfIds(dropped);
  }
}
