/**
 The draft validator (`validateDraftForDomain`, scripts/ops/groups-inventory-input.ts) on a draft whose
 review is still pending: it rebuilds the draft from the draft's own inventory and compares.
 */
module DraftCheck {
  import opened Wrappers
  import opened TopRanked
  import opened Facilities
  import opened BuildingMatches
  import opened BuildingDraft

  const STALE_SIGNALS := {"GROUP_HAS_PRIOR_YEAR_MARKER", "GROUP_HAS_STALE_NAME_MARKER"}

  const MAX_SCORE := 210

  const LIMIT_WARNING := "NEIGHBORHOOD_HINT_SKIPPED_CONTRACT_LIMIT"

  // ----- the checks, in the validator's order -----

  predicate DistinctEmails(groups: seq<Group>) {
    forall i, j :: 0 <= i < j < |groups| ==> groups[i].email != groups[j].email
  }

  predicate InventoryOk(d: Draft) {
    d.eligibleCount == |d.inventory| && DistinctIds(d.inventory) && DistinctEmails(d.inventory)
  }

  /** Facilities differ in identifier, code and normalised name. */
  predicate FacilitiesDiffer(nameKey: string -> string, facilities: seq<Facility>) {
    forall i, j :: 0 <= i < j < |facilities| ==>
      && facilities[i].id != facilities[j].id
      && facilities[i].code != facilities[j].code
      && nameKey(facilities[i].name) != nameKey(facilities[j].name)
  }

  /** `parseAssessment`, past the shapes of its fields. */
  predicate AssessmentOk(a: Assessment) {
    && |a.candidates| <= 3
    && (forall c :: c in a.candidates ==> 90 <= c.score <= MAX_SCORE && NoRepeats(c.reasons))
    && (forall i, j :: 0 <= i < j < |a.candidates| ==> a.candidates[i].group.id != a.candidates[j].group.id)
    && a.bestScore == (if a.candidates == [] then 0 else a.candidates[0].score)
    && (forall i :: 0 <= i < |a.candidates| - 1 ==> a.candidates[i + 1].score <= a.candidates[i].score)
    && (a.outcome.Missing? ==> a.candidates == [])
    && (a.outcome.StrongCandidate? ==> a.bestScore >= 110 && a.candidates != [])
  }

  predicate MappingOk(inventory: seq<Group>, m: Mapping) {
    && AssessmentOk(m.assessment)
    && (m.assessment.outcome.StrongCandidate? <==> m.source.Some?)
    && (m.source.Some? ==>
          && m.facility.active
          && LastWith(inventory, m.source.value.id).Some?
          && LastWith(inventory, m.source.value.id).value.email == m.source.value.email
          && m.assessment.candidates != []
          && m.assessment.candidates[0].group.id == m.source.value.id
          && m.assessment.candidates[0].group.email == m.source.value.email)
    && (forall c :: c in m.assessment.candidates ==> LastWith(inventory, c.group.id) == Some(c.group))
  }

  /** No group is selected by two mappings. */
  predicate SourcesDiffer(mappings: seq<Mapping>) {
    forall i, j :: 0 <= i < j < |mappings| && mappings[i].source.Some? && mappings[j].source.Some? ==>
      && mappings[i].source.value.id != mappings[j].source.value.id
      && mappings[i].source.value.email != mappings[j].source.value.email
  }

  function MappingWith(mappings: seq<Mapping>, id: string): Option<Mapping> {
    if mappings == [] then None
    else if mappings[|mappings| - 1].facility.id == id then Some(mappings[|mappings| - 1])
    else MappingWith(mappings[..|mappings| - 1], id)
  }

  /** The rebuilt draft keeps every group, every assessment and every proposal. */
  predicate MatchesRebuilt(d: Draft, again: Draft) {
    && |again.inventory| == |d.inventory|
    && (forall g :: g in d.inventory ==> LastWith(again.inventory, g.id) == Some(g))
    && (forall m :: m in d.mappings ==>
          && MappingWith(again.mappings, m.facility.id).Some?
          && MappingWith(again.mappings, m.facility.id).value.assessment == m.assessment
          && MappingWith(again.mappings, m.facility.id).value.source == m.source)
  }

  function SignalIds(entries: seq<StaleEntry>): set<string> {
    set e | e in entries && e.reasons * STALE_SIGNALS != {} :: e.group.id
  }

  /** No mapping selects or lists a restricted, stale or ambiguous group. */
  predicate NothingQuarantined(d: Draft, again: Draft) {
    var ids := IdsOf(again.restricted) + SignalIds(again.stale) + IdsOf(again.ambiguous);
    forall m :: m in d.mappings ==>
      && (m.source.Some? ==> m.source.value.id !in ids)
      && forall c :: c in m.assessment.candidates ==> c.group.id !in ids
  }

  function Ids(groups: seq<Group>): (r: seq<string>)
    ensures |r| == |groups| && forall i :: 0 <= i < |r| ==> r[i] == groups[i].id
  {
    seq(|groups|, i requires 0 <= i < |groups| => groups[i].id)
  }

  /** A reported list has no repetition and is inventory, and its sorted identifiers are the expected ones. */
  predicate ListOk(env: Env, inventory: seq<Group>, reported: seq<Group>, expected: seq<string>) {
    && DistinctIds(reported)
    && (forall g :: g in reported ==> LastWith(inventory, g.id) == Some(g))
    && Ranked(Ids(reported), env.idBefore) == Ranked(expected, env.idBefore)
  }

  function EntryWith(entries: seq<StaleEntry>, id: string): Option<StaleEntry> {
    if entries == [] then None
    else if entries[|entries| - 1].group.id == id then Some(entries[|entries| - 1])
    else EntryWith(entries[..|entries| - 1], id)
  }

  predicate StaleOk(d: Draft, again: Draft) {
    && (forall i, j :: 0 <= i < j < |d.stale| ==> d.stale[i].group.id != d.stale[j].group.id)
    && (forall e :: e in d.stale ==>
          && LastWith(d.inventory, e.group.id) == Some(e.group)
          && EntryWith(again.stale, e.group.id).Some?
          && EntryWith(again.stale, e.group.id).value.reasons == e.reasons)
    && (forall e :: e in again.stale ==> EntryWith(d.stale, e.group.id).Some?)
  }

  function Sorted(env: Env, duplicates: seq<Duplicate>): seq<Duplicate> {
    Ranked(seq(|duplicates|, i requires 0 <= i < |duplicates| =>
                 duplicates[i].(facilityIds := Ranked(duplicates[i].facilityIds, env.idBefore))),
           (a: Duplicate, b: Duplicate) => env.idBefore(a.group.id, b.group.id))
  }

  predicate DuplicatesOk(env: Env, d: Draft, again: Draft) {
    && (forall x :: x in d.duplicates ==>
          && LastWith(d.inventory, x.group.id) == Some(x.group)
          && |x.facilityIds| >= 2 && NoRepeats(x.facilityIds)
          && forall id :: id in x.facilityIds ==> exists m :: m in d.mappings && m.facility.id == id)
    && Sorted(env, d.duplicates) == Sorted(env, again.duplicates)
  }

  /** The hints are those of the facilities; the skipped ones in any order. */
  predicate HintsOk(env: Env, d: Draft, again: Draft) {
    && d.hints.proposals == again.hints.proposals
    && Ranked(d.hints.skipped, env.idBefore) == Ranked(again.hints.skipped, env.idBefore)
  }

  predicate WarningsOk(env: Env, d: Draft, again: Draft) {
    && NoRepeats(d.warnings)
    && Ranked(d.warnings, env.idBefore) == Ranked(again.warnings, env.idBefore)
    && "AUTHORIZATION_COVERAGE_NOT_VERIFIED" in d.warnings
    && "GROUP_MEMBERSHIP_AND_STAFF_POPULATION_NOT_FETCHED" in d.warnings
    && "NO_GEOGRAPHY_HINTS_AVAILABLE" in d.warnings
    && ("AMBIGUOUS_STAFF_SCOPE_GROUPS_REQUIRE_HUMAN_RESOLUTION" in d.warnings <==> IdsOf(again.ambiguous) != {})
    && ("RESTRICTED_ROLE_GROUPS_REQUIRE_HUMAN_RESOLUTION" in d.warnings <==> IdsOf(again.restricted) != {})
    && (LIMIT_WARNING in d.warnings <==> LIMIT_WARNING in env.hintsFor(DraftedFacilities(d)).warnings)
  }

  predicate ReportOk(env: Env, d: Draft, again: Draft) {
    && Ranked(d.missing, env.idBefore) == MissingIds(env, d.mappings)
    && Ranked(d.uncertain, env.idBefore) == UncertainIds(env, d.mappings)
    && ListOk(env, d.inventory, d.unassigned, Ids(Outside(d.inventory, SelectedIds(d.mappings))))
    && ListOk(env, d.inventory, d.ambiguous, Ids(again.ambiguous))
    && ListOk(env, d.inventory, d.restricted, Ids(again.restricted))
    && StaleOk(d, again)
    && HintsOk(env, d, again) && DuplicatesOk(env, d, again)
    && d.groupCount == |d.inventory| + d.omitted
    && WarningsOk(env, d, again)
  }

  /** The structural part of the validator; `false` is one of its throws. */
  predicate Validates(env: Env, nameKey: string -> string, d: Draft) {
    var again := Build(env, DraftedFacilities(d), d.inventory);
    && InventoryOk(d)
    && FacilitiesDiffer(nameKey, DraftedFacilities(d))
    && (forall m :: m in d.mappings ==> MappingOk(d.inventory, m))
    && SourcesDiffer(d.mappings)
    && |d.mappings| == d.facilityCount
    && MatchesRebuilt(d, again)
    && NothingQuarantined(d, again)
    && ReportOk(env, d, again)
  }

  // ----- what a fresh draft has to start from -----

  /** What the callers of `buildDraft` see to: nothing appears twice. */
  ghost predicate AreDistinct(nameKey: string -> string, facilities: seq<Facility>, groups: seq<Group>) {
    FacilitiesDiffer(nameKey, facilities) && DistinctIds(groups) && DistinctEmails(groups)
  }

  /** The comparators are orders, and the one on identifiers tells any two apart. */
  ghost predicate AreOrders(env: Env) {
    && IsOrder(env.facilityBefore) && IsOrder(env.groupBefore) && IsOrder(env.emailBefore) && IsOrder(env.idBefore)
    && (forall a, b :: !env.idBefore(a, b) && !env.idBefore(b, a) ==> a == b)
  }

  /**
   What the source's own rules are like: its reason codes and warnings, sorted and without repetition,
   its highest score, the comparator that looks at scores first, and contexts that are facilities.
   */
  ghost predicate AreCodes(env: Env, facilities: seq<Facility>) {
    var rules := env.rulesFor(facilities);
    && (forall g :: rules.staleReasons(g) <= STALE_SIGNALS)
    && NoRepeats(env.hintsFor(facilities).warnings)
    && (forall w :: w in env.hintsFor(facilities).warnings ==> w == LIMIT_WARNING)
    && AreRatings(rules.matching, facilities)
  }

  ghost predicate AreRatings(r: Rules, facilities: seq<Facility>) {
    && RankByScore(r.groupBefore)
    && (forall f, g :: r.rate(f, g).score <= MAX_SCORE && NoRepeats(r.rate(f, g).reasons))
    && (forall g :: NoRepeats(r.contexts(g)) && forall f :: f in r.contexts(g) ==> f in facilities)
  }

  // ----- lists of different groups -----

  lemma {:induction false} LastOfDistinct(groups: seq<Group>, g: Group)
    requires DistinctIds(groups) && g in groups
    ensures LastWith(groups, g.id) == Some(g)
  {
    var front, last := groups[..|groups| - 1], groups[|groups| - 1];
    var i :| 0 <= i < |groups| && groups[i] == g;
    if i < |front| {
      assert front[i] == g;
      LastOfDistinct(front, g);
    }
  }

  lemma SortedDistinct(groups: seq<Group>, before: (Group, Group) -> bool)
    requires DistinctIds(groups) && DistinctEmails(groups)
    ensures DistinctIds(Ranked(groups, before)) && DistinctEmails(Ranked(groups, before))
  {
    var byId, byEmail := (g: Group, h: Group) => g.id != h.id, (g: Group, h: Group) => g.email != h.email;
    assert Pairwise(groups, byId) && Pairwise(groups, byEmail);
    RankedIsPairwise(groups, before, byId);
    RankedIsPairwise(groups, before, byEmail);
    var r := Ranked(groups, before);
    assert forall i, j :: 0 <= i < j < |r| ==> byId(r[i], r[j]) && byEmail(r[i], r[j]);
  }

  lemma SortedFacilitiesDiffer(nameKey: string -> string, facilities: seq<Facility>,
                               before: (Facility, Facility) -> bool)
    requires FacilitiesDiffer(nameKey, facilities)
    ensures FacilitiesDiffer(nameKey, Ranked(facilities, before))
  {
    var differ := (f: Facility, g: Facility) => f.id != g.id && f.code != g.code && nameKey(f.name) != nameKey(g.name);
    assert Pairwise(facilities, differ);
    RankedIsPairwise(facilities, before, differ);
    var r := Ranked(facilities, before);
    assert forall i, j :: 0 <= i < j < |r| ==> differ(r[i], r[j]);
  }

  lemma {:induction false} OutsideDistinct(groups: seq<Group>, ids: set<string>)
    requires DistinctIds(groups) && DistinctEmails(groups)
    ensures DistinctIds(Outside(groups, ids)) && DistinctEmails(Outside(groups, ids))
  {
    if groups != [] {
      var front, last := groups[..|groups| - 1], groups[|groups| - 1];
      OutsideDistinct(front, ids);
      DifferFromLast(groups);
      var kept := Outside(front, ids);
      if last.id in ids {
        assert kept + [] == kept;
      } else {
        AppendDistinct(kept, last);
      }
    }
  }

  lemma AppendDistinct(kept: seq<Group>, last: Group)
    requires DistinctIds(kept) && DistinctEmails(kept)
    requires forall g :: g in kept ==> g.id != last.id && g.email != last.email
    ensures DistinctIds(kept + [last]) && DistinctEmails(kept + [last])
  {
    assert forall i :: 0 <= i < |kept| ==> kept[i] in kept;
  }

  lemma DifferFromLast(groups: seq<Group>)
    requires groups != [] && DistinctIds(groups) && DistinctEmails(groups)
    ensures forall g :: g in groups[..|groups| - 1] ==>
              g.id != groups[|groups| - 1].id && g.email != groups[|groups| - 1].email
  {
    var front, last := groups[..|groups| - 1], groups[|groups| - 1];
    forall g | g in front
      ensures g.id != last.id && g.email != last.email
    {
      var i :| 0 <= i < |front| && front[i] == g;
      assert groups[i] == g;
    }
  }

  lemma {:induction false} FilterDistinct(groups: seq<Group>, keep: Group -> bool)
    requires DistinctIds(groups) && DistinctEmails(groups)
    ensures DistinctIds(Filter(groups, keep))
  {
    if groups != [] {
      var front, last := groups[..|groups| - 1], groups[|groups| - 1];
      FilterDistinct(front, keep);
      DifferFromLast(groups);
      var kept := Filter(front, keep);
      assert forall i :: 0 <= i < |kept| ==> kept[i] in front;
    }
  }

  lemma DistinctEmailsApart(groups: seq<Group>, g: Group, h: Group)
    requires DistinctEmails(groups) && g in groups && h in groups && g != h
    ensures g.email != h.email
  {
    var i :| 0 <= i < |groups| && groups[i] == g;
    var j :| 0 <= j < |groups| && groups[j] == h;
    assert if i < j then groups[i].email != groups[j].email else groups[j].email != groups[i].email;
  }

  // ----- the mappings of a fresh draft -----

  lemma {:induction false} CandidateGroups(best: seq<Scored>)
    ensures |Candidates(best)| == |best|
    ensures forall i :: 0 <= i < |best| ==>
              Candidates(best)[i] == Candidate(best[i].group, best[i].rating.score, best[i].rating.reasons)
  {
    if best != [] {
      CandidateGroups(best[..|best| - 1]);
    }
  }

  lemma BestAreMatched(rules: Rules, matched: seq<Group>, id: string)
    ensures forall x :: x in BestOfFacility(rules, matched, id) ==> x.group in matched
  {
    InFacilityStream(rules, matched, id);
    RankedKeepsAll(FacilityStream(rules, matched, id), rules.groupBefore);
  }

  lemma MappingFacts(rules: GroupRules, matched: seq<Group>, f: Facility)
    ensures var m := MappingOf(rules, matched, f);
            && m.facility == f
            && (m.assessment.outcome.StrongCandidate? <==> m.source.Some?)
            && (forall c :: c in m.assessment.candidates ==> c.group in matched)
            && (m.source.Some? ==> f.active && m.source.value in matched && m.assessment.candidates != [] &&
                                   m.assessment.candidates[0].group == m.source.value)
  {
    var best := BestOfFacility(rules.matching, matched, f.id);
    BestAreMatched(rules.matching, matched, f.id);
    CandidateGroups(best);
    var m := MappingOf(rules, matched, f);
    forall c | c in m.assessment.candidates
      ensures c.group in matched
    {
      var i :| 0 <= i < |best| && Candidates(best)[i] == c;
      assert best[i] in best;
    }
    if m.source.Some? {
      assert best[0] in best;
    }
  }

  /** The entries kept for a facility: few, falling, and of different groups. */
  lemma BestFacts(r: Rules, facilities: seq<Facility>, matched: seq<Group>, id: string)
    requires AreRatings(r, facilities) && DistinctFacilityIds(facilities) && DistinctIds(matched)
    ensures var best := BestOfFacility(r, matched, id);
            && |best| <= 3
            && (forall x :: x in best ==> x.rating.score >= 90 && x.rating == r.rate(x.facility, x.group))
            && (forall i, j :: 0 <= i < j < |best| ==> best[i].group.id != best[j].group.id)
            && (forall i, j :: 0 <= i < j < |best| ==> best[j].rating.score <= best[i].rating.score)
  {
    var stream := FacilityStream(r, matched, id);
    var best := BestOfFacility(r, matched, id);
    assert NoRepeats(matched);
    InFacilityStream(r, matched, id);
    RankedKeepsAll(stream, r.groupBefore);
    RankedIsRanked(stream, r.groupBefore);
    var ranked := Ranked(stream, r.groupBefore);
    assert NoRepeats(ranked) && forall x :: x in ranked ==> x in stream;
    forall i, j | 0 <= i < j < |best|
      ensures best[i].group.id != best[j].group.id && best[j].rating.score <= best[i].rating.score
    {
      var x, y := ranked[i], ranked[j];
      assert x in ranked && y in ranked && x != y && !r.groupBefore(y, x);
      OneFacility(facilities, x.facility, y.facility);
      OneGroup(matched, x.group, y.group);
    }
  }

  lemma OneFacility(facilities: seq<Facility>, f: Facility, e: Facility)
    requires DistinctFacilityIds(facilities) && f in facilities && e in facilities && f.id == e.id
    ensures f == e
  {
  }

  lemma OneGroup(groups: seq<Group>, g: Group, h: Group)
    requires DistinctIds(groups) && g in groups && h in groups
    ensures g.id == h.id ==> g == h
  {
  }

  lemma FreshAssessmentOk(rules: GroupRules, facilities: seq<Facility>, matched: seq<Group>, f: Facility)
    requires AreRatings(rules.matching, facilities) && DistinctFacilityIds(facilities) && DistinctIds(matched)
    ensures AssessmentOk(MappingOf(rules, matched, f).assessment)
  {
    hide BestOfFacility, RankByScore, DistinctIds, DistinctFacilityIds;
    var best := BestOfFacility(rules.matching, matched, f.id);
    BestFacts(rules.matching, facilities, matched, f.id);
    CandidateGroups(best);
    assert forall i :: 0 <= i < |best| ==> best[i] in best;
  }

  lemma SourcesAreInjective(rules: GroupRules, matched: seq<Group>, f: Facility, e: Facility)
    requires MappingOf(rules, matched, f).source.Some? && MappingOf(rules, matched, e).source.Some?
    requires MappingOf(rules, matched, f).source.value.id == MappingOf(rules, matched, e).source.value.id
    ensures f.id == e.id
  {
    ProposalsAreInjective(f, e, map[f.id := BestOfFacility(rules.matching, matched, f.id)],
                          map[e.id := BestOfFacility(rules.matching, matched, e.id)],
                            BestByGroup(rules.matching, matched));
  }

  ghost predicate DistinctFacilityIds(facilities: seq<Facility>) {
    forall i, j :: 0 <= i < j < |facilities| ==> facilities[i].id != facilities[j].id
  }

  lemma {:induction false} ProposingNoRepeats(mappings: seq<Mapping>, groupId: string)
    requires NoRepeats(mappings)
    ensures NoRepeats(Proposing(mappings, groupId))
  {
    hide Proposes;
    if mappings != [] {
      var front, last := mappings[..|mappings| - 1], mappings[|mappings| - 1];
      ProposingNoRepeats(front, groupId);
      var kept := Proposing(front, groupId);
      assert last !in front;
      assert forall i :: 0 <= i < |kept| ==> kept[i] in front;
    }
  }

  /** With different facilities no group is proposed twice, so the repair loop finds nothing and changes nothing. */
  lemma RepairDoesNothing(env: Env, rules: GroupRules, eligible: seq<Group>, matched: seq<Group>,
                          facilities: seq<Facility>)
    requires DistinctFacilityIds(facilities)
    ensures var drafted := MappingsOf(rules, matched, facilities);
            Repair(drafted) == drafted && forall ids :: Duplicates(env, eligible, drafted, ids) == []
  {
    hide MappingOf;
    var drafted := MappingsOf(rules, matched, facilities);
    forall m | m in drafted
      ensures !Collides(drafted, m)
    {
      OneProposer(rules, matched, facilities, m);
    }
    forall ids
      ensures Duplicates(env, eligible, drafted, ids) == []
    {
      NoDuplicates(env, eligible, drafted, ids);
    }
  }

  lemma OneProposer(rules: GroupRules, matched: seq<Group>, facilities: seq<Facility>, m: Mapping)
    requires DistinctFacilityIds(facilities) && m in MappingsOf(rules, matched, facilities)
    ensures !Collides(MappingsOf(rules, matched, facilities), m)
  {
    hide MappingOf;
    var drafted := MappingsOf(rules, matched, facilities);
    if Collides(drafted, m) {
      forall i, j | 0 <= i < j < |drafted|
        ensures drafted[i] != drafted[j]
      {
        MappingFacts(rules, matched, facilities[i]);
        MappingFacts(rules, matched, facilities[j]);
      }
      var two := Proposing(drafted, m.source.value.id);
      ProposingNoRepeats(drafted, m.source.value.id);
      assert two[0] in two && two[1] in two;
      var i :| 0 <= i < |drafted| && drafted[i] == two[0];
      var j :| 0 <= j < |drafted| && drafted[j] == two[1];
      SourcesAreInjective(rules, matched, facilities[i], facilities[j]);
    }
  }

  lemma {:induction false} NoDuplicates(env: Env, eligible: seq<Group>, mappings: seq<Mapping>, ids: seq<string>)
    requires forall m :: m in mappings ==> !Collides(mappings, m)
    ensures Duplicates(env, eligible, mappings, ids) == []
  {
    if ids != [] {
      NoDuplicates(env, eligible, mappings, ids[..|ids| - 1]);
      var proposing := Proposing(mappings, ids[|ids| - 1]);
      assert proposing != [] ==> proposing[0] in proposing;
    }
  }

  lemma MatchableGroups(rules: GroupRules, eligible: seq<Group>)
    ensures forall g :: g in Matchable(rules, eligible) <==> g in eligible && IsMatchable(rules, eligible, g)
  {
  }

  lemma MatchableDistinct(rules: GroupRules, eligible: seq<Group>)
    requires DistinctIds(eligible) && DistinctEmails(eligible)
    ensures DistinctIds(Matchable(rules, eligible))
  {
    FilterDistinct(eligible, MatchableIn(rules, eligible));
  }

  /** What a fresh mapping holds is inventory, and it fits its outcome. */
  lemma FreshMappingOk(rules: GroupRules, facilities: seq<Facility>, eligible: seq<Group>, matched: seq<Group>,
                       f: Facility)
    requires DistinctIds(eligible) && DistinctIds(matched) && forall g :: g in matched ==> g in eligible
    requires AreRatings(rules.matching, facilities) && DistinctFacilityIds(facilities)
    ensures MappingOk(eligible, MappingOf(rules, matched, f))
  {
    hide MappingOf, AreRatings;
    var m := MappingOf(rules, matched, f);
    MappingFacts(rules, matched, f);
    FreshAssessmentOk(rules, facilities, matched, f);
    forall c | c in m.assessment.candidates
      ensures LastWith(eligible, c.group.id) == Some(c.group)
    {
      LastOfDistinct(eligible, c.group);
    }
    if m.source.Some? {
      LastOfDistinct(eligible, m.source.value);
    }
  }

  lemma FreshMappingsOk(rules: GroupRules, facilities: seq<Facility>, eligible: seq<Group>)
    requires DistinctIds(eligible) && DistinctEmails(eligible)
    requires AreRatings(rules.matching, facilities) && DistinctFacilityIds(facilities)
    ensures forall m :: m in MappingsOf(rules, Matchable(rules, eligible), facilities) ==> MappingOk(eligible, m)
  {
    hide MappingOf, AreRatings;
    MatchableGroups(rules, eligible);
    MatchableDistinct(rules, eligible);
    var matched := Matchable(rules, eligible);
    var mappings := MappingsOf(rules, matched, facilities);
    forall m | m in mappings
      ensures MappingOk(eligible, m)
    {
      var i :| 0 <= i < |mappings| && mappings[i] == m;
      FreshMappingOk(rules, facilities, eligible, matched, facilities[i]);
    }
  }

  lemma FreshSourcesDiffer(rules: GroupRules, facilities: seq<Facility>, eligible: seq<Group>, matched: seq<Group>)
    requires DistinctFacilityIds(facilities) && DistinctEmails(eligible) && forall g :: g in matched ==> g in eligible
    ensures SourcesDiffer(MappingsOf(rules, matched, facilities))
  {
    hide MappingOf;
    var mappings := MappingsOf(rules, matched, facilities);
    forall i, j | 0 <= i < j < |mappings| && mappings[i].source.Some? && mappings[j].source.Some?
      ensures mappings[i].source.value.id != mappings[j].source.value.id
      ensures mappings[i].source.value.email != mappings[j].source.value.email
    {
      MappingFacts(rules, matched, facilities[i]);
      MappingFacts(rules, matched, facilities[j]);
      if mappings[i].source.value.id == mappings[j].source.value.id {
        SourcesAreInjective(rules, matched, facilities[i], facilities[j]);
      }
      DistinctEmailsApart(eligible, mappings[i].source.value, mappings[j].source.value);
    }
  }

  lemma {:induction false} MappingIsFound(mappings: seq<Mapping>, i: nat)
    requires i < |mappings|
    requires forall j, k :: 0 <= j < k < |mappings| ==> mappings[j].facility.id != mappings[k].facility.id
    ensures MappingWith(mappings, mappings[i].facility.id) == Some(mappings[i])
  {
    if i < |mappings| - 1 {
      MappingIsFound(mappings[..|mappings| - 1], i);
    }
  }

  /** A draft without repeated groups or facilities compares equal to one with its inventory and mappings. */
  lemma MatchesItself(d: Draft, again: Draft)
    requires DistinctIds(d.inventory)
    requires forall j, k :: 0 <= j < k < |d.mappings| ==> d.mappings[j].facility.id != d.mappings[k].facility.id
    requires again.inventory == d.inventory && again.mappings == d.mappings
    ensures MatchesRebuilt(d, again)
  {
    forall g | g in d.inventory
      ensures LastWith(again.inventory, g.id) == Some(g)
    {
      LastOfDistinct(d.inventory, g);
    }
    forall m | m in d.mappings
      ensures MappingWith(again.mappings, m.facility.id) == Some(m)
    {
      var i :| 0 <= i < |d.mappings| && d.mappings[i] == m;
      MappingIsFound(d.mappings, i);
    }
  }

  lemma MappedFacilities(rules: GroupRules, matched: seq<Group>, facilities: seq<Facility>)
    requires DistinctFacilityIds(facilities)
    ensures var mappings := MappingsOf(rules, matched, facilities);
            && (forall i :: 0 <= i < |mappings| ==> mappings[i].facility == facilities[i])
            && forall j, k :: 0 <= j < k < |mappings| ==> mappings[j].facility.id != mappings[k].facility.id
  {
  }

  // ----- the stale entries -----

  lemma {:induction false} PutAppends(entries: seq<StaleEntry>, e: StaleEntry)
    requires forall x :: x in entries ==> x.group.id != e.group.id
    ensures Put(entries, e) == entries + [e]
  {
    if entries != [] {
      PutAppends(entries[1..], e);
    }
  }

  predicate DistinctEntries(entries: seq<StaleEntry>) {
    forall i, j :: 0 <= i < j < |entries| ==> entries[i].group.id != entries[j].group.id
  }

  lemma {:induction false} StaleFacts(rules: GroupRules, eligible: seq<Group>, n: nat)
    requires n <= |eligible| && DistinctIds(eligible)
    ensures DistinctEntries(StaleEntries(rules, eligible, n))
    ensures forall e :: e in StaleEntries(rules, eligible, n) ==>
              e.group in eligible[..n] && e.reasons == SignalsOf(rules, eligible, e.group) + {NO_PROOF_REASON}
  {
    hide SignalsOf;
    if n > 0 {
      StaleFacts(rules, eligible, n - 1);
      var before, g := StaleEntries(rules, eligible, n - 1), eligible[n - 1];
      var e := StaleEntry(g, SignalsOf(rules, eligible, g) + {NO_PROOF_REASON});
      forall x | x in before
        ensures x.group.id != g.id
      {
        var i :| 0 <= i < n - 1 && eligible[i] == x.group;
      }
      PutAppends(before, e);
      assert forall i :: 0 <= i < |before| ==> before[i] in before;
      assert eligible[..n] == eligible[..n - 1] + [g];
    }
  }

  lemma {:induction false} EntryOfDistinct(entries: seq<StaleEntry>, e: StaleEntry)
    requires DistinctEntries(entries) && e in entries
    ensures EntryWith(entries, e.group.id) == Some(e)
  {
    var front := entries[..|entries| - 1];
    var i :| 0 <= i < |entries| && entries[i] == e;
    if i < |front| {
      assert front[i] == e;
      EntryOfDistinct(front, e);
    }
  }

  lemma SortedEntries(entries: seq<StaleEntry>, before: (StaleEntry, StaleEntry) -> bool)
    requires DistinctEntries(entries)
    ensures DistinctEntries(Ranked(entries, before))
  {
    var differ := (a: StaleEntry, b: StaleEntry) => a.group.id != b.group.id;
    assert Pairwise(entries, differ);
    RankedIsPairwise(entries, before, differ);
    var r := Ranked(entries, before);
    assert forall i, j :: 0 <= i < j < |r| ==> differ(r[i], r[j]);
  }

  lemma FreshStaleList(env: Env, rules: GroupRules, eligible: seq<Group>)
    requires DistinctIds(eligible)
    ensures var stale := StaleList(env, rules, eligible);
            && DistinctEntries(stale)
            && forall e :: e in stale ==>
                 e.group in eligible && e.reasons == SignalsOf(rules, eligible, e.group) + {NO_PROOF_REASON}
  {
    hide SignalsOf;
    var entries := StaleEntries(rules, eligible, |eligible|);
    StaleFacts(rules, eligible, |eligible|);
    assert eligible[..|eligible|] == eligible;
    var before := (a: StaleEntry, b: StaleEntry) => env.emailBefore(a.group, b.group);
    assert StaleList(env, rules, eligible) == Ranked(entries, before);
    SortedEntries(entries, before);
    RankedKeepsAll(entries, before);
  }

  lemma StaleMatchesItself(d: Draft, again: Draft)
    requires DistinctIds(d.inventory) && DistinctEntries(d.stale) && again.stale == d.stale
    requires forall e :: e in d.stale ==> e.group in d.inventory
    ensures StaleOk(d, again)
  {
    forall e | e in d.stale
      ensures LastWith(d.inventory, e.group.id) == Some(e.group) && EntryWith(again.stale, e.group.id) == Some(e)
    {
      LastOfDistinct(d.inventory, e.group);
      EntryOfDistinct(d.stale, e);
    }
  }

  /** The stale report of a fresh draft is complete, repeats nothing and overstates nothing. */
  lemma FreshStaleOk(env: Env, rules: GroupRules, d: Draft, again: Draft)
    requires DistinctIds(d.inventory) && d.stale == StaleList(env, rules, d.inventory) && again.stale == d.stale
    ensures StaleOk(d, again)
    ensures forall e :: e in d.stale ==> e.reasons == SignalsOf(rules, d.inventory, e.group) + {NO_PROOF_REASON}
  {
    hide SignalsOf;
    FreshStaleList(env, rules, d.inventory);
    StaleMatchesItself(d, again);
  }

  // ----- nothing quarantined is offered -----

  lemma QuarantinedIds(rules: GroupRules, eligible: seq<Group>, stale: seq<StaleEntry>, g: Group)
    requires DistinctIds(eligible) && g in eligible && IsMatchable(rules, eligible, g)
    requires forall h :: rules.staleReasons(h) <= STALE_SIGNALS
    requires forall e :: e in stale ==>
               e.group in eligible && e.reasons == SignalsOf(rules, eligible, e.group) + {NO_PROOF_REASON}
    ensures g.id !in IdsOf(Inside(eligible, RestrictedIds(rules, eligible)))
    ensures g.id !in IdsOf(Inside(eligible, AmbiguousIds(rules, eligible)))
    ensures g.id !in SignalIds(stale)
  {
    if g.id in AmbiguousIds(rules, eligible) {
      var h :| h in eligible && HasAmbiguousScope(rules, eligible, h) && h.id == g.id;
      LastOfDistinct(eligible, g);
      LastOfDistinct(eligible, h);
    }
    if g.id in SignalIds(stale) {
      var e :| e in stale && e.reasons * STALE_SIGNALS != {} && e.group.id == g.id;
      SignalMeansStale(rules, eligible, e);
    }
  }

  lemma SignalMeansStale(rules: GroupRules, eligible: seq<Group>, e: StaleEntry)
    requires e.group in eligible && e.reasons == SignalsOf(rules, eligible, e.group) + {NO_PROOF_REASON}
    requires e.reasons * STALE_SIGNALS != {}
    ensures e.group.id in StaleIds(rules, eligible)
  {
    var reason :| reason in e.reasons && reason in STALE_SIGNALS;
    assert |INACTIVE_REASON| == 31 && |NO_PROOF_REASON| == 29 && (|reason| == 27);
    assert reason in StaleReasons(rules, eligible, e.group.id);
  }

  predicate NotListed(id: string, again: Draft) {
    id !in IdsOf(again.restricted) && id !in SignalIds(again.stale) && id !in IdsOf(again.ambiguous)
  }

  /** No matchable group is listed as restricted, stale or ambiguous. */
  lemma MatchableNotListed(env: Env, rules: GroupRules, d: Draft, g: Group)
    requires DistinctIds(d.inventory) && (forall h :: rules.staleReasons(h) <= STALE_SIGNALS)
    requires d.restricted == Inside(d.inventory, RestrictedIds(rules, d.inventory))
    requires d.ambiguous == Inside(d.inventory, AmbiguousIds(rules, d.inventory))
    requires d.stale == StaleList(env, rules, d.inventory)
    requires g in Matchable(rules, d.inventory)
    ensures NotListed(g.id, d)
  {
    FreshStaleList(env, rules, d.inventory);
    MatchableGroups(rules, d.inventory);
    QuarantinedIds(rules, d.inventory, d.stale, g);
  }

  lemma FreshNothingQuarantined(env: Env, rules: GroupRules, facilities: seq<Facility>, d: Draft, again: Draft)
    requires DistinctIds(d.inventory) && (forall h :: rules.staleReasons(h) <= STALE_SIGNALS)
    requires d.restricted == Inside(d.inventory, RestrictedIds(rules, d.inventory))
    requires d.ambiguous == Inside(d.inventory, AmbiguousIds(rules, d.inventory))
    requires d.stale == StaleList(env, rules, d.inventory)
    requires d.mappings == MappingsOf(rules, Matchable(rules, d.inventory), facilities)
    requires again.restricted == d.restricted && again.ambiguous == d.ambiguous && again.stale == d.stale
    ensures NothingQuarantined(d, again)
  {
    hide MappingOf, StaleList;
    var matched := Matchable(rules, d.inventory);
    forall g | g in matched
      ensures NotListed(g.id, d)
    {
      MatchableNotListed(env, rules, d, g);
    }
    forall m | m in d.mappings
      ensures m.source.Some? ==> NotListed(m.source.value.id, d)
      ensures forall c :: c in m.assessment.candidates ==> NotListed(c.group.id, d)
    {
      var i :| 0 <= i < |d.mappings| && d.mappings[i] == m;
      MappingFacts(rules, matched, facilities[i]);
    }
  }

  // ----- the lists of the report -----

  lemma {:induction false} InsideDistinct(groups: seq<Group>, ids: set<string>)
    requires DistinctIds(groups) && DistinctEmails(groups)
    ensures DistinctIds(Inside(groups, ids)) && DistinctEmails(Inside(groups, ids))
  {
    if groups != [] {
      var front, last := groups[..|groups| - 1], groups[|groups| - 1];
      InsideDistinct(front, ids);
      DifferFromLast(groups);
      var kept := Inside(front, ids);
      if last.id in ids {
        AppendDistinct(kept, last);
      } else {
        assert kept + [] == kept;
      }
    }
  }

  lemma InventoryList(env: Env, inventory: seq<Group>, reported: seq<Group>)
    requires DistinctIds(inventory) && DistinctIds(reported) && forall g :: g in reported ==> g in inventory
    ensures ListOk(env, inventory, reported, Ids(reported))
  {
    forall g | g in reported
      ensures LastWith(inventory, g.id) == Some(g)
    {
      LastOfDistinct(inventory, g);
    }
  }

  lemma IdsOfInsert(sorted: seq<Group>, g: Group, i: nat)
    requires i <= |sorted|
    ensures multiset(Ids(sorted[..i] + [g] + sorted[i..])) == multiset(Ids(sorted)) + multiset{g.id}
  {
    var ids := Ids(sorted);
    assert Ids(sorted[..i] + [g] + sorted[i..]) == ids[..i] + [g.id] + ids[i..];
    assert ids == ids[..i] + ids[i..];
  }

  lemma {:induction false} IdsOfRanked(groups: seq<Group>, before: (Group, Group) -> bool)
    ensures multiset(Ids(Ranked(groups, before))) == multiset(Ids(groups))
  {
    if groups != [] {
      var front, last := groups[..|groups| - 1], groups[|groups| - 1];
      IdsOfRanked(front, before);
      IdsOfInsert(Ranked(front, before), last, Place(Ranked(front, before), last, before));
      assert Ids(groups) == Ids(front) + [last.id];
    }
  }

  /** Sorting the identifiers forgets that the list was sorted by email. */
  lemma SortedTwice(env: Env, groups: seq<Group>)
    requires AreOrders(env)
    ensures Ranked(Ids(Ranked(groups, env.emailBefore)), env.idBefore) == Ranked(Ids(groups), env.idBefore)
  {
    var a, b := Ids(Ranked(groups, env.emailBefore)), Ids(groups);
    IdsOfRanked(groups, env.emailBefore);
    RankedMultiset(a, env.idBefore);
    RankedMultiset(b, env.idBefore);
    RankedIsRanked(a, env.idBefore);
    RankedIsRanked(b, env.idBefore);
    SortedIsUnique(Ranked(a, env.idBefore), Ranked(b, env.idBefore), env.idBefore);
  }

  lemma FreshListOk(env: Env, eligible: seq<Group>, ids: set<string>)
    requires DistinctIds(eligible) && DistinctEmails(eligible)
    ensures ListOk(env, eligible, Inside(eligible, ids), Ids(Inside(eligible, ids)))
  {
    InsideDistinct(eligible, ids);
    InventoryList(env, eligible, Inside(eligible, ids));
  }

  lemma FreshUnassignedOk(env: Env, eligible: seq<Group>, ids: set<string>)
    requires DistinctIds(eligible) && DistinctEmails(eligible) && AreOrders(env)
    ensures ListOk(env, eligible, Ranked(Outside(eligible, ids), env.emailBefore), Ids(Outside(eligible, ids)))
  {
    var others := Outside(eligible, ids);
    OutsideDistinct(eligible, ids);
    SortedDistinct(others, env.emailBefore);
    RankedKeepsAll(others, env.emailBefore);
    InventoryList(env, eligible, Ranked(others, env.emailBefore));
    SortedTwice(env, others);
  }

  lemma FreshFacilityListsOk(env: Env, d: Draft)
    requires d.missing == MissingIds(env, d.mappings) && d.uncertain == UncertainIds(env, d.mappings) && AreOrders(env)
    ensures Ranked(d.missing, env.idBefore) == MissingIds(env, d.mappings)
    ensures Ranked(d.uncertain, env.idBefore) == UncertainIds(env, d.mappings)
  {
    var missing := FacilityIds(Filter(d.mappings, (m: Mapping) => m.facility.active && m.assessment.outcome.Missing?));
    var uncertain := FacilityIds(Filter(d.mappings, (m: Mapping) => m.assessment.outcome.Uncertain?));
    RankedIsRanked(missing, env.idBefore);
    RankedIsRanked(uncertain, env.idBefore);
    RankedOfRanked(Ranked(missing, env.idBefore), env.idBefore);
    RankedOfRanked(Ranked(uncertain, env.idBefore), env.idBefore);
  }

  lemma IdsOfInside(groups: seq<Group>, ids: set<string>)
    requires ids <= IdsOf(groups)
    ensures IdsOf(Inside(groups, ids)) == ids
  {
  }

  lemma FreshWarningsOk(env: Env, facilities: seq<Facility>, eligible: seq<Group>, d: Draft, again: Draft)
    requires AreCodes(env, facilities) && DraftedFacilities(d) == facilities
    requires var rules := env.rulesFor(facilities);
             && d.warnings == Warnings(rules, eligible, env.hintsFor(facilities))
             && d.restricted == Inside(eligible, RestrictedIds(rules, eligible))
             && d.ambiguous == Inside(eligible, AmbiguousIds(rules, eligible))
    requires again.warnings == d.warnings && again.restricted == d.restricted && again.ambiguous == d.ambiguous
    ensures WarningsOk(env, d, again)
  {
    var rules, hints := env.rulesFor(facilities), env.hintsFor(facilities);
    hide HasAmbiguousScope;
    IdsOfInside(eligible, RestrictedIds(rules, eligible));
    IdsOfInside(eligible, AmbiguousIds(rules, eligible));
    WarningFacts(rules, eligible, hints);
    WarningsDiffer(rules, eligible, hints);
  }

  lemma WarningFacts(rules: GroupRules, eligible: seq<Group>, hints: Hints)
    requires forall w :: w in hints.warnings ==> w == LIMIT_WARNING
    ensures var all := Warnings(rules, eligible, hints);
            && "AUTHORIZATION_COVERAGE_NOT_VERIFIED" in all
            && "GROUP_MEMBERSHIP_AND_STAFF_POPULATION_NOT_FETCHED" in all
            && "NO_GEOGRAPHY_HINTS_AVAILABLE" in all
            && ("AMBIGUOUS_STAFF_SCOPE_GROUPS_REQUIRE_HUMAN_RESOLUTION" in all <==> AmbiguousIds(rules, eligible) != {})
            && ("RESTRICTED_ROLE_GROUPS_REQUIRE_HUMAN_RESOLUTION" in all <==> RestrictedIds(rules, eligible) != {})
            && (LIMIT_WARNING in all <==> LIMIT_WARNING in hints.warnings)
  {
    var a := "AMBIGUOUS_STAFF_SCOPE_GROUPS_REQUIRE_HUMAN_RESOLUTION";
    var b := "RESTRICTED_ROLE_GROUPS_REQUIRE_HUMAN_RESOLUTION";
    var c, e, f := "AUTHORIZATION_COVERAGE_NOT_VERIFIED", "GROUP_MEMBERSHIP_AND_STAFF_POPULATION_NOT_FETCHED",
      "NO_GEOGRAPHY_HINTS_AVAILABLE";
    assert |a| == 53 && |b| == 47 && |c| == 35 && |e| == 49 && |f| == 28 && |LIMIT_WARNING| == 40;
    var first := IfWarning(AmbiguousIds(rules, eligible) != {}, a);
    var second := IfWarning(RestrictedIds(rules, eligible) != {}, b);
    assert forall w :: w in Warnings(rules, eligible, hints) <==>
             w in first || w in second || w in hints.warnings || w in [c, e, f];
  }

  lemma AppendNoRepeats<T>(s: seq<T>, t: seq<T>)
    requires NoRepeats(s) && NoRepeats(t) && forall x :: x in s ==> x !in t
    ensures NoRepeats(s + t)
  {
    assert forall i :: 0 <= i < |s| ==> (s + t)[i] in s;
    assert forall i :: |s| <= i < |s + t| ==> (s + t)[i] in t;
  }

  predicate HaveLengths(s: seq<string>, lengths: set<nat>) { forall x :: x in s ==> |x| in lengths }

  lemma JoinDiffer(s: seq<string>, t: seq<string>, ofS: set<nat>, ofT: set<nat>)
    requires NoRepeats(s) && NoRepeats(t) && HaveLengths(s, ofS) && HaveLengths(t, ofT) && ofS !! ofT
    ensures NoRepeats(s + t) && HaveLengths(s + t, ofS + ofT)
  {
    AppendNoRepeats(s, t);
  }

  lemma FourDiffer(a: seq<string>, b: seq<string>, c: seq<string>, d: seq<string>)
    requires NoRepeats(a) && NoRepeats(b) && NoRepeats(c) && NoRepeats(d)
    requires HaveLengths(a, {53}) && HaveLengths(b, {47}) && HaveLengths(c, {40}) && HaveLengths(d, {35, 49, 28})
    ensures NoRepeats(a + b + c + d)
  {
    JoinDiffer(a, b, {53}, {47});
    JoinDiffer(a + b, c, {53} + {47}, {40});
    JoinDiffer(a + b + c, d, {53} + {47} + {40}, {35, 49, 28});
  }

  lemma PerhapsOne(test: bool, warning: string)
    ensures NoRepeats(IfWarning(test, warning)) && HaveLengths(IfWarning(test, warning), {|warning|})
  {
  }

  lemma LastThree(a: string, b: string, c: string)
    requires |a| == 35 && |b| == 49 && |c| == 28
    ensures NoRepeats([a, b, c]) && HaveLengths([a, b, c], {35, 49, 28})
  {
  }

  lemma WarningsDiffer(rules: GroupRules, eligible: seq<Group>, hints: Hints)
    requires NoRepeats(hints.warnings) && forall w :: w in hints.warnings ==> w == LIMIT_WARNING
    ensures NoRepeats(Warnings(rules, eligible, hints))
  {
    hide IfWarning;
    assert |LIMIT_WARNING| == 40;
    assert HaveLengths(hints.warnings, {40});
    PerhapsOne(AmbiguousIds(rules, eligible) != {}, "AMBIGUOUS_STAFF_SCOPE_GROUPS_REQUIRE_HUMAN_RESOLUTION");
    PerhapsOne(RestrictedIds(rules, eligible) != {}, "RESTRICTED_ROLE_GROUPS_REQUIRE_HUMAN_RESOLUTION");
    LastThree("AUTHORIZATION_COVERAGE_NOT_VERIFIED", "GROUP_MEMBERSHIP_AND_STAFF_POPULATION_NOT_FETCHED",
      "NO_GEOGRAPHY_HINTS_AVAILABLE");
    FourDiffer(IfWarning(AmbiguousIds(rules, eligible) != {}, "AMBIGUOUS_STAFF_SCOPE_GROUPS_REQUIRE_HUMAN_RESOLUTION"),
               IfWarning(RestrictedIds(rules, eligible) != {}, "RESTRICTED_ROLE_GROUPS_REQUIRE_HUMAN_RESOLUTION"),
               hints.warnings,
               ["AUTHORIZATION_COVERAGE_NOT_VERIFIED", "GROUP_MEMBERSHIP_AND_STAFF_POPULATION_NOT_FETCHED",
                 "NO_GEOGRAPHY_HINTS_AVAILABLE"]);
  }

  /** Every draft that is built from different facilities and different groups passes the validator. */
  lemma FreshDraftValidates(env: Env, nameKey: string -> string, facilities: seq<Facility>, groups: seq<Group>)
    requires AreDistinct(nameKey, facilities, groups) && AreOrders(env)
    requires AreCodes(env, Ranked(facilities, env.facilityBefore))
    ensures Validates(env, nameKey, Build(env, facilities, groups))
  {
    var fs, gs := Ranked(facilities, env.facilityBefore), Ranked(groups, env.groupBefore);
    var rules := env.rulesFor(fs);
    var eligible := Eligible(rules, gs);
    var d := Build(env, facilities, groups);
    var report := Report(env, fs, eligible);
    BuildIsIdempotent(env, facilities, groups);
    var again := Build(env, DraftedFacilities(d), d.inventory);
    ReportKeeps(env, fs, eligible);
    EligibleDistinct(nameKey, env, facilities, groups);
    ReportIs(env, nameKey, fs, eligible);
    FreshParts(env, nameKey, fs, report, again);
    FreshFacilityListsOk(env, report);
    FreshWarningsOk(env, fs, eligible, report, again);
    FreshCounts(env, facilities, groups);
    assert DraftedFacilities(d) == fs;
    OnlyCountsChange(env, nameKey, report, d, again);
  }

  /** The inventory, the mappings and the group lists of a fresh draft. */
  ghost predicate IsFresh(env: Env, facilities: seq<Facility>, d: Draft) {
    var rules := env.rulesFor(facilities);
    && d.duplicates == [] && d.mappings == MappingsOf(rules, Matchable(rules, d.inventory), facilities)
    && d.restricted == Inside(d.inventory, RestrictedIds(rules, d.inventory))
    && d.ambiguous == Inside(d.inventory, AmbiguousIds(rules, d.inventory))
    && d.stale == StaleList(env, rules, d.inventory)
    && d.unassigned == Ranked(Outside(d.inventory, SelectedIds(d.mappings)), env.emailBefore)
  }

  lemma FreshParts(env: Env, nameKey: string -> string, facilities: seq<Facility>, d: Draft, again: Draft)
    requires FacilitiesDiffer(nameKey, facilities) && DistinctIds(d.inventory) && DistinctEmails(d.inventory)
    requires AreCodes(env, facilities) && AreOrders(env) && IsFresh(env, facilities, d)
    requires again.inventory == d.inventory && again.mappings == d.mappings
    requires again.restricted == d.restricted && again.ambiguous == d.ambiguous && again.stale == d.stale
    ensures (forall m :: m in d.mappings ==> MappingOk(d.inventory, m)) && SourcesDiffer(d.mappings)
    ensures MatchesRebuilt(d, again) && NothingQuarantined(d, again) && StaleOk(d, again)
    ensures ListOk(env, d.inventory, d.unassigned, Ids(Outside(d.inventory, SelectedIds(d.mappings))))
    ensures ListOk(env, d.inventory, d.ambiguous, Ids(d.ambiguous))
    ensures ListOk(env, d.inventory, d.restricted, Ids(d.restricted))
  {
    assert DistinctFacilityIds(facilities);
    var rules := env.rulesFor(facilities);
    var matched := Matchable(rules, d.inventory);
    MatchableGroups(rules, d.inventory);
    FreshMappingsOk(rules, facilities, d.inventory);
    FreshSourcesDiffer(rules, facilities, d.inventory, matched);
    MappedFacilities(rules, matched, facilities);
    MatchesItself(d, again);
    FreshNothingQuarantined(env, rules, facilities, d, again);
    FreshStaleOk(env, rules, d, again);
    FreshListOk(env, d.inventory, RestrictedIds(rules, d.inventory));
    FreshListOk(env, d.inventory, AmbiguousIds(rules, d.inventory));
    FreshUnassignedOk(env, d.inventory, SelectedIds(d.mappings));
  }

  /** The checks that do not look at the counts of what was left out. */
  lemma OnlyCountsChange(env: Env, nameKey: string -> string, report: Draft, d: Draft, again: Draft)
    requires d == report.(omitted := d.omitted, groupCount := d.groupCount)
    requires again == Build(env, DraftedFacilities(d), d.inventory)
    requires again == d.(omitted := 0, groupCount := |d.inventory|)
    requires InventoryOk(d) && FacilitiesDiffer(nameKey, DraftedFacilities(d)) && d.facilityCount == |d.mappings|
    requires (forall m :: m in d.mappings ==> MappingOk(d.inventory, m)) && SourcesDiffer(d.mappings)
    requires MatchesRebuilt(report, again) && NothingQuarantined(report, again)
    requires Ranked(d.missing, env.idBefore) == MissingIds(env, d.mappings)
    requires Ranked(d.uncertain, env.idBefore) == UncertainIds(env, d.mappings)
    requires ListOk(env, d.inventory, d.unassigned, Ids(Outside(d.inventory, SelectedIds(d.mappings))))
    requires ListOk(env, d.inventory, d.ambiguous, Ids(d.ambiguous))
    requires ListOk(env, d.inventory, d.restricted, Ids(d.restricted))
    requires StaleOk(report, again) && WarningsOk(env, report, again)
    requires DraftedFacilities(report) == DraftedFacilities(d)
    requires d.groupCount == |d.inventory| + d.omitted && d.duplicates == []
    ensures Validates(env, nameKey, d)
  {
    hide Build, ListOk, Outside;
  }

  lemma EligibleDistinct(nameKey: string -> string, env: Env, facilities: seq<Facility>, groups: seq<Group>)
    requires AreDistinct(nameKey, facilities, groups)
    ensures var fs, gs := Ranked(facilities, env.facilityBefore), Ranked(groups, env.groupBefore);
            var eligible := Eligible(env.rulesFor(fs), gs);
            FacilitiesDiffer(nameKey, fs) && DistinctIds(gs) && DistinctIds(eligible) && DistinctEmails(eligible)
  {
    SortedDistinct(groups, env.groupBefore);
    SortedFacilitiesDiffer(nameKey, facilities, env.facilityBefore);
    OutsideDistinct(Ranked(groups, env.groupBefore),
                    ExcludedIds(env.rulesFor(Ranked(facilities, env.facilityBefore)), Ranked(groups, env.groupBefore)));
  }

  lemma ReportIs(env: Env, nameKey: string -> string, facilities: seq<Facility>, eligible: seq<Group>)
    requires FacilitiesDiffer(nameKey, facilities)
    ensures var d, rules := Report(env, facilities, eligible), env.rulesFor(facilities);
            && IsFresh(env, facilities, d) && d.facilityCount == |d.mappings|
            && d.missing == MissingIds(env, d.mappings) && d.uncertain == UncertainIds(env, d.mappings)
            && d.warnings == Warnings(rules, eligible, env.hintsFor(facilities))
            && d.restricted == Inside(eligible, RestrictedIds(rules, eligible))
            && d.ambiguous == Inside(eligible, AmbiguousIds(rules, eligible))
  {
    hide Warnings;
    var rules := env.rulesFor(facilities);
    RepairDoesNothing(env, rules, eligible, Matchable(rules, eligible), facilities);
  }

  lemma FreshCounts(env: Env, facilities: seq<Facility>, groups: seq<Group>)
    requires DistinctIds(groups) && DistinctEmails(groups)
    ensures var d := Build(env, facilities, groups); d.groupCount == |d.inventory| + d.omitted
  {
    hide Build;
    var sorted := Ranked(groups, env.groupBefore);
    SortedDistinct(groups, env.groupBefore);
    InsideDistinct(sorted, ExcludedIds(env.rulesFor(Ranked(facilities, env.facilityBefore)), sorted));
    CountsAddUpIff(env, facilities, groups);
  }
}
