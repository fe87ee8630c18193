/**
 The rules of the draft as the source has them (scripts/ops/groups-inventory-report.ts,
 scripts/ops/groups-inventory-classification.ts): scores with their reason codes, the contexts the alias
 index finds, and the comparators. They meet what the matching and the validator's theorem ask for.
 */
module SourceRules {
  import opened Wrappers
  import opened TopRanked
  import opened Facilities
  import opened FacilityIndex
  import opened BuildingMatches
  import opened BuildingDraft
  import opened DraftCheck
  import opened AliasPrefilter

  // ----- comparators -----

  function By<T(!new), K>(key: T -> K, before: (K, K) -> bool): (T, T) -> bool { (a, b) => before(key(a), key(b)) }

  /** `left || right` of two comparisons: the second decides where the first does not. */
  function Then<T(!new)>(first: (T, T) -> bool, second: (T, T) -> bool): (T, T) -> bool {
    (a, b) => first(a, b) || (!first(b, a) && second(a, b))
  }

  function Higher(): (int, int) -> bool { (a, b) => a > b }

  lemma ByIsOrder<T(!new), K(!new)>(key: T -> K, before: (K, K) -> bool)
    requires IsOrder(before)
    ensures IsOrder(By(key, before))
  {
  }

  lemma ThenIsOrder<T(!new)>(first: (T, T) -> bool, second: (T, T) -> bool)
    requires IsOrder(first) && IsOrder(second)
    ensures IsOrder(Then(first, second))
  {
  }

  // ----- the source's parts -----

  datatype Lookup = Lookup(contexts: seq<nat>, hasInactive: bool, overflow: bool)

  /** The tests that stay parameters are those of the population parser and the neighborhood hints. */
  datatype Source = Source(
    vocabulary: Vocabulary,
    textBefore: (string, string) -> bool,                // compareText
    lookup: (seq<Facility>, Group) -> Lookup,            // automaticFacilityContextsForGroup
    populated: (seq<Facility>, Group) -> bool,
    serializable: (seq<Facility>, Group) -> bool,
    restricted: (seq<Facility>, Group) -> bool,
    hasStaleMarker: (seq<Facility>, Group) -> bool,
    hasPriorYear: (seq<Facility>, Group) -> bool,
    neighborhoods: seq<Facility> -> seq<string>,
    skipped: seq<Facility> -> seq<string>)

  // ----- ratings -----

  function Unique(texts: seq<string>): seq<string> {
    if texts == [] then []
    else
      var front := Unique(texts[..|texts| - 1]);
      if texts[|texts| - 1] in front then front else front + [texts[|texts| - 1]]
  }

  lemma {:induction false} UniqueHasNoRepeats(texts: seq<string>)
    ensures NoRepeats(Unique(texts)) && forall t :: t in Unique(texts) <==> t in texts
  {
    if texts != [] {
      var front, last := texts[..|texts| - 1], texts[|texts| - 1];
      UniqueHasNoRepeats(front);
      assert forall t :: t in texts <==> t in front || t == last;
    }
  }

  /** `sortedUnique`. */
  function SortedUnique(texts: seq<string>, before: (string, string) -> bool): seq<string> {
    Ranked(Unique(texts), before)
  }

  lemma SortedUniqueHasNoRepeats(texts: seq<string>, before: (string, string) -> bool)
    ensures NoRepeats(SortedUnique(texts, before)) && forall t :: t in SortedUnique(texts, before) <==> t in texts
  {
    UniqueHasNoRepeats(texts);
    RankedKeepsAll(Unique(texts), before);
  }

  ghost function ReasonCodes(v: Vocabulary, f: Facility, g: Group): seq<string> {
    var tokens := DisplayTokens(v, g) + LocalTokens(v, g);
    IfWarning(HasExactCode(v, f, g), "EXACT_FACILITY_CODE")
    + IfWarning(HasExactStem(v, f, g), "EXACT_DISTINCTIVE_NAME_STEM")
    + IfWarning(IsWholeBuilding(v, f, g) && !HasExactCode(v, f, g) && !HasExactStem(v, f, g),
                "EXACT_FULLY_CONSUMED_FACILITY_IDENTITY")
    + IfWarning(IsBroadStaff(v, f, g), "BROAD_STAFF_MARKER")
    + IfWarning(HasAnyToken(tokens, v.narrow), "NARROW_ROLE_MARKER")
    + IfWarning(HasAnyToken(tokens, v.stale), "STALE_NAME_MARKER")
    + IfWarning(g.displayName.None?, "MISSING_GROUP_DISPLAY_NAME")
  }

  /** `scoreGroupForFacility`. */
  ghost function RatingOf(src: Source, f: Facility, g: Group): Rating {
    var v := src.vocabulary;
    Rating(Score(v, f, g), IsStrongEligible(v, f, g), SortedUnique(ReasonCodes(v, f, g), src.textBefore))
  }

  // ----- contexts -----

  ghost function CompactsOf(v: Vocabulary, facilities: seq<Facility>): seq<Facility> {
    Filter(facilities, f => IsCompact(v, f))
  }

  ghost function AliasLists(v: Vocabulary, compacts: seq<Facility>): seq<seq<string>> {
    seq(|compacts|, x requires 0 <= x < |compacts| => Aliases(v, compacts[x]))
  }

  /** What the capped lookup over the alias index returns for a group. */
  ghost predicate IsLookup(v: Vocabulary, compacts: seq<Facility>, g: Group, found: Lookup) {
    var aliases := AliasLists(v, compacts);
    && Distinct(found.contexts)
    && (forall x :: x in found.contexts ==> Found(aliases, v, g, x))
    && (!found.overflow ==> forall x: nat :: Found(aliases, v, g, x) ==> x in found.contexts)
    && (found.hasInactive <==> exists x: nat :: Found(aliases, v, g, x) && !compacts[x].active)
  }

  /** The index lookup is such a lookup. */
  method LookUp(v: Vocabulary, ghost compacts: seq<Facility>, index: map<string, Entry>, lengths: seq<nat>, g: Group,
                ghost active: seq<bool>)
    returns (found: Lookup)
    requires |active| == |compacts| && forall x :: 0 <= x < |active| ==> active[x] == compacts[x].active
    requires IsAliasIndex(index, AliasLists(v, compacts), active) && AreLengths(lengths, index)
    ensures IsLookup(v, compacts, g, found)
    ensures found.overflow <==> |set x: nat | x < |compacts| && Found(AliasLists(v, compacts), v, g, x)| > 64
  {
    hide Occurs, Aliases;
    ghost var aliases := AliasLists(v, compacts);
    var display, local := Join(DisplayTokens(v, g)), Join(LocalTokens(v, g));
    var contexts, hasInactive, overflow := AutomaticContexts(index, lengths, display, local, aliases, active);
    OccursInRange(aliases, display);
    OccursInRange(aliases, local);
    found := Lookup(contexts, hasInactive, overflow);
    assert forall x: nat :: Found(aliases, v, g, x) ==> IsActive(active, x) == compacts[x].active;
    assert (set x: nat | x < |compacts| && Found(aliases, v, g, x)) ==
           (set x: nat | x < |aliases| && (Occurs(aliases, x, display) || Occurs(aliases, x, local)));
  }

  /** The facilities at these positions. */
  function Pick(compacts: seq<Facility>, positions: seq<nat>): seq<Facility> {
    if positions == [] then []
    else
      var last := positions[|positions| - 1];
      Pick(compacts, positions[..|positions| - 1]) + if last < |compacts| then [compacts[last]] else []
  }

  predicate IsPicked(compacts: seq<Facility>, positions: seq<nat>, f: Facility) {
    exists x :: x in positions && x < |compacts| && compacts[x] == f
  }

  lemma {:induction false} PickedOnce(compacts: seq<Facility>, positions: seq<nat>)
    requires NoRepeats(compacts) && Distinct(positions)
    ensures NoRepeats(Pick(compacts, positions))
    ensures forall f :: f in Pick(compacts, positions) <==> IsPicked(compacts, positions, f)
  {
    if positions != [] {
      var front, last := positions[..|positions| - 1], positions[|positions| - 1];
      PickedOnce(compacts, front);
      assert last !in front && forall x :: x in positions <==> x in front || x == last;
      assert last < |compacts| ==> !IsPicked(compacts, front, compacts[last]);
    }
  }

  // ----- the rules and the environment -----

  function GroupBefore(src: Source): (Group, Group) -> bool {
    Then(By((g: Group) => g.email, src.textBefore), By((g: Group) => g.id, src.textBefore))
  }

  /** `compareScoredGroups`. */
  function ScoredGroupBefore(src: Source): (Scored, Scored) -> bool {
    Then(By((x: Scored) => x.rating.score, Higher()), By((x: Scored) => x.group, GroupBefore(src)))
  }

  /** `compareScoredFacilities`. */
  function ScoredFacilityBefore(src: Source): (Scored, Scored) -> bool {
    Then(By((x: Scored) => x.rating.score, Higher()), By((x: Scored) => x.facility.id, src.textBefore))
  }

  ghost function RulesOf(src: Source, facilities: seq<Facility>): Rules {
    Rules(
      (f, g) => RatingOf(src, f, g),
      g => Pick(CompactsOf(src.vocabulary, facilities), src.lookup(facilities, g).contexts),
      ScoredGroupBefore(src), ScoredFacilityBefore(src))
  }

  /** `staleSignalReasons`. */
  function StaleSignals(src: Source, facilities: seq<Facility>, g: Group): set<string> {
    (if src.hasStaleMarker(facilities, g) then {"GROUP_HAS_STALE_NAME_MARKER"} else {})
    + (if src.hasPriorYear(facilities, g) then {"GROUP_HAS_PRIOR_YEAR_MARKER"} else {})
  }

  /** `createNeighborhoodProposals`: it warns when it skipped a hint. */
  function HintsOf(src: Source, facilities: seq<Facility>): Hints {
    var skipped := src.skipped(facilities);
    Hints(src.neighborhoods(facilities), skipped, IfWarning(skipped != [], LIMIT_WARNING))
  }

  ghost function GroupRulesOf(src: Source, facilities: seq<Facility>): GroupRules {
    GroupRules(
      RulesOf(src, facilities),
      g => src.populated(facilities, g), g => src.serializable(facilities, g), g => src.restricted(facilities, g),
      g => StaleSignals(src, facilities, g), (f, g) => IsWholeBuilding(src.vocabulary, f, g),
      g => src.lookup(facilities, g).overflow, g => src.lookup(facilities, g).hasInactive)
  }

  ghost function EnvOf(src: Source): Env {
    Env(
      facilities => GroupRulesOf(src, facilities), facilities => HintsOf(src, facilities),
      Then(By((f: Facility) => f.code, src.textBefore), By((f: Facility) => f.id, src.textBefore)),
      GroupBefore(src), By((g: Group) => g.email, src.textBefore), src.textBefore)
  }

  /** The locale orders texts and tells any two apart, and the lookups are those of the alias index. */
  ghost predicate IsSource(src: Source) {
    && IsOrder(src.textBefore)
    && (forall a, b :: !src.textBefore(a, b) && !src.textBefore(b, a) ==> a == b)
    && (forall fs, g :: IsLookup(src.vocabulary, CompactsOf(src.vocabulary, fs), g, src.lookup(fs, g)))
  }

  // ----- they are orders, codes and ratings -----

  lemma HigherIsOrder()
    ensures IsOrder(Higher())
  {
  }

  lemma GroupBeforeIsOrder(src: Source)
    requires IsOrder(src.textBefore)
    ensures IsOrder(GroupBefore(src))
  {
    ByIsOrder((g: Group) => g.email, src.textBefore);
    ByIsOrder((g: Group) => g.id, src.textBefore);
    ThenIsOrder(By((g: Group) => g.email, src.textBefore), By((g: Group) => g.id, src.textBefore));
  }

  lemma ThenRanksByScore(second: (Scored, Scored) -> bool)
    requires IsOrder(second)
    ensures RankByScore(Then(By((x: Scored) => x.rating.score, Higher()), second))
  {
    var byScore := By((x: Scored) => x.rating.score, Higher());
    assert IsOrder(byScore) by {
      HigherIsOrder();
      ByIsOrder((x: Scored) => x.rating.score, Higher());
    }
    assert IsOrder(Then(byScore, second)) by {
      ThenIsOrder(byScore, second);
    }
  }

  lemma ScoredOrders(src: Source)
    requires IsOrder(src.textBefore)
    ensures RankByScore(ScoredGroupBefore(src)) && RankByScore(ScoredFacilityBefore(src))
  {
    GroupBeforeIsOrder(src);
    ByIsOrder((x: Scored) => x.group, GroupBefore(src));
    ThenRanksByScore(By((x: Scored) => x.group, GroupBefore(src)));
    ByIsOrder((x: Scored) => x.facility.id, src.textBefore);
    ThenRanksByScore(By((x: Scored) => x.facility.id, src.textBefore));
  }

  lemma SourceOrders(src: Source)
    requires IsSource(src)
    ensures AreOrders(EnvOf(src))
  {
    GroupBeforeIsOrder(src);
    ByIsOrder((f: Facility) => f.code, src.textBefore);
    ByIsOrder((f: Facility) => f.id, src.textBefore);
    ThenIsOrder(By((f: Facility) => f.code, src.textBefore), By((f: Facility) => f.id, src.textBefore));
    ByIsOrder((g: Group) => g.email, src.textBefore);
  }

  lemma {:induction false} FilterKeepsNoRepeats(facilities: seq<Facility>, keep: Facility -> bool)
    requires NoRepeats(facilities)
    ensures NoRepeats(Filter(facilities, keep))
  {
    if facilities != [] {
      var front, last := facilities[..|facilities| - 1], facilities[|facilities| - 1];
      FilterKeepsNoRepeats(front, keep);
      assert last !in front;
    }
  }

  /** The source's contexts are different facilities; without an overflow they are those an alias points to. */
  lemma ContextsOf(src: Source, facilities: seq<Facility>, g: Group)
    requires IsSource(src) && NoRepeats(facilities)
    ensures var contexts := RulesOf(src, facilities).contexts(g);
            && NoRepeats(contexts) && (forall f :: f in contexts ==> f in facilities)
            && (!src.lookup(facilities, g).overflow ==>
                  forall f :: f in contexts <==> f in facilities && IsContext(src.vocabulary, f, g))
  {
    var v := src.vocabulary;
    var compacts, found := CompactsOf(v, facilities), src.lookup(facilities, g);
    FilterKeepsNoRepeats(facilities, f => IsCompact(v, f));
    assert IsLookup(v, compacts, g, found);
    PickedOnce(compacts, found.contexts);
    forall f
      ensures IsPicked(compacts, found.contexts, f) && !found.overflow ==> IsContext(v, f, g)
      ensures f in facilities && IsContext(v, f, g) && !found.overflow ==> IsPicked(compacts, found.contexts, f)
    {
      PickedIsContext(v, facilities, g, found, f);
    }
  }

  lemma PickedIsContext(v: Vocabulary, facilities: seq<Facility>, g: Group, found: Lookup, f: Facility)
    requires IsLookup(v, CompactsOf(v, facilities), g, found)
    ensures IsPicked(CompactsOf(v, facilities), found.contexts, f) ==> IsContext(v, f, g)
    ensures f in facilities && IsContext(v, f, g) && !found.overflow ==>
              IsPicked(CompactsOf(v, facilities), found.contexts, f)
  {
    hide IsCompact, Aliases;
    var compacts := CompactsOf(v, facilities);
    var aliases := AliasLists(v, compacts);
    forall x: nat | x < |compacts|
      ensures Found(aliases, v, g, x) <==> IsContext(v, compacts[x], g)
    {
      OccursIsContext(v, compacts, aliases, g, x);
    }
    if f in facilities && IsContext(v, f, g) {
      ContextHasAliases(v, f, g);
      AliasesAreCompact(v, f);
      assert f in compacts;
      var x :| 0 <= x < |compacts| && compacts[x] == f;
      assert Found(aliases, v, g, x);
    }
  }

  lemma ContextHasAliases(v: Vocabulary, f: Facility, g: Group)
    requires IsContext(v, f, g)
    ensures Aliases(v, f) != []
  {
  }

  lemma SourceAreRatings(src: Source, facilities: seq<Facility>)
    requires IsSource(src) && NoRepeats(facilities)
    ensures AreRatings(RulesOf(src, facilities), facilities)
  {
    hide Score, IsStrongEligible, ReasonCodes;
    var r := RulesOf(src, facilities);
    assert RankByScore(r.groupBefore) by {
      IsSourceOrders(src);
      ScoredOrders(src);
    }
    forall f, g
      ensures r.rate(f, g).score <= MAX_SCORE && NoRepeats(r.rate(f, g).reasons)
    {
      ScoreGap(src.vocabulary, f, g);
      SortedUniqueHasNoRepeats(ReasonCodes(src.vocabulary, f, g), src.textBefore);
    }
    forall g
      ensures NoRepeats(r.contexts(g)) && forall f :: f in r.contexts(g) ==> f in facilities
    {
      ContextsOf(src, facilities, g);
    }
  }

  lemma IsSourceOrders(src: Source)
    requires IsSource(src)
    ensures IsOrder(src.textBefore)
  {
  }

  lemma SourceAreCodes(src: Source, facilities: seq<Facility>)
    requires IsSource(src) && NoRepeats(facilities)
    ensures AreCodes(EnvOf(src), facilities)
  {
    hide RulesOf;
    SourceAreRatings(src, facilities);
  }

  // ----- the theorems, for the source's own rules -----

  lemma DifferentFacilities(nameKey: string -> string, facilities: seq<Facility>)
    requires FacilitiesDiffer(nameKey, facilities)
    ensures NoRepeats(facilities) && forall f, h :: f in facilities && h in facilities && f.id == h.id ==> f == h
  {
  }

  /** Whatever the source drafts of different facilities and different groups passes its own validator. */
  lemma SourceDraftValidates(src: Source, nameKey: string -> string, facilities: seq<Facility>, groups: seq<Group>)
    requires IsSource(src) && AreDistinct(nameKey, facilities, groups)
    ensures Validates(EnvOf(src), nameKey, Build(EnvOf(src), facilities, groups))
  {
    hide IsSource, EnvOf, AreCodes, Build, Validates;
    var env := EnvOf(src);
    SourceOrders(src);
    SortedFacilitiesDiffer(nameKey, facilities, env.facilityBefore);
    DifferentFacilities(nameKey, Ranked(facilities, env.facilityBefore));
    SourceAreCodes(src, Ranked(facilities, env.facilityBefore));
    FreshDraftValidates(env, nameKey, facilities, groups);
  }

  /**
   The group's score for the facility is at least 110, and 30 above that of any other group and any
   other facility.
   */
  ghost predicate IsBestMatch(v: Vocabulary, facilities: seq<Facility>, groups: seq<Group>, f: Facility, g: Group) {
    && f.active && g in groups && Score(v, f, g) >= 110 && IsStrongEligible(v, f, g)
    && (forall h :: h in groups && h != g ==> Score(v, f, g) - Score(v, f, h) >= 30)
    && (forall e :: e in facilities && e != f ==> Score(v, f, g) - Score(v, e, g) >= 30)
  }

  lemma MatchableScores(src: Source, facilities: seq<Facility>, eligible: seq<Group>)
    requires IsSource(src) && NoRepeats(facilities)
    ensures AreScores(src.vocabulary, RulesOf(src, facilities), facilities,
                      Matchable(GroupRulesOf(src, facilities), eligible))
  {
    var rules := GroupRulesOf(src, facilities);
    forall g | g in Matchable(rules, eligible)
      ensures NoRepeats(rules.matching.contexts(g))
      ensures forall f :: f in rules.matching.contexts(g) <==> f in facilities && IsContext(src.vocabulary, f, g)
    {
      assert IsMatchable(rules, eligible, g);
      ContextsOf(src, facilities, g);
    }
  }

  lemma MatchableAreKeyed(rules: GroupRules, facilities: seq<Facility>, eligible: seq<Group>)
    requires DistinctIds(eligible) && DistinctEmails(eligible) && NoRepeats(facilities)
    requires forall f, h :: f in facilities && h in facilities && f.id == h.id ==> f == h
    ensures AreKeyed(facilities, Matchable(rules, eligible))
  {
    hide IsMatchable;
    FilterDistinct(eligible, MatchableIn(rules, eligible));
  }

  lemma MappingIsBestMatch(src: Source, facilities: seq<Facility>, eligible: seq<Group>, f: Facility, g: Group)
    requires IsSource(src) && NoRepeats(facilities) && DistinctIds(eligible) && DistinctEmails(eligible)
    requires forall e, h :: e in facilities && h in facilities && e.id == h.id ==> e == h
    requires f in facilities
    ensures var matched := Matchable(GroupRulesOf(src, facilities), eligible);
            MappingOf(GroupRulesOf(src, facilities), matched, f).source == Some(g) <==>
              IsBestMatch(src.vocabulary, facilities, matched, f, g)
  {
    hide AreKeyed, AreScores, BestOfFacility, BestByGroup, Proposal;
    hide Matchable;
    var rules, v := GroupRulesOf(src, facilities), src.vocabulary;
    var matched := Matchable(rules, eligible);
    MatchableScores(src, facilities, eligible);
    MatchableAreKeyed(rules, facilities, eligible);
    IsSourceOrders(src);
    ScoredOrders(src);
    var best := map[f.id := BestOfFacility(rules.matching, matched, f.id)];
    StrongCandidateByScore(v, rules.matching, facilities, matched, best, f, g);
  }

  /**
   Which group the source's draft proposes for a facility, told by the scores of all its matchable groups
   and all facilities: no index, no cap and no kept front is left in the statement.
   */
  lemma SourceProposesBestMatch(src: Source, nameKey: string -> string, facilities: seq<Facility>, groups: seq<Group>,
                                m: Mapping, g: Group)
    requires IsSource(src) && AreDistinct(nameKey, facilities, groups)
    requires m in Build(EnvOf(src), facilities, groups).mappings
    ensures var sorted := Ranked(facilities, EnvOf(src).facilityBefore);
            var matched := Matchable(GroupRulesOf(src, sorted), Build(EnvOf(src), facilities, groups).inventory);
            && m.facility in facilities
            && (m.source == Some(g) <==> IsBestMatch(src.vocabulary, facilities, matched, m.facility, g))
  {
    var env := EnvOf(src);
    var fs, gs := Ranked(facilities, env.facilityBefore), Ranked(groups, env.groupBefore);
    var rules := env.rulesFor(fs);
    var eligible := Eligible(rules, gs);
    EligibleDistinct(nameKey, env, facilities, groups);
    DifferentFacilities(nameKey, fs);
    RankedKeepsAll(facilities, env.facilityBefore);
    RepairDoesNothing(env, rules, eligible, Matchable(rules, eligible), fs);
    var i :| 0 <= i < |fs| && m == MappingOf(rules, Matchable(rules, eligible), fs[i]);
    MappingFacts(rules, Matchable(rules, eligible), fs[i]);
    MappingIsBestMatch(src, fs, eligible, fs[i], g);
    SameBestMatch(src.vocabulary, facilities, fs, Matchable(rules, eligible), fs[i], g);
  }

  lemma SameBestMatch(v: Vocabulary, facilities: seq<Facility>, sorted: seq<Facility>, groups: seq<Group>, f: Facility,
                      g: Group)
    requires forall e :: e in facilities <==> e in sorted
    ensures IsBestMatch(v, facilities, groups, f, g) <==> IsBestMatch(v, sorted, groups, f, g)
  {
    hide Score, IsStrongEligible;
  }
}
