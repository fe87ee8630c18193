/**
 What the source's own draft says (scripts/ops/groups-inventory-report.ts), without index, cap or
 context list: in terms of which aliases stand in a group's name and what the group scores.
 */
module SourceDrafts {
  import opened Wrappers
  import opened TopRanked
  import opened Facilities
  import opened BuildingDraft
  import opened DraftCheck
  import opened DraftMeaning
  import opened DraftRebuild
  import opened AliasPrefilter
  import opened SourceRules

  /** The sorted facilities that every test of a draft is given. */
  function SortedFacilities(src: Source, facilities: seq<Facility>): seq<Facility> {
    Ranked(facilities, Then(By((f: Facility) => f.code, src.textBefore), By((f: Facility) => f.id, src.textBefore)))
  }

  lemma SortedDiffer(src: Source, nameKey: string -> string, facilities: seq<Facility>)
    requires FacilitiesDiffer(nameKey, facilities)
    ensures var fs := SortedFacilities(src, facilities);
            && NoRepeats(fs) && DistinctFacilityIds(fs) && (forall f :: f in fs <==> f in facilities)
  {
    var before := Then(By((f: Facility) => f.code, src.textBefore), By((f: Facility) => f.id, src.textBefore));
    SortedFacilitiesDiffer(nameKey, facilities, before);
    DifferentFacilities(nameKey, SortedFacilities(src, facilities));
    RankedKeepsAll(facilities, before);
  }

  /** A facility that the group's name points to and does not name as a whole. */
  ghost predicate PointsElsewhere(v: Vocabulary, facilities: seq<Facility>, g: Group) {
    exists f :: f in facilities && IsContext(v, f, g) && !IsWholeBuilding(v, f, g)
  }

  lemma ScatteredIff(src: Source, fs: seq<Facility>, g: Group)
    requires IsSource(src) && NoRepeats(fs)
    ensures IsScattered(GroupRulesOf(src, fs), g) <==>
              src.lookup(fs, g).overflow || PointsElsewhere(src.vocabulary, fs, g)
  {
    hide IsContext, IsWholeBuilding, IsSource;
    ContextsOf(src, fs, g);
    var rules := GroupRulesOf(src, fs);
    if !src.lookup(fs, g).overflow {
      if PointsElsewhere(src.vocabulary, fs, g) {
        var f :| f in fs && IsContext(src.vocabulary, f, g) && !IsWholeBuilding(src.vocabulary, f, g);
        assert f in rules.matching.contexts(g) && !rules.whole(f, g);
      }
    }
  }

  /** A closed facility that the group's name points to, among too many or with 90 points. */
  ghost predicate PointsToClosed(v: Vocabulary, facilities: seq<Facility>, g: Group, overflow: bool) {
    exists f :: f in facilities && !f.active && IsContext(v, f, g) && (overflow || Score(v, f, g) >= 90)
  }

  lemma HasInactiveIff(src: Source, fs: seq<Facility>, g: Group)
    requires IsSource(src)
    ensures src.lookup(fs, g).hasInactive <==>
              exists f :: f in fs && !f.active && IsContext(src.vocabulary, f, g)
  {
    hide IsCompact, Aliases, Includes;
    var v, found := src.vocabulary, src.lookup(fs, g);
    var compacts := CompactsOf(v, fs);
    var aliases := AliasLists(v, compacts);
    assert IsLookup(v, compacts, g, found);
    forall x: nat | x < |compacts|
      ensures Found(aliases, v, g, x) <==> IsContext(v, compacts[x], g)
    {
      OccursIsContext(v, compacts, aliases, g, x);
    }
    if found.hasInactive {
      var x: nat :| Found(aliases, v, g, x) && !compacts[x].active;
      assert compacts[x] in compacts;
    }
    if f :| f in fs && !f.active && IsContext(v, f, g) {
      ContextHasAliases(v, f, g);
      AliasesAreCompact(v, f);
      assert f in compacts;
      var x :| 0 <= x < |compacts| && compacts[x] == f;
      assert Found(aliases, v, g, x);
    }
  }

  lemma NamesClosedIff(src: Source, fs: seq<Facility>, g: Group)
    requires IsSource(src) && NoRepeats(fs)
    ensures NamesClosed(GroupRulesOf(src, fs), g) <==>
              PointsToClosed(src.vocabulary, fs, g, src.lookup(fs, g).overflow)
  {
    hide IsContext, Score, IsSource, IsStrongEligible, ReasonCodes;
    var v, rules := src.vocabulary, GroupRulesOf(src, fs);
    ContextsOf(src, fs, g);
    HasInactiveIff(src, fs, g);
    forall f | Score(v, f, g) >= 90
      ensures IsContext(v, f, g)
    {
      ScoredFacilitiesAreContexts(v, f, g);
    }
    if PointsToClosed(v, fs, g, src.lookup(fs, g).overflow) && !src.lookup(fs, g).overflow {
      var f :| f in fs && !f.active && IsContext(v, f, g) && Score(v, f, g) >= 90;
      assert f in rules.matching.contexts(g) && rules.matching.rate(f, g).score >= 90;
    }
  }

  /** Which groups the source drafts, and which of them it reports as restricted, ambiguous and matchable. */
  lemma SourceListsIff(src: Source, nameKey: string -> string, facilities: seq<Facility>, groups: seq<Group>, g: Group)
    requires IsSource(src) && AreDistinct(nameKey, facilities, groups)
    ensures var d, fs := Build(EnvOf(src), facilities, groups), SortedFacilities(src, facilities);
            var heldBack := src.restricted(fs, g) || src.hasStaleMarker(fs, g) || src.hasPriorYear(fs, g);
            var scattered := src.lookup(fs, g).overflow || PointsElsewhere(src.vocabulary, facilities, g);
            && (g in d.inventory <==> g in groups && src.serializable(fs, g) && !src.populated(fs, g))
            && (g in d.restricted <==> g in d.inventory && src.restricted(fs, g))
            && (g in d.ambiguous <==> g in d.inventory && !heldBack && scattered)
            && (g in Matchable(GroupRulesOf(src, fs), d.inventory) <==> g in d.inventory && !heldBack && !scattered)
  {
    hide Build, IsSource, IsScattered, IsContext, IsWholeBuilding, Matchable;
    var env, fs := EnvOf(src), SortedFacilities(src, facilities);
    assert Ranked(facilities, env.facilityBefore) == fs;
    SortedDiffer(src, nameKey, facilities);
    InventoryIff(env, nameKey, facilities, groups, g);
    ListedIff(env, nameKey, facilities, groups, g);
    ScatteredIff(src, fs, g);
    HeldBackIff(src, fs, g);
    assert PointsElsewhere(src.vocabulary, fs, g) <==> PointsElsewhere(src.vocabulary, facilities, g);
  }

  lemma HeldBackIff(src: Source, fs: seq<Facility>, g: Group)
    ensures IsHeldBack(GroupRulesOf(src, fs), g) <==>
              src.restricted(fs, g) || src.hasStaleMarker(fs, g) || src.hasPriorYear(fs, g)
    ensures GroupRulesOf(src, fs).staleReasons(g) != {} <==> src.hasStaleMarker(fs, g) || src.hasPriorYear(fs, g)
  {
    if src.hasStaleMarker(fs, g) {
      assert "GROUP_HAS_STALE_NAME_MARKER" in StaleSignals(src, fs, g);
    }
    if src.hasPriorYear(fs, g) {
      assert "GROUP_HAS_PRIOR_YEAR_MARKER" in StaleSignals(src, fs, g);
    }
  }

  /** Which groups the source reports as perhaps stale, and for what. */
  lemma SourceStaleIff(src: Source, nameKey: string -> string, facilities: seq<Facility>, groups: seq<Group>,
                       e: StaleEntry)
    requires IsSource(src) && AreDistinct(nameKey, facilities, groups)
    ensures var d, fs, g := Build(EnvOf(src), facilities, groups), SortedFacilities(src, facilities), e.group;
            var closed := PointsToClosed(src.vocabulary, facilities, g, src.lookup(fs, g).overflow);
            e in d.stale <==>
              && g in d.inventory && (src.hasStaleMarker(fs, g) || src.hasPriorYear(fs, g) || closed)
              && e.reasons == (if src.hasStaleMarker(fs, g) then {"GROUP_HAS_STALE_NAME_MARKER"} else {})
                              + (if src.hasPriorYear(fs, g) then {"GROUP_HAS_PRIOR_YEAR_MARKER"} else {})
                              + (if closed then {"GROUP_MATCHES_INACTIVE_FACILITY"} else {})
                              + {"HEURISTIC_NOT_STALENESS_PROOF"}
  {
    hide Build, IsSource, NamesClosed, IsContext, Score;
    var env, fs := EnvOf(src), SortedFacilities(src, facilities);
    assert Ranked(facilities, env.facilityBefore) == fs;
    SortedDiffer(src, nameKey, facilities);
    StaleIff(env, nameKey, facilities, groups, e);
    NamesClosedIff(src, fs, e.group);
    HeldBackIff(src, fs, e.group);
    var overflow := src.lookup(fs, e.group).overflow;
    assert PointsToClosed(src.vocabulary, fs, e.group, overflow) <==>
           PointsToClosed(src.vocabulary, facilities, e.group, overflow);
  }

  /** A matchable group scores for a facility exactly if it has 90 points for it: no context is left out. */
  lemma SourceOffersIff(src: Source, fs: seq<Facility>, eligible: seq<Group>, f: Facility, g: Group)
    requires IsSource(src) && NoRepeats(fs) && f in fs && g in Matchable(GroupRulesOf(src, fs), eligible)
    ensures Scores(RulesOf(src, fs), f, g) <==> Score(src.vocabulary, f, g) >= 90
  {
    hide IsContext, Score, IsSource, IsStrongEligible, ReasonCodes;
    var rules := GroupRulesOf(src, fs);
    assert IsMatchable(rules, eligible, g);
    ContextsOf(src, fs, g);
    ScoredFacilitiesAreContexts(src.vocabulary, f, g);
  }

  /** The facilities the source reports as missing: the active ones for which no matchable group has 90 points. */
  lemma SourceMissingIff(src: Source, nameKey: string -> string, facilities: seq<Facility>, groups: seq<Group>,
                         f: Facility)
    requires IsSource(src) && AreDistinct(nameKey, facilities, groups) && f in facilities
    ensures var d, fs := Build(EnvOf(src), facilities, groups), SortedFacilities(src, facilities);
            var matched := Matchable(GroupRulesOf(src, fs), d.inventory);
            && (f.id in d.missing <==> f.active && forall g :: g in matched ==> Score(src.vocabulary, f, g) < 90)
            && (f.id in d.uncertain <==>
                  && (exists g :: g in matched && Score(src.vocabulary, f, g) >= 90)
                  && !(exists g :: IsBestMatch(src.vocabulary, facilities, matched, f, g)))
  {
    hide Build, IsSource, Score, Scores, MappingOf, Matchable, IsBestMatch, AreRatings, DistinctFacilityIds, RulesOf;
    var env, fs := EnvOf(src), SortedFacilities(src, facilities);
    assert Ranked(facilities, env.facilityBefore) == fs;
    SortedDiffer(src, nameKey, facilities);
    SourceAreRatings(src, fs);
    ReportedIff(env, nameKey, facilities, groups, f);
    var d, rules := Build(env, facilities, groups), GroupRulesOf(src, fs);
    var matched := Matchable(rules, d.inventory);
    var m := MappingOf(rules, matched, f);
    CandidatesAreBest(rules, fs, matched, f);
    MappingFacts(rules, matched, f);
    forall g | g in matched
      ensures Scores(RulesOf(src, fs), f, g) <==> Score(src.vocabulary, f, g) >= 90
    {
      SourceOffersIff(src, fs, d.inventory, f, g);
    }
    AnyCandidate(rules, matched, f, m.assessment.candidates);
    forall g
      ensures m.source == Some(g) <==> IsBestMatch(src.vocabulary, facilities, matched, f, g)
    {
      SourceProposesBestMatch(src, nameKey, facilities, groups, m, g);
    }
  }

  /** The candidates are none exactly if no group scores. */
  lemma AnyCandidate(rules: GroupRules, matched: seq<Group>, f: Facility, kept: seq<Candidate>)
    requires forall c :: c in kept ==> c.group in matched && IsOffer(rules.matching, f, c)
    requires forall g :: g in matched && Scores(rules.matching, f, g) ==>
               (exists c :: c in kept && c.group == g) || |kept| == 3
    ensures kept == [] <==> forall g :: g in matched ==> !Scores(rules.matching, f, g)
  {
    hide Scores;
    if kept != [] {
      assert kept[0] in kept;
    }
  }

  /** The source's validator accepts exactly the drafts that are their own rebuild up to order. */
  lemma SourceAcceptsIff(src: Source, nameKey: string -> string, d: Draft)
    requires IsSource(src)
    ensures Validates(EnvOf(src), nameKey, d) <==> IsOwnRebuild(EnvOf(src), nameKey, d)
  {
    hide IsSource, EnvOf, AreCodes, Build, ReportOk, NothingQuarantined, MappingOk, SourcesDiffer, MatchesRebuilt;
    hide SaysTheSame, LimitAgrees;
    var env, facilities := EnvOf(src), DraftedFacilities(d);
    if FacilitiesDiffer(nameKey, facilities) {
      SourceOrders(src);
      SortedFacilitiesDiffer(nameKey, facilities, env.facilityBefore);
      DifferentFacilities(nameKey, Ranked(facilities, env.facilityBefore));
      SourceAreCodes(src, Ranked(facilities, env.facilityBefore));
      ValidatesIffOwnRebuild(env, nameKey, d);
    }
  }
}
