/**
 What a draft of different facilities and different groups says of each group and each facility
 (`buildDraft`, scripts/ops/groups-inventory-report.ts), told by the tests on that group alone: who is
 drafted, who is held back and why, who is offered to a facility, and what is reported of it.
 */
module DraftMeaning {
  import opened Wrappers
  import opened TopRanked
  import opened Facilities
  import opened BuildingMatches
  import opened BuildingDraft
  import opened DraftCheck

  // ----- the tests on one group -----

  /** A staff group with an identity that can be written down, of no population. */
  predicate IsKept(rules: GroupRules, g: Group) { rules.serializable(g) && !rules.populated(g) }

  predicate IsHeldBack(rules: GroupRules, g: Group) { rules.restricted(g) || rules.staleReasons(g) != {} }

  /** Its name points to too many facilities, or to one it does not name as a whole. */
  predicate IsScattered(rules: GroupRules, g: Group) {
    rules.overflow(g) || exists f :: f in rules.matching.contexts(g) && !rules.whole(f, g)
  }

  predicate CanMatch(rules: GroupRules, g: Group) { !IsHeldBack(rules, g) && !IsScattered(rules, g) }

  /** A closed facility scores for it, or is among the too many that its name points to. */
  predicate NamesClosed(rules: GroupRules, g: Group) {
    || (rules.overflow(g) && rules.hasInactive(g))
    || (exists f :: f in rules.matching.contexts(g) && !f.active && rules.matching.rate(f, g).score >= 90)
  }

  /** What is reported of a group that may be stale. */
  function ReportedReasons(rules: GroupRules, g: Group): set<string> {
    rules.staleReasons(g) + (if NamesClosed(rules, g) then {"GROUP_MATCHES_INACTIVE_FACILITY"} else {})
    + {"HEURISTIC_NOT_STALENESS_PROOF"}
  }

  // ----- the lists by identifier are lists of groups -----

  lemma RestrictedById(rules: GroupRules, eligible: seq<Group>, g: Group)
    requires DistinctIds(eligible) && g in eligible
    ensures g.id in RestrictedIds(rules, eligible) <==> rules.restricted(g)
  {
    if g.id in RestrictedIds(rules, eligible) {
      var h :| h in eligible && rules.restricted(h) && h.id == g.id;
      OneGroup(eligible, g, h);
    }
  }

  lemma StaleById(rules: GroupRules, eligible: seq<Group>, g: Group)
    requires DistinctIds(eligible) && g in eligible
    ensures StaleReasons(rules, eligible, g.id) == rules.staleReasons(g)
    ensures g.id in StaleIds(rules, eligible) <==> rules.staleReasons(g) != {}
  {
    LastOfDistinct(eligible, g);
  }

  lemma HeldBackById(rules: GroupRules, eligible: seq<Group>, g: Group)
    requires DistinctIds(eligible) && g in eligible
    ensures IsQuarantined(rules, eligible, g) <==> IsHeldBack(rules, g)
    ensures IsMatchable(rules, eligible, g) <==> CanMatch(rules, g)
    ensures HasAmbiguousScope(rules, eligible, g) <==> !IsHeldBack(rules, g) && IsScattered(rules, g)
  {
    hide RestrictedIds, StaleIds;
    RestrictedById(rules, eligible, g);
    StaleById(rules, eligible, g);
  }

  lemma AmbiguousById(rules: GroupRules, eligible: seq<Group>, g: Group)
    requires DistinctIds(eligible) && g in eligible
    ensures g.id in AmbiguousIds(rules, eligible) <==> !IsHeldBack(rules, g) && IsScattered(rules, g)
  {
    hide HasAmbiguousScope, IsHeldBack, IsScattered;
    HeldBackById(rules, eligible, g);
    if g.id in AmbiguousIds(rules, eligible) {
      var h :| h in eligible && HasAmbiguousScope(rules, eligible, h) && h.id == g.id;
      OneGroup(eligible, g, h);
    }
  }

  lemma MatchesClosed(rules: GroupRules, eligible: seq<Group>, g: Group)
    requires DistinctIds(eligible) && g in eligible
    ensures MatchesInactive(rules, eligible, g) <==> NamesClosed(rules, g)
  {
    hide IsMatchable;
    HeldBackById(rules, eligible, g);
  }

  lemma ClosedById(rules: GroupRules, eligible: seq<Group>, g: Group)
    requires DistinctIds(eligible) && g in eligible
    ensures g.id in InactiveIds(rules, eligible) <==> NamesClosed(rules, g)
    ensures SignalsOf(rules, eligible, g) + {NO_PROOF_REASON} == ReportedReasons(rules, g)
    ensures SignalsOf(rules, eligible, g) != {} <==> rules.staleReasons(g) != {} || NamesClosed(rules, g)
  {
    hide MatchesInactive, NamesClosed;
    MatchesClosed(rules, eligible, g);
    StaleById(rules, eligible, g);
    if g.id in InactiveIds(rules, eligible) {
      var h :| h in eligible && MatchesInactive(rules, eligible, h) && h.id == g.id;
      OneGroup(eligible, g, h);
    }
  }

  // ----- who is listed where -----

  lemma EligibleIff(rules: GroupRules, groups: seq<Group>, g: Group)
    requires DistinctIds(groups)
    ensures g in Eligible(rules, groups) <==> g in groups && IsKept(rules, g)
  {
    if g in groups {
      LastOfDistinct(groups, g);
      if g.id in ExcludedIds(rules, groups) {
        var h :| h in groups && IsExcluded(rules, groups, h) && h.id == g.id;
        OneGroup(groups, g, h);
      }
    }
  }

  /** Everything a draft of these groups is made from, and that its parts are. */
  lemma PartsOfDraft(env: Env, nameKey: string -> string, facilities: seq<Facility>, groups: seq<Group>)
    requires AreDistinct(nameKey, facilities, groups)
    ensures var d, fs := Build(env, facilities, groups), Ranked(facilities, env.facilityBefore);
            && DistinctIds(d.inventory) && DistinctEmails(d.inventory)
            && d.inventory == Eligible(env.rulesFor(fs), Ranked(groups, env.groupBefore))
            && FacilitiesDiffer(nameKey, fs) && DistinctFacilityIds(fs) && IsFresh(env, fs, d)
            && d.missing == MissingIds(env, d.mappings) && d.uncertain == UncertainIds(env, d.mappings)
  {
    hide IsFresh, Eligible, MissingIds, UncertainIds;
    var fs, gs := Ranked(facilities, env.facilityBefore), Ranked(groups, env.groupBefore);
    var eligible := Eligible(env.rulesFor(fs), gs);
    EligibleDistinct(nameKey, env, facilities, groups);
    ReportKeeps(env, fs, eligible);
    ReportIs(env, nameKey, fs, eligible);
    FreshOfReport(env, fs, Report(env, fs, eligible), Build(env, facilities, groups));
  }

  lemma FreshOfReport(env: Env, facilities: seq<Facility>, report: Draft, d: Draft)
    requires IsFresh(env, facilities, report) && d == report.(omitted := d.omitted, groupCount := d.groupCount)
    ensures IsFresh(env, facilities, d)
  {
  }

  /** A group is drafted exactly if it was given, can be written down and is of no population. */
  lemma InventoryIff(env: Env, nameKey: string -> string, facilities: seq<Facility>, groups: seq<Group>, g: Group)
    requires AreDistinct(nameKey, facilities, groups)
    ensures var rules := env.rulesFor(Ranked(facilities, env.facilityBefore));
            g in Build(env, facilities, groups).inventory <==> g in groups && IsKept(rules, g)
  {
    hide Build, Eligible, IsKept;
    PartsOfDraft(env, nameKey, facilities, groups);
    SortedDistinct(groups, env.groupBefore);
    RankedKeepsAll(groups, env.groupBefore);
    EligibleIff(env.rulesFor(Ranked(facilities, env.facilityBefore)), Ranked(groups, env.groupBefore), g);
  }

  /** Which drafted groups are reported as restricted, as ambiguous, and as unassigned. */
  lemma ListedIff(env: Env, nameKey: string -> string, facilities: seq<Facility>, groups: seq<Group>, g: Group)
    requires AreDistinct(nameKey, facilities, groups)
    ensures var d, rules := Build(env, facilities, groups), env.rulesFor(Ranked(facilities, env.facilityBefore));
            && (g in d.restricted <==> g in d.inventory && rules.restricted(g))
            && (g in d.ambiguous <==> g in d.inventory && !IsHeldBack(rules, g) && IsScattered(rules, g))
            && (g in Matchable(rules, d.inventory) <==> g in d.inventory && CanMatch(rules, g))
            && (g in d.unassigned <==> g in d.inventory && forall m :: m in d.mappings ==> m.source != Some(g))
  {
    hide Build, Eligible, IsHeldBack, IsScattered, RestrictedIds, AmbiguousIds, IsMatchable, MappingsOf;
    PartsOfDraft(env, nameKey, facilities, groups);
    var d, fs := Build(env, facilities, groups), Ranked(facilities, env.facilityBefore);
    var rules := env.rulesFor(fs);
    MatchableGroups(rules, d.inventory);
    RankedKeepsAll(Outside(d.inventory, SelectedIds(d.mappings)), env.emailBefore);
    if g in d.inventory {
      RestrictedById(rules, d.inventory, g);
      AmbiguousById(rules, d.inventory, g);
      HeldBackById(rules, d.inventory, g);
      SelectedIff(rules, fs, d, g);
    }
  }

  lemma SelectedIff(rules: GroupRules, facilities: seq<Facility>, d: Draft, g: Group)
    requires DistinctIds(d.inventory) && g in d.inventory
    requires d.mappings == MappingsOf(rules, Matchable(rules, d.inventory), facilities)
    ensures g.id in SelectedIds(d.mappings) <==> exists m :: m in d.mappings && m.source == Some(g)
  {
    hide MappingOf;
    if m :| m in d.mappings && m.source.Some? && m.source.value.id == g.id {
      var i :| 0 <= i < |facilities| && m == MappingOf(rules, Matchable(rules, d.inventory), facilities[i]);
      MappingFacts(rules, Matchable(rules, d.inventory), facilities[i]);
      OneGroup(d.inventory, g, m.source.value);
    }
  }

  /** Which drafted groups may be stale, and what is reported of each. */
  lemma StaleIff(env: Env, nameKey: string -> string, facilities: seq<Facility>, groups: seq<Group>, e: StaleEntry)
    requires AreDistinct(nameKey, facilities, groups)
    ensures var d, rules := Build(env, facilities, groups), env.rulesFor(Ranked(facilities, env.facilityBefore));
            e in d.stale <==>
              && e.group in d.inventory && (rules.staleReasons(e.group) != {} || NamesClosed(rules, e.group))
              && e.reasons == ReportedReasons(rules, e.group)
  {
    hide Build, Eligible, NamesClosed, ReportedReasons, SignalsOf, StaleEntries;
    PartsOfDraft(env, nameKey, facilities, groups);
    var d, fs := Build(env, facilities, groups), Ranked(facilities, env.facilityBefore);
    var rules := env.rulesFor(fs);
    var before := (a: StaleEntry, b: StaleEntry) => env.emailBefore(a.group, b.group);
    assert d.stale == Ranked(StaleEntries(rules, d.inventory, |d.inventory|), before);
    RankedKeepsAll(StaleEntries(rules, d.inventory, |d.inventory|), before);
    InStaleEntries(rules, d.inventory, |d.inventory|, e);
    assert d.inventory[..|d.inventory|] == d.inventory;
    if e.group in d.inventory {
      ClosedById(rules, d.inventory, e.group);
    }
  }

  lemma {:induction false} InStaleEntries(rules: GroupRules, eligible: seq<Group>, n: nat, e: StaleEntry)
    requires n <= |eligible| && DistinctIds(eligible)
    ensures e in StaleEntries(rules, eligible, n) <==>
              && e.group in eligible[..n] && SignalsOf(rules, eligible, e.group) != {}
              && e.reasons == SignalsOf(rules, eligible, e.group) + {NO_PROOF_REASON}
  {
    hide SignalsOf;
    if n > 0 {
      InStaleEntries(rules, eligible, n - 1, e);
      StaleFacts(rules, eligible, n - 1);
      var before, g := StaleEntries(rules, eligible, n - 1), eligible[n - 1];
      forall x | x in before
        ensures x.group.id != g.id
      {
        var i :| 0 <= i < n - 1 && eligible[i] == x.group;
      }
      PutAppends(before, StaleEntry(g, SignalsOf(rules, eligible, g) + {NO_PROOF_REASON}));
      assert eligible[..n] == eligible[..n - 1] + [g];
    }
  }

  // ----- the order of the lists -----

  lemma {:induction false} InsideIsRanked(groups: seq<Group>, ids: set<string>, before: (Group, Group) -> bool)
    requires IsRanked(groups, before)
    ensures IsRanked(Inside(groups, ids), before)
  {
    if groups != [] {
      var front, last := groups[..|groups| - 1], groups[|groups| - 1];
      InsideIsRanked(front, ids, before);
      forall x | x in front
        ensures !before(last, x)
      {
        var i :| 0 <= i < |front| && front[i] == x;
        assert groups[i] == x;
      }
      var kept := Inside(front, ids);
      assert forall i :: 0 <= i < |kept| ==> kept[i] in front;
    }
  }

  /** Every list of a draft is sorted: groups by the given order or by email, identifiers by theirs. */
  lemma ListsAreSorted(env: Env, nameKey: string -> string, facilities: seq<Facility>, groups: seq<Group>)
    requires AreDistinct(nameKey, facilities, groups) && AreOrders(env)
    ensures var d := Build(env, facilities, groups);
            && IsRanked(d.inventory, env.groupBefore) && IsRanked(DraftedFacilities(d), env.facilityBefore)
            && IsRanked(d.ambiguous, env.groupBefore) && IsRanked(d.restricted, env.groupBefore)
            && IsRanked(d.unassigned, env.emailBefore)
            && IsRanked(d.stale, (a: StaleEntry, b: StaleEntry) => env.emailBefore(a.group, b.group))
            && IsRanked(d.missing, env.idBefore) && IsRanked(d.uncertain, env.idBefore)
  {
    hide Build, Eligible, RestrictedIds, AmbiguousIds, StaleEntries, Outside, MappingsOf;
    PartsOfDraft(env, nameKey, facilities, groups);
    var d, fs := Build(env, facilities, groups), Ranked(facilities, env.facilityBefore);
    var rules, gs := env.rulesFor(fs), Ranked(groups, env.groupBefore);
    RankedIsRanked(groups, env.groupBefore);
    InventoryIsSorted(rules, gs, env.groupBefore);
    InsideIsRanked(d.inventory, RestrictedIds(rules, d.inventory), env.groupBefore);
    InsideIsRanked(d.inventory, AmbiguousIds(rules, d.inventory), env.groupBefore);
    RankedIsRanked(Outside(d.inventory, SelectedIds(d.mappings)), env.emailBefore);
    StaleIsSorted(env, StaleEntries(rules, d.inventory, |d.inventory|));
    IdsAreSorted(env, d.mappings);
    RankedIsRanked(facilities, env.facilityBefore);
    DraftedAre(rules, Matchable(rules, d.inventory), fs, d);
  }

  lemma InventoryIsSorted(rules: GroupRules, groups: seq<Group>, before: (Group, Group) -> bool)
    requires IsRanked(groups, before)
    ensures IsRanked(Eligible(rules, groups), before)
  {
    OutsideIsRanked(groups, ExcludedIds(rules, groups), before);
  }

  lemma StaleIsSorted(env: Env, entries: seq<StaleEntry>)
    requires AreOrders(env)
    ensures var before := (a: StaleEntry, b: StaleEntry) => env.emailBefore(a.group, b.group);
            IsRanked(Ranked(entries, before), before)
  {
    var before := (a: StaleEntry, b: StaleEntry) => env.emailBefore(a.group, b.group);
    forall a, b, c
      ensures before(a, b) ==> !before(b, a)
      ensures !before(a, b) && !before(b, c) ==> !before(a, c)
    {
      assert before(a, b) == env.emailBefore(a.group, b.group) && before(b, a) == env.emailBefore(b.group, a.group);
      assert before(b, c) == env.emailBefore(b.group, c.group) && before(a, c) == env.emailBefore(a.group, c.group);
    }
    RankedIsRanked(entries, before);
  }

  lemma IdsAreSorted(env: Env, mappings: seq<Mapping>)
    requires AreOrders(env)
    ensures IsRanked(MissingIds(env, mappings), env.idBefore) && IsRanked(UncertainIds(env, mappings), env.idBefore)
  {
    RankedIsRanked(FacilityIds(Filter(mappings, (m: Mapping) => m.facility.active && m.assessment.outcome.Missing?)),
                   env.idBefore);
    RankedIsRanked(FacilityIds(Filter(mappings, (m: Mapping) => m.assessment.outcome.Uncertain?)), env.idBefore);
  }

  lemma DraftedAre(rules: GroupRules, matched: seq<Group>, facilities: seq<Facility>, d: Draft)
    requires d.mappings == MappingsOf(rules, matched, facilities)
    ensures DraftedFacilities(d) == facilities
  {
  }

  // ----- what a facility is offered -----

  /** The group's name points to the facility and it scores at least 90 for it. */
  predicate Scores(r: Rules, f: Facility, g: Group) { f in r.contexts(g) && r.rate(f, g).score >= 90 }

  predicate IsOffer(r: Rules, f: Facility, c: Candidate) {
    Scores(r, f, c.group) && c.score == r.rate(f, c.group).score && c.reasons == r.rate(f, c.group).reasons
  }

  lemma OneContext(r: Rules, facilities: seq<Facility>, f: Facility, x: Scored)
    requires AreRatings(r, facilities) && DistinctFacilityIds(facilities) && f in facilities
    requires x.facility in r.contexts(x.group) && x.facility.id == f.id
    ensures x.facility == f
  {
    OneFacility(facilities, x.facility, f);
  }

  lemma StreamIs(r: Rules, facilities: seq<Facility>, matched: seq<Group>, f: Facility)
    requires AreRatings(r, facilities) && DistinctFacilityIds(facilities) && f in facilities
    ensures forall x :: x in FacilityStream(r, matched, f.id) <==>
              x.group in matched && x == Rated(r, f, x.group) && Scores(r, f, x.group)
  {
    hide AreRatings, DistinctFacilityIds, FacilityStream;
    InFacilityStream(r, matched, f.id);
    forall x: Scored | x.facility in r.contexts(x.group) && x.facility.id == f.id
      ensures x.facility == f
    {
      OneContext(r, facilities, f, x);
    }
  }

  /**
   The candidates of a facility are its best three: matchable groups that score for it, the first ones
   in the order of the comparator, and all of them if they are fewer.
   */
  lemma CandidatesAreBest(rules: GroupRules, facilities: seq<Facility>, matched: seq<Group>, f: Facility)
    requires AreRatings(rules.matching, facilities) && DistinctFacilityIds(facilities) && f in facilities
    ensures var r, kept := rules.matching, MappingOf(rules, matched, f).assessment.candidates;
            && |kept| <= 3
            && (forall c :: c in kept ==> c.group in matched && IsOffer(r, f, c))
            && (forall i, j :: 0 <= i < j < |kept| ==>
                  !r.groupBefore(Rated(r, f, kept[j].group), Rated(r, f, kept[i].group)))
            && (forall g :: g in matched && Scores(r, f, g) ==>
                  || (exists c :: c in kept && c.group == g)
                  || (|kept| == 3 && forall c :: c in kept ==>
                        !r.groupBefore(Rated(r, f, g), Rated(r, f, c.group))))
  {
    var r := rules.matching;
    hide FacilityStream, Ranked, AreRatings, DistinctFacilityIds, Scores;
    var stream := FacilityStream(r, matched, f.id);
    StreamIs(r, facilities, matched, f);
    RankedKeepsAll(stream, r.groupBefore);
    RatingsRank(r, facilities);
    RankedIsRanked(stream, r.groupBefore);
    var ranked, best := Ranked(stream, r.groupBefore), BestOfFacility(r, matched, f.id);
    CandidateGroups(best);
    var kept := MappingOf(rules, matched, f).assessment.candidates;
    assert kept == Candidates(best);
    forall i | 0 <= i < |best|
      ensures best[i] == Rated(r, f, kept[i].group) && kept[i].group in matched && IsOffer(r, f, kept[i])
    {
      assert best[i] == ranked[i] && ranked[i] in ranked;
    }
    forall g | g in matched && Scores(r, f, g)
      ensures (exists c :: c in kept && c.group == g) ||
              (|kept| == 3 && forall c :: c in kept ==> !r.groupBefore(Rated(r, f, g), Rated(r, f, c.group)))
    {
      var x := Rated(r, f, g);
      assert x in stream;
      var i :| 0 <= i < |ranked| && ranked[i] == x;
      if i < |best| {
        assert kept[i].group == g && kept[i] in kept;
      } else {
        forall c | c in kept
          ensures !r.groupBefore(x, Rated(r, f, c.group))
        {
          var j :| 0 <= j < |kept| && kept[j] == c;
          assert ranked[j] == Rated(r, f, c.group);
        }
      }
    }
  }

  lemma RatingsRank(r: Rules, facilities: seq<Facility>)
    requires AreRatings(r, facilities)
    ensures IsOrder(r.groupBefore)
  {
  }

  /** The second candidate is not 30 below the first. */
  predicate IsClose(kept: seq<Candidate>) { |kept| >= 2 && kept[0].score - kept[1].score < 30 }

  /** The first candidate would do, were it not for its other facilities. */
  predicate IsSafe(rules: GroupRules, f: Facility, kept: seq<Candidate>) {
    && f.active && kept != [] && kept[0].score >= 110 && !IsClose(kept)
    && rules.matching.rate(f, kept[0].group).strongEligible
  }

  lemma BestAreOffers(rules: GroupRules, facilities: seq<Facility>, matched: seq<Group>, f: Facility)
    requires AreRatings(rules.matching, facilities) && DistinctFacilityIds(facilities) && f in facilities
    ensures var best := BestOfFacility(rules.matching, matched, f.id);
            forall i :: 0 <= i < |best| ==> best[i] == Rated(rules.matching, f, best[i].group)
  {
    hide FacilityStream, Ranked, AreRatings, DistinctFacilityIds, Scores;
    var r := rules.matching;
    StreamIs(r, facilities, matched, f);
    RankedKeepsAll(FacilityStream(r, matched, f.id), r.groupBefore);
    var best, ranked := BestOfFacility(r, matched, f.id), Ranked(FacilityStream(r, matched, f.id), r.groupBefore);
    assert forall i :: 0 <= i < |best| ==> best[i] == ranked[i] && ranked[i] in ranked;
  }

  /** The outcome of a facility and every reason for it, read off the candidates. */
  lemma OutcomeIff(rules: GroupRules, facilities: seq<Facility>, matched: seq<Group>, f: Facility)
    requires AreRatings(rules.matching, facilities) && DistinctFacilityIds(facilities) && f in facilities
    ensures var m := MappingOf(rules, matched, f);
            var a, kept := m.assessment, m.assessment.candidates;
            && a.bestScore == (if kept == [] then 0 else kept[0].score)
            && (a.outcome.StrongCandidate? <==> m.source.Some?)
            && (m.source.Some? ==> IsSafe(rules, f, kept) && m.source == Some(kept[0].group))
            && (a.outcome.Missing? <==> kept == [])
            && (InactiveFacility in a.reasons <==> !f.active)
            && (BidirectionallyUniqueMatch in a.reasons <==> m.source.Some?)
            && (GroupMatchesMultipleFacilities in a.reasons <==> IsSafe(rules, f, kept) && m.source.None?)
            && (forall why :: why in {NoSafeBroadStaffMatch, MissingGroupDisplayName, CloseOrTiedCandidates,
                                      InsufficientExactEvidence} ==>
                  (why in a.reasons <==>
                     f.active && kept != [] && !IsSafe(rules, f, kept) && IsWhy(rules, f, kept, why)))
            && DuplicateGroupProposal !in a.reasons
  {
    hide BestOfFacility, BestByGroup, AreRatings, DistinctFacilityIds;
    var best := BestOfFacility(rules.matching, matched, f.id);
    BestAreOffers(rules, facilities, matched, f);
    CandidateGroups(best);
    var m := MappingOf(rules, matched, f);
    var kept := m.assessment.candidates;
    assert kept == Candidates(best);
    if best != [] {
      assert best[0].rating == rules.matching.rate(f, best[0].group) && kept[0].score == best[0].rating.score;
      assert HasClearLead(best) <==> !IsClose(kept);
    }
  }

  /** What keeps the first candidate from being proposed. */
  predicate IsWhy(rules: GroupRules, f: Facility, kept: seq<Candidate>, why: Why)
    requires kept != []
  {
    match why
    case NoSafeBroadStaffMatch => !rules.matching.rate(f, kept[0].group).strongEligible
    case MissingGroupDisplayName => kept[0].group.displayName.None?
    case CloseOrTiedCandidates => IsClose(kept)
    case InsufficientExactEvidence => kept[0].score < 110
    case _ => false
  }

  /** Which facilities are reported as missing, and as uncertain. */
  lemma ReportedIff(env: Env, nameKey: string -> string, facilities: seq<Facility>, groups: seq<Group>, f: Facility)
    requires AreDistinct(nameKey, facilities, groups) && f in facilities
    requires AreRatings(env.rulesFor(Ranked(facilities, env.facilityBefore)).matching,
                        Ranked(facilities, env.facilityBefore))
    ensures var d, rules := Build(env, facilities, groups), env.rulesFor(Ranked(facilities, env.facilityBefore));
            var m := MappingOf(rules, Matchable(rules, d.inventory), f);
            && m in d.mappings
            && (f.id in d.missing <==> f.active && m.assessment.candidates == [])
            && (f.id in d.uncertain <==> m.assessment.candidates != [] && m.source.None?)
  {
    hide Build, Eligible, MappingOf, MissingIds, UncertainIds, AreRatings, Matchable;
    PartsOfDraft(env, nameKey, facilities, groups);
    var d, fs := Build(env, facilities, groups), Ranked(facilities, env.facilityBefore);
    var rules := env.rulesFor(fs);
    RankedKeepsAll(facilities, env.facilityBefore);
    var matched := Matchable(rules, d.inventory);
    var i :| 0 <= i < |fs| && fs[i] == f;
    assert d.mappings[i] == MappingOf(rules, matched, f);
    MappedFacilities(rules, matched, fs);
    OutcomeIff(rules, fs, matched, f);
    MappingFacts(rules, matched, f);
    ListedByMapping(env, d.mappings, i);
  }

  lemma ListedByMapping(env: Env, mappings: seq<Mapping>, i: nat)
    requires i < |mappings|
    requires forall j, k :: 0 <= j < k < |mappings| ==> mappings[j].facility.id != mappings[k].facility.id
    ensures var m := mappings[i];
            && (m.facility.id in MissingIds(env, mappings) <==> m.facility.active && m.assessment.outcome.Missing?)
            && (m.facility.id in UncertainIds(env, mappings) <==> m.assessment.outcome.Uncertain?)
  {
    var isMissing := (m: Mapping) => m.facility.active && m.assessment.outcome.Missing?;
    var isUncertain := (m: Mapping) => m.assessment.outcome.Uncertain?;
    RankedKeepsAll(FacilityIds(Filter(mappings, isMissing)), env.idBefore);
    RankedKeepsAll(FacilityIds(Filter(mappings, isUncertain)), env.idBefore);
    assert MissingIds(env, mappings) == Ranked(FacilityIds(Filter(mappings, isMissing)), env.idBefore);
    assert UncertainIds(env, mappings) == Ranked(FacilityIds(Filter(mappings, isUncertain)), env.idBefore);
    hide MissingIds, UncertainIds, Ranked;
    IdInFilter(mappings, i, isMissing);
    IdInFilter(mappings, i, isUncertain);
  }

  lemma IdOfFiltered(mappings: seq<Mapping>, keep: Mapping -> bool, id: string)
    ensures id in FacilityIds(Filter(mappings, keep)) <==>
              exists m :: m in mappings && keep(m) && m.facility.id == id
  {
    var kept := Filter(mappings, keep);
    if id in FacilityIds(kept) {
      var i :| 0 <= i < |kept| && FacilityIds(kept)[i] == id;
      assert kept[i] in kept;
    }
    if m :| m in mappings && keep(m) && m.facility.id == id {
      assert m in kept;
      var i :| 0 <= i < |kept| && kept[i] == m;
      assert FacilityIds(kept)[i] == id;
    }
  }

  lemma IdInFilter(mappings: seq<Mapping>, i: nat, keep: Mapping -> bool)
    requires i < |mappings|
    requires forall j, k :: 0 <= j < k < |mappings| ==> mappings[j].facility.id != mappings[k].facility.id
    ensures mappings[i].facility.id in FacilityIds(Filter(mappings, keep)) <==> keep(mappings[i])
  {
    hide FacilityIds, Filter;
    IdOfFiltered(mappings, keep, mappings[i].facility.id);
    assert mappings[i] in mappings;
    if m :| m in mappings && keep(m) && m.facility.id == mappings[i].facility.id {
      var k :| 0 <= k < |mappings| && mappings[k] == m;
      assert k == i;
    }
  }
}
