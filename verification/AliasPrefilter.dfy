/**
 The alias index in front of the scoring: what its lookup leaves out could not have been scored, so
 the matching over the contexts it finds is the matching over all facilities.
 */
module AliasPrefilter {
  import opened Wrappers
  import opened TopRanked
  import opened Facilities
  import opened FacilityIndex
  import opened BuildingMatches

  /** The compact facilities (`compactFacilities`): those with a code, stem or name alias at all. */
  predicate IsCompact(v: Vocabulary, f: Facility) {
    Join(CodeTokens(v, f)) != "" || Join(Without(NameTokens(v, f), v.generic)) != "" || Join(NameTokens(v, f)) != ""
  }

  lemma {:induction false} JoinWithout(tokens: seq<string>, dropped: set<string>)
    requires Join(tokens) == ""
    ensures Join(Without(tokens, dropped)) == ""
  {
    if tokens != [] && tokens[0] !in dropped {
      JoinWithout(tokens[1..], dropped);
      assert ([tokens[0]] + Without(tokens[1..], dropped))[1..] == Without(tokens[1..], dropped);
    } else if tokens != [] {
      JoinWithout(tokens[1..], dropped);
    }
  }

  /** No facility with an automatic alias is missing from the index. */
  lemma AliasesAreCompact(v: Vocabulary, f: Facility)
    requires Aliases(v, f) != []
    ensures IsCompact(v, f)
  {
    hide IsDistinctive, HasSiteIdentity;
    var alias := Aliases(v, f)[0];
    AliasesAreDistinctive(v, f, alias);
    if Join(NameTokens(v, f)) == "" {
      JoinWithout(NameTokens(v, f), v.generic + v.aggregate);
    }
  }

  /** The alias lists behind the index, facility by facility. */
  ghost predicate AreAliases(v: Vocabulary, compacts: seq<Facility>, aliases: seq<seq<string>>) {
    |aliases| == |compacts| &&
      forall x, a :: 0 <= x < |compacts| ==> (a in aliases[x] <==> a in Aliases(v, compacts[x]))
  }

  lemma OccursIsContext(v: Vocabulary, compacts: seq<Facility>, aliases: seq<seq<string>>, g: Group, x: nat)
    requires AreAliases(v, compacts, aliases) && x < |compacts|
    ensures Occurs(aliases, x, Join(DisplayTokens(v, g))) || Occurs(aliases, x, Join(LocalTokens(v, g))) <==>
              IsContext(v, compacts[x], g)
  {
    hide Aliases, Includes;
  }

  ghost predicate Found(aliases: seq<seq<string>>, v: Vocabulary, g: Group, x: nat) {
    Occurs(aliases, x, Join(DisplayTokens(v, g))) || Occurs(aliases, x, Join(LocalTokens(v, g)))
  }

  /** Where the lookup did not overflow, every facility that scores 90 is among the contexts it returned. */
  lemma PrefilterLosesNothing(v: Vocabulary, compacts: seq<Facility>, aliases: seq<seq<string>>, g: Group,
                              contexts: seq<nat>, f: Facility)
    requires AreAliases(v, compacts, aliases)
    requires forall x :: x in contexts <==> Found(aliases, v, g, x)
    requires IsCompact(v, f) ==> f in compacts
    requires Score(v, f, g) >= 90
    ensures exists x :: x in contexts && x < |compacts| && compacts[x] == f
  {
    hide Score, Aliases, Occurs, Includes;
    ScoredFacilitiesAreContexts(v, f, g);
    var alias :| alias in Aliases(v, f) &&
      (Includes(Join(DisplayTokens(v, g)), alias) || Includes(Join(LocalTokens(v, g)), alias));
    AliasesAreCompact(v, f);
    var x :| 0 <= x < |compacts| && compacts[x] == f;
    OccursIsContext(v, compacts, aliases, g, x);
    assert Found(aliases, v, g, x);
  }

  // ----- the matching's rules, out of scores and contexts -----

  /** The ratings are the scores, and the contexts of a group are the facilities an alias points to. */
  ghost predicate AreScores(v: Vocabulary, r: Rules, facilities: seq<Facility>, groups: seq<Group>) {
    && (forall f, g :: r.rate(f, g).score == Score(v, f, g) && r.rate(f, g).strongEligible == IsStrongEligible(v, f, g))
    && (forall g :: g in groups ==>
          NoRepeats(r.contexts(g)) && forall f :: f in r.contexts(g) <==> f in facilities && IsContext(v, f, g))
  }

  lemma ScoreGap(v: Vocabulary, f: Facility, g: Group)
    ensures 90 <= Score(v, f, g) <= 210 || 0 <= Score(v, f, g) <= 20
  {
    hide HasExactCode, HasExactStem, IsWholeBuilding, IsBroadStaff;
  }

  lemma ScoresAreRules(v: Vocabulary, r: Rules, facilities: seq<Facility>, groups: seq<Group>)
    requires AreScores(v, r, facilities, groups) && AreKeyed(facilities, groups)
    requires RankByScore(r.groupBefore) && RankByScore(r.facilityBefore)
    ensures AreRules(r, facilities, groups)
  {
    hide Score, IsStrongEligible, IsContext, RankByScore, AreKeyed;
    forall f, g
      ensures r.rate(f, g).score >= 90 || r.rate(f, g).score <= 20
    {
      ScoreGap(v, f, g);
    }
    forall f, g | g in groups && f in facilities && f !in r.contexts(g)
      ensures r.rate(f, g).score <= 20 && !r.rate(f, g).strongEligible
    {
      ScoredFacilitiesAreContexts(v, f, g);
    }
  }

  /** Scoring only the contexts of a group scores what scoring every facility would. */
  lemma ContextsScoreAll(v: Vocabulary, r: Rules, facilities: seq<Facility>, groups: seq<Group>, g: Group)
    requires AreScores(v, r, facilities, groups) && g in groups
    ensures forall s :: s in GroupStream(r, g, r.contexts(g)) <==> s in GroupStream(r, g, facilities)
  {
    hide Score, IsStrongEligible, IsContext, GroupStream;
    InGroupStream(r, g, r.contexts(g));
    InGroupStream(r, g, facilities);
    forall f | f in facilities && Score(v, f, g) >= 90
      ensures f in r.contexts(g)
    {
      ScoredFacilitiesAreContexts(v, f, g);
    }
  }

  /** The strong candidates, in terms of scores over all groups and all facilities. */
  lemma StrongCandidateByScore(v: Vocabulary, r: Rules, facilities: seq<Facility>, groups: seq<Group>,
                               byFacility: map<string, seq<Scored>>, f: Facility, g: Group)
    requires AreScores(v, r, facilities, groups) && AreKeyed(facilities, groups) && f in facilities
    requires RankByScore(r.groupBefore) && RankByScore(r.facilityBefore)
    requires f.id in byFacility && byFacility[f.id] == BestOfFacility(r, groups, f.id)
    ensures Proposal(f, byFacility, BestByGroup(r, groups)) == Some(g) <==>
              && f.active && g in groups && Score(v, f, g) >= 110 && IsStrongEligible(v, f, g)
              && (forall h :: h in groups && h != g ==> Score(v, f, g) - Score(v, f, h) >= 30)
              && (forall e :: e in facilities && e != f ==> Score(v, f, g) - Score(v, e, g) >= 30)
  {
    hide Score, IsStrongEligible, IsContext, RankByScore, AreKeyed, AreRules, Proposal, BestOfFacility, BestByGroup;
    ScoresAreRules(v, r, facilities, groups);
    StrongCandidateIff(r, facilities, groups, byFacility, f, g);
    assert forall h :: r.rate(f, h).score == Score(v, f, h);
    assert forall e :: r.rate(e, g).score == Score(v, e, g);
  }
}
