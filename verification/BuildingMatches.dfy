/**
 The matching of facilities and Google groups in `buildDraft` (scripts/ops/groups-inventory-report.ts):
 the score tables kept to the best three and the best two, and the strong candidates read off them.
 How a group is rated for a facility, and which facilities its name points to, are parameters.
 */
module BuildingMatches {
  import opened Wrappers
  import opened TopRanked
  import opened Facilities

  datatype Rating = Rating(score: int, strongEligible: bool, reasons: seq<string>)

  datatype Scored = Scored(facility: Facility, group: Group, rating: Rating)

  /** What one build fixes: the ratings, the contexts of a group and the two comparators. */
  datatype Rules = Rules(
    rate: (Facility, Group) -> Rating,
    contexts: Group -> seq<Facility>,
    groupBefore: (Scored, Scored) -> bool,
    facilityBefore: (Scored, Scored) -> bool)

  // ----- the score tables, as streams -----

  function Rated(r: Rules, f: Facility, g: Group): Scored { Scored(f, g, r.rate(f, g)) }

  /** The facilities of a group that score at least 90. */
  function GroupStream(r: Rules, g: Group, contexts: seq<Facility>): seq<Scored> {
    if contexts == [] then []
    else
      var last := Rated(r, contexts[|contexts| - 1], g);
      GroupStream(r, g, contexts[..|contexts| - 1]) + if last.rating.score >= 90 then [last] else []
  }

  function Only(stream: seq<Scored>, facilityId: string): seq<Scored> {
    if stream == [] then []
    else
      var last := stream[|stream| - 1];
      Only(stream[..|stream| - 1], facilityId) + if last.facility.id == facilityId then [last] else []
  }

  /** The groups that score at least 90 for a facility. */
  function FacilityStream(r: Rules, groups: seq<Group>, facilityId: string): seq<Scored> {
    if groups == [] then []
    else
      var g := groups[|groups| - 1];
      FacilityStream(r, groups[..|groups| - 1], facilityId) + Only(GroupStream(r, g, r.contexts(g)), facilityId)
  }

  function BestOfFacility(r: Rules, groups: seq<Group>, facilityId: string): seq<Scored> {
    Take(Ranked(FacilityStream(r, groups, facilityId), r.groupBefore), 3)
  }

  function BestOfGroup(r: Rules, g: Group): seq<Scored> {
    Take(Ranked(GroupStream(r, g, r.contexts(g)), r.facilityBefore), 2)
  }

  function BestByGroup(r: Rules, groups: seq<Group>): map<string, seq<Scored>> {
    if groups == [] then map[]
    else
      var g := groups[|groups| - 1];
      BestByGroup(r, groups[..|groups| - 1])[g.id := BestOfGroup(r, g)]
  }

  ghost predicate IsFacilityTable(r: Rules, groups: seq<Group>, more: seq<Scored>, facilities: seq<Facility>,
                                  table: map<string, seq<Scored>>)
  {
    && (forall f :: f in facilities ==> f.id in table)
    && (forall id :: id in table ==>
          && (exists f :: f in facilities && f.id == id)
          && table[id] == Take(Ranked(FacilityStream(r, groups, id) + Only(more, id), r.groupBefore), 3))
  }

  // ----- the loop that fills them -----

  lemma RankedOfOneMore(stream: seq<Scored>, x: Scored, before: (Scored, Scored) -> bool, n: nat)
    ensures Take(Ranked(stream + [x], before), n) == Take(Insert(Take(Ranked(stream, before), n), x, before), n)
  {
    assert (stream + [x])[..|stream|] == stream;
    TakeThenInsert(Ranked(stream, before), x, before, n);
  }

  lemma OnlyOfOneMore(stream: seq<Scored>, x: Scored, id: string)
    ensures Only(stream + [x], id) == Only(stream, id) + if x.facility.id == id then [x] else []
  {
    assert (stream + [x])[..|stream|] == stream;
  }

  /** The empty table of `mutableScoresByFacility`. */
  method EmptyTable(r: Rules, facilities: seq<Facility>) returns (table: map<string, seq<Scored>>)
    ensures IsFacilityTable(r, [], [], facilities, table)
  {
    table := map[];
    for i := 0 to |facilities|
      invariant forall f :: f in facilities[..i] ==> f.id in table
      invariant forall id :: id in table ==> table[id] == [] && exists f :: f in facilities && f.id == id
    {
      assert facilities[..i + 1] == facilities[..i] + [facilities[i]];
      table := table[facilities[i].id := []];
    }
    assert facilities[..|facilities|] == facilities;
  }

  lemma TableOfOneMore(r: Rules, groups: seq<Group>, stream: seq<Scored>, x: Scored, facilities: seq<Facility>,
                       table: map<string, seq<Scored>>)
    requires IsFacilityTable(r, groups, stream, facilities, table)
    ensures IsFacilityTable(r, groups, stream + [x], facilities,
              if x.facility.id in table
              then table[x.facility.id := Take(Insert(table[x.facility.id], x, r.groupBefore), 3)]
              else table)
  {
    hide Take, Ranked, Insert, FacilityStream, Only;
    forall id | id in table
      ensures Take(Ranked(FacilityStream(r, groups, id) + Only(stream + [x], id), r.groupBefore), 3) ==
              if id == x.facility.id then Take(Insert(table[id], x, r.groupBefore), 3) else table[id]
    {
      OnlyOfOneMore(stream, x, id);
      var all := FacilityStream(r, groups, id) + Only(stream, id);
      if id == x.facility.id {
        assert FacilityStream(r, groups, id) + (Only(stream, id) + [x]) == all + [x];
        RankedOfOneMore(all, x, r.groupBefore, 3);
      } else {
        assert Only(stream, id) + [] == Only(stream, id);
      }
    }
  }

  predicate ScoresInactive(r: Rules, g: Group, contexts: seq<Facility>) {
    exists f :: f in contexts && !f.active && r.rate(f, g).score >= 90
  }

  lemma OneMoreContext(r: Rules, g: Group, seen: seq<Facility>, f: Facility)
    ensures GroupStream(r, g, seen + [f]) ==
            GroupStream(r, g, seen) + if r.rate(f, g).score >= 90 then [Rated(r, f, g)] else []
    ensures ScoresInactive(r, g, seen + [f]) <==> ScoresInactive(r, g, seen) || (!f.active && r.rate(f, g).score >= 90)
  {
    assert (seen + [f])[..|seen|] == seen;
  }

  /** The turn of the loop for one matchable group; `inactive` tells whether a closed facility scored. */
  method ScoreGroup(r: Rules, facilities: seq<Facility>, g: Group, table: map<string, seq<Scored>>,
                    ghost groups: seq<Group>)
    returns (best: seq<Scored>, next: map<string, seq<Scored>>, inactive: bool)
    requires IsFacilityTable(r, groups, [], facilities, table)
    ensures best == BestOfGroup(r, g)
    ensures IsFacilityTable(r, groups, GroupStream(r, g, r.contexts(g)), facilities, next)
    ensures inactive <==> ScoresInactive(r, g, r.contexts(g))
  {
    hide IsFacilityTable, ScoresInactive, GroupStream, Take, Ranked, Insert;
    var contexts := r.contexts(g);
    NoContexts(r, g);
    best, next, inactive := [], table, false;
    for i := 0 to |contexts|
      invariant inactive <==> ScoresInactive(r, g, contexts[..i])
      invariant best == Take(Ranked(GroupStream(r, g, contexts[..i]), r.facilityBefore), 2)
      invariant IsFacilityTable(r, groups, GroupStream(r, g, contexts[..i]), facilities, next)
    {
      assert contexts[..i + 1] == contexts[..i] + [contexts[i]];
      OneMoreContext(r, g, contexts[..i], contexts[i]);
      var scored := Rated(r, contexts[i], g);
      ghost var stream := GroupStream(r, g, contexts[..i]);
      if scored.rating.score >= 90 {
        inactive := inactive || !contexts[i].active;
        RankedOfOneMore(stream, scored, r.facilityBefore, 2);
        TakeIsShort(Ranked(stream, r.facilityBefore), 2);
        best := RetainBest(best, scored, r.facilityBefore, 2);
        TableOfOneMore(r, groups, stream, scored, facilities, next);
        if scored.facility.id in next {
          TableIsShort(r, groups, stream, facilities, next, scored.facility.id);
          var kept := RetainBest(next[scored.facility.id], scored, r.groupBefore, 3);
          next := next[scored.facility.id := kept];
        }
      } else {
        assert stream + [] == stream;
      }
    }
    assert contexts[..|contexts|] == contexts;
  }

  lemma NoContexts(r: Rules, g: Group)
    ensures GroupStream(r, g, []) == [] && !ScoresInactive(r, g, []) && Take(Ranked([], r.facilityBefore), 2) == []
  {
  }

  lemma TakeIsShort<T>(xs: seq<T>, n: nat)
    ensures |Take(xs, n)| <= n
  {
  }

  lemma TableIsShort(r: Rules, groups: seq<Group>, more: seq<Scored>, facilities: seq<Facility>,
                     table: map<string, seq<Scored>>, id: string)
    requires IsFacilityTable(r, groups, more, facilities, table) && id in table
    ensures |table[id]| <= 3
  {
  }

  lemma TableOfGroup(r: Rules, groups: seq<Group>, g: Group, facilities: seq<Facility>, table: map<string, seq<Scored>>)
    requires IsFacilityTable(r, groups, GroupStream(r, g, r.contexts(g)), facilities, table)
    ensures IsFacilityTable(r, groups + [g], [], facilities, table)
  {
    hide Take, Ranked, GroupStream;
    assert (groups + [g])[..|groups|] == groups;
    assert forall id :: FacilityStream(r, groups + [g], id) + Only([], id) ==
                        FacilityStream(r, groups, id) + Only(GroupStream(r, g, r.contexts(g)), id);
  }

  lemma TableIsBest(r: Rules, groups: seq<Group>, facilities: seq<Facility>, table: map<string, seq<Scored>>)
    requires IsFacilityTable(r, groups, [], facilities, table)
    ensures forall id :: id in table ==> table[id] == BestOfFacility(r, groups, id)
  {
    hide Take, Ranked, FacilityStream;
    assert forall id :: FacilityStream(r, groups, id) + Only([], id) == FacilityStream(r, groups, id);
  }

  // ----- strong candidates -----

  const LEAD := 30

  /** `hasClearLead`, of a list's first two. */
  predicate HasClearLead(best: seq<Scored>) {
    |best| >= 2 ==> best[0].rating.score - best[1].rating.score >= LEAD
  }

  predicate IsReverseUnique(best: seq<Scored>, facilityId: string) {
    best != [] && best[0].facility.id == facilityId && HasClearLead(best)
  }

  /** The group `buildDraft` proposes for a facility: the outcome `strong-candidate`. */
  function Proposal(f: Facility, byFacility: map<string, seq<Scored>>, byGroup: map<string, seq<Scored>>): Option<Group>
  {
    var ranked := if f.id in byFacility then byFacility[f.id] else [];
    if !f.active || ranked == [] then None
    else
      var best := ranked[0];
      if best.rating.score >= 110 && best.rating.strongEligible && HasClearLead(ranked) then
        var reverse := if best.group.id in byGroup then byGroup[best.group.id] else [];
        if IsReverseUnique(reverse, f.id) then Some(best.group) else None
      else None
  }

  /** The comparators put a higher score first; ties go to identifiers, in whatever order the locale has. */
  ghost predicate RankByScore(before: (Scored, Scored) -> bool) {
    IsOrder(before) && forall a: Scored, b: Scored :: a.rating.score > b.rating.score ==> before(a, b)
  }

  /** In a stream of different entries, the kept front says exactly whether one leads all the others. */
  lemma FrontTellsLeader(stream: seq<Scored>, before: (Scored, Scored) -> bool, n: nat, x: Scored)
    requires NoRepeats(stream) && RankByScore(before) && n >= 2
    ensures var best := Take(Ranked(stream, before), n);
            (best != [] && best[0] == x && HasClearLead(best)) <==>
              (x in stream && forall y :: y in stream && y != x ==> x.rating.score - y.rating.score >= LEAD)
  {
    var ranked := Ranked(stream, before);
    RankedIsRanked(stream, before);
    RankedKeepsAll(stream, before);
    hide Ranked, IsOrder;
    var best := Take(ranked, n);
    assert |best| >= 2 ==> best[0] == ranked[0] && best[1] == ranked[1];
    if best != [] && best[0] == x && HasClearLead(best) {
      forall y | y in stream && y != x
        ensures x.rating.score - y.rating.score >= LEAD
      {
        var i :| 0 <= i < |ranked| && ranked[i] == y;
        assert !before(ranked[i], ranked[1]) || i == 1;
      }
    }
    if x in stream && forall y :: y in stream && y != x ==> x.rating.score - y.rating.score >= LEAD {
      var i :| 0 <= i < |ranked| && ranked[i] == x;
      assert i != 0 ==> !before(ranked[i], ranked[0]);
      assert ranked[0] in stream;
      assert |ranked| >= 2 ==> ranked[1] in stream && ranked[1] != ranked[0];
    }
  }

  // ----- what is in the streams -----

  lemma {:induction false} InGroupStream(r: Rules, g: Group, contexts: seq<Facility>)
    ensures forall x :: x in GroupStream(r, g, contexts) <==>
              (x.facility in contexts && x == Rated(r, x.facility, g) && x.rating.score >= 90)
    ensures NoRepeats(contexts) ==> NoRepeats(GroupStream(r, g, contexts))
  {
    if contexts != [] {
      var front, last := contexts[..|contexts| - 1], contexts[|contexts| - 1];
      InGroupStream(r, g, front);
      assert forall f :: f in contexts <==> f in front || f == last;
      assert NoRepeats(contexts) ==> NoRepeats(front) && last !in front;
    }
  }

  lemma {:induction false} InOnly(stream: seq<Scored>, id: string)
    ensures forall x :: x in Only(stream, id) <==> x in stream && x.facility.id == id
    ensures NoRepeats(stream) ==> NoRepeats(Only(stream, id))
  {
    if stream != [] {
      var front, last := stream[..|stream| - 1], stream[|stream| - 1];
      InOnly(front, id);
      assert forall x :: x in stream <==> x in front || x == last;
      assert NoRepeats(stream) ==> NoRepeats(front) && last !in front;
    }
  }

  ghost predicate ContextsDiffer(r: Rules, groups: seq<Group>) {
    NoRepeats(groups) && forall g :: g in groups ==> NoRepeats(r.contexts(g))
  }

  lemma {:induction false} InFacilityStream(r: Rules, groups: seq<Group>, id: string)
    ensures forall x :: x in FacilityStream(r, groups, id) <==>
              (x.group in groups && x.facility in r.contexts(x.group) && x.facility.id == id &&
               x == Rated(r, x.facility, x.group) && x.rating.score >= 90)
    ensures ContextsDiffer(r, groups) ==> NoRepeats(FacilityStream(r, groups, id))
  {
    if groups != [] {
      var front, g := groups[..|groups| - 1], groups[|groups| - 1];
      InFacilityStream(r, front, id);
      InGroupStream(r, g, r.contexts(g));
      InOnly(GroupStream(r, g, r.contexts(g)), id);
      assert forall h :: h in groups <==> h in front || h == g;
      if ContextsDiffer(r, groups) {
        assert g in groups && g !in front;
        assert NoRepeats(front);
        NoRepeatsOfParts(FacilityStream(r, front, id), Only(GroupStream(r, g, r.contexts(g)), id));
      }
    }
  }

  lemma NoRepeatsOfParts(a: seq<Scored>, b: seq<Scored>)
    requires NoRepeats(a) && NoRepeats(b) && forall x :: x in a ==> x !in b
    ensures NoRepeats(a + b)
  {
    assert forall i :: 0 <= i < |a| ==> a[i] in a;
    assert forall i :: 0 <= i < |b| ==> b[i] in b;
  }

  // ----- what a strong candidate is -----

  /** Different facilities have different identifiers, and so have different groups. */
  ghost predicate AreKeyed(facilities: seq<Facility>, groups: seq<Group>) {
    && NoRepeats(facilities) && NoRepeats(groups)
    && (forall f, h :: f in facilities && h in facilities && f.id == h.id ==> f == h)
    && (forall g, h :: g in groups && h in groups && g.id == h.id ==> g == h)
  }

  /** The contexts of a group are facilities, and a facility that is none of them scores at most 20 for it. */
  ghost predicate AreContexts(r: Rules, facilities: seq<Facility>, groups: seq<Group>) {
    forall g :: g in groups ==>
      && NoRepeats(r.contexts(g))
      && (forall f :: f in r.contexts(g) ==> f in facilities)
      && (forall f :: f in facilities && f !in r.contexts(g) ==>
           r.rate(f, g).score <= 20 && !r.rate(f, g).strongEligible)
  }

  ghost predicate AreRules(r: Rules, facilities: seq<Facility>, groups: seq<Group>) {
    && AreKeyed(facilities, groups) && AreContexts(r, facilities, groups)
    && RankByScore(r.groupBefore) && RankByScore(r.facilityBefore)
    && (forall f, g :: r.rate(f, g).score >= 90 || r.rate(f, g).score <= 20)
  }

  /** The group's score for the facility is at least 30 above that of every other group, and every other facility. */
  ghost predicate LeadsBothWays(r: Rules, facilities: seq<Facility>, groups: seq<Group>, f: Facility, g: Group) {
    && (forall h :: h in groups && h != g ==> r.rate(f, g).score - r.rate(f, h).score >= LEAD)
    && (forall e :: e in facilities && e != f ==> r.rate(f, g).score - r.rate(e, g).score >= LEAD)
  }

  ghost predicate IsStrongPair(r: Rules, facilities: seq<Facility>, groups: seq<Group>, f: Facility, g: Group) {
    && f.active && g in groups
    && r.rate(f, g).score >= 110 && r.rate(f, g).strongEligible
    && LeadsBothWays(r, facilities, groups, f, g)
  }

  lemma LeaderOfFacility(r: Rules, facilities: seq<Facility>, groups: seq<Group>, f: Facility, g: Group)
    requires AreRules(r, facilities, groups) && f in facilities && g in groups && r.rate(f, g).score >= 110
    ensures var best := BestOfFacility(r, groups, f.id);
            (best != [] && best[0] == Rated(r, f, g) && HasClearLead(best)) <==>
              (forall h :: h in groups && h != g ==> r.rate(f, g).score - r.rate(f, h).score >= LEAD)
  {
    hide Take, Ranked, HasClearLead, IsOrder;
    var stream, x := FacilityStream(r, groups, f.id), Rated(r, f, g);
    InFacilityStream(r, groups, f.id);
    hide FacilityStream;
    FrontTellsLeader(stream, r.groupBefore, 3, x);
    forall y | y in stream
      ensures y == Rated(r, f, y.group) && y.group in groups
    {
      assert y.facility in r.contexts(y.group);
    }
    forall h | h in groups && f in r.contexts(h) && r.rate(f, h).score >= 90
      ensures Rated(r, f, h) in stream
    {
    }
  }

  lemma LeaderOfGroup(r: Rules, facilities: seq<Facility>, groups: seq<Group>, f: Facility, g: Group)
    requires AreRules(r, facilities, groups) && f in facilities && g in groups && r.rate(f, g).score >= 110
    ensures IsReverseUnique(BestOfGroup(r, g), f.id) <==>
              (forall e :: e in facilities && e != f ==> r.rate(f, g).score - r.rate(e, g).score >= LEAD)
  {
    hide Take, Ranked, HasClearLead, IsOrder;
    var stream, x := GroupStream(r, g, r.contexts(g)), Rated(r, f, g);
    InGroupStream(r, g, r.contexts(g));
    FrontTellsLeader(stream, r.facilityBefore, 2, x);
    var best := BestOfGroup(r, g);
    RankedKeepsAll(stream, r.facilityBefore);
    hide GroupStream;
    if best != [] {
      assert best[0] in Ranked(stream, r.facilityBefore) by { FirstIsKept(Ranked(stream, r.facilityBefore), 2); }
      assert best[0].facility in facilities && best[0] == Rated(r, best[0].facility, g);
    }
    forall e | e in facilities && e in r.contexts(g) && r.rate(e, g).score >= 90
      ensures Rated(r, e, g) in stream
    {
    }
  }

  lemma FirstIsKept(xs: seq<Scored>, n: nat)
    requires n > 0 && Take(xs, n) != []
    ensures Take(xs, n)[0] in xs
  {
  }

  lemma {:induction false} GroupIsTabled(r: Rules, groups: seq<Group>, g: Group)
    requires g in groups && forall h :: h in groups && h.id == g.id ==> h == g
    ensures g.id in BestByGroup(r, groups) && BestByGroup(r, groups)[g.id] == BestOfGroup(r, g)
  {
    hide BestOfGroup;
    var front, last := groups[..|groups| - 1], groups[|groups| - 1];
    assert last in groups;
    if last.id != g.id {
      assert g in front;
      GroupIsTabled(r, front, g);
    }
  }

  /**
   A facility gets a strong candidate exactly when that group is eligible for it with a score of at
   least 110 and leads by 30 over every other group for the facility and every other facility for the
   group, although only the best three and the best two are kept.
   */
  lemma StrongCandidateIff(r: Rules, facilities: seq<Facility>, groups: seq<Group>,
                           byFacility: map<string, seq<Scored>>, f: Facility, g: Group)
    requires AreRules(r, facilities, groups) && f in facilities
    requires f.id in byFacility && byFacility[f.id] == BestOfFacility(r, groups, f.id)
    ensures Proposal(f, byFacility, BestByGroup(r, groups)) == Some(g) <==> IsStrongPair(r, facilities, groups, f, g)
  {
    hide Take, Ranked, HasClearLead, IsOrder, FacilityStream, GroupStream, BestByGroup;
    var best := BestOfFacility(r, groups, f.id);
    if best != [] {
      InFacilityStream(r, groups, f.id);
      RankedKeepsAll(FacilityStream(r, groups, f.id), r.groupBefore);
      FirstIsKept(Ranked(FacilityStream(r, groups, f.id), r.groupBefore), 3);
      assert best[0].facility in facilities && best[0] == Rated(r, f, best[0].group) && best[0].group in groups;
      GroupIsTabled(r, groups, best[0].group);
      if best[0].rating.score >= 110 {
        LeaderOfFacility(r, facilities, groups, f, best[0].group);
        LeaderOfGroup(r, facilities, groups, f, best[0].group);
      }
    }
    if IsStrongPair(r, facilities, groups, f, g) {
      LeaderOfFacility(r, facilities, groups, f, g);
    }
  }

  /** No group is ever proposed for two facilities, whatever the ratings: the repair of duplicates has nothing to do. */
  lemma ProposalsAreInjective(f: Facility, e: Facility, ofF: map<string, seq<Scored>>, ofE: map<string, seq<Scored>>,
                              byGroup: map<string, seq<Scored>>)
    requires Proposal(f, ofF, byGroup).Some? && Proposal(e, ofE, byGroup).Some?
    requires Proposal(f, ofF, byGroup).value.id == Proposal(e, ofE, byGroup).value.id
    ensures f.id == e.id
  {
  }
}
