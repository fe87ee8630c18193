/**
 The loops of `validateDraftForDomain` (scripts/ops/groups-inventory-input.ts), against the checks they
 make: the inventory, the mappings, the comparison with the rebuilt draft and the stale groups. A throw
 is an error.
 */
module DraftValidation {
  import opened Wrappers
  import opened TopRanked
  import opened Facilities
  import opened BuildingDraft
  import opened DraftCheck
  import opened DraftRebuild
  import opened DraftLoops

  // ----- the inventory -----

  function Lookup<T>(table: map<string, T>, id: string): Option<T> { if id in table then Some(table[id]) else None }

  /** The map holds each group of the list under its identifier. */
  ghost predicate IsInventory(groups: seq<Group>, byId: map<string, Group>) {
    forall id :: Lookup(byId, id) == LastWith(groups, id)
  }

  lemma InventoryGrows(groups: seq<Group>, byId: map<string, Group>, g: Group)
    requires IsInventory(groups, byId)
    ensures IsInventory(groups + [g], byId[g.id := g])
  {
    assert (groups + [g])[..|groups|] == groups;
    forall id
      ensures LastWith(groups + [g], id) == if g.id == id then Some(g) else Lookup(byId, id)
    {
      assert Lookup(byId, id) == LastWith(groups, id);
    }
  }

  lemma {:induction false} LookupTells(groups: seq<Group>, id: string)
    ensures LastWith(groups, id).Some? <==> id in IdsOf(groups)
  {
    if groups != [] {
      var front, last := groups[..|groups| - 1], groups[|groups| - 1];
      LookupTells(front, id);
      OneMoreId(front, last);
      assert groups == front + [last];
    }
  }

  function EmailsOf(groups: seq<Group>): set<string> { set g | g in groups :: g.email }

  lemma EmailsGrow(front: seq<Group>, last: Group)
    ensures EmailsOf(front + [last]) == EmailsOf(front) + {last.email}
    ensures DistinctEmails(front + [last]) <==> DistinctEmails(front) && last.email !in EmailsOf(front)
  {
    var groups := front + [last];
    assert forall i :: 0 <= i < |front| ==> groups[i] == front[i] && front[i] in front;
    if last.email in EmailsOf(front) {
      var g :| g in front && g.email == last.email;
      var i :| 0 <= i < |front| && front[i] == g;
      assert groups[i].email == groups[|front|].email;
    } else if DistinctEmails(groups) {
      assert forall i, j :: 0 <= i < j < |front| ==> groups[i].email != groups[j].email;
    }
  }

  lemma PartsOfDistinct(groups: seq<Group>, i: nat)
    requires i <= |groups|
    ensures DistinctIds(groups) ==> DistinctIds(groups[..i])
    ensures DistinctEmails(groups) ==> DistinctEmails(groups[..i])
  {
  }

  method CheckInventory(d: Draft) returns (r: Result<map<string, Group>, string>)
    ensures r.Ok? <==> InventoryOk(d)
    ensures r.Ok? ==> IsInventory(d.inventory, r.value)
  {
    var groups := d.inventory;
    var byId: map<string, Group>, emails: set<string> := map[], {};
    for i := 0 to |groups|
      invariant IsInventory(groups[..i], byId) && emails == EmailsOf(groups[..i])
      invariant DistinctIds(groups[..i]) && DistinctEmails(groups[..i])
    {
      hide IsInventory, DistinctIds, DistinctEmails, EmailsOf, LastWith;
      var g := groups[i];
      assert groups[..i + 1] == groups[..i] + [g];
      OneMoreId(groups[..i], g);
      EmailsGrow(groups[..i], g);
      InventoryHas(groups[..i], byId, g.id);
      if g.id in byId || g.email in emails {
        PartsOfDistinct(groups, i + 1);
        return Err("Draft inventory contains duplicate group identity.");
      }
      InventoryGrows(groups[..i], byId, g);
      byId := byId[g.id := g];
      emails := emails + {g.email};
    }
    assert groups[..|groups|] == groups;
    if |groups| != d.eligibleCount {
      return Err("Draft eligible-group count does not match its inventory.");
    }
    r := Ok(byId);
  }

  lemma InventoryHas(groups: seq<Group>, byId: map<string, Group>, id: string)
    requires IsInventory(groups, byId)
    ensures id in byId <==> id in IdsOf(groups)
  {
    hide LastWith;
    LookupTells(groups, id);
    assert Lookup(byId, id) == LastWith(groups, id);
  }

  // ----- the mappings -----

  /** What the six sets of the loop hold. */
  datatype Taken = Taken(
    ids: set<string>, codes: set<string>, names: set<string>, groupIds: set<string>, groupEmails: set<string>)

  function TakenBy(nameKey: string -> string, mappings: seq<Mapping>): Taken {
    Taken(set m | m in mappings :: m.facility.id,
          set m | m in mappings :: m.facility.code,
          set m | m in mappings :: nameKey(m.facility.name),
          set m | m in mappings && m.source.Some? :: m.source.value.id,
          set m | m in mappings && m.source.Some? :: m.source.value.email)
  }

  predicate RepeatsFacility(nameKey: string -> string, taken: Taken, f: Facility) {
    f.id in taken.ids || f.code in taken.codes || nameKey(f.name) in taken.names
  }

  predicate RepeatsSource(taken: Taken, m: Mapping) {
    m.source.Some? && (m.source.value.id in taken.groupIds || m.source.value.email in taken.groupEmails)
  }

  function FacilitiesOf(mappings: seq<Mapping>): (r: seq<Facility>)
    ensures |r| == |mappings| && forall i :: 0 <= i < |r| ==> r[i] == mappings[i].facility
  {
    seq(|mappings|, i requires 0 <= i < |mappings| => mappings[i].facility)
  }

  lemma TakenGrows(nameKey: string -> string, front: seq<Mapping>, m: Mapping)
    ensures var taken, next := TakenBy(nameKey, front), TakenBy(nameKey, front + [m]);
            && next.ids == taken.ids + {m.facility.id} && next.codes == taken.codes + {m.facility.code}
            && next.names == taken.names + {nameKey(m.facility.name)}
            && next.groupIds == taken.groupIds + (if m.source.Some? then {m.source.value.id} else {})
            && next.groupEmails == taken.groupEmails + (if m.source.Some? then {m.source.value.email} else {})
  {
    var all := front + [m];
    assert forall x :: x in all <==> x in front || x == m;
  }

  lemma FacilitiesDifferStep(nameKey: string -> string, front: seq<Mapping>, m: Mapping)
    ensures FacilitiesDiffer(nameKey, FacilitiesOf(front + [m])) <==>
              FacilitiesDiffer(nameKey, FacilitiesOf(front)) &&
                !RepeatsFacility(nameKey, TakenBy(nameKey, front), m.facility)
  {
    var all, fs := FacilitiesOf(front + [m]), FacilitiesOf(front);
    assert forall i :: 0 <= i < |front| ==> all[i] == fs[i] && front[i] in front;
    if FacilitiesDiffer(nameKey, all) {
      forall x | x in front
        ensures x.facility.id != m.facility.id && x.facility.code != m.facility.code &&
                nameKey(x.facility.name) != nameKey(m.facility.name)
      {
        var i :| 0 <= i < |front| && front[i] == x;
        assert all[i] == x.facility && all[|front|] == m.facility;
      }
    }
  }

  lemma SourcesDifferStep(nameKey: string -> string, front: seq<Mapping>, m: Mapping)
    ensures SourcesDiffer(front + [m]) <==> SourcesDiffer(front) && !RepeatsSource(TakenBy(nameKey, front), m)
  {
    var all := front + [m];
    assert forall i :: 0 <= i < |front| ==> all[i] == front[i] && front[i] in front;
    if SourcesDiffer(all) && m.source.Some? {
      forall x | x in front && x.source.Some?
        ensures x.source.value.id != m.source.value.id && x.source.value.email != m.source.value.email
      {
        var i :| 0 <= i < |front| && front[i] == x;
        assert all[i] == x && all[|front|] == m;
      }
    }
  }

  lemma PartsDiffer(nameKey: string -> string, mappings: seq<Mapping>, i: nat)
    requires i <= |mappings|
    ensures FacilitiesDiffer(nameKey, FacilitiesOf(mappings)) ==> FacilitiesDiffer(nameKey, FacilitiesOf(mappings[..i]))
    ensures SourcesDiffer(mappings) ==> SourcesDiffer(mappings[..i])
  {
  }

  const REPEATED_FACILITY := "Draft repeats a facility identity."
  const BAD_ASSESSMENT := "Draft assessment is malformed or inconsistent."
  const BAD_DECISION := "Draft mapping decision and proposal are inconsistent."
  const BAD_SOURCE := "Draft mapping references an invalid or reused group."
  const NOT_TOP := "A pending mapping must retain its generated top candidate."
  const BAD_CANDIDATE := "Draft mapping candidate is absent from the inventory."

  /** The first check of the loop's turn that a mapping fails, after the mappings before it. */
  function FailureOf(nameKey: string -> string, inventory: seq<Group>, before: seq<Mapping>, m: Mapping): Option<string>
  {
    var taken, a := TakenBy(nameKey, before), m.assessment;
    if RepeatsFacility(nameKey, taken, m.facility) then Some(REPEATED_FACILITY)
    else if !AssessmentOk(a) then Some(BAD_ASSESSMENT)
    else if a.outcome.StrongCandidate? != m.source.Some? then Some(BAD_DECISION)
    else if m.source.Some? &&
      (!m.facility.active || !IsOfInventory(inventory, m.source.value) || RepeatsSource(taken, m)) then
      Some(BAD_SOURCE)
    else if m.source.Some? && !IsTop(a.candidates, m.source.value) then Some(NOT_TOP)
    else if exists c :: c in a.candidates && LastWith(inventory, c.group.id) != Some(c.group) then Some(BAD_CANDIDATE)
    else None
  }

  predicate IsOfInventory(inventory: seq<Group>, source: Group) {
    LastWith(inventory, source.id).Some? && LastWith(inventory, source.id).value.email == source.email
  }

  predicate IsTop(candidates: seq<Candidate>, source: Group) {
    candidates != [] && candidates[0].group.id == source.id && candidates[0].group.email == source.email
  }

  lemma NoFailureIff(nameKey: string -> string, inventory: seq<Group>, before: seq<Mapping>, m: Mapping)
    ensures FailureOf(nameKey, inventory, before, m).None? <==>
              && MappingOk(inventory, m)
              && !RepeatsFacility(nameKey, TakenBy(nameKey, before), m.facility)
              && !RepeatsSource(TakenBy(nameKey, before), m)
  {
    hide AssessmentOk, LastWith, RepeatsFacility, TakenBy;
  }

  /** One turn of the loop: the first check that the mapping fails. */
  method CheckMapping(nameKey: string -> string, byId: map<string, Group>, taken: Taken, m: Mapping,
                      ghost inventory: seq<Group>, ghost before: seq<Mapping>)
    returns (failure: Option<string>)
    requires IsInventory(inventory, byId) && taken == TakenBy(nameKey, before)
    ensures failure == FailureOf(nameKey, inventory, before, m)
  {
    hide LastWith, AssessmentOk, RepeatsFacility, RepeatsSource, TakenBy;
    assert forall id :: Lookup(byId, id) == LastWith(inventory, id);
    if RepeatsFacility(nameKey, taken, m.facility) {
      return Some(REPEATED_FACILITY);
    }
    if !AssessmentOk(m.assessment) {
      return Some(BAD_ASSESSMENT);
    }
    if m.assessment.outcome.StrongCandidate? != m.source.Some? {
      return Some(BAD_DECISION);
    }
    var candidates := m.assessment.candidates;
    if m.source.Some? {
      var source := m.source.value;
      var inventoryGroup := Lookup(byId, source.id);
      if !m.facility.active || inventoryGroup.None? || inventoryGroup.value.email != source.email ||
         RepeatsSource(taken, m) {
        return Some(BAD_SOURCE);
      }
      if candidates == [] || candidates[0].group.id != source.id || candidates[0].group.email != source.email {
        return Some(NOT_TOP);
      }
    }
    for i := 0 to |candidates|
      invariant forall c :: c in candidates[..i] ==> LastWith(inventory, c.group.id) == Some(c.group)
    {
      assert candidates[..i + 1] == candidates[..i] + [candidates[i]];
      if Lookup(byId, candidates[i].group.id) != Some(candidates[i].group) {
        assert candidates[i] in candidates;
        return Some(BAD_CANDIDATE);
      }
    }
    assert candidates[..|candidates|] == candidates;
    return None;
  }

  ghost predicate MappingsAreOk(nameKey: string -> string, inventory: seq<Group>, mappings: seq<Mapping>) {
    && FacilitiesDiffer(nameKey, FacilitiesOf(mappings)) && SourcesDiffer(mappings)
    && forall m :: m in mappings ==> MappingOk(inventory, m)
  }

  lemma MappingsStep(nameKey: string -> string, inventory: seq<Group>, front: seq<Mapping>, m: Mapping)
    ensures MappingsAreOk(nameKey, inventory, front + [m]) <==>
              && MappingsAreOk(nameKey, inventory, front) && MappingOk(inventory, m)
              && !RepeatsFacility(nameKey, TakenBy(nameKey, front), m.facility) &&
                   !RepeatsSource(TakenBy(nameKey, front), m)
  {
    hide MappingOk, FacilitiesDiffer, SourcesDiffer, RepeatsFacility, RepeatsSource;
    FacilitiesDifferStep(nameKey, front, m);
    SourcesDifferStep(nameKey, front, m);
  }

  lemma MappingsPart(nameKey: string -> string, inventory: seq<Group>, mappings: seq<Mapping>, i: nat)
    requires i <= |mappings| && MappingsAreOk(nameKey, inventory, mappings)
    ensures MappingsAreOk(nameKey, inventory, mappings[..i])
  {
    hide MappingOk;
    PartsDiffer(nameKey, mappings, i);
  }

  /**
   The loop over the mappings: the identifiers of the selected groups, or the failure of the first
   mapping that fails.
   */
  method CheckMappings(nameKey: string -> string, byId: map<string, Group>, mappings: seq<Mapping>,
                       ghost inventory: seq<Group>)
    returns (r: Result<set<string>, string>)
    requires IsInventory(inventory, byId)
    ensures r.Ok? <==> MappingsAreOk(nameKey, inventory, mappings)
    ensures r.Ok? ==> r.value == SelectedIds(mappings)
    ensures r.Err? ==> exists i :: 0 <= i < |mappings| && MappingsAreOk(nameKey, inventory, mappings[..i]) &&
                                   FailureOf(nameKey, inventory, mappings[..i], mappings[i]) == Some(r.error)
  {
    hide MappingsAreOk, IsInventory, MappingOk, TakenBy, FailureOf, RepeatsFacility, RepeatsSource;
    var taken := Taken({}, {}, {}, {}, {});
    NoMappings(nameKey, inventory);
    for i := 0 to |mappings|
      invariant MappingsAreOk(nameKey, inventory, mappings[..i]) && taken == TakenBy(nameKey, mappings[..i])
    {
      var m := mappings[i];
      assert mappings[..i + 1] == mappings[..i] + [m];
      MappingsStep(nameKey, inventory, mappings[..i], m);
      TakenGrows(nameKey, mappings[..i], m);
      NoFailureIff(nameKey, inventory, mappings[..i], m);
      var failure := CheckMapping(nameKey, byId, taken, m, inventory, mappings[..i]);
      if failure.Some? {
        if MappingsAreOk(nameKey, inventory, mappings) {
          MappingsPart(nameKey, inventory, mappings, i + 1);
        }
        return Err(failure.value);
      }
      taken := Taken(taken.ids + {m.facility.id}, taken.codes + {m.facility.code},
                     taken.names + {nameKey(m.facility.name)},
                     taken.groupIds + (if m.source.Some? then {m.source.value.id} else {}),
                     taken.groupEmails + (if m.source.Some? then {m.source.value.email} else {}));
    }
    assert mappings[..|mappings|] == mappings;
    TakenIsSelected(nameKey, mappings);
    r := Ok(taken.groupIds);
  }

  lemma NoMappings(nameKey: string -> string, inventory: seq<Group>)
    ensures MappingsAreOk(nameKey, inventory, []) && TakenBy(nameKey, []) == Taken({}, {}, {}, {}, {})
  {
  }

  lemma TakenIsSelected(nameKey: string -> string, mappings: seq<Mapping>)
    ensures TakenBy(nameKey, mappings).groupIds == SelectedIds(mappings)
  {
  }

  // ----- against the rebuilt draft -----

  ghost predicate IsMappingTable(mappings: seq<Mapping>, table: map<string, Mapping>) {
    forall id :: Lookup(table, id) == MappingWith(mappings, id)
  }

  method TableOfMappings(mappings: seq<Mapping>) returns (table: map<string, Mapping>)
    ensures IsMappingTable(mappings, table)
  {
    table := map[];
    for i := 0 to |mappings|
      invariant IsMappingTable(mappings[..i], table)
    {
      assert mappings[..i + 1][..i] == mappings[..i];
      table := table[mappings[i].facility.id := mappings[i]];
    }
    assert mappings[..|mappings|] == mappings;
  }

  method TableOfGroups(groups: seq<Group>) returns (table: map<string, Group>)
    ensures IsInventory(groups, table)
  {
    table := map[];
    for i := 0 to |groups|
      invariant IsInventory(groups[..i], table)
    {
      InventoryGrows(groups[..i], table, groups[i]);
      assert groups[..i + 1] == groups[..i] + [groups[i]];
      hide IsInventory;
      table := table[groups[i].id := groups[i]];
    }
    assert groups[..|groups|] == groups;
  }

  /** The inventory and every mapping come out of the rebuild as they are. */
  method CheckRebuilt(d: Draft, again: Draft) returns (ok: bool)
    ensures ok <==> MatchesRebuilt(d, again)
  {
    var byId := TableOfGroups(again.inventory);
    assert forall id :: Lookup(byId, id) == LastWith(again.inventory, id);
    if |again.inventory| != |d.inventory| || exists g :: g in d.inventory && Lookup(byId, g.id) != Some(g) {
      return false;
    }
    var table := TableOfMappings(again.mappings);
    assert forall id :: Lookup(table, id) == MappingWith(again.mappings, id);
    hide MappingWith, LastWith;
    for i := 0 to |d.mappings|
      invariant forall m :: m in d.mappings[..i] ==>
                  && MappingWith(again.mappings, m.facility.id).Some?
                  && MappingWith(again.mappings, m.facility.id).value.assessment == m.assessment
                  && MappingWith(again.mappings, m.facility.id).value.source == m.source
    {
      var m := d.mappings[i];
      assert d.mappings[..i + 1] == d.mappings[..i] + [m];
      var regenerated := Lookup(table, m.facility.id);
      if regenerated.None? || regenerated.value.assessment != m.assessment || regenerated.value.source != m.source {
        return false;
      }
    }
    assert d.mappings[..|d.mappings|] == d.mappings;
    return true;
  }

  // ----- the stale groups -----

  ghost predicate IsStaleTable(entries: seq<StaleEntry>, table: map<string, set<string>>) {
    forall id :: Lookup(table, id) == if EntryWith(entries, id).Some? then Some(EntryWith(entries, id).value.reasons)
                                      else None
  }

  method TableOfStale(entries: seq<StaleEntry>) returns (table: map<string, set<string>>)
    ensures IsStaleTable(entries, table)
    ensures forall id :: id in table <==> exists e :: e in entries && e.group.id == id
  {
    table := map[];
    for i := 0 to |entries|
      invariant IsStaleTable(entries[..i], table)
      invariant forall id :: id in table <==> exists e :: e in entries[..i] && e.group.id == id
    {
      assert entries[..i + 1][..i] == entries[..i] && entries[..i + 1] == entries[..i] + [entries[i]];
      table := table[entries[i].group.id := entries[i].reasons];
    }
    assert entries[..|entries|] == entries;
  }

  predicate StaleEntryOk(inventory: seq<Group>, expected: seq<StaleEntry>, e: StaleEntry) {
    && LastWith(inventory, e.group.id) == Some(e.group)
    && EntryWith(expected, e.group.id).Some?
    && EntryWith(expected, e.group.id).value.reasons == e.reasons
  }

  ghost predicate StalePartOk(inventory: seq<Group>, expected: seq<StaleEntry>, part: seq<StaleEntry>, ids: set<string>)
  {
    && (forall i, j :: 0 <= i < j < |part| ==> part[i].group.id != part[j].group.id)
    && (forall e :: e in part ==> StaleEntryOk(inventory, expected, e))
    && ids == set e | e in part :: e.group.id
  }

  lemma StalePartStep(inventory: seq<Group>, expected: seq<StaleEntry>, part: seq<StaleEntry>, ids: set<string>,
                      e: StaleEntry)
    requires StalePartOk(inventory, expected, part, ids) && e.group.id !in ids && StaleEntryOk(inventory, expected, e)
    ensures StalePartOk(inventory, expected, part + [e], ids + {e.group.id})
  {
    hide StaleEntryOk;
    assert forall i :: 0 <= i < |part| ==> part[i] in part;
  }

  lemma {:induction false} EntryTells(entries: seq<StaleEntry>, id: string)
    ensures EntryWith(entries, id).Some? <==> exists e :: e in entries && e.group.id == id
  {
    if entries != [] {
      var front := entries[..|entries| - 1];
      EntryTells(front, id);
      assert forall e :: e in entries <==> e in front || e == entries[|entries| - 1];
    }
  }

  /** The loop over the reported stale groups, and the check that none is left out. */
  method CheckStale(d: Draft, again: Draft, byId: map<string, Group>) returns (ok: bool)
    requires IsInventory(d.inventory, byId)
    ensures ok <==> StaleOk(d, again)
  {
    var expected := TableOfStale(again.stale);
    var ids: set<string> := {};
    for i := 0 to |d.stale|
      invariant StalePartOk(d.inventory, again.stale, d.stale[..i], ids)
    {
      var e := d.stale[i];
      hide StalePartOk, LastWith, EntryWith;
      assert d.stale[..i + 1] == d.stale[..i] + [e];
      assert Lookup(byId, e.group.id) == LastWith(d.inventory, e.group.id);
      assert Lookup(expected, e.group.id) ==
             if EntryWith(again.stale, e.group.id).Some? then Some(EntryWith(again.stale, e.group.id).value.reasons)
             else None;
      if Lookup(byId, e.group.id) != Some(e.group) || e.group.id in ids ||
        Lookup(expected, e.group.id) != Some(e.reasons) {
        StaleFails(d, again, i, ids);
        return false;
      }
      StalePartStep(d.inventory, again.stale, d.stale[..i], ids, e);
      ids := ids + {e.group.id};
    }
    assert d.stale[..|d.stale|] == d.stale;
    ok := forall id :: id in expected.Keys ==> id in ids;
    StaleAll(d, again, expected, ids);
  }

  lemma StaleFails(d: Draft, again: Draft, i: nat, ids: set<string>)
    requires i < |d.stale| && StalePartOk(d.inventory, again.stale, d.stale[..i], ids)
    requires !StaleEntryOk(d.inventory, again.stale, d.stale[i]) || d.stale[i].group.id in ids
    ensures !StaleOk(d, again)
  {
    hide LastWith, EntryWith;
    if d.stale[i].group.id in ids {
      var e :| e in d.stale[..i] && e.group.id == d.stale[i].group.id;
      var j :| 0 <= j < i && d.stale[j] == e;
      assert d.stale[j].group.id == d.stale[i].group.id;
    } else {
      assert d.stale[i] in d.stale;
    }
  }

  lemma StaleAll(d: Draft, again: Draft, expected: map<string, set<string>>, ids: set<string>)
    requires StalePartOk(d.inventory, again.stale, d.stale, ids)
    requires forall id :: id in expected <==> exists e :: e in again.stale && e.group.id == id
    ensures StaleOk(d, again) <==> forall id :: id in expected.Keys ==> id in ids
  {
    hide LastWith, EntryWith;
    forall id
      ensures EntryWith(d.stale, id).Some? <==> id in ids
    {
      EntryTells(d.stale, id);
    }
  }

  // ----- the validator -----

  lemma RebuildDecides(env: Env, nameKey: string -> string, d: Draft)
    ensures HasSourceRules(env, d) ==> (Validates(env, nameKey, d) <==> IsOwnRebuild(env, nameKey, d))
  {
    hide Validates, IsOwnRebuild, AreOrders, AreCodes;
    if HasSourceRules(env, d) {
      ValidatesIffOwnRebuild(env, nameKey, d);
    }
  }

  /** The comparators are orders and the rules give the source's own codes. */
  ghost predicate HasSourceRules(env: Env, d: Draft) {
    AreOrders(env) && AreCodes(env, Ranked(DraftedFacilities(d), env.facilityBefore))
  }

  /**
   The structural checks of `validateDraftForDomain`, in its order. With rules like the source's they
   accept exactly the drafts that are their own rebuild up to the order of their lists.
   */
  method ValidateDraft(env: Env, nameKey: string -> string, d: Draft) returns (r: Result<(), string>)
    ensures r.Ok? <==> Validates(env, nameKey, d)
    ensures HasSourceRules(env, d) ==> (r.Ok? <==> IsOwnRebuild(env, nameKey, d))
  {
    hide HasSourceRules, IsOwnRebuild;
    RebuildDecides(env, nameKey, d);
    hide InventoryOk, FacilitiesDiffer, SourcesDiffer, MappingOk, MatchesRebuilt, NothingQuarantined, StaleOk, ListOk;
    hide HintsOk, DuplicatesOk, WarningsOk, IsInventory;
    hide Build, Ranked, MissingIds, UncertainIds, SelectedIds, Outside, Ids;
    assert DraftedFacilities(d) == FacilitiesOf(d.mappings);
    var inventory := CheckInventory(d);
    if inventory.Err? {
      return Err(inventory.error);
    }
    var byId := inventory.value;
    var mappings := CheckMappings(nameKey, byId, d.mappings, d.inventory);
    if mappings.Err? {
      return Err(mappings.error);
    }
    if |d.mappings| != d.facilityCount {
      return Err("Draft facility count does not match its mappings.");
    }
    var again := BuildDraft(env, DraftedFacilities(d), d.inventory);
    var rebuilt := CheckRebuilt(d, again);
    if !rebuilt {
      return Err("Draft does not match the regenerated inventory.");
    }
    if !NothingQuarantined(d, again) {
      return Err("Draft mapping references a quarantined group.");
    }
    if Ranked(d.missing, env.idBefore) != MissingIds(env, d.mappings) ||
       Ranked(d.uncertain, env.idBefore) != UncertainIds(env, d.mappings) {
      return Err("Draft report does not match mapping assessments.");
    }
    if !ListOk(env, d.inventory, d.unassigned, Ids(Outside(d.inventory, mappings.value))) {
      return Err("Draft unassigned-group report does not match inventory.");
    }
    if !ListOk(env, d.inventory, d.ambiguous, Ids(again.ambiguous)) ||
      !ListOk(env, d.inventory, d.restricted, Ids(again.restricted)) {
      return Err("Draft group report does not match its inventory.");
    }
    var stale := CheckStale(d, again, byId);
    if !stale {
      return Err("Draft potential-staleness report does not match regenerated evidence.");
    }
    if !HintsOk(env, d, again) || !DuplicatesOk(env, d, again) {
      return Err("Draft report does not match regenerated evidence.");
    }
    if d.groupCount != |d.inventory| + d.omitted {
      return Err("Draft total group count is internally inconsistent.");
    }
    if !WarningsOk(env, d, again) {
      return Err("Draft warnings do not match regenerated evidence.");
    }
    r := Ok(());
  }
}
