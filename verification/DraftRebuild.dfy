/**
 What the draft validator accepts (`validateDraftForDomain`, scripts/ops/groups-inventory-input.ts), said
 without its checks: exactly the drafts that are their own rebuild up to the order of their lists.
 */
module DraftRebuild {
  import opened Wrappers
  import opened TopRanked
  import opened Facilities
  import opened BuildingDraft
  import opened DraftCheck
  import opened DraftMeaning

  // ----- lists up to order -----

  /** The same entries, each as often. */
  predicate SameEntries<T(==)>(xs: seq<T>, ys: seq<T>) { multiset(xs) == multiset(ys) }

  lemma CountTwice<T>(xs: seq<T>, i: nat, j: nat)
    requires i < j < |xs| && xs[i] == xs[j]
    ensures multiset(xs)[xs[i]] >= 2
  {
    assert xs == xs[..i] + [xs[i]] + xs[i + 1..j] + [xs[j]] + xs[j + 1..];
  }

  /** A permutation has the same members, and repeats none if the other list does not. */
  lemma PermutationKeeps<T>(xs: seq<T>, ys: seq<T>)
    requires SameEntries(xs, ys)
    ensures |xs| == |ys| && (forall x :: x in xs <==> x in ys) && (NoRepeats(xs) ==> NoRepeats(ys))
  {
    assert |multiset(xs)| == |xs| && |multiset(ys)| == |ys|;
    SameMembers(xs, ys);
    if NoRepeats(xs) {
      forall i, j | 0 <= i < j < |ys|
        ensures ys[i] != ys[j]
      {
        if ys[i] == ys[j] {
          CountTwice(ys, i, j);
          NoRepeatsCount(xs);
        }
      }
    }
  }

  lemma SortedSame(xs: seq<string>, ys: seq<string>, env: Env)
    requires AreOrders(env)
    ensures Ranked(xs, env.idBefore) == Ranked(ys, env.idBefore) <==> SameEntries(xs, ys)
  {
    RankedMultiset(xs, env.idBefore);
    RankedMultiset(ys, env.idBefore);
    if SameEntries(xs, ys) {
      RankedIsRanked(xs, env.idBefore);
      RankedIsRanked(ys, env.idBefore);
      SortedIsUnique(Ranked(xs, env.idBefore), Ranked(ys, env.idBefore), env.idBefore);
    }
  }

  // ----- what is compared -----

  /**
   The two drafts say the same, up to the order of their lists. The warnings among the hints and the
   counts of what was left out are not compared.
   */
  ghost predicate SaysTheSame(d: Draft, again: Draft) {
    && SameEntries(d.inventory, again.inventory) && SameEntries(d.mappings, again.mappings)
    && SameEntries(d.ambiguous, again.ambiguous) && SameEntries(d.restricted, again.restricted)
    && SameEntries(d.stale, again.stale) && SameEntries(d.unassigned, again.unassigned)
    && SameEntries(d.missing, again.missing) && SameEntries(d.uncertain, again.uncertain)
    && SameEntries(d.warnings, again.warnings)
    && d.hints.proposals == again.hints.proposals && SameEntries(d.hints.skipped, again.hints.skipped)
    && d.duplicates == again.duplicates
    && d.eligibleCount == again.eligibleCount && d.facilityCount == again.facilityCount
  }

  /** The limit warning does not depend on the order in which the draft lists its facilities. */
  predicate LimitAgrees(env: Env, d: Draft) {
    LIMIT_WARNING in env.hintsFor(DraftedFacilities(d)).warnings <==>
    LIMIT_WARNING in env.hintsFor(Ranked(DraftedFacilities(d), env.facilityBefore)).warnings
  }

  /** Nothing is listed twice, the counts add up, and building the draft again says the same. */
  ghost predicate IsOwnRebuild(env: Env, nameKey: string -> string, d: Draft) {
    && AreDistinct(nameKey, DraftedFacilities(d), d.inventory)
    && d.groupCount == |d.inventory| + d.omitted
    && SaysTheSame(d, Build(env, DraftedFacilities(d), d.inventory))
    && LimitAgrees(env, d)
  }

  // ----- groups by identifier -----

  lemma {:induction false} LastIsMember(groups: seq<Group>, id: string)
    ensures var g := LastWith(groups, id); g.Some? ==> g.value in groups && g.value.id == id
  {
    if groups != [] {
      LastIsMember(groups[..|groups| - 1], id);
    }
  }

  lemma DistinctOnce(groups: seq<Group>)
    requires DistinctIds(groups)
    ensures NoRepeats(groups) && NoRepeats(Ids(groups))
  {
  }

  lemma IdIsListed(groups: seq<Group>, id: string)
    ensures id in Ids(groups) <==> exists g :: g in groups && g.id == id
  {
    if id in Ids(groups) {
      var i :| 0 <= i < |groups| && Ids(groups)[i] == id;
      assert groups[i] in groups;
    }
    if g :| g in groups && g.id == id {
      var i :| 0 <= i < |groups| && groups[i] == g;
      assert Ids(groups)[i] == id;
    }
  }

  /** With the same members, all different in identifier, looking up finds the same. */
  lemma SameLast(groups: seq<Group>, others: seq<Group>, id: string)
    requires DistinctIds(groups) && DistinctIds(others) && forall g :: g in groups <==> g in others
    ensures LastWith(groups, id) == LastWith(others, id)
  {
    LastIsMember(groups, id);
    LastIsMember(others, id);
    if LastWith(groups, id).Some? {
      LastOfDistinct(others, LastWith(groups, id).value);
    } else if LastWith(others, id).Some? {
      LastOfDistinct(groups, LastWith(others, id).value);
    }
  }

  lemma InventoryOnly(inventory: seq<Group>, reported: seq<Group>)
    requires DistinctIds(inventory)
    ensures (forall g :: g in reported ==> LastWith(inventory, g.id) == Some(g)) <==>
            (forall g :: g in reported ==> g in inventory)
  {
    forall g | g in reported
      ensures LastWith(inventory, g.id) == Some(g) <==> g in inventory
    {
      LastIsMember(inventory, g.id);
      if g in inventory {
        LastOfDistinct(inventory, g);
      }
    }
  }

  /** The check of a reported list: it is the expected list up to order. */
  lemma ListOkIff(env: Env, inventory: seq<Group>, reported: seq<Group>, expected: seq<Group>)
    requires AreOrders(env) && DistinctIds(inventory) && DistinctIds(expected)
    requires forall g :: g in expected ==> g in inventory
    ensures ListOk(env, inventory, reported, Ids(expected)) <==> SameEntries(reported, expected)
  {
    hide AreOrders;
    InventoryOnly(inventory, reported);
    SortedSame(Ids(reported), Ids(expected), env);
    DistinctOnce(expected);
    if SameEntries(reported, expected) {
      PermutationKeeps(expected, reported);
      DistinctIfMembers(inventory, reported);
      DistinctOnce(reported);
      SameIds(reported, expected);
    }
    if ListOk(env, inventory, reported, Ids(expected)) {
      DistinctOnce(reported);
      forall g
        ensures g in reported <==> g in expected
      {
        MemberById(inventory, reported, expected, g);
        MemberById(inventory, expected, reported, g);
      }
      SameMultiset(reported, expected);
    }
  }

  lemma DistinctIfMembers(inventory: seq<Group>, reported: seq<Group>)
    requires DistinctIds(inventory) && NoRepeats(reported) && forall g :: g in reported ==> g in inventory
    ensures DistinctIds(reported)
  {
    forall i, j | 0 <= i < j < |reported|
      ensures reported[i].id != reported[j].id
    {
      assert reported[i] in reported && reported[j] in reported;
      OneGroup(inventory, reported[i], reported[j]);
    }
  }

  lemma SameIds(xs: seq<Group>, ys: seq<Group>)
    requires DistinctIds(xs) && DistinctIds(ys) && forall g :: g in xs <==> g in ys
    ensures SameEntries(Ids(xs), Ids(ys))
  {
    DistinctOnce(xs);
    DistinctOnce(ys);
    forall id
      ensures id in Ids(xs) <==> id in Ids(ys)
    {
      IdIsListed(xs, id);
      IdIsListed(ys, id);
    }
    SameMultiset(Ids(xs), Ids(ys));
  }

  lemma MemberById(inventory: seq<Group>, xs: seq<Group>, ys: seq<Group>, g: Group)
    requires DistinctIds(inventory) && SameEntries(Ids(xs), Ids(ys))
    requires (forall h :: h in xs ==> h in inventory) && (forall h :: h in ys ==> h in inventory)
    ensures g in xs ==> g in ys
  {
    if g in xs {
      IdIsListed(xs, g.id);
      SameMembers(Ids(xs), Ids(ys));
      IdIsListed(ys, g.id);
      var h :| h in ys && h.id == g.id;
      OneGroup(inventory, g, h);
    }
  }

  // ----- facilities by identifier -----

  predicate DifferInFacility(mappings: seq<Mapping>) {
    forall j, k :: 0 <= j < k < |mappings| ==> mappings[j].facility.id != mappings[k].facility.id
  }

  lemma {:induction false} MappingIsMember(mappings: seq<Mapping>, id: string)
    ensures var m := MappingWith(mappings, id); m.Some? ==> m.value in mappings && m.value.facility.id == id
  {
    if mappings != [] {
      MappingIsMember(mappings[..|mappings| - 1], id);
    }
  }

  lemma {:induction false} FilteredIdsOnce(mappings: seq<Mapping>, keep: Mapping -> bool)
    requires DifferInFacility(mappings)
    ensures NoRepeats(FacilityIds(Filter(mappings, keep)))
  {
    if mappings != [] {
      var front, last := mappings[..|mappings| - 1], mappings[|mappings| - 1];
      FilteredIdsOnce(front, keep);
      var kept := Filter(front, keep);
      forall i | 0 <= i < |kept|
        ensures FacilityIds(kept)[i] == kept[i].facility.id && kept[i].facility.id != last.facility.id
      {
        assert kept[i] in kept;
        var j :| 0 <= j < |front| && front[j] == kept[i];
        assert mappings[j] == kept[i];
      }
      assert FacilityIds(kept + [last]) == FacilityIds(kept) + [last.facility.id];
      assert kept + [] == kept;
    }
  }

  /** The identifiers of chosen mappings do not depend on the order of the mappings. */
  lemma SameFilteredIds(xs: seq<Mapping>, ys: seq<Mapping>, keep: Mapping -> bool)
    requires DifferInFacility(xs) && DifferInFacility(ys) && forall m :: m in xs <==> m in ys
    ensures SameEntries(FacilityIds(Filter(xs, keep)), FacilityIds(Filter(ys, keep)))
  {
    FilteredIdsOnce(xs, keep);
    FilteredIdsOnce(ys, keep);
    var a, b := FacilityIds(Filter(xs, keep)), FacilityIds(Filter(ys, keep));
    forall id
      ensures id in a <==> id in b
    {
      IdOfFiltered(xs, keep, id);
      IdOfFiltered(ys, keep, id);
    }
    SameMultiset(a, b);
  }

  lemma SameFacilityLists(env: Env, xs: seq<Mapping>, ys: seq<Mapping>)
    requires DifferInFacility(xs) && DifferInFacility(ys) && forall m :: m in xs <==> m in ys
    requires AreOrders(env)
    ensures MissingIds(env, xs) == MissingIds(env, ys) && UncertainIds(env, xs) == UncertainIds(env, ys)
  {
    var isMissing := (m: Mapping) => m.facility.active && m.assessment.outcome.Missing?;
    var isUncertain := (m: Mapping) => m.assessment.outcome.Uncertain?;
    SameFilteredIds(xs, ys, isMissing);
    SameFilteredIds(xs, ys, isUncertain);
    SortedSame(FacilityIds(Filter(xs, isMissing)), FacilityIds(Filter(ys, isMissing)), env);
    SortedSame(FacilityIds(Filter(xs, isUncertain)), FacilityIds(Filter(ys, isUncertain)), env);
    assert MissingIds(env, xs) == Ranked(FacilityIds(Filter(xs, isMissing)), env.idBefore);
    assert MissingIds(env, ys) == Ranked(FacilityIds(Filter(ys, isMissing)), env.idBefore);
    assert UncertainIds(env, xs) == Ranked(FacilityIds(Filter(xs, isUncertain)), env.idBefore);
    assert UncertainIds(env, ys) == Ranked(FacilityIds(Filter(ys, isUncertain)), env.idBefore);
  }

  lemma SameSelected(xs: seq<Mapping>, ys: seq<Mapping>)
    requires forall m :: m in xs <==> m in ys
    ensures SelectedIds(xs) == SelectedIds(ys)
  {
  }

  // ----- the inventory and the mappings -----

  /** What is known of a rebuild, whatever the checks say. */
  ghost predicate IsRebuild(env: Env, nameKey: string -> string, d: Draft, again: Draft) {
    var fs := Ranked(DraftedFacilities(d), env.facilityBefore);
    && DistinctIds(d.inventory) && DifferInFacility(d.mappings)
    && DistinctIds(again.inventory) && (forall g :: g in again.inventory ==> g in d.inventory)
    && DifferInFacility(again.mappings) && DraftedFacilities(again) == fs
    && IsFresh(env, fs, again)
    && again.missing == MissingIds(env, again.mappings) && again.uncertain == UncertainIds(env, again.mappings)
  }

  lemma RebuildFacts(env: Env, nameKey: string -> string, d: Draft)
    requires AreDistinct(nameKey, DraftedFacilities(d), d.inventory)
    ensures IsRebuild(env, nameKey, d, Build(env, DraftedFacilities(d), d.inventory))
  {
    hide Build, IsFresh, Eligible, MissingIds, UncertainIds;
    var facilities := DraftedFacilities(d);
    var again, fs := Build(env, facilities, d.inventory), Ranked(facilities, env.facilityBefore);
    PartsOfDraft(env, nameKey, facilities, d.inventory);
    FreshMappings(env, fs, again);
    forall g | g in again.inventory
      ensures g in d.inventory
    {
      InventoryIff(env, nameKey, facilities, d.inventory, g);
    }
    DifferByFacility(nameKey, d);
  }

  lemma DifferByFacility(nameKey: string -> string, d: Draft)
    requires FacilitiesDiffer(nameKey, DraftedFacilities(d))
    ensures DifferInFacility(d.mappings)
  {
    var facilities := DraftedFacilities(d);
    forall j, k | 0 <= j < k < |d.mappings|
      ensures d.mappings[j].facility.id != d.mappings[k].facility.id
    {
      assert facilities[j].id != facilities[k].id;
    }
  }

  lemma FreshMappings(env: Env, fs: seq<Facility>, again: Draft)
    requires IsFresh(env, fs, again) && DistinctFacilityIds(fs)
    ensures DifferInFacility(again.mappings) && DraftedFacilities(again) == fs
  {
    hide MappingOf, Matchable;
    MappedFacilities(env.rulesFor(fs), Matchable(env.rulesFor(fs), again.inventory), fs);
  }

  lemma MappedOnce(mappings: seq<Mapping>)
    requires DifferInFacility(mappings)
    ensures NoRepeats(mappings)
    ensures forall m :: m in mappings ==> MappingWith(mappings, m.facility.id) == Some(m)
  {
    forall m | m in mappings
      ensures MappingWith(mappings, m.facility.id) == Some(m)
    {
      var i :| 0 <= i < |mappings| && mappings[i] == m;
      MappingIsFound(mappings, i);
    }
  }

  lemma DraftedIff(d: Draft, f: Facility)
    ensures f in DraftedFacilities(d) <==> exists m :: m in d.mappings && m.facility == f
  {
    if f in DraftedFacilities(d) {
      var i :| 0 <= i < |d.mappings| && DraftedFacilities(d)[i] == f;
      assert d.mappings[i] in d.mappings;
    }
    if m :| m in d.mappings && m.facility == f {
      var i :| 0 <= i < |d.mappings| && d.mappings[i] == m;
      assert DraftedFacilities(d)[i] == f;
    }
  }

  lemma OneMapping(mappings: seq<Mapping>, m: Mapping, n: Mapping)
    requires DifferInFacility(mappings) && m in mappings && n in mappings && m.facility.id == n.facility.id
    ensures m == n
  {
  }

  /** The comparison with the rebuild: the same groups and the same mappings. */
  lemma MatchesIff(env: Env, nameKey: string -> string, d: Draft, again: Draft)
    requires IsRebuild(env, nameKey, d, again)
    ensures MatchesRebuilt(d, again) <==>
              SameEntries(d.inventory, again.inventory) && SameEntries(d.mappings, again.mappings)
  {
    hide IsFresh, MissingIds, UncertainIds;
    DistinctOnce(d.inventory);
    DistinctOnce(again.inventory);
    MappedOnce(d.mappings);
    MappedOnce(again.mappings);
    if MatchesRebuilt(d, again) {
      forall g | g in d.inventory
        ensures g in again.inventory
      {
        LastIsMember(again.inventory, g.id);
      }
      SameMultiset(d.inventory, again.inventory);
      forall m
        ensures m in d.mappings <==> m in again.mappings
      {
        KeptMapping(env, d, again, m);
      }
      SameMultiset(d.mappings, again.mappings);
    }
    if SameEntries(d.inventory, again.inventory) && SameEntries(d.mappings, again.mappings) {
      PermutationKeeps(d.inventory, again.inventory);
      PermutationKeeps(d.mappings, again.mappings);
      InventoryOnly(again.inventory, d.inventory);
    }
  }

  lemma KeptMapping(env: Env, d: Draft, again: Draft, m: Mapping)
    requires DifferInFacility(d.mappings) && DifferInFacility(again.mappings)
    requires DraftedFacilities(again) == Ranked(DraftedFacilities(d), env.facilityBefore)
    requires MatchesRebuilt(d, again)
    ensures m in d.mappings <==> m in again.mappings
  {
    hide Ranked;
    RankedKeepsAll(DraftedFacilities(d), env.facilityBefore);
    if m in d.mappings {
      var n := MappingWith(again.mappings, m.facility.id).value;
      MappingIsMember(again.mappings, m.facility.id);
      DraftedIff(again, n.facility);
      DraftedIff(d, n.facility);
      var o :| o in d.mappings && o.facility == n.facility;
      OneMapping(d.mappings, m, o);
    } else if m in again.mappings {
      DraftedIff(again, m.facility);
      DraftedIff(d, m.facility);
      var o :| o in d.mappings && o.facility == m.facility;
      MappedOnce(again.mappings);
      assert false;
    }
  }

  // ----- the lists of the report -----

  lemma {:induction false} EntryIsMember(entries: seq<StaleEntry>, id: string)
    ensures var e := EntryWith(entries, id); e.Some? ==> e.value in entries && e.value.group.id == id
  {
    if entries != [] {
      EntryIsMember(entries[..|entries| - 1], id);
    }
  }

  lemma EntriesOnce(entries: seq<StaleEntry>)
    requires DistinctEntries(entries)
    ensures NoRepeats(entries) && forall e :: e in entries ==> EntryWith(entries, e.group.id) == Some(e)
  {
    forall e | e in entries
      ensures EntryWith(entries, e.group.id) == Some(e)
    {
      EntryOfDistinct(entries, e);
    }
  }

  /** The check of the stale report: it is the rebuilt one up to order. */
  lemma StaleOkIff(d: Draft, again: Draft)
    requires DistinctIds(d.inventory) && DistinctEntries(again.stale)
    requires forall e :: e in again.stale ==> e.group in d.inventory
    ensures StaleOk(d, again) <==> SameEntries(d.stale, again.stale)
  {
    EntriesOnce(again.stale);
    if StaleOk(d, again) {
      assert DistinctEntries(d.stale);
      EntriesOnce(d.stale);
      forall e
        ensures e in d.stale <==> e in again.stale
      {
        KeptEntry(d, again, e);
      }
      SameMultiset(d.stale, again.stale);
    }
    if SameEntries(d.stale, again.stale) {
      PermutationKeeps(again.stale, d.stale);
      SameStale(d, again);
    }
  }

  lemma KeptEntry(d: Draft, again: Draft, e: StaleEntry)
    requires DistinctIds(d.inventory) && DistinctEntries(again.stale) && StaleOk(d, again)
    requires forall x :: x in again.stale ==> x.group in d.inventory
    ensures e in d.stale <==> e in again.stale
  {
    if e in d.stale {
      EntryIsMember(again.stale, e.group.id);
      LastIsMember(d.inventory, e.group.id);
      OneGroup(d.inventory, e.group, EntryWith(again.stale, e.group.id).value.group);
    } else if e in again.stale {
      EntryIsMember(d.stale, e.group.id);
      var x := EntryWith(d.stale, e.group.id).value;
      LastIsMember(d.inventory, x.group.id);
      OneGroup(d.inventory, e.group, x.group);
      EntryOfDistinct(again.stale, e);
      assert false;
    }
  }

  lemma SameStale(d: Draft, again: Draft)
    requires DistinctIds(d.inventory) && DistinctEntries(again.stale) && NoRepeats(d.stale)
    requires (forall e :: e in again.stale ==> e.group in d.inventory)
    requires forall e :: e in d.stale <==> e in again.stale
    ensures StaleOk(d, again)
  {
    EntriesOnce(again.stale);
    forall i, j | 0 <= i < j < |d.stale|
      ensures d.stale[i].group.id != d.stale[j].group.id
    {
      assert d.stale[i] in again.stale && d.stale[j] in again.stale;
      assert EntryWith(again.stale, d.stale[i].group.id) == Some(d.stale[i]);
    }
    EntriesOnce(d.stale);
    forall e | e in d.stale
      ensures LastWith(d.inventory, e.group.id) == Some(e.group)
    {
      LastOfDistinct(d.inventory, e.group);
    }
  }

  /** The check of the duplicates: there are none. */
  lemma DuplicatesOkIff(env: Env, d: Draft, again: Draft)
    requires again.duplicates == []
    ensures DuplicatesOk(env, d, again) <==> d.duplicates == []
  {
    assert Sorted(env, []) == [];
    assert |Sorted(env, d.duplicates)| == |d.duplicates|;
  }

  /** What the rebuild's own lists are like. */
  lemma RebuiltLists(env: Env, fs: seq<Facility>, again: Draft)
    requires IsFresh(env, fs, again) && DistinctIds(again.inventory) && DistinctEmails(again.inventory)
    ensures DistinctIds(again.ambiguous) && DistinctIds(again.restricted) && DistinctEntries(again.stale)
    ensures (forall g :: g in again.ambiguous ==> g in again.inventory)
    ensures (forall g :: g in again.restricted ==> g in again.inventory)
    ensures (forall e :: e in again.stale ==> e.group in again.inventory)
  {
    var rules := env.rulesFor(fs);
    InsideDistinct(again.inventory, RestrictedIds(rules, again.inventory));
    InsideDistinct(again.inventory, AmbiguousIds(rules, again.inventory));
    FreshStaleList(env, rules, again.inventory);
  }

  /** The unassigned list of the rebuild has the groups outside the selected ones, in whatever order they came. */
  lemma UnassignedIs(env: Env, fs: seq<Facility>, d: Draft, again: Draft)
    requires IsFresh(env, fs, again) && DistinctIds(d.inventory) && DistinctEmails(d.inventory)
    requires DistinctIds(again.inventory) && DistinctEmails(again.inventory)
    requires forall g :: g in d.inventory <==> g in again.inventory
    requires forall m :: m in d.mappings <==> m in again.mappings
    ensures var expected := Outside(d.inventory, SelectedIds(d.mappings));
            DistinctIds(expected) && SameEntries(again.unassigned, expected)
  {
    SameSelected(d.mappings, again.mappings);
    var ids := SelectedIds(d.mappings);
    var expected, rebuilt := Outside(d.inventory, ids), Outside(again.inventory, ids);
    OutsideDistinct(d.inventory, ids);
    OutsideDistinct(again.inventory, ids);
    DistinctOnce(expected);
    DistinctOnce(rebuilt);
    SameMultiset(rebuilt, expected);
    RankedMultiset(rebuilt, env.emailBefore);
  }

  // ----- the two directions -----

  lemma ListedSame(env: Env, nameKey: string -> string, d: Draft, again: Draft)
    requires AreOrders(env) && IsRebuild(env, nameKey, d, again)
    requires DistinctEmails(d.inventory) && DistinctEmails(again.inventory)
    requires SameEntries(d.inventory, again.inventory) && SameEntries(d.mappings, again.mappings)
    ensures Ranked(d.missing, env.idBefore) == MissingIds(env, d.mappings) <==> SameEntries(d.missing, again.missing)
    ensures Ranked(d.uncertain, env.idBefore) == UncertainIds(env, d.mappings) <==>
              SameEntries(d.uncertain, again.uncertain)
    ensures ListOk(env, d.inventory, d.unassigned, Ids(Outside(d.inventory, SelectedIds(d.mappings)))) <==>
              SameEntries(d.unassigned, again.unassigned)
    ensures ListOk(env, d.inventory, d.ambiguous, Ids(again.ambiguous)) <==> SameEntries(d.ambiguous, again.ambiguous)
    ensures ListOk(env, d.inventory, d.restricted, Ids(again.restricted)) <==>
              SameEntries(d.restricted, again.restricted)
    ensures StaleOk(d, again) <==> SameEntries(d.stale, again.stale)
    ensures DuplicatesOk(env, d, again) <==> d.duplicates == again.duplicates
  {
    hide IsFresh, ListOk, StaleOk, DuplicatesOk, MissingIds, UncertainIds, Outside, AreOrders;
    var fs := Ranked(DraftedFacilities(d), env.facilityBefore);
    PermutationKeeps(d.inventory, again.inventory);
    PermutationKeeps(d.mappings, again.mappings);
    RebuiltLists(env, fs, again);
    UnassignedIs(env, fs, d, again);
    ListOkIff(env, d.inventory, d.unassigned, Outside(d.inventory, SelectedIds(d.mappings)));
    ListOkIff(env, d.inventory, d.ambiguous, again.ambiguous);
    ListOkIff(env, d.inventory, d.restricted, again.restricted);
    StaleOkIff(d, again);
    assert again.duplicates == [] by { NoDuplicatesAgain(env, fs, again); }
    DuplicatesOkIff(env, d, again);
    SameFacilityLists(env, d.mappings, again.mappings);
    SortedLists(env, d, again);
  }

  lemma NoDuplicatesAgain(env: Env, fs: seq<Facility>, again: Draft)
    requires IsFresh(env, fs, again)
    ensures again.duplicates == []
  {
  }

  lemma SortedLists(env: Env, d: Draft, again: Draft)
    requires AreOrders(env)
    requires again.missing == MissingIds(env, d.mappings) && again.uncertain == UncertainIds(env, d.mappings)
    ensures Ranked(d.missing, env.idBefore) == MissingIds(env, d.mappings) <==> SameEntries(d.missing, again.missing)
    ensures Ranked(d.uncertain, env.idBefore) == UncertainIds(env, d.mappings) <==>
              SameEntries(d.uncertain, again.uncertain)
  {
    SortedSame(d.missing, again.missing, env);
    SortedSame(d.uncertain, again.uncertain, env);
    MissingIsSorted(env, d.mappings);
  }

  lemma MissingIsSorted(env: Env, mappings: seq<Mapping>)
    requires AreOrders(env)
    ensures Ranked(MissingIds(env, mappings), env.idBefore) == MissingIds(env, mappings)
    ensures Ranked(UncertainIds(env, mappings), env.idBefore) == UncertainIds(env, mappings)
  {
    var missing := FacilityIds(Filter(mappings, (m: Mapping) => m.facility.active && m.assessment.outcome.Missing?));
    var uncertain := FacilityIds(Filter(mappings, (m: Mapping) => m.assessment.outcome.Uncertain?));
    RankedIsRanked(missing, env.idBefore);
    RankedIsRanked(uncertain, env.idBefore);
    RankedOfRanked(Ranked(missing, env.idBefore), env.idBefore);
    RankedOfRanked(Ranked(uncertain, env.idBefore), env.idBefore);
  }

  lemma MappingsStillOk(inventory: seq<Group>, others: seq<Group>, m: Mapping)
    requires DistinctIds(inventory) && DistinctIds(others) && forall g :: g in inventory <==> g in others
    requires MappingOk(others, m)
    ensures MappingOk(inventory, m)
  {
    hide AssessmentOk;
    forall id
      ensures LastWith(inventory, id) == LastWith(others, id)
    {
      SameLast(inventory, others, id);
    }
  }

  lemma SourcesStillDiffer(xs: seq<Mapping>, ys: seq<Mapping>)
    requires NoRepeats(xs) && (forall m :: m in xs ==> m in ys) && SourcesDiffer(ys)
    ensures SourcesDiffer(xs)
  {
    forall i, j | 0 <= i < j < |xs| && xs[i].source.Some? && xs[j].source.Some?
      ensures xs[i].source.value.id != xs[j].source.value.id && xs[i].source.value.email != xs[j].source.value.email
    {
      assert xs[i] in ys && xs[j] in ys;
      var k :| 0 <= k < |ys| && ys[k] == xs[i];
      var n :| 0 <= n < |ys| && ys[n] == xs[j];
      assert k < n || n < k;
    }
  }

  lemma StillNothingQuarantined(d: Draft, again: Draft, twice: Draft)
    requires NothingQuarantined(again, twice) && forall m :: m in d.mappings ==> m in again.mappings
    requires twice.restricted == again.restricted && twice.stale == again.stale && twice.ambiguous == again.ambiguous
    ensures NothingQuarantined(d, again)
  {
  }

  /** The check of the warnings: they are the rebuild's up to order, and the limit agrees. */
  lemma WarningsOkIff(env: Env, d: Draft, again: Draft)
    requires AreOrders(env)
    requires var fs := Ranked(DraftedFacilities(d), env.facilityBefore);
             AreCodes(env, fs) && IsFresh(env, fs, again) &&
               again.warnings == Warnings(env.rulesFor(fs), again.inventory, env.hintsFor(fs))
    ensures WarningsOk(env, d, again) <==> SameEntries(d.warnings, again.warnings) && LimitAgrees(env, d)
  {
    hide Warnings, AreOrders;
    var fs := Ranked(DraftedFacilities(d), env.facilityBefore);
    var rules, hints := env.rulesFor(fs), env.hintsFor(fs);
    SortedSame(d.warnings, again.warnings, env);
    WarningFacts(rules, again.inventory, hints);
    WarningsDiffer(rules, again.inventory, hints);
    ListsById(rules, again.inventory);
    if SameEntries(d.warnings, again.warnings) {
      PermutationKeeps(again.warnings, d.warnings);
    }
  }

  lemma ListsById(rules: GroupRules, eligible: seq<Group>)
    ensures IdsOf(Inside(eligible, RestrictedIds(rules, eligible))) == RestrictedIds(rules, eligible)
    ensures IdsOf(Inside(eligible, AmbiguousIds(rules, eligible))) == AmbiguousIds(rules, eligible)
  {
    hide HasAmbiguousScope;
    IdsOfInside(eligible, RestrictedIds(rules, eligible));
    IdsOfInside(eligible, AmbiguousIds(rules, eligible));
  }

  lemma HintsOkIff(env: Env, d: Draft, again: Draft)
    requires AreOrders(env)
    ensures HintsOk(env, d, again) <==>
              d.hints.proposals == again.hints.proposals && SameEntries(d.hints.skipped, again.hints.skipped)
  {
    SortedSame(d.hints.skipped, again.hints.skipped, env);
  }

  lemma WarningsAgain(env: Env, nameKey: string -> string, facilities: seq<Facility>, groups: seq<Group>)
    requires AreDistinct(nameKey, facilities, groups)
    ensures var d, fs := Build(env, facilities, groups), Ranked(facilities, env.facilityBefore);
            && d.warnings == Warnings(env.rulesFor(fs), d.inventory, env.hintsFor(fs))
            && d.eligibleCount == |d.inventory| && d.facilityCount == |d.mappings|
  {
    hide Warnings;
    var fs, gs := Ranked(facilities, env.facilityBefore), Ranked(groups, env.groupBefore);
    EligibleDistinct(nameKey, env, facilities, groups);
    ReportKeeps(env, fs, Eligible(env.rulesFor(fs), gs));
    ReportIs(env, nameKey, fs, Eligible(env.rulesFor(fs), gs));
  }

  /** Given the same groups and mappings, the checks of the report come to the lists being the same. */
  lemma ReportOkIff(env: Env, nameKey: string -> string, d: Draft)
    requires AreOrders(env) && AreDistinct(nameKey, DraftedFacilities(d), d.inventory)
    requires AreCodes(env, Ranked(DraftedFacilities(d), env.facilityBefore))
    requires var again := Build(env, DraftedFacilities(d), d.inventory);
             SameEntries(d.inventory, again.inventory) && SameEntries(d.mappings, again.mappings)
    ensures var again := Build(env, DraftedFacilities(d), d.inventory);
            ReportOk(env, d, again) && d.eligibleCount == |d.inventory| && d.facilityCount == |d.mappings| <==>
              SaysTheSame(d, again) && d.groupCount == |d.inventory| + d.omitted && LimitAgrees(env, d)
  {
    hide Build, AreOrders, AreCodes, IsFresh, ListOk, StaleOk, DuplicatesOk, HintsOk, WarningsOk, MissingIds;
    hide UncertainIds, Outside, Warnings, LimitAgrees;
    var facilities := DraftedFacilities(d);
    var again := Build(env, facilities, d.inventory);
    RebuildFacts(env, nameKey, d);
    PartsOfDraft(env, nameKey, facilities, d.inventory);
    WarningsAgain(env, nameKey, facilities, d.inventory);
    ListedSame(env, nameKey, d, again);
    WarningsOkIff(env, d, again);
    HintsOkIff(env, d, again);
    PermutationKeeps(d.inventory, again.inventory);
    PermutationKeeps(d.mappings, again.mappings);
  }

  /** A draft that the validator accepts is its own rebuild. */
  lemma AcceptedIsRebuild(env: Env, nameKey: string -> string, d: Draft)
    requires AreOrders(env) && AreCodes(env, Ranked(DraftedFacilities(d), env.facilityBefore))
    requires Validates(env, nameKey, d)
    ensures IsOwnRebuild(env, nameKey, d)
  {
    hide Build, AreOrders, AreCodes, ReportOk, NothingQuarantined, MappingOk, SourcesDiffer, MatchesRebuilt;
    hide SaysTheSame, LimitAgrees, IsRebuild;
    var again := Build(env, DraftedFacilities(d), d.inventory);
    RebuildFacts(env, nameKey, d);
    MatchesIff(env, nameKey, d, again);
    ReportOkIff(env, nameKey, d);
  }

  /** What the validator says of the rebuild itself. */
  lemma RebuildPasses(env: Env, nameKey: string -> string, d: Draft)
    requires AreOrders(env) && AreCodes(env, Ranked(DraftedFacilities(d), env.facilityBefore))
    requires AreDistinct(nameKey, DraftedFacilities(d), d.inventory)
    requires SaysTheSame(d, Build(env, DraftedFacilities(d), d.inventory))
    ensures (forall m :: m in d.mappings ==> MappingOk(d.inventory, m)) && SourcesDiffer(d.mappings)
    ensures NothingQuarantined(d, Build(env, DraftedFacilities(d), d.inventory))
  {
    hide Build, AreCodes, ReportOk, MappingOk, SourcesDiffer, MatchesRebuilt, IsFresh, NothingQuarantined;
    var facilities := DraftedFacilities(d);
    var again := Build(env, facilities, d.inventory);
    FreshDraftValidates(env, nameKey, facilities, d.inventory);
    BuildIsIdempotent(env, facilities, d.inventory);
    var twice := Build(env, DraftedFacilities(again), again.inventory);
    RebuildFacts(env, nameKey, d);
    PermutationKeeps(d.inventory, again.inventory);
    PermutationKeeps(d.mappings, again.mappings);
    MappedOnce(d.mappings);
    forall m | m in d.mappings
      ensures MappingOk(d.inventory, m)
    {
      MappingsStillOk(d.inventory, again.inventory, m);
    }
    SourcesStillDiffer(d.mappings, again.mappings);
    StillNothingQuarantined(d, again, twice);
  }

  /**
   The validator accepts a draft exactly if no group or facility is listed twice, the counts add up, and
   building it again from its own facilities and inventory says the same up to the order of the lists.
   */
  lemma ValidatesIffOwnRebuild(env: Env, nameKey: string -> string, d: Draft)
    requires AreOrders(env) && AreCodes(env, Ranked(DraftedFacilities(d), env.facilityBefore))
    ensures Validates(env, nameKey, d) <==> IsOwnRebuild(env, nameKey, d)
  {
    hide Build, AreOrders, AreCodes, ReportOk, NothingQuarantined, MappingOk, SourcesDiffer, MatchesRebuilt;
    hide LimitAgrees, IsRebuild;
    if Validates(env, nameKey, d) {
      AcceptedIsRebuild(env, nameKey, d);
    }
    if IsOwnRebuild(env, nameKey, d) {
      var again := Build(env, DraftedFacilities(d), d.inventory);
      RebuildFacts(env, nameKey, d);
      MatchesIff(env, nameKey, d, again);
      ReportOkIff(env, nameKey, d);
      RebuildPasses(env, nameKey, d);
    }
  }
}
