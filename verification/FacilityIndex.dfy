/**
 The alias indices and the capped lookups over them (scripts/ops/groups-inventory-classification.ts).
 A facility context is its position in the list of compact facilities; a bit set is a set of
 positions.
 */
module FacilityIndex {
  import opened CompactTokens
  import opened Facilities

  const MAX_CONTEXTS := 64

  datatype Entry = Entry(contexts: seq<nat>, bits: set<nat>, hasInactive: bool, overflow: bool)

  // ----- what an entry says -----

  /** The facilities among the first `n` that have the alias, in order. */
  function Holders<K(==)>(aliases: seq<seq<K>>, alias: K, n: nat): (h: seq<nat>)
    requires n <= |aliases|
    ensures forall i :: i in h <==> 0 <= i < n && alias in aliases[i]
  {
    if n == 0 then [] else Holders(aliases, alias, n - 1) + if alias in aliases[n - 1] then [n - 1] else []
  }

  function First(h: seq<nat>): seq<nat> { if |h| <= MAX_CONTEXTS then h else h[..MAX_CONTEXTS] }

  predicate IsActive(active: seq<bool>, i: nat) { i < |active| && active[i] }

  function EntryOf(h: seq<nat>, active: seq<bool>): Entry {
    Entry(First(h), set i | i in h, exists i :: i in h && !IsActive(active, i), |h| > MAX_CONTEXTS)
  }

  /** The facilities that hold the alias once the first `j` aliases of facility `i` have been entered. */
  function Held<K(==)>(aliases: seq<seq<K>>, alias: K, i: nat, j: nat): seq<nat>
    requires i < |aliases| && j <= |aliases[i]|
  {
    Holders(aliases, alias, i) + if alias in aliases[i][..j] then [i] else []
  }

  function Entered(entry: Entry, i: nat, isActive: bool): Entry {
    Entry(if |entry.contexts| < MAX_CONTEXTS then entry.contexts + [i] else entry.contexts,
          entry.bits + {i}, entry.hasInactive || !isActive, entry.overflow || |entry.contexts| >= MAX_CONTEXTS)
  }

  lemma EnteredIsEntry(h: seq<nat>, active: seq<bool>, i: nat)
    ensures Entered(EntryOf(h, active), i, IsActive(active, i)) == EntryOf(h + [i], active)
  {
    var more := h + [i];
    assert forall k :: k in more <==> k in h || k == i;
    assert EntryOf(more, active).bits == EntryOf(h, active).bits + {i};
    assert EntryOf(more, active).hasInactive == (EntryOf(h, active).hasInactive || !IsActive(active, i));
  }

  lemma HeldStep<K>(aliases: seq<seq<K>>, i: nat, j: nat)
    requires i < |aliases| && j < |aliases[i]|
    ensures forall a :: a != aliases[i][j] || a in aliases[i][..j] ==>
              Held(aliases, a, i, j + 1) == Held(aliases, a, i, j)
    ensures var alias := aliases[i][j];
            alias !in aliases[i][..j] ==> Held(aliases, alias, i, j + 1) == Held(aliases, alias, i, j) + [i]
  {
    assert aliases[i][..j + 1] == aliases[i][..j] + [aliases[i][j]];
  }

  lemma HeldEnds<K>(aliases: seq<seq<K>>, i: nat)
    requires i < |aliases|
    ensures forall a :: Held(aliases, a, i, 0) == Holders(aliases, a, i)
    ensures forall a :: Held(aliases, a, i, |aliases[i]|) == Holders(aliases, a, i + 1)
  {
    assert aliases[i][..|aliases[i]|] == aliases[i];
  }

  /** What the index holds of an alias that these facilities have. */
  predicate IsEntry<K(==)>(index: map<K, Entry>, alias: K, h: seq<nat>, active: seq<bool>) {
    (alias in index <==> h != []) && (alias in index ==> index[alias] == EntryOf(h, active))
  }

  /** The index of the first `n` facilities. */
  ghost predicate IsIndex<K(!new)>(index: map<K, Entry>, aliases: seq<seq<K>>, active: seq<bool>, n: nat)
    requires n <= |aliases|
  {
    forall a :: IsEntry(index, a, Holders(aliases, a, n), active)
  }

  /** The index of the first `i` facilities and the first `j` aliases of the next. */
  ghost predicate IsPartIndex<K(!new)>(index: map<K, Entry>, aliases: seq<seq<K>>, active: seq<bool>, i: nat, j: nat)
    requires i < |aliases| && j <= |aliases[i]|
  {
    forall a :: IsEntry(index, a, Held(aliases, a, i, j), active)
  }

  lemma IndexBegins<K(!new)>(index: map<K, Entry>, aliases: seq<seq<K>>, active: seq<bool>, i: nat)
    requires i < |aliases| && IsIndex(index, aliases, active, i)
    ensures IsPartIndex(index, aliases, active, i, 0)
  {
    HeldEnds(aliases, i);
    hide IsEntry, Holders, Held;
  }

  lemma IndexEnds<K(!new)>(index: map<K, Entry>, aliases: seq<seq<K>>, active: seq<bool>, i: nat)
    requires i < |aliases| && IsPartIndex(index, aliases, active, i, |aliases[i]|)
    ensures IsIndex(index, aliases, active, i + 1)
  {
    HeldEnds(aliases, i);
    hide IsEntry, Holders, Held;
    var next := i + 1;
    forall a
      ensures IsEntry(index, a, Holders(aliases, a, next), active)
    {
      assert IsEntry(index, a, Held(aliases, a, i, |aliases[i]|), active);
    }
  }

  lemma EntryGrows<K>(index: map<K, Entry>, alias: K, h: seq<nat>, active: seq<bool>, i: nat)
    requires IsEntry(index, alias, h, active)
    ensures var entry := if alias in index then index[alias] else Entry([], {}, false, false);
            var more := index[alias := Entered(entry, i, IsActive(active, i))];
            IsEntry(more, alias, h + [i], active) &&
            forall a, g :: a != alias && IsEntry(index, a, g, active) ==> IsEntry(more, a, g, active)
  {
    EnteredIsEntry(h, active, i);
    assert EntryOf([], active) == Entry([], {}, false, false);
    hide EntryOf, Entered;
  }

  lemma IndexGrows<K(!new)>(index: map<K, Entry>, aliases: seq<seq<K>>, active: seq<bool>, i: nat, j: nat)
    requires i < |aliases| && j < |aliases[i]| && IsPartIndex(index, aliases, active, i, j)
    ensures var alias := aliases[i][j];
            var entry := if alias in index then index[alias] else Entry([], {}, false, false);
            if alias in aliases[i][..j] then IsPartIndex(index, aliases, active, i, j + 1)
            else IsPartIndex(index[alias := Entered(entry, i, IsActive(active, i))], aliases, active, i, j + 1)
  {
    HeldStep(aliases, i, j);
    hide Held, Holders, IsEntry, Entered;
    var alias := aliases[i][j];
    var entry := if alias in index then index[alias] else Entry([], {}, false, false);
    EntryGrows(index, alias, Held(aliases, alias, i, j), active, i);
    var more := if alias in aliases[i][..j] then index else index[alias := Entered(entry, i, IsActive(active, i))];
    var next := j + 1;
    forall a
      ensures IsEntry(more, a, Held(aliases, a, i, next), active)
    {
      assert IsEntry(index, a, Held(aliases, a, i, j), active);
    }
  }

  /** `indexFacilityAliases`. */
  method IndexAliases<K(==, !new)>(aliases: seq<seq<K>>, active: seq<bool>) returns (index: map<K, Entry>)
    requires |active| == |aliases|
    ensures IsIndex(index, aliases, active, |aliases|)
  {
    index := map[];
    assert IsIndex(index, aliases, active, 0);
    hide EntryOf, IsIndex, IsPartIndex, Entered;
    for i := 0 to |aliases|
      invariant IsIndex(index, aliases, active, i)
    {
      IndexBegins(index, aliases, active, i);
      for j := 0 to |aliases[i]|
        invariant IsPartIndex(index, aliases, active, i, j)
      {
        var alias := aliases[i][j];
        IndexGrows(index, aliases, active, i, j);
        if alias !in aliases[i][..j] {
          var entry := if alias in index then index[alias] else Entry([], {}, false, false);
          index := index[alias := Entered(entry, i, active[i])];
        }
      }
      IndexEnds(index, aliases, active, i);
    }
  }

  // ----- capped lookups -----

  ghost predicate Increasing(h: seq<nat>) { forall i, j :: 0 <= i < j < |h| ==> h[i] < h[j] }

  lemma {:induction false} HoldersIncrease<K>(aliases: seq<seq<K>>, alias: K, n: nat)
    requires n <= |aliases|
    ensures Increasing(Holders(aliases, alias, n))
  {
    if n > 0 {
      HoldersIncrease(aliases, alias, n - 1);
      var h := Holders(aliases, alias, n - 1);
      assert forall k :: 0 <= k < |h| ==> h[k] in h;
    }
  }

  predicate Distinct(s: seq<nat>) { forall i, j :: 0 <= i < j < |s| ==> s[i] != s[j] }

  function ToSet(s: seq<nat>): set<nat> { set i | i in s }

  lemma {:induction false} SizeOfDistinct(s: seq<nat>)
    requires Distinct(s)
    ensures |ToSet(s)| == |s|
  {
    if s == [] {
      assert ToSet(s) == {};
    } else {
      var front := s[..|s| - 1];
      SizeOfDistinct(front);
      assert s == front + [s[|s| - 1]];
      assert ToSet(s) == ToSet(front) + {s[|s| - 1]};
      assert s[|s| - 1] !in front;
    }
  }

  lemma SmallerSet(a: set<nat>, b: set<nat>)
    requires a <= b
    ensures |a| <= |b|
  {
    assert b == a + (b - a);
  }

  /** At most 64 of `bits`, and all of `wanted` unless more than 64 were to be had. */
  ghost predicate Capped(contexts: seq<nat>, wanted: set<nat>, bits: set<nat>, overflow: bool) {
    && Distinct(contexts) && |contexts| <= MAX_CONTEXTS
    && ToSet(contexts) <= bits
    && (!overflow ==> wanted <= ToSet(contexts))
    && (overflow ==> |bits| > MAX_CONTEXTS)
  }

  lemma CappedStart(contexts: seq<nat>, bits: set<nat>, overflow: bool, entry: Entry, h: seq<nat>, active: seq<bool>)
    requires Capped(contexts, bits, bits, overflow) && entry == EntryOf(h, active) && Increasing(h)
    ensures Capped(contexts, bits, bits + entry.bits, overflow || entry.overflow)
  {
    SizeOfDistinct(h);
    assert entry.bits == ToSet(h);
    SmallerSet(entry.bits, bits + entry.bits);
    SmallerSet(bits, bits + entry.bits);
  }

  lemma CappedStep(contexts: seq<nat>, wanted: set<nat>, bits: set<nat>, overflow: bool, facility: nat)
    requires Capped(contexts, wanted, bits, overflow) && facility in bits
    ensures if facility in contexts then Capped(contexts, wanted + {facility}, bits, overflow)
            else if |contexts| >= MAX_CONTEXTS then Capped(contexts, wanted + {facility}, bits, true)
            else Capped(contexts + [facility], wanted + {facility}, bits, overflow)
  {
    if facility in contexts {
    } else if |contexts| >= MAX_CONTEXTS {
      SizeOfDistinct(contexts);
      assert |ToSet(contexts) + {facility}| == |contexts| + 1;
      SmallerSet(ToSet(contexts) + {facility}, bits);
    } else {
      assert ToSet(contexts + [facility]) == ToSet(contexts) + {facility};
    }
  }

  /** The capped match set that both lookups fill. */
  class ContextMatches {
    var contexts: seq<nat>
    var bits: set<nat>
    var hasInactive: bool
    var overflow: bool

    ghost predicate Valid(active: seq<bool>)
      reads this
    {
      && Capped(contexts, bits, bits, overflow)
      && (hasInactive <==> exists i :: i in bits && !IsActive(active, i))
    }

    constructor ()
      ensures forall active :: Valid(active)
      ensures bits == {}
    {
      contexts, bits, hasInactive, overflow := [], {}, false, false;
      new;
      assert ToSet(contexts) == {};
    }

    /** `addMatches`, of an entry of an index; `h` lists all the facilities behind the entry. */
    method AddMatches(entry: Entry, ghost h: seq<nat>, ghost active: seq<bool>)
      requires Valid(active) && entry == EntryOf(h, active) && Increasing(h)
      modifies this
      ensures Valid(active) && bits == old(bits) + entry.bits
    {
      hide Capped, Increasing, IsActive;
      CappedStart(contexts, bits, overflow, entry, h, active);
      ghost var before := bits;
      bits := bits + entry.bits;
      hasInactive := hasInactive || entry.hasInactive;
      AddFacilities(entry, h, active, before);
      CappedEnd(contexts, before, bits, overflow, entry, h, active);
    }

    /** The loop over the facilities of an entry. */
    method AddFacilities(entry: Entry, ghost h: seq<nat>, ghost active: seq<bool>, ghost before: set<nat>)
      requires entry == EntryOf(h, active) && bits == before + entry.bits
      requires Capped(contexts, before, bits, overflow || entry.overflow)
      modifies this`contexts, this`overflow
      ensures Capped(contexts, before + ToSet(entry.contexts), bits, overflow)
      ensures entry.overflow ==> overflow
    {
      hide Capped, IsActive;
      overflow := overflow || entry.overflow;
      assert forall i :: i in entry.contexts ==> i in h;
      hide EntryOf;
      WantedGrows(before, entry.contexts);
      for k := 0 to |entry.contexts|
        invariant entry.overflow ==> overflow
        invariant Capped(contexts, before + ToSet(entry.contexts[..k]), bits, overflow)
      {
        var facility := entry.contexts[k];
        assert facility in bits;
        CappedStep(contexts, before + ToSet(entry.contexts[..k]), bits, overflow, facility);
        if facility !in contexts {
          if |contexts| >= MAX_CONTEXTS {
            overflow := true;
          } else {
            contexts := contexts + [facility];
          }
        }
      }
    }

    /** Exactly when more than 64 facilities match does the lookup overflow. */
    lemma OverflowIsExact(active: seq<bool>)
      requires Valid(active)
      ensures overflow <==> |bits| > 64
      ensures !overflow ==> bits == ToSet(contexts)
    {
      SizeOfDistinct(contexts);
      assert !overflow ==> bits == ToSet(contexts);
    }
  }

  lemma WantedGrows(before: set<nat>, contexts: seq<nat>)
    ensures before + ToSet(contexts[..0]) == before
    ensures forall k :: 0 <= k < |contexts| ==>
              before + ToSet(contexts[..k + 1]) == before + ToSet(contexts[..k]) + {contexts[k]}
    ensures contexts[..|contexts|] == contexts
  {
    assert forall k :: 0 <= k < |contexts| ==> contexts[..k + 1] == contexts[..k] + [contexts[k]];
  }

  lemma CappedEnd(contexts: seq<nat>, before: set<nat>, bits: set<nat>, overflow: bool, entry: Entry, h: seq<nat>,
                  active: seq<bool>)
    requires entry == EntryOf(h, active) && (entry.overflow ==> overflow) && bits == before + entry.bits
    requires Capped(contexts, before + ToSet(entry.contexts), bits, overflow)
    ensures Capped(contexts, bits, bits, overflow)
  {
  }

  // ----- the lookup of automatic aliases anywhere in a text -----

  /** The facilities behind the alias that stands in the text at `offset` with this length. */
  function BitsAt(index: map<string, Entry>, text: string, offset: nat, length: nat): set<nat> {
    if offset + length <= |text| && text[offset..offset + length] in index
    then index[text[offset..offset + length]].bits
    else {}
  }

  ghost predicate IsAliasIndex(index: map<string, Entry>, aliases: seq<seq<string>>, active: seq<bool>) {
    && |active| == |aliases|
    && IsIndex(index, aliases, active, |aliases|)
    && (forall i :: 0 <= i < |aliases| ==> "" !in aliases[i])
  }

  /** `automaticAliasLengths`. */
  ghost predicate AreLengths(lengths: seq<nat>, index: map<string, Entry>) {
    && (forall i, j :: 0 <= i < j < |lengths| ==> lengths[i] < lengths[j])
    && (forall a :: a in index ==> |a| in lengths)
  }

  /** Facility `x` has an alias that stands in the text. */
  ghost predicate Occurs(aliases: seq<seq<string>>, x: nat, text: string) {
    x < |aliases| && exists a :: a in aliases[x] && Includes(text, a)
  }

  lemma IndexedEntry<K(!new)>(index: map<K, Entry>, aliases: seq<seq<K>>, active: seq<bool>, a: K)
    requires IsIndex(index, aliases, active, |aliases|) && a in index
    ensures index[a] == EntryOf(Holders(aliases, a, |aliases|), active)
  {
    hide EntryOf, Holders;
    assert IsEntry(index, a, Holders(aliases, a, |aliases|), active);
  }

  lemma EntryFacts(index: map<string, Entry>, aliases: seq<seq<string>>, active: seq<bool>, a: string)
    requires IsAliasIndex(index, aliases, active) && a in index
    ensures index[a] == EntryOf(Holders(aliases, a, |aliases|), active)
    ensures Increasing(Holders(aliases, a, |aliases|))
    ensures forall x: nat :: x in index[a].bits <==> x < |aliases| && a in aliases[x]
  {
    hide IsIndex, Increasing;
    IndexedEntry(index, aliases, active, a);
    HoldersIncrease(aliases, a, |aliases|);
    HoldersBits(aliases, active, a);
  }

  lemma HoldersBits(aliases: seq<seq<string>>, active: seq<bool>, a: string)
    ensures forall x: nat :: x in EntryOf(Holders(aliases, a, |aliases|), active).bits <==>
              x < |aliases| && a in aliases[x]
  {
  }

  lemma OccursIsFound(index: map<string, Entry>, aliases: seq<seq<string>>, active: seq<bool>, lengths: seq<nat>,
                      text: string, x: nat)
    requires IsAliasIndex(index, aliases, active) && AreLengths(lengths, index)
    ensures Occurs(aliases, x, text) <==>
              exists offset, k :: 0 <= offset < |text| && 0 <= k < |lengths| &&
                x in BitsAt(index, text, offset, lengths[k])
  {
    if Occurs(aliases, x, text) {
      var a :| a in aliases[x] && Includes(text, a);
      var offset :| 0 <= offset <= |text| && StartsWith(text, offset, a);
      assert x in Holders(aliases, a, |aliases|);
      EntryFacts(index, aliases, active, a);
      var k :| 0 <= k < |lengths| && lengths[k] == |a|;
      assert x in BitsAt(index, text, offset, lengths[k]);
    }
    if offset, k :| 0 <= offset < |text| && 0 <= k < |lengths| && x in BitsAt(index, text, offset, lengths[k]) {
      var a := text[offset..offset + lengths[k]];
      EntryFacts(index, aliases, active, a);
      assert StartsWith(text, offset, a);
    }
  }

  /** What stands at one offset, among the first `k` lengths. */
  ghost predicate FoundAt(index: map<string, Entry>, text: string, lengths: seq<nat>, offset: nat, k: nat, x: nat) {
    exists j :: 0 <= j < k && j < |lengths| && x in BitsAt(index, text, offset, lengths[j])
  }

  ghost predicate FoundBefore(index: map<string, Entry>, text: string, lengths: seq<nat>, offset: nat, x: nat) {
    exists o :: 0 <= o < offset && FoundAt(index, text, lengths, o, |lengths|, x)
  }

  /** The loop of `automaticFacilityContextsForGroup` over one compacted field. */
  method AddText(m: ContextMatches, index: map<string, Entry>, lengths: seq<nat>, text: string,
                 ghost aliases: seq<seq<string>>, ghost active: seq<bool>)
    requires IsAliasIndex(index, aliases, active) && AreLengths(lengths, index) && m.Valid(active)
    modifies m
    ensures m.Valid(active)
    ensures forall x :: x in m.bits <==> x in old(m.bits) || Occurs(aliases, x, text)
  {
    hide IsAliasIndex, Capped, Occurs, FoundAt;
    ghost var before := m.bits;
    for offset := 0 to |text|
      invariant m.Valid(active)
      invariant forall x :: x in m.bits <==> x in before || FoundBefore(index, text, lengths, offset, x)
    {
      FoundNext(index, text, lengths, offset);
      AddAt(m, index, lengths, text, offset, aliases, active);
    }
    FoundIsOccurs(index, aliases, active, lengths, text);
  }

  method AddAt(m: ContextMatches, index: map<string, Entry>, lengths: seq<nat>, text: string, offset: nat,
               ghost aliases: seq<seq<string>>, ghost active: seq<bool>)
    requires IsAliasIndex(index, aliases, active) && AreLengths(lengths, index) && m.Valid(active)
    modifies m
    ensures m.Valid(active)
    ensures forall x :: x in m.bits <==> x in old(m.bits) || FoundAt(index, text, lengths, offset, |lengths|, x)
  {
    hide IsAliasIndex, Capped, Increasing, BitsAt, FoundAt, AreLengths, EntryOf;
    assert forall x :: !FoundAt(index, text, lengths, offset, 0, x) by { FoundNone(index, text, lengths, offset); }
    ghost var before := m.bits;
    var k := 0;
    while k < |lengths|
      invariant k <= |lengths|
      invariant m.Valid(active)
      invariant forall x :: x in m.bits <==> x in before || FoundAt(index, text, lengths, offset, k, x)
    {
      if offset + lengths[k] > |text| {
        FoundNoMore(index, text, lengths, offset, k);
        break;
      }
      FoundOneMore(index, text, lengths, offset, k);
      var alias := text[offset..offset + lengths[k]];
      BitsOfAlias(index, text, offset, lengths[k]);
      if alias in index {
        EntryFacts(index, aliases, active, alias);
        m.AddMatches(index[alias], Holders(aliases, alias, |aliases|), active);
      }
      k := k + 1;
    }
  }

  lemma BitsOfAlias(index: map<string, Entry>, text: string, offset: nat, length: nat)
    requires offset + length <= |text|
    ensures var alias := text[offset..offset + length];
            BitsAt(index, text, offset, length) == if alias in index then index[alias].bits else {}
  {
  }

  lemma FoundNone(index: map<string, Entry>, text: string, lengths: seq<nat>, offset: nat)
    ensures forall x :: !FoundAt(index, text, lengths, offset, 0, x)
  {
  }

  lemma FoundOneMore(index: map<string, Entry>, text: string, lengths: seq<nat>, offset: nat, k: nat)
    requires k < |lengths|
    ensures forall x :: FoundAt(index, text, lengths, offset, k + 1, x) <==>
                          FoundAt(index, text, lengths, offset, k, x) || x in BitsAt(index, text, offset, lengths[k])
  {
    hide BitsAt;
  }

  /** The lengths ascend, so nothing fits once one does not. */
  lemma FoundNoMore(index: map<string, Entry>, text: string, lengths: seq<nat>, offset: nat, k: nat)
    requires AreLengths(lengths, index) && k < |lengths| && offset + lengths[k] > |text|
    ensures forall x :: FoundAt(index, text, lengths, offset, |lengths|, x) <==>
              FoundAt(index, text, lengths, offset, k, x)
  {
    assert forall j :: k <= j < |lengths| ==> BitsAt(index, text, offset, lengths[j]) == {};
  }

  lemma FoundNext(index: map<string, Entry>, text: string, lengths: seq<nat>, offset: nat)
    ensures forall x :: FoundBefore(index, text, lengths, offset + 1, x) <==>
                          FoundBefore(index, text, lengths, offset, x) ||
                            FoundAt(index, text, lengths, offset, |lengths|, x)
  {
    hide FoundAt;
  }

  lemma FoundIsOccurs(index: map<string, Entry>, aliases: seq<seq<string>>, active: seq<bool>, lengths: seq<nat>,
                      text: string)
    requires IsAliasIndex(index, aliases, active) && AreLengths(lengths, index)
    ensures forall x :: FoundBefore(index, text, lengths, |text|, x) <==> Occurs(aliases, x, text)
  {
    hide BitsAt, Occurs, IsAliasIndex, AreLengths;
    forall x
      ensures FoundBefore(index, text, lengths, |text|, x) <==> Occurs(aliases, x, text)
    {
      OccursIsFound(index, aliases, active, lengths, text, x);
      if offset, k :| 0 <= offset < |text| && 0 <= k < |lengths| && x in BitsAt(index, text, offset, lengths[k]) {
        assert FoundAt(index, text, lengths, offset, |lengths|, x);
      }
    }
  }

  /** `automaticFacilityContextsForGroup`: the contexts are all the facilities that an alias points to, or too many. */
  method AutomaticContexts(index: map<string, Entry>, lengths: seq<nat>, display: string, local: string,
                           ghost aliases: seq<seq<string>>, ghost active: seq<bool>)
    returns (contexts: seq<nat>, hasInactive: bool, overflow: bool)
    requires IsAliasIndex(index, aliases, active) && AreLengths(lengths, index)
    ensures Distinct(contexts) && |contexts| <= MAX_CONTEXTS
    ensures forall x :: x in contexts ==> Occurs(aliases, x, display) || Occurs(aliases, x, local)
    ensures !overflow ==> forall x :: x in contexts <==> Occurs(aliases, x, display) || Occurs(aliases, x, local)
    ensures overflow <==>
              |set x: nat | x < |aliases| && (Occurs(aliases, x, display) || Occurs(aliases, x, local))| > MAX_CONTEXTS
    ensures hasInactive <==>
              exists x :: (Occurs(aliases, x, display) || Occurs(aliases, x, local)) && !IsActive(active, x)
  {
    hide IsAliasIndex, AreLengths, Occurs, Capped;
    var m := new ContextMatches();
    AddText(m, index, lengths, display, aliases, active);
    AddText(m, index, lengths, local, aliases, active);
    m.OverflowIsExact(active);
    contexts, hasInactive, overflow := m.contexts, m.hasInactive, m.overflow;
    CappedFacts(contexts, m.bits, overflow);
    OccursInRange(aliases, display);
    OccursInRange(aliases, local);
    assert m.bits == set x: nat | x < |aliases| && (Occurs(aliases, x, display) || Occurs(aliases, x, local));
  }

  lemma CappedFacts(contexts: seq<nat>, bits: set<nat>, overflow: bool)
    requires Capped(contexts, bits, bits, overflow)
    ensures Distinct(contexts) && |contexts| <= MAX_CONTEXTS
    ensures forall x :: x in contexts ==> x in bits
    ensures !overflow ==> forall x :: x in bits ==> x in contexts
  {
    assert forall x :: x in contexts ==> x in ToSet(contexts);
    assert !overflow ==> forall x :: x in bits ==> x in ToSet(contexts);
  }

  lemma OccursInRange(aliases: seq<seq<string>>, text: string)
    ensures forall x: nat :: Occurs(aliases, x, text) ==> x < |aliases|
  {
  }

  // ----- the lookup of evidence at token boundaries -----

  ghost predicate IsSequenceIndex(index: map<seq<string>, Entry>, sequences: seq<seq<seq<string>>>, active: seq<bool>,
                                  longest: nat)
  {
    && |active| == |sequences|
    && IsIndex(index, sequences, active, |sequences|)
    && (forall x, s :: 0 <= x < |sequences| && s in sequences[x] ==> s != [] && |s| <= longest)
  }

  /** A token sequence of facility `x` stands among the tokens. */
  ghost predicate HasSequence(sequences: seq<seq<seq<string>>>, x: nat, tokens: seq<string>) {
    x < |sequences| && exists s :: s in sequences[x] && ContainsSequence(tokens, s)
  }

  /** A distinctive alias of facility `x` begins one of the tokens. */
  ghost predicate HasPrefix(aliases: seq<seq<string>>, x: nat, tokens: seq<string>) {
    x < |aliases| && exists a, t :: a in aliases[x] && t in tokens && a <= t
  }

  function WindowBits(index: map<seq<string>, Entry>, tokens: seq<string>, start: nat, end: nat): set<nat> {
    if start < end <= |tokens| && tokens[start..end] in index then index[tokens[start..end]].bits else {}
  }

  ghost predicate FoundWindow(index: map<seq<string>, Entry>, tokens: seq<string>, longest: nat, start: nat, end: nat,
                              x: nat)
  {
    exists e :: start < e <= end && e <= start + longest && x in WindowBits(index, tokens, start, e)
  }

  ghost predicate FoundWindowBefore(index: map<seq<string>, Entry>, tokens: seq<string>, longest: nat, start: nat,
                                    x: nat)
  {
    exists s :: 0 <= s < start && FoundWindow(index, tokens, longest, s, |tokens|, x)
  }

  lemma SequenceEntryFacts(index: map<seq<string>, Entry>, sequences: seq<seq<seq<string>>>, active: seq<bool>,
                           longest: nat, s: seq<string>)
    requires IsSequenceIndex(index, sequences, active, longest)
    ensures s in index <==> Holders(sequences, s, |sequences|) != []
    ensures s in index ==> index[s] == EntryOf(Holders(sequences, s, |sequences|), active)
    ensures Increasing(Holders(sequences, s, |sequences|))
    ensures forall x: nat :: s in index && x in index[s].bits <==> x < |sequences| && s in sequences[x]
  {
    hide Increasing;
    HoldersIncrease(sequences, s, |sequences|);
    var h := Holders(sequences, s, |sequences|);
    assert forall x: nat :: x in EntryOf(h, active).bits <==> x < |sequences| && s in sequences[x];
  }

  method AddWindows(m: ContextMatches, index: map<seq<string>, Entry>, longest: nat, tokens: seq<string>, start: nat,
                    ghost sequences: seq<seq<seq<string>>>, ghost active: seq<bool>)
    requires IsSequenceIndex(index, sequences, active, longest) && m.Valid(active) && start < |tokens|
    modifies m
    ensures m.Valid(active)
    ensures forall x :: x in m.bits <==> x in old(m.bits) || FoundWindow(index, tokens, longest, start, |tokens|, x)
  {
    hide IsSequenceIndex, Capped, Increasing, EntryOf;
    ghost var before := m.bits;
    var endLimit := if |tokens| <= start + longest then |tokens| else start + longest;
    var end := start;
    while end < endLimit
      invariant start <= end <= endLimit
      invariant m.Valid(active)
      invariant forall x :: x in m.bits <==> x in before || FoundWindow(index, tokens, longest, start, end, x)
    {
      var key := tokens[start..end + 1];
      SequenceEntryFacts(index, sequences, active, longest, key);
      FoundWindowNext(index, tokens, longest, start, end);
      assert WindowBits(index, tokens, start, end + 1) == if key in index then index[key].bits else {};
      hide WindowBits, FoundWindow;
      if key in index {
        m.AddMatches(index[key], Holders(sequences, key, |sequences|), active);
      }
      end := end + 1;
    }
    FoundWindowLimit(index, tokens, longest, start, endLimit);
  }

  lemma FoundWindowNext(index: map<seq<string>, Entry>, tokens: seq<string>, longest: nat, start: nat, end: nat)
    requires start <= end < start + longest
    ensures forall x :: FoundWindow(index, tokens, longest, start, end + 1, x) <==>
                          FoundWindow(index, tokens, longest, start, end, x) ||
                            x in WindowBits(index, tokens, start, end + 1)
  {
    hide WindowBits;
  }

  lemma FoundWindowLimit(index: map<seq<string>, Entry>, tokens: seq<string>, longest: nat, start: nat, limit: nat)
    requires start <= |tokens| && limit == if |tokens| <= start + longest then |tokens| else start + longest
    ensures forall x :: FoundWindow(index, tokens, longest, start, |tokens|, x) <==>
                          FoundWindow(index, tokens, longest, start, limit, x)
  {
    hide WindowBits;
  }

  lemma WindowsAreSequences(index: map<seq<string>, Entry>, sequences: seq<seq<seq<string>>>, active: seq<bool>,
                            longest: nat, tokens: seq<string>, x: nat)
    requires IsSequenceIndex(index, sequences, active, longest)
    ensures FoundWindowBefore(index, tokens, longest, |tokens|, x) <==> HasSequence(sequences, x, tokens)
  {
    if HasSequence(sequences, x, tokens) {
      var s :| s in sequences[x] && ContainsSequence(tokens, s);
      var i :| 0 <= i <= |tokens| && SequenceAt(tokens, s, i);
      SequenceEntryFacts(index, sequences, active, longest, s);
      assert tokens[i..i + |s|] == s && x in WindowBits(index, tokens, i, i + |s|);
      assert FoundWindow(index, tokens, longest, i, |tokens|, x);
    }
    if FoundWindowBefore(index, tokens, longest, |tokens|, x) {
      var i :| 0 <= i < |tokens| && FoundWindow(index, tokens, longest, i, |tokens|, x);
      var e :| i < e <= |tokens| && e <= i + longest && x in WindowBits(index, tokens, i, e);
      SequenceEntryFacts(index, sequences, active, longest, tokens[i..e]);
      assert SequenceAt(tokens, tokens[i..e], i);
    }
  }

  lemma FoundWindowsNext(index: map<seq<string>, Entry>, tokens: seq<string>, longest: nat, start: nat)
    ensures forall x :: FoundWindowBefore(index, tokens, longest, start + 1, x) <==>
                          FoundWindowBefore(index, tokens, longest, start, x) ||
                            FoundWindow(index, tokens, longest, start, |tokens|, x)
  {
    hide FoundWindow;
  }

  lemma PrefixIsFound(index: map<string, Entry>, aliases: seq<seq<string>>, active: seq<bool>, lengths: seq<nat>,
                      token: string, x: nat)
    requires IsAliasIndex(index, aliases, active) && AreLengths(lengths, index)
    ensures FoundAt(index, token, lengths, 0, |lengths|, x) <==> HasPrefix(aliases, x, [token])
  {
    if HasPrefix(aliases, x, [token]) {
      var a, t :| a in aliases[x] && t in [token] && a <= t;
      assert token[0..|a|] == a;
      assert x in Holders(aliases, a, |aliases|);
      EntryFacts(index, aliases, active, a);
      var k :| 0 <= k < |lengths| && lengths[k] == |a|;
      assert x in BitsAt(index, token, 0, lengths[k]);
    }
    if k :| 0 <= k < |lengths| && x in BitsAt(index, token, 0, lengths[k]) {
      var a := token[0..lengths[k]];
      EntryFacts(index, aliases, active, a);
      assert a <= token && token in [token];
    }
  }

  lemma PrefixOfMore(aliases: seq<seq<string>>, x: nat, tokens: seq<string>, n: nat)
    requires n < |tokens|
    ensures HasPrefix(aliases, x, tokens[..n + 1]) <==>
              HasPrefix(aliases, x, tokens[..n]) || HasPrefix(aliases, x, [tokens[n]])
  {
    var more := tokens[..n] + [tokens[n]];
    assert tokens[..n + 1] == more;
    if HasPrefix(aliases, x, tokens[..n + 1]) {
      var a, t :| a in aliases[x] && t in more && a <= t;
      assert t in tokens[..n] || t in [tokens[n]];
    }
    if HasPrefix(aliases, x, tokens[..n]) {
      var a, t :| a in aliases[x] && t in tokens[..n] && a <= t;
      assert t in more;
    }
    if HasPrefix(aliases, x, [tokens[n]]) {
      var a, t :| a in aliases[x] && t in [tokens[n]] && a <= t;
      assert t in more;
    }
  }

  /**
   `facilityContextsForTokens`: the bits are always exact, the contexts whenever there are no more than
   64 of them.
   */
  method ContextsForTokens(
      sequenceIndex: map<seq<string>, Entry>, longest: nat, prefixIndex: map<string, Entry>, lengths: seq<nat>,
      tokens: seq<string>,
      ghost sequences: seq<seq<seq<string>>>, ghost aliases: seq<seq<string>>, ghost active: seq<bool>)
    returns (contexts: seq<nat>, bits: set<nat>, overflow: bool)
    requires IsSequenceIndex(sequenceIndex, sequences, active, longest)
    requires IsAliasIndex(prefixIndex, aliases, active) && AreLengths(lengths, prefixIndex)
    ensures forall x :: x in bits <==> HasSequence(sequences, x, tokens) || HasPrefix(aliases, x, tokens)
    ensures overflow <==> |bits| > MAX_CONTEXTS
    ensures Distinct(contexts) && |contexts| <= MAX_CONTEXTS && forall x :: x in contexts ==> x in bits
    ensures !overflow ==> forall x :: x in bits ==> x in contexts
  {
    hide IsSequenceIndex, IsAliasIndex, AreLengths, Capped, FoundWindow, HasSequence, HasPrefix, FoundAt;
    var m := new ContextMatches();
    for start := 0 to |tokens|
      invariant m.Valid(active)
      invariant forall x :: x in m.bits <==> FoundWindowBefore(sequenceIndex, tokens, longest, start, x)
    {
      FoundWindowsNext(sequenceIndex, tokens, longest, start);
      AddWindows(m, sequenceIndex, longest, tokens, start, sequences, active);
    }
    forall x: nat
      ensures FoundWindowBefore(sequenceIndex, tokens, longest, |tokens|, x) <==> HasSequence(sequences, x, tokens)
      ensures !HasPrefix(aliases, x, tokens[..0])
    {
      WindowsAreSequences(sequenceIndex, sequences, active, longest, tokens, x);
      assert !HasPrefix(aliases, x, []) by { NoPrefix(aliases, x); }
    }
    hide FoundWindowBefore;
    for n := 0 to |tokens|
      invariant m.Valid(active)
      invariant forall x :: x in m.bits <==> HasSequence(sequences, x, tokens) || HasPrefix(aliases, x, tokens[..n])
    {
      AddAt(m, prefixIndex, lengths, tokens[n], 0, aliases, active);
      forall x: nat
        ensures HasPrefix(aliases, x, tokens[..n + 1]) <==>
                  HasPrefix(aliases, x, tokens[..n]) || FoundAt(prefixIndex, tokens[n], lengths, 0, |lengths|, x)
      {
        PrefixIsFound(prefixIndex, aliases, active, lengths, tokens[n], x);
        PrefixOfMore(aliases, x, tokens, n);
      }
    }
    assert tokens[..|tokens|] == tokens;
    m.OverflowIsExact(active);
    contexts, bits, overflow := m.contexts, m.bits, m.overflow;
    CappedFacts(contexts, bits, overflow);
  }

  lemma NoPrefix(aliases: seq<seq<string>>, x: nat)
    ensures !HasPrefix(aliases, x, [])
  {
  }
}
