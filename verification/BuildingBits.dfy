/**
 The indexed whole-building test (scripts/ops/groups-inventory-classification.ts): evidence keys, the
 index behind them and the bit sets it yields. Whatever it accepts, some facility accepts on its own.
 */
module BuildingBits {
  import opened Wrappers
  import opened CompactTokens
  import opened BuildingNames
  import opened Facilities

  const NUL := '\U{0000}'

  /** `tokens.join('\u0000')`. */
  function JoinNul(s: seq<string>): string {
    if s == [] then "" else if |s| == 1 then s[0] else s[0] + [NUL] + JoinNul(s[1..])
  }

  function AliasKey(alias: string): string { "alias\U{0001}" + alias }

  function SequenceKey(s: seq<string>): string { "sequence\U{0001}" + JoinNul(s) }

  predicate NoNul(s: seq<string>) { forall i :: 0 <= i < |s| ==> NUL !in s[i] }

  function StripNul(t: string): string {
    if t == "" then "" else (if t[0] == NUL then "" else [t[0]]) + StripNul(t[1..])
  }

  lemma {:induction false} StripOfParts(a: string, b: string)
    ensures StripNul(a + b) == StripNul(a) + StripNul(b)
  {
    if a == "" {
      assert a + b == b;
    } else {
      assert (a + b)[1..] == a[1..] + b;
      StripOfParts(a[1..], b);
    }
  }

  lemma {:induction false} StripOfClean(t: string)
    requires NUL !in t
    ensures StripNul(t) == t
  {
    if t != "" {
      StripOfClean(t[1..]);
    }
  }

  /** A sequence key determines the alias that its tokens spell. */
  lemma {:induction false} StripOfJoin(s: seq<string>)
    requires NoNul(s)
    ensures StripNul(JoinNul(s)) == Join(s)
  {
    if s == [] {
    } else if |s| == 1 {
      assert s[1..] == [];
      StripOfClean(s[0]);
    } else {
      StripOfClean(s[0]);
      StripOfJoin(s[1..]);
      StripOfParts(s[0] + [NUL], JoinNul(s[1..]));
      StripOfParts(s[0], [NUL]);
    }
  }

  lemma CleanSplit(a: string, b: string, x: string, y: string)
    requires NUL !in a && NUL !in b && a + [NUL] + x == b + [NUL] + y
    ensures a == b && x == y
  {
    var left, right := a + [NUL] + x, b + [NUL] + y;
    assert left[|a|] == NUL && right[|b|] == NUL;
    assert forall i :: 0 <= i < |a| ==> left[i] == a[i] && a[i] in a;
    assert forall i :: 0 <= i < |b| ==> right[i] == b[i] && b[i] in b;
    assert |a| == |b|;
    assert left[..|a|] == a && right[..|b|] == b;
    assert left[|a| + 1..] == x && right[|b| + 1..] == y;
  }

  lemma JoinHasNul(s: seq<string>)
    requires s != [] && NoNul(s)
    ensures NUL in JoinNul(s) <==> |s| > 1
  {
    if |s| > 1 {
      assert JoinNul(s)[|s[0]|] == NUL;
    }
  }

  lemma {:induction false} JoinNulInjective(s: seq<string>, t: seq<string>)
    requires NoNul(s) && NoNul(t) && s != [] && t != [] && JoinNul(s) == JoinNul(t)
    ensures s == t
  {
    JoinHasNul(s);
    JoinHasNul(t);
    if |s| > 1 && |t| > 1 {
      CleanSplit(s[0], t[0], JoinNul(s[1..]), JoinNul(t[1..]));
      JoinNulInjective(s[1..], t[1..]);
      assert s == [s[0]] + s[1..] && t == [t[0]] + t[1..];
    }
  }

  lemma KeysAreApart(alias: string, s: seq<string>)
    ensures AliasKey(alias) != SequenceKey(s)
  {
    assert AliasKey(alias)[0] == 'a' && SequenceKey(s)[0] == 's';
  }

  lemma KeysAreInjective(a: string, b: string, s: seq<string>, t: seq<string>)
    ensures AliasKey(a) == AliasKey(b) ==> a == b
    ensures NoNul(s) && NoNul(t) && s != [] && t != [] && SequenceKey(s) == SequenceKey(t) ==> s == t
    ensures NoNul(s) && NoNul(t) && SequenceKey(s) == SequenceKey(t) ==> Join(s) == Join(t)
  {
    assert AliasKey(a)[6..] == a && AliasKey(b)[6..] == b;
    assert SequenceKey(s)[9..] == JoinNul(s) && SequenceKey(t)[9..] == JoinNul(t);
    if NoNul(s) && NoNul(t) && SequenceKey(s) == SequenceKey(t) {
      StripOfJoin(s);
      StripOfJoin(t);
      if s != [] && t != [] {
        JoinNulInjective(s, t);
      }
    }
  }

  // ----- the evidence index -----

  datatype Evidence = Evidence(alias: string, bits: set<nat>)

  /** What one compact facility contributes: its automatic aliases and its evidence token sequences. */
  datatype Compact = Compact(aliases: seq<string>, sequences: seq<seq<string>>)

  predicate IsClean(c: Compact) {
    && "" !in c.aliases
    && forall s :: s in c.sequences ==> s != [] && NoNul(s) && Join(s) != ""
  }

  predicate HasKey(c: Compact, key: string) {
    || (exists i :: 0 <= i < |c.aliases| && key == AliasKey(c.aliases[i]))
    || (exists i :: 0 <= i < |c.sequences| && key == SequenceKey(c.sequences[i]))
  }

  /** The alias a key stands for. */
  ghost predicate StandsFor(key: string, alias: string) {
    || key == AliasKey(alias)
    || (exists s :: s != [] && NoNul(s) && key == SequenceKey(s) && alias == Join(s))
  }

  lemma StandsForOne(key: string, a: string, b: string)
    requires StandsFor(key, a) && StandsFor(key, b)
    ensures a == b
  {
    if s :| s != [] && NoNul(s) && key == SequenceKey(s) && a == Join(s) {
      KeysAreApart(b, s);
      var t :| t != [] && NoNul(t) && key == SequenceKey(t) && b == Join(t);
      KeysAreInjective(a, b, s, t);
    } else {
      if t :| t != [] && NoNul(t) && key == SequenceKey(t) && b == Join(t) {
        KeysAreApart(a, t);
      }
      KeysAreInjective(a, b, [], []);
    }
  }

  ghost predicate IsEvidenceIndex(index: map<string, Evidence>, compacts: seq<Compact>) {
    forall k :: k in index ==>
      && StandsFor(k, index[k].alias) && index[k].alias != ""
      && forall x :: x in index[k].bits ==> x < |compacts| && HasKey(compacts[x], k)
  }

  lemma AddedEvidence(index: map<string, Evidence>, compacts: seq<Compact>, x: nat, key: string, alias: string)
    requires IsEvidenceIndex(index, compacts) && x < |compacts| && HasKey(compacts[x], key) && StandsFor(key, alias)
    requires alias != ""
    ensures key in index ==> index[key].alias == alias
    ensures IsEvidenceIndex(index[key := Evidence(alias, (if key in index then index[key].bits else {}) + {x})],
              compacts)
  {
    hide StandsFor, HasKey;
    if key in index {
      StandsForOne(key, alias, index[key].alias);
    }
  }

  /** `addAutomaticBoundaryEvidence`; an error is its throw, an inconsistent index. */
  method AddEvidence(index: map<string, Evidence>, key: string, alias: string, x: nat, ghost compacts: seq<Compact>)
    returns (r: Result<map<string, Evidence>, string>)
    requires IsEvidenceIndex(index, compacts) && x < |compacts| && HasKey(compacts[x], key) && StandsFor(key, alias)
    requires alias != ""
    ensures r.Ok? && IsEvidenceIndex(r.value, compacts) && key in r.value && x in r.value[key].bits
    ensures forall k :: k in index ==> k in r.value && index[k].bits <= r.value[k].bits
  {
    AddedEvidence(index, compacts, x, key, alias);
    hide IsEvidenceIndex, StandsFor, HasKey;
    if key in index && index[key].alias != alias {
      return Err("Automatic facility evidence index is inconsistent.");
    }
    r := Ok(index[key := Evidence(alias, (if key in index then index[key].bits else {}) + {x})]);
  }

  ghost predicate Indexed(index: map<string, Evidence>, key: string, x: nat) { key in index && x in index[key].bits }

  /** Building the index never throws, and the bit of a facility is set under each of its keys and no other. */
  method BuildEvidenceIndex(compacts: seq<Compact>) returns (r: Result<map<string, Evidence>, string>)
    requires forall c :: c in compacts ==> IsClean(c)
    ensures r.Ok? && IsEvidenceIndex(r.value, compacts)
    ensures forall x, i :: 0 <= x < |compacts| && 0 <= i < |compacts[x].aliases| ==>
              Indexed(r.value, AliasKey(compacts[x].aliases[i]), x)
    ensures forall x, i :: 0 <= x < |compacts| && 0 <= i < |compacts[x].sequences| ==>
              Indexed(r.value, SequenceKey(compacts[x].sequences[i]), x)
  {
    hide IsEvidenceIndex, AliasKey, SequenceKey;
    var index: map<string, Evidence> := map[];
    assert IsEvidenceIndex(index, compacts) by { EmptyEvidence(compacts); }
    for x := 0 to |compacts|
      invariant IsEvidenceIndex(index, compacts)
      invariant forall y, i :: 0 <= y < x && 0 <= i < |compacts[y].aliases| ==>
                  Indexed(index, AliasKey(compacts[y].aliases[i]), y)
      invariant forall y, i :: 0 <= y < x && 0 <= i < |compacts[y].sequences| ==>
                  Indexed(index, SequenceKey(compacts[y].sequences[i]), y)
    {
      var added := AddFacility(index, compacts, x);
      if added.Err? {
        return added;
      }
      index := added.value;
    }
    r := Ok(index);
  }

  lemma EmptyEvidence(compacts: seq<Compact>)
    ensures IsEvidenceIndex(map[], compacts)
  {
  }

  method AddFacility(before: map<string, Evidence>, compacts: seq<Compact>, x: nat)
    returns (r: Result<map<string, Evidence>, string>)
    requires IsEvidenceIndex(before, compacts) && x < |compacts| && IsClean(compacts[x])
    ensures r.Ok? && IsEvidenceIndex(r.value, compacts)
    ensures forall k, y :: Indexed(before, k, y) ==> Indexed(r.value, k, y)
    ensures forall i :: 0 <= i < |compacts[x].aliases| ==> Indexed(r.value, AliasKey(compacts[x].aliases[i]), x)
    ensures forall i :: 0 <= i < |compacts[x].sequences| ==> Indexed(r.value, SequenceKey(compacts[x].sequences[i]), x)
  {
    hide IsEvidenceIndex, AliasKey, SequenceKey;
    var index, c := before, compacts[x];
    for i := 0 to |c.aliases|
      invariant IsEvidenceIndex(index, compacts)
      invariant forall k, y :: Indexed(before, k, y) ==> Indexed(index, k, y)
      invariant forall j :: 0 <= j < i ==> Indexed(index, AliasKey(c.aliases[j]), x)
    {
      var added := AddEvidence(index, AliasKey(c.aliases[i]), c.aliases[i], x, compacts);
      if added.Err? {
        return added;
      }
      index := added.value;
    }
    for i := 0 to |c.sequences|
      invariant IsEvidenceIndex(index, compacts)
      invariant forall k, y :: Indexed(before, k, y) ==> Indexed(index, k, y)
      invariant forall j :: 0 <= j < |c.aliases| ==> Indexed(index, AliasKey(c.aliases[j]), x)
      invariant forall j :: 0 <= j < i ==> Indexed(index, SequenceKey(c.sequences[j]), x)
    {
      assert c.sequences[i] in c.sequences;
      var added := AddEvidence(index, SequenceKey(c.sequences[i]), Join(c.sequences[i]), x, compacts);
      if added.Err? {
        return added;
      }
      index := added.value;
    }
    r := Ok(index);
  }

  // ----- looking the evidence of one field up -----

  predicate KeyAt(token: string, offset: nat, length: nat, key: string) {
    offset + length <= |token| && key == AliasKey(token[offset..offset + length])
  }

  ghost predicate KeyAtOffset(token: string, lengths: seq<nat>, offset: nat, k: nat, key: string) {
    exists j :: 0 <= j < k && j < |lengths| && KeyAt(token, offset, lengths[j], key)
  }

  ghost predicate KeyInToken(token: string, lengths: seq<nat>, offset: nat, key: string) {
    exists o :: 0 <= o < offset && KeyAtOffset(token, lengths, o, |lengths|, key)
  }

  predicate Ascending(lengths: seq<nat>) { forall i, j :: 0 <= i < j < |lengths| ==> lengths[i] < lengths[j] }

  method AddKeysAt(index: map<string, Evidence>, lengths: seq<nat>, token: string, offset: nat, found: set<string>)
    returns (r: set<string>)
    requires Ascending(lengths)
    ensures forall k :: k in r <==> k in found || (k in index && KeyAtOffset(token, lengths, offset, |lengths|, k))
  {
    hide AliasKey, Ascending;
    r := found;
    var j := 0;
    while j < |lengths|
      invariant j <= |lengths|
      invariant forall k :: k in r <==> k in found || (k in index && KeyAtOffset(token, lengths, offset, j, k))
    {
      if offset + lengths[j] > |token| {
        NoLongerKeys(token, lengths, offset, j);
        break;
      }
      var key := AliasKey(token[offset..offset + lengths[j]]);
      if key in index {
        r := r + {key};
      }
      OneMoreLength(token, lengths, offset, j);
      j := j + 1;
    }
  }

  lemma OneMoreLength(token: string, lengths: seq<nat>, offset: nat, j: nat)
    requires j < |lengths|
    ensures forall k :: KeyAtOffset(token, lengths, offset, j + 1, k) <==>
                          KeyAtOffset(token, lengths, offset, j, k) || KeyAt(token, offset, lengths[j], k)
  {
    hide AliasKey;
  }

  lemma NoLongerKeys(token: string, lengths: seq<nat>, offset: nat, j: nat)
    requires Ascending(lengths) && j < |lengths| && offset + lengths[j] > |token|
    ensures forall k :: KeyAtOffset(token, lengths, offset, |lengths|, k) <==> KeyAtOffset(token, lengths, offset, j, k)
  {
    hide AliasKey;
  }

  method AddKeysOfToken(index: map<string, Evidence>, lengths: seq<nat>, token: string, found: set<string>)
    returns (r: set<string>)
    requires Ascending(lengths)
    ensures forall k :: k in r <==> k in found || (k in index && KeyInToken(token, lengths, |token|, k))
  {
    hide KeyAtOffset;
    r := found;
    for offset := 0 to |token|
      invariant forall k :: k in r <==> k in found || (k in index && KeyInToken(token, lengths, offset, k))
    {
      r := AddKeysAt(index, lengths, token, offset, r);
      assert forall k :: KeyInToken(token, lengths, offset + 1, k) <==>
                           KeyInToken(token, lengths, offset, k) || KeyAtOffset(token, lengths, offset, |lengths|, k);
    }
  }

  ghost predicate KeyOfWindow(tokens: seq<string>, longest: nat, start: nat, end: nat, key: string) {
    exists e :: start < e <= end && e <= |tokens| && e <= start + longest && key == SequenceKey(tokens[start..e])
  }

  ghost predicate KeyOfWindows(tokens: seq<string>, longest: nat, start: nat, key: string) {
    exists s :: 0 <= s < start && KeyOfWindow(tokens, longest, s, |tokens|, key)
  }

  method AddKeysOfWindows(index: map<string, Evidence>, longest: nat, tokens: seq<string>, start: nat,
                          found: set<string>)
    returns (r: set<string>)
    requires start <= |tokens|
    ensures forall k :: k in r <==> k in found || (k in index && KeyOfWindow(tokens, longest, start, |tokens|, k))
  {
    hide SequenceKey;
    r := found;
    var endLimit := if |tokens| <= start + longest then |tokens| else start + longest;
    for end := start to endLimit
      invariant forall k :: k in r <==> k in found || (k in index && KeyOfWindow(tokens, longest, start, end, k))
    {
      var key := SequenceKey(tokens[start..end + 1]);
      if key in index {
        r := r + {key};
      }
    }
  }

  ghost predicate KeyFound(tokens: seq<string>, lengths: seq<nat>, longest: nat, key: string) {
    || (exists t :: t in tokens && KeyInToken(t, lengths, |t|, key))
    || KeyOfWindows(tokens, longest, |tokens|, key)
  }

  /** `automaticBoundaryEvidenceForTokens`, as the set of the keys it finds. */
  method BoundaryEvidence(index: map<string, Evidence>, lengths: seq<nat>, longest: nat, tokens: seq<string>)
    returns (r: set<string>)
    requires Ascending(lengths)
    ensures forall k :: k in r <==> k in index && KeyFound(tokens, lengths, longest, k)
  {
    hide KeyInToken, KeyOfWindow;
    r := {};
    for i := 0 to |tokens|
      invariant forall k :: k in r <==>
                  k in index && exists j :: 0 <= j < i && KeyInToken(tokens[j], lengths, |tokens[j]|, k)
    {
      r := AddKeysOfToken(index, lengths, tokens[i], r);
    }
    ghost var inTokens := r;
    for start := 0 to |tokens|
      invariant forall k :: k in r <==> k in inTokens || (k in index && KeyOfWindows(tokens, longest, start, k))
    {
      r := AddKeysOfWindows(index, longest, tokens, start, r);
    }
  }

  // ----- the bits of a field -----

  /** A facility's alias with evidence among the tokens, which by itself makes them a building's name. */
  ghost predicate Supports(names: NameRules, c: Compact, tokens: seq<string>, alias: string, workforce: bool) {
    && (|| (alias in c.aliases && exists t :: t in tokens && Includes(t, alias))
        || (exists s :: s in c.sequences && Join(s) == alias && ContainsSequence(tokens, s)))
    && var state := StateOfField(names, Join(tokens), [alias]);
       !state.InvalidField? && (workforce ==> state.FacilityWorkforceField?)
  }

  ghost predicate Bit(names: NameRules, text: string, index: map<string, Evidence>, keys: set<string>, x: nat,
                      workforce: bool)
  {
    exists k :: k in keys && k in index && x in index[k].bits &&
      var state := StateOfField(names, text, [index[k].alias]);
      !state.InvalidField? && (workforce ==> state.FacilityWorkforceField?)
  }

  /** `exactWholeBuildingFieldBits`, of the keys found. */
  method FieldBits(names: NameRules, text: string, index: map<string, Evidence>, keys: set<string>)
    returns (valid: set<nat>, workforce: set<nat>)
    requires "" !in names.workforce && forall k :: k in keys ==> k in index && index[k].alias != ""
    ensures forall x :: x in valid <==> Bit(names, text, index, keys, x, false)
    ensures forall x :: x in workforce <==> Bit(names, text, index, keys, x, true)
  {
    hide StateOfField;
    valid, workforce := {}, {};
    var stateByAlias: map<string, FieldState>, todo := map[], keys;
    while todo != {}
      invariant todo <= keys
      invariant forall a :: a in stateByAlias ==> stateByAlias[a] == StateOfField(names, text, [a])
      invariant forall x :: x in valid <==> Bit(names, text, index, keys - todo, x, false)
      invariant forall x :: x in workforce <==> Bit(names, text, index, keys - todo, x, true)
      decreases |todo|
    {
      var key :| key in todo;
      var evidence := index[key];
      if evidence.alias !in stateByAlias {
        var state := WholeBuildingFieldState(names, text, [evidence.alias]);
        stateByAlias := stateByAlias[evidence.alias := state];
      }
      BitOfOneMore(names, text, index, keys - todo, key);
      assert keys - todo + {key} == keys - (todo - {key});
      todo := todo - {key};
      if !stateByAlias[evidence.alias].InvalidField? {
        valid := valid + evidence.bits;
        if stateByAlias[evidence.alias].FacilityWorkforceField? {
          workforce := workforce + evidence.bits;
        }
      }
    }
    assert keys - todo == keys;
  }

  lemma BitOfOneMore(names: NameRules, text: string, index: map<string, Evidence>, keys: set<string>, key: string)
    requires key in index
    ensures var state := StateOfField(names, text, [index[key].alias]);
            forall x, workforce :: Bit(names, text, index, keys + {key}, x, workforce) <==>
              || Bit(names, text, index, keys, x, workforce)
              || (x in index[key].bits && !state.InvalidField? && (workforce ==> state.FacilityWorkforceField?))
  {
    hide StateOfField;
  }

  // ----- what the bits mean -----

  ghost predicate Covers(compacts: seq<Compact>, index: map<string, Evidence>, lengths: seq<nat>, longest: nat) {
    && IsEvidenceIndex(index, compacts) && Ascending(lengths)
    && (forall c :: c in compacts ==> IsClean(c))
    && (forall x, i :: 0 <= x < |compacts| && 0 <= i < |compacts[x].aliases| ==>
          && Indexed(index, AliasKey(compacts[x].aliases[i]), x)
          && |compacts[x].aliases[i]| in lengths)
    && (forall x, i :: 0 <= x < |compacts| && 0 <= i < |compacts[x].sequences| ==>
          && Indexed(index, SequenceKey(compacts[x].sequences[i]), x)
          && |compacts[x].sequences[i]| <= longest)
  }

  lemma AliasKeyFound(tokens: seq<string>, lengths: seq<nat>, longest: nat, alias: string)
    requires KeyFound(tokens, lengths, longest, AliasKey(alias))
    ensures exists t :: t in tokens && Includes(t, alias)
  {
    hide AliasKey, SequenceKey;
    var key := AliasKey(alias);
    if t :| t in tokens && KeyInToken(t, lengths, |t|, key) {
      var o :| 0 <= o < |t| && KeyAtOffset(t, lengths, o, |lengths|, key);
      var j :| 0 <= j < |lengths| && KeyAt(t, o, lengths[j], key);
      KeysAreInjective(alias, t[o..o + lengths[j]], [], []);
      assert StartsWith(t, o, alias);
    } else {
      var s :| 0 <= s < |tokens| && KeyOfWindow(tokens, longest, s, |tokens|, key);
      var e :| s < e <= |tokens| && e <= s + longest && key == SequenceKey(tokens[s..e]);
      KeysAreApart(alias, tokens[s..e]);
    }
  }

  lemma SequenceKeyFound(tokens: seq<string>, lengths: seq<nat>, longest: nat, s: seq<string>)
    requires NoNul(tokens) && NoNul(s) && s != [] && KeyFound(tokens, lengths, longest, SequenceKey(s))
    ensures ContainsSequence(tokens, s)
  {
    hide AliasKey, SequenceKey;
    var key := SequenceKey(s);
    if t :| t in tokens && KeyInToken(t, lengths, |t|, key) {
      var o :| 0 <= o < |t| && KeyAtOffset(t, lengths, o, |lengths|, key);
      var j :| 0 <= j < |lengths| && KeyAt(t, o, lengths[j], key);
      KeysAreApart(t[o..o + lengths[j]], s);
    } else {
      var i :| 0 <= i < |tokens| && KeyOfWindow(tokens, longest, i, |tokens|, key);
      var e :| i < e <= |tokens| && e <= i + longest && key == SequenceKey(tokens[i..e]);
      KeysAreInjective("", "", s, tokens[i..e]);
      assert SequenceAt(tokens, s, i);
    }
  }

  lemma AliasIsFound(tokens: seq<string>, lengths: seq<nat>, longest: nat, alias: string, t: string)
    requires alias != "" && t in tokens && Includes(t, alias) && |alias| in lengths
    ensures KeyFound(tokens, lengths, longest, AliasKey(alias))
  {
    hide AliasKey;
    var o :| 0 <= o <= |t| && StartsWith(t, o, alias);
    var j :| 0 <= j < |lengths| && lengths[j] == |alias|;
    assert KeyAt(t, o, lengths[j], AliasKey(alias));
    assert KeyAtOffset(t, lengths, o, |lengths|, AliasKey(alias));
  }

  lemma SequenceIsFound(tokens: seq<string>, lengths: seq<nat>, longest: nat, s: seq<string>)
    requires ContainsSequence(tokens, s) && |s| <= longest
    ensures KeyFound(tokens, lengths, longest, SequenceKey(s))
  {
    hide SequenceKey;
    var i :| 0 <= i <= |tokens| && SequenceAt(tokens, s, i);
    assert tokens[i..i + |s|] == s;
    assert KeyOfWindow(tokens, longest, i, |tokens|, SequenceKey(s));
  }

  /** A set bit is a facility with a supporting alias. */
  lemma BitsAreSupported(names: NameRules, compacts: seq<Compact>, index: map<string, Evidence>, lengths: seq<nat>,
                         longest: nat, tokens: seq<string>, keys: set<string>, x: nat, workforce: bool)
    requires Covers(compacts, index, lengths, longest) && NoNul(tokens)
    requires forall k :: k in keys <==> k in index && KeyFound(tokens, lengths, longest, k)
    requires Bit(names, Join(tokens), index, keys, x, workforce)
    ensures x < |compacts| && exists a :: Supports(names, compacts[x], tokens, a, workforce)
  {
    hide StateOfField, KeyFound, AliasKey, SequenceKey;
    var k :| k in keys && k in index && x in index[k].bits &&
      var state := StateOfField(names, Join(tokens), [index[k].alias]);
      !state.InvalidField? && (workforce ==> state.FacilityWorkforceField?);
    var c := compacts[x];
    assert c in compacts;
    if i :| 0 <= i < |c.aliases| && k == AliasKey(c.aliases[i]) {
      StandsForOne(k, c.aliases[i], index[k].alias);
      AliasKeyFound(tokens, lengths, longest, c.aliases[i]);
      assert Supports(names, c, tokens, c.aliases[i], workforce);
    } else {
      var i :| 0 <= i < |c.sequences| && k == SequenceKey(c.sequences[i]);
      var s := c.sequences[i];
      assert s in c.sequences;
      StandsForOne(k, Join(s), index[k].alias);
      SequenceKeyFound(tokens, lengths, longest, s);
      assert Supports(names, c, tokens, Join(s), workforce);
    }
  }

  lemma SupportedIsBit(names: NameRules, compacts: seq<Compact>, index: map<string, Evidence>, lengths: seq<nat>,
                       longest: nat, tokens: seq<string>, keys: set<string>, x: nat, alias: string, workforce: bool)
    requires Covers(compacts, index, lengths, longest) && NoNul(tokens) && x < |compacts|
    requires forall k :: k in keys <==> k in index && KeyFound(tokens, lengths, longest, k)
    requires Supports(names, compacts[x], tokens, alias, workforce)
    ensures Bit(names, Join(tokens), index, keys, x, workforce)
  {
    hide StateOfField, KeyFound, AliasKey, SequenceKey;
    var c := compacts[x];
    assert c in compacts;
    if alias in c.aliases && exists t :: t in tokens && Includes(t, alias) {
      var i :| 0 <= i < |c.aliases| && c.aliases[i] == alias;
      var t :| t in tokens && Includes(t, alias);
      AliasIsFound(tokens, lengths, longest, alias, t);
      assert Indexed(index, AliasKey(c.aliases[i]), x);
      StandsForOne(AliasKey(alias), alias, index[AliasKey(alias)].alias);
    } else {
      var s :| s in c.sequences && Join(s) == alias && ContainsSequence(tokens, s);
      var i :| 0 <= i < |c.sequences| && c.sequences[i] == s;
      assert Indexed(index, SequenceKey(c.sequences[i]), x);
      SequenceIsFound(tokens, lengths, longest, s);
      StandsForOne(SequenceKey(s), alias, index[SequenceKey(s)].alias);
    }
  }

  /** The facility has, in each field, an alias that is in evidence and alone accounts for the field. */
  ghost predicate IsIndexedIdentity(v: Vocabulary, c: Compact, g: Group) {
    && IsReadable(v, g)
    && (exists a :: Supports(v.names, c, DisplayTokens(v, g), a, false))
    && (exists a :: Supports(v.names, c, LocalTokens(v, g), a, false))
    && ((exists a :: Supports(v.names, c, DisplayTokens(v, g), a, true))
        || (exists a :: Supports(v.names, c, LocalTokens(v, g), a, true)))
  }

  lemma BitIffSupported(names: NameRules, compacts: seq<Compact>, index: map<string, Evidence>, lengths: seq<nat>,
                        longest: nat, tokens: seq<string>, keys: set<string>)
    requires Covers(compacts, index, lengths, longest) && NoNul(tokens)
    requires forall k :: k in keys <==> k in index && KeyFound(tokens, lengths, longest, k)
    ensures forall x: nat, workforce :: Bit(names, Join(tokens), index, keys, x, workforce) <==>
              x < |compacts| && exists a :: Supports(names, compacts[x], tokens, a, workforce)
  {
    hide Bit, Supports, Covers, KeyFound;
    forall x: nat, workforce
      ensures Bit(names, Join(tokens), index, keys, x, workforce) <==>
                x < |compacts| && exists a :: Supports(names, compacts[x], tokens, a, workforce)
    {
      if Bit(names, Join(tokens), index, keys, x, workforce) {
        BitsAreSupported(names, compacts, index, lengths, longest, tokens, keys, x, workforce);
      }
      if x < |compacts| {
        if a :| Supports(names, compacts[x], tokens, a, workforce) {
          SupportedIsBit(names, compacts, index, lengths, longest, tokens, keys, x, a, workforce);
        }
      }
    }
  }

  method FieldBitsOfTokens(names: NameRules, index: map<string, Evidence>, lengths: seq<nat>, longest: nat,
                           tokens: seq<string>, ghost compacts: seq<Compact>)
    returns (valid: set<nat>, workforce: set<nat>)
    requires Covers(compacts, index, lengths, longest) && NoNul(tokens) && "" !in names.workforce
    ensures forall x: nat :: x in valid <==>
              x < |compacts| && exists a :: Supports(names, compacts[x], tokens, a, false)
    ensures forall x: nat :: x in workforce <==>
              x < |compacts| && exists a :: Supports(names, compacts[x], tokens, a, true)
  {
    assert Ascending(lengths) && forall k :: k in index ==> index[k].alias != "";
    hide Bit, Supports, Covers, KeyFound;
    var keys := BoundaryEvidence(index, lengths, longest, tokens);
    valid, workforce := FieldBits(names, Join(tokens), index, keys);
    BitIffSupported(names, compacts, index, lengths, longest, tokens, keys);
  }

  /** `hasIndexedExactWholeBuildingIdentity`. */
  method HasIndexedIdentity(v: Vocabulary, index: map<string, Evidence>, lengths: seq<nat>, longest: nat, g: Group,
                            ghost compacts: seq<Compact>)
    returns (r: bool)
    requires Covers(compacts, index, lengths, longest) && "" !in v.names.workforce
    requires NoNul(DisplayTokens(v, g)) && NoNul(LocalTokens(v, g))
    ensures r <==> exists c :: c in compacts && IsIndexedIdentity(v, c, g)
  {
    hide Covers, Supports;
    if !IsReadable(v, g) {
      return false;
    }
    var displayValid, displayWorkforce := FieldBitsOfTokens(v.names, index, lengths, longest, DisplayTokens(v, g),
      compacts);
    var localValid, localWorkforce := FieldBitsOfTokens(v.names, index, lengths, longest, LocalTokens(v, g), compacts);
    var bits := displayValid * localValid * (displayWorkforce + localWorkforce);
    r := bits != {};
    if r {
      var x :| x in bits;
      assert compacts[x] in compacts && IsIndexedIdentity(v, compacts[x], g);
    }
    if c :| c in compacts && IsIndexedIdentity(v, c, g) {
      var x :| 0 <= x < |compacts| && compacts[x] == c;
      assert x in bits;
    }
  }

  // ----- the indexed test against the test of each facility -----

  /** What the index holds for a facility. */
  ghost predicate IsCompactOf(v: Vocabulary, f: Facility, c: Compact) {
    && (forall a :: a in c.aliases <==> a in Aliases(v, f))
    && (forall s :: s in c.sequences <==> s in Sequences(v, f) && s != [] && Join(s) in Aliases(v, f))
  }

  lemma SupportedField(v: Vocabulary, f: Facility, c: Compact, tokens: seq<string>, alias: string, workforce: bool)
    requires IsCompactOf(v, f, c) && Supports(v.names, c, tokens, alias, workforce)
    ensures !FieldOf(v, f, tokens).InvalidField? && (workforce ==> FieldOf(v, f, tokens).FacilityWorkforceField?)
  {
    hide Aliases, NamesBuilding, ContainsSequence, Includes;
    assert HasBoundaryEvidence(v, f, tokens);
    assert alias in Aliases(v, f);
    if NamesBuilding(v.names, Join(tokens), [alias], true) {
      MoreAliasesNameMore(v.names, Join(tokens), [alias], Aliases(v, f), true);
    }
    if NamesBuilding(v.names, Join(tokens), [alias], false) {
      MoreAliasesNameMore(v.names, Join(tokens), [alias], Aliases(v, f), false);
    }
  }

  /** Whatever the bit sets accept, the facility accepts: the fast test never claims a building too many. */
  lemma IndexedIdentityIsIdentity(v: Vocabulary, f: Facility, c: Compact, g: Group)
    requires IsCompactOf(v, f, c) && IsIndexedIdentity(v, c, g)
    ensures IsWholeBuilding(v, f, g)
  {
    hide Supports, FieldOf, IsCompactOf;
    var display, local := DisplayTokens(v, g), LocalTokens(v, g);
    var a :| Supports(v.names, c, display, a, false);
    SupportedField(v, f, c, display, a, false);
    var b :| Supports(v.names, c, local, b, false);
    SupportedField(v, f, c, local, b, false);
    if e :| Supports(v.names, c, display, e, true) {
      SupportedField(v, f, c, display, e, true);
    } else {
      var e :| Supports(v.names, c, local, e, true);
      SupportedField(v, f, c, local, e, true);
    }
  }
}
