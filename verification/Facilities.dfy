/**
 What a Google group says about a facility: the automatic aliases of a facility, the identity test
 and the score (scripts/ops/groups-inventory-classification.ts, scripts/ops/groups-inventory-report.ts).
 Word lists, tokenisation and the Unicode check are parameters.
 */
module Facilities {
  import opened Wrappers
  import opened Segmentation
  import opened CompactTokens
  import opened BuildingNames

  datatype Facility = Facility(id: string, code: string, name: string, active: bool)

  datatype Group = Group(id: string, email: string, displayName: Option<string>)

  datatype Vocabulary = Vocabulary(
    tokensOf: string -> seq<string>,
    unsupported: string -> bool,        // hasUnsupportedIdentityContent
    generic: set<string>,               // FACILITY_GENERIC_MARKERS
    aggregate: set<string>,             // AGGREGATE_FACILITY_NAME_MARKERS
    disqualifying: set<string>,         // DISQUALIFYING_AGGREGATE_FACILITY_NAME_MARKERS
    siteTypes: set<string>,             // AUTOMATIC_PHYSICAL_SITE_TYPE_MARKERS
    weak: set<string>,                  // WEAK_NEIGHBORHOOD_STEMS
    nonDistinctive: seq<string>,        // NON_DISTINCTIVE_AUTOMATIC_FACILITY_ALIASES and the organisation's prefixes
    staff: set<string>, narrow: set<string>, stale: set<string>,
    names: NameRules)

  // ----- texts and token lists -----

  function Join(tokens: seq<string>): string {
    if tokens == [] then "" else tokens[0] + Join(tokens[1..])
  }

  predicate Includes(text: string, part: string) {
    exists i :: 0 <= i <= |text| && StartsWith(text, i, part)
  }

  /** `containsSequence`: an empty sequence is contained nowhere. */
  predicate ContainsSequence(haystack: seq<string>, needle: seq<string>) {
    needle != [] && exists i :: 0 <= i <= |haystack| && SequenceAt(haystack, needle, i)
  }

  predicate SequenceAt(haystack: seq<string>, needle: seq<string>, i: nat) {
    i + |needle| <= |haystack| && haystack[i..i + |needle|] == needle
  }

  function Without(tokens: seq<string>, dropped: set<string>): seq<string> {
    if tokens == [] then []
    else if tokens[0] in dropped then Without(tokens[1..], dropped)
    else [tokens[0]] + Without(tokens[1..], dropped)
  }

  function Initials(tokens: seq<string>): string {
    if tokens == [] then "" else tokens[0][..if tokens[0] == "" then 0 else 1] + Initials(tokens[1..])
  }

  /** Where an email's local part ends: its last `@`, or, as `slice(0, -1)` has it, before the last character. */
  function LocalPart(email: string): string {
    if email == "" then ""
    else if LastAt(email, |email|) >= 0 then email[..LastAt(email, |email|)]
    else email[..|email| - 1]
  }

  function LastAt(text: string, n: nat): (i: int)
    requires n <= |text|
    ensures -1 <= i < n
  {
    if n == 0 then -1 else if text[n - 1] == '@' then n - 1 else LastAt(text, n - 1)
  }

  function DisplayTokens(v: Vocabulary, g: Group): seq<string> { v.tokensOf(g.displayName.GetOr("")) }

  function LocalTokens(v: Vocabulary, g: Group): seq<string> { v.tokensOf(LocalPart(g.email)) }

  // ----- aliases -----

  function CodeTokens(v: Vocabulary, f: Facility): seq<string> { v.tokensOf(f.code) }

  function NameTokens(v: Vocabulary, f: Facility): seq<string> { v.tokensOf(f.name) }

  /** `siteSpecificFacilityNameTokens`. */
  function SiteTokens(v: Vocabulary, f: Facility): seq<string> { Without(NameTokens(v, f), v.generic + v.aggregate) }

  /** `isDistinctiveAutomaticFacilityAlias`, of a text that is its own single token. */
  ghost predicate IsDistinctive(v: Vocabulary, alias: string) {
    |alias| >= 3 && !IsConcatenation(alias, v.nonDistinctive, WholeNumber)
  }

  /** `hasSiteSpecificAutomaticFacilityIdentity`. */
  ghost predicate HasSiteIdentity(v: Vocabulary, f: Facility) {
    && (forall t :: t in NameTokens(v, f) ==> t !in v.disqualifying)
    && (exists t :: t in NameTokens(v, f) && t in v.siteTypes)
    && (exists t :: t in SiteTokens(v, f) && t !in v.weak && IsDistinctive(v, t))
  }

  /** `isFacilitySpecificCodeAlias`. */
  ghost predicate HasCodeAlias(v: Vocabulary, f: Facility) {
    && HasSiteIdentity(v, f)
    && IsDistinctive(v, Join(CodeTokens(v, f)))
    && var alias := Join(CodeTokens(v, f));
       || alias == Initials(NameTokens(v, f)) || alias == Initials(SiteTokens(v, f))
       || (|CodeTokens(v, f)| == 1 && exists t :: t in SiteTokens(v, f) && alias <= t)
  }

  ghost function If(test: bool, alias: string): seq<string> { if test then [alias] else [] }

  /** `compactFacilityAliases`, in another order and perhaps with repetitions. */
  ghost function Aliases(v: Vocabulary, f: Facility): seq<string> {
    if !HasSiteIdentity(v, f) then []
    else
      If(HasCodeAlias(v, f), Join(CodeTokens(v, f)))
      + If(IsDistinctive(v, Join(SiteTokens(v, f))), Join(SiteTokens(v, f)))
      + If(IsDistinctive(v, Join(NameTokens(v, f))), Join(NameTokens(v, f)))
  }

  lemma AliasesAreDistinctive(v: Vocabulary, f: Facility, alias: string)
    requires alias in Aliases(v, f)
    ensures IsDistinctive(v, alias) && alias != ""
  {
  }

  /** Order and repetition of the aliases do not matter to the recogniser, and more of them never lose a name. */
  lemma MoreAliasesNameMore(rules: NameRules, text: string, few: seq<string>, many: seq<string>, workforce: bool)
    requires forall a :: a in few ==> a in many
    requires NamesBuilding(rules, text, few, workforce)
    ensures NamesBuilding(rules, text, many, workforce)
  {
    var g, h := NameGrammar(rules, text, few), NameGrammar(rules, text, many);
    var pieces: seq<Piece<NameKind>> :| IsCut(g, pieces) && EndOf(pieces) == |text| &&
                                        AliasCount(pieces) == 1 && HasWorkforce(pieces) == workforce;
    forall i | 0 <= i < |pieces|
      ensures EndOf(pieces[..i]) < pieces[i].end && h.allows(EndOf(pieces[..i]), pieces[i].end, pieces[i].kind)
    {
      assert g.allows(EndOf(pieces[..i]), pieces[i].end, pieces[i].kind);
      EndsOfMore(text, EndOf(pieces[..i]), few, many);
    }
    assert IsCut(h, pieces);
  }

  lemma EndsOfMore(text: string, offset: nat, few: seq<string>, many: seq<string>)
    requires forall a :: a in few ==> a in many
    ensures Ends(text, offset, few) <= Ends(text, offset, many)
  {
    forall e | e in Ends(text, offset, few)
      ensures e in Ends(text, offset, many)
    {
      var j :| 0 <= j < |few| && StartsWith(text, offset, few[j]) && e == offset + |few[j]|;
      assert few[j] in many;
      var k :| 0 <= k < |many| && many[k] == few[j];
      assert StartsWith(text, offset, many[k]);
    }
  }

  // ----- identity and score -----

  /** The three token sequences that may stand for a facility. */
  function Sequences(v: Vocabulary, f: Facility): seq<seq<string>> {
    [CodeTokens(v, f), SiteTokens(v, f), NameTokens(v, f)]
  }

  /** `hasBoundaryPreservingAutomaticFacilityEvidence`. */
  ghost predicate HasBoundaryEvidence(v: Vocabulary, f: Facility, tokens: seq<string>) {
    || (exists alias, token :: alias in Aliases(v, f) && token in tokens && Includes(token, alias))
    || (exists s :: s in Sequences(v, f) && Join(s) in Aliases(v, f) && ContainsSequence(tokens, s))
  }

  /** `wholeBuildingFieldState`. */
  ghost function FieldOf(v: Vocabulary, f: Facility, tokens: seq<string>): FieldState {
    if HasBoundaryEvidence(v, f, tokens) then StateOfField(v.names, Join(tokens), Aliases(v, f)) else InvalidField
  }

  predicate IsReadable(v: Vocabulary, g: Group) {
    g.displayName.Some? && !v.unsupported(g.displayName.value) && !v.unsupported(LocalPart(g.email))
  }

  /** `isExactWholeBuildingIdentity`. */
  ghost predicate IsWholeBuilding(v: Vocabulary, f: Facility, g: Group) {
    && IsReadable(v, g)
    && var display, local := FieldOf(v, f, DisplayTokens(v, g)), FieldOf(v, f, LocalTokens(v, g));
       && !display.InvalidField? && !local.InvalidField?
       && (display.FacilityWorkforceField? || local.FacilityWorkforceField?)
  }

  predicate HasAnyToken(tokens: seq<string>, choices: set<string>) { exists t :: t in tokens && t in choices }

  ghost predicate HasExactCode(v: Vocabulary, f: Facility, g: Group) {
    && HasCodeAlias(v, f)
    && (ContainsSequence(DisplayTokens(v, g), CodeTokens(v, f)) ||
         ContainsSequence(LocalTokens(v, g), CodeTokens(v, f)))
  }

  ghost predicate HasExactStem(v: Vocabulary, f: Facility, g: Group) {
    && HasSiteIdentity(v, f) && IsDistinctive(v, Join(SiteTokens(v, f)))
    && (ContainsSequence(DisplayTokens(v, g), SiteTokens(v, f)) ||
         ContainsSequence(LocalTokens(v, g), SiteTokens(v, f)))
  }

  ghost predicate IsBroadStaff(v: Vocabulary, f: Facility, g: Group) {
    HasAnyToken(DisplayTokens(v, g) + LocalTokens(v, g), v.staff) || IsWholeBuilding(v, f, g)
  }

  /** `scoreGroupForFacility`: the score. */
  ghost function Score(v: Vocabulary, f: Facility, g: Group): int {
    (if HasExactCode(v, f, g) then 100 else 0)
    + (if HasExactStem(v, f, g) then 90 else 0)
    + (if IsWholeBuilding(v, f, g) && !HasExactCode(v, f, g) && !HasExactStem(v, f, g) then 100 else 0)
    + (if IsBroadStaff(v, f, g) then 20 else 0)
  }

  ghost predicate IsStrongEligible(v: Vocabulary, f: Facility, g: Group) {
    var tokens := DisplayTokens(v, g) + LocalTokens(v, g);
    && IsBroadStaff(v, f, g) && !HasAnyToken(tokens, v.narrow) && !HasAnyToken(tokens, v.stale)
    && g.displayName.Some? && IsWholeBuilding(v, f, g)
  }

  // ----- a score of 90 needs an alias that the text contains -----

  /** An automatic alias of the facility stands somewhere in one of the two compacted fields. */
  ghost predicate IsContext(v: Vocabulary, f: Facility, g: Group) {
    exists alias :: alias in Aliases(v, f) &&
      (Includes(Join(DisplayTokens(v, g)), alias) || Includes(Join(LocalTokens(v, g)), alias))
  }

  lemma {:induction false} JoinOfParts(a: seq<string>, b: seq<string>)
    ensures Join(a + b) == Join(a) + Join(b)
  {
    if a == [] {
      assert a + b == b;
    } else {
      assert (a + b)[1..] == a[1..] + b;
      JoinOfParts(a[1..], b);
    }
  }

  lemma IncludesInMiddle(before: string, part: string, after: string)
    ensures Includes(before + part + after, part)
  {
    assert part[0..0 + |part|] == part;
    assert StartsWith(part, 0, part);
    IncludedInMore(before, part, after, part);
  }

  lemma SequenceIsIncluded(tokens: seq<string>, s: seq<string>)
    requires ContainsSequence(tokens, s)
    ensures Includes(Join(tokens), Join(s))
  {
    var i :| 0 <= i <= |tokens| && SequenceAt(tokens, s, i);
    assert tokens == tokens[..i] + s + tokens[i + |s|..];
    JoinOfParts(tokens[..i] + s, tokens[i + |s|..]);
    JoinOfParts(tokens[..i], s);
    IncludesInMiddle(Join(tokens[..i]), Join(s), Join(tokens[i + |s|..]));
  }

  lemma TokenIsIncluded(tokens: seq<string>, token: string, part: string)
    requires token in tokens && Includes(token, part)
    ensures Includes(Join(tokens), part)
  {
    var i :| 0 <= i < |tokens| && tokens[i] == token;
    assert tokens == tokens[..i] + [token] + tokens[i + 1..];
    JoinOfParts(tokens[..i] + [token], tokens[i + 1..]);
    JoinOfParts(tokens[..i], [token]);
    assert [token][1..] == [] && Join([token]) == token + Join([]);
    assert Join(tokens) == Join(tokens[..i]) + token + Join(tokens[i + 1..]);
    IncludedInMore(Join(tokens[..i]), token, Join(tokens[i + 1..]), part);
  }

  lemma IncludedInMore(before: string, text: string, after: string, part: string)
    requires Includes(text, part)
    ensures Includes(before + text + after, part)
  {
    var j :| 0 <= j <= |text| && StartsWith(text, j, part);
    var all := before + text + after;
    assert all[|before| + j..|before| + j + |part|] == text[j..j + |part|];
    assert StartsWith(all, |before| + j, part);
  }

  lemma EvidenceIsIncluded(v: Vocabulary, f: Facility, tokens: seq<string>)
    requires HasBoundaryEvidence(v, f, tokens)
    ensures exists alias :: alias in Aliases(v, f) && Includes(Join(tokens), alias)
  {
    hide Aliases, Includes, ContainsSequence;
    if alias, token :| alias in Aliases(v, f) && token in tokens && Includes(token, alias) {
      TokenIsIncluded(tokens, token, alias);
    } else {
      var s :| s in Sequences(v, f) && Join(s) in Aliases(v, f) && ContainsSequence(tokens, s);
      SequenceIsIncluded(tokens, s);
    }
  }

  /**
   The alias prefilter loses nothing: a facility that no alias points to cannot score 90, nor anything
   but 0 or 20.
   */
  lemma ScoredFacilitiesAreContexts(v: Vocabulary, f: Facility, g: Group)
    ensures Score(v, f, g) >= 90 ==> IsContext(v, f, g)
    ensures !IsContext(v, f, g) ==> Score(v, f, g) <= 20 && !IsStrongEligible(v, f, g)
  {
    hide Includes, ContainsSequence, HasSiteIdentity, IsDistinctive, FieldOf;
    if HasExactCode(v, f, g) {
      assert Join(CodeTokens(v, f)) in Aliases(v, f);
      if ContainsSequence(DisplayTokens(v, g), CodeTokens(v, f)) {
        SequenceIsIncluded(DisplayTokens(v, g), CodeTokens(v, f));
      } else {
        SequenceIsIncluded(LocalTokens(v, g), CodeTokens(v, f));
      }
    }
    if HasExactStem(v, f, g) {
      assert Join(SiteTokens(v, f)) in Aliases(v, f);
      if ContainsSequence(DisplayTokens(v, g), SiteTokens(v, f)) {
        SequenceIsIncluded(DisplayTokens(v, g), SiteTokens(v, f));
      } else {
        SequenceIsIncluded(LocalTokens(v, g), SiteTokens(v, f));
      }
    }
    if IsWholeBuilding(v, f, g) {
      ValidFieldHasEvidence(v, f, DisplayTokens(v, g));
      EvidenceIsIncluded(v, f, DisplayTokens(v, g));
    }
  }

  lemma ValidFieldHasEvidence(v: Vocabulary, f: Facility, tokens: seq<string>)
    requires !FieldOf(v, f, tokens).InvalidField?
    ensures HasBoundaryEvidence(v, f, tokens)
  {
  }
}
