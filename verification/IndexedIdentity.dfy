/**
 Where the bit-set test for a whole building and the test of one facility part ways
 (scripts/ops/groups-inventory-classification.ts, scripts/ops/groups-inventory-report.ts). The test of
 one facility may find its evidence with one alias and cut the field with another; the bit sets ask
 for both of the same alias. That is the whole difference.
 */
module IndexedIdentity {
  import opened Segmentation
  import opened CompactTokens
  import opened BuildingNames
  import opened Facilities
  import opened BuildingBits

  /** The alias stands inside one token, or is a run of whole tokens. */
  ghost predicate HasEvidenceOf(v: Vocabulary, f: Facility, tokens: seq<string>, alias: string) {
    || (exists t :: t in tokens && Includes(t, alias))
    || (exists s :: s in Sequences(v, f) && Join(s) == alias && ContainsSequence(tokens, s))
  }

  /** No alias of the facility appears only because the tokens were joined. */
  ghost predicate RespectsBoundaries(v: Vocabulary, f: Facility, tokens: seq<string>) {
    forall alias :: alias in Aliases(v, f) && Includes(Join(tokens), alias) ==> HasEvidenceOf(v, f, tokens, alias)
  }

  // ----- the one alias of a cut -----

  ghost predicate IsOnlyAlias(pieces: seq<Piece<NameKind>>, i: nat) {
    i < |pieces| && forall k :: 0 <= k < |pieces| ==> (pieces[k].kind.Alias? <==> k == i)
  }

  lemma {:induction false} NoAliasPiece(pieces: seq<Piece<NameKind>>)
    requires AliasCount(pieces) == 0
    ensures forall k :: 0 <= k < |pieces| ==> !pieces[k].kind.Alias?
  {
    if pieces != [] {
      NoAliasPiece(pieces[..|pieces| - 1]);
    }
  }

  lemma {:induction false} OnlyAlias(pieces: seq<Piece<NameKind>>) returns (i: nat)
    requires AliasCount(pieces) == 1
    ensures IsOnlyAlias(pieces, i)
  {
    var front := pieces[..|pieces| - 1];
    if pieces[|pieces| - 1].kind.Alias? {
      NoAliasPiece(front);
      i := |pieces| - 1;
    } else {
      i := OnlyAlias(front);
    }
  }

  lemma PieceOfOne(rules: NameRules, text: string, aliases: seq<string>, alias: string, start: nat, end: nat,
                   k: NameKind)
    requires NamePieceAt(rules, text, aliases, start, end, k)
    requires k.Alias? ==> StartsWith(text, start, alias) && end == start + |alias|
    ensures NamePieceAt(rules, text, [alias], start, end, k)
  {
    assert [alias][0] == alias;
  }

  /** A building's name holds one alias that alone makes it a building's name. */
  lemma NamedByOne(rules: NameRules, text: string, aliases: seq<string>, workforce: bool) returns (alias: string)
    requires NamesBuilding(rules, text, aliases, workforce)
    ensures alias in aliases && Includes(text, alias) && NamesBuilding(rules, text, [alias], workforce)
  {
    var g := NameGrammar(rules, text, aliases);
    var pieces: seq<Piece<NameKind>> :| IsCut(g, pieces) && EndOf(pieces) == |text| &&
                                        AliasCount(pieces) == 1 && HasWorkforce(pieces) == workforce;
    var i := OnlyAlias(pieces);
    var start := EndOf(pieces[..i]);
    assert g.allows(start, pieces[i].end, pieces[i].kind);
    var j :| 0 <= j < |aliases| && StartsWith(text, start, aliases[j]) && pieces[i].end == start + |aliases[j]|;
    alias := aliases[j];
    var h := NameGrammar(rules, text, [alias]);
    forall k | 0 <= k < |pieces|
      ensures EndOf(pieces[..k]) < pieces[k].end && h.allows(EndOf(pieces[..k]), pieces[k].end, pieces[k].kind)
    {
      assert g.allows(EndOf(pieces[..k]), pieces[k].end, pieces[k].kind);
      PieceOfOne(rules, text, aliases, alias, EndOf(pieces[..k]), pieces[k].end, pieces[k].kind);
    }
    assert IsCut(h, pieces) by { hide NameGrammar; }
  }

  // ----- the exact condition -----

  /** The text is words, years and this one alias, with a workforce word among them where one is asked for. */
  ghost predicate Names(rules: NameRules, text: string, alias: string, workforce: bool) {
    NamesBuilding(rules, text, [alias], true) || (!workforce && NamesBuilding(rules, text, [alias], false))
  }

  /** Some alias of the facility is both in evidence among the tokens and alone accounts for the field. */
  ghost predicate NamedInEvidence(v: Vocabulary, f: Facility, tokens: seq<string>, workforce: bool) {
    exists a :: a in Aliases(v, f) && HasEvidenceOf(v, f, tokens, a) && Names(v.names, Join(tokens), a, workforce)
  }

  lemma SupportsIff(v: Vocabulary, f: Facility, c: Compact, tokens: seq<string>, a: string, workforce: bool)
    requires IsCompactOf(v, f, c)
    ensures Supports(v.names, c, tokens, a, workforce) <==>
              a in Aliases(v, f) && HasEvidenceOf(v, f, tokens, a) && Names(v.names, Join(tokens), a, workforce)
  {
    hide Aliases, NamesBuilding, SequenceAt, Includes;
    if s :| s in Sequences(v, f) && Join(s) == a && ContainsSequence(tokens, s) && a in Aliases(v, f) {
      assert s in c.sequences;
    }
    if s :| s in c.sequences && Join(s) == a && ContainsSequence(tokens, s) {
      assert s in Sequences(v, f);
    }
  }

  lemma SupportedIff(v: Vocabulary, f: Facility, c: Compact, tokens: seq<string>, workforce: bool)
    requires IsCompactOf(v, f, c)
    ensures (exists a :: Supports(v.names, c, tokens, a, workforce)) <==> NamedInEvidence(v, f, tokens, workforce)
  {
    hide Supports, HasEvidenceOf, Names, Aliases, IsCompactOf;
    forall a
      ensures Supports(v.names, c, tokens, a, workforce) <==>
                a in Aliases(v, f) && HasEvidenceOf(v, f, tokens, a) && Names(v.names, Join(tokens), a, workforce)
    {
      SupportsIff(v, f, c, tokens, a, workforce);
    }
  }

  /**
   In each field one alias is in evidence and names it, and in one field such an alias does so with a
   workforce word.
   */
  ghost predicate NamedInBothFields(v: Vocabulary, f: Facility, g: Group) {
    && NamedInEvidence(v, f, DisplayTokens(v, g), false)
    && NamedInEvidence(v, f, LocalTokens(v, g), false)
    && (NamedInEvidence(v, f, DisplayTokens(v, g), true) || NamedInEvidence(v, f, LocalTokens(v, g), true))
  }

  /**
   What the bit sets accept, told by the facility's aliases and the group's tokens; and when the two
   tests are one.
   */
  lemma IndexedIdentityIff(v: Vocabulary, f: Facility, c: Compact, g: Group)
    requires IsCompactOf(v, f, c)
    ensures IsIndexedIdentity(v, c, g) <==> IsReadable(v, g) && NamedInBothFields(v, f, g)
    ensures (IsIndexedIdentity(v, c, g) <==> IsWholeBuilding(v, f, g)) <==>
              (IsWholeBuilding(v, f, g) ==> NamedInBothFields(v, f, g))
  {
    hide Supports, FieldOf, IsCompactOf, NamedInEvidence;
    forall tokens, workforce
      ensures (exists a :: Supports(v.names, c, tokens, a, workforce)) <==> NamedInEvidence(v, f, tokens, workforce)
    {
      SupportedIff(v, f, c, tokens, workforce);
    }
    if IsIndexedIdentity(v, c, g) {
      IndexedIdentityIsIdentity(v, f, c, g);
    }
  }

  // ----- where no alias crosses a boundary -----

  lemma NamedWithoutCrossing(v: Vocabulary, f: Facility, tokens: seq<string>)
    requires RespectsBoundaries(v, f, tokens)
    ensures !FieldOf(v, f, tokens).InvalidField? ==> NamedInEvidence(v, f, tokens, false)
    ensures FieldOf(v, f, tokens).FacilityWorkforceField? ==> NamedInEvidence(v, f, tokens, true)
  {
    hide Aliases, NamesBuilding, HasBoundaryEvidence, HasEvidenceOf, Includes;
    if !FieldOf(v, f, tokens).InvalidField? {
      var workforce := FieldOf(v, f, tokens).FacilityWorkforceField?;
      var a := NamedByOne(v.names, Join(tokens), Aliases(v, f), workforce);
      assert Names(v.names, Join(tokens), a, workforce);
    }
  }

  /** Where every alias respects the token boundaries, the fast test and the test of the facility are one test. */
  lemma BoundariesDecide(v: Vocabulary, f: Facility, c: Compact, g: Group)
    requires IsCompactOf(v, f, c)
    requires RespectsBoundaries(v, f, DisplayTokens(v, g)) && RespectsBoundaries(v, f, LocalTokens(v, g))
    ensures IsIndexedIdentity(v, c, g) <==> IsWholeBuilding(v, f, g)
  {
    hide FieldOf, IsCompactOf, RespectsBoundaries, NamedInEvidence, IsIndexedIdentity;
    IndexedIdentityIff(v, f, c, g);
    NamedWithoutCrossing(v, f, DisplayTokens(v, g));
    NamedWithoutCrossing(v, f, LocalTokens(v, g));
  }
}
