/**
 What a score says (`scoreGroupForFacility`, scripts/ops/groups-inventory-report.ts): it is the sum of
 the points of its reason codes, a group that names the whole building reaches the threshold of a
 proposal, and, read with the inventory's own word lists, what three groups score for their school.
 */
module ScoreMeaning {
  import opened TopRanked
  import opened BuildingNames
  import opened Facilities
  import opened BuildingDraft
  import opened SourceRules

  // ----- the points of a reason -----

  function Points(reason: string): int {
    if reason == "EXACT_FACILITY_CODE" || reason == "EXACT_FULLY_CONSUMED_FACILITY_IDENTITY" then 100
    else if reason == "EXACT_DISTINCTIVE_NAME_STEM" then 90
    else if reason == "BROAD_STAFF_MARKER" then 20
    else 0
  }

  function Sum(reasons: seq<string>): int {
    if reasons == [] then 0 else Sum(reasons[..|reasons| - 1]) + Points(reasons[|reasons| - 1])
  }

  lemma {:induction false} SumOfParts(a: seq<string>, b: seq<string>)
    ensures Sum(a + b) == Sum(a) + Sum(b)
  {
    hide Points;
    if b == [] {
      assert a + b == a;
    } else {
      assert (a + b)[..|a + b| - 1] == a + b[..|b| - 1];
      SumOfParts(a, b[..|b| - 1]);
    }
  }

  lemma {:induction false} SumOfSorted(reasons: seq<string>, before: (string, string) -> bool)
    ensures Sum(Ranked(reasons, before)) == Sum(reasons)
  {
    hide Points;
    if reasons != [] {
      var front, last := reasons[..|reasons| - 1], reasons[|reasons| - 1];
      SumOfSorted(front, before);
      var sorted := Ranked(front, before);
      var i := Place(sorted, last, before);
      assert sorted == sorted[..i] + sorted[i..];
      SumOfParts(sorted[..i], sorted[i..]);
      SumOfParts(sorted[..i], [last]);
      SumOfParts(sorted[..i] + [last], sorted[i..]);
      assert Sum([last]) == Points(last) by { assert [last][..0] == []; }
    }
  }

  lemma {:induction false} UniqueAlready(texts: seq<string>)
    requires NoRepeats(texts)
    ensures Unique(texts) == texts
  {
    if texts != [] {
      var front, last := texts[..|texts| - 1], texts[|texts| - 1];
      UniqueAlready(front);
      assert last !in front;
    }
  }

  // ----- the reasons of a rating -----

  /** The tokens of the needle stand one after another in the haystack. */
  ghost predicate StandsIn(needle: seq<string>, haystack: seq<string>) {
    needle != [] && exists before, after :: haystack == before + needle + after
  }

  lemma ContainsIsStandsIn(haystack: seq<string>, needle: seq<string>)
    ensures ContainsSequence(haystack, needle) <==> StandsIn(needle, haystack)
  {
    if ContainsSequence(haystack, needle) {
      var i :| 0 <= i <= |haystack| && SequenceAt(haystack, needle, i);
      assert haystack == haystack[..i] + needle + haystack[i + |needle|..];
    }
    if StandsIn(needle, haystack) {
      var before, after :| haystack == before + needle + after;
      assert SequenceAt(haystack, needle, |before|);
    }
  }

  // ----- the reason codes are different -----

  const CODES := [
    "EXACT_FACILITY_CODE", "EXACT_DISTINCTIVE_NAME_STEM", "EXACT_FULLY_CONSUMED_FACILITY_IDENTITY",
    "BROAD_STAFF_MARKER", "NARROW_ROLE_MARKER", "STALE_NAME_MARKER", "MISSING_GROUP_DISPLAY_NAME"]

  function Chosen(tests: seq<bool>, n: nat): seq<string>
    requires |tests| == |CODES| && n <= |CODES|
  {
    if n == 0 then [] else Chosen(tests, n - 1) + IfWarning(tests[n - 1], CODES[n - 1])
  }

  lemma CodesDiffer()
    ensures NoRepeats(CODES)
  {
    assert |CODES[0]| == 19 && |CODES[1]| == 27 && |CODES[2]| == 38 && |CODES[3]| == 18 && |CODES[4]| == 18;
    assert |CODES[5]| == 17 && |CODES[6]| == 26 && CODES[3][0] == 'B' && CODES[4][0] == 'N';
  }

  lemma {:induction false} ChosenOnce(tests: seq<bool>, n: nat)
    requires |tests| == |CODES| && n <= |CODES|
    ensures NoRepeats(Chosen(tests, n))
    ensures forall i :: 0 <= i < |CODES| ==> (CODES[i] in Chosen(tests, n) <==> i < n && tests[i])
    ensures forall code :: code in Chosen(tests, n) ==> code in CODES[..n]
  {
    CodesDiffer();
    if n > 0 {
      ChosenOnce(tests, n - 1);
      var front := Chosen(tests, n - 1);
      assert CODES[n - 1] !in front;
      assert CODES[..n] == CODES[..n - 1] + [CODES[n - 1]];
    }
  }

  ghost function TestsOf(v: Vocabulary, f: Facility, g: Group): seq<bool> {
    var tokens := DisplayTokens(v, g) + LocalTokens(v, g);
    [HasExactCode(v, f, g), HasExactStem(v, f, g),
     IsWholeBuilding(v, f, g) && !HasExactCode(v, f, g) && !HasExactStem(v, f, g),
     IsBroadStaff(v, f, g), HasAnyToken(tokens, v.narrow), HasAnyToken(tokens, v.stale), g.displayName.None?]
  }

  lemma CodesAreChosen(v: Vocabulary, f: Facility, g: Group)
    ensures ReasonCodes(v, f, g) == Chosen(TestsOf(v, f, g), 7)
  {
    hide HasExactCode, HasExactStem, IsWholeBuilding, IsBroadStaff, HasAnyToken, IfWarning;
    var tests := TestsOf(v, f, g);
    assert Chosen(tests, 1) == IfWarning(tests[0], CODES[0]);
    assert Chosen(tests, 2) == Chosen(tests, 1) + IfWarning(tests[1], CODES[1]);
    assert Chosen(tests, 3) == Chosen(tests, 2) + IfWarning(tests[2], CODES[2]);
    assert Chosen(tests, 4) == Chosen(tests, 3) + IfWarning(tests[3], CODES[3]);
    assert Chosen(tests, 5) == Chosen(tests, 4) + IfWarning(tests[4], CODES[4]);
    assert Chosen(tests, 6) == Chosen(tests, 5) + IfWarning(tests[5], CODES[5]);
    assert Chosen(tests, 7) == Chosen(tests, 6) + IfWarning(tests[6], CODES[6]);
  }

  /** The reason codes of a rating, each exactly where its test on the facility and the group holds. */
  lemma ReasonIff(src: Source, f: Facility, g: Group)
    ensures var v, reasons := src.vocabulary, RatingOf(src, f, g).reasons;
            var tokens := DisplayTokens(v, g) + LocalTokens(v, g);
            && NoRepeats(reasons)
            && ("EXACT_FACILITY_CODE" in reasons <==>
                  HasCodeAlias(v, f) && (StandsIn(CodeTokens(v, f), DisplayTokens(v, g)) ||
                                         StandsIn(CodeTokens(v, f), LocalTokens(v, g))))
            && ("EXACT_DISTINCTIVE_NAME_STEM" in reasons <==>
                  && HasSiteIdentity(v, f) && IsDistinctive(v, Join(SiteTokens(v, f)))
                  && (StandsIn(SiteTokens(v, f), DisplayTokens(v, g)) || StandsIn(SiteTokens(v, f), LocalTokens(v, g))))
            && ("EXACT_FULLY_CONSUMED_FACILITY_IDENTITY" in reasons <==>
                  && IsWholeBuilding(v, f, g)
                  && "EXACT_FACILITY_CODE" !in reasons && "EXACT_DISTINCTIVE_NAME_STEM" !in reasons)
            && ("BROAD_STAFF_MARKER" in reasons <==>
                  (exists t :: t in tokens && t in v.staff) || IsWholeBuilding(v, f, g))
            && ("NARROW_ROLE_MARKER" in reasons <==> exists t :: t in tokens && t in v.narrow)
            && ("STALE_NAME_MARKER" in reasons <==> exists t :: t in tokens && t in v.stale)
            && ("MISSING_GROUP_DISPLAY_NAME" in reasons <==> g.displayName.None?)
  {
    hide Score, IsStrongEligible, IsWholeBuilding, HasCodeAlias, HasSiteIdentity, IsDistinctive, ReasonCodes;
    hide ContainsSequence, StandsIn, SortedUnique;
    var v := src.vocabulary;
    CodesAreChosen(v, f, g);
    ChosenOnce(TestsOf(v, f, g), 7);
    SortedUniqueHasNoRepeats(ReasonCodes(v, f, g), src.textBefore);
    ContainsIsStandsIn(DisplayTokens(v, g), CodeTokens(v, f));
    ContainsIsStandsIn(LocalTokens(v, g), CodeTokens(v, f));
    ContainsIsStandsIn(DisplayTokens(v, g), SiteTokens(v, f));
    ContainsIsStandsIn(LocalTokens(v, g), SiteTokens(v, f));
    var tests, reasons := TestsOf(v, f, g), RatingOf(src, f, g).reasons;
    assert forall i :: 0 <= i < 7 ==> (CODES[i] in reasons <==> tests[i]);
    assert CODES[0] in reasons <==> tests[0];
    assert CODES[1] in reasons <==> tests[1];
    assert CODES[2] in reasons <==> tests[2];
    assert CODES[3] in reasons <==> tests[3];
    assert CODES[4] in reasons <==> tests[4];
    assert CODES[5] in reasons <==> tests[5];
    assert CODES[6] in reasons <==> tests[6];
  }

  lemma PointsOfCodes()
    ensures Points(CODES[0]) == 100 && Points(CODES[1]) == 90 && Points(CODES[2]) == 100 && Points(CODES[3]) == 20
    ensures Points(CODES[4]) == 0 && Points(CODES[5]) == 0 && Points(CODES[6]) == 0
  {
    CodesDiffer();
  }

  lemma SumOfOneMore(tests: seq<bool>, n: nat)
    requires |tests| == |CODES| && n < |CODES|
    ensures Sum(Chosen(tests, n + 1)) == Sum(Chosen(tests, n)) + if tests[n] then Points(CODES[n]) else 0
  {
    hide Points;
    var front := Chosen(tests, n);
    if tests[n] {
      assert (front + [CODES[n]])[..|front|] == front;
    } else {
      assert front + [] == front;
    }
  }

  /** A score is the sum of the points of its reason codes. */
  lemma ScoreIsSum(src: Source, f: Facility, g: Group)
    ensures RatingOf(src, f, g).score == Sum(RatingOf(src, f, g).reasons)
  {
    hide HasExactCode, HasExactStem, IsWholeBuilding, IsBroadStaff, HasAnyToken, IsStrongEligible, Points, Unique;
    hide Chosen, Sum, Ranked, ReasonCodes;
    var v := src.vocabulary;
    var codes, tests := ReasonCodes(v, f, g), TestsOf(v, f, g);
    CodesAreChosen(v, f, g);
    ChosenOnce(tests, 7);
    UniqueAlready(codes);
    SumOfSorted(codes, src.textBefore);
    assert Sum(Chosen(tests, 0)) == 0 by { NothingChosen(tests); }
    SumOfOneMore(tests, 0);
    SumOfOneMore(tests, 1);
    SumOfOneMore(tests, 2);
    SumOfOneMore(tests, 3);
    SumOfOneMore(tests, 4);
    SumOfOneMore(tests, 5);
    SumOfOneMore(tests, 6);
    PointsOfCodes();
  }

  lemma NothingChosen(tests: seq<bool>)
    requires |tests| == |CODES|
    ensures Sum(Chosen(tests, 0)) == 0
  {
  }

  /**
   A group that names the whole building reaches the 110 points a proposal asks for; it may be proposed
   unless a word of it is a role's or says that it is old.
   */
  lemma WholeBuildingReaches(src: Source, f: Facility, g: Group)
    ensures var v, rating := src.vocabulary, RatingOf(src, f, g);
            && (IsWholeBuilding(v, f, g) ==> rating.score >= 110)
            && (rating.strongEligible <==>
                  IsWholeBuilding(v, f, g) && "NARROW_ROLE_MARKER" !in rating.reasons
                  && "STALE_NAME_MARKER" !in rating.reasons)
  {
    hide HasExactCode, HasExactStem, FieldOf, ReasonCodes, SortedUnique;
    ReasonIff(src, f, g);
  }

  /** The field names the facility: an alias in evidence, and a cutting into words and one alias. */
  ghost predicate FieldNames(v: Vocabulary, f: Facility, tokens: seq<string>, workforce: bool) {
    HasBoundaryEvidence(v, f, tokens) && NamesBuilding(v.names, Join(tokens), Aliases(v, f), workforce)
  }

  /** A group names a whole building if both its fields are readable and name it, and one of them its staff. */
  lemma WholeBuildingIff(v: Vocabulary, f: Facility, g: Group)
    ensures IsWholeBuilding(v, f, g) <==>
              && g.displayName.Some? && !v.unsupported(g.displayName.value) && !v.unsupported(LocalPart(g.email))
              && var display, local := DisplayTokens(v, g), LocalTokens(v, g);
                 && (FieldNames(v, f, display, true) || FieldNames(v, f, display, false))
                 && (FieldNames(v, f, local, true) || FieldNames(v, f, local, false))
                 && (FieldNames(v, f, display, true) || FieldNames(v, f, local, true))
  {
    hide HasBoundaryEvidence, NamesBuilding, Aliases;
  }
}
