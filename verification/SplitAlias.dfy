/**
 A facility and a group, read with the inventory's own word lists, on which the bit-set test and the
 facility's own test differ (scripts/ops/groups-inventory-classification.ts,
 scripts/ops/groups-inventory-report.ts). Both spellings of the group split "middle": the short alias
 is in evidence and the long one cuts the field, and neither does both.
 */
module SplitAlias {
  import opened Wrappers
  import opened Segmentation
  import opened CompactTokens
  import opened BuildingNames
  import opened Facilities
  import opened BuildingBits
  import opened IndexedIdentity
  import opened Markers

  const YEW := Facility("f", "042", "Yew Middle School", true)
  const YEW_STAFF := Group("g", "yew.mid.dle.school.staff@example.org", Some("yew mid dle school staff"))
  const YEW_COMPACT := Compact(["yew", "yewmiddleschool"], [["yew"], ["yew", "middle", "school"]])
  const NAME := ["yew", "middle", "school"]
  const TOKENS := ["yew", "mid", "dle", "school", "staff"]
  const TEXT := "yewmiddleschoolstaff"

  // ----- the tokens -----

  lemma TokensOfCode()
    ensures TokensOf(YEW.code) == ["042"]
  {
    assert Lowered(YEW.code) == "042";
    TokensOfSeparated(["042"], ' ');
  }

  lemma SeparatedName()
    ensures Separated(NAME, ' ') == "yew middle school"
  {
    assert NAME[1..] == ["middle", "school"] && NAME[1..][1..] == ["school"];
    assert Separated(["middle", "school"], ' ') == "middle school";
  }

  lemma NameIsWords()
    ensures Words(Separated(NAME, ' '), "") == NAME
  {
    TokensOfSeparated(NAME, ' ');
  }

  lemma TokensOfName()
    ensures TokensOf(YEW.name) == NAME
  {
    hide Words, Separated;
    NameIsWords();
    SeparatedName();
    assert Lowered(YEW.name) == "yew middle school";
  }

  lemma SeparatedTokens(c: char)
    ensures Separated(TOKENS, c) == "yew" + [c] + "mid" + [c] + "dle" + [c] + "school" + [c] + "staff"
  {
    assert TOKENS[1..] == ["mid", "dle", "school", "staff"] && TOKENS[1..][1..] == ["dle", "school", "staff"];
    assert ["dle", "school", "staff"][1..] == ["school", "staff"] && ["school", "staff"][1..] == ["staff"];
    assert Separated(["school", "staff"], c) == "school" + [c] + "staff";
    assert Separated(["dle", "school", "staff"], c) == "dle" + [c] + "school" + [c] + "staff";
    assert Separated(["mid", "dle", "school", "staff"], c) == "mid" + [c] + "dle" + [c] + "school" + [c] + "staff";
  }

  lemma TokensAreWords(c: char)
    requires !IsWordChar(c) && c != '&'
    ensures Words(Separated(TOKENS, c), "") == TOKENS
  {
    TokensOfSeparated(TOKENS, c);
  }

  lemma TokensOfDisplay()
    ensures TokensOf("yew mid dle school staff") == TOKENS
  {
    hide Words, Separated;
    SeparatedTokens(' ');
    TokensAreWords(' ');
    assert Lowered("yew mid dle school staff") == Separated(TOKENS, ' ');
  }

  lemma TokensOfLocal()
    ensures TokensOf("yew.mid.dle.school.staff") == TOKENS
  {
    hide Words, Separated;
    SeparatedTokens('.');
    TokensAreWords('.');
    assert Lowered("yew.mid.dle.school.staff") == Separated(TOKENS, '.');
  }

  lemma {:induction false} LastAtOf(front: string, back: string, n: nat)
    requires |front| < n <= |front + "@" + back| && '@' !in back
    ensures LastAt(front + "@" + back, n) == |front|
  {
    var text := front + "@" + back;
    if n > |front| + 1 {
      assert text[n - 1] == back[n - 2 - |front|];
      LastAtOf(front, back, n - 1);
    }
  }

  lemma LocalPartOfYew()
    ensures LocalPart(YEW_STAFF.email) == "yew.mid.dle.school.staff"
  {
    var front, back := "yew.mid.dle.school.staff", "example.org";
    assert YEW_STAFF.email == front + "@" + back;
    LastAtOf(front, back, |front + "@" + back|);
  }

  lemma GroupIsAscii()
    ensures IsAscii("yew mid dle school staff") && IsAscii("yew.mid.dle.school.staff")
  {
  }

  lemma TokensOfGroup(years: seq<string>)
    ensures var v := SourceVocabulary(years);
            DisplayTokens(v, YEW_STAFF) == TOKENS && LocalTokens(v, YEW_STAFF) == TOKENS && IsReadable(v, YEW_STAFF)
  {
    hide TokensOf, LocalPart, IsAscii;
    GroupIsAscii();
    LocalPartOfYew();
    TokensOfDisplay();
    TokensOfLocal();
  }

  lemma JoinedName()
    ensures Join(NAME) == "yewmiddleschool" && Join(["yew"]) == "yew" && Join(["042"]) == "042"
  {
    assert ["yew"][1..] == [] && ["042"][1..] == [] && ["school"][1..] == [];
    assert ["middle", "school"][1..] == ["school"] && NAME[1..] == ["middle", "school"];
    assert Join(["middle", "school"]) == "middleschool";
  }

  lemma JoinedTail()
    ensures Join(["dle", "school", "staff"]) == "dleschoolstaff"
  {
    assert ["staff"][1..] == [] && ["school", "staff"][1..] == ["staff"];
    assert ["dle", "school", "staff"][1..] == ["school", "staff"];
    assert Join(["school", "staff"]) == "schoolstaff";
  }

  lemma JoinedTokens()
    ensures Join(TOKENS) == TEXT
  {
    var tail := ["dle", "school", "staff"];
    JoinedTail();
    assert TOKENS[1..] == ["mid"] + tail && TOKENS[1..][1..] == tail;
    assert Join(["mid"] + tail) == "mid" + "dleschoolstaff" && "mid" + "dleschoolstaff" == "middleschoolstaff";
    assert "yew" + "middleschoolstaff" == TEXT;
  }

  // ----- no word of a list begins with this letter -----

  predicate NoneBegins(markers: seq<string>, c: char) {
    forall i :: 0 <= i < |markers| ==> markers[i] != "" && markers[i][0] != c
  }

  lemma {:induction false} NoneBeginsFlat(lists: seq<seq<string>>, c: char)
    requires forall i :: 0 <= i < |lists| ==> NoneBegins(lists[i], c)
    ensures NoneBegins(Flat(lists), c)
  {
    if lists != [] {
      NoneBeginsFlat(lists[1..], c);
    }
  }

  lemma AggregatesWithoutY()
    ensures NoneBegins(AGGREGATE_FACILITY_NAME_MARKERS, 'y')
  {
    assert NoneBegins(AGGREGATE_MARKERS_TO_D, 'y');
    assert NoneBegins(AGGREGATE_MARKERS_FROM_E, 'y');
  }

  lemma RolesWithoutY()
    ensures NoneBegins(NARROW_ROLE_MARKERS, 'y') && NoneBegins(STAFF_MARKERS, 'y') && NoneBegins(STALE_MARKERS, 'y')
  {
  }

  lemma PopulationsWithoutY()
    ensures NoneBegins(NON_STAFF_MARKERS, 'y')
  {
  }

  lemma OthersWithoutY()
    ensures NoneBegins(OTHER_NON_DISTINCTIVE_ALIASES, 'y')
  {
  }

  lemma SitesWithoutY()
    ensures NoneBegins(WHOLE_BUILDING_MARKERS, 'y') && NoneBegins(FACILITY_GENERIC_MARKERS, 'y')
  {
  }

  lemma ShortListsWithoutY()
    ensures NoneBegins(GENERIC_AUTOMATIC_FACILITY_CODE_ALIASES, 'y') && NoneBegins(WEAK_NEIGHBORHOOD_STEMS, 'y')
    ensures NoneBegins(DEFAULT_ORGANIZATION_PREFIXES, 'y')
  {
  }

  lemma NonDistinctiveWithoutY()
    ensures NoneBegins(Flat(NON_DISTINCTIVE_LISTS), 'y')
  {
    hide NoneBegins;
    AggregatesWithoutY();
    RolesWithoutY();
    PopulationsWithoutY();
    OthersWithoutY();
    SitesWithoutY();
    ShortListsWithoutY();
    NoneBeginsFlat(NON_DISTINCTIVE_LISTS, 'y');
  }

  // ----- the aliases of the facility -----

  lemma MiddleIsNoAggregate()
    ensures "middle" !in AGGREGATE_FACILITY_NAME_MARKERS
  {
    assert NoneBegins(AGGREGATE_MARKERS_TO_D, 'm') && NoneBegins(AGGREGATE_MARKERS_FROM_E, 'm');
  }

  lemma SchoolIsNoAggregate()
    ensures "school" !in AGGREGATE_FACILITY_NAME_MARKERS
  {
    assert NoneBegins(AGGREGATE_MARKERS_TO_D, 's');
    assert forall i :: 0 <= i < |AGGREGATE_MARKERS_FROM_E| ==> AGGREGATE_MARKERS_FROM_E[i] != "school";
  }

  lemma NotAggregate()
    ensures forall t :: t in NAME ==> t !in AGGREGATE_FACILITY_NAME_MARKERS
  {
    AggregatesWithoutY();
    SchoolIsNoAggregate();
    MiddleIsNoAggregate();
  }

  lemma DistinctiveByLetter(v: Vocabulary, alias: string)
    requires |alias| >= 3 && !IsDigit(alias[0]) && NoneBegins(v.nonDistinctive, alias[0])
    ensures IsDistinctive(v, alias)
  {
    hide NumberEnd;
    var g := PlainGrammar(alias, v.nonDistinctive, WholeNumber);
    forall end: nat, k
      ensures !g.allows(0, end, k)
    {
      NoPieceHere(v.nonDistinctive, alias, end);
    }
    forall pieces: seq<Piece<Plain>> | IsCut(g, pieces)
      ensures pieces == []
    {
      assert pieces != [] ==> EndOf(pieces[..0]) == 0;
    }
  }

  lemma NoneStartsHere(markers: seq<string>, text: string, offset: nat)
    requires offset < |text| && NoneBegins(markers, text[offset])
    ensures Ends(text, offset, markers) == {}
  {
    forall j | 0 <= j < |markers|
      ensures !StartsWith(text, offset, markers[j])
    {
      StartsWithFirst(text, offset, markers[j]);
    }
  }

  lemma StartsWithFirst(text: string, offset: nat, marker: string)
    requires marker != ""
    ensures StartsWith(text, offset, marker) ==> text[offset] == marker[0]
  {
  }

  lemma NoPieceHere(markers: seq<string>, text: string, end: nat)
    requires text != "" && !IsDigit(text[0]) && NoneBegins(markers, text[0])
    ensures !PieceAt(markers, WholeNumber, text, 0, end)
  {
    NoneStartsHere(markers, text, 0);
    assert DigitRun(text, 0) == 0;
  }

  lemma NameWithout(dropped: set<string>)
    requires "yew" !in dropped && "middle" in dropped && "school" in dropped
    ensures Without(NAME, dropped) == ["yew"]
  {
    var tail := ["middle", "school"];
    assert NAME[1..] == tail && tail[1..] == ["school"] && ["school"][1..] == [];
    assert Without(["school"], dropped) == Without([], dropped) == [];
    assert Without(tail, dropped) == Without(["school"], dropped);
  }

  lemma SiteOfYew(years: seq<string>)
    ensures var v := SourceVocabulary(years);
            NameTokens(v, YEW) == NAME && SiteTokens(v, YEW) == ["yew"] && CodeTokens(v, YEW) == ["042"]
  {
    hide TokensOf;
    TokensOfName();
    TokensOfCode();
    AggregatesWithoutY();
    SitesWithoutY();
    assert FACILITY_GENERIC_MARKERS[16] == "middle" && FACILITY_GENERIC_MARKERS[17] == "school";
    NameWithout(SetOf(FACILITY_GENERIC_MARKERS) + SetOf(AGGREGATE_FACILITY_NAME_MARKERS));
  }

  lemma AliasesAreDistinct(years: seq<string>)
    ensures IsDistinctive(SourceVocabulary(years), "yew") && IsDistinctive(SourceVocabulary(years), "yewmiddleschool")
  {
    hide IsDistinctive, NoneBegins;
    NonDistinctiveWithoutY();
    DistinctiveByLetter(SourceVocabulary(years), "yew");
    DistinctiveByLetter(SourceVocabulary(years), "yewmiddleschool");
  }

  lemma SiteIdentityOfYew(years: seq<string>)
    ensures HasSiteIdentity(SourceVocabulary(years), YEW)
  {
    hide IsDistinctive, NameTokens, SiteTokens;
    var v := SourceVocabulary(years);
    SiteOfYew(years);
    NotAggregate();
    AliasesAreDistinct(years);
    assert "yew" in SiteTokens(v, YEW) && "middle" in NAME;
    assert AUTOMATIC_PHYSICAL_SITE_TYPE_MARKERS[8] == "middle";
    ShortListsWithoutY();
    assert "yew" !in WEAK_NEIGHBORHOOD_STEMS;
  }

  lemma NoCodeAlias(years: seq<string>)
    ensures !HasCodeAlias(SourceVocabulary(years), YEW)
  {
    hide HasSiteIdentity, IsDistinctive;
    var v := SourceVocabulary(years);
    SiteOfYew(years);
    JoinedName();
    assert NAME[0][..1] == "y" && "042"[0] == '0';
    assert Initials(NAME)[0] == 'y' && Initials(["yew"])[0] == 'y';
  }

  lemma AliasesOfYew(years: seq<string>)
    ensures Aliases(SourceVocabulary(years), YEW) == ["yew", "yewmiddleschool"]
  {
    hide SourceVocabulary, HasSiteIdentity, HasCodeAlias, IsDistinctive, NameTokens, SiteTokens, CodeTokens, Join;
    SiteOfYew(years);
    SiteIdentityOfYew(years);
    NoCodeAlias(years);
    JoinedName();
    AliasesAreDistinct(years);
  }

  lemma SequencesOfYew(years: seq<string>)
    ensures Sequences(SourceVocabulary(years), YEW) == [["042"], ["yew"], NAME]
  {
    hide SiteTokens, NameTokens, CodeTokens;
    SiteOfYew(years);
  }

  lemma CompactOfYew(years: seq<string>)
    ensures IsCompactOf(SourceVocabulary(years), YEW, YEW_COMPACT)
  {
    hide Aliases, Sequences;
    AliasesOfYew(years);
    SequencesOfYew(years);
    JoinedName();
    assert YEW_COMPACT.sequences[0] == ["yew"] && YEW_COMPACT.sequences[1] == NAME;
  }

  // ----- the facility's own test -----

  lemma NamedInTwo(rules: NameRules, text: string, aliases: seq<string>, alias: string, word: string)
    requires alias in aliases && alias != "" && word in rules.words && word in rules.workforce && word != ""
    requires text == alias + word
    ensures NamesBuilding(rules, text, aliases, true)
  {
    var g := NameGrammar(rules, text, aliases);
    var pieces := [Piece(|alias|, NameKind.Alias), Piece(|text|, Workforce)];
    var i :| 0 <= i < |aliases| && aliases[i] == alias;
    var j :| 0 <= j < |rules.words| && rules.words[j] == word;
    assert StartsWith(text, 0, aliases[i]) && StartsWith(text, |alias|, rules.words[j]);
    assert g.allows(0, |alias|, NameKind.Alias) && g.allows(|alias|, |text|, Workforce);
    assert pieces[..0] == [] && pieces[..1] == [pieces[0]];
    hide NameGrammar, NamePieceAt;
    assert IsCut(g, pieces);
    assert AliasCount(pieces[..0]) == 0 && AliasCount(pieces[..1]) == 1;
    assert AliasCount(pieces) == 1;
    assert pieces[1].kind.Workforce?;
  }

  lemma StaffIsAWord(years: seq<string>)
    ensures var names := SourceVocabulary(years).names; "staff" in names.words && "staff" in names.workforce
  {
    assert WHOLE_BUILDING_MARKERS[15] == "staff" && STAFF_MARKERS[2] == "staff";
  }

  lemma FieldOfYew(v: Vocabulary)
    requires Aliases(v, YEW) == ["yew", "yewmiddleschool"] && "staff" in v.names.words && "staff" in v.names.workforce
    ensures FieldOf(v, YEW, TOKENS) == FacilityWorkforceField
  {
    hide Aliases, NamesBuilding, Sequences, Includes, Join;
    JoinedTokens();
    assert Includes("yew", "yew") by {
      IncludesInMiddle("", "yew", "");
      assert "" + "yew" + "" == "yew";
    }
    assert "yew" in Aliases(v, YEW) && "yew" in TOKENS;
    assert HasBoundaryEvidence(v, YEW, TOKENS);
    assert TEXT == "yewmiddleschool" + "staff";
    NamedInTwo(v.names, TEXT, ["yew", "yewmiddleschool"], "yewmiddleschool", "staff");
  }

  // ----- no alias does both -----

  predicate NothingAt(rules: NameRules, text: string, offset: nat) {
    Ends(text, offset, rules.words) == {} && Ends(text, offset, rules.years) == {}
  }

  lemma NoPieceAt(rules: NameRules, text: string, alias: string, offset: nat, end: nat, k: NameKind)
    requires NothingAt(rules, text, offset)
    ensures NamePieceAt(rules, text, [alias], offset, end, k) ==>
              StartsWith(text, offset, alias) && end == offset + |alias|
  {
    forall j | 0 <= j < |rules.words|
      ensures !StartsWith(text, offset, rules.words[j])
    {
      EndIsKnown(text, offset, rules.words, j);
    }
  }

  lemma EndIsKnown(text: string, offset: nat, markers: seq<string>, j: nat)
    requires j < |markers|
    ensures StartsWith(text, offset, markers[j]) ==> offset + |markers[j]| in Ends(text, offset, markers)
  {
  }

  lemma FirstPieces(g: Grammar<NameKind, Seen>, pieces: seq<Piece<NameKind>>)
    requires IsCut(g, pieces)
    ensures pieces != [] ==> g.allows(0, pieces[0].end, pieces[0].kind)
    ensures |pieces| > 1 ==> g.allows(pieces[0].end, pieces[1].end, pieces[1].kind)
  {
    assert pieces != [] ==> EndOf(pieces[..0]) == 0;
    assert |pieces| > 1 ==> EndOf(pieces[..1]) == pieces[0].end;
  }

  /** Where only the alias can be read first and nothing can be read after it, the alias does not name the text. */
  lemma StuckAfterAlias(rules: NameRules, text: string, alias: string)
    requires |alias| < |text| && !StartsWith(text, |alias|, alias)
    requires NothingAt(rules, text, 0) && NothingAt(rules, text, |alias|)
    ensures !Names(rules, text, alias, false)
  {
    var g := NameGrammar(rules, text, [alias]);
    forall end: nat, k
      ensures (g.allows(0, end, k) ==> end == |alias|) && !g.allows(|alias|, end, k)
    {
      NoPieceAt(rules, text, alias, 0, end, k);
      NoPieceAt(rules, text, alias, |alias|, end, k);
    }
    forall pieces: seq<Piece<NameKind>> | IsCut(g, pieces)
      ensures EndOf(pieces) <= |alias|
    {
      hide NameGrammar;
      FirstPieces(g, pieces);
    }
  }

  lemma NoYearAt(years: seq<string>, text: string, offset: nat)
    requires AreYears(years) && offset < |text| && !IsDigit(text[offset]) && text[offset] != 's'
    ensures Ends(text, offset, years) == {}
  {
    forall i | 0 <= i < |years|
      ensures years[i] != "" && years[i][0] != text[offset]
    {
      assert years[i] in years;
    }
    NoneStartsHere(years, text, offset);
  }

  predicate NoneBeginsWithTwo(markers: seq<string>, first: char, second: char) {
    forall i :: 0 <= i < |markers| ==> |markers[i]| >= 2 && (markers[i][0] != first || markers[i][1] != second)
  }

  lemma WordsWithoutYeAndMi()
    ensures NoneBeginsWithTwo(WHOLE_BUILDING_MARKERS, 'y', 'e') && NoneBeginsWithTwo(WHOLE_BUILDING_MARKERS, 'm', 'i')
    ensures NoneBeginsWithTwo(DEFAULT_ORGANIZATION_PREFIXES, 'y', 'e')
    ensures NoneBeginsWithTwo(DEFAULT_ORGANIZATION_PREFIXES, 'm', 'i')
  {
  }

  lemma NoWordHere(words: seq<string>, text: string, offset: nat)
    requires offset + 2 <= |text| && NoneBeginsWithTwo(words, text[offset], text[offset + 1])
    ensures Ends(text, offset, words) == {}
  {
    forall j | 0 <= j < |words|
      ensures !StartsWith(text, offset, words[j])
    {
      StartsWithTwo(text, offset, words[j]);
    }
  }

  lemma StartsWithTwo(text: string, offset: nat, marker: string)
    requires |marker| >= 2
    ensures StartsWith(text, offset, marker) ==> text[offset] == marker[0] && text[offset + 1] == marker[1]
  {
  }

  lemma NothingByLetters(rules: NameRules, text: string, offset: nat)
    requires AreYears(rules.years) && offset + 2 <= |text| && !IsDigit(text[offset]) && text[offset] != 's'
    requires NoneBeginsWithTwo(rules.words, text[offset], text[offset + 1])
    ensures NothingAt(rules, text, offset)
  {
    NoYearAt(rules.years, text, offset);
    NoWordHere(rules.words, text, offset);
  }

  lemma WordsOfNames(years: seq<string>)
    ensures var names := SourceVocabulary(years).names;
            && names.years == years
            && NoneBeginsWithTwo(names.words, 'y', 'e') && NoneBeginsWithTwo(names.words, 'm', 'i')
  {
    WordsWithoutYeAndMi();
  }

  lemma ShortAliasCannotCut(years: seq<string>)
    requires AreYears(years)
    ensures !Names(SourceVocabulary(years).names, TEXT, "yew", false)
  {
    hide Names, NothingAt, SourceVocabulary, NoneBeginsWithTwo;
    var names := SourceVocabulary(years).names;
    WordsOfNames(years);
    NothingByLetters(names, TEXT, 0);
    NothingByLetters(names, TEXT, 3);
    StartsWithTwo(TEXT, 3, "yew");
    StuckAfterAlias(names, TEXT, "yew");
  }

  lemma SequenceHolds(haystack: seq<string>, needle: seq<string>, i: nat, k: nat)
    requires k < |needle|
    ensures SequenceAt(haystack, needle, i) ==> needle[k] in haystack
  {
    if SequenceAt(haystack, needle, i) {
      assert haystack[i..i + |needle|][k] == haystack[i + k];
    }
  }

  lemma NotContained(haystack: seq<string>, needle: seq<string>, k: nat)
    requires k < |needle| && needle[k] !in haystack
    ensures !ContainsSequence(haystack, needle)
  {
    forall i: nat
      ensures !SequenceAt(haystack, needle, i)
    {
      SequenceHolds(haystack, needle, i, k);
    }
  }

  lemma TooLong(t: string, part: string)
    requires |t| < |part|
    ensures !Includes(t, part)
  {
  }

  lemma LongAliasHasNoEvidence(v: Vocabulary)
    requires Sequences(v, YEW) == [["042"], ["yew"], NAME]
    ensures !HasEvidenceOf(v, YEW, TOKENS, "yewmiddleschool")
  {
    hide Sequences, Includes, ContainsSequence, Join;
    forall t | t in TOKENS
      ensures !Includes(t, "yewmiddleschool")
    {
      TooLong(t, "yewmiddleschool");
    }
    JoinedName();
    NotContained(TOKENS, NAME, 1);
  }

  lemma NotNamedInEvidence(v: Vocabulary)
    requires Aliases(v, YEW) == ["yew", "yewmiddleschool"] && Sequences(v, YEW) == [["042"], ["yew"], NAME]
    requires !Names(v.names, TEXT, "yew", false)
    ensures !NamedInEvidence(v, YEW, TOKENS, false)
  {
    hide Aliases, HasEvidenceOf, Names, Join, Sequences;
    JoinedTokens();
    LongAliasHasNoEvidence(v);
  }

  lemma TestsDiffer(v: Vocabulary, f: Facility, c: Compact, g: Group, tokens: seq<string>)
    requires IsCompactOf(v, f, c) && IsReadable(v, g) && DisplayTokens(v, g) == tokens && LocalTokens(v, g) == tokens
    requires FieldOf(v, f, tokens) == FacilityWorkforceField && !NamedInEvidence(v, f, tokens, false)
    ensures IsWholeBuilding(v, f, g) && !IsIndexedIdentity(v, c, g) && !RespectsBoundaries(v, f, tokens)
  {
    IndexedIdentityIff(v, f, c, g);
    if RespectsBoundaries(v, f, tokens) {
      BoundariesDecide(v, f, c, g);
    }
  }

  /** In every academic year the facility's own test accepts this group and the bit sets do not. */
  lemma SplitAliasDiffers(years: seq<string>)
    requires AreYears(years)
    ensures var v := SourceVocabulary(years);
            && IsCompactOf(v, YEW, YEW_COMPACT)
            && IsWholeBuilding(v, YEW, YEW_STAFF) && !IsIndexedIdentity(v, YEW_COMPACT, YEW_STAFF)
            && !RespectsBoundaries(v, YEW, TOKENS)
  {
    hide SourceVocabulary, FieldOf, IsCompactOf, NamedInEvidence, IsIndexedIdentity, DisplayTokens, LocalTokens;
    hide RespectsBoundaries, IsReadable, IsWholeBuilding, Aliases, Sequences, Names, AreYears;
    var v := SourceVocabulary(years);
    CompactOfYew(years);
    TokensOfGroup(years);
    AliasesOfYew(years);
    SequencesOfYew(years);
    StaffIsAWord(years);
    FieldOfYew(v);
    ShortAliasCannotCut(years);
    NotNamedInEvidence(v);
    TestsDiffer(v, YEW, YEW_COMPACT, YEW_STAFF, TOKENS);
  }
}
