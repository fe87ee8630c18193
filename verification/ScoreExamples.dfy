/**
 Three groups of one school, read with the inventory's own word lists, and what they score: by the
 school's code, by the stem of its name, and by its whole name in one word.
 */
module ScoreExamples {
  import opened Wrappers
  import opened BuildingNames
  import opened Facilities
  import opened Markers
  import opened SplitAlias

  const YMS := Facility("f", "YMS", "Yew Middle School", true)
  const YMS_STAFF := Group("g", "yms.staff@example.org", Some("YMS Staff"))
  const WHOLE_STAFF := Group("g", "yewmiddleschool.staff@example.org", Some("yewmiddleschool staff"))

  // ----- a word and "staff" -----

  lemma PairOfWords(word: string, c: char)
    requires IsWord(word) && !IsWordChar(c) && c != '&'
    ensures Words(word + [c] + "staff", "") == [word, "staff"]
  {
    var words := [word, "staff"];
    assert IsWord("staff");
    TokensOfSeparated(words, c);
    assert words[1..] == ["staff"];
    assert Separated(["staff"], c) == "staff";
    assert Separated(words, c) == word + [c] + "staff";
  }

  lemma LocalOfPair(word: string)
    ensures LocalPart(word + ".staff" + "@" + "example.org") == word + ".staff"
  {
    var front, back := word + ".staff", "example.org";
    LastAtOf(front, back, |front + "@" + back|);
  }

  /** Both fields of the group are read as the word and "staff". */
  predicate IsPair(v: Vocabulary, g: Group, word: string) {
    DisplayTokens(v, g) == [word, "staff"] && LocalTokens(v, g) == [word, "staff"] && IsReadable(v, g)
  }

  lemma TokensOfYms(years: seq<string>)
    ensures IsPair(SourceVocabulary(years), YMS_STAFF, "yms")
  {
    hide TokensOf, LocalPart, IsAscii;
    YmsDisplay();
    YmsLocal();
    LocalOfPair("yms");
    assert YMS_STAFF.email == "yms" + ".staff" + "@" + "example.org" && "yms" + ".staff" == "yms.staff";
    AsciiPairs();
  }

  lemma YmsDisplay()
    ensures TokensOf("YMS Staff") == ["yms", "staff"]
  {
    hide Words;
    PairOfWords("yms", ' ');
    assert Lowered("YMS Staff") == "yms" + " " + "staff";
  }

  lemma YmsLocal()
    ensures TokensOf("yms.staff") == ["yms", "staff"]
  {
    hide Words;
    PairOfWords("yms", '.');
    assert Lowered("yms.staff") == "yms" + "." + "staff";
  }

  lemma AsciiPairs()
    ensures IsAscii("YMS Staff") && IsAscii("yms.staff")
    ensures IsAscii("yewmiddleschool staff") && IsAscii("yewmiddleschool.staff")
  {
  }

  lemma TokensOfWhole(years: seq<string>)
    ensures IsPair(SourceVocabulary(years), WHOLE_STAFF, "yewmiddleschool")
  {
    hide TokensOf, LocalPart, IsAscii;
    var word := "yewmiddleschool";
    WholeDisplay();
    WholeLocal();
    LocalOfPair(word);
    assert WHOLE_STAFF.email == word + ".staff" + "@" + "example.org" && word + ".staff" == "yewmiddleschool.staff";
    AsciiPairs();
  }

  lemma WholeDisplay()
    ensures TokensOf("yewmiddleschool staff") == ["yewmiddleschool", "staff"]
  {
    hide Words;
    PairOfWords("yewmiddleschool", ' ');
    assert Lowered("yewmiddleschool staff") == "yewmiddleschool" + " " + "staff";
  }

  lemma WholeLocal()
    ensures TokensOf("yewmiddleschool.staff") == ["yewmiddleschool", "staff"]
  {
    hide Words;
    PairOfWords("yewmiddleschool", '.');
    assert Lowered("yewmiddleschool.staff") == "yewmiddleschool" + "." + "staff";
  }

  // ----- the code of the school -----

  lemma CodeOfYms(years: seq<string>)
    ensures CodeTokens(SourceVocabulary(years), YMS) == ["yms"] && Join(["yms"]) == "yms"
  {
    hide Words;
    assert Lowered("YMS") == "yms" && IsWord("yms");
    TokensOfSeparated(["yms"], ' ');
    assert Separated(["yms"], ' ') == "yms" && ["yms"][1..] == [];
  }

  lemma SameSite(years: seq<string>)
    ensures var v := SourceVocabulary(years);
            HasSiteIdentity(v, YMS) && NameTokens(v, YMS) == NAME && SiteTokens(v, YMS) == ["yew"]
  {
    hide IsDistinctive, SourceVocabulary;
    SiteIdentityOfYew(years);
    SiteOfYew(years);
  }

  lemma InitialsOfName()
    ensures Initials(NAME) == "yms"
  {
    assert NAME[1..] == ["middle", "school"] && ["middle", "school"][1..] == ["school"] && ["school"][1..] == [];
    assert NAME[0][..1] == "y" && "middle"[..1] == "m" && "school"[..1] == "s";
    assert Initials(["school"]) == "s" && Initials(["middle", "school"]) == "ms";
  }

  lemma YmsIsDistinctive(years: seq<string>)
    ensures IsDistinctive(SourceVocabulary(years), "yms")
  {
    hide IsDistinctive, NoneBegins;
    NonDistinctiveWithoutY();
    DistinctiveByLetter(SourceVocabulary(years), "yms");
  }

  lemma CodeIsAlias(years: seq<string>)
    ensures var v := SourceVocabulary(years); HasCodeAlias(v, YMS) && "yms" in Aliases(v, YMS)
  {
    hide SourceVocabulary, HasSiteIdentity, IsDistinctive, NameTokens, SiteTokens, CodeTokens, Join, Initials;
    SameSite(years);
    CodeOfYms(years);
    InitialsOfName();
    YmsIsDistinctive(years);
  }

  const YEW_CODE := Facility("f", "YEW", "Yew Middle School", true)

  lemma CodeOfYewCode(years: seq<string>)
    ensures CodeTokens(SourceVocabulary(years), YEW_CODE) == ["yew"]
  {
    hide Words;
    assert Lowered("YEW") == "yew" && IsWord("yew");
    TokensOfSeparated(["yew"], ' ');
    assert Separated(["yew"], ' ') == "yew";
  }

  /** A code that begins a word of the school's own name is an alias as well. */
  lemma PrefixIsCode(years: seq<string>)
    ensures HasCodeAlias(SourceVocabulary(years), YEW_CODE)
  {
    hide SourceVocabulary, IsDistinctive, Initials, Join;
    SiteIdentityOfYew(years);
    SiteOfYew(years);
    CodeOfYewCode(years);
    AliasesAreDistinct(years);
    JoinedName();
    assert "yew" <= "yew" && "yew" in SiteTokens(SourceVocabulary(years), YEW_CODE);
  }

  // ----- none of the words is a role's or an old one's -----

  lemma StaffIsPlain()
    ensures "staff" !in NARROW_ROLE_MARKERS && "staff" !in STALE_MARKERS && "staff" in STAFF_MARKERS
  {
    assert forall i :: 0 <= i < |NARROW_ROLE_MARKERS| ==> NARROW_ROLE_MARKERS[i] != "staff";
    assert STAFF_MARKERS[2] == "staff";
  }

  lemma PairIsPlain(years: seq<string>, word: string)
    requires |word| > 0 && word[0] == 'y'
    ensures var v, tokens := SourceVocabulary(years), [word, "staff"] + [word, "staff"];
            HasAnyToken(tokens, v.staff) && !HasAnyToken(tokens, v.narrow) && !HasAnyToken(tokens, v.stale)
  {
    RolesWithoutY();
    StaffIsPlain();
    assert "staff" in [word, "staff"] + [word, "staff"];
  }

  // ----- both fields name the whole building -----

  lemma FieldOfPair(v: Vocabulary, f: Facility, word: string)
    requires word in Aliases(v, f) && word != "" && "staff" in v.names.words && "staff" in v.names.workforce
    ensures FieldOf(v, f, [word, "staff"]) == FacilityWorkforceField
  {
    hide Aliases, NamesBuilding, Sequences, Includes;
    var tokens := [word, "staff"];
    assert tokens[1..] == ["staff"] && ["staff"][1..] == [];
    assert Join(["staff"]) == "staff" && Join(tokens) == word + "staff";
    assert Includes(word, word) by {
      IncludesInMiddle("", word, "");
      assert "" + word + "" == word;
    }
    assert word in tokens;
    NamedInTwo(v.names, word + "staff", Aliases(v, f), word, "staff");
  }

  lemma PairIsWhole(years: seq<string>, f: Facility, g: Group, word: string)
    requires var v := SourceVocabulary(years); word in Aliases(v, f) && word != "" && IsPair(v, g, word)
    ensures IsWholeBuilding(SourceVocabulary(years), f, g)
  {
    hide Aliases, FieldOf, SourceVocabulary, IsReadable, DisplayTokens, LocalTokens;
    StaffIsAWord(years);
    FieldOfPair(SourceVocabulary(years), f, word);
  }

  lemma NotAmong(word: string, other: string)
    requires other != word && other != "staff" && other != ""
    ensures !ContainsSequence([word, "staff"], [other])
  {
    NotContained([word, "staff"], [other], 0);
  }

  // ----- what they score -----

  /** By the school's code: 100 and 20, and it may be proposed. */
  lemma CodeScores(years: seq<string>)
    ensures var v := SourceVocabulary(years);
            Score(v, YMS, YMS_STAFF) == 120 && IsStrongEligible(v, YMS, YMS_STAFF)
  {
    hide SourceVocabulary, IsWholeBuilding, HasCodeAlias, HasSiteIdentity, IsDistinctive, Aliases, HasAnyToken;
    hide DisplayTokens, LocalTokens, CodeTokens, SiteTokens, IsReadable;
    var v, tokens := SourceVocabulary(years), ["yms", "staff"];
    TokensOfYms(years);
    CodeOfYms(years);
    CodeIsAlias(years);
    SameSite(years);
    PairIsPlain(years, "yms");
    PairIsWhole(years, YMS, YMS_STAFF, "yms");
    NotAmong("yms", "yew");
    assert SequenceAt(tokens, ["yms"], 0) by { assert tokens[0..0 + 1] == ["yms"]; }
    assert ContainsSequence(tokens, ["yms"]);
  }

  lemma YewIsNoRole()
    ensures forall t :: t in TOKENS ==> t !in NARROW_ROLE_MARKERS
  {
    RolesWithoutY();
    StaffIsPlain();
    assert NoneBegins(NARROW_ROLE_MARKERS, 'm') && NoneBegins(NARROW_ROLE_MARKERS, 'd');
    assert forall i :: 0 <= i < |NARROW_ROLE_MARKERS| ==> NARROW_ROLE_MARKERS[i] != "school";
  }

  lemma YewIsNotOld()
    ensures forall t :: t in TOKENS ==> t !in STALE_MARKERS
  {
    RolesWithoutY();
    assert NoneBegins(STALE_MARKERS, 'm') && NoneBegins(STALE_MARKERS, 's');
    assert forall i :: 0 <= i < |STALE_MARKERS| ==> STALE_MARKERS[i] != "dle";
  }

  lemma YewIsPlain(years: seq<string>)
    ensures var v := SourceVocabulary(years);
            HasAnyToken(TOKENS + TOKENS, v.staff) && !HasAnyToken(TOKENS + TOKENS, v.narrow)
            && !HasAnyToken(TOKENS + TOKENS, v.stale)
  {
    YewIsNoRole();
    YewIsNotOld();
    StaffIsPlain();
    assert "staff" in TOKENS + TOKENS;
    assert forall t :: t in TOKENS + TOKENS ==> t in TOKENS;
  }

  /** By the stem of its name: 90 and 20, and it may be proposed. */
  lemma StemScores(years: seq<string>)
    requires AreYears(years)
    ensures var v := SourceVocabulary(years);
            Score(v, YEW, YEW_STAFF) == 110 && IsStrongEligible(v, YEW, YEW_STAFF)
  {
    hide SourceVocabulary, IsWholeBuilding, HasCodeAlias, HasSiteIdentity, IsDistinctive, HasAnyToken;
    hide DisplayTokens, LocalTokens, CodeTokens, SiteTokens, IsReadable, AreYears;
    var v := SourceVocabulary(years);
    TokensOfGroup(years);
    SiteOfYew(years);
    SiteIdentityOfYew(years);
    NoCodeAlias(years);
    AliasesAreDistinct(years);
    JoinedName();
    YewIsPlain(years);
    SplitAliasDiffers(years);
    assert SequenceAt(TOKENS, ["yew"], 0) by { assert TOKENS[0..0 + 1] == ["yew"]; }
    assert ContainsSequence(TOKENS, ["yew"]);
  }

  /** By its whole name in one word: 100 and 20, and it may be proposed. */
  lemma WholeNameScores(years: seq<string>)
    ensures var v := SourceVocabulary(years);
            Score(v, YEW, WHOLE_STAFF) == 120 && IsStrongEligible(v, YEW, WHOLE_STAFF)
  {
    hide SourceVocabulary, IsWholeBuilding, HasCodeAlias, HasSiteIdentity, IsDistinctive, Aliases, HasAnyToken;
    hide DisplayTokens, LocalTokens, CodeTokens, SiteTokens, IsReadable;
    var v, word := SourceVocabulary(years), "yewmiddleschool";
    TokensOfWhole(years);
    NoCodeAlias(years);
    SiteOfYew(years);
    AliasesOfYew(years);
    PairIsPlain(years, word);
    PairIsWhole(years, YEW, WHOLE_STAFF, word);
    assert |word| == 15 && |"yew"| == 3;
    NotAmong(word, "yew");
  }

  // ----- names that point to no building -----

  lemma TwoWords(first: string, second: string)
    requires IsWord(first) && IsWord(second)
    ensures Words(first + " " + second, "") == [first, second]
  {
    var words := [first, second];
    TokensOfSeparated(words, ' ');
    assert words[1..] == [second];
    assert Separated([second], ' ') == second;
    assert Separated(words, ' ') == first + [' '] + second;
  }

  lemma TokensOfTwo(name: string, first: string, second: string)
    requires IsWord(first) && IsWord(second) && Lowered(name) == first + " " + second
    ensures TokensOf(name) == [first, second]
  {
    TwoWords(first, second);
  }

  /** A compass point is no stem: "North School" has no alias at all. */
  lemma WeakStemHasNoAlias(years: seq<string>, f: Facility)
    requires f.name == "North School"
    ensures Aliases(SourceVocabulary(years), f) == []
  {
    hide Words, IsDistinctive;
    assert Lowered("North School") == "north" + " " + "school";
    TokensOfTwo("North School", "north", "school");
    assert FACILITY_GENERIC_MARKERS[17] == "school" && WEAK_NEIGHBORHOOD_STEMS[2] == "north";
    var v, tokens := SourceVocabulary(years), ["north", "school"];
    assert tokens[1..] == ["school"] && ["school"][1..] == [];
    assert Without(["school"], v.generic + v.aggregate) == [];
    assert forall t :: t in SiteTokens(v, f) ==> t == "north";
  }

  /** Nor has a name that speaks of the whole organisation. */
  lemma AggregateHasNoAlias(years: seq<string>, f: Facility)
    requires f.name == "District School"
    ensures Aliases(SourceVocabulary(years), f) == []
  {
    hide Words, IsDistinctive;
    assert Lowered("District School") == "district" + " " + "school";
    TokensOfTwo("District School", "district", "school");
    DistrictDisqualifies(years);
    hide SourceVocabulary, TokensOf;
    var v := SourceVocabulary(years);
    assert NameTokens(v, f) == ["district", "school"] by { TokensAreOfName(years, f); }
    assert "district" in NameTokens(v, f);
  }

  lemma TokensAreOfName(years: seq<string>, f: Facility)
    ensures NameTokens(SourceVocabulary(years), f) == TokensOf(f.name)
  {
  }

  lemma DistrictDisqualifies(years: seq<string>)
    ensures "district" in SourceVocabulary(years).disqualifying
  {
    assert AGGREGATE_MARKERS_TO_D[17] == "district" && "district" in AGGREGATE_FACILITY_NAME_MARKERS;
    assert "district"[0] == 'd' && "central"[0] == 'c';
  }

  /** Nor has a name that no building's kind of word is part of. */
  lemma NoSiteHasNoAlias(years: seq<string>, f: Facility)
    requires f.name == "Yew Learning"
    ensures Aliases(SourceVocabulary(years), f) == []
  {
    hide Words, IsDistinctive;
    assert Lowered("Yew Learning") == "yew" + " " + "learning";
    TokensOfTwo("Yew Learning", "yew", "learning");
    assert NoneBegins(AUTOMATIC_PHYSICAL_SITE_TYPE_MARKERS, 'y');
    assert NoneBegins(AUTOMATIC_PHYSICAL_SITE_TYPE_MARKERS, 'l');
    var v := SourceVocabulary(years);
    assert forall t :: t in NameTokens(v, f) ==> t in ["yew", "learning"];
  }
}
