/**
 The word lists of the inventory (scripts/ops/groups-inventory-model.ts,
 scripts/ops/groups-inventory-classification.ts) and its tokeniser on ASCII text: the vocabulary the
 other modules take as a parameter.
 */
module Markers {
  import opened CompactTokens
  import opened BuildingNames
  import opened Facilities

  const WHOLE_BUILDING_MARKERS := [
    "all", "and", "bldg", "building", "campus", "employee", "employees", "group", "groups", "list", "lists",
    "member", "members", "or", "school", "staff", "team", "teams"]

  const DEFAULT_ORGANIZATION_PREFIXES := ["district"]

  const FACILITY_GENERIC_MARKERS := [
    "academy", "bldg", "building", "campus", "center", "centre", "district", "education", "educational",
    "elementary", "employee", "employees", "faculty", "high", "k12", "learning", "middle", "school", "staff",
    "teacher", "teachers", "the"]

  const AGGREGATE_MARKERS_TO_D := [
    "all", "admin", "admins", "administration", "administrative", "bldgs", "buildings", "campuses", "campuswide",
    "central", "department", "departmental", "departments", "departmentwide", "dept", "depts", "dist", "district",
    "districts", "districtwide", "division", "divisions", "divisionwide"]

  const AGGREGATE_MARKERS_FROM_E := [
    "enterprise", "facilities", "facility", "facilitywide", "global", "headquarters", "hq", "location", "locations",
    "locationwide", "network", "office", "offices", "officewide", "operation", "operations", "ops", "organisation",
    "organisations", "organisationwide", "organization", "organizations", "organizationwide", "other", "others",
    "people", "personnel", "schools", "schoolwide", "service", "services", "servicewide", "site", "sites",
    "sitewide", "system", "systems", "systemwide", "svcs", "user", "users", "workforce"]

  const AGGREGATE_FACILITY_NAME_MARKERS := AGGREGATE_MARKERS_TO_D + AGGREGATE_MARKERS_FROM_E

  const GENERIC_AUTOMATIC_FACILITY_CODE_ALIASES := ["adm", "dis", "ops", "oth"]

  const WEAK_NEIGHBORHOOD_STEMS := ["central", "east", "north", "south", "west"]

  const STAFF_MARKERS := ["employee", "employees", "staff"]

  const NARROW_ROLE_MARKERS := [
    "admin", "admins", "administration", "administrative", "administrator", "administrators", "assistant",
    "certificated", "classified", "coach", "coaches", "committee", "counselor", "counselors", "custodial",
    "custodian", "custodians", "faculty", "itinerant", "itinerants", "janitor", "janitors", "leadership", "nurse",
    "nurses", "office", "para", "paraprofessional", "paraprofessionals", "paras", "paraeducator", "paraeducators",
    "principal", "principals", "secretaries", "secretary", "sub", "subs", "substitute", "substitutes", "teacher",
    "teachers"]

  const NON_STAFF_MARKERS := [
    "alumni", "booster", "boosters", "child", "children", "class", "classroom", "classrooms", "cohort", "cohorts",
    "families", "family", "grade", "grades", "guardian", "guardians", "kindergarten", "kinder", "kindy", "kid",
    "kids", "learner", "learners", "parent", "parents", "preschool", "preschools", "prek", "prekindergarten", "pta",
    "pto", "pupil", "pupils", "scholar", "scholars", "student", "students"]

  const STALE_MARKERS := [
    "archive", "archived", "closed", "deprecated", "inactive", "legacy", "obsolete", "old"]

  const OTHER_NON_DISTINCTIVE_ALIASES := [
    "academies", "allusers", "campuses", "community", "department", "departments", "dist", "districts", "division",
    "divisions", "enterprise", "everybody", "everyone", "facilities", "facility", "global", "network", "office",
    "offices", "organization", "organizations", "organisation", "organisations", "other", "others", "people",
    "personnel", "site", "sites", "system", "systems", "user", "users", "wide", "workforce"]

  const AUTOMATIC_PHYSICAL_SITE_TYPE_MARKERS := [
    "academy", "bldg", "building", "campus", "center", "centre", "elementary", "high", "middle", "school"]

  function SetOf(markers: seq<string>): set<string> { set m | m in markers }

  /** `NON_DISTINCTIVE_AUTOMATIC_FACILITY_ALIASES` and the organisation's prefixes, list by list. */
  const NON_DISTINCTIVE_LISTS := [
    WHOLE_BUILDING_MARKERS, FACILITY_GENERIC_MARKERS, AGGREGATE_FACILITY_NAME_MARKERS,
    GENERIC_AUTOMATIC_FACILITY_CODE_ALIASES, WEAK_NEIGHBORHOOD_STEMS, STAFF_MARKERS, NARROW_ROLE_MARKERS,
    NON_STAFF_MARKERS, STALE_MARKERS, OTHER_NON_DISTINCTIVE_ALIASES, DEFAULT_ORGANIZATION_PREFIXES]

  function Flat(lists: seq<seq<string>>): seq<string> {
    if lists == [] then [] else lists[0] + Flat(lists[1..])
  }

  // ----- the tokeniser -----

  function Lower(c: char): char { if 'A' <= c <= 'Z' then c - 'A' + 'a' else c }

  function Lowered(text: string): string { seq(|text|, i requires 0 <= i < |text| => Lower(text[i])) }

  predicate IsWordChar(c: char) { 'a' <= c <= 'z' || IsDigit(c) }

  function Ended(word: string): seq<string> { if word == "" then [] else [word] }

  /** The tokens of the text, the first of which has been read up to `word`. */
  function Words(text: string, word: string): seq<string> {
    if text == "" then Ended(word)
    else if IsWordChar(text[0]) then Words(text[1..], word + [text[0]])
    else if text[0] == '&' then Ended(word) + ["and"] + Words(text[1..], "")
    else Ended(word) + Words(text[1..], "")
  }

  /** `tokensOf`: runs of letters and digits in lower case, with `&` read as a word. */
  function TokensOf(text: string): seq<string> { Words(Lowered(text), "") }

  predicate IsAscii(text: string) { forall i :: 0 <= i < |text| ==> text[i] < '\U{0080}' }

  function SourceVocabulary(years: seq<string>): Vocabulary {
    Vocabulary(
      TokensOf, text => !IsAscii(text),
      SetOf(FACILITY_GENERIC_MARKERS), SetOf(AGGREGATE_FACILITY_NAME_MARKERS),
      SetOf(AGGREGATE_FACILITY_NAME_MARKERS) - {"central"}, SetOf(AUTOMATIC_PHYSICAL_SITE_TYPE_MARKERS),
      SetOf(WEAK_NEIGHBORHOOD_STEMS), Flat(NON_DISTINCTIVE_LISTS),
      SetOf(STAFF_MARKERS), SetOf(NARROW_ROLE_MARKERS), SetOf(STALE_MARKERS),
      NameRules(WHOLE_BUILDING_MARKERS + DEFAULT_ORGANIZATION_PREFIXES, SetOf(STAFF_MARKERS), years))
  }

  /** The aliases of an academic year are digits, or "sy" before digits. */
  predicate AreYears(years: seq<string>) {
    forall y :: y in years ==> (|y| > 0 && IsDigit(y[0])) || (|y| > 2 && y[..2] == "sy")
  }

  // ----- words with one separator between them -----

  predicate IsWord(word: string) { word != "" && forall i :: 0 <= i < |word| ==> IsWordChar(word[i]) }

  function Separated(words: seq<string>, separator: char): string {
    if words == [] then ""
    else if |words| == 1 then words[0]
    else words[0] + [separator] + Separated(words[1..], separator)
  }

  lemma {:induction false} WordIsRead(word: string, rest: string, before: string)
    requires forall i :: 0 <= i < |word| ==> IsWordChar(word[i])
    ensures Words(word + rest, before) == Words(rest, before + word)
  {
    if word == "" {
      assert word + rest == rest && before + word == before;
    } else {
      assert (word + rest)[1..] == word[1..] + rest;
      WordIsRead(word[1..], rest, before + [word[0]]);
      assert before + [word[0]] + word[1..] == before + word;
    }
  }

  lemma SeparatedIsSplit(word: string, separator: char, rest: string)
    requires IsWord(word) && !IsWordChar(separator) && separator != '&'
    ensures Words(word + [separator] + rest, "") == [word] + Words(rest, "")
  {
    WordIsRead(word, [separator] + rest, "");
    assert word + ([separator] + rest) == word + [separator] + rest && "" + word == word;
    assert ([separator] + rest)[1..] == rest;
  }

  /** Words with a separator between them are read back. */
  lemma {:induction false} TokensOfSeparated(words: seq<string>, separator: char)
    requires !IsWordChar(separator) && separator != '&'
    requires forall w :: w in words ==> IsWord(w)
    ensures Words(Separated(words, separator), "") == words
  {
    if words == [] {
      return;
    }
    assert IsWord(words[0]);
    if |words| == 1 {
      WordIsRead(words[0], "", "");
      assert words[0] + "" == words[0] && "" + words[0] == words[0] && [words[0]] == words;
    } else {
      hide Words, IsWord;
      SeparatedIsSplit(words[0], separator, Separated(words[1..], separator));
      TokensOfSeparated(words[1..], separator);
      assert [words[0]] + words[1..] == words;
    }
  }
}
