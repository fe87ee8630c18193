/**
 The digit patterns of the compact-name recognisers (scripts/ops/groups-inventory-classification.ts) as
 the regular expressions they are, with the backtracking semantics of ECMAScript: a pattern has its
 possible ends in the order in which they are tried, and the first of them is the match.
 */
module DigitPatterns {
  import opened Wrappers
  import opened CompactTokens

  datatype Pattern =
    | Word(text: string)
    | OneOf(low: char, high: char)      // [low-high]
    | Digits(atMost: Option<nat>)       // [0-9]{1,n} or [0-9]+
    | NoDigit                           // (?![0-9])
    | Maybe(pattern: Pattern)           // (?:pattern)?
    | Then(first: Pattern, next: Pattern)
    | Or(one: Pattern, other: Pattern)

  /** Greedy: first as many as there are, or as are allowed, then one digit less. */
  function DigitTries(atMost: Option<nat>, token: string, offset: nat): (ends: seq<nat>)
    ensures forall e :: e in ends ==> offset <= e <= |token|
    decreases |token| - offset
  {
    if offset >= |token| || !IsDigit(token[offset]) || atMost == Some(0) then []
    else DigitTries(if atMost.Some? then Some(atMost.value - 1) else None, token, offset + 1) + [offset + 1]
  }

  /** The ends a pattern can have at an offset, in the order in which they are tried. */
  function Tries(p: Pattern, token: string, offset: nat): seq<nat>
    decreases p, 0
  {
    match p
    case Word(text) => if StartsWith(token, offset, text) then [offset + |text|] else []
    case OneOf(low, high) => if offset < |token| && low <= token[offset] <= high then [offset + 1] else []
    case Digits(atMost) => DigitTries(atMost, token, offset)
    case NoDigit => if offset < |token| && IsDigit(token[offset]) then [] else [offset]
    case Maybe(q) => Tries(q, token, offset) + [offset]
    case Then(first, next) => TriesAfter(Tries(first, token, offset), next, token)
    case Or(one, other) => Tries(one, token, offset) + Tries(other, token, offset)
  }

  function TriesAfter(ends: seq<nat>, p: Pattern, token: string): seq<nat>
    decreases p, 1, |ends|
  {
    if ends == [] then [] else Tries(p, token, ends[0]) + TriesAfter(ends[1..], p, token)
  }

  /** `exec`: the match is the first try that succeeds. */
  function Match(p: Pattern, token: string, offset: nat): Option<nat> { First(Tries(p, token, offset)) }

  function First(ends: seq<nat>): Option<nat> { if ends == [] then None else Some(ends[0]) }

  // ----- the source's expressions -----

  const ORDINAL_SUFFIX := Or(Word("st"), Or(Word("nd"), Or(Word("rd"), Word("th"))))
  const SUFFIX_AND_GRADE := Then(Maybe(ORDINAL_SUFFIX), Word("grade"))
  const TWO_DIGITS := Then(Digits(Some(2)), NoDigit)
  const GRADE := Or(OneOf('0', '9'), Then(Word("1"), OneOf('0', '2')))
  const NUMBERED_POPULATION :=
    Or(Then(Or(Word("class"), Or(Word("classroom"), Or(Word("cohort"), Word("grade")))), TWO_DIGITS),
      Or(Then(Digits(Some(2)), SUFFIX_AND_GRADE),
        Or(Then(Or(OneOf('1', '9'), Then(Word("1"), OneOf('0', '2'))), ORDINAL_SUFFIX),
          Or(Word("gradek"), Or(Word("kgrade"), Then(Word("k"), TWO_DIGITS))))))

  function PatternOf(rule: NumberRule): Option<Pattern> {
    match rule
    case NoNumber => None
    case NeutralNumber => Some(Then(Digits(Some(4)), NoDigit))
    case SuffixNumber => Some(Digits(Some(4)))
    case WholeNumber => Some(Digits(None))
    case GradeNumber => Some(Then(GRADE, NoDigit))
    case GradeOrdinal => Some(Then(GRADE, ORDINAL_SUFFIX))
    case NumberedPopulation => Some(NUMBERED_POPULATION)
  }

  // ----- tries in sequence -----

  lemma FirstOfParts(a: seq<nat>, b: seq<nat>)
    ensures First(a + b) == OrElse(First(a), First(b))
  {
  }

  lemma {:induction false} AfterParts(a: seq<nat>, b: seq<nat>, p: Pattern, token: string)
    ensures TriesAfter(a + b, p, token) == TriesAfter(a, p, token) + TriesAfter(b, p, token)
  {
    hide Tries;
    if a == [] {
      assert a + b == b;
    } else {
      assert (a + b)[1..] == a[1..] + b;
      AfterParts(a[1..], b, p, token);
    }
  }

  lemma AfterOne(end: nat, p: Pattern, token: string)
    ensures TriesAfter([end], p, token) == Tries(p, token, end) && TriesAfter([], p, token) == []
  {
    assert [end][1..] == [];
    assert TriesAfter([], p, token) == [];
  }

  lemma ThenIsAfter(q: Pattern, p: Pattern, token: string, offset: nat)
    ensures Tries(Then(q, p), token, offset) == TriesAfter(Tries(q, token, offset), p, token)
  {
  }

  lemma AfterWord(text: string, p: Pattern, token: string, offset: nat)
    ensures Tries(Then(Word(text), p), token, offset) ==
            if StartsWith(token, offset, text) then Tries(p, token, offset + |text|) else []
  {
    AfterOne(offset + |text|, p, token);
  }

  lemma AfterOneOf(low: char, high: char, p: Pattern, token: string, offset: nat)
    ensures Tries(Then(OneOf(low, high), p), token, offset) ==
            if offset < |token| && low <= token[offset] <= high then Tries(p, token, offset + 1) else []
  {
    AfterOne(offset + 1, p, token);
  }

  lemma AfterOr(one: Pattern, other: Pattern, p: Pattern, token: string, offset: nat)
    ensures Tries(Then(Or(one, other), p), token, offset) ==
            Tries(Then(one, p), token, offset) + Tries(Then(other, p), token, offset)
  {
    AfterParts(Tries(one, token, offset), Tries(other, token, offset), p, token);
  }

  // ----- digits, and what may follow them -----

  lemma {:induction false} GreedyTakesAll(atMost: Option<nat>, token: string, offset: nat)
    requires offset <= |token|
    ensures var n := DigitRun(token, offset);
            First(DigitTries(atMost, token, offset)) ==
            if n == 0 || atMost == Some(0) then None
            else Some(offset + if atMost.Some? && atMost.value < n then atMost.value else n)
    decreases |token| - offset
  {
    if offset < |token| && IsDigit(token[offset]) && atMost != Some(0) {
      GreedyTakesAll(if atMost.Some? then Some(atMost.value - 1) else None, token, offset + 1);
    }
  }

  /** The pattern cannot match where a digit stands. */
  ghost predicate FailsAtDigits(p: Pattern, token: string) {
    forall i: nat :: i < |token| && IsDigit(token[i]) ==> Tries(p, token, i) == []
  }

  /** Before such a pattern backtracking helps nothing: all digits are taken, or there is no match. */
  lemma {:induction false} AfterDigits(atMost: Option<nat>, p: Pattern, token: string, offset: nat)
    requires offset <= |token| && FailsAtDigits(p, token)
    ensures var n := DigitRun(token, offset);
            First(TriesAfter(DigitTries(atMost, token, offset), p, token)) ==
            if n >= 1 && (atMost.Some? ==> n <= atMost.value) then First(Tries(p, token, offset + n)) else None
    decreases |token| - offset
  {
    hide Tries;
    AfterOne(offset + 1, p, token);
    if offset < |token| && IsDigit(token[offset]) && atMost != Some(0) {
      var fewer := if atMost.Some? then Some(atMost.value - 1) else None;
      AfterDigits(fewer, p, token, offset + 1);
      AfterParts(DigitTries(fewer, token, offset + 1), [offset + 1], p, token);
      FirstOfParts(TriesAfter(DigitTries(fewer, token, offset + 1), p, token), Tries(p, token, offset + 1));
    }
  }

  lemma DigitsAlone(atMost: Option<nat>, token: string, offset: nat)
    requires offset <= |token|
    ensures var n := DigitRun(token, offset);
            Match(Then(Digits(atMost), NoDigit), token, offset) ==
            if n >= 1 && (atMost.Some? ==> n <= atMost.value) then Some(offset + n) else None
  {
    ThenIsAfter(Digits(atMost), NoDigit, token, offset);
    AfterDigits(atMost, NoDigit, token, offset);
    RunEnds(token, offset);
  }

  lemma {:induction false} RunEnds(token: string, offset: nat)
    requires offset <= |token|
    ensures var end := offset + DigitRun(token, offset); end < |token| ==> !IsDigit(token[end])
    decreases |token| - offset
  {
    if offset < |token| && IsDigit(token[offset]) {
      RunEnds(token, offset + 1);
    }
  }

  // ----- the parts of the longer expressions -----

  lemma StartsWithLetter(token: string, offset: nat, text: string)
    ensures text != "" && StartsWith(token, offset, text) ==> offset < |token| && token[offset] == text[0]
  {
  }

  lemma SuffixTries(token: string, offset: nat)
    ensures Tries(ORDINAL_SUFFIX, token, offset) == if IsOrdinalSuffix(token, offset) then [offset + 2] else []
  {
    StartsWithLetter(token, offset, "st");
    StartsWithLetter(token, offset, "nd");
    StartsWithLetter(token, offset, "rd");
    StartsWithLetter(token, offset, "th");
  }

  lemma WordAndTwoDigits(word: string, token: string, offset: nat)
    ensures Match(Then(Word(word), TWO_DIGITS), token, offset) == WordAndDigits(token, offset, word)
  {
    hide Tries;
    AfterWord(word, TWO_DIGITS, token, offset);
    if StartsWith(token, offset, word) {
      DigitsAlone(Some(2), token, offset + |word|);
    }
  }

  lemma SuffixAndGrade(token: string, offset: nat)
    ensures var word := offset + if IsOrdinalSuffix(token, offset) then 2 else 0;
            First(Tries(SUFFIX_AND_GRADE, token, offset)) ==
            if StartsWith(token, word, "grade") then Some(word + 5) else None
    ensures offset < |token| && IsDigit(token[offset]) ==>
              Tries(SUFFIX_AND_GRADE, token, offset) == []
  {
    var grade := Word("grade");
    SuffixTries(token, offset);
    AfterOne(offset, grade, token);
    AfterOne(offset + 2, grade, token);
    AfterParts(Tries(ORDINAL_SUFFIX, token, offset), [offset], grade, token);
    StartsWithLetter(token, offset, "grade");
    StartsWithLetter(token, offset, "st");
    StartsWithLetter(token, offset, "nd");
    StartsWithLetter(token, offset, "rd");
    StartsWithLetter(token, offset, "th");
  }

  lemma DigitsAreTries(token: string, offset: nat)
    ensures Tries(Digits(Some(2)), token, offset) == DigitTries(Some(2), token, offset)
  {
  }

  lemma GradeFailsAtDigits(token: string)
    ensures FailsAtDigits(SUFFIX_AND_GRADE, token)
  {
    hide Tries;
    forall i: nat | i < |token| && IsDigit(token[i])
      ensures Tries(SUFFIX_AND_GRADE, token, i) == []
    {
      SuffixAndGrade(token, i);
    }
  }

  lemma DigitsThenGrade(token: string, offset: nat)
    requires offset <= |token|
    ensures Match(Then(Digits(Some(2)), SUFFIX_AND_GRADE), token, offset) == DigitsAndGrade(token, offset)
  {
    GradeFailsAtDigits(token);
    DigitsAreTries(token, offset);
    hide StartsWith, Tries, TriesAfter, FailsAtDigits, DigitTries, DigitRun, IsOrdinalSuffix;
    ThenIsAfter(Digits(Some(2)), SUFFIX_AND_GRADE, token, offset);
    AfterDigits(Some(2), SUFFIX_AND_GRADE, token, offset);
    SuffixAndGrade(token, offset + DigitRun(token, offset));
  }

  /** A digit of the range or 10 to 12, and what follows. */
  lemma GradeThen(low: char, p: Pattern, token: string, offset: nat)
    ensures Tries(Then(Or(OneOf(low, '9'), Then(Word("1"), OneOf('0', '2'))), p), token, offset) ==
            (if offset < |token| && low <= token[offset] <= '9' then Tries(p, token, offset + 1) else [])
            + (if IsTenToTwelve(token, offset) then Tries(p, token, offset + 2) else [])
  {
    hide Tries;
    var ten := Then(Word("1"), OneOf('0', '2'));
    AfterOr(OneOf(low, '9'), ten, p, token, offset);
    AfterOneOf(low, '9', p, token, offset);
    TenTries(token, offset);
    ThenIsAfter(ten, p, token, offset);
    AfterOne(offset + 2, p, token);
  }

  lemma TenTries(token: string, offset: nat)
    ensures Tries(Then(Word("1"), OneOf('0', '2')), token, offset) ==
            if IsTenToTwelve(token, offset) then [offset + 2] else []
  {
    AfterWord("1", OneOf('0', '2'), token, offset);
  }

  lemma GradeNumberMatches(token: string, offset: nat)
    requires offset <= |token|
    ensures Match(Then(GRADE, NoDigit), token, offset) == NumberEnd(GradeNumber, token, offset)
  {
    GradeThen('0', NoDigit, token, offset);
    RunEnds(token, offset);
    if offset < |token| && IsDigit(token[offset]) {
      assert DigitRun(token, offset) == 1 + DigitRun(token, offset + 1);
      if offset + 1 < |token| && IsDigit(token[offset + 1]) {
        assert DigitRun(token, offset + 1) == 1 + DigitRun(token, offset + 2);
      }
    }
  }

  lemma GradeOrdinalMatches(token: string, offset: nat)
    requires offset <= |token|
    ensures Match(Then(GRADE, ORDINAL_SUFFIX), token, offset) == NumberEnd(GradeOrdinal, token, offset)
  {
    hide Tries, IsOrdinalSuffix;
    GradeThen('0', ORDINAL_SUFFIX, token, offset);
    SuffixTries(token, offset + 1);
    SuffixTries(token, offset + 2);
  }

  lemma OrMatches(one: Pattern, other: Pattern, token: string, offset: nat)
    ensures Match(Or(one, other), token, offset) == OrElse(Match(one, token, offset), Match(other, token, offset))
  {
    FirstOfParts(Tries(one, token, offset), Tries(other, token, offset));
  }

  lemma WordsAndDigits(token: string, offset: nat)
    ensures Match(Then(Or(Word("class"), Or(Word("classroom"), Or(Word("cohort"), Word("grade")))), TWO_DIGITS), token,
                  offset) ==
            OrElse(WordAndDigits(token, offset, "class"), OrElse(WordAndDigits(token, offset, "classroom"),
                     OrElse(WordAndDigits(token, offset, "cohort"), WordAndDigits(token, offset, "grade"))))
  {
    hide Tries, WordAndDigits;
    var p := TWO_DIGITS;
    AfterOr(Word("class"), Or(Word("classroom"), Or(Word("cohort"), Word("grade"))), p, token, offset);
    AfterOr(Word("classroom"), Or(Word("cohort"), Word("grade")), p, token, offset);
    AfterOr(Word("cohort"), Word("grade"), p, token, offset);
    WordAndTwoDigits("class", token, offset);
    WordAndTwoDigits("classroom", token, offset);
    WordAndTwoDigits("cohort", token, offset);
    WordAndTwoDigits("grade", token, offset);
  }

  lemma OrdinalMatches(token: string, offset: nat)
    ensures Match(Then(Or(OneOf('1', '9'), Then(Word("1"), OneOf('0', '2'))), ORDINAL_SUFFIX), token, offset) ==
            if offset < |token| && '1' <= token[offset] <= '9' && IsOrdinalSuffix(token, offset + 1)
            then Some(offset + 3)
            else if IsTenToTwelve(token, offset) && IsOrdinalSuffix(token, offset + 2) then Some(offset + 4)
            else None
  {
    hide Tries, IsOrdinalSuffix;
    GradeThen('1', ORDINAL_SUFFIX, token, offset);
    SuffixTries(token, offset + 1);
    SuffixTries(token, offset + 2);
  }

  lemma WordMatches(text: string, token: string, offset: nat)
    ensures Match(Word(text), token, offset) ==
            if StartsWith(token, offset, text) then Some(offset + |text|) else None
  {
  }

  lemma PopulationMatches(token: string, offset: nat)
    requires offset <= |token|
    ensures Match(NUMBERED_POPULATION, token, offset) == NumberedPopulationEnd(token, offset)
  {
    hide Match, WordAndDigits, DigitsAndGrade, IsOrdinalSuffix, StartsWith, IsTenToTwelve;
    var words := Then(Or(Word("class"), Or(Word("classroom"), Or(Word("cohort"), Word("grade")))), TWO_DIGITS);
    var digits := Then(Digits(Some(2)), SUFFIX_AND_GRADE);
    var ordinal := Then(Or(OneOf('1', '9'), Then(Word("1"), OneOf('0', '2'))), ORDINAL_SUFFIX);
    var k := Then(Word("k"), TWO_DIGITS);
    var last := Or(Word("kgrade"), k);
    OrMatches(words, Or(digits, Or(ordinal, Or(Word("gradek"), last))), token, offset);
    OrMatches(digits, Or(ordinal, Or(Word("gradek"), last)), token, offset);
    OrMatches(ordinal, Or(Word("gradek"), last), token, offset);
    OrMatches(Word("gradek"), last, token, offset);
    OrMatches(Word("kgrade"), k, token, offset);
    WordsAndDigits(token, offset);
    DigitsThenGrade(token, offset);
    OrdinalMatches(token, offset);
    WordMatches("gradek", token, offset);
    WordMatches("kgrade", token, offset);
    WordAndTwoDigits("k", token, offset);
  }

  /** Where a number ends is where the source's regular expression says. */
  lemma NumberEndIsMatch(rule: NumberRule, token: string, offset: nat)
    requires offset <= |token|
    ensures NumberEnd(rule, token, offset) ==
            if PatternOf(rule).Some? then Match(PatternOf(rule).value, token, offset) else None
  {
    match rule
    case NoNumber =>
    case NeutralNumber => DigitsAlone(Some(4), token, offset);
    case SuffixNumber => GreedyTakesAll(Some(4), token, offset);
    case WholeNumber => GreedyTakesAll(None, token, offset);
    case GradeNumber => GradeNumberMatches(token, offset);
    case GradeOrdinal => GradeOrdinalMatches(token, offset);
    case NumberedPopulation => PopulationMatches(token, offset);
  }
}
