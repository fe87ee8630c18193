/**
 The recognisers of compacted names (scripts/ops/groups-inventory-classification.ts). Each scans the
 offsets that allowed pieces can reach; each is proved to accept exactly the texts that can be cut
 into such pieces. Marker lists are parameters.
 */
module CompactTokens {
  import opened Wrappers
  import opened Segmentation

  predicate StartsWith(token: string, offset: nat, marker: string) {
    offset + |marker| <= |token| && token[offset..offset + |marker|] == marker
  }

  /** Where a marker that begins at `offset` ends. */
  function Ends(token: string, offset: nat, markers: seq<string>): set<nat> {
    set j | 0 <= j < |markers| && StartsWith(token, offset, markers[j]) :: offset + |markers[j]|
  }

  lemma EndsStep(token: string, offset: nat, markers: seq<string>, m: nat)
    requires m < |markers|
    ensures Ends(token, offset, markers[..m + 1]) ==
            Ends(token, offset, markers[..m]) + if StartsWith(token, offset, markers[m]) then {offset + |markers[m]|}
                                                else {}
  {
    var more, less := markers[..m + 1], markers[..m];
    assert forall j :: 0 <= j < m ==> more[j] == less[j];
    assert more[m] == markers[m];
    forall e | e in Ends(token, offset, less)
      ensures e in Ends(token, offset, more)
    {
      var j :| 0 <= j < |less| && StartsWith(token, offset, less[j]) && e == offset + |less[j]|;
      assert StartsWith(token, offset, more[j]);
    }
    if StartsWith(token, offset, markers[m]) {
      assert StartsWith(token, offset, more[m]);
    }
  }

  method AddEnds(token: string, offset: nat, markers: seq<string>, reachable: set<nat>) returns (r: set<nat>)
    ensures r == reachable + Ends(token, offset, markers)
  {
    r := reachable;
    for m := 0 to |markers|
      invariant r == reachable + Ends(token, offset, markers[..m])
    {
      EndsStep(token, offset, markers, m);
      if StartsWith(token, offset, markers[m]) {
        r := r + {offset + |markers[m]|};
      }
    }
    assert markers[..|markers|] == markers;
  }

  // ----- the digit patterns -----

  predicate IsDigit(c: char) { '0' <= c <= '9' }

  /** How many digits follow at `offset`. */
  function DigitRun(token: string, offset: nat): (n: nat)
    ensures offset <= |token| ==> offset + n <= |token|
    decreases |token| - offset
  {
    if offset < |token| && IsDigit(token[offset]) then 1 + DigitRun(token, offset + 1) else 0
  }

  /** The digit patterns, by the source's regular expressions. */
  datatype NumberRule =
    | NoNumber
    | NeutralNumber         // ^[0-9]{1,4}(?![0-9])
    | SuffixNumber          // ^[0-9]{1,4}
    | WholeNumber           // ^[0-9]+
    | GradeNumber           // ^(?:[0-9]|1[0-2])(?![0-9])
    | GradeOrdinal          // ^(?:[0-9]|1[0-2])(?:st|nd|rd|th)
    | NumberedPopulation    // COMPACT_NUMBERED_POPULATION_PATTERN

  predicate IsOrdinalSuffix(token: string, offset: nat) {
    || StartsWith(token, offset, "st") || StartsWith(token, offset, "nd")
    || StartsWith(token, offset, "rd") || StartsWith(token, offset, "th")
  }

  /** `1[0-2]`. */
  predicate IsTenToTwelve(token: string, offset: nat) {
    offset + 2 <= |token| && token[offset] == '1' && '0' <= token[offset + 1] <= '2'
  }

  /** A word followed by one or two digits and no third. */
  function WordAndDigits(token: string, offset: nat, word: string): Option<nat> {
    if StartsWith(token, offset, word) && 1 <= DigitRun(token, offset + |word|) <= 2
    then Some(offset + |word| + DigitRun(token, offset + |word|))
    else None
  }

  /** `[0-9]{1,2}(?:st|nd|rd|th)?grade`. */
  function DigitsAndGrade(token: string, offset: nat): Option<nat> {
    var n := DigitRun(token, offset);
    if !(1 <= n <= 2) then None
    else
      var word := offset + n + if IsOrdinalSuffix(token, offset + n) then 2 else 0;
      if StartsWith(token, word, "grade") then Some(word + 5) else None
  }

  function OrElse(a: Option<nat>, b: Option<nat>): Option<nat> { if a.Some? then a else b }

  /** The first alternative that matches, as a regular expression picks it. */
  function NumberedPopulationEnd(token: string, offset: nat): Option<nat> {
    var word := OrElse(WordAndDigits(token, offset, "class"), OrElse(WordAndDigits(token, offset, "classroom"),
                  OrElse(WordAndDigits(token, offset, "cohort"), WordAndDigits(token, offset, "grade"))));
    if word.Some? then word
    else if DigitsAndGrade(token, offset).Some? then DigitsAndGrade(token, offset)
    else if offset < |token| && '1' <= token[offset] <= '9' && IsOrdinalSuffix(token, offset + 1) then Some(offset + 3)
    else if IsTenToTwelve(token, offset) && IsOrdinalSuffix(token, offset + 2) then Some(offset + 4)
    else if StartsWith(token, offset, "gradek") then Some(offset + 6)
    else if StartsWith(token, offset, "kgrade") then Some(offset + 6)
    else WordAndDigits(token, offset, "k")
  }

  function NumberEnd(rule: NumberRule, token: string, offset: nat): (r: Option<nat>)
    requires offset <= |token|
    ensures r.Some? ==> offset < r.value <= |token|
  {
    var n := DigitRun(token, offset);
    match rule
    case NoNumber => None
    case NeutralNumber => if 1 <= n <= 4 then Some(offset + n) else None
    case SuffixNumber => if n == 0 then None else Some(offset + if n < 4 then n else 4)
    case WholeNumber => if n == 0 then None else Some(offset + n)
    case GradeNumber =>
      if n == 1 then Some(offset + 1)
      else if n == 2 && IsTenToTwelve(token, offset) then Some(offset + 2)
      else None
    case GradeOrdinal =>
      if n >= 1 && IsOrdinalSuffix(token, offset + 1) then Some(offset + 3)
      else if IsTenToTwelve(token, offset) && IsOrdinalSuffix(token, offset + 2) then Some(offset + 4)
      else None
    case NumberedPopulation => NumberedPopulationEnd(token, offset)
  }

  predicate NumberAt(rule: NumberRule, token: string, start: nat, end: nat) {
    start <= |token| && NumberEnd(rule, token, start) == Some(end)
  }

  /** A marker or a number of the rule stands between `start` and `end`. */
  predicate PieceAt(markers: seq<string>, rule: NumberRule, token: string, start: nat, end: nat) {
    end in Ends(token, start, markers) || NumberAt(rule, token, start, end)
  }

  /** Adds the end of every piece that begins at `offset`. */
  method AddPieces(markers: seq<string>, rule: NumberRule, token: string, offset: nat, reachable: set<nat>)
    returns (r: set<nat>)
    requires offset <= |token|
    ensures forall e :: e in r <==> e in reachable || PieceAt(markers, rule, token, offset, e)
  {
    r := AddEnds(token, offset, markers, reachable);
    var number := NumberEnd(rule, token, offset);
    if number.Some? {
      r := r + {number.value};
    }
  }

  lemma PiecesAreNotBehind(markers: seq<string>, rule: NumberRule, token: string, offset: nat)
    ensures forall e :: PieceAt(markers, rule, token, offset, e) ==> offset <= e
  {
  }

  lemma PiecesAreAhead(markers: seq<string>, rule: NumberRule, token: string, offset: nat)
    requires "" !in markers
    ensures forall e :: PieceAt(markers, rule, token, offset, e) ==> offset < e
  {
    forall e | e in Ends(token, offset, markers)
      ensures offset < e
    {
      var j :| 0 <= j < |markers| && StartsWith(token, offset, markers[j]) && e == offset + |markers[j]|;
      assert markers[j] in markers;
    }
  }

  // ----- texts made of allowed pieces only -----

  datatype Plain = Plain

  function PlainGrammar(token: string, markers: seq<string>, rule: NumberRule): Grammar<Plain, Plain> {
    Grammar(Plain, (start: nat, end: nat, k) => PieceAt(markers, rule, token, start, end),
            (q, k) => Some(Plain))
  }

  /** The text is a concatenation of markers and numbers. */
  ghost predicate IsConcatenation(token: string, markers: seq<string>, rule: NumberRule) {
    exists pieces: seq<Piece<Plain>> :: IsCut(PlainGrammar(token, markers, rule), pieces) && EndOf(pieces) == |token|
  }

  lemma {:induction false} PlainStates(g: Grammar<Plain, Plain>, pieces: seq<Piece<Plain>>)
    requires forall q, k :: g.next(q, k) == Some(Plain)
    ensures StateAfter(g, pieces) == Some(Plain)
  {
    assert g.start == Plain;
    if pieces != [] {
      PlainStates(g, pieces[..|pieces| - 1]);
    }
  }

  lemma ConcatenationIsReachable(token: string, markers: seq<string>, rule: NumberRule)
    ensures IsConcatenation(token, markers, rule) <==> Reachable(PlainGrammar(token, markers, rule), |token|, Plain)
  {
    hide IsCut;
    var g := PlainGrammar(token, markers, rule);
    forall pieces: seq<Piece<Plain>>
      ensures StateAfter(g, pieces) == Some(Plain)
    {
      PlainStates(g, pieces);
    }
  }

  function Marked(offsets: set<nat>): set<(nat, Plain)> { set e | e in offsets :: (e, Plain) }

  lemma PlainScan(token: string, markers: seq<string>, rule: NumberRule, offset: nat, before: set<nat>, after: set<nat>)
    requires var g := PlainGrammar(token, markers, rule);
             forall e: nat :: e in before <==> Known(g, offset, e, Plain)
    requires forall e: nat :: e in after <==>
               (e in before || (offset in before && PieceAt(markers, rule, token, offset, e)))
    ensures var g := PlainGrammar(token, markers, rule);
            forall e: nat :: e in after <==> Known(g, offset + 1, e, Plain)
  {
    hide Known;
    var g := PlainGrammar(token, markers, rule);
    var b, a := Marked(before), Marked(after);
    forall e: nat, q: Plain
      ensures (e, q) in b <==> Known(g, offset, e, q)
    {
      assert q == Plain;
    }
    forall e: nat, q: Plain
      ensures (e, q) in a <==> ((e, q) in b || exists p, k :: (offset, p) in b && Moves(g, offset, e, p, k, q))
    {
      assert q == Plain;
      assert (e, q) in a <==> e in after;
      assert (e, q) in b <==> e in before;
      if e in after && e !in before {
        assert offset < e;
        assert (offset, Plain) in b && Moves(g, offset, e, Plain, Plain, q);
      }
    }
    ScanStep(g, offset, b, a);
    forall e: nat
      ensures e in after <==> Known(g, offset + 1, e, Plain)
    {
      assert (e, Plain) in a <==> Known(g, offset + 1, e, Plain);
    }
  }

  /** The loop of `suffixIsFullyConsumedBy`, and of `isFullyNonDistinctiveAutomaticAlias`. */
  method IsFullyConsumed(token: string, markers: seq<string>, rule: NumberRule) returns (r: bool)
    ensures r <==> IsConcatenation(token, markers, rule)
  {
    ghost var g := PlainGrammar(token, markers, rule);
    var reachable: set<nat> := {0};
    assert forall e: nat :: e in reachable <==> Known(g, 0, e, Plain);
    for offset := 0 to |token|
      invariant forall e: nat :: e in reachable <==> Known(g, offset, e, Plain)
    {
      ghost var before := reachable;
      if offset in reachable {
        reachable := AddPieces(markers, rule, token, offset, reachable);
      }
      PlainScan(token, markers, rule, offset, before, reachable);
    }
    ReachableIsKnown(g, |token|, |token|, Plain);
    ConcatenationIsReachable(token, markers, rule);
    r := |token| in reachable;
  }

  // ----- texts with at least one target among neutral pieces -----

  datatype Kind = Neutral | Target

  function TargetGrammar(token: string, neutral: seq<string>, neutralRule: NumberRule, targets: seq<string>,
                         targetRule: NumberRule): Grammar<Kind, bool> {
    Grammar(false,
            (start: nat, end: nat, k: Kind) =>
              match k
              case Neutral => PieceAt(neutral, neutralRule, token, start, end)
              case Target => PieceAt(targets, targetRule, token, start, end),
            (seen: bool, k: Kind) => Some(seen || k.Target?))
  }

  ghost predicate HasTarget(pieces: seq<Piece<Kind>>) {
    exists i :: 0 <= i < |pieces| && pieces[i].kind.Target?
  }

  /** The text is a concatenation of neutral and target pieces, at least one of them a target. */
  ghost predicate NamesTarget(token: string, neutral: seq<string>, neutralRule: NumberRule, targets: seq<string>,
                              targetRule: NumberRule) {
    exists pieces :: IsCut(TargetGrammar(token, neutral, neutralRule, targets, targetRule), pieces) &&
                     EndOf(pieces) == |token| && HasTarget(pieces)
  }

  lemma {:induction false} TargetStates(g: Grammar<Kind, bool>, pieces: seq<Piece<Kind>>)
    requires g.start == false && forall q, k :: g.next(q, k) == Some(q || k.Target?)
    ensures StateAfter(g, pieces) == Some(HasTarget(pieces))
  {
    if pieces != [] {
      var front := pieces[..|pieces| - 1];
      TargetStates(g, front);
      assert HasTarget(front) ==> HasTarget(pieces) by {
        if i :| 0 <= i < |front| && front[i].kind.Target? {
          assert pieces[i].kind.Target?;
        }
      }
      if i :| 0 <= i < |pieces| && pieces[i].kind.Target? {
        assert i < |front| ==> front[i].kind.Target?;
      }
    }
  }

  lemma NamesTargetIsReachable(g: Grammar<Kind, bool>, end: nat)
    requires g.start == false && forall q, k :: g.next(q, k) == Some(q || k.Target?)
    ensures (exists pieces :: IsCut(g, pieces) && EndOf(pieces) == end && HasTarget(pieces)) <==>
              Reachable(g, end, true)
  {
    hide IsCut, HasTarget;
    forall pieces: seq<Piece<Kind>>
      ensures StateAfter(g, pieces) == Some(HasTarget(pieces))
    {
      TargetStates(g, pieces);
    }
  }

  function Flagged(without: set<nat>, with: set<nat>): set<(nat, bool)> {
    (set e | e in without :: (e, false)) + (set e | e in with :: (e, true))
  }

  ghost predicate TargetKnown(g: Grammar<Kind, bool>, offset: nat, without: set<nat>, with: set<nat>) {
    && (forall e: nat :: e in without <==> Known(g, offset, e, false))
    && (forall e: nat :: e in with <==> Known(g, offset, e, true))
  }

  /** What one turn of the loop makes of the two sets. */
  ghost predicate TargetTurn(g: Grammar<Kind, bool>, offset: nat, without: set<nat>, with: set<nat>, without': set<nat>,
                             with': set<nat>)
  {
    && (forall e: nat :: e in without' <==>
         e in without || (offset in without && offset < e && g.allows(offset, e, Neutral)))
    && (forall e: nat :: e in with' <==>
          || e in with
          || (offset in with && offset < e && g.allows(offset, e, Neutral))
          || ((offset in without || offset in with) && offset < e && g.allows(offset, e, Target)))
  }

  lemma TargetMoves(g: Grammar<Kind, bool>, offset: nat, without: set<nat>, with: set<nat>, without': set<nat>,
                    with': set<nat>, e: nat, q: bool)
    requires forall q, k :: g.next(q, k) == Some(q || k.Target?)
    requires TargetTurn(g, offset, without, with, without', with')
    ensures (e, q) in Flagged(without', with') <==>
              ((e, q) in Flagged(without, with) ||
                exists p, k :: (offset, p) in Flagged(without, with) && Moves(g, offset, e, p, k, q))
  {
    var b, a := Flagged(without, with), Flagged(without', with');
    assert (e, q) in a <==> if q then e in with' else e in without';
    assert (e, q) in b <==> if q then e in with else e in without;
    assert forall p :: (offset, p) in b <==> if p then offset in with else offset in without;
    if (e, q) in a && (e, q) !in b {
      if !q || (offset in with && offset < e && g.allows(offset, e, Neutral)) {
        assert (offset, q) in b && Moves(g, offset, e, q, Neutral, q);
      } else if offset in without {
        assert (offset, false) in b && Moves(g, offset, e, false, Target, q);
      } else {
        assert (offset, true) in b && Moves(g, offset, e, true, Target, q);
      }
    }
    if p, k :| (offset, p) in b && Moves(g, offset, e, p, k, q) {
      assert g.next(p, k) == Some(p || k.Target?);
      assert k == Neutral || k == Target;
      assert q == (p || k.Target?) && (p == true || p == false);
    }
  }

  lemma TargetScan(g: Grammar<Kind, bool>, offset: nat, without: set<nat>, with: set<nat>, without': set<nat>,
                   with': set<nat>)
    requires forall q, k :: g.next(q, k) == Some(q || k.Target?)
    requires TargetKnown(g, offset, without, with)
    requires TargetTurn(g, offset, without, with, without', with')
    ensures TargetKnown(g, offset + 1, without', with')
  {
    hide Known, TargetTurn;
    var b, a := Flagged(without, with), Flagged(without', with');
    forall e: nat, q: bool
      ensures (e, q) in a <==> ((e, q) in b || exists p, k :: (offset, p) in b && Moves(g, offset, e, p, k, q))
    {
      TargetMoves(g, offset, without, with, without', with', e, q);
    }
    forall e: nat, q: bool
      ensures (e, q) in b <==> Known(g, offset, e, q)
    {
      assert (e, q) in b <==> if q then e in with else e in without;
      assert q == true || q == false;
    }
    ScanStep(g, offset, b, a);
    forall e: nat
      ensures (e in without' <==> Known(g, offset + 1, e, false)) && (e in with' <==> Known(g, offset + 1, e, true))
    {
      assert (e, false) in a <==> Known(g, offset + 1, e, false);
      assert (e, true) in a <==> Known(g, offset + 1, e, true);
    }
  }

  /** One turn of the loop below, at an offset. */
  method FollowTargets(token: string, neutral: seq<string>, neutralRule: NumberRule, targets: seq<string>,
                       targetRule: NumberRule, offset: nat, without: set<nat>, with: set<nat>)
    returns (without': set<nat>, with': set<nat>)
    requires "" !in targets && offset <= |token|
    ensures TargetTurn(TargetGrammar(token, neutral, neutralRule, targets, targetRule), offset, without, with, without',
              with')
  {
    hide PieceAt;
    without', with' := without, with;
    var neutralReachable, targetReachable := offset in without, offset in with;
    if neutralReachable || targetReachable {
      if neutralReachable {
        without' := AddPieces(neutral, neutralRule, token, offset, without');
      }
      if targetReachable {
        with' := AddPieces(neutral, neutralRule, token, offset, with');
      }
      with' := AddPieces(targets, targetRule, token, offset, with');
    }
    PiecesAreAhead(targets, targetRule, token, offset);
    PiecesAreNotBehind(neutral, neutralRule, token, offset);
  }

  /** The loop of `isCompactPopulationToken`, `isCompactNamedMarkerToken` and `isExactPopulationOnlyField`. */
  method IsNamedToken(token: string, neutral: seq<string>, neutralRule: NumberRule, targets: seq<string>,
                      targetRule: NumberRule)
    returns (r: bool)
    requires "" !in targets
    ensures r <==> NamesTarget(token, neutral, neutralRule, targets, targetRule)
  {
    hide Known, PieceAt, TargetTurn;
    ghost var g := TargetGrammar(token, neutral, neutralRule, targets, targetRule);
    var without: set<nat>, with: set<nat> := {0}, {};
    NothingReadYet(g);
    for offset := 0 to |token|
      invariant TargetKnown(g, offset, without, with)
    {
      ghost var before := (without, with);
      without, with := FollowTargets(token, neutral, neutralRule, targets, targetRule, offset, without, with);
      TargetScan(g, offset, before.0, before.1, without, with);
    }
    ReachableIsKnown(g, |token|, |token|, true);
    NamesTargetIsReachable(g, |token|);
    r := |token| in with;
  }

  lemma NothingReadYet(g: Grammar<Kind, bool>)
    requires g.start == false
    ensures TargetKnown(g, 0, {0}, {})
  {
  }
}
