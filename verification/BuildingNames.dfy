/**
 The two recognisers with several flags (scripts/ops/groups-inventory-classification.ts): staff
 evidence after a known prefix, and the name of a whole building.
 */
module BuildingNames {
  import opened Wrappers
  import opened Segmentation
  import opened CompactTokens

  // ----- the name of a whole building -----

  datatype NameKind = Alias | Workforce | Filler

  /** Whether a facility alias, and whether a workforce word, has been read. */
  datatype Seen = Seen(facility: bool, workforce: bool)

  /** `words` are the whole-building markers and the organisation's prefixes, `years` the academic-year aliases. */
  datatype NameRules = NameRules(words: seq<string>, workforce: set<string>, years: seq<string>)

  predicate WordAt(rules: NameRules, text: string, start: nat, end: nat, workforce: bool) {
    exists j :: 0 <= j < |rules.words| && StartsWith(text, start, rules.words[j]) && end == start + |rules.words[j]| &&
                (rules.words[j] in rules.workforce) == workforce
  }

  predicate NamePieceAt(rules: NameRules, text: string, aliases: seq<string>, start: nat, end: nat, k: NameKind) {
    match k
    case Alias => end in Ends(text, start, aliases)
    case Workforce => WordAt(rules, text, start, end, true)
    case Filler => WordAt(rules, text, start, end, false) || end in Ends(text, start, rules.years)
  }

  function Read(seen: Seen, k: NameKind): Option<Seen> {
    match k
    case Alias => if seen.facility then None else Some(seen.(facility := true))
    case Workforce => Some(seen.(workforce := true))
    case Filler => Some(seen)
  }

  function NameGrammar(rules: NameRules, text: string, aliases: seq<string>): Grammar<NameKind, Seen> {
    Grammar(Seen(false, false), (start: nat, end: nat, k) => NamePieceAt(rules, text, aliases, start, end, k), Read)
  }

  function AliasCount(pieces: seq<Piece<NameKind>>): nat {
    if pieces == [] then 0
    else AliasCount(pieces[..|pieces| - 1]) + if pieces[|pieces| - 1].kind.Alias? then 1 else 0
  }

  ghost predicate HasWorkforce(pieces: seq<Piece<NameKind>>) {
    exists i :: 0 <= i < |pieces| && pieces[i].kind.Workforce?
  }

  /** The text is words, years and exactly one facility alias, with a workforce word among them if asked for. */
  ghost predicate NamesBuilding(rules: NameRules, text: string, aliases: seq<string>, workforce: bool) {
    exists pieces :: IsCut(NameGrammar(rules, text, aliases), pieces) && EndOf(pieces) == |text| &&
                     AliasCount(pieces) == 1 && HasWorkforce(pieces) == workforce
  }

  lemma {:induction false} NameStates(g: Grammar<NameKind, Seen>, pieces: seq<Piece<NameKind>>)
    requires g.start == Seen(false, false) && forall q, k :: g.next(q, k) == Read(q, k)
    ensures StateAfter(g, pieces) ==
            if AliasCount(pieces) <= 1 then Some(Seen(AliasCount(pieces) == 1, HasWorkforce(pieces))) else None
  {
    if pieces != [] {
      var front := pieces[..|pieces| - 1];
      NameStates(g, front);
      assert HasWorkforce(front) ==> HasWorkforce(pieces) by {
        if i :| 0 <= i < |front| && front[i].kind.Workforce? {
          assert pieces[i].kind.Workforce?;
        }
      }
      if i :| 0 <= i < |pieces| && pieces[i].kind.Workforce? {
        assert i < |front| ==> front[i].kind.Workforce?;
      }
    }
  }

  lemma NamesBuildingIsReachable(rules: NameRules, text: string, aliases: seq<string>, workforce: bool)
    ensures NamesBuilding(rules, text, aliases, workforce) <==>
              Reachable(NameGrammar(rules, text, aliases), |text|, Seen(true, workforce))
  {
    hide IsCut, HasWorkforce, AliasCount;
    forall pieces: seq<Piece<NameKind>>
      ensures StateAfter(NameGrammar(rules, text, aliases), pieces) ==
              if AliasCount(pieces) <= 1 then Some(Seen(AliasCount(pieces) == 1, HasWorkforce(pieces))) else None
    {
      NameStates(NameGrammar(rules, text, aliases), pieces);
    }
  }

  datatype FieldState = FacilityField | FacilityWorkforceField | InvalidField

  ghost function StateOfField(rules: NameRules, text: string, aliases: seq<string>): FieldState {
    if NamesBuilding(rules, text, aliases, true) then FacilityWorkforceField
    else if NamesBuilding(rules, text, aliases, false) then FacilityField
    else InvalidField
  }

  const ALL_SEEN := [Seen(false, false), Seen(false, true), Seen(true, false), Seen(true, true)]

  /** Adds one state at every place where one of the texts, begun at `offset`, ends. */
  method AddStates(text: string, offset: nat, texts: seq<string>, s: Seen, states: set<(nat, Seen)>)
    returns (r: set<(nat, Seen)>)
    ensures forall e: nat, q :: (e, q) in r <==> ((e, q) in states || (q == s && e in Ends(text, offset, texts)))
  {
    r := states;
    for m := 0 to |texts|
      invariant forall e: nat, q :: (e, q) in r <==>
                  ((e, q) in states || (q == s && e in Ends(text, offset, texts[..m])))
    {
      EndsStep(text, offset, texts, m);
      if StartsWith(text, offset, texts[m]) {
        r := r + {(offset + |texts[m]|, s)};
      }
    }
    assert texts[..|texts|] == texts;
  }

  ghost predicate WordBefore(rules: NameRules, text: string, start: nat, end: nat, workforce: bool, m: nat) {
    exists j :: 0 <= j < m && j < |rules.words| && StartsWith(text, start, rules.words[j]) &&
      end == start + |rules.words[j]| &&
                (rules.words[j] in rules.workforce) == workforce
  }

  method AddWords(rules: NameRules, text: string, offset: nat, q: Seen, states: set<(nat, Seen)>)
    returns (r: set<(nat, Seen)>)
    ensures forall e: nat, s :: (e, s) in r <==>
              ((e, s) in states
               || (s == q.(workforce := true) && WordAt(rules, text, offset, e, true))
               || (s == q && WordAt(rules, text, offset, e, false)))
  {
    r := states;
    for m := 0 to |rules.words|
      invariant forall e: nat, s :: (e, s) in r <==>
                  ((e, s) in states
                   || (s == q.(workforce := true) && WordBefore(rules, text, offset, e, true, m))
                   || (s == q && WordBefore(rules, text, offset, e, false, m)))
    {
      var word := rules.words[m];
      if StartsWith(text, offset, word) {
        r := r + {(offset + |word|, Seen(q.facility, q.workforce || word in rules.workforce))};
      }
      forall e: nat, flag: bool
        ensures WordBefore(rules, text, offset, e, flag, m + 1) <==>
                  (WordBefore(rules, text, offset, e, flag, m) ||
                   (StartsWith(text, offset, word) && e == offset + |word| && (word in rules.workforce) == flag))
      {
      }
    }
  }

  /** What the loop does with one state at an offset. */
  method FollowName(rules: NameRules, text: string, aliases: seq<string>, offset: nat, q: Seen,
                    states: set<(nat, Seen)>)
    returns (r: set<(nat, Seen)>)
    requires "" !in aliases && "" !in rules.workforce && (offset, q) in states
    ensures Follows(NameGrammar(rules, text, aliases), offset, q, states, r)
  {
    hide Ends, WordAt;
    r := states;
    if !q.facility {
      r := AddStates(text, offset, aliases, q.(facility := true), r);
    }
    r := AddWords(rules, text, offset, q, r);
    r := AddStates(text, offset, rules.years, q, r);
    forall e: nat, s
      ensures (e, s) in r <==> ((e, s) in states ||
                exists k :: Moves(NameGrammar(rules, text, aliases), offset, e, q, k, s))
    {
      NameMoves(rules, text, aliases, offset, e, q, s);
    }
  }

  lemma NameMoves(rules: NameRules, text: string, aliases: seq<string>, offset: nat, e: nat, q: Seen, s: Seen)
    requires "" !in aliases && "" !in rules.workforce
    ensures ((e, s) == (offset, q) || exists k :: Moves(NameGrammar(rules, text, aliases), offset, e, q, k, s)) <==>
              || (e, s) == (offset, q)
              || (!q.facility && s == q.(facility := true) && e in Ends(text, offset, aliases))
              || (s == q.(workforce := true) && WordAt(rules, text, offset, e, true))
              || (s == q && (WordAt(rules, text, offset, e, false) || e in Ends(text, offset, rules.years)))
  {
    hide Ends, WordAt;
    var g := NameGrammar(rules, text, aliases);
    EndsMoveOn(rules, text, aliases, offset);
    if !q.facility && s == q.(facility := true) && e in Ends(text, offset, aliases) {
      assert Moves(g, offset, e, q, Alias, s);
    }
    if s == q.(workforce := true) && WordAt(rules, text, offset, e, true) {
      assert Moves(g, offset, e, q, Workforce, s);
    }
    if s == q && (WordAt(rules, text, offset, e, false) || e in Ends(text, offset, rules.years)) && e != offset {
      assert Moves(g, offset, e, q, Filler, s);
    }
  }

  lemma EndsMoveOn(rules: NameRules, text: string, aliases: seq<string>, offset: nat)
    requires "" !in aliases && "" !in rules.workforce
    ensures forall e :: e in Ends(text, offset, aliases) ==> offset < e
    ensures forall e :: e in Ends(text, offset, rules.years) ==> offset <= e
    ensures forall e :: WordAt(rules, text, offset, e, true) ==> offset < e
    ensures forall e :: WordAt(rules, text, offset, e, false) ==> offset <= e
  {
    assert forall j :: 0 <= j < |aliases| ==> aliases[j] in aliases;
  }

  /** `wholeBuildingFieldStateForAliases`, of the joined tokens. */
  method WholeBuildingFieldState(rules: NameRules, text: string, aliases: seq<string>) returns (r: FieldState)
    requires "" !in aliases && "" !in rules.workforce
    ensures r == StateOfField(rules, text, aliases)
  {
    hide Known, Follows, Followed, NamesBuilding;
    ghost var g := NameGrammar(rules, text, aliases);
    NamesBuildingIsReachable(rules, text, aliases, true);
    NamesBuildingIsReachable(rules, text, aliases, false);
    var states: set<(nat, Seen)> := {(0, Seen(false, false))};
    ScanBegins(g);
    for offset := 0 to |text|
      invariant ScanKnows(g, offset, states)
    {
      ghost var before := states;
      FollowedByNone(g, offset, ALL_SEEN, before);
      for i := 0 to |ALL_SEEN|
        invariant Followed(g, offset, ALL_SEEN, i, before, states)
      {
        ghost var here := states;
        if (offset, ALL_SEEN[i]) in states {
          states := FollowName(rules, text, aliases, offset, ALL_SEEN[i], states);
        }
        FollowedByOne(g, offset, ALL_SEEN, i, before, here, states);
      }
      AllSeenIsAll();
      FollowedByAll(g, offset, ALL_SEEN, before, states);
    }
    ReachableIsKnown(g, |text|, |text|, Seen(true, true));
    ReachableIsKnown(g, |text|, |text|, Seen(true, false));
    if (|text|, Seen(true, true)) in states {
      return FacilityWorkforceField;
    }
    r := if (|text|, Seen(true, false)) in states then FacilityField else InvalidField;
  }

  lemma AllSeenIsAll()
    ensures forall q :: q in ALL_SEEN
  {
    forall q: Seen
      ensures q in ALL_SEEN
    {
      assert ALL_SEEN[(if q.facility then 2 else 0) + if q.workforce then 1 else 0] == q;
    }
  }

  // ----- staff evidence after a known prefix -----

  datatype StaffKind = Prefix | Connector | Incidental | Staff

  /** Bit 1 and bit 2 of the source's state. */
  datatype Bits = Bits(prefix: bool, staff: bool)

  datatype StaffRules = StaffRules(
    prefixes: seq<string>, neutral: seq<string>, incidental: seq<string>, staff: seq<string>)

  predicate StaffPieceAt(rules: StaffRules, token: string, start: nat, end: nat, k: StaffKind) {
    match k
    case Prefix => PieceAt(rules.prefixes, NoNumber, token, start, end)
    case Connector => PieceAt(rules.neutral, NeutralNumber, token, start, end)
    case Incidental => PieceAt(rules.incidental, NoNumber, token, start, end)
    case Staff => PieceAt(rules.staff, NoNumber, token, start, end)
  }

  function ReadStaff(q: Bits, k: StaffKind): Option<Bits> {
    match k
    case Prefix => Some(q.(prefix := true))
    case Connector => Some(q)
    case Incidental => if q.prefix then Some(q) else None
    case Staff => Some(q.(staff := true))
  }

  function StaffGrammar(rules: StaffRules, token: string): Grammar<StaffKind, Bits> {
    Grammar(Bits(false, false), (start: nat, end: nat, k) => StaffPieceAt(rules, token, start, end, k), ReadStaff)
  }

  ghost predicate HasKind(pieces: seq<Piece<StaffKind>>, k: StaffKind) {
    exists i :: 0 <= i < |pieces| && pieces[i].kind == k
  }

  /** An incidental word counts as neutral only behind a known prefix. */
  ghost predicate IncidentalOnlyAfterPrefix(pieces: seq<Piece<StaffKind>>) {
    forall i :: 0 <= i < |pieces| && pieces[i].kind.Incidental? ==> HasKind(pieces[..i], Prefix)
  }

  /** The token is neutral pieces with a known prefix and a staff marker among them. */
  ghost predicate NamesStaff(rules: StaffRules, token: string) {
    exists pieces :: IsCut(StaffGrammar(rules, token), pieces) && EndOf(pieces) == |token| &&
                     IncidentalOnlyAfterPrefix(pieces) && HasKind(pieces, Prefix) && HasKind(pieces, Staff)
  }

  lemma KindsOfFront(pieces: seq<Piece<StaffKind>>, k: StaffKind)
    requires pieces != []
    ensures HasKind(pieces, k) <==> HasKind(pieces[..|pieces| - 1], k) || pieces[|pieces| - 1].kind == k
  {
    var front := pieces[..|pieces| - 1];
    if i :| 0 <= i < |front| && front[i].kind == k {
      assert pieces[i].kind == k;
    }
    if i :| 0 <= i < |pieces| && pieces[i].kind == k {
      assert i < |front| ==> front[i].kind == k;
    }
  }

  lemma IncidentalOfFront(pieces: seq<Piece<StaffKind>>)
    requires pieces != []
    ensures IncidentalOnlyAfterPrefix(pieces) <==>
              IncidentalOnlyAfterPrefix(pieces[..|pieces| - 1]) &&
              (pieces[|pieces| - 1].kind.Incidental? ==> HasKind(pieces[..|pieces| - 1], Prefix))
  {
    hide HasKind;
    var front := pieces[..|pieces| - 1];
    assert forall i :: 0 <= i < |front| ==> front[..i] == pieces[..i] && front[i] == pieces[i];
  }

  lemma {:induction false} StaffStates(g: Grammar<StaffKind, Bits>, pieces: seq<Piece<StaffKind>>)
    requires g.start == Bits(false, false) && forall q, k :: g.next(q, k) == ReadStaff(q, k)
    ensures StateAfter(g, pieces) ==
            if IncidentalOnlyAfterPrefix(pieces) then Some(Bits(HasKind(pieces, Prefix), HasKind(pieces, Staff)))
            else None
  {
    if pieces != [] {
      hide HasKind, IncidentalOnlyAfterPrefix;
      StaffStates(g, pieces[..|pieces| - 1]);
      KindsOfFront(pieces, Prefix);
      KindsOfFront(pieces, Staff);
      IncidentalOfFront(pieces);
    }
  }

  lemma NamesStaffIsReachable(rules: StaffRules, token: string)
    ensures NamesStaff(rules, token) <==> Reachable(StaffGrammar(rules, token), |token|, Bits(true, true))
  {
    hide IsCut, HasKind, IncidentalOnlyAfterPrefix;
    forall pieces: seq<Piece<StaffKind>>
      ensures StateAfter(StaffGrammar(rules, token), pieces) ==
              if IncidentalOnlyAfterPrefix(pieces) then Some(Bits(HasKind(pieces, Prefix), HasKind(pieces, Staff)))
              else None
    {
      StaffStates(StaffGrammar(rules, token), pieces);
    }
  }

  const ALL_BITS := [Bits(false, false), Bits(false, true), Bits(true, false), Bits(true, true)]

  lemma AllBitsIsAll()
    ensures forall q :: q in ALL_BITS
  {
    forall q: Bits
      ensures q in ALL_BITS
    {
      assert ALL_BITS[(if q.prefix then 2 else 0) + if q.staff then 1 else 0] == q;
    }
  }

  /** Adds a state at the end of every non-empty piece that begins at `offset`. */
  method AddBits(texts: seq<string>, rule: NumberRule, token: string, offset: nat, q: Bits, states: set<(nat, Bits)>)
    returns (r: set<(nat, Bits)>)
    requires offset <= |token|
    ensures forall e: nat, s :: (e, s) in r <==>
              ((e, s) in states || (s == q && offset < e && PieceAt(texts, rule, token, offset, e)))
  {
    var ends := AddPieces(texts, rule, token, offset, {});
    r := states + set e | e in ends && offset < e :: (e, q);
  }

  method FollowStaff(rules: StaffRules, token: string, offset: nat, q: Bits, states: set<(nat, Bits)>)
    returns (r: set<(nat, Bits)>)
    requires offset <= |token|
    ensures Follows(StaffGrammar(rules, token), offset, q, states, r)
  {
    hide PieceAt;
    r := AddBits(rules.prefixes, NoNumber, token, offset, q.(prefix := true), states);
    r := AddBits(rules.neutral, NeutralNumber, token, offset, q, r);
    if q.prefix {
      r := AddBits(rules.incidental, NoNumber, token, offset, q, r);
    }
    r := AddBits(rules.staff, NoNumber, token, offset, q.(staff := true), r);
    forall e: nat, s
      ensures (e, s) in r <==> ((e, s) in states || exists k :: Moves(StaffGrammar(rules, token), offset, e, q, k, s))
    {
      StaffMoves(rules, token, offset, e, q, s);
    }
  }

  lemma StaffMoves(rules: StaffRules, token: string, offset: nat, e: nat, q: Bits, s: Bits)
    ensures (exists k :: Moves(StaffGrammar(rules, token), offset, e, q, k, s)) <==>
              (offset < e
               && (|| (s == q.(prefix := true) && PieceAt(rules.prefixes, NoNumber, token, offset, e))
                   || (s == q && PieceAt(rules.neutral, NeutralNumber, token, offset, e))
                   || (q.prefix && s == q && PieceAt(rules.incidental, NoNumber, token, offset, e))
                   || (s == q.(staff := true) && PieceAt(rules.staff, NoNumber, token, offset, e))))
  {
    hide PieceAt;
    var g := StaffGrammar(rules, token);
    if offset < e {
      assert s == q.(prefix := true) && PieceAt(rules.prefixes, NoNumber, token, offset, e) ==>
               Moves(g, offset, e, q, Prefix, s);
      assert s == q && PieceAt(rules.neutral, NeutralNumber, token, offset, e) ==> Moves(g, offset, e, q, Connector, s);
      assert q.prefix && s == q && PieceAt(rules.incidental, NoNumber, token, offset, e) ==>
               Moves(g, offset, e, q, Incidental, s);
      assert s == q.(staff := true) && PieceAt(rules.staff, NoNumber, token, offset, e) ==>
               Moves(g, offset, e, q, Staff, s);
    }
  }

  /** `isCompactStaffEvidenceToken`. */
  method IsStaffToken(rules: StaffRules, token: string) returns (r: bool)
    ensures r <==> NamesStaff(rules, token)
  {
    hide Known, Follows, Followed, NamesStaff;
    ghost var g := StaffGrammar(rules, token);
    NamesStaffIsReachable(rules, token);
    var states: set<(nat, Bits)> := {(0, Bits(false, false))};
    ScanBegins(g);
    for offset := 0 to |token|
      invariant ScanKnows(g, offset, states)
    {
      ghost var before := states;
      FollowedByNone(g, offset, ALL_BITS, before);
      for i := 0 to |ALL_BITS|
        invariant Followed(g, offset, ALL_BITS, i, before, states)
      {
        ghost var here := states;
        if (offset, ALL_BITS[i]) in states {
          states := FollowStaff(rules, token, offset, ALL_BITS[i], states);
        }
        FollowedByOne(g, offset, ALL_BITS, i, before, here, states);
      }
      AllBitsIsAll();
      FollowedByAll(g, offset, ALL_BITS, before, states);
    }
    ReachableIsKnown(g, |token|, |token|, Bits(true, true));
    r := (|token|, Bits(true, true)) in states;
  }
}
