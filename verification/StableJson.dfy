/**
 The canonical JSON text under every fingerprint (`stableJson` in workers/shared/attempt.ts and
 workers/push/receipt-lifecycle.ts). Texts are UTF-16 code units, as in ECMAScript; a number is the
 canonical text `JSON.stringify` gives it.
 */
module StableJson {
  import opened TopRanked
  import opened Utf16

  datatype Json =
    | Null
    | Bool(value: bool)
    | Number(text: Text)
    | String(units: Text)
    | Array(items: seq<Json>)
    | Object(members: seq<Member>)

  datatype Member = Member(key: Text, value: Json)

  // ----- strings: section 7 of RFC 8259 -----

  const QUOTE: Unit := 0x22
  const BACKSLASH: Unit := 0x5C

  predicate IsHigh(u: Unit) { 0xD800 <= u <= 0xDBFF }

  predicate IsLow(u: Unit) { 0xDC00 <= u <= 0xDFFF }

  /** A lower-case hexadecimal digit. */
  function HexDigit(n: int): Unit
    requires 0 <= n < 16
  {
    if n < 10 then (0x30 + n) as Unit else (0x61 + n - 10) as Unit
  }

  function UnicodeEscape(u: Unit): Text {
    var n := u as int;
    [BACKSLASH, 0x75, HexDigit(n / 4096), HexDigit(n / 256 % 16), HexDigit(n / 16 % 16), HexDigit(n % 16)]
  }

  /** The escape of a unit that is no half of a surrogate pair. */
  function EscapeUnit(u: Unit): Text {
    if u == QUOTE || u == BACKSLASH then [BACKSLASH, u]
    else if u == 0x08 then [BACKSLASH, 0x62]
    else if u == 0x09 then [BACKSLASH, 0x74]
    else if u == 0x0A then [BACKSLASH, 0x6E]
    else if u == 0x0C then [BACKSLASH, 0x66]
    else if u == 0x0D then [BACKSLASH, 0x72]
    else if u < 0x20 || IsHigh(u) || IsLow(u) then UnicodeEscape(u)
    else [u]
  }

  predicate StartsWithPair(s: Text) { |s| >= 2 && IsHigh(s[0]) && IsLow(s[1]) }

  /** A surrogate pair stands for itself; a lone surrogate is escaped. */
  function Escape(s: Text): Text {
    if s == [] then []
    else if StartsWithPair(s) then s[..2] + Escape(s[2..])
    else EscapeUnit(s[0]) + Escape(s[1..])
  }

  function Quoted(s: Text): Text { [QUOTE] + Escape(s) + [QUOTE] }

  // ----- the text of a value -----

  predicate KeyBefore(a: Text, b: Text) {
    if b == [] then false
    else if a == [] then true
    else a[0] < b[0] || (a[0] == b[0] && KeyBefore(a[1..], b[1..]))
  }

  /** A key and the text of its value. */
  datatype Pair = Pair(key: Text, text: Text)

  predicate PairBefore(a: Pair, b: Pair) { KeyBefore(a.key, b.key) }

  /** `join(',')`. */
  function Commas(texts: seq<Text>): Text {
    if texts == [] then []
    else if |texts| == 1 then texts[0]
    else texts[0] + [0x2C] + Commas(texts[1..])
  }

  function PairTexts(pairs: seq<Pair>): seq<Text> {
    if pairs == [] then [] else [Quoted(pairs[0].key) + [0x3A] + pairs[0].text] + PairTexts(pairs[1..])
  }

  /** `stableJson`. */
  function Stable(v: Json): Text
    decreases v
  {
    match v
    case Null => Ascii("null")
    case Bool(b) => if b then Ascii("true") else Ascii("false")
    case Number(text) => text
    case String(units) => Quoted(units)
    case Array(items) => [0x5B] + Commas(Texts(items)) + [0x5D]
    case Object(members) => [0x7B] + Commas(PairTexts(Ranked(Pairs(members), PairBefore))) + [0x7D]
  }

  function Texts(items: seq<Json>): seq<Text>
    decreases items
  {
    if items == [] then [] else [Stable(items[0])] + Texts(items[1..])
  }

  function Pairs(members: seq<Member>): seq<Pair>
    decreases members
  {
    if members == [] then [] else [Pair(members[0].key, Stable(members[0].value))] + Pairs(members[1..])
  }

  // ----- which values there are, and when two are the same -----

  predicate IsNumberUnit(u: Unit) { 0x30 <= u <= 0x39 || u in {0x2B, 0x2D, 0x2E, 0x45, 0x65} }

  predicate IsNumberText(t: Text) { t != [] && forall i :: 0 <= i < |t| ==> IsNumberUnit(t[i]) }

  /** What `JSON.parse` or a schema can have produced: numbers are number texts, keys differ. */
  predicate Valid(v: Json)
    decreases v
  {
    match v
    case Number(text) => IsNumberText(text)
    case Array(items) => forall i :: 0 <= i < |items| ==> Valid(items[i])
    case Object(members) =>
      && (forall i :: 0 <= i < |members| ==> Valid(members[i].value))
      && (forall i, j :: 0 <= i < j < |members| ==> members[i].key != members[j].key)
    case _ => true
  }

  /** Equal, but for the order of the keys of objects. */
  predicate Same(v: Json, w: Json)
    decreases v, 0
  {
    match v
    case Array(items) =>
      && w.Array? && |items| == |w.items|
      && forall i :: 0 <= i < |items| ==> Same(items[i], w.items[i])
    case Object(members) =>
      && w.Object?
      && (forall i :: 0 <= i < |members| ==> HasMatch(members[i], w.members))
      && (forall j :: 0 <= j < |w.members| ==> IsMatched(members, w.members[j]))
    case _ => v == w
  }

  predicate Matches(m: Member, n: Member)
    decreases m, 0
  {
    m.key == n.key && Same(m.value, n.value)
  }

  predicate HasMatch(m: Member, others: seq<Member>)
    decreases m, 1
  {
    exists j :: 0 <= j < |others| && Matches(m, others[j])
  }

  predicate IsMatched(members: seq<Member>, n: Member)
    decreases members, 0
  {
    exists i :: 0 <= i < |members| && Matches(members[i], n)
  }

  // ----- strings decode uniquely -----

  lemma HexOfUnit(u: Unit)
    ensures var n := u as int;
            n == 4096 * (n / 4096) + 256 * (n / 256 % 16) + 16 * (n / 16 % 16) + n % 16 && n / 4096 < 16
  {
  }

  lemma UnicodeEscapeUnique(u: Unit, w: Unit)
    requires UnicodeEscape(u) == UnicodeEscape(w)
    ensures u == w
  {
    var a, b := UnicodeEscape(u), UnicodeEscape(w);
    assert a[2] == b[2] && a[3] == b[3] && a[4] == b[4] && a[5] == b[5];
    HexOfUnit(u);
    HexOfUnit(w);
  }

  /** How many units an escape has shows in its second unit. */
  lemma EscapeUnitUnique(u: Unit, w: Unit, x: Text, y: Text)
    requires EscapeUnit(u) + x == EscapeUnit(w) + y
    ensures u == w && x == y
  {
    var a, b := EscapeUnit(u), EscapeUnit(w);
    var all, other := a + x, b + y;
    assert all[0] == a[0] && other[0] == b[0];
    assert |a| > 1 ==> all[1] == a[1];
    assert |b| > 1 ==> other[1] == b[1];
    assert |a| == |b|;
    assert a == all[..|a|] && b == other[..|b|];
    assert x == all[|a|..] && y == other[|b|..];
    if |a| == 6 {
      UnicodeEscapeUnique(u, w);
    }
  }

  /** How many units the first escape of a text stands for, and the escape. */
  function HeadLength(s: Text): nat { if StartsWithPair(s) then 2 else 1 }

  function Head(s: Text): Text
    requires s != []
  {
    if StartsWithPair(s) then s[..2] else EscapeUnit(s[0])
  }

  lemma EscapeSplits(s: Text, x: Text)
    requires s != []
    ensures Escape(s) + [QUOTE] + x == Head(s) + (Escape(s[HeadLength(s)..]) + [QUOTE] + x)
    ensures (Escape(s) + [QUOTE] + x)[0] != QUOTE
  {
    assert Head(s) != [] && Head(s)[0] != QUOTE;
    assert Escape(s) == Head(s) + Escape(s[HeadLength(s)..]);
  }

  lemma HeadUnique(s: Text, t: Text, a: Text, b: Text)
    requires s != [] && t != [] && Head(s) + a == Head(t) + b
    ensures HeadLength(s) == HeadLength(t) && s[..HeadLength(s)] == t[..HeadLength(t)] && a == b
  {
    var all, other := Head(s) + a, Head(t) + b;
    assert all[0] == Head(s)[0] && other[0] == Head(t)[0];
    assert IsHigh(Head(s)[0]) <==> StartsWithPair(s);
    assert IsHigh(Head(t)[0]) <==> StartsWithPair(t);
    if StartsWithPair(s) {
      assert s[..2] == all[..2] && t[..2] == other[..2] && a == all[2..] && b == other[2..];
    } else {
      EscapeUnitUnique(s[0], t[0], a, b);
    }
  }

  lemma {:induction false} EscapeUnique(s: Text, t: Text, x: Text, y: Text)
    requires Escape(s) + [QUOTE] + x == Escape(t) + [QUOTE] + y
    ensures s == t && x == y
    decreases |s|
  {
    var all := Escape(s) + [QUOTE] + x;
    if s == [] || t == [] {
      EmptyEscape(s, t, x, y);
    } else {
      EscapeSplits(s, x);
      EscapeSplits(t, y);
      hide Escape, Head;
      var n := HeadLength(s);
      HeadUnique(s, t, Escape(s[n..]) + [QUOTE] + x, Escape(t[HeadLength(t)..]) + [QUOTE] + y);
      EscapeUnique(s[n..], t[n..], x, y);
      assert s == s[..n] + s[n..] && t == t[..n] + t[n..];
    }
  }

  lemma EmptyEscape(s: Text, t: Text, x: Text, y: Text)
    requires s == [] || t == []
    requires Escape(s) + [QUOTE] + x == Escape(t) + [QUOTE] + y
    ensures s == t && x == y
  {
    var all, other := Escape(s) + [QUOTE] + x, Escape(t) + [QUOTE] + y;
    assert s == [] ==> all[0] == QUOTE && x == all[1..];
    assert t == [] ==> other[0] == QUOTE && y == other[1..];
    if s != [] {
      EscapeSplits(s, x);
    }
    if t != [] {
      EscapeSplits(t, y);
    }
  }

  lemma QuotedUnique(s: Text, t: Text, x: Text, y: Text)
    requires Quoted(s) + x == Quoted(t) + y
    ensures s == t && x == y
  {
    var a, b := Escape(s) + [QUOTE] + x, Escape(t) + [QUOTE] + y;
    assert Quoted(s) + x == [QUOTE] + a && Quoted(t) + y == [QUOTE] + b;
    assert a == (Quoted(s) + x)[1..] && b == (Quoted(t) + y)[1..];
    EscapeUnique(s, t, x, y);
  }

  // ----- values decode uniquely -----

  const COMMA: Unit := 0x2C
  const COLON: Unit := 0x3A

  /** What may follow a value: nothing, a comma or a closing bracket. */
  predicate IsDelimited(x: Text) { x == [] || x[0] in {COMMA, 0x5D, 0x7D} }

  lemma NumberUnique(a: Text, b: Text, x: Text, y: Text)
    requires IsNumberText(a) && IsNumberText(b) && IsDelimited(x) && IsDelimited(y) && a + x == b + y
    ensures a == b && x == y
  {
    var all, other := a + x, b + y;
    assert forall i :: 0 <= i < |a| ==> all[i] == a[i];
    assert forall i :: 0 <= i < |b| ==> other[i] == b[i];
    assert x != [] ==> all[|a|] == x[0];
    assert y != [] ==> other[|b|] == y[0];
    assert |a| == |b|;
    assert a == all[..|a|] && b == other[..|b|] && x == all[|a|..] && y == other[|b|..];
  }

  /** The first unit of a value's text tells what kind of value it is. */
  function FirstUnit(v: Json): Unit {
    match v
    case Null => 0x6E
    case Bool(b) => if b then 0x74 else 0x66
    case Number(text) => if text == [] then 0 else text[0]
    case String(_) => QUOTE
    case Array(_) => 0x5B
    case Object(_) => 0x7B
  }

  lemma StartsWithFirstUnit(v: Json)
    requires Valid(v)
    ensures Stable(v) != [] && Stable(v)[0] == FirstUnit(v)
    ensures FirstUnit(v) !in {COMMA, COLON, 0x5D, 0x7D}
  {
    assert Ascii("null")[0] == 0x6E && Ascii("true")[0] == 0x74 && Ascii("false")[0] == 0x66;
    hide Commas, PairTexts, Texts, Pairs, Ranked;
  }

  /** What stands behind the first of some comma-separated texts. */
  function Behind(texts: seq<Text>, close: Unit, x: Text): Text
    requires texts != []
  {
    if |texts| == 1 then [close] + x else [COMMA] + (Commas(texts[1..]) + [close] + x)
  }

  lemma CommasSplit(texts: seq<Text>, close: Unit, x: Text)
    requires texts != []
    ensures Commas(texts) + [close] + x == texts[0] + Behind(texts, close, x)
  {
  }

  lemma BehindUnique(a: seq<Text>, b: seq<Text>, close: Unit, x: Text, y: Text)
    requires a != [] && b != [] && close != COMMA && Behind(a, close, x) == Behind(b, close, y)
    ensures |a| == 1 <==> |b| == 1
    ensures |a| == 1 ==> x == y
    ensures |a| > 1 ==> Commas(a[1..]) + [close] + x == Commas(b[1..]) + [close] + y
  {
    hide Commas;
    var p, q := Behind(a, close, x), Behind(b, close, y);
    assert p[0] == q[0];
    if |a| == 1 {
      assert x == p[1..] && y == q[1..];
    } else {
      assert Commas(a[1..]) + [close] + x == p[1..] && Commas(b[1..]) + [close] + y == q[1..];
    }
  }

  lemma {:induction false} TextsAre(items: seq<Json>)
    ensures |Texts(items)| == |items|
    ensures items != [] ==> Texts(items)[0] == Stable(items[0]) && Texts(items)[1..] == Texts(items[1..])
    ensures forall i :: 0 <= i < |items| ==> Texts(items)[i] == Stable(items[i])
  {
    if items != [] {
      TextsAre(items[1..]);
    }
  }

  lemma {:induction false} PairTextsAre(pairs: seq<Pair>)
    ensures |PairTexts(pairs)| == |pairs|
    ensures pairs != [] ==> PairTexts(pairs)[1..] == PairTexts(pairs[1..])
    ensures pairs != [] ==> PairTexts(pairs)[0] == Quoted(pairs[0].key) + [COLON] + pairs[0].text
  {
    if pairs != [] {
      PairTextsAre(pairs[1..]);
    }
  }

  lemma {:induction false} PairsAre(members: seq<Member>)
    ensures |Pairs(members)| == |members|
    ensures forall i :: 0 <= i < |members| ==> Pairs(members)[i] == Pair(members[i].key, Stable(members[i].value))
  {
    hide Stable;
    if members != [] {
      PairsAre(members[1..]);
    }
  }

  /** The pairs are pairs of an object's members. */
  ghost predicate ArePairsOf(pairs: seq<Pair>, members: seq<Member>) {
    forall k :: 0 <= k < |pairs| ==>
      exists i :: 0 <= i < |members| && pairs[k] == Pair(members[i].key, Stable(members[i].value))
  }

  /** The members behind two pairs have the same key and the same value. */
  ghost predicate SamePair(p: Pair, members: seq<Member>, q: Pair, others: seq<Member>) {
    exists i, j :: 0 <= i < |members| && 0 <= j < |others| &&
      p.key == members[i].key && q.key == others[j].key && Matches(members[i], others[j])
  }

  /**
   Two texts of values that go on in any way at all are the texts of the same value: nothing is read
   in two ways.
   */
  lemma {:induction false} StableUnique(v: Json, w: Json, x: Text, y: Text)
    requires Valid(v) && Valid(w) && IsDelimited(x) && IsDelimited(y) && Stable(v) + x == Stable(w) + y
    ensures Same(v, w) && x == y
    decreases v
  {
    StartsWithFirstUnit(v);
    StartsWithFirstUnit(w);
    assert (Stable(v) + x)[0] == FirstUnit(v) && (Stable(w) + y)[0] == FirstUnit(w);
    match v
    case Null => ConstantUnique(v, w, x, y);
    case Bool(_) => ConstantUnique(v, w, x, y);
    case Number(text) => NumberUnique(text, w.text, x, y);
    case String(units) => QuotedUnique(units, w.units, x, y);
    case Array(items) =>
      Unbracket(0x5B, Commas(Texts(items)), 0x5D, x, Commas(Texts(w.items)), y);
      ItemsUnique(items, w.items, x, y);
    case Object(members) =>
      var ps, qs := Ranked(Pairs(members), PairBefore), Ranked(Pairs(w.members), PairBefore);
      Unbracket(0x7B, Commas(PairTexts(ps)), 0x7D, x, Commas(PairTexts(qs)), y);
      RankedPairsOf(members);
      RankedPairsOf(w.members);
      PairsUnique(members, ps, w.members, qs, x, y);
      SameMembersOf(members, ps, w.members, qs);
  }

  lemma ConstantUnique(v: Json, w: Json, x: Text, y: Text)
    requires (v.Null? || v.Bool?) && v == w && Stable(v) + x == Stable(w) + y
    ensures x == y
  {
    assert x == (Stable(v) + x)[|Stable(v)|..] && y == (Stable(w) + y)[|Stable(w)|..];
  }

  lemma Unbracket(open: Unit, a: Text, close: Unit, x: Text, b: Text, y: Text)
    requires [open] + a + [close] + x == [open] + b + [close] + y
    ensures a + [close] + x == b + [close] + y
  {
    assert a + [close] + x == ([open] + a + [close] + x)[1..];
    assert b + [close] + y == ([open] + b + [close] + y)[1..];
  }

  lemma {:induction false} ItemsUnique(xs: seq<Json>, ys: seq<Json>, x: Text, y: Text)
    requires (forall i :: 0 <= i < |xs| ==> Valid(xs[i])) && (forall i :: 0 <= i < |ys| ==> Valid(ys[i]))
    requires Commas(Texts(xs)) + [0x5D] + x == Commas(Texts(ys)) + [0x5D] + y
    ensures |xs| == |ys| && (forall i :: 0 <= i < |xs| ==> Same(xs[i], ys[i])) && x == y
    decreases xs
  {
    hide Stable, Same, Commas, Valid;
    TextsAre(xs);
    TextsAre(ys);
    if xs == [] || ys == [] {
      NoItems(xs, ys, x, y);
    } else {
      CommasSplit(Texts(xs), 0x5D, x);
      CommasSplit(Texts(ys), 0x5D, y);
      StableUnique(xs[0], ys[0], Behind(Texts(xs), 0x5D, x), Behind(Texts(ys), 0x5D, y));
      BehindUnique(Texts(xs), Texts(ys), 0x5D, x, y);
      if |xs| > 1 {
        ItemsUnique(xs[1..], ys[1..], x, y);
        assert forall i :: 1 <= i < |xs| ==> xs[i] == xs[1..][i - 1] && ys[i] == ys[1..][i - 1];
      }
    }
  }

  lemma NoItems(xs: seq<Json>, ys: seq<Json>, x: Text, y: Text)
    requires xs == [] || ys == []
    requires (forall i :: 0 <= i < |xs| ==> Valid(xs[i])) && (forall i :: 0 <= i < |ys| ==> Valid(ys[i]))
    requires Commas(Texts(xs)) + [0x5D] + x == Commas(Texts(ys)) + [0x5D] + y
    ensures xs == [] && ys == [] && x == y
  {
    ItemsStart(xs, x);
    ItemsStart(ys, y);
    assert xs == [] && ys == [] ==>
             x == (Commas(Texts(xs)) + [0x5D] + x)[1..] && y == (Commas(Texts(ys)) + [0x5D] + y)[1..];
  }

  lemma ItemsStart(xs: seq<Json>, x: Text)
    requires forall i :: 0 <= i < |xs| ==> Valid(xs[i])
    ensures (Commas(Texts(xs)) + [0x5D] + x)[0] == 0x5D <==> xs == []
  {
    hide Stable, Valid;
    if xs != [] {
      TextsAre(xs);
      CommasSplit(Texts(xs), 0x5D, x);
      StartsWithFirstUnit(xs[0]);
    }
  }

  ghost predicate DistinctKeys(members: seq<Member>) {
    forall i, j :: 0 <= i < j < |members| ==> members[i].key != members[j].key
  }

  lemma {:induction false} RankedPairsOf(members: seq<Member>)
    ensures ArePairsOf(Ranked(Pairs(members), PairBefore), members)
    ensures forall i :: 0 <= i < |members| ==>
              Pair(members[i].key, Stable(members[i].value)) in Ranked(Pairs(members), PairBefore)
  {
    hide Stable, Ranked, Pairs;
    PairsAre(members);
    RankedKeepsAll(Pairs(members), PairBefore);
    var all, ps := Pairs(members), Ranked(Pairs(members), PairBefore);
    forall k | 0 <= k < |ps|
      ensures exists i :: 0 <= i < |members| && ps[k] == Pair(members[i].key, Stable(members[i].value))
    {
      assert ps[k] in all;
      var i :| 0 <= i < |all| && all[i] == ps[k];
      assert ps[k] == Pair(members[i].key, Stable(members[i].value));
    }
    forall i | 0 <= i < |members|
      ensures Pair(members[i].key, Stable(members[i].value)) in ps
    {
      assert all[i] in all;
    }
  }

  lemma PairSplit(ps: seq<Pair>, x: Text)
    requires ps != []
    ensures Commas(PairTexts(ps)) + [0x7D] + x ==
              Quoted(ps[0].key) + ([COLON] + (ps[0].text + Behind(PairTexts(ps), 0x7D, x)))
    ensures IsDelimited(Behind(PairTexts(ps), 0x7D, x))
  {
    hide Commas, Quoted;
    PairTextsAre(ps);
    CommasSplit(PairTexts(ps), 0x7D, x);
  }

  lemma {:induction false} PairsUnique(members: seq<Member>, ps: seq<Pair>, others: seq<Member>, qs: seq<Pair>, x: Text,
                                       y: Text)
    requires forall i :: 0 <= i < |members| ==> Valid(members[i].value)
    requires forall i :: 0 <= i < |others| ==> Valid(others[i].value)
    requires ArePairsOf(ps, members) && ArePairsOf(qs, others)
    requires Commas(PairTexts(ps)) + [0x7D] + x == Commas(PairTexts(qs)) + [0x7D] + y
    ensures |ps| == |qs| && (forall k :: 0 <= k < |ps| ==> SamePair(ps[k], members, qs[k], others)) && x == y
    decreases members, |ps|
  {
    hide Stable, Commas, Valid, Quoted, IsDelimited, Behind;
    if ps == [] || qs == [] {
      NoPairs(ps, qs, x, y);
    } else {
      PairSplit(ps, x);
      PairSplit(qs, y);
      var a, b := Behind(PairTexts(ps), 0x7D, x), Behind(PairTexts(qs), 0x7D, y);
      QuotedUnique(ps[0].key, qs[0].key, [COLON] + (ps[0].text + a), [COLON] + (qs[0].text + b));
      assert ps[0].text + a == ([COLON] + (ps[0].text + a))[1..] && qs[0].text + b == ([COLON] + (qs[0].text + b))[1..];
      var i :| 0 <= i < |members| && ps[0] == Pair(members[i].key, Stable(members[i].value));
      var j :| 0 <= j < |others| && qs[0] == Pair(others[j].key, Stable(others[j].value));
      StableUnique(members[i].value, others[j].value, a, b);
      assert Matches(members[i], others[j]) && SamePair(ps[0], members, qs[0], others);
      hide Same;
      PairTextsAre(ps);
      PairTextsAre(qs);
      BehindUnique(PairTexts(ps), PairTexts(qs), 0x7D, x, y);
      if |ps| > 1 {
        PairsUnique(members, ps[1..], others, qs[1..], x, y);
        assert forall k :: 1 <= k < |ps| ==> ps[k] == ps[1..][k - 1] && qs[k] == qs[1..][k - 1];
      }
    }
  }

  lemma NoPairs(ps: seq<Pair>, qs: seq<Pair>, x: Text, y: Text)
    requires ps == [] || qs == []
    requires Commas(PairTexts(ps)) + [0x7D] + x == Commas(PairTexts(qs)) + [0x7D] + y
    ensures ps == [] && qs == [] && x == y
  {
    PairsStart(ps, x);
    PairsStart(qs, y);
    assert ps == [] && qs == [] ==>
             x == (Commas(PairTexts(ps)) + [0x7D] + x)[1..] && y == (Commas(PairTexts(qs)) + [0x7D] + y)[1..];
  }

  lemma PairsStart(ps: seq<Pair>, x: Text)
    ensures (Commas(PairTexts(ps)) + [0x7D] + x)[0] == 0x7D <==> ps == []
  {
    if ps != [] {
      PairSplit(ps, x);
      assert Quoted(ps[0].key)[0] == QUOTE;
    }
  }

  lemma {:induction false} SameMembersOf(members: seq<Member>, ps: seq<Pair>, others: seq<Member>, qs: seq<Pair>)
    requires DistinctKeys(members) && DistinctKeys(others) && |ps| == |qs|
    requires forall k :: 0 <= k < |ps| ==> SamePair(ps[k], members, qs[k], others)
    requires forall i :: 0 <= i < |members| ==> Pair(members[i].key, Stable(members[i].value)) in ps
    requires forall j :: 0 <= j < |others| ==> Pair(others[j].key, Stable(others[j].value)) in qs
    ensures Same(Object(members), Object(others))
  {
    hide Stable, Matches, SamePair, HasMatch, IsMatched, DistinctKeys;
    forall i | 0 <= i < |members|
      ensures HasMatch(members[i], others)
    {
      var p := Pair(members[i].key, Stable(members[i].value));
      assert p in ps;
      var k :| 0 <= k < |ps| && ps[k] == p;
      MatchOfMember(members, ps[k], others, qs[k], i);
    }
    forall j | 0 <= j < |others|
      ensures IsMatched(members, others[j])
    {
      var q := Pair(others[j].key, Stable(others[j].value));
      assert q in qs;
      var k :| 0 <= k < |qs| && qs[k] == q;
      MatchOfOther(members, ps[k], others, qs[k], j);
    }
  }

  lemma {:induction false} MatchOfMember(members: seq<Member>, p: Pair, others: seq<Member>, q: Pair, i: nat)
    requires DistinctKeys(members) && i < |members| && members[i].key == p.key && SamePair(p, members, q, others)
    ensures HasMatch(members[i], others)
  {
    hide Matches;
    var i', j :| 0 <= i' < |members| && 0 <= j < |others| &&
      p.key == members[i'].key && q.key == others[j].key && Matches(members[i'], others[j]);
    assert i' == i;
  }

  lemma {:induction false} MatchOfOther(members: seq<Member>, p: Pair, others: seq<Member>, q: Pair, j: nat)
    requires DistinctKeys(others) && j < |others| && others[j].key == q.key && SamePair(p, members, q, others)
    ensures IsMatched(members, others[j])
  {
    hide Matches;
    var i, j' :| 0 <= i < |members| && 0 <= j' < |others| &&
      p.key == members[i].key && q.key == others[j'].key && Matches(members[i], others[j']);
    assert j' == j;
  }

  // ----- the same value has one text -----

  lemma {:induction false} KeyOrder(a: Text, b: Text, c: Text)
    ensures KeyBefore(a, b) ==> !KeyBefore(b, a)
    ensures !KeyBefore(a, b) && !KeyBefore(b, a) ==> a == b
    ensures !KeyBefore(a, b) && !KeyBefore(b, c) ==> !KeyBefore(a, c)
    decreases |a| + |b| + |c|
  {
    if a != [] && b != [] {
      KeyOrder(a[1..], b[1..], if c == [] then c else c[1..]);
      assert a[1..] == b[1..] && a[0] == b[0] ==> a == b;
    }
  }

  lemma PairBeforeIsOrder()
    ensures IsOrder(PairBefore)
  {
    forall a: Pair, b: Pair, c: Pair
      ensures PairBefore(a, b) ==> !PairBefore(b, a)
      ensures !PairBefore(a, b) && !PairBefore(b, c) ==> !PairBefore(a, c)
    {
      KeyOrder(a.key, b.key, c.key);
    }
  }

  /** The same value has the same text, in whatever order its keys stand. */
  lemma {:induction false} SameHasOneText(v: Json, w: Json)
    requires Valid(v) && Valid(w) && Same(v, w)
    ensures Stable(v) == Stable(w)
    decreases v
  {
    hide Commas, PairTexts, Texts, Pairs, Ranked, HasMatch, IsMatched;
    match v
    case Array(items) =>
      forall i | 0 <= i < |items|
        ensures Stable(items[i]) == Stable(w.items[i])
      {
        SameHasOneText(items[i], w.items[i]);
      }
      SameTexts(items, w.items);
    case Object(members) =>
      forall i, j | 0 <= i < |members| && 0 <= j < |w.members| && Matches(members[i], w.members[j])
        ensures Stable(members[i].value) == Stable(w.members[j].value)
      {
        SameHasOneText(members[i].value, w.members[j].value);
      }
      SamePairs(members, w.members);
    case _ =>
  }

  lemma {:induction false} SameTexts(items: seq<Json>, others: seq<Json>)
    requires |items| == |others| && forall i :: 0 <= i < |items| ==> Stable(items[i]) == Stable(others[i])
    ensures Texts(items) == Texts(others)
  {
    TextsAre(items);
    TextsAre(others);
    hide Texts, Stable;
    assert Texts(items) == Texts(others);
  }

  ghost predicate MatchesAgree(members: seq<Member>, others: seq<Member>) {
    forall i, j :: 0 <= i < |members| && 0 <= j < |others| && Matches(members[i], others[j]) ==>
      Stable(members[i].value) == Stable(others[j].value)
  }

  lemma {:induction false} SamePairs(members: seq<Member>, others: seq<Member>)
    requires DistinctKeys(members) && DistinctKeys(others)
    requires (forall i :: 0 <= i < |members| ==> HasMatch(members[i], others))
    requires (forall j :: 0 <= j < |others| ==> IsMatched(members, others[j]))
    requires MatchesAgree(members, others)
    ensures Ranked(Pairs(members), PairBefore) == Ranked(Pairs(others), PairBefore)
  {
    hide Pairs, Stable, Ranked, Same, HasMatch, IsMatched, DistinctKeys, DistinctPairs, MatchesAgree;
    PairsAre(members);
    PairsAre(others);
    forall i | 0 <= i < |Pairs(members)|
      ensures Pairs(members)[i] in Pairs(others)
    {
      PairOfMember(members, others, i);
    }
    forall j | 0 <= j < |Pairs(others)|
      ensures Pairs(others)[j] in Pairs(members)
    {
      PairOfOther(members, others, j);
    }
    PairKeysDiffer(members);
    PairKeysDiffer(others);
    SamePairsRankAlike(Pairs(members), Pairs(others));
  }

  lemma {:induction false} PairOfMember(members: seq<Member>, others: seq<Member>, i: nat)
    requires MatchesAgree(members, others) && i < |members| && |Pairs(members)| == |members|
    requires HasMatch(members[i], others)
    ensures Pairs(members)[i] in Pairs(others)
  {
    PairsAre(members);
    PairsAre(others);
    hide Pairs, Stable, Same;
    var j :| 0 <= j < |others| && Matches(members[i], others[j]);
    assert Pairs(members)[i] == Pairs(others)[j];
  }

  lemma {:induction false} PairOfOther(members: seq<Member>, others: seq<Member>, j: nat)
    requires MatchesAgree(members, others) && j < |others| && |Pairs(others)| == |others|
    requires IsMatched(members, others[j])
    ensures Pairs(others)[j] in Pairs(members)
  {
    PairsAre(members);
    PairsAre(others);
    hide Pairs, Stable, Same;
    var i :| 0 <= i < |members| && Matches(members[i], others[j]);
    assert Pairs(members)[i] == Pairs(others)[j];
  }

  lemma {:induction false} PairKeysDiffer(members: seq<Member>)
    requires DistinctKeys(members)
    ensures DistinctPairs(Pairs(members))
  {
    PairsAre(members);
  }

  predicate DistinctPairs(ps: seq<Pair>) { forall i, j :: 0 <= i < j < |ps| ==> ps[i].key != ps[j].key }

  lemma SamePairsRankAlike(ps: seq<Pair>, qs: seq<Pair>)
    requires DistinctPairs(ps) && DistinctPairs(qs)
    requires (forall i :: 0 <= i < |ps| ==> ps[i] in qs) && (forall j :: 0 <= j < |qs| ==> qs[j] in ps)
    ensures Ranked(ps, PairBefore) == Ranked(qs, PairBefore)
  {
    hide Ranked, KeyBefore;
    var a, b := Ranked(ps, PairBefore), Ranked(qs, PairBefore);
    SameMultiset(ps, qs);
    RankedMultiset(ps, PairBefore);
    RankedMultiset(qs, PairBefore);
    PairBeforeIsOrder();
    RankedIsRanked(ps, PairBefore);
    RankedIsRanked(qs, PairBefore);
    RankedKeepsAll(ps, PairBefore);
    forall p, q | p in a && q in a && !PairBefore(p, q) && !PairBefore(q, p)
      ensures p == q
    {
      KeyOrder(p.key, q.key, []);
      var i :| 0 <= i < |ps| && ps[i] == p;
      var j :| 0 <= j < |ps| && ps[j] == q;
    }
    SortedIsUnique(a, b, PairBefore);
  }

  /** The text is canonical: two values have the same text exactly when they are equal but for the order of keys. */
  lemma StableIsCanonical(v: Json, w: Json)
    requires Valid(v) && Valid(w)
    ensures Stable(v) == Stable(w) <==> Same(v, w)
  {
    hide Stable, Same, Valid;
    if Stable(v) == Stable(w) {
      StableUnique(v, w, [], []);
    }
    if Same(v, w) {
      SameHasOneText(v, w);
    }
  }

  // ----- the text survives UTF-8 -----

  /** Every surrogate stands in a pair, so encoding the text as UTF-8 loses nothing. */
  predicate IsWellFormed(t: Text) {
    t == [] || (if StartsWithPair(t) then IsWellFormed(t[2..])
                else !IsHigh(t[0]) && !IsLow(t[0]) && IsWellFormed(t[1..]))
  }

  lemma {:induction false} WellFormedParts(a: Text, b: Text)
    requires IsWellFormed(a) && IsWellFormed(b)
    ensures IsWellFormed(a + b)
    decreases |a|
  {
    if a == [] {
      assert a + b == b;
    } else if StartsWithPair(a) {
      WellFormedParts(a[2..], b);
      assert (a + b)[2..] == a[2..] + b && StartsWithPair(a + b);
    } else {
      WellFormedParts(a[1..], b);
      assert (a + b)[1..] == a[1..] + b && (a + b)[0] == a[0];
    }
  }

  lemma {:induction false} PlainIsWellFormed(t: Text)
    requires forall i :: 0 <= i < |t| ==> !IsHigh(t[i]) && !IsLow(t[i])
    ensures IsWellFormed(t)
  {
    if t != [] {
      PlainIsWellFormed(t[1..]);
    }
  }

  lemma {:induction false} EscapeIsWellFormed(s: Text)
    ensures IsWellFormed(Escape(s))
    decreases |s|
  {
    if s == [] {
    } else if StartsWithPair(s) {
      EscapeIsWellFormed(s[2..]);
      assert IsWellFormed(s[..2]) by {
        assert s[..2][2..] == [];
      }
      WellFormedParts(s[..2], Escape(s[2..]));
    } else {
      EscapeIsWellFormed(s[1..]);
      PlainIsWellFormed(EscapeUnit(s[0]));
      WellFormedParts(EscapeUnit(s[0]), Escape(s[1..]));
    }
  }

  lemma {:induction false} QuotedIsWellFormed(s: Text)
    ensures IsWellFormed(Quoted(s))
  {
    EscapeIsWellFormed(s);
    PlainIsWellFormed([QUOTE]);
    hide IsWellFormed, Escape;
    WellFormedParts([QUOTE], Escape(s));
    WellFormedParts([QUOTE] + Escape(s), [QUOTE]);
  }

  lemma {:induction false} CommasAreWellFormed(texts: seq<Text>)
    requires forall t :: t in texts ==> IsWellFormed(t)
    ensures IsWellFormed(Commas(texts))
  {
    if |texts| > 1 {
      CommasAreWellFormed(texts[1..]);
      PlainIsWellFormed([0x2C]);
      hide IsWellFormed;
      assert texts[0] in texts;
      WellFormedParts(texts[0], [0x2C]);
      WellFormedParts(texts[0] + [0x2C], Commas(texts[1..]));
    } else if |texts| == 1 {
      assert texts[0] in texts;
    } else {
      PlainIsWellFormed([]);
    }
  }

  lemma {:induction false} PairTextsWellFormed(ps: seq<Pair>)
    requires forall p :: p in ps ==> IsWellFormed(p.text)
    ensures forall t :: t in PairTexts(ps) ==> IsWellFormed(t)
  {
    if ps != [] {
      PairTextsWellFormed(ps[1..]);
      QuotedIsWellFormed(ps[0].key);
      PlainIsWellFormed([0x3A]);
      hide IsWellFormed, Quoted;
      assert ps[0] in ps;
      WellFormedParts(Quoted(ps[0].key), [0x3A]);
      WellFormedParts(Quoted(ps[0].key) + [0x3A], ps[0].text);
    }
  }

  lemma {:induction false} Bracketed(open: Unit, body: Text, close: Unit)
    requires IsWellFormed(body) && open in {0x5B, 0x7B} && close in {0x5D, 0x7D}
    ensures IsWellFormed([open] + body + [close])
  {
    PlainIsWellFormed([open]);
    PlainIsWellFormed([close]);
    hide IsWellFormed;
    WellFormedParts([open], body);
    WellFormedParts([open] + body, [close]);
  }

  /** The text of every value is well-formed UTF-16. */
  lemma {:induction false} StableIsWellFormed(v: Json)
    requires Valid(v)
    ensures IsWellFormed(Stable(v))
    decreases v
  {
    hide IsWellFormed, Commas, PairTexts, Texts, Pairs, Ranked, Quoted;
    match v
    case Null => PlainIsWellFormed(Ascii("null"));
    case Bool(b) => PlainIsWellFormed(if b then Ascii("true") else Ascii("false"));
    case Number(text) => PlainIsWellFormed(text);
    case String(units) => QuotedIsWellFormed(units);
    case Array(items) =>
      TextsAre(items);
      forall i | 0 <= i < |items|
        ensures IsWellFormed(Texts(items)[i])
      {
        StableIsWellFormed(items[i]);
      }
      CommasAreWellFormed(Texts(items));
      Bracketed(0x5B, Commas(Texts(items)), 0x5D);
    case Object(members) =>
      PairsAre(members);
      forall i | 0 <= i < |members|
        ensures IsWellFormed(Pairs(members)[i].text)
      {
        StableIsWellFormed(members[i].value);
      }
      var ps := Ranked(Pairs(members), PairBefore);
      RankedKeepsAll(Pairs(members), PairBefore);
      PairTextsWellFormed(ps);
      CommasAreWellFormed(PairTexts(ps));
      Bracketed(0x7B, Commas(PairTexts(ps)), 0x7D);
  }
}
