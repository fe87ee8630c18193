/**
 What text `stableJson` writes (workers/shared/attempt.ts, workers/push/receipt-lifecycle.ts), told by a
 reader written from RFC 8259: section 7 for strings, sections 3 to 5 for values, with no whitespace
 anywhere. Reading the text of a value gives the value back, with the keys of every object ascending.
 The text of a number is taken as it stands.
 */
module JsonReading {
  import opened Wrappers
  import opened TopRanked
  import opened Utf16
  import opened StableJson

  datatype Read<T> = Read(value: T, rest: Text)

  // ----- strings -----

  function HexValue(u: Unit): Option<int> {
    if 0x30 <= u <= 0x39 then Some(u as int - 0x30)
    else if 0x61 <= u <= 0x66 then Some(u as int - 0x61 + 10)
    else if 0x41 <= u <= 0x46 then Some(u as int - 0x41 + 10)
    else None
  }

  /** The characters that a backslash and one letter stand for. */
  function EscapedBy(letter: Unit): Option<Unit> {
    if letter == 0x22 then Some(0x22)        // quotation mark
    else if letter == 0x5C then Some(0x5C)   // reverse solidus
    else if letter == 0x2F then Some(0x2F)   // solidus
    else if letter == 0x62 then Some(0x08)   // backspace
    else if letter == 0x66 then Some(0x0C)   // form feed
    else if letter == 0x6E then Some(0x0A)   // line feed
    else if letter == 0x72 then Some(0x0D)   // carriage return
    else if letter == 0x74 then Some(0x09)   // tab
    else None
  }

  /** The unit of four hexadecimal digits. */
  function FourDigits(t: Text): Option<Unit> {
    if |t| < 4 then None
    else
      var a, b, c, d := HexValue(t[0]), HexValue(t[1]), HexValue(t[2]), HexValue(t[3]);
      if a.Some? && b.Some? && c.Some? && d.Some?
      then Some((4096 * a.value + 256 * b.value + 16 * c.value + d.value) as Unit)
      else None
  }

  function Before(u: Unit, r: Option<Read<Text>>): Option<Read<Text>> {
    if r.Some? then Some(Read([u] + r.value.value, r.value.rest)) else None
  }

  /** A string behind its opening quotation mark, up to the closing one. */
  function ReadString(t: Text): (r: Option<Read<Text>>)
    ensures r.Some? ==> |r.value.rest| < |t|
  {
    if t == [] then None
    else if t[0] == 0x22 then Some(Read([], t[1..]))
    else if t[0] == 0x5C then
      if |t| < 2 then None
      else if EscapedBy(t[1]).Some? then Before(EscapedBy(t[1]).value, ReadString(t[2..]))
      else if t[1] == 0x75 && FourDigits(t[2..]).Some? then Before(FourDigits(t[2..]).value, ReadString(t[6..]))
      else None
    else if t[0] < 0x20 then None
    else Before(t[0], ReadString(t[1..]))
  }

  // ----- values -----

  function NumberRun(t: Text): (n: nat)
    ensures n <= |t|
  {
    if t == [] || !IsNumberUnit(t[0]) then 0 else 1 + NumberRun(t[1..])
  }

  const TRUE: Text := [0x74, 0x72, 0x75, 0x65]
  const FALSE: Text := [0x66, 0x61, 0x6C, 0x73, 0x65]
  const NULL: Text := [0x6E, 0x75, 0x6C, 0x6C]

  function ReadWord(t: Text, word: Text, v: Json): Option<Read<Json>> {
    if |word| <= |t| && t[..|word|] == word then Some(Read(v, t[|word|..])) else None
  }

  function ReadValue(t: Text): (r: Option<Read<Json>>)
    ensures r.Some? ==> |r.value.rest| < |t|
    decreases |t|, 0
  {
    if t == [] then None
    else if t[0] == 0x22 then
      var s := ReadString(t[1..]);
      if s.Some? then Some(Read(String(s.value.value), s.value.rest)) else None
    else if t[0] == 0x5B then
      if |t| > 1 && t[1] == 0x5D then Some(Read(Array([]), t[2..]))
      else
        var items := ReadItems(t[1..]);
        if items.Some? then Some(Read(Array(items.value.value), items.value.rest)) else None
    else if t[0] == 0x7B then
      if |t| > 1 && t[1] == 0x7D then Some(Read(Object([]), t[2..]))
      else
        var members := ReadMembers(t[1..]);
        if members.Some? then Some(Read(Object(members.value.value), members.value.rest)) else None
    else if t[0] == 0x74 then ReadWord(t, TRUE, Bool(true))
    else if t[0] == 0x66 then ReadWord(t, FALSE, Bool(false))
    else if t[0] == 0x6E then ReadWord(t, NULL, Null)
    else if NumberRun(t) > 0 then Some(Read(Number(t[..NumberRun(t)]), t[NumberRun(t)..]))
    else None
  }

  /** One value or more with commas between them, up to the closing bracket. */
  function ReadItems(t: Text): (r: Option<Read<seq<Json>>>)
    ensures r.Some? ==> |r.value.rest| < |t|
    decreases |t|, 1
  {
    var first := ReadValue(t);
    if first.None? || first.value.rest == [] then None
    else
      var v, rest := first.value.value, first.value.rest;
      if rest[0] == 0x5D then Some(Read([v], rest[1..]))
      else if rest[0] == 0x2C then
        var others := ReadItems(rest[1..]);
        if others.Some? then Some(Read([v] + others.value.value, others.value.rest)) else None
      else None
  }

  /** One member or more with commas between them, up to the closing brace. */
  function ReadMembers(t: Text): (r: Option<Read<seq<Member>>>)
    ensures r.Some? ==> |r.value.rest| < |t|
    decreases |t|, 1
  {
    var first := ReadMember(t);
    if first.None? || first.value.rest == [] then None
    else
      var m, rest := first.value.value, first.value.rest;
      if rest[0] == 0x7D then Some(Read([m], rest[1..]))
      else if rest[0] == 0x2C then
        var others := ReadMembers(rest[1..]);
        if others.Some? then Some(Read([m] + others.value.value, others.value.rest)) else None
      else None
  }

  function ReadMember(t: Text): (r: Option<Read<Member>>)
    ensures r.Some? ==> |r.value.rest| < |t|
    decreases |t|, 0
  {
    if t == [] || t[0] != 0x22 then None
    else
      var key := ReadString(t[1..]);
      if key.None? || key.value.rest == [] || key.value.rest[0] != 0x3A then None
      else
        var v := ReadValue(key.value.rest[1..]);
        if v.Some? then Some(Read(Member(key.value.value, v.value.value), v.value.rest)) else None
  }

  // ----- reading an escaped string -----

  lemma HexDigitIsRead(n: int)
    requires 0 <= n < 16
    ensures HexValue(HexDigit(n)) == Some(n)
  {
  }

  lemma FourDigitsAreRead(u: Unit, y: Text)
    ensures FourDigits(UnicodeEscape(u)[2..] + y) == Some(u)
  {
    var n := u as int;
    HexOfUnit(u);
    HexDigitIsRead(n / 4096);
    HexDigitIsRead(n / 256 % 16);
    HexDigitIsRead(n / 16 % 16);
    HexDigitIsRead(n % 16);
    var t := UnicodeEscape(u)[2..] + y;
    assert t[0] == HexDigit(n / 4096) && t[1] == HexDigit(n / 256 % 16);
    assert t[2] == HexDigit(n / 16 % 16) && t[3] == HexDigit(n % 16);
  }

  lemma UnitIsRead(u: Unit, y: Text)
    ensures ReadString(EscapeUnit(u) + y) == Before(u, ReadString(y))
  {
    hide UnicodeEscape, FourDigits;
    LongEscape(u, y);
    var e := EscapeUnit(u);
    var t := e + y;
    if |e| == 1 {
      assert t[1..] == y;
    } else if |e| == 2 {
      assert t[0] == 0x5C && t[1] == e[1] && t[2..] == y;
    }
  }

  lemma LongEscape(u: Unit, y: Text)
    ensures var t := UnicodeEscape(u) + y;
            |UnicodeEscape(u)| == 6 && t[0] == 0x5C && t[1] == 0x75 && t[6..] == y && FourDigits(t[2..]) == Some(u)
  {
    FourDigitsAreRead(u, y);
    var e := UnicodeEscape(u);
    assert |e| == 6 && e[0] == 0x5C && e[1] == 0x75;
    assert (e + y)[6..] == y;
    assert (e + y)[2..] == e[2..] + y;
  }

  lemma PairIsRead(high: Unit, low: Unit, y: Text)
    requires IsHigh(high) && IsLow(low)
    ensures ReadString([high, low] + y) == Before(high, Before(low, ReadString(y)))
  {
    var t := [high, low] + y;
    assert t[0] == high && t[1..][0] == low && t[1..][1..] == y;
    assert ReadString(t) == Before(high, ReadString(t[1..]));
  }

  lemma HeadIsRead(s: Text, y: Text)
    requires s != []
    ensures var n, r := HeadLength(s), ReadString(y);
            ReadString(Head(s) + y) == if r.Some? then Some(Read(s[..n] + r.value.value, r.value.rest)) else None
  {
    hide EscapeUnit, ReadString;
    var r := ReadString(y);
    if StartsWithPair(s) {
      PairIsRead(s[0], s[1], y);
      assert s[..2] == [s[0], s[1]];
      assert r.Some? ==> [s[0]] + ([s[1]] + r.value.value) == s[..2] + r.value.value;
    } else {
      UnitIsRead(s[0], y);
      assert s[..1] == [s[0]];
    }
  }

  /** An escaped string is read back, up to its quotation mark. */
  lemma {:induction false} EscapeIsRead(s: Text, x: Text)
    ensures ReadString(Escape(s) + [QUOTE] + x) == Some(Read(s, x))
    decreases |s|
  {
    if s == [] {
      assert Escape(s) + [QUOTE] + x == [QUOTE] + x && ([QUOTE] + x)[1..] == x;
    } else {
      var n := HeadLength(s);
      EscapeSplits(s, x);
      EscapeIsRead(s[n..], x);
      HeadIsRead(s, Escape(s[n..]) + [QUOTE] + x);
      assert s == s[..n] + s[n..];
    }
  }

  /** How long an escape is: only what section 7 demands is escaped, by a letter where there is one, in lower case. */
  lemma EscapeShape(u: Unit)
    ensures |EscapeUnit(u)| in {1, 2, 6}
    ensures |EscapeUnit(u)| == 1 <==> u >= 0x20 && u != 0x22 && u != 0x5C && !(0xD800 <= u <= 0xDFFF)
    ensures |EscapeUnit(u)| == 2 <==> u in {0x22, 0x5C, 0x08, 0x09, 0x0A, 0x0C, 0x0D}
    ensures forall i :: 2 <= i < |EscapeUnit(u)| ==>
              0x30 <= EscapeUnit(u)[i] <= 0x39 || 0x61 <= EscapeUnit(u)[i] <= 0x66
  {
  }

  lemma QuotedIsRead(s: Text, x: Text)
    ensures Quoted(s) + x != [] && (Quoted(s) + x)[0] == 0x22 && ReadString((Quoted(s) + x)[1..]) == Some(Read(s, x))
  {
    EscapeIsRead(s, x);
    assert Quoted(s) + x == [QUOTE] + (Escape(s) + [QUOTE] + x);
  }

  // ----- the order of the keys -----

  /** By code unit: a proper prefix, or the smaller unit where the two first differ. */
  ghost predicate KeyLess(a: Text, b: Text) {
    || (|a| < |b| && b[..|a|] == a)
    || (exists i :: 0 <= i < |a| && i < |b| && a[..i] == b[..i] && a[i] < b[i])
  }

  lemma {:induction false} KeyBeforeIff(a: Text, b: Text)
    ensures KeyBefore(a, b) <==> KeyLess(a, b)
  {
    if a != [] && b != [] {
      KeyBeforeIff(a[1..], b[1..]);
      if a[0] == b[0] {
        LessBehind(a, b);
      } else {
        FirstDiffers(a, b);
      }
    } else if b != [] {
      assert b[..0] == a;
    }
  }

  lemma FirstDiffers(a: Text, b: Text)
    requires a != [] && b != [] && a[0] != b[0]
    ensures KeyLess(a, b) <==> a[0] < b[0]
  {
    forall i | 0 < i <= |a| && i <= |b|
      ensures a[..i] != b[..i]
    {
      assert a[..i][0] != b[..i][0];
    }
    assert a[..0] == b[..0] && a[..|a|] == a;
  }

  lemma LessBehind(a: Text, b: Text)
    requires a != [] && b != [] && a[0] == b[0]
    ensures KeyLess(a, b) <==> KeyLess(a[1..], b[1..])
  {
    var p, q := a[1..], b[1..];
    assert a == [a[0]] + p && b == [b[0]] + q;
    assert forall i :: 0 < i <= |a| ==> a[..i] == [a[0]] + p[..i - 1];
    assert forall i :: 0 < i <= |b| ==> b[..i] == [b[0]] + q[..i - 1];
    assert forall i :: 0 <= i <= |p| ==> p[..i] == a[..i + 1][1..];
    assert forall i :: 0 <= i <= |q| ==> q[..i] == b[..i + 1][1..];
    if KeyLess(a, b) {
      if i :| 0 <= i < |a| && i < |b| && a[..i] == b[..i] && a[i] < b[i] {
        assert p[..i - 1] == q[..i - 1] && p[i - 1] < q[i - 1];
      }
    }
    if KeyLess(p, q) {
      if i :| 0 <= i < |p| && i < |q| && p[..i] == q[..i] && p[i] < q[i] {
        assert a[..i + 1] == b[..i + 1] && a[i + 1] < b[i + 1];
      }
    }
  }

  /** The keys of every object ascend, at every depth. */
  ghost predicate Ascending(v: Json)
    decreases v
  {
    match v
    case Array(items) => forall i :: 0 <= i < |items| ==> Ascending(items[i])
    case Object(members) =>
      && (forall i :: 0 <= i < |members| ==> Ascending(members[i].value))
      && (forall i, j :: 0 <= i < j < |members| ==> KeyLess(members[i].key, members[j].key))
    case _ => true
  }

  // ----- reading the text of a value -----

  /** Reading gives these values: they are the given ones but for the order of keys, which ascend. */
  ghost predicate AreReadAs(items: seq<Json>, read: seq<Json>) {
    |read| == |items| && forall i :: 0 <= i < |items| ==> Same(items[i], read[i]) && Ascending(read[i])
  }

  lemma WordIsRead(word: Text, v: Json, x: Text)
    ensures ReadWord(word + x, word, v) == Some(Read(v, x))
  {
    assert (word + x)[..|word|] == word && (word + x)[|word|..] == x;
  }

  lemma ConstantIsRead(v: Json, x: Text)
    requires v.Null? || v.Bool?
    ensures ReadValue(Stable(v) + x) == Some(Read(v, x))
  {
    assert Ascii("null") == NULL && Ascii("true") == TRUE && Ascii("false") == FALSE;
    WordIsRead(NULL, Null, x);
    WordIsRead(TRUE, Bool(true), x);
    WordIsRead(FALSE, Bool(false), x);
    assert (Stable(v) + x)[0] == Stable(v)[0];
  }

  lemma {:induction false} RunOfNumber(text: Text, x: Text)
    requires (forall i :: 0 <= i < |text| ==> IsNumberUnit(text[i])) && IsDelimited(x)
    ensures NumberRun(text + x) == |text|
  {
    if text == [] {
      assert text + x == x;
    } else {
      assert (text + x)[1..] == text[1..] + x;
      RunOfNumber(text[1..], x);
    }
  }

  lemma NumberIsRead(text: Text, x: Text)
    requires IsNumberText(text) && IsDelimited(x)
    ensures ReadValue(text + x) == Some(Read(Number(text), x))
  {
    RunOfNumber(text, x);
    assert (text + x)[0] == text[0] && IsNumberUnit(text[0]);
    assert (text + x)[..|text|] == text && (text + x)[|text|..] == x;
  }

  lemma StringIsRead(units: Text, x: Text)
    ensures ReadValue(Quoted(units) + x) == Some(Read(String(units), x))
  {
    hide Escape;
    QuotedIsRead(units, x);
  }

  lemma BehindIsDelimited(texts: seq<Text>, close: Unit, x: Text)
    requires texts != [] && close in {0x5D, 0x7D}
    ensures var b := Behind(texts, close, x);
            && IsDelimited(b) && b != []
            && (if |texts| == 1 then b[0] == close && b[1..] == x
                else b[0] == COMMA && b[1..] == Commas(texts[1..]) + [close] + x)
  {
    hide Commas;
  }

  /** What stands behind an opening bracket. */
  lemma InBrackets(open: Unit, body: Text, close: Unit, x: Text)
    ensures var t := [open] + body + [close] + x; t[0] == open && t[1..] == body + [close] + x
  {
  }

  lemma ArrayIsRead(items: seq<Json>, read: seq<Json>, x: Text)
    requires forall i :: 0 <= i < |items| ==> Valid(items[i])
    requires items == [] ==> read == []
    requires items != [] ==> ReadItems(Commas(Texts(items)) + [0x5D] + x) == Some(Read(read, x))
    ensures ReadValue(Stable(Array(items)) + x) == Some(Read(Array(read), x))
  {
    hide Texts, Commas, Valid, ReadItems;
    var body := Commas(Texts(items));
    assert Stable(Array(items)) == [0x5B] + body + [0x5D];
    InBrackets(0x5B, body, 0x5D, x);
    ItemsStart(items, x);
    var t := [0x5B] + body + [0x5D] + x;
    assert t[1..][0] == t[1];
    if items == [] {
      NoItemsText(x);
      assert t[2..] == t[1..][1..];
    }
  }

  lemma NoItemsText(x: Text)
    ensures Commas(Texts([])) + [0x5D] + x == [0x5D] + x && ([0x5D] + x)[1..] == x
    ensures Commas(PairTexts([])) + [0x7D] + x == [0x7D] + x && ([0x7D] + x)[1..] == x
  {
  }

  lemma ObjectIsRead(members: seq<Member>, ps: seq<Pair>, read: seq<Member>, x: Text)
    requires ps == Ranked(Pairs(members), PairBefore) && (ps == [] ==> read == [])
    requires ps != [] ==> ReadMembers(Commas(PairTexts(ps)) + [0x7D] + x) == Some(Read(read, x))
    ensures ReadValue(Stable(Object(members)) + x) == Some(Read(Object(read), x))
  {
    hide PairTexts, Commas, ReadMembers, Ranked;
    var body := Commas(PairTexts(ps));
    assert Stable(Object(members)) == [0x7B] + body + [0x7D];
    InBrackets(0x7B, body, 0x7D, x);
    PairsStart(ps, x);
    var t := [0x7B] + body + [0x7D] + x;
    assert t[1..][0] == t[1];
    if ps == [] {
      NoItemsText(x);
      assert t[2..] == t[1..][1..];
    }
  }

  /** The member is one of an object's, read. */
  ghost predicate IsReadFrom(members: seq<Member>, m: Member) {
    Ascending(m.value) && exists i :: 0 <= i < |members| && members[i].key == m.key && Same(members[i].value, m.value)
  }

  /** The text of a value, whatever follows it, is read as that value with the keys of its objects in order. */
  lemma {:induction false} ValueIsRead(v: Json, x: Text) returns (w: Json)
    requires Valid(v) && IsDelimited(x)
    ensures ReadValue(Stable(v) + x) == Some(Read(w, x)) && Same(v, w) && Ascending(w)
    decreases v
  {
    w := v;
    match v
    case Null => ConstantIsRead(v, x);
    case Bool(_) => ConstantIsRead(v, x);
    case Number(text) => NumberIsRead(text, x);
    case String(units) => StringIsRead(units, x);
    case Array(items) =>
      hide ReadValue, Stable;
      var read := [];
      if items != [] {
        read := ItemsAreRead(items, x);
      }
      ArrayIsRead(items, read, x);
      w := Array(read);
    case Object(members) =>
      hide ReadValue, Stable, Same, Ascending, Pairs, Ranked;
      var ps, read := Ranked(Pairs(members), PairBefore), [];
      RankedPairsOf(members);
      if ps != [] {
        read := MembersAreRead(members, ps, x);
      }
      ObjectIsRead(members, ps, read, x);
      ReadIsSame(members, ps, read);
      w := Object(read);
  }

  lemma {:induction false} ItemsAreRead(items: seq<Json>, x: Text) returns (read: seq<Json>)
    requires items != [] && forall i :: 0 <= i < |items| ==> Valid(items[i])
    ensures ReadItems(Commas(Texts(items)) + [0x5D] + x) == Some(Read(read, x)) && AreReadAs(items, read)
    decreases items
  {
    hide Stable, Same, Commas, Valid, ReadValue, Ascending, Behind, Texts, IsDelimited;
    TextsAre(items);
    CommasSplit(Texts(items), 0x5D, x);
    BehindIsDelimited(Texts(items), 0x5D, x);
    var first := ValueIsRead(items[0], Behind(Texts(items), 0x5D, x));
    if |items| == 1 {
      read := [first];
    } else {
      var others := ItemsAreRead(items[1..], x);
      read := [first] + others;
      assert forall i :: 1 <= i < |items| ==> items[i] == items[1..][i - 1];
    }
  }

  lemma MemberIsRead(p: Pair, v: Json, read: Json, y: Text)
    requires p.text == Stable(v) && ReadValue(Stable(v) + y) == Some(Read(read, y))
    ensures ReadMember(Quoted(p.key) + ([COLON] + (p.text + y))) == Some(Read(Member(p.key, read), y))
  {
    hide Stable, ReadValue, Quoted;
    var rest := [COLON] + (p.text + y);
    QuotedIsRead(p.key, rest);
    assert rest[1..] == p.text + y;
  }

  lemma {:induction false} MembersAreRead(members: seq<Member>, ps: seq<Pair>, x: Text) returns (read: seq<Member>)
    requires ps != [] && ArePairsOf(ps, members) && forall i :: 0 <= i < |members| ==> Valid(members[i].value)
    ensures ReadMembers(Commas(PairTexts(ps)) + [0x7D] + x) == Some(Read(read, x)) && |read| == |ps|
    ensures forall k :: 0 <= k < |ps| ==> read[k].key == ps[k].key && IsReadFrom(members, read[k])
    decreases members, |ps|
  {
    hide Stable, Same, Commas, Valid, ReadValue, ReadMember, Ascending, Behind, IsDelimited, Quoted;
    PairTextsAre(ps);
    PairSplit(ps, x);
    var y := Behind(PairTexts(ps), 0x7D, x);
    BehindIsDelimited(PairTexts(ps), 0x7D, x);
    var i :| 0 <= i < |members| && ps[0] == Pair(members[i].key, Stable(members[i].value));
    var first := ValueIsRead(members[i].value, y);
    MemberIsRead(ps[0], members[i].value, first, y);
    var m := Member(ps[0].key, first);
    assert IsReadFrom(members, m);
    if |ps| == 1 {
      read := [m];
    } else {
      assert ArePairsOf(ps[1..], members);
      var others := MembersAreRead(members, ps[1..], x);
      read := [m] + others;
    }
  }

  lemma AscendingPairs(members: seq<Member>, j: nat, k: nat)
    requires DistinctKeys(members) && j < k < |members|
    ensures |Ranked(Pairs(members), PairBefore)| == |members|
    ensures KeyLess(Ranked(Pairs(members), PairBefore)[j].key, Ranked(Pairs(members), PairBefore)[k].key)
  {
    hide Stable, Ranked, Pairs, KeyBefore, KeyLess;
    var ps := Ranked(Pairs(members), PairBefore);
    PairsAre(members);
    PairBeforeIsOrder();
    RankedIsRanked(Pairs(members), PairBefore);
    PairKeysDiffer(members);
    RankedPairsDiffer(Pairs(members), j, k);
    KeyOrder(ps[j].key, ps[k].key, []);
    assert !PairBefore(ps[k], ps[j]);
    KeyBeforeIff(ps[j].key, ps[k].key);
  }

  lemma RankedPairsDiffer(pairs: seq<Pair>, j: nat, k: nat)
    requires DistinctPairs(pairs) && j < k < |pairs|
    ensures Ranked(pairs, PairBefore)[j].key != Ranked(pairs, PairBefore)[k].key
  {
    var differ := (p: Pair, q: Pair) => p.key != q.key;
    assert Pairwise(pairs, differ);
    RankedIsPairwise(pairs, PairBefore, differ);
    assert differ(Ranked(pairs, PairBefore)[j], Ranked(pairs, PairBefore)[k]);
  }

  /** The members as they were read make up the same object, in the order of its keys. */
  lemma ReadIsSame(members: seq<Member>, ps: seq<Pair>, read: seq<Member>)
    requires DistinctKeys(members) && ps == Ranked(Pairs(members), PairBefore) && |read| == |ps|
    requires forall k :: 0 <= k < |ps| ==> read[k].key == ps[k].key && IsReadFrom(members, read[k])
    requires forall i :: 0 <= i < |members| ==> Pair(members[i].key, Stable(members[i].value)) in ps
    ensures Same(Object(members), Object(read)) && Ascending(Object(read))
  {
    hide Stable, Ranked, Pairs, KeyLess, HasMatch, IsMatched;
    PairsAre(members);
    assert |ps| == |members|;
    forall k | 0 <= k < |read|
      ensures IsMatched(members, read[k]) && Ascending(read[k].value)
    {
      ReadIsMatched(members, read[k]);
    }
    forall i | 0 <= i < |members|
      ensures HasMatch(members[i], read)
    {
      var p := Pair(members[i].key, Stable(members[i].value));
      var k :| 0 <= k < |ps| && ps[k] == p;
      MemberHasMatch(members, i, read, k);
    }
    forall j, k | 0 <= j < k < |read|
      ensures KeyLess(read[j].key, read[k].key)
    {
      AscendingPairs(members, j, k);
    }
  }

  lemma ReadIsMatched(members: seq<Member>, m: Member)
    requires IsReadFrom(members, m)
    ensures IsMatched(members, m) && Ascending(m.value)
  {
    hide Same, Ascending;
    var i :| 0 <= i < |members| && members[i].key == m.key && Same(members[i].value, m.value);
    assert Matches(members[i], m);
  }

  lemma MemberHasMatch(members: seq<Member>, i: nat, read: seq<Member>, k: nat)
    requires DistinctKeys(members) && i < |members| && k < |read|
    requires members[i].key == read[k].key && IsReadFrom(members, read[k])
    ensures HasMatch(members[i], read)
  {
    hide Same, Ascending;
    var n :| 0 <= n < |members| && members[n].key == read[k].key && Same(members[n].value, read[k].value);
    assert n == i;
    assert Matches(members[i], read[k]);
  }

  /**
   The text that is fingerprinted is JSON without whitespace: read by the grammar it gives the value
   back, and the keys of each object stand in it in the order of their code units.
   */
  lemma StableIsRead(v: Json) returns (w: Json)
    requires Valid(v)
    ensures ReadValue(Stable(v)) == Some(Read(w, [])) && Same(v, w) && Ascending(w)
  {
    hide ReadValue, Stable, Same, Valid, Ascending;
    w := ValueIsRead(v, []);
    assert Stable(v) + [] == Stable(v);
  }
}
