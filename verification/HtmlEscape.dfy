/**
 HTML escaping of the email body (workers/email/email-message.ts). Texts are UTF-16 code units, so that
 a text may hold half a surrogate pair, as in ECMAScript.
 */
module HtmlEscape {
  import opened Utf16

  const AMP: Unit := 0x26
  const LT: Unit := 0x3C
  const GT: Unit := 0x3E
  const QUOT: Unit := 0x22
  const APOS: Unit := 0x27

  const AMP_ENTITY: Text := [0x26, 0x61, 0x6D, 0x70, 0x3B]           // &amp;
  const LT_ENTITY: Text := [0x26, 0x6C, 0x74, 0x3B]                  // &lt;
  const GT_ENTITY: Text := [0x26, 0x67, 0x74, 0x3B]                  // &gt;
  const QUOT_ENTITY: Text := [0x26, 0x71, 0x75, 0x6F, 0x74, 0x3B]    // &quot;
  const APOS_ENTITY: Text := [0x26, 0x23, 0x33, 0x39, 0x3B]          // &#39;

  /** The five characters and what each is written as. */
  lemma EntityTexts()
    ensures [AMP] == Ascii("&") && AMP_ENTITY == Ascii("&amp;")
    ensures [LT] == Ascii("<") && LT_ENTITY == Ascii("&lt;")
    ensures [GT] == Ascii(">") && GT_ENTITY == Ascii("&gt;")
    ensures [QUOT] == Ascii("\"") && QUOT_ENTITY == Ascii("&quot;")
    ensures [APOS] == Ascii("'") && APOS_ENTITY == Ascii("&#39;")
  {
  }

  /** `replaceAll` of a single unit. */
  function ReplaceAll(s: Text, c: Unit, text: Text): Text {
    if s == [] then [] else (if s[0] == c then text else [s[0]]) + ReplaceAll(s[1..], c, text)
  }

  /** `escapeHtml`: five replacements, one after the other. */
  function EscapeHtml(s: Text): Text {
    ReplaceAll(ReplaceAll(ReplaceAll(ReplaceAll(ReplaceAll(
      s, AMP, AMP_ENTITY), LT, LT_ENTITY), GT, GT_ENTITY), QUOT, QUOT_ENTITY), APOS, APOS_ENTITY)
  }

  /** What one unit stands as. */
  function Entity(c: Unit): Text {
    if c == AMP then AMP_ENTITY
    else if c == LT then LT_ENTITY
    else if c == GT then GT_ENTITY
    else if c == QUOT then QUOT_ENTITY
    else if c == APOS then APOS_ENTITY
    else [c]
  }

  function Substitute(s: Text): Text {
    if s == [] then [] else Entity(s[0]) + Substitute(s[1..])
  }

  lemma {:induction false} ReplaceParts(a: Text, b: Text, c: Unit, text: Text)
    ensures ReplaceAll(a + b, c, text) == ReplaceAll(a, c, text) + ReplaceAll(b, c, text)
  {
    if a == [] {
      assert a + b == b;
    } else {
      assert (a + b)[1..] == a[1..] + b;
      ReplaceParts(a[1..], b, c, text);
    }
  }

  lemma {:induction false} ReplaceNothing(s: Text, c: Unit, text: Text)
    requires c !in s
    ensures ReplaceAll(s, c, text) == s
  {
    if s != [] {
      ReplaceNothing(s[1..], c, text);
    }
  }

  lemma ReplaceOne(c: Unit, d: Unit, text: Text)
    ensures ReplaceAll([c], d, text) == if c == d then text else [c]
  {
    assert [c][1..] == [];
  }

  lemma EscapeParts(a: Text, b: Text)
    ensures EscapeHtml(a + b) == EscapeHtml(a) + EscapeHtml(b)
  {
    hide ReplaceAll;
    var a1, b1 := ReplaceAll(a, AMP, AMP_ENTITY), ReplaceAll(b, AMP, AMP_ENTITY);
    ReplaceParts(a, b, AMP, AMP_ENTITY);
    var a2, b2 := ReplaceAll(a1, LT, LT_ENTITY), ReplaceAll(b1, LT, LT_ENTITY);
    ReplaceParts(a1, b1, LT, LT_ENTITY);
    var a3, b3 := ReplaceAll(a2, GT, GT_ENTITY), ReplaceAll(b2, GT, GT_ENTITY);
    ReplaceParts(a2, b2, GT, GT_ENTITY);
    var a4, b4 := ReplaceAll(a3, QUOT, QUOT_ENTITY), ReplaceAll(b3, QUOT, QUOT_ENTITY);
    ReplaceParts(a3, b3, QUOT, QUOT_ENTITY);
    ReplaceParts(a4, b4, APOS, APOS_ENTITY);
  }

  /** A later replacement never touches what an earlier one has written. */
  lemma EscapeOne(c: Unit)
    ensures EscapeHtml([c]) == Entity(c)
  {
    hide ReplaceAll;
    ReplaceOne(c, AMP, AMP_ENTITY);
    ReplaceOne(c, LT, LT_ENTITY);
    ReplaceOne(c, GT, GT_ENTITY);
    ReplaceOne(c, QUOT, QUOT_ENTITY);
    ReplaceOne(c, APOS, APOS_ENTITY);
    ReplaceNothing(AMP_ENTITY, LT, LT_ENTITY);
    ReplaceNothing(AMP_ENTITY, GT, GT_ENTITY);
    ReplaceNothing(AMP_ENTITY, QUOT, QUOT_ENTITY);
    ReplaceNothing(AMP_ENTITY, APOS, APOS_ENTITY);
    ReplaceNothing(LT_ENTITY, GT, GT_ENTITY);
    ReplaceNothing(LT_ENTITY, QUOT, QUOT_ENTITY);
    ReplaceNothing(LT_ENTITY, APOS, APOS_ENTITY);
    ReplaceNothing(GT_ENTITY, QUOT, QUOT_ENTITY);
    ReplaceNothing(GT_ENTITY, APOS, APOS_ENTITY);
    ReplaceNothing(QUOT_ENTITY, APOS, APOS_ENTITY);
  }

  /** The five replacements in turn are one substitution, each unit on its own. */
  lemma {:induction false} EscapeIsSubstitution(s: Text)
    ensures EscapeHtml(s) == Substitute(s)
  {
    if s != [] {
      assert s == [s[0]] + s[1..];
      EscapeParts([s[0]], s[1..]);
      EscapeOne(s[0]);
      EscapeIsSubstitution(s[1..]);
    }
  }

  // ----- what a reader of the escaped text sees -----

  const SPECIAL := {LT, GT, QUOT, APOS}

  predicate StartsWithEntity(t: Text) {
    AMP_ENTITY <= t || LT_ENTITY <= t || GT_ENTITY <= t || QUOT_ENTITY <= t || APOS_ENTITY <= t
  }

  lemma EntityIsSafe(c: Unit)
    ensures forall d :: d in SPECIAL ==> d !in Entity(c)
    ensures Entity(c) != [] && forall i :: 1 <= i < |Entity(c)| ==> Entity(c)[i] != AMP
    ensures Entity(c)[0] == AMP ==> StartsWithEntity(Entity(c))
  {
  }

  lemma StartsWithMore(t: Text, more: Text)
    ensures StartsWithEntity(t) ==> StartsWithEntity(t + more)
  {
  }

  lemma {:induction false} SubstituteIsSafe(s: Text)
    ensures forall c :: c in SPECIAL ==> c !in Substitute(s)
    ensures forall i :: 0 <= i < |Substitute(s)| && Substitute(s)[i] == AMP ==> StartsWithEntity(Substitute(s)[i..])
  {
    hide Entity, StartsWithEntity;
    if s != [] {
      SubstituteIsSafe(s[1..]);
      EntityIsSafe(s[0]);
      var head, tail := Entity(s[0]), Substitute(s[1..]);
      forall i | 0 <= i < |head + tail| && (head + tail)[i] == AMP
        ensures StartsWithEntity((head + tail)[i..])
      {
        if i >= |head| {
          assert (head + tail)[i..] == tail[i - |head|..];
        } else {
          assert i == 0 && (head + tail)[i..] == head + tail;
          StartsWithMore(head, tail);
        }
      }
    }
  }

  /** Nothing of the input can open a tag or leave an attribute, and every ampersand begins an entity. */
  lemma EscapedIsSafe(s: Text)
    ensures forall c :: c in SPECIAL ==> c !in EscapeHtml(s)
    ensures forall i :: 0 <= i < |EscapeHtml(s)| && EscapeHtml(s)[i] == AMP ==> StartsWithEntity(EscapeHtml(s)[i..])
  {
    EscapeIsSubstitution(s);
    SubstituteIsSafe(s);
  }

  /** How HTML reads the five entities back. */
  function Decode(t: Text): Text {
    if t == [] then []
    else if AMP_ENTITY <= t then [AMP] + Decode(t[5..])
    else if LT_ENTITY <= t then [LT] + Decode(t[4..])
    else if GT_ENTITY <= t then [GT] + Decode(t[4..])
    else if QUOT_ENTITY <= t then [QUOT] + Decode(t[6..])
    else if APOS_ENTITY <= t then [APOS] + Decode(t[5..])
    else [t[0]] + Decode(t[1..])
  }

  lemma DecodeEntity(c: Unit, t: Text)
    ensures Decode(Entity(c) + t) == [c] + Decode(t)
  {
    var all := Entity(c) + t;
    assert all[|Entity(c)|..] == t;
    if c in {AMP, LT, GT, QUOT, APOS} {
      assert all[1] == Entity(c)[1] && all[0] == AMP;
      assert Entity(c) <= all;
      assert c == GT ==> !(LT_ENTITY <= all) && !(AMP_ENTITY <= all);
    } else {
      assert all[0] == c;
    }
  }

  lemma {:induction false} DecodeSubstitute(s: Text)
    ensures Decode(Substitute(s)) == s
  {
    if s != [] {
      hide Decode;
      DecodeSubstitute(s[1..]);
      DecodeEntity(s[0], Substitute(s[1..]));
      assert s == [s[0]] + s[1..];
    } else {
      assert Decode([]) == [];
    }
  }

  /** The reader sees exactly the text that was escaped. */
  lemma EscapeRoundTrips(s: Text)
    ensures Decode(EscapeHtml(s)) == s
  {
    EscapeIsSubstitution(s);
    DecodeSubstitute(s);
  }
}
