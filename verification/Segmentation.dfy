/**
 Cutting a text into pieces, each allowed where it stands, while a small state is carried along; and
 the left-to-right scan of reachable offsets that decides whether such a cutting exists.
 */
module Segmentation {
  import opened Wrappers

  /** A piece of the text up to `end`; it begins where the one before it ended. */
  datatype Piece<K> = Piece(end: nat, kind: K)

  datatype Grammar<!K, !Q> = Grammar(start: Q, allows: (nat, nat, K) -> bool, next: (Q, K) -> Option<Q>)

  function EndOf<K>(pieces: seq<Piece<K>>): nat {
    if pieces == [] then 0 else pieces[|pieces| - 1].end
  }

  /** Every piece is non-empty and allowed where it stands. */
  predicate IsCut<K, Q>(g: Grammar<K, Q>, pieces: seq<Piece<K>>) {
    forall i :: 0 <= i < |pieces| ==>
      EndOf(pieces[..i]) < pieces[i].end && g.allows(EndOf(pieces[..i]), pieces[i].end, pieces[i].kind)
  }

  function StateAfter<K, Q>(g: Grammar<K, Q>, pieces: seq<Piece<K>>): Option<Q> {
    if pieces == [] then Some(g.start)
    else
      match StateAfter(g, pieces[..|pieces| - 1])
      case None => None
      case Some(q) => g.next(q, pieces[|pieces| - 1].kind)
  }

  /** The text up to `end` can be cut so that the state is then `q`. */
  ghost predicate Reachable<K(!new), Q>(g: Grammar<K, Q>, end: nat, q: Q) {
    exists pieces: seq<Piece<K>> :: IsCut(g, pieces) && EndOf(pieces) == end && StateAfter(g, pieces) == Some(q)
  }

  ghost predicate Moves<K, Q>(g: Grammar<K, Q>, start: nat, end: nat, p: Q, k: K, q: Q) {
    start < end && g.allows(start, end, k) && g.next(p, k) == Some(q)
  }

  /** What the scan knows before it looks at `offset`: what the pieces that begin earlier lead to. */
  ghost predicate Known<K(!new), Q(!new)>(g: Grammar<K, Q>, offset: nat, end: nat, q: Q) {
    || (end == 0 && q == g.start)
    || exists start: nat, p: Q, k: K :: start < offset && Reachable(g, start, p) && Moves(g, start, end, p, k, q)
  }

  lemma CutExtends<K(!new), Q(!new)>(g: Grammar<K, Q>, front: seq<Piece<K>>, last: Piece<K>)
    ensures IsCut(g, front + [last]) <==>
              IsCut(g, front) && EndOf(front) < last.end && g.allows(EndOf(front), last.end, last.kind)
    ensures EndOf(front + [last]) == last.end
    ensures StateAfter(g, front + [last]) ==
              if StateAfter(g, front).None? then None else g.next(StateAfter(g, front).value, last.kind)
  {
    var pieces := front + [last];
    assert pieces[..|front|] == front;
    assert forall i :: 0 <= i < |front| ==> pieces[..i] == front[..i] && pieces[i] == front[i];
  }

  lemma ReachableIsKnown<K(!new), Q(!new)>(g: Grammar<K, Q>, offset: nat, end: nat, q: Q)
    requires end <= offset
    ensures Reachable(g, end, q) <==> Known(g, offset, end, q)
  {
    hide IsCut, StateAfter;
    EmptyCut(g);
    if Reachable(g, end, q) {
      var pieces: seq<Piece<K>> :| IsCut(g, pieces) && EndOf(pieces) == end && StateAfter(g, pieces) == Some(q);
      if pieces != [] {
        var front, last := pieces[..|pieces| - 1], pieces[|pieces| - 1];
        assert pieces == front + [last];
        CutExtends(g, front, last);
        assert Reachable(g, EndOf(front), StateAfter(g, front).value);
        assert Moves(g, EndOf(front), end, StateAfter(g, front).value, last.kind, q);
      }
    }
    if Known(g, offset, end, q) && !(end == 0 && q == g.start) {
      var start: nat, p: Q, k: K :| start < offset && Reachable(g, start, p) && Moves(g, start, end, p, k, q);
      var front: seq<Piece<K>> :| IsCut(g, front) && EndOf(front) == start && StateAfter(g, front) == Some(p);
      CutExtends(g, front, Piece(end, k));
    }
  }

  lemma EmptyCut<K(!new), Q(!new)>(g: Grammar<K, Q>)
    ensures IsCut(g, []) && StateAfter(g, []) == Some(g.start) && Reachable(g, 0, g.start)
  {
    assert IsCut(g, []) && EndOf<K>([]) == 0;
  }

  /** One turn of the scan: following every piece that begins at `offset` makes it ready for the next. */
  lemma ScanStep<K(!new), Q(!new)>(g: Grammar<K, Q>, offset: nat, before: set<(nat, Q)>, after: set<(nat, Q)>)
    requires forall end: nat, q :: (end, q) in before <==> Known(g, offset, end, q)
    requires forall end: nat, q :: (end, q) in after <==>
               ((end, q) in before || exists p, k :: (offset, p) in before && Moves(g, offset, end, p, k, q))
    ensures forall end: nat, q :: (end, q) in after <==> Known(g, offset + 1, end, q)
  {
    forall p
      ensures (offset, p) in before <==> Reachable(g, offset, p)
    {
      ReachableIsKnown(g, offset, offset, p);
      assert (offset, p) in before <==> Known(g, offset, offset, p);
    }
    forall end: nat, q
      ensures (end, q) in after <==> Known(g, offset + 1, end, q)
    {
      if (end, q) in after && (end, q) !in before {
        var p, k :| (offset, p) in before && Moves(g, offset, end, p, k, q);
        assert offset < offset + 1 && Reachable(g, offset, p) && Moves(g, offset, end, p, k, q);
      }
      if Known(g, offset + 1, end, q) && !(end == 0 && q == g.start) {
        var start: nat, p: Q, k: K :| start < offset + 1 && Reachable(g, start, p) && Moves(g, start, end, p, k, q);
        if start == offset {
          assert (offset, p) in before && Moves(g, offset, end, p, k, q);
        }
      }
    }
  }

  // ----- the same turn, one state of a list at a time -----

  ghost predicate ScanKnows<K(!new), Q(!new)>(g: Grammar<K, Q>, offset: nat, states: set<(nat, Q)>) {
    forall e: nat, q :: (e, q) in states <==> Known(g, offset, e, q)
  }

  /** `after` adds what the state `q` at `offset` leads to. */
  ghost predicate Follows<K(!new), Q(!new)>(g: Grammar<K, Q>, offset: nat, q: Q, before: set<(nat, Q)>,
                                            after: set<(nat, Q)>)
  {
    forall e: nat, s :: (e, s) in after <==> ((e, s) in before || exists k :: Moves(g, offset, e, q, k, s))
  }

  /** `after` adds what the first `n` states of the list lead to. */
  ghost predicate Followed<K(!new), Q(!new)>(g: Grammar<K, Q>, offset: nat, all: seq<Q>, n: nat, before: set<(nat, Q)>,
                                             after: set<(nat, Q)>)
    requires n <= |all|
  {
    forall e: nat, s :: (e, s) in after <==>
      ((e, s) in before || exists i, k :: 0 <= i < n && (offset, all[i]) in before && Moves(g, offset, e, all[i], k, s))
  }

  lemma FollowedByNone<K(!new), Q(!new)>(g: Grammar<K, Q>, offset: nat, all: seq<Q>, before: set<(nat, Q)>)
    ensures Followed(g, offset, all, 0, before, before)
  {
  }

  lemma FollowedByOne<K(!new), Q(!new)>(
      g: Grammar<K, Q>, offset: nat, all: seq<Q>, n: nat,
      before: set<(nat, Q)>, after: set<(nat, Q)>, next: set<(nat, Q)>)
    requires n < |all| && Followed(g, offset, all, n, before, after)
    requires if (offset, all[n]) in after then Follows(g, offset, all[n], after, next) else next == after
    ensures Followed(g, offset, all, n + 1, before, next)
  {
    assert (offset, all[n]) in after <==> (offset, all[n]) in before;
    forall e: nat, s
      ensures (e, s) in next <==>
        || (e, s) in before
        || exists i, k :: 0 <= i < n + 1 && (offset, all[i]) in before && Moves(g, offset, e, all[i], k, s)
    {
      if (e, s) in next && (e, s) !in after {
        var k :| Moves(g, offset, e, all[n], k, s);
        assert (offset, all[n]) in before && Moves(g, offset, e, all[n], k, s);
      }
    }
  }

  lemma FollowedByAll<K(!new), Q(!new)>(g: Grammar<K, Q>, offset: nat, all: seq<Q>, before: set<(nat, Q)>,
                                        after: set<(nat, Q)>)
    requires ScanKnows(g, offset, before) && Followed(g, offset, all, |all|, before, after)
    requires forall q :: q in all
    ensures ScanKnows(g, offset + 1, after)
  {
    hide Known;
    forall e: nat, s
      ensures (e, s) in after <==>
                ((e, s) in before || exists p, k :: (offset, p) in before && Moves(g, offset, e, p, k, s))
    {
      if p, k :| (offset, p) in before && Moves(g, offset, e, p, k, s) {
        assert p in all;
        var i :| 0 <= i < |all| && all[i] == p;
        assert (offset, all[i]) in before && Moves(g, offset, e, all[i], k, s);
      }
    }
    ScanStep(g, offset, before, after);
  }

  lemma ScanBegins<K(!new), Q(!new)>(g: Grammar<K, Q>)
    ensures ScanKnows(g, 0, {(0, g.start)})
  {
  }
}
