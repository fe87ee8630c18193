/** Keeping the best few of a stream (`retainBest`, scripts/ops/groups-inventory-report.ts). */
module TopRanked {
  /** A comparator's "comes before", as sorting needs it: ties are allowed, contradictions are not. */
  ghost predicate IsOrder<T(!new)>(before: (T, T) -> bool) {
    && (forall a, b :: before(a, b) ==> !before(b, a))
    && (forall a, b, c :: !before(a, b) && !before(b, c) ==> !before(a, c))
  }

  ghost predicate IsRanked<T>(xs: seq<T>, before: (T, T) -> bool) {
    forall i, j :: 0 <= i < j < |xs| ==> !before(xs[j], xs[i])
  }

  predicate NoRepeats<T(==)>(xs: seq<T>) { forall i, j :: 0 <= i < j < |xs| ==> xs[i] != xs[j] }

  function Take<T>(xs: seq<T>, n: nat): seq<T> { if |xs| <= n then xs else xs[..n] }

  /** The first place that `v` comes before, or the end. */
  function Place<T>(xs: seq<T>, v: T, before: (T, T) -> bool): (i: nat)
    ensures i <= |xs|
    ensures i < |xs| ==> before(v, xs[i])
    ensures forall j :: 0 <= j < i ==> !before(v, xs[j])
  {
    if xs == [] || before(v, xs[0]) then 0 else 1 + Place(xs[1..], v, before)
  }

  function Insert<T>(xs: seq<T>, v: T, before: (T, T) -> bool): seq<T> {
    var i := Place(xs, v, before);
    xs[..i] + [v] + xs[i..]
  }

  /** The whole stream, stably sorted. */
  function Ranked<T>(stream: seq<T>, before: (T, T) -> bool): (r: seq<T>)
    ensures |r| == |stream|
  {
    if stream == [] then [] else Insert(Ranked(stream[..|stream| - 1], before), stream[|stream| - 1], before)
  }

  method RetainBest<T>(values: seq<T>, value: T, before: (T, T) -> bool, limit: nat) returns (r: seq<T>)
    requires |values| <= limit
    ensures r == Take(Insert(values, value, before), limit)
  {
    var i := 0;
    while i < |values| && !before(value, values[i])
      invariant i <= |values|
      invariant forall j :: 0 <= j < i ==> !before(value, values[j])
    {
      i := i + 1;
    }
    assert i == Place(values, value, before);
    if i == |values| {
      r := if |values| < limit then values + [value] else values;
      return;
    }
    r := values[..i] + [value] + values[i..];
    if |r| > limit {
      r := r[..|r| - 1];
    }
  }

  lemma PlaceIsFirst<T>(xs: seq<T>, v: T, before: (T, T) -> bool, i: nat)
    requires i <= |xs| && (forall j :: 0 <= j < i ==> !before(v, xs[j])) && (i < |xs| ==> before(v, xs[i]))
    ensures Place(xs, v, before) == i
  {
  }

  /** Dropping all but the best before an insertion loses nothing of the best after it. */
  lemma TakeThenInsert<T>(xs: seq<T>, v: T, before: (T, T) -> bool, n: nat)
    ensures Take(Insert(Take(xs, n), v, before), n) == Take(Insert(xs, v, before), n)
  {
    var i := Place(xs, v, before);
    if |xs| > n {
      var few := xs[..n];
      PlaceIsFirst(few, v, before, if i < n then i else n);
      if i < n {
        assert few[..i] + [v] + few[i..] == (xs[..i] + [v] + xs[i..])[..n + 1];
      } else {
        assert few[..n] + [v] + few[n..] == few + [v];
        assert (xs[..i] + [v] + xs[i..])[..n] == few;
      }
    }
  }

  lemma InsertIsRanked<T(!new)>(xs: seq<T>, v: T, before: (T, T) -> bool)
    requires IsOrder(before) && IsRanked(xs, before)
    ensures IsRanked(Insert(xs, v, before), before)
  {
    var i := Place(xs, v, before);
    var r := Insert(xs, v, before);
    forall j, k | 0 <= j < k < |r|
      ensures !before(r[k], r[j])
    {
      if j == i {
        assert r[k] == xs[k - 1] && (k - 1 > i ==> !before(xs[k - 1], xs[i]));
        assert before(v, xs[i]) && !before(xs[i], v);
      }
    }
  }

  lemma {:induction false} RankedIsRanked<T(!new)>(stream: seq<T>, before: (T, T) -> bool)
    requires IsOrder(before)
    ensures IsRanked(Ranked(stream, before), before)
  {
    if stream != [] {
      RankedIsRanked(stream[..|stream| - 1], before);
      InsertIsRanked(Ranked(stream[..|stream| - 1], before), stream[|stream| - 1], before);
    }
  }

  lemma {:induction false} RankedKeepsAll<T>(stream: seq<T>, before: (T, T) -> bool)
    ensures forall x :: x in Ranked(stream, before) <==> x in stream
    ensures NoRepeats(stream) ==> NoRepeats(Ranked(stream, before))
  {
    if stream != [] {
      var front, last := stream[..|stream| - 1], stream[|stream| - 1];
      RankedKeepsAll(front, before);
      var sorted := Ranked(front, before);
      var i := Place(sorted, last, before);
      assert sorted == sorted[..i] + sorted[i..];
      assert forall x :: x in stream <==> x in front || x == last;
      if NoRepeats(stream) {
        assert NoRepeats(front) && last !in front;
        InsertKeepsNoRepeats(sorted, last, i);
      }
    }
  }

  lemma InsertKeepsNoRepeats<T>(xs: seq<T>, v: T, i: nat)
    requires NoRepeats(xs) && v !in xs && i <= |xs|
    ensures NoRepeats(xs[..i] + [v] + xs[i..])
  {
    var r := xs[..i] + [v] + xs[i..];
    assert forall j :: 0 <= j < |r| ==> r[j] == if j < i then xs[j] else if j == i then v else xs[j - 1];
  }

  lemma {:induction false} RankedOfRanked<T>(xs: seq<T>, before: (T, T) -> bool)
    requires IsRanked(xs, before)
    ensures Ranked(xs, before) == xs
  {
    if xs != [] {
      var front := xs[..|xs| - 1];
      RankedOfRanked(front, before);
      PlaceIsFirst(front, xs[|xs| - 1], before, |front|);
    }
  }

  lemma {:induction false} RankedMultiset<T>(stream: seq<T>, before: (T, T) -> bool)
    ensures multiset(Ranked(stream, before)) == multiset(stream)
  {
    if stream != [] {
      var front := stream[..|stream| - 1];
      RankedMultiset(front, before);
      var sorted := Ranked(front, before);
      var i := Place(sorted, stream[|stream| - 1], before);
      assert sorted == sorted[..i] + sorted[i..];
      assert stream == front + [stream[|stream| - 1]];
    }
  }

  /** Where the comparator tells any two values apart, sorting forgets the order things came in. */
  lemma {:induction false} SortedIsUnique<T>(xs: seq<T>, ys: seq<T>, before: (T, T) -> bool)
    requires IsRanked(xs, before) && IsRanked(ys, before) && multiset(xs) == multiset(ys)
    requires forall a, b :: a in xs && b in xs && !before(a, b) && !before(b, a) ==> a == b
    ensures xs == ys
  {
    assert |multiset(xs)| == |xs| && |multiset(ys)| == |ys|;
    if xs != [] {
      SameMembers(xs, ys);
      HeadIsFirst(xs, ys[0], before);
      HeadIsFirst(ys, xs[0], before);
      assert xs[0] == ys[0];
      SameTails(xs, ys);
      assert forall a :: a in xs[1..] ==> a in xs;
      SortedIsUnique(xs[1..], ys[1..], before);
    }
  }

  lemma {:induction false} NoRepeatsCount<T>(s: seq<T>)
    requires NoRepeats(s)
    ensures forall x :: multiset(s)[x] == if x in s then 1 else 0
  {
    if s != [] {
      var front, last := s[..|s| - 1], s[|s| - 1];
      NoRepeatsCount(front);
      assert s == front + [last];
      assert last !in front;
    }
  }

  lemma SameMultiset<T>(s: seq<T>, t: seq<T>)
    requires NoRepeats(s) && NoRepeats(t) && forall x :: x in s <==> x in t
    ensures multiset(s) == multiset(t)
  {
    NoRepeatsCount(s);
    NoRepeatsCount(t);
  }

  lemma SameMembers<T>(xs: seq<T>, ys: seq<T>)
    requires multiset(xs) == multiset(ys)
    ensures forall x :: x in xs <==> x in ys
  {
    assert forall x :: x in xs <==> x in multiset(xs);
    assert forall x :: x in ys <==> x in multiset(ys);
  }

  lemma SameTails<T>(xs: seq<T>, ys: seq<T>)
    requires xs != [] && ys != [] && xs[0] == ys[0] && multiset(xs) == multiset(ys)
    ensures multiset(xs[1..]) == multiset(ys[1..])
  {
    assert xs == [xs[0]] + xs[1..] && ys == [ys[0]] + ys[1..];
    assert multiset(xs[1..]) == multiset(xs) - multiset{xs[0]};
    assert multiset(ys[1..]) == multiset(ys) - multiset{ys[0]};
  }

  lemma HeadIsFirst<T>(xs: seq<T>, x: T, before: (T, T) -> bool)
    requires IsRanked(xs, before) && x in xs
    ensures !before(x, xs[0]) || x == xs[0]
  {
    var i :| 0 <= i < |xs| && xs[i] == x;
  }

  /** Any two entries differ in the sense of `differ`. */
  ghost predicate Pairwise<T>(xs: seq<T>, differ: (T, T) -> bool) {
    forall i, j :: 0 <= i < j < |xs| ==> differ(xs[i], xs[j])
  }

  lemma {:induction false} RankedIsPairwise<T(!new)>(stream: seq<T>, before: (T, T) -> bool, differ: (T, T) -> bool)
    requires Pairwise(stream, differ) && forall a, b :: differ(a, b) ==> differ(b, a)
    ensures Pairwise(Ranked(stream, before), differ)
  {
    if stream != [] {
      var front, last := stream[..|stream| - 1], stream[|stream| - 1];
      RankedIsPairwise(front, before, differ);
      RankedKeepsAll(front, before);
      var sorted := Ranked(front, before);
      forall k | 0 <= k < |sorted|
        ensures differ(sorted[k], last) && differ(last, sorted[k])
      {
        assert sorted[k] in front;
        var i :| 0 <= i < |front| && front[i] == sorted[k];
        assert differ(stream[i], stream[|front|]);
      }
      InsertIsPairwise(sorted, last, Place(sorted, last, before), differ);
    }
  }

  lemma InsertIsPairwise<T>(xs: seq<T>, v: T, i: nat, differ: (T, T) -> bool)
    requires i <= |xs| && Pairwise(xs, differ)
    requires forall k :: 0 <= k < |xs| ==> differ(xs[k], v) && differ(v, xs[k])
    ensures Pairwise(xs[..i] + [v] + xs[i..], differ)
  {
    var r := xs[..i] + [v] + xs[i..];
    assert forall j :: 0 <= j < |r| ==> r[j] == if j < i then xs[j] else if j == i then v else xs[j - 1];
  }
}
