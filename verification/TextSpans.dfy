/** Covering, merging and masking spans of a token (scripts/ops/groups-inventory-classification.ts). */
module TextSpans {
  import opened TopRanked

  datatype Span = Span(start: nat, end: nat)

  /** Position `i` lies inside one of the spans. */
  predicate Covered(spans: seq<Span>, i: int) {
    exists k :: 0 <= k < |spans| && spans[k].start <= i < spans[k].end
  }

  /** `spansCoverRange`: the greedy walk tells whether every position of the range is covered. */
  method SpansCoverRange(spans: seq<Span>, start: nat, end: nat) returns (r: bool)
    ensures r <==> forall i :: start <= i < end ==> Covered(spans, i)
  {
    var coveredThrough := start;
    while coveredThrough < end
      invariant start <= coveredThrough
      invariant forall i :: start <= i < coveredThrough ==> Covered(spans, i)
      decreases end - coveredThrough
    {
      var next := coveredThrough;
      for k := 0 to |spans|
        invariant coveredThrough <= next
        invariant forall i :: coveredThrough <= i < next ==> Covered(spans, i)
        invariant next == coveredThrough ==> !Covered(spans[..k], coveredThrough)
      {
        assert forall i :: Covered(spans[..k + 1], i) ==> Covered(spans[..k], i) || spans[k].start <= i < spans[k].end;
        if spans[k].start <= coveredThrough && spans[k].end > next {
          next := spans[k].end;
        }
      }
      assert spans[..|spans|] == spans;
      if next == coveredThrough {
        return false;
      }
      coveredThrough := next;
    }
    return true;
  }

  predicate SpanBefore(a: Span, b: Span) { a.start < b.start || (a.start == b.start && a.end < b.end) }

  predicate AreSpans(spans: seq<Span>) { forall k :: 0 <= k < |spans| ==> spans[k].start < spans[k].end }

  /** In order, with a gap between any two. */
  predicate AreApart(spans: seq<Span>) { forall k :: 0 < k < |spans| ==> spans[k - 1].end < spans[k].start }

  lemma CoveredByParts(a: seq<Span>, b: seq<Span>, i: int)
    ensures Covered(a + b, i) <==> Covered(a, i) || Covered(b, i)
  {
    if k :| 0 <= k < |a| && a[k].start <= i < a[k].end {
      assert (a + b)[k] == a[k];
    }
    if k :| 0 <= k < |b| && b[k].start <= i < b[k].end {
      assert (a + b)[|a| + k] == b[k];
    }
  }

  lemma SpanOrder()
    ensures IsOrder(SpanBefore)
  {
  }

  /** Every span ends where one of these does. */
  predicate EndsAmong(merged: seq<Span>, spans: seq<Span>) {
    forall k :: 0 <= k < |merged| ==> IsEnd(spans, merged[k].end)
  }

  /** What is known once the spans of `seen` are merged. */
  ghost predicate IsMerged(merged: seq<Span>, seen: seq<Span>) {
    && AreSpans(merged) && AreApart(merged) && EndsAmong(merged, seen)
    && (merged == [] <==> seen == [])
    && (merged != [] ==> merged[|merged| - 1].start <= seen[|seen| - 1].start)
    && (forall i :: Covered(merged, i) <==> Covered(seen, i))
  }

  function Merge(merged: seq<Span>, span: Span): seq<Span> {
    if merged == [] || span.start > merged[|merged| - 1].end then merged + [span]
    else if span.end > merged[|merged| - 1].end then
      merged[..|merged| - 1] + [Span(merged[|merged| - 1].start, span.end)]
    else merged
  }

  lemma SameCover(a: seq<Span>, b: seq<Span>)
    requires forall s :: s in a <==> s in b
    ensures forall i :: Covered(a, i) <==> Covered(b, i)
  {
    forall i
      ensures Covered(a, i) <==> Covered(b, i)
    {
      if k :| 0 <= k < |a| && a[k].start <= i < a[k].end {
        assert a[k] in b;
      }
      if k :| 0 <= k < |b| && b[k].start <= i < b[k].end {
        assert b[k] in a;
      }
    }
  }

  lemma MergeShape(merged: seq<Span>, span: Span, seen: seq<Span>)
    requires span.start < span.end && IsMerged(merged, seen) && (seen != [] ==> seen[|seen| - 1].start <= span.start)
    ensures AreSpans(Merge(merged, span)) && AreApart(Merge(merged, span))
    ensures EndsAmong(Merge(merged, span), seen + [span])
    ensures Merge(merged, span) != [] && Merge(merged, span)[|Merge(merged, span)| - 1].start <= span.start
  {
    MergeEnds(merged, span, seen);
    hide Covered, EndsAmong;
  }

  predicate IsEnd(spans: seq<Span>, end: nat) { exists l :: 0 <= l < |spans| && spans[l].end == end }

  lemma MergeEnds(merged: seq<Span>, span: Span, seen: seq<Span>)
    requires EndsAmong(merged, seen)
    ensures EndsAmong(Merge(merged, span), seen + [span])
  {
    var next := Merge(merged, span);
    forall k | 0 <= k < |next|
      ensures IsEnd(seen + [span], next[k].end)
    {
      assert next[k].end == span.end || (k < |merged| && next[k].end == merged[k].end);
      EndOfMore(seen, span, next[k].end);
    }
  }

  lemma EndOfMore(seen: seq<Span>, span: Span, end: nat)
    ensures IsEnd(seen + [span], end) <==> IsEnd(seen, end) || end == span.end
  {
    var all := seen + [span];
    assert all[|seen|] == span && forall l :: 0 <= l < |seen| ==> all[l] == seen[l];
  }

  /** The next span, which begins no earlier than the last, adds its positions and no other. */
  lemma MergeCovers(merged: seq<Span>, span: Span, i: int)
    requires span.start < span.end && AreSpans(merged) && (merged != [] ==> merged[|merged| - 1].start <= span.start)
    ensures Covered(Merge(merged, span), i) <==> Covered(merged, i) || span.start <= i < span.end
  {
    CoveredByParts(merged, [span], i);
    OneSpan(span, i);
    if merged != [] && span.start <= merged[|merged| - 1].end {
      var front, last := merged[..|merged| - 1], merged[|merged| - 1];
      var joined := Span(last.start, if span.end > last.end then span.end else last.end);
      CoveredByParts(front, [joined], i);
      CoveredByParts(front, [last], i);
      assert front + [last] == merged;
      OneSpan(joined, i);
      OneSpan(last, i);
      assert Merge(merged, span) == front + [joined];
    }
  }

  lemma MergeStep(merged: seq<Span>, span: Span, seen: seq<Span>)
    requires span.start < span.end && IsMerged(merged, seen) && (seen != [] ==> seen[|seen| - 1].start <= span.start)
    ensures IsMerged(Merge(merged, span), seen + [span])
  {
    hide Covered, Merge;
    MergeShape(merged, span, seen);
    forall i
      ensures Covered(Merge(merged, span), i) <==> Covered(seen + [span], i)
    {
      MergeCovers(merged, span, i);
      CoveredByParts(seen, [span], i);
      OneSpan(span, i);
    }
  }

  lemma NothingMerged()
    ensures IsMerged([], [])
  {
  }

  lemma MergedAll(merged: seq<Span>, sorted: seq<Span>, spans: seq<Span>)
    requires IsMerged(merged, sorted) && forall s :: s in sorted <==> s in spans
    ensures AreSpans(merged) && AreApart(merged) && EndsAmong(merged, spans)
    ensures forall i :: Covered(merged, i) <==> Covered(spans, i)
  {
    SameCover(sorted, spans);
    hide Covered;
    forall k | 0 <= k < |merged|
      ensures IsEnd(spans, merged[k].end)
    {
      assert IsEnd(sorted, merged[k].end);
      var m :| 0 <= m < |sorted| && sorted[m].end == merged[k].end;
      assert sorted[m] in spans;
    }
  }

  /** `mergedTextSpans`: the same positions, in separate spans from left to right. */
  method MergedTextSpans(spans: seq<Span>) returns (merged: seq<Span>)
    requires AreSpans(spans)
    ensures AreSpans(merged) && AreApart(merged) && EndsAmong(merged, spans)
    ensures forall i :: Covered(merged, i) <==> Covered(spans, i)
  {
    var sorted := Ranked(spans, SpanBefore);
    SpanOrder();
    RankedIsRanked(spans, SpanBefore);
    RankedKeepsAll(spans, SpanBefore);
    merged := [];
    NothingMerged();
    hide IsMerged, Ranked, Covered;
    for n := 0 to |sorted|
      invariant IsMerged(merged, sorted[..n])
    {
      var span := sorted[n];
      assert span in spans;
      assert n > 0 ==> !SpanBefore(span, sorted[n - 1]);
      assert sorted[..n + 1] == sorted[..n] + [span];
      MergeStep(merged, span, sorted[..n]);
      if merged == [] || span.start > merged[|merged| - 1].end {
        merged := merged + [span];
      } else if span.end > merged[|merged| - 1].end {
        merged := merged[..|merged| - 1] + [Span(merged[|merged| - 1].start, span.end)];
      }
    }
    assert sorted[..|sorted|] == sorted;
    MergedAll(merged, sorted, spans);
  }

  lemma OneSpan(s: Span, i: int)
    ensures Covered([s], i) <==> s.start <= i < s.end
  {
    assert [s][0] == s;
  }

  /** `maskTextSpans`: a tilde at every covered position, and nothing else changes. */
  method MaskTextSpans(token: string, spans: seq<Span>) returns (masked: string)
    requires AreSpans(spans) && forall k :: 0 <= k < |spans| ==> spans[k].end <= |token|
    ensures |masked| == |token|
    ensures forall i :: 0 <= i < |token| ==> masked[i] == if Covered(spans, i) then '~' else token[i]
  {
    var merged := MergedTextSpans(spans);
    masked := "";
    var offset := 0;
    for k := 0 to |merged|
      invariant offset == |masked| == (if k == 0 then 0 else merged[k - 1].end) <= |token|
      invariant forall i :: 0 <= i < offset ==> masked[i] == if Covered(merged[..k], i) then '~' else token[i]
      invariant forall i :: offset <= i ==> !Covered(merged[..k], i)
    {
      var span := merged[k];
      assert IsEnd(spans, span.end);
      var next := merged[..k + 1];
      assert next == merged[..k] + [span];
      forall i
        ensures Covered(next, i) <==> Covered(merged[..k], i) || span.start <= i < span.end
      {
        CoveredByParts(merged[..k], [span], i);
        OneSpan(span, i);
      }
      hide Covered;
      ghost var before, from := masked, offset;
      masked := masked + token[offset..span.start] + seq(span.end - span.start, _ => '~');
      offset := span.end;
      assert forall i :: 0 <= i < from ==> masked[i] == before[i];
      assert forall i :: from <= i < span.start ==> masked[i] == token[i];
      assert forall i :: span.start <= i < offset ==> masked[i] == '~';
      assert forall i :: from <= i ==> !Covered(merged[..k], i);
    }
    assert merged[..|merged|] == merged;
    masked := masked + token[offset..];
  }
}
