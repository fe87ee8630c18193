/**
 balanceShards of scripts/test.ts: longest-processing-time-first placement of test files on shards.
 File sizes are a parameter, since the source reads them from the file system.
 */
module ShardBalance {
  import opened Wrappers

  datatype Weighted = Weighted(file: string, weight: nat)

  datatype Shard = Shard(files: seq<string>, weight: nat)

  /** `reduce` of an empty array without an initial value throws. */
  datatype BalanceError = ReduceOfEmptyArray

  // ----- placements and their loads -----

  function Weights(s: seq<Weighted>): (ws: seq<nat>)
    ensures |ws| == |s| && forall i :: 0 <= i < |s| ==> ws[i] == s[i].weight
  {
    seq(|s|, i requires 0 <= i < |s| => s[i].weight)
  }

  function Sum(ws: seq<nat>): nat {
    if ws == [] then 0 else Sum(ws[..|ws| - 1]) + ws[|ws| - 1]
  }

  /** What placement `a`, item by item, puts on shard `p`. */
  function Load(ws: seq<nat>, a: seq<nat>, p: nat): nat
    requires |a| == |ws|
  {
    if ws == [] then 0
    else Load(ws[..|ws| - 1], a[..|a| - 1], p) + if a[|a| - 1] == p then ws[|ws| - 1] else 0
  }

  function Loads(ws: seq<nat>, a: seq<nat>, m: nat): (loads: seq<nat>)
    requires |a| == |ws|
    ensures |loads| == m && forall p :: 0 <= p < m ==> loads[p] == Load(ws, a, p)
  {
    seq(m, p requires 0 <= p < m => Load(ws, a, p))
  }

  ghost predicate IsPlacement(ws: seq<nat>, a: seq<nat>, m: nat) {
    |a| == |ws| && forall i :: 0 <= i < |a| ==> a[i] < m
  }

  /** Some way of spreading the items over `m` shards keeps every shard within `cap`. */
  ghost predicate Fits(ws: seq<nat>, a: seq<nat>, m: nat, cap: nat) {
    IsPlacement(ws, a, m) && forall p :: 0 <= p < m ==> Load(ws, a, p) <= cap
  }

  ghost predicate Descending(ws: seq<nat>) {
    forall i, j :: 0 <= i < j < |ws| ==> ws[j] <= ws[i]
  }

  // ----- the greedy rule -----

  /** The index `reduce` ends at: the first of the lightest. */
  function Lightest(loads: seq<nat>): (k: nat)
    requires loads != []
    ensures k < |loads|
    ensures forall p :: 0 <= p < |loads| ==> loads[k] <= loads[p]
    ensures forall p :: 0 <= p < k ==> loads[k] < loads[p]
  {
    if |loads| == 1 then 0
    else
      var k := Lightest(loads[..|loads| - 1]);
      if loads[|loads| - 1] < loads[k] then |loads| - 1 else k
  }

  /** Where the greedy rule puts each item in turn. */
  function Greedy(ws: seq<nat>, m: nat): (a: seq<nat>)
    requires m >= 1
    ensures IsPlacement(ws, a, m)
  {
    if ws == [] then []
    else
      var a := Greedy(ws[..|ws| - 1], m);
      a + [Lightest(Loads(ws[..|ws| - 1], a, m))]
  }

  /** The items of `s` that placement `a` puts on shard `p`, in order. */
  function FilesAt(s: seq<Weighted>, a: seq<nat>, p: nat): seq<string>
    requires |a| == |s|
  {
    if s == [] then []
    else FilesAt(s[..|s| - 1], a[..|a| - 1], p) + if a[|a| - 1] == p then [s[|s| - 1].file] else []
  }

  // ----- the sort -----

  /** Array.prototype.sort by falling weight: insertion, which keeps equal weights in their order. */
  function SortByWeight(s: seq<Weighted>): seq<Weighted> {
    if s == [] then [] else Insert(s[0], SortByWeight(s[1..]))
  }

  function Insert(x: Weighted, s: seq<Weighted>): seq<Weighted> {
    if s == [] || s[0].weight <= x.weight then [x] + s else [s[0]] + Insert(x, s[1..])
  }

  function OfWeight(s: seq<Weighted>, w: nat): seq<Weighted> {
    if s == [] then [] else (if s[0].weight == w then [s[0]] else []) + OfWeight(s[1..], w)
  }

  /** The three clauses leave one possible result: a stable sort by falling weight. */
  lemma {:induction false} SortIsStableAndDescending(s: seq<Weighted>)
    ensures Descending(Weights(SortByWeight(s)))
    ensures multiset(SortByWeight(s)) == multiset(s)
    ensures forall w :: OfWeight(SortByWeight(s), w) == OfWeight(s, w)
  {
    if s != [] {
      var sorted := SortByWeight(s[1..]);
      SortIsStableAndDescending(s[1..]);
      InsertPermutes(s[0], sorted);
      InsertDescends(s[0], sorted);
      forall w ensures OfWeight(SortByWeight(s), w) == OfWeight(s, w) { InsertIsStable(s[0], sorted, w); }
      assert s == [s[0]] + s[1..];
    }
  }

  lemma {:induction false} InsertPermutes(x: Weighted, s: seq<Weighted>)
    ensures multiset(Insert(x, s)) == multiset{x} + multiset(s)
  {
    if s == [] || s[0].weight <= x.weight {
    } else {
      InsertPermutes(x, s[1..]);
      assert s == [s[0]] + s[1..];
    }
  }

  lemma {:induction false} InsertDescends(x: Weighted, s: seq<Weighted>)
    requires Descending(Weights(s))
    ensures Descending(Weights(Insert(x, s)))
  {
    if s == [] || s[0].weight <= x.weight {
      assert forall k :: 0 <= k < |s| ==> Weights(s)[k] <= Weights(s)[0];
      ConsDescends(x, s);
    } else {
      var rest := Insert(x, s[1..]);
      assert Weights(s[1..]) == Weights(s)[1..];
      InsertDescends(x, s[1..]);
      InsertPermutes(x, s[1..]);
      forall j | 0 <= j < |rest| ensures rest[j].weight <= s[0].weight {
        assert rest[j] in multiset(rest);
        if rest[j] != x {
          assert rest[j] in s[1..];
          var k :| 0 <= k < |s[1..]| && s[1..][k] == rest[j];
          assert Weights(s)[k + 1] <= Weights(s)[0];
        }
      }
      ConsDescends(s[0], rest);
    }
  }

  lemma ConsDescends(x: Weighted, s: seq<Weighted>)
    requires Descending(Weights(s)) && forall k :: 0 <= k < |s| ==> s[k].weight <= x.weight
    ensures Descending(Weights([x] + s))
  {
    var all := [x] + s;
    forall i, j | 0 <= i < j < |all| ensures all[j].weight <= all[i].weight {
      assert all[j] == s[j - 1];
      if i > 0 { assert Weights(s)[j - 1] <= Weights(s)[i - 1]; }
    }
  }

  lemma {:induction false} InsertIsStable(x: Weighted, s: seq<Weighted>, w: nat)
    ensures OfWeight(Insert(x, s), w) == (if x.weight == w then [x] else []) + OfWeight(s, w)
  {
    if s == [] || s[0].weight <= x.weight {
      ConsOfWeight(x, s, w);
    } else {
      InsertIsStable(x, s[1..], w);
      ConsOfWeight(s[0], Insert(x, s[1..]), w);
      ConsOfWeight(s[0], s[1..], w);
      assert s == [s[0]] + s[1..];
      hide OfWeight;
      var of, first := OfWeight(s[1..], w), [x];
      if x.weight == w {
        assert OfWeight(s, w) == [] + of;
      } else {
        assert [] + of == of;
      }
    }
  }

  lemma ConsOfWeight(x: Weighted, s: seq<Weighted>, w: nat)
    ensures OfWeight([x] + s, w) == (if x.weight == w then [x] else []) + OfWeight(s, w)
  {
    assert ([x] + s)[1..] == s;
  }

  // ----- the bound -----

  lemma {:induction false} LoadsAddUp(ws: seq<nat>, a: seq<nat>, m: nat)
    requires IsPlacement(ws, a, m)
    ensures Sum(Loads(ws, a, m)) == Sum(ws)
  {
    if ws == [] {
      SumBetween(Loads(ws, a, m), 0, 0);
    } else {
      var last, front, before := |ws| - 1, ws[..|ws| - 1], a[..|a| - 1];
      LoadsAddUp(front, before, m);
      SumAfterUpdate(Loads(front, before, m), a[last], ws[last]);
      assert Loads(ws, a, m) == Loads(front, before, m)[a[last] := Load(front, before, a[last]) + ws[last]];
    }
  }

  lemma {:induction false} SumAfterUpdate(s: seq<nat>, k: nat, x: nat)
    requires k < |s|
    ensures Sum(s[k := s[k] + x]) == Sum(s) + x
  {
    var n := |s| - 1;
    if k == n {
      assert s[k := s[k] + x][..n] == s[..n];
    } else {
      SumAfterUpdate(s[..n], k, x);
      assert s[k := s[k] + x][..n] == s[..n][k := s[k] + x];
    }
  }

  lemma {:induction false} SumBetween(s: seq<nat>, low: nat, high: nat)
    requires forall i :: 0 <= i < |s| ==> low <= s[i] <= high
    ensures low * |s| <= Sum(s) <= high * |s|
  {
    if s != [] {
      SumBetween(s[..|s| - 1], low, high);
      assert low * |s| == low * (|s| - 1) + low && high * |s| == high * (|s| - 1) + high;
    }
  }

  lemma {:induction false} ItemWithinLoad(ws: seq<nat>, a: seq<nat>, i: nat)
    requires |a| == |ws| && i < |ws|
    ensures ws[i] <= Load(ws, a, a[i])
  {
    if i < |ws| - 1 {
      ItemWithinLoad(ws[..|ws| - 1], a[..|a| - 1], i);
    }
  }

  /**
   The duty of an item next to a least item `w` under `cap`: two if nothing can share its shard,
   one otherwise.
   */
  function Duties(ws: seq<nat>, w: nat, cap: nat): (ds: seq<nat>)
    ensures |ds| == |ws| && forall i :: 0 <= i < |ws| ==> ds[i] == if ws[i] + w > cap then 2 else 1
  {
    seq(|ws|, i requires 0 <= i < |ws| => if ws[i] + w > cap then 2 else 1)
  }

  /** When three least items do not fit, a shard within the cap has at most two duties. */
  lemma {:induction false} DutiesWithinCap(ws: seq<nat>, a: seq<nat>, p: nat, w: nat, cap: nat)
    requires |a| == |ws| && cap < 3 * w && forall i :: 0 <= i < |ws| ==> w <= ws[i]
    ensures var duty := Load(Duties(ws, w, cap), a, p);
            && (duty == 1 ==> Load(ws, a, p) >= w)
            && (duty == 2 ==> Load(ws, a, p) + w > cap)
            && (duty >= 3 ==> Load(ws, a, p) > cap)
  {
    if ws != [] {
      DutiesWithinCap(ws[..|ws| - 1], a[..|a| - 1], p, w, cap);
      assert Duties(ws, w, cap)[..|ws| - 1] == Duties(ws[..|ws| - 1], w, cap);
    }
  }

  /** A shard that a further least item would overfill has at least two duties. */
  lemma {:induction false} DutiesWhenOverfull(ws: seq<nat>, a: seq<nat>, p: nat, w: nat, cap: nat)
    requires |a| == |ws| && w <= cap
    ensures var duty := Load(Duties(ws, w, cap), a, p);
            && (duty == 0 ==> Load(ws, a, p) == 0)
            && (duty == 1 ==> Load(ws, a, p) + w <= cap)
  {
    if ws != [] {
      DutiesWhenOverfull(ws[..|ws| - 1], a[..|a| - 1], p, w, cap);
      assert Duties(ws, w, cap)[..|ws| - 1] == Duties(ws[..|ws| - 1], w, cap);
    }
  }

  /**
   When three of the least item do not fit under the cap, putting it on a lightest shard fits: by
   counting duties, some shard must have room.
   */
  lemma LargeLastItemFits(front: seq<nat>, w: nat, a: seq<nat>, lightest: nat, b: seq<nat>, m: nat, cap: nat)
    requires m >= 1 && Fits(front + [w], b, m, cap) && IsPlacement(front, a, m)
    requires forall i :: 0 <= i < |front| ==> w <= front[i]
    requires cap < 3 * w
    requires forall p :: 0 <= p < m ==> lightest <= Load(front, a, p)
    ensures lightest + w <= cap
  {
    var ws := front + [w];
    ItemWithinLoad(ws, b, |front|);
    if lightest + w > cap {
      var duties, before := Duties(ws, w, cap), Duties(front, w, cap);
      assert duties[..|front|] == before;
      forall p | 0 <= p < m ensures Load(duties, b, p) <= 2 { DutiesWithinCap(ws, b, p, w, cap); }
      LoadsAddUp(duties, b, m);
      SumBetween(Loads(duties, b, m), 0, 2);
      forall p | 0 <= p < m ensures Load(before, a, p) >= 2 { DutiesWhenOverfull(front, a, p, w, cap); }
      LoadsAddUp(before, a, m);
      LowerSum(Loads(before, a, m), 2);
    }
  }

  lemma {:induction false} LowerSum(s: seq<nat>, low: nat)
    requires forall i :: 0 <= i < |s| ==> low <= s[i]
    ensures low * |s| <= Sum(s)
  {
    if s != [] {
      LowerSum(s[..|s| - 1], low);
      assert low * |s| == low * (|s| - 1) + low;
    }
  }

  /** Averaging: the lightest shard, times the number of shards, is at most the total. */
  lemma LightestWithinAverage(ws: seq<nat>, a: seq<nat>, lightest: nat, m: nat)
    requires IsPlacement(ws, a, m) && forall p :: 0 <= p < m ==> lightest <= Load(ws, a, p)
    ensures lightest * m <= Sum(ws)
  {
    LowerSum(Loads(ws, a, m), lightest);
    LoadsAddUp(ws, a, m);
  }

  lemma TotalWithinCaps(ws: seq<nat>, b: seq<nat>, m: nat, cap: nat)
    requires Fits(ws, b, m, cap)
    ensures Sum(ws) <= cap * m
  {
    SumBetween(Loads(ws, b, m), 0, cap);
    LoadsAddUp(ws, b, m);
  }

  /** One more item on a lightest shard, whatever the order. */
  lemma PlacedWithinAverage(front: seq<nat>, w: nat, a: seq<nat>, lightest: nat, b: seq<nat>, m: nat, cap: nat)
    requires m >= 1 && Fits(front + [w], b, m, cap) && IsPlacement(front, a, m)
    requires forall p :: 0 <= p < m ==> lightest <= Load(front, a, p)
    ensures m * (lightest + w) <= m * cap + (m - 1) * w && w <= cap
  {
    LightestWithinAverage(front, a, lightest, m);
    TotalWithinCaps(front + [w], b, m, cap);
    ItemWithinLoad(front + [w], b, |front|);
    assert (front + [w])[..|front|] == front;
    assert m * (lightest + w) == lightest * m + m * w;
    assert (m - 1) * w == m * w - w;
  }

  lemma ScaleUp(k: nat, x: nat, y: nat)
    requires x <= y
    ensures k * x <= k * y
  {
  }

  /** One more least item on a lightest shard: the bound (4m - 1) / 3m. */
  lemma PlacedWithinFourThirds(front: seq<nat>, w: nat, a: seq<nat>, lightest: nat, b: seq<nat>, m: nat, cap: nat)
    requires m >= 1 && Fits(front + [w], b, m, cap) && IsPlacement(front, a, m)
    requires forall i :: 0 <= i < |front| ==> w <= front[i]
    requires forall p :: 0 <= p < m ==> lightest <= Load(front, a, p)
    ensures WithinFourThirds(m, lightest + w, cap)
  {
    if cap < 3 * w {
      LargeLastItemFits(front, w, a, lightest, b, m, cap);
      ScaleUp(3 * m, lightest + w, cap);
      ScaleUp(cap, 3 * m, 4 * m - 1);
    } else {
      PlacedWithinAverage(front, w, a, lightest, b, m, cap);
      FourThirdsArithmetic(m, lightest + w, w, cap);
    }
  }

  predicate WithinFourThirds(m: nat, load: nat, cap: nat) { 3 * m * load <= (4 * m - 1) * cap }

  predicate WithinTwice(m: nat, load: nat, cap: nat) { m * load <= (2 * m - 1) * cap }

  lemma NoLoadIsWithin(m: nat, cap: nat)
    requires m >= 1
    ensures WithinTwice(m, 0, cap) && WithinFourThirds(m, 0, cap)
  {
  }

  lemma FourThirdsArithmetic(m: nat, x: nat, w: nat, cap: nat)
    requires m >= 1 && m * x <= m * cap + (m - 1) * w && 3 * w <= cap
    ensures WithinFourThirds(m, x, cap)
  {
    ScaleUp(m - 1, 3 * w, cap);
    assert 3 * m * x == 3 * (m * x);
    assert (m - 1) * (3 * w) == 3 * ((m - 1) * w);
    assert (4 * m - 1) * cap == 3 * (m * cap) + (m - 1) * cap;
  }

  lemma TwiceArithmetic(m: nat, x: nat, w: nat, cap: nat)
    requires m >= 1 && m * x <= m * cap + (m - 1) * w && w <= cap
    ensures WithinTwice(m, x, cap)
  {
    ScaleUp(m - 1, w, cap);
    assert (2 * m - 1) * cap == m * cap + (m - 1) * cap;
  }

  lemma PlacedWithinTwice(front: seq<nat>, w: nat, a: seq<nat>, lightest: nat, b: seq<nat>, m: nat, cap: nat)
    requires m >= 1 && Fits(front + [w], b, m, cap) && IsPlacement(front, a, m)
    requires forall p :: 0 <= p < m ==> lightest <= Load(front, a, p)
    ensures WithinTwice(m, lightest + w, cap)
  {
    hide WithinTwice, Fits, Load;
    PlacedWithinAverage(front, w, a, lightest, b, m, cap);
    TwiceArithmetic(m, lightest + w, w, cap);
  }

  /** A placement of a prefix is within the caps of any placement of the whole. */
  lemma FrontFits(front: seq<nat>, w: nat, b: seq<nat>, m: nat, cap: nat)
    requires Fits(front + [w], b, m, cap)
    ensures Fits(front, b[..|front|], m, cap)
  {
    assert (front + [w])[..|front|] == front;
    forall p | 0 <= p < m ensures Load(front, b[..|front|], p) <= cap {
      assert Load(front + [w], b, p) <= cap;
    }
  }

  /** What the next item changes: the load of the shard that was lightest, and no other. */
  lemma GreedyStep(front: seq<nat>, w: nat, m: nat, p: nat) returns (k: nat)
    requires m >= 1 && p < m
    ensures k < m && forall q :: 0 <= q < m ==> Load(front, Greedy(front, m), k) <= Load(front, Greedy(front, m), q)
    ensures Greedy(front + [w], m) == Greedy(front, m) + [k]
    ensures Load(front + [w], Greedy(front + [w], m), p) == Load(front, Greedy(front, m), p) + if p == k then w else 0
  {
    k := Lightest(Loads(front, Greedy(front, m), m));
    assert (front + [w])[..|front|] == front;
    assert (Greedy(front, m) + [k])[..|front|] == Greedy(front, m);
  }

  /** In any order, the greedy rule is within (2m - 1) / m of every placement. */
  lemma {:induction false} GreedyWithinTwice(ws: seq<nat>, m: nat, b: seq<nat>, cap: nat, p: nat)
    requires m >= 1 && p < m && Fits(ws, b, m, cap)
    ensures WithinTwice(m, Load(ws, Greedy(ws, m), p), cap)
  {
    if ws == [] {
      NoLoadIsWithin(m, cap);
    } else {
      hide WithinTwice, Load, Greedy;
      var front, w := ws[..|ws| - 1], ws[|ws| - 1];
      assert ws == front + [w];
      FrontFits(front, w, b, m, cap);
      GreedyWithinTwice(front, m, b[..|front|], cap, p);
      hide Fits;
      OneMoreWithinTwice(front, w, m, b, cap, p);
    }
  }

  lemma OneMoreWithinTwice(front: seq<nat>, w: nat, m: nat, b: seq<nat>, cap: nat, p: nat)
    requires m >= 1 && p < m && Fits(front + [w], b, m, cap) && WithinTwice(m, Load(front, Greedy(front, m), p), cap)
    ensures WithinTwice(m, Load(front + [w], Greedy(front + [w], m), p), cap)
  {
    hide WithinTwice, Load, Greedy, Fits;
    var k := GreedyStep(front, w, m, p);
    if p == k {
      PlacedWithinTwice(front, w, Greedy(front, m), Load(front, Greedy(front, m), k), b, m, cap);
    }
  }

  /** Longest first, the greedy rule is within (4m - 1) / 3m of every placement. */
  lemma {:induction false} GreedyWithinFourThirds(ws: seq<nat>, m: nat, b: seq<nat>, cap: nat, p: nat)
    requires m >= 1 && p < m && Descending(ws) && Fits(ws, b, m, cap)
    ensures WithinFourThirds(m, Load(ws, Greedy(ws, m), p), cap)
  {
    if ws == [] {
      NoLoadIsWithin(m, cap);
    } else {
      hide WithinFourThirds, Load, Greedy;
      var front, w := ws[..|ws| - 1], ws[|ws| - 1];
      assert ws == front + [w];
      FrontFits(front, w, b, m, cap);
      GreedyWithinFourThirds(front, m, b[..|front|], cap, p);
      hide Fits;
      OneMoreWithinFourThirds(front, w, m, b, cap, p);
    }
  }

  lemma OneMoreWithinFourThirds(front: seq<nat>, w: nat, m: nat, b: seq<nat>, cap: nat, p: nat)
    requires m >= 1 && p < m && Descending(front + [w]) && Fits(front + [w], b, m, cap)
    requires WithinFourThirds(m, Load(front, Greedy(front, m), p), cap)
    ensures WithinFourThirds(m, Load(front + [w], Greedy(front + [w], m), p), cap)
  {
    hide WithinFourThirds, Load, Greedy, Fits;
    var k := GreedyStep(front, w, m, p);
    if p == k {
      var all := front + [w];
      assert all[|front|] == w && forall i :: 0 <= i < |front| ==> all[i] == front[i] && all[|front|] <= all[i];
      PlacedWithinFourThirds(front, w, Greedy(front, m), Load(front, Greedy(front, m), k), b, m, cap);
    }
  }

  // ----- balance: no shard is ahead of another by more than its own last file -----

  function LastOn(ws: seq<nat>, a: seq<nat>, p: nat): nat
    requires |a| == |ws|
  {
    if ws == [] then 0
    else if a[|a| - 1] == p then ws[|ws| - 1]
    else LastOn(ws[..|ws| - 1], a[..|a| - 1], p)
  }

  lemma {:induction false} GreedyWithinLastItem(ws: seq<nat>, m: nat, p: nat, q: nat)
    requires m >= 1 && p < m && q < m
    ensures Load(ws, Greedy(ws, m), p) <= Load(ws, Greedy(ws, m), q) + LastOn(ws, Greedy(ws, m), p)
  {
    if ws == [] {
    } else {
      var front, w := ws[..|ws| - 1], ws[|ws| - 1];
      assert ws == front + [w];
      GreedyWithinLastItem(front, m, p, q);
      var k := GreedyStep(front, w, m, p);
      var k' := GreedyStep(front, w, m, q);
      assert (Greedy(front, m) + [k])[|front|] == (Greedy(front, m) + [k'])[|front|];
    }
  }

  // ----- a placement of the files is a placement of the sorted files -----

  lemma {:induction false} LoadCons(x: nat, ws: seq<nat>, q: nat, a: seq<nat>, p: nat)
    requires |a| == |ws|
    ensures Load([x] + ws, [q] + a, p) == (if q == p then x else 0) + Load(ws, a, p)
  {
    if ws == [] {
      assert ([x] + ws)[..0] == [] && ([q] + a)[..0] == [];
    } else {
      assert ([x] + ws)[..|ws|] == [x] + ws[..|ws| - 1] && ([q] + a)[..|a|] == [q] + a[..|a| - 1];
      LoadCons(x, ws[..|ws| - 1], q, a[..|a| - 1], p);
    }
  }

  ghost predicate SameLoads(ws: seq<nat>, a: seq<nat>, ws': seq<nat>, a': seq<nat>) {
    |a| == |ws| && |a'| == |ws'| && forall p :: Load(ws, a, p) == Load(ws', a', p)
  }

  lemma ConsKeepsSameLoads(x: nat, q: nat, ws: seq<nat>, a: seq<nat>, ws': seq<nat>, a': seq<nat>)
    requires SameLoads(ws, a, ws', a')
    ensures SameLoads([x] + ws, [q] + a, [x] + ws', [q] + a')
  {
    forall p ensures Load([x] + ws, [q] + a, p) == Load([x] + ws', [q] + a', p) {
      LoadCons(x, ws, q, a, p);
      LoadCons(x, ws', q, a', p);
    }
  }

  lemma SwapFirstTwo(x: nat, y: nat, ws: seq<nat>, q: nat, r: nat, a: seq<nat>)
    requires |a| == |ws|
    ensures SameLoads([x] + ([y] + ws), [q] + ([r] + a), [y] + ([x] + ws), [r] + ([q] + a))
  {
    forall p ensures Load([x] + ([y] + ws), [q] + ([r] + a), p) == Load([y] + ([x] + ws), [r] + ([q] + a), p) {
      LoadCons(x, [y] + ws, q, [r] + a, p);
      LoadCons(y, ws, r, a, p);
      LoadCons(y, [x] + ws, r, [q] + a, p);
      LoadCons(x, ws, q, a, p);
    }
  }

  lemma {:induction false} InsertKeepsLoads(x: Weighted, s: seq<Weighted>, q: nat, a: seq<nat>, m: nat)
    returns (a': seq<nat>)
    requires IsPlacement(Weights(s), a, m) && q < m
    ensures IsPlacement(Weights(Insert(x, s)), a', m)
    ensures SameLoads([x.weight] + Weights(s), [q] + a, Weights(Insert(x, s)), a')
  {
    if s == [] || s[0].weight <= x.weight {
      a' := [q] + a;
      assert Weights(Insert(x, s)) == [x.weight] + Weights(s);
    } else {
      var y, rest := s[0].weight, Weights(s[1..]);
      assert Weights(s) == [y] + rest && a == [a[0]] + a[1..];
      var tail := InsertKeepsLoads(x, s[1..], q, a[1..], m);
      ConsKeepsSameLoads(y, a[0], [x.weight] + rest, [q] + a[1..], Weights(Insert(x, s[1..])), tail);
      SwapFirstTwo(x.weight, y, rest, q, a[0], a[1..]);
      a' := [a[0]] + tail;
      assert Weights(Insert(x, s)) == [y] + Weights(Insert(x, s[1..]));
    }
  }

  lemma {:induction false} SortKeepsLoads(s: seq<Weighted>, a: seq<nat>, m: nat) returns (a': seq<nat>)
    requires IsPlacement(Weights(s), a, m)
    ensures IsPlacement(Weights(SortByWeight(s)), a', m)
    ensures SameLoads(Weights(s), a, Weights(SortByWeight(s)), a')
  {
    if s == [] {
      a' := [];
    } else {
      var tail := SortKeepsLoads(s[1..], a[1..], m);
      assert Weights(s) == [s[0].weight] + Weights(s[1..]) && a == [a[0]] + a[1..];
      ConsKeepsSameLoads(s[0].weight, a[0], Weights(s[1..]), a[1..], Weights(SortByWeight(s[1..])), tail);
      a' := InsertKeepsLoads(s[0], SortByWeight(s[1..]), a[0], tail, m);
    }
  }

  // ----- the shards as lists of files -----

  function Weigh(files: seq<string>, sizeOf: string -> nat): (s: seq<Weighted>)
    ensures |s| == |files| && forall i :: 0 <= i < |s| ==> s[i] == Weighted(files[i], sizeOf(files[i]))
  {
    seq(|files|, i requires 0 <= i < |files| => Weighted(files[i], sizeOf(files[i])))
  }

  function Sizes(files: seq<string>, sizeOf: string -> nat): seq<nat> { Weights(Weigh(files, sizeOf)) }

  function TotalSize(files: seq<string>, sizeOf: string -> nat): nat { Sum(Sizes(files, sizeOf)) }

  function Flatten(shards: seq<seq<string>>): seq<string> {
    if shards == [] then [] else Flatten(shards[..|shards| - 1]) + shards[|shards| - 1]
  }

  /** What balanceShards computes, for at least one shard. */
  function Balanced(files: seq<string>, sizeOf: string -> nat, m: nat): (shards: seq<seq<string>>)
    requires m >= 1
    ensures |shards| == m
  {
    var s := SortByWeight(Weigh(files, sizeOf));
    var a := Greedy(Weights(s), m);
    ShardsOf(s, a, m)
  }

  function ShardsOf(s: seq<Weighted>, a: seq<nat>, m: nat): (shards: seq<seq<string>>)
    requires |a| == |s|
    ensures |shards| == m && forall p :: 0 <= p < m ==> shards[p] == FilesAt(s, a, p)
  {
    seq(m, p requires 0 <= p < m => FilesAt(s, a, p))
  }

  lemma {:induction false} FlattenAfterAppend(shards: seq<seq<string>>, k: nat, f: string)
    requires k < |shards|
    ensures multiset(Flatten(shards[k := shards[k] + [f]])) == multiset(Flatten(shards)) + multiset{f}
  {
    var n := |shards| - 1;
    if k == n {
      assert shards[k := shards[k] + [f]][..n] == shards[..n];
    } else {
      FlattenAfterAppend(shards[..n], k, f);
      assert shards[k := shards[k] + [f]][..n] == shards[..n][k := shards[k] + [f]];
    }
  }

  function AllFiles(s: seq<Weighted>): seq<string> { seq(|s|, i requires 0 <= i < |s| => s[i].file) }

  lemma ShardsStep(s: seq<Weighted>, a: seq<nat>, m: nat)
    requires s != [] && |a| == |s| && a[|s| - 1] < m
    ensures var n, k := |s| - 1, a[|s| - 1];
            var front := ShardsOf(s[..n], a[..n], m);
            ShardsOf(s, a, m) == front[k := front[k] + [s[n].file]]
  {
    var n := |s| - 1;
    forall q | 0 <= q < m && q != a[n] ensures FilesAt(s, a, q) == FilesAt(s[..n], a[..n], q) {
      assert FilesAt(s[..n], a[..n], q) + [] == FilesAt(s[..n], a[..n], q);
    }
  }

  lemma AllFilesStep(s: seq<Weighted>)
    requires s != []
    ensures multiset(AllFiles(s)) == multiset(AllFiles(s[..|s| - 1])) + multiset{s[|s| - 1].file}
  {
    assert AllFiles(s) == AllFiles(s[..|s| - 1]) + [s[|s| - 1].file];
  }

  lemma {:induction false} FilesAtPartition(s: seq<Weighted>, a: seq<nat>, m: nat)
    requires |a| == |s| && forall i :: 0 <= i < |a| ==> a[i] < m
    ensures multiset(Flatten(ShardsOf(s, a, m))) == multiset(AllFiles(s))
  {
    if s == [] {
      EmptyShardsFlatten(ShardsOf(s, a, m));
    } else {
      hide Flatten, FilesAt, ShardsOf, AllFiles;
      var n := |s| - 1;
      var front := ShardsOf(s[..n], a[..n], m);
      FilesAtPartition(s[..n], a[..n], m);
      FlattenAfterAppend(front, a[n], s[n].file);
      ShardsStep(s, a, m);
      AllFilesStep(s);
    }
  }

  lemma {:induction false} EmptyShardsFlatten(shards: seq<seq<string>>)
    requires forall p :: 0 <= p < |shards| ==> shards[p] == []
    ensures Flatten(shards) == []
  {
    if shards != [] {
      EmptyShardsFlatten(shards[..|shards| - 1]);
    }
  }

  ghost predicate WeighedBy(s: seq<Weighted>, sizeOf: string -> nat) {
    forall i :: 0 <= i < |s| ==> s[i].weight == sizeOf(s[i].file)
  }

  lemma {:induction false} FilesAtSizes(s: seq<Weighted>, a: seq<nat>, p: nat, sizeOf: string -> nat)
    requires |a| == |s| && WeighedBy(s, sizeOf)
    ensures TotalSize(FilesAt(s, a, p), sizeOf) == Load(Weights(s), a, p)
    ensures var fs := FilesAt(s, a, p); LastOn(Weights(s), a, p) == if fs == [] then 0 else sizeOf(fs[|fs| - 1])
  {
    if s != [] {
      var n := |s| - 1;
      FilesAtSizes(s[..n], a[..n], p, sizeOf);
      assert Weights(s)[..n] == Weights(s[..n]);
      var fs := FilesAt(s[..n], a[..n], p);
      assert fs + [] == fs;
      TotalSizeAppend(fs, s[n].file, sizeOf);
    }
  }

  lemma TotalSizeAppend(fs: seq<string>, f: string, sizeOf: string -> nat)
    ensures TotalSize(fs + [f], sizeOf) == TotalSize(fs, sizeOf) + sizeOf(f)
  {
    assert Sizes(fs + [f], sizeOf)[..|fs|] == Sizes(fs, sizeOf);
  }

  lemma SortKeepsFiles(s: seq<Weighted>, sizeOf: string -> nat)
    requires WeighedBy(s, sizeOf)
    ensures WeighedBy(SortByWeight(s), sizeOf)
    ensures multiset(AllFiles(SortByWeight(s))) == multiset(AllFiles(s))
  {
    SortIsStableAndDescending(s);
    var t := SortByWeight(s);
    forall i | 0 <= i < |t| ensures t[i].weight == sizeOf(t[i].file) {
      assert t[i] in multiset(t);
    }
    SortKeepsFileNames(s);
  }

  lemma {:induction false} SortKeepsFileNames(s: seq<Weighted>)
    ensures multiset(AllFiles(SortByWeight(s))) == multiset(AllFiles(s))
  {
    if s != [] {
      SortKeepsFileNames(s[1..]);
      InsertAddsFileName(s[0], SortByWeight(s[1..]));
      assert AllFiles(s) == [s[0].file] + AllFiles(s[1..]);
    }
  }

  lemma {:induction false} InsertAddsFileName(x: Weighted, s: seq<Weighted>)
    ensures multiset(AllFiles(Insert(x, s))) == multiset{x.file} + multiset(AllFiles(s))
  {
    if s == [] || s[0].weight <= x.weight {
      assert AllFiles([x] + s) == [x.file] + AllFiles(s);
    } else {
      InsertAddsFileName(x, s[1..]);
      assert AllFiles(s) == [s[0].file] + AllFiles(s[1..]);
      assert AllFiles(Insert(x, s)) == [s[0].file] + AllFiles(Insert(x, s[1..]));
    }
  }

  /** Every file is on exactly one shard. */
  lemma BalancedPartitions(files: seq<string>, sizeOf: string -> nat, m: nat)
    requires m >= 1
    ensures multiset(Flatten(Balanced(files, sizeOf, m))) == multiset(files)
  {
    var s := Weigh(files, sizeOf);
    SortKeepsFiles(s, sizeOf);
    FilesAtPartition(SortByWeight(s), Greedy(Weights(SortByWeight(s)), m), m);
    assert AllFiles(s) == files;
  }

  /** The shards finish within one file of each other: the last file of the heavier one. */
  lemma BalancedWithinOneFile(files: seq<string>, sizeOf: string -> nat, m: nat, p: nat, q: nat)
    requires m >= 1 && p < m && q < m
    ensures var shards := Balanced(files, sizeOf, m);
            TotalSize(shards[p], sizeOf) <=
              TotalSize(shards[q], sizeOf) + if shards[p] == [] then 0 else sizeOf(shards[p][|shards[p]| - 1])
  {
    var s := SortByWeight(Weigh(files, sizeOf));
    var a := Greedy(Weights(s), m);
    SortKeepsFiles(Weigh(files, sizeOf), sizeOf);
    GreedyWithinLastItem(Weights(s), m, p, q);
    FilesAtSizes(s, a, p, sizeOf);
    FilesAtSizes(s, a, q, sizeOf);
  }

  /**
   Graham's bound: if any assignment of the files to the shards keeps every shard within `cap`, then
   no shard here is above (4m - 1) / 3m times `cap`.
   */
  lemma BalancedWithinFourThirds(files: seq<string>, sizeOf: string -> nat, m: nat, b: seq<nat>, cap: nat, p: nat)
    requires m >= 1 && p < m && Fits(Sizes(files, sizeOf), b, m, cap)
    ensures 3 * m * TotalSize(Balanced(files, sizeOf, m)[p], sizeOf) <= (4 * m - 1) * cap
  {
    var s := SortByWeight(Weigh(files, sizeOf));
    var b' := SortKeepsLoads(Weigh(files, sizeOf), b, m);
    forall q | 0 <= q < m ensures Load(Weights(s), b', q) <= cap {
      assert Load(Sizes(files, sizeOf), b, q) == Load(Weights(s), b', q);
    }
    SortIsStableAndDescending(Weigh(files, sizeOf));
    SortKeepsFiles(Weigh(files, sizeOf), sizeOf);
    GreedyWithinFourThirds(Weights(s), m, b', cap, p);
    FilesAtSizes(s, Greedy(Weights(s), m), p, sizeOf);
  }

  /** The bound cannot be improved: these five sizes on two shards meet it exactly. */
  lemma FourThirdsIsTight()
    ensures Descending([3, 3, 2, 2, 2]) && Fits([3, 3, 2, 2, 2], [0, 0, 1, 1, 1], 2, 6)
    ensures 3 * 2 * Load([3, 3, 2, 2, 2], Greedy([3, 3, 2, 2, 2], 2), 0) == (4 * 2 - 1) * 6
  {
    hide Greedy, Load;
    TightGreedyLoad();
    TightPlacementLoads();
    var ws, b := [3, 3, 2, 2, 2], [0, 0, 1, 1, 1];
    assert Descending(ws);
    assert IsPlacement(ws, b, 2);
    forall p | 0 <= p < 2
      ensures Load(ws, b, p) <= 6
    {
      assert p == 0 || p == 1;
    }
    assert Fits(ws, b, 2, 6);
  }

  lemma TightGreedyLoad()
    ensures Load([3, 3, 2, 2, 2], Greedy([3, 3, 2, 2, 2], 2), 0) == 7
  {
    hide Greedy, Load;
    PlaceNothing();
    PlaceOnTwo([], [], 0, 0, 3);
    assert [] + [3] == [3] && [] + [0] == [0];
    PlaceOnTwo([3], [0], 3, 0, 3);
    assert [3] + [3] == [3, 3] && [0] + [1] == [0, 1];
    PlaceOnTwo([3, 3], [0, 1], 3, 3, 2);
    assert [3, 3] + [2] == [3, 3, 2] && [0, 1] + [0] == [0, 1, 0];
    PlaceOnTwo([3, 3, 2], [0, 1, 0], 5, 3, 2);
    assert [3, 3, 2] + [2] == [3, 3, 2, 2] && [0, 1, 0] + [1] == [0, 1, 0, 1];
    PlaceOnTwo([3, 3, 2, 2], [0, 1, 0, 1], 5, 5, 2);
    assert [3, 3, 2, 2] + [2] == [3, 3, 2, 2, 2];
  }

  lemma PlaceNothing()
    ensures Greedy([], 2) == [] && Load([], [], 0) == 0 && Load([], [], 1) == 0
  {
  }

  lemma TightPlacementLoads()
    ensures Load([3, 3, 2, 2, 2], [0, 0, 1, 1, 1], 0) == 6 && Load([3, 3, 2, 2, 2], [0, 0, 1, 1, 1], 1) == 6
  {
    hide Load;
    TightPrefixLoads();
    AppendToLoad([3, 3, 2], 2, [0, 0, 1], 1, 0, 1);
    assert [3, 3, 2] + [2] == [3, 3, 2, 2] && [0, 0, 1] + [1] == [0, 0, 1, 1];
    AppendToLoad([3, 3, 2, 2], 2, [0, 0, 1, 1], 1, 0, 1);
    assert [3, 3, 2, 2] + [2] == [3, 3, 2, 2, 2] && [0, 0, 1, 1] + [1] == [0, 0, 1, 1, 1];
  }

  lemma TightPrefixLoads()
    ensures Load([3, 3, 2], [0, 0, 1], 0) == 6 && Load([3, 3, 2], [0, 0, 1], 1) == 2
  {
    hide Load;
    PlaceNothing();
    AppendToLoad([], 3, [], 0, 0, 1);
    assert [] + [3] == [3] && [] + [0] == [0];
    AppendToLoad([3], 3, [0], 0, 0, 1);
    assert [3] + [3] == [3, 3] && [0] + [0] == [0, 0];
    AppendToLoad([3, 3], 2, [0, 0], 1, 0, 1);
    assert [3, 3] + [2] == [3, 3, 2] && [0, 0] + [1] == [0, 0, 1];
  }

  lemma AppendToLoad(ws: seq<nat>, w: nat, a: seq<nat>, k: nat, p: nat, q: nat)
    requires |a| == |ws|
    ensures Load(ws + [w], a + [k], p) == Load(ws, a, p) + if k == p then w else 0
    ensures Load(ws + [w], a + [k], q) == Load(ws, a, q) + if k == q then w else 0
  {
    assert (ws + [w])[..|ws|] == ws && (a + [k])[..|a|] == a;
  }

  lemma AppendToGreedy(ws: seq<nat>, w: nat, m: nat)
    requires m >= 1
    ensures Greedy(ws + [w], m) == Greedy(ws, m) + [Lightest(Loads(ws, Greedy(ws, m), m))]
  {
    assert (ws + [w])[..|ws|] == ws;
  }

  lemma LightestOfTwo(first: nat, second: nat)
    ensures Lightest([first, second]) == if second < first then 1 else 0
  {
    assert [first, second][..1] == [first];
  }

  /** One greedy step on two shards whose loads are known. */
  lemma PlaceOnTwo(ws: seq<nat>, a: seq<nat>, first: nat, second: nat, w: nat)
    requires Greedy(ws, 2) == a && Load(ws, a, 0) == first && Load(ws, a, 1) == second
    ensures var k := if second < first then 1 else 0;
            && Greedy(ws + [w], 2) == a + [k]
            && Load(ws + [w], a + [k], 0) == first + (if k == 0 then w else 0)
            && Load(ws + [w], a + [k], 1) == second + (if k == 1 then w else 0)
  {
    hide Greedy, Load, Lightest;
    AppendToGreedy(ws, w, 2);
    assert Loads(ws, a, 2) == [first, second];
    LightestOfTwo(first, second);
    AppendToLoad(ws, w, a, if second < first then 1 else 0, 0, 1);
  }

  // ----- the method -----

  function ShardWeights(shards: seq<Shard>): (ws: seq<nat>)
    ensures |ws| == |shards| && forall p :: 0 <= p < |ws| ==> ws[p] == shards[p].weight
  {
    seq(|shards|, p requires 0 <= p < |shards| => shards[p].weight)
  }

  /** The shards after the greedy rule has placed the items of `s`. */
  function Placed(s: seq<Weighted>, m: nat): (shards: seq<Shard>)
    requires m >= 1
    ensures |shards| == m
  {
    var a := Greedy(Weights(s), m);
    seq(m, p requires 0 <= p < m => Shard(FilesAt(s, a, p), Load(Weights(s), a, p)))
  }

  lemma GreedyAppends(s: seq<Weighted>, x: Weighted, m: nat)
    requires m >= 1
    ensures Weights(s + [x]) == Weights(s) + [x.weight]
    ensures ShardWeights(Placed(s, m)) == Loads(Weights(s), Greedy(Weights(s), m), m)
    ensures Greedy(Weights(s + [x]), m) == Greedy(Weights(s), m) + [Lightest(ShardWeights(Placed(s, m)))]
  {
    hide Lightest, Load, FilesAt;
    var ws := Weights(s);
    assert Weights(s + [x]) == ws + [x.weight] && (ws + [x.weight])[..|s|] == ws;
    assert ShardWeights(Placed(s, m)) == Loads(ws, Greedy(ws, m), m);
  }

  lemma PlacedStep(s: seq<Weighted>, x: Weighted, m: nat)
    requires m >= 1
    ensures var before, k := Placed(s, m), Lightest(ShardWeights(Placed(s, m)));
            Placed(s + [x], m) == before[k := Shard(before[k].files + [x.file], before[k].weight + x.weight)]
  {
    hide Greedy, Load, FilesAt, Lightest;
    GreedyAppends(s, x, m);
    hide ShardWeights;
    var before, after, k := Placed(s, m), Placed(s + [x], m), Lightest(ShardWeights(Placed(s, m)));
    forall p | 0 <= p < m
      ensures after[p] == if p == k then Shard(before[k].files + [x.file], before[k].weight + x.weight) else before[p]
    {
      AppendToFiles(s, x, Greedy(Weights(s), m), k, p);
      AppendToLoad(Weights(s), x.weight, Greedy(Weights(s), m), k, p, p);
      assert before[p].files + [] == before[p].files;
    }
  }

  lemma AppendToFiles(s: seq<Weighted>, x: Weighted, a: seq<nat>, k: nat, p: nat)
    requires |a| == |s|
    ensures FilesAt(s + [x], a + [k], p) == FilesAt(s, a, p) + if p == k then [x.file] else []
  {
    assert (s + [x])[..|s|] == s && (a + [k])[..|a|] == a;
  }

  /** The `reduce`: keeps the earlier shard unless a later one is strictly lighter. */
  method ReduceToLightest(shards: array<Shard>) returns (lightest: nat)
    requires shards.Length >= 1
    ensures lightest == Lightest(ShardWeights(shards[..]))
  {
    ghost var weights := ShardWeights(shards[..]);
    lightest := 0;
    for k := 1 to shards.Length
      invariant lightest == Lightest(weights[..k])
    {
      assert weights[..k + 1][..k] == weights[..k];
      if shards[k].weight < shards[lightest].weight {
        lightest := k;
      }
    }
    assert weights[..shards.Length] == weights;
  }

  /** One turn of the loop: the file joins the lightest shard. */
  method PlaceOne(shards: array<Shard>, x: Weighted, ghost placed: seq<Weighted>)
    requires shards.Length >= 1 && shards[..] == Placed(placed, shards.Length)
    modifies shards
    ensures shards[..] == Placed(placed + [x], shards.Length)
  {
    PlacedStep(placed, x, shards.Length);
    hide Placed, Lightest, ShardWeights, Greedy, FilesAt, Load;
    var lightest := ReduceToLightest(shards);
    shards[lightest] := Shard(shards[lightest].files + [x.file], shards[lightest].weight + x.weight);
  }

  method EmptyShards(shardCount: nat) returns (shards: array<Shard>)
    requires shardCount >= 1
    ensures fresh(shards) && shards.Length == shardCount && shards[..] == Placed([], shardCount)
  {
    shards := new Shard[shardCount](_ => Shard([], 0));
    NothingPlaced(shardCount);
    hide Placed;
    assert shards[..] == Placed([], shardCount);
  }

  method BalanceShards(files: seq<string>, sizeOf: string -> nat, shardCount: nat)
    returns (r: Result<seq<seq<string>>, BalanceError>)
    ensures r.Err? <==> shardCount == 0 && files != []
    ensures r.Ok? ==> r.value == if shardCount == 0 then [] else Balanced(files, sizeOf, shardCount)
  {
    var weighted := SortByWeight(Weigh(files, sizeOf));
    SortKeepsLength(Weigh(files, sizeOf));
    if shardCount == 0 {
      return if weighted == [] then Ok([]) else Err(ReduceOfEmptyArray);
    }
    var shards := EmptyShards(shardCount);
    PlacedIsBalanced(files, sizeOf, shardCount);
    hide Placed, SortByWeight, Balanced;
    assert weighted[..0] == [];
    for i := 0 to |weighted|
      invariant shards[..] == Placed(weighted[..i], shardCount)
    {
      PlaceOne(shards, weighted[i], weighted[..i]);
      assert weighted[..i + 1] == weighted[..i] + [weighted[i]];
    }
    assert weighted[..|weighted|] == weighted;
    r := Ok(FilesOf(shards[..]));
  }

  lemma NothingPlaced(m: nat)
    requires m >= 1
    ensures forall p :: 0 <= p < m ==> Placed([], m)[p] == Shard([], 0)
  {
  }

  lemma PlacedIsBalanced(files: seq<string>, sizeOf: string -> nat, m: nat)
    requires m >= 1
    ensures FilesOf(Placed(SortByWeight(Weigh(files, sizeOf)), m)) == Balanced(files, sizeOf, m)
  {
    hide SortByWeight, Greedy, FilesAt, Load;
  }

  function FilesOf(shards: seq<Shard>): (files: seq<seq<string>>)
    ensures |files| == |shards|
  {
    seq(|shards|, p requires 0 <= p < |shards| => shards[p].files)
  }

  lemma SortKeepsLength(s: seq<Weighted>)
    ensures |SortByWeight(s)| == |s|
  {
    SortIsStableAndDescending(s);
    assert |multiset(SortByWeight(s))| == |multiset(s)|;
  }
}
