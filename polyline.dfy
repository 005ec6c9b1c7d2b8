/** Arc-length resampling of a polyline, independent of the point type.
    Both canvas engines run the same algorithm (2D for the arm, 3D for the
    hand): measure every segment, and for output index i walk the segments
    until the one containing the target distance i / (n - 1) * total is found,
    then interpolate inside it. Segment lengths (Math.hypot / Math.sqrt in
    the engines) are inputs here; `ValidLengths` says what is assumed of them. */
module Polyline {

  /** Arc distance of vertex k: the sum of the first k segment lengths. */
  function Cum(lens: seq<real>, k: nat): real
    requires k <= |lens|
  {
    if k == 0 then 0.0 else Cum(lens, k - 1) + lens[k - 1]
  }

  /** Total length of the polyline. */
  function Total(lens: seq<real>): real {
    Cum(lens, |lens|)
  }

  predicate NonNegative(lens: seq<real>) {
    forall k :: 0 <= k < |lens| ==> lens[k] >= 0.0
  }

  /** `lens` holds one length per consecutive pair of points; a length is
      non-negative and is zero exactly when the two points coincide. */
  predicate ValidLengths<P(==)>(points: seq<P>, lens: seq<real>) {
    && |lens| == (if |points| == 0 then 0 else |points| - 1)
    && NonNegative(lens)
    && forall k :: 0 <= k < |lens| ==> (lens[k] == 0.0 <==> points[k] == points[k + 1])
  }

  /** What the resampler needs to avoid dividing 0 by 0: when there is a
      positive length to resample along and at least two outputs, the first
      segment is not degenerate (output 0 lands on it with target distance 0). */
  predicate FirstSegmentOk(lens: seq<real>, n: nat) {
    n < 2 || Total(lens) == 0.0 || (|lens| > 0 && lens[0] > 0.0)
  }

  /** The interpolation laws the resampler relies on. */
  ghost predicate LerpLaws<P(!new)>(lerp: (P, P, real) -> P) {
    && (forall a, b :: lerp(a, b, 0.0) == a)
    && (forall a, b :: lerp(a, b, 1.0) == b)
  }

  lemma {:induction false} CumMonotone(lens: seq<real>, i: nat, j: nat)
    requires NonNegative(lens) && i <= j <= |lens|
    ensures 0.0 <= Cum(lens, i) <= Cum(lens, j)
    decreases j
  {
    if i < j {
      CumMonotone(lens, i, j - 1);
    } else if 0 < j {
      CumMonotone(lens, j - 1, j - 1);
    }
  }

  /** The segment walk of the inner loop, started at segment k with the
      accumulated length `Cum(lens, k)`: the first segment from k on whose end
      reaches t, or -1 when the loop runs out of segments. */
  function Walk(lens: seq<real>, t: real, k: nat): (r: int)
    requires k <= |lens|
    ensures r == -1 || k <= r < |lens|
    ensures r == -1 ==> forall j :: k < j <= |lens| ==> Cum(lens, j) < t
    ensures r >= 0 ==> t <= Cum(lens, r + 1)
    ensures r >= 0 ==> forall j :: k < j <= r ==> Cum(lens, j) < t
    decreases |lens| - k
  {
    if k == |lens| then -1
    else if Cum(lens, k) + lens[k] >= t then k
    else Walk(lens, t, k + 1)
  }

  /** The segment on which distance t falls. */
  function Locate(lens: seq<real>, t: real): int {
    Walk(lens, t, 0)
  }

  /** Every distance in [0, Total] is found; it falls on the found segment;
      and the found segment has positive length unless it is the first one and
      t is 0. */
  lemma LocateFound(lens: seq<real>, t: real)
    requires NonNegative(lens) && |lens| > 0 && 0.0 <= t <= Total(lens)
    ensures 0 <= Locate(lens, t) < |lens|
    ensures Cum(lens, Locate(lens, t)) <= t <= Cum(lens, Locate(lens, t) + 1)
    ensures lens[Locate(lens, t)] > 0.0 || (Locate(lens, t) == 0 && t == 0.0)
  {
  }

  /** The distance at which output i of n is taken. */
  function Target(i: nat, n: nat, total: real): (t: real)
    requires n >= 2
    ensures 0.0 <= total && i <= n - 1 ==> 0.0 <= t <= total
    ensures i == 0 ==> t == 0.0
    ensures i == n - 1 ==> t == total
  {
    var f := i as real / (n - 1) as real;
    assert 0.0 <= total && i <= n - 1 ==> 0.0 <= f <= 1.0;
    FractionOf(f, total);
    f * total
  }

  lemma FractionOf(f: real, total: real)
    ensures 0.0 <= total && 0.0 <= f <= 1.0 ==> 0.0 <= f * total <= total
    ensures f == 0.0 ==> f * total == 0.0
    ensures f == 1.0 ==> f * total == total
  {
    if 0.0 <= total && 0.0 <= f <= 1.0 {
      assert total - f * total == (1.0 - f) * total;
    }
  }

  /** Output i: nothing when n < 2 (for n = 1 the target i / (n - 1) is NaN
      and no segment satisfies `acc + len >= NaN`), otherwise the point at
      target distance on the segment the walk finds. */
  function Sample<P>(points: seq<P>, lens: seq<real>, n: nat, i: nat, lerp: (P, P, real) -> P): seq<P>
    requires ValidLengths(points, lens) && FirstSegmentOk(lens, n) && Total(lens) != 0.0
  {
    if n < 2 then []
    else
      CumMonotone(lens, 0, |lens|);
      var t := Target(i, n, Total(lens));
      var k := Locate(lens, t);
      if k < 0 then []
      else
        LocateSegment(lens, t);
        [lerp(points[k], points[k + 1], (t - Cum(lens, k)) / lens[k])]
  }

  /** What `Sample` needs to divide: the found segment has positive length. */
  lemma LocateSegment(lens: seq<real>, t: real)
    requires NonNegative(lens) && 0.0 <= t && Total(lens) != 0.0
    requires |lens| > 0 && lens[0] > 0.0
    ensures Locate(lens, t) >= 0 ==> lens[Locate(lens, t)] > 0.0
  {
    var k := Locate(lens, t);
    if k > 0 {
      assert Cum(lens, k) < t;
      assert Cum(lens, k + 1) == Cum(lens, k) + lens[k];
    }
  }

  /** Outputs 0 .. m-1, in order. */
  function Samples<P>(points: seq<P>, lens: seq<real>, n: nat, m: nat, lerp: (P, P, real) -> P): seq<P>
    requires ValidLengths(points, lens) && FirstSegmentOk(lens, n) && Total(lens) != 0.0
  {
    if m == 0 then [] else Samples(points, lens, n, m - 1, lerp) + Sample(points, lens, n, m - 1, lerp)
  }

  /** What `resamplePolyline(points, n)` returns: a copy of the input when the
      total length is 0, otherwise the samples. */
  function Resampled<P>(points: seq<P>, lens: seq<real>, n: nat, lerp: (P, P, real) -> P): seq<P>
    requires ValidLengths(points, lens) && FirstSegmentOk(lens, n)
  {
    if Total(lens) == 0.0 then points else Samples(points, lens, n, n, lerp)
  }

  /** The inner loop: walk the segments accumulating their lengths until the
      one whose end reaches t, and stop there (`break`). */
  method FindSegment(lens: seq<real>, t: real) returns (k: int, acc: real)
    ensures k == Locate(lens, t)
    ensures k >= 0 ==> acc == Cum(lens, k)
  {
    acc := 0.0;
    k := -1;
    var i := 0;
    while i < |lens|
      invariant 0 <= i <= |lens|
      invariant acc == Cum(lens, i)
      invariant Walk(lens, t, i) == Walk(lens, t, 0)
    {
      if acc + lens[i] >= t {
        k := i;
        break;
      }
      acc := acc + lens[i];
      i := i + 1;
    }
  }

  /** The first loop of the resampler: `total += len` over the segments. */
  method TotalLength(lens: seq<real>) returns (total: real)
    ensures total == Total(lens)
  {
    total := 0.0;
    var s := 0;
    while s < |lens|
      invariant 0 <= s <= |lens|
      invariant total == Cum(lens, s)
    {
      total := total + lens[s];
      s := s + 1;
    }
  }

  /** The body of the output loop for index i: the segment walk with `break`
      and at most one push. */
  method SampleAt<P>(points: seq<P>, lens: seq<real>, n: nat, i: nat, total: real, lerp: (P, P, real) -> P)
    returns (pt: seq<P>)
    requires ValidLengths(points, lens) && FirstSegmentOk(lens, n)
    requires total == Total(lens) && total != 0.0
    ensures pt == Sample(points, lens, n, i, lerp)
  {
    pt := [];
    // For n == 1 the target 0 / 0 * total is NaN: no segment passes the test.
    if n >= 2 {
      CumMonotone(lens, 0, |lens|);
      var t := (i as real / (n - 1) as real) * total;
      assert t == Target(i, n, total);
      var k, acc := FindSegment(lens, t);
      if k >= 0 {
        LocateSegment(lens, t);
        var u := (t - acc) / lens[k];
        pt := [lerp(points[k], points[k + 1], u)];
      }
    }
  }

  /** A polyline whose first two points differ has a positive first segment
      and a positive total, so it can be resampled to any count. */
  lemma FirstSegmentPositive<P>(points: seq<P>, lens: seq<real>, n: nat)
    requires ValidLengths(points, lens) && |points| >= 2 && points[0] != points[1]
    ensures lens[0] > 0.0 && Total(lens) > 0.0 && FirstSegmentOk(lens, n)
  {
    CumMonotone(lens, 1, |lens|);
    assert Cum(lens, 1) == lens[0];
  }

  /** Every output index in range yields exactly one point. */
  lemma {:induction false} SamplesLength<P>(points: seq<P>, lens: seq<real>, n: nat, m: nat, lerp: (P, P, real) -> P)
    requires ValidLengths(points, lens) && FirstSegmentOk(lens, n) && Total(lens) != 0.0
    requires 2 <= n && m <= n
    ensures |Samples(points, lens, n, m, lerp)| == m
  {
    if m > 0 {
      SamplesLength(points, lens, n, m - 1, lerp);
      CumMonotone(lens, 0, |lens|);
      LocateFound(lens, Target(m - 1, n, Total(lens)));
    }
  }

  /** Output i is the i-th sample. */
  lemma {:induction false} SamplesAt<P>(points: seq<P>, lens: seq<real>, n: nat, m: nat, i: nat, lerp: (P, P, real) -> P)
    requires ValidLengths(points, lens) && FirstSegmentOk(lens, n) && Total(lens) != 0.0
    requires 2 <= n && i < m <= n
    ensures |Samples(points, lens, n, m, lerp)| == m
    ensures |Sample(points, lens, n, i, lerp)| == 1
    ensures Samples(points, lens, n, m, lerp)[i] == Sample(points, lens, n, i, lerp)[0]
  {
    SamplesLength(points, lens, n, m, lerp);
    CumMonotone(lens, 0, |lens|);
    LocateFound(lens, Target(i, n, Total(lens)));
    if i < m - 1 {
      SamplesAt(points, lens, n, m - 1, i, lerp);
    }
  }

  /** For a polyline of positive length and n >= 2 the resampler returns
      exactly n points. */
  lemma ResampledCount<P>(points: seq<P>, lens: seq<real>, n: nat, lerp: (P, P, real) -> P)
    requires ValidLengths(points, lens) && FirstSegmentOk(lens, n)
    requires Total(lens) > 0.0 && n >= 2
    ensures |Resampled(points, lens, n, lerp)| == n
  {
    SamplesLength(points, lens, n, n, lerp);
  }

  /** Output i is the interpolation, at the fraction `u` in [0, 1], of the
      segment k whose arc interval [Cum k, Cum k+1] holds the target distance
      i / (n - 1) * total; k is the first segment reaching it, and has positive
      length. */
  lemma ResampledAt<P>(points: seq<P>, lens: seq<real>, n: nat, i: nat, lerp: (P, P, real) -> P)
    requires ValidLengths(points, lens) && FirstSegmentOk(lens, n)
    requires Total(lens) > 0.0 && i < n && n >= 2
    ensures var t := Target(i, n, Total(lens));
            var k := Locate(lens, t);
            && 0 <= k < |lens|
            && lens[k] > 0.0
            && Cum(lens, k) <= t <= Cum(lens, k + 1)
            && (forall j :: 0 < j <= k ==> Cum(lens, j) < t)
            && var u := (t - Cum(lens, k)) / lens[k];
               && 0.0 <= u <= 1.0
               && |Resampled(points, lens, n, lerp)| == n
               && Resampled(points, lens, n, lerp)[i] == lerp(points[k], points[k + 1], u)
  {
    var total := Total(lens);
    CumMonotone(lens, 0, |lens|);
    var t := Target(i, n, total);
    LocateFound(lens, t);
    LocateSegment(lens, t);
    var k := Locate(lens, t);
    SamplesAt(points, lens, n, n, i, lerp);
    assert Cum(lens, k + 1) == Cum(lens, k) + lens[k];
    FractionBounds(t - Cum(lens, k), lens[k]);
  }

  lemma FractionBounds(x: real, len: real)
    requires len > 0.0 && 0.0 <= x <= len
    ensures 0.0 <= x / len <= 1.0
  {
  }

  /** The first output is the first input point. */
  lemma ResampledFirst<P(!new)>(points: seq<P>, lens: seq<real>, n: nat, lerp: (P, P, real) -> P)
    requires ValidLengths(points, lens) && FirstSegmentOk(lens, n) && LerpLaws(lerp)
    requires Total(lens) > 0.0 && n >= 2
    ensures |Resampled(points, lens, n, lerp)| == n
    ensures Resampled(points, lens, n, lerp)[0] == points[0]
  {
    ResampledAt(points, lens, n, 0, lerp);
    assert Locate(lens, 0.0) == 0;
  }

  /** The last output is the last input point, even when the polyline ends in
      repeated points (their segments have length 0). */
  lemma ResampledLast<P(!new)>(points: seq<P>, lens: seq<real>, n: nat, lerp: (P, P, real) -> P)
    requires ValidLengths(points, lens) && FirstSegmentOk(lens, n) && LerpLaws(lerp)
    requires Total(lens) > 0.0 && n >= 2
    ensures |Resampled(points, lens, n, lerp)| == n
    ensures Resampled(points, lens, n, lerp)[n - 1] == points[|points| - 1]
  {
    var total := Total(lens);
    ResampledAt(points, lens, n, n - 1, lerp);
    var k := Locate(lens, total);
    CumMonotone(lens, k + 1, |lens|);
    assert Cum(lens, k + 1) == total;
    assert Cum(lens, k + 1) == Cum(lens, k) + lens[k];
    assert (total - Cum(lens, k)) / lens[k] == 1.0;
    TailRepeats(points, lens, k + 1);
  }

  /** When vertex m already lies at the full length, every later vertex
      repeats it. */
  lemma {:induction false} TailRepeats<P>(points: seq<P>, lens: seq<real>, m: nat)
    requires ValidLengths(points, lens) && 0 < m <= |lens|
    requires Cum(lens, m) == Total(lens)
    ensures points[m] == points[|points| - 1]
    decreases |lens| - m
  {
    if m < |lens| {
      CumMonotone(lens, m + 1, |lens|);
      assert Cum(lens, m + 1) == Cum(lens, m) + lens[m];
      assert lens[m] == 0.0;
      TailRepeats(points, lens, m + 1);
    }
  }

  /** A polyline of total length 0 is returned as it is, and it is a single
      point repeated. */
  lemma ResampledDegenerate<P>(points: seq<P>, lens: seq<real>, n: nat, lerp: (P, P, real) -> P)
    requires ValidLengths(points, lens) && FirstSegmentOk(lens, n)
    requires Total(lens) == 0.0
    ensures Resampled(points, lens, n, lerp) == points
    ensures forall j :: 0 <= j < |points| ==> points[j] == points[0]
  {
    forall j | 0 <= j < |points|
      ensures points[j] == points[0]
    {
      AllRepeat(points, lens, j);
    }
  }

  lemma {:induction false} AllRepeat<P>(points: seq<P>, lens: seq<real>, j: nat)
    requires ValidLengths(points, lens) && Total(lens) == 0.0 && j < |points|
    ensures points[j] == points[0]
  {
    if j > 0 {
      CumMonotone(lens, j, |lens|);
      CumMonotone(lens, 0, j - 1);
      assert Cum(lens, j) == Cum(lens, j - 1) + lens[j - 1];
      AllRepeat(points, lens, j - 1);
    }
  }
}
