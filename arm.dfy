/** The robotic-arm line field: a fixed 2D silhouette, resampled into 220
    evenly spaced guide points, revealed and dissolved by the four-phase
    timeline, with particles that each read a guide point per frame.
    Drawing calls, the sin/cos jitter offsets and the browser clock are not
    modelled; the clock reading and the random draws are parameters. */
module ArmLinefield {
  import opened Numeric
  import opened Polyline
  import opened Timeline

  datatype Pt = Pt(x: real, y: real)

  /** `lerp` applied per coordinate. */
  function Lerp2(a: Pt, b: Pt, u: real): (r: Pt)
    ensures u == 0.0 ==> r == a
    ensures u == 1.0 ==> r == b
  {
    Pt(Lerp(a.x, b.x, u), Lerp(a.y, b.y, u))
  }

  /** For u in [0, 1] the interpolated point lies in the box the ends span. */
  lemma Lerp2Between(a: Pt, b: Pt, u: real)
    requires 0.0 <= u <= 1.0
    ensures Min(a.x, b.x) <= Lerp2(a, b, u).x <= Max(a.x, b.x)
    ensures Min(a.y, b.y) <= Lerp2(a, b, u).y <= Max(a.y, b.y)
  {
    LerpBetween(a.x, b.x, u);
    LerpBetween(a.y, b.y, u);
  }

  lemma Lerp2Laws()
    ensures LerpLaws(Lerp2)
  {
  }

  /** The arm silhouette in normalised coordinates: 13 points, none equal to
      its successor, all inside the unit square. */
  function ArmShapePoints(): (pts: seq<Pt>)
    ensures |pts| == 13
    ensures forall k :: 0 <= k < 12 ==> pts[k] != pts[k + 1]
    ensures forall k :: 0 <= k < 13 ==> 0.0 <= pts[k].x <= 1.0 && 0.0 <= pts[k].y <= 1.0
  {
    [ Pt(0.22, 0.72), Pt(0.30, 0.72), Pt(0.34, 0.66), Pt(0.38, 0.58),
      Pt(0.46, 0.52), Pt(0.54, 0.46), Pt(0.60, 0.40), Pt(0.64, 0.34),
      Pt(0.68, 0.30), Pt(0.74, 0.28), Pt(0.72, 0.24), Pt(0.78, 0.26),
      Pt(0.74, 0.30) ]
  }

  /** `resamplePolyline(points, n)`: the total-length loop, the early copy
      for a zero total, then one sample per output index. `lens[k]` is
      `Math.hypot` of segment k. */
  method ResamplePolyline(points: seq<Pt>, lens: seq<real>, n: nat) returns (out: seq<Pt>)
    requires ValidLengths(points, lens) && FirstSegmentOk(lens, n)
    ensures out == Resampled(points, lens, n, Lerp2)
  {
    var total := TotalLength(lens);
    if total == 0.0 {
      return points;
    }
    out := [];
    var i := 0;
    while i < n
      invariant 0 <= i <= n
      invariant out == Samples(points, lens, n, i, Lerp2)
    {
      var pt := SampleAt(points, lens, n, i, total, Lerp2);
      out := out + pt;
      i := i + 1;
    }
  }

  /** The two-point example: [(0,0), (10,0)] resampled to 3 points gives the
      two ends and the midpoint. */
  lemma ResampleExample()
    ensures Resampled([Pt(0.0, 0.0), Pt(10.0, 0.0)], [10.0], 3, Lerp2)
            == [Pt(0.0, 0.0), Pt(5.0, 0.0), Pt(10.0, 0.0)]
  {
    var pts := [Pt(0.0, 0.0), Pt(10.0, 0.0)];
    var lens := [10.0];
    assert Total(lens) == 10.0;
    assert Locate(lens, 0.0) == 0;
    assert Locate(lens, 5.0) == 0;
    assert Locate(lens, 10.0) == 0;
    assert Sample(pts, lens, 3, 0, Lerp2) == [Pt(0.0, 0.0)];
    assert Sample(pts, lens, 3, 1, Lerp2) == [Pt(5.0, 0.0)];
    assert Sample(pts, lens, 3, 2, Lerp2) == [Pt(10.0, 0.0)];
    assert Samples(pts, lens, 3, 1, Lerp2) == [Pt(0.0, 0.0)];
    assert Samples(pts, lens, 3, 2, Lerp2) == [Pt(0.0, 0.0), Pt(5.0, 0.0)];
  }

  const GuideCount: nat := 220
  const MinReveal: nat := 10
  const ArmDurations := Durations(2.2, 1.2, 2.0, 0.5)

  /** The guide: the silhouette resampled to 220 points. */
  function Guide(lens: seq<real>): seq<Pt>
    requires ValidLengths(ArmShapePoints(), lens)
  {
    ArmGuideDefined(lens);
    Resampled(ArmShapePoints(), lens, GuideCount, Lerp2)
  }

  lemma ArmGuideDefined(lens: seq<real>)
    requires ValidLengths(ArmShapePoints(), lens)
    ensures Total(lens) > 0.0 && FirstSegmentOk(lens, GuideCount)
  {
    FirstSegmentPositive(ArmShapePoints(), lens, GuideCount);
  }

  /** The guide holds 220 points, from the arm's base to its last point. */
  lemma GuideShape(lens: seq<real>)
    requires ValidLengths(ArmShapePoints(), lens)
    ensures |Guide(lens)| == GuideCount
    ensures Guide(lens)[0] == Pt(0.22, 0.72)
    ensures Guide(lens)[GuideCount - 1] == Pt(0.74, 0.30)
  {
    ArmGuideDefined(lens);
    Lerp2Laws();
    ResampledFirst(ArmShapePoints(), lens, GuideCount, Lerp2);
    ResampledLast(ArmShapePoints(), lens, GuideCount, Lerp2);
  }

  /** A particle: the guide index it tracks and its random phase, drift and
      jitter. */
  datatype Particle = Particle(id: nat, gi: int, phase: real, drift: real, jitter: real)

  /** The four `Math.random()` draws for one particle, each in [0, 1). */
  datatype Draws = Draws(gi: real, phase: real, drift: real, jitter: real)

  predicate DrawsValid(r: Draws) {
    0.0 <= r.gi < 1.0 && 0.0 <= r.phase < 1.0 && 0.0 <= r.drift < 1.0 && 0.0 <= r.jitter < 1.0
  }

  /** `Math.floor(180 * density)` */
  function ParticleCount(density: real): (c: int)
    ensures 0.0 <= density ==> 0 <= c && c as real <= 180.0 * density
  {
    (180.0 * density).Floor
  }

  /** One particle from its draws: `gi` is a guide index, `drift` lies in
      [-0.9, 0.9) and `jitter` in [-0.6, 0.6). */
  function InitParticle(id: nat, r: Draws, guideLen: nat): (p: Particle)
    requires DrawsValid(r)
    ensures p.id == id && p.phase == r.phase
    ensures 0 < guideLen ==> 0 <= p.gi < guideLen
    ensures -0.9 <= p.drift < 0.9 && -0.6 <= p.jitter < 0.6
  {
    IndexDraw(r.gi, guideLen);
    Particle(id, (r.gi * guideLen as real).Floor, r.phase,
             (r.drift * 2.0 - 1.0) * 0.9, (r.jitter * 2.0 - 1.0) * 0.6)
  }

  lemma IndexDraw(r: real, len: nat)
    requires 0.0 <= r < 1.0
    ensures 0 < len ==> 0 <= (r * len as real).Floor < len
  {
    if 0 < len {
      assert len as real - r * len as real == (1.0 - r) * len as real;
    }
  }

  /** The particle array, built by mapping over the indices. */
  function InitParticles(draws: seq<Draws>, guideLen: nat): (ps: seq<Particle>)
    requires forall i :: 0 <= i < |draws| ==> DrawsValid(draws[i])
    ensures |ps| == |draws|
    ensures forall i :: 0 <= i < |ps| ==> ps[i] == InitParticle(i, draws[i], guideLen)
    ensures 0 < guideLen ==> forall i :: 0 <= i < |ps| ==> 0 <= ps[i].gi < guideLen
  {
    seq(|draws|, i requires 0 <= i < |draws| => InitParticle(i, draws[i], guideLen))
  }

  /** `timeJitter = now / 1000 * 0.8` */
  function TimeJitter(nowMs: real): (tj: real)
    ensures 0.0 <= nowMs ==> 0.0 <= tj
  {
    nowMs / 1000.0 * 0.8
  }

  /** `baseGi` exactly as the render loop computes it. */
  function BaseIndexAsWritten(p: Particle, nowMs: real, span: int): int
    requires span > 0
  {
    GuideIndexAsWritten(p.gi, TimeJitter(nowMs), p.drift, 18.0, 12.0, span)
  }

  /** `baseGi` with the floored remainder: always a revealed guide index. */
  function BaseIndex(p: Particle, nowMs: real, span: int): (g: int)
    requires span > 0
    ensures 0 <= g < span
  {
    GuideIndex(p.gi, TimeJitter(nowMs), p.drift, 18.0, 12.0, span)
  }

  /** A particle drawn with gi = 0 and drift = -0.9, 200 ms after the page
      clock started and at the start of a cycle: the reveal span is 10, the
      dividend 0 + 0.16 * 18 - 0.9 * 12 = -7.92 and the written index is -8,
      outside the guide. The floored remainder gives 2. */
  lemma NegativeIndexExample()
    ensures var p := Particle(0, 0, 0.0, -0.9, 0.0);
            var span := MaxIndex(0.0, ArmDurations, GuideCount, MinReveal);
            && span == 10
            && BaseIndexAsWritten(p, 200.0, span) == -8
            && BaseIndex(p, 200.0, span) == 2
  {
    var p := Particle(0, 0, 0.0, -0.9, 0.0);
    assert MaxIndex(0.0, ArmDurations, GuideCount, MinReveal) == 10;
    assert TimeJitter(200.0) == 0.16;
    var a := 0 as real + 0.16 * 18.0 + -0.9 * 12.0;
    assert a == -7.92;
    assert Trunc(a / 10.0) == 0;
    assert JsRem(a, 10.0) == -7.92;
    assert (a / 10.0).Floor == -1;
    assert FloorRem(a, 10.0) == 2.08;
  }

  /** The reveal span lies between 10 and the guide length, so every index a
      frame reads from the guide (the base index and its clamped neighbour)
      is in range. */
  lemma FrameReadsInRange(lens: seq<real>, u: real, p: Particle, nowMs: real)
    requires ValidLengths(ArmShapePoints(), lens)
    ensures var span := MaxIndex(u, ArmDurations, GuideCount, MinReveal);
            && MinReveal <= span <= |Guide(lens)|
            && 0 <= BaseIndex(p, nowMs, span) < |Guide(lens)|
            && 0 <= NextIndex(BaseIndex(p, nowMs, span), span) < |Guide(lens)|
  {
    GuideShape(lens);
  }

  /** The written index is already in range whenever its dividend is not
      negative, which holds for every particle once the page clock passes
      (12 * 0.9 - gi) / 18 * 1000 / 0.8 ms. */
  lemma WrittenIndexInRange(p: Particle, nowMs: real, span: int)
    requires span > 0
    requires 0.0 <= p.gi as real + TimeJitter(nowMs) * 18.0 + p.drift * 12.0
    ensures BaseIndexAsWritten(p, nowMs, span) == BaseIndex(p, nowMs, span)
    ensures 0 <= BaseIndexAsWritten(p, nowMs, span) < span
  {
    GuideIndexAgrees(p.gi, TimeJitter(nowMs), p.drift, 18.0, 12.0, span);
  }

  /** `j = 6 + driftAway * 55`: the jitter radius grows from 6 during the
      dissolve and stays below 61. */
  function JitterRadius(u: real): (j: real)
    ensures 6.0 <= j < 61.0
    ensures !IsDissolving(u, ArmDurations) ==> j == 6.0
  {
    6.0 + DissolveProgress(u, ArmDurations) * 55.0
  }
}
