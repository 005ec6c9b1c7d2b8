/** The 3D robotic-hand line field: seven fixed 3D polylines, each resampled
    to 110 points and concatenated into one guide, projected with a simple
    perspective divide, revealed and dissolved by the four-phase timeline.
    During the dissolve each particle's guide point is pushed back in depth.
    Drawing calls, the sin/cos jitter offsets and the browser clock are not
    modelled; the clock reading and the random draws are parameters. */
module HandLinefield {
  import opened Numeric
  import opened Polyline
  import opened Timeline

  datatype Pt3 = Pt3(x: real, y: real, z: real)

  /** `lerp` applied per coordinate. */
  function Lerp3(a: Pt3, b: Pt3, u: real): (r: Pt3)
    ensures u == 0.0 ==> r == a
    ensures u == 1.0 ==> r == b
  {
    Pt3(Lerp(a.x, b.x, u), Lerp(a.y, b.y, u), Lerp(a.z, b.z, u))
  }

  lemma Lerp3Laws()
    ensures LerpLaws(Lerp3)
  {
  }

  /** No point of a polyline equals the next one. */
  predicate NoRepeats(pl: seq<Pt3>) {
    forall k :: 0 <= k < |pl| - 1 ==> pl[k] != pl[k + 1]
  }

  predicate Closed(pl: seq<Pt3>) {
    |pl| > 0 && pl[0] == pl[|pl| - 1]
  }

  function Palm(): (pl: seq<Pt3>)
    ensures |pl| == 7 && Closed(pl) && NoRepeats(pl)
  {
    [ Pt3(-0.28, 0.14, 0.02), Pt3(0.28, 0.14, 0.02), Pt3(0.32, -0.10, -0.02),
      Pt3(0.18, -0.30, -0.05), Pt3(-0.18, -0.30, -0.05), Pt3(-0.32, -0.10, -0.02),
      Pt3(-0.28, 0.14, 0.02) ]
  }

  /** Where a finger starts on the palm's top edge and how far it splays. */
  datatype FingerBase = FingerBase(x: real, y: real, splay: real)

  /** Pinky, ring, middle and index. */
  function FingerBases(): (fb: seq<FingerBase>)
    ensures |fb| == 4
  {
    [ FingerBase(-0.22, 0.14, -0.12), FingerBase(-0.11, 0.14, -0.06),
      FingerBase(0.0, 0.14, 0.0), FingerBase(0.11, 0.14, 0.06) ]
  }

  /** Finger i: four joints whose phalanx lengths and depth step with i. */
  function Finger(b: FingerBase, i: nat): (pl: seq<Pt3>)
    ensures |pl| == 4 && NoRepeats(pl)
    ensures forall k :: 0 <= k < 3 ==> pl[k].y < pl[k + 1].y
  {
    var l1 := 0.18 + i as real * 0.01;
    var l2 := 0.16 + i as real * 0.008;
    var l3 := 0.13 + i as real * 0.006;
    var z0 := 0.03 - i as real * 0.01;
    [ Pt3(b.x, b.y, z0),
      Pt3(b.x + b.splay * 0.25, b.y + l1, z0 + 0.02),
      Pt3(b.x + b.splay * 0.45, b.y + l1 + l2, z0 + 0.05),
      Pt3(b.x + b.splay * 0.6, b.y + l1 + l2 + l3, z0 + 0.08) ]
  }

  function Thumb(): (pl: seq<Pt3>)
    ensures |pl| == 4 && NoRepeats(pl)
  {
    [ Pt3(0.28, 0.05, 0.01), Pt3(0.40, 0.00, 0.05), Pt3(0.46, -0.10, 0.10),
      Pt3(0.42, -0.20, 0.12) ]
  }

  function Wrist(): (pl: seq<Pt3>)
    ensures |pl| == 5 && Closed(pl) && NoRepeats(pl)
  {
    [ Pt3(-0.10, -0.30, -0.05), Pt3(0.10, -0.30, -0.05), Pt3(0.14, -0.44, -0.08),
      Pt3(-0.14, -0.44, -0.08), Pt3(-0.10, -0.30, -0.05) ]
  }

  /** `[palm, ...fingers, thumb, wrist]`: seven polylines, the palm and wrist
      closed, four 4-joint fingers and a 4-joint thumb, none with a repeated
      consecutive point. */
  function HandPolylines3D(): (pls: seq<seq<Pt3>>)
    ensures |pls| == 7
    ensures |pls[0]| == 7 && Closed(pls[0])
    ensures forall i :: 1 <= i <= 5 ==> |pls[i]| == 4
    ensures |pls[6]| == 5 && Closed(pls[6])
    ensures forall i :: 0 <= i < 7 ==> NoRepeats(pls[i])
    ensures forall i :: 1 <= i <= 4 ==> pls[i] == Finger(FingerBases()[i - 1], i - 1)
  {
    var fingers := seq(4, i requires 0 <= i < 4 => Finger(FingerBases()[i], i));
    [Palm()] + fingers + [Thumb(), Wrist()]
  }

  /** `resamplePolyline3D(points, n)`: the same resampler over 3D points;
      `lens[k]` is the Euclidean length of segment k. */
  method ResamplePolyline3D(points: seq<Pt3>, lens: seq<real>, n: nat) returns (out: seq<Pt3>)
    requires ValidLengths(points, lens) && FirstSegmentOk(lens, n)
    ensures out == Resampled(points, lens, n, Lerp3)
  {
    var total := TotalLength(lens);
    if total == 0.0 {
      return points;
    }
    out := [];
    var i := 0;
    while i < n
      invariant 0 <= i <= n
      invariant out == Samples(points, lens, n, i, Lerp3)
    {
      var pt := SampleAt(points, lens, n, i, total, Lerp3);
      out := out + pt;
      i := i + 1;
    }
  }

  const PartCount: nat := 110
  const MinReveal: nat := 12
  const HandDurations := Durations(2.6, 1.4, 2.4, 0.6)

  /** One segment-length list per polyline of the hand. */
  predicate HandLengths(lensPer: seq<seq<real>>) {
    |lensPer| == 7 && forall i :: 0 <= i < 7 ==> ValidLengths(HandPolylines3D()[i], lensPer[i])
  }

  /** `parts.flat()` */
  function Flatten<T>(parts: seq<seq<T>>): seq<T> {
    if |parts| == 0 then [] else Flatten(parts[..|parts| - 1]) + parts[|parts| - 1]
  }

  /** Flattening parts of a common length m gives |parts| * m elements. */
  lemma {:induction false} FlattenLength<T>(parts: seq<seq<T>>, m: nat)
    requires forall i :: 0 <= i < |parts| ==> |parts[i]| == m
    ensures |Flatten(parts)| == |parts| * m
  {
    if |parts| > 0 {
      FlattenLength(parts[..|parts| - 1], m);
    }
  }

  /** Element j of part i sits at position i * m + j of the flattening. */
  lemma {:induction false} FlattenAt<T>(parts: seq<seq<T>>, m: nat, i: nat, j: nat)
    requires forall k :: 0 <= k < |parts| ==> |parts[k]| == m
    requires i < |parts| && j < m
    ensures i * m + j < |Flatten(parts)|
    ensures Flatten(parts)[i * m + j] == parts[i][j]
  {
    var init := parts[..|parts| - 1];
    var last := parts[|parts| - 1];
    assert Flatten(parts) == Flatten(init) + last;
    FlattenLength(init, m);
    var p := i * m + j;
    if i < |init| {
      BlockBelow(i, |init|, m, j);
      FlattenAt(init, m, i, j);
      assert Flatten(parts)[p] == Flatten(init)[p];
    } else {
      assert p - |Flatten(init)| == j;
    }
  }

  lemma BlockBelow(i: nat, n: nat, m: nat, j: nat)
    requires i < n && j < m
    ensures i * m + j < n * m
  {
    MulMonotone(i + 1, n, m);
    assert (i + 1) * m == i * m + m;
  }

  lemma {:induction false} MulMonotone(a: nat, b: nat, m: nat)
    requires a <= b
    ensures a * m <= b * m
    decreases b - a
  {
    if a < b {
      MulMonotone(a, b - 1, m);
      assert b * m == (b - 1) * m + m;
    }
  }

  /** Each polyline resampled to 110 points. */
  function Parts(lensPer: seq<seq<real>>): (parts: seq<seq<Pt3>>)
    requires HandLengths(lensPer)
    ensures |parts| == 7
  {
    seq(7, i requires 0 <= i < 7 =>
      PartDefined(lensPer, i);
      Resampled(HandPolylines3D()[i], lensPer[i], PartCount, Lerp3))
  }

  lemma PartDefined(lensPer: seq<seq<real>>, i: nat)
    requires HandLengths(lensPer) && i < 7
    ensures Total(lensPer[i]) > 0.0 && FirstSegmentOk(lensPer[i], PartCount)
  {
    FirstSegmentPositive(HandPolylines3D()[i], lensPer[i], PartCount);
  }

  /** The guide: the seven resampled polylines, concatenated in order. */
  function Guide(lensPer: seq<seq<real>>): seq<Pt3>
    requires HandLengths(lensPer)
  {
    Flatten(Parts(lensPer))
  }

  /** The guide holds 7 * 110 = 770 points; block i is polyline i resampled,
      starting at its first point and ending at its last. */
  lemma GuideShape(lensPer: seq<seq<real>>)
    requires HandLengths(lensPer)
    ensures |Guide(lensPer)| == 770
    ensures forall i :: 0 <= i < 7 ==>
              && |Parts(lensPer)[i]| == 110
              && Parts(lensPer)[i][0] == HandPolylines3D()[i][0]
              && Parts(lensPer)[i][109] == HandPolylines3D()[i][|HandPolylines3D()[i]| - 1]
    ensures forall i, j :: 0 <= i < 7 && 0 <= j < 110 ==> Guide(lensPer)[i * 110 + j] == Parts(lensPer)[i][j]
  {
    var parts := Parts(lensPer);
    var pls := HandPolylines3D();
    Lerp3Laws();
    forall i | 0 <= i < 7
      ensures |parts[i]| == 110
      ensures parts[i][0] == pls[i][0]
      ensures parts[i][109] == pls[i][|pls[i]| - 1]
    {
      PartDefined(lensPer, i);
      ResampledFirst(pls[i], lensPer[i], PartCount, Lerp3);
      ResampledLast(pls[i], lensPer[i], PartCount, Lerp3);
    }
    FlattenLength(parts, 110);
    forall i, j | 0 <= i < 7 && 0 <= j < 110
      ensures Flatten(parts)[i * 110 + j] == parts[i][j]
    {
      FlattenAt(parts, 110, i, j);
    }
  }

  /** The perspective projection: a screen point and its depth factor. */
  datatype Projected = Projected(x: real, y: real, z: real)

  /** `project3D(p, cx, cy, scale, depth)`: the factor is
      `depth / (depth + p.z * 900)`; x and y are scaled about the centre by it. */
  function Project3D(p: Pt3, cx: real, cy: real, scale: real, depth: real): (r: Projected)
    requires depth + p.z * 900.0 != 0.0
    ensures p.z == 0.0 && depth != 0.0 ==> r == Projected(cx + p.x * scale, cy + p.y * scale, 1.0)
    ensures p.x == 0.0 && p.y == 0.0 ==> r.x == cx && r.y == cy
    ensures r.x - cx == p.x * scale * r.z && r.y - cy == p.y * scale * r.z
    ensures r.z * (depth + p.z * 900.0) == depth
  {
    var z := depth / (depth + p.z * 900.0);
    UnitFactor(p.z, depth);
    Projected(cx + p.x * scale * z, cy + p.y * scale * z, z)
  }

  lemma UnitFactor(z: real, depth: real)
    requires depth + z * 900.0 != 0.0
    ensures z == 0.0 && depth != 0.0 ==> depth / (depth + z * 900.0) == 1.0
  {
    if z == 0.0 {
      assert depth + z * 900.0 == depth;
    }
  }

  /** For a positive depth and points in front of the viewer, the factor is
      positive and strictly shrinks as the point moves back. */
  lemma DepthFactorDecreasing(p: Pt3, q: Pt3, cx: real, cy: real, scale: real, depth: real)
    requires depth > 0.0 && depth + p.z * 900.0 > 0.0 && depth + q.z * 900.0 > 0.0
    requires p.z < q.z
    ensures 0.0 < Project3D(q, cx, cy, scale, depth).z < Project3D(p, cx, cy, scale, depth).z
  {
    var dp := depth + p.z * 900.0;
    var dq := depth + q.z * 900.0;
    assert dp < dq;
    QuotientShrinks(depth, dp, dq);
  }

  lemma QuotientShrinks(a: real, b: real, c: real)
    requires a > 0.0 && 0.0 < b < c
    ensures 0.0 < a / c < a / b
  {
  }

  /** The stroke colours of an accent. */
  datatype Stroke = Stroke(line: string, glow: string)

  const WhiteStroke := Stroke("rgba(255,255,255,1)", "rgba(255,255,255,0.10)")

  /** `pickStroke(accent)`: `None` stands for an undefined accent. */
  function PickStroke(accent: Option<string>): (s: Stroke)
    ensures accent == Some("cyan") ==> s == Stroke("rgba(34,211,238,1)", "rgba(34,211,238,0.12)")
    ensures accent == Some("teal") ==> s == Stroke("rgba(45,212,191,1)", "rgba(45,212,191,0.12)")
    ensures accent == Some("violet") ==> s == Stroke("rgba(167,139,250,1)", "rgba(167,139,250,0.12)")
    ensures s == WhiteStroke <==> accent !in {Some("cyan"), Some("teal"), Some("violet")}
  {
    match accent
    case Some("cyan") => Stroke("rgba(34,211,238,1)", "rgba(34,211,238,0.12)")
    case Some("teal") => Stroke("rgba(45,212,191,1)", "rgba(45,212,191,0.12)")
    case Some("violet") => Stroke("rgba(167,139,250,1)", "rgba(167,139,250,0.12)")
    case _ => WhiteStroke
  }

  /** The component's stroke: an omitted `accent` prop defaults to "cyan"
      before `pickStroke` sees it, so the white pair needs an explicit
      "white" (or any other string). */
  function ComponentStroke(accentProp: Option<string>): (s: Stroke)
    ensures accentProp.None? ==> s == PickStroke(Some("cyan")) && s != WhiteStroke
    ensures accentProp.Some? ==> s == PickStroke(accentProp)
  {
    PickStroke(Some(if accentProp.Some? then accentProp.value else "cyan"))
  }

  /** The guide-stroke loop `for (i = 0; i < maxIndex - 1; i += 2)`: the
      index pairs (i, i + 1) whose points it joins. */
  method GuideStrokePairs(maxIndex: int) returns (pairs: seq<(int, int)>)
    ensures |pairs| == (if maxIndex <= 0 then 0 else maxIndex / 2)
    ensures forall k :: 0 <= k < |pairs| ==> pairs[k] == (2 * k, 2 * k + 1)
    ensures forall k :: 0 <= k < |pairs| ==> 0 <= pairs[k].0 && pairs[k].1 < maxIndex
  {
    pairs := [];
    var i := 0;
    while i < maxIndex - 1
      invariant i == 2 * |pairs| && 0 <= i
      invariant maxIndex > 0 ==> i <= maxIndex
      invariant maxIndex <= 0 ==> i == 0
      invariant forall k :: 0 <= k < |pairs| ==> pairs[k] == (2 * k, 2 * k + 1)
      invariant forall k :: 0 <= k < |pairs| ==> pairs[k].1 < maxIndex
    {
      pairs := pairs + [(i, i + 1)];
      i := i + 2;
    }
  }

  /** Every pair the guide stroke reads lies inside the guide. */
  lemma GuideStrokeInRange(lensPer: seq<seq<real>>, u: real, pairs: seq<(int, int)>)
    requires HandLengths(lensPer)
    requires forall k :: 0 <= k < |pairs| ==> 0 <= pairs[k].0 && pairs[k].1 < MaxIndex(u, HandDurations, 770, MinReveal)
    ensures forall k :: 0 <= k < |pairs| ==> 0 <= pairs[k].0 && pairs[k].1 < |Guide(lensPer)|
  {
    GuideShape(lensPer);
  }

  /** A particle: guide index, phase in [0, 10), drift, jitter and the depth
      bias it gains while dissolving. */
  datatype Particle = Particle(id: nat, gi: int, phase: real, drift: real, jitter: real, depthBias: real)

  /** The five `Math.random()` draws for one particle, each in [0, 1). */
  datatype Draws = Draws(gi: real, phase: real, drift: real, jitter: real, depthBias: real)

  predicate DrawsValid(r: Draws) {
    && 0.0 <= r.gi < 1.0 && 0.0 <= r.phase < 1.0 && 0.0 <= r.drift < 1.0
    && 0.0 <= r.jitter < 1.0 && 0.0 <= r.depthBias < 1.0
  }

  /** `Math.floor(220 * density)` */
  function ParticleCount(density: real): (c: int)
    ensures 0.0 <= density ==> 0 <= c && c as real <= 220.0 * density
  {
    (220.0 * density).Floor
  }

  function InitParticle(id: nat, r: Draws, guideLen: nat): (p: Particle)
    requires DrawsValid(r)
    ensures p.id == id
    ensures 0 < guideLen ==> 0 <= p.gi < guideLen
    ensures 0.0 <= p.phase < 10.0
    ensures -0.9 <= p.drift < 0.9 && -0.6 <= p.jitter < 0.6 && -0.25 <= p.depthBias < 0.25
  {
    IndexDraw(r.gi, guideLen);
    Particle(id, (r.gi * guideLen as real).Floor, r.phase * 10.0,
             (r.drift * 2.0 - 1.0) * 0.9, (r.jitter * 2.0 - 1.0) * 0.6,
             (r.depthBias * 2.0 - 1.0) * 0.25)
  }

  lemma IndexDraw(r: real, len: nat)
    requires 0.0 <= r < 1.0
    ensures 0 < len ==> 0 <= (r * len as real).Floor < len
  {
    if 0 < len {
      assert len as real - r * len as real == (1.0 - r) * len as real;
    }
  }

  function InitParticles(draws: seq<Draws>, guideLen: nat): (ps: seq<Particle>)
    requires forall i :: 0 <= i < |draws| ==> DrawsValid(draws[i])
    ensures |ps| == |draws|
    ensures forall i :: 0 <= i < |ps| ==> ps[i] == InitParticle(i, draws[i], guideLen)
  {
    seq(|draws|, i requires 0 <= i < |draws| => InitParticle(i, draws[i], guideLen))
  }

  /** `timeJitter = now / 1000 * 0.75` */
  function TimeJitter(nowMs: real): (tj: real)
    ensures 0.0 <= nowMs ==> 0.0 <= tj
  {
    nowMs / 1000.0 * 0.75
  }

  /** `baseGi` exactly as the render loop computes it. */
  function BaseIndexAsWritten(p: Particle, nowMs: real, span: int): int
    requires span > 0
  {
    GuideIndexAsWritten(p.gi, TimeJitter(nowMs), p.drift, 20.0, 10.0, span)
  }

  /** `baseGi` with the floored remainder: always a revealed guide index. */
  function BaseIndex(p: Particle, nowMs: real, span: int): (g: int)
    requires span > 0
    ensures 0 <= g < span
  {
    GuideIndex(p.gi, TimeJitter(nowMs), p.drift, 20.0, 10.0, span)
  }

  /** gi = 0, drift = -0.9, 200 ms after the page clock started, at the start
      of a cycle: the span is 12, the dividend 0 + 0.15 * 20 - 0.9 * 10 = -6 and
      the written index is -6. The floored remainder gives 6. */
  lemma NegativeIndexExample()
    ensures var p := Particle(0, 0, 0.0, -0.9, 0.0, 0.0);
            var span := MaxIndex(0.0, HandDurations, 770, MinReveal);
            && span == 12
            && BaseIndexAsWritten(p, 200.0, span) == -6
            && BaseIndex(p, 200.0, span) == 6
  {
    assert MaxIndex(0.0, HandDurations, 770, MinReveal) == 12;
    assert TimeJitter(200.0) == 0.15;
    var a := 0 as real + 0.15 * 20.0 + -0.9 * 10.0;
    assert a == -6.0;
    assert Trunc(a / 12.0) == 0;
    assert JsRem(a, 12.0) == -6.0;
    assert (a / 12.0).Floor == -1;
    assert FloorRem(a, 12.0) == 6.0;
  }

  /** The written index is already in range whenever its dividend is not
      negative. */
  lemma WrittenIndexInRange(p: Particle, nowMs: real, span: int)
    requires span > 0
    requires 0.0 <= p.gi as real + TimeJitter(nowMs) * 20.0 + p.drift * 10.0
    ensures BaseIndexAsWritten(p, nowMs, span) == BaseIndex(p, nowMs, span)
    ensures 0 <= BaseIndexAsWritten(p, nowMs, span) < span
  {
    GuideIndexAgrees(p.gi, TimeJitter(nowMs), p.drift, 20.0, 10.0, span);
  }

  /** The reveal span lies between 12 and the guide length, so the base index
      and its clamped neighbour are guide indices. */
  lemma FrameReadsInRange(lensPer: seq<seq<real>>, u: real, p: Particle, nowMs: real)
    requires HandLengths(lensPer)
    ensures var span := MaxIndex(u, HandDurations, 770, MinReveal);
            && MinReveal <= span <= |Guide(lensPer)|
            && 0 <= BaseIndex(p, nowMs, span) < |Guide(lensPer)|
            && 0 <= NextIndex(BaseIndex(p, nowMs, span), span) < |Guide(lensPer)|
  {
    GuideShape(lensPer);
  }

  /** `extraZ = driftAway * (0.55 + depthBias) * 0.45`: never negative for a
      bias in [-0.25, 0.25), zero outside the dissolve, and below 0.36. */
  function ExtraZ(u: real, p: Particle): (e: real)
    requires -0.25 <= p.depthBias < 0.25
    ensures 0.0 <= e < 0.36
    ensures !IsDissolving(u, HandDurations) ==> e == 0.0
  {
    var d := DissolveProgress(u, HandDurations);
    var w := (0.55 + p.depthBias) * 0.45;
    assert 0.0 < w < 0.36;
    ScaleBelow(d, w);
    d * w
  }

  lemma ScaleBelow(d: real, w: real)
    requires 0.0 <= d < 1.0 && 0.0 < w
    ensures 0.0 <= d * w < w
  {
    assert w - d * w == (1.0 - d) * w;
  }

  /** `j = 5 + driftAway * 22`: from 5 up to (not reaching) 27. */
  function JitterRadius(u: real): (j: real)
    ensures 5.0 <= j < 27.0
    ensures !IsDissolving(u, HandDurations) ==> j == 5.0
  {
    5.0 + DissolveProgress(u, HandDurations) * 22.0
  }
}
