/** The repeating draw -> hold -> dissolve -> gap cycle of the two line-field
    engines, and the index arithmetic with which a particle picks its guide
    point. Both engines compute the same expressions with their own
    durations, reveal minimum and speed constants; those constants live in
    the engine modules. */
module Timeline {
  import opened Numeric

  /** The four phase durations, in seconds. */
  datatype Durations = Durations(draw: real, hold: real, dissolve: real, gap: real)

  predicate Positive(d: Durations) {
    d.draw > 0.0 && d.hold > 0.0 && d.dissolve > 0.0 && d.gap > 0.0
  }

  /** `T_TOTAL = T_DRAW + T_HOLD + T_DISSOLVE + T_GAP` */
  function CycleLength(d: Durations): real {
    d.draw + d.hold + d.dissolve + d.gap
  }

  /** `t = ((now - t0) / 1000) * speed`, with clock readings in milliseconds. */
  function Elapsed(nowMs: real, startMs: real, speed: real): (t: real)
    ensures startMs <= nowMs && 0.0 <= speed ==> 0.0 <= t
  {
    var s := (nowMs - startMs) / 1000.0;
    assert 0.0 <= s && 0.0 <= speed ==> 0.0 <= s * speed;
    s * speed
  }

  /** `u = t % T_TOTAL`: the position inside the current cycle. */
  function CyclePosition(t: real, d: Durations): (u: real)
    requires Positive(d)
    ensures 0.0 <= t ==> 0.0 <= u < CycleLength(d)
  {
    JsRem(t, CycleLength(d))
  }

  predicate IsDrawing(u: real, d: Durations) {
    u < d.draw
  }

  predicate IsHolding(u: real, d: Durations) {
    u >= d.draw && u < d.draw + d.hold
  }

  predicate IsDissolving(u: real, d: Durations) {
    u >= d.draw + d.hold && u < d.draw + d.hold + d.dissolve
  }

  datatype Phase = Drawing | Holding | Dissolving | Gap

  /** The phase the three flags select, in the order the render code tests them. */
  function PhaseAt(u: real, d: Durations): Phase {
    if IsDrawing(u, d) then Drawing
    else if IsHolding(u, d) then Holding
    else if IsDissolving(u, d) then Dissolving
    else Gap
  }

  /** `drawProg = clamp(u / T_DRAW, 0, 1)` */
  function DrawProgress(u: real, d: Durations): (p: real)
    requires Positive(d)
    ensures 0.0 <= p <= 1.0
  {
    Clamp(u / d.draw, 0.0, 1.0)
  }

  /** `dissolveProg`: the fraction of the dissolve phase elapsed, 0 outside it. */
  function DissolveProgress(u: real, d: Durations): (p: real)
    requires Positive(d)
    ensures 0.0 <= p < 1.0
    ensures !IsDissolving(u, d) ==> p == 0.0
  {
    if IsDissolving(u, d) then
      assert 0.0 <= u - (d.draw + d.hold) < d.dissolve;
      FractionBelowOne(u - (d.draw + d.hold), d.dissolve);
      (u - (d.draw + d.hold)) / d.dissolve
    else 0.0
  }

  lemma FractionBelowOne(x: real, y: real)
    requires 0.0 <= x < y
    ensures 0.0 <= x / y < 1.0
  {
  }

  /** `vis`: the visibility scalar every draw call is scaled by. */
  function Visibility(u: real, d: Durations): (vis: real)
    requires Positive(d)
    ensures 0.0 <= vis <= 1.0
    ensures IsDissolving(u, d) ==> 0.0 < vis
  {
    if IsDrawing(u, d) then DrawProgress(u, d)
    else if IsHolding(u, d) then 1.0
    else if IsDissolving(u, d) then 1.0 - DissolveProgress(u, d)
    else 0.0
  }

  /** `maxIndex`: how many guide points are revealed. While drawing it is the
      revealed fraction of the guide, but never below `minReveal`; afterwards
      the whole guide. */
  function MaxIndex(u: real, d: Durations, guideLen: nat, minReveal: nat): (m: int)
    requires Positive(d)
    ensures minReveal <= guideLen ==> minReveal <= m <= guideLen
    ensures !IsDrawing(u, d) ==> m == guideLen
    ensures IsDrawing(u, d) ==> (guideLen as real * DrawProgress(u, d)).Floor <= m
    ensures IsDrawing(u, d) ==> m == minReveal || m == (guideLen as real * DrawProgress(u, d)).Floor
  {
    var revealCount := (guideLen as real * (if IsDrawing(u, d) then DrawProgress(u, d) else 1.0)).Floor;
    RevealBound(guideLen, if IsDrawing(u, d) then DrawProgress(u, d) else 1.0);
    if IsDrawing(u, d) then (if minReveal >= revealCount then minReveal else revealCount) else guideLen
  }

  /** The cut-off never shrinks as the cycle advances: it grows with the draw
      progress and then stays at the whole guide. */
  lemma MaxIndexMonotone(u1: real, u2: real, d: Durations, guideLen: nat, minReveal: nat)
    requires Positive(d) && u1 <= u2 && minReveal <= guideLen
    ensures MaxIndex(u1, d, guideLen, minReveal) <= MaxIndex(u2, d, guideLen, minReveal)
  {
    if IsDrawing(u2, d) {
      DivMonotone(u1, u2, d.draw);
      var p1 := DrawProgress(u1, d);
      var p2 := DrawProgress(u2, d);
      assert p1 <= p2;
      assert guideLen as real * p1 <= guideLen as real * p2 by {
        assert guideLen as real * p2 - guideLen as real * p1 == guideLen as real * (p2 - p1);
      }
      FloorMonotone(guideLen as real * p1, guideLen as real * p2);
    }
  }

  lemma FloorMonotone(x: real, y: real)
    requires x <= y
    ensures x.Floor <= y.Floor
  {
  }

  lemma RevealBound(len: nat, f: real)
    requires 0.0 <= f <= 1.0
    ensures 0 <= (len as real * f).Floor <= len
  {
    assert len as real - len as real * f == len as real * (1.0 - f);
  }

  /** Inside one cycle exactly one phase holds, and each covers its interval. */
  lemma PhaseIntervals(u: real, d: Durations)
    requires Positive(d) && 0.0 <= u < CycleLength(d)
    ensures PhaseAt(u, d) == Drawing <==> u < d.draw
    ensures PhaseAt(u, d) == Holding <==> d.draw <= u < d.draw + d.hold
    ensures PhaseAt(u, d) == Dissolving <==> d.draw + d.hold <= u < d.draw + d.hold + d.dissolve
    ensures PhaseAt(u, d) == Gap <==> d.draw + d.hold + d.dissolve <= u
    ensures IsHolding(u, d) ==> !IsDrawing(u, d)
    ensures IsDissolving(u, d) ==> !IsDrawing(u, d) && !IsHolding(u, d)
  {
  }

  /** Visibility by phase: the draw fraction while drawing, full while
      holding, the complement of the dissolve fraction while dissolving, and
      nothing in the gap. */
  lemma VisibilityByPhase(u: real, d: Durations)
    requires Positive(d) && 0.0 <= u < CycleLength(d)
    ensures PhaseAt(u, d) == Drawing ==> Visibility(u, d) == u / d.draw
    ensures PhaseAt(u, d) == Holding ==> Visibility(u, d) == 1.0
    ensures PhaseAt(u, d) == Dissolving ==>
              Visibility(u, d) == 1.0 - (u - d.draw - d.hold) / d.dissolve
    ensures PhaseAt(u, d) == Gap ==> Visibility(u, d) == 0.0
  {
    if u < d.draw {
      FractionBelowOne(u, d.draw);
    }
  }

  /** Within a cycle visibility never falls before the dissolve starts and
      never rises after the draw ends. */
  lemma VisibilityRisesThenFalls(u1: real, u2: real, d: Durations)
    requires Positive(d) && 0.0 <= u1 <= u2 < CycleLength(d)
    ensures u2 < d.draw + d.hold ==> Visibility(u1, d) <= Visibility(u2, d)
    ensures d.draw <= u1 ==> Visibility(u1, d) >= Visibility(u2, d)
  {
    if u2 < d.draw {
      DivMonotone(u1, u2, d.draw);
    }
    if d.draw + d.hold <= u1 && u2 < d.draw + d.hold + d.dissolve {
      DivMonotone(u1 - (d.draw + d.hold), u2 - (d.draw + d.hold), d.dissolve);
    }
  }

  /** The phase, visibility and reveal depend on the elapsed time only through
      its position in the cycle, so they repeat every cycle length. */
  lemma Periodic(t: real, k: nat, d: Durations, guideLen: nat, minReveal: nat)
    requires Positive(d) && 0.0 <= t
    ensures CyclePosition(t + k as real * CycleLength(d), d) == CyclePosition(t, d)
    ensures var u := CyclePosition(t, d);
            var v := CyclePosition(t + k as real * CycleLength(d), d);
            && PhaseAt(v, d) == PhaseAt(u, d)
            && Visibility(v, d) == Visibility(u, d)
            && DissolveProgress(v, d) == DissolveProgress(u, d)
            && MaxIndex(v, d, guideLen, minReveal) == MaxIndex(u, d, guideLen, minReveal)
  {
    JsRemPeriodic(t, CycleLength(d), k);
  }

  /** The worked example: with durations 2, 1, 2 and 0.5, time 3 is the very
      start of the dissolve, with progress 0 and full visibility. */
  lemma DissolveStartExample()
    ensures var d := Durations(2.0, 1.0, 2.0, 0.5);
            && CyclePosition(3.0, d) == 3.0
            && PhaseAt(3.0, d) == Dissolving
            && DissolveProgress(3.0, d) == 0.0
            && Visibility(3.0, d) == 1.0
  {
    var d := Durations(2.0, 1.0, 2.0, 0.5);
    assert 3.0 / CycleLength(d) < 1.0;
    assert Trunc(3.0 / CycleLength(d)) == 0;
  }

  /** The particle's guide index as the engines write it:
      `Math.floor((gi + timeJitter * K1 + drift * K2) % span)`. */
  function GuideIndexAsWritten(gi: int, timeJitter: real, drift: real, k1: real, k2: real, span: int): (r: int)
    requires span > 0
    ensures 0.0 <= gi as real + timeJitter * k1 + drift * k2 ==> 0 <= r < span
  {
    JsRem(gi as real + timeJitter * k1 + drift * k2, span as real).Floor
  }

  /** The guide index with the dividend wrapped into [0, span) by the floored
      remainder, which is what indexing the revealed guide needs. */
  function GuideIndex(gi: int, timeJitter: real, drift: real, k1: real, k2: real, span: int): (r: int)
    requires span > 0
    ensures 0 <= r < span
  {
    FloorRem(gi as real + timeJitter * k1 + drift * k2, span as real).Floor
  }

  /** On a non-negative dividend the corrected index is the written one. */
  lemma GuideIndexAgrees(gi: int, timeJitter: real, drift: real, k1: real, k2: real, span: int)
    requires span > 0 && 0.0 <= gi as real + timeJitter * k1 + drift * k2
    ensures GuideIndex(gi, timeJitter, drift, k1, k2, span)
            == GuideIndexAsWritten(gi, timeJitter, drift, k1, k2, span)
  {
    JsRemIsFloorRem(gi as real + timeJitter * k1 + drift * k2, span as real);
  }

  /** `Math.min(span - 1, baseGi + 1)`: the neighbour for the micro-line. */
  function NextIndex(base: int, span: int): (r: int)
    ensures r <= span - 1
    ensures 0 <= base < span ==> 0 <= r < span
    ensures base < span - 1 ==> r == base + 1
  {
    if span - 1 <= base + 1 then span - 1 else base + 1
  }
}
