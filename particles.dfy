/** The interactive particle background: 90 particles that drift, are pulled
    toward the pointer, wrap around the canvas edges, and are joined to each
    other and to the pointer by lines whose opacity falls with distance.
    Distances (`Math.sqrt` in the component) and `Math.random()` draws are
    inputs; canvas drawing and the listeners' registration are not modelled. */
module ParticleField {
  import opened Numeric

  datatype Particle = Particle(x: real, y: real, vx: real, vy: real, size: real)

  /** The pointer position in canvas coordinates. */
  datatype Pointer = Pointer(x: real, y: real)

  const ParticleCount: nat := 90
  const ConnectionDistance: real := 120.0
  const InfluenceDistance: real := 200.0
  const AttractionStrength: real := 0.02

  /** Where the pointer is parked while it is outside the window. */
  const Parked := Pointer(-1000.0, -1000.0)

  /** `Math.max(1, Math.min(2, window.devicePixelRatio || 1))`: `None` stands
      for an undefined or NaN ratio, which like 0 falls back to 1. */
  function DevicePixelRatio(ratio: Option<real>): (dpr: real)
    ensures 1.0 <= dpr <= 2.0
    ensures ratio.Some? && 1.0 <= ratio.value <= 2.0 ==> dpr == ratio.value
    ensures ratio.None? || ratio.value == 0.0 ==> dpr == 1.0
  {
    var r := if ratio.Some? && ratio.value != 0.0 then ratio.value else 1.0;
    Clamp(r, 1.0, 2.0)
  }

  /** The five `Math.random()` draws for one new particle, each in [0, 1). */
  datatype Seed = Seed(x: real, y: real, vx: real, vy: real, size: real)

  predicate SeedValid(s: Seed) {
    && 0.0 <= s.x < 1.0 && 0.0 <= s.y < 1.0 && 0.0 <= s.vx < 1.0
    && 0.0 <= s.vy < 1.0 && 0.0 <= s.size < 1.0
  }

  /** A new particle: inside the box, slow, and of size 1.5 up to 4. */
  function NewParticle(s: Seed, w: real, h: real): (p: Particle)
    requires SeedValid(s) && 0.0 <= w && 0.0 <= h
    ensures 0.0 <= p.x <= w && (0.0 < w ==> p.x < w)
    ensures 0.0 <= p.y <= h && (0.0 < h ==> p.y < h)
    ensures -0.25 <= p.vx < 0.25 && -0.25 <= p.vy < 0.25
    ensures 1.5 <= p.size < 4.0
  {
    Particle(UnitDraw(s.x, w), UnitDraw(s.y, h), (s.vx - 0.5) * 0.5, (s.vy - 0.5) * 0.5, s.size * 2.5 + 1.5)
  }

  /** `Math.random() * len` */
  function UnitDraw(r: real, len: real): (v: real)
    requires 0.0 <= r < 1.0 && 0.0 <= len
    ensures 0.0 <= v <= len
    ensures 0.0 < len ==> v < len
  {
    DrawBounds(r, len);
    r * len
  }

  lemma DrawBounds(r: real, len: real)
    requires 0.0 <= r < 1.0 && 0.0 <= len
    ensures 0.0 <= r * len <= len
    ensures 0.0 < len ==> r * len < len
  {
    MulBetween(len, r);
    if 0.0 < len {
      UnitScale(len, r);
    }
  }

  /** `(MOUSE_INFLUENCE_DISTANCE - d) / MOUSE_INFLUENCE_DISTANCE` */
  function Force(dist: real): (f: real)
    requires 0.0 < dist < InfluenceDistance
    ensures 0.0 < f < 1.0
  {
    (InfluenceDistance - dist) / InfluenceDistance
  }

  /** The pointer pull: only within 0 < dist < 200, where it changes each
      velocity component toward the pointer; position and size are kept. */
  function Attract(p: Particle, m: Pointer, dist: real): (r: Particle)
    ensures r.x == p.x && r.y == p.y && r.size == p.size
    ensures !(0.0 < dist < InfluenceDistance) ==> r == p
    ensures 0.0 < dist ==> (m.x - p.x) * (r.vx - p.vx) >= 0.0 && (m.y - p.y) * (r.vy - p.vy) >= 0.0
  {
    if dist < InfluenceDistance && dist > 0.0 then
      var f := Force(dist);
      var ax := (m.x - p.x) / dist * f * AttractionStrength;
      var ay := (m.y - p.y) / dist * f * AttractionStrength;
      SameSign(m.x - p.x, dist, f * AttractionStrength);
      SameSign(m.y - p.y, dist, f * AttractionStrength);
      p.(vx := p.vx + ax, vy := p.vy + ay)
    else p
  }

  lemma SameSign(a: real, d: real, c: real)
    requires 0.0 < d && 0.0 < c
    ensures a * (a / d * c) >= 0.0
  {
    var q := a / d;
    assert a >= 0.0 ==> q >= 0.0;
    assert a < 0.0 ==> q < 0.0;
    assert a * (q * c) == (a * q) * c;
    assert a * q >= 0.0;
  }

  /** `(Math.random() - 0.5) * 0.02`: a nudge of magnitude at most 0.01. */
  function Nudge(r: real): (n: real)
    requires 0.0 <= r < 1.0
    ensures -0.01 <= n < 0.01
  {
    (r - 0.5) * 0.02
  }

  /** The per-frame random draws for one particle's velocity nudge. */
  datatype Jolt = Jolt(rx: real, ry: real)

  predicate JoltValid(j: Jolt) {
    0.0 <= j.rx < 1.0 && 0.0 <= j.ry < 1.0
  }

  /** Move by the current velocity, damp the velocity by 0.99, then nudge it. */
  function Advect(p: Particle, j: Jolt): (r: Particle)
    requires JoltValid(j)
    ensures r.x == p.x + p.vx && r.y == p.y + p.vy && r.size == p.size
    ensures -0.01 <= r.vx - 0.99 * p.vx < 0.01 && -0.01 <= r.vy - 0.99 * p.vy < 0.01
  {
    Particle(p.x + p.vx, p.y + p.vy, p.vx * 0.99 + Nudge(j.rx), p.vy * 0.99 + Nudge(j.ry), p.size)
  }

  /** Boundary wrapping, one axis: below 0 jumps to the far edge, beyond the
      far edge to 0. */
  function WrapAxis(v: real, limit: real): (r: real)
    ensures 0.0 <= limit ==> 0.0 <= r <= limit
    ensures 0.0 <= v <= limit ==> r == v
    ensures v < 0.0 && 0.0 <= limit ==> r == limit
    ensures 0.0 <= v && limit < v ==> r == 0.0
  {
    var a := if v < 0.0 then limit else v;
    if a > limit then 0.0 else a
  }

  function Wrap(p: Particle, w: real, h: real): (r: Particle)
    ensures 0.0 <= w ==> 0.0 <= r.x <= w
    ensures 0.0 <= h ==> 0.0 <= r.y <= h
    ensures r.vx == p.vx && r.vy == p.vy && r.size == p.size
    ensures 0.0 <= p.x <= w && 0.0 <= p.y <= h ==> r == p
  {
    p.(x := WrapAxis(p.x, w), y := WrapAxis(p.y, h))
  }

  /** One frame for one particle: attraction, motion with damping and
      nudge, then wrapping. `dist` is its distance to the pointer. */
  function StepParticle(p: Particle, m: Pointer, dist: real, j: Jolt, w: real, h: real): (r: Particle)
    requires JoltValid(j)
    ensures 0.0 <= w ==> 0.0 <= r.x <= w
    ensures 0.0 <= h ==> 0.0 <= r.y <= h
    ensures r.size == p.size
  {
    Wrap(Advect(Attract(p, m, dist), j), w, h)
  }

  /** Far from the pointer a particle just drifts: it moves by its velocity
      (wrapped), and its velocity is damped and nudged. */
  lemma StepWithoutPointer(p: Particle, m: Pointer, dist: real, j: Jolt, w: real, h: real)
    requires JoltValid(j) && (dist >= InfluenceDistance || dist <= 0.0)
    requires 0.0 <= p.x + p.vx <= w && 0.0 <= p.y + p.vy <= h
    ensures StepParticle(p, m, dist, j, w, h).x == p.x + p.vx
    ensures StepParticle(p, m, dist, j, w, h).y == p.y + p.vy
    ensures -0.01 <= StepParticle(p, m, dist, j, w, h).vx - 0.99 * p.vx < 0.01
  {
  }

  /** `(1 - d / CONNECTION_DISTANCE) * 0.35` */
  function LinkAlpha(d: real): (a: real)
    requires 0.0 <= d < ConnectionDistance
    ensures 0.0 < a <= 0.35
    ensures d == 0.0 ==> a == 0.35
  {
    (1.0 - d / ConnectionDistance) * 0.35
  }

  /** `(1 - d / MOUSE_INFLUENCE_DISTANCE) * 0.5` */
  function BeamAlpha(d: real): (a: real)
    requires 0.0 <= d < InfluenceDistance
    ensures 0.0 < a <= 0.5
    ensures d == 0.0 ==> a == 0.5
  {
    (1.0 - d / InfluenceDistance) * 0.5
  }

  /** A line between particles i and j. */
  datatype Link = Link(i: nat, j: nat, alpha: real)

  /** A line from particle k to the pointer. */
  datatype Beam = Beam(k: nat, alpha: real)

  /** Pair (a, b) comes before pair (i, j) in the nested loops' order. */
  predicate PairBefore(a: nat, b: nat, i: nat, j: nat) {
    a < i || (a == i && b < j)
  }

  /** A table of pairwise distances: n rows of n non-negative entries. */
  predicate DistanceTable(d: seq<seq<real>>, n: nat) {
    |d| == n && forall i :: 0 <= i < n ==> |d[i]| == n && forall j :: 0 <= j < n ==> d[i][j] >= 0.0
  }

  /** The connection lines drawn once the pairs before (i, j) have been
      visited: a line per visited close pair, in visiting order. */
  ghost predicate LinksSoFar(lines: seq<Link>, d: seq<seq<real>>, n: nat, i: nat, j: nat)
    requires DistanceTable(d, n)
  {
    && (forall k :: 0 <= k < |lines| ==>
          && lines[k].i < lines[k].j < n
          && d[lines[k].i][lines[k].j] < ConnectionDistance
          && lines[k].alpha == LinkAlpha(d[lines[k].i][lines[k].j])
          && PairBefore(lines[k].i, lines[k].j, i, j))
    && (forall k1, k2 :: 0 <= k1 < k2 < |lines| ==>
          PairBefore(lines[k1].i, lines[k1].j, lines[k2].i, lines[k2].j))
    && (forall a, b :: 0 <= a < b < n && PairBefore(a, b, i, j) && d[a][b] < ConnectionDistance ==>
          Link(a, b, LinkAlpha(d[a][b])) in lines)
  }

  class ParticleSystem {
    var particles: seq<Particle>
    var pointer: Pointer
    var w: int
    var h: int
    var dpr: real

    /** The refs before the effect runs: no particles, the pointer parked. */
    constructor()
      ensures particles == [] && pointer == Parked && w == 0 && h == 0 && dpr == 1.0
    {
      particles := [];
      pointer := Parked;
      w := 0;
      h := 0;
      dpr := 1.0;
    }

    /** `resize`: clamp the pixel ratio, floor the box, and always rebuild
        the particle set. */
    method Resize(rectWidth: real, rectHeight: real, ratio: Option<real>, seeds: seq<Seed>)
      requires 0.0 <= rectWidth && 0.0 <= rectHeight
      requires |seeds| == ParticleCount && forall i :: 0 <= i < |seeds| ==> SeedValid(seeds[i])
      modifies this
      ensures dpr == DevicePixelRatio(ratio) && 1.0 <= dpr <= 2.0
      ensures w == rectWidth.Floor && h == rectHeight.Floor && 0 <= w && 0 <= h
      ensures |particles| == ParticleCount
      ensures forall i :: 0 <= i < |particles| ==> particles[i] == NewParticle(seeds[i], w as real, h as real)
      ensures pointer == old(pointer)
    {
      dpr := DevicePixelRatio(ratio);
      w := rectWidth.Floor;
      h := rectHeight.Floor;
      InitParticles(seeds);
    }

    /** `initParticles`: empty the array, then push one new particle per seed. */
    method InitParticles(seeds: seq<Seed>)
      requires 0 <= w && 0 <= h
      requires forall i :: 0 <= i < |seeds| ==> SeedValid(seeds[i])
      modifies this
      ensures pointer == old(pointer) && w == old(w) && h == old(h) && dpr == old(dpr)
      ensures |particles| == |seeds|
      ensures forall i :: 0 <= i < |particles| ==> particles[i] == NewParticle(seeds[i], w as real, h as real)
      ensures forall i :: 0 <= i < |particles| ==>
                0.0 <= particles[i].x <= w as real && 0.0 <= particles[i].y <= h as real
    {
      particles := [];
      var i := 0;
      while i < |seeds|
        invariant 0 <= i <= |seeds|
        invariant pointer == old(pointer) && w == old(w) && h == old(h) && dpr == old(dpr)
        invariant |particles| == i
        invariant forall k :: 0 <= k < i ==> particles[k] == NewParticle(seeds[k], w as real, h as real)
      {
        particles := particles + [NewParticle(seeds[i], w as real, h as real)];
        i := i + 1;
      }
    }

    /** `handleMouseMove`: the pointer relative to the canvas rectangle. */
    method MouseMove(clientX: real, clientY: real, rectLeft: real, rectTop: real)
      modifies this
      ensures pointer == Pointer(clientX - rectLeft, clientY - rectTop)
      ensures particles == old(particles) && w == old(w) && h == old(h) && dpr == old(dpr)
    {
      pointer := Pointer(clientX - rectLeft, clientY - rectTop);
    }

    /** `handleMouseLeave`: park the pointer far outside the canvas. */
    method MouseLeave()
      modifies this
      ensures pointer == Parked
      ensures particles == old(particles) && w == old(w) && h == old(h) && dpr == old(dpr)
    {
      pointer := Parked;
    }

    /** The update half of `render`: every particle takes one step, in place;
        nothing else changes and the count stays the same. */
    method Advance(dists: seq<real>, jolts: seq<Jolt>)
      requires |dists| == |particles| && |jolts| == |particles|
      requires forall i :: 0 <= i < |jolts| ==> JoltValid(jolts[i])
      modifies this
      ensures |particles| == |old(particles)|
      ensures forall i :: 0 <= i < |particles| ==>
                particles[i] == StepParticle(old(particles)[i], pointer, dists[i], jolts[i], w as real, h as real)
      ensures 0 <= w && 0 <= h ==> forall i :: 0 <= i < |particles| ==>
                0.0 <= particles[i].x <= w as real && 0.0 <= particles[i].y <= h as real
      ensures pointer == old(pointer) && w == old(w) && h == old(h) && dpr == old(dpr)
    {
      var i := 0;
      while i < |particles|
        invariant 0 <= i <= |particles| == |old(particles)|
        invariant forall k :: 0 <= k < i ==>
                    particles[k] == StepParticle(old(particles)[k], pointer, dists[k], jolts[k], w as real, h as real)
        invariant forall k :: i <= k < |particles| ==> particles[k] == old(particles)[k]
        invariant pointer == old(pointer) && w == old(w) && h == old(h) && dpr == old(dpr)
      {
        particles := particles[i := StepParticle(particles[i], pointer, dists[i], jolts[i], w as real, h as real)];
        i := i + 1;
      }
    }

    /** The connection loops: every pair i < j visited once, in order, and a
        line drawn exactly for the pairs closer than 120. `d[i][j]` is the
        distance between particles i and j. */
    method Connections(d: seq<seq<real>>) returns (lines: seq<Link>)
      requires DistanceTable(d, |particles|)
      ensures forall k :: 0 <= k < |lines| ==>
                && lines[k].i < lines[k].j < |particles|
                && d[lines[k].i][lines[k].j] < ConnectionDistance
                && lines[k].alpha == LinkAlpha(d[lines[k].i][lines[k].j])
      ensures forall k1, k2 :: 0 <= k1 < k2 < |lines| ==>
                PairBefore(lines[k1].i, lines[k1].j, lines[k2].i, lines[k2].j)
      ensures forall a, b :: 0 <= a < b < |particles| && d[a][b] < ConnectionDistance ==>
                Link(a, b, LinkAlpha(d[a][b])) in lines
    {
      var n := |particles|;
      lines := [];
      var i := 0;
      while i < n
        invariant 0 <= i <= n
        invariant LinksSoFar(lines, d, n, i, 0)
      {
        var j := i + 1;
        while j < n
          invariant i + 1 <= j <= n || (j == i + 1 && i + 1 > n)
          invariant LinksSoFar(lines, d, n, i, j)
        {
          if d[i][j] < ConnectionDistance {
            lines := lines + [Link(i, j, LinkAlpha(d[i][j]))];
          }
          j := j + 1;
        }
        i := i + 1;
      }
    }

    /** The pointer lines: only while the pointer has positive coordinates,
        one per particle closer than 200, in particle order. */
    method PointerLines(dists: seq<real>) returns (beams: seq<Beam>)
      requires |dists| == |particles| && forall k :: 0 <= k < |dists| ==> dists[k] >= 0.0
      ensures !(pointer.x > 0.0 && pointer.y > 0.0) ==> beams == []
      ensures forall q :: 0 <= q < |beams| ==>
                beams[q].k < |particles| && dists[beams[q].k] < InfluenceDistance
                && beams[q].alpha == BeamAlpha(dists[beams[q].k])
      ensures forall q1, q2 :: 0 <= q1 < q2 < |beams| ==> beams[q1].k < beams[q2].k
      ensures pointer.x > 0.0 && pointer.y > 0.0 ==>
                forall k :: 0 <= k < |particles| && dists[k] < InfluenceDistance ==>
                  Beam(k, BeamAlpha(dists[k])) in beams
    {
      beams := [];
      if pointer.x > 0.0 && pointer.y > 0.0 {
        var k := 0;
        while k < |particles|
          invariant 0 <= k <= |particles|
          invariant forall q :: 0 <= q < |beams| ==>
                      beams[q].k < k && dists[beams[q].k] < InfluenceDistance
                      && beams[q].alpha == BeamAlpha(dists[beams[q].k])
          invariant forall q1, q2 :: 0 <= q1 < q2 < |beams| ==> beams[q1].k < beams[q2].k
          invariant forall c :: 0 <= c < k && dists[c] < InfluenceDistance ==> Beam(c, BeamAlpha(dists[c])) in beams
        {
          if dists[k] < InfluenceDistance {
            beams := beams + [Beam(k, BeamAlpha(dists[k]))];
          }
          k := k + 1;
        }
      }
    }
  }
}
