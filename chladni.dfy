/**
 * The Chladni-pattern particle background (components/ChladniBackground.tsx).
 *
 * A run owns a fixed array of particles and a frame counter `t`. Every frame
 * the source samples the active field on a 21 x 21 lattice (value and
 * forward-difference gradient), then moves each particle in place: forces
 * from its lattice cell, random jitter and damping, position integration,
 * ageing and reflection at the edges of the unit square. The field itself is
 * built from cosines, sines and `atan2`, so the model takes the lattice of
 * samples as an input of each frame, together with the `Math.random()` draws.
 */
module Chladni {
  import opened JsMath
  import opened Optional
  import Viewport

  /** The lattice has `GridSize + 1` points per axis; cells are `[0, GridSize)`. */
  const GridSize: int := 20
  /** Below this field magnitude a particle settles and is damped strongly. */
  const SettleThreshold: real := 0.3
  /** Number of frames over which a new particle fades in. */
  const FadeInFrames: int := 60

  // ---------------------------------------------------------------------------
  // Patterns

  /** The five vibration modes, in the order of the source's pattern table. */
  datatype Pattern = Fundamental | Cross | Star | Circular | Rectangular

  const Patterns: seq<Pattern> := [Fundamental, Cross, Star, Circular, Rectangular]

  /**
   * `chladniPatterns[patternIndex % chladniPatterns.length]`. JavaScript's `%`
   * keeps the sign of `patternIndex`, and indexing the table with a negative
   * remainder yields `undefined`; that case is `None`.
   */
  function SelectPattern(patternIndex: int): (p: Option<Pattern>)
    ensures p.Some? <==> patternIndex >= 0 || patternIndex % |Patterns| == 0
    ensures patternIndex >= 0 ==> p == Some(Patterns[patternIndex % |Patterns|])
  {
    var k := Rem(patternIndex, |Patterns|);
    if 0 <= k then Some(Patterns[k]) else None
  }

  /** Consecutive section numbers cycle through all five patterns. */
  lemma {:induction false} SelectPatternCycles(patternIndex: nat)
    ensures SelectPattern(patternIndex + |Patterns|) == SelectPattern(patternIndex)
    ensures forall j :: 0 <= j < |Patterns| && j != patternIndex % |Patterns| ==>
              SelectPattern(patternIndex) != Some(Patterns[j])
  {
    assert (patternIndex + |Patterns|) % |Patterns| == patternIndex % |Patterns|;
  }

  // ---------------------------------------------------------------------------
  // Sizing a run

  /** The density constants: one particle per `baseDensity` square pixels, at most `maxParticles`. */
  datatype Profile = Profile(baseDensity: nat, maxParticles: nat)

  /** The compact profile on a phone-sized viewport, the standard one otherwise. */
  function ProfileFor(width: int): (p: Profile)
    ensures p.baseDensity > 0
    ensures Viewport.IsMobile(width) ==> p.baseDensity == 500 && p.maxParticles == 1500
    ensures !Viewport.IsMobile(width) ==> p.baseDensity == 300 && p.maxParticles == 3000
  {
    if Viewport.IsMobile(width) then Profile(500, 1500) else Profile(300, 3000)
  }

  /**
   * `Math.min(maxParticles, Math.floor(width * height / baseDensity))`; for
   * non-negative integers the floor of the quotient is Euclidean division.
   * The result is the largest count not above the cap whose particles each
   * get at least `baseDensity` pixels.
   */
  function ParticleCount(width: nat, height: nat): (n: nat)
    ensures var p := ProfileFor(width);
      && n <= p.maxParticles
      && n * p.baseDensity <= width * height
      && (n == p.maxParticles || width * height < (n + 1) * p.baseDensity)
  {
    var p := ProfileFor(width);
    var area := width * height;
    assert area == p.baseDensity * (area / p.baseDensity) + area % p.baseDensity;
    Min(p.maxParticles, area / p.baseDensity)
  }

  /** Two viewports worked through by hand: a laptop and a phone. */
  lemma ParticleCountExamples()
    ensures ParticleCount(1024, 768) == 2621
    ensures ParticleCount(375, 667) == 500
  {
  }

  // ---------------------------------------------------------------------------
  // Particles and per-frame inputs

  /** One particle; `x` and `y` are normalised to the unit square. */
  datatype Particle = Particle(x: real, y: real, vx: real, vy: real, settled: bool, age: nat)

  /** Two successive `Math.random()` results. */
  datatype RandomPair = RandomPair(first: real, second: real)

  /** `Math.random()` returns a value in `[0, 1)`. */
  predicate IsDraw(r: real)
  {
    0.0 <= r < 1.0
  }

  predicate ValidDraws(draws: seq<RandomPair>)
  {
    forall k :: 0 <= k < |draws| ==> IsDraw(draws[k].first) && IsDraw(draws[k].second)
  }

  predicate InUnitSquare(p: Particle)
  {
    0.0 <= p.x <= 1.0 && 0.0 <= p.y <= 1.0
  }

  /** A new particle: random position, at rest, unsettled, age 0. */
  function Spawn(d: RandomPair): (p: Particle)
    ensures p.x == d.first && p.y == d.second
    ensures p.vx == 0.0 && p.vy == 0.0 && !p.settled && p.age == 0
    ensures IsDraw(d.first) && IsDraw(d.second) ==> InUnitSquare(p)
  {
    Particle(d.first, d.second, 0.0, 0.0, false, 0)
  }

  /** One lattice point: the field's value there and its forward differences. */
  datatype FieldSample = FieldSample(dx: real, dy: real, intensity: real)

  /** The source always builds `GridSize + 1` columns of `GridSize + 1` samples. */
  predicate WellFormedGrid(grid: seq<seq<FieldSample>>)
  {
    |grid| == GridSize + 1 && forall i :: 0 <= i < |grid| ==> |grid[i]| == GridSize + 1
  }

  /**
   * The lattice cell index of a normalised coordinate: `Math.floor(c * gridSize)`.
   * Cell `n` covers `[n / 20, (n + 1) / 20)`, so the index is a real cell
   * exactly for a coordinate in `[0, 1)`.
   */
  function CellOf(c: real): (n: int)
    ensures n as real <= c * GridSize as real < n as real + 1.0
    ensures 0 <= n < GridSize <==> 0.0 <= c < 1.0
  {
    Floor(c * GridSize as real)
  }

  /**
   * The bounds guard: both cell indices lie in `[0, GridSize)`, which holds
   * exactly when the particle lies in the half-open square `[0, 1) x [0, 1)`.
   */
  predicate InLattice(p: Particle)
    ensures InLattice(p) <==> 0.0 <= p.x < 1.0 && 0.0 <= p.y < 1.0
  {
    0 <= CellOf(p.x) < GridSize && 0 <= CellOf(p.y) < GridSize
  }

  /**
   * Inside the unit square the guard fails exactly on the far edges
   * `x == 1` or `y == 1`, where the cell index is `GridSize` itself.
   */
  lemma {:induction false} LatticeGuardFailsOnlyOnFarEdges(p: Particle)
    requires InUnitSquare(p)
    ensures InLattice(p) <==> p.x < 1.0 && p.y < 1.0
  {
    CellBounds(p.x);
    CellBounds(p.y);
  }

  lemma CellBounds(c: real)
    requires 0.0 <= c <= 1.0
    ensures 0 <= CellOf(c) <= GridSize
    ensures CellOf(c) < GridSize <==> c < 1.0
  {
    var k := CellOf(c);
    assert k as real <= c * 20.0 < k as real + 1.0;
    if c < 1.0 {
      assert c * 20.0 < 20.0;
    } else {
      assert c * 20.0 == 20.0;
    }
  }

  // ---------------------------------------------------------------------------
  // One particle, one frame

  /** `(Math.random() - 0.5) * 0.0002`: a small symmetric kick. */
  function Jitter(r: real): (j: real)
    ensures IsDraw(r) ==> -0.0001 <= j < 0.0001
    ensures r == 0.5 ==> j == 0.0
  {
    (r - 0.5) * 0.0002
  }

  /** Strong damping for a settled particle, light damping otherwise. */
  function Damping(settled: bool): (f: real)
    ensures 0.0 < f < 1.0
    ensures settled ==> f == 0.8
    ensures !settled ==> f == 0.95
  {
    if settled then 0.8 else 0.95
  }

  /**
   * The guarded part of the update: repulsion down the gradient scaled by
   * `|intensity| * 0.001`, jitter, then the settling rule and its damping.
   * Position and age are not touched here.
   */
  function ApplyForces(p: Particle, s: FieldSample, d: RandomPair): (q: Particle)
    ensures q.settled <==> Abs(s.intensity) < SettleThreshold
    ensures q.vx == Damping(q.settled) * (p.vx - s.dx * (Abs(s.intensity) * 0.001) + Jitter(d.first))
    ensures q.vy == Damping(q.settled) * (p.vy - s.dy * (Abs(s.intensity) * 0.001) + Jitter(d.second))
    ensures q.x == p.x && q.y == p.y && q.age == p.age
  {
    var intensity := Abs(s.intensity);
    var repulsion := intensity * 0.001;
    var vx := p.vx - s.dx * repulsion + Jitter(d.first);
    var vy := p.vy - s.dy * repulsion + Jitter(d.second);
    if intensity < SettleThreshold then
      p.(vx := vx * 0.8, vy := vy * 0.8, settled := true)
    else
      p.(vx := vx * 0.95, vy := vy * 0.95, settled := false)
  }

  /**
   * A particle at rest with centred jitter is pushed against the gradient:
   * towards lower field values.
   */
  lemma RepulsionOpposesGradient(p: Particle, s: FieldSample)
    requires p.vx == 0.0 && p.vy == 0.0
    ensures var q := ApplyForces(p, s, RandomPair(0.5, 0.5));
      q.vx * s.dx <= 0.0 && q.vy * s.dy <= 0.0
  {
    var q := ApplyForces(p, s, RandomPair(0.5, 0.5));
    var k := Damping(q.settled) * (Abs(s.intensity) * 0.001);
    assert k >= 0.0;
    assert q.vx == -(k * s.dx);
    assert q.vy == -(k * s.dy);
    assert q.vx * s.dx == -(k * (s.dx * s.dx));
    assert q.vy * s.dy == -(k * (s.dy * s.dy));
  }

  /**
   * On a flat stretch of field (zero gradient) with centred jitter, a settled
   * particle keeps exactly 80% of its speed and any other 95%: it only slows.
   */
  lemma DampingOnFlatField(p: Particle, s: FieldSample)
    requires s.dx == 0.0 && s.dy == 0.0
    ensures var q := ApplyForces(p, s, RandomPair(0.5, 0.5));
      && Abs(q.vx) == Damping(q.settled) * Abs(p.vx) <= Abs(p.vx)
      && Abs(q.vy) == Damping(q.settled) * Abs(p.vy) <= Abs(p.vy)
  {
  }

  /** `particle.x += particle.vx; particle.y += particle.vy; particle.age++` */
  function Integrate(p: Particle): (q: Particle)
    ensures q.x - p.x == p.vx && q.y - p.y == p.vy
    ensures q.vx == p.vx && q.vy == p.vy && q.settled == p.settled
    ensures q.age == p.age + 1
  {
    p.(x := p.x + p.vx, y := p.y + p.vy, age := p.age + 1)
  }

  /**
   * Reflection on one axis: the source's two `if`s in order. A coordinate
   * below 0 is clamped to 0 and the velocity turned inward at half speed;
   * one above 1 likewise at 1; one inside is left alone.
   */
  function Reflect(c: real, v: real): (r: (real, real))
    ensures 0.0 <= r.0 <= 1.0
    ensures c < 0.0 ==> r.0 == 0.0 && r.1 >= 0.0 && Abs(r.1) == Abs(v) / 2.0
    ensures c > 1.0 ==> r.0 == 1.0 && r.1 <= 0.0 && Abs(r.1) == Abs(v) / 2.0
    ensures 0.0 <= c <= 1.0 ==> r == (c, v)
  {
    var (c1, v1) := if c < 0.0 then (0.0, Abs(v) * 0.5) else (c, v);
    if c1 > 1.0 then (1.0, -Abs(v1) * 0.5) else (c1, v1)
  }

  /** The worked bounce: `x = 1.02, vx = 0.01` becomes `x = 1, vx = -0.005`. */
  lemma ReflectExample()
    ensures Reflect(1.02, 0.01) == (1.0, -0.005)
  {
  }

  /** Reflection applied to both axes; settled flag and age are kept. */
  function ReflectParticle(p: Particle): (q: Particle)
    ensures InUnitSquare(q)
    ensures (q.x, q.vx) == Reflect(p.x, p.vx) && (q.y, q.vy) == Reflect(p.y, p.vy)
    ensures q.settled == p.settled && q.age == p.age
  {
    var (x, vx) := Reflect(p.x, p.vx);
    var (y, vy) := Reflect(p.y, p.vy);
    p.(x := x, vx := vx, y := y, vy := vy)
  }

  /**
   * The whole per-particle body of the frame loop. The particle ends in the
   * unit square and one frame older; its settled flag changes only through
   * the guarded force step, and outside the guard a particle whose move stays
   * inside the square keeps its velocity.
   */
  function Advance(p: Particle, grid: seq<seq<FieldSample>>, d: RandomPair): (q: Particle)
    requires WellFormedGrid(grid)
    ensures InUnitSquare(q)
    ensures q.age == p.age + 1
    ensures InLattice(p) ==>
      q.settled == (Abs(grid[CellOf(p.x)][CellOf(p.y)].intensity) < SettleThreshold)
    ensures !InLattice(p) ==> q.settled == p.settled
    ensures !InLattice(p) && InUnitSquare(Integrate(p)) ==>
      q.vx == p.vx && q.vy == p.vy && q.x == p.x + p.vx && q.y == p.y + p.vy
  {
    var forced := if InLattice(p) then ApplyForces(p, grid[CellOf(p.x)][CellOf(p.y)], d) else p;
    ReflectParticle(Integrate(forced))
  }

  /** A particle resting on the far edge skips the forces but still ages. */
  lemma EdgeParticleSkipsForces(p: Particle, grid: seq<seq<FieldSample>>, d: RandomPair)
    requires WellFormedGrid(grid)
    requires p.x == 1.0 && p.vx == 0.0 && 0.0 <= p.y <= 1.0 && p.vy == 0.0
    ensures var q := Advance(p, grid, d);
      q == p.(age := p.age + 1)
  {
    CellBounds(p.x);
  }

  // ---------------------------------------------------------------------------
  // One frame, many frames

  /** The `forEach` over the particle array, as a function of its old contents. */
  function StepAll(ps: seq<Particle>, grid: seq<seq<FieldSample>>, draws: seq<RandomPair>): (qs: seq<Particle>)
    requires WellFormedGrid(grid) && |draws| == |ps|
    ensures |qs| == |ps|
    ensures forall k :: 0 <= k < |ps| ==> qs[k] == Advance(ps[k], grid, draws[k])
  {
    if ps == [] then []
    else [Advance(ps[0], grid, draws[0])] + StepAll(ps[1..], grid, draws[1..])
  }

  /** The inputs of one animation frame: the sampled lattice and the random draws. */
  datatype Frame = Frame(grid: seq<seq<FieldSample>>, draws: seq<RandomPair>)

  predicate FrameFits(f: Frame, count: nat)
  {
    WellFormedGrid(f.grid) && |f.draws| == count
  }

  /** The particles after a sequence of frames, each re-scheduled by the previous one. */
  function Simulate(ps: seq<Particle>, frames: seq<Frame>): (qs: seq<Particle>)
    requires forall k :: 0 <= k < |frames| ==> FrameFits(frames[k], |ps|)
    ensures |qs| == |ps|
    decreases |frames|
  {
    if frames == [] then ps
    else
      assert FrameFits(frames[0], |ps|);
      var next := StepAll(ps, frames[0].grid, frames[0].draws);
      RemainingFramesFit(frames, |next|);
      Simulate(next, frames[1..])
  }

  /** Frames that all fit a particle count still do after the first is dropped. */
  lemma RemainingFramesFit(frames: seq<Frame>, count: nat)
    requires frames != [] && forall k :: 0 <= k < |frames| ==> FrameFits(frames[k], count)
    ensures forall k :: 0 <= k < |frames[1..]| ==> FrameFits(frames[1..][k], count)
  {
    forall k | 0 <= k < |frames[1..]| ensures FrameFits(frames[1..][k], count) {
      assert frames[1..][k] == frames[k + 1];
    }
  }

  /**
   * However many frames run, no particle is added or removed, every particle
   * ages by exactly the number of frames, and after at least one frame every
   * particle is inside the unit square.
   */
  lemma {:induction false} SimulateInvariants(ps: seq<Particle>, frames: seq<Frame>)
    requires forall k :: 0 <= k < |frames| ==> FrameFits(frames[k], |ps|)
    ensures var qs := Simulate(ps, frames);
      && |qs| == |ps|
      && (forall k :: 0 <= k < |qs| ==> qs[k].age == ps[k].age + |frames|)
      && (frames != [] ==> forall k :: 0 <= k < |qs| ==> InUnitSquare(qs[k]))
    decreases |frames|
  {
    if frames != [] {
      assert FrameFits(frames[0], |ps|);
      var next := StepAll(ps, frames[0].grid, frames[0].draws);
      RemainingFramesFit(frames, |next|);
      SimulateInvariants(next, frames[1..]);
      if frames[1..] == [] {
        assert Simulate(ps, frames) == next;
      }
    }
  }

  // ---------------------------------------------------------------------------
  // Rendering

  /** The colour alpha and circle radius a particle is drawn with. */
  datatype Style = Style(alpha: real, size: real)

  /**
   * The age factor: `age / 60` while the particle is younger than 60 frames,
   * and no factor (1) from then on.
   */
  function FadeIn(age: nat): (f: real)
    ensures 0.0 <= f <= 1.0
    ensures f == 0.0 <==> age == 0
    ensures age >= FadeInFrames ==> f == 1.0
  {
    if age < FadeInFrames then age as real / FadeInFrames as real else 1.0
  }

  /**
   * The alpha before fading in: base alpha 0.8 (settled) or 0.3, times
   * `max(0.1, 1 - |I|)` where `I` is the field at the particle's position.
   * It is highest on a node (`I == 0`) and never below a tenth of the base.
   */
  function Brightness(settled: bool, currentIntensity: real): (b: real)
    ensures settled ==> 0.08 <= b <= 0.8
    ensures !settled ==> 0.03 <= b <= 0.3
    ensures currentIntensity == 0.0 ==> b == (if settled then 0.8 else 0.3)
  {
    var base := if settled then 0.8 else 0.3;
    Attenuate(base, Max(0.1, 1.0 - Abs(currentIntensity)))
  }

  /** The alpha and size a particle is drawn with: brightness times the fade-in factor. */
  function Appearance(p: Particle, currentIntensity: real): (s: Style)
    ensures 0.0 <= s.alpha <= 0.8
    ensures !p.settled ==> s.alpha <= 0.3
    ensures s.alpha == 0.0 <==> p.age == 0
    ensures s.alpha <= Brightness(p.settled, currentIntensity)
    ensures p.age >= FadeInFrames ==> s.alpha == Brightness(p.settled, currentIntensity)
    ensures s.size == (if p.settled then 1.5 else 0.8)
  {
    var size := if p.settled then 1.5 else 0.8;
    Style(Attenuate(Brightness(p.settled, currentIntensity), FadeIn(p.age)), size)
  }

  /** Scaling a positive alpha by a factor in `[0, 1]`. */
  function Attenuate(a: real, f: real): (r: real)
    ensures a > 0.0 && 0.0 <= f <= 1.0 ==> 0.0 <= r <= a && (r == 0.0 <==> f == 0.0)
    ensures f == 1.0 ==> r == a
  {
    a * f
  }

  /** The fade-in never dims an older particle below a younger one. */
  lemma {:induction false} FadeInIsMonotone(p: Particle, older: Particle, currentIntensity: real)
    requires older.settled == p.settled && p.age <= older.age
    ensures Appearance(p, currentIntensity).alpha <= Appearance(older, currentIntensity).alpha
  {
    var b := Brightness(p.settled, currentIntensity);
    assert FadeIn(p.age) <= FadeIn(older.age) by {
      if older.age < FadeInFrames {
        assert p.age as real <= older.age as real;
      }
    }
    AttenuateIsMonotone(b, FadeIn(p.age), FadeIn(older.age));
  }

  lemma AttenuateIsMonotone(a: real, f: real, g: real)
    requires a > 0.0 && 0.0 <= f <= g <= 1.0
    ensures Attenuate(a, f) <= Attenuate(a, g)
  {
    var d := g - f;
    assert Attenuate(a, g) - Attenuate(a, f) == a * d;
    assert a * d >= 0.0;
  }

  /** A settled particle is drawn larger and, once visible, brighter than an unsettled one. */
  lemma {:induction false} SettledOutshines(p: Particle, currentIntensity: real)
    requires p.age > 0
    ensures var settled := Appearance(p.(settled := true), currentIntensity);
      var loose := Appearance(p.(settled := false), currentIntensity);
      settled.alpha > loose.alpha && settled.size > loose.size
  {
    var m := Max(0.1, 1.0 - Abs(currentIntensity));
    AttenuateGrowsWithBase(0.3, 0.8, m);
    AttenuateGrowsWithBase(Brightness(false, currentIntensity), Brightness(true, currentIntensity), FadeIn(p.age));
  }

  lemma AttenuateGrowsWithBase(a: real, b: real, f: real)
    requires 0.0 < a < b && 0.0 < f <= 1.0
    ensures Attenuate(a, f) < Attenuate(b, f)
  {
    var d := b - a;
    assert Attenuate(b, f) - Attenuate(a, f) == d * f;
    assert d * f > 0.0;
  }

  /** Every particle drawn has been through at least one update, so it is visible. */
  lemma DrawnParticlesAreVisible(p: Particle, grid: seq<seq<FieldSample>>, d: RandomPair, currentIntensity: real)
    requires WellFormedGrid(grid)
    ensures Appearance(Advance(p, grid, d), currentIntensity).alpha > 0.0
  {
  }

  // ---------------------------------------------------------------------------
  // The running system

  /**
   * One run of the background: created when the viewport size or the
   * pattern index changes, then stepped once per animation frame.
   */
  class ParticleSystem {
    const width: nat
    const height: nat
    const pattern: Pattern
    var particles: array<Particle>
    /** The frame counter (`time` in the source). */
    var t: nat

    /**
     * The count fixed at start never changes, every particle is in the unit
     * square, and every particle is exactly `t` frames old.
     */
    ghost predicate Valid()
      reads this, particles
    {
      && particles.Length == ParticleCount(width, height)
      && forall k :: 0 <= k < particles.Length ==>
           InUnitSquare(particles[k]) && particles[k].age == t
    }

    /** Sizes the run from the viewport and spawns one particle per pair of draws. */
    constructor (width: nat, height: nat, patternIndex: int, draws: seq<RandomPair>)
      requires SelectPattern(patternIndex).Some?
      requires |draws| == ParticleCount(width, height) && ValidDraws(draws)
      ensures Valid() && fresh(particles)
      ensures this.width == width && this.height == height
      ensures pattern == SelectPattern(patternIndex).value
      ensures particles[..] == seq(|draws|, k requires 0 <= k < |draws| => Spawn(draws[k]))
      ensures t == 0
    {
      this.width := width;
      this.height := height;
      pattern := SelectPattern(patternIndex).value;
      particles := new Particle[|draws|](k requires 0 <= k < |draws| => Spawn(draws[k]));
      t := 0;
    }

    /** One animation frame: update every particle in place, then advance `t`. */
    method Step(grid: seq<seq<FieldSample>>, draws: seq<RandomPair>)
      requires Valid() && WellFormedGrid(grid)
      requires |draws| == particles.Length
      modifies this`t, particles
      ensures Valid()
      ensures particles[..] == StepAll(old(particles[..]), grid, draws)
      ensures t == old(t) + 1
    {
      var n := particles.Length;
      for i := 0 to n
        modifies particles
        invariant forall k :: 0 <= k < i ==> particles[k] == Advance(old(particles[k]), grid, draws[k])
        invariant forall k :: i <= k < n ==> particles[k] == old(particles[k])
      {
        particles[i] := Advance(particles[i], grid, draws[i]);
      }
      t := t + 1;
    }

    /** How each particle is drawn this frame, given the field at its new position. */
    function Styles(currentIntensity: seq<real>): (styles: seq<Style>)
      reads this, particles
      requires Valid() && |currentIntensity| == particles.Length
      ensures |styles| == particles.Length
      ensures t > 0 ==> forall k :: 0 <= k < |styles| ==> 0.0 < styles[k].alpha <= 0.8
      ensures t >= FadeInFrames ==> forall k :: 0 <= k < |styles| ==>
        styles[k].alpha == Brightness(particles[k].settled, currentIntensity[k])
    {
      seq(particles.Length, k reads this, particles requires 0 <= k < particles.Length && k < |currentIntensity| => Appearance(particles[k], currentIntensity[k]))
    }
  }
}
