/**
 * The non-trigonometric logic of the burning overlay: the fire palette, the
 * sawtooth progress law, colour-ramp selection, the smoke laws, the flame
 * mesh topology, particle initialisation ranges, and the per-frame loop that
 * fills an instanced mesh slot by slot while every slot overwrites one shared
 * material opacity.
 */
module FireOverlay {
  import opened Wrappers
  import opened JsBuiltins
  import opened TextUtils

  type Positive = x: real | x > 0.0 witness 1.0

  /** The palette from base to tip: seven flame colours, then two smoke browns. */
  const FireColors: seq<string> := [
    "#fffbe6", "#ffd700", "#ffb300", "#ff9800", "#ff5722",
    "#e65100", "#b71c1c", "#4e342e", "#2d1a00"
  ]

  lemma FireColorsWellFormed()
    ensures |FireColors| == 9
    ensures forall i :: 0 <= i < |FireColors| ==> IsHexColor(FireColors[i])
  {
    FlameColorsWellFormed();
    SmokeColorsWellFormed();
  }

  lemma FlameColorsWellFormed()
    ensures IsHexColor(FireColors[0]) && IsHexColor(FireColors[1]) && IsHexColor(FireColors[2])
    ensures IsHexColor(FireColors[3])
  {
  }

  lemma SmokeColorsWellFormed()
    ensures IsHexColor(FireColors[4]) && IsHexColor(FireColors[5]) && IsHexColor(FireColors[6])
    ensures IsHexColor(FireColors[7]) && IsHexColor(FireColors[8])
  {
  }

  // ---------------------------------------------------------------------
  // The progress law
  // ---------------------------------------------------------------------

  /** `((t * speed + phase) % lifetime) / lifetime`: where a particle is in its life, from 0 at birth towards 1. */
  function Progress(t: real, speed: real, phase: real, lifetime: Positive): real
  {
    Rem(t * speed + phase, lifetime) / lifetime
  }

  lemma NonNegProduct(a: real, b: real)
    requires a >= 0.0 && b >= 0.0
    ensures a * b >= 0.0
  {
    if a > 0.0 {
      SignOfProduct(a, b);
    }
  }

  lemma UnitFraction(r: real, y: real)
    requires y > 0.0 && 0.0 <= r < y
    ensures 0.0 <= r / y < 1.0
  {
    var q := r / y;
    assert y * q == r;
    SignOfProduct(y, q);
    SignOfProduct(y, q - 1.0);
    assert y * (q - 1.0) == r - y;
  }

  /** For a non-negative clock, speed and phase the progress lies in [0, 1). */
  lemma ProgressInUnit(t: real, speed: real, phase: real, lifetime: Positive)
    requires t >= 0.0 && speed >= 0.0 && phase >= 0.0
    ensures 0.0 <= Progress(t, speed, phase, lifetime) < 1.0
  {
    NonNegProduct(t, speed);
    UnitFraction(Rem(t * speed + phase, lifetime), lifetime);
  }

  /** Adding one whole divisor to a non-negative dividend leaves the remainder unchanged. */
  lemma RemShift(x: real, y: real)
    requires x >= 0.0 && y > 0.0
    ensures Rem(x + y, y) == Rem(x, y)
  {
    var d := x / y;
    assert d * y == x;
    var e := (x + y) / y;
    assert e * y == x + y;
    var g := e - (d + 1.0);
    assert y * g == 0.0;
    SignOfProduct(y, g);
    assert e == d + 1.0;
    var q := Trunc(d);
    var r := Trunc(d + 1.0);
    SignOfProduct(y, d);
    assert r == q + 1;
  }

  /**
   * Each particle's life repeats: for a positive speed the progress is
   * periodic in the clock with period `lifetime / speed`.
   */
  lemma ProgressPeriodic(t: real, speed: real, phase: real, lifetime: Positive)
    requires t >= 0.0 && speed > 0.0 && phase >= 0.0
    ensures Progress(t + lifetime / speed, speed, phase, lifetime) == Progress(t, speed, phase, lifetime)
  {
    var x := t * speed + phase;
    NonNegProduct(t, speed);
    assert (lifetime / speed) * speed == lifetime;
    assert (t + lifetime / speed) * speed + phase == x + lifetime;
    RemShift(x, lifetime);
  }

  /** The sawtooth with lifetime 1, speed 1 and phase 0: 0 at t = 0, 0.5 at t = 0.5, and back to 0 at t = 1. */
  lemma ProgressSawtooth()
    ensures Progress(0.0, 1.0, 0.0, 1.0) == 0.0
    ensures Progress(0.5, 1.0, 0.0, 1.0) == 0.5
    ensures Progress(1.0, 1.0, 0.0, 1.0) == 0.0
  {
    assert Trunc(0.5) == 0;
    assert Trunc(1.0) == 1;
  }

  // ---------------------------------------------------------------------
  // Colour-ramp selection
  // ---------------------------------------------------------------------

  /**
   * `lerpColor(palette[idx], palette[idx + 1], (cp * (n - 2)) % 1)` with
   * `idx = Math.floor(cp * (n - 2))` for a palette of `n` colours; None where
   * an index falls outside the palette, so that lerpColor would throw on the
   * undefined entry.
   */
  function RampColor(palette: seq<string>, cp: real): Option<string>
  {
    var scaled := cp * (|palette| - 2) as real;
    RampPick(palette, Floor(scaled), Rem(scaled, 1.0))
  }

  /** `lerpColor(palette[idx], palette[idx + 1], colorT)`, None where an entry is missing. */
  function RampPick(palette: seq<string>, idx: int, colorT: real): Option<string>
  {
    if 0 <= idx && idx + 1 < |palette| then Some(LerpColor(palette[idx], palette[idx + 1], colorT)) else None
  }

  /** The ramp is undefined exactly where the selected segment is not inside the palette. */
  lemma RampUndefinedIff(palette: seq<string>, cp: real)
    ensures var idx := Floor(cp * (|palette| - 2) as real);
      RampColor(palette, cp).None? <==> idx < 0 || idx + 1 >= |palette|
  {
  }

  /** Where the ramp is defined it blends the two palette entries around the scaled position. */
  lemma RampSegment(palette: seq<string>, cp: real, idx: int, colorT: real)
    requires idx == Floor(cp * (|palette| - 2) as real) && 0 <= idx && idx + 1 < |palette|
    requires colorT == Rem(cp * (|palette| - 2) as real, 1.0)
    ensures RampColor(palette, cp) == Some(LerpColor(palette[idx], palette[idx + 1], colorT))
  {
    assert RampColor(palette, cp) == RampPick(palette, idx, colorT);
  }

  /**
   * On a nine-colour palette of well-formed colours a ramp position in [0, 1)
   * selects a segment 0..6, so both of its ends exist, and the blend is a
   * well-formed colour.
   */
  lemma RampInRange(palette: seq<string>, cp: real)
    requires |palette| == 9 && forall i :: 0 <= i < 9 ==> IsHexColor(palette[i])
    requires 0.0 <= cp < 1.0
    ensures 0 <= Floor(cp * 7.0) <= 6
    ensures RampColor(palette, cp).Some? && IsHexColor(RampColor(palette, cp).value)
  {
    var scaled := cp * (|palette| - 2) as real;
    assert scaled == cp * 7.0;
    var idx := Floor(scaled);
    assert 0 <= idx <= 6;
    var colorT := Rem(scaled, 1.0);
    assert 0.0 <= colorT < 1.0;
    RampSegment(palette, cp, idx, colorT);
    LerpColorInRange(palette[idx], palette[idx + 1], colorT);
  }

  /** On the fire palette: `fireColors[colorIdx]` and `fireColors[colorIdx + 1]` always exist for progress in [0, 1). */
  lemma RampIndexInRange(cp: real)
    requires 0.0 <= cp < 1.0
    ensures 0 <= Floor(cp * 7.0) <= 6
    ensures RampColor(FireColors, cp).Some? && IsHexColor(RampColor(FireColors, cp).value)
  {
    FireColorsWellFormed();
    RampInRange(FireColors, cp);
  }

  /** The ramp passes through a nine-colour palette: at cp = k/7 it is exactly the k-th colour. */
  lemma RampAtKnot(palette: seq<string>, k: nat)
    requires |palette| == 9 && k <= 6 && IsHexColor(palette[k])
    ensures RampColor(palette, k as real / 7.0) == Some(palette[k])
  {
    KnotPosition(k);
    RampSegment(palette, k as real / 7.0, k, 0.0);
    LerpColorAtZero(palette[k], palette[k + 1]);
  }

  /** At k/7 the scaled ramp position of a nine-colour palette is exactly k, with no fraction left. */
  lemma KnotPosition(k: nat)
    ensures var scaled := (k as real / 7.0) * 7.0; Floor(scaled) == k && Rem(scaled, 1.0) == 0.0
  {
    var scaled := (k as real / 7.0) * 7.0;
    assert scaled == k as real;
  }

  /** On the fire palette the ramp meets colour k at progress k/7. */
  lemma FireRampAtKnot(k: nat)
    requires k <= 6
    ensures RampColor(FireColors, k as real / 7.0) == Some(FireColors[k])
  {
    FireColorsWellFormed();
    RampAtKnot(FireColors, k);
  }

  // ---------------------------------------------------------------------
  // Smoke laws
  // ---------------------------------------------------------------------

  /** Smoke expands as it rises: `size * (0.8 + p * 0.7)`. */
  function SmokeSize(size: real, p: real): real
  {
    size * (0.8 + p * 0.7)
  }

  lemma SmokeSizeMonotone(size: real, p: real, q: real)
    requires size >= 0.0 && p <= q
    ensures SmokeSize(size, p) <= SmokeSize(size, q)
  {
    NonNegProduct(size, (q - p) * 0.7);
    assert size * (0.8 + q * 0.7) - size * (0.8 + p * 0.7) == size * ((q - p) * 0.7);
  }

  /** Smoke fades: `0.3 * (1 - p * 0.8)`, non-increasing in p and within (0.06, 0.3] over a life. */
  function SmokeOpacity(p: real): (o: real)
    ensures 0.0 <= p < 1.0 ==> 0.06 < o <= 0.3
  {
    0.3 * (1.0 - p * 0.8)
  }

  lemma SmokeOpacityMonotone(p: real, q: real)
    requires p <= q
    ensures SmokeOpacity(q) <= SmokeOpacity(p)
  {
  }

  /** Smoke rises 1.2 units over a life. */
  function SmokeRise(y: real, p: real): real
  {
    y + p * 1.2
  }

  const SmokeBrown: string := "#4e342e"
  const SmokeTip: string := "#2d1a00"

  /** Dark brown past 70% of a life, the blend from brown to dark brown before that. */
  function SmokeColor(p: real): string
  {
    if p > 0.7 then SmokeTip else LerpColor(SmokeBrown, SmokeTip, p)
  }

  /** The smoke colour is a well-formed colour over a life, starts brown, and is dark brown from 70% on. */
  lemma SmokeColorLaw(p: real)
    requires 0.0 <= p < 1.0
    ensures IsHexColor(SmokeColor(p))
    ensures p > 0.7 ==> SmokeColor(p) == SmokeTip
    ensures p <= 0.7 ==> var c, a, b := Channels(SmokeColor(p)), Channels(SmokeBrown), Channels(SmokeTip);
      && Min(a.r, b.r) <= c.r <= Max(a.r, b.r)
      && Min(a.g, b.g) <= c.g <= Max(a.g, b.g)
      && Min(a.b, b.b) <= c.b <= Max(a.b, b.b)
  {
    if p <= 0.7 {
      LerpColorInRange(SmokeBrown, SmokeTip, p);
    } else {
      FireColorsWellFormed();
      assert FireColors[8] == SmokeTip;
    }
  }

  lemma SmokeColorAtBirth()
    ensures SmokeColor(0.0) == SmokeBrown
  {
    FireColorsWellFormed();
    assert FireColors[7] == SmokeBrown;
    LerpColorAtZero(SmokeBrown, SmokeTip);
  }

  // ---------------------------------------------------------------------
  // Particles
  // ---------------------------------------------------------------------

  /** A smoke particle as the overlay creates it once per mount. */
  datatype SmokeParticle = SmokeParticle(
    x: real, y: real, z: real, speed: real, size: real,
    flickerPhase: real, wavePhase: real, lifetime: Positive, seed: real)

  /** A fire particle of this overlay. */
  datatype FireParticle = FireParticle(
    x: real, y: real, z: real, speed: real, baseSize: real,
    flickerPhase: real, wavePhase: real, lifetime: Positive, seed: real, rotationSpeed: real)

  predicate IsDraw(r: real)
  {
    0.0 <= r < 1.0
  }

  /** The smoke particle made from nine `Math.random()` draws, in field order. */
  function NewSmokeParticle(r: seq<real>): (p: SmokeParticle)
    requires |r| == 9 && forall i :: 0 <= i < 9 ==> IsDraw(r[i])
    ensures 0.2 <= p.speed < 0.5 && 1.5 <= p.lifetime < 2.5 && 0.15 <= p.size < 0.35
    ensures 0.0 <= p.flickerPhase < 2.0 * Pi && 0.8 <= p.y < 1.3
  {
    assert IsDraw(r[1]) && IsDraw(r[3]) && IsDraw(r[4]) && IsDraw(r[5]) && IsDraw(r[7]);
    SmokeParticle(
      (r[0] - 0.5) * 2.0, 0.8 + r[1] * 0.5, (r[2] - 0.5) * 0.5, 0.2 + r[3] * 0.3,
      0.15 + r[4] * 0.2, r[5] * Pi * 2.0, r[6] * Pi * 2.0, 1.5 + r[7] * 1.0, r[8])
  }

  /** The fire particle made from ten `Math.random()` draws, in field order. */
  function NewFireParticle(r: seq<real>): (p: FireParticle)
    requires |r| == 10 && forall i :: 0 <= i < 10 ==> IsDraw(r[i])
    ensures 0.7 <= p.speed < 1.4 && 1.2 <= p.lifetime < 1.9 && 0.13 <= p.baseSize < 0.35
    ensures 0.0 <= p.flickerPhase < 2.0 * Pi && -1.4 < p.y <= -1.2
  {
    assert IsDraw(r[1]) && IsDraw(r[3]) && IsDraw(r[4]) && IsDraw(r[5]) && IsDraw(r[7]);
    FireParticle(
      (r[0] - 0.5) * 2.2, -1.2 - r[1] * 0.2, (r[2] - 0.5) * 0.3, 0.7 + r[3] * 0.7,
      0.13 + r[4] * 0.22, r[5] * Pi * 2.0, r[6] * Pi * 2.0, 1.2 + r[7] * 0.7, r[8],
      (r[9] - 0.5) * 0.2)
  }

  /** An ember takes one of the first three palette colours: `Math.floor(r * 3)` lies in 0..2. */
  function EmberColorIndex(r: real): (i: int)
    requires IsDraw(r)
    ensures 0 <= i <= 2
  {
    Floor(r * 3.0)
  }

  function EmberColor(r: real): (c: string)
    requires IsDraw(r)
    ensures c in FireColors[..3]
  {
    FireColors[EmberColorIndex(r)]
  }

  // ---------------------------------------------------------------------
  // The instanced mesh and the per-frame loop
  // ---------------------------------------------------------------------

  /**
   * An instanced mesh: one slot per instance (what `setMatrixAt`/`setColorAt`
   * record for it), the opacity of the one material all instances share, and
   * the upload flag.
   */
  class InstanceMesh<S> {
    const slots: array<S>
    var opacity: real
    var needsUpdate: bool

    constructor (count: nat, initial: S, initialOpacity: real)
      ensures slots.Length == count && fresh(slots)
      ensures forall i :: 0 <= i < count ==> slots[i] == initial
      ensures opacity == initialOpacity && !needsUpdate
    {
      slots := new S[count](_ => initial);
      opacity := initialOpacity;
      needsUpdate := false;
    }
  }

  /**
   * The body of a `useFrame` callback: for i = 0 .. count-1 write slot i from
   * particle i, then set the shared opacity from it, so the last particle's
   * opacity is the one left; finally raise the upload flag.
   */
  method FillFrame<P, S>(mesh: InstanceMesh<S>, particles: seq<P>, slotOf: (P, nat) -> S, opacityOf: (P, nat) -> real)
    requires |particles| == mesh.slots.Length
    modifies mesh, mesh.slots
    ensures forall i :: 0 <= i < |particles| ==> mesh.slots[i] == slotOf(particles[i], i)
    ensures mesh.opacity == if |particles| == 0 then old(mesh.opacity)
                            else opacityOf(particles[|particles| - 1], |particles| - 1)
    ensures mesh.needsUpdate
  {
    var i := 0;
    while i < |particles|
      invariant 0 <= i <= |particles|
      invariant forall k :: 0 <= k < i ==> mesh.slots[k] == slotOf(particles[k], k)
      invariant mesh.opacity == if i == 0 then old(mesh.opacity) else opacityOf(particles[i - 1], i - 1)
    {
      mesh.slots[i] := slotOf(particles[i], i);
      mesh.opacity := opacityOf(particles[i], i);
      i := i + 1;
    }
    mesh.needsUpdate := true;
  }

  /** What a smoke frame records for one instance, apart from the trigonometric drift in x. */
  datatype SmokeSlot = SmokeSlot(y: real, z: real, size: real, color: string)

  function SmokeProgress(p: SmokeParticle, t: real): real
  {
    Progress(t, p.speed, p.flickerPhase, p.lifetime)
  }

  function SmokeSlotOf(p: SmokeParticle, t: real): SmokeSlot
  {
    var pr := SmokeProgress(p, t);
    SmokeSlot(SmokeRise(p.y, pr), p.z, SmokeSize(p.size, pr), SmokeColor(pr))
  }

  predicate ValidSmoke(particles: seq<SmokeParticle>)
  {
    forall i :: 0 <= i < |particles| ==> particles[i].speed >= 0.0 && particles[i].flickerPhase >= 0.0
  }

  /** One frame of the smoke particles: every slot holds its particle's smoke state, and the shared opacity is the last particle's. */
  method SmokeFrame(mesh: InstanceMesh<SmokeSlot>, particles: seq<SmokeParticle>, t: real)
    requires |particles| == mesh.slots.Length
    modifies mesh, mesh.slots
    ensures forall i :: 0 <= i < |particles| ==> mesh.slots[i] == SmokeSlotOf(particles[i], t)
    ensures mesh.opacity == if |particles| == 0 then old(mesh.opacity)
                            else SmokeOpacity(SmokeProgress(particles[|particles| - 1], t))
    ensures t >= 0.0 && ValidSmoke(particles) && |particles| > 0 ==> 0.06 < mesh.opacity <= 0.3
    ensures mesh.needsUpdate
  {
    FillFrame(mesh, particles, (p: SmokeParticle, i: nat) => SmokeSlotOf(p, t),
              (p: SmokeParticle, i: nat) => SmokeOpacity(SmokeProgress(p, t)));
    if t >= 0.0 && ValidSmoke(particles) && |particles| > 0 {
      var last := particles[|particles| - 1];
      ProgressInUnit(t, last.speed, last.flickerPhase, last.lifetime);
    }
  }

  /** What a fire frame of this overlay records for one instance, apart from the trigonometric terms. */
  datatype FireSlot = FireSlot(rise: real, z: real, taper: real, color: Option<string>)

  function FireProgress(p: FireParticle, t: real): real
  {
    Progress(t, p.speed, p.flickerPhase, p.lifetime)
  }

  /** Rise `p.y + progress * 2.5`, taper `baseSize * (1.1 - progress * 0.85)` and the ramp colour at the progress. */
  function FireSlotOf(p: FireParticle, t: real): FireSlot
  {
    var pr := FireProgress(p, t);
    FireSlot(p.y + pr * 2.5, p.z, p.baseSize * (1.1 - pr * 0.85), RampColor(FireColors, pr))
  }

  /** `0.7 * (1 - p * 0.7) + 0.18 * s` where `s` is the flicker sine. */
  function FireOpacity(p: real, s: real): (o: real)
    ensures 0.0 <= p < 1.0 && -1.0 <= s <= 1.0 ==> 0.03 < o <= 0.88
  {
    0.7 * (1.0 - p * 0.7) + 0.18 * s
  }

  predicate ValidFire(particles: seq<FireParticle>)
  {
    forall i :: 0 <= i < |particles| ==> particles[i].speed >= 0.0 && particles[i].flickerPhase >= 0.0
  }

  /**
   * One frame of the fire particles; `sin` stands for `Math.sin`, used here
   * only in the flicker term `Math.sin(t * 10 + seed * 20)` of the opacity.
   */
  method FireFrame(mesh: InstanceMesh<FireSlot>, particles: seq<FireParticle>, t: real, sin: real -> real)
    requires |particles| == mesh.slots.Length
    modifies mesh, mesh.slots
    ensures forall i :: 0 <= i < |particles| ==> mesh.slots[i] == FireSlotOf(particles[i], t)
    ensures t >= 0.0 && ValidFire(particles) ==>
      forall i :: 0 <= i < |particles| ==> mesh.slots[i].color.Some? && IsHexColor(mesh.slots[i].color.value)
    ensures mesh.opacity == if |particles| == 0 then old(mesh.opacity)
      else var last := particles[|particles| - 1]; FireOpacity(FireProgress(last, t), sin(t * 10.0 + last.seed * 20.0))
    ensures mesh.needsUpdate
  {
    FillFrame(mesh, particles, (p: FireParticle, i: nat) => FireSlotOf(p, t),
              (p: FireParticle, i: nat) => FireOpacity(FireProgress(p, t), sin(t * 10.0 + p.seed * 20.0)));
    if t >= 0.0 && ValidFire(particles) {
      forall i | 0 <= i < |particles|
        ensures mesh.slots[i].color.Some? && IsHexColor(mesh.slots[i].color.value)
      {
        var p := particles[i];
        ProgressInUnit(t, p.speed, p.flickerPhase, p.lifetime);
        RampIndexInRange(FireProgress(p, t));
      }
    }
  }

  // ---------------------------------------------------------------------
  // createFlameGeometry: topology
  // ---------------------------------------------------------------------

  /** A vertex of a flame mesh, named by how it was generated: the top point, or ring point `step` at some height. */
  datatype FlameVertex = Tip | Mid(step: nat) | Quarter(step: nat) | Base(step: nat)

  /** Triangle `j` of an index buffer, entries 3j, 3j+1 and 3j+2, is (a, b, c). */
  predicate IsTriangle(indices: seq<int>, j: nat, a: int, b: int, c: int)
  {
    3 * j + 3 <= |indices| && indices[3 * j] == a && indices[3 * j + 1] == b && indices[3 * j + 2] == c
  }

  /** Triangle `j` of a fan around the top point: (0, j + 1, j + 2). */
  predicate IsFanTriangle(indices: seq<int>, j: nat)
  {
    IsTriangle(indices, j, 0, j + 1, j + 2)
  }

  /**
   * The eight-segment flame: the top point, nine base points for steps 0..8
   * (the last one closes the circle), a fan of eight triangles from the top and
   * a closing triangle `(0, 8, 1)`.
   */
  method CreateFlameGeometry() returns (vertices: seq<FlameVertex>, indices: seq<int>)
    ensures |vertices| == 10 && vertices[0] == Tip
    ensures forall k :: 1 <= k < 10 ==> vertices[k] == Base(k - 1)
    ensures |indices| == 27
    ensures forall k :: 0 <= k < |indices| ==> 0 <= indices[k] < |vertices|
    ensures forall j: nat :: j < 8 ==> IsFanTriangle(indices, j)
    ensures IsTriangle(indices, 8, 0, 8, 1)
    ensures forall j :: 0 <= j < 9 ==> indices[3 * j] == 0
  {
    var segments := 8;
    vertices := [Tip];
    var i := 0;
    while i <= segments
      invariant 0 <= i <= segments + 1
      invariant |vertices| == i + 1 && vertices[0] == Tip
      invariant forall k :: 1 <= k <= i ==> vertices[k] == Base(k - 1)
    {
      vertices := vertices + [Base(i)];
      i := i + 1;
    }
    indices := [];
    i := 1;
    while i <= segments
      invariant 1 <= i <= segments + 1
      invariant |indices| == 3 * (i - 1)
      invariant forall j: nat :: j < i - 1 ==> IsFanTriangle(indices, j)
    {
      var prev := indices;
      indices := indices + [0, i, i + 1];
      assert IsFanTriangle(indices, i - 1);
      forall j: nat | j < i - 1
        ensures IsFanTriangle(indices, j)
      {
        assert IsFanTriangle(prev, j);
      }
      i := i + 1;
    }
    var fan := indices;
    indices := indices + [0, segments, 1];
    forall j: nat | j < 8
      ensures IsFanTriangle(indices, j)
    {
      assert IsFanTriangle(fan, j);
    }
    forall k | 0 <= k < |indices|
      ensures 0 <= indices[k] < |vertices|
    {
      var j := k / 3;
      if j < 8 {
        assert IsFanTriangle(indices, j);
      }
    }
    forall j | 0 <= j < 9
      ensures indices[3 * j] == 0
    {
      if j < 8 {
        assert IsFanTriangle(indices, j);
      }
    }
  }
}
