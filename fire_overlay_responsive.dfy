/**
 * The screen-size-aware burning overlay: the twelve-segment flame topology,
 * colour selection with a per-particle colour bias, the fire laws of this
 * variant, camera zoom by width, the screen-size flags, particle counts and
 * the container style. Its smoke particles and embers are the ones of
 * FireOverlay, and it blends colours with TextUtils.LerpColor.
 */
module ResponsiveFire {
  import opened Wrappers
  import opened JsBuiltins
  import opened TextUtils
  import opened FireOverlay

  // ---------------------------------------------------------------------
  // createFlameGeometry with twelve segments
  // ---------------------------------------------------------------------

  const Segments: nat := 12

  /** The points step `i` of the ring loop emits: a mid-height point when 3 divides i, a quarter-height point when 2 does, then a base point. */
  function RingStep(i: nat): seq<FlameVertex>
  {
    (if i % 3 == 0 then [Mid(i)] else []) + (if i % 2 == 0 then [Quarter(i)] else []) + [Base(i)]
  }

  /** The points of steps 0 .. n-1, in emission order. */
  function Ring(n: nat): seq<FlameVertex>
  {
    if n == 0 then [] else Ring(n - 1) + RingStep(n - 1)
  }

  /** The height level of a flame point. */
  datatype Level = TipLevel | MidLevel | QuarterLevel | BaseLevel

  function LevelOf(v: FlameVertex): Level
  {
    match v
    case Tip => TipLevel
    case Mid(_) => MidLevel
    case Quarter(_) => QuarterLevel
    case Base(_) => BaseLevel
  }

  /** How many points of `s` lie at level `l`. */
  function CountAt(s: seq<FlameVertex>, l: Level): nat
  {
    if s == [] then 0 else CountAt(s[..|s| - 1], l) + (if LevelOf(s[|s| - 1]) == l then 1 else 0)
  }

  lemma {:induction false} CountAtAppend(a: seq<FlameVertex>, b: seq<FlameVertex>, l: Level)
    ensures CountAt(a + b, l) == CountAt(a, l) + CountAt(b, l)
    decreases |b|
  {
    if b == [] {
      assert a + b == a;
    } else {
      var b' := b[..|b| - 1];
      assert (a + b)[..|a + b| - 1] == a + b';
      CountAtAppend(a, b', l);
    }
  }

  lemma CountAtSingleton(v: FlameVertex, l: Level)
    ensures CountAt([v], l) == if LevelOf(v) == l then 1 else 0
  {
    assert [v][..0] == [];
  }

  /** How many points of level `l` step `i` emits. */
  function StepShare(i: nat, l: Level): nat
  {
    match l
    case TipLevel => 0
    case MidLevel => if i % 3 == 0 then 1 else 0
    case QuarterLevel => if i % 2 == 0 then 1 else 0
    case BaseLevel => 1
  }

  /** Step i emits one base point, a mid-height point exactly when 3 divides i and a quarter-height point exactly when 2 does. */
  lemma StepCounts(i: nat, l: Level)
    ensures CountAt(RingStep(i), l) == StepShare(i, l)
  {
    var a: seq<FlameVertex> := if i % 3 == 0 then [Mid(i)] else [];
    var b: seq<FlameVertex> := if i % 2 == 0 then [Quarter(i)] else [];
    var c := [Base(i)];
    assert RingStep(i) == (a + b) + c;
    CountAtAppend(a + b, c, l);
    CountAtAppend(a, b, l);
    CountAtSingleton(Base(i), l);
    if i % 3 == 0 {
      CountAtSingleton(Mid(i), l);
    }
    if i % 2 == 0 {
      CountAtSingleton(Quarter(i), l);
    }
  }

  lemma StepLength(i: nat)
    ensures |RingStep(i)| == 1 + (if i % 3 == 0 then 1 else 0) + (if i % 2 == 0 then 1 else 0)
  {
  }

  /** Multiples of 3 below n + 1: one more than below n exactly when 3 divides n. */
  lemma ThirdsStep(n: nat)
    ensures (n + 3) / 3 == (n + 2) / 3 + (if n % 3 == 0 then 1 else 0)
  {
  }

  /** Multiples of 2 below n + 1: one more than below n exactly when 2 divides n. */
  lemma HalvesStep(n: nat)
    ensures (n + 2) / 2 == (n + 1) / 2 + (if n % 2 == 0 then 1 else 0)
  {
  }

  /** The number of points of level `l` in the first n steps of the ring. */
  function RingShare(n: nat, l: Level): nat
  {
    match l
    case TipLevel => 0
    case MidLevel => (n + 2) / 3
    case QuarterLevel => (n + 1) / 2
    case BaseLevel => n
  }

  lemma RingShareStep(n: nat, l: Level)
    ensures RingShare(n + 1, l) == RingShare(n, l) + StepShare(n, l)
  {
    ThirdsStep(n);
    HalvesStep(n);
  }

  /**
   * Steps 0 .. n-1 emit n base points, one mid-height point per multiple of 3
   * below n and one quarter-height point per multiple of 2 below n.
   */
  lemma {:induction false} RingCounts(n: nat, l: Level)
    ensures CountAt(Ring(n), l) == RingShare(n, l)
  {
    if n > 0 {
      var m := n - 1;
      RingCounts(m, l);
      assert Ring(m + 1) == Ring(m) + RingStep(m);
      CountAtAppend(Ring(m), RingStep(m), l);
      StepCounts(m, l);
      RingShareStep(m, l);
    }
  }

  lemma {:induction false} RingLength(n: nat)
    ensures |Ring(n)| == n + (n + 2) / 3 + (n + 1) / 2
  {
    if n > 0 {
      RingLength(n - 1);
      StepLength(n - 1);
      ThirdsStep(n - 1);
      HalvesStep(n - 1);
    }
  }

  /** The twelve-segment flame has 26 vertices: the top, 5 mid-height, 7 quarter-height and 13 base points. */
  lemma FlameVertexCounts()
    ensures |[Tip] + Ring(Segments + 1)| == 26
    ensures CountAt(Ring(Segments + 1), MidLevel) == 5
    ensures CountAt(Ring(Segments + 1), QuarterLevel) == 7
    ensures CountAt(Ring(Segments + 1), BaseLevel) == 13
  {
    RingCounts(Segments + 1, MidLevel);
    RingCounts(Segments + 1, QuarterLevel);
    RingCounts(Segments + 1, BaseLevel);
    RingLength(Segments + 1);
  }

  /** The vertex loop of createFlameGeometry: the top point, then every step 0 .. 12 of the ring. */
  method FlameVertices() returns (vertices: seq<FlameVertex>)
    ensures vertices == [Tip] + Ring(Segments + 1)
    ensures |vertices| == 26
  {
    vertices := [Tip];
    var i := 0;
    while i <= Segments
      invariant 0 <= i <= Segments + 1
      invariant vertices == [Tip] + Ring(i)
    {
      if i % 3 == 0 {
        vertices := vertices + [Mid(i)];
      }
      if i % 2 == 0 {
        vertices := vertices + [Quarter(i)];
      }
      vertices := vertices + [Base(i)];
      assert Ring(i + 1) == Ring(i) + RingStep(i);
      i := i + 1;
    }
    FlameVertexCounts();
  }

  /** The number of fan triangles before the closing one. */
  function FanCount(vertexCount: int): nat
  {
    if vertexCount >= 2 then vertexCount - 2 else 0
  }

  /** The number of odd i with 1 <= i < vertexCount - 2. */
  function StripCount(vertexCount: int): nat
  {
    if vertexCount >= 3 then (vertexCount - 2) / 2 else 0
  }

  /** Strip triangle `k`, after the fan and its closing triangle: (2k+1, 2k+2, 2k+3). */
  predicate IsStripTriangle(indices: seq<int>, vertexCount: int, k: nat)
  {
    IsTriangle(indices, FanCount(vertexCount) + 1 + k, 2 * k + 1, 2 * k + 2, 2 * k + 3)
  }

  /** The fan around the top point and its closing triangle (0, vertexCount-1, 1) head `indices`. */
  predicate FanLaid(indices: seq<int>, vertexCount: int)
  {
    && (forall j: nat :: j < FanCount(vertexCount) ==> IsFanTriangle(indices, j))
    && IsTriangle(indices, FanCount(vertexCount), 0, vertexCount - 1, 1)
  }

  /** Appending indices leaves the triangles already laid in place. */
  lemma TriangleKept(prev: seq<int>, t: seq<int>, j: nat, a: int, b: int, c: int)
    requires IsTriangle(prev, j, a, b, c)
    ensures IsTriangle(prev + t, j, a, b, c)
  {
  }

  lemma FanLaidKept(prev: seq<int>, t: seq<int>, vertexCount: int)
    requires FanLaid(prev, vertexCount)
    ensures FanLaid(prev + t, vertexCount)
  {
    forall j: nat | j < FanCount(vertexCount)
      ensures IsFanTriangle(prev + t, j)
    {
      assert IsFanTriangle(prev, j);
      TriangleKept(prev, t, j, 0, j + 1, j + 2);
    }
    TriangleKept(prev, t, FanCount(vertexCount), 0, vertexCount - 1, 1);
  }

  /** The first index loop of createFlameGeometry: (0, i, i+1) for i = 1 .. vertexCount-2, then the closing triangle. */
  method FanIndices(vertexCount: int) returns (indices: seq<int>)
    ensures |indices| == 3 * (FanCount(vertexCount) + 1)
    ensures FanLaid(indices, vertexCount)
  {
    indices := [];
    var i := 1;
    while i < vertexCount - 1
      invariant 1 <= i <= if vertexCount >= 2 then vertexCount - 1 else 1
      invariant |indices| == 3 * (i - 1)
      invariant forall j: nat :: j < i - 1 ==> IsFanTriangle(indices, j)
    {
      var prev := indices;
      indices := indices + [0, i, i + 1];
      assert IsFanTriangle(indices, i - 1);
      forall j: nat | j < i - 1
        ensures IsFanTriangle(indices, j)
      {
        assert IsFanTriangle(prev, j);
        TriangleKept(prev, [0, i, i + 1], j, 0, j + 1, j + 2);
      }
      i := i + 1;
    }
    assert i - 1 == FanCount(vertexCount);
    var fan := indices;
    indices := indices + [0, vertexCount - 1, 1];
    forall j: nat | j < FanCount(vertexCount)
      ensures IsFanTriangle(indices, j)
    {
      assert IsFanTriangle(fan, j);
      TriangleKept(fan, [0, vertexCount - 1, 1], j, 0, j + 1, j + 2);
    }
  }

  /** The second index loop of createFlameGeometry: (i, i+1, i+2) for each odd i below vertexCount - 2. */
  method StripIndices(fan: seq<int>, vertexCount: int) returns (indices: seq<int>)
    requires |fan| == 3 * (FanCount(vertexCount) + 1) && FanLaid(fan, vertexCount)
    ensures |indices| == 3 * (FanCount(vertexCount) + 1 + StripCount(vertexCount))
    ensures FanLaid(indices, vertexCount)
    ensures forall k: nat :: k < StripCount(vertexCount) ==> IsStripTriangle(indices, vertexCount, k)
  {
    indices := fan;
    var first := FanCount(vertexCount) + 1;
    var i := 1;
    while i < vertexCount - 2
      invariant 1 <= i <= if vertexCount >= 3 then vertexCount - 2 else 1
      invariant |indices| == 3 * (first + i / 2)
      invariant FanLaid(indices, vertexCount)
      invariant forall k: nat :: k < i / 2 ==> IsStripTriangle(indices, vertexCount, k)
    {
      if i % 2 == 1 {
        var prev := indices;
        indices := indices + [i, i + 1, i + 2];
        assert IsStripTriangle(indices, vertexCount, i / 2);
        FanLaidKept(prev, [i, i + 1, i + 2], vertexCount);
        forall k: nat | k < i / 2
          ensures IsStripTriangle(indices, vertexCount, k)
        {
          assert IsStripTriangle(prev, vertexCount, k);
          TriangleKept(prev, [i, i + 1, i + 2], first + k, 2 * k + 1, 2 * k + 2, 2 * k + 3);
        }
      }
      i := i + 1;
    }
    assert i / 2 == StripCount(vertexCount);
  }

  /**
   * The index loops of createFlameGeometry: a fan (0, i, i+1) for
   * i = 1 .. vertexCount-2, the closing triangle (0, vertexCount-1, 1), then
   * (i, i+1, i+2) for each odd i below vertexCount - 2.
   */
  method TriangulateFlame(vertexCount: int) returns (indices: seq<int>)
    ensures |indices| == 3 * (FanCount(vertexCount) + 1 + StripCount(vertexCount))
    ensures forall j: nat :: j < FanCount(vertexCount) ==> IsFanTriangle(indices, j)
    ensures IsTriangle(indices, FanCount(vertexCount), 0, vertexCount - 1, 1)
    ensures forall k: nat :: k < StripCount(vertexCount) ==> IsStripTriangle(indices, vertexCount, k)
  {
    var fan := FanIndices(vertexCount);
    indices := StripIndices(fan, vertexCount);
  }

  /** With at least two vertices every index the triangulation emits names a vertex. */
  lemma {:induction false} TriangulationInBounds(vertexCount: int, indices: seq<int>)
    requires vertexCount >= 2
    requires |indices| == 3 * (FanCount(vertexCount) + 1 + StripCount(vertexCount))
    requires forall j: nat :: j < FanCount(vertexCount) ==> IsFanTriangle(indices, j)
    requires IsTriangle(indices, FanCount(vertexCount), 0, vertexCount - 1, 1)
    requires forall k: nat :: k < StripCount(vertexCount) ==> IsStripTriangle(indices, vertexCount, k)
    ensures forall m :: 0 <= m < |indices| ==> 0 <= indices[m] < vertexCount
  {
    var fans := FanCount(vertexCount);
    forall m | 0 <= m < |indices|
      ensures 0 <= indices[m] < vertexCount
    {
      var j := m / 3;
      if j < fans {
        assert IsFanTriangle(indices, j);
      } else if j > fans {
        assert IsStripTriangle(indices, vertexCount, j - fans - 1);
      }
    }
  }

  /**
   * The twelve-segment flame mesh: 26 vertices and 37 triangles (25 in the fan
   * with its closing one, 12 in the strip), every index naming a vertex.
   */
  method CreateFlameGeometry12() returns (vertices: seq<FlameVertex>, indices: seq<int>)
    ensures vertices == [Tip] + Ring(Segments + 1) && |vertices| == 26
    ensures |indices| == 111 && |indices| % 3 == 0
    ensures forall m :: 0 <= m < |indices| ==> 0 <= indices[m] < |vertices|
    ensures forall j: nat :: j < 24 ==> IsFanTriangle(indices, j)
    ensures IsTriangle(indices, 24, 0, 25, 1)
    ensures forall k: nat :: k < 12 ==> IsStripTriangle(indices, 26, k)
  {
    vertices := FlameVertices();
    indices := TriangulateFlame(|vertices|);
    TriangulationInBounds(|vertices|, indices);
  }

  // ---------------------------------------------------------------------
  // Fire particles of this variant
  // ---------------------------------------------------------------------

  /** A fire particle with its twist, flicker frequency and colour bias. */
  datatype BiasedFireParticle = BiasedFireParticle(
    x: real, y: real, z: real, speed: real, baseSize: real,
    flickerPhase: real, wavePhase: real, lifetime: Positive, seed: real,
    rotationSpeed: real, twistFactor: real, flickerFreq: real, colorBias: real)

  /** The particle made from thirteen `Math.random()` draws, in field order. */
  function NewBiasedFireParticle(r: seq<real>): (p: BiasedFireParticle)
    requires |r| == 13 && forall i :: 0 <= i < 13 ==> IsDraw(r[i])
    ensures 0.6 <= p.speed < 1.4 && 1.0 <= p.lifetime < 1.9 && 0.0 <= p.flickerPhase < 2.0 * Pi
    ensures 0.0 <= p.colorBias < 0.3 && 6.0 <= p.flickerFreq < 14.0
  {
    assert IsDraw(r[3]) && IsDraw(r[5]) && IsDraw(r[7]) && IsDraw(r[11]) && IsDraw(r[12]);
    BiasedFireParticle(
      (r[0] - 0.5) * 2.0, -1.2 - r[1] * 0.3, (r[2] - 0.5) * 0.4, 0.6 + r[3] * 0.8,
      0.1 + r[4] * 0.25, r[5] * Pi * 2.0, r[6] * Pi * 2.0, 1.0 + r[7] * 0.9, r[8],
      (r[9] - 0.5) * 0.3, 0.2 + r[10] * 0.4, 6.0 + r[11] * 8.0, r[12] * 0.3)
  }

  /** `progress * (1 - colorBias)`: a biased flame stays nearer the base colours. */
  function ColorProgress(progress: real, bias: real): real
  {
    progress * (1.0 - bias)
  }

  /** With a bias in [0, 1] the colour progress stays in [0, progress], so within [0, 1). */
  lemma ColorProgressRange(progress: real, bias: real)
    requires 0.0 <= progress < 1.0 && 0.0 <= bias <= 1.0
    ensures 0.0 <= ColorProgress(progress, bias) <= progress < 1.0
  {
    NonNegProduct(progress, 1.0 - bias);
    NonNegProduct(progress, bias);
    assert progress * (1.0 - bias) == progress - progress * bias;
  }

  /**
   * With colorBias in [0, 0.3) and progress in [0, 1) the selected segment is
   * one of 0 .. FIRE_COLORS.length - 3, so both palette entries exist and the
   * colour is well formed.
   */
  lemma BiasedColorIndexInRange(progress: real, bias: real)
    requires 0.0 <= progress < 1.0 && 0.0 <= bias < 0.3
    ensures 0 <= Floor(ColorProgress(progress, bias) * 7.0) <= |FireColors| - 3
    ensures RampColor(FireColors, ColorProgress(progress, bias)).Some?
    ensures IsHexColor(RampColor(FireColors, ColorProgress(progress, bias)).value)
  {
    ColorProgressRange(progress, bias);
    RampIndexInRange(ColorProgress(progress, bias));
  }

  /** What a frame records for one instance, apart from the trigonometric terms. */
  datatype BiasedFireSlot = BiasedFireSlot(rise: real, taper: real, depth: real, color: Option<string>)

  function BiasedProgress(p: BiasedFireParticle, t: real): real
  {
    Progress(t, p.speed, p.flickerPhase, p.lifetime)
  }

  /** Rise `y + progress * 2.7`, taper `baseSize * (1.2 - progress * 0.9)`, depth factor `0.7 - progress * 0.2`, and the biased ramp colour. */
  function BiasedFireSlotOf(p: BiasedFireParticle, t: real): BiasedFireSlot
  {
    var pr := BiasedProgress(p, t);
    BiasedFireSlot(p.y + pr * 2.7, p.baseSize * (1.2 - pr * 0.9), 0.7 - pr * 0.2,
                   RampColor(FireColors, ColorProgress(pr, p.colorBias)))
  }

  /** `0.8 * (1 - p * 0.65) + 0.2 * s` where `s` is the flicker sine. */
  function BiasedFireOpacity(p: real, s: real): (o: real)
    ensures 0.0 <= p < 1.0 && -1.0 <= s <= 1.0 ==> 0.08 < o <= 1.0
  {
    0.8 * (1.0 - p * 0.65) + 0.2 * s
  }

  predicate ValidBiasedFire(particles: seq<BiasedFireParticle>)
  {
    forall i :: 0 <= i < |particles| ==>
      particles[i].speed >= 0.0 && particles[i].flickerPhase >= 0.0 && 0.0 <= particles[i].colorBias < 0.3
  }

  /** One frame of these fire particles; `sin` stands for `Math.sin` in the opacity flicker `Math.sin(t * flickerFreq * 0.7 + seed * 20)`. */
  method BiasedFireFrame(mesh: InstanceMesh<BiasedFireSlot>, particles: seq<BiasedFireParticle>, t: real, sin: real -> real)
    requires |particles| == mesh.slots.Length
    modifies mesh, mesh.slots
    ensures forall i :: 0 <= i < |particles| ==> mesh.slots[i] == BiasedFireSlotOf(particles[i], t)
    ensures t >= 0.0 && ValidBiasedFire(particles) ==>
      forall i :: 0 <= i < |particles| ==> mesh.slots[i].color.Some? && IsHexColor(mesh.slots[i].color.value)
    ensures mesh.opacity == if |particles| == 0 then old(mesh.opacity)
      else var last := particles[|particles| - 1];
        BiasedFireOpacity(BiasedProgress(last, t), sin(t * last.flickerFreq * 0.7 + last.seed * 20.0))
    ensures mesh.needsUpdate
  {
    FillFrame(mesh, particles, (p: BiasedFireParticle, i: nat) => BiasedFireSlotOf(p, t),
              (p: BiasedFireParticle, i: nat) =>
                BiasedFireOpacity(BiasedProgress(p, t), sin(t * p.flickerFreq * 0.7 + p.seed * 20.0)));
    if t >= 0.0 && ValidBiasedFire(particles) {
      forall i | 0 <= i < |particles|
        ensures mesh.slots[i].color.Some? && IsHexColor(mesh.slots[i].color.value)
      {
        var p := particles[i];
        ProgressInUnit(t, p.speed, p.flickerPhase, p.lifetime);
        BiasedColorIndexInRange(BiasedProgress(p, t), p.colorBias);
      }
    }
  }

  // ---------------------------------------------------------------------
  // Responsive camera
  // ---------------------------------------------------------------------

  /** calculateZoom: 70, 80, 90, 100 or 120 by the breakpoints 360, 480, 640 and 768. */
  function CalculateZoom(width: real): (z: int)
    ensures z in {70, 80, 90, 100, 120}
  {
    if width < 360.0 then 70
    else if width < 480.0 then 80
    else if width < 640.0 then 90
    else if width < 768.0 then 100
    else 120
  }

  /** A wider canvas never gets a smaller zoom. */
  lemma ZoomMonotone(w1: real, w2: real)
    requires w1 <= w2
    ensures CalculateZoom(w1) <= CalculateZoom(w2)
  {
  }

  /** Zoom by tier: below 360, 360..480, 480..640, 640..768 and from 768 on. */
  lemma ZoomTiers(width: real)
    ensures width < 360.0 <==> CalculateZoom(width) == 70
    ensures 360.0 <= width < 480.0 <==> CalculateZoom(width) == 80
    ensures 480.0 <= width < 640.0 <==> CalculateZoom(width) == 90
    ensures 640.0 <= width < 768.0 <==> CalculateZoom(width) == 100
    ensures width >= 768.0 <==> CalculateZoom(width) == 120
  {
  }

  lemma ZoomExamples()
    ensures CalculateZoom(359.0) == 70 && CalculateZoom(480.0) == 90 && CalculateZoom(1024.0) == 120
  {
  }

  /** The default camera of the canvas; only an orthographic one has its zoom set. */
  class Camera {
    const orthographic: bool
    var zoom: real

    constructor (orthographic: bool, zoom: real)
      ensures this.orthographic == orthographic && this.zoom == zoom
    {
      this.orthographic := orthographic;
      this.zoom := zoom;
    }
  }

  /** The effect of ResponsiveCamera on a width change. */
  method ApplyZoom(camera: Camera, width: real)
    modifies camera
    ensures camera.zoom == if camera.orthographic then CalculateZoom(width) as real else old(camera.zoom)
  {
    if camera.orthographic {
      camera.zoom := CalculateZoom(width) as real;
    }
  }

  // ---------------------------------------------------------------------
  // Screen size, particle counts and container style
  // ---------------------------------------------------------------------

  datatype ScreenSize = ScreenSize(isMobile: bool, isSmallMobile: bool, width: real, height: real)

  /** The state before the first measurement. */
  const InitialScreenSize: ScreenSize := ScreenSize(false, false, 0.0, 0.0)

  /** checkScreenSize: the window size and its two flags. */
  function CheckScreenSize(width: real, height: real): ScreenSize
  {
    ScreenSize(width < 768.0, width < 480.0, width, height)
  }

  /** A small-mobile screen is always a mobile one. */
  lemma SmallMobileIsMobile(width: real, height: real)
    ensures CheckScreenSize(width, height).isSmallMobile ==> CheckScreenSize(width, height).isMobile
  {
  }

  /**
   * The flags depend on the width alone, and a narrower window is never in a
   * wider tier: whatever makes a window mobile (or small) makes every
   * narrower one so too.
   */
  lemma ScreenSizeTiers(w1: real, w2: real, h1: real, h2: real)
    requires w1 <= w2
    ensures CheckScreenSize(w2, h2).isMobile ==> CheckScreenSize(w1, h1).isMobile
    ensures CheckScreenSize(w2, h2).isSmallMobile ==> CheckScreenSize(w1, h1).isSmallMobile
    ensures CheckScreenSize(w1, h1).width == w1 && CheckScreenSize(w1, h1).height == h1
  {
  }

  /** Fire particles: 80 on small mobiles, 120 on other mobiles, 220 otherwise. */
  function FireParticleCount(s: ScreenSize): nat
  {
    if s.isSmallMobile then 80 else if s.isMobile then 120 else 220
  }

  /** Smoke particles: 15 on small mobiles, 25 on other mobiles, 50 otherwise. */
  function SmokeParticleCount(s: ScreenSize): nat
  {
    if s.isSmallMobile then 15 else if s.isMobile then 25 else 50
  }

  /** The counts by tier, and both grow with the width. */
  lemma ParticleCounts(w1: real, w2: real, h: real)
    requires w1 <= w2
    ensures FireParticleCount(CheckScreenSize(w1, h)) <= FireParticleCount(CheckScreenSize(w2, h))
    ensures SmokeParticleCount(CheckScreenSize(w1, h)) <= SmokeParticleCount(CheckScreenSize(w2, h))
    ensures w1 < 480.0 ==> FireParticleCount(CheckScreenSize(w1, h)) == 80 && SmokeParticleCount(CheckScreenSize(w1, h)) == 15
    ensures 480.0 <= w1 < 768.0 ==> FireParticleCount(CheckScreenSize(w1, h)) == 120 && SmokeParticleCount(CheckScreenSize(w1, h)) == 25
    ensures w1 >= 768.0 ==> FireParticleCount(CheckScreenSize(w1, h)) == 220 && SmokeParticleCount(CheckScreenSize(w1, h)) == 50
  {
  }

  /** The style entries that vary; the base entries (full size, transparent, absolutely placed) are fixed. */
  datatype ContainerStyle = ContainerStyle(minHeight: Option<string>, transform: Option<string>)

  function ContainerStyleOf(s: ScreenSize): (c: ContainerStyle)
    ensures c.minHeight.Some? <==> s.isMobile
    ensures c.transform.Some? <==> s.isMobile && s.isSmallMobile
  {
    if s.isMobile then
      ContainerStyle(Some(if s.isSmallMobile then "250px" else "300px"),
                     if s.isSmallMobile then Some("scale(1.1)") else None)
    else ContainerStyle(None, None)
  }

  /** On a measured screen: a transform only when small-mobile, a minimum height (250px or 300px) only when mobile. */
  lemma ContainerStyleByWidth(width: real, height: real)
    ensures var c := ContainerStyleOf(CheckScreenSize(width, height));
      && (c.transform == Some("scale(1.1)") <==> width < 480.0)
      && (c.transform.None? <==> width >= 480.0)
      && (c.minHeight == Some("250px") <==> width < 480.0)
      && (c.minHeight == Some("300px") <==> 480.0 <= width < 768.0)
      && (c.minHeight.None? <==> width >= 768.0)
  {
  }
}
