/** The animated background (`ParticleSystem`): a fixed population of particles on a canvas,
    pushed away by the pointer, bounced off and clamped to the canvas edges, and joined by
    lines when close. Canvas drawing and frame scheduling are left out; the lines a frame
    would stroke are returned instead.

    Square roots are not computed: each distance the source takes with `Math.sqrt` is an input
    `d` with `d >= 0` and `d * d` equal to the sum of squares, which pins it to the true
    distance. With that, `Math.cos(Math.atan2(dy, dx))` is `dx / d` and the sine is `dy / d`;
    when `d` is 0, `atan2(0, 0)` is 0, so the cosine is 1 and the sine 0. */
module ParticleField {
  import opened Connections

  const ParticleCount: nat := 80
  const PointerRadius: real := 150.0
  const ForceScale: real := 0.2

  datatype Particle = Particle(x: real, y: real, vx: real, vy: real, radius: real, opacity: real)

  /** `this.mouse.x` and `this.mouse.y`: both `null` after `mouseout`, both set by `mousemove`. */
  datatype Pointer = Unset | At(x: real, y: real)

  /** `this.mouse.x && this.mouse.y`: a coordinate of 0 is falsy in JavaScript, like `null`. */
  predicate Engaged(m: Pointer) {
    m.At? && m.x != 0.0 && m.y != 0.0
  }

  /** `d` is the Euclidean length of the vector (dx, dy). */
  predicate IsDistance(d: real, dx: real, dy: real) {
    0.0 <= d && d * d == dx * dx + dy * dy
  }

  function Min(a: real, b: real): real { if a <= b then a else b }
  function Max(a: real, b: real): real { if a >= b then a else b }

  predicate InSurface(p: Particle, w: nat, h: nat) {
    0.0 <= p.x <= w as real && 0.0 <= p.y <= h as real
  }

  predicate AllInSurface(ps: seq<Particle>, w: nat, h: nat) {
    forall k :: 0 <= k < |ps| ==> InSurface(ps[k], w, h)
  }

  // ----- initialisation -----

  /** The six `Math.random()` values `init` draws for one particle. */
  datatype Draws = Draws(x: real, y: real, vx: real, vy: real, radius: real, opacity: real)

  predicate UnitInterval(r: real) { 0.0 <= r < 1.0 }

  /** What `Math.random` promises: every value lies in [0, 1). */
  predicate RandomDraws(r: Draws) {
    UnitInterval(r.x) && UnitInterval(r.y) && UnitInterval(r.vx) && UnitInterval(r.vy) &&
    UnitInterval(r.radius) && UnitInterval(r.opacity)
  }

  /** One particle as `init` builds it from its random draws. */
  function Spawn(r: Draws, w: nat, h: nat): (p: Particle)
    requires RandomDraws(r)
    ensures InSurface(p, w, h)
    ensures w > 0 ==> p.x < w as real
    ensures h > 0 ==> p.y < h as real
    ensures -0.25 <= p.vx < 0.25 && -0.25 <= p.vy < 0.25
    ensures 1.0 <= p.radius < 3.0
    ensures 0.2 <= p.opacity < 0.7
  {
    assert r.x * (w as real) <= 1.0 * (w as real);
    assert r.y * (h as real) <= 1.0 * (h as real);
    assert w > 0 ==> r.x * (w as real) < 1.0 * (w as real);
    assert h > 0 ==> r.y * (h as real) < 1.0 * (h as real);
    Particle(r.x * (w as real), r.y * (h as real),
             (r.vx - 0.5) * 0.5, (r.vy - 0.5) * 0.5,
             r.radius * 2.0 + 1.0, r.opacity * 0.5 + 0.2)
  }

  // ----- the pointer interaction -----

  /** `Math.cos(Math.atan2(dy, dx))` for `d` the length of (dx, dy). */
  function CosAngle(dx: real, dy: real, d: real): real
    requires IsDistance(d, dx, dy)
  {
    if d == 0.0 then 1.0 else dx / d
  }

  /** `Math.sin(Math.atan2(dy, dx))` for `d` the length of (dx, dy). */
  function SinAngle(dx: real, dy: real, d: real): real
    requires IsDistance(d, dx, dy)
  {
    if d == 0.0 then 0.0 else dy / d
  }

  /** `force`: 1 at the pointer, falling linearly to 0 at the influence radius. */
  function Force(d: real): (f: real)
    ensures 0.0 <= d < PointerRadius ==> 0.0 < f <= 1.0
  {
    (PointerRadius - d) / PointerRadius
  }

  /** `d` is the distance from particle `p` to the pointer, whenever the pointer is engaged. */
  predicate PointerDistance(p: Particle, m: Pointer, d: real) {
    Engaged(m) ==> IsDistance(d, m.x - p.x, m.y - p.y)
  }

  /** The guard of the repulsion term. */
  predicate Repels(p: Particle, m: Pointer, d: real) {
    Engaged(m) && d < PointerRadius
  }

  datatype Velocity = Velocity(vx: real, vy: real)

  /** The particle's velocity after the pointer interaction. */
  function Repel(p: Particle, m: Pointer, d: real): (v: Velocity)
    requires PointerDistance(p, m, d)
  {
    if Repels(p, m, d) then
      var dx, dy := m.x - p.x, m.y - p.y;
      Velocity(p.vx - CosAngle(dx, dy, d) * Force(d) * ForceScale,
               p.vy - SinAngle(dx, dy, d) * Force(d) * ForceScale)
    else
      Velocity(p.vx, p.vy)
  }

  /** The repulsion guard needs no square root: the pointer is within the influence radius
      exactly when the squared offset is below the squared radius. */
  lemma RepelsIffSquaredClose(p: Particle, m: Pointer, d: real)
    requires PointerDistance(p, m, d)
    ensures Repels(p, m, d) <==>
              Engaged(m) && (m.x - p.x) * (m.x - p.x) + (m.y - p.y) * (m.y - p.y) < PointerRadius * PointerRadius
  {
    if Engaged(m) {
      ShorterIffSquareSmaller(d, m.x - p.x, m.y - p.y, PointerRadius);
    }
  }

  // ----- facts about real numbers, each stated over plain variables -----

  lemma ProductPositive(a: real, b: real)
    requires a > 0.0 && b > 0.0
    ensures a * b > 0.0
  {
  }

  lemma ProductNonNegative(a: real, b: real)
    requires a >= 0.0 && b >= 0.0
    ensures a * b >= 0.0
  {
  }

  lemma ProductZero(a: real, b: real)
    requires a * b == 0.0
    ensures a == 0.0 || b == 0.0
  {
    if a != 0.0 {
      assert a * b / a == b;
    }
  }

  lemma SquareNonNegative(x: real)
    ensures x * x >= 0.0
  {
    if x < 0.0 {
      ProductPositive(-x, -x);
      assert x * x == (-x) * (-x);
    } else {
      ProductNonNegative(x, x);
    }
  }

  lemma SquareLess(d: real, r: real)
    requires 0.0 <= d < r
    ensures d * d < r * r
  {
    ProductPositive(r - d, r + d);
    assert (r - d) * (r + d) == r * r - d * d;
  }

  lemma SquareAtLeast(d: real, r: real)
    requires 0.0 <= r <= d
    ensures r * r <= d * d
  {
    ProductNonNegative(d - r, d + r);
    assert (d - r) * (d + r) == d * d - r * r;
  }

  lemma QuotientTimes(x: real, y: real, d: real)
    requires d != 0.0
    ensures (x / d) * y == (x * y) / d
  {
  }

  lemma SumOfQuotients(a: real, b: real, d: real)
    requires d != 0.0
    ensures a / d + b / d == (a + b) / d
  {
  }

  lemma SquareOverSelf(d: real)
    requires d != 0.0
    ensures (d * d) / d == d
  {
  }

  // ----- lengths -----

  /** For a length `d` of (dx, dy) and a positive bound `r`: `d < r` exactly when
      `dx² + dy² < r²`. */
  lemma ShorterIffSquareSmaller(d: real, dx: real, dy: real, r: real)
    requires IsDistance(d, dx, dy) && r > 0.0
    ensures d < r <==> dx * dx + dy * dy < r * r
  {
    if d < r {
      SquareLess(d, r);
    } else {
      SquareAtLeast(d, r);
    }
  }

  /** Only the zero vector has length 0. */
  lemma ZeroLength(d: real, dx: real, dy: real)
    requires IsDistance(d, dx, dy) && d == 0.0
    ensures dx == 0.0 && dy == 0.0
  {
    SquareNonNegative(dx);
    SquareNonNegative(dy);
    assert dx * dx == 0.0 && dy * dy == 0.0;
    ProductZero(dx, dx);
    ProductZero(dy, dy);
  }

  /** The direction (dx/d, dy/d) projected on (dx, dy) gives back the length. */
  lemma DotWithOffset(dx: real, dy: real, d: real)
    requires IsDistance(d, dx, dy) && d != 0.0
    ensures (dx / d) * dx + (dy / d) * dy == d
  {
    QuotientTimes(dx, dx, d);
    QuotientTimes(dy, dy, d);
    SumOfQuotients(dx * dx, dy * dy, d);
    SquareOverSelf(d);
  }

  /** With `d` the length of (dx, dy), the cosine and sine above are the components of a unit
      vector, and (unless the offset is zero) it points along (dx, dy). */
  lemma UnitDirection(dx: real, dy: real, d: real)
    requires IsDistance(d, dx, dy)
    ensures var c, sn := CosAngle(dx, dy, d), SinAngle(dx, dy, d);
            c * c + sn * sn == 1.0 && (d != 0.0 ==> c * dx + sn * dy == d)
  {
    if d != 0.0 {
      var c, sn := dx / d, dy / d;
      DotWithOffset(dx, dy, d);
      QuotientTimes(dx, c, d);
      QuotientTimes(dy, sn, d);
      SumOfQuotients(dx * c, dy * sn, d);
      assert dx * c + dy * sn == d;
    }
  }

  /** The impulse points away from the pointer: its dot product with the vector from the
      pointer to the particle is never negative. */
  lemma RepulsionPointsAway(p: Particle, m: Pointer, d: real)
    requires PointerDistance(p, m, d) && Repels(p, m, d)
    ensures var v := Repel(p, m, d);
            (v.vx - p.vx) * (p.x - m.x) + (v.vy - p.vy) * (p.y - m.y) >= 0.0
  {
    var dx, dy := m.x - p.x, m.y - p.y;
    var s := Force(d) * ForceScale;
    var c, sn := CosAngle(dx, dy, d), SinAngle(dx, dy, d);
    var v := Repel(p, m, d);
    assert v.vx - p.vx == -(c * s) && v.vy - p.vy == -(sn * s);
    assert p.x - m.x == -dx && p.y - m.y == -dy;
    assert (v.vx - p.vx) * (p.x - m.x) + (v.vy - p.vy) * (p.y - m.y) == (c * dx + sn * dy) * s;
    if d == 0.0 {
      ZeroLength(d, dx, dy);
    } else {
      UnitDirection(dx, dy, d);
      ProductNonNegative(d, s);
    }
  }

  /** The impulse has length `force * 0.2`, so it never exceeds 0.2 per frame. */
  lemma RepulsionStrength(p: Particle, m: Pointer, d: real)
    requires PointerDistance(p, m, d) && Repels(p, m, d)
    ensures var v := Repel(p, m, d);
            (v.vx - p.vx) * (v.vx - p.vx) + (v.vy - p.vy) * (v.vy - p.vy)
              == (Force(d) * ForceScale) * (Force(d) * ForceScale)
    ensures 0.0 < Force(d) * ForceScale <= ForceScale
  {
    var dx, dy := m.x - p.x, m.y - p.y;
    var s := Force(d) * ForceScale;
    var v := Repel(p, m, d);
    var c, sn := CosAngle(dx, dy, d), SinAngle(dx, dy, d);
    assert v.vx - p.vx == -(c * s) && v.vy - p.vy == -(sn * s);
    UnitDirection(dx, dy, d);
    assert (c * s) * (c * s) + (sn * s) * (sn * s) == (c * c + sn * sn) * (s * s);
  }

  // ----- one particle, one frame -----

  /** The bounce test `c < 0 || c > limit`. */
  predicate Outside(c: real, limit: real) {
    c < 0.0 || c > limit
  }

  /** `Math.max(0, Math.min(limit, c))`. */
  function Clamp(c: real, limit: real): (r: real)
    requires 0.0 <= limit
    ensures 0.0 <= r <= limit
    ensures !Outside(c, limit) ==> r == c
    ensures c < 0.0 ==> r == 0.0
    ensures c > limit ==> r == limit
  {
    Max(0.0, Min(limit, c))
  }

  /** The update half of the `forEach` callback in `drawParticles`: repel, move, bounce, clamp.
      Whatever the particle's position before (a resize may have left it outside), it ends
      within the canvas. */
  function Advance(p: Particle, w: nat, h: nat, m: Pointer, d: real): (r: Particle)
    requires PointerDistance(p, m, d)
    ensures InSurface(r, w, h)
    ensures r.radius == p.radius && r.opacity == p.opacity
  {
    var v := Repel(p, m, d);
    var x, y := p.x + v.vx, p.y + v.vy;
    Particle(Clamp(x, w as real), Clamp(y, h as real),
             if Outside(x, w as real) then -v.vx else v.vx,
             if Outside(y, h as real) then -v.vy else v.vy,
             p.radius, p.opacity)
  }

  /** Each velocity component is negated exactly when the moved coordinate is below 0 or beyond
      the canvas, independently of the other; otherwise it and the moved coordinate are kept.
      A coordinate landing exactly on 0 or on the edge is not bounced. */
  lemma BounceLaw(p: Particle, w: nat, h: nat, m: Pointer, d: real)
    requires PointerDistance(p, m, d)
    ensures var v, r := Repel(p, m, d), Advance(p, w, h, m, d);
            var x, y := p.x + v.vx, p.y + v.vy;
            (Outside(x, w as real) ==> r.vx == -v.vx) &&
            (!Outside(x, w as real) ==> r.vx == v.vx && r.x == x) &&
            (Outside(y, h as real) ==> r.vy == -v.vy) &&
            (!Outside(y, h as real) ==> r.vy == v.vy && r.y == y)
    ensures var v := Repel(p, m, d);
            (p.x + v.vx == 0.0 || p.x + v.vx == w as real) ==> Advance(p, w, h, m, d).vx == v.vx
  {
  }

  /** Without the repulsion term (pointer unset, a zero coordinate, or the particle out of
      reach) the velocity changes only by bouncing: each component keeps its size. */
  lemma OnlyBouncesWithoutRepulsion(p: Particle, w: nat, h: nat, m: Pointer, d: real)
    requires PointerDistance(p, m, d) && !Repels(p, m, d)
    ensures var r := Advance(p, w, h, m, d);
            (r.vx == p.vx || r.vx == -p.vx) && (r.vy == p.vy || r.vy == -p.vy) &&
            r.vx * r.vx == p.vx * p.vx && r.vy * r.vy == p.vy * p.vy
  {
    var r := Advance(p, w, h, m, d);
    assert Repel(p, m, d) == Velocity(p.vx, p.vy);
    assert r.vx == p.vx || r.vx == -p.vx;
    assert r.vy == p.vy || r.vy == -p.vy;
  }

  /** A particle one pixel past the right edge and still moving right is turned round and put
      back on the edge. */
  lemma PastRightEdgeTurnsBack(p: Particle, w: nat, h: nat, m: Pointer, d: real)
    requires PointerDistance(p, m, d) && !Repels(p, m, d)
    requires p.x == w as real + 1.0 && p.vx > 0.0
    ensures Advance(p, w, h, m, d).vx < 0.0
    ensures Advance(p, w, h, m, d).x == w as real
  {
    assert Repel(p, m, d) == Velocity(p.vx, p.vy);
  }

  // ----- the whole population, one frame -----

  predicate PointerDistances(ds: seq<real>, ps: seq<Particle>, m: Pointer) {
    |ds| == |ps| && forall k :: 0 <= k < |ps| ==> PointerDistance(ps[k], m, ds[k])
  }

  /** The population after one `drawParticles`: every particle advanced on its own. */
  function StepAll(ps: seq<Particle>, w: nat, h: nat, m: Pointer, ds: seq<real>): (r: seq<Particle>)
    requires PointerDistances(ds, ps, m)
    ensures |r| == |ps| && AllInSurface(r, w, h)
  {
    seq(|ps|, k requires 0 <= k < |ps| => Advance(ps[k], w, h, m, ds[k]))
  }

  /** `dist[i][j]` is the distance between particles i and j. */
  predicate PositionDistances(dist: seq<seq<real>>, ps: seq<Particle>) {
    DistanceTable(dist, |ps|) &&
    forall i, j :: 0 <= i < |ps| && 0 <= j < |ps| ==>
      IsDistance(dist[i][j], ps[i].x - ps[j].x, ps[i].y - ps[j].y)
  }

  function SquaredDistance(p: Particle, q: Particle): real {
    (p.x - q.x) * (p.x - q.x) + (p.y - q.y) * (p.y - q.y)
  }

  /** The connection rule in terms of positions: a frame draws the line (i, j) exactly when
      `i < j` and the two particles are less than 150 apart (compared without a square root),
      with the opacity of their distance. */
  lemma ConnectionsOfPositions(dist: seq<seq<real>>, ps: seq<Particle>)
    requires PositionDistances(dist, ps)
    ensures InTable(dist, AllPairs(|ps|))
    ensures forall l :: l in Drawn(dist, AllPairs(|ps|)) <==>
              l.i < l.j < |ps| &&
              SquaredDistance(ps[l.i], ps[l.j]) < ConnectionDistance * ConnectionDistance &&
              l.opacity == Opacity(dist[l.i][l.j])
  {
    ConnectionRule(dist, |ps|);
    forall i, j | 0 <= i < |ps| && 0 <= j < |ps|
      ensures dist[i][j] < ConnectionDistance <==>
              SquaredDistance(ps[i], ps[j]) < ConnectionDistance * ConnectionDistance
    {
      ShorterIffSquareSmaller(dist[i][j], ps[i].x - ps[j].x, ps[i].y - ps[j].y, ConnectionDistance);
    }
  }

  /** Two particles 149 apart on one vertical line get one line of opacity 0.002. */
  lemma TwoCloseParticles(p: Particle, q: Particle)
    requires p.x == 100.0 && p.y == 100.0 && q.x == 100.0 && q.y == 249.0
    ensures PositionDistances([[0.0, 149.0], [149.0, 0.0]], [p, q])
    ensures Drawn([[0.0, 149.0], [149.0, 0.0]], AllPairs(2)) == [Line(0, 1, 0.002)]
  {
    var dist := [[0.0, 149.0], [149.0, 0.0]];
    assert AllPairs(2) == [Pair(0, 1)] by {
      assert RowPairs(0, 2) == [Pair(0, 1)];
      assert RowPairs(1, 2) == [];
      assert PairsBelow(2, 1) == [Pair(0, 1)];
    }
    assert Drawn(dist, [Pair(0, 1)]) == Drawn(dist, []) + LineFor(dist, Pair(0, 1));
  }

  /** The inner loop of `drawConnections` for row `i`: the pairs (i, j) for `i < j < n` are
      checked in order, and a line is stroked for each close one. */
  method ConnectRow(dist: seq<seq<real>>, i: nat) returns (row: seq<Line>)
    requires i < |dist| && |dist[i]| == |dist|
    ensures row == RowLines(dist, i, |dist|)
  {
    var n := |dist|;
    row := [];
    var j := i + 1;
    while j < n
      invariant i + 1 <= j <= n
      invariant row == RowLines(dist, i, j)
    {
      var distance := dist[i][j];
      if distance < ConnectionDistance {
        row := row + [Line(i, j, Opacity(distance))];
      }
      j := j + 1;
    }
  }

  /** The particle field. Particles are plain records that nothing else shares, so the
      population is a sequence of values that each frame rewrites element by element. */
  class ParticleSystem {
    /** `canvas.width` and `canvas.height`. */
    var width: nat
    var height: nat
    var particles: seq<Particle>
    var mouse: Pointer

    /** `new ParticleSystem(canvas)` up to its first frame: an empty population, the pointer
        unset, then `init`. `draws` holds the values `Math.random` returns. */
    constructor (innerWidth: nat, innerHeight: nat, draws: seq<Draws>)
      requires |draws| == ParticleCount && forall k :: 0 <= k < |draws| ==> RandomDraws(draws[k])
      ensures width == innerWidth && height == innerHeight && mouse == Unset
      ensures |particles| == ParticleCount
      ensures forall k :: 0 <= k < ParticleCount ==> particles[k] == Spawn(draws[k], width, height)
      ensures AllInSurface(particles, width, height)
    {
      width, height := innerWidth, innerHeight;
      particles := [];
      mouse := Unset;
      new;
      Init(innerWidth, innerHeight, draws);
    }

    /** `init`: size the canvas to the viewport and push `particleCount` new particles. */
    method Init(innerWidth: nat, innerHeight: nat, draws: seq<Draws>)
      requires |draws| == ParticleCount && forall k :: 0 <= k < |draws| ==> RandomDraws(draws[k])
      modifies this`width, this`height, this`particles
      ensures width == innerWidth && height == innerHeight
      ensures |particles| == |old(particles)| + ParticleCount
      ensures particles[..|old(particles)|] == old(particles)
      ensures forall k :: 0 <= k < ParticleCount ==>
                particles[|old(particles)| + k] == Spawn(draws[k], width, height)
    {
      width := innerWidth;
      height := innerHeight;
      ghost var before := particles;
      for i := 0 to ParticleCount
        invariant width == innerWidth && height == innerHeight
        invariant |particles| == |before| + i
        invariant particles[..|before|] == before
        invariant forall k :: 0 <= k < i ==> particles[|before| + k] == Spawn(draws[k], width, height)
      {
        particles := particles + [Spawn(draws[i], width, height)];
      }
    }

    /** The `resize` listener: the canvas is resized and the particles are left where they are. */
    method Resize(innerWidth: nat, innerHeight: nat)
      modifies this`width, this`height
      ensures width == innerWidth && height == innerHeight
    {
      width := innerWidth;
      height := innerHeight;
    }

    /** The `mousemove` listener. */
    method MouseMove(x: real, y: real)
      modifies this`mouse
      ensures mouse == At(x, y)
    {
      mouse := At(x, y);
    }

    /** The `mouseout` listener. */
    method MouseOut()
      modifies this`mouse
      ensures mouse == Unset
    {
      mouse := Unset;
    }

    /** The body of the `forEach` callback in `drawParticles` for one particle, minus the
        drawing; `distance` is the particle's distance to the pointer. */
    method UpdateParticle(p: Particle, distance: real) returns (q: Particle)
      requires PointerDistance(p, mouse, distance)
      ensures q == Advance(p, width, height, mouse, distance)
      ensures InSurface(q, width, height)
    {
      var vx, vy := p.vx, p.vy;
      if Engaged(mouse) {
        var dx, dy := mouse.x - p.x, mouse.y - p.y;
        if distance < PointerRadius {
          var force := (PointerRadius - distance) / PointerRadius;
          vx := vx - CosAngle(dx, dy, distance) * force * ForceScale;
          vy := vy - SinAngle(dx, dy, distance) * force * ForceScale;
        }
      }
      assert Velocity(vx, vy) == Repel(p, mouse, distance);
      var x, y := p.x + vx, p.y + vy;
      if x < 0.0 || x > width as real { vx := -vx; }
      if y < 0.0 || y > height as real { vy := -vy; }
      x := Max(0.0, Min(width as real, x));
      y := Max(0.0, Min(height as real, y));
      q := Particle(x, y, vx, vy, p.radius, p.opacity);
    }

    /** The update half of `drawParticles`; `pointerDist[k]` is the distance from particle k to
        the pointer. Afterwards every particle is on the canvas, even if a resize had left some
        outside it. */
    method DrawParticles(pointerDist: seq<real>)
      requires PointerDistances(pointerDist, particles, mouse)
      modifies this`particles
      ensures particles == StepAll(old(particles), width, height, mouse, pointerDist)
      ensures AllInSurface(particles, width, height)
    {
      ghost var before := particles;
      var i := 0;
      while i < |particles|
        invariant 0 <= i <= |particles| == |before| == |pointerDist|
        invariant forall k :: 0 <= k < i ==> particles[k] == Advance(before[k], width, height, mouse, pointerDist[k])
        invariant forall k :: i <= k < |particles| ==> particles[k] == before[k]
      {
        var q := UpdateParticle(particles[i], pointerDist[i]);
        particles := particles[i := q];
        i := i + 1;
      }
    }

    /** `drawConnections`: the nested loop over `i < j`. `dist[i][j]` is the distance between
        particles i and j; `lines` are the strokes drawn, in order. */
    method DrawConnections(dist: seq<seq<real>>) returns (lines: seq<Line>)
      requires |dist| == |particles| && forall k :: 0 <= k < |dist| ==> |dist[k]| == |dist|
      ensures lines == Drawn(dist, AllPairs(|particles|))
    {
      var n := |particles|;
      lines := [];
      var i := 0;
      while i < n
        invariant 0 <= i <= n
        invariant lines == Drawn(dist, PairsBelow(n, i))
      {
        var row := ConnectRow(dist, i);
        RowLinesDrawn(dist, i, n);
        DrawnAppend(dist, PairsBelow(n, i), RowPairs(i, n));
        lines := lines + row;
        i := i + 1;
      }
    }

    /** One frame of `animate`: the connections are drawn from the positions the frame starts
        with, then the particles are advanced. */
    method Animate(dist: seq<seq<real>>, pointerDist: seq<real>) returns (lines: seq<Line>)
      requires PositionDistances(dist, particles)
      requires PointerDistances(pointerDist, particles, mouse)
      modifies this`particles
      ensures lines == Drawn(dist, AllPairs(|old(particles)|))
      ensures forall l :: l in lines <==>
                l.i < l.j < |old(particles)| &&
                SquaredDistance(old(particles)[l.i], old(particles)[l.j]) < ConnectionDistance * ConnectionDistance &&
                l.opacity == Opacity(dist[l.i][l.j])
      ensures particles == StepAll(old(particles), width, height, mouse, pointerDist)
      ensures AllInSurface(particles, width, height)
    {
      lines := DrawConnections(dist);
      ConnectionsOfPositions(dist, particles);
      DrawParticles(pointerDist);
    }
  }
}
