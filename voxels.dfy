/** The voxel grid of a fibre phantom: the material codes, the margin and pipe
    predicates, the discrete ball, and the in-place writers every rasterising
    pass is built from. A volume is an `array3<real>` indexed [x, y, z]; the
    pipe is the cylinder along x through (ny / 2, nz / 2). */
module Voxels {

  /** Attenuation codes of the package generator. */
  const AIR: real := 0.0
  const RESIN: real := 0.1
  const FIBER: real := 1.0
  /** The older scripts test and write the integer 1 as their fibre code. */
  const LEGACY_FIBER: real := 1.0

  datatype Point = Point(x: int, y: int, z: int)

  datatype Dims = Dims(nx: nat, ny: nat, nz: nat)

  function Shape(v: array3<real>): Dims
  {
    Dims(v.Length0, v.Length1, v.Length2)
  }

  predicate InArray(p: Point, d: Dims)
  {
    0 <= p.x < d.nx && 0 <= p.y < d.ny && 0 <= p.z < d.nz
  }

  /** `is_within_bounds`: at least `radius` voxels from every face, half-open at the top. */
  predicate IsWithinBounds(p: Point, d: Dims, radius: int)
  {
    && radius <= p.x < d.nx - radius
    && radius <= p.y < d.ny - radius
    && radius <= p.z < d.nz - radius
  }

  /** `is_within_pipe`: an inclusive squared-distance test on (y, z); x plays no part. */
  predicate IsWithinPipe(p: Point, centerY: int, centerZ: int, pipeRadius: int)
  {
    (p.y - centerY) * (p.y - centerY) + (p.z - centerZ) * (p.z - centerZ) <= pipeRadius * pipeRadius
  }

  /** The pipe test about the centre every caller computes, `(shape[1] // 2, shape[2] // 2)`. */
  predicate InPipe(p: Point, d: Dims, pipeRadius: int)
  {
    IsWithinPipe(p, d.ny / 2, d.nz / 2, pipeRadius)
  }

  /** The loop range `range(-r, r + 1)` on each axis. */
  predicate InCube(dx: int, dy: int, dz: int, r: int)
  {
    -r <= dx <= r && -r <= dy <= r && -r <= dz <= r
  }

  /** The discrete ball test `dx**2 + dy**2 + dz**2 <= r**2`. */
  predicate InBall(dx: int, dy: int, dz: int, r: int)
  {
    dx * dx + dy * dy + dz * dz <= r * r
  }

  function Shift(c: Point, dx: int, dy: int, dz: int): Point
  {
    Point(c.x + dx, c.y + dy, c.z + dz)
  }

  /** The voxels a sphere of radius r at c touches: ball offsets whose voxel is in the pipe. */
  predicate InStamp(c: Point, r: int, d: Dims, pipeRadius: int, q: Point)
  {
    InCube(q.x - c.x, q.y - c.y, q.z - c.z, r) && InBall(q.x - c.x, q.y - c.y, q.z - c.z, r) && InPipe(q, d, pipeRadius)
  }

  /** Every voxel that testing or writing a sphere at c indexes lies in the array
      (the sphere routines index those voxels without a range check). */
  ghost predicate BallFits(c: Point, r: int, d: Dims, pipeRadius: int)
  {
    forall dx, dy, dz | InCube(dx, dy, dz, r) && InBall(dx, dy, dz, r) && InPipe(Shift(c, dx, dy, dz), d, pipeRadius) ::
      InArray(Shift(c, dx, dy, dz), d)
  }

  lemma StampInArray(c: Point, r: int, d: Dims, pipeRadius: int, q: Point)
    requires BallFits(c, r, d, pipeRadius) && InStamp(c, r, d, pipeRadius, q)
    ensures InArray(q, d)
  {
    assert Shift(c, q.x - c.x, q.y - c.y, q.z - c.z) == q;
  }

  lemma SquareMono(r: int, a: int)
    requires 0 <= r < a
    ensures r * r < a * a
  {
    assert r * r <= r * a < a * a;
  }

  lemma SquareBound(a: int, r: int)
    requires 0 <= r
    ensures a * a <= r * r ==> -r <= a <= r
  {
    if a > r {
      SquareMono(r, a);
    } else if a < -r {
      SquareMono(r, -a);
    }
  }

  /** The cube loop misses no voxel of the ball. */
  lemma BallInsideCube(dx: int, dy: int, dz: int, r: nat)
    requires InBall(dx, dy, dz, r)
    ensures InCube(dx, dy, dz, r)
  {
    assert dx * dx >= 0 && dy * dy >= 0 && dz * dz >= 0;
    SquareBound(dx, r);
    SquareBound(dy, r);
    SquareBound(dz, r);
  }

  /** The margin test with margin r holds exactly when every voxel of the discrete
      ball of radius r about p lies in the array. */
  lemma BoundsIffBallInArray(p: Point, d: Dims, r: int)
    requires 0 <= r
    ensures IsWithinBounds(p, d, r) <==>
      forall dx, dy, dz | InCube(dx, dy, dz, r) && InBall(dx, dy, dz, r) :: InArray(Shift(p, dx, dy, dz), d)
  {
    if forall dx, dy, dz | InCube(dx, dy, dz, r) && InBall(dx, dy, dz, r) :: InArray(Shift(p, dx, dy, dz), d) {
      assert InBall(r, 0, 0, r) && InBall(-r, 0, 0, r);
      assert InArray(Shift(p, r, 0, 0), d) && InArray(Shift(p, -r, 0, 0), d);
      assert InBall(0, r, 0, r) && InBall(0, -r, 0, r);
      assert InArray(Shift(p, 0, r, 0), d) && InArray(Shift(p, 0, -r, 0), d);
      assert InBall(0, 0, r, r) && InBall(0, 0, -r, r);
      assert InArray(Shift(p, 0, 0, r), d) && InArray(Shift(p, 0, 0, -r), d);
    }
  }

  /** The check `is_within_bounds(p, shape, r)` that precedes every sphere test makes the
      sphere's indices safe. */
  lemma BoundsGiveBallFits(p: Point, d: Dims, r: nat, pipeRadius: int)
    requires IsWithinBounds(p, d, r)
    ensures BallFits(p, r, d, pipeRadius)
  {
    BoundsIffBallInArray(p, d, r);
  }

  // ----- can_place_sphere -------------------------------------------------

  /** One voxel of a candidate sphere is acceptable: inside the pipe and not fibre.
      The voxel is read only when it is inside the pipe, as `or` short-circuits. */
  predicate SiteClear(v: array3<real>, q: Point, pipeRadius: int, fiber: real)
    reads v
    requires InPipe(q, Shape(v), pipeRadius) ==> InArray(q, Shape(v))
  {
    InPipe(q, Shape(v), pipeRadius) && v[q.x, q.y, q.z] != fiber
  }

  /** `can_place_sphere`: every ball voxel about c is in the pipe and holds no fibre. */
  ghost predicate SphereClear(v: array3<real>, c: Point, r: int, pipeRadius: int, fiber: real)
    reads v
    requires BallFits(c, r, Shape(v), pipeRadius)
  {
    forall dx, dy, dz | InCube(dx, dy, dz, r) && InBall(dx, dy, dz, r) :: SiteClear(v, Shift(c, dx, dy, dz), pipeRadius, fiber)
  }

  /** The triple loop of `can_place_sphere`, with its early `return False`. It only reads. */
  method CanPlaceSphere(v: array3<real>, c: Point, radius: nat, pipeRadius: int, fiber: real) returns (ok: bool)
    requires BallFits(c, radius, Shape(v), pipeRadius)
    ensures ok == SphereClear(v, c, radius, pipeRadius, fiber)
  {
    var r: int := radius;
    var dx := -r;
    while dx <= r
      invariant -r <= dx <= r + 1
      invariant forall ex, ey, ez | -r <= ex < dx && -r <= ey <= r && -r <= ez <= r && InBall(ex, ey, ez, r) ::
        SiteClear(v, Shift(c, ex, ey, ez), pipeRadius, fiber)
    {
      var dy := -r;
      while dy <= r
        invariant -r <= dy <= r + 1
        invariant forall ex, ey, ez | -r <= ex < dx && -r <= ey <= r && -r <= ez <= r && InBall(ex, ey, ez, r) ::
          SiteClear(v, Shift(c, ex, ey, ez), pipeRadius, fiber)
        invariant forall ey, ez | -r <= ey < dy && -r <= ez <= r && InBall(dx, ey, ez, r) ::
          SiteClear(v, Shift(c, dx, ey, ez), pipeRadius, fiber)
      {
        var dz := -r;
        while dz <= r
          invariant -r <= dz <= r + 1
          invariant forall ex, ey, ez | -r <= ex < dx && -r <= ey <= r && -r <= ez <= r && InBall(ex, ey, ez, r) ::
            SiteClear(v, Shift(c, ex, ey, ez), pipeRadius, fiber)
          invariant forall ey, ez | -r <= ey < dy && -r <= ez <= r && InBall(dx, ey, ez, r) ::
            SiteClear(v, Shift(c, dx, ey, ez), pipeRadius, fiber)
          invariant forall ez | -r <= ez < dz && InBall(dx, dy, ez, r) ::
            SiteClear(v, Shift(c, dx, dy, ez), pipeRadius, fiber)
        {
          if dx * dx + dy * dy + dz * dz <= r * r {
            var q := Shift(c, dx, dy, dz);
            if !IsWithinPipe(q, v.Length1 / 2, v.Length2 / 2, pipeRadius) || v[q.x, q.y, q.z] == fiber {
              assert !SiteClear(v, q, pipeRadius, fiber);
              return false;
            }
          }
          dz := dz + 1;
        }
        dy := dy + 1;
      }
      dx := dx + 1;
    }
    return true;
  }

  /** `is_within_bounds(p, shape, r) and is_within_pipe(p, ...)`: the check a start point must pass. */
  predicate ValidStart(p: Point, d: Dims, radius: int, pipeRadius: int)
  {
    IsWithinBounds(p, d, radius) && InPipe(p, d, pipeRadius)
  }

  /** The three-way check a grown point must pass: bounds, pipe, and a clear sphere in
      the volume as it stands. The bounds test comes first and makes the sphere's
      indices safe. */
  ghost predicate Acceptable(v: array3<real>, p: Point, radius: nat, pipeRadius: int, fiber: real)
    reads v
  {
    && ValidStart(p, Shape(v), radius, pipeRadius)
    && (BoundsGiveBallFits(p, Shape(v), radius, pipeRadius); SphereClear(v, p, radius, pipeRadius, fiber))
  }

  /** The checks in the source's order; the sphere scan runs only after the bounds
      and pipe tests pass, as Python's short-circuit `and` does. */
  method CheckPoint(v: array3<real>, p: Point, radius: nat, pipeRadius: int, fiber: real) returns (ok: bool)
    ensures ok == Acceptable(v, p, radius, pipeRadius, fiber)
  {
    ok := IsWithinBounds(p, Shape(v), radius) && IsWithinPipe(p, Shape(v).ny / 2, Shape(v).nz / 2, pipeRadius);
    if ok {
      BoundsGiveBallFits(p, Shape(v), radius, pipeRadius);
      ok := CanPlaceSphere(v, p, radius, pipeRadius, fiber);
    }
  }

  /** Every voxel an accepted point's sphere would write is in the array and held no
      fibre when the point was accepted; and that sphere is the whole ball. */
  lemma AcceptableStamp(v: array3<real>, p: Point, radius: nat, pipeRadius: int, fiber: real, q: Point)
    requires Acceptable(v, p, radius, pipeRadius, fiber)
    ensures InStamp(p, radius, Shape(v), pipeRadius, q) ==> InArray(q, Shape(v)) && v[q.x, q.y, q.z] != fiber
    ensures InBall(q.x - p.x, q.y - p.y, q.z - p.z, radius) ==> InStamp(p, radius, Shape(v), pipeRadius, q)
  {
    BoundsGiveBallFits(p, Shape(v), radius, pipeRadius);
    var dx, dy, dz := q.x - p.x, q.y - p.y, q.z - p.z;
    assert Shift(p, dx, dy, dz) == q;
    if InBall(dx, dy, dz, radius) {
      BallInsideCube(dx, dy, dz, radius);
      assert SiteClear(v, Shift(p, dx, dy, dz), pipeRadius, fiber);
    }
  }

  /** The same three-way check against a volume given by value (`vol` maps voxel
      positions to codes): a volume the array held at some earlier moment can be
      named this way after the array has moved on. */
  ghost predicate AcceptableIn(vol: imap<Point, real>, d: Dims, p: Point, radius: nat, pipeRadius: int, fiber: real)
  {
    && ValidStart(p, d, radius, pipeRadius)
    && forall dx, dy, dz | InCube(dx, dy, dz, radius) && InBall(dx, dy, dz, radius) ::
         InPipe(Shift(p, dx, dy, dz), d, pipeRadius) && Shift(p, dx, dy, dz) in vol && vol[Shift(p, dx, dy, dz)] != fiber
  }

  /** The points a grown point may be: those that pass the checks against the array. */
  ghost function Accepts(v: array3<real>, radius: nat, pipeRadius: int, fiber: real): iset<Point>
    reads v
  {
    iset p | Acceptable(v, p, radius, pipeRadius, fiber)
  }

  /** The points that pass the checks against a volume given by value. */
  ghost function AcceptsIn(vol: imap<Point, real>, d: Dims, radius: nat, pipeRadius: int, fiber: real): iset<Point>
  {
    iset p | AcceptableIn(vol, d, p, radius, pipeRadius, fiber)
  }

  /** When `vol` agrees with the array on every voxel of the array, a point passes the
      checks against one exactly when it passes them against the other. */
  lemma AcceptsAgree(v: array3<real>, vol: imap<Point, real>, radius: nat, pipeRadius: int, fiber: real)
    requires forall q | InArray(q, Shape(v)) :: q in vol && vol[q] == v[q.x, q.y, q.z]
    ensures Accepts(v, radius, pipeRadius, fiber) == AcceptsIn(vol, Shape(v), radius, pipeRadius, fiber)
  {
    var d := Shape(v);
    forall p ensures Acceptable(v, p, radius, pipeRadius, fiber) <==> AcceptableIn(vol, d, p, radius, pipeRadius, fiber) {
      if ValidStart(p, d, radius, pipeRadius) {
        BoundsGiveBallFits(p, d, radius, pipeRadius);
        forall dx, dy, dz | InCube(dx, dy, dz, radius) && InBall(dx, dy, dz, radius)
          ensures SiteClear(v, Shift(p, dx, dy, dz), pipeRadius, fiber) <==>
                  (InPipe(Shift(p, dx, dy, dz), d, pipeRadius) && Shift(p, dx, dy, dz) in vol && vol[Shift(p, dx, dy, dz)] != fiber)
        {
        }
      }
    }
  }

  // ----- the in-place kernel ----------------------------------------------

  predicate InBox(lo: Point, hi: Point, q: Point)
  {
    lo.x <= q.x < hi.x && lo.y <= q.y < hi.y && lo.z <= q.z < hi.z
  }

  predicate BoxInArray(lo: Point, hi: Point, d: Dims)
  {
    0 <= lo.x <= hi.x <= d.nx && 0 <= lo.y <= hi.y <= d.ny && 0 <= lo.z <= hi.z <= d.nz
  }

  /** One z-run of a box: v[x, y, z] := f(.., v[x, y, z]) for z0 <= z < z1. */
  method PaintRun(v: array3<real>, x: int, y: int, z0: int, z1: int, f: (Point, real) -> real)
    requires 0 <= x < v.Length0 && 0 <= y < v.Length1 && 0 <= z0 <= z1 <= v.Length2
    modifies v
    ensures forall i, j, k | 0 <= i < v.Length0 && 0 <= j < v.Length1 && 0 <= k < v.Length2 ::
      v[i, j, k] == if i == x && j == y && z0 <= k < z1 then f(Point(i, j, k), old(v[i, j, k])) else old(v[i, j, k])
  {
    var z := z0;
    while z < z1
      invariant z0 <= z <= z1
      invariant forall i, j, k | 0 <= i < v.Length0 && 0 <= j < v.Length1 && 0 <= k < v.Length2 ::
        v[i, j, k] == if i == x && j == y && z0 <= k < z then f(Point(i, j, k), old(v[i, j, k])) else old(v[i, j, k])
    {
      v[x, y, z] := f(Point(x, y, z), v[x, y, z]);
      z := z + 1;
    }
  }

  /** One x-slice of a box. */
  method PaintSlice(v: array3<real>, x: int, lo: Point, hi: Point, f: (Point, real) -> real)
    requires 0 <= x < v.Length0 && BoxInArray(lo, hi, Shape(v))
    modifies v
    ensures forall i, j, k | 0 <= i < v.Length0 && 0 <= j < v.Length1 && 0 <= k < v.Length2 ::
      v[i, j, k] == if i == x && lo.y <= j < hi.y && lo.z <= k < hi.z then f(Point(i, j, k), old(v[i, j, k])) else old(v[i, j, k])
  {
    var y := lo.y;
    while y < hi.y
      invariant lo.y <= y <= hi.y
      invariant forall i, j, k | 0 <= i < v.Length0 && 0 <= j < v.Length1 && 0 <= k < v.Length2 ::
        v[i, j, k] == if i == x && lo.y <= j < y && lo.z <= k < hi.z then f(Point(i, j, k), old(v[i, j, k])) else old(v[i, j, k])
    {
      PaintRun(v, x, y, lo.z, hi.z, f);
      y := y + 1;
    }
  }

  /** The triple loop shared by every writer: each voxel of the half-open box
      [lo, hi) is visited once and rewritten to f of its position and its value. */
  method Paint(v: array3<real>, lo: Point, hi: Point, f: (Point, real) -> real)
    requires BoxInArray(lo, hi, Shape(v))
    modifies v
    ensures forall i, j, k | 0 <= i < v.Length0 && 0 <= j < v.Length1 && 0 <= k < v.Length2 ::
      v[i, j, k] == if InBox(lo, hi, Point(i, j, k)) then f(Point(i, j, k), old(v[i, j, k])) else old(v[i, j, k])
  {
    var x := lo.x;
    while x < hi.x
      invariant lo.x <= x <= hi.x
      invariant forall i, j, k | 0 <= i < v.Length0 && 0 <= j < v.Length1 && 0 <= k < v.Length2 ::
        v[i, j, k] == if lo.x <= i < x && lo.y <= j < hi.y && lo.z <= k < hi.z then f(Point(i, j, k), old(v[i, j, k])) else old(v[i, j, k])
    {
      PaintSlice(v, x, lo, hi, f);
      x := x + 1;
    }
  }

  function Clip(a: int, n: nat): (b: int)
    ensures 0 <= b <= n
    ensures 0 <= a <= n ==> b == a
  {
    if a < 0 then 0 else if a > n then n else a
  }

  /** Writes `value` into the sphere of radius r at c, restricted to the pipe and to the
      array (the voxels outside the array are skipped, as the range-checked void writer does). */
  method Stamp(v: array3<real>, c: Point, r: nat, pipeRadius: int, value: real)
    modifies v
    ensures forall i, j, k | 0 <= i < v.Length0 && 0 <= j < v.Length1 && 0 <= k < v.Length2 ::
      v[i, j, k] == if InStamp(c, r, Shape(v), pipeRadius, Point(i, j, k)) then value else old(v[i, j, k])
  {
    var d := Shape(v);
    var lo := Point(Clip(c.x - r, d.nx), Clip(c.y - r, d.ny), Clip(c.z - r, d.nz));
    var hi := Point(Clip(c.x + r + 1, d.nx), Clip(c.y + r + 1, d.ny), Clip(c.z + r + 1, d.nz));
    Paint(v, lo, hi, (q: Point, a: real) => if InStamp(c, r, d, pipeRadius, q) then value else a);
  }

  /** `add_voxel_sphere_to_volume`: exactly the ball voxels about c that lie in the
      pipe become `intensity`; nothing else changes. The source indexes them unchecked. */
  method AddVoxelSphereToVolume(v: array3<real>, c: Point, radius: nat, pipeRadius: int, intensity: real)
    requires BallFits(c, radius, Shape(v), pipeRadius)
    modifies v
    ensures forall i, j, k | 0 <= i < v.Length0 && 0 <= j < v.Length1 && 0 <= k < v.Length2 ::
      v[i, j, k] == if InStamp(c, radius, Shape(v), pipeRadius, Point(i, j, k)) then intensity else old(v[i, j, k])
  {
    Stamp(v, c, radius, pipeRadius, intensity);
  }

  /** Some sphere about one of `centers` touches q. */
  predicate Covered(centers: seq<Point>, r: int, d: Dims, pipeRadius: int, q: Point)
  {
    && |centers| > 0
    && (Covered(centers[..|centers| - 1], r, d, pipeRadius, q) || InStamp(centers[|centers| - 1], r, d, pipeRadius, q))
  }

  lemma {:induction false} CoveredIff(centers: seq<Point>, r: int, d: Dims, pipeRadius: int, q: Point)
    ensures Covered(centers, r, d, pipeRadius, q) <==> exists n | 0 <= n < |centers| :: InStamp(centers[n], r, d, pipeRadius, q)
  {
    if |centers| > 0 {
      var init := centers[..|centers| - 1];
      CoveredIff(init, r, d, pipeRadius, q);
      if Covered(init, r, d, pipeRadius, q) {
        var n :| 0 <= n < |init| && InStamp(init[n], r, d, pipeRadius, q);
        assert centers[n] == init[n];
      }
      if exists n | 0 <= n < |centers| :: InStamp(centers[n], r, d, pipeRadius, q) {
        var n :| 0 <= n < |centers| && InStamp(centers[n], r, d, pipeRadius, q);
        if n < |init| {
          assert init[n] == centers[n];
        }
      }
    }
  }

  lemma CoveredSnoc(centers: seq<Point>, c: Point, r: int, d: Dims, pipeRadius: int, q: Point)
    ensures Covered(centers + [c], r, d, pipeRadius, q) == (Covered(centers, r, d, pipeRadius, q) || InStamp(c, r, d, pipeRadius, q))
  {
    assert (centers + [c])[..|centers|] == centers;
  }

  /** `update_volume_with_filament`: the sphere writer applied point by point. */
  method UpdateVolumeWithFilament(v: array3<real>, filament: seq<Point>, radius: nat, pipeRadius: int, intensity: real)
    requires forall n | 0 <= n < |filament| :: BallFits(filament[n], radius, Shape(v), pipeRadius)
    modifies v
    ensures forall i, j, k | 0 <= i < v.Length0 && 0 <= j < v.Length1 && 0 <= k < v.Length2 ::
      v[i, j, k] == if Covered(filament, radius, Shape(v), pipeRadius, Point(i, j, k)) then intensity else old(v[i, j, k])
  {
    var n := 0;
    while n < |filament|
      invariant 0 <= n <= |filament|
      invariant forall i, j, k | 0 <= i < v.Length0 && 0 <= j < v.Length1 && 0 <= k < v.Length2 ::
        v[i, j, k] == if Covered(filament[..n], radius, Shape(v), pipeRadius, Point(i, j, k)) then intensity else old(v[i, j, k])
    {
      AddVoxelSphereToVolume(v, filament[n], radius, pipeRadius, intensity);
      assert filament[..n + 1] == filament[..n] + [filament[n]];
      forall q: Point {
        CoveredSnoc(filament[..n], filament[n], radius, Shape(v), pipeRadius, q);
      }
      n := n + 1;
    }
    assert filament[..n] == filament;
  }

  // ----- fill_pipe_with_resin ---------------------------------------------

  /** The rule applied to one voxel: air inside the pipe becomes resin. */
  function ResinFill(a: real, inPipe: bool): (b: real)
    ensures inPipe ==> b != AIR
    ensures b != a ==> inPipe && a == AIR && b == RESIN
  {
    if a == AIR && inPipe then RESIN else a
  }

  lemma ResinFillIdempotent(a: real, inPipe: bool)
    ensures ResinFill(ResinFill(a, inPipe), inPipe) == ResinFill(a, inPipe)
  {
  }

  /** `fill_pipe_with_resin`: a full scan that turns every in-pipe air voxel into resin. */
  method FillPipeWithResin(v: array3<real>, pipeRadius: int)
    modifies v
    ensures forall i, j, k | 0 <= i < v.Length0 && 0 <= j < v.Length1 && 0 <= k < v.Length2 ::
      v[i, j, k] == ResinFill(old(v[i, j, k]), InPipe(Point(i, j, k), Shape(v), pipeRadius))
  {
    var d := Shape(v);
    Paint(v, Point(0, 0, 0), Point(d.nx, d.ny, d.nz),
          (q: Point, a: real) => if a == AIR && InPipe(q, d, pipeRadius) then RESIN else a);
  }

  // ----- np.argwhere(volume == value) -------------------------------------

  /** Row-major (C) order of voxel positions. */
  predicate LexLess(p: Point, q: Point)
  {
    p.x < q.x || (p.x == q.x && (p.y < q.y || (p.y == q.y && p.z < q.z)))
  }

  /** `np.argwhere(volume == value)`: the positions holding `value`, each once, in
      row-major order. The three ensures determine the sequence uniquely. */
  method ArgWhere(v: array3<real>, value: real) returns (ps: seq<Point>)
    ensures forall n | 0 <= n < |ps| :: InArray(ps[n], Shape(v)) && v[ps[n].x, ps[n].y, ps[n].z] == value
    ensures forall i, j, k | 0 <= i < v.Length0 && 0 <= j < v.Length1 && 0 <= k < v.Length2 && v[i, j, k] == value ::
      Point(i, j, k) in ps
    ensures forall m, n | 0 <= m < n < |ps| :: LexLess(ps[m], ps[n])
  {
    ps := [];
    var x := 0;
    while x < v.Length0
      invariant 0 <= x <= v.Length0
      invariant forall n | 0 <= n < |ps| :: InArray(ps[n], Shape(v)) && v[ps[n].x, ps[n].y, ps[n].z] == value && ps[n].x < x
      invariant forall i, j, k | 0 <= i < x && 0 <= j < v.Length1 && 0 <= k < v.Length2 && v[i, j, k] == value ::
        Point(i, j, k) in ps
      invariant forall m, n | 0 <= m < n < |ps| :: LexLess(ps[m], ps[n])
    {
      ps := ArgWhereSlice(v, value, x, ps);
      x := x + 1;
    }
  }

  method ArgWhereSlice(v: array3<real>, value: real, x: int, ps0: seq<Point>) returns (ps: seq<Point>)
    requires 0 <= x < v.Length0
    requires forall n | 0 <= n < |ps0| :: InArray(ps0[n], Shape(v)) && v[ps0[n].x, ps0[n].y, ps0[n].z] == value && ps0[n].x < x
    requires forall m, n | 0 <= m < n < |ps0| :: LexLess(ps0[m], ps0[n])
    ensures forall n | 0 <= n < |ps| :: InArray(ps[n], Shape(v)) && v[ps[n].x, ps[n].y, ps[n].z] == value && ps[n].x <= x
    ensures forall j, k | 0 <= j < v.Length1 && 0 <= k < v.Length2 && v[x, j, k] == value :: Point(x, j, k) in ps
    ensures forall i, j, k | 0 <= i < x && 0 <= j < v.Length1 && 0 <= k < v.Length2 && Point(i, j, k) in ps0 ::
      Point(i, j, k) in ps
    ensures forall m, n | 0 <= m < n < |ps| :: LexLess(ps[m], ps[n])
    ensures ps0 <= ps
  {
    ps := ps0;
    var y := 0;
    while y < v.Length1
      invariant 0 <= y <= v.Length1
      invariant ps0 <= ps
      invariant forall n | 0 <= n < |ps| ::
        (InArray(ps[n], Shape(v)) && v[ps[n].x, ps[n].y, ps[n].z] == value && (ps[n].x < x || (ps[n].x == x && ps[n].y < y)))
      invariant forall j, k | 0 <= j < y && 0 <= k < v.Length2 && v[x, j, k] == value :: Point(x, j, k) in ps
      invariant forall m, n | 0 <= m < n < |ps| :: LexLess(ps[m], ps[n])
    {
      var z := 0;
      while z < v.Length2
        invariant 0 <= z <= v.Length2
        invariant ps0 <= ps
        invariant forall n | 0 <= n < |ps| ::
          (InArray(ps[n], Shape(v)) && v[ps[n].x, ps[n].y, ps[n].z] == value && LexLess(ps[n], Point(x, y, z)))
        invariant forall j, k | 0 <= j < y && 0 <= k < v.Length2 && v[x, j, k] == value :: Point(x, j, k) in ps
        invariant forall k | 0 <= k < z && v[x, y, k] == value :: Point(x, y, k) in ps
        invariant forall m, n | 0 <= m < n < |ps| :: LexLess(ps[m], ps[n])
      {
        if v[x, y, z] == value {
          ps := ps + [Point(x, y, z)];
        }
        z := z + 1;
      }
      y := y + 1;
    }
    forall i, j, k | 0 <= i < x && 0 <= j < v.Length1 && 0 <= k < v.Length2 && Point(i, j, k) in ps0
      ensures Point(i, j, k) in ps
    {
      var n :| 0 <= n < |ps0| && ps0[n] == Point(i, j, k);
      assert ps[n] == ps0[n];
    }
  }
}
