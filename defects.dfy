/** The defect shapes cut into a finished phantom. Every defect zeros a region in
    place, one parameter set after another; a double defect also cuts the copy of
    its shape mirrored about the array centre in x and y. Each parameter set is
    described by the primitive regions (`Cut`s) it zeros, and applying a defect
    sets exactly the union of its cuts to 0. */
module Defects {
  import opened Wrappers
  import opened Voxels

  /** One entry of the `params` list: the keys the defects read. Each defect reads
      only its own keys. */
  datatype ParamSet = ParamSet(
    holeCenter: (real, real), holeRadius: real,
    squareNotchCenter: (real, real), squareNotchWh: real,
    vNotchCenter: (real, real), vNotchHeight: real, vNotchWidth: real,
    reducedCenter: (real, real), reducedRadius: real, reducedSliceThickness: int)

  datatype DefectKind = Hole | SquareNotch | DoubleSquareNotch | VNotch | DoubleVNotch | Reduced | NoDefect

  datatype Defect = Defect(kind: DefectKind, params: seq<ParamSet>)

  // ----- the name dispatch ---------------------------------------------------

  function KindName(k: DefectKind): string
  {
    match k
    case Hole => "hole"
    case SquareNotch => "square_notch"
    case DoubleSquareNotch => "double_square_notch"
    case VNotch => "v_notch"
    case DoubleVNotch => "double_v_notch"
    case Reduced => "reduced"
    case NoDefect => "none"
  }

  /** `DefectGenerator(defect_type, params=...)`: seven accepted names, ValueError otherwise. */
  function MakeDefect(defectType: string, params: seq<ParamSet>): (r: Result<Defect>)
    ensures r.Success? <==>
      defectType in {"hole", "square_notch", "double_square_notch", "v_notch", "double_v_notch", "reduced", "none"}
    ensures r.Failure? ==> r.error.ValueError?
    ensures r.Success? ==> KindName(r.value.kind) == defectType && r.value.params == params
  {
    if defectType == "hole" then Success(Defect(Hole, params))
    else if defectType == "square_notch" then Success(Defect(SquareNotch, params))
    else if defectType == "double_square_notch" then Success(Defect(DoubleSquareNotch, params))
    else if defectType == "v_notch" then Success(Defect(VNotch, params))
    else if defectType == "double_v_notch" then Success(Defect(DoubleVNotch, params))
    else if defectType == "reduced" then Success(Defect(Reduced, params))
    else if defectType == "none" then Success(Defect(NoDefect, params))
    else Failure(ValueError("Unknown type: " + defectType))
  }

  /** The dispatch inverts `KindName`: each kind is reached by exactly one name. */
  lemma MakeDefectKindName(k: DefectKind, params: seq<ParamSet>)
    ensures MakeDefect(KindName(k), params) == Success(Defect(k, params))
  {
  }

  // ----- primitive regions ---------------------------------------------------

  function Abs(a: real): real { if a < 0.0 then -a else a }

  /** A region, the same in every z-slice except for the slab. */
  datatype Cut =
    | Disc(cx: real, cy: real, r: real)
    | Square(cx: real, cy: real, hw: real)
    | Wedge(cx: real, cy: real, h: real, hw: real)
    | Slab(x0: int, x1: int, cy: real, cz: real, r: real)

  /** The wedge test `|x-xc| <= h and |y-yc| <= hw * (1 - |x-xc| / h)`. A zero height
      would divide by zero on the row x == xc; `CutDefined` rules that out, and the
      `h != 0` conjunct only keeps the predicate total. */
  predicate InWedge(cx: real, cy: real, h: real, hw: real, x: int, y: int)
  {
    var ax := Abs(x as real - cx);
    ax <= h && h != 0.0 && Abs(y as real - cy) <= hw * (1.0 - ax / h)
  }

  predicate InCut(c: Cut, q: Point)
  {
    var x := q.x as real;
    var y := q.y as real;
    match c
    case Disc(cx, cy, r) => (x - cx) * (x - cx) + (y - cy) * (y - cy) <= r * r
    case Square(cx, cy, hw) => Abs(x - cx) <= hw && Abs(y - cy) <= hw
    case Wedge(cx, cy, h, hw) => InWedge(cx, cy, h, hw, q.x, q.y)
    case Slab(x0, x1, cy, cz, r) =>
      x0 <= q.x < x1 && (y - cy) * (y - cy) + (q.z as real - cz) * (q.z as real - cz) > r * r
  }

  /** The source raises instead of cutting: a wedge of height 0 over a row of the array
      (ZeroDivisionError), or a slab reaching outside [0, Nx), where numpy would wrap a
      negative index or raise IndexError. */
  predicate CutDefined(c: Cut, d: Dims)
  {
    match c
    case Wedge(cx, _, h, _) => h != 0.0 || d.ny == 0 || cx.Floor as real != cx || !(0 <= cx.Floor < d.nx)
    case Slab(x0, x1, _, _, _) => x1 <= x0 || (0 <= x0 && x1 <= d.nx) || d.ny == 0 || d.nz == 0
    case _ => true
  }

  /** The mirror image `p -> dim - 1 - p` in x and y; z is kept. */
  function Mirror(q: Point, d: Dims): Point
  {
    Point(d.nx - 1 - q.x, d.ny - 1 - q.y, q.z)
  }

  function MirrorX(cx: real, d: Dims): real { d.nx as real - cx - 1.0 }
  function MirrorY(cy: real, d: Dims): real { d.ny as real - cy - 1.0 }

  /** The slab rows `range(Nx // 2 - t // 2, Nx // 2 + t // 2 + 1)`, with floor division. */
  function SlabStart(d: Dims, t: int): int { d.nx / 2 - t / 2 }
  function SlabEnd(d: Dims, t: int): int { d.nx / 2 + t / 2 + 1 }

  /** The regions one parameter set of a defect zeros. */
  function CutsOf(k: DefectKind, p: ParamSet, d: Dims): (cs: seq<Cut>)
    ensures |cs| <= 2
  {
    match k
    case Hole => [Disc(p.holeCenter.0, p.holeCenter.1, p.holeRadius)]
    case SquareNotch => [Square(p.squareNotchCenter.0, p.squareNotchCenter.1, p.squareNotchWh)]
    case DoubleSquareNotch =>
      var (cx, cy) := p.squareNotchCenter;
      [Square(cx, cy, p.squareNotchWh), Square(MirrorX(cx, d), MirrorY(cy, d), p.squareNotchWh)]
    case VNotch => [Wedge(p.vNotchCenter.0, p.vNotchCenter.1, p.vNotchHeight, p.vNotchWidth / 2.0)]
    case DoubleVNotch =>
      var (cx, cy) := p.vNotchCenter;
      var hw := p.vNotchWidth / 2.0;
      [Wedge(cx, cy, p.vNotchHeight, hw), Wedge(MirrorX(cx, d), MirrorY(cy, d), p.vNotchHeight, hw)]
    case Reduced =>
      var t := p.reducedSliceThickness;
      [Slab(SlabStart(d, t), SlabEnd(d, t), p.reducedCenter.0, p.reducedCenter.1, p.reducedRadius)]
    case NoDefect => []
  }

  /** The cuts of all parameter sets, in the order they are applied. */
  function AllCuts(k: DefectKind, ps: seq<ParamSet>, d: Dims): seq<Cut>
  {
    if |ps| == 0 then [] else AllCuts(k, ps[..|ps| - 1], d) + CutsOf(k, ps[|ps| - 1], d)
  }

  predicate Zeroed(cuts: seq<Cut>, q: Point)
  {
    exists n | 0 <= n < |cuts| :: InCut(cuts[n], q)
  }

  /** The value a voxel holds after the cuts: 0 inside their union, unchanged outside. */
  function AfterCuts(cuts: seq<Cut>, q: Point, a: real): real
  {
    if Zeroed(cuts, q) then AIR else a
  }

  ghost predicate DefectDefined(df: Defect, d: Dims)
  {
    forall c | c in AllCuts(df.kind, df.params, d) :: CutDefined(c, d)
  }

  // ----- properties of the regions -------------------------------------------

  lemma ZeroedAppend(a: seq<Cut>, b: seq<Cut>, q: Point)
    ensures Zeroed(a + b, q) <==> Zeroed(a, q) || Zeroed(b, q)
  {
    if Zeroed(a + b, q) {
      var n :| 0 <= n < |a + b| && InCut((a + b)[n], q);
      if n >= |a| {
        assert b[n - |a|] == (a + b)[n];
      }
    }
    if Zeroed(a, q) {
      var n :| 0 <= n < |a| && InCut(a[n], q);
      assert (a + b)[n] == a[n];
      assert InCut((a + b)[n], q);
    }
    if Zeroed(b, q) {
      var n :| 0 <= n < |b| && InCut(b[n], q);
      assert (a + b)[|a| + n] == b[n];
      assert InCut((a + b)[|a| + n], q);
    }
  }

  lemma {:induction false} AllCutsAppend(k: DefectKind, ps: seq<ParamSet>, qs: seq<ParamSet>, d: Dims)
    ensures AllCuts(k, ps + qs, d) == AllCuts(k, ps, d) + AllCuts(k, qs, d)
    decreases |qs|
  {
    if |qs| == 0 {
      assert ps + qs == ps;
    } else {
      var init := qs[..|qs| - 1];
      assert (ps + qs)[..|ps + qs| - 1] == ps + init;
      assert (ps + qs)[|ps + qs| - 1] == qs[|qs| - 1];
      AllCutsAppend(k, ps, init, d);
    }
  }

  /** Several parameter sets zero the union of what each zeros alone. */
  lemma {:induction false} ZeroedUnion(k: DefectKind, ps: seq<ParamSet>, d: Dims, q: Point)
    ensures Zeroed(AllCuts(k, ps, d), q) <==> exists n | 0 <= n < |ps| :: Zeroed(CutsOf(k, ps[n], d), q)
    decreases |ps|
  {
    if |ps| > 0 {
      var init := ps[..|ps| - 1];
      ZeroedUnion(k, init, d, q);
      ZeroedAppend(AllCuts(k, init, d), CutsOf(k, ps[|ps| - 1], d), q);
      if exists n | 0 <= n < |ps| :: Zeroed(CutsOf(k, ps[n], d), q) {
        var n :| 0 <= n < |ps| && Zeroed(CutsOf(k, ps[n], d), q);
        if n < |init| {
          assert init[n] == ps[n];
        }
      }
      if exists n | 0 <= n < |init| :: Zeroed(CutsOf(k, init[n], d), q) {
        var n :| 0 <= n < |init| && Zeroed(CutsOf(k, init[n], d), q);
        assert ps[n] == init[n];
      }
    }
  }

  /** Applying cuts a and then cuts b is applying a + b: sequencing is union. */
  lemma AfterCutsCompose(a: seq<Cut>, b: seq<Cut>, q: Point, v: real)
    ensures AfterCuts(b, q, AfterCuts(a, q, v)) == AfterCuts(a + b, q, v)
  {
    ZeroedAppend(a, b, q);
  }

  /** Applying the same cuts twice is applying them once. */
  lemma AfterCutsIdempotent(cuts: seq<Cut>, q: Point, v: real)
    ensures AfterCuts(cuts, q, AfterCuts(cuts, q, v)) == AfterCuts(cuts, q, v)
  {
  }

  /** NoDefect zeros nothing, whatever its parameters. */
  lemma {:induction false} NoDefectIdentity(ps: seq<ParamSet>, d: Dims, q: Point, v: real)
    ensures AfterCuts(AllCuts(NoDefect, ps, d), q, v) == v
    decreases |ps|
  {
    if |ps| > 0 {
      NoDefectIdentity(ps[..|ps| - 1], d, q, v);
    }
  }

  /** One hole zeros the full-height cylinder (x-cx)^2 + (y-cy)^2 <= r^2 and nothing else. */
  lemma HoleRegion(p: ParamSet, d: Dims, q: Point)
    ensures Zeroed(AllCuts(Hole, [p], d), q) <==>
      var (cx, cy) := p.holeCenter;
      (q.x as real - cx) * (q.x as real - cx) + (q.y as real - cy) * (q.y as real - cy) <= p.holeRadius * p.holeRadius
  {
    var cs := AllCuts(Hole, [p], d);
    assert cs == CutsOf(Hole, p, d);
    assert Zeroed(cs, q) <==> InCut(cs[0], q);
  }

  /** One square notch zeros |x-xc| <= hw and |y-yc| <= hw in every slice. */
  lemma SquareNotchRegion(p: ParamSet, d: Dims, q: Point)
    ensures Zeroed(AllCuts(SquareNotch, [p], d), q) <==>
      var (cx, cy) := p.squareNotchCenter;
      Abs(q.x as real - cx) <= p.squareNotchWh && Abs(q.y as real - cy) <= p.squareNotchWh
  {
    var cs := AllCuts(SquareNotch, [p], d);
    assert cs == CutsOf(SquareNotch, p, d);
    assert Zeroed(cs, q) <==> InCut(cs[0], q);
  }

  lemma MirrorAbs(a: int, n: int, c: real)
    ensures Abs((n - 1 - a) as real - (n as real - c - 1.0)) == Abs(a as real - c)
  {
  }

  lemma MirrorInvolution(q: Point, d: Dims)
    ensures Mirror(Mirror(q, d), d) == q
  {
  }

  /** A mirrored square covers exactly the mirror images of the square's voxels. */
  lemma SquareMirror(cx: real, cy: real, hw: real, d: Dims, q: Point)
    ensures InCut(Square(MirrorX(cx, d), MirrorY(cy, d), hw), q) <==> InCut(Square(cx, cy, hw), Mirror(q, d))
  {
    MirrorAbs(d.nx - 1 - q.x, d.nx, cx);
    MirrorAbs(d.ny - 1 - q.y, d.ny, cy);
  }

  lemma WedgeMirror(cx: real, cy: real, h: real, hw: real, d: Dims, q: Point)
    ensures InCut(Wedge(MirrorX(cx, d), MirrorY(cy, d), h, hw), q) <==> InCut(Wedge(cx, cy, h, hw), Mirror(q, d))
  {
    MirrorAbs(d.nx - 1 - q.x, d.nx, cx);
    MirrorAbs(d.ny - 1 - q.y, d.ny, cy);
  }

  /** The double square notch zeros a set symmetric under (x, y) -> (Nx-1-x, Ny-1-y). */
  lemma DoubleSquareNotchSymmetric(p: ParamSet, d: Dims, q: Point)
    ensures Zeroed(CutsOf(DoubleSquareNotch, p, d), q) <==> Zeroed(CutsOf(DoubleSquareNotch, p, d), Mirror(q, d))
  {
    var (cx, cy) := p.squareNotchCenter;
    var cs := CutsOf(DoubleSquareNotch, p, d);
    SquareMirror(cx, cy, p.squareNotchWh, d, q);
    SquareMirror(cx, cy, p.squareNotchWh, d, Mirror(q, d));
    MirrorInvolution(q, d);
    assert Zeroed(cs, q) <==> InCut(cs[0], q) || InCut(cs[1], q);
    assert Zeroed(cs, Mirror(q, d)) <==> InCut(cs[0], Mirror(q, d)) || InCut(cs[1], Mirror(q, d));
  }

  /** The double V-notch zeros a set symmetric under the same mirror. */
  lemma DoubleVNotchSymmetric(p: ParamSet, d: Dims, q: Point)
    ensures Zeroed(CutsOf(DoubleVNotch, p, d), q) <==> Zeroed(CutsOf(DoubleVNotch, p, d), Mirror(q, d))
  {
    var (cx, cy) := p.vNotchCenter;
    var hw := p.vNotchWidth / 2.0;
    var cs := CutsOf(DoubleVNotch, p, d);
    WedgeMirror(cx, cy, p.vNotchHeight, hw, d, q);
    WedgeMirror(cx, cy, p.vNotchHeight, hw, d, Mirror(q, d));
    MirrorInvolution(q, d);
    assert Zeroed(cs, q) <==> InCut(cs[0], q) || InCut(cs[1], q);
    assert Zeroed(cs, Mirror(q, d)) <==> InCut(cs[0], Mirror(q, d)) || InCut(cs[1], Mirror(q, d));
  }

  lemma MulMonotone(a: real, b: real, c: real)
    requires c >= 0.0 && a <= b
    ensures c * a <= c * b
  {
    assert c * b - c * a == c * (b - a);
  }

  /** The V-notch narrows towards its tip: a y inside the wedge at some row stays inside
      at every row nearer the centre row, and the tip row |x-xc| = h keeps only y = yc. */
  lemma WedgeNarrows(cx: real, cy: real, h: real, w: real, x1: int, x2: int, y: int)
    requires h > 0.0 && w >= 0.0
    requires Abs(x1 as real - cx) <= Abs(x2 as real - cx)
    requires InWedge(cx, cy, h, w / 2.0, x2, y)
    ensures InWedge(cx, cy, h, w / 2.0, x1, y)
    ensures Abs(x2 as real - cx) == h ==> y as real == cy
  {
    var a1 := Abs(x1 as real - cx);
    var a2 := Abs(x2 as real - cx);
    DivMonotoneReal(a1, a2, h);
    MulMonotone(1.0 - a2 / h, 1.0 - a1 / h, w / 2.0);
    if a2 == h {
      DivSelf(h);
      assert 1.0 - a2 / h == 0.0;
    }
  }

  lemma DivSelf(h: real)
    requires h > 0.0
    ensures h / h == 1.0
  {
  }

  lemma DivMonotoneReal(x: real, y: real, t: real)
    requires x <= y && t > 0.0
    ensures x / t <= y / t
  {
    assert y / t - x / t == (y - x) / t;
  }

  /** One V-notch of positive height zeros |x-xc| <= h and |y-yc| <= (w/2)(1-|x-xc|/h). */
  lemma VNotchRegion(p: ParamSet, d: Dims, q: Point)
    requires p.vNotchHeight > 0.0
    ensures Zeroed(AllCuts(VNotch, [p], d), q) <==>
      var (cx, cy) := p.vNotchCenter;
      var ax := Abs(q.x as real - cx);
      ax <= p.vNotchHeight && Abs(q.y as real - cy) <= p.vNotchWidth / 2.0 * (1.0 - ax / p.vNotchHeight)
  {
    var cs := AllCuts(VNotch, [p], d);
    assert cs == CutsOf(VNotch, p, d);
    assert Zeroed(cs, q) <==> InCut(cs[0], q);
  }

  /** The reduced slab zeros, in the 2 * (t // 2) + 1 rows about Nx // 2, the voxels
      strictly outside the circle about the centre in (y, z). */
  lemma ReducedRegion(p: ParamSet, d: Dims, q: Point)
    ensures SlabEnd(d, p.reducedSliceThickness) - SlabStart(d, p.reducedSliceThickness)
      == 2 * (p.reducedSliceThickness / 2) + 1
    ensures Zeroed(AllCuts(Reduced, [p], d), q) <==>
      var (cy, cz) := p.reducedCenter;
      var t := p.reducedSliceThickness;
      && d.nx / 2 - t / 2 <= q.x <= d.nx / 2 + t / 2
      && (q.y as real - cy) * (q.y as real - cy) + (q.z as real - cz) * (q.z as real - cz) > p.reducedRadius * p.reducedRadius
  {
    var cs := AllCuts(Reduced, [p], d);
    assert cs == CutsOf(Reduced, p, d);
    assert Zeroed(cs, q) <==> InCut(cs[0], q);
  }

  // ----- applying a defect in place ------------------------------------------

  /** The region one cut is confined to, clipped to the array: the slab rows for a
      slab, the whole array otherwise. */
  function CutBox(c: Cut, d: Dims): (box: (Point, Point))
    ensures BoxInArray(box.0, box.1, d)
    ensures forall q | InArray(q, d) && InCut(c, q) :: InBox(box.0, box.1, q)
  {
    match c
    case Slab(x0, x1, _, _, _) =>
      (Point(Clip(x0, d.nx), 0, 0), Point(Clip(if x1 < x0 then x0 else x1, d.nx), d.ny, d.nz))
    case _ => (Point(0, 0, 0), Point(d.nx, d.ny, d.nz))
  }

  /** Zeros one cut: the triple loop of one shape for one parameter set. */
  method ApplyCut(v: array3<real>, c: Cut)
    modifies v
    ensures forall i, j, k | 0 <= i < v.Length0 && 0 <= j < v.Length1 && 0 <= k < v.Length2 ::
      v[i, j, k] == if InCut(c, Point(i, j, k)) then AIR else old(v[i, j, k])
  {
    var box := CutBox(c, Shape(v));
    Paint(v, box.0, box.1, (q: Point, a: real) => if InCut(c, q) then AIR else a);
  }

  /** Zeros a list of cuts in order. */
  method ApplyCuts(v: array3<real>, cuts: seq<Cut>)
    modifies v
    ensures forall i, j, k | 0 <= i < v.Length0 && 0 <= j < v.Length1 && 0 <= k < v.Length2 ::
      v[i, j, k] == AfterCuts(cuts, Point(i, j, k), old(v[i, j, k]))
  {
    var n := 0;
    while n < |cuts|
      invariant 0 <= n <= |cuts|
      invariant forall i, j, k | 0 <= i < v.Length0 && 0 <= j < v.Length1 && 0 <= k < v.Length2 ::
        v[i, j, k] == AfterCuts(cuts[..n], Point(i, j, k), old(v[i, j, k]))
    {
      ApplyCut(v, cuts[n]);
      forall q: Point, a: real
        ensures AfterCuts([cuts[n]], q, AfterCuts(cuts[..n], q, a)) == AfterCuts(cuts[..n] + [cuts[n]], q, a)
      {
        AfterCutsCompose(cuts[..n], [cuts[n]], q, a);
      }
      assert cuts[..n + 1] == cuts[..n] + [cuts[n]];
      n := n + 1;
    }
    assert cuts[..n] == cuts;
  }

  /** `Defect.apply`: every parameter set in turn cuts its regions; afterwards exactly
      the union of all regions holds 0 and every other voxel is unchanged. */
  method ApplyDefect(v: array3<real>, df: Defect)
    requires DefectDefined(df, Shape(v))
    modifies v
    ensures forall i, j, k | 0 <= i < v.Length0 && 0 <= j < v.Length1 && 0 <= k < v.Length2 ::
      v[i, j, k] == AfterCuts(AllCuts(df.kind, df.params, Shape(v)), Point(i, j, k), old(v[i, j, k]))
  {
    var d := Shape(v);
    var n := 0;
    while n < |df.params|
      invariant 0 <= n <= |df.params|
      invariant forall i, j, k | 0 <= i < v.Length0 && 0 <= j < v.Length1 && 0 <= k < v.Length2 ::
        v[i, j, k] == AfterCuts(AllCuts(df.kind, df.params[..n], d), Point(i, j, k), old(v[i, j, k]))
    {
      var cuts := CutsOf(df.kind, df.params[n], d);
      ApplyCuts(v, cuts);
      assert df.params[..n + 1][..n] == df.params[..n];
      forall q: Point {
        ZeroedAppend(AllCuts(df.kind, df.params[..n], d), cuts, q);
      }
      n := n + 1;
    }
    assert df.params[..n] == df.params;
  }
}
