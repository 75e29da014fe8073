/** The point generators of the package: the mode dispatch, the generator state
    (the last suggested point and the growth-end flag), the start-point ranges,
    the turn-angle rules and the discrete half of a step (which end, subtract or
    add, round half to even). The unit direction a heading turns into, with its
    cosine, sine, normalisation and Gaussian jaggedness, is float maths and is
    supplied as a displacement per heading. */
module PointGenerators {
  import opened Wrappers
  import opened Voxels
  import opened Draws

  datatype Vec = Vec(x: real, y: real, z: real)

  function ToVec(p: Point): Vec
  {
    Vec(p.x as real, p.y as real, p.z as real)
  }

  function Add(a: Vec, b: Vec): Vec { Vec(a.x + b.x, a.y + b.y, a.z + b.z) }
  function Sub(a: Vec, b: Vec): Vec { Vec(a.x - b.x, a.y - b.y, a.z - b.z) }

  function Abs(a: real): real { if a < 0.0 then -a else a }

  // ----- numpy rounding ------------------------------------------------------

  /** `np.round` to an integer: the nearest integer, ties to the even one. */
  function RoundHalfEven(a: real): (n: int)
    ensures Abs(n as real - a) <= 0.5
    ensures Abs(n as real - a) == 0.5 ==> n % 2 == 0
  {
    var f := a.Floor;
    var frac := a - f as real;
    if frac < 0.5 then f
    else if frac > 0.5 then f + 1
    else if f % 2 == 0 then f
    else f + 1
  }

  /** The two ensures of `RoundHalfEven` single out its result. */
  lemma RoundHalfEvenUnique(a: real, n: int)
    requires Abs(n as real - a) < 0.5 || (Abs(n as real - a) == 0.5 && n % 2 == 0)
    ensures RoundHalfEven(a) == n
  {
    var m := RoundHalfEven(a);
    assert -1 <= m - n <= 1;
  }

  lemma RoundHalfEvenOfInteger(k: int)
    ensures RoundHalfEven(k as real) == k
  {
    RoundHalfEvenUnique(k as real, k);
  }

  function RoundVec(a: Vec): Point
  {
    Point(RoundHalfEven(a.x), RoundHalfEven(a.y), RoundHalfEven(a.z))
  }

  // ----- points with NaN coordinates ------------------------------------------

  /** A float64 coordinate: a number, or the NaN a division by zero leaves behind. */
  datatype Coord = Num(value: real) | NaN

  datatype FloatPoint = FloatPoint(x: Coord, y: Coord, z: Coord)

  function Exact(a: Vec): FloatPoint
  {
    FloatPoint(Num(a.x), Num(a.y), Num(a.z))
  }

  /** `np.round(c).astype(int)` of one coordinate. numpy leaves the integer a NaN
      casts to to the platform (the most negative 64-bit integer on x86-64), so it is
      the parameter `nanCast`. */
  function CastCoord(c: Coord, nanCast: int): int
  {
    match c
    case Num(a) => RoundHalfEven(a)
    case NaN => nanCast
  }

  function CastPoint(p: FloatPoint, nanCast: int): Point
  {
    Point(CastCoord(p.x, nanCast), CastCoord(p.y, nanCast), CastCoord(p.z, nanCast))
  }

  // ----- modes ---------------------------------------------------------------

  /** The three generators the dispatch can build, with their parameters. */
  datatype Mode =
    | CCurve(bendRadius: real, bendCenter: real, radius: real, jaggedness: real)
    | KinkCurve(bendCenter: real, transitionRange: real, returnCenter: real, returnTransitionRange: real,
                radius: real, jaggedness: real)
    | FullWaveCurve(waveCenter: real, waveRange: real, waveAmplitude: real, waveFrequency: real,
                    radius: real, jaggedness: real)

  /** The constructors' default parameters. */
  const DEFAULT_C_CURVE: Mode := CCurve(100.0, 250.0, 3.0, 0.1)
  const DEFAULT_KINK_CURVE: Mode := KinkCurve(250.0, 20.0, 270.0, 20.0, 3.0, 0.0)
  const DEFAULT_FULL_WAVE_CURVE: Mode := FullWaveCurve(250.0, 100.0, 0.0, 2.0, 3.0, 0.0)

  function ModeName(m: Mode): string
  {
    match m
    case CCurve(_, _, _, _) => "c_curve"
    case KinkCurve(_, _, _, _, _, _) => "kink_curve"
    case FullWaveCurve(_, _, _, _, _, _) => "full_wave_curve"
  }

  /** The keyword parameters each generator's constructor takes. */
  function ParamNames(name: string): set<string>
  {
    if name == "c_curve" then {"bend_radius", "bend_center", "radius", "jaggedness_factor"}
    else if name == "kink_curve" then
      {"bend_center", "transition_range", "return_center", "return_transition_range", "radius", "jaggedness_factor"}
    else if name == "full_wave_curve" then
      {"wave_center", "wave_range", "wave_amplitude", "wave_frequency", "radius", "jaggedness_factor"}
    else {}
  }

  /** The attribute a constructor stores under a keyword parameter's name. */
  function Param(m: Mode, key: string): real
    requires key in ParamNames(ModeName(m))
  {
    match m
    case CCurve(bendRadius, bendCenter, radius, jaggedness) =>
      if key == "bend_radius" then bendRadius
      else if key == "bend_center" then bendCenter
      else if key == "radius" then radius
      else jaggedness
    case KinkCurve(bendCenter, tr, returnCenter, rtr, radius, jaggedness) =>
      if key == "bend_center" then bendCenter
      else if key == "transition_range" then tr
      else if key == "return_center" then returnCenter
      else if key == "return_transition_range" then rtr
      else if key == "radius" then radius
      else jaggedness
    case FullWaveCurve(waveCenter, waveRange, amplitude, frequency, radius, jaggedness) =>
      if key == "wave_center" then waveCenter
      else if key == "wave_range" then waveRange
      else if key == "wave_amplitude" then amplitude
      else if key == "wave_frequency" then frequency
      else if key == "radius" then radius
      else jaggedness
  }

  /** A keyword argument if it was passed, the constructor's default otherwise. */
  function Arg(kwargs: map<string, real>, key: string, default: real): real
  {
    if key in kwargs then kwargs[key] else default
  }

  /** `NextPointGenerator(mode, **kwargs)`: the three curve modes build their generator,
      passing the keyword arguments on to its constructor, which fills the rest with
      its defaults and rejects a keyword it does not take (TypeError). `'jagged'` names
      a class that does not exist (NameError); every other name, the default
      `'straight'` among them, raises ValueError. */
  function ParseMode(name: string, kwargs: map<string, real>): (r: Result<Mode>)
    ensures r.Success? <==> name in {"c_curve", "kink_curve", "full_wave_curve"} && kwargs.Keys <= ParamNames(name)
    ensures r.Success? ==> ModeName(r.value) == name
    ensures r.Success? ==> forall key | key in kwargs :: Param(r.value, key) == kwargs[key]
    ensures name == "jagged" ==> r.Failure? && r.error.NameError?
    ensures name !in {"c_curve", "kink_curve", "full_wave_curve", "jagged"} ==> r.Failure? && r.error.ValueError?
    ensures name in {"c_curve", "kink_curve", "full_wave_curve"} && !(kwargs.Keys <= ParamNames(name)) ==>
      r.Failure? && r.error.TypeError?
  {
    if name == "jagged" then Failure(NameError("name 'JaggedPointGenerator' is not defined"))
    else if name !in {"c_curve", "kink_curve", "full_wave_curve"} then Failure(ValueError("Unknown mode: " + name))
    else if !(kwargs.Keys <= ParamNames(name)) then Failure(TypeError("__init__() got an unexpected keyword argument"))
    else if name == "c_curve" then
      Success(CCurve(Arg(kwargs, "bend_radius", 100.0), Arg(kwargs, "bend_center", 250.0),
                     Arg(kwargs, "radius", 3.0), Arg(kwargs, "jaggedness_factor", 0.1)))
    else if name == "kink_curve" then
      Success(KinkCurve(Arg(kwargs, "bend_center", 250.0), Arg(kwargs, "transition_range", 20.0),
                        Arg(kwargs, "return_center", 270.0), Arg(kwargs, "return_transition_range", 20.0),
                        Arg(kwargs, "radius", 3.0), Arg(kwargs, "jaggedness_factor", 0.0)))
    else
      Success(FullWaveCurve(Arg(kwargs, "wave_center", 250.0), Arg(kwargs, "wave_range", 100.0),
                            Arg(kwargs, "wave_amplitude", 0.0), Arg(kwargs, "wave_frequency", 2.0),
                            Arg(kwargs, "radius", 3.0), Arg(kwargs, "jaggedness_factor", 0.0)))
  }

  /** A parameter that is not passed keeps the constructor's default; with no keyword
      arguments the dispatch installs exactly the defaults. */
  lemma ParseModeDefaults(name: string, kwargs: map<string, real>, key: string)
    requires ParseMode(name, kwargs).Success? && key in ParamNames(name) && key !in kwargs
    ensures Param(ParseMode(name, kwargs).value, key) == Param(ParseMode(name, map[]).value, key)
    ensures ParseMode(name, map[]).value ==
      if name == "c_curve" then DEFAULT_C_CURVE
      else if name == "kink_curve" then DEFAULT_KINK_CURVE
      else DEFAULT_FULL_WAVE_CURVE
  {
  }

  /** Every mode's name parses back to that kind of mode, and its own parameters
      passed as keywords rebuild it. */
  lemma ParseModeName(m: Mode)
    ensures ParseMode(ModeName(m), map[]).Success?
    ensures ParseMode(ModeName(m), map[]).value.CCurve? == m.CCurve?
    ensures ParseMode(ModeName(m), map[]).value.KinkCurve? == m.KinkCurve?
    ensures ParseMode(ModeName(m), map key | key in ParamNames(ModeName(m)) :: Param(m, key)) == Success(m)
  {
    var kwargs := map key | key in ParamNames(ModeName(m)) :: Param(m, key);
    var r := ParseMode(ModeName(m), kwargs);
    match m
    case CCurve(_, _, _, _) =>
      assert Param(r.value, "bend_radius") == kwargs["bend_radius"];
      assert Param(r.value, "bend_center") == kwargs["bend_center"];
      assert Param(r.value, "radius") == kwargs["radius"];
      assert Param(r.value, "jaggedness_factor") == kwargs["jaggedness_factor"];
    case KinkCurve(_, _, _, _, _, _) =>
      assert Param(r.value, "bend_center") == kwargs["bend_center"];
      assert Param(r.value, "transition_range") == kwargs["transition_range"];
      assert Param(r.value, "return_center") == kwargs["return_center"];
      assert Param(r.value, "return_transition_range") == kwargs["return_transition_range"];
      assert Param(r.value, "radius") == kwargs["radius"];
      assert Param(r.value, "jaggedness_factor") == kwargs["jaggedness_factor"];
    case FullWaveCurve(_, _, _, _, _, _) =>
      assert Param(r.value, "wave_center") == kwargs["wave_center"];
      assert Param(r.value, "wave_range") == kwargs["wave_range"];
      assert Param(r.value, "wave_amplitude") == kwargs["wave_amplitude"];
      assert Param(r.value, "wave_frequency") == kwargs["wave_frequency"];
      assert Param(r.value, "radius") == kwargs["radius"];
      assert Param(r.value, "jaggedness_factor") == kwargs["jaggedness_factor"];
  }

  // ----- turn rules ----------------------------------------------------------

  /** What a heading rule yields. The growth end's x coordinate is a numpy integer, so
      a division by zero does not raise: it gives an infinity (a non-zero numerator)
      or NaN (zero over zero), with a RuntimeWarning. */
  datatype Turn = Finite(value: real) | Infinite | NotANumber

  /** The c-curve's `curve_effect`, the y component of its direction before normalisation. */
  function CurveEffect(cx: real, bendCenter: real, bendRadius: real): (r: Turn)
    ensures r.Finite? <==> bendRadius != 0.0
    ensures r.NotANumber? <==> bendRadius == 0.0 && cx == bendCenter
    ensures r.Finite? ==> r.value * bendRadius == cx - bendCenter
  {
    if bendRadius != 0.0 then Finite((cx - bendCenter) / bendRadius)
    else if cx == bendCenter then NotANumber
    else Infinite
  }

  /** The kink's turn angle in degrees: a linear ramp from 0 to 45 across the bend
      window, a ramp back from 45 to 0 across the return window, 0 elsewhere. A window
      of width zero that contains the point divides zero by zero. */
  function KinkTurnAngle(cx: real, bendCenter: real, tr: real, returnCenter: real, rtr: real): (r: Turn)
    ensures !r.Infinite?
    ensures r.NotANumber? <==>
      (Abs(cx - bendCenter) <= tr && tr == 0.0) ||
      (Abs(cx - bendCenter) > tr && Abs(cx - returnCenter) <= rtr && rtr == 0.0)
    ensures r.Finite? ==> 0.0 <= r.value <= 45.0
    ensures Abs(cx - bendCenter) > tr && Abs(cx - returnCenter) > rtr ==> r == Finite(0.0)
  {
    var db := cx - bendCenter;
    var dr := cx - returnCenter;
    if Abs(db) <= tr then
      if tr == 0.0 then NotANumber
      else
        KinkFractionBounds(db, tr);
        Finite((db + tr) / (2.0 * tr) * 45.0)
    else if Abs(dr) <= rtr then
      if rtr == 0.0 then NotANumber
      else
        KinkFractionBounds(dr, rtr);
        Finite(45.0 - (dr + rtr) / (2.0 * rtr) * 45.0)
    else Finite(0.0)
  }

  /** Inside a window the fraction lies in [0, 1]. */
  lemma KinkFractionBounds(d: real, t: real)
    requires Abs(d) <= t && t != 0.0
    ensures 0.0 <= (d + t) / (2.0 * t) <= 1.0
  {
    assert 0.0 <= d + t <= 2.0 * t;
  }

  /** Across the bend window the angle climbs from 0 at the near edge to 45 at the far
      edge and never decreases; the bend window wins where the windows overlap. */
  lemma KinkBendRamp(bendCenter: real, tr: real, returnCenter: real, rtr: real, a: real, b: real)
    requires tr > 0.0 && Abs(a - bendCenter) <= tr && Abs(b - bendCenter) <= tr && a <= b
    ensures KinkTurnAngle(a, bendCenter, tr, returnCenter, rtr).value <= KinkTurnAngle(b, bendCenter, tr, returnCenter, rtr).value
    ensures KinkTurnAngle(bendCenter - tr, bendCenter, tr, returnCenter, rtr) == Finite(0.0)
    ensures KinkTurnAngle(bendCenter + tr, bendCenter, tr, returnCenter, rtr) == Finite(45.0)
  {
    DivMonotone(a - bendCenter + tr, b - bendCenter + tr, 2.0 * tr);
    assert (2.0 * tr) / (2.0 * tr) == 1.0;
  }

  lemma DivMonotone(x: real, y: real, t: real)
    requires x <= y && t > 0.0
    ensures x / t <= y / t
  {
    assert y / t - x / t == (y - x) / t;
  }

  /** Past the bend window, across the return window the angle falls from 45 to 0 and
      never increases. */
  lemma KinkReturnRamp(bendCenter: real, tr: real, returnCenter: real, rtr: real, a: real, b: real)
    requires rtr > 0.0 && Abs(a - returnCenter) <= rtr && Abs(b - returnCenter) <= rtr && a <= b
    requires Abs(a - bendCenter) > tr && Abs(b - bendCenter) > tr
    ensures KinkTurnAngle(b, bendCenter, tr, returnCenter, rtr).value <= KinkTurnAngle(a, bendCenter, tr, returnCenter, rtr).value
  {
    DivMonotone(a - returnCenter + rtr, b - returnCenter + rtr, 2.0 * rtr);
  }

  /** The wave's turn angle: `amplitude * sin(frequency * fraction * pi)` inside the
      window, 0 outside it; `sinPi(t)` stands for `sin(t * pi)`. A window of width zero
      that contains the point divides zero by zero. */
  function WaveTurnAngle(cx: real, waveCenter: real, waveRange: real, amplitude: real, frequency: real,
                         sinPi: real -> real): (r: Turn)
    ensures !r.Infinite?
    ensures r.NotANumber? <==> Abs(cx - waveCenter) <= waveRange && waveRange == 0.0
    ensures Abs(cx - waveCenter) > waveRange ==> r == Finite(0.0)
    ensures amplitude == 0.0 && r.Finite? ==> r.value == 0.0
    ensures r.Finite? && (forall t :: -1.0 <= sinPi(t) <= 1.0) ==> Abs(r.value) <= Abs(amplitude)
  {
    var d := cx - waveCenter;
    if Abs(d) <= waveRange then
      if waveRange == 0.0 then NotANumber
      else
        var s := sinPi(frequency * ((d + waveRange) / (2.0 * waveRange)));
        ScaledBoundIf(amplitude, s);
        Finite(amplitude * s)
    else Finite(0.0)
  }

  lemma MulNonNeg(a: real, b: real)
    requires a >= 0.0 && b >= 0.0
    ensures a * b >= 0.0
  {
  }

  lemma ScaledBoundIf(amplitude: real, s: real)
    ensures -1.0 <= s <= 1.0 ==> Abs(amplitude * s) <= Abs(amplitude)
  {
    if -1.0 <= s <= 1.0 {
      ScaledBound(amplitude, s);
    }
  }

  lemma ScaledBound(amplitude: real, s: real)
    requires -1.0 <= s <= 1.0
    ensures Abs(amplitude * s) <= Abs(amplitude)
  {
    var m := Abs(amplitude);
    MulNonNeg(m, 1.0 - s);
    MulNonNeg(m, 1.0 + s);
    assert m * (1.0 - s) == m - m * s;
    assert m * (1.0 + s) == m + m * s;
    assert amplitude * s == m * s || amplitude * s == -(m * s);
  }

  /** The quantity each mode derives from the growth end's x coordinate before turning
      it into a direction: the curve effect, or the turn angle in degrees. */
  function Heading(m: Mode, cx: real, sinPi: real -> real): Turn
  {
    match m
    case CCurve(bendRadius, bendCenter, _, _) => CurveEffect(cx, bendCenter, bendRadius)
    case KinkCurve(bendCenter, tr, returnCenter, rtr, _, _) => KinkTurnAngle(cx, bendCenter, tr, returnCenter, rtr)
    case FullWaveCurve(waveCenter, waveRange, amplitude, frequency, _, _) =>
      WaveTurnAngle(cx, waveCenter, waveRange, amplitude, frequency, sinPi)
  }

  ghost predicate HeadingFinite(m: Mode, sinPi: real -> real)
  {
    forall cx :: Heading(m, cx, sinPi).Finite?
  }

  /** With the defaults the dispatch installs, no mode ever divides by zero; and the
      default wave, of amplitude 0, never turns. */
  lemma DefaultHeadingsFinite(name: string, sinPi: real -> real)
    requires ParseMode(name, map[]).Success?
    ensures HeadingFinite(ParseMode(name, map[]).value, sinPi)
    ensures name == "full_wave_curve" ==> forall cx :: Heading(ParseMode(name, map[]).value, cx, sinPi) == Finite(0.0)
  {
  }

  // ----- the generator -------------------------------------------------------

  /** `initialize_starting_point`: x and y at least `radius` from both faces, any z. */
  function StartPoint(d: Dims, radius: int, draws: nat -> nat): (r: Result<Point>)
    ensures r.Success? <==> radius <= d.nx - radius - 1 && radius <= d.ny - radius - 1 && 0 < d.nz
    ensures r.Success? ==>
      && radius <= r.value.x <= d.nx - radius - 1
      && radius <= r.value.y <= d.ny - radius - 1
      && 0 <= r.value.z <= d.nz - 1
  {
    var x := RandInt(radius, d.nx - radius - 1, draws(0));
    var y := RandInt(radius, d.ny - radius - 1, draws(1));
    var z := RandInt(0, d.nz - 1, draws(2));
    if x.Failure? then Failure(x.error)
    else if y.Failure? then Failure(y.error)
    else if z.Failure? then Failure(z.error)
    else Success(Point(x.value, y.value, z.value))
  }

  /** The start ranges already satisfy the x and y margins, so the bounds check that
      follows can only fail on z. */
  lemma StartBoundsDecidedByZ(d: Dims, radius: int, draws: nat -> nat)
    requires StartPoint(d, radius, draws).Success?
    ensures var p := StartPoint(d, radius, draws).value;
      IsWithinBounds(p, d, radius) <==> radius <= p.z < d.nz - radius
  {
  }

  /** The end a step grows from: the first point when growing from the start. */
  function GrowthEnd(filament: seq<Point>, growFromStart: bool): Point
    requires |filament| > 0
  {
    if growFromStart then filament[0] else filament[|filament| - 1]
  }

  /** The float point one step stores, from growth end c: c minus the displacement when
      growing from the start, c plus it otherwise. `disp(h)` is `direction * radius`
      for a finite heading h. An infinite curve effect normalises the direction to
      (0, NaN, 0), and a NaN heading makes every component NaN. */
  function StepPoint(m: Mode, c: Point, growFromStart: bool, sinPi: real -> real, disp: real -> Vec): FloatPoint
  {
    match Heading(m, c.x as real, sinPi)
    case Finite(h) => Exact(if growFromStart then Sub(ToVec(c), disp(h)) else Add(ToVec(c), disp(h)))
    case Infinite => FloatPoint(Num(c.x as real), NaN, Num(c.z as real))
    case NotANumber => FloatPoint(NaN, NaN, NaN)
  }

  /** The rounded point `suggest_next_point` returns for a chain. */
  function Suggestion(m: Mode, filament: seq<Point>, growFromStart: bool, sinPi: real -> real, disp: real -> Vec,
                      nanCast: int): Point
    requires |filament| > 0
  {
    CastPoint(StepPoint(m, GrowthEnd(filament, growFromStart), growFromStart, sinPi, disp), nanCast)
  }

  /** A finite heading moves the growth end by the rounded displacement, on the side the
      flag names. */
  lemma FiniteSuggestion(m: Mode, filament: seq<Point>, growFromStart: bool, sinPi: real -> real,
                         disp: real -> Vec, nanCast: int)
    requires |filament| > 0
    requires Heading(m, GrowthEnd(filament, growFromStart).x as real, sinPi).Finite?
    ensures var c := GrowthEnd(filament, growFromStart);
      var h := Heading(m, c.x as real, sinPi).value;
      var p := Suggestion(m, filament, growFromStart, sinPi, disp, nanCast);
      if growFromStart then p == RoundVec(Sub(ToVec(c), disp(h))) else p == RoundVec(Add(ToVec(c), disp(h)))
  {
  }

  /** A division by zero never aborts growth: its suggestion carries the NaN cast in
      y, so when that integer lies outside the y margins, as the most negative 64-bit
      integer does, the bounds test rejects the point. */
  lemma DegenerateSuggestionRejected(m: Mode, filament: seq<Point>, growFromStart: bool, sinPi: real -> real,
                                     disp: real -> Vec, nanCast: int, d: Dims, radius: int)
    requires |filament| > 0
    requires !Heading(m, GrowthEnd(filament, growFromStart).x as real, sinPi).Finite?
    requires nanCast < radius || d.ny - radius <= nanCast
    ensures Suggestion(m, filament, growFromStart, sinPi, disp, nanCast).y == nanCast
    ensures !IsWithinBounds(Suggestion(m, filament, growFromStart, sinPi, disp, nanCast), d, radius)
  {
  }

  /** One generator object: the dispatch wrapper and the generator it holds share one
      state, the last stored point and the growth-end flag. */
  class PointGenerator {
    const mode: Mode
    var currentPoint: Option<FloatPoint>
    var growFromStart: bool

    constructor (mode: Mode)
      ensures this.mode == mode && currentPoint == None && growFromStart
    {
      this.mode := mode;
      currentPoint := None;
      growFromStart := true;
    }

    /** Draws a start point and remembers it; a failed draw leaves the state alone. */
    method InitializeStartingPoint(d: Dims, radius: int, draws: nat -> nat) returns (r: Result<Point>)
      modifies this
      ensures r == StartPoint(d, radius, draws)
      ensures growFromStart == old(growFromStart)
      ensures currentPoint == if r.Success? then Some(Exact(ToVec(r.value))) else old(currentPoint)
    {
      r := StartPoint(d, radius, draws);
      if r.Success? {
        currentPoint := Some(Exact(ToVec(r.value)));
      }
    }

    /** `suggest_next_point`: from the growth end, step back by the displacement when
        growing from the start and forward otherwise, store the float point, and
        return it rounded and cast. `disp(h)` is the displacement `direction * radius`
        for heading h. */
    method SuggestNextPoint(filament: seq<Point>, sinPi: real -> real, disp: real -> Vec, nanCast: int)
      returns (r: Point)
      requires |filament| > 0
      modifies this
      ensures growFromStart == old(growFromStart)
      ensures currentPoint == Some(StepPoint(mode, GrowthEnd(filament, growFromStart), growFromStart, sinPi, disp))
      ensures r == CastPoint(currentPoint.value, nanCast)
      ensures r == Suggestion(mode, filament, growFromStart, sinPi, disp, nanCast)
    {
      var c := GrowthEnd(filament, growFromStart);
      var q: FloatPoint;
      match Heading(mode, c.x as real, sinPi) {
        case Finite(h) =>
          if growFromStart {
            q := Exact(Sub(ToVec(c), disp(h)));
          } else {
            q := Exact(Add(ToVec(c), disp(h)));
          }
        case Infinite =>
          q := FloatPoint(Num(c.x as real), NaN, Num(c.z as real));
        case NotANumber =>
          q := FloatPoint(NaN, NaN, NaN);
      }
      currentPoint := Some(q);
      r := CastPoint(q, nanCast);
    }

    /** `toggle_growth_direction`: the flag is negated, so two toggles restore it. */
    method ToggleGrowthDirection()
      modifies this
      ensures growFromStart == !old(growFromStart)
      ensures currentPoint == old(currentPoint)
    {
      growFromStart := !growFromStart;
    }
  }

  /** `NextPointGenerator(mode, **kwargs)`: a fresh generator growing from the start,
      or the dispatch's error. */
  method NewNextPointGenerator(name: string, kwargs: map<string, real>) returns (r: Result<PointGenerator>)
    ensures r.Success? <==> ParseMode(name, kwargs).Success?
    ensures r.Failure? ==> r.error == ParseMode(name, kwargs).error
    ensures r.Success? ==> fresh(r.value) && r.value.mode == ParseMode(name, kwargs).value
    ensures r.Success? ==> r.value.growFromStart && r.value.currentPoint == None
  {
    var m := ParseMode(name, kwargs);
    if m.Failure? {
      return Failure(m.error);
    }
    var g := new PointGenerator(m.value);
    r := Success(g);
  }
}
