/** Start-point sampling of the two older root scripts: up to 1000 tries, each a
    random point with every coordinate in [radius, dim - radius - 1], until one passes
    the bounds and pipe tests. `generate_filaments.py` and `generate_3d_fiber` draw
    with `random.randint` (inclusive); `generate_3d_fiber_curved` draws with
    `np.random.randint` (exclusive), so it never reaches the top coordinate. */
module LegacyStart {
  import opened Wrappers
  import opened Voxels
  import opened Draws

  const MAX_START_ATTEMPTS: int := 1000

  /** Try a of `[random.randint(radius, dim - radius - 1) for dim in volume.shape]`,
      from draws 3a, 3a + 1 and 3a + 2. */
  function StartSample(d: Dims, radius: int, draws: nat -> nat, a: nat): (r: Result<Point>)
    ensures r.Success? <==> radius <= d.nx - radius - 1 && radius <= d.ny - radius - 1 && radius <= d.nz - radius - 1
    ensures r.Success? ==>
      && radius <= r.value.x <= d.nx - radius - 1
      && radius <= r.value.y <= d.ny - radius - 1
      && radius <= r.value.z <= d.nz - radius - 1
  {
    var x := RandInt(radius, d.nx - radius - 1, draws(3 * a));
    var y := RandInt(radius, d.ny - radius - 1, draws(3 * a + 1));
    var z := RandInt(radius, d.nz - radius - 1, draws(3 * a + 2));
    if x.Failure? then Failure(x.error)
    else if y.Failure? then Failure(y.error)
    else if z.Failure? then Failure(z.error)
    else Success(Point(x.value, y.value, z.value))
  }

  /** The same with `np.random.randint(radius, dim - radius - 1)`: the upper end is
      excluded, and a range of one value is already empty. */
  function NpStartSample(d: Dims, radius: int, draws: nat -> nat, a: nat): (r: Result<Point>)
    ensures r.Success? <==> radius < d.nx - radius - 1 && radius < d.ny - radius - 1 && radius < d.nz - radius - 1
    ensures r.Success? ==>
      && radius <= r.value.x < d.nx - radius - 1
      && radius <= r.value.y < d.ny - radius - 1
      && radius <= r.value.z < d.nz - radius - 1
  {
    var x := NpRandInt(radius, d.nx - radius - 1, draws(3 * a));
    var y := NpRandInt(radius, d.ny - radius - 1, draws(3 * a + 1));
    var z := NpRandInt(radius, d.nz - radius - 1, draws(3 * a + 2));
    if x.Failure? then Failure(x.error)
    else if y.Failure? then Failure(y.error)
    else if z.Failure? then Failure(z.error)
    else Success(Point(x.value, y.value, z.value))
  }

  /** Either sampler only yields points that pass the bounds test, so the loops'
      bounds check never rejects; only the pipe test does. */
  lemma SamplesWithinBounds(d: Dims, radius: int, draws: nat -> nat, a: nat)
    ensures StartSample(d, radius, draws, a).Success? ==> IsWithinBounds(StartSample(d, radius, draws, a).value, d, radius)
    ensures NpStartSample(d, radius, draws, a).Success? ==> IsWithinBounds(NpStartSample(d, radius, draws, a).value, d, radius)
  {
  }

  /** The sampler a start loop uses: `np` selects `np.random.randint`. */
  function TrySample(np: bool, d: Dims, radius: int, draws: nat -> nat, a: nat): Result<Point>
  {
    if np then NpStartSample(d, radius, draws, a) else StartSample(d, radius, draws, a)
  }

  /** The start a loop settles on: the sample of the first try from try a on that
      passes the bounds and pipe tests, or none if none of the first 1000 does. */
  function FirstValid(np: bool, d: Dims, radius: int, pipeRadius: int, draws: nat -> nat, a: nat): Option<Point>
    decreases MAX_START_ATTEMPTS - a
  {
    if a >= MAX_START_ATTEMPTS then None
    else match TrySample(np, d, radius, draws, a)
      case Failure(_) => None
      case Success(p) => if ValidStart(p, d, radius, pipeRadius) then Some(p) else FirstValid(np, d, radius, pipeRadius, draws, a + 1)
  }

  /** If try t is the first passing one from a on, its sample is the start found. */
  lemma {:induction false} FirstValidAt(np: bool, d: Dims, radius: int, pipeRadius: int, draws: nat -> nat, a: nat, t: nat)
    requires a <= t < MAX_START_ATTEMPTS
    requires TrySample(np, d, radius, draws, t).Success? && ValidStart(TrySample(np, d, radius, draws, t).value, d, radius, pipeRadius)
    requires forall b: nat | a <= b < t ::
      TrySample(np, d, radius, draws, b).Success? ==> !ValidStart(TrySample(np, d, radius, draws, b).value, d, radius, pipeRadius)
    ensures FirstValid(np, d, radius, pipeRadius, draws, a) == Some(TrySample(np, d, radius, draws, t).value)
    decreases t - a
  {
    if a < t {
      assert TrySample(np, d, radius, draws, a).Success?;
      FirstValidAt(np, d, radius, pipeRadius, draws, a + 1, t);
    }
  }

  /** No start is found exactly when no try from a to 999 passes. */
  lemma {:induction false} FirstValidNone(np: bool, d: Dims, radius: int, pipeRadius: int, draws: nat -> nat, a: nat)
    ensures FirstValid(np, d, radius, pipeRadius, draws, a).None? <==>
      forall b: nat | a <= b < MAX_START_ATTEMPTS ::
        TrySample(np, d, radius, draws, b).Success? ==> !ValidStart(TrySample(np, d, radius, draws, b).value, d, radius, pipeRadius)
    decreases MAX_START_ATTEMPTS - a
  {
    if a < MAX_START_ATTEMPTS {
      FirstValidNone(np, d, radius, pipeRadius, draws, a + 1);
      if TrySample(np, d, radius, draws, a).Failure? {
        assert forall b: nat | a <= b < MAX_START_ATTEMPTS :: TrySample(np, d, radius, draws, b).Failure?;
      }
    }
  }

  /** The start loop of the root `generate_3d_filament` and `generate_3d_fiber`:
      sample, stop at the first sample that passes, give up after 1000. `tries`
      is the number of samples rejected before the one returned. */
  method SampleStart(d: Dims, radius: int, pipeRadius: int, draws: nat -> nat)
    returns (r: Result<Option<Point>>, ghost tries: nat)
    ensures r.Failure? <==> StartSample(d, radius, draws, 0).Failure?
    ensures r.Failure? ==> r.error == StartSample(d, radius, draws, 0).error
    ensures r.Success? && r.value.Some? ==>
      && tries < MAX_START_ATTEMPTS
      && StartSample(d, radius, draws, tries) == Success(r.value.value)
      && ValidStart(r.value.value, d, radius, pipeRadius)
      && forall a: nat | a < tries :: !ValidStart(StartSample(d, radius, draws, a).value, d, radius, pipeRadius)
    ensures r == Success(None) ==>
      forall a: nat | a < MAX_START_ATTEMPTS :: !ValidStart(StartSample(d, radius, draws, a).value, d, radius, pipeRadius)
    ensures r.Success? ==> r.value == FirstValid(false, d, radius, pipeRadius, draws, 0)
  {
    tries := 0;
    var attempts := 0;
    while attempts < MAX_START_ATTEMPTS
      invariant 0 <= attempts <= MAX_START_ATTEMPTS
      invariant attempts > 0 ==> StartSample(d, radius, draws, 0).Success?
      invariant forall a: nat | a < attempts :: !ValidStart(StartSample(d, radius, draws, a).value, d, radius, pipeRadius)
    {
      var s := StartSample(d, radius, draws, attempts);
      if s.Failure? {
        r := Failure(s.error);
        return;
      }
      var p := s.value;
      if IsWithinBounds(p, d, radius) && IsWithinPipe(p, d.ny / 2, d.nz / 2, pipeRadius) {
        FirstValidAt(false, d, radius, pipeRadius, draws, 0, attempts);
        r, tries := Success(Some(p)), attempts;
        return;
      }
      attempts := attempts + 1;
    }
    FirstValidNone(false, d, radius, pipeRadius, draws, 0);
    r := Success(None);
  }

  /** The start loop of `generate_3d_fiber_curved`: one sample before the loop, and
      after each rejected check a fresh sample, for at most 1000 checks. */
  method NpSampleStart(d: Dims, radius: int, pipeRadius: int, draws: nat -> nat)
    returns (r: Result<Option<Point>>, ghost tries: nat)
    ensures r.Failure? <==> NpStartSample(d, radius, draws, 0).Failure?
    ensures r.Failure? ==> r.error == NpStartSample(d, radius, draws, 0).error
    ensures r.Success? && r.value.Some? ==>
      && tries < MAX_START_ATTEMPTS
      && NpStartSample(d, radius, draws, tries) == Success(r.value.value)
      && ValidStart(r.value.value, d, radius, pipeRadius)
      && forall a: nat | a < tries :: !ValidStart(NpStartSample(d, radius, draws, a).value, d, radius, pipeRadius)
    ensures r == Success(None) ==>
      forall a: nat | a < MAX_START_ATTEMPTS :: !ValidStart(NpStartSample(d, radius, draws, a).value, d, radius, pipeRadius)
    ensures r.Success? ==> r.value == FirstValid(true, d, radius, pipeRadius, draws, 0)
  {
    tries := 0;
    var s := NpStartSample(d, radius, draws, 0);
    if s.Failure? {
      r := Failure(s.error);
      return;
    }
    var p := s.value;
    var attempts := 0;
    while attempts < MAX_START_ATTEMPTS
      invariant 0 <= attempts <= MAX_START_ATTEMPTS
      invariant NpStartSample(d, radius, draws, attempts) == Success(p)
      invariant forall a: nat | a < attempts :: !ValidStart(NpStartSample(d, radius, draws, a).value, d, radius, pipeRadius)
    {
      if IsWithinBounds(p, d, radius) && IsWithinPipe(p, d.ny / 2, d.nz / 2, pipeRadius) {
        FirstValidAt(true, d, radius, pipeRadius, draws, 0, attempts);
        r, tries := Success(Some(p)), attempts;
        return;
      }
      p := NpStartSample(d, radius, draws, attempts + 1).value;
      attempts := attempts + 1;
    }
    FirstValidNone(true, d, radius, pipeRadius, draws, 0);
    r := Success(None);
  }
}
