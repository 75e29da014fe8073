/** The package's batch driver (`generate_and_count_filaments`) and the void pass it
    runs after the resin fill (`add_many_small_resin_voids`). Filaments are attempted
    until enough are placed or the attempt budget is spent; each accepted filament is
    rasterised before the next attempt, so later filaments avoid it. The pipeline then
    fills the pipe with resin, punches voids into the resin, and cuts the defect. */
module Batch {
  import opened Wrappers
  import opened Voxels
  import opened Draws
  import opened Directions
  import opened PointGenerators
  import opened Growth
  import opened Defects
  import opened Placement

  const MAX_TOTAL_ATTEMPTS: int := 100000
  const MAX_VOID_ATTEMPTS: int := 100000

  /** What the driver's pipeline passes to the void pass: 100 voids of radius 1,
      with the void pass's own default pipe radius. */
  const NUM_VOIDS: int := 100
  const VOID_RADIUS: nat := 1
  const VOID_PIPE_RADIUS: int := 125

  /** Chain n grew from `starts[n]` by the points `grown[n]`, from a start that passed
      the bounds and pipe tests, to an accepted length. */
  ghost predicate Placed(fs: seq<seq<Point>>, starts: seq<Point>, grown: seq<seq<Point>>, flags: seq<bool>, d: Dims, radius: nat,
                         pipeRadius: int, minLength: int, maxLength: int)
  {
    && |starts| == |fs| && |grown| == |fs| && |flags| == |fs|
    && forall n | 0 <= n < |fs| ::
         && fs[n] == Grown(starts[n], grown[n], flags[n])
         && ValidStart(starts[n], d, radius, pipeRadius)
         && minLength <= |fs[n]| <= 1 + Max(0, 10 * maxLength)
  }

  lemma PlacedSnoc(fs: seq<seq<Point>>, starts: seq<Point>, grown: seq<seq<Point>>, flags: seq<bool>, f: seq<Point>, start: Point,
                   accepted: seq<Point>, flag: bool, d: Dims, radius: nat, pipeRadius: int, minLength: int, maxLength: int)
    requires Placed(fs, starts, grown, flags, d, radius, pipeRadius, minLength, maxLength)
    requires f == Grown(start, accepted, flag) && ValidStart(start, d, radius, pipeRadius) && minLength <= |f| <= 1 + Max(0, 10 * maxLength)
    ensures Placed(fs + [f], starts + [start], grown + [accepted], flags + [flag], d, radius, pipeRadius, minLength, maxLength)
  {
  }

  /** One attempt of the driver: grow a chain and, if it is accepted, rasterise it
      before the next attempt. The volume keeps holding fibre exactly on the placed
      filaments over `base`. */
  method AttemptFilament(v: array3<real>, gen: PointGenerator, minLength: int, maxLength: int, radius: nat,
                         pipeRadius: int, numBiased: int, preferred: Dir, sinPi: real -> real, o: Oracle,
                         ghost base: imap<Point, real>, ghost fs: seq<seq<Point>>, ghost grown: seq<seq<Point>>)
    returns (res: Result<Option<seq<Point>>>, ghost start: Point, ghost accepted: seq<Point>)
    requires FibreOver(v, base, fs, radius, pipeRadius, FIBER)
    requires GrownClear(base, fs, grown, radius, Shape(v), pipeRadius, FIBER) && |grown| == |fs|
    modifies v, gen
    ensures var d := Shape(v);
      (radius <= d.nx - radius - 1 && radius <= d.ny - radius - 1 && 0 < d.nz
       && numBiased <= POOL_SIZE) ==> res.Success?
    ensures var d := Shape(v);
      !(radius <= d.nx - radius - 1 && radius <= d.ny - radius - 1 && 0 < d.nz) ==> res.Failure?
    ensures FilamentOutcome(AcceptsIn(Overlay(base, fs, radius, Shape(v), pipeRadius, FIBER), Shape(v), radius, pipeRadius, FIBER),
                            Shape(v), old(gen.growFromStart), gen.mode, minLength, maxLength, radius, pipeRadius, numBiased,
                            preferred, sinPi, o, res, accepted)
    ensures gen.growFromStart == FlagAt(old(gen.growFromStart), |accepted|)
    ensures res.Success? ==>
      var fs' := if res.value.Some? then fs + [res.value.value] else fs;
      FibreOver(v, base, fs', radius, pipeRadius, FIBER)
    ensures res.Success? && res.value.Some? ==>
      var f := res.value.value;
      && f == Grown(start, accepted, old(gen.growFromStart))
      && ValidStart(start, Shape(v), radius, pipeRadius)
      && minLength <= |f| <= 1 + Max(0, 10 * maxLength)
      && GrownClear(base, fs + [f], grown + [accepted], radius, Shape(v), pipeRadius, FIBER)
  {
    var d := Shape(v);
    ghost var flag := gen.growFromStart;
    FibreOverAccepts(v, base, fs, radius, pipeRadius, FIBER);
    res, accepted := GenerateFilament(v, gen, minLength, maxLength, radius, pipeRadius, numBiased, preferred, sinPi, o);
    start := if StartPoint(d, radius, o.start).Success? then StartPoint(d, radius, o.start).value else Point(0, 0, 0);
    if res.Success? && res.value.Some? {
      GrownMembers(start, accepted, flag);
      RasteriseChain(v, res.value.value, start, accepted, radius, pipeRadius, FIBER, base, fs, grown);
    }
  }

  /** The generator's flag after the attempts `outs`, from `flag0`: each attempt
      flips it once per accepted point. */
  function FlagAfter(flag0: bool, outs: seq<Attempt>): bool
  {
    if |outs| == 0 then flag0 else FlagAt(FlagAfter(flag0, outs[..|outs| - 1]), |outs[|outs| - 1].accepted|)
  }

  lemma FlagAfterSnoc(flag0: bool, outs: seq<Attempt>, x: Attempt)
    ensures FlagAfter(flag0, outs + [x]) == FlagAt(FlagAfter(flag0, outs), |x.accepted|)
  {
    assert (outs + [x])[..|outs|] == outs;
  }

  /** What attempt `|h|` of the driver returns after the attempts `h`: the
      single-call outcome for its own randomness, with the flag the earlier attempts
      left in the generator, on the initial volume with fibre on the spheres of the
      filaments kept so far. */
  ghost function Step(base: imap<Point, real>, d: Dims, flag0: bool, m: Mode, minLength: int, maxLength: int, radius: nat,
                      pipeRadius: int, numBiased: int, preferred: Dir, sinPi: real -> real,
                      oracles: nat -> Oracle): (seq<Attempt>, Attempt) -> bool
  {
    (h: seq<Attempt>, x: Attempt) =>
      FilamentOutcome(AcceptsIn(Overlay(base, Kept(h), radius, d, pipeRadius, FIBER), d, radius, pipeRadius, FIBER),
                      d, FlagAfter(flag0, h), m, minLength, maxLength, radius, pipeRadius, numBiased, preferred, sinPi,
                      oracles(|h|), x.res, x.accepted)
  }

  /** The driver's run is determined by the initial volume, the generator's mode and
      flag, and the randomness: two runs over the same inputs made the same attempts,
      so placed the same filaments or raised the same exception. */
  lemma RunDetermined(base: imap<Point, real>, d: Dims, flag0: bool, m: Mode, numFilaments: int, minLength: int,
                      maxLength: int, radius: nat, pipeRadius: int, numBiased: int, preferred: Dir, sinPi: real -> real,
                      oracles: nat -> Oracle, o1: seq<Attempt>, o2: seq<Attempt>)
    requires Run(Step(base, d, flag0, m, minLength, maxLength, radius, pipeRadius, numBiased, preferred, sinPi, oracles),
                 numFilaments, MAX_TOTAL_ATTEMPTS, o1)
    requires Run(Step(base, d, flag0, m, minLength, maxLength, radius, pipeRadius, numBiased, preferred, sinPi, oracles),
                 numFilaments, MAX_TOTAL_ATTEMPTS, o2)
    ensures o1 == o2
  {
    var step := Step(base, d, flag0, m, minLength, maxLength, radius, pipeRadius, numBiased, preferred, sinPi, oracles);
    forall h, x, y | step(h, x) && step(h, y) ensures x == y {
      var accept := AcceptsIn(Overlay(base, Kept(h), radius, d, pipeRadius, FIBER), d, radius, pipeRadius, FIBER);
      FilamentOutcomeUnique(accept, d, FlagAfter(flag0, h), m, minLength, maxLength, radius, pipeRadius, numBiased,
                            preferred, sinPi, oracles(|h|), x.res, x.accepted, y.res, y.accepted);
    }
    RunUnique(step, numFilaments, MAX_TOTAL_ATTEMPTS, o1, o2);
  }

  /** What the driver's loop records about its attempts so far: the filaments are
      the ones its attempts kept, the attempts followed `Step` without raising, and
      each filament's start, growth, flag, shape and grown points are as placed. */
  ghost predicate Record(base: imap<Point, real>, d: Dims, flag0: bool, m: Mode, want: int, minLength: int, maxLength: int,
                         radius: nat, pipeRadius: int, numBiased: int, preferred: Dir, sinPi: real -> real,
                         oracles: nat -> Oracle, fs: seq<seq<Point>>, starts: seq<Point>, grown: seq<seq<Point>>,
                         flags: seq<bool>, outs: seq<Attempt>)
  {
    && fs == Kept(outs) && |fs| <= Max(0, want)
    && Going(Step(base, d, flag0, m, minLength, maxLength, radius, pipeRadius, numBiased, preferred, sinPi, oracles),
             want, MAX_TOTAL_ATTEMPTS, outs)
    && Placed(fs, starts, grown, flags, d, radius, pipeRadius, minLength, maxLength)
    && GrownClear(base, fs, grown, radius, d, pipeRadius, FIBER)
  }

  /** One more attempt, made while the loop condition held and returning the
      single-call outcome on the current overlay with the carried flag: the record
      grows by it, or the run is finished if it raised. */
  lemma RecordSnoc(base: imap<Point, real>, d: Dims, flag0: bool, m: Mode, want: int, minLength: int, maxLength: int,
                   radius: nat, pipeRadius: int, numBiased: int, preferred: Dir, sinPi: real -> real,
                   oracles: nat -> Oracle, fs: seq<seq<Point>>, starts: seq<Point>, grown: seq<seq<Point>>,
                   flags: seq<bool>, outs: seq<Attempt>, res: Result<Option<seq<Point>>>, start: Point, accepted: seq<Point>)
    requires Record(base, d, flag0, m, want, minLength, maxLength, radius, pipeRadius, numBiased, preferred, sinPi, oracles,
                    fs, starts, grown, flags, outs)
    requires |outs| < MAX_TOTAL_ATTEMPTS && |fs| < want
    requires FilamentOutcome(AcceptsIn(Overlay(base, fs, radius, d, pipeRadius, FIBER), d, radius, pipeRadius, FIBER),
                             d, FlagAfter(flag0, outs), m, minLength, maxLength, radius, pipeRadius, numBiased, preferred,
                             sinPi, oracles(|outs|), res, accepted)
    requires res.Success? && res.value.Some? ==>
      var f := res.value.value;
      && f == Grown(start, accepted, FlagAfter(flag0, outs))
      && ValidStart(start, d, radius, pipeRadius)
      && minLength <= |f| <= 1 + Max(0, 10 * maxLength)
      && GrownClear(base, fs + [f], grown + [accepted], radius, d, pipeRadius, FIBER)
    ensures res.Failure? ==>
      Run(Step(base, d, flag0, m, minLength, maxLength, radius, pipeRadius, numBiased, preferred, sinPi, oracles),
          want, MAX_TOTAL_ATTEMPTS, outs + [Attempt(res, accepted)])
    ensures res.Success? && res.value.Some? ==>
      Record(base, d, flag0, m, want, minLength, maxLength, radius, pipeRadius, numBiased, preferred, sinPi, oracles,
             fs + [res.value.value], starts + [start], grown + [accepted], flags + [FlagAfter(flag0, outs)],
             outs + [Attempt(res, accepted)])
    ensures res.Success? && res.value.None? ==>
      Record(base, d, flag0, m, want, minLength, maxLength, radius, pipeRadius, numBiased, preferred, sinPi, oracles,
             fs, starts, grown, flags, outs + [Attempt(res, accepted)])
  {
    var step := Step(base, d, flag0, m, minLength, maxLength, radius, pipeRadius, numBiased, preferred, sinPi, oracles);
    var x := Attempt(res, accepted);
    assert step(outs, x);
    GoingSnoc(step, want, MAX_TOTAL_ATTEMPTS, outs, x);
    KeptSnoc(outs, x);
    if res.Success? && res.value.Some? {
      PlacedSnoc(fs, starts, grown, flags, res.value.value, start, accepted, FlagAfter(flag0, outs), d, radius, pipeRadius,
                 minLength, maxLength);
    }
  }

  /** One pass of the driver's loop: an attempt on the current volume with the
      generator as earlier attempts left it, and the filament appended if one was
      accepted. The record, the volume and the flag are brought up to date, or the
      run is finished if the attempt raised. */
  method PlaceNext(v: array3<real>, gen: PointGenerator, numFilaments: int, minLength: int, maxLength: int, radius: nat,
                   pipeRadius: int, numBiased: int, preferred: Dir, sinPi: real -> real, oracles: nat -> Oracle,
                   attempts: nat, ghost base: imap<Point, real>, ghost flag0: bool, fs: seq<seq<Point>>,
                   ghost starts: seq<Point>, ghost grown: seq<seq<Point>>, ghost flags: seq<bool>, ghost outs: seq<Attempt>)
    returns (res: Result<Option<seq<Point>>>, fs': seq<seq<Point>>, ghost starts': seq<Point>,
             ghost grown': seq<seq<Point>>, ghost flags': seq<bool>, ghost outs': seq<Attempt>)
    requires Record(base, Shape(v), flag0, gen.mode, numFilaments, minLength, maxLength, radius, pipeRadius, numBiased,
                    preferred, sinPi, oracles, fs, starts, grown, flags, outs)
    requires FibreOver(v, base, fs, radius, pipeRadius, FIBER)
    requires gen.growFromStart == FlagAfter(flag0, outs)
    requires attempts == |outs| < MAX_TOTAL_ATTEMPTS && |fs| < numFilaments
    modifies v, gen
    ensures |outs'| == |outs| + 1
    ensures gen.growFromStart == FlagAfter(flag0, outs')
    ensures res.Failure? ==>
      && Run(Step(base, Shape(v), flag0, gen.mode, minLength, maxLength, radius, pipeRadius, numBiased, preferred, sinPi,
                  oracles), numFilaments, MAX_TOTAL_ATTEMPTS, outs')
      && Stopped(outs') && outs'[|outs|].res.error == res.error
    ensures res.Success? ==>
      && Record(base, Shape(v), flag0, gen.mode, numFilaments, minLength, maxLength, radius, pipeRadius, numBiased,
                preferred, sinPi, oracles, fs', starts', grown', flags', outs')
      && FibreOver(v, base, fs', radius, pipeRadius, FIBER)
      && !Stopped(outs')
    ensures var d := Shape(v);
      (radius <= d.nx - radius - 1 && radius <= d.ny - radius - 1 && 0 < d.nz
       && numBiased <= POOL_SIZE) ==> res.Success?
    ensures var d := Shape(v);
      !(radius <= d.nx - radius - 1 && radius <= d.ny - radius - 1 && 0 < d.nz) ==> res.Failure?
  {
    ghost var start, accepted;
    res, start, accepted := AttemptFilament(v, gen, minLength, maxLength, radius, pipeRadius, numBiased, preferred, sinPi,
                                            oracles(attempts), base, fs, grown);
    RecordSnoc(base, Shape(v), flag0, gen.mode, numFilaments, minLength, maxLength, radius, pipeRadius, numBiased,
               preferred, sinPi, oracles, fs, starts, grown, flags, outs, res, start, accepted);
    FlagAfterSnoc(flag0, outs, Attempt(res, accepted));
    outs' := outs + [Attempt(res, accepted)];
    fs', starts', grown', flags' := fs, starts, grown, flags;
    if res.Success? && res.value.Some? {
      fs', starts', grown', flags' := fs + [res.value.value], starts + [start], grown + [accepted],
                                      flags + [FlagAfter(flag0, outs)];
    }
  }

  /** The placement loop of `generate_and_count_filaments` (attempt counting and
      rasterisation; the cluster bookkeeping is not modelled). `oracles(a)` is the
      randomness of attempt a, and `base` the volume as it is on entry. The run of
      attempts is `outs`: it followed `Step` from the generator's flag on entry, a
      raise ends it with that error, and otherwise its kept filaments are the
      result. On success:
      - `successful` counts the filaments and never exceeds the request, and a
        shortfall means the budget ran out;
      - filament n grew from `starts[n]` by the points `grown[n]`, with `flags[n]`
        the generator's flag when that attempt began;
      - the volume holds fibre exactly on the filaments' spheres over `base`;
      - no grown point's sphere touched an earlier filament or fibre in `base`.
        Start points are checked against bounds and pipe only, so their spheres may
        overlap earlier fibre.
      The generator is left with the flag the attempts carried over. */
  method PlaceFilaments(v: array3<real>, gen: PointGenerator, numFilaments: int, minLength: int, maxLength: int,
                        radius: nat, pipeRadius: int, numBiased: int, preferred: Dir, sinPi: real -> real,
                        oracles: nat -> Oracle, ghost base: imap<Point, real>)
    returns (r: Result<seq<seq<Point>>>, successful: nat, attempts: nat,
             ghost starts: seq<Point>, ghost grown: seq<seq<Point>>, ghost flags: seq<bool>, ghost outs: seq<Attempt>)
    requires FibreOver(v, base, [], radius, pipeRadius, FIBER)
    modifies v, gen
    ensures Run(Step(base, Shape(v), old(gen.growFromStart), gen.mode, minLength, maxLength, radius, pipeRadius, numBiased,
                     preferred, sinPi, oracles), numFilaments, MAX_TOTAL_ATTEMPTS, outs)
    ensures r.Failure? <==> Stopped(outs)
    ensures r.Failure? ==> r.error == outs[|outs| - 1].res.error
    ensures gen.growFromStart == FlagAfter(old(gen.growFromStart), outs)
    ensures r.Success? ==>
      && Record(base, Shape(v), old(gen.growFromStart), gen.mode, numFilaments, minLength, maxLength, radius, pipeRadius,
                numBiased, preferred, sinPi, oracles, r.value, starts, grown, flags, outs)
      && FibreOver(v, base, r.value, radius, pipeRadius, FIBER)
    ensures r.Success? ==>
      && successful == |r.value| && attempts == |outs| <= MAX_TOTAL_ATTEMPTS
      && (successful < numFilaments ==> attempts == MAX_TOTAL_ATTEMPTS)
    ensures var d := Shape(v);
      (radius <= d.nx - radius - 1 && radius <= d.ny - radius - 1 && 0 < d.nz
       && numBiased <= POOL_SIZE) ==> r.Success?
    ensures var d := Shape(v);
      numFilaments > 0 && !(radius <= d.nx - radius - 1 && radius <= d.ny - radius - 1 && 0 < d.nz) ==> r.Failure?
  {
    var d := Shape(v);
    var filaments: seq<seq<Point>> := [];
    starts, grown, flags, outs := [], [], [], [];
    successful := 0;
    attempts := 0;
    ghost var flag0 := gen.growFromStart;
    while successful < numFilaments && attempts < MAX_TOTAL_ATTEMPTS
      invariant 0 <= attempts <= MAX_TOTAL_ATTEMPTS
      invariant successful == |filaments| && attempts == |outs|
      invariant Record(base, d, flag0, gen.mode, numFilaments, minLength, maxLength, radius, pipeRadius, numBiased,
                       preferred, sinPi, oracles, filaments, starts, grown, flags, outs)
      invariant FibreOver(v, base, filaments, radius, pipeRadius, FIBER)
      invariant gen.growFromStart == FlagAfter(flag0, outs)
      invariant !Stopped(outs)
      invariant !(radius <= d.nx - radius - 1 && radius <= d.ny - radius - 1 && 0 < d.nz) ==> attempts == 0
      decreases MAX_TOTAL_ATTEMPTS - attempts
    {
      var res;
      res, filaments, starts, grown, flags, outs := PlaceNext(v, gen, numFilaments, minLength, maxLength, radius, pipeRadius,
        numBiased, preferred, sinPi, oracles, attempts, base, flag0, filaments, starts, grown, flags, outs);
      if res.Failure? {
        r := Failure(res.error);
        return;
      }
      successful := |filaments|;
      attempts := attempts + 1;
    }
    GoingDone(Step(base, d, flag0, gen.mode, minLength, maxLength, radius, pipeRadius, numBiased, preferred, sinPi, oracles),
              numFilaments, MAX_TOTAL_ATTEMPTS, outs);
    r := Success(filaments);
  }

  /** The position round n of the void pass draws from the listed positions. */
  function Drawn(positions: seq<Point>, draws: nat -> nat, n: nat): Point
    requires |positions| > 0
  {
    positions[RandInt(0, |positions| - 1, draws(n)).value]
  }

  /** `add_many_small_resin_voids`: the resin positions are listed once, at call time,
      as `np.argwhere` lists them (`positions`); round n draws index n of that list
      with `random.randint` and clears the sphere around it (within the array and the
      pipe) to air. Rounds and voids are counted together, so the loop runs
      `min(numVoids, 100000)` times, or not at all when there is no resin. `centers`
      lists the drawn positions. */
  method AddManySmallResinVoids(v: array3<real>, numVoids: int, voidRadius: nat, pipeRadius: int, draws: nat -> nat)
    returns (added: nat, ghost positions: seq<Point>, ghost centers: seq<Point>)
    modifies v
    ensures forall n | 0 <= n < |positions| ::
      InArray(positions[n], Shape(v)) && old(v[positions[n].x, positions[n].y, positions[n].z]) == RESIN
    ensures forall i, j, k | 0 <= i < v.Length0 && 0 <= j < v.Length1 && 0 <= k < v.Length2 && old(v[i, j, k]) == RESIN ::
      Point(i, j, k) in positions
    ensures forall m, n | 0 <= m < n < |positions| :: LexLess(positions[m], positions[n])
    ensures |centers| == added
    ensures added == if |positions| == 0 then 0 else Min(Max(numVoids, 0), MAX_VOID_ATTEMPTS)
    ensures forall n | 0 <= n < |centers| ::
      |positions| > 0 && centers[n] == positions[RandInt(0, |positions| - 1, draws(n)).value]
    ensures (forall i, j, k | 0 <= i < v.Length0 && 0 <= j < v.Length1 && 0 <= k < v.Length2 :: old(v[i, j, k]) != RESIN) ==>
      added == 0
    ensures (exists i, j, k | 0 <= i < v.Length0 && 0 <= j < v.Length1 && 0 <= k < v.Length2 :: old(v[i, j, k]) == RESIN) ==>
      added == Min(Max(numVoids, 0), MAX_VOID_ATTEMPTS)
    ensures forall n | 0 <= n < |centers| ::
      InArray(centers[n], Shape(v)) && old(v[centers[n].x, centers[n].y, centers[n].z]) == RESIN
    ensures forall i, j, k | 0 <= i < v.Length0 && 0 <= j < v.Length1 && 0 <= k < v.Length2 ::
      v[i, j, k] == if Covered(centers, voidRadius, Shape(v), pipeRadius, Point(i, j, k)) then AIR else old(v[i, j, k])
  {
    var ps := ArgWhere(v, RESIN);
    positions := ps;
    if |ps| == 0 {
      added, centers := 0, [];
      return;
    }
    ghost var p0 := positions[0];
    assert old(v[p0.x, p0.y, p0.z]) == RESIN;
    added, centers := PunchVoids(v, ps, numVoids, voidRadius, pipeRadius, draws);
    forall n | 0 <= n < |centers| ensures centers[n] in positions {
      assert centers[n] == Drawn(positions, draws, n);
    }
  }

  /** The rounds of the void pass over the listed positions `ps`: round n clears the
      sphere around `Drawn(ps, draws, n)`, for `min(numVoids, 100000)` rounds. */
  method PunchVoids(v: array3<real>, ps: seq<Point>, numVoids: int, voidRadius: nat, pipeRadius: int, draws: nat -> nat)
    returns (added: nat, ghost centers: seq<Point>)
    requires |ps| > 0
    modifies v
    ensures added == |centers| == Min(Max(numVoids, 0), MAX_VOID_ATTEMPTS)
    ensures forall n | 0 <= n < |centers| :: centers[n] == Drawn(ps, draws, n)
    ensures forall i, j, k | 0 <= i < v.Length0 && 0 <= j < v.Length1 && 0 <= k < v.Length2 ::
      v[i, j, k] == if Covered(centers, voidRadius, Shape(v), pipeRadius, Point(i, j, k)) then AIR else old(v[i, j, k])
  {
    var d := Shape(v);
    added := 0;
    centers := [];
    var attempts := 0;
    while added < numVoids && attempts < MAX_VOID_ATTEMPTS
      invariant added == attempts == |centers| <= MAX_VOID_ATTEMPTS
      invariant added <= Max(numVoids, 0)
      invariant forall n | 0 <= n < |centers| :: centers[n] == Drawn(ps, draws, n)
      invariant forall i, j, k | 0 <= i < v.Length0 && 0 <= j < v.Length1 && 0 <= k < v.Length2 ::
        v[i, j, k] == if Covered(centers, voidRadius, d, pipeRadius, Point(i, j, k)) then AIR else old(v[i, j, k])
    {
      var index := RandInt(0, |ps| - 1, draws(attempts));
      var c := ps[index.value];
      Stamp(v, c, voidRadius, pipeRadius, AIR);
      forall q: Point ensures Covered(centers + [c], voidRadius, d, pipeRadius, q) ==
                              (Covered(centers, voidRadius, d, pipeRadius, q) || InStamp(c, voidRadius, d, pipeRadius, q)) {
        CoveredSnoc(centers, c, voidRadius, d, pipeRadius, q);
      }
      centers := centers + [c];
      added := added + 1;
      attempts := attempts + 1;
    }
  }

  /** The voxel-wise outcome of the stages after placement: resin in the pipe's remaining
      air, air in the voids, then the defect's cuts. */
  function Finished(a: real, q: Point, d: Dims, pipeRadius: int, centers: seq<Point>, cuts: seq<Cut>): real
  {
    var filled := ResinFill(a, InPipe(q, d, pipeRadius));
    AfterCuts(cuts, q, if Covered(centers, VOID_RADIUS, d, VOID_PIPE_RADIUS, q) then AIR else filled)
  }

  /** The voxel-wise outcome of the pipeline: fibre on the placed filaments over the
      initial volume, then the stages after placement. */
  function Pipeline(a: real, q: Point, d: Dims, fs: seq<seq<Point>>, radius: nat, pipeRadius: int,
                    centers: seq<Point>, cuts: seq<Cut>): (b: real)
    ensures Zeroed(cuts, q) || Covered(centers, VOID_RADIUS, d, VOID_PIPE_RADIUS, q) ==> b == AIR
    ensures !Zeroed(cuts, q) && !Covered(centers, VOID_RADIUS, d, VOID_PIPE_RADIUS, q) ==>
      b == ResinFill(if CoveredAny(fs, radius, d, pipeRadius, q) then FIBER else a, InPipe(q, d, pipeRadius))
    ensures b == AIR || b == RESIN || b == FIBER || b == a
    ensures !Zeroed(cuts, q) && !Covered(centers, VOID_RADIUS, d, VOID_PIPE_RADIUS, q) ==>
      && (InPipe(q, d, pipeRadius) ==> b != AIR)
      && (CoveredAny(fs, radius, d, pipeRadius, q) ==> b == FIBER)
      && (!CoveredAny(fs, radius, d, pipeRadius, q) && !InPipe(q, d, pipeRadius) ==> b == a)
  {
    Finished(if CoveredAny(fs, radius, d, pipeRadius, q) then FIBER else a, q, d, pipeRadius, centers, cuts)
  }

  /** The stages of `generate_and_count_filaments` after placement: fill the pipe with
      resin, add 100 voids of radius 1 (with the void pass's default pipe radius 125),
      and apply the defect. `positions` are the resin voxels after the fill in row-major
      order; there are 100 void rounds when there is resin and none otherwise, and
      round n is centred at the position that void draw n picks from `positions`. */
  method FinishVolume(v: array3<real>, pipeRadius: int, defect: Defect, voidDraws: nat -> nat)
    returns (ghost positions: seq<Point>, ghost centers: seq<Point>)
    requires DefectDefined(defect, Shape(v))
    modifies v
    ensures forall i, j, k | 0 <= i < v.Length0 && 0 <= j < v.Length1 && 0 <= k < v.Length2 ::
      v[i, j, k] == Finished(old(v[i, j, k]), Point(i, j, k), Shape(v), pipeRadius, centers,
                             AllCuts(defect.kind, defect.params, Shape(v)))
    ensures forall n | 0 <= n < |positions| ::
      && InArray(positions[n], Shape(v))
      && ResinFill(old(v[positions[n].x, positions[n].y, positions[n].z]), InPipe(positions[n], Shape(v), pipeRadius)) == RESIN
    ensures forall i, j, k | 0 <= i < v.Length0 && 0 <= j < v.Length1 && 0 <= k < v.Length2 &&
                             ResinFill(old(v[i, j, k]), InPipe(Point(i, j, k), Shape(v), pipeRadius)) == RESIN ::
      Point(i, j, k) in positions
    ensures forall m, n | 0 <= m < n < |positions| :: LexLess(positions[m], positions[n])
    ensures |centers| == if |positions| == 0 then 0 else NUM_VOIDS
    ensures forall n | 0 <= n < |centers| :: |positions| > 0 && centers[n] == Drawn(positions, voidDraws, n)
    ensures forall n | 0 <= n < |centers| ::
      && InArray(centers[n], Shape(v))
      && ResinFill(old(v[centers[n].x, centers[n].y, centers[n].z]), InPipe(centers[n], Shape(v), pipeRadius)) == RESIN
  {
    FillPipeWithResin(v, pipeRadius);
    var added;
    added, positions, centers := AddManySmallResinVoids(v, NUM_VOIDS, VOID_RADIUS, VOID_PIPE_RADIUS, voidDraws);
    ApplyDefect(v, defect);
  }

  /** `generate_and_count_filaments`: place the filaments, fill the pipe with resin,
      add 100 voids of radius 1 (with the void pass's default pipe radius 125, not
      the driver's), and apply the defect. The result is the number of filaments and
      the filaments. `positions` are the resin voxels after the fill, in row-major
      order, and `centers` the void centres drawn from them, each a resin voxel after
      the fill. */
  method GenerateAndCountFilaments(v: array3<real>, numFilaments: int, gen: PointGenerator, defect: Defect,
                                   pipeRadius: int, minLength: int, maxLength: int, radius: nat, numBiased: int,
                                   preferred: Dir, sinPi: real -> real, oracles: nat -> Oracle, voidDraws: nat -> nat)
    returns (r: Result<(nat, seq<seq<Point>>)>, ghost positions: seq<Point>, ghost centers: seq<Point>,
             ghost base: imap<Point, real>, ghost outs: seq<Attempt>)
    requires DefectDefined(defect, Shape(v))
    modifies v, gen
    ensures Run(Step(base, Shape(v), old(gen.growFromStart), gen.mode, minLength, maxLength, radius, pipeRadius, numBiased,
                     preferred, sinPi, oracles), numFilaments, MAX_TOTAL_ATTEMPTS, outs)
    ensures r.Failure? <==> Stopped(outs)
    ensures r.Failure? ==> r.error == outs[|outs| - 1].res.error
    ensures r.Success? ==> r.value == (|Kept(outs)|, Kept(outs))
    ensures gen.growFromStart == FlagAfter(old(gen.growFromStart), outs)
    ensures forall q | InArray(q, Shape(v)) :: q in base && base[q] == old(v[q.x, q.y, q.z])
    ensures forall q | q in base :: InArray(q, Shape(v))
    ensures var d := Shape(v);
      (radius <= d.nx - radius - 1 && radius <= d.ny - radius - 1 && 0 < d.nz
       && numBiased <= POOL_SIZE) ==> r.Success?
    ensures var d := Shape(v);
      numFilaments > 0 && !(radius <= d.nx - radius - 1 && radius <= d.ny - radius - 1 && 0 < d.nz) ==> r.Failure?
    ensures r.Success? ==>
      var (successful, fs) := r.value;
      && successful == |fs| <= Max(0, numFilaments)
      && (forall n | 0 <= n < |fs| :: minLength <= |fs[n]| <= 1 + Max(0, 10 * maxLength))
      && (forall i, j, k | 0 <= i < v.Length0 && 0 <= j < v.Length1 && 0 <= k < v.Length2 ::
            v[i, j, k] == Pipeline(old(v[i, j, k]), Point(i, j, k), Shape(v), fs, radius, pipeRadius, centers,
                                   AllCuts(defect.kind, defect.params, Shape(v))))
      && (forall n | 0 <= n < |positions| ::
            && InArray(positions[n], Shape(v))
            && var c := positions[n];
               ResinFill(if CoveredAny(fs, radius, Shape(v), pipeRadius, c) then FIBER else old(v[c.x, c.y, c.z]),
                         InPipe(c, Shape(v), pipeRadius)) == RESIN)
      && (forall i, j, k | 0 <= i < v.Length0 && 0 <= j < v.Length1 && 0 <= k < v.Length2 &&
                           ResinFill(if CoveredAny(fs, radius, Shape(v), pipeRadius, Point(i, j, k)) then FIBER
                                     else old(v[i, j, k]), InPipe(Point(i, j, k), Shape(v), pipeRadius)) == RESIN ::
            Point(i, j, k) in positions)
      && (forall m, n | 0 <= m < n < |positions| :: LexLess(positions[m], positions[n]))
      && |centers| == (if |positions| == 0 then 0 else NUM_VOIDS)
      && (forall n | 0 <= n < |centers| :: |positions| > 0 && centers[n] == Drawn(positions, voidDraws, n))
      && (forall n | 0 <= n < |centers| ::
            && InArray(centers[n], Shape(v))
            && var c := centers[n];
               ResinFill(if CoveredAny(fs, radius, Shape(v), pipeRadius, c) then FIBER else old(v[c.x, c.y, c.z]),
                         InPipe(c, Shape(v), pipeRadius)) == RESIN)
  {
    positions, centers := [], [];
    base := imap q: Point | InArray(q, Shape(v)) :: v[q.x, q.y, q.z];
    var placed, successful, attempts;
    ghost var starts, grown, flags;
    placed, successful, attempts, starts, grown, flags, outs := PlaceFilaments(v, gen, numFilaments, minLength,
      maxLength, radius, pipeRadius, numBiased, preferred, sinPi, oracles, base);
    if placed.Failure? {
      r := Failure(placed.error);
      return;
    }
    forall i, j, k | 0 <= i < v.Length0 && 0 <= j < v.Length1 && 0 <= k < v.Length2
      ensures v[i, j, k] == if CoveredAny(placed.value, radius, Shape(v), pipeRadius, Point(i, j, k)) then FIBER else old(v[i, j, k])
    {
      assert InArray(Point(i, j, k), Shape(v));
    }
    positions, centers := FinishVolume(v, pipeRadius, defect, voidDraws);
    r := Success((successful, placed.value));
  }
}
