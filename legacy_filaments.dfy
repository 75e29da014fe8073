/** The older root `generate_filaments.py`: the same predicates with fibre code 1, a
    sampled start, and growth that alternates between the two ends through a local
    flag that starts set. The root generator's suggestion is an input: given the
    chain, the flag and the step, it yields the rounded next point. */
module LegacyFilaments {
  import opened Wrappers
  import opened Voxels
  import opened Draws
  import opened Directions
  import opened Growth
  import opened Placement
  import opened LegacyStart

  const MAX_TOTAL_ATTEMPTS: int := 10000

  /** The randomness one attempt consumes: the start draws, the pool sample, the
      per-step direction choices, and the generator's suggestions. */
  datatype LegacyOracle = LegacyOracle(start: nat -> nat, sample: nat -> nat, choice: nat -> nat,
                                       next: (seq<Point>, bool, nat) -> Point)

  /** What one call of the root `generate_3d_filament` yields, given the points
      `accept` that pass the checks against the volume it reads: an exception for an
      empty sampling range (the draw's error) or, once a start is found, for a bias
      above 100 percent (the pool's error); a rejected attempt when none of the 1000
      samples passes; otherwise the alternating growth loop's outcome from the first
      passing sample, with the flag set at first. Nothing is grown unless the loop
      runs. */
  ghost predicate LegacyOutcome(accept: iset<Point>, d: Dims, minLength: int, maxLength: int, radius: nat,
                                pipeRadius: int, numBiased: int, preferred: Dir, o: LegacyOracle,
                                r: Result<Option<seq<Point>>>, accepted: seq<Point>)
  {
    var s0 := StartSample(d, radius, o.start, 0);
    var s := FirstValid(false, d, radius, pipeRadius, o.start, 0);
    && (r.Failure? <==> s0.Failure? || (s.Some? && numBiased > POOL_SIZE))
    && (r.Failure? ==> r.error == if s0.Failure? then s0.error else DirectionPool(preferred, numBiased, o.sample).error)
    && (s0.Success? && s.None? ==> r == Success(None))
    && (r.Success? && s.Some? ==> GrowthOutcome(accept, s.value, accepted, true, 10 * maxLength, minLength, o.next, r.value))
    && (!(r.Success? && s.Some?) ==> accepted == [])
  }

  /** One call's result and grown points are determined by the acceptable points and
      the randomness. */
  lemma OutcomeUnique(accept: iset<Point>, d: Dims, minLength: int, maxLength: int, radius: nat, pipeRadius: int,
                      numBiased: int, preferred: Dir, o: LegacyOracle,
                      r1: Result<Option<seq<Point>>>, a1: seq<Point>, r2: Result<Option<seq<Point>>>, a2: seq<Point>)
    requires LegacyOutcome(accept, d, minLength, maxLength, radius, pipeRadius, numBiased, preferred, o, r1, a1)
    requires LegacyOutcome(accept, d, minLength, maxLength, radius, pipeRadius, numBiased, preferred, o, r2, a2)
    ensures r1 == r2 && a1 == a2
  {
    var s := FirstValid(false, d, radius, pipeRadius, o.start, 0);
    if r1.Success? && s.Some? {
      GrowthOutcomeUnique(accept, s.value, true, 10 * maxLength, minLength, o.next, a1, r1.value, a2, r2.value);
    }
  }

  /** The root `generate_3d_filament`. `Success(None)` is a rejected attempt (no
      start in 1000 samples, or a chain short of `minLength`); `Failure` is a Python
      exception (an empty sampling range, or a bias above 100 percent). The volume
      is only read. */
  method GenerateFilament(v: array3<real>, minLength: int, maxLength: int, radius: nat, pipeRadius: int,
                          numBiased: int, preferred: Dir, o: LegacyOracle)
    returns (r: Result<Option<seq<Point>>>, ghost start: Point, ghost accepted: seq<Point>)
    ensures LegacyOutcome(Accepts(v, radius, pipeRadius, LEGACY_FIBER), Shape(v), minLength, maxLength, radius, pipeRadius,
                          numBiased, preferred, o, r, accepted)
    ensures var s := FirstValid(false, Shape(v), radius, pipeRadius, o.start, 0);
      r.Success? && s.Some? ==> start == s.value
    ensures r.Success? && r.value.Some? ==>
      var f := r.value.value;
      && 1 <= |f| && minLength <= |f| <= 1 + Max(0, 10 * maxLength)
      && ValidStart(f[Fronts(true, |f| - 1)], Shape(v), radius, pipeRadius)
      && (forall x | x in f :: ValidStart(x, Shape(v), radius, pipeRadius))
    ensures r.Success? && r.value.Some? ==>
      var f := r.value.value;
      && f == Grown(start, accepted, true)
      && ValidStart(start, Shape(v), radius, pipeRadius)
      && (forall n | 0 <= n < |accepted| :: Acceptable(v, accepted[n], radius, pipeRadius, LEGACY_FIBER))
  {
    var d := Shape(v);
    accepted := [];
    var s, tries := SampleStart(d, radius, pipeRadius, o.start);
    start := Point(0, 0, 0);
    if s.Failure? {
      r := Failure(s.error);
      return;
    }
    if s.value.None? {
      r := Success(None);
      return;
    }
    var center := s.value.value;
    start := center;
    var pool := DirectionPool(preferred, numBiased, o.sample);
    if pool.Failure? {
      r := Failure(pool.error);
      return;
    }
    DirectionPoolShape(preferred, numBiased, o.sample);
    var f;
    f, accepted := Grow(v, center, pool.value, minLength, maxLength, radius, pipeRadius, preferred, o);
    r := Success(f);
  }

  /** The growth loop of the root `generate_3d_filament`: a local flag, set at first,
      picks the end each accepted point goes to and flips after it. */
  method Grow(v: array3<real>, start: Point, pool: seq<Dir>, minLength: int, maxLength: int, radius: nat,
              pipeRadius: int, preferred: Dir, o: LegacyOracle)
    returns (r: Option<seq<Point>>, ghost accepted: seq<Point>)
    requires |pool| > 0
    ensures r.Some? ==>
      var f := r.value;
      && 1 <= |f| && minLength <= |f| <= 1 + Max(0, 10 * maxLength)
      && f[Fronts(true, |f| - 1)] == start
      && (forall x | x in f && x != start :: Acceptable(v, x, radius, pipeRadius, LEGACY_FIBER))
    ensures r.Some? ==>
      && r.value == Grown(start, accepted, true)
      && (forall n | 0 <= n < |accepted| :: Acceptable(v, accepted[n], radius, pipeRadius, LEGACY_FIBER))
    ensures GrowthOutcome(Accepts(v, radius, pipeRadius, LEGACY_FIBER), start, accepted, true, 10 * maxLength, minLength,
                          o.next, r)
  {
    accepted := [];
    var filament := [start];
    var direction := preferred;
    var growFromStart := true;
    var numSteps := maxLength * 10;
    var step := 0;
    while step < numSteps
      invariant 0 <= step <= Max(0, numSteps)
      invariant |accepted| == step
      invariant filament == Grown(start, accepted, true)
      invariant growFromStart == FlagAt(true, |accepted|)
      invariant forall n | 0 <= n < |accepted| :: Acceptable(v, accepted[n], radius, pipeRadius, LEGACY_FIBER)
      invariant FollowsNext(start, accepted, true, o.next)
    {
      var p := o.next(filament, growFromStart, step);
      var ok := CheckPoint(v, p, radius, pipeRadius, LEGACY_FIBER);
      if !ok {
        if |filament| >= minLength {
          break;
        }
        return None, accepted;
      }
      if growFromStart {
        filament := [p] + filament;
      } else {
        filament := filament + [p];
      }
      GrownNext(start, accepted, true, p);
      FlagAtNext(true, |accepted|);
      FollowsNextSnoc(start, accepted, true, o.next, p);
      accepted := accepted + [p];
      growFromStart := !growFromStart;
      direction := Choice(pool, o.choice(step));
      step := step + 1;
    }
    if |filament| < minLength {
      return None, accepted;
    }
    GrownStartIndex(start, accepted, true);
    forall x | x in filament && x != start ensures Acceptable(v, x, radius, pipeRadius, LEGACY_FIBER) {
      var n :| 0 <= n < |accepted| && accepted[n] == x;
    }
    r := Some(filament);
  }

  /** Chain n grew from `starts[n]` by the points `grown[n]`, from a start that passed
      the bounds and pipe tests, to an accepted length. */
  ghost predicate Placed(fs: seq<seq<Point>>, starts: seq<Point>, grown: seq<seq<Point>>, d: Dims, radius: nat,
                         pipeRadius: int, minLength: int, maxLength: int)
  {
    && |starts| == |fs| && |grown| == |fs|
    && forall n | 0 <= n < |fs| ::
         && fs[n] == Grown(starts[n], grown[n], true)
         && ValidStart(starts[n], d, radius, pipeRadius)
         && minLength <= |fs[n]| <= 1 + Max(0, 10 * maxLength)
  }

  lemma PlacedSnoc(fs: seq<seq<Point>>, starts: seq<Point>, grown: seq<seq<Point>>, f: seq<Point>, start: Point,
                   accepted: seq<Point>, d: Dims, radius: nat, pipeRadius: int, minLength: int, maxLength: int)
    requires Placed(fs, starts, grown, d, radius, pipeRadius, minLength, maxLength)
    requires f == Grown(start, accepted, true) && ValidStart(start, d, radius, pipeRadius) && minLength <= |f| <= 1 + Max(0, 10 * maxLength)
    ensures Placed(fs + [f], starts + [start], grown + [accepted], d, radius, pipeRadius, minLength, maxLength)
  {
  }

  /** One attempt of the root driver: grow a chain and, if it is accepted, write it
      with code 1 before the next attempt. */
  method AttemptFilament(v: array3<real>, minLength: int, maxLength: int, radius: nat, pipeRadius: int,
                         numBiased: int, preferred: Dir, o: LegacyOracle, ghost base: imap<Point, real>,
                         ghost fs: seq<seq<Point>>, ghost grown: seq<seq<Point>>)
    returns (res: Result<Option<seq<Point>>>, ghost start: Point, ghost accepted: seq<Point>)
    requires FibreOver(v, base, fs, radius, pipeRadius, LEGACY_FIBER)
    requires GrownClear(base, fs, grown, radius, Shape(v), pipeRadius, LEGACY_FIBER) && |grown| == |fs|
    modifies v
    ensures var d := Shape(v);
      (radius <= d.nx - radius - 1 && radius <= d.ny - radius - 1 && radius <= d.nz - radius - 1
       && numBiased <= POOL_SIZE) ==> res.Success?
    ensures var d := Shape(v); !(radius <= d.nx - radius - 1 && radius <= d.ny - radius - 1 && radius <= d.nz - radius - 1) ==> res.Failure?
    ensures LegacyOutcome(AcceptsIn(Overlay(base, fs, radius, Shape(v), pipeRadius, LEGACY_FIBER), Shape(v), radius, pipeRadius,
                                    LEGACY_FIBER),
                          Shape(v), minLength, maxLength, radius, pipeRadius, numBiased, preferred, o, res, accepted)
    ensures res.Success? ==>
      var fs' := if res.value.Some? then fs + [res.value.value] else fs;
      FibreOver(v, base, fs', radius, pipeRadius, LEGACY_FIBER)
    ensures res.Success? && res.value.Some? ==>
      var f := res.value.value;
      && f == Grown(start, accepted, true)
      && ValidStart(start, Shape(v), radius, pipeRadius)
      && minLength <= |f| <= 1 + Max(0, 10 * maxLength)
      && GrownClear(base, fs + [f], grown + [accepted], radius, Shape(v), pipeRadius, LEGACY_FIBER)
  {
    FibreOverAccepts(v, base, fs, radius, pipeRadius, LEGACY_FIBER);
    res, start, accepted := GenerateFilament(v, minLength, maxLength, radius, pipeRadius, numBiased, preferred, o);
    if res.Success? && res.value.Some? {
      GrownMembers(start, accepted, true);
      RasteriseChain(v, res.value.value, start, accepted, radius, pipeRadius, LEGACY_FIBER, base, fs, grown);
    }
  }

  /** What attempt `|h|` of the root driver returns after the attempts `h`: the
      single-call outcome for its own randomness, on the initial volume with code 1
      on the spheres of the filaments kept so far. */
  ghost function Step(base: imap<Point, real>, d: Dims, minLength: int, maxLength: int, radius: nat, pipeRadius: int,
                      numBiased: int, preferred: Dir, oracles: nat -> LegacyOracle): (seq<Attempt>, Attempt) -> bool
  {
    (h: seq<Attempt>, x: Attempt) =>
      LegacyOutcome(AcceptsIn(Overlay(base, Kept(h), radius, d, pipeRadius, LEGACY_FIBER), d, radius, pipeRadius, LEGACY_FIBER),
                    d, minLength, maxLength, radius, pipeRadius, numBiased, preferred, oracles(|h|), x.res, x.accepted)
  }

  /** The driver's run is determined by the initial volume and the randomness: two
      runs over the same inputs made the same attempts, so placed the same filaments
      or raised the same exception. */
  lemma RunDetermined(base: imap<Point, real>, d: Dims, numFilaments: int, minLength: int, maxLength: int, radius: nat,
                      pipeRadius: int, numBiased: int, preferred: Dir, oracles: nat -> LegacyOracle,
                      o1: seq<Attempt>, o2: seq<Attempt>)
    requires Run(Step(base, d, minLength, maxLength, radius, pipeRadius, numBiased, preferred, oracles),
                 numFilaments, MAX_TOTAL_ATTEMPTS, o1)
    requires Run(Step(base, d, minLength, maxLength, radius, pipeRadius, numBiased, preferred, oracles),
                 numFilaments, MAX_TOTAL_ATTEMPTS, o2)
    ensures o1 == o2
  {
    var step := Step(base, d, minLength, maxLength, radius, pipeRadius, numBiased, preferred, oracles);
    forall h, x, y | step(h, x) && step(h, y) ensures x == y {
      var accept := AcceptsIn(Overlay(base, Kept(h), radius, d, pipeRadius, LEGACY_FIBER), d, radius, pipeRadius, LEGACY_FIBER);
      OutcomeUnique(accept, d, minLength, maxLength, radius, pipeRadius, numBiased, preferred, oracles(|h|),
                    x.res, x.accepted, y.res, y.accepted);
    }
    RunUnique(step, numFilaments, MAX_TOTAL_ATTEMPTS, o1, o2);
  }

  /** What the root driver's loop records about its attempts so far: the filaments
      are the ones its attempts kept, the attempts followed `Step` without raising,
      and each filament's start, growth, shape and grown points are as placed. */
  ghost predicate Record(base: imap<Point, real>, d: Dims, want: int, minLength: int, maxLength: int, radius: nat,
                         pipeRadius: int, numBiased: int, preferred: Dir, oracles: nat -> LegacyOracle,
                         fs: seq<seq<Point>>, starts: seq<Point>, grown: seq<seq<Point>>, outs: seq<Attempt>)
  {
    && fs == Kept(outs) && |fs| <= Max(0, want)
    && Going(Step(base, d, minLength, maxLength, radius, pipeRadius, numBiased, preferred, oracles), want, MAX_TOTAL_ATTEMPTS, outs)
    && Placed(fs, starts, grown, d, radius, pipeRadius, minLength, maxLength)
    && GrownClear(base, fs, grown, radius, d, pipeRadius, LEGACY_FIBER)
  }

  /** One more attempt, made while the loop condition held and returning the
      single-call outcome on the current overlay: the record grows by it, or the run
      is finished if it raised. */
  lemma RecordSnoc(base: imap<Point, real>, d: Dims, want: int, minLength: int, maxLength: int, radius: nat,
                   pipeRadius: int, numBiased: int, preferred: Dir, oracles: nat -> LegacyOracle,
                   fs: seq<seq<Point>>, starts: seq<Point>, grown: seq<seq<Point>>, outs: seq<Attempt>,
                   res: Result<Option<seq<Point>>>, start: Point, accepted: seq<Point>)
    requires Record(base, d, want, minLength, maxLength, radius, pipeRadius, numBiased, preferred, oracles, fs, starts, grown, outs)
    requires |outs| < MAX_TOTAL_ATTEMPTS && |fs| < want
    requires LegacyOutcome(AcceptsIn(Overlay(base, fs, radius, d, pipeRadius, LEGACY_FIBER), d, radius, pipeRadius, LEGACY_FIBER),
                           d, minLength, maxLength, radius, pipeRadius, numBiased, preferred, oracles(|outs|), res, accepted)
    requires res.Success? && res.value.Some? ==>
      var f := res.value.value;
      && f == Grown(start, accepted, true)
      && ValidStart(start, d, radius, pipeRadius)
      && minLength <= |f| <= 1 + Max(0, 10 * maxLength)
      && GrownClear(base, fs + [f], grown + [accepted], radius, d, pipeRadius, LEGACY_FIBER)
    ensures res.Failure? ==>
      Run(Step(base, d, minLength, maxLength, radius, pipeRadius, numBiased, preferred, oracles), want, MAX_TOTAL_ATTEMPTS,
          outs + [Attempt(res, accepted)])
    ensures res.Success? && res.value.Some? ==>
      Record(base, d, want, minLength, maxLength, radius, pipeRadius, numBiased, preferred, oracles,
             fs + [res.value.value], starts + [start], grown + [accepted], outs + [Attempt(res, accepted)])
    ensures res.Success? && res.value.None? ==>
      Record(base, d, want, minLength, maxLength, radius, pipeRadius, numBiased, preferred, oracles,
             fs, starts, grown, outs + [Attempt(res, accepted)])
  {
    var step := Step(base, d, minLength, maxLength, radius, pipeRadius, numBiased, preferred, oracles);
    var x := Attempt(res, accepted);
    assert step(outs, x);
    GoingSnoc(step, want, MAX_TOTAL_ATTEMPTS, outs, x);
    KeptSnoc(outs, x);
    if res.Success? && res.value.Some? {
      PlacedSnoc(fs, starts, grown, res.value.value, start, accepted, d, radius, pipeRadius, minLength, maxLength);
    }
  }

  /** One pass of the root driver's loop: an attempt on the current volume, and the
      filament appended if one was accepted. The record and the volume are brought
      up to date, or the run is finished if the attempt raised. */
  method PlaceNext(v: array3<real>, numFilaments: int, pipeRadius: int, minLength: int, maxLength: int, radius: nat,
                   numBiased: int, preferred: Dir, oracles: nat -> LegacyOracle, attempts: nat, ghost base: imap<Point, real>,
                   fs: seq<seq<Point>>, ghost starts: seq<Point>, ghost grown: seq<seq<Point>>, ghost outs: seq<Attempt>)
    returns (res: Result<Option<seq<Point>>>, fs': seq<seq<Point>>,
             ghost starts': seq<Point>, ghost grown': seq<seq<Point>>, ghost outs': seq<Attempt>)
    requires Record(base, Shape(v), numFilaments, minLength, maxLength, radius, pipeRadius, numBiased, preferred, oracles,
                    fs, starts, grown, outs)
    requires FibreOver(v, base, fs, radius, pipeRadius, LEGACY_FIBER)
    requires attempts == |outs| < MAX_TOTAL_ATTEMPTS && |fs| < numFilaments
    modifies v
    ensures |outs'| == |outs| + 1
    ensures res.Failure? ==>
      && Run(Step(base, Shape(v), minLength, maxLength, radius, pipeRadius, numBiased, preferred, oracles), numFilaments,
             MAX_TOTAL_ATTEMPTS, outs')
      && Stopped(outs') && outs'[|outs|].res.error == res.error
    ensures res.Success? ==>
      && Record(base, Shape(v), numFilaments, minLength, maxLength, radius, pipeRadius, numBiased, preferred, oracles,
                fs', starts', grown', outs')
      && FibreOver(v, base, fs', radius, pipeRadius, LEGACY_FIBER)
      && !Stopped(outs')
    ensures var d := Shape(v);
      (radius <= d.nx - radius - 1 && radius <= d.ny - radius - 1 && radius <= d.nz - radius - 1
       && numBiased <= POOL_SIZE) ==> res.Success?
    ensures var d := Shape(v); !(radius <= d.nx - radius - 1 && radius <= d.ny - radius - 1 && radius <= d.nz - radius - 1) ==> res.Failure?
  {
    ghost var start, accepted;
    res, start, accepted := AttemptFilament(v, minLength, maxLength, radius, pipeRadius, numBiased, preferred,
                                            oracles(attempts), base, fs, grown);
    RecordSnoc(base, Shape(v), numFilaments, minLength, maxLength, radius, pipeRadius, numBiased, preferred, oracles,
               fs, starts, grown, outs, res, start, accepted);
    outs' := outs + [Attempt(res, accepted)];
    fs', starts', grown' := fs, starts, grown;
    if res.Success? && res.value.Some? {
      fs', starts', grown' := fs + [res.value.value], starts + [start], grown + [accepted];
    }
  }

  /** The loop of the root `generate_and_count_filaments`: attempts until
      `numFilaments` are placed or 10000 attempts are spent, each accepted filament
      written with code 1 before the next attempt. `base` is the volume the loop
      starts from. The run of attempts is `outs`: it followed `Step`, a raise ends
      it with that error, and otherwise its kept filaments are the result, placed
      as `Record` says and written over `base`. */
  method PlaceFilaments(v: array3<real>, numFilaments: int, pipeRadius: int, minLength: int, maxLength: int,
                        radius: nat, numBiased: int, preferred: Dir, oracles: nat -> LegacyOracle, ghost base: imap<Point, real>)
    returns (r: Result<seq<seq<Point>>>, successful: nat, attempts: nat,
             ghost starts: seq<Point>, ghost grown: seq<seq<Point>>, ghost outs: seq<Attempt>)
    requires FibreOver(v, base, [], radius, pipeRadius, LEGACY_FIBER)
    modifies v
    ensures Run(Step(base, Shape(v), minLength, maxLength, radius, pipeRadius, numBiased, preferred, oracles),
                numFilaments, MAX_TOTAL_ATTEMPTS, outs)
    ensures r.Failure? <==> Stopped(outs)
    ensures r.Failure? ==> r.error == outs[|outs| - 1].res.error
    ensures r.Success? ==>
      && Record(base, Shape(v), numFilaments, minLength, maxLength, radius, pipeRadius, numBiased, preferred, oracles,
                r.value, starts, grown, outs)
      && FibreOver(v, base, r.value, radius, pipeRadius, LEGACY_FIBER)
    ensures r.Success? ==>
      && successful == |r.value| && attempts == |outs| <= MAX_TOTAL_ATTEMPTS
      && (successful < numFilaments ==> attempts == MAX_TOTAL_ATTEMPTS)
    ensures var d := Shape(v);
      (radius <= d.nx - radius - 1 && radius <= d.ny - radius - 1 && radius <= d.nz - radius - 1
       && numBiased <= POOL_SIZE) ==> r.Success?
    ensures var d := Shape(v); numFilaments > 0 && !(radius <= d.nx - radius - 1 && radius <= d.ny - radius - 1 && radius <= d.nz - radius - 1) ==> r.Failure?
  {
    var d := Shape(v);
    var filaments: seq<seq<Point>> := [];
    starts, grown, outs := [], [], [];
    successful := 0;
    attempts := 0;
    while successful < numFilaments && attempts < MAX_TOTAL_ATTEMPTS
      invariant 0 <= attempts <= MAX_TOTAL_ATTEMPTS
      invariant successful == |filaments| && attempts == |outs|
      invariant Record(base, d, numFilaments, minLength, maxLength, radius, pipeRadius, numBiased, preferred, oracles,
                       filaments, starts, grown, outs)
      invariant FibreOver(v, base, filaments, radius, pipeRadius, LEGACY_FIBER)
      invariant !Stopped(outs)
      invariant !(radius <= d.nx - radius - 1 && radius <= d.ny - radius - 1 && radius <= d.nz - radius - 1) ==> attempts == 0
      decreases MAX_TOTAL_ATTEMPTS - attempts
    {
      var res;
      res, filaments, starts, grown, outs := PlaceNext(v, numFilaments, pipeRadius, minLength, maxLength, radius, numBiased,
                                                       preferred, oracles, attempts, base, filaments, starts, grown, outs);
      if res.Failure? {
        r := Failure(res.error);
        return;
      }
      successful := |filaments|;
      attempts := attempts + 1;
    }
    GoingDone(Step(base, d, minLength, maxLength, radius, pipeRadius, numBiased, preferred, oracles),
              numFilaments, MAX_TOTAL_ATTEMPTS, outs);
    r := Success(filaments);
  }

  /** The root `generate_and_count_filaments` over the volume it is given: the loop's
      run, counts, the chains' shape, fibre exactly on the filaments' spheres over
      the initial volume, and grown points clear of earlier fibre. */
  method GenerateAndCountFilaments(v: array3<real>, numFilaments: int, pipeRadius: int, minLength: int, maxLength: int,
                                   radius: nat, numBiased: int, preferred: Dir, oracles: nat -> LegacyOracle)
    returns (r: Result<seq<seq<Point>>>, successful: nat, attempts: nat,
             ghost starts: seq<Point>, ghost grown: seq<seq<Point>>, ghost base: imap<Point, real>,
             ghost outs: seq<Attempt>)
    modifies v
    ensures Run(Step(base, Shape(v), minLength, maxLength, radius, pipeRadius, numBiased, preferred, oracles),
                numFilaments, MAX_TOTAL_ATTEMPTS, outs)
    ensures r.Failure? <==> Stopped(outs)
    ensures r.Failure? ==> r.error == outs[|outs| - 1].res.error
    ensures r.Success? ==> r.value == Kept(outs) && attempts == |outs|
    ensures var d := Shape(v);
      (radius <= d.nx - radius - 1 && radius <= d.ny - radius - 1 && radius <= d.nz - radius - 1
       && numBiased <= POOL_SIZE) ==> r.Success?
    ensures var d := Shape(v); numFilaments > 0 && !(radius <= d.nx - radius - 1 && radius <= d.ny - radius - 1 && radius <= d.nz - radius - 1) ==> r.Failure?
    ensures r.Success? ==>
      var fs := r.value;
      && successful == |fs| <= Max(0, numFilaments)
      && attempts <= MAX_TOTAL_ATTEMPTS
      && (successful < numFilaments ==> attempts == MAX_TOTAL_ATTEMPTS)
      && |starts| == |grown| == |fs|
      && (forall n | 0 <= n < |fs| ::
            && fs[n] == Grown(starts[n], grown[n], true)
            && ValidStart(starts[n], Shape(v), radius, pipeRadius)
            && minLength <= |fs[n]| <= 1 + Max(0, 10 * maxLength))
    ensures r.Success? ==>
      forall i, j, k | 0 <= i < v.Length0 && 0 <= j < v.Length1 && 0 <= k < v.Length2 ::
        v[i, j, k] == if CoveredAny(r.value, radius, Shape(v), pipeRadius, Point(i, j, k)) then LEGACY_FIBER else old(v[i, j, k])
    ensures forall q | InArray(q, Shape(v)) :: q in base && base[q] == old(v[q.x, q.y, q.z])
    ensures forall q | q in base :: InArray(q, Shape(v))
    ensures r.Success? ==> GrownClear(base, r.value, grown, radius, Shape(v), pipeRadius, LEGACY_FIBER)
  {
    var d := Shape(v);
    base := imap q: Point | InArray(q, d) :: v[q.x, q.y, q.z];
    r, successful, attempts, starts, grown, outs :=
      PlaceFilaments(v, numFilaments, pipeRadius, minLength, maxLength, radius, numBiased, preferred, oracles, base);
  }
}
