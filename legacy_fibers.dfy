/** The older root `generate_fibers.py`: the same predicates with fibre code 1, and
    fibres that grow by appending only. The straight variant builds the direction pool
    and draws one direction before its loop; the curved variant samples its start
    with numpy's exclusive `randint`. Each step's rounded next point, computed from
    the current end point in floating point, is an input. */
module LegacyFibers {
  import opened Wrappers
  import opened Voxels
  import opened Draws
  import opened Directions
  import opened Placement
  import opened LegacyStart

  const MAX_TOTAL_ATTEMPTS: int := 10000

  /** What the driver leaves at their defaults in `generate_3d_fiber`: bias 0.90 and
      preferred direction [1, 0, 0]. */
  const DEFAULT_NUM_BIASED: int := 90
  const DEFAULT_PREFERRED: Dir := Dir(1, 0, 0)

  /** The randomness one attempt consumes: the start draws, the pool sample, the
      initial direction choice, and the next point suggested from the current end
      point at each step. */
  datatype FiberOracle = FiberOracle(start: nat -> nat, sample: nat -> nat, choice: nat, next: (Point, nat) -> Point)

  /** The modes the driver dispatches on. */
  predicate KnownMode(mode: string)
  {
    mode == "straight" || mode == "curve"
  }

  /** The selected mode's start sampler has a non-empty range on every axis. */
  predicate SamplerRanges(mode: string, d: Dims, radius: int)
  {
    || (mode == "straight" && radius <= d.nx - radius - 1 && radius <= d.ny - radius - 1 && radius <= d.nz - radius - 1)
    || (mode == "curve" && radius < d.nx - radius - 1 && radius < d.ny - radius - 1 && radius < d.nz - radius - 1)
  }

  /** An append-only fibre: each point after the start is the suggestion made from
      the point before it, at that step. */
  ghost predicate FollowsSuggestions(f: seq<Point>, next: (Point, nat) -> Point)
  {
    forall n | 0 < n < |f| :: f[n] == next(f[n - 1], n - 1)
  }

  /** What the append-only loop of `budget` steps leaves, where `accept` holds the
      points that pass the checks against the volume it reads: every accepted point is
      the suggestion made from the point before it and passed the checks; growth
      stopped at the first suggestion that failed them unless the budget ran out
      first; and the fibre is kept exactly when it reached `minLength`. */
  ghost predicate AppendOutcome(accept: iset<Point>, start: Point, accepted: seq<Point>, budget: int, minLength: int,
                                next: (Point, nat) -> Point, r: Option<seq<Point>>)
  {
    && |accepted| <= Max(0, budget)
    && FollowsSuggestions([start] + accepted, next)
    && (forall n | 0 <= n < |accepted| :: accepted[n] in accept)
    && (|accepted| < budget ==> next(([start] + accepted)[|accepted|], |accepted|) !in accept)
    && (r.None? <==> 1 + |accepted| < minLength)
    && (r.Some? ==> r.value == [start] + accepted)
  }

  /** The outcome is a function of the start, the acceptable points and the suggestions. */
  lemma AppendOutcomeUnique(accept: iset<Point>, start: Point, budget: int, minLength: int, next: (Point, nat) -> Point,
                            a1: seq<Point>, r1: Option<seq<Point>>,
                            a2: seq<Point>, r2: Option<seq<Point>>)
    requires AppendOutcome(accept, start, a1, budget, minLength, next, r1)
    requires AppendOutcome(accept, start, a2, budget, minLength, next, r2)
    ensures a1 == a2 && r1 == r2
  {
    AppendNotShorter(accept, start, budget, minLength, next, a1, r1, a2, r2);
    AppendNotShorter(accept, start, budget, minLength, next, a2, r2, a1, r1);
    AppendPrefix(start, next, a1, a2);
    assert a1 == a2[..|a1|] == a2;
  }

  /** A run cannot stop before another that follows the same suggestions. */
  lemma AppendNotShorter(accept: iset<Point>, start: Point, budget: int, minLength: int, next: (Point, nat) -> Point,
                         a1: seq<Point>, r1: Option<seq<Point>>,
                         a2: seq<Point>, r2: Option<seq<Point>>)
    requires AppendOutcome(accept, start, a1, budget, minLength, next, r1)
    requires AppendOutcome(accept, start, a2, budget, minLength, next, r2)
    ensures |a2| <= |a1|
  {
    if |a1| < |a2| {
      AppendPrefix(start, next, a1, a2);
      AppendPrefixAccepted(accept, start, budget, minLength, next, a2, r2, a1);
      assert false;
    }
  }

  /** The suggestion made from the end of one of a run's own prefixes is the point the
      run accepted next. */
  lemma AppendPrefixAccepted(accept: iset<Point>, start: Point, budget: int, minLength: int, next: (Point, nat) -> Point,
                             accepted: seq<Point>, r: Option<seq<Point>>, prefix: seq<Point>)
    requires AppendOutcome(accept, start, accepted, budget, minLength, next, r)
    requires |prefix| < |accepted| && accepted[..|prefix|] == prefix
    ensures next(([start] + prefix)[|prefix|], |prefix|) in accept
  {
    var k := |prefix|;
    assert ([start] + accepted)[k + 1] == accepted[k];
    assert ([start] + accepted)[k] == ([start] + prefix)[k];
  }

  /** Two runs that follow the same suggestions agree on the shorter run's length. */
  lemma {:induction false} AppendPrefix(start: Point, next: (Point, nat) -> Point, a1: seq<Point>, a2: seq<Point>)
    requires |a1| <= |a2|
    requires FollowsSuggestions([start] + a1, next) && FollowsSuggestions([start] + a2, next)
    ensures a2[..|a1|] == a1
    decreases |a1|
  {
    if |a1| > 0 {
      var n := |a1| - 1;
      var b1 := a1[..n];
      assert [start] + b1 == ([start] + a1)[..n + 1];
      AppendPrefix(start, next, b1, a2);
      assert ([start] + a1)[n + 1] == a1[n] && ([start] + a2)[n + 1] == a2[n];
      assert ([start] + a1)[n] == ([start] + a2)[n];
      assert a2[..|a1|] == a2[..n] + [a2[n]];
      assert a1 == b1 + [a1[n]];
    }
  }

  /** The growth loop shared by both variants: up to `maxLength` steps from `start`,
      stopping (or rejecting, when still short of `minLength`) at the first point that
      fails the checks. */
  method GrowFiber(v: array3<real>, start: Point, minLength: int, maxLength: int, radius: nat, pipeRadius: int,
                   next: (Point, nat) -> Point)
    returns (r: Option<seq<Point>>, ghost accepted: seq<Point>)
    ensures r.Some? ==>
      var f := r.value;
      && 1 <= |f| && minLength <= |f| <= Max(0, maxLength) + 1
      && f[0] == start
      && FollowsSuggestions(f, next)
      && (forall n | 0 < n < |f| :: Acceptable(v, f[n], radius, pipeRadius, LEGACY_FIBER))
    ensures r.Some? ==> accepted == r.value[1..]
    ensures AppendOutcome(Accepts(v, radius, pipeRadius, LEGACY_FIBER), start, accepted, maxLength, minLength, next, r)
  {
    accepted := [];
    var fiber := [start];
    var center := start;
    var step := 0;
    while step < maxLength
      invariant 0 <= step <= Max(0, maxLength)
      invariant |accepted| == step
      invariant fiber == [start] + accepted
      invariant center == fiber[|fiber| - 1]
      invariant FollowsSuggestions(fiber, next)
      invariant forall n | 0 <= n < |accepted| :: Acceptable(v, accepted[n], radius, pipeRadius, LEGACY_FIBER)
    {
      var p := next(center, step);
      var ok := CheckPoint(v, p, radius, pipeRadius, LEGACY_FIBER);
      if !ok {
        if |fiber| >= minLength {
          break;
        }
        return None, accepted;
      }
      fiber := fiber + [p];
      accepted := accepted + [p];
      center := p;
      step := step + 1;
    }
    if |fiber| < minLength {
      return None, accepted;
    }
    r := Some(fiber);
  }

  /** `generate_3d_fiber`: inclusive start sampling, the direction pool and one
      initial choice from it, then the growth loop. */
  method GenerateFiber(v: array3<real>, minLength: int, maxLength: int, radius: nat, pipeRadius: int,
                       numBiased: int, preferred: Dir, o: FiberOracle)
    returns (r: Result<Option<seq<Point>>>, ghost start: Point, ghost accepted: seq<Point>)
    ensures var s0 := StartSample(Shape(v), radius, o.start, 0);
      var s := FirstValid(false, Shape(v), radius, pipeRadius, o.start, 0);
      && (r.Failure? <==> s0.Failure? || (s.Some? && numBiased > POOL_SIZE))
      && (r.Failure? ==> r.error == if s0.Failure? then s0.error else DirectionPool(preferred, numBiased, o.sample).error)
      && (s0.Success? && s.None? ==> r == Success(None))
      && (r.Success? && s.Some? ==>
            start == s.value
            && AppendOutcome(Accepts(v, radius, pipeRadius, LEGACY_FIBER), start, accepted, maxLength, minLength, o.next, r.value))
      && (!(r.Success? && s.Some?) ==> accepted == [])
    ensures r.Success? && r.value.Some? ==>
      var f := r.value.value;
      && 1 <= |f| && minLength <= |f| <= Max(0, maxLength) + 1
      && ValidStart(f[0], Shape(v), radius, pipeRadius)
      && FollowsSuggestions(f, o.next)
      && (forall n | 0 < n < |f| :: Acceptable(v, f[n], radius, pipeRadius, LEGACY_FIBER))
    ensures r.Success? && r.value.Some? ==> start == r.value.value[0] && accepted == r.value.value[1..]
  {
    var d := Shape(v);
    accepted := [];
    start := Point(0, 0, 0);
    var s, tries := SampleStart(d, radius, pipeRadius, o.start);
    if s.Failure? {
      r := Failure(s.error);
      return;
    }
    if s.value.None? {
      r := Success(None);
      return;
    }
    var center := s.value.value;
    start := center;
    var pool := DirectionPool(preferred, numBiased, o.sample);
    if pool.Failure? {
      r := Failure(pool.error);
      return;
    }
    DirectionPoolShape(preferred, numBiased, o.sample);
    var direction := Choice(pool.value, o.choice);
    var f;
    f, accepted := GrowFiber(v, center, minLength, maxLength, radius, pipeRadius, o.next);
    r := Success(f);
  }

  /** `generate_3d_fiber_curved`: exclusive start sampling and the growth loop; the
      bend acts only through the suggested points. */
  method GenerateFiberCurved(v: array3<real>, minLength: int, maxLength: int, radius: nat, pipeRadius: int,
                             o: FiberOracle)
    returns (r: Result<Option<seq<Point>>>, ghost start: Point, ghost accepted: seq<Point>)
    ensures r.Failure? <==> NpStartSample(Shape(v), radius, o.start, 0).Failure?
    ensures r.Failure? ==> r.error == NpStartSample(Shape(v), radius, o.start, 0).error
    ensures var s := FirstValid(true, Shape(v), radius, pipeRadius, o.start, 0);
      && (r.Success? && s.None? ==> r == Success(None))
      && (r.Success? && s.Some? ==>
            start == s.value
            && AppendOutcome(Accepts(v, radius, pipeRadius, LEGACY_FIBER), start, accepted, maxLength, minLength, o.next, r.value))
      && (!(r.Success? && s.Some?) ==> accepted == [])
    ensures r.Success? && r.value.Some? ==>
      var f := r.value.value;
      && 1 <= |f| && minLength <= |f| <= Max(0, maxLength) + 1
      && ValidStart(f[0], Shape(v), radius, pipeRadius)
      && f[0].x < Shape(v).nx - radius - 1 && f[0].y < Shape(v).ny - radius - 1 && f[0].z < Shape(v).nz - radius - 1
      && FollowsSuggestions(f, o.next)
      && (forall n | 0 < n < |f| :: Acceptable(v, f[n], radius, pipeRadius, LEGACY_FIBER))
    ensures r.Success? && r.value.Some? ==> start == r.value.value[0] && accepted == r.value.value[1..]
  {
    var d := Shape(v);
    accepted := [];
    start := Point(0, 0, 0);
    var s, tries := NpSampleStart(d, radius, pipeRadius, o.start);
    if s.Failure? {
      r := Failure(s.error);
      return;
    }
    if s.value.None? {
      r := Success(None);
      return;
    }
    var center := s.value.value;
    start := center;
    var f;
    f, accepted := GrowFiber(v, center, minLength, maxLength, radius, pipeRadius, o.next);
    r := Success(f);
  }

  /** Python's message for reading `fiber` before any branch assigned it. */
  const UNBOUND_FIBER: string := "local variable 'fiber' referenced before assignment"

  /** What one call of the driver's mode dispatch yields, given the points `accept`
      that pass the checks against the volume it reads: for an unknown mode a
      NameError; otherwise an exception exactly when the mode's sampling range is
      empty (the draw's error; the default bias of 90 percent never fails the pool),
      a rejected attempt when none of the 1000 samples passes, and else the
      append-only loop's outcome from the first passing sample. Nothing is grown
      unless the loop runs. */
  ghost predicate FiberOutcome(accept: iset<Point>, d: Dims, mode: string, minLength: int, maxLength: int, radius: nat,
                               pipeRadius: int, o: FiberOracle, r: Result<Option<seq<Point>>>, accepted: seq<Point>)
  {
    && (!KnownMode(mode) ==> r == Failure(NameError(UNBOUND_FIBER)) && accepted == [])
    && (KnownMode(mode) ==>
          var s0 := TrySample(mode == "curve", d, radius, o.start, 0);
          var s := FirstValid(mode == "curve", d, radius, pipeRadius, o.start, 0);
          && (r.Failure? <==> s0.Failure?)
          && (r.Failure? ==> r.error == s0.error)
          && (s0.Success? && s.None? ==> r == Success(None))
          && (r.Success? && s.Some? ==> AppendOutcome(accept, s.value, accepted, maxLength, minLength, o.next, r.value))
          && (!(r.Success? && s.Some?) ==> accepted == []))
  }

  /** One call's result and grown points are determined by the mode, the acceptable
      points and the randomness. */
  lemma FiberOutcomeUnique(accept: iset<Point>, d: Dims, mode: string, minLength: int, maxLength: int, radius: nat,
                           pipeRadius: int, o: FiberOracle,
                           r1: Result<Option<seq<Point>>>, a1: seq<Point>, r2: Result<Option<seq<Point>>>, a2: seq<Point>)
    requires FiberOutcome(accept, d, mode, minLength, maxLength, radius, pipeRadius, o, r1, a1)
    requires FiberOutcome(accept, d, mode, minLength, maxLength, radius, pipeRadius, o, r2, a2)
    ensures r1 == r2 && a1 == a2
  {
    if KnownMode(mode) {
      var s := FirstValid(mode == "curve", d, radius, pipeRadius, o.start, 0);
      if r1.Success? && s.Some? {
        AppendOutcomeUnique(accept, s.value, maxLength, minLength, o.next, a1, r1.value, a2, r2.value);
      }
    }
  }

  /** The fibre the selected mode generates; a mode other than `straight` and `curve`
      leaves `fiber` unbound, which Python reports as an UnboundLocalError, a
      NameError. */
  method GenerateByMode(v: array3<real>, mode: string, minLength: int, maxLength: int, radius: nat, pipeRadius: int,
                        o: FiberOracle)
    returns (r: Result<Option<seq<Point>>>, ghost start: Point, ghost accepted: seq<Point>)
    ensures FiberOutcome(Accepts(v, radius, pipeRadius, LEGACY_FIBER), Shape(v), mode, minLength, maxLength, radius,
                         pipeRadius, o, r, accepted)
    ensures KnownMode(mode) ==>
      var s := FirstValid(mode == "curve", Shape(v), radius, pipeRadius, o.start, 0);
      r.Success? && s.Some? ==> start == s.value
    ensures r.Success? && r.value.Some? ==>
      var f := r.value.value;
      && 1 <= |f| && minLength <= |f| <= Max(0, maxLength) + 1
      && ValidStart(f[0], Shape(v), radius, pipeRadius)
      && FollowsSuggestions(f, o.next)
      && (forall n | 0 < n < |f| :: Acceptable(v, f[n], radius, pipeRadius, LEGACY_FIBER))
    ensures r.Success? && r.value.Some? ==> start == r.value.value[0] && accepted == r.value.value[1..]
  {
    if mode == "straight" {
      r, start, accepted := GenerateFiber(v, minLength, maxLength, radius, pipeRadius, DEFAULT_NUM_BIASED,
                                          DEFAULT_PREFERRED, o);
    } else if mode == "curve" {
      r, start, accepted := GenerateFiberCurved(v, minLength, maxLength, radius, pipeRadius, o);
    } else {
      r, start, accepted := Failure(NameError(UNBOUND_FIBER)), Point(0, 0, 0), [];
    }
  }

  /** Chain n grew from `starts[n]` by the points `grown[n]`, from a start that passed
      the bounds and pipe tests, to an accepted length. */
  ghost predicate Placed(fs: seq<seq<Point>>, starts: seq<Point>, grown: seq<seq<Point>>, d: Dims, radius: nat,
                         pipeRadius: int, minLength: int, maxLength: int)
  {
    && |starts| == |fs| && |grown| == |fs|
    && forall n | 0 <= n < |fs| ::
         && fs[n] == [starts[n]] + grown[n]
         && ValidStart(starts[n], d, radius, pipeRadius)
         && minLength <= |fs[n]| <= Max(0, maxLength) + 1
  }

  lemma PlacedSnoc(fs: seq<seq<Point>>, starts: seq<Point>, grown: seq<seq<Point>>, f: seq<Point>, start: Point,
                   accepted: seq<Point>, d: Dims, radius: nat, pipeRadius: int, minLength: int, maxLength: int)
    requires Placed(fs, starts, grown, d, radius, pipeRadius, minLength, maxLength)
    requires f == [start] + accepted && ValidStart(start, d, radius, pipeRadius) && minLength <= |f| <= Max(0, maxLength) + 1
    ensures Placed(fs + [f], starts + [start], grown + [accepted], d, radius, pipeRadius, minLength, maxLength)
  {
  }

  /** One attempt of `generate_and_count_fibers`: generate and, on acceptance, write
      the fibre with code 1 (`update_volume_with_fiber`) before the next attempt. */
  method AttemptFiber(v: array3<real>, mode: string, minLength: int, maxLength: int, radius: nat, pipeRadius: int,
                      o: FiberOracle, ghost base: imap<Point, real>, ghost fs: seq<seq<Point>>,
                      ghost grown: seq<seq<Point>>)
    returns (res: Result<Option<seq<Point>>>, ghost start: Point, ghost accepted: seq<Point>)
    requires FibreOver(v, base, fs, radius, pipeRadius, LEGACY_FIBER)
    requires GrownClear(base, fs, grown, radius, Shape(v), pipeRadius, LEGACY_FIBER) && |grown| == |fs|
    modifies v
    ensures !KnownMode(mode) ==> res.Failure? && res.error.NameError?
    ensures SamplerRanges(mode, Shape(v), radius) ==> res.Success?
    ensures FiberOutcome(AcceptsIn(Overlay(base, fs, radius, Shape(v), pipeRadius, LEGACY_FIBER), Shape(v), radius, pipeRadius,
                                   LEGACY_FIBER),
                         Shape(v), mode, minLength, maxLength, radius, pipeRadius, o, res, accepted)
    ensures res.Success? ==>
      var fs' := if res.value.Some? then fs + [res.value.value] else fs;
      FibreOver(v, base, fs', radius, pipeRadius, LEGACY_FIBER)
    ensures res.Success? && res.value.Some? ==>
      var f := res.value.value;
      && f == [start] + accepted
      && ValidStart(start, Shape(v), radius, pipeRadius)
      && 1 <= |f| && minLength <= |f| <= Max(0, maxLength) + 1
      && GrownClear(base, fs + [f], grown + [accepted], radius, Shape(v), pipeRadius, LEGACY_FIBER)
  {
    FibreOverAccepts(v, base, fs, radius, pipeRadius, LEGACY_FIBER);
    res, start, accepted := GenerateByMode(v, mode, minLength, maxLength, radius, pipeRadius, o);
    if res.Success? && res.value.Some? {
      var f := res.value.value;
      forall n | 0 <= n < |f| ensures f[n] == start || f[n] in accepted {
        if n > 0 {
          assert f[n] == accepted[n - 1];
        }
      }
      RasteriseChain(v, f, start, accepted, radius, pipeRadius, LEGACY_FIBER, base, fs, grown);
    }
  }

  /** What attempt `|h|` of `generate_and_count_fibers` returns after the attempts
      `h`: the single-call outcome for its own randomness, on the initial volume with
      code 1 on the spheres of the fibres kept so far. */
  ghost function Step(base: imap<Point, real>, d: Dims, mode: string, minLength: int, maxLength: int, radius: nat,
                      pipeRadius: int, oracles: nat -> FiberOracle): (seq<Attempt>, Attempt) -> bool
  {
    (h: seq<Attempt>, x: Attempt) =>
      FiberOutcome(AcceptsIn(Overlay(base, Kept(h), radius, d, pipeRadius, LEGACY_FIBER), d, radius, pipeRadius, LEGACY_FIBER),
                   d, mode, minLength, maxLength, radius, pipeRadius, oracles(|h|), x.res, x.accepted)
  }

  /** The driver's run is determined by the initial volume, the mode and the
      randomness: two runs over the same inputs made the same attempts. */
  lemma RunDetermined(base: imap<Point, real>, d: Dims, numFibers: int, mode: string, minLength: int, maxLength: int,
                      radius: nat, pipeRadius: int, oracles: nat -> FiberOracle, o1: seq<Attempt>, o2: seq<Attempt>)
    requires Run(Step(base, d, mode, minLength, maxLength, radius, pipeRadius, oracles), numFibers, MAX_TOTAL_ATTEMPTS, o1)
    requires Run(Step(base, d, mode, minLength, maxLength, radius, pipeRadius, oracles), numFibers, MAX_TOTAL_ATTEMPTS, o2)
    ensures o1 == o2
  {
    var step := Step(base, d, mode, minLength, maxLength, radius, pipeRadius, oracles);
    forall h, x, y | step(h, x) && step(h, y) ensures x == y {
      var accept := AcceptsIn(Overlay(base, Kept(h), radius, d, pipeRadius, LEGACY_FIBER), d, radius, pipeRadius, LEGACY_FIBER);
      FiberOutcomeUnique(accept, d, mode, minLength, maxLength, radius, pipeRadius, oracles(|h|),
                         x.res, x.accepted, y.res, y.accepted);
    }
    RunUnique(step, numFibers, MAX_TOTAL_ATTEMPTS, o1, o2);
  }

  /** With an unknown mode the first attempt raises NameError, so a run that was
      asked for at least one fibre is that one attempt. */
  lemma UnknownModeStops(base: imap<Point, real>, d: Dims, want: int, mode: string, minLength: int, maxLength: int,
                         radius: nat, pipeRadius: int, oracles: nat -> FiberOracle, outs: seq<Attempt>)
    requires Run(Step(base, d, mode, minLength, maxLength, radius, pipeRadius, oracles), want, MAX_TOTAL_ATTEMPTS, outs)
    requires !KnownMode(mode) && want > 0
    ensures outs == [Attempt(Failure(NameError(UNBOUND_FIBER)), [])]
  {
    assert |outs| > 0;
    assert Step(base, d, mode, minLength, maxLength, radius, pipeRadius, oracles)(outs[..0], outs[0]);
    assert FiberOutcome(AcceptsIn(Overlay(base, Kept(outs[..0]), radius, d, pipeRadius, LEGACY_FIBER), d, radius, pipeRadius,
                                  LEGACY_FIBER),
                        d, mode, minLength, maxLength, radius, pipeRadius, oracles(0), outs[0].res, outs[0].accepted);
    assert outs[0] == Attempt(Failure(NameError(UNBOUND_FIBER)), []);
    assert outs == outs[..1];
  }

  /** When the mode's sampling ranges are non-empty no attempt raises, so a run
      never stops on an exception. */
  lemma RangesNeverStop(base: imap<Point, real>, d: Dims, want: int, mode: string, minLength: int, maxLength: int,
                        radius: nat, pipeRadius: int, oracles: nat -> FiberOracle, outs: seq<Attempt>)
    requires Run(Step(base, d, mode, minLength, maxLength, radius, pipeRadius, oracles), want, MAX_TOTAL_ATTEMPTS, outs)
    requires SamplerRanges(mode, d, radius)
    ensures !Stopped(outs)
  {
    if |outs| > 0 {
      var n := |outs| - 1;
      assert Step(base, d, mode, minLength, maxLength, radius, pipeRadius, oracles)(outs[..n], outs[n]);
      assert TrySample(mode == "curve", d, radius, oracles(n).start, 0).Success?;
    }
  }

  /** A run asked for no fibre makes no attempt. */
  lemma NoneWanted(outcome: (seq<Attempt>, Attempt) -> bool, want: int, outs: seq<Attempt>)
    requires Run(outcome, want, MAX_TOTAL_ATTEMPTS, outs) && want <= 0
    ensures outs == []
  {
    if |outs| > 0 {
      StepsLive(outcome, want, MAX_TOTAL_ATTEMPTS, outs, 0);
      assert false;
    }
  }

  /** What the driver's loop records about its attempts so far: the fibres are the
      ones its attempts kept, the attempts followed `Step` without raising, and each
      fibre's start, growth, shape and grown points are as placed. */
  ghost predicate Record(base: imap<Point, real>, d: Dims, want: int, mode: string, minLength: int, maxLength: int,
                         radius: nat, pipeRadius: int, oracles: nat -> FiberOracle,
                         fs: seq<seq<Point>>, starts: seq<Point>, grown: seq<seq<Point>>, outs: seq<Attempt>)
  {
    && fs == Kept(outs) && |fs| <= Max(0, want)
    && Going(Step(base, d, mode, minLength, maxLength, radius, pipeRadius, oracles), want, MAX_TOTAL_ATTEMPTS, outs)
    && Placed(fs, starts, grown, d, radius, pipeRadius, minLength, maxLength)
    && GrownClear(base, fs, grown, radius, d, pipeRadius, LEGACY_FIBER)
  }

  /** One more attempt, made while the loop condition held and returning the
      single-call outcome on the current overlay: the record grows by it, or the run
      is finished if it raised. */
  lemma RecordSnoc(base: imap<Point, real>, d: Dims, want: int, mode: string, minLength: int, maxLength: int,
                   radius: nat, pipeRadius: int, oracles: nat -> FiberOracle,
                   fs: seq<seq<Point>>, starts: seq<Point>, grown: seq<seq<Point>>, outs: seq<Attempt>,
                   res: Result<Option<seq<Point>>>, start: Point, accepted: seq<Point>)
    requires Record(base, d, want, mode, minLength, maxLength, radius, pipeRadius, oracles, fs, starts, grown, outs)
    requires |outs| < MAX_TOTAL_ATTEMPTS && |fs| < want
    requires FiberOutcome(AcceptsIn(Overlay(base, fs, radius, d, pipeRadius, LEGACY_FIBER), d, radius, pipeRadius, LEGACY_FIBER),
                          d, mode, minLength, maxLength, radius, pipeRadius, oracles(|outs|), res, accepted)
    requires res.Success? && res.value.Some? ==>
      var f := res.value.value;
      && f == [start] + accepted
      && ValidStart(start, d, radius, pipeRadius)
      && minLength <= |f| <= Max(0, maxLength) + 1
      && GrownClear(base, fs + [f], grown + [accepted], radius, d, pipeRadius, LEGACY_FIBER)
    ensures res.Failure? ==>
      Run(Step(base, d, mode, minLength, maxLength, radius, pipeRadius, oracles), want, MAX_TOTAL_ATTEMPTS,
          outs + [Attempt(res, accepted)])
    ensures res.Success? && res.value.Some? ==>
      Record(base, d, want, mode, minLength, maxLength, radius, pipeRadius, oracles,
             fs + [res.value.value], starts + [start], grown + [accepted], outs + [Attempt(res, accepted)])
    ensures res.Success? && res.value.None? ==>
      Record(base, d, want, mode, minLength, maxLength, radius, pipeRadius, oracles, fs, starts, grown,
             outs + [Attempt(res, accepted)])
  {
    var step := Step(base, d, mode, minLength, maxLength, radius, pipeRadius, oracles);
    var x := Attempt(res, accepted);
    assert step(outs, x);
    GoingSnoc(step, want, MAX_TOTAL_ATTEMPTS, outs, x);
    KeptSnoc(outs, x);
    if res.Success? && res.value.Some? {
      PlacedSnoc(fs, starts, grown, res.value.value, start, accepted, d, radius, pipeRadius, minLength, maxLength);
    }
  }

  /** One pass of the driver's loop: an attempt on the current volume, and the fibre
      appended if one was accepted. The record and the volume are brought up to
      date, or the run is finished if the attempt raised. */
  method PlaceNext(v: array3<real>, numFibers: int, mode: string, pipeRadius: int, minLength: int, maxLength: int,
                   radius: nat, oracles: nat -> FiberOracle, attempts: nat, ghost base: imap<Point, real>,
                   fs: seq<seq<Point>>, ghost starts: seq<Point>, ghost grown: seq<seq<Point>>, ghost outs: seq<Attempt>)
    returns (res: Result<Option<seq<Point>>>, fs': seq<seq<Point>>,
             ghost starts': seq<Point>, ghost grown': seq<seq<Point>>, ghost outs': seq<Attempt>)
    requires Record(base, Shape(v), numFibers, mode, minLength, maxLength, radius, pipeRadius, oracles, fs, starts, grown, outs)
    requires FibreOver(v, base, fs, radius, pipeRadius, LEGACY_FIBER)
    requires attempts == |outs| < MAX_TOTAL_ATTEMPTS && |fs| < numFibers
    modifies v
    ensures |outs'| == |outs| + 1
    ensures res.Failure? ==>
      && Run(Step(base, Shape(v), mode, minLength, maxLength, radius, pipeRadius, oracles), numFibers, MAX_TOTAL_ATTEMPTS, outs')
      && Stopped(outs') && outs'[|outs|].res.error == res.error
    ensures res.Success? ==>
      && Record(base, Shape(v), numFibers, mode, minLength, maxLength, radius, pipeRadius, oracles, fs', starts', grown', outs')
      && FibreOver(v, base, fs', radius, pipeRadius, LEGACY_FIBER)
      && !Stopped(outs')
  {
    ghost var start, accepted;
    res, start, accepted := AttemptFiber(v, mode, minLength, maxLength, radius, pipeRadius, oracles(attempts), base, fs, grown);
    RecordSnoc(base, Shape(v), numFibers, mode, minLength, maxLength, radius, pipeRadius, oracles,
               fs, starts, grown, outs, res, start, accepted);
    outs' := outs + [Attempt(res, accepted)];
    fs', starts', grown' := fs, starts, grown;
    if res.Success? && res.value.Some? {
      fs', starts', grown' := fs + [res.value.value], starts + [start], grown + [accepted];
    }
  }

  /** The loop of `generate_and_count_fibers`: attempts until `numFibers` are placed
      or 10000 attempts are spent. `base` is the volume the loop starts from. The run
      of attempts is `outs`: it followed `Step`, a raise ends it with that error, and
      otherwise its kept fibres are the result, placed as `Record` says and written
      over `base`. */
  method PlaceFibers(v: array3<real>, numFibers: int, mode: string, pipeRadius: int, minLength: int, maxLength: int,
                     radius: nat, oracles: nat -> FiberOracle, ghost base: imap<Point, real>)
    returns (r: Result<seq<seq<Point>>>, successful: nat, attempts: nat,
             ghost starts: seq<Point>, ghost grown: seq<seq<Point>>, ghost outs: seq<Attempt>)
    requires FibreOver(v, base, [], radius, pipeRadius, LEGACY_FIBER)
    modifies v
    ensures Run(Step(base, Shape(v), mode, minLength, maxLength, radius, pipeRadius, oracles), numFibers, MAX_TOTAL_ATTEMPTS, outs)
    ensures r.Failure? <==> Stopped(outs)
    ensures r.Failure? ==> r.error == outs[|outs| - 1].res.error
    ensures r.Success? ==>
      && Record(base, Shape(v), numFibers, mode, minLength, maxLength, radius, pipeRadius, oracles, r.value, starts, grown, outs)
      && FibreOver(v, base, r.value, radius, pipeRadius, LEGACY_FIBER)
    ensures r.Success? ==>
      && successful == |r.value| && attempts == |outs| <= MAX_TOTAL_ATTEMPTS
      && (successful < numFibers ==> attempts == MAX_TOTAL_ATTEMPTS)
  {
    var d := Shape(v);
    var fibers: seq<seq<Point>> := [];
    starts, grown, outs := [], [], [];
    successful := 0;
    attempts := 0;
    while successful < numFibers && attempts < MAX_TOTAL_ATTEMPTS
      invariant 0 <= attempts <= MAX_TOTAL_ATTEMPTS
      invariant successful == |fibers| && attempts == |outs|
      invariant Record(base, d, numFibers, mode, minLength, maxLength, radius, pipeRadius, oracles, fibers, starts, grown, outs)
      invariant FibreOver(v, base, fibers, radius, pipeRadius, LEGACY_FIBER)
      invariant !Stopped(outs)
      decreases MAX_TOTAL_ATTEMPTS - attempts
    {
      var res;
      res, fibers, starts, grown, outs := PlaceNext(v, numFibers, mode, pipeRadius, minLength, maxLength, radius, oracles,
                                                    attempts, base, fibers, starts, grown, outs);
      if res.Failure? {
        r := Failure(res.error);
        return;
      }
      successful := |fibers|;
      attempts := attempts + 1;
    }
    GoingDone(Step(base, d, mode, minLength, maxLength, radius, pipeRadius, oracles), numFibers, MAX_TOTAL_ATTEMPTS, outs);
    r := Success(fibers);
  }

  /** The ValueError payload for `np.linspace` asked for a negative number of samples.
      numpy's message also quotes the count; the count is not formatted here. */
  const NEGATIVE_SAMPLES: string := "Number of samples must be non-negative"

  /** `generate_and_count_fibers`: the loop's run, then `plot_fibers` builds one
      colour per requested fibre with `np.linspace`, which rejects a negative count.
      A negative count makes no attempt. With an unknown mode the first attempt
      fails, so the call fails whenever a fibre is requested. */
  method GenerateAndCountFibers(v: array3<real>, numFibers: int, mode: string, pipeRadius: int, minLength: int,
                                maxLength: int, radius: nat, oracles: nat -> FiberOracle)
    returns (r: Result<seq<seq<Point>>>, successful: nat, attempts: nat,
             ghost starts: seq<Point>, ghost grown: seq<seq<Point>>, ghost base: imap<Point, real>,
             ghost outs: seq<Attempt>)
    modifies v
    ensures Run(Step(base, Shape(v), mode, minLength, maxLength, radius, pipeRadius, oracles), numFibers, MAX_TOTAL_ATTEMPTS, outs)
    ensures Stopped(outs) ==> r.Failure? && r.error == outs[|outs| - 1].res.error
    ensures numFibers < 0 ==> outs == [] && r == Failure(ValueError(NEGATIVE_SAMPLES))
    ensures r.Failure? <==> Stopped(outs) || numFibers < 0
    ensures r.Success? ==> r.value == Kept(outs) && attempts == |outs|
    ensures !KnownMode(mode) ==> (r.Success? <==> numFibers == 0)
    ensures SamplerRanges(mode, Shape(v), radius) && numFibers >= 0 ==> r.Success?
    ensures r.Success? ==>
      var fs := r.value;
      && successful == |fs| <= Max(0, numFibers)
      && attempts <= MAX_TOTAL_ATTEMPTS
      && (successful < numFibers ==> attempts == MAX_TOTAL_ATTEMPTS)
      && |starts| == |grown| == |fs|
      && (forall n | 0 <= n < |fs| ::
            && fs[n] == [starts[n]] + grown[n]
            && ValidStart(starts[n], Shape(v), radius, pipeRadius)
            && minLength <= |fs[n]| <= Max(0, maxLength) + 1)
    ensures r.Success? ==>
      forall i, j, k | 0 <= i < v.Length0 && 0 <= j < v.Length1 && 0 <= k < v.Length2 ::
        v[i, j, k] == if CoveredAny(r.value, radius, Shape(v), pipeRadius, Point(i, j, k)) then LEGACY_FIBER else old(v[i, j, k])
    ensures forall q | InArray(q, Shape(v)) :: q in base && base[q] == old(v[q.x, q.y, q.z])
    ensures forall q | q in base :: InArray(q, Shape(v))
    ensures r.Success? ==> GrownClear(base, r.value, grown, radius, Shape(v), pipeRadius, LEGACY_FIBER)
  {
    var d := Shape(v);
    base := imap q: Point | InArray(q, d) :: v[q.x, q.y, q.z];
    r, successful, attempts, starts, grown, outs :=
      PlaceFibers(v, numFibers, mode, pipeRadius, minLength, maxLength, radius, oracles, base);
    ghost var step := Step(base, d, mode, minLength, maxLength, radius, pipeRadius, oracles);
    if numFibers <= 0 {
      NoneWanted(step, numFibers, outs);
    } else if !KnownMode(mode) {
      UnknownModeStops(base, d, numFibers, mode, minLength, maxLength, radius, pipeRadius, oracles, outs);
    }
    if SamplerRanges(mode, d, radius) {
      RangesNeverStop(base, d, numFibers, mode, minLength, maxLength, radius, pipeRadius, oracles, outs);
    }
    if r.Success? && numFibers < 0 {
      r := Failure(ValueError(NEGATIVE_SAMPLES));
    }
  }
}
