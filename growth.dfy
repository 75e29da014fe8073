/** Filament growth in the package (`generate_3d_filament`): validate a start point,
    build the direction pool, then for at most `10 * max_length` steps ask the
    generator for a point, accept it if it passes the bounds, pipe and sphere
    checks, insert it at the end the generator's flag names, and toggle the flag.
    Growth only reads the volume: the chain is rasterised by the caller after it is
    accepted, so its collision checks see earlier filaments only. */
module Growth {
  import opened Wrappers
  import opened Voxels
  import opened Draws
  import opened Directions
  import opened PointGenerators

  /** The randomness one call consumes: the start draws, the pool sample, the
      per-step direction choices and the per-step displacement for each heading; and
      the integer a NaN coordinate casts to on the running platform. */
  datatype Oracle = Oracle(start: nat -> nat, sample: nat -> nat, choice: nat -> nat, disp: nat -> real -> Vec,
                           nanCast: int)

  /** The flag in force when the n-th point (from 0) is accepted. */
  function FlagAt(flag0: bool, n: nat): bool
  {
    if n % 2 == 0 then flag0 else !flag0
  }

  lemma FlagAtNext(flag0: bool, n: nat)
    ensures FlagAt(flag0, n + 1) == !FlagAt(flag0, n)
  {
  }

  /** The chain after inserting `accepted` one by one into [start]: at the front while
      the flag is set, at the back otherwise, the flag flipping after each point. */
  function Grown(start: Point, accepted: seq<Point>, flag0: bool): (f: seq<Point>)
    ensures |f| == |accepted| + 1
    ensures forall x :: x in f <==> x == start || x in accepted
    decreases |accepted|
  {
    if |accepted| == 0 then [start]
    else
      var init := accepted[..|accepted| - 1];
      var p := accepted[|accepted| - 1];
      var f := Grown(start, init, flag0);
      assert forall x :: x in accepted <==> x in init || x == p by {
        assert accepted == init + [p];
      }
      if FlagAt(flag0, |init|) then [p] + f else f + [p]
  }

  /** Every position of the chain holds the start or an accepted point. */
  lemma GrownMembers(start: Point, accepted: seq<Point>, flag0: bool)
    ensures var f := Grown(start, accepted, flag0);
      forall n | 0 <= n < |f| :: f[n] == start || f[n] in accepted
  {
    var f := Grown(start, accepted, flag0);
    forall n | 0 <= n < |f| ensures f[n] == start || f[n] in accepted {
      assert f[n] in f;
    }
  }

  /** One more accepted point goes to the end the flag in force names. */
  lemma GrownNext(start: Point, accepted: seq<Point>, flag0: bool, p: Point)
    ensures Grown(start, accepted + [p], flag0) ==
      if FlagAt(flag0, |accepted|) then [p] + Grown(start, accepted, flag0) else Grown(start, accepted, flag0) + [p]
  {
    assert (accepted + [p])[..|accepted|] == accepted;
  }

  /** How many of n accepted points went to the front. */
  function Fronts(flag0: bool, n: nat): nat
  {
    if flag0 then (n + 1) / 2 else n / 2
  }

  /** The start point sits where the front insertions left it: growth alternates
      between the two ends, so the chain extends about evenly on both sides. */
  lemma {:induction false} GrownStartIndex(start: Point, accepted: seq<Point>, flag0: bool)
    ensures Fronts(flag0, |accepted|) <= |accepted|
    ensures Grown(start, accepted, flag0)[Fronts(flag0, |accepted|)] == start
    decreases |accepted|
  {
    if |accepted| > 0 {
      var init := accepted[..|accepted| - 1];
      GrownStartIndex(start, init, flag0);
      var n := |init|;
      if FlagAt(flag0, n) {
        assert Fronts(flag0, n + 1) == Fronts(flag0, n) + 1;
      } else {
        assert Fronts(flag0, n + 1) == Fronts(flag0, n);
      }
    }
  }

  /** The points in front of the start are the ones accepted while the flag was set,
      newest first: the m-th point before the start is accepted point 2m (flag set
      at first) or 2m + 1 (flag clear at first). */
  lemma {:induction false} GrownFront(start: Point, accepted: seq<Point>, flag0: bool, m: nat)
    requires m < Fronts(flag0, |accepted|)
    ensures var i := if flag0 then 2 * m else 2 * m + 1;
      i < |accepted| && Grown(start, accepted, flag0)[Fronts(flag0, |accepted|) - 1 - m] == accepted[i]
    decreases |accepted|
  {
    var n := |accepted| - 1;
    var init := accepted[..n];
    var p := accepted[n];
    var i := if flag0 then 2 * m else 2 * m + 1;
    assert accepted == init + [p];
    GrownNext(start, init, flag0, p);
    var f := Grown(start, init, flag0);
    if FlagAt(flag0, n) {
      assert Fronts(flag0, n + 1) == Fronts(flag0, n) + 1;
      assert Grown(start, accepted, flag0) == [p] + f;
      if m < Fronts(flag0, n) {
        GrownFront(start, init, flag0, m);
        assert Grown(start, accepted, flag0)[Fronts(flag0, n) - m] == f[Fronts(flag0, n) - 1 - m];
      } else {
        assert n % 2 == 0 <==> flag0;
        assert i == n;
      }
    } else {
      assert Fronts(flag0, n + 1) == Fronts(flag0, n);
      assert Grown(start, accepted, flag0) == f + [p];
      GrownFront(start, init, flag0, m);
      assert Grown(start, accepted, flag0)[Fronts(flag0, n) - 1 - m] == f[Fronts(flag0, n) - 1 - m];
    }
  }

  /** The points accepted so far are the suggestions made, step by step, from the
      chain they had built: `next(chain, flag, step)` is the generator's suggestion. */
  ghost predicate FollowsNext(start: Point, accepted: seq<Point>, flag0: bool, next: (seq<Point>, bool, nat) -> Point)
  {
    forall n {:trigger accepted[n]} | 0 <= n < |accepted| ::
      accepted[n] == next(Grown(start, accepted[..n], flag0), FlagAt(flag0, n), n)
  }

  /** What a growth loop of `budget` steps leaves, as the source decides it, where
      `accept` holds the points that pass the bounds, pipe and sphere checks against
      the volume the loop reads: every accepted point is the suggestion made from the
      chain so far and passed the checks; growth stopped at the first suggestion that
      failed them unless the step budget ran out first; and the chain is kept exactly
      when it reached `minLength` ("truncate if long enough, otherwise reject"). */
  ghost predicate GrowthOutcome(accept: iset<Point>, start: Point, accepted: seq<Point>, flag0: bool, budget: int,
                                minLength: int, next: (seq<Point>, bool, nat) -> Point, r: Option<seq<Point>>)
  {
    && |accepted| <= Max(0, budget)
    && FollowsNext(start, accepted, flag0, next)
    && (forall n | 0 <= n < |accepted| :: accepted[n] in accept)
    && (|accepted| < budget ==> next(Grown(start, accepted, flag0), FlagAt(flag0, |accepted|), |accepted|) !in accept)
    && (r.None? <==> 1 + |accepted| < minLength)
    && (r.Some? ==> r.value == Grown(start, accepted, flag0))
  }

  /** The outcome is a function of its inputs: two runs from the same start, volume
      and suggestions accept the same points and return the same chain. */
  lemma GrowthOutcomeUnique(accept: iset<Point>, start: Point, flag0: bool, budget: int, minLength: int,
                            next: (seq<Point>, bool, nat) -> Point,
                            a1: seq<Point>, r1: Option<seq<Point>>, a2: seq<Point>, r2: Option<seq<Point>>)
    requires GrowthOutcome(accept, start, a1, flag0, budget, minLength, next, r1)
    requires GrowthOutcome(accept, start, a2, flag0, budget, minLength, next, r2)
    ensures a1 == a2 && r1 == r2
  {
    OutcomeNotShorter(accept, start, flag0, budget, minLength, next, a1, r1, a2, r2);
    OutcomeNotShorter(accept, start, flag0, budget, minLength, next, a2, r2, a1, r1);
    CommonPrefix(start, flag0, next, a1, a2);
    assert a1 == a2[..|a1|] == a2;
  }

  /** A run cannot stop before another one that follows the same suggestions: the
      second run accepted the very suggestion the first one rejected. */
  lemma OutcomeNotShorter(accept: iset<Point>, start: Point, flag0: bool, budget: int, minLength: int,
                          next: (seq<Point>, bool, nat) -> Point,
                          a1: seq<Point>, r1: Option<seq<Point>>, a2: seq<Point>, r2: Option<seq<Point>>)
    requires GrowthOutcome(accept, start, a1, flag0, budget, minLength, next, r1)
    requires GrowthOutcome(accept, start, a2, flag0, budget, minLength, next, r2)
    ensures |a2| <= |a1|
  {
    if |a1| < |a2| {
      CommonPrefix(start, flag0, next, a1, a2);
      PrefixSuggestionAccepted(accept, start, flag0, budget, minLength, next, a2, r2, a1);
      assert false;
    }
  }

  /** The suggestion a run made from one of its own prefixes is the point it accepted
      next, so it is in `accept`. */
  lemma PrefixSuggestionAccepted(accept: iset<Point>, start: Point, flag0: bool, budget: int, minLength: int,
                                 next: (seq<Point>, bool, nat) -> Point,
                                 accepted: seq<Point>, r: Option<seq<Point>>, prefix: seq<Point>)
    requires GrowthOutcome(accept, start, accepted, flag0, budget, minLength, next, r)
    requires |prefix| < |accepted| && accepted[..|prefix|] == prefix
    ensures next(Grown(start, prefix, flag0), FlagAt(flag0, |prefix|), |prefix|) in accept
  {
    assert accepted[|prefix|] == next(Grown(start, prefix, flag0), FlagAt(flag0, |prefix|), |prefix|);
  }

  /** Two runs that follow the same suggestions agree on the shorter run's length. */
  lemma {:induction false} CommonPrefix(start: Point, flag0: bool, next: (seq<Point>, bool, nat) -> Point,
                                        a1: seq<Point>, a2: seq<Point>)
    requires |a1| <= |a2|
    requires FollowsNext(start, a1, flag0, next) && FollowsNext(start, a2, flag0, next)
    ensures a2[..|a1|] == a1
    decreases |a1|
  {
    if |a1| > 0 {
      var n := |a1| - 1;
      var b1 := a1[..n];
      assert FollowsNext(start, b1, flag0, next) by {
        forall m | 0 <= m < |b1| ensures b1[m] == next(Grown(start, b1[..m], flag0), FlagAt(flag0, m), m) {
          assert b1[..m] == a1[..m];
        }
      }
      CommonPrefix(start, flag0, next, b1, a2);
      assert a1[..n] == a2[..n];
      assert a1[n] == a2[n];
      assert a2[..|a1|] == a2[..n] + [a2[n]];
      assert a1 == a1[..n] + [a1[n]];
    }
  }

  /** The package generator's suggestion at a step, as a function of the chain and the
      flag. The chain is never empty; the first alternative only makes the function
      total. */
  ghost function PackageNext(m: Mode, sinPi: real -> real, disp: nat -> real -> Vec, nanCast: int)
    : (seq<Point>, bool, nat) -> Point
  {
    (f: seq<Point>, flag: bool, n: nat) => if |f| == 0 then Point(0, 0, 0) else Suggestion(m, f, flag, sinPi, disp(n), nanCast)
  }

  /** What one call of `generate_3d_filament` yields, given the points `accept` that
      pass the checks against the volume it reads and the generator's flag `flag0`
      when it starts: an exception for an empty start range (the draw's error) or,
      from a valid start, for a bias above 100 percent (the pool's error); a rejected
      attempt for a start that fails the bounds or pipe test; otherwise the growth
      loop's outcome from that start. Nothing is grown unless the loop runs. */
  ghost predicate FilamentOutcome(accept: iset<Point>, d: Dims, flag0: bool, m: Mode, minLength: int, maxLength: int,
                                  radius: nat, pipeRadius: int, numBiased: int, preferred: Dir, sinPi: real -> real,
                                  o: Oracle, r: Result<Option<seq<Point>>>, accepted: seq<Point>)
  {
    var s := StartPoint(d, radius, o.start);
    && (r.Failure? <==> s.Failure? || (ValidStart(s.value, d, radius, pipeRadius) && numBiased > POOL_SIZE))
    && (r.Failure? ==> r.error == if s.Failure? then s.error else DirectionPool(preferred, numBiased, o.sample).error)
    && (s.Success? && !ValidStart(s.value, d, radius, pipeRadius) ==> r == Success(None))
    && (r.Success? && s.Success? && ValidStart(s.value, d, radius, pipeRadius) ==>
          GrowthOutcome(accept, s.value, accepted, flag0, 10 * maxLength, minLength,
                        PackageNext(m, sinPi, o.disp, o.nanCast), r.value))
    && (!(r.Success? && s.Success? && ValidStart(s.value, d, radius, pipeRadius)) ==> accepted == [])
  }

  /** One call's result and grown points are determined by the acceptable points,
      the flag, the mode and the randomness. */
  lemma FilamentOutcomeUnique(accept: iset<Point>, d: Dims, flag0: bool, m: Mode, minLength: int, maxLength: int,
                              radius: nat, pipeRadius: int, numBiased: int, preferred: Dir, sinPi: real -> real, o: Oracle,
                              r1: Result<Option<seq<Point>>>, a1: seq<Point>, r2: Result<Option<seq<Point>>>, a2: seq<Point>)
    requires FilamentOutcome(accept, d, flag0, m, minLength, maxLength, radius, pipeRadius, numBiased, preferred, sinPi, o, r1, a1)
    requires FilamentOutcome(accept, d, flag0, m, minLength, maxLength, radius, pipeRadius, numBiased, preferred, sinPi, o, r2, a2)
    ensures r1 == r2 && a1 == a2
  {
    var s := StartPoint(d, radius, o.start);
    if r1.Success? && s.Success? && ValidStart(s.value, d, radius, pipeRadius) {
      GrowthOutcomeUnique(accept, s.value, flag0, 10 * maxLength, minLength, PackageNext(m, sinPi, o.disp, o.nanCast),
                          a1, r1.value, a2, r2.value);
    }
  }

  /** `generate_3d_filament` of the package. The outcome is `Success(None)` for a
      rejected chain, `Success(Some(f))` for an accepted one, and `Failure` for a
      Python exception (an empty start range, or a bias above 100 percent).
      `accepted` lists the grown points in acceptance order. */
  method GenerateFilament(v: array3<real>, gen: PointGenerator, minLength: int, maxLength: int, radius: nat,
                          pipeRadius: int, numBiased: int, preferred: Dir, sinPi: real -> real, o: Oracle)
    returns (r: Result<Option<seq<Point>>>, ghost accepted: seq<Point>)
    modifies gen
    ensures FilamentOutcome(Accepts(v, radius, pipeRadius, FIBER), Shape(v), old(gen.growFromStart), gen.mode, minLength,
                            maxLength, radius, pipeRadius, numBiased, preferred, sinPi, o, r, accepted)
    ensures r.Success? && r.value.Some? ==>
      var f := r.value.value;
      var s := StartPoint(Shape(v), radius, o.start);
      && s.Success? && ValidStart(s.value, Shape(v), radius, pipeRadius)
      && minLength <= |f| <= 1 + Max(0, 10 * maxLength)
      && (forall x | x in f :: ValidStart(x, Shape(v), radius, pipeRadius))
    ensures gen.growFromStart == FlagAt(old(gen.growFromStart), |accepted|)
  {
    var d := Shape(v);
    accepted := [];
    var s := gen.InitializeStartingPoint(d, radius, o.start);
    if s.Failure? {
      r := Failure(s.error);
      return;
    }
    var start := s.value;
    if !(IsWithinBounds(start, d, radius) && IsWithinPipe(start, d.ny / 2, d.nz / 2, pipeRadius)) {
      r := Success(None);
      return;
    }
    var pool := DirectionPool(preferred, numBiased, o.sample);
    if pool.Failure? {
      r := Failure(pool.error);
      return;
    }
    DirectionPoolShape(preferred, numBiased, o.sample);
    var f;
    f, accepted := Grow(v, gen, start, pool.value, minLength, maxLength, radius, pipeRadius, preferred, sinPi, o);
    r := Success(f);
  }

  /** The growth loop of `generate_3d_filament`, from a valid start and a built pool:
      a rejected point ends growth, and the chain is kept only if it reached
      `minLength`. A direction is drawn from the pool after each accepted point; the
      package's generators do not read it. The generator is left holding the float
      point of the last step taken. */
  method Grow(v: array3<real>, gen: PointGenerator, start: Point, pool: seq<Dir>, minLength: int, maxLength: int,
              radius: nat, pipeRadius: int, preferred: Dir, sinPi: real -> real, o: Oracle)
    returns (r: Option<seq<Point>>, ghost accepted: seq<Point>)
    requires |pool| > 0
    requires ValidStart(start, Shape(v), radius, pipeRadius)
    modifies gen
    ensures r.Some? ==>
      && minLength <= |r.value| <= 1 + Max(0, 10 * maxLength)
      && (forall x | x in r.value :: ValidStart(x, Shape(v), radius, pipeRadius))
    ensures GrowthOutcome(Accepts(v, radius, pipeRadius, FIBER), start, accepted, old(gen.growFromStart), 10 * maxLength,
                          minLength, PackageNext(gen.mode, sinPi, o.disp, o.nanCast), r)
    ensures gen.growFromStart == FlagAt(old(gen.growFromStart), |accepted|)
    ensures 10 * maxLength <= 0 ==> gen.currentPoint == old(gen.currentPoint)
    ensures 10 * maxLength > 0 ==>
      gen.currentPoint == Some(StoredAt(gen.mode, start, accepted, old(gen.growFromStart), sinPi, o.disp,
                                        Min(|accepted|, 10 * maxLength - 1)))
  {
    accepted := [];
    var filament := [start];
    var direction := preferred;
    ghost var flag0 := gen.growFromStart;
    ghost var next := PackageNext(gen.mode, sinPi, o.disp, o.nanCast);
    var numSteps := maxLength * 10;
    var step := 0;
    ghost var last := 0;
    while step < numSteps
      invariant 0 <= step <= Max(0, numSteps)
      invariant |accepted| == step
      invariant filament == Grown(start, accepted, flag0)
      invariant gen.growFromStart == FlagAt(flag0, |accepted|)
      invariant FollowsNext(start, accepted, flag0, next)
      invariant forall n | 0 <= n < |accepted| :: Acceptable(v, accepted[n], radius, pipeRadius, FIBER)
      invariant step == 0 ==> gen.currentPoint == old(gen.currentPoint)
      invariant step > 0 ==> last == step - 1
      invariant step > 0 ==> gen.currentPoint == Some(StoredAt(gen.mode, start, accepted, flag0, sinPi, o.disp, last))
    {
      var ok;
      ok, filament, accepted := Advance(v, gen, start, filament, accepted, flag0, step, radius, pipeRadius, sinPi, o);
      last := step;
      if !ok {
        if |filament| >= minLength {
          break;
        }
        r := None;
        return;
      }
      direction := Choice(pool, o.choice(step));
      step := step + 1;
    }
    assert numSteps > 0 ==> last == Min(|accepted|, 10 * maxLength - 1);
    if |filament| < minLength {
      r := None;
      return;
    }
    ChainValid(v, start, accepted, flag0, radius, pipeRadius, FIBER);
    r := Some(filament);
  }

  /** One step of the loop: ask the generator for a point from the chain and check it;
      an accepted point goes to the end the flag names, and the flag flips. */
  method Advance(v: array3<real>, gen: PointGenerator, start: Point, filament: seq<Point>, ghost accepted: seq<Point>,
                 ghost flag0: bool, step: nat, radius: nat, pipeRadius: int, sinPi: real -> real, o: Oracle)
    returns (ok: bool, filament': seq<Point>, ghost accepted': seq<Point>)
    requires |accepted| == step && filament == Grown(start, accepted, flag0)
    requires gen.growFromStart == FlagAt(flag0, step)
    requires FollowsNext(start, accepted, flag0, PackageNext(gen.mode, sinPi, o.disp, o.nanCast))
    requires forall n | 0 <= n < |accepted| :: Acceptable(v, accepted[n], radius, pipeRadius, FIBER)
    modifies gen
    ensures var p := PackageNext(gen.mode, sinPi, o.disp, o.nanCast)(filament, FlagAt(flag0, step), step);
      && (ok <==> Acceptable(v, p, radius, pipeRadius, FIBER))
      && accepted' == if ok then accepted + [p] else accepted
    ensures filament' == Grown(start, accepted', flag0)
    ensures gen.growFromStart == FlagAt(flag0, |accepted'|)
    ensures FollowsNext(start, accepted', flag0, PackageNext(gen.mode, sinPi, o.disp, o.nanCast))
    ensures forall n | 0 <= n < |accepted'| :: Acceptable(v, accepted'[n], radius, pipeRadius, FIBER)
    ensures gen.currentPoint == Some(StoredAt(gen.mode, start, accepted', flag0, sinPi, o.disp, step))
  {
    ghost var next := PackageNext(gen.mode, sinPi, o.disp, o.nanCast);
    var p := gen.SuggestNextPoint(filament, sinPi, o.disp(step), o.nanCast);
    assert p == next(filament, gen.growFromStart, step);
    assert accepted[..step] == accepted;
    ok := CheckPoint(v, p, radius, pipeRadius, FIBER);
    if !ok {
      return ok, filament, accepted;
    }
    if gen.growFromStart {
      filament' := [p] + filament;
    } else {
      filament' := filament + [p];
    }
    GrownNext(start, accepted, flag0, p);
    FlagAtNext(flag0, step);
    FollowsNextSnoc(start, accepted, flag0, next, p);
    accepted' := accepted + [p];
    assert accepted'[..step] == accepted;
    gen.ToggleGrowthDirection();
  }

  /** The float point the generator stores at step n, made from the chain of the first
      n accepted points. */
  ghost function StoredAt(m: Mode, start: Point, accepted: seq<Point>, flag0: bool, sinPi: real -> real,
                          disp: nat -> real -> Vec, n: nat): FloatPoint
    requires n <= |accepted|
  {
    StepPoint(m, GrowthEnd(Grown(start, accepted[..n], flag0), FlagAt(flag0, n)), FlagAt(flag0, n), sinPi, disp(n))
  }

  /** Accepting the suggestion made from the current chain keeps `FollowsNext`. */
  lemma FollowsNextSnoc(start: Point, accepted: seq<Point>, flag0: bool, next: (seq<Point>, bool, nat) -> Point, p: Point)
    requires FollowsNext(start, accepted, flag0, next)
    requires p == next(Grown(start, accepted, flag0), FlagAt(flag0, |accepted|), |accepted|)
    ensures FollowsNext(start, accepted + [p], flag0, next)
  {
    var a := accepted + [p];
    forall n | 0 <= n < |a| ensures a[n] == next(Grown(start, a[..n], flag0), FlagAt(flag0, n), n) {
      assert a[..n] == if n < |accepted| then accepted[..n] else accepted;
    }
  }

  /** Every point of a chain grown from a valid start by acceptable points passed the
      bounds and pipe tests. */
  lemma ChainValid(v: array3<real>, start: Point, accepted: seq<Point>, flag0: bool, radius: nat, pipeRadius: int,
                   fiber: real)
    requires ValidStart(start, Shape(v), radius, pipeRadius)
    requires forall n | 0 <= n < |accepted| :: Acceptable(v, accepted[n], radius, pipeRadius, fiber)
    ensures forall x | x in Grown(start, accepted, flag0) :: ValidStart(x, Shape(v), radius, pipeRadius)
  {
    forall x | x in Grown(start, accepted, flag0) ensures ValidStart(x, Shape(v), radius, pipeRadius) {
      if x != start {
        var n :| 0 <= n < |accepted| && accepted[n] == x;
      }
    }
  }
}
