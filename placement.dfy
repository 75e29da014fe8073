/** What every driver does with an accepted chain: rasterise it before the next
    attempt. The facts here are shared by the package driver and the two older
    scripts, parameterised by the fibre code each of them writes and tests. */
module Placement {
  import opened Wrappers
  import opened Voxels

  /** Voxel q lies in the sphere of some point of some filament. */
  predicate CoveredAny(fs: seq<seq<Point>>, r: int, d: Dims, pipeRadius: int, q: Point)
  {
    && |fs| > 0
    && (CoveredAny(fs[..|fs| - 1], r, d, pipeRadius, q) || Covered(fs[|fs| - 1], r, d, pipeRadius, q))
  }

  lemma {:induction false} CoveredAnyIff(fs: seq<seq<Point>>, r: int, d: Dims, pipeRadius: int, q: Point)
    ensures CoveredAny(fs, r, d, pipeRadius, q) <==> exists n | 0 <= n < |fs| :: Covered(fs[n], r, d, pipeRadius, q)
  {
    if |fs| > 0 {
      var init := fs[..|fs| - 1];
      CoveredAnyIff(init, r, d, pipeRadius, q);
      if CoveredAny(init, r, d, pipeRadius, q) {
        var n :| 0 <= n < |init| && Covered(init[n], r, d, pipeRadius, q);
        assert fs[n] == init[n];
      }
      if exists n | 0 <= n < |fs| :: Covered(fs[n], r, d, pipeRadius, q) {
        var n :| 0 <= n < |fs| && Covered(fs[n], r, d, pipeRadius, q);
        if n < |init| {
          assert init[n] == fs[n];
        }
      }
    }
  }

  lemma CoveredAnySnoc(fs: seq<seq<Point>>, f: seq<Point>, r: int, d: Dims, pipeRadius: int, q: Point)
    ensures CoveredAny(fs + [f], r, d, pipeRadius, q) == (CoveredAny(fs, r, d, pipeRadius, q) || Covered(f, r, d, pipeRadius, q))
  {
    assert (fs + [f])[..|fs|] == fs;
  }

  /** Every point of an accepted chain passed the bounds and pipe tests, so its whole
      sphere can be written without leaving the array. */
  lemma ChainFits(v: array3<real>, f: seq<Point>, start: Point, accepted: seq<Point>, radius: nat, pipeRadius: int,
                  fiber: real)
    requires forall n | 0 <= n < |f| :: f[n] == start || f[n] in accepted
    requires ValidStart(start, Shape(v), radius, pipeRadius)
    requires forall n | 0 <= n < |accepted| :: Acceptable(v, accepted[n], radius, pipeRadius, fiber)
    ensures forall n | 0 <= n < |f| :: BallFits(f[n], radius, Shape(v), pipeRadius)
  {
    forall n | 0 <= n < |f| ensures BallFits(f[n], radius, Shape(v), pipeRadius) {
      if f[n] != start {
        var m :| 0 <= m < |accepted| && accepted[m] == f[n];
        assert Acceptable(v, accepted[m], radius, pipeRadius, fiber);
      }
      BoundsGiveBallFits(f[n], Shape(v), radius, pipeRadius);
    }
  }

  /** Voxel q lies in the ball of radius r about c. */
  predicate InSphere(c: Point, r: int, q: Point)
  {
    InBall(q.x - c.x, q.y - c.y, q.z - c.z, r)
  }

  /** No grown point's sphere leaves the pipe. */
  ghost predicate GrownInPipe(grown: seq<seq<Point>>, radius: nat, d: Dims, pipeRadius: int)
  {
    forall n, m, q | 0 <= n < |grown| && 0 <= m < |grown[n]| && InSphere(grown[n][m], radius, q) :: InPipe(q, d, pipeRadius)
  }

  lemma GrownInPipeSnoc(grown: seq<seq<Point>>, accepted: seq<Point>, radius: nat, d: Dims, pipeRadius: int)
    requires GrownInPipe(grown, radius, d, pipeRadius)
    requires forall m, q | 0 <= m < |accepted| && InSphere(accepted[m], radius, q) :: InPipe(q, d, pipeRadius)
    ensures GrownInPipe(grown + [accepted], radius, d, pipeRadius)
  {
    var grown' := grown + [accepted];
    forall n, m, q | 0 <= n < |grown'| && 0 <= m < |grown'[n]| && InSphere(grown'[n][m], radius, q)
      ensures InPipe(q, d, pipeRadius)
    {
      if n < |grown| {
        assert grown'[n] == grown[n];
      } else {
        assert grown'[n] == accepted;
      }
    }
  }

  /** No grown point's sphere reaches a voxel covered by an earlier filament or holding
      fibre in `base`. */
  ghost predicate GrownFree(base: imap<Point, real>, fs: seq<seq<Point>>, grown: seq<seq<Point>>,
                            radius: nat, d: Dims, pipeRadius: int, fiber: real)
    requires |grown| <= |fs|
  {
    forall n, m, q | 0 <= n < |grown| && 0 <= m < |grown[n]| && InStamp(grown[n][m], radius, d, pipeRadius, q) ::
      && InArray(q, d)
      && !CoveredAny(fs[..n], radius, d, pipeRadius, q)
      && q in base && base[q] != fiber
  }

  lemma GrownFreeSnoc(base: imap<Point, real>, fs: seq<seq<Point>>, grown: seq<seq<Point>>, f: seq<Point>,
                      accepted: seq<Point>, radius: nat, d: Dims, pipeRadius: int, fiber: real)
    requires |grown| == |fs| && GrownFree(base, fs, grown, radius, d, pipeRadius, fiber)
    requires forall m, q | 0 <= m < |accepted| && InStamp(accepted[m], radius, d, pipeRadius, q) ::
      InArray(q, d) && !CoveredAny(fs, radius, d, pipeRadius, q) && q in base && base[q] != fiber
    ensures GrownFree(base, fs + [f], grown + [accepted], radius, d, pipeRadius, fiber)
  {
    var fs', grown' := fs + [f], grown + [accepted];
    forall n, m, q | 0 <= n < |grown'| && 0 <= m < |grown'[n]| && InStamp(grown'[n][m], radius, d, pipeRadius, q)
      ensures InArray(q, d) && !CoveredAny(fs'[..n], radius, d, pipeRadius, q) && q in base && base[q] != fiber
    {
      if n < |grown| {
        assert grown'[n] == grown[n];
        assert fs'[..n] == fs[..n];
      } else {
        assert grown'[n] == accepted;
        assert fs'[..n] == fs;
      }
    }
  }

  /** What the accepted chains' grown points keep: their spheres stay in the pipe, and
      each was free of earlier filaments and of fibre in `base`, the volume before
      placement. */
  ghost predicate GrownClear(base: imap<Point, real>, fs: seq<seq<Point>>, grown: seq<seq<Point>>,
                             radius: nat, d: Dims, pipeRadius: int, fiber: real)
  {
    && |grown| <= |fs|
    && GrownInPipe(grown, radius, d, pipeRadius)
    && GrownFree(base, fs, grown, radius, d, pipeRadius, fiber)
  }

  lemma GrownClearSnoc(base: imap<Point, real>, fs: seq<seq<Point>>, grown: seq<seq<Point>>, f: seq<Point>,
                       accepted: seq<Point>, radius: nat, d: Dims, pipeRadius: int, fiber: real)
    requires GrownClear(base, fs, grown, radius, d, pipeRadius, fiber) && |grown| == |fs|
    requires forall m, q | 0 <= m < |accepted| && InSphere(accepted[m], radius, q) :: InPipe(q, d, pipeRadius)
    requires forall m, q | 0 <= m < |accepted| && InStamp(accepted[m], radius, d, pipeRadius, q) ::
      InArray(q, d) && !CoveredAny(fs, radius, d, pipeRadius, q) && q in base && base[q] != fiber
    ensures GrownClear(base, fs + [f], grown + [accepted], radius, d, pipeRadius, fiber)
  {
    GrownInPipeSnoc(grown, accepted, radius, d, pipeRadius);
    GrownFreeSnoc(base, fs, grown, f, accepted, radius, d, pipeRadius, fiber);
  }

  /** The volume holds `fiber` exactly on the spheres of the chains `fs` and agrees
      with `base` everywhere else. */
  ghost predicate FibreOver(v: array3<real>, base: imap<Point, real>, fs: seq<seq<Point>>, radius: nat,
                            pipeRadius: int, fiber: real)
    reads v
  {
    forall i, j, k | 0 <= i < v.Length0 && 0 <= j < v.Length1 && 0 <= k < v.Length2 ::
      Point(i, j, k) in base &&
      v[i, j, k] == if CoveredAny(fs, radius, Shape(v), pipeRadius, Point(i, j, k)) then fiber else base[Point(i, j, k)]
  }

  /** Rasterises an accepted chain (`update_volume_with_filament` with fibre) onto a
      volume that holds fibre exactly on the earlier filaments over `base`: afterwards
      it does so with the new chain added, and the chain's grown points, whose spheres
      were free of fibre when accepted, extend `GrownClear`. */
  method RasteriseChain(v: array3<real>, f: seq<Point>, ghost start: Point, ghost accepted: seq<Point>,
                        radius: nat, pipeRadius: int, fiber: real, ghost base: imap<Point, real>,
                        ghost fs: seq<seq<Point>>, ghost grown: seq<seq<Point>>)
    requires forall n | 0 <= n < |f| :: f[n] == start || f[n] in accepted
    requires ValidStart(start, Shape(v), radius, pipeRadius)
    requires forall n | 0 <= n < |accepted| :: Acceptable(v, accepted[n], radius, pipeRadius, fiber)
    requires FibreOver(v, base, fs, radius, pipeRadius, fiber)
    requires GrownClear(base, fs, grown, radius, Shape(v), pipeRadius, fiber) && |grown| == |fs|
    modifies v
    ensures FibreOver(v, base, fs + [f], radius, pipeRadius, fiber)
    ensures GrownClear(base, fs + [f], grown + [accepted], radius, Shape(v), pipeRadius, fiber)
  {
    var d := Shape(v);
    ChainFits(v, f, start, accepted, radius, pipeRadius, fiber);
    forall m, q | 0 <= m < |accepted| && InStamp(accepted[m], radius, d, pipeRadius, q)
      ensures InArray(q, d) && !CoveredAny(fs, radius, d, pipeRadius, q) && q in base && base[q] != fiber
    {
      AcceptableStamp(v, accepted[m], radius, pipeRadius, fiber, q);
    }
    forall m, q | 0 <= m < |accepted| && InSphere(accepted[m], radius, q) ensures InPipe(q, d, pipeRadius) {
      AcceptableStamp(v, accepted[m], radius, pipeRadius, fiber, q);
    }
    GrownClearSnoc(base, fs, grown, f, accepted, radius, d, pipeRadius, fiber);
    forall q: Point ensures CoveredAny(fs + [f], radius, d, pipeRadius, q) ==
                            (CoveredAny(fs, radius, d, pipeRadius, q) || Covered(f, radius, d, pipeRadius, q)) {
      CoveredAnySnoc(fs, f, radius, d, pipeRadius, q);
    }
    UpdateVolumeWithFilament(v, f, radius, pipeRadius, fiber);
  }
  /** The volume a driver's attempt sees, by value: `fiber` on the spheres of the
      chains placed so far, `base` everywhere else. */
  ghost function Overlay(base: imap<Point, real>, fs: seq<seq<Point>>, radius: nat, d: Dims, pipeRadius: int,
                         fiber: real): imap<Point, real>
  {
    imap q | q in base :: if CoveredAny(fs, radius, d, pipeRadius, q) then fiber else base[q]
  }

  /** While the array holds fibre exactly on `fs` over `base`, the points that pass
      the checks against it are those that pass them against the overlay. */
  lemma FibreOverAccepts(v: array3<real>, base: imap<Point, real>, fs: seq<seq<Point>>, radius: nat,
                         pipeRadius: int, fiber: real)
    requires FibreOver(v, base, fs, radius, pipeRadius, fiber)
    ensures Accepts(v, radius, pipeRadius, fiber) ==
      AcceptsIn(Overlay(base, fs, radius, Shape(v), pipeRadius, fiber), Shape(v), radius, pipeRadius, fiber)
  {
    var vol := Overlay(base, fs, radius, Shape(v), pipeRadius, fiber);
    forall q | InArray(q, Shape(v)) ensures q in vol && vol[q] == v[q.x, q.y, q.z] {
      assert q == Point(q.x, q.y, q.z);
    }
    AcceptsAgree(v, vol, radius, pipeRadius, fiber);
  }

  // ----- the attempt loop every driver runs ------------------------------------

  /** What one attempt of a driver returned (a Python exception is a Failure), and
      the points its growth loop accepted. */
  datatype Attempt = Attempt(res: Result<Option<seq<Point>>>, accepted: seq<Point>)

  /** A kept chain, if the attempt produced one. */
  function KeptBy(x: Attempt): seq<seq<Point>>
  {
    if x.res.Success? && x.res.value.Some? then [x.res.value.value] else []
  }

  /** The chains a sequence of attempts kept, in order. */
  function Kept(outs: seq<Attempt>): (fs: seq<seq<Point>>)
    ensures |fs| <= |outs|
  {
    if |outs| == 0 then [] else Kept(outs[..|outs| - 1]) + KeptBy(outs[|outs| - 1])
  }

  lemma KeptSnoc(outs: seq<Attempt>, x: Attempt)
    ensures Kept(outs + [x]) == Kept(outs) + KeptBy(x)
  {
    assert (outs + [x])[..|outs|] == outs;
  }

  /** Every attempt was made while fewer than `want` chains were kept and fewer than
      `budget` attempts had been made, and returned what `outcome` allows after the
      attempts before it. */
  ghost predicate Steps(outcome: (seq<Attempt>, Attempt) -> bool, want: int, budget: int, outs: seq<Attempt>)
  {
    forall a | 0 <= a < |outs| :: a < budget && |Kept(outs[..a])| < want && outcome(outs[..a], outs[a])
  }

  /** The last attempt raised, which ends the run. */
  predicate Stopped(outs: seq<Attempt>)
  {
    |outs| > 0 && outs[|outs| - 1].res.Failure?
  }

  /** A run still going: its attempts followed `outcome` and none raised. */
  ghost predicate Going(outcome: (seq<Attempt>, Attempt) -> bool, want: int, budget: int, outs: seq<Attempt>)
  {
    Steps(outcome, want, budget, outs) && forall a | 0 <= a < |outs| :: outs[a].res.Success?
  }

  /** A finished run of `while successful < want and attempts < budget`: the attempts
      followed `outcome`, only the last may have raised, and the run ended by raising,
      by keeping enough chains, or by spending the budget. */
  ghost predicate Run(outcome: (seq<Attempt>, Attempt) -> bool, want: int, budget: int, outs: seq<Attempt>)
  {
    && Steps(outcome, want, budget, outs)
    && (forall a | 0 <= a < |outs| - 1 :: outs[a].res.Success?)
    && (Stopped(outs) || |Kept(outs)| >= want || |outs| >= budget)
  }

  /** One more attempt, made while the loop condition held: the run goes on if it
      returned, and is finished if it raised. */
  lemma GoingSnoc(outcome: (seq<Attempt>, Attempt) -> bool, want: int, budget: int, outs: seq<Attempt>, x: Attempt)
    requires Going(outcome, want, budget, outs)
    requires |outs| < budget && |Kept(outs)| < want && outcome(outs, x)
    ensures x.res.Success? ==> Going(outcome, want, budget, outs + [x])
    ensures x.res.Failure? ==> Run(outcome, want, budget, outs + [x])
  {
    var outs' := outs + [x];
    forall a | 0 <= a < |outs'| ensures a < budget && |Kept(outs'[..a])| < want && outcome(outs'[..a], outs'[a]) {
      if a < |outs| {
        assert outs'[..a] == outs[..a];
      } else {
        assert outs'[..a] == outs;
      }
    }
  }

  /** A going run whose loop condition fails is finished. */
  lemma GoingDone(outcome: (seq<Attempt>, Attempt) -> bool, want: int, budget: int, outs: seq<Attempt>)
    requires Going(outcome, want, budget, outs)
    requires !(|Kept(outs)| < want && |outs| < budget)
    ensures Run(outcome, want, budget, outs)
  {
  }

  /** Two sequences of attempts that each followed an `outcome` admitting one result
      per history agree on their first k attempts. */
  lemma {:induction false} RunsAgree(outcome: (seq<Attempt>, Attempt) -> bool, o1: seq<Attempt>, o2: seq<Attempt>, k: nat)
    requires forall h, x, y | outcome(h, x) && outcome(h, y) :: x == y
    requires k <= |o1| && k <= |o2|
    requires forall a | 0 <= a < k :: outcome(o1[..a], o1[a]) && outcome(o2[..a], o2[a])
    ensures o1[..k] == o2[..k]
    ensures forall a | 0 <= a < k :: o1[a] == o2[a]
    decreases k
  {
    if k > 0 {
      RunsAgree(outcome, o1, o2, k - 1);
      assert outcome(o1[..k - 1], o1[k - 1]) && outcome(o2[..k - 1], o2[k - 1]);
      assert o1[k - 1] == o2[k - 1];
      assert o1[..k] == o1[..k - 1] + [o1[k - 1]];
      assert o2[..k] == o2[..k - 1] + [o2[k - 1]];
    }
  }

  /** A finished run cannot be a proper prefix of another: the longer run made an
      attempt that the shorter one's ending rules out. */
  lemma RunNotShorter(outcome: (seq<Attempt>, Attempt) -> bool, want: int, budget: int, o1: seq<Attempt>, o2: seq<Attempt>)
    requires forall h, x, y | outcome(h, x) && outcome(h, y) :: x == y
    requires Run(outcome, want, budget, o1) && Run(outcome, want, budget, o2)
    ensures |o2| <= |o1|
  {
    if |o1| < |o2| {
      var n := |o1|;
      assert o1[..n] == o1;
      StepsLive(outcome, want, budget, o2, n);
      RunsAgree(outcome, o1, o2, n);
      assert false;
    }
  }

  /** Attempt n of a run was made while the loop condition held, after attempts that
      all returned. */
  lemma StepsLive(outcome: (seq<Attempt>, Attempt) -> bool, want: int, budget: int, outs: seq<Attempt>, n: nat)
    requires Run(outcome, want, budget, outs) && n < |outs|
    ensures n < budget && |Kept(outs[..n])| < want
    ensures forall a | 0 <= a < n :: outs[a].res.Success?
    ensures forall a | 0 <= a < n :: outcome(outs[..a], outs[a])
  {
  }

  /** When each attempt's result is determined by the attempts before it, so is the
      whole run. */
  lemma RunUnique(outcome: (seq<Attempt>, Attempt) -> bool, want: int, budget: int, o1: seq<Attempt>, o2: seq<Attempt>)
    requires forall h, x, y | outcome(h, x) && outcome(h, y) :: x == y
    requires Run(outcome, want, budget, o1) && Run(outcome, want, budget, o2)
    ensures o1 == o2
  {
    RunNotShorter(outcome, want, budget, o1, o2);
    RunNotShorter(outcome, want, budget, o2, o1);
    RunsAgree(outcome, o1, o2, |o1|);
    assert o1 == o1[..|o1|] && o2 == o2[..|o2|];
  }
}
