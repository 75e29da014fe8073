/** The biased direction pool every growth routine builds before its loop: the
    preferred lattice direction repeated `numBiased` times, followed by a random
    sample of the other lattice directions. `numBiased` stands for
    `int(bias * 100)`, taken as an integer percent. */
module Directions {
  import opened Wrappers
  import opened Draws

  datatype Dir = Dir(dx: int, dy: int, dz: int)

  /** The eleven candidate directions, in the source's order. */
  const ALL_DIRECTIONS: seq<Dir> := [
    Dir(1, 0, 0), Dir(1, 1, 0), Dir(1, 0, 1), Dir(0, 1, 1), Dir(-1, -1, 0), Dir(1, -1, 0),
    Dir(1, 0, -1), Dir(0, 1, -1), Dir(-1, 1, 0), Dir(-1, 0, 1), Dir(0, -1, 1)]

  /** The pool size the source aims for. */
  const POOL_SIZE: int := 100

  function Max(a: int, b: int): int { if a >= b then a else b }
  function Min(a: int, b: int): int { if a <= b then a else b }

  /** The filter `[d for d in all_directions if d != preferred]`. */
  function Without(ds: seq<Dir>, preferred: Dir): (r: seq<Dir>)
    ensures forall d :: d in r <==> d in ds && d != preferred
    ensures |r| <= |ds|
    ensures preferred !in ds ==> r == ds
  {
    if |ds| == 0 then []
    else if ds[0] == preferred then Without(ds[1..], preferred)
    else [ds[0]] + Without(ds[1..], preferred)
  }

  function OtherDirections(preferred: Dir): seq<Dir>
  {
    Without(ALL_DIRECTIONS, preferred)
  }

  lemma {:induction false} WithoutDistinct(ds: seq<Dir>, preferred: Dir)
    requires Distinct(ds)
    ensures Distinct(Without(ds, preferred))
    ensures preferred in ds ==> |Without(ds, preferred)| == |ds| - 1
  {
    if |ds| > 0 {
      var t := ds[1..];
      assert Distinct(t) by {
        forall m, n | 0 <= m < n < |t| ensures t[m] != t[n] {
          assert t[m] == ds[m + 1] && t[n] == ds[n + 1];
        }
      }
      WithoutDistinct(t, preferred);
      forall n | 0 <= n < |t| ensures t[n] != ds[0] {
        assert t[n] == ds[n + 1];
      }
      if ds[0] == preferred {
        assert preferred !in t;
      } else {
        assert ds[0] !in Without(t, preferred);
        assert preferred in ds ==> preferred in t;
      }
    }
  }

  lemma AllDirectionsDistinct()
    ensures Distinct(ALL_DIRECTIONS)
  {
  }

  /** The preferred direction is removed from the others exactly when it is one of
      the eleven; the others are pairwise distinct. */
  lemma OtherDirectionsShape(preferred: Dir)
    ensures preferred !in OtherDirections(preferred)
    ensures Distinct(OtherDirections(preferred))
    ensures |OtherDirections(preferred)| == if preferred in ALL_DIRECTIONS then 10 else 11
  {
    AllDirectionsDistinct();
    WithoutDistinct(ALL_DIRECTIONS, preferred);
  }

  /** `[preferred] * n`: Python's repetition gives the empty list for n <= 0. */
  function Repeat(d: Dir, n: int): (r: seq<Dir>)
    ensures |r| == Max(n, 0)
    ensures forall m | 0 <= m < |r| :: r[m] == d
    decreases Max(n, 0)
  {
    if n <= 0 then [] else [d] + Repeat(d, n - 1)
  }

  /** The pool: `numBiased` copies of the preferred direction, then
      `random.sample(others, k=min(100 - numBiased, len(others)))`. A bias above
      100 percent makes the sample size negative, which `random.sample` rejects. */
  function DirectionPool(preferred: Dir, numBiased: int, draws: nat -> nat): (r: Result<seq<Dir>>)
    ensures r.Success? <==> numBiased <= POOL_SIZE
    ensures r.Success? ==>
      var others := OtherDirections(preferred);
      var nb := Max(numBiased, 0);
      && |r.value| == nb + Min(POOL_SIZE - numBiased, |others|)
      && (forall n | 0 <= n < nb :: r.value[n] == preferred)
      && multiset(r.value[nb..]) <= multiset(others)
  {
    var others := OtherDirections(preferred);
    var sample := Sample(others, Min(POOL_SIZE - numBiased, |others|), draws);
    if sample.Failure? then Failure(sample.error)
    else
      var pool := Repeat(preferred, numBiased) + sample.value;
      assert pool[Max(numBiased, 0)..] == sample.value;
      Success(pool)
  }

  lemma InOthers(x: Dir, preferred: Dir, sample: seq<Dir>)
    requires multiset(sample) <= multiset(OtherDirections(preferred)) && x in sample
    ensures x != preferred && x in ALL_DIRECTIONS
  {
    assert x in multiset(OtherDirections(preferred));
  }

  /** The sampled part of the pool holds pairwise-distinct directions, none of them
      the preferred one, and the pool is never empty. */
  lemma DirectionPoolShape(preferred: Dir, numBiased: int, draws: nat -> nat)
    requires DirectionPool(preferred, numBiased, draws).Success?
    ensures var pool := DirectionPool(preferred, numBiased, draws).value;
      var nb := Max(numBiased, 0);
      && |pool| > 0
      && Distinct(pool[nb..])
      && (forall n | nb <= n < |pool| :: pool[n] != preferred && pool[n] in ALL_DIRECTIONS)
  {
    var pool := DirectionPool(preferred, numBiased, draws).value;
    var nb := Max(numBiased, 0);
    var others := OtherDirections(preferred);
    OtherDirectionsShape(preferred);
    var k := Min(POOL_SIZE - numBiased, |others|);
    assert k >= 0;
    var sample := Sample(others, k, draws).value;
    assert pool == Repeat(preferred, numBiased) + sample;
    assert pool[nb..] == sample;
    assert |pool| == nb + k;
    SampleDistinct(others, k, draws);
    forall n | nb <= n < |pool| ensures pool[n] != preferred && pool[n] in ALL_DIRECTIONS {
      assert pool[n] == sample[n - nb];
      InOthers(pool[n], preferred, sample);
    }
  }
}
