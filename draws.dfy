/** The random primitives the generators call, with the randomness supplied as
    draws: a draw is an arbitrary natural number, and a call maps it onto the
    values the primitive can return. Every value the primitive can return is
    reached by some draw, so quantifying over draws covers every run. */
module Draws {
  import opened Wrappers

  /** `random.randint(lo, hi)`: inclusive at both ends; an empty range raises ValueError. */
  function RandInt(lo: int, hi: int, draw: nat): (r: Result<int>)
    ensures r.Success? <==> lo <= hi
    ensures r.Success? ==> lo <= r.value <= hi
  {
    if hi < lo then Failure(ValueError("empty range for randrange()"))
    else Success(lo + draw % (hi - lo + 1))
  }

  /** Every value of the inclusive range is drawn by some draw. */
  lemma RandIntOnto(lo: int, hi: int, n: int)
    requires lo <= n <= hi
    ensures exists draw: nat :: RandInt(lo, hi, draw) == Success(n)
  {
    var draw: nat := n - lo;
    assert draw % (hi - lo + 1) == draw;
    assert RandInt(lo, hi, draw) == Success(n);
  }

  /** `np.random.randint(lo, hi)`: the upper end is excluded; `lo >= hi` raises ValueError. */
  function NpRandInt(lo: int, hi: int, draw: nat): (r: Result<int>)
    ensures r.Success? <==> lo < hi
    ensures r.Success? ==> lo <= r.value < hi
  {
    if hi <= lo then Failure(ValueError("low >= high"))
    else Success(lo + draw % (hi - lo))
  }

  lemma NpRandIntOnto(lo: int, hi: int, n: int)
    requires lo <= n < hi
    ensures exists draw: nat :: NpRandInt(lo, hi, draw) == Success(n)
  {
    var draw: nat := n - lo;
    assert draw % (hi - lo) == draw;
    assert NpRandInt(lo, hi, draw) == Success(n);
  }

  /** `random.choice(s)` on a non-empty sequence. */
  function Choice<T>(s: seq<T>, draw: nat): (r: T)
    requires |s| > 0
    ensures r in s
  {
    s[draw % |s|]
  }

  predicate Distinct<T(==)>(s: seq<T>)
  {
    forall m, n | 0 <= m < n < |s| :: s[m] != s[n]
  }

  /** k successive picks without replacement: the i-th draw selects among what is left. */
  function Pick<T>(pool: seq<T>, k: nat, draws: nat -> nat, i: nat): (r: seq<T>)
    requires k <= |pool|
    ensures |r| == k
    ensures multiset(r) <= multiset(pool)
    decreases k
  {
    if k == 0 then []
    else
      var j := draws(i) % |pool|;
      var rest := pool[..j] + pool[j + 1..];
      assert pool == pool[..j] + [pool[j]] + pool[j + 1..];
      [pool[j]] + Pick(rest, k - 1, draws, i + 1)
  }

  /** `random.sample(pop, k)`: k elements drawn from distinct positions of `pop`;
      a negative k or one larger than the population raises ValueError. */
  function Sample<T>(pop: seq<T>, k: int, draws: nat -> nat): (r: Result<seq<T>>)
    ensures r.Success? <==> 0 <= k <= |pop|
    ensures r.Success? ==> |r.value| == k && multiset(r.value) <= multiset(pop)
  {
    if k < 0 || k > |pop| then Failure(ValueError("Sample larger than population or is negative"))
    else Success(Pick(pop, k, draws, 0))
  }

  lemma DistinctMultiplicity<T>(s: seq<T>, x: T)
    requires Distinct(s)
    ensures multiset(s)[x] <= 1
  {
    if |s| > 0 {
      var t := s[1..];
      assert s == [s[0]] + t;
      assert Distinct(t) by {
        forall m, n | 0 <= m < n < |t| ensures t[m] != t[n] {
          assert t[m] == s[m + 1] && t[n] == s[n + 1];
        }
      }
      DistinctMultiplicity(t, x);
      if x == s[0] {
        forall n | 0 <= n < |t| ensures t[n] != x {
          assert t[n] == s[n + 1];
        }
      }
    }
  }

  lemma TwoOccurrences<T>(s: seq<T>, m: int, n: int)
    requires 0 <= m < n < |s| && s[m] == s[n]
    ensures multiset(s)[s[m]] >= 2
  {
    assert s == s[..m] + [s[m]] + s[m + 1..n] + [s[n]] + s[n + 1..];
  }

  /** A repeated element shows up twice in the multiset. */
  lemma RepeatInMultiset<T>(s: seq<T>)
    ensures !Distinct(s) ==> exists x :: multiset(s)[x] >= 2
  {
    if !Distinct(s) {
      var m, n :| 0 <= m < n < |s| && s[m] == s[n];
      TwoOccurrences(s, m, n);
    }
  }

  /** Sampling a population of distinct elements yields distinct elements. */
  lemma SampleDistinct<T>(pop: seq<T>, k: int, draws: nat -> nat)
    requires Distinct(pop) && Sample(pop, k, draws).Success?
    ensures Distinct(Sample(pop, k, draws).value)
  {
    var r := Sample(pop, k, draws).value;
    forall x ensures multiset(r)[x] <= 1 {
      DistinctMultiplicity(pop, x);
    }
    RepeatInMultiset(r);
  }

  /** Sampling the whole population returns a permutation of it. */
  lemma SampleAllIsPermutation<T>(pop: seq<T>, draws: nat -> nat)
    ensures Sample(pop, |pop|, draws).Success?
    ensures multiset(Sample(pop, |pop|, draws).value) == multiset(pop)
  {
    var r := Sample(pop, |pop|, draws).value;
    assert |multiset(r)| == |r| == |pop| == |multiset(pop)|;
    MultisetSubsetSameSize(multiset(r), multiset(pop));
  }

  lemma MultisetSubsetSameSize<T>(a: multiset<T>, b: multiset<T>)
    requires a <= b && |a| == |b|
    ensures a == b
  {
    var d := b - a;
    assert b == a + d;
    assert |d| == 0;
  }
}
