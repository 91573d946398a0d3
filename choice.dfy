/**
 * numpy's legacy `RandomState.choice(a, size, replace=False, p=p)` on
 * `a = range(n)`, as `cur_select` calls it: the argument checks, then rounds
 * that zero the weights of the indices already found, draw `size - n_uniq`
 * uniforms, locate each in the normalised cumulative sum with
 * `searchsorted(..., side='right')`, and append the new indices in order of
 * their first occurrence.
 */
module Choice {
  import opened Wrappers
  import opened PyMath
  import opened Sorting
  import opened Draws

  /** A value of `random_sample`: a real in [0, 1). */
  type Unit = x: real | 0.0 <= x < 1.0

  /** `np.sqrt(np.finfo(np.float64).eps)`: how far the sum of p may be from 1. */
  const SumTolerance: real := 0.000000014901161193847656

  function Abs(x: real): real { if x < 0.0 then -x else x }

  // ---------------------------------------------------------------------------
  // Argument checks

  /** The positions of the positive weights. */
  function PositiveSet(p: seq<real>): set<nat>
  {
    set j: nat | j < |p| && p[j] > 0.0
  }

  /** `np.count_nonzero(p > 0)`. */
  function PositiveCount(p: seq<real>): (r: nat)
    ensures r <= |p|
  {
    if p == [] then 0
    else PositiveCount(p[..|p| - 1]) + (if p[|p| - 1] > 0.0 then 1 else 0)
  }

  /** The count is the number of positions with a positive weight. */
  lemma {:induction false} PositiveCountIsCard(p: seq<real>)
    ensures PositiveCount(p) == |PositiveSet(p)|
  {
    if p != [] {
      var n := |p| - 1;
      PositiveCountIsCard(p[..n]);
      assert PositiveSet(p) == PositiveSet(p[..n]) + (if p[n] > 0.0 then {n} else {});
      assert n !in PositiveSet(p[..n]);
    }
  }

  /**
   * numpy's checks, each raising ValueError: a negative probability, a sum
   * further than the tolerance from 1, a sample larger than the population
   * or negative, and fewer positive probabilities than the sample size.
   */
  predicate ChoiceRejected(p: seq<real>, size: int)
  {
    || (exists j :: 0 <= j < |p| && p[j] < 0.0)
    || Abs(Sum(p) - 1.0) > SumTolerance
    || size > |p|
    || size < 0
    || PositiveCount(p) < size
  }

  // ---------------------------------------------------------------------------
  // One round

  /** `p[found] = 0`. */
  function Zeroed(p: seq<real>, found: seq<nat>): (r: seq<real>)
    ensures |r| == |p|
  {
    seq(|p|, j requires 0 <= j < |p| => if j in found then 0.0 else p[j])
  }

  /** `cdf = np.cumsum(p); cdf /= cdf[-1]`. */
  function Cdf(q: seq<real>): (r: seq<real>)
    requires q != [] && Sum(q) > 0.0
    ensures |r| == |q|
  {
    var c := CumSum(q);
    CumSumLast(q);
    seq(|q|, j requires 0 <= j < |q| => c[j] / c[|q| - 1])
  }

  /** `cdf.searchsorted(x, side='right')` for `x` the next `count` uniforms from position t. */
  function Batch(q: seq<real>, uniform: nat -> Unit, t: nat, count: nat): (r: seq<nat>)
    requires q != [] && Sum(q) > 0.0
    ensures |r| == count
  {
    var cdf := Cdf(q);
    seq<nat>(count, i requires 0 <= i < count => SearchRight(cdf, uniform(t + i)))
  }

  /**
   * `np.unique(new, return_index=True)`, the indices sorted, then
   * `new.take(...)`: every drawn value once, in order of first occurrence.
   */
  function FirstOccurrences(s: seq<nat>): (r: seq<nat>)
    ensures NoDuplicates(r)
    ensures forall x :: x in r <==> x in s
    ensures s != [] ==> r != []
    ensures |r| <= |s|
  {
    if s == [] then []
    else
      var d := FirstOccurrences(s[..|s| - 1]);
      var x := s[|s| - 1];
      assert forall y :: y in s <==> y in s[..|s| - 1] || y == x by {
        assert s == s[..|s| - 1] + [x];
      }
      if x in d then d else d + [x]
  }

  /** Each cumulative sum adds one weight to the one before. */
  lemma CumSumStep(q: seq<real>, r: nat)
    requires r < |q|
    ensures r == 0 ==> CumSum(q)[r] == q[0]
    ensures r > 0 ==> CumSum(q)[r] == CumSum(q)[r - 1] + q[r]
  {
    assert q[..r + 1] == q[..r] + [q[r]];
    SumSnoc(q[..r], q[r]);
    if r > 0 {
      assert q[..r - 1 + 1] == q[..r];
    }
  }

  /** The normalised cumulative sum ends at exactly 1. */
  lemma CdfEndsAtOne(q: seq<real>)
    requires q != [] && Sum(q) > 0.0
    ensures Cdf(q)[|q| - 1] == 1.0
  {
    var c := CumSum(q);
    CumSumLast(q);
    assert Cdf(q)[|q| - 1] == c[|q| - 1] / c[|q| - 1];
    DivideSelf(c[|q| - 1]);
  }

  /** Entry j of the normalised cumulative sum. */
  lemma CdfAt(q: seq<real>, j: nat)
    requires q != [] && Sum(q) > 0.0 && j < |q|
    ensures Cdf(q)[j] == CumSum(q)[j] / Sum(q)
  {
    CumSumLast(q);
  }

  /** Dividing by a positive total keeps the order of the dividends. */
  lemma QuotientOrder(a: real, b: real, t: real)
    requires t > 0.0 && a / t < b / t
    ensures a < b
  {
  }

  /**
   * A side='right' search of a draw in [0, 1) lands on a position of
   * positive weight: zero weights are never drawn.
   */
  lemma SearchLandsOnWeight(q: seq<real>, x: Unit)
    requires q != [] && Sum(q) > 0.0
    ensures SearchRight(Cdf(q), x) < |q|
    ensures q[SearchRight(Cdf(q), x)] > 0.0
  {
    var n := |q|;
    var c := CumSum(q);
    var cdf := Cdf(q);
    var total := Sum(q);
    CdfEndsAtOne(q);
    var r := SearchRight(cdf, x);
    CumSumStep(q, r);
    CdfAt(q, r);
    if r == 0 {
      assert 0.0 / total <= x < c[0] / total;
      QuotientOrder(0.0, c[0], total);
    } else {
      CdfAt(q, r - 1);
      assert c[r - 1] / total <= x < c[r] / total;
      QuotientOrder(c[r - 1], c[r], total);
    }
  }

  // ---------------------------------------------------------------------------
  // The rounds

  /**
   * What holds between rounds: the weights are valid for a sample of `size`,
   * and the indices found are distinct, at most `size`, and all of positive
   * weight.
   */
  predicate Between(p: seq<real>, size: nat, found: seq<nat>)
  {
    && (forall j :: 0 <= j < |p| ==> p[j] >= 0.0)
    && PositiveCount(p) >= size
    && |found| <= size
    && NoDuplicates(found)
    && (forall i :: 0 <= i < |found| ==> found[i] < |p| && p[found[i]] > 0.0)
  }

  /** A subset is no larger than its superset. */
  lemma SubsetCardinality<T>(a: set<T>, b: set<T>)
    requires a <= b
    ensures |a| <= |b|
  {
    assert b == a + (b - a);
    assert a * (b - a) == {};
  }

  /** While fewer than `size` indices are found, some positive weight survives the zeroing. */
  lemma ZeroedPositive(p: seq<real>, size: nat, found: seq<nat>)
    requires Between(p, size, found) && |found| < size
    ensures p != [] && Sum(Zeroed(p, found)) > 0.0
  {
    var q := Zeroed(p, found);
    PositiveCountIsCard(p);
    DistinctCardinality(found);
    var fs := set x | x in found;
    if PositiveSet(p) <= fs {
      SubsetCardinality(PositiveSet(p), fs);
      assert false;
    }
    var j :| j in PositiveSet(p) && j !in fs;
    assert q[j] > 0.0;
    SumPositive(q);
  }

  /** One round appends at least one new index, and the invariant holds again. */
  lemma RoundKeeps(p: seq<real>, size: nat, found: seq<nat>, uniform: nat -> Unit, t: nat)
    requires Between(p, size, found) && |found| < size
    requires p != [] && Sum(Zeroed(p, found)) > 0.0
    ensures var added := FirstOccurrences(Batch(Zeroed(p, found), uniform, t, size - |found|));
      added != [] && Between(p, size, found + added)
  {
    var q := Zeroed(p, found);
    var batch := Batch(q, uniform, t, size - |found|);
    var added := FirstOccurrences(batch);
    forall k | 0 <= k < |added| ensures added[k] < |p| && p[added[k]] > 0.0 && added[k] !in found {
      assert added[k] in added;
      var i :| 0 <= i < |batch| && batch[i] == added[k];
      SearchLandsOnWeight(q, uniform(t + i));
    }
    var all := found + added;
    forall a, b | 0 <= a < b < |all| ensures all[a] != all[b] {
      if b >= |found| && a < |found| {
        assert all[b] == added[b - |found|];
        assert all[a] in found;
      } else if a >= |found| {
        assert all[a] == added[a - |found|] && all[b] == added[b - |found|];
      }
    }
    forall i | 0 <= i < |all| ensures all[i] < |p| && p[all[i]] > 0.0 {
      if i >= |found| {
        assert all[i] == added[i - |found|];
      }
    }
  }

  /** `while n_uniq < size`: round after round until `size` indices are found. */
  function Rounds(p: seq<real>, size: nat, found: seq<nat>, uniform: nat -> Unit, t: nat): (r: seq<nat>)
    requires Between(p, size, found)
    ensures Between(p, size, r) && |r| == size
    ensures found <= r
    decreases size - |found|
  {
    if |found| == size then found
    else
      ZeroedPositive(p, size, found);
      var count := size - |found|;
      var added := FirstOccurrences(Batch(Zeroed(p, found), uniform, t, count));
      RoundKeeps(p, size, found, uniform, t);
      var r := Rounds(p, size, found + added, uniform, t + count);
      assert found <= found + added;
      r
  }

  /**
   * `np.random.choice(range(len(p)), size=size, replace=False, p=p)`:
   * ValueError when the checks reject the arguments, otherwise the indices
   * found by the rounds.
   */
  function ChoiceWithoutReplacement(p: seq<real>, size: int, uniform: nat -> Unit): (r: Result<seq<nat>>)
    ensures r.Err? <==> ChoiceRejected(p, size)
    ensures r.Err? ==> r.error == ValueError
    ensures r.Ok? ==> |r.value| == size && NoDuplicates(r.value)
    ensures r.Ok? ==> forall i :: 0 <= i < |r.value| ==> r.value[i] < |p| && p[r.value[i]] > 0.0
  {
    if ChoiceRejected(p, size) then Err(ValueError)
    else Ok(Rounds(p, size, [], uniform, 0))
  }

  /** The first round draws the first index exactly as a single side='right' draw would. */
  lemma FirstIndexIsInverseCdf(p: seq<real>, size: int, uniform: nat -> Unit)
    requires !ChoiceRejected(p, size) && size > 0
    ensures p != [] && Sum(p) > 0.0
    ensures ChoiceWithoutReplacement(p, size, uniform).value[0] == SearchRight(Cdf(p), uniform(0))
  {
    assert Between(p, size, []);
    ZeroedPositive(p, size, []);
    assert Zeroed(p, []) == p;
    var batch := Batch(p, uniform, 0, size);
    var added := FirstOccurrences(batch);
    RoundKeeps(p, size, [], uniform, 0);
    FirstOccurrencesHead(batch);
    assert [] + added == added;
  }

  /** The first value drawn comes first. */
  lemma {:induction false} FirstOccurrencesHead(s: seq<nat>)
    requires s != []
    ensures FirstOccurrences(s)[0] == s[0]
  {
    if |s| > 1 {
      FirstOccurrencesHead(s[..|s| - 1]);
    }
  }
}
