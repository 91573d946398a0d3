/**
 * The sampling-without-replacement loop shared by `boltzhist_CUR` and
 * `convexhull_CUR`: on every round the weights are renormalised in place,
 * a uniform draw is located in their cumulative sum with
 * `np.searchsorted(..., side='left')`, and the chosen entry is deleted from
 * both the weights and the working list.
 */
module Draws {
  import opened Wrappers
  import opened PyMath
  import opened Structures
  import opened Sorting

  // ---------------------------------------------------------------------------
  // Sums and searches

  /** `np.cumsum`: entry j is the sum of the first j + 1 weights. */
  function CumSum(s: seq<real>): (r: seq<real>)
    ensures |r| == |s|
  {
    seq(|s|, j requires 0 <= j < |s| => Sum(s[..j + 1]))
  }

  lemma {:induction false} SumSnoc(s: seq<real>, x: real)
    ensures Sum(s + [x]) == Sum(s) + x
  {
    if s != [] {
      assert (s + [x])[1..] == s[1..] + [x];
      SumSnoc(s[1..], x);
    }
  }

  /** The last cumulative sum is the total. */
  lemma CumSumLast(s: seq<real>)
    requires |s| > 0
    ensures CumSum(s)[|s| - 1] == Sum(s)
  {
    assert s[..|s|] == s;
  }

  /** A sum of non-negative weights is positive as soon as one of them is. */
  lemma {:induction false} SumPositive(s: seq<real>)
    requires forall j :: 0 <= j < |s| ==> s[j] >= 0.0
    ensures Sum(s) >= 0.0
    ensures (exists j :: 0 <= j < |s| && s[j] > 0.0) ==> Sum(s) > 0.0
  {
    if s != [] {
      SumPositive(s[1..]);
      if exists j :: 0 <= j < |s| && s[j] > 0.0 {
        var j :| 0 <= j < |s| && s[j] > 0.0;
        if j > 0 {
          assert s[1..][j - 1] > 0.0;
        }
      }
    }
  }

  /** `a / np.sum(a)`. */
  function Normalized(s: seq<real>): (r: seq<real>)
    requires Sum(s) != 0.0
    ensures |r| == |s|
  {
    var total := Sum(s);
    seq(|s|, j requires 0 <= j < |s| => s[j] / total)
  }

  lemma {:induction false} SumDivided(s: seq<real>, t: real)
    requires t != 0.0
    ensures Sum(seq(|s|, j requires 0 <= j < |s| => s[j] / t)) == Sum(s) / t
  {
    var d := seq(|s|, j requires 0 <= j < |s| => s[j] / t);
    if s != [] {
      SumDivided(s[1..], t);
      assert d[1..] == seq(|s[1..]|, j requires 0 <= j < |s[1..]| => s[1..][j] / t);
      assert s[0] / t + Sum(s[1..]) / t == (s[0] + Sum(s[1..])) / t;
    }
  }

  lemma DivideSelf(t: real)
    requires t != 0.0
    ensures t / t == 1.0
  {
  }

  /** Normalised weights sum to one, and positive weights stay positive. */
  lemma NormalizedSumsToOne(s: seq<real>)
    requires Sum(s) > 0.0
    ensures Sum(Normalized(s)) == 1.0
    ensures (forall j :: 0 <= j < |s| ==> s[j] > 0.0) ==>
      forall j :: 0 <= j < |s| ==> Normalized(s)[j] > 0.0
  {
    SumDivided(s, Sum(s));
    DivideSelf(Sum(s));
    forall j | 0 <= j < |s| && (forall j :: 0 <= j < |s| ==> s[j] > 0.0)
      ensures Normalized(s)[j] > 0.0
    {
      assert s[j] / Sum(s) > 0.0;
    }
  }

  /** `np.searchsorted(c, x)` with side='left': the first position whose value is at least x. */
  function SearchLeft(c: seq<real>, x: real): (r: nat)
    ensures r <= |c|
    ensures forall j :: 0 <= j < r ==> c[j] < x
    ensures r < |c| ==> c[r] >= x
  {
    if c == [] then 0
    else if c[0] >= x then 0
    else 1 + SearchLeft(c[1..], x)
  }

  /** `np.searchsorted(c, x, side='right')`: the first position whose value exceeds x. */
  function SearchRight(c: seq<real>, x: real): (r: nat)
    ensures r <= |c|
    ensures forall j :: 0 <= j < r ==> c[j] <= x
    ensures r < |c| ==> c[r] > x
  {
    if c == [] then 0
    else if c[0] > x then 0
    else 1 + SearchRight(c[1..], x)
  }

  /**
   * The position of one draw: `config_prob /= np.sum(config_prob)`, then
   * `np.searchsorted(np.cumsum(config_prob), rv)`. An all-zero (or empty)
   * weight vector, which numpy turns into NaNs, lands on position 0.
   */
  function DrawIndex(probs: seq<real>, rv: real): (r: nat)
    ensures r <= |probs|
  {
    if Sum(probs) == 0.0 then 0
    else SearchLeft(CumSum(Normalized(probs)), rv)
  }

  /** A draw from non-negative weights with a positive total, with rv in [0, 1), lands inside the list. */
  lemma DrawIndexInRange(probs: seq<real>, rv: real)
    requires forall j :: 0 <= j < |probs| ==> probs[j] >= 0.0
    requires Sum(probs) > 0.0
    requires 0.0 <= rv < 1.0
    ensures DrawIndex(probs, rv) < |probs|
  {
    if probs == [] {
      assert false;
    }
    var q := Normalized(probs);
    NormalizedSumsToOne(probs);
    CumSumLast(q);
  }

  /** `np.delete(a, i)` / `del a[i]`. */
  function Remove<T>(s: seq<T>, i: nat): (r: seq<T>)
    requires i < |s|
    ensures |r| == |s| - 1
  {
    s[..i] + s[i + 1..]
  }

  /** Deleting position i takes exactly one copy of s[i] out of the list. */
  lemma RemoveTakesOne<T>(s: seq<T>, i: nat)
    requires i < |s|
    ensures multiset(Remove(s, i)) + multiset{s[i]} == multiset(s)
  {
    assert s == s[..i] + [s[i]] + s[i + 1..];
  }

  // ---------------------------------------------------------------------------
  // The draw loop

  /**
   * The loop state: the items drawn so far, the working list, the current
   * weights, and the exception that ended the loop, if any.
   */
  datatype Drawn<T> = Drawn(selected: seq<T>, pool: seq<T>, probs: seq<real>, failure: Option<Exception>)

  /** The weights after the in-place `config_prob /= np.sum(config_prob)`. */
  function Renormalized(probs: seq<real>): (r: seq<real>)
    ensures |r| == |probs|
  {
    if Sum(probs) == 0.0 then probs else Normalized(probs)
  }

  /**
   * One round with the uniform draw rv. `fatoms[config_i]` past the end of the
   * working list, or `np.delete` past the end of the weights, raises
   * IndexError and leaves the state of the previous round.
   */
  function DrawRound<T>(d: Drawn<T>, rv: real): (r: Drawn<T>)
    requires d.failure.None?
    ensures r.failure.None? ==> |r.selected| == |d.selected| + 1 && |r.pool| == |d.pool| - 1
    ensures r.failure.None? ==> r.selected[..|d.selected|] == d.selected
    ensures r.failure.Some? ==> r == d.(failure := Some(IndexError))
  {
    var i := DrawIndex(d.probs, rv);
    if i >= |d.pool| || i >= |d.probs| then d.(failure := Some(IndexError))
    else
      assert (d.selected + [d.pool[i]])[..|d.selected|] == d.selected;
      Drawn(d.selected + [d.pool[i]], Remove(d.pool, i), Remove(Renormalized(d.probs), i), None)
  }

  /** A round moves the drawn item from the list to the selection, and loses nothing. */
  lemma DrawRoundKeepsItems<T>(d: Drawn<T>, rv: real)
    requires d.failure.None?
    ensures var r := DrawRound(d, rv);
      multiset(r.selected) + multiset(r.pool) == multiset(d.selected) + multiset(d.pool)
  {
    var i := DrawIndex(d.probs, rv);
    if i < |d.pool| && i < |d.probs| {
      RemoveTakesOne(d.pool, i);
      assert multiset(d.selected + [d.pool[i]]) == multiset(d.selected) + multiset{d.pool[i]};
    }
  }

  /** `count` more rounds of the loop, the k-th uniform draw feeding round k. */
  function DrawSteps<T>(d: Drawn<T>, uniform: nat -> real, k: nat, count: nat): (r: Drawn<T>)
    decreases count
  {
    if count == 0 || d.failure.Some? then d
    else DrawSteps(DrawRound(d, uniform(k)), uniform, k + 1, count - 1)
  }

  /** The whole loop: `select_num` rounds from the given weights and list. */
  function DrawLoop<T>(probs: seq<real>, pool: seq<T>, uniform: nat -> real, selectNum: int): (r: Drawn<T>)
    ensures multiset(r.selected) + multiset(r.pool) == multiset(pool)
    ensures r.failure.None? ==> |r.selected| == Max(selectNum, 0)
  {
    var d0 := Drawn([], pool, probs, None);
    DrawStepsKeepsItems(d0, uniform, 0, Max(selectNum, 0));
    DrawStepsCount(d0, uniform, 0, Max(selectNum, 0));
    DrawSteps(d0, uniform, 0, Max(selectNum, 0))
  }

  /** No item is lost or invented: what was drawn and what is left are the original items. */
  lemma {:induction false} DrawStepsKeepsItems<T>(d: Drawn<T>, uniform: nat -> real, k: nat, count: nat)
    ensures var r := DrawSteps(d, uniform, k, count);
      multiset(r.selected) + multiset(r.pool) == multiset(d.selected) + multiset(d.pool)
    decreases count
  {
    if count > 0 && d.failure.None? {
      var d' := DrawRound(d, uniform(k));
      assert DrawSteps(d, uniform, k, count) == DrawSteps(d', uniform, k + 1, count - 1);
      DrawRoundKeepsItems(d, uniform(k));
      DrawStepsKeepsItems(d', uniform, k + 1, count - 1);
    }
  }

  /** Rounds only ever append to the selection. */
  lemma {:induction false} DrawStepsExtends<T>(d: Drawn<T>, uniform: nat -> real, k: nat, count: nat)
    ensures var r := DrawSteps(d, uniform, k, count);
      |r.selected| >= |d.selected| && r.selected[..|d.selected|] == d.selected
    decreases count
  {
    if count > 0 && d.failure.None? {
      var d' := DrawRound(d, uniform(k));
      assert DrawSteps(d, uniform, k, count) == DrawSteps(d', uniform, k + 1, count - 1);
      DrawStepsExtends(d', uniform, k + 1, count - 1);
      var r := DrawSteps(d', uniform, k + 1, count - 1);
      assert r.selected[..|d.selected|] == r.selected[..|d'.selected|][..|d.selected|];
    }
  }

  /** A loop that does not fail moves exactly `count` items from the list to the selection. */
  lemma {:induction false} DrawStepsCount<T>(d: Drawn<T>, uniform: nat -> real, k: nat, count: nat)
    requires d.failure.None?
    ensures var r := DrawSteps(d, uniform, k, count);
      r.failure.None? ==> |r.selected| == |d.selected| + count && |r.pool| == |d.pool| - count
    decreases count
  {
    if count == 0 {
      assert DrawSteps(d, uniform, k, count) == d;
    } else {
      var d' := DrawRound(d, uniform(k));
      assert DrawSteps(d, uniform, k, count) == DrawSteps(d', uniform, k + 1, count - 1);
      if d'.failure.None? {
        assert |d'.selected| == |d.selected| + 1 && |d'.pool| == |d.pool| - 1;
        DrawStepsCount(d', uniform, k + 1, count - 1);
      } else {
        assert DrawSteps(d', uniform, k + 1, count - 1) == d';
      }
    }
  }

  /** Non-negative weights stay non-negative once renormalised and one of them deleted. */
  lemma RenormalizedNonNegative(probs: seq<real>, i: nat)
    requires i < |probs|
    requires forall j :: 0 <= j < |probs| ==> probs[j] >= 0.0
    ensures forall j :: 0 <= j < |probs| - 1 ==> Remove(Renormalized(probs), i)[j] >= 0.0
  {
    SumPositive(probs);
    if Sum(probs) != 0.0 {
      forall j | 0 <= j < |probs| ensures Normalized(probs)[j] >= 0.0 {
        assert probs[j] / Sum(probs) >= 0.0;
      }
    }
  }

  /**
   * One round from a non-empty list with one non-negative weight per item and
   * a draw in [0, 1) succeeds, and keeps one non-negative weight per item.
   */
  lemma DrawRoundSucceeds<T>(d: Drawn<T>, rv: real)
    requires d.failure.None? && |d.probs| == |d.pool| > 0
    requires forall j :: 0 <= j < |d.probs| ==> d.probs[j] >= 0.0
    requires 0.0 <= rv < 1.0
    ensures var r := DrawRound(d, rv);
      && r.failure.None? && |r.probs| == |r.pool| == |d.pool| - 1
      && forall j :: 0 <= j < |r.probs| ==> r.probs[j] >= 0.0
  {
    var i := DrawIndex(d.probs, rv);
    SumPositive(d.probs);
    if Sum(d.probs) != 0.0 {
      DrawIndexInRange(d.probs, rv);
    }
    RenormalizedNonNegative(d.probs, i);
  }

  /**
   * With one non-negative weight per item and uniform draws in [0, 1), the
   * loop does not fail when the list holds enough items.
   */
  lemma {:induction false} DrawStepsSucceed<T>(d: Drawn<T>, uniform: nat -> real, k: nat, count: nat)
    requires d.failure.None? && |d.probs| == |d.pool|
    requires forall j :: 0 <= j < |d.probs| ==> d.probs[j] >= 0.0
    requires forall j: nat :: 0.0 <= uniform(j) < 1.0
    requires count <= |d.pool|
    ensures DrawSteps(d, uniform, k, count).failure.None?
    decreases count
  {
    if count > 0 {
      var d' := DrawRound(d, uniform(k));
      DrawRoundSucceeds(d, uniform(k));
      DrawStepsSucceed(d', uniform, k + 1, count - 1);
      assert DrawSteps(d, uniform, k, count) == DrawSteps(d', uniform, k + 1, count - 1);
    }
  }

  /** Asked for more items than the list holds, the loop raises IndexError, whatever the weights. */
  lemma {:induction false} DrawStepsExhaust<T>(d: Drawn<T>, uniform: nat -> real, k: nat, count: nat)
    requires d.failure.None? && count > |d.pool|
    ensures DrawSteps(d, uniform, k, count).failure == Some(IndexError)
    decreases count
  {
    var d' := DrawRound(d, uniform(k));
    assert DrawSteps(d, uniform, k, count) == DrawSteps(d', uniform, k + 1, count - 1);
    if d'.failure.None? {
      DrawStepsExhaust(d', uniform, k + 1, count - 1);
    } else {
      assert DrawSteps(d', uniform, k + 1, count - 1) == d';
    }
  }

  /**
   * Asked for more rounds than there are weights, the loop raises IndexError,
   * however long the list is: `np.delete` on the emptied weights fails.
   */
  lemma {:induction false} DrawStepsExhaustWeights<T>(d: Drawn<T>, uniform: nat -> real, k: nat, count: nat)
    requires d.failure.None? && count > |d.probs|
    ensures DrawSteps(d, uniform, k, count).failure == Some(IndexError)
    decreases count
  {
    var d' := DrawRound(d, uniform(k));
    assert DrawSteps(d, uniform, k, count) == DrawSteps(d', uniform, k + 1, count - 1);
    if d'.failure.None? {
      assert |d'.probs| == |d.probs| - 1;
      DrawStepsExhaustWeights(d', uniform, k + 1, count - 1);
    } else {
      assert DrawSteps(d', uniform, k + 1, count - 1) == d';
    }
  }

  /**
   * Drawn items are distinct objects: when the list holds no duplicates, the
   * selection holds none, and nothing selected is left in the list.
   */
  lemma DrawLoopDistinct<T>(probs: seq<real>, pool: seq<T>, uniform: nat -> real, selectNum: int)
    requires NoDuplicates(pool)
    ensures var r := DrawLoop(probs, pool, uniform, selectNum);
      NoDuplicates(r.selected + r.pool)
  {
    var r := DrawLoop(probs, pool, uniform, selectNum);
    DrawStepsKeepsItems(Drawn([], pool, probs, None), uniform, 0, Max(selectNum, 0));
    assert multiset(r.selected + r.pool) == multiset([] + pool);
    assert [] + pool == pool;
    PermutationKeepsDistinct(pool, r.selected + r.pool);
  }

  /** The loop only deletes from the working list, one item per round when no round fails. */
  lemma DrawLoopShrinks<T>(probs: seq<real>, pool: seq<T>, uniform: nat -> real, selectNum: int)
    ensures var r := DrawLoop(probs, pool, uniform, selectNum);
      && multiset(r.pool) <= multiset(pool)
      && (r.failure.None? ==> |r.pool| == |pool| - Max(selectNum, 0))
  {
    var d0 := Drawn([], pool, probs, None);
    var r := DrawSteps(d0, uniform, 0, Max(selectNum, 0));
    assert DrawLoop(probs, pool, uniform, selectNum) == r;
    DrawStepsKeepsItems(d0, uniform, 0, Max(selectNum, 0));
    DrawStepsCount(d0, uniform, 0, Max(selectNum, 0));
    assert multiset(r.selected) + multiset(r.pool) == multiset(pool);
  }

  /** With rounds left and no failure yet, the loop runs one round and goes on. */
  lemma DrawStepsUnfold<T>(d: Drawn<T>, uniform: nat -> real, k: nat, count: nat)
    requires d.failure.None? && count > 0
    ensures DrawSteps(d, uniform, k, count) == DrawSteps(DrawRound(d, uniform(k)), uniform, k + 1, count - 1)
  {
  }

  /** A failed state is final. */
  lemma DrawStepsStopped<T>(d: Drawn<T>, uniform: nat -> real, k: nat, count: nat)
    requires d.failure.Some? || count == 0
    ensures DrawSteps(d, uniform, k, count) == d
  {
  }

  /**
   * One round of the loop body on the shared list: renormalise, draw, append
   * the drawn item, delete it from the weights and from `fatoms`; or report
   * the IndexError and change nothing.
   */
  method DrawOne(probs: seq<real>, fatoms: PyList, selected: seq<Entry>, rv: real)
    returns (probs': seq<real>, selected': seq<Entry>, failed: bool)
    modifies fatoms
    ensures var r := DrawRound(Drawn(selected, old(fatoms.items), probs, None), rv);
      && (failed <==> r.failure.Some?)
      && (failed ==> fatoms.items == old(fatoms.items) && probs' == probs && selected' == selected)
      && (!failed ==> r == Drawn(selected', fatoms.items, probs', None))
  {
    var configI := DrawIndex(probs, rv);
    if configI >= |fatoms.items| || configI >= |probs| {
      return probs, selected, true;
    }
    probs' := Renormalized(probs);
    selected' := selected + [fatoms.items[configI]];
    probs' := Remove(probs', configI);
    var deleted := fatoms.Delete(configI);
    failed := false;
  }

  /**
   * One iteration of the loop, seen against the rounds still to run: a
   * failing round is where the loop ends; a successful one leaves one round
   * fewer to the same final state.
   */
  method DrawStep(probs: seq<real>, fatoms: PyList, selected: seq<Entry>, uniform: nat -> real, round: nat, left: nat,
                  ghost expected: Drawn<Entry>)
    returns (probs': seq<real>, selected': seq<Entry>, failed: bool)
    requires left > 0
    requires DrawSteps(Drawn(selected, fatoms.items, probs, None), uniform, round, left) == expected
    modifies fatoms
    ensures failed ==> expected == Drawn(selected', fatoms.items, probs', Some(IndexError))
    ensures !failed ==> DrawSteps(Drawn(selected', fatoms.items, probs', None), uniform, round + 1, left - 1) == expected
  {
    ghost var d := Drawn(selected, fatoms.items, probs, None);
    DrawStepsUnfold(d, uniform, round, left);
    probs', selected', failed := DrawOne(probs, fatoms, selected, uniform(round));
    if failed {
      DrawStepsStopped(DrawRound(d, uniform(round)), uniform, round + 1, left - 1);
    }
  }

  /**
   * The imperative loop of the two samplers: `select_num` rounds that
   * renormalise the weights, draw, append the drawn item, and delete it from
   * the weights and from the shared working list `fatoms`.
   */
  method DrawWithoutReplacement(configProb: seq<real>, fatoms: PyList, selectNum: int, uniform: nat -> real)
    returns (selected: seq<Entry>, failure: Option<Exception>)
    modifies fatoms
    ensures var r := DrawLoop(configProb, old(fatoms.items), uniform, selectNum);
      selected == r.selected && failure == r.failure && fatoms.items == r.pool
  {
    var probs := configProb;
    selected := [];
    failure := None;
    var round: nat, left: nat := 0, Max(selectNum, 0);
    ghost var expected := DrawSteps(Drawn(selected, fatoms.items, probs, None), uniform, round, left);
    while left > 0
      invariant DrawSteps(Drawn(selected, fatoms.items, probs, None), uniform, round, left) == expected
    {
      var failed;
      probs, selected, failed := DrawStep(probs, fatoms, selected, uniform, round, left, expected);
      if failed {
        failure := Some(IndexError);
        return;
      }
      round, left := round + 1, left - 1;
    }
    DrawStepsStopped(Drawn(selected, fatoms.items, probs, None), uniform, round, 0);
  }
}
