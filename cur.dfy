/**
 * `cur_select`: CUR selection of representative structures. The descriptor
 * vectors and the truncated SVD are supplied from outside; what is modelled
 * is the number of singular vectors kept, the leverage scores computed from
 * `vt`, the stochastic (without replacement) or deterministic (top-k) choice
 * of indices, and the removal of the descriptor from the returned structures.
 */
module Cur {
  import opened Wrappers
  import opened PyMath
  import opened Structures
  import opened Sorting
  import opened Pool
  import opened Choice

  // ---------------------------------------------------------------------------
  // Number of singular vectors

  /**
   * `min(m.shape)`. Without a kernel, m is the dim x n descriptor matrix. With
   * a positive kernel exponent `np.squeeze` first drops every axis of length
   * one: for dim > 1 and n > 1 m is the n x n kernel matrix. When both are 1
   * the operands are scalars and `np.matmul` raises ValueError; when one is 1
   * they are vectors, m is a scalar with an empty shape, and `min(m.shape)`
   * raises ValueError.
   */
  function MinShape(n: nat, dim: nat, kernelExp: real): (r: Result<nat>)
    ensures r.Err? <==> kernelExp > 0.0 && (dim == 1 || n == 1)
    ensures r.Err? ==> r.error == ValueError
    ensures r.Ok? && kernelExp > 0.0 ==> r.value == n
    ensures r.Ok? && kernelExp <= 0.0 ==> r.value <= dim && r.value <= n && (r.value == dim || r.value == n)
  {
    if kernelExp > 0.0 then
      if dim == 1 || n == 1 then Err(ValueError) else Ok(n)
    else Ok(Min(dim, n))
  }

  /** `min(max(1, int(select_nums / 2)), min(m.shape) - 1)`. */
  function ComponentCount(selectNums: int, minShape: nat): int
  {
    Min(Max(1, Trunc((selectNums as real) / 2.0)), minShape - 1)
  }

  /**
   * The component count is half the selection (rounded down), at least one
   * and below `min(m.shape)`; `int(select_nums / 2)` agrees with
   * `select_nums // 2` wherever it matters.
   */
  lemma ComponentCountIsHalf(selectNums: int, minShape: nat)
    ensures ComponentCount(selectNums, minShape) == Min(Max(1, selectNums / 2), minShape - 1)
    ensures ComponentCount(selectNums, minShape) <= minShape - 1
    ensures minShape >= 2 ==> ComponentCount(selectNums, minShape) >= 1
  {
    var t := Trunc((selectNums as real) / 2.0);
    if selectNums >= 0 {
      assert t == selectNums / 2;
    } else {
      assert t <= 0 && selectNums / 2 < 0;
    }
  }

  // ---------------------------------------------------------------------------
  // Leverage scores

  /** `vt` has k rows of n entries. */
  predicate Shaped(vt: seq<seq<real>>, k: nat, n: nat)
  {
    |vt| == k && forall r :: 0 <= r < |vt| ==> |vt[r]| == n
  }

  /** The truncated SVD returns, for k components of n samples, a k x n `vt`. */
  ghost predicate SvdOracle(svd: (nat, nat) -> seq<seq<real>>)
  {
    forall k: nat, n: nat :: Shaped(svd(k, n), k, n)
  }

  /** `np.sum(vt ** 2, axis=0)[j]`. */
  function ColumnSquares(vt: seq<seq<real>>, j: nat): (r: real)
    requires forall r :: 0 <= r < |vt| ==> j < |vt[r]|
    ensures r >= 0.0
  {
    if vt == [] then 0.0 else vt[0][j] * vt[0][j] + ColumnSquares(vt[1..], j)
  }

  /** `c_scores = np.sum(vt ** 2, axis=0) / vt.shape[0]`. */
  function Scores(vt: seq<seq<real>>, n: nat): (r: seq<real>)
    requires |vt| > 0 && Shaped(vt, |vt|, n)
    ensures |r| == n
  {
    seq(n, j requires 0 <= j < n => ColumnSquares(vt, j) / (|vt| as real))
  }

  /** Every leverage score is non-negative. */
  lemma ScoresNonNegative(vt: seq<seq<real>>, n: nat)
    requires |vt| > 0 && Shaped(vt, |vt|, n)
    ensures forall j :: 0 <= j < n ==> Scores(vt, n)[j] >= 0.0
  {
    forall j | 0 <= j < n ensures Scores(vt, n)[j] >= 0.0 {
      assert ColumnSquares(vt, j) / (|vt| as real) >= 0.0;
    }
  }

  // ---------------------------------------------------------------------------
  // Choosing the indices

  /** `range(n)`. */
  function Range(n: nat): (r: seq<nat>)
    ensures |r| == n
    ensures forall i :: 0 <= i < n ==> r[i] == i
  {
    seq(n, i requires 0 <= i < n => i)
  }

  /** The key `np.argsort` orders positions by. */
  function ScoreKey(scores: seq<real>): nat -> real
  {
    (j: nat) => if j < |scores| then scores[j] else 0.0
  }

  /** `np.argsort(c_scores)`: the positions in order of increasing score. */
  function ArgSort(scores: seq<real>): (r: seq<nat>)
    ensures |r| == |scores|
    ensures SortedBy(r, ScoreKey(scores))
    ensures multiset(r) == multiset(Range(|scores|))
  {
    SortBy(Range(|scores|), ScoreKey(scores))
  }

  /** Python's `s[-k:]`: the last k elements for positive k, all of them for k == 0. */
  function TailSlice<T>(s: seq<T>, k: int): (r: seq<T>)
  {
    var start := if -k < 0 then Max(|s| - k, 0) else Min(-k, |s|);
    s[start..]
  }

  /** The start position of `s[-k:]`. */
  lemma TailSliceLength<T>(s: seq<T>, k: int)
    ensures k == 0 ==> TailSlice(s, k) == s
    ensures k > 0 ==> |TailSlice(s, k)| == Min(k, |s|)
    ensures k > 0 ==> TailSlice(s, k) == s[|s| - Min(k, |s|)..]
  {
  }

  /** `sorted(...)` of a list of indices. */
  function SortedIndices(s: seq<nat>): (r: seq<nat>)
    ensures SortedBy(r, (i: nat) => i as real)
    ensures multiset(r) == multiset(s)
  {
    SortBy(s, (i: nat) => i as real)
  }

  /** The indices `cur_select` keeps, before the structures are fetched. */
  function CurIndices(scores: seq<real>, selectNums: int, stochastic: bool, uniform: nat -> Unit): (r: Result<seq<nat>>)
    ensures r.Err? <==> stochastic && ChoiceRejected(scores, selectNums)
    ensures r.Err? ==> r.error == ValueError
  {
    if stochastic then
      match ChoiceWithoutReplacement(scores, selectNums, uniform)
      case Err(e) => Err(e)
      case Ok(chosen) => Ok(SortedIndices(chosen))
    else Ok(SortedIndices(TailSlice(ArgSort(scores), selectNums)))
  }

  /** `range(n)` holds no duplicates. */
  lemma RangeDistinct(n: nat)
    ensures NoDuplicates(Range(n))
  {
  }

  /** A prefix of a duplicate-free sequence is duplicate-free. */
  lemma PrefixDistinct<T>(a: seq<T>, b: seq<T>)
    requires NoDuplicates(a + b)
    ensures NoDuplicates(a)
  {
    forall i, j | 0 <= i < j < |a| ensures a[i] != a[j] {
      assert (a + b)[i] == a[i] && (a + b)[j] == a[j];
    }
  }

  /** A sorted list of distinct indices is strictly increasing. */
  lemma SortedDistinctIncreasing(s: seq<nat>)
    requires SortedBy(s, (i: nat) => i as real) && NoDuplicates(s)
    ensures forall i, j :: 0 <= i < j < |s| ==> s[i] < s[j]
  {
    forall i, j | 0 <= i < j < |s| ensures s[i] < s[j] {
      assert (s[i] as real) <= (s[j] as real);
    }
  }

  /** Sorting a duplicate-free list of indices below n gives a strictly increasing one below n. */
  lemma SortedIndicesIncreasing(s: seq<nat>, n: nat)
    requires NoDuplicates(s)
    requires forall i :: 0 <= i < |s| ==> s[i] < n
    ensures forall i, j :: 0 <= i < j < |SortedIndices(s)| ==> SortedIndices(s)[i] < SortedIndices(s)[j]
    ensures forall i :: 0 <= i < |SortedIndices(s)| ==> SortedIndices(s)[i] < n
  {
    var r := SortedIndices(s);
    PermutationKeepsDistinct(s, r);
    SortedDistinctIncreasing(r);
    forall i | 0 <= i < |r| ensures r[i] < n {
      assert r[i] in multiset(s);
    }
  }

  /** The argsort lists every position below n exactly once. */
  lemma ArgSortPositions(scores: seq<real>)
    ensures NoDuplicates(ArgSort(scores))
    ensures forall i :: 0 <= i < |ArgSort(scores)| ==> ArgSort(scores)[i] < |scores|
    ensures forall j: nat :: j < |scores| ==> j in ArgSort(scores)
  {
    var a := ArgSort(scores);
    var n := |scores|;
    RangeDistinct(n);
    PermutationKeepsDistinct(Range(n), a);
    forall i | 0 <= i < |a| ensures a[i] < n {
      assert a[i] in multiset(Range(n));
    }
    forall j: nat | j < n ensures j in a {
      assert Range(n)[j] == j;
      assert j in multiset(Range(n));
    }
  }

  /** In a list sorted by key, everything before a split point is no larger than everything after it. */
  lemma SortedSplit<T>(a: seq<T>, key: T -> real, start: nat, x: T, y: T)
    requires SortedBy(a, key) && start <= |a|
    requires x in a[..start] && y in a[start..]
    ensures key(x) <= key(y)
  {
    var p :| 0 <= p < start && a[p] == x;
    var q :| start <= q < |a| && a[q] == y;
  }

  /** The last k positions of the argsort, sorted: distinct increasing positions below n. */
  lemma TopKIndices(scores: seq<real>, k: int)
    requires k > 0
    ensures var idx := SortedIndices(TailSlice(ArgSort(scores), k));
      && |idx| == Min(k, |scores|)
      && (forall i, j :: 0 <= i < j < |idx| ==> idx[i] < idx[j])
      && (forall i :: 0 <= i < |idx| ==> idx[i] < |scores|)
  {
    var a := ArgSort(scores);
    ArgSortPositions(scores);
    TailSliceLength(a, k);
    var t := TailSlice(a, k);
    var start := |a| - Min(k, |a|);
    assert t == a[start..];
    assert NoDuplicates(t);
    SortedIndicesIncreasing(t, |scores|);
  }

  /** An element of a sequence lies before or after any split point. */
  lemma InHeadOrTail<T>(a: seq<T>, start: nat, y: T)
    requires start <= |a| && y in a
    ensures y in a[..start] || y in a[start..]
  {
    assert a == a[..start] + a[start..];
  }

  /** No position left out of the last k of the argsort scores higher than one kept. */
  lemma TopKDominates(scores: seq<real>, k: int, x: nat, y: nat)
    requires k > 0 && y < |scores|
    requires x in SortedIndices(TailSlice(ArgSort(scores), k))
    requires y !in SortedIndices(TailSlice(ArgSort(scores), k))
    ensures x < |scores| && scores[y] <= scores[x]
  {
    var a := ArgSort(scores);
    ArgSortPositions(scores);
    TailSliceLength(a, k);
    var start := |a| - Min(k, |a|);
    var t := a[start..];
    assert x in multiset(t);
    assert y !in multiset(t);
    assert y in a;
    InHeadOrTail(a, start, y);
    SortedSplit(a, ScoreKey(scores), start, y, x);
  }

  /** Deterministic choice: the top-`select_nums` positions by score, as distinct increasing indices. */
  lemma DeterministicTopK(scores: seq<real>, selectNums: int, uniform: nat -> Unit)
    requires selectNums > 0
    ensures CurIndices(scores, selectNums, false, uniform).Ok?
    ensures var idx := CurIndices(scores, selectNums, false, uniform).value;
      && |idx| == Min(selectNums, |scores|)
      && (forall i, j :: 0 <= i < j < |idx| ==> idx[i] < idx[j])
      && (forall i :: 0 <= i < |idx| ==> idx[i] < |scores|)
      && (forall i, j: nat :: 0 <= i < |idx| && j < |scores| && j !in idx ==> scores[j] <= scores[idx[i]])
  {
    var idx := SortedIndices(TailSlice(ArgSort(scores), selectNums));
    TopKIndices(scores, selectNums);
    forall i, j: nat | 0 <= i < |idx| && j < |scores| && j !in idx ensures scores[j] <= scores[idx[i]] {
      TopKDominates(scores, selectNums, idx[i], j);
    }
  }

  /** `select_nums == 0` in the deterministic mode keeps every index, since `[-0:]` is the whole list. */
  lemma DeterministicZeroKeepsAll(scores: seq<real>, uniform: nat -> Unit)
    ensures CurIndices(scores, 0, false, uniform) == Ok(SortedIndices(ArgSort(scores)))
    ensures multiset(CurIndices(scores, 0, false, uniform).value) == multiset(Range(|scores|))
  {
    TailSliceLength(ArgSort(scores), 0);
  }

  /**
   * Stochastic choice: it fails, with ValueError, exactly when numpy's checks
   * reject the arguments, and otherwise returns exactly `select_nums`
   * distinct indices in increasing order, none of them with a zero score.
   */
  lemma StochasticDistinct(scores: seq<real>, selectNums: int, uniform: nat -> Unit)
    ensures CurIndices(scores, selectNums, true, uniform).Err? <==> ChoiceRejected(scores, selectNums)
    ensures CurIndices(scores, selectNums, true, uniform).Err? ==>
      CurIndices(scores, selectNums, true, uniform).error == ValueError
    ensures var r := CurIndices(scores, selectNums, true, uniform);
      r.Ok? ==> && |r.value| == selectNums
                && (forall i, j :: 0 <= i < j < |r.value| ==> r.value[i] < r.value[j])
                && (forall i :: 0 <= i < |r.value| ==> r.value[i] < |scores| && scores[r.value[i]] > 0.0)
  {
    var c := ChoiceWithoutReplacement(scores, selectNums, uniform);
    if c.Ok? {
      var r := SortedIndices(c.value);
      SortedIndicesIncreasing(c.value, |scores|);
      forall i | 0 <= i < |r| ensures scores[r[i]] > 0.0 {
        assert r[i] in multiset(c.value);
      }
    }
  }

  /** Sorting distinct positions keeps them distinct and in range. */
  lemma SortedKeepsDistinct(s: seq<nat>, n: nat)
    requires NoDuplicates(s) && forall i :: 0 <= i < |s| ==> s[i] < n
    ensures NoDuplicates(SortedIndices(s))
    ensures forall i :: 0 <= i < |SortedIndices(s)| ==> SortedIndices(s)[i] < n
  {
    var t := SortedIndices(s);
    PermutationKeepsDistinct(s, t);
    forall i | 0 <= i < |t| ensures t[i] < n {
      assert t[i] in multiset(s);
    }
  }

  /** The last k positions of the argsort are distinct positions. */
  lemma TailDistinct(scores: seq<real>, k: int)
    ensures var t := TailSlice(ArgSort(scores), k);
      NoDuplicates(t) && forall i :: 0 <= i < |t| ==> t[i] < |scores|
  {
    var a := ArgSort(scores);
    ArgSortPositions(scores);
    var t := TailSlice(a, k);
    assert forall i :: 0 <= i < |t| ==> t[i] in a;
  }

  /** Whatever the mode, the chosen indices are distinct positions of the pool. */
  lemma CurIndicesInRange(scores: seq<real>, selectNums: int, stochastic: bool, uniform: nat -> Unit)
    ensures var r := CurIndices(scores, selectNums, stochastic, uniform);
      r.Ok? ==> && NoDuplicates(r.value)
                && forall i :: 0 <= i < |r.value| ==> r.value[i] < |scores|
  {
    if stochastic {
      var c := ChoiceWithoutReplacement(scores, selectNums, uniform);
      if c.Ok? {
        SortedKeepsDistinct(c.value, |scores|);
      }
    } else {
      TailDistinct(scores, selectNums);
      SortedKeepsDistinct(TailSlice(ArgSort(scores), selectNums), |scores|);
    }
  }

  // ---------------------------------------------------------------------------
  // cur_select

  /** The chosen structures with their descriptor removed. */
  function Stripped(fatoms: seq<Entry>, idx: seq<nat>): (r: seq<Structure>)
    requires AllAtoms(fatoms)
    requires forall i :: 0 <= i < |idx| ==> idx[i] < |fatoms|
    ensures |r| == |idx|
    ensures forall i :: 0 <= i < |r| ==> r[i].descriptor.None?
  {
    seq(|idx|, i requires 0 <= i < |idx| => fatoms[idx[i]].structure.(descriptor := None))
  }

  /** The pool `cur_select` works on: the leaves of a nested list, or the list itself. */
  function Flattened(atoms: seq<Entry>): seq<Entry>
    requires atoms != []
  {
    if atoms[0].List? then Leaves(atoms) else atoms
  }

  /**
   * `cur_select` on a non-empty list of structures: ValueError from the
   * squeezed kernel product or from the SVD when fewer than one component can
   * be kept, and otherwise the chosen structures without their descriptor.
   */
  function SelectFrom(fatoms: seq<Entry>, dim: nat, kernelExp: real, selectNums: int, stochastic: bool,
                      svd: (nat, nat) -> seq<seq<real>>, uniform: nat -> Unit): (r: Result<Option<seq<Structure>>>)
    requires SvdOracle(svd) && AllAtoms(fatoms)
    ensures r.Err? ==> r.error == ValueError
    ensures kernelExp > 0.0 && (dim == 1 || |fatoms| == 1) ==> r == Err(ValueError)
    ensures r.Ok? ==> r.value.Some? && forall i :: 0 <= i < |r.value.value| ==> r.value.value[i].descriptor.None?
  {
    var n := |fatoms|;
    match MinShape(n, dim, kernelExp)
    case Err(e) => Err(e)
    case Ok(minShape) =>
      var k := ComponentCount(selectNums, minShape);
      if k < 1 then Err(ValueError)
      else
        var scores := Scores(svd(k, n), n);
        match CurIndices(scores, selectNums, stochastic, uniform)
        case Err(e) => Err(e)
        case Ok(idx) =>
          CurIndicesInRange(scores, selectNums, stochastic, uniform);
          Ok(Some(Stripped(fatoms, idx)))
  }

  /**
   * `chosen` holds the structures at the strictly increasing positions `idx`
   * of the pool, each with its descriptor removed.
   */
  predicate SelectedAt(fatoms: seq<Entry>, idx: seq<nat>, chosen: seq<Structure>)
  {
    && |idx| == |chosen|
    && (forall i, j :: 0 <= i < j < |idx| ==> idx[i] < idx[j])
    && (forall i :: 0 <= i < |idx| ==>
          idx[i] < |fatoms| && fatoms[idx[i]].AtomsItem? && chosen[i] == fatoms[idx[i]].structure.(descriptor := None))
  }

  /**
   * A stochastic selection that succeeds returns `select_nums` structures of
   * the pool, in pool order, each without its descriptor.
   */
  lemma StochasticSelection(fatoms: seq<Entry>, dim: nat, kernelExp: real, selectNums: int,
                            svd: (nat, nat) -> seq<seq<real>>, uniform: nat -> Unit)
    requires SvdOracle(svd) && AllAtoms(fatoms)
    ensures var r := SelectFrom(fatoms, dim, kernelExp, selectNums, true, svd, uniform);
      r.Ok? ==> && r.value.Some?
                && |r.value.value| == selectNums
                && exists idx: seq<nat> :: SelectedAt(fatoms, idx, r.value.value)
  {
    var r := SelectFrom(fatoms, dim, kernelExp, selectNums, true, svd, uniform);
    if r.Ok? {
      var n := |fatoms|;
      var k := ComponentCount(selectNums, MinShape(n, dim, kernelExp).value);
      var scores := Scores(svd(k, n), n);
      var idx := CurIndices(scores, selectNums, true, uniform).value;
      StochasticDistinct(scores, selectNums, uniform);
      assert r.value.value == Stripped(fatoms, idx);
      assert SelectedAt(fatoms, idx, r.value.value);
    }
  }

  /**
   * What `cur_select` returns: IndexError on an empty list, None when the
   * (flattened) pool is empty, AttributeError for an element that is not an
   * Atoms object, and otherwise the selection.
   */
  function CurSelectResult(atoms: seq<Entry>, dim: nat, kernelExp: real, selectNums: int, stochastic: bool,
                           svd: (nat, nat) -> seq<seq<real>>, uniform: nat -> Unit): (r: Result<Option<seq<Structure>>>)
    requires SvdOracle(svd)
    ensures atoms == [] ==> r == Err(IndexError)
    ensures r == Ok(None) <==> atoms != [] && Flattened(atoms) == []
    ensures r.Err? ==> r.error in {IndexError, AttributeError, ValueError}
    ensures r.Ok? && r.value.Some? ==> forall i :: 0 <= i < |r.value.value| ==> r.value.value[i].descriptor.None?
  {
    if atoms == [] then Err(IndexError)
    else if Flattened(atoms) == [] then Ok(None)
    else if !AllAtoms(Flattened(atoms)) then Err(AttributeError)
    else SelectFrom(Flattened(atoms), dim, kernelExp, selectNums, stochastic, svd, uniform)
  }

  /** `for at in selected_atoms: del at.info["descriptor_vec"]`. */
  method DropDescriptors(structures: seq<Structure>) returns (r: seq<Structure>)
    ensures |r| == |structures|
    ensures forall j :: 0 <= j < |r| ==> r[j] == structures[j].(descriptor := None)
  {
    r := structures;
    for i := 0 to |r|
      invariant |r| == |structures|
      invariant forall j :: 0 <= j < i ==> r[j] == structures[j].(descriptor := None)
      invariant forall j :: i <= j < |r| ==> r[j] == structures[j]
    {
      r := r[i := r[i].(descriptor := None)];
    }
  }

  /**
   * The selection proper: descriptors are attached to every structure, the
   * indices chosen, and the descriptor deleted from each chosen structure.
   */
  method SelectStructures(fatoms: seq<Entry>, dim: nat, kernelExp: real, selectNums: int, stochastic: bool,
                          svd: (nat, nat) -> seq<seq<real>>, uniform: nat -> Unit, descriptorOf: Structure -> seq<real>)
    returns (r: Result<Option<seq<Structure>>>)
    requires SvdOracle(svd) && AllAtoms(fatoms)
    ensures r == SelectFrom(fatoms, dim, kernelExp, selectNums, stochastic, svd, uniform)
  {
    var n := |fatoms|;
    var ats := seq(n, i requires 0 <= i < n => fatoms[i].structure.(descriptor := Some(descriptorOf(fatoms[i].structure))));
    var minShape := MinShape(n, dim, kernelExp);
    if minShape.Err? {
      return Err(minShape.error);
    }
    var k := ComponentCount(selectNums, minShape.value);
    if k < 1 {
      return Err(ValueError);
    }
    var scores := Scores(svd(k, n), n);
    var chosen := CurIndices(scores, selectNums, stochastic, uniform);
    if chosen.Err? {
      return Err(chosen.error);
    }
    var selected := chosen.value;
    CurIndicesInRange(scores, selectNums, stochastic, uniform);
    var selectedAtoms := seq(|selected|, i requires 0 <= i < |selected| => ats[selected[i]]);
    selectedAtoms := DropDescriptors(selectedAtoms);
    assert selectedAtoms == Stripped(fatoms, selected);
    return Ok(Some(selectedAtoms));
  }

  /** `cur_select`. */
  method CurSelect(atoms: seq<Entry>, dim: nat, kernelExp: real, selectNums: int, stochastic: bool,
                   svd: (nat, nat) -> seq<seq<real>>, uniform: nat -> Unit, descriptorOf: Structure -> seq<real>)
    returns (r: Result<Option<seq<Structure>>>)
    requires SvdOracle(svd)
    ensures r == CurSelectResult(atoms, dim, kernelExp, selectNums, stochastic, svd, uniform)
  {
    if atoms == [] {
      return Err(IndexError);
    }
    var fatoms := atoms;
    if atoms[0].List? {
      var flat := Flatten(atoms, true);
      fatoms := flat.value;
    }
    assert fatoms == Flattened(atoms);
    if fatoms == [] {
      return Ok(None);
    }
    if !AllAtoms(fatoms) {
      return Err(AttributeError);
    }
    r := SelectStructures(fatoms, dim, kernelExp, selectNums, stochastic, svd, uniform, descriptorOf);
  }
}
