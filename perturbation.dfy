/**
 * The perturbation drivers: volume scaling (`scale_cell`), the minimum-distance
 * test (`check_distances`), random angle distortion (`random_vary_angle`) and
 * seeded rattling (`std_rattle`).
 *
 * Geometry is supplied from outside: `stretch(x, f)` is the length a cell vector
 * of length x takes when the cell is scaled by `f ** (1/3)`, `dist(s, i, j)`
 * for the periodic minimum-image distance between sites i and j of s, and `rattle`
 * for ASE's Gaussian rattle. `random.randint` reads an index-addressed stream of
 * natural numbers `rng`. The float products that bound the random angles are
 * the parameter `fmul`.
 */
module Perturbation {
  import opened Wrappers
  import opened PyMath
  import opened Structures
  import opened Sorting

  // ---------------------------------------------------------------------------
  // Scale factors

  /** `math.ceil` on a real. */
  function Ceil(x: real): (r: int)
    ensures x <= r as real < x + 1.0
  {
    -((-x).Floor)
  }

  /** `np.arange(start, stop, step)` over exact reals; numpy rejects a zero step. */
  function Arange(start: real, stop: real, step: real): (r: Result<seq<real>>)
    ensures r.Err? <==> step == 0.0
    ensures r.Err? ==> r.error == ZeroDivisionError
    ensures r.Ok? ==> |r.value| == Max(Ceil((stop - start) / step), 0)
    ensures r.Ok? ==> forall k :: 0 <= k < |r.value| ==> r.value[k] == start + (k as real) * step
  {
    if step == 0.0 then Err(ZeroDivisionError)
    else
      var count := Max(Ceil((stop - start) / step), 0);
      Ok(seq(count, k requires 0 <= k < count => start + (k as real) * step))
  }

  /** The eight factors used when neither a range nor custom factors are given. */
  const DefaultFactors: seq<real> := [0.90, 0.95, 0.98, 0.99, 1.01, 1.02, 1.05, 1.10]

  /**
   * Range mode with arange step `step`: the factors lo, lo + step, ... up to and
   * including hi, with 1 inserted in sorted position when absent.
   */
  function RangeMode(lo: real, hi: real, step: real): (r: Result<seq<real>>)
    ensures r.Err? <==> step == 0.0
    ensures r.Err? ==> r.error == ZeroDivisionError
    ensures r.Ok? ==> 1.0 in r.value
  {
    match Arange(lo, hi + step, step)
    case Err(e) => Err(e)
    case Ok(arr) =>
      if 1.0 in arr then Ok(arr)
      else
        var sorted := Ascending(arr + [1.0]);
        assert 1.0 in multiset(sorted);
        Ok(sorted)
  }

  /**
   * The factor list of `scale_cell`: range mode when a range is given, else the
   * custom list, else the defaults. Indexing a short range list raises
   * IndexError; `n == 1` divides by zero, and so does a range with equal ends
   * (zero arange step).
   */
  function ScaleFactors(range: Option<seq<real>>, n: int, custom: Option<seq<real>>): (r: Result<seq<real>>)
    ensures range.None? && custom.None? ==> r == Ok(DefaultFactors)
    ensures range.None? && custom.Some? ==> r == Ok(custom.value)
    ensures range.Some? && |range.value| < 2 ==> r == Err(IndexError)
    ensures range.Some? && |range.value| >= 2 && n == 1 ==> r == Err(ZeroDivisionError)
    ensures range.Some? && r.Ok? ==> 1.0 in r.value
  {
    if range.Some? then
      if |range.value| < 2 then Err(IndexError)
      else if n == 1 then Err(ZeroDivisionError)
      else RangeMode(range.value[0], range.value[1], Step(range.value[0], range.value[1], n))
    else if custom.None? then Ok(DefaultFactors)
    else Ok(custom.value)
  }

  /** A range with equal ends gives a zero step, which numpy's arange rejects. */
  lemma ScaleFactorsEqualEnds(x: real, rest: seq<real>, n: int, custom: Option<seq<real>>)
    requires n != 1
    ensures ScaleFactors(Some([x, x] + rest), n, custom) == Err(ZeroDivisionError)
  {
    var m := (n - 1) as real;
    assert (x - x) / m == 0.0;
  }

  /** The arange step `(hi - lo) / (n - 1)`. */
  function Step(lo: real, hi: real, n: int): real
    requires n != 1
  {
    (hi - lo) / ((n - 1) as real)
  }

  /** The evenly spaced factors of range mode, before 1 is inserted. */
  function RangeFactors(lo: real, hi: real, n: int): seq<real>
    requires n != 1 && lo != hi
  {
    NonZeroStep(hi - lo, (n - 1) as real);
    Arange(lo, hi + Step(lo, hi, n), Step(lo, hi, n)).value
  }

  lemma NonZeroStep(d: real, m: real)
    requires d != 0.0 && m != 0.0
    ensures d / m != 0.0
  {
    assert (d / m) * m == d;
  }

  lemma DivideExact(a: real, b: real, c: real)
    requires c != 0.0 && a == b * c
    ensures a / c == b
  {
  }

  /** The arange stop is one step past `hi`, so it yields exactly `n` factors. */
  lemma RangeFactorsCount(lo: real, hi: real, n: int)
    requires n != 1 && lo != hi
    ensures |RangeFactors(lo, hi, n)| == Max(n, 0)
  {
    var m := (n - 1) as real;
    var d := hi - lo;
    var step := d / m;
    assert (d / m) * m == d;
    assert step != 0.0;
    assert (hi + step) - lo == (m + 1.0) * step;
    DivideExact((hi + step) - lo, m + 1.0, step);
    assert Ceil(m + 1.0) == n;
  }

  /** Range mode: the first factor is the lower end and the n-th the upper end. */
  lemma RangeFactorsEnds(lo: real, hi: real, n: int)
    requires n >= 2 && lo != hi
    ensures |RangeFactors(lo, hi, n)| == n
    ensures RangeFactors(lo, hi, n)[0] == lo
    ensures RangeFactors(lo, hi, n)[n - 1] == hi
  {
    RangeFactorsCount(lo, hi, n);
    var m := (n - 1) as real;
    var step := (hi - lo) / m;
    assert ((hi - lo) / m) * m == hi - lo;
    assert RangeFactors(lo, hi, n)[n - 1] == lo + m * step;
  }

  lemma RangeModeValue(lo: real, hi: real, step: real)
    requires step != 0.0
    ensures RangeMode(lo, hi, step) ==
      var arr := Arange(lo, hi + step, step).value;
      Ok(if 1.0 in arr then arr else Ascending(arr + [1.0]))
  {
  }

  /** The list range mode returns, before and after 1 is inserted. */
  lemma ScaleFactorsRangeValue(lo: real, hi: real, rest: seq<real>, n: int, custom: Option<seq<real>>)
    requires n != 1 && lo != hi
    ensures ScaleFactors(Some([lo, hi] + rest), n, custom) ==
      var arr := RangeFactors(lo, hi, n);
      Ok(if 1.0 in arr then arr else Ascending(arr + [1.0]))
  {
    var range := [lo, hi] + rest;
    assert range[0] == lo && range[1] == hi;
    NonZeroStep(hi - lo, (n - 1) as real);
    RangeModeValue(lo, hi, Step(lo, hi, n));
  }

  /**
   * Range mode keeps the evenly spaced factors as they are when 1 is among them;
   * otherwise it inserts 1 and sorts: one more factor, ascending.
   */
  lemma ScaleFactorsRangeMode(lo: real, hi: real, rest: seq<real>, n: int, custom: Option<seq<real>>)
    requires n != 1 && lo != hi
    ensures ScaleFactors(Some([lo, hi] + rest), n, custom).Ok?
    ensures 1.0 in RangeFactors(lo, hi, n) ==>
      ScaleFactors(Some([lo, hi] + rest), n, custom).value == RangeFactors(lo, hi, n)
    ensures 1.0 !in RangeFactors(lo, hi, n) ==>
      var r := ScaleFactors(Some([lo, hi] + rest), n, custom).value;
      && |r| == Max(n, 0) + 1
      && SortedBy(r, x => x)
      && multiset(r) == multiset(RangeFactors(lo, hi, n)) + multiset{1.0}
  {
    ScaleFactorsRangeValue(lo, hi, rest, n, custom);
    RangeFactorsCount(lo, hi, n);
    var arr := RangeFactors(lo, hi, n);
    if 1.0 !in arr {
      var r := Ascending(arr + [1.0]);
      assert multiset(arr + [1.0]) == multiset(arr) + multiset{1.0};
      assert |r| == |multiset(r)| == |arr| + 1;
    }
  }

  /**
   * Scaling the volume by `f` stretches the lengths a, b, c; the angles and the
   * fractional coordinates stay (`scale_atoms=True`).
   */
  function Scaled(st: Structure, f: real, stretch: (real, real) -> real): (r: Structure)
    ensures r.cell[3..] == st.cell[3..]
    ensures r == st.(cell := r.cell)
  {
    st.(cell := [stretch(st.cell[0], f), stretch(st.cell[1], f), stretch(st.cell[2], f),
                 st.cell[3], st.cell[4], st.cell[5]])
  }

  /** A factor that leaves lengths alone leaves the structure as it is. */
  lemma ScaledByUnit(st: Structure, stretch: (real, real) -> real)
    requires forall x :: stretch(x, 1.0) == x
    ensures Scaled(st, 1.0, stretch) == st
  {
    var c := Scaled(st, 1.0, stretch).cell;
    assert c[0] == st.cell[0] && c[1] == st.cell[1] && c[2] == st.cell[2];
    assert c == st.cell;
  }

  /**
   * `scale_cell`: one scaled copy of the structure per factor, in factor order,
   * or the exception raised while choosing the factors.
   */
  method ScaleCell(st: Structure, range: Option<seq<real>>, n: int, custom: Option<seq<real>>, stretch: (real, real) -> real)
    returns (r: Result<seq<Structure>>)
    ensures r.Err? <==> ScaleFactors(range, n, custom).Err?
    ensures r.Err? ==> r.error == ScaleFactors(range, n, custom).error
    ensures r.Ok? ==> |r.value| == |ScaleFactors(range, n, custom).value|
    ensures r.Ok? ==> forall i :: 0 <= i < |r.value| ==>
      r.value[i] == Scaled(st, ScaleFactors(range, n, custom).value[i], stretch)
  {
    var factors := ScaleFactors(range, n, custom);
    if factors.Err? {
      return Err(factors.error);
    }
    var distortedCells := ScaleAll(st, factors.value, stretch);
    r := Ok(distortedCells);
  }

  /** The loop of `scale_cell`: one scaled copy per factor. */
  method ScaleAll(st: Structure, factors: seq<real>, stretch: (real, real) -> real) returns (cells: seq<Structure>)
    ensures |cells| == |factors|
    ensures forall i :: 0 <= i < |cells| ==> cells[i] == Scaled(st, factors[i], stretch)
  {
    cells := [];
    for i := 0 to |factors|
      invariant |cells| == i
      invariant forall k :: 0 <= k < i ==> cells[k] == Scaled(st, factors[k], stretch)
    {
      cells := cells + [Scaled(st, factors[i], stretch)];
    }
  }

  /** With neither a range nor custom factors there are eight structures. */
  lemma ScaleCellDefaultCount()
    ensures ScaleFactors(None, 10, None) == Ok(DefaultFactors) && |DefaultFactors| == 8
  {
  }

  /** In range mode one of the produced structures is the unscaled one. */
  lemma ScaleCellRangeKeepsOriginal(st: Structure, range: seq<real>, n: int, stretch: (real, real) -> real)
    requires forall x :: stretch(x, 1.0) == x
    requires ScaleFactors(Some(range), n, None).Ok?
    ensures exists i :: (0 <= i < |ScaleFactors(Some(range), n, None).value| &&
      Scaled(st, ScaleFactors(Some(range), n, None).value[i], stretch) == st)
  {
    var fs := ScaleFactors(Some(range), n, None).value;
    var i :| 0 <= i < |fs| && fs[i] == 1.0;
    ScaledByUnit(st, stretch);
  }

  // ---------------------------------------------------------------------------
  // Minimum distance

  /** Every pair of distinct sites is at least `minDistance` apart. */
  predicate WellSpaced(s: Structure, minDistance: real, dist: (Structure, nat, nat) -> real)
    ensures |s.sites| <= 1 ==> WellSpaced(s, minDistance, dist)
  {
    forall i: nat, j: nat :: i < |s.sites| && j < |s.sites| && i != j ==> dist(s, i, j) >= minDistance
  }

  /**
   * `check_distances`: for each site, the distances to all other sites in order;
   * the first one strictly below the minimum makes the answer false.
   */
  method CheckDistances(s: Structure, minDistance: real, dist: (Structure, nat, nat) -> real) returns (ok: bool)
    ensures ok <==> WellSpaced(s, minDistance, dist)
    ensures |s.sites| <= 1 ==> ok
  {
    for i := 0 to |s.sites|
      invariant forall i': nat, j: nat :: i' < i && j < |s.sites| && i' != j ==> dist(s, i', j) >= minDistance
    {
      for j := 0 to |s.sites|
        invariant forall j': nat :: j' < j && i != j' ==> dist(s, i, j') >= minDistance
      {
        if j != i && dist(s, i, j) < minDistance {
          return false;
        }
      }
    }
    return true;
  }

  // ---------------------------------------------------------------------------
  // Random angle distortion

  /** The fixed inputs of `random_vary_angle`, with its oracles. */
  datatype VaryParams = VaryParams(
    st: Structure,
    minDistance: real,
    wAngle: seq<int>,
    n: int,
    maxAttempts: int,
    stretch: (real, real) -> real,
    dist: (Structure, nat, nat) -> real,
    rng: nat -> nat,
    fmul: (real, real) -> real)

  /** `random.randint(lo, hi)` fed with the raw draw `raw`; an empty range is a ValueError. */
  function Randint(lo: int, hi: int, raw: nat): (r: Result<int>)
    ensures r.Err? <==> lo > hi
    ensures r.Err? ==> r.error == ValueError
    ensures r.Ok? ==> lo <= r.value <= hi
  {
    if lo > hi then Err(ValueError) else Ok(lo + raw % (hi - lo + 1))
  }

  /** The position `newcell[w + 3]` refers to in a six-element array, negative indices counting from the end. */
  function SlotIndex(w: int): (r: Result<nat>)
    ensures r.Err? <==> !(-9 <= w < 3)
    ensures r.Ok? ==> r.value < 6
    ensures 0 <= w < 3 ==> r == Ok(w + 3)
  {
    var k := w + 3;
    if 0 <= k < 6 then Ok(k)
    else if -6 <= k < 0 then Ok(k + 6)
    else Err(IndexError)
  }

  /** The slots that `zip(w_angle, newvalues)` writes are all angle slots. */
  predicate WritesAnglesOnly(wAngle: seq<int>)
  {
    forall k :: 0 <= k < |wAngle| && k < 3 ==> 0 <= wAngle[k] < 3
  }

  /** The writes `newcell[w + 3] = v` for the pairs of `zip(w_angle, values)` from position k on. */
  function WriteSlots(cell: CellPar, wAngle: seq<int>, values: seq<int>, k: nat): (r: Result<CellPar>)
    requires |values| == 3
    decreases 3 - k
    ensures r.Ok? && WritesAnglesOnly(wAngle) ==> r.value[..3] == cell[..3]
  {
    if k >= 3 || k >= |wAngle| then Ok(cell)
    else
      match SlotIndex(wAngle[k])
      case Err(e) => Err(e)
      case Ok(idx) => WriteSlots(cell[idx := values[k] as real], wAngle, values, k + 1)
  }

  /** The stretched cell: `scale_cell` with the single custom factor 1.03. */
  function Stretched(p: VaryParams): CellPar
  {
    Scaled(p.st, 1.03, p.stretch).cell
  }

  /**
   * One `random.randint` draw for an angle: between the truncated bounds
   * angle * (1 - scale) and angle * (1 + scale).
   */
  function Draw(p: VaryParams, angle: real, scale: real, raw: nat): (r: Result<int>)
    ensures r.Err? <==> Trunc(p.fmul(angle, 1.0 - scale)) > Trunc(p.fmul(angle, 1.0 + scale))
    ensures r.Err? ==> r.error == ValueError
    ensures r.Ok? ==> Trunc(p.fmul(angle, 1.0 - scale)) <= r.value <= Trunc(p.fmul(angle, 1.0 + scale))
  {
    Randint(Trunc(p.fmul(angle, 1.0 - scale)), Trunc(p.fmul(angle, 1.0 + scale)), raw)
  }

  /** The three draws alpha', beta', gamma' of one attempt, from the original angles. */
  function Draws(p: VaryParams, scale: real, t: nat): (r: Result<seq<int>>)
    ensures r.Ok? ==> |r.value| == 3
  {
    match Draw(p, p.st.cell[3], scale, p.rng(t))
    case Err(e) => Err(e)
    case Ok(newAlpha) =>
      match Draw(p, p.st.cell[4], scale, p.rng(t + 1))
      case Err(e) => Err(e)
      case Ok(newBeta) =>
        match Draw(p, p.st.cell[5], scale, p.rng(t + 2))
        case Err(e) => Err(e)
        case Ok(newGamma) => Ok([newAlpha, newBeta, newGamma])
  }

  /**
   * One attempt: the three draws written into `cell` as `w_angle` says.
   * Returns the new cell and the position of the next draw.
   */
  function Attempt(p: VaryParams, cell: CellPar, scale: real, t: nat): (r: Result<(CellPar, nat)>)
    ensures r.Ok? ==> r.value.1 == t + 3
    ensures r.Ok? && WritesAnglesOnly(p.wAngle) ==> r.value.0[..3] == cell[..3]
  {
    match Draws(p, scale, t)
    case Err(e) => Err(e)
    case Ok(values) =>
      match WriteSlots(cell, p.wAngle, values, 0)
      case Err(e) => Err(e)
      case Ok(c) => Ok((c, t + 3))
  }

  /** A structure `random_vary_angle` may return: the input with another cell, passing the distance test. */
  predicate IsVaried(p: VaryParams, s: Structure)
  {
    s == p.st.(cell := s.cell) && WellSpaced(s, p.minDistance, p.dist)
  }

  /**
   * The inner loop with `left` attempts remaining: the first candidate that
   * passes the distance test, with the next draw position; RuntimeError once
   * the attempts are used up.
   */
  function VaryInner(p: VaryParams, cell: CellPar, scale: real, t: nat, left: int): (r: Result<(Structure, nat)>)
    decreases left
    ensures r.Ok? ==> IsVaried(p, r.value.0)
    ensures r.Ok? && WritesAnglesOnly(p.wAngle) ==> r.value.0.cell[..3] == cell[..3]
    ensures left <= 0 ==> r == Err(RuntimeError)
  {
    if left <= 0 then Err(RuntimeError)
    else
      match Attempt(p, cell, scale, t)
      case Err(e) => Err(e)
      case Ok((newCell, t')) =>
        var candidate := p.st.(cell := newCell);
        if WellSpaced(candidate, p.minDistance, p.dist) then Ok((candidate, t'))
        else VaryInner(p, newCell, scale, t', left - 1)
  }

  /** What follows the inner loop: store the candidate and go on with the outer loop. */
  function Continue(p: VaryParams, acc: seq<Structure>, scale: real, inner: Result<(Structure, nat)>): (r: Result<seq<Structure>>)
    requires |acc| < p.n
    requires inner.Ok? ==> IsVaried(p, inner.value.0)
    requires inner.Ok? && WritesAnglesOnly(p.wAngle) ==> inner.value.0.cell[..3] == Stretched(p)[..3]
    decreases Max(p.n - |acc|, 0), 0
    ensures r.Ok? ==> |r.value| == p.n && r.value[..|acc|] == acc
    ensures r.Ok? ==> forall k :: |acc| <= k < |r.value| ==> IsVaried(p, r.value[k])
    ensures r.Ok? && WritesAnglesOnly(p.wAngle) ==> forall k :: |acc| <= k < |r.value| ==> r.value[k].cell[..3] == Stretched(p)[..3]
  {
    match inner
    case Err(e) => Err(e)
    case Ok((s, t)) => VaryOuter(p, acc + [s], scale, t)
  }

  /**
   * The outer loop with `acc` generated so far: each round divides the angle
   * scale by 100 again, restarts from the stretched cell and runs the inner loop.
   */
  function VaryOuter(p: VaryParams, acc: seq<Structure>, scale: real, t: nat): (r: Result<seq<Structure>>)
    decreases Max(p.n - |acc|, 0), 1
    ensures r.Ok? ==> |r.value| == Max(p.n, |acc|) && r.value[..|acc|] == acc
    ensures r.Ok? ==> forall k :: |acc| <= k < |r.value| ==> IsVaried(p, r.value[k])
    ensures r.Ok? && WritesAnglesOnly(p.wAngle) ==> forall k :: |acc| <= k < |r.value| ==> r.value[k].cell[..3] == Stretched(p)[..3]
  {
    if |acc| >= p.n then Ok(acc)
    else
      var scale' := scale / 100.0;
      Continue(p, acc, scale', VaryInner(p, Stretched(p), scale', t, p.maxAttempts))
  }

  /**
   * `random_vary_angle` succeeds with exactly `n_structures` structures (none
   * when that is not positive), each the input with a new cell that passed
   * `check_distances`, whose lengths are the 3%-stretched ones when only angle
   * slots are written.
   */
  lemma RandomVaryAngleOutcome(p: VaryParams, scale: real)
    ensures var r := VaryOuter(p, [], scale, 0);
      && (r.Ok? ==> |r.value| == Max(p.n, 0))
      && (r.Ok? ==> forall k :: 0 <= k < |r.value| ==> IsVaried(p, r.value[k]))
      && (r.Ok? && WritesAnglesOnly(p.wAngle) ==> forall k :: 0 <= k < |r.value| ==> r.value[k].cell[..3] == Stretched(p)[..3])
      && (p.n <= 0 ==> r == Ok([]))
      && (p.n > 0 && p.maxAttempts <= 0 ==> r == Err(RuntimeError))
  {
  }

  /**
   * The body of one attempt: three `random.randint` draws between the truncated
   * bounds, then the `zip(w_angle, newvalues)` writes into `newcell`.
   */
  method DrawAngles(p: VaryParams, newcell: array<real>, scale: real, t: nat) returns (failure: Option<Exception>)
    requires newcell.Length == 6
    modifies newcell
    ensures failure.Some? ==> Attempt(p, old(newcell[..]), scale, t) == Err(failure.value)
    ensures failure.None? ==> Attempt(p, old(newcell[..]), scale, t) == Ok((newcell[..], t + 3))
  {
    ghost var before: CellPar := newcell[..];
    var alpha, beta, gamma := p.st.cell[3], p.st.cell[4], p.st.cell[5];
    var drawn := Draw(p, alpha, scale, p.rng(t));
    if drawn.Err? {
      return Some(drawn.error);
    }
    var newAlpha := drawn.value;
    drawn := Draw(p, beta, scale, p.rng(t + 1));
    if drawn.Err? {
      return Some(drawn.error);
    }
    var newBeta := drawn.value;
    drawn := Draw(p, gamma, scale, p.rng(t + 2));
    if drawn.Err? {
      return Some(drawn.error);
    }
    var newGamma := drawn.value;
    var newvalues := [newAlpha, newBeta, newGamma];
    assert Draws(p, scale, t) == Ok(newvalues);
    for k := 0 to Min(|p.wAngle|, 3)
      invariant WriteSlots(newcell[..], p.wAngle, newvalues, k) == WriteSlots(before, p.wAngle, newvalues, 0)
    {
      var slot := SlotIndex(p.wAngle[k]);
      if slot.Err? {
        return Some(slot.error);
      }
      newcell[slot.value] := newvalues[k] as real;
    }
    return None;
  }

  /** `scale_cell(structure, scale_factors=[1.03])[0]`, its cell copied into a fresh array. */
  method StretchedCell(p: VaryParams) returns (newcell: array<real>)
    ensures fresh(newcell)
    ensures newcell.Length == 6 && newcell[..] == Stretched(p)
  {
    var stretched := ScaleCell(p.st, None, 10, Some([1.03]), p.stretch);
    newcell := new real[6];
    var cell0 := stretched.value[0].cell;
    newcell[0], newcell[1], newcell[2] := cell0[0], cell0[1], cell0[2];
    newcell[3], newcell[4], newcell[5] := cell0[3], cell0[4], cell0[5];
  }

  /** An attempt that raises ends the inner loop with its exception. */
  lemma AttemptFails(p: VaryParams, cell: CellPar, scale: real, t: nat, left: int, e: Exception)
    requires left > 0 && Attempt(p, cell, scale, t) == Err(e)
    ensures VaryInner(p, cell, scale, t, left) == Err(e)
  {
  }

  /** An attempt whose candidate is well spaced ends the inner loop with it. */
  lemma AttemptAccepted(p: VaryParams, cell: CellPar, scale: real, t: nat, left: int, newCell: CellPar)
    requires left > 0 && Attempt(p, cell, scale, t) == Ok((newCell, t + 3))
    requires WellSpaced(p.st.(cell := newCell), p.minDistance, p.dist)
    ensures VaryInner(p, cell, scale, t, left) == Ok((p.st.(cell := newCell), t + 3))
  {
  }

  /** An attempt whose candidate is too tight goes on from the new cell with one attempt fewer. */
  lemma AttemptRetried(p: VaryParams, cell: CellPar, scale: real, t: nat, left: int, newCell: CellPar)
    requires left > 0 && Attempt(p, cell, scale, t) == Ok((newCell, t + 3))
    requires !WellSpaced(p.st.(cell := newCell), p.minDistance, p.dist)
    ensures VaryInner(p, cell, scale, t, left) == VaryInner(p, newCell, scale, t + 3, left - 1)
  {
  }

  /**
   * One pass of the inner loop's body against the attempts still left: it
   * either ends the loop with the result the specification gives, or leaves
   * in `newcell` the cell the remaining attempts start from.
   */
  method TryOnce(p: VaryParams, newcell: array<real>, scale: real, t: nat, ghost left: int,
                 ghost expected: Result<(Structure, nat)>)
    returns (done: Option<Result<(Structure, nat)>>, t': nat, ghost left': int)
    requires newcell.Length == 6 && left > 0
    requires VaryInner(p, newcell[..], scale, t, left) == expected
    modifies newcell
    ensures t' == t + 3 && left' == left - 1
    ensures done.Some? ==> done.value == expected
    ensures done.None? ==> VaryInner(p, newcell[..], scale, t', left') == expected
  {
    t', left' := t + 3, left - 1;
    ghost var cell: CellPar := newcell[..];
    var failure := DrawAngles(p, newcell, scale, t);
    if failure.Some? {
      AttemptFails(p, cell, scale, t, left, failure.value);
      done := Some(Err(failure.value));
      return;
    }
    var drawn: CellPar := newcell[..];
    var candidate := p.st.(cell := drawn);
    var ok := CheckDistances(candidate, p.minDistance, p.dist);
    if ok {
      AttemptAccepted(p, cell, scale, t, left, drawn);
      done := Some(Ok((candidate, t + 3)));
      return;
    }
    AttemptRetried(p, cell, scale, t, left, drawn);
    done := None;
  }

  /**
   * One round of the outer loop: the cell stretched by 3% copied into a
   * six-element `newcell` array, then up to `max_attempts` draws until a
   * candidate passes the distance test.
   */
  method VaryOne(p: VaryParams, scale: real, t0: nat) returns (r: Result<(Structure, nat)>)
    ensures r == VaryInner(p, Stretched(p), scale, t0, p.maxAttempts)
  {
    var newcell := StretchedCell(p);
    ghost var expected := VaryInner(p, newcell[..], scale, t0, p.maxAttempts);
    var attempts := 0;
    ghost var left := p.maxAttempts;
    var t := t0;
    while attempts < p.maxAttempts
      invariant newcell.Length == 6 && left == p.maxAttempts - attempts
      invariant VaryInner(p, newcell[..], scale, t, left) == expected
      decreases left
    {
      attempts := attempts + 1;
      var done;
      done, t, left := TryOnce(p, newcell, scale, t, left, expected);
      if done.Some? {
        return done.value;
      }
    }
    return Err(RuntimeError);
  }

  /** The method is the source's outer loop, with the scale divided by 100 on every round. */
  method RandomVaryAngle(p: VaryParams, angleScale: real) returns (r: Result<seq<Structure>>)
    ensures r == VaryOuter(p, [], angleScale, 0)
  {
    var distortedAngleCells: seq<Structure> := [];
    var generatedStructures := 0;
    var angleScalePct := angleScale;
    var t: nat := 0;
    ghost var expected := VaryOuter(p, [], angleScale, 0);
    while generatedStructures < p.n
      invariant generatedStructures == |distortedAngleCells|
      invariant VaryOuter(p, distortedAngleCells, angleScalePct, t) == expected
      decreases p.n - generatedStructures
    {
      angleScalePct := angleScalePct / 100.0;
      var inner := VaryOne(p, angleScalePct, t);
      if inner.Err? {
        return Err(inner.error);
      }
      distortedAngleCells := distortedAngleCells + [inner.value.0];
      generatedStructures := generatedStructures + 1;
      t := inner.value.1;
    }
    r := Ok(distortedAngleCells);
  }

  // ---------------------------------------------------------------------------
  // Rattling

  /**
   * `std_rattle`: structure i is the input rattled with seed `rattle_seed + i`,
   * the seed being bumped by one before every structure after the first.
   */
  method StdRattle(st: Structure, n: int, rattleStd: real, rattleSeed: int,
                   rattle: (Structure, real, int) -> Structure) returns (r: seq<Structure>)
    ensures |r| == Max(n, 0)
    ensures forall i :: 0 <= i < |r| ==> r[i] == rattle(st, rattleStd, rattleSeed + i)
  {
    r := [];
    var seed := rattleSeed;
    for i := 0 to Max(n, 0)
      invariant |r| == i
      invariant i > 0 ==> seed == rattleSeed + i - 1
      invariant i == 0 ==> seed == rattleSeed
      invariant forall k :: 0 <= k < i ==> r[k] == rattle(st, rattleStd, rattleSeed + k)
    {
      if i == 0 {
        r := r + [rattle(st, rattleStd, seed)];
      }
      if i > 0 {
        seed := seed + 1;
        r := r + [rattle(st, rattleStd, seed)];
      }
    }
  }
}
