/**
 * Supercell choice for phonon calculations: the k-point density rule of the
 * displacement maker, the tiered search for a supercell matrix with its
 * diagonal fallback, and the tolerance check over a list of structures.
 * pymatgen's `CubicSupercellTransformation` and `make_supercell` are supplied
 * as functions.
 */
module Supercell {
  import opened Wrappers
  import opened PyMath

  // ---------------------------------------------------------------------------
  // update_phonon_displacement_maker

  /** `350 - 15 * int(round(lattice, 0))`, replaced by 50 above a lattice of 20. */
  function KpointDensity(lattice: real): (r: int)
    ensures lattice >= 20.0 ==> r == 50
    ensures r % 5 == 0
  {
    RoundOfInteger(20);
    if lattice > 20.0 then 50
    else
      MultipleOfFive(70 - 3 * RoundHalfEven(lattice));
      350 - 15 * RoundHalfEven(lattice)
  }

  /** Five times an integer leaves no remainder on division by five. */
  lemma MultipleOfFive(m: int)
    ensures (5 * m) % 5 == 0
  {
  }

  /**
   * Wherever the rule applies (lattice above 10), the density lies between 50
   * and 200 and never grows with the lattice.
   */
  lemma KpointDensityBounds(lattice: real, larger: real)
    requires 10.0 < lattice <= larger
    ensures 50 <= KpointDensity(lattice) <= 200
    ensures KpointDensity(larger) <= KpointDensity(lattice)
  {
    RoundMonotone(10.0, lattice);
    RoundOfInteger(10);
    if larger <= 20.0 {
      RoundMonotone(lattice, larger);
      RoundMonotone(larger, 20.0);
      RoundOfInteger(20);
    } else if lattice <= 20.0 {
      RoundMonotone(lattice, 20.0);
      RoundOfInteger(20);
    }
  }

  /** The input-set generator of a phonon displacement maker, reduced to its user k-point settings. */
  class PhononDisplacementMaker {
    var userKpointsSettings: map<string, int>

    constructor(settings: map<string, int>)
      ensures userKpointsSettings == settings
    {
      userKpointsSettings := settings;
    }
  }

  /**
   * `update_phonon_displacement_maker`: for a lattice above 10 the settings
   * become `{"reciprocal_density": density}`; otherwise the maker is left
   * as it was. The same maker is returned.
   */
  method UpdatePhononDisplacementMaker(lattice: real, maker: PhononDisplacementMaker) returns (r: PhononDisplacementMaker)
    modifies maker
    ensures r == maker
    ensures lattice > 10.0 ==> maker.userKpointsSettings == map["reciprocal_density" := KpointDensity(lattice)]
    ensures lattice <= 10.0 ==> maker.userKpointsSettings == old(maker.userKpointsSettings)
  {
    if lattice > 10.0 {
      var density := 350 - 15 * RoundHalfEven(lattice);
      if lattice > 20.0 {
        density := 50;
      }
      maker.userKpointsSettings := map["reciprocal_density" := density];
    }
    return maker;
  }

  // ---------------------------------------------------------------------------
  // reduce_supercell_size

  /** A 3 x 3 matrix, as nested lists. */
  type Matrix = m: seq<seq<real>> | |m| == 3 && forall i :: 0 <= i < |m| ==> |m[i]| == 3
    witness [[1.0, 0.0, 0.0], [0.0, 1.0, 0.0], [0.0, 0.0, 1.0]]

  /** `.transpose()`. */
  function Transpose(m: Matrix): (r: Matrix)
    ensures forall i, j :: 0 <= i < 3 && 0 <= j < 3 ==> r[i][j] == m[j][i]
  {
    seq(3, i requires 0 <= i < 3 => seq(3, j requires 0 <= j < 3 => m[j][i]))
  }

  /** Transposing twice gives the matrix back. */
  lemma TransposeInvolution(m: Matrix)
    ensures Transpose(Transpose(m)) == m
  {
    var t := Transpose(Transpose(m));
    forall i | 0 <= i < 3 ensures t[i] == m[i] {
      assert forall j :: 0 <= j < 3 ==> t[i][j] == m[i][j];
    }
  }

  /** The three settings `CubicSupercellTransformation` is tried with, in order. */
  datatype Tier =
    | OrthorhombicRightAngles   // allow_orthorhombic=True, force_90_degrees=True
    | Orthorhombic              // allow_orthorhombic=True, force_90_degrees=False
    | Cubic                     // the transformation's defaults

  /** The tiers in the order the search tries them. */
  function Tiers(): seq<Tier>
  {
    [OrthorhombicRightAngles, Orthorhombic, Cubic]
  }

  /** The length and size limits handed to the transformation. */
  datatype Limits = Limits(minLength: int, maxLength: real, minAtoms: int, maxAtoms: int, stepSize: real)

  /** What applying a transformation yields: its matrix and the site count of the supercell. */
  datatype Candidate = Candidate(matrix: Matrix, numSites: int)

  /**
   * A structure as the supercell search sees it: its lattice lengths a, b, c,
   * and what pymatgen's transformation does to it for a tier and limits
   * (AttributeError when no supercell is found).
   */
  datatype Bulk = Bulk(a: real, b: real, c: real, transform: (Tier, Limits) -> Result<Candidate>)

  /** The site count is within [min_atoms, max_atoms]. */
  predicate Acceptable(c: Candidate, minAtoms: int, maxAtoms: int)
  {
    minAtoms <= c.numSites <= maxAtoms
  }

  /**
   * The nested `try` tiers for one minimum length: the first tier whose
   * candidate is acceptable gives its matrix; an AttributeError, raised by
   * the transformation or for an unacceptable site count, moves on to the
   * next tier; any other exception propagates; Ok(None) when every tier failed.
   */
  function TryTiers(tiers: seq<Tier>, st: Bulk, limits: Limits): (r: Result<Option<Matrix>>)
    ensures r.Err? ==> r.error != AttributeError
  {
    if tiers == [] then Ok(None)
    else
      match st.transform(tiers[0], limits)
      case Err(e) => if e == AttributeError then TryTiers(tiers[1..], st, limits) else Err(e)
      case Ok(c) =>
        if Acceptable(c, limits.minAtoms, limits.maxAtoms) then Ok(Some(c.matrix))
        else TryTiers(tiers[1..], st, limits)
  }

  /** A tier fails over to the next one: the transformation raised AttributeError or gave too few or too many sites. */
  predicate FailsOver(st: Bulk, t: Tier, limits: Limits)
  {
    match st.transform(t, limits)
    case Err(e) => e == AttributeError
    case Ok(c) => !Acceptable(c, limits.minAtoms, limits.maxAtoms)
  }

  /** The search returns the matrix of the first acceptable tier, after every earlier tier failed over. */
  lemma {:induction false} FirstAcceptableTierWins(tiers: seq<Tier>, st: Bulk, limits: Limits, k: nat)
    requires k < |tiers|
    requires forall j :: 0 <= j < k ==> FailsOver(st, tiers[j], limits)
    requires st.transform(tiers[k], limits).Ok? && Acceptable(st.transform(tiers[k], limits).value, limits.minAtoms, limits.maxAtoms)
    ensures TryTiers(tiers, st, limits) == Ok(Some(st.transform(tiers[k], limits).value.matrix))
  {
    if k > 0 {
      assert FailsOver(st, tiers[0], limits);
      assert forall j :: 0 <= j < k - 1 ==> tiers[1..][j] == tiers[j + 1];
      FirstAcceptableTierWins(tiers[1..], st, limits, k - 1);
    }
  }

  /** `np.max((np.floor(max_length / x), 1))`; a zero length divides by zero. */
  function FallbackFactor(maxLength: real, x: real): (r: Result<real>)
    ensures r.Ok? ==> r.value >= 1.0
    ensures r.Err? <==> x == 0.0
  {
    if x == 0.0 then Err(ZeroDivisionError)
    else
      var f := (maxLength / x).Floor as real;
      Ok(if f >= 1.0 then f else 1.0)
  }

  /** The diagonal matrix of the three fallback factors. */
  function Diagonal(fa: real, fb: real, fc: real): Matrix
  {
    [[fa, 0.0, 0.0], [0.0, fb, 0.0], [0.0, 0.0, fc]]
  }

  /** The fallback matrix `diag(a_factor, b_factor, c_factor)`. */
  function FallbackMatrix(st: Bulk, maxLength: real): Result<Matrix>
  {
    match FallbackFactor(maxLength, st.a)
    case Err(e) => Err(e)
    case Ok(fa) =>
      match FallbackFactor(maxLength, st.b)
      case Err(e) => Err(e)
      case Ok(fb) =>
        match FallbackFactor(maxLength, st.c)
        case Err(e) => Err(e)
        case Ok(fc) => Ok(Diagonal(fa, fb, fc))
  }

  /**
   * The fallback is diagonal with every factor at least 1, so transposing it
   * changes nothing.
   */
  lemma FallbackIsDiagonal(st: Bulk, maxLength: real)
    requires FallbackMatrix(st, maxLength).Ok?
    ensures var m := FallbackMatrix(st, maxLength).value;
      && Transpose(m) == m
      && (forall i :: 0 <= i < 3 ==> m[i][i] >= 1.0)
      && (forall i, j :: 0 <= i < 3 && 0 <= j < 3 && i != j ==> m[i][j] == 0.0)
  {
    var m := FallbackMatrix(st, maxLength).value;
    var t := Transpose(m);
    forall i | 0 <= i < 3 ensures t[i] == m[i] {
      assert forall j :: 0 <= j < 3 ==> t[i][j] == m[i][j];
    }
  }

  /**
   * What `reduce_supercell_size` returns. The loop over
   * `range(min_length, fallback_min_length, -1)` returns in its first
   * iteration, from a tier or from the fallback, so only `min_length` is
   * tried; an empty range returns None.
   */
  function ReduceSupercellResult(st: Bulk, minLength: int, maxLength: real, fallbackMinLength: int,
                                 minAtoms: int, maxAtoms: int, stepSize: real): (r: Result<Option<Matrix>>)
    ensures r == Ok(None) <==> minLength <= fallbackMinLength
  {
    if minLength <= fallbackMinLength then Ok(None)
    else
      match TryTiers(Tiers(), st, Limits(minLength, maxLength, minAtoms, maxAtoms, stepSize))
      case Err(e) => Err(e)
      case Ok(Some(m)) => Ok(Some(Transpose(m)))
      case Ok(None) =>
        match FallbackMatrix(st, maxLength)
        case Err(e) => Err(e)
        case Ok(m) => Ok(Some(Transpose(m)))
  }

  /**
   * Only the first trial length is ever used: two transformations that
   * agree at `min_length` give the same result, whatever they do at
   * shorter lengths.
   */
  lemma OnlyMinLengthTried(st: Bulk, other: Bulk, minLength: int, maxLength: real, fallbackMinLength: int,
                           minAtoms: int, maxAtoms: int, stepSize: real)
    requires st.a == other.a && st.b == other.b && st.c == other.c
    requires forall t: Tier :: st.transform(t, Limits(minLength, maxLength, minAtoms, maxAtoms, stepSize)) ==
                               other.transform(t, Limits(minLength, maxLength, minAtoms, maxAtoms, stepSize))
    ensures ReduceSupercellResult(st, minLength, maxLength, fallbackMinLength, minAtoms, maxAtoms, stepSize) ==
            ReduceSupercellResult(other, minLength, maxLength, fallbackMinLength, minAtoms, maxAtoms, stepSize)
  {
    var limits := Limits(minLength, maxLength, minAtoms, maxAtoms, stepSize);
    TiersAgree(Tiers(), st, other, limits);
  }

  /** The tier search only looks at the transformation for the given limits. */
  lemma {:induction false} TiersAgree(tiers: seq<Tier>, st: Bulk, other: Bulk, limits: Limits)
    requires forall t: Tier :: st.transform(t, limits) == other.transform(t, limits)
    ensures TryTiers(tiers, st, limits) == TryTiers(tiers, other, limits)
  {
    if tiers != [] {
      TiersAgree(tiers[1..], st, other, limits);
    }
  }

  /**
   * Whenever `reduce_supercell_size` returns a matrix, it is either the
   * transposed matrix of an acceptable tier or the diagonal fallback.
   */
  lemma ReduceSupercellOutcome(st: Bulk, minLength: int, maxLength: real, fallbackMinLength: int,
                               minAtoms: int, maxAtoms: int, stepSize: real)
    ensures var r := ReduceSupercellResult(st, minLength, maxLength, fallbackMinLength, minAtoms, maxAtoms, stepSize);
      && (r == Ok(None) <==> minLength <= fallbackMinLength)
      && (r.Err? ==> r.error != AttributeError)
      && (r.Ok? && r.value.Some? ==>
            (exists t: Tier :: t in Tiers() &&
               var c := st.transform(t, Limits(minLength, maxLength, minAtoms, maxAtoms, stepSize));
               c.Ok? && Acceptable(c.value, minAtoms, maxAtoms) && r.value.value == Transpose(c.value.matrix))
            || (FallbackMatrix(st, maxLength).Ok? && r.value.value == FallbackMatrix(st, maxLength).value))
  {
    var limits := Limits(minLength, maxLength, minAtoms, maxAtoms, stepSize);
    if minLength > fallbackMinLength {
      TierSource(Tiers(), st, limits);
      if TryTiers(Tiers(), st, limits) == Ok(None) && FallbackMatrix(st, maxLength).Ok? {
        FallbackIsDiagonal(st, maxLength);
      }
    }
  }

  /** A matrix found by the tier search comes from an acceptable tier. */
  lemma {:induction false} TierSource(tiers: seq<Tier>, st: Bulk, limits: Limits)
    ensures var r := TryTiers(tiers, st, limits);
      r.Ok? && r.value.Some? ==>
        exists t: Tier :: t in tiers && st.transform(t, limits).Ok? &&
          Acceptable(st.transform(t, limits).value, limits.minAtoms, limits.maxAtoms) &&
          r.value.value == st.transform(t, limits).value.matrix
  {
    if tiers != [] {
      TierSource(tiers[1..], st, limits);
      var r := TryTiers(tiers, st, limits);
      if r.Ok? && r.value.Some? && r != TryTiers(tiers[1..], st, limits) {
        assert tiers[0] in tiers;
      }
    }
  }

  /**
   * `reduce_supercell_size`: the loop over trial lengths, the three tiers
   * and the fallback, each with an early return.
   */
  method ReduceSupercellSize(st: Bulk, minLength: int, maxLength: real, fallbackMinLength: int,
                             minAtoms: int, maxAtoms: int, stepSize: real)
    returns (r: Result<Option<Matrix>>)
    ensures r == ReduceSupercellResult(st, minLength, maxLength, fallbackMinLength, minAtoms, maxAtoms, stepSize)
  {
    // range(min_length, fallback_min_length, -1), counted from its start
    for k := 0 to if minLength > fallbackMinLength then minLength - fallbackMinLength else 0
      invariant k == 0
    {
      var minimum := minLength - k;
      var limits := Limits(minimum, maxLength, minAtoms, maxAtoms, stepSize);
      var tiers := Tiers();
      var t := 0;
      while t < |tiers|
        invariant 0 <= t <= |tiers|
        invariant TryTiers(tiers[t..], st, limits) == TryTiers(Tiers(), st, limits)
      {
        var candidate := st.transform(tiers[t], limits);
        assert tiers[t..][1..] == tiers[t + 1..];
        if candidate.Err? && candidate.error != AttributeError {
          return Err(candidate.error);
        }
        if candidate.Ok? && minAtoms <= candidate.value.numSites <= maxAtoms {
          return Ok(Some(Transpose(candidate.value.matrix)));
        }
        t := t + 1;
      }
      var fa := FallbackFactor(maxLength, st.a);
      if fa.Err? {
        return Err(fa.error);
      }
      var fb := FallbackFactor(maxLength, st.b);
      if fb.Err? {
        return Err(fb.error);
      }
      var fc := FallbackFactor(maxLength, st.c);
      if fc.Err? {
        return Err(fc.error);
      }
      var matrix := Diagonal(fa.value, fb.value, fc.value);
      return Ok(Some(Transpose(matrix)));
    }
    return Ok(None);
  }

  // ---------------------------------------------------------------------------
  // check_supercells

  /** Lattice lengths and site count of a built supercell. */
  datatype Built = Built(a: real, b: real, c: real, numSites: int)

  /** The flag condition: site count or any lattice length outside its widened window. */
  predicate OutOfTolerance(s: Built, minAtoms: int, maxAtoms: int, fallbackMinLength: real, maxLength: real, tolerance: real)
  {
    var lo := 1.0 - tolerance;
    var hi := 1.0 + tolerance;
    !((minAtoms as real) * lo <= s.numSites as real <= (maxAtoms as real) * hi)
    || !(fallbackMinLength * lo <= s.a < maxLength * hi)
    || !(fallbackMinLength * lo <= s.b < maxLength * hi)
    || !(fallbackMinLength * lo <= s.c < maxLength * hi)
  }

  /**
   * The tolerance only widens the windows: with non-negative limits and
   * tolerance, a supercell that meets the strict requirements is not flagged.
   */
  lemma WithinLimitsNotFlagged(s: Built, minAtoms: int, maxAtoms: int, fallbackMinLength: real, maxLength: real, tolerance: real)
    requires 0 <= minAtoms && 0.0 <= fallbackMinLength && 0.0 <= maxLength && 0.0 <= tolerance
    requires minAtoms <= s.numSites <= maxAtoms
    requires fallbackMinLength <= s.a < maxLength && fallbackMinLength <= s.b < maxLength && fallbackMinLength <= s.c < maxLength
    ensures !OutOfTolerance(s, minAtoms, maxAtoms, fallbackMinLength, maxLength, tolerance)
  {
    assert (minAtoms as real) * (1.0 - tolerance) <= minAtoms as real;
    assert maxAtoms as real <= (maxAtoms as real) * (1.0 + tolerance);
    assert fallbackMinLength * (1.0 - tolerance) <= fallbackMinLength;
    assert maxLength <= maxLength * (1.0 + tolerance);
  }

  /** A wider tolerance never flags a supercell that a narrower one lets through. */
  lemma WiderToleranceFlagsLess(s: Built, minAtoms: int, maxAtoms: int, fallbackMinLength: real, maxLength: real,
                                narrow: real, wide: real)
    requires 0 <= minAtoms && 0 <= maxAtoms && 0.0 <= fallbackMinLength && 0.0 <= maxLength && narrow <= wide
    ensures OutOfTolerance(s, minAtoms, maxAtoms, fallbackMinLength, maxLength, wide)
        ==> OutOfTolerance(s, minAtoms, maxAtoms, fallbackMinLength, maxLength, narrow)
  {
    var loW, loN := fallbackMinLength * (1.0 - wide), fallbackMinLength * (1.0 - narrow);
    var hiN, hiW := maxLength * (1.0 + narrow), maxLength * (1.0 + wide);
    assert (minAtoms as real) * (1.0 - wide) <= (minAtoms as real) * (1.0 - narrow);
    assert (maxAtoms as real) * (1.0 + narrow) <= (maxAtoms as real) * (1.0 + wide);
    assert loN - loW == fallbackMinLength * (wide - narrow) && fallbackMinLength * (wide - narrow) >= 0.0;
    assert hiW - hiN == maxLength * (wide - narrow) && maxLength * (wide - narrow) >= 0.0;
    if !OutOfTolerance(s, minAtoms, maxAtoms, fallbackMinLength, maxLength, narrow) {
      assert loN <= s.a < hiN && loN <= s.b < hiN && loN <= s.c < hiN;
    }
  }

  /**
   * A structure to check: the search input and pymatgen's `make_supercell`
   * applied to the matrix the search returned.
   */
  datatype Checked = Checked(bulk: Bulk, makeSupercell: Option<Matrix> -> Result<Built>)

  /** The settings `check_supercells` passes on. */
  datatype CheckLimits = CheckLimits(minLength: int, maxLength: real, fallbackMinLength: int, minAtoms: int, maxAtoms: int, tolerance: real)

  /** `np.array(matrix).transpose()`, with None passed through as it is. */
  function TransposedBack(m: Option<Matrix>): Option<Matrix>
  {
    match m
    case None => None
    case Some(x) => Some(Transpose(x))
  }

  /**
   * The matrix `make_supercell` receives is the one the transformation
   * produced: the search transposes it and the check transposes it back.
   */
  lemma SupercellGetsTransformationMatrix(st: Bulk, minLength: int, maxLength: real, fallbackMinLength: int,
                                          minAtoms: int, maxAtoms: int, stepSize: real)
    requires minLength > fallbackMinLength
    requires var c := st.transform(OrthorhombicRightAngles, Limits(minLength, maxLength, minAtoms, maxAtoms, stepSize));
      c.Ok? && Acceptable(c.value, minAtoms, maxAtoms)
    ensures ReduceSupercellResult(st, minLength, maxLength, fallbackMinLength, minAtoms, maxAtoms, stepSize).Ok?
    ensures TransposedBack(ReduceSupercellResult(st, minLength, maxLength, fallbackMinLength, minAtoms, maxAtoms, stepSize).value) ==
            Some(st.transform(OrthorhombicRightAngles, Limits(minLength, maxLength, minAtoms, maxAtoms, stepSize)).value.matrix)
  {
    var limits := Limits(minLength, maxLength, minAtoms, maxAtoms, stepSize);
    FirstAcceptableTierWins(Tiers(), st, limits, 0);
    TransposeInvolution(st.transform(OrthorhombicRightAngles, limits).value.matrix);
  }

  /** The supercell built for one structure, with the exception that stops the check if any. */
  function BuildOne(s: Checked, lim: CheckLimits): Result<Built>
  {
    match ReduceSupercellResult(s.bulk, lim.minLength, lim.maxLength, lim.fallbackMinLength, lim.minAtoms, lim.maxAtoms, 1.0)
    case Err(e) => Err(e)
    case Ok(m) => s.makeSupercell(TransposedBack(m))
  }

  /**
   * What `check_supercells` prints, as the names of the structures it
   * warns about, over `zip(structure_names, structure_list)`; an exception
   * from the search or from `make_supercell` stops it.
   */
  function CheckSupercellsResult(structures: seq<Checked>, names: seq<string>, lim: CheckLimits): (r: Result<seq<string>>)
    ensures r.Ok? ==> |r.value| <= Min(|structures|, |names|)
    ensures r.Ok? ==> forall n :: n in r.value ==> n in names
    decreases |structures|
  {
    if structures == [] || names == [] then Ok([])
    else
      match BuildOne(structures[0], lim)
      case Err(e) => Err(e)
      case Ok(built) =>
        match CheckSupercellsResult(structures[1..], names[1..], lim)
        case Err(e) => Err(e)
        case Ok(rest) =>
          assert forall n :: n in rest ==> n in names[1..];
          if OutOfTolerance(built, lim.minAtoms, lim.maxAtoms, lim.fallbackMinLength as real, lim.maxLength, lim.tolerance)
          then Ok([names[0]] + rest)
          else Ok(rest)
  }

  /**
   * A structure whose supercell is out of tolerance is reported, and one
   * within tolerance is not: the report is exactly the flagged names, in order.
   */
  lemma {:induction false} CheckSupercellsReportsFlagged(structures: seq<Checked>, names: seq<string>, lim: CheckLimits)
    requires forall i :: 0 <= i < |structures| ==> BuildOne(structures[i], lim).Ok?
    ensures var n := Min(|structures|, |names|);
      CheckSupercellsResult(structures, names, lim) ==
        Ok(Filtered(structures[..n], names[..n], lim))
    decreases |structures|
  {
    if structures != [] && names != [] {
      assert forall i :: 0 <= i < |structures| - 1 ==> structures[1..][i] == structures[i + 1];
      CheckSupercellsReportsFlagged(structures[1..], names[1..], lim);
      var n := Min(|structures|, |names|);
      assert structures[..n][1..] == structures[1..][..n - 1];
      assert names[..n][1..] == names[1..][..n - 1];
    }
  }

  /** The names, in order, whose structure's supercell is out of tolerance. */
  function Filtered(structures: seq<Checked>, names: seq<string>, lim: CheckLimits): seq<string>
    requires |structures| == |names|
    requires forall i :: 0 <= i < |structures| ==> BuildOne(structures[i], lim).Ok?
  {
    if structures == [] then []
    else
      var rest := Filtered(structures[1..], names[1..], lim);
      if OutOfTolerance(BuildOne(structures[0], lim).value, lim.minAtoms, lim.maxAtoms, lim.fallbackMinLength as real, lim.maxLength, lim.tolerance)
      then [names[0]] + rest
      else rest
  }

  /** The names warned about so far, in front of the report for the remaining structures. */
  function Prefixed(warned: seq<string>, r: Result<seq<string>>): Result<seq<string>>
  {
    match r
    case Err(e) => Err(e)
    case Ok(rest) => Ok(warned + rest)
  }

  /** `check_supercells`: one search and one supercell per zipped pair, and a warning for each flagged one. */
  method CheckSupercells(structures: seq<Checked>, names: seq<string>, lim: CheckLimits) returns (r: Result<seq<string>>)
    ensures r == CheckSupercellsResult(structures, names, lim)
  {
    var n := Min(|structures|, |names|);
    var warned: seq<string> := [];
    var i := 0;
    assert structures[i..] == structures && names[i..] == names;
    assert Prefixed(warned, CheckSupercellsResult(structures, names, lim)) == CheckSupercellsResult(structures, names, lim) by {
      if CheckSupercellsResult(structures, names, lim).Ok? {
        assert [] + CheckSupercellsResult(structures, names, lim).value == CheckSupercellsResult(structures, names, lim).value;
      }
    }
    while i < n
      invariant 0 <= i <= n
      invariant CheckSupercellsResult(structures, names, lim) ==
        Prefixed(warned, CheckSupercellsResult(structures[i..], names[i..], lim))
    {
      var matrix := ReduceSupercellSize(structures[i].bulk, lim.minLength, lim.maxLength, lim.fallbackMinLength, lim.minAtoms, lim.maxAtoms, 1.0);
      if matrix.Err? {
        assert CheckSupercellsResult(structures[i..], names[i..], lim) == Err(matrix.error);
        return Err(matrix.error);
      }
      var supercell := structures[i].makeSupercell(TransposedBack(matrix.value));
      if supercell.Err? {
        assert CheckSupercellsResult(structures[i..], names[i..], lim) == Err(supercell.error);
        return Err(supercell.error);
      }
      assert structures[i..][1..] == structures[i + 1..];
      assert names[i..][1..] == names[i + 1..];
      var flagged := OutOfTolerance(supercell.value, lim.minAtoms, lim.maxAtoms, lim.fallbackMinLength as real, lim.maxLength, lim.tolerance);
      StepPrefixed(warned, names[i], flagged, CheckSupercellsResult(structures[i + 1..], names[i + 1..], lim));
      if flagged {
        warned := warned + [names[i]];
      }
      i := i + 1;
    }
    assert structures[i..] == [] || names[i..] == [];
    assert warned + [] == warned;
    return Ok(warned);
  }

  /** Moving one reported name from the remaining report to the names warned about so far. */
  lemma StepPrefixed(warned: seq<string>, name: string, flagged: bool, rest: Result<seq<string>>)
    ensures Prefixed(warned, match rest case Err(e) => Err(e) case Ok(v) => Ok(if flagged then [name] + v else v))
         == Prefixed(if flagged then warned + [name] else warned, rest)
  {
    if flagged && rest.Ok? {
      assert warned + ([name] + rest.value) == (warned + [name]) + rest.value;
    }
  }
}
