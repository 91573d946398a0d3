/**
 * `boltzhist_CUR` and `convexhull_CUR`: flat-histogram Boltzmann sampling of
 * a pool of structures, by enthalpy per atom or by distance to the convex
 * hull, followed by a stochastic CUR reduction. The working list is the
 * caller's own list unless the input was nested, so the draws delete items
 * from the caller's list.
 */
module Sampling {
  import opened Wrappers
  import opened PyMath
  import opened Structures
  import opened Sorting
  import opened Pool
  import opened Draws
  import opened FlatHistogram
  import opened Choice
  import opened Cur

  /** `ase.units.GPa`: one gigapascal in eV per cubic angstrom. */
  const GPa: real := 1.0 / 160.21766208

  /**
   * What the samplers take from outside: atomic numbers of element symbols,
   * cell volumes, the exponential, the uniform random numbers of the draw
   * loop and of the CUR choice, the truncated SVD, the descriptor
   * calculator, and the distance of an entry to the hull built from a list
   * (linear E-V hull, or the volume-stoichiometry hull with isolated energies).
   */
  datatype Environment = Environment(
    atomicNumber: string -> int,
    volume: CellPar -> real,
    exp: real -> real,
    uniform: nat -> real,
    curUniform: nat -> Unit,
    svd: (nat, nat) -> seq<seq<real>>,
    descriptorOf: Structure -> seq<real>,
    linearHullDistance: (seq<Entry>, Entry) -> Result<real>,
    volumeHullDistance: (seq<Entry>, map<int, real>, Entry) -> Result<real>)

  // ---------------------------------------------------------------------------
  // Enthalpies

  /** Every element is an Atoms object with a stored pressure. */
  predicate HavePressures(fatoms: seq<Entry>)
  {
    forall i :: 0 <= i < |fatoms| ==> fatoms[i].AtomsItem? && fatoms[i].structure.pressure.Some?
  }

  /**
   * `np.array([at.info['pressure'] for at in fatoms])` inside a bare `try`:
   * whatever goes wrong is re-raised as RuntimeError.
   */
  function StoredPressures(fatoms: seq<Entry>): (r: Result<seq<real>>)
    ensures r.Ok? <==> HavePressures(fatoms)
    ensures r.Err? ==> r.error == RuntimeError
    ensures r.Ok? ==> |r.value| == |fatoms|
    ensures r.Ok? ==> forall i :: 0 <= i < |fatoms| ==> Some(r.value[i]) == fatoms[i].structure.pressure
  {
    if HavePressures(fatoms) then
      Ok(seq(|fatoms|, i requires 0 <= i < |fatoms| && HavePressures(fatoms) => fatoms[i].structure.pressure.value))
    else Err(RuntimeError)
  }

  /** Every site's atomic number has an isolated-atom energy. */
  predicate Covered(sites: seq<Site>, isolEs: map<int, real>, z: string -> int)
  {
    forall k :: 0 <= k < |sites| ==> z(sites[k].symbol) in isolEs
  }

  /** `sum([isol_es[j] for j in at_ids[ct]])`. */
  function IsolatedSum(sites: seq<Site>, isolEs: map<int, real>, z: string -> int): real
    requires Covered(sites, isolEs, z)
  {
    if sites == [] then 0.0 else isolEs[z(sites[0].symbol)] + IsolatedSum(sites[1..], isolEs, z)
  }

  /**
   * One entry of `ener_relative`: the energy (always read from `info['energy']`,
   * whatever `energy_label` says) minus the isolated-atom energies, per atom.
   * A missing energy or atomic number raises KeyError, indexing a missing
   * `isol_es` TypeError, and an empty structure ZeroDivisionError.
   */
  function RelativeEnergy(st: Structure, isolEs: Option<map<int, real>>, z: string -> int): (r: Result<real>)
    ensures r.Ok? <==> st.energy.Some? && |st.sites| > 0 && isolEs.Some? && Covered(st.sites, isolEs.value, z)
    ensures r.Err? && st.energy.Some? && st.sites == [] ==> r.error == ZeroDivisionError
    ensures r.Err? && st.energy.Some? && st.sites != [] && isolEs.None? ==> r.error == TypeError
  {
    if st.energy.None? then Err(KeyError)
    else if st.sites == [] then Err(ZeroDivisionError)
    else if isolEs.None? then Err(TypeError)
    else if !Covered(st.sites, isolEs.value, z) then Err(KeyError)
    else Ok((st.energy.value - IsolatedSum(st.sites, isolEs.value, z)) / (|st.sites| as real))
  }

  /** `ener_relative`: the relative energies in order, or the exception of the first structure that fails. */
  function RelativeEnergies(sts: seq<Structure>, isolEs: Option<map<int, real>>, z: string -> int): (r: Result<seq<real>>)
    ensures r.Ok? <==> forall i :: 0 <= i < |sts| ==> RelativeEnergy(sts[i], isolEs, z).Ok?
    ensures r.Ok? ==> |r.value| == |sts|
    ensures r.Ok? ==> forall i :: 0 <= i < |sts| ==> Ok(r.value[i]) == RelativeEnergy(sts[i], isolEs, z)
    ensures r.Err? ==> exists i :: (0 <= i < |sts| && RelativeEnergy(sts[i], isolEs, z) == Err(r.error) &&
                                    forall j :: 0 <= j < i ==> RelativeEnergy(sts[j], isolEs, z).Ok?)
  {
    if sts == [] then Ok([])
    else
      match RelativeEnergy(sts[0], isolEs, z)
      case Err(e) => Err(e)
      case Ok(e0) =>
        var rest := RelativeEnergies(sts[1..], isolEs, z);
        if rest.Err? then
          assert forall i :: 1 <= i < |sts| ==> sts[1..][i - 1] == sts[i];
          Err(rest.error)
        else
          assert forall i :: 1 <= i < |sts| ==> sts[1..][i - 1] == sts[i];
          Ok([e0] + rest.value)
  }

  /** `(ener_relative[i] + at.get_volume() * ps[i] * GPa) / len(at)`. */
  function Enthalpy(st: Structure, er: real, p: real, volume: CellPar -> real): (h: real)
    requires |st.sites| > 0
    ensures h * (|st.sites| as real) == er + volume(st.cell) * p * GPa
  {
    (er + volume(st.cell) * p * GPa) / (|st.sites| as real)
  }

  /**
   * The energy term of the enthalpy is divided by the number of atoms twice:
   * once in `ener_relative` and again in the enthalpy, while the pressure term
   * is divided once.
   */
  lemma EnthalpyDividesEnergyTwice(st: Structure, isolEs: map<int, real>, z: string -> int, p: real, volume: CellPar -> real)
    requires st.energy.Some? && |st.sites| > 0 && Covered(st.sites, isolEs, z)
    ensures var n := |st.sites| as real;
      Enthalpy(st, RelativeEnergy(st, Some(isolEs), z).value, p, volume) ==
      (st.energy.value - IsolatedSum(st.sites, isolEs, z)) / n / n + volume(st.cell) * p * GPa / n
  {
    var n := |st.sites| as real;
    var er := RelativeEnergy(st, Some(isolEs), z).value;
    assert er == (st.energy.value - IsolatedSum(st.sites, isolEs, z)) / n;
    assert Enthalpy(st, er, p, volume) == (er + volume(st.cell) * p * GPa) / n;
    assert er / n + volume(st.cell) * p * GPa / n == (er + volume(st.cell) * p * GPa) / n;
  }

  /**
   * `enthalpies` of `boltzhist_CUR`: pressures from `P` or from the
   * structures (RuntimeError), atomic numbers (AttributeError for an element
   * that is not an Atoms object), relative energies, then one enthalpy per
   * structure (IndexError when `P` is too short); `np.min` of no enthalpies
   * raises ValueError.
   */
  function BoltzEnthalpies(fatoms: seq<Entry>, isolEs: Option<map<int, real>>, P: Option<seq<real>>, env: Environment): (r: Result<seq<real>>)
    ensures r.Ok? ==> |r.value| == |fatoms| > 0
  {
    var ps := if P.Some? then Ok(P.value) else StoredPressures(fatoms);
    if ps.Err? then Err(ps.error)
    else if !AllAtoms(fatoms) then Err(AttributeError)
    else
      var sts := Unwrap(fatoms);
      match RelativeEnergies(sts, isolEs, env.atomicNumber)
      case Err(e) => Err(e)
      case Ok(er) =>
        if |ps.value| < |sts| then Err(IndexError)
        else if sts == [] then Err(ValueError)
        else
          assert forall i :: 0 <= i < |sts| ==> RelativeEnergy(sts[i], isolEs, env.atomicNumber).Ok?;
          Ok(seq(|sts|, i requires 0 <= i < |sts| => Enthalpy(sts[i], er[i], ps.value[i], env.volume)))
  }

  /** Every element is an Atoms object with an energy and at least one atom. */
  predicate Computable(fatoms: seq<Entry>)
  {
    forall i :: 0 <= i < |fatoms| ==>
      fatoms[i].AtomsItem? && fatoms[i].structure.energy.Some? && |fatoms[i].structure.sites| > 0
  }

  /**
   * Without `P`, a structure lacking a stored pressure stops the sampler with
   * RuntimeError; with every pressure known, no `isol_es` and some atoms to
   * look up, it stops with TypeError.
   */
  lemma BoltzEnthalpiesErrors(fatoms: seq<Entry>, isolEs: Option<map<int, real>>, P: Option<seq<real>>, env: Environment)
    ensures P.None? && !HavePressures(fatoms) ==> BoltzEnthalpies(fatoms, isolEs, P, env) == Err(RuntimeError)
    ensures P.None? && HavePressures(fatoms) && isolEs.None? && fatoms != [] && Computable(fatoms) ==>
      BoltzEnthalpies(fatoms, isolEs, P, env) == Err(TypeError)
  {
    if P.None? && HavePressures(fatoms) && isolEs.None? && fatoms != [] && Computable(fatoms) {
      var sts := Unwrap(fatoms);
      var er := RelativeEnergies(sts, isolEs, env.atomicNumber);
      assert !RelativeEnergy(sts[0], isolEs, env.atomicNumber).Ok?;
      assert er.Err?;
      var i :| 0 <= i < |sts| && RelativeEnergy(sts[i], isolEs, env.atomicNumber) == Err(er.error);
    }
  }

  // ---------------------------------------------------------------------------
  // Drawing and CUR, shared by both samplers

  /** `round(bolt_frac * len(fatoms))`, capped at `bolt_max_num`. */
  function SelectNum(boltFrac: real, n: nat, boltMaxNum: int): (r: int)
    ensures r <= boltMaxNum && r <= RoundHalfEven(boltFrac * (n as real))
    ensures r == boltMaxNum || r == RoundHalfEven(boltFrac * (n as real))
  {
    Min(RoundHalfEven(boltFrac * (n as real)), boltMaxNum)
  }

  /** With a fraction in [0, 1], the number to draw never exceeds the pool. */
  lemma SelectNumBounded(boltFrac: real, n: nat, boltMaxNum: int)
    requires 0.0 <= boltFrac <= 1.0
    ensures SelectNum(boltFrac, n, boltMaxNum) <= n
    ensures boltMaxNum >= 0 ==> SelectNum(boltFrac, n, boltMaxNum) >= 0
  {
    assert boltFrac * (n as real) <= n as real;
    RoundMonotone(boltFrac * (n as real), n as real);
    RoundOfInteger(n);
    RoundMonotone(0.0, boltFrac * (n as real));
    RoundOfInteger(0);
  }

  /** The CUR result as the samplers return it: Atoms objects. */
  function WrapSelection(r: Result<Option<seq<Structure>>>): Result<Option<seq<Entry>>>
  {
    match r
    case Err(e) => Err(e)
    case Ok(None) => Ok(None)
    case Ok(Some(s)) => Ok(Some(Wrap(s)))
  }

  /**
   * The second half of both samplers: `select_num` draws without
   * replacement from the working list, then `cur_select` in its stochastic
   * mode when `cur_num < select_num`. Returns the result and the working
   * list as the draws leave it.
   */
  function SampleOutcome(configProb: seq<real>, pool: seq<Entry>, boltFrac: real, boltMaxNum: int, curNum: int,
                         kernelExp: real, dim: nat, env: Environment): (res: (Result<Option<seq<Entry>>>, seq<Entry>))
    requires SvdOracle(env.svd)
    ensures multiset(res.1) <= multiset(pool)
    ensures res.0.Ok? ==> |res.1| == |pool| - Max(SelectNum(boltFrac, |pool|, boltMaxNum), 0)
  {
    var selectNum := SelectNum(boltFrac, |pool|, boltMaxNum);
    var d := DrawLoop(configProb, pool, env.uniform, selectNum);
    DrawLoopShrinks(configProb, pool, env.uniform, selectNum);
    if d.failure.Some? then (Err(d.failure.value), d.pool)
    else if curNum < selectNum then
      (WrapSelection(CurSelectResult(d.selected, dim, kernelExp, curNum, true, env.svd, env.curUniform)), d.pool)
    else (Ok(Some(d.selected)), d.pool)
  }

  /**
   * With non-negative weights, one per item, uniform draws in [0, 1), a
   * fraction in [0, 1], a non-negative cap, and no CUR step, the sampler
   * returns exactly `select_num` items of the working list, distinct when the
   * list holds no duplicates.
   */
  lemma SampleWithoutCur(configProb: seq<real>, pool: seq<Entry>, boltFrac: real, boltMaxNum: int, curNum: int,
                         kernelExp: real, dim: nat, env: Environment)
    requires SvdOracle(env.svd)
    requires |configProb| == |pool|
    requires forall j :: 0 <= j < |configProb| ==> configProb[j] >= 0.0
    requires forall j: nat :: 0.0 <= env.uniform(j) < 1.0
    requires 0.0 <= boltFrac <= 1.0 && boltMaxNum >= 0
    requires curNum >= SelectNum(boltFrac, |pool|, boltMaxNum)
    ensures var (r, rest) := SampleOutcome(configProb, pool, boltFrac, boltMaxNum, curNum, kernelExp, dim, env);
      && r.Ok? && r.value.Some?
      && |r.value.value| == SelectNum(boltFrac, |pool|, boltMaxNum)
      && multiset(r.value.value) + multiset(rest) == multiset(pool)
      && (NoDuplicates(pool) ==> NoDuplicates(r.value.value))
  {
    var selectNum := SelectNum(boltFrac, |pool|, boltMaxNum);
    SelectNumBounded(boltFrac, |pool|, boltMaxNum);
    var d0 := Drawn([], pool, configProb, None);
    var d := DrawLoop(configProb, pool, env.uniform, selectNum);
    DrawStepsSucceed(d0, env.uniform, 0, selectNum);
    DrawStepsCount(d0, env.uniform, 0, selectNum);
    DrawStepsKeepsItems(d0, env.uniform, 0, selectNum);
    if NoDuplicates(pool) {
      DrawLoopDistinct(configProb, pool, env.uniform, selectNum);
      PrefixDistinct(d.selected, d.pool);
    }
  }

  /** Drawing from a list of Atoms objects draws Atoms objects. */
  lemma DrawnAreAtoms(configProb: seq<real>, pool: seq<Entry>, uniform: nat -> real, selectNum: int)
    requires AllAtoms(pool)
    ensures AllAtoms(DrawLoop(configProb, pool, uniform, selectNum).selected)
  {
    var d0 := Drawn([], pool, configProb, None);
    var d := DrawLoop(configProb, pool, uniform, selectNum);
    assert d == DrawSteps(d0, uniform, 0, Max(selectNum, 0));
    DrawStepsKeepsItems(d0, uniform, 0, Max(selectNum, 0));
    assert multiset(d.selected) + multiset(d.pool) == multiset(pool);
    forall i | 0 <= i < |d.selected| ensures d.selected[i].AtomsItem? {
      assert d.selected[i] in multiset(d.selected);
      assert d.selected[i] in multiset(pool);
    }
  }

  /**
   * The stochastic CUR step on the drawn Atoms objects: when it succeeds it
   * returns `cur_num` of them, in the order they were drawn, each without its
   * descriptor.
   */
  lemma CurOnDrawn(selected: seq<Entry>, curNum: int, kernelExp: real, dim: nat, env: Environment)
    requires SvdOracle(env.svd) && AllAtoms(selected)
    ensures var r := WrapSelection(CurSelectResult(selected, dim, kernelExp, curNum, true, env.svd, env.curUniform));
      r.Ok? ==> && r.value.Some? && |r.value.value| == curNum && AllAtoms(r.value.value)
                && exists idx: seq<nat> :: SelectedAt(selected, idx, Unwrap(r.value.value))
  {
    var c := CurSelectResult(selected, dim, kernelExp, curNum, true, env.svd, env.curUniform);
    if selected != [] {
      assert Flattened(selected) == selected;
      assert c == SelectFrom(selected, dim, kernelExp, curNum, true, env.svd, env.curUniform);
      StochasticSelection(selected, dim, kernelExp, curNum, env.svd, env.curUniform);
      if c.Ok? {
        var chosen := c.value.value;
        assert WrapSelection(c) == Ok(Some(Wrap(chosen)));
        assert Unwrap(Wrap(chosen)) == chosen;
      }
    }
  }

  /**
   * With the same assumptions as above but a CUR step (`cur_num <
   * select_num`): the draws all succeed and take `select_num` items off the
   * working list, whether or not `cur_select` then succeeds; a successful
   * result holds `cur_num` of the drawn structures, in the order they were
   * drawn, each without its descriptor.
   */
  lemma SampleWithCur(configProb: seq<real>, pool: seq<Entry>, boltFrac: real, boltMaxNum: int, curNum: int,
                      kernelExp: real, dim: nat, env: Environment)
    requires SvdOracle(env.svd)
    requires |configProb| == |pool| && AllAtoms(pool)
    requires forall j :: 0 <= j < |configProb| ==> configProb[j] >= 0.0
    requires forall j: nat :: 0.0 <= env.uniform(j) < 1.0
    requires 0.0 <= boltFrac <= 1.0 && boltMaxNum >= 0
    requires curNum < SelectNum(boltFrac, |pool|, boltMaxNum)
    ensures var selectNum := SelectNum(boltFrac, |pool|, boltMaxNum);
      var drawn := DrawLoop(configProb, pool, env.uniform, selectNum);
      var (r, rest) := SampleOutcome(configProb, pool, boltFrac, boltMaxNum, curNum, kernelExp, dim, env);
      && drawn.failure.None? && |drawn.selected| == selectNum
      && |rest| == |pool| - selectNum
      && (r.Ok? ==> && r.value.Some? && |r.value.value| == curNum && AllAtoms(r.value.value)
                    && exists idx: seq<nat> :: SelectedAt(drawn.selected, idx, Unwrap(r.value.value)))
  {
    var selectNum := SelectNum(boltFrac, |pool|, boltMaxNum);
    SelectNumBounded(boltFrac, |pool|, boltMaxNum);
    var d0 := Drawn([], pool, configProb, None);
    var d := DrawLoop(configProb, pool, env.uniform, selectNum);
    DrawStepsSucceed(d0, env.uniform, 0, selectNum);
    DrawStepsCount(d0, env.uniform, 0, selectNum);
    DrawLoopShrinks(configProb, pool, env.uniform, selectNum);
    DrawnAreAtoms(configProb, pool, env.uniform, selectNum);
    CurOnDrawn(d.selected, curNum, kernelExp, dim, env);
  }

  /** `del fatoms[config_i]` on the working list, and `cur_select` when asked to reduce. */
  method Sample(configProb: seq<real>, fatoms: PyList, boltFrac: real, boltMaxNum: int, curNum: int,
                kernelExp: real, dim: nat, env: Environment)
    returns (r: Result<Option<seq<Entry>>>)
    requires SvdOracle(env.svd)
    modifies fatoms
    ensures (r, fatoms.items) == SampleOutcome(configProb, old(fatoms.items), boltFrac, boltMaxNum, curNum, kernelExp, dim, env)
  {
    var selectNum := SelectNum(boltFrac, |fatoms.items|, boltMaxNum);
    var selectedBoltAts, failure := DrawWithoutReplacement(configProb, fatoms, selectNum, env.uniform);
    if failure.Some? {
      return Err(failure.value);
    }
    if curNum < selectNum {
      var selected := CurSelect(selectedBoltAts, dim, kernelExp, curNum, true, env.svd, env.curUniform, env.descriptorOf);
      r := WrapSelection(selected);
    } else {
      r := Ok(Some(selectedBoltAts));
    }
  }

  // ---------------------------------------------------------------------------
  // boltzhist_CUR

  /**
   * `boltzhist_CUR` on the caller's list: the result, and the caller's list
   * afterwards. A nested input is flattened into a new list; otherwise the
   * draws delete from the caller's own list.
   */
  function BoltzhistOutcome(items: seq<Entry>, isolEs: Option<map<int, real>>, boltFrac: real, boltMaxNum: int,
                            curNum: int, kernelExp: real, kT: real, P: Option<seq<real>>, dim: nat, env: Environment)
    : (res: (Result<Option<seq<Entry>>>, seq<Entry>))
    requires SvdOracle(env.svd)
    ensures items == [] ==> res.0 == Err(IndexError)
    ensures multiset(res.1) <= multiset(items)
  {
    if items == [] then (Err(IndexError), items)
    else
      var pool := Flattened(items);
      match BoltzEnthalpies(pool, isolEs, P, env)
      case Err(e) => (Err(e), items)
      case Ok(hs) =>
        var (r, rest) := SampleOutcome(Weights(hs, kT, env.exp), pool, boltFrac, boltMaxNum, curNum, kernelExp, dim, env);
        (r, if items[0].List? then items else rest)
  }

  /**
   * `boltzhist_CUR`: flat-histogram Boltzmann selection by enthalpy per atom,
   * reduced by CUR. `energy_label` is accepted by the source and never read,
   * so it is not a parameter here.
   */
  method BoltzhistCur(atoms: PyList, isolEs: Option<map<int, real>>, boltFrac: real, boltMaxNum: int, curNum: int,
                      kernelExp: real, kT: real, P: Option<seq<real>>, dim: nat, env: Environment)
    returns (r: Result<Option<seq<Entry>>>)
    requires SvdOracle(env.svd)
    modifies atoms
    ensures (r, atoms.items) == BoltzhistOutcome(old(atoms.items), isolEs, boltFrac, boltMaxNum, curNum, kernelExp, kT, P, dim, env)
  {
    if atoms.items == [] {
      return Err(IndexError);
    }
    var fatoms := atoms;
    if atoms.items[0].List? {
      var flat := Flatten(atoms.items, true);
      fatoms := new PyList(flat.value);
    }
    assert fatoms.items == Flattened(atoms.items);
    var enthalpies := BoltzEnthalpies(fatoms.items, isolEs, P, env);
    if enthalpies.Err? {
      return Err(enthalpies.error);
    }
    var configProb := FlatWeights(enthalpies.value, kT, env.exp);
    r := Sample(configProb, fatoms, boltFrac, boltMaxNum, curNum, kernelExp, dim, env);
  }

  /**
   * The caller's list after `boltzhist_CUR`: untouched when it was nested,
   * and otherwise exactly the working list the draws left behind.
   */
  lemma BoltzhistCallerList(items: seq<Entry>, isolEs: Option<map<int, real>>, boltFrac: real, boltMaxNum: int,
                            curNum: int, kernelExp: real, kT: real, P: Option<seq<real>>, dim: nat, env: Environment)
    requires SvdOracle(env.svd)
    requires items != []
    ensures var (r, after) := BoltzhistOutcome(items, isolEs, boltFrac, boltMaxNum, curNum, kernelExp, kT, P, dim, env);
      && multiset(after) <= multiset(items)
      && (items[0].List? ==> after == items)
      && (!items[0].List? && r.Ok? ==> |after| == |items| - Max(SelectNum(boltFrac, |items|, boltMaxNum), 0))
  {
  }

  /**
   * With a positive exponential, uniform draws in [0, 1), a fraction in
   * [0, 1], a non-negative cap and no CUR step, `boltzhist_CUR` on a flat
   * list returns `select_num` distinct-position items of that list and
   * removes them from it.
   */
  lemma BoltzhistSelection(items: seq<Entry>, isolEs: Option<map<int, real>>, boltFrac: real, boltMaxNum: int,
                           curNum: int, kernelExp: real, kT: real, P: Option<seq<real>>, dim: nat, env: Environment)
    requires SvdOracle(env.svd)
    requires items != [] && !items[0].List?
    requires BoltzEnthalpies(items, isolEs, P, env).Ok?
    requires forall x :: env.exp(x) > 0.0
    requires forall j: nat :: 0.0 <= env.uniform(j) < 1.0
    requires 0.0 <= boltFrac <= 1.0 && boltMaxNum >= 0
    requires curNum >= SelectNum(boltFrac, |items|, boltMaxNum)
    ensures var (r, after) := BoltzhistOutcome(items, isolEs, boltFrac, boltMaxNum, curNum, kernelExp, kT, P, dim, env);
      && r.Ok? && r.value.Some?
      && |r.value.value| == SelectNum(boltFrac, |items|, boltMaxNum)
      && multiset(r.value.value) + multiset(after) == multiset(items)
  {
    var hs := BoltzEnthalpies(items, isolEs, P, env).value;
    var ws := Weights(hs, kT, env.exp);
    forall j | 0 <= j < |ws| ensures ws[j] >= 0.0 {
      WeightPositive(hs, j, kT, env.exp);
    }
    SampleWithoutCur(ws, items, boltFrac, boltMaxNum, curNum, kernelExp, dim, env);
  }

  // ---------------------------------------------------------------------------
  // convexhull_CUR

  /** `[get_e_distance_to_hull(hull, at, ...) for at in atoms]`: the first failure, or one distance per entry. */
  function HullDistances(atoms: seq<Entry>, distance: Entry -> Result<real>): (r: Result<seq<real>>)
    ensures r.Ok? <==> forall i :: 0 <= i < |atoms| ==> distance(atoms[i]).Ok?
    ensures r.Ok? ==> |r.value| == |atoms| && forall i :: 0 <= i < |atoms| ==> Ok(r.value[i]) == distance(atoms[i])
  {
    if atoms == [] then Ok([])
    else
      match distance(atoms[0])
      case Err(e) => Err(e)
      case Ok(d0) =>
        var rest := HullDistances(atoms[1..], distance);
        if rest.Err? then
          assert forall i :: 1 <= i < |atoms| ==> atoms[1..][i - 1] == atoms[i];
          Err(rest.error)
        else
          assert forall i :: 1 <= i < |atoms| ==> atoms[1..][i - 1] == atoms[i];
          Ok([d0] + rest.value)
  }

  /**
   * `des` of `convexhull_CUR`: the hull and the distances are computed over
   * the list as passed in (`atoms`, not the flattened `fatoms`); a missing
   * `isol_es` raises KeyError and an unknown scheme ValueError.
   */
  function HullDes(items: seq<Entry>, isolEs: Option<map<int, real>>, scheme: string, env: Environment): (r: Result<seq<real>>)
    ensures r.Ok? ==> |r.value| == |items|
    ensures isolEs.None? ==> r == Err(KeyError)
    ensures isolEs.Some? && scheme != "linear-hull" && scheme != "volume-stoichiometry" ==> r == Err(ValueError)
  {
    if isolEs.None? then Err(KeyError)
    else if scheme == "linear-hull" then HullDistances(items, e => env.linearHullDistance(items, e))
    else if scheme == "volume-stoichiometry" then HullDistances(items, e => env.volumeHullDistance(items, isolEs.value, e))
    else Err(ValueError)
  }

  /** `convexhull_CUR` on the caller's list: the result, and the caller's list afterwards. */
  function ConvexhullOutcome(items: seq<Entry>, isolEs: Option<map<int, real>>, scheme: string, boltFrac: real,
                             boltMaxNum: int, curNum: int, kernelExp: real, kT: real, dim: nat, env: Environment)
    : (res: (Result<Option<seq<Entry>>>, seq<Entry>))
    requires SvdOracle(env.svd)
    ensures items == [] ==> res.0 == Err(IndexError)
    ensures multiset(res.1) <= multiset(items)
  {
    if items == [] then (Err(IndexError), items)
    else
      var pool := Flattened(items);
      match HullDes(items, isolEs, scheme, env)
      case Err(e) => (Err(e), items)
      case Ok(des) =>
        var (r, rest) := SampleOutcome(Weights(des, kT, env.exp), pool, boltFrac, boltMaxNum, curNum, kernelExp, dim, env);
        (r, if items[0].List? then items else rest)
  }

  /**
   * `convexhull_CUR`: flat-histogram Boltzmann selection by distance to the
   * convex hull, reduced by CUR.
   */
  method ConvexhullCur(atoms: PyList, isolEs: Option<map<int, real>>, scheme: string, boltFrac: real, boltMaxNum: int,
                       curNum: int, kernelExp: real, kT: real, dim: nat, env: Environment)
    returns (r: Result<Option<seq<Entry>>>)
    requires SvdOracle(env.svd)
    modifies atoms
    ensures (r, atoms.items) == ConvexhullOutcome(old(atoms.items), isolEs, scheme, boltFrac, boltMaxNum, curNum, kernelExp, kT, dim, env)
  {
    if atoms.items == [] {
      return Err(IndexError);
    }
    var fatoms := atoms;
    if atoms.items[0].List? {
      var flat := Flatten(atoms.items, true);
      fatoms := new PyList(flat.value);
    }
    assert fatoms.items == Flattened(atoms.items);
    var des := HullDes(atoms.items, isolEs, scheme, env);
    if des.Err? {
      return Err(des.error);
    }
    var configProb := FlatWeights(des.value, kT, env.exp);
    r := Sample(configProb, fatoms, boltFrac, boltMaxNum, curNum, kernelExp, dim, env);
  }

  /**
   * Because the weights come from the list as passed in, a nested input
   * asked for more draws than it has top-level entries fails with
   * IndexError, however many structures its sublists hold.
   */
  lemma ConvexhullNestedWeights(items: seq<Entry>, isolEs: Option<map<int, real>>, scheme: string, boltFrac: real,
                                boltMaxNum: int, curNum: int, kernelExp: real, kT: real, dim: nat, env: Environment)
    requires SvdOracle(env.svd)
    requires items != [] && HullDes(items, isolEs, scheme, env).Ok?
    requires SelectNum(boltFrac, |Flattened(items)|, boltMaxNum) > |items|
    ensures ConvexhullOutcome(items, isolEs, scheme, boltFrac, boltMaxNum, curNum, kernelExp, kT, dim, env).0 == Err(IndexError)
  {
    var des := HullDes(items, isolEs, scheme, env).value;
    var pool := Flattened(items);
    var selectNum := SelectNum(boltFrac, |pool|, boltMaxNum);
    DrawStepsExhaustWeights(Drawn([], pool, Weights(des, kT, env.exp), None), env.uniform, 0, Max(selectNum, 0));
  }
}
