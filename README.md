# autoplex data utilities in Dafny

A model of the structure-generation and structure-selection helpers that
autoplex uses to build training data for machine-learned interatomic
potentials. Each helper is proved against a specification. The model covers
two files.

- `autoplex/data/common/utils.py`:
  - flattening nested lists of structures (`flatten`);
  - the RMSE/std summary (`rms_dict`);
  - volume scaling (`scale_cell`);
  - the minimum-distance test (`check_distances`);
  - random angle distortion (`random_vary_angle`);
  - rattling (`std_rattle`);
  - file base names (`extract_base_name`);
  - the `Species` helper class;
  - CUR selection (`cur_select`);
  - the Boltzmann factor (`boltz`);
  - the flat-histogram Boltzmann samplers `boltzhist_CUR` and `convexhull_CUR`.
- `autoplex/data/phonons/utils.py`:
  - the k-point density rule of the phonon displacement maker;
  - the tiered supercell search `reduce_supercell_size`;
  - the tolerance check `check_supercells`.

## Modules

| module | file | content |
|---|---|---|
| `Wrappers` | `wrappers.dfy` | `Option`, `Result` and the Python exceptions the code raises |
| `PyMath` | `pymath.dfy` | `int()` truncation, `round()` (half to even), sums, `min`/`max` |
| `Structures` | `structures.dfy` | structures, list entries, and the mutable Python list `PyList` |
| `Sorting` | `sorting.dfy` | a stable sort by key (`sorted`, `np.sort`, `np.argsort`) |
| `Pool` | `pool.dfy` | `flatten`, `extract_base_name` |
| `Rms` | `rms.dfy` | `rms_dict` |
| `SpeciesUtil` | `species.dfy` | the `Species` class |
| `Perturbation` | `perturbation.dfy` | `scale_cell`, `check_distances`, `random_vary_angle`, `std_rattle` |
| `Draws` | `draws.dfy` | the draw-without-replacement loop shared by both samplers |
| `Choice` | `choice.dfy` | `np.random.choice` without replacement, as `cur_select` calls it |
| `FlatHistogram` | `histogram.dfy` | `np.histogram`, bin lookup, flat-histogram weights, `boltz` |
| `Cur` | `cur.dfy` | `cur_select` |
| `Sampling` | `sampling.dfy` | `boltzhist_CUR`, `convexhull_CUR` |
| `Supercell` | `supercell.dfy` | the phonon helpers |

Code that changes state is modelled as imperative Dafny. The samplers delete
the drawn entries from the caller's own list when the input is not nested.
That list is the class `Structures.PyList`, and the methods that delete from
it say what the list holds afterwards. Loops such as `random_vary_angle`,
`std_rattle`, `check_distances`, the descriptor stripping in `cur_select`,
the supercell search and `check_supercells` are methods with loop invariants.
Each is proved equal to a recursive specification function, and the
properties are proved about that function. `Species` is a class over its
list of structures.

### Behaviour kept as written

The model keeps the following behaviour of the code, even where the
documentation suggests otherwise.

- `boltzhist_CUR` divides the relative energy by the atom count twice:
  once in `ener_relative` and once more in the enthalpy
  (`Sampling.EnthalpyDividesEnergyTwice`).
- `boltzhist_CUR` always reads the `energy` key and ignores `energy_label`.
- Isolated-atom energies are looked up by atomic number.
- `boltzhist_CUR` takes the pressures from `P` when given, else from each
  structure.
- `convexhull_CUR` builds the hull distances from the unflattened `atoms`
  but draws from the flattened list. A nested input with more draws than
  top-level entries ends in IndexError (`Sampling.ConvexhullNestedWeights`).
- When the input is not nested, both samplers delete the drawn structures
  from the caller's list. Without the CUR step the returned structures are
  those same objects. With it, `cur_select` returns the structures that
  came back from `Pool().starmap`, which are copies with the descriptor
  removed.
- `random_vary_angle` divides the percentage scale by 100 again on every
  structure it generates. It writes the drawn angles through
  `zip(w_angle, ...)` position by position, so negative or large entries of
  `w_angle` can overwrite lattice lengths or raise IndexError.
- `cur_select` with `select_nums = 0` in deterministic mode keeps every
  index, because `[-0:]` is the whole list. A nested input without leaves
  gives `None`. An empty input gives IndexError at `atoms[0]`.
- `reduce_supercell_size` returns inside the first iteration of its loop,
  either from a tier or from the fallback. Only `min_length` is ever tried.
  The result is `None` when `min_length <= fallback_min_length`.
- The docstring of `check_distances` (utils.py:213) promises "all pairwise
  interatomic distances > min_distance". The code rejects only distances
  strictly below the minimum, so a distance equal to it passes. The model
  follows the code.
- `extract_base_name` on an out file that contains neither `quip_train` nor
  `quip_test` returns the string "A problem with the files occurred." rather
  than raising.
- `cur_select` and both samplers test `isinstance(atoms[0], list)`. Only a
  Python list (`Entry.List`) is flattened there. A tuple or other iterable
  (`Entry.Tuple`) in first place is not, although `flatten` itself descends
  into both.
- In kernel mode `cur_select` squeezes the descriptor matrix before the
  product. When the descriptors are one-dimensional and there is a single
  structure, the squeeze leaves a scalar, and `np.matmul` raises
  ValueError. When only one of the two is 1, the squeeze leaves a vector,
  the product of two vectors is a scalar with an empty shape, and
  `min(m.shape)` raises ValueError.
- `np.random.choice` in `cur_select` locates each draw with
  `searchsorted(side='right')`, so it never picks an index of zero score.
  The Boltzmann draw in the samplers uses `side='left'`.

## Model

| member | source | states |
|---|---|---|
| PyMath.Trunc | autoplex/data/common/utils.py:993 | `int()` truncates toward zero: the result lies within one of the argument on the side of zero |
| PyMath.RoundHalfEven | autoplex/data/common/utils.py:1121 | `round()` gives an integer within 0.5 of the argument, and the even one on a tie |
| PyMath.RoundMonotone | autoplex/data/phonons/utils.py:98 | rounding never decreases when the argument grows |
| Sorting.SortBy | autoplex/data/common/utils.py:999 | the result is sorted by the key and is a permutation of the input |
| Sorting.Ascending | autoplex/data/common/utils.py:166 | `np.sort` gives an ascending permutation of the input |
| Structures.PyList.Delete | autoplex/data/common/utils.py:1139 | `del l[i]` removes exactly element i; an index past the end raises IndexError and leaves the list as it was |
| Pool.Flatten | autoplex/data/common/utils.py:33-60 | recursive mode returns exactly the leaves of the nested lists, in order, with Atoms, str and bytes kept whole; otherwise one level is iterated, as the comprehension does |
| Pool.Iterate | autoplex/data/common/utils.py:60 | iterating an element fails exactly for scalars and single atoms; a list yields its items, a string its characters, an Atoms object its atoms |
| Pool.FlattenOnce | autoplex/data/common/utils.py:60 | one-level flattening succeeds iff every element is iterable, and raises TypeError otherwise |
| Pool.FlattenOnceOfLists | autoplex/data/common/utils.py:60 | on a list of lists and tuples, the non-recursive flatten is the concatenation of their items |
| Pool.LeavesAreFlat | autoplex/data/common/utils.py:51-58 | the recursive result contains no list |
| Pool.LeavesOfFlatList | autoplex/data/common/utils.py:51-58 | recursive flattening of a list without nested lists returns it unchanged |
| Pool.LeavesAppend | autoplex/data/common/utils.py:55-57 | flattening distributes over concatenation, as `extend` builds it |
| Pool.LeafInInput | autoplex/data/common/utils.py:51-58 | every leaf is an input element or a leaf of a nested input list |
| Pool.FlattenModesAgree | autoplex/data/common/utils.py:50-60 | on a list of flat lists, both modes give the same result |
| Pool.BeforeFirst | autoplex/data/common/utils.py:438-439 | `split(c, 1)[0]` is a prefix without `c`, followed by `c` whenever it is shorter than the string |
| Pool.ExtractBaseName | autoplex/data/common/utils.py:418-441 | out files give `quip_train` if the name contains it, else `quip_test` if it contains that, else "A problem with the files occurred."; other files give a prefix without `.` and `_` that ends the name or is followed by one of them |
| Pool.OutTagOccursInName | autoplex/data/common/utils.py:428-432 | an out-file base name other than the problem message is one of the two tags and occurs in the file name |
| Pool.BaseNameIsLongestPlainPrefix | autoplex/data/common/utils.py:438-439 | no prefix without `.` and `_` is longer than the base name |
| Rms.SquaredErrors | autoplex/data/common/utils.py:84 | one non-negative squared error per pair |
| Rms.RmsDict | autoplex/data/common/utils.py:80-87 | ValueError exactly when the shapes differ; NaN for both values on empty input |
| Rms.MeanSquaredErrorNonNegative | autoplex/data/common/utils.py:84-85 | the mean squared error is non-negative, and zero when prediction equals reference |
| Rms.VarianceNonNegative | autoplex/data/common/utils.py:86 | the variance is non-negative |
| Rms.RmsDictSqrtArguments | autoplex/data/common/utils.py:84-87 | both square roots are taken of non-negative numbers |
| Rms.RmsDictOfIdentical | autoplex/data/common/utils.py:84-87 | identical arrays give an RMSE and std of sqrt(0) |
| SpeciesUtil.SymbolSet | autoplex/data/common/utils.py:860-862 | a symbol is collected iff some structure contains it |
| SpeciesUtil.FirstSeen | autoplex/data/common/utils.py:860-867 | the index of the first structure containing a symbol |
| SpeciesUtil.AppendKeepsOrder | autoplex/data/common/utils.py:863-867 | appending a newly met symbol keeps the list in order of first appearance |
| SpeciesUtil.Species.GetSpecies | autoplex/data/common/utils.py:856-869 | each symbol occurring in the structures appears exactly once, in order of first appearance |
| SpeciesUtil.Species.GetNumberOfSpecies | autoplex/data/common/utils.py:890-892 | the count of distinct symbols |
| SpeciesUtil.OrderedPairsCount | autoplex/data/common/utils.py:882-885 | n species give n(n+1)/2 pairs |
| SpeciesUtil.OrderedPairsMembers | autoplex/data/common/utils.py:882-885 | a pair is listed iff it is (s[i], s[j]) with i <= j |
| SpeciesUtil.PairsOf | autoplex/data/common/utils.py:880-887 | the nested loops build exactly the ordered pairs (s[i], s[j]) with i <= j, in loop order |
| SpeciesUtil.Species.FindElementPairs | autoplex/data/common/utils.py:872-887 | the ordered pairs of the given list, or, when none is given, of a species list with every symbol once in order of first appearance |
| SpeciesUtil.AtomicNumbers | autoplex/data/common/utils.py:898-900 | one atomic number per species, in order |
| SpeciesUtil.FormatSpeciesZ | autoplex/data/common/utils.py:902-905 | builds the string `{z1 z2 ... zn}`; no species gives IndexError at `atom_numbers[-1]` |
| SpeciesUtil.SpeciesZRoundTrip | autoplex/data/common/utils.py:902-907 | reading the numbers back from the string gives the atomic numbers |
| SpeciesUtil.Species.GetSpeciesZ | autoplex/data/common/utils.py:895-907 | the formatted atomic numbers of a species list with every symbol once in order of first appearance |
| SpeciesUtil.SiliconOxygenScenario | autoplex/data/common/utils.py:856-887 | Si then SiO2 gives species [Si, O] and pairs (Si,Si), (Si,O), (O,O) |
| Perturbation.Arange | autoplex/data/common/utils.py:155-162 | `np.arange` has ceil((stop-start)/step) evenly spaced elements (none if negative); a zero step divides by zero |
| Perturbation.RangeMode | autoplex/data/common/utils.py:155-166 | the range-mode factors contain 1 unless the step is zero |
| Perturbation.RangeModeValue | autoplex/data/common/utils.py:155-166 | 1 is appended and the factors sorted exactly when the arange lacks 1 |
| Perturbation.RangeFactorsCount | autoplex/data/common/utils.py:155-162 | a range with distinct ends gives n factors |
| Perturbation.RangeFactorsEnds | autoplex/data/common/utils.py:155-162 | those factors start at the lower and end at the upper bound |
| Perturbation.ScaleFactors | autoplex/data/common/utils.py:153-183 | the range takes precedence over custom factors, which take precedence over the defaults; a short range raises IndexError and n = 1 raises ZeroDivisionError |
| Perturbation.ScaleFactorsEqualEnds | autoplex/data/common/utils.py:155-161 | equal range ends give a zero step, hence ZeroDivisionError |
| Perturbation.ScaleFactorsRangeValue | autoplex/data/common/utils.py:153-166 | the range-mode factors are the linear factors, with 1 added when missing |
| Perturbation.ScaleFactorsRangeMode | autoplex/data/common/utils.py:153-166 | n factors if 1 is among them, else n+1 sorted factors that include 1 |
| Perturbation.Scaled | autoplex/data/common/utils.py:187-193 | scaling changes only the lattice lengths |
| Perturbation.ScaledByUnit | autoplex/data/common/utils.py:189-191 | a factor of 1 leaves the structure unchanged |
| Perturbation.ScaleAll | autoplex/data/common/utils.py:187-193 | the loop builds exactly one scaled copy per factor, copy i scaled by factor i |
| Perturbation.ScaleCell | autoplex/data/common/utils.py:123-194 | one scaled copy per factor, in factor order; factor errors propagate |
| Perturbation.ScaleCellDefaultCount | autoplex/data/common/utils.py:174-176 | the default gives the eight listed factors |
| Perturbation.ScaleCellRangeKeepsOriginal | autoplex/data/common/utils.py:153-193 | range mode always includes the unscaled structure |
| Perturbation.CheckDistances | autoplex/data/common/utils.py:217-224 | True iff no distance between two different atoms is below the minimum; zero or one atom passes |
| Perturbation.WellSpaced | autoplex/data/common/utils.py:217-224 | the distance test: no two different sites closer than the minimum; zero or one site always passes |
| Perturbation.Randint | autoplex/data/common/utils.py:298-300 | the draw lies in [lo, hi]; an empty range raises ValueError |
| Perturbation.Draw | autoplex/data/common/utils.py:298-300 | one angle draw lies between the truncated bounds angle·(1 - scale) and angle·(1 + scale); bounds in the wrong order raise ValueError |
| Perturbation.SlotIndex | autoplex/data/common/utils.py:304-305 | `newcell[w+3]` is a valid position iff -9 <= w < 3, and an angle slot for 0 <= w < 3 |
| Perturbation.WriteSlots | autoplex/data/common/utils.py:302-305 | with angle-only slots, the lattice lengths are untouched |
| Perturbation.Draws | autoplex/data/common/utils.py:298-302 | three new angles per attempt |
| Perturbation.Attempt | autoplex/data/common/utils.py:296-309 | an attempt consumes three draws and, with angle-only slots, keeps the lengths |
| Perturbation.DrawAngles | autoplex/data/common/utils.py:298-305 | the in-place writes into `newcell` equal one attempt |
| Perturbation.TryOnce | autoplex/data/common/utils.py:296-309 | one pass of the inner loop ends with the result the specification gives, or leaves the cell the remaining attempts start from |
| Perturbation.StretchedCell | autoplex/data/common/utils.py:275-283 | the working cell is the cell scaled by the single factor 1.03 |
| Perturbation.VaryInner | autoplex/data/common/utils.py:295-320 | the inner loop returns a structure that passes the distance test, or RuntimeError once its attempts are used up |
| Perturbation.VaryOne | autoplex/data/common/utils.py:269-320 | the method equals the inner-loop specification |
| Perturbation.VaryOuter | autoplex/data/common/utils.py:268-320 | n structures, each passing the distance test, with the stretched lengths when the slots are angles |
| Perturbation.RandomVaryAngleOutcome | autoplex/data/common/utils.py:262-322 | n <= 0 gives []; no attempts gives RuntimeError; otherwise n varied structures |
| Perturbation.RandomVaryAngle | autoplex/data/common/utils.py:227-322 | the method, which divides the scale by 100 in every round, equals the specification |
| Perturbation.StdRattle | autoplex/data/common/utils.py:352-364 | structure i is rattled with seed `rattle_seed + i`; max(n, 0) structures |
| Draws.CumSum | autoplex/data/common/utils.py:1132 | one cumulative sum per weight |
| Draws.CumSumLast | autoplex/data/common/utils.py:1132 | the last cumulative sum is the total |
| Draws.SumPositive | autoplex/data/common/utils.py:1131 | non-negative weights have a non-negative sum, positive when any weight is |
| Draws.Normalized | autoplex/data/common/utils.py:1131 | normalising keeps the length |
| Draws.NormalizedSumsToOne | autoplex/data/common/utils.py:1131 | normalised weights sum to 1, and stay positive |
| Draws.SearchLeft | autoplex/data/common/utils.py:1134 | `searchsorted(side='left')` is the first position whose value is >= x |
| Draws.DrawIndex | autoplex/data/common/utils.py:1131-1134 | the drawn index is at most the number of weights |
| Draws.DrawIndexInRange | autoplex/data/common/utils.py:1131-1134 | with positive total weight and a uniform draw below 1, the index is a valid position |
| Draws.Remove | autoplex/data/common/utils.py:1137-1139 | `np.delete` or `del` at i shortens the sequence by one |
| Draws.RemoveTakesOne | autoplex/data/common/utils.py:1135-1139 | removal takes away exactly the element at i |
| Draws.RenormalizedNonNegative | autoplex/data/common/utils.py:1131-1137 | the remaining weights stay non-negative |
| Draws.DrawRound | autoplex/data/common/utils.py:1131-1140 | one round moves one element from the pool to the selection, or fails with IndexError |
| Draws.DrawRoundKeepsItems | autoplex/data/common/utils.py:1135-1139 | a round neither loses nor invents elements |
| Draws.DrawStepsKeepsItems | autoplex/data/common/utils.py:1130-1140 | selection plus pool is always a permutation of the input |
| Draws.DrawStepsExtends | autoplex/data/common/utils.py:1130-1140 | earlier picks stay, in order |
| Draws.DrawStepsCount | autoplex/data/common/utils.py:1130-1140 | without error, count rounds select count elements and shrink the pool by count |
| Draws.DrawLoop | autoplex/data/common/utils.py:1129-1140 | the `select_num` rounds keep selection plus remaining list a permutation of the input and, without error, select max(select_num, 0) items |
| Draws.DrawStepsSucceed | autoplex/data/common/utils.py:1130-1140 | non-negative weights, one per element, and no more rounds than elements never fail |
| Draws.DrawStepsExhaust | autoplex/data/common/utils.py:1130-1140 | more rounds than elements end in IndexError |
| Draws.DrawStepsExhaustWeights | autoplex/data/common/utils.py:1267-1277 | more rounds than weights end in IndexError |
| Draws.DrawLoopDistinct | autoplex/data/common/utils.py:1130-1140 | a pool without duplicates gives a selection without duplicates |
| Draws.DrawLoopShrinks | autoplex/data/common/utils.py:1130-1140 | the remaining list is a sub-multiset of the input, shorter by the number of rounds on success |
| Draws.DrawOne | autoplex/data/common/utils.py:1131-1139 | one loop body on the shared list equals one round, and a failing round changes nothing |
| Draws.DrawStep | autoplex/data/common/utils.py:1130-1140 | a failing iteration is where the loop ends; a successful one leaves one round fewer to the same final state |
| Draws.DrawWithoutReplacement | autoplex/data/common/utils.py:1129-1140 | the method that deletes from the caller's list equals the draw specification, and leaves the undrawn rest in the list |
| FlatHistogram.MinOf | autoplex/data/common/utils.py:1106 | `np.min` is an element no larger than any other |
| FlatHistogram.MaxOf | autoplex/data/common/utils.py:1108 | the largest element |
| FlatHistogram.Boltz | autoplex/data/common/utils.py:1009-1031 | `boltz(e, emin, kT)` is exp(0) at the minimum energy; `BoltzAtMostOne` bounds it by (0, 1] above the minimum |
| FlatHistogram.OuterEdges | autoplex/data/common/utils.py:1108 | the histogram range encloses all values and is never empty |
| FlatHistogram.EdgeLinear | autoplex/data/common/utils.py:1108 | edge k lies at lo + k·width |
| FlatHistogram.EdgeIncreasing | autoplex/data/common/utils.py:1108 | the edges strictly increase |
| FlatHistogram.Edges | autoplex/data/common/utils.py:1108 | ten bins have eleven edges |
| FlatHistogram.EdgesSpanValues | autoplex/data/common/utils.py:1108 | the edges increase and span every value |
| Draws.SearchRight | autoplex/data/common/utils.py:1110 | `searchsorted(side='right')` is the first position whose value is > x |
| FlatHistogram.BinIndex | autoplex/data/common/utils.py:1110-1112 | the clamped bin index is one of the ten bins |
| FlatHistogram.BinIndexIsHistogramBin | autoplex/data/common/utils.py:1108-1112 | the looked-up bin is the histogram bin containing the value, the last one closed |
| FlatHistogram.Occupancy | autoplex/data/common/utils.py:1108 | a bin count never exceeds the number of values |
| FlatHistogram.OccupancyOfOwnBin | autoplex/data/common/utils.py:1110-1114 | a value's own bin is never empty |
| FlatHistogram.BoltzAtMostOne | autoplex/data/common/utils.py:1009-1031 | above the minimum energy, with kT > 0, the Boltzmann factor lies in (0, 1]; it is 1 at the minimum |
| FlatHistogram.Weight | autoplex/data/common/utils.py:1109-1119 | for kT <= 0 a weight is one over its bin count, so it lies in [0, 1] |
| FlatHistogram.ColdWeight | autoplex/data/common/utils.py:1113-1119 | for kT <= 0 a weight is one over the (positive) count of its own bin |
| FlatHistogram.Weights | autoplex/data/common/utils.py:1109-1119 | one weight per value |
| FlatHistogram.OwnBinReciprocal | autoplex/data/common/utils.py:1113-1114 | one over the own bin's count lies in (0, 1] |
| FlatHistogram.WeightPositive | autoplex/data/common/utils.py:1113-1118 | every weight is positive, so the zero-count branch is never taken |
| FlatHistogram.WeightInUnitInterval | autoplex/data/common/utils.py:1109-1119 | every weight lies in (0, 1] |
| FlatHistogram.BinMassOfEqualWeights | autoplex/data/common/utils.py:1109-1119 | a bin whose values share one weight carries count × weight |
| FlatHistogram.FlatWhenCold | autoplex/data/common/utils.py:1109-1119 | for kT <= 0 every occupied bin carries total weight 1: the histogram is flattened |
| FlatHistogram.FlatWeights | autoplex/data/common/utils.py:1105-1119 | the loop computes the weight specification |
| Choice.PositiveCount | autoplex/data/common/utils.py:996-997 | numpy's count of positive probabilities is at most their number |
| Choice.PositiveCountIsCard | autoplex/data/common/utils.py:996-997 | that count is the number of positions with a positive probability |
| Choice.Zeroed | autoplex/data/common/utils.py:996-997 | `p[found] = 0` keeps the length |
| Choice.Cdf | autoplex/data/common/utils.py:996-997 | the normalised cumulative sum has one entry per probability |
| Choice.CdfEndsAtOne | autoplex/data/common/utils.py:996-997 | the normalised cumulative sum ends at exactly 1 |
| Choice.Batch | autoplex/data/common/utils.py:996-997 | each round draws exactly as many uniforms as indices are still missing |
| Choice.FirstOccurrences | autoplex/data/common/utils.py:996-997 | `np.unique(..., return_index=True)` then `take`: every drawn value exactly once, nothing else, non-empty when something was drawn |
| Choice.FirstOccurrencesHead | autoplex/data/common/utils.py:996-997 | the first value drawn comes first |
| Choice.SearchLandsOnWeight | autoplex/data/common/utils.py:996-997 | a side='right' search of a draw in [0, 1) lands on a valid position of positive probability |
| Choice.ZeroedPositive | autoplex/data/common/utils.py:996-997 | while indices are missing, some positive probability survives the zeroing, so the normalisation is defined |
| Choice.RoundKeeps | autoplex/data/common/utils.py:996-997 | each round adds at least one new index, and the found indices stay distinct and of positive probability |
| Choice.Rounds | autoplex/data/common/utils.py:996-997 | the rounds stop with exactly size distinct indices of positive probability, extending those found before |
| Choice.ChoiceWithoutReplacement | autoplex/data/common/utils.py:996-997 | `np.random.choice(range(n), size, replace=False, p)`: ValueError iff numpy's argument checks reject, else size distinct valid indices, each of positive probability |
| Choice.FirstIndexIsInverseCdf | autoplex/data/common/utils.py:996-997 | the first index is the side='right' inverse-cdf draw of the first uniform |
| Cur.ComponentCountIsHalf | autoplex/data/common/utils.py:992-993 | the number of singular vectors is min(max(1, select_nums // 2), min(shape) - 1), at least 1 for a matrix of at least 2 × 2 |
| Cur.MinShape | autoplex/data/common/utils.py:975-977 | kernel mode fails with ValueError exactly when the squeeze leaves fewer than two axes (dim or n is 1), and otherwise gives n; without a kernel, min(dim, n) |
| Cur.ColumnSquares | autoplex/data/common/utils.py:994 | a column's sum of squares is non-negative |
| Cur.Scores | autoplex/data/common/utils.py:994 | one score per structure |
| Cur.ScoresNonNegative | autoplex/data/common/utils.py:994 | every score is non-negative |
| Cur.Range | autoplex/data/common/utils.py:997 | `range(n)` |
| Cur.ArgSort | autoplex/data/common/utils.py:999 | `argsort` is a permutation of the positions, ordered by score |
| Cur.ArgSortPositions | autoplex/data/common/utils.py:999 | every position appears exactly once |
| Cur.TailSliceLength | autoplex/data/common/utils.py:999 | `[-k:]` keeps the last min(k, n) elements for k > 0, and everything for k = 0 |
| Cur.SortedIndices | autoplex/data/common/utils.py:996-999 | `sorted` gives an ascending permutation |
| Cur.SortedIndicesIncreasing | autoplex/data/common/utils.py:996-999 | sorted distinct indices strictly increase and stay in range |
| Cur.CurIndices | autoplex/data/common/utils.py:995-999 | the deterministic mode never fails; the stochastic mode fails, with ValueError, exactly when numpy rejects the request |
| Cur.TopKIndices | autoplex/data/common/utils.py:999 | the top-k selection has min(k, n) strictly increasing indices in range |
| Cur.TopKDominates | autoplex/data/common/utils.py:999 | no unselected score exceeds a selected one |
| Cur.DeterministicTopK | autoplex/data/common/utils.py:998-999 | deterministic selection gives min(k, n) increasing indices of the highest scores |
| Cur.DeterministicZeroKeepsAll | autoplex/data/common/utils.py:999 | select_nums = 0 keeps every index, because `[-0:]` is the whole list |
| Cur.StochasticDistinct | autoplex/data/common/utils.py:995-997 | stochastic selection fails iff numpy rejects the request (a negative weight, a sum further than sqrt(eps) from 1, a size out of range, too few positive weights), always with ValueError; otherwise it gives select_nums increasing indices, none of zero score |
| Cur.CurIndicesInRange | autoplex/data/common/utils.py:995-999 | any successful selection has distinct indices in range |
| Cur.Stripped | autoplex/data/common/utils.py:1001-1004 | one structure per index, each without its descriptor |
| Cur.SelectFrom | autoplex/data/common/utils.py:972-1006 | ValueError from the squeezed kernel product when dim or n is 1, and otherwise only ValueError; a success holds structures without descriptors |
| Cur.StochasticSelection | autoplex/data/common/utils.py:995-1004 | a successful stochastic selection returns select_nums structures of the pool, at strictly increasing positions, each without its descriptor |
| Cur.DropDescriptors | autoplex/data/common/utils.py:1003-1004 | the loop removes exactly the descriptor of every structure |
| Cur.SelectStructures | autoplex/data/common/utils.py:972-1006 | the descriptor, SVD and selection steps equal their specification |
| Cur.CurSelectResult | autoplex/data/common/utils.py:936-1006 | IndexError on empty input; None iff the flattened pool is empty; only IndexError, AttributeError or ValueError; a selection holds structures without descriptors |
| Cur.CurSelect | autoplex/data/common/utils.py:936-1006 | `cur_select`: IndexError on empty input, None for a nested input without leaves, AttributeError for non-Atoms leaves, else the selection |
| Sampling.StoredPressures | autoplex/data/common/utils.py:1083-1093 | the stored pressures, one per structure; RuntimeError iff one is missing |
| Sampling.RelativeEnergy | autoplex/data/common/utils.py:1097-1100 | defined iff the energy, the atoms and the isolated energies of all atoms are present; errors: ZeroDivisionError for no atoms, TypeError for no isolated energies |
| Sampling.RelativeEnergies | autoplex/data/common/utils.py:1098-1100 | one value per structure, or the first structure's error |
| Sampling.Enthalpy | autoplex/data/common/utils.py:1101 | the enthalpy times the atom count is the relative energy plus V·P·GPa |
| Sampling.EnthalpyDividesEnergyTwice | autoplex/data/common/utils.py:1098-1102 | the enthalpy is (E - ΣE_isol)/N/N + V·P·GPa/N |
| Sampling.BoltzEnthalpies | autoplex/data/common/utils.py:1083-1106 | on success, one enthalpy per structure, and at least one |
| Sampling.BoltzEnthalpiesErrors | autoplex/data/common/utils.py:1083-1100 | missing pressures raise RuntimeError; missing isolated energies raise TypeError |
| Sampling.SelectNum | autoplex/data/common/utils.py:1121-1126 | the number of draws is the smaller of `round(bolt_frac·n)` and the cap |
| Sampling.SelectNumBounded | autoplex/data/common/utils.py:1121-1126 | the number of draws is at most the pool size, and non-negative when the cap is |
| Sampling.SampleOutcome | autoplex/data/common/utils.py:1121-1150 | the working list keeps a sub-multiset of its entries, and on success it has lost exactly max(select_num, 0) of them |
| Sampling.SampleWithoutCur | autoplex/data/common/utils.py:1128-1150 | without the CUR step, exactly select_num entries are returned; returned plus remaining is the input, without duplicates when the input had none |
| Sampling.DrawnAreAtoms | autoplex/data/common/utils.py:1128-1140 | drawing from Atoms objects yields Atoms objects |
| Sampling.CurOnDrawn | autoplex/data/common/utils.py:1142-1147 | a successful CUR step on the drawn structures returns cur_num of them, in drawing order, without descriptors |
| Sampling.SampleWithCur | autoplex/data/common/utils.py:1121-1150 | with the CUR step: the draws succeed and remove select_num entries even if CUR then fails; a success holds cur_num drawn structures, in drawing order, without descriptors |
| Sampling.Sample | autoplex/data/common/utils.py:1121-1150 | the draw and CUR step of both samplers equals its specification, including the list it leaves behind |
| Sampling.BoltzhistOutcome | autoplex/data/common/utils.py:1077-1152 | an empty input gives IndexError; the caller's list only ever loses entries |
| Sampling.BoltzhistCur | autoplex/data/common/utils.py:1034-1152 | `boltzhist_CUR` equals its specification, including the mutation of the caller's list |
| Sampling.BoltzhistCallerList | autoplex/data/common/utils.py:1077-1140 | a nested input leaves the caller's list as it was; otherwise the list shrinks by the number of draws |
| Sampling.BoltzhistSelection | autoplex/data/common/utils.py:1077-1150 | without the CUR step (cur_num >= select_num), with computable enthalpies and positive exponentials, select_num structures are returned, and with the remainder they make up the input |
| Sampling.HullDistances | autoplex/data/common/utils.py:1217-1236 | one hull distance per entry of `atoms`, or the first error |
| Sampling.HullDes | autoplex/data/common/utils.py:1214-1240 | KeyError without isolated energies; ValueError for an unknown scheme; else one distance per top-level entry |
| Sampling.ConvexhullOutcome | autoplex/data/common/utils.py:1155-1289 | an empty input gives IndexError; the caller's list only ever loses entries |
| Sampling.ConvexhullCur | autoplex/data/common/utils.py:1155-1289 | `convexhull_CUR` equals its specification, including the mutation of the caller's list |
| Sampling.ConvexhullNestedWeights | autoplex/data/common/utils.py:1208-1277 | for a nested input, more draws than top-level entries end in IndexError |
| Supercell.KpointDensityBounds | autoplex/data/phonons/utils.py:97-99 | above a lattice of 10 the density lies in [50, 200] and does not grow with the lattice |
| Supercell.KpointDensity | autoplex/data/phonons/utils.py:96-99 | above a lattice of 20 the density is 50; it is always a multiple of 5 |
| Supercell.UpdatePhononDisplacementMaker | autoplex/data/phonons/utils.py:97-104 | above 10 the settings become the reciprocal density alone; otherwise unchanged; the same maker is returned |
| Supercell.Transpose | autoplex/data/phonons/utils.py:149 | entry (i, j) of the transpose is entry (j, i) |
| Supercell.TransposeInvolution | autoplex/data/phonons/utils.py:149 | transposing twice gives the matrix back |
| Supercell.TryTiers | autoplex/data/phonons/utils.py:145-174 | the tiers never let AttributeError escape |
| Supercell.FirstAcceptableTierWins | autoplex/data/phonons/utils.py:145-174 | the first tier with an acceptable site count decides, after every earlier tier failed over |
| Supercell.TierSource | autoplex/data/phonons/utils.py:145-174 | a found matrix comes from an acceptable tier |
| Supercell.FallbackFactor | autoplex/data/phonons/utils.py:177-179 | each fallback factor is at least 1; a zero length divides by zero |
| Supercell.FallbackIsDiagonal | autoplex/data/phonons/utils.py:176-183 | the fallback is diagonal, with factors >= 1, and equals its transpose |
| Supercell.ReduceSupercellResult | autoplex/data/phonons/utils.py:144-183 | None exactly when `range(min_length, fallback_min_length, -1)` is empty |
| Supercell.TiersAgree | autoplex/data/phonons/utils.py:145-174 | the tiers only depend on the transformation at the given limits |
| Supercell.OnlyMinLengthTried | autoplex/data/phonons/utils.py:144-183 | the result depends only on the transformation at `min_length` |
| Supercell.ReduceSupercellOutcome | autoplex/data/phonons/utils.py:144-183 | None iff the length range is empty; never AttributeError; a matrix is an acceptable tier's transpose or the fallback |
| Supercell.ReduceSupercellSize | autoplex/data/phonons/utils.py:107-183 | the loop with its early returns equals the specification |
| Supercell.WithinLimitsNotFlagged | autoplex/data/phonons/utils.py:265-277 | a supercell within the strict limits is never flagged |
| Supercell.SupercellGetsTransformationMatrix | autoplex/data/phonons/utils.py:270-272 | `make_supercell` receives the transformation's own matrix, transposed back |
| Supercell.OutOfTolerance | autoplex/data/phonons/utils.py:277 | the flag condition: the site count, or a lattice length, outside its window widened by the tolerance; `WithinLimitsNotFlagged` and `WiderToleranceFlagsLess` state what the widening guarantees |
| Supercell.WiderToleranceFlagsLess | autoplex/data/phonons/utils.py:266-277 | a wider tolerance never flags a supercell that a narrower one lets through |
| Supercell.CheckSupercellsResult | autoplex/data/phonons/utils.py:265-282 | at most one warning per zipped pair, each naming a given structure |
| Supercell.CheckSupercellsReportsFlagged | autoplex/data/phonons/utils.py:269-282 | the warnings are exactly the out-of-tolerance structures, in order, over the shorter of the two lists |
| Supercell.CheckSupercells | autoplex/data/phonons/utils.py:265-282 | the loop equals the specification |

## Left out

- Floating point. Reals are exact, so rounding in `np.arange`, `np.histogram`,
  the normalisation in the draws and the cumulative sums in
  `np.random.choice` is not modelled. The tolerance of sqrt(eps) that
  `np.random.choice` allows on the sum of the probabilities is kept. NaN is
  a separate value only in `rms_dict`. The bounds of the random angles in
  `random_vary_angle` are float products, passed in as the function `fmul`.
- Calls into code outside this repository are function parameters of the
  model:
  - ASE/pymatgen cell scaling, minimum-image distances, `rattle` and the
    volume;
  - atomic numbers;
  - the SVD of `svds` (only its `vt` factor, of the requested shape);
  - `np.exp` and `np.sqrt`;
  - the two hull-distance routines;
  - `CubicSupercellTransformation` and `make_supercell`.
- Randomness is a stream of draws passed in:
  - uniform reals in [0, 1) for `np.random.uniform` and `np.random.choice`;
  - raw integers for `random.randint`;
  - seeds for `rattle`.

  The global random state is not modelled. `cur_select` inside a sampler
  draws from its own stream.
- Parallel descriptor computation (`Pool().starmap`) is sequential here.
  The descriptor is a parameter. Every descriptor is taken to be a flat
  vector of length `dim`. Other shapes of the descriptor array are not
  modelled.
- Logging: `print`, `warnings.warn` and the log lines in `check_supercells`.
  `check_supercells` returns the names it would have warned about.
- `Rms.RmsDict`: arrays are one-dimensional, so "shape" is the length.
- Sampling.BoltzEnthalpies: the isolated energies are a map from atomic
  number. A list argument would raise IndexError, not KeyError, when a
  number is out of range. A plain Python float is assumed, so division by
  zero raises rather than giving numpy's `inf`.
- Sampling.HullDes: the `volume-stoichiometry` branch is the distance
  routine passed in. Its hull construction and its `element_order` and
  `energy_label` arguments are not modelled.
- `np.delete` on `enthalpies` and `des` inside the draw loop is left out,
  because the arrays are not read afterwards.
- `Sorting.SortBy` is a stable sort. `np.argsort` does not promise
  stability, so `Cur.DeterministicTopK` states only what holds for any
  ordering of equal scores.
- Supercell.ReduceSupercellSize:
  - `min_length` is an integer, since `range` rejects floats;
  - `step_size` is passed through to the transformation untouched;
  - a zero lattice length in the fallback raises ZeroDivisionError.
- Supercell.CheckSupercells: `make_supercell` changes its structure in
  place. The model keeps only the supercell it returns.
- FlatHistogram.WeightInUnitInterval: states bounds on each weight, not its
  closed form in terms of `boltz`.
- `std_rattle`, `scale_cell` and `random_vary_angle` return lists of
  structures built by the scaling and rattling routines passed in. Atom
  positions are not modelled beyond what those routines return.
