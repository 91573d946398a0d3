/**
 * The `Species` helper: unique chemical symbols of a set of structures, the
 * ordered element pairs, and the `{Z1 Z2 ...}` string of atomic numbers.
 */
module SpeciesUtil {
  import opened Wrappers
  import opened Structures
  import opened Sorting

  /** The symbols occurring in one structure (`set(at.get_chemical_symbols())`). */
  function SymbolsOf(s: Structure): set<string>
  {
    set k | 0 <= k < |s.sites| :: s.sites[k].symbol
  }

  /** The symbols occurring in any of the structures. */
  function SymbolSet(atoms: seq<Structure>): (r: set<string>)
    ensures forall x :: x in r <==> exists k :: 0 <= k < |atoms| && x in SymbolsOf(atoms[k])
  {
    if atoms == [] then {}
    else
      var front := atoms[..|atoms| - 1];
      var r := SymbolSet(front) + SymbolsOf(atoms[|atoms| - 1]);
      assert forall k :: 0 <= k < |front| ==> front[k] == atoms[k];
      r
  }

  /** The index of the first structure containing symbol `x`. */
  function FirstSeen(atoms: seq<Structure>, x: string): (r: nat)
    requires x in SymbolSet(atoms)
    ensures r < |atoms| && x in SymbolsOf(atoms[r])
    ensures forall k :: 0 <= k < r ==> x !in SymbolsOf(atoms[k])
  {
    if x in SymbolsOf(atoms[0]) then 0
    else
      SeenLater(atoms, x);
      var r' := FirstSeen(atoms[1..], x);
      FirstSeenShift(atoms, x, r');
      var r := 1 + r';
      assert x in SymbolsOf(atoms[r]);
      r
  }

  /** The first sighting in the rest, shifted by one, is the first sighting overall. */
  lemma FirstSeenShift(atoms: seq<Structure>, x: string, r': nat)
    requires atoms != [] && x !in SymbolsOf(atoms[0])
    requires r' < |atoms| - 1 && x in SymbolsOf(atoms[1..][r'])
    requires forall k :: 0 <= k < r' ==> x !in SymbolsOf(atoms[1..][k])
    ensures x in SymbolsOf(atoms[1 + r'])
    ensures forall k :: 0 <= k < 1 + r' ==> x !in SymbolsOf(atoms[k])
  {
    assert atoms[1..][r'] == atoms[r' + 1];
    forall k | 0 < k < r' + 1 ensures x !in SymbolsOf(atoms[k]) {
      assert atoms[1..][k - 1] == atoms[k];
    }
  }

  /** A symbol of the structures that the first one lacks is among the rest. */
  lemma SeenLater(atoms: seq<Structure>, x: string)
    requires atoms != [] && x in SymbolSet(atoms) && x !in SymbolsOf(atoms[0])
    ensures x in SymbolSet(atoms[1..])
  {
    var k :| 0 <= k < |atoms| && x in SymbolsOf(atoms[k]);
    assert atoms[1..][k - 1] == atoms[k];
  }

  /** A valid answer of `get_species`: every symbol once, nothing else. */
  predicate IsSpeciesList(atoms: seq<Structure>, sl: seq<string>)
  {
    NoDuplicates(sl) && (set x | x in sl) == SymbolSet(atoms)
  }

  /** Symbols of the structures, those first met in an earlier structure first. */
  predicate InFirstSeenOrder(atoms: seq<Structure>, sl: seq<string>)
  {
    && (forall p :: 0 <= p < |sl| ==> sl[p] in SymbolSet(atoms))
    && (forall p, q :: 0 <= p < q < |sl| ==> FirstSeen(atoms, sl[p]) <= FirstSeen(atoms, sl[q]))
  }

  lemma SymbolSetSnoc(atoms: seq<Structure>, i: nat)
    requires i < |atoms|
    ensures SymbolSet(atoms[..i + 1]) == SymbolSet(atoms[..i]) + SymbolsOf(atoms[i])
  {
    assert atoms[..i + 1][..i] == atoms[..i];
  }

  /** A symbol of structure `i` that no earlier structure has is first seen at `i`. */
  lemma FirstSeenAt(atoms: seq<Structure>, i: nat, x: string)
    requires i < |atoms| && x in SymbolsOf(atoms[i]) && x !in SymbolSet(atoms[..i])
    ensures x in SymbolSet(atoms) && FirstSeen(atoms, x) == i
  {
    forall k | 0 <= k < i ensures x !in SymbolsOf(atoms[k]) {
      assert atoms[..i][k] == atoms[k];
    }
  }

  /** Appending a newly met symbol of structure `i` keeps the order. */
  lemma AppendKeepsOrder(atoms: seq<Structure>, sl: seq<string>, i: nat, x: string)
    requires InFirstSeenOrder(atoms, sl)
    requires forall p :: 0 <= p < |sl| ==> FirstSeen(atoms, sl[p]) <= i
    requires x in SymbolSet(atoms) && FirstSeen(atoms, x) == i
    ensures InFirstSeenOrder(atoms, sl + [x])
    ensures forall p :: 0 <= p < |sl + [x]| ==> FirstSeen(atoms, (sl + [x])[p]) <= i
  {
    var t := sl + [x];
    forall p | 0 <= p < |t| ensures t[p] in SymbolSet(atoms) && FirstSeen(atoms, t[p]) <= i {
      if p < |sl| { assert t[p] == sl[p]; }
    }
  }

  // ---------------------------------------------------------------------------
  // Element pairs

  /** The pairs (s[i], s[j]) for j = i, ..., |s| - 1. */
  function Row<T>(s: seq<T>, i: nat): (r: seq<(T, T)>)
    requires i < |s|
    ensures |r| == |s| - i
  {
    seq(|s| - i, k requires 0 <= k < |s| - i => (s[i], s[i + k]))
  }

  /** The rows of the first `i` species, in loop order. */
  function PairsBefore<T>(s: seq<T>, i: nat): seq<(T, T)>
    requires i <= |s|
  {
    if i == 0 then [] else PairsBefore(s, i - 1) + Row(s, i - 1)
  }

  /** What `find_element_pairs` computes: every (s[i], s[j]) with i <= j, row by row. */
  function OrderedPairs<T>(s: seq<T>): seq<(T, T)>
  {
    PairsBefore(s, |s|)
  }

  lemma {:induction false} PairsBeforeLength<T>(s: seq<T>, i: nat)
    requires i <= |s|
    ensures 2 * |PairsBefore(s, i)| == 2 * i * |s| - i * (i - 1)
  {
    if i > 0 {
      PairsBeforeLength(s, i - 1);
      var n := |s|;
      assert 2 * |PairsBefore(s, i)| == 2 * (i - 1) * n - (i - 1) * (i - 2) + 2 * (n - i + 1);
      assert 2 * (i - 1) * n == 2 * i * n - 2 * n;
      assert (i - 1) * (i - 2) == i * (i - 1) - 2 * (i - 1);
    }
  }

  /** n species give n(n+1)/2 pairs. */
  lemma OrderedPairsCount<T>(s: seq<T>)
    ensures 2 * |OrderedPairs(s)| == |s| * (|s| + 1)
  {
    PairsBeforeLength(s, |s|);
  }

  /** A pair is listed exactly when it is (s[i], s[j]) for some i <= j below `bound`. */
  lemma {:induction false} PairsBeforeMembers<T>(s: seq<T>, bound: nat, p: (T, T))
    requires bound <= |s|
    ensures p in PairsBefore(s, bound) <==> exists i, j :: 0 <= i < bound && i <= j < |s| && p == (s[i], s[j])
  {
    if bound > 0 {
      PairsBeforeMembers(s, bound - 1, p);
      var row := Row(s, bound - 1);
      if p in row {
        var k :| 0 <= k < |row| && row[k] == p;
        assert p == (s[bound - 1], s[bound - 1 + k]);
      }
      if exists j :: bound - 1 <= j < |s| && p == (s[bound - 1], s[j]) {
        var j :| bound - 1 <= j < |s| && p == (s[bound - 1], s[j]);
        assert row[j - (bound - 1)] == p;
      }
    }
  }

  lemma OrderedPairsMembers<T>(s: seq<T>, p: (T, T))
    ensures p in OrderedPairs(s) <==> exists i, j :: 0 <= i <= j < |s| && p == (s[i], s[j])
  {
    PairsBeforeMembers(s, |s|, p);
  }

  /** Extending a row prefix by one element. */
  lemma RowPrefixSnoc<T>(s: seq<T>, i: nat, j: nat)
    requires i <= j < |s|
    ensures Row(s, i)[..j - i + 1] == Row(s, i)[..j - i] + [(s[i], s[j])]
  {
    var row := Row(s, i);
    assert row[j - i] == (s[i], s[j]);
  }

  /** The nested loops of `find_element_pairs` over a given list. */
  method PairsOf<T>(speciesList: seq<T>) returns (pairs: seq<(T, T)>)
    ensures pairs == OrderedPairs(speciesList)
  {
    pairs := [];
    for i := 0 to |speciesList|
      invariant pairs == PairsBefore(speciesList, i)
    {
      ghost var row := Row(speciesList, i);
      for j := i to |speciesList|
        invariant pairs == PairsBefore(speciesList, i) + row[..j - i]
      {
        RowPrefixSnoc(speciesList, i, j);
        pairs := pairs + [(speciesList[i], speciesList[j])];
      }
      assert row[..|speciesList| - i] == row;
    }
  }

  // ---------------------------------------------------------------------------
  // The `{Z1 Z2 ...}` string

  function DigitChar(d: nat): char
    requires d < 10
  {
    ('0' as int + d) as char
  }

  function DigitValue(c: char): int
  {
    c as int - '0' as int
  }

  /** `str(n)` for a natural number. */
  function NatToString(n: nat): (r: string)
    ensures |r| >= 1
    ensures forall k :: 0 <= k < |r| ==> '0' <= r[k] <= '9'
  {
    if n < 10 then [DigitChar(n)] else NatToString(n / 10) + [DigitChar(n % 10)]
  }

  /** `int(s)` for a string of decimal digits. */
  function ParseNat(s: string): int
  {
    if s == [] then 0 else 10 * ParseNat(s[..|s| - 1]) + DigitValue(s[|s| - 1])
  }

  lemma {:induction false} ParseNatToString(n: nat)
    ensures ParseNat(NatToString(n)) == n
  {
    if n >= 10 {
      ParseNatToString(n / 10);
      var s := NatToString(n);
      assert s[..|s| - 1] == NatToString(n / 10);
    }
  }

  /** `[atomic_numbers[s] for s in species]`. */
  function AtomicNumbers(sl: seq<string>, atomicNumber: string -> nat): (r: seq<nat>)
    ensures |r| == |sl|
    ensures forall k :: 0 <= k < |sl| ==> r[k] == atomicNumber(sl[k])
  {
    if sl == [] then [] else AtomicNumbers(sl[..|sl| - 1], atomicNumber) + [atomicNumber(sl[|sl| - 1])]
  }

  /** `str(z) + ' '` for every number, in order: the loop part of `get_species_Z`. */
  function SpacedPrefix(zs: seq<nat>): string
  {
    if zs == [] then [] else SpacedPrefix(zs[..|zs| - 1]) + NatToString(zs[|zs| - 1]) + " "
  }

  lemma SpacedPrefixSnoc(zs: seq<nat>, i: nat)
    requires i < |zs|
    ensures SpacedPrefix(zs[..i + 1]) == SpacedPrefix(zs[..i]) + (NatToString(zs[i]) + " ")
  {
    assert zs[..i + 1][..i] == zs[..i];
  }

  /** The string `get_species_Z` builds from the atomic numbers, IndexError when there are none. */
  function SpeciesZString(zs: seq<nat>): Result<string>
  {
    if zs == [] then Err(IndexError)
    else Ok("{" + SpacedPrefix(zs[..|zs| - 1]) + NatToString(zs[|zs| - 1]) + "}")
  }

  /** The string-building loops of `get_species_Z`. */
  method FormatSpeciesZ(atomNumbers: seq<nat>) returns (r: Result<string>)
    ensures r == SpeciesZString(atomNumbers)
  {
    var speciesZ := "{";
    if |atomNumbers| == 0 {
      return Err(IndexError);
    }
    for i := 0 to |atomNumbers| - 1
      invariant speciesZ == "{" + SpacedPrefix(atomNumbers[..i])
    {
      SpacedPrefixSnoc(atomNumbers, i);
      speciesZ := speciesZ + (NatToString(atomNumbers[i]) + " ");
    }
    speciesZ := speciesZ + NatToString(atomNumbers[|atomNumbers| - 1]) + "}";
    r := Ok(speciesZ);
  }

  /** `s.split(' ')`, built from the back one character at a time. */
  function Words(s: string): (r: seq<string>)
    ensures |r| >= 1
  {
    if s == [] then [[]]
    else
      var w := Words(s[..|s| - 1]);
      if s[|s| - 1] == ' ' then w + [[]]
      else w[..|w| - 1] + [w[|w| - 1] + [s[|s| - 1]]]
  }

  /** One more character: a space opens a new word, anything else extends the last one. */
  lemma WordsSnoc(x: string, c: char)
    ensures c == ' ' ==> Words(x + [c]) == Words(x) + [[]]
    ensures c != ' ' ==> Words(x + [c]) == Words(x)[..|Words(x)| - 1] + [Words(x)[|Words(x)| - 1] + [c]]
  {
    assert (x + [c])[..|x + [c]| - 1] == x;
  }

  /** Appending space-free text extends the last word. */
  lemma {:induction false} WordsExtend(x: string, t: string)
    requires ' ' !in t
    ensures Words(x + t) == Words(x)[..|Words(x)| - 1] + [Words(x)[|Words(x)| - 1] + t]
  {
    if t == [] {
      assert x + t == x;
      var w := Words(x);
      assert w[|w| - 1] + t == w[|w| - 1];
      assert w == w[..|w| - 1] + [w[|w| - 1]];
    } else {
      var t', c := t[..|t| - 1], t[|t| - 1];
      WordsExtend(x, t');
      assert x + t == (x + t') + [c];
      WordsSnoc(x + t', c);
      var w := Words(x);
      assert w[|w| - 1] + t' + [c] == w[|w| - 1] + t;
    }
  }

  /** `[str(z) for z in zs]`. */
  function Decimals(zs: seq<nat>): (r: seq<string>)
    ensures |r| == |zs|
  {
    if zs == [] then [] else Decimals(zs[..|zs| - 1]) + [NatToString(zs[|zs| - 1])]
  }

  lemma {:induction false} DecimalsAt(zs: seq<nat>, k: nat)
    requires k < |zs|
    ensures Decimals(zs)[k] == NatToString(zs[k])
  {
    if k < |zs| - 1 {
      DecimalsAt(zs[..|zs| - 1], k);
    }
  }

  /** Splitting the spaced prefix followed by one space-free word. */
  lemma {:induction false} WordsOfSpaced(zs: seq<nat>, t: string)
    requires ' ' !in t
    ensures Words(SpacedPrefix(zs) + t) == Decimals(zs) + [t]
  {
    if zs == [] {
      WordsExtend([], t);
      assert [] + t == t;
    } else {
      var front, last := zs[..|zs| - 1], zs[|zs| - 1];
      var u := SpacedPrefix(front) + NatToString(last);
      WordsOfSpaced(front, NatToString(last));
      WordsAfterSpace(u, t);
    }
  }

  /** A space then a space-free word adds that word to the split. */
  lemma WordsAfterSpace(u: string, t: string)
    requires ' ' !in t
    ensures Words(u + " " + t) == Words(u) + [t]
  {
    WordsSnoc(u, ' ');
    assert u + [' '] == u + " ";
    WordsExtend(u + " ", t);
    var w := Words(u + " ");
    assert w[..|w| - 1] == Words(u);
    assert w[|w| - 1] + t == t;
  }

  /** Reads the atomic numbers back from a `{Z1 Z2 ...}` string. */
  function ParseSpeciesZ(s: string): seq<int>
    requires |s| >= 2
  {
    var words := Words(s[1..|s| - 1]);
    seq(|words|, k requires 0 <= k < |words| => ParseNat(words[k]))
  }

  /** Round trip: the numbers written by `get_species_Z` are the numbers read back. */
  lemma SpeciesZRoundTrip(zs: seq<nat>)
    requires zs != []
    ensures SpeciesZString(zs).Ok?
    ensures |SpeciesZString(zs).value| >= 2 && ParseSpeciesZ(SpeciesZString(zs).value) == zs
  {
    var front, last := zs[..|zs| - 1], zs[|zs| - 1];
    var inner := SpacedPrefix(front) + NatToString(last);
    var s := SpeciesZString(zs).value;
    assert s == "{" + inner + "}";
    assert s[1..|s| - 1] == inner;
    WordsOfSpaced(front, NatToString(last));
    assert Words(inner) == Decimals(zs);
    forall k | 0 <= k < |zs| ensures ParseSpeciesZ(s)[k] == zs[k] {
      DecimalsAt(zs, k);
      ParseNatToString(zs[k]);
    }
  }

  // ---------------------------------------------------------------------------

  /** The `Species` helper over a collection of structures. */
  class Species {
    const atoms: seq<Structure>

    constructor (atoms: seq<Structure>)
      ensures this.atoms == atoms
    {
      this.atoms := atoms;
    }

    /**
     * `get_species`: for each structure, the symbols of its set of symbols not
     * yet listed, appended in the (unspecified) order of that set.
     */
    method GetSpecies() returns (speciesList: seq<string>)
      ensures IsSpeciesList(atoms, speciesList)
      ensures InFirstSeenOrder(atoms, speciesList)
    {
      speciesList := [];
      for i := 0 to |atoms|
        invariant NoDuplicates(speciesList)
        invariant forall x :: x in speciesList <==> x in SymbolSet(atoms[..i])
        invariant InFirstSeenOrder(atoms, speciesList)
        invariant forall p :: 0 <= p < |speciesList| ==> FirstSeen(atoms, speciesList[p]) <= i
      {
        var syms := SymbolsOf(atoms[i]);
        var remaining := syms;
        while remaining != {}
          invariant remaining <= syms
          invariant NoDuplicates(speciesList)
          invariant forall x :: x in speciesList <==> x in SymbolSet(atoms[..i]) || (x in syms && x !in remaining)
          invariant InFirstSeenOrder(atoms, speciesList)
          invariant forall p :: 0 <= p < |speciesList| ==> FirstSeen(atoms, speciesList[p]) <= i
          decreases remaining
        {
          var sym :| sym in remaining;
          if sym !in speciesList {
            FirstSeenAt(atoms, i, sym);
            AppendKeepsOrder(atoms, speciesList, i, sym);
            speciesList := speciesList + [sym];
          }
          remaining := remaining - {sym};
        }
        SymbolSetSnoc(atoms, i);
      }
      assert atoms[..|atoms|] == atoms;
      assert (set x | x in speciesList) == SymbolSet(atoms);
    }

    /** `get_number_of_species`: the number of distinct symbols. */
    method GetNumberOfSpecies() returns (n: nat)
      ensures n == |SymbolSet(atoms)|
    {
      var speciesList := GetSpecies();
      DistinctCardinality(speciesList);
      n := |speciesList|;
    }

    /**
     * `find_element_pairs`: the pairs (s_i, s_j), i <= j, of the given symbol list,
     * or of the species list when none is given.
     */
    method FindElementPairs(symbList: Option<seq<string>>) returns (pairs: seq<(string, string)>)
      ensures symbList.Some? ==> pairs == OrderedPairs(symbList.value)
      ensures symbList.None? ==> exists sl :: IsSpeciesList(atoms, sl) && InFirstSeenOrder(atoms, sl) && pairs == OrderedPairs(sl)
    {
      var speciesList: seq<string>;
      if symbList.None? {
        speciesList := GetSpecies();
      } else {
        speciesList := symbList.value;
      }
      pairs := PairsOf(speciesList);
    }

    /**
     * `get_species_Z`: the atomic numbers of the species, written as
     * "{Z1 Z2 ... Zn}"; with no species the final `atom_numbers[-1]` raises IndexError.
     */
    method GetSpeciesZ(atomicNumber: string -> nat) returns (r: Result<string>)
      ensures exists sl :: IsSpeciesList(atoms, sl) && InFirstSeenOrder(atoms, sl) && r == SpeciesZString(AtomicNumbers(sl, atomicNumber))
    {
      var species := GetSpecies();
      var atomNumbers: seq<nat> := [];
      for k := 0 to |species|
        invariant atomNumbers == AtomicNumbers(species[..k], atomicNumber)
      {
        assert species[..k + 1][..k] == species[..k];
        atomNumbers := atomNumbers + [atomicNumber(species[k])];
      }
      assert species[..|species|] == species;
      r := FormatSpeciesZ(atomNumbers);
    }
  }

  /**
   * Two structures with element sets {Si} and {Si, O}: two species, listed
   * Si first, and the three pairs (Si, Si), (Si, O), (O, O).
   */
  lemma SiliconOxygenScenario(s1: Structure, s2: Structure, sl: seq<string>)
    requires SymbolsOf(s1) == {"Si"} && SymbolsOf(s2) == {"Si", "O"}
    requires IsSpeciesList([s1, s2], sl) && InFirstSeenOrder([s1, s2], sl)
    ensures sl == ["Si", "O"]
    ensures OrderedPairs(sl) == [("Si", "Si"), ("Si", "O"), ("O", "O")]
  {
    SiliconOxygenSpecies(s1, s2, sl);
    SiliconOxygenPairs();
  }

  lemma SiliconOxygenSpecies(s1: Structure, s2: Structure, sl: seq<string>)
    requires SymbolsOf(s1) == {"Si"} && SymbolsOf(s2) == {"Si", "O"}
    requires IsSpeciesList([s1, s2], sl) && InFirstSeenOrder([s1, s2], sl)
    ensures sl == ["Si", "O"]
  {
    var atoms := [s1, s2];
    SiliconOxygenFirstSeen(s1, s2);
    DistinctCardinality(sl);
    assert |sl| == 2;
    assert sl[0] in SymbolSet(atoms) && sl[1] in SymbolSet(atoms);
    assert sl[0] == "Si";
  }

  lemma SiliconOxygenFirstSeen(s1: Structure, s2: Structure)
    requires SymbolsOf(s1) == {"Si"} && SymbolsOf(s2) == {"Si", "O"}
    ensures SymbolSet([s1, s2]) == {"Si", "O"}
    ensures FirstSeen([s1, s2], "Si") == 0 && FirstSeen([s1, s2], "O") == 1
  {
    assert SymbolSet([s1, s2]) == {"Si", "O"};
  }

  lemma SiliconOxygenPairs()
    ensures OrderedPairs(["Si", "O"]) == [("Si", "Si"), ("Si", "O"), ("O", "O")]
  {
    var sl := ["Si", "O"];
    assert PairsBefore(sl, 1) == [("Si", "Si"), ("Si", "O")];
    assert Row(sl, 1) == [("O", "O")];
  }
}
