/**
 * The flat-histogram weighting of `boltzhist_CUR` and `convexhull_CUR`: the
 * values (enthalpies or distances to the hull) are put into numpy's default
 * ten-bin histogram, each value's bin is found again with
 * `np.searchsorted(edges[1:], H, side='right')` clamped to the last bin, and
 * the value is weighted by one over the bin's occupancy, times a Boltzmann
 * factor when kT is positive.
 */
module FlatHistogram {
  import opened PyMath
  import opened Draws

  /** `np.histogram`'s default bin count. */
  const Bins: nat := 10

  /** `np.min`. */
  function MinOf(s: seq<real>): (r: real)
    requires |s| > 0
    ensures r in s
    ensures forall x :: x in s ==> r <= x
  {
    if |s| == 1 then s[0]
    else
      var m := MinOf(s[1..]);
      assert forall x :: x in s ==> x == s[0] || x in s[1..];
      if s[0] <= m then s[0] else m
  }

  /** `np.max`. */
  function MaxOf(s: seq<real>): (r: real)
    requires |s| > 0
    ensures r in s
    ensures forall x :: x in s ==> x <= r
  {
    if |s| == 1 then s[0]
    else
      var m := MaxOf(s[1..]);
      assert forall x :: x in s ==> x == s[0] || x in s[1..];
      if s[0] >= m then s[0] else m
  }

  /** The histogram range: smallest to largest value, widened by 0.5 each way when they coincide. */
  function OuterEdges(hs: seq<real>): (r: (real, real))
    requires |hs| > 0
    ensures r.0 < r.1
    ensures r.0 <= MinOf(hs) && MaxOf(hs) <= r.1
  {
    var lo, hi := MinOf(hs), MaxOf(hs);
    if lo == hi then (lo - 0.5, hi + 0.5) else (lo, hi)
  }

  /** Edge k of bins of width w starting at lo, added up one width at a time. */
  function Edge(lo: real, w: real, k: nat): real
  {
    if k == 0 then lo else Edge(lo, w, k - 1) + w
  }

  lemma {:induction false} EdgeLinear(lo: real, w: real, k: nat)
    ensures Edge(lo, w, k) == lo + (k as real) * w
  {
    if k > 0 {
      EdgeLinear(lo, w, k - 1);
    }
  }

  lemma {:induction false} EdgeIncreasing(lo: real, w: real, j: nat, k: nat)
    requires w > 0.0 && j < k
    ensures Edge(lo, w, j) < Edge(lo, w, k)
    decreases k
  {
    if j < k - 1 {
      EdgeIncreasing(lo, w, j, k - 1);
    }
  }

  /** The eleven bin edges `np.histogram(hs)[1]`: equal-width bins over the range. */
  function Edges(hs: seq<real>): (r: seq<real>)
    requires |hs| > 0
    ensures |r| == Bins + 1
  {
    var (lo, hi) := OuterEdges(hs);
    seq(Bins + 1, k requires 0 <= k <= Bins => Edge(lo, (hi - lo) / (Bins as real), k))
  }

  predicate Increasing(edges: seq<real>)
  {
    forall j, k :: 0 <= j < k < |edges| ==> edges[j] < edges[k]
  }

  /** The edges increase strictly and span every value. */
  lemma EdgesSpanValues(hs: seq<real>)
    requires |hs| > 0
    ensures Increasing(Edges(hs))
    ensures forall x :: x in hs ==> Edges(hs)[0] <= x <= Edges(hs)[Bins]
  {
    var (lo, hi) := OuterEdges(hs);
    var w := (hi - lo) / (Bins as real);
    forall j, k | 0 <= j < k < Bins + 1 ensures Edges(hs)[j] < Edges(hs)[k] {
      EdgeIncreasing(lo, w, j, k);
    }
    EdgeLinear(lo, w, Bins);
  }

  /** `bin_i`: the search over the upper edges, with the one-past-the-end position moved back to the last bin. */
  function BinIndex(edges: seq<real>, h: real): (r: nat)
    requires |edges| == Bins + 1
    ensures r < Bins
  {
    var b := SearchRight(edges[1..], h);
    if b == Bins then b - 1 else b
  }

  /** numpy's counting rule: bins are half-open, except the last, which also takes its upper edge. */
  predicate InBin(edges: seq<real>, h: real, b: nat)
    requires |edges| == Bins + 1
  {
    b < Bins && edges[b] <= h && (h < edges[b + 1] || (b == Bins - 1 && h == edges[Bins]))
  }

  /** For a value inside the range, `bin_i` is exactly the bin numpy counts it in. */
  lemma BinIndexIsHistogramBin(edges: seq<real>, h: real, b: nat)
    requires |edges| == Bins + 1 && Increasing(edges)
    requires edges[0] <= h <= edges[Bins]
    ensures BinIndex(edges, h) == b <==> InBin(edges, h, b)
  {
    var up := edges[1..];
    var s := SearchRight(up, h);
    if s < Bins {
      assert up[s] == edges[s + 1];
      if s > 0 {
        assert up[s - 1] == edges[s];
      }
      assert InBin(edges, h, s);
      if b < s {
        assert up[b] == edges[b + 1];
      } else if s < b < Bins {
        assert edges[s + 1] <= edges[b];
      }
    } else {
      assert up[Bins - 1] == edges[Bins];
      if b < Bins - 1 {
        assert up[b] == edges[b + 1];
      }
    }
  }

  /** `histo[0][b]`: how many values numpy counts in bin b. */
  function Occupancy(hs: seq<real>, edges: seq<real>, b: nat): (r: nat)
    requires |edges| == Bins + 1
    ensures r <= |hs|
  {
    if hs == [] then 0
    else (if InBin(edges, hs[0], b) then 1 else 0) + Occupancy(hs[1..], edges, b)
  }

  /** Every value is counted in its own bin, so that bin is never empty. */
  lemma {:induction false} OccupancyOfOwnBin(hs: seq<real>, edges: seq<real>, i: nat)
    requires |edges| == Bins + 1 && Increasing(edges)
    requires i < |hs| && edges[0] <= hs[i] <= edges[Bins]
    ensures Occupancy(hs, edges, BinIndex(edges, hs[i])) >= 1
  {
    var b := BinIndex(edges, hs[i]);
    BinIndexIsHistogramBin(edges, hs[i], b);
    if i > 0 {
      OccupancyOfOwnBin(hs[1..], edges, i - 1);
    }
  }

  /** `boltz(e, emin, kT)`: the Boltzmann factor `exp(-(e - emin) / kT)`. */
  function Boltz(e: real, emin: real, kT: real, exp: real -> real): (b: real)
    requires kT != 0.0
    ensures e == emin ==> b == exp(0.0)
  {
    exp(-(e - emin) / kT)
  }

  /** What the weights need of the exponential: exp(0) = 1, and non-positive arguments map into (0, 1]. */
  ghost predicate ExpLike(exp: real -> real)
  {
    exp(0.0) == 1.0 && forall x :: x <= 0.0 ==> 0.0 < exp(x) <= 1.0
  }

  /** Above the minimum energy the Boltzmann factor lies in (0, 1], and it is 1 at the minimum. */
  lemma BoltzAtMostOne(e: real, emin: real, kT: real, exp: real -> real)
    requires ExpLike(exp) && kT > 0.0 && e >= emin
    ensures 0.0 < Boltz(e, emin, kT, exp) <= 1.0
    ensures e == emin ==> Boltz(e, emin, kT, exp) == 1.0
  {
    assert -(e - emin) / kT <= 0.0;
  }

  /**
   * `p` for the value `hs[i]`: one over its bin's occupancy (zero for an empty
   * bin), times the Boltzmann factor `exp(-(H - min_H) / kT)` when kT is
   * positive, which the loop writes out inline.
   */
  function Weight(hs: seq<real>, i: nat, kT: real, exp: real -> real): (w: real)
    requires i < |hs|
    ensures kT <= 0.0 ==> 0.0 <= w <= 1.0
  {
    var edges := Edges(hs);
    var occupancy := Occupancy(hs, edges, BinIndex(edges, hs[i]));
    var p := if occupancy > 0 then 1.0 / (occupancy as real) else 0.0;
    if kT > 0.0 then p * Boltz(hs[i], MinOf(hs), kT, exp) else p
  }

  /** The weights of all values, `config_prob`. */
  function Weights(hs: seq<real>, kT: real, exp: real -> real): (r: seq<real>)
    ensures |r| == |hs|
  {
    seq(|hs|, i requires 0 <= i < |hs| => Weight(hs, i, kT, exp))
  }

  /** With a positive exponential, every weight is positive: the zero-weight branch is never taken. */
  lemma WeightPositive(hs: seq<real>, i: nat, kT: real, exp: real -> real)
    requires i < |hs|
    requires forall x :: exp(x) > 0.0
    ensures Weight(hs, i, kT, exp) > 0.0
  {
    var edges := Edges(hs);
    EdgesSpanValues(hs);
    assert hs[i] in hs;
    OccupancyOfOwnBin(hs, edges, i);
    var occupancy := Occupancy(hs, edges, BinIndex(edges, hs[i]));
    assert 1.0 / (occupancy as real) > 0.0;
    if kT > 0.0 {
      assert 1.0 / (occupancy as real) * Boltz(hs[i], MinOf(hs), kT, exp) > 0.0;
    }
  }

  /** The occupancy of a value's own bin is positive, so its reciprocal lies in (0, 1]. */
  lemma OwnBinReciprocal(hs: seq<real>, i: nat)
    requires i < |hs|
    ensures Occupancy(hs, Edges(hs), BinIndex(Edges(hs), hs[i])) > 0
    ensures 0.0 < 1.0 / (Occupancy(hs, Edges(hs), BinIndex(Edges(hs), hs[i])) as real) <= 1.0
  {
    var edges := Edges(hs);
    EdgesSpanValues(hs);
    assert hs[i] in hs;
    OccupancyOfOwnBin(hs, edges, i);
    ReciprocalInUnitInterval(Occupancy(hs, edges, BinIndex(edges, hs[i])));
  }

  lemma ReciprocalInUnitInterval(n: nat)
    requires n > 0
    ensures 0.0 < 1.0 / (n as real) <= 1.0
  {
  }

  /**
   * With an exponential that behaves like one, every weight lies in (0, 1]:
   * the reciprocal occupancy of its bin, scaled when kT > 0 by the Boltzmann
   * factor relative to the minimum, which is at most 1.
   */
  lemma WeightInUnitInterval(hs: seq<real>, i: nat, kT: real, exp: real -> real)
    requires i < |hs| && ExpLike(exp)
    ensures 0.0 < Weight(hs, i, kT, exp) <= 1.0
  {
    OwnBinReciprocal(hs, i);
    var edges := Edges(hs);
    var occupancy := Occupancy(hs, edges, BinIndex(edges, hs[i]));
    var p := 1.0 / (occupancy as real);
    if kT > 0.0 {
      assert hs[i] in hs;
      BoltzAtMostOne(hs[i], MinOf(hs), kT, exp);
      assert 0.0 < p * Boltz(hs[i], MinOf(hs), kT, exp) <= p;
    }
  }

  /** The total weight of the values whose `bin_i` is b. */
  function BinMass(hs: seq<real>, ws: seq<real>, edges: seq<real>, b: nat): real
    requires |hs| == |ws| && |edges| == Bins + 1
  {
    if hs == [] then 0.0
    else (if BinIndex(edges, hs[0]) == b then ws[0] else 0.0) + BinMass(hs[1..], ws[1..], edges, b)
  }

  /** n copies of c added up. */
  function Repeated(n: nat, c: real): real
  {
    if n == 0 then 0.0 else c + Repeated(n - 1, c)
  }

  /** Values sharing one weight c in bin b weigh, together, c once per value numpy counts in the bin. */
  lemma {:induction false} BinMassOfEqualWeights(hs: seq<real>, ws: seq<real>, edges: seq<real>, b: nat, c: real)
    requires |hs| == |ws| && |edges| == Bins + 1 && Increasing(edges)
    requires forall i :: 0 <= i < |hs| ==> edges[0] <= hs[i] <= edges[Bins]
    requires forall i :: 0 <= i < |hs| && BinIndex(edges, hs[i]) == b ==> ws[i] == c
    ensures BinMass(hs, ws, edges, b) == Repeated(Occupancy(hs, edges, b), c)
  {
    if hs != [] {
      var rest, wrest := hs[1..], ws[1..];
      forall i | 0 <= i < |rest| ensures edges[0] <= rest[i] <= edges[Bins] {
        assert rest[i] == hs[i + 1];
      }
      forall i | 0 <= i < |rest| && BinIndex(edges, rest[i]) == b ensures wrest[i] == c {
        assert rest[i] == hs[i + 1] && wrest[i] == ws[i + 1];
      }
      BinMassOfEqualWeights(rest, wrest, edges, b, c);
      BinIndexIsHistogramBin(edges, hs[0], b);
    }
  }

  lemma {:induction false} RepeatedReciprocal(n: nat, k: nat)
    requires 0 < n && k <= n
    ensures Repeated(k, 1.0 / (n as real)) == (k as real) / (n as real)
  {
    if k > 0 {
      RepeatedReciprocal(n, k - 1);
    }
  }

  lemma SelfQuotient(n: nat)
    requires n > 0
    ensures (n as real) / (n as real) == 1.0
  {
  }

  /** Without a Boltzmann factor a weight is one over the occupancy of its bin. */
  lemma ColdWeight(hs: seq<real>, i: nat, kT: real, exp: real -> real)
    requires i < |hs| && kT <= 0.0
    ensures Occupancy(hs, Edges(hs), BinIndex(Edges(hs), hs[i])) > 0
    ensures Weight(hs, i, kT, exp) == 1.0 / (Occupancy(hs, Edges(hs), BinIndex(Edges(hs), hs[i])) as real)
  {
    OwnBinReciprocal(hs, i);
  }

  /**
   * The histogram is flattened: without a Boltzmann factor (kT <= 0) every
   * occupied bin carries a total weight of exactly one.
   */
  lemma FlatWhenCold(hs: seq<real>, kT: real, exp: real -> real, b: nat)
    requires |hs| > 0 && kT <= 0.0
    requires Occupancy(hs, Edges(hs), b) > 0
    ensures BinMass(hs, Weights(hs, kT, exp), Edges(hs), b) == 1.0
  {
    var edges := Edges(hs);
    var n := Occupancy(hs, edges, b);
    EdgesSpanValues(hs);
    forall i | 0 <= i < |hs| ensures edges[0] <= hs[i] <= edges[Bins] {
      assert hs[i] in hs;
    }
    var ws := Weights(hs, kT, exp);
    forall i | 0 <= i < |hs| && BinIndex(edges, hs[i]) == b ensures ws[i] == 1.0 / (n as real) {
      ColdWeight(hs, i, kT, exp);
    }
    BinMassOfEqualWeights(hs, ws, edges, b, 1.0 / (n as real));
    RepeatedReciprocal(n, n);
    SelfQuotient(n);
    assert BinMass(hs, ws, edges, b) == (n as real) / (n as real);
  }

  /** The weighting loop: one `config_prob.append(p)` per value, in order. */
  method FlatWeights(hs: seq<real>, kT: real, exp: real -> real) returns (configProb: seq<real>)
    requires |hs| > 0
    ensures configProb == Weights(hs, kT, exp)
  {
    var edges := Edges(hs);
    var minH := MinOf(hs);
    configProb := [];
    for i := 0 to |hs|
      invariant configProb == Weights(hs, kT, exp)[..i]
    {
      var h := hs[i];
      var binI := SearchRight(edges[1..], h);
      if binI == Bins {
        binI := binI - 1;
      }
      assert binI == BinIndex(edges, h);
      var occupancy := Occupancy(hs, edges, binI);
      var p := if occupancy > 0 then 1.0 / (occupancy as real) else 0.0;
      if kT > 0.0 {
        p := p * exp(-(h - minH) / kT);
      }
      assert p == Weight(hs, i, kT, exp);
      configProb := configProb + [p];
      assert Weights(hs, kT, exp)[..i + 1] == Weights(hs, kT, exp)[..i] + [p];
    }
  }
}
