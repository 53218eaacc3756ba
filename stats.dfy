/** The numeric summaries the analyzers build from Python built-ins and numpy:
    sums, maxima, minima and means (`max`, `min`, `sum`, `np.mean`), counts
    above a threshold, adjacent differences (`np.diff`) and histograms over
    equal-width bins starting at 0 (`np.histogram` with the bin edges
    0, w, 2w, ..., the last bin closed on the right). */
module Stats {
  import opened Common

  // ---------------------------------------------------------------------------
  // Sums, extremes and means.
  // ---------------------------------------------------------------------------

  function Sum(s: seq<real>): real
  {
    if s == [] then 0.0 else Sum(s[..|s| - 1]) + s[|s| - 1]
  }

  function SumInt(s: seq<int>): int
  {
    if s == [] then 0 else SumInt(s[..|s| - 1]) + s[|s| - 1]
  }

  function Max(s: seq<real>): (m: real)
    requires s != []
    ensures m in s
    ensures forall i :: 0 <= i < |s| ==> s[i] <= m
  {
    if |s| == 1 then s[0]
    else
      var m := Max(s[..|s| - 1]);
      if s[|s| - 1] > m then s[|s| - 1] else m
  }

  function Min(s: seq<real>): (m: real)
    requires s != []
    ensures m in s
    ensures forall i :: 0 <= i < |s| ==> m <= s[i]
  {
    if |s| == 1 then s[0]
    else
      var m := Min(s[..|s| - 1]);
      if s[|s| - 1] < m then s[|s| - 1] else m
  }

  function MaxInt(s: seq<int>): (m: int)
    requires s != []
    ensures m in s
    ensures forall i :: 0 <= i < |s| ==> s[i] <= m
  {
    if |s| == 1 then s[0]
    else
      var m := MaxInt(s[..|s| - 1]);
      if s[|s| - 1] > m then s[|s| - 1] else m
  }

  function MinInt(s: seq<int>): (m: int)
    requires s != []
    ensures m in s
    ensures forall i :: 0 <= i < |s| ==> m <= s[i]
  {
    if |s| == 1 then s[0]
    else
      var m := MinInt(s[..|s| - 1]);
      if s[|s| - 1] < m then s[|s| - 1] else m
  }

  /** `np.mean` of a non-empty list. */
  function Mean(s: seq<real>): real
    requires s != []
  {
    Sum(s) / (|s| as real)
  }

  /** `np.mean` of a possibly empty list: numpy returns NaN for an empty one,
      written here as None. */
  function MeanOrNaN(s: seq<real>): (r: Option<real>)
    ensures r.Some? <==> s != []
    ensures r.Some? ==> Min(s) <= r.value <= Max(s)
  {
    if s == [] then None else (MeanBounds(s); Some(Mean(s)))
  }

  lemma {:induction false} SumBounds(s: seq<real>, lo: real, hi: real)
    requires forall i :: 0 <= i < |s| ==> lo <= s[i] <= hi
    ensures (|s| as real) * lo <= Sum(s) <= (|s| as real) * hi
  {
    if s != [] {
      SumBounds(s[..|s| - 1], lo, hi);
    }
  }

  /** A mean lies between the smallest and the largest value. */
  lemma MeanBounds(s: seq<real>)
    requires s != []
    ensures Min(s) <= Mean(s) <= Max(s)
  {
    var lo, hi, n := Min(s), Max(s), |s| as real;
    SumBounds(s, lo, hi);
    DivBounds(Sum(s), n, lo, hi);
    assert Mean(s) == Sum(s) / n;
  }

  lemma DivBounds(total: real, n: real, lo: real, hi: real)
    requires n > 0.0 && n * lo <= total <= n * hi
    ensures lo <= total / n <= hi
  {
    assert total / n - lo == (total - n * lo) / n;
    assert hi - total / n == (n * hi - total) / n;
  }

  /** The mean of a constant list is that constant. */
  lemma ConstantMean(s: seq<real>, v: real)
    requires s != []
    requires forall i :: 0 <= i < |s| ==> s[i] == v
    ensures Mean(s) == v
  {
    SumBounds(s, v, v);
    DivBounds(Sum(s), |s| as real, v, v);
  }

  // ---------------------------------------------------------------------------
  // Thresholds.
  // ---------------------------------------------------------------------------

  /** `sum(1 for s in speeds if s > threshold)`: a strict comparison. */
  function CountAbove(s: seq<real>, threshold: real): (n: nat)
    ensures n <= |s|
  {
    if s == [] then 0
    else CountAbove(s[..|s| - 1], threshold) + (if s[|s| - 1] > threshold then 1 else 0)
  }

  /** Nothing is counted when every value is at or below the threshold, and
      everything is counted when every value is above it. */
  lemma {:induction false} CountAboveExtremes(s: seq<real>, threshold: real)
    ensures (forall i :: 0 <= i < |s| ==> s[i] <= threshold) ==> CountAbove(s, threshold) == 0
    ensures (forall i :: 0 <= i < |s| ==> s[i] > threshold) ==> CountAbove(s, threshold) == |s|
  {
    if s != [] {
      CountAboveExtremes(s[..|s| - 1], threshold);
    }
  }

  /** The test `v > threshold`, as a predicate to count or filter by. */
  function Above(threshold: real): real -> bool
  {
    v => v > threshold
  }

  /** The counted values are exactly those above the threshold. */
  lemma {:induction false} CountAboveIsFilter(s: seq<real>, threshold: real)
    ensures CountAbove(s, threshold) == Count(s, Above(threshold))
  {
    if s != [] {
      CountAboveIsFilter(s[..|s| - 1], threshold);
    }
  }

  // ---------------------------------------------------------------------------
  // Adjacent differences.
  // ---------------------------------------------------------------------------

  /** `np.diff`: s[1] - s[0], s[2] - s[1], ... */
  function Diffs(s: seq<int>): (d: seq<int>)
    ensures |d| == if s == [] then 0 else |s| - 1
    ensures forall i :: 0 <= i < |d| ==> d[i] == s[i + 1] - s[i]
  {
    if |s| <= 1 then [] else Diffs(s[..|s| - 1]) + [s[|s| - 1] - s[|s| - 2]]
  }

  function DiffsReal(s: seq<real>): (d: seq<real>)
    ensures |d| == if s == [] then 0 else |s| - 1
    ensures forall i :: 0 <= i < |d| ==> d[i] == s[i + 1] - s[i]
  {
    if |s| <= 1 then [] else DiffsReal(s[..|s| - 1]) + [s[|s| - 1] - s[|s| - 2]]
  }

  /** One more value adds its difference from the last one. */
  lemma DiffsSnoc(s: seq<int>, x: int)
    requires s != []
    ensures Diffs(s + [x]) == Diffs(s) + [x - s[|s| - 1]]
  {
    var t := s + [x];
    var d := Diffs(t);
    var e := Diffs(s) + [x - s[|s| - 1]];
    forall i | 0 <= i < |s|
      ensures d[i] == e[i]
    {
      assert d[i] == t[i + 1] - t[i];
      if i < |s| - 1 {
        assert e[i] == Diffs(s)[i] == s[i + 1] - s[i];
      }
    }
    assert d == e;
  }

  /** A telescoping sum: the adjacent differences add up to last minus first. */
  lemma {:induction false} DiffsTelescope(s: seq<int>)
    requires s != []
    ensures SumInt(Diffs(s)) == s[|s| - 1] - s[0]
  {
    if |s| > 1 {
      DiffsTelescope(s[..|s| - 1]);
    }
  }

  // ---------------------------------------------------------------------------
  // Histograms with the edges 0, w, 2w, ..., nb*w.
  // ---------------------------------------------------------------------------

  /** The bin `np.histogram` puts v in: bin k covers [k*w, (k+1)*w), except
      the last, which is closed on the right; values below 0 or above nb*w
      fall in no bin. */
  function BinOf(v: real, w: nat, nb: nat): (r: Option<nat>)
    requires w > 0
    ensures r.Some? <==> nb > 0 && 0.0 <= v <= (nb * w) as real
    ensures r.Some? ==> r.value < nb && (r.value * w) as real <= v
    ensures r.Some? ==> v < ((r.value + 1) * w) as real || (r.value == nb - 1 && v == (nb * w) as real)
  {
    if nb == 0 || v < 0.0 || v > (nb * w) as real then None
    else if v == (nb * w) as real then
      MulMono(nb - 1, nb, w);
      Some(nb - 1)
    else
      var k := FloorDiv(v, w);
      MulMono(nb, k, w);
      Some(k)
  }

  lemma MulMono(a: int, b: int, w: nat)
    ensures a <= b ==> a * w <= b * w
  {
  }

  /** floor(v / w) for a non-negative v. */
  function FloorDiv(v: real, w: nat): (k: nat)
    requires w > 0 && v >= 0.0
    ensures (k * w) as real <= v < ((k + 1) * w) as real
  {
    var q := v / (w as real);
    FloorScaled(v, w, q, q.Floor);
    q.Floor
  }

  lemma FloorScaled(v: real, w: nat, q: real, k: int)
    requires w > 0 && v >= 0.0 && q == v / (w as real)
    requires k as real <= q < k as real + 1.0
    ensures k >= 0 && (k * w) as real <= v < ((k + 1) * w) as real
  {
    var W := w as real;
    assert q * W == v;
    MulLe(k as real, q, W);
    var k1 := k + 1;
    assert k1 as real == k as real + 1.0;
    var K1 := k1 as real;
    assert q < K1;
    MulLt(q, K1, W);
    assert q * W < K1 * W;
    assert v < K1 * W;
    CastMul(k, w);
    CastMul(k1, w);
  }

  lemma CastMul(a: int, b: int)
    ensures (a * b) as real == (a as real) * (b as real)
  {
  }

  lemma MulLe(a: real, b: real, c: real)
    requires a <= b && c > 0.0
    ensures a * c <= b * c
  {
  }

  lemma MulLt(a: real, b: real, c: real)
    requires a < b && c > 0.0
    ensures a * c < b * c
  {
  }

  /** The number of values in bin k. */
  function CountInBin(s: seq<real>, w: nat, nb: nat, k: nat): (n: nat)
    requires w > 0
    ensures n <= |s|
  {
    if s == [] then 0
    else CountInBin(s[..|s| - 1], w, nb, k) + (if BinOf(s[|s| - 1], w, nb) == Some(k) then 1 else 0)
  }

  /** The histogram of s over nb bins of width w. */
  function Histogram(s: seq<real>, w: nat, nb: nat): (h: seq<nat>)
    requires w > 0
    ensures |h| == nb
    ensures forall k :: 0 <= k < nb ==> h[k] == CountInBin(s, w, nb, k)
  {
    seq(nb, k requires 0 <= k < nb => CountInBin(s, w, nb, k))
  }

  function SumNat(h: seq<nat>): nat
  {
    if h == [] then 0 else SumNat(h[..|h| - 1]) + h[|h| - 1]
  }

  /** The number of values inside [0, nb*w]. */
  function CountBinned(s: seq<real>, w: nat, nb: nat): (n: nat)
    requires w > 0
    ensures n <= |s|
  {
    if s == [] then 0
    else CountBinned(s[..|s| - 1], w, nb) + (if BinOf(s[|s| - 1], w, nb).Some? then 1 else 0)
  }

  /** Adding one value adds one to the bin it falls in, and nothing elsewhere. */
  lemma {:induction false} SumBinsStep(s: seq<real>, v: real, w: nat, nb: nat, upto: nat)
    requires w > 0 && upto <= nb
    ensures SumNat(Histogram(s + [v], w, nb)[..upto])
         == SumNat(Histogram(s, w, nb)[..upto])
            + (if BinOf(v, w, nb).Some? && BinOf(v, w, nb).value < upto then 1 else 0)
  {
    var h1 := Histogram(s + [v], w, nb);
    var h0 := Histogram(s, w, nb);
    assert (s + [v])[..|s + [v]| - 1] == s;
    if upto > 0 {
      SumBinsStep(s, v, w, nb, upto - 1);
      assert h1[..upto][..upto - 1] == h1[..upto - 1];
      assert h0[..upto][..upto - 1] == h0[..upto - 1];
    }
  }

  /** Every value inside [0, nb*w] is counted in exactly one bin, so the bin
      counts add up to the number of such values. */
  lemma {:induction false} HistogramTotal(s: seq<real>, w: nat, nb: nat)
    requires w > 0
    ensures SumNat(Histogram(s, w, nb)) == CountBinned(s, w, nb)
  {
    var h := Histogram(s, w, nb);
    assert h[..nb] == h;
    if s == [] {
      assert forall k :: 0 <= k < nb ==> h[k] == 0;
      ZeroSum(h);
    } else {
      var p := s[..|s| - 1];
      assert p + [s[|s| - 1]] == s;
      HistogramTotal(p, w, nb);
      SumBinsStep(p, s[|s| - 1], w, nb, nb);
      assert Histogram(p, w, nb)[..nb] == Histogram(p, w, nb);
    }
  }

  /** The binned values are those a predicate selects when it holds exactly
      inside [0, nb*w]. */
  lemma {:induction false} CountBinnedIs(s: seq<real>, w: nat, nb: nat, p: real -> bool)
    requires w > 0
    requires forall v :: p(v) == (nb > 0 && 0.0 <= v <= (nb * w) as real)
    ensures CountBinned(s, w, nb) == Count(s, p)
  {
    if s != [] {
      CountBinnedIs(s[..|s| - 1], w, nb, p);
    }
  }

  lemma {:induction false} ZeroSum(h: seq<nat>)
    requires forall k :: 0 <= k < |h| ==> h[k] == 0
    ensures SumNat(h) == 0
  {
    if h != [] {
      ZeroSum(h[..|h| - 1]);
    }
  }

  // ---------------------------------------------------------------------------
  // The two histograms of the analyzers.
  // ---------------------------------------------------------------------------

  /** The fixed speed bands 0-20, 20-40, ..., 100-120 km/h. */
  function SpeedBands(speeds: seq<real>): (h: seq<nat>)
    ensures |h| == 6
    ensures SumNat(h) == Count(speeds, v => 0.0 <= v <= 120.0)
  {
    HistogramTotal(speeds, 20, 6);
    CountBinnedIs(speeds, 20, 6, v => 0.0 <= v <= 120.0);
    Histogram(speeds, 20, 6)
  }

  /** `len(np.arange(0, top, 10))`: the number of bin edges 0, 10, 20, ...
      below top. */
  function EdgeCount(top: real): (n: nat)
    ensures top <= 0.0 ==> n == 0
    ensures top > 0.0 ==> ((n - 1) * 10) as real < top <= (n * 10) as real
  {
    if top <= 0.0 then 0
    else
      var c := -((-top / 10.0).Floor);
      assert (c - 1) as real < top / 10.0 <= c as real;
      c
  }

  /** The number of 10-wide bins when the edges run from 0 up to max + 10. */
  function LocationBinCount(locations: seq<real>): (nb: nat)
    requires locations != []
    ensures nb > 0 ==> Max(locations) <= (nb * 10) as real
  {
    var e := EdgeCount(Max(locations) + 10.0);
    if e == 0 then 0 else e - 1
  }

  /** The location distribution: 10 km bins from 0 up to the largest location. */
  function LocationBins(locations: seq<real>): (h: seq<nat>)
    requires locations != []
    ensures |h| == LocationBinCount(locations)
    ensures |h| > 0 ==> SumNat(h) == Count(locations, v => 0.0 <= v)
  {
    LocationBinsTotal(locations);
    Histogram(locations, 10, LocationBinCount(locations))
  }

  /** Every location is at most the last edge, so the bins hold every
      non-negative location. */
  lemma LocationBinsTotal(locations: seq<real>)
    requires locations != []
    ensures var nb := LocationBinCount(locations);
      nb > 0 ==> SumNat(Histogram(locations, 10, nb)) == Count(locations, v => 0.0 <= v)
  {
    var nb := LocationBinCount(locations);
    HistogramTotal(locations, 10, nb);
    if nb > 0 {
      var inside := (v: real) => nb > 0 && 0.0 <= v <= (nb * 10) as real;
      CountBinnedIs(locations, 10, nb, inside);
      CountSame(locations, inside, v => 0.0 <= v);
    }
  }
}
