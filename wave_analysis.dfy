/**
 * The temporal frequency estimator of wave_analysis.py: DC removal, the real-FFT
 * bin grid, closed-interval band selection and the zero-guarded, magnitude-weighted
 * mean frequency of each of three fixed bands.
 *
 * Samples, frequencies and magnitudes are `real`. The transform itself is not
 * modelled: its magnitude spectrum is a function parameter `absRfft` whose value on
 * the de-meaned window must have one non-negative entry per bin.
 */
module WaveAnalysis {

  /** A frequency band in Hz; a bin belongs to it when its frequency lies in [fmin, fmax]. */
  datatype Band = Band(fmin: real, fmax: real) {
    predicate Contains(f: real) {
      fmin <= f <= fmax
    }
  }

  const LowBand: Band := Band(0.1, 0.5)
  const MidBand: Band := Band(0.5, 2.0)
  const HighBand: Band := Band(2.0, 5.0)

  /** What analyze_frequencies returns: the three centroids and the spectrum they came from. */
  datatype Analysis = Analysis(low: real, mid: real, high: real, xf: seq<real>, yf: seq<real>)

  predicate AllNonNegative(s: seq<real>) {
    forall k :: 0 <= k < |s| ==> s[k] >= 0.0
  }

  /** A magnitude spectrum of a real signal of length n: n/2+1 non-negative bins. */
  predicate IsMagnitudeSpectrum(yf: seq<real>, n: nat) {
    |yf| == n / 2 + 1 && AllNonNegative(yf)
  }

  function Zeros(n: nat): (z: seq<real>)
    ensures |z| == n && forall k :: 0 <= k < n ==> z[k] == 0.0
  {
    seq(n, k => 0.0)
  }

  // ---------------------------------------------------------------------------
  // DC removal
  // ---------------------------------------------------------------------------

  function Sum(s: seq<real>): real
    decreases |s|
  {
    if s == [] then 0.0 else s[0] + Sum(s[1..])
  }

  function Mean(s: seq<real>): real
    requires |s| > 0
  {
    Sum(s) / (|s| as real)
  }

  /** Every sample moved by -c. */
  function Shifted(s: seq<real>, c: real): (r: seq<real>)
    ensures |r| == |s|
  {
    seq(|s|, k requires 0 <= k < |s| => s[k] - c)
  }

  lemma {:induction false} SumShifted(s: seq<real>, c: real)
    ensures Sum(Shifted(s, c)) == Sum(s) - (|s| as real) * c
    decreases |s|
  {
    if s != [] {
      assert Shifted(s, c)[1..] == Shifted(s[1..], c);
      SumShifted(s[1..], c);
    }
  }

  /** The window with its arithmetic mean subtracted from every sample. */
  function DeMean(s: seq<real>): (r: seq<real>)
    requires |s| > 0
    ensures |r| == |s|
    ensures Sum(r) == 0.0
  {
    SumShifted(s, Mean(s));
    Shifted(s, Mean(s))
  }

  lemma {:induction false} SumConstant(s: seq<real>, c: real)
    requires forall k :: 0 <= k < |s| ==> s[k] == c
    ensures Sum(s) == (|s| as real) * c
    decreases |s|
  {
    if s != [] {
      SumConstant(s[1..], c);
    }
  }

  /** A constant window has no oscillating part: DC removal leaves all zeros. */
  lemma ConstantWindowDeMeansToZero(s: seq<real>)
    requires |s| > 0
    requires forall k :: 0 <= k < |s| ==> s[k] == s[0]
    ensures DeMean(s) == Zeros(|s|)
  {
    SumConstant(s, s[0]);
    assert Mean(s) == s[0];
  }

  // ---------------------------------------------------------------------------
  // The real-FFT bin grid
  // ---------------------------------------------------------------------------

  /** The frequency of bin k of an n-point real FFT at fps samples per second. */
  function BinFrequency(k: nat, n: nat, fps: real): real
    requires n > 0
  {
    (k as real) * fps / (n as real)
  }

  lemma BinOrder(i: nat, j: nat, n: nat, fps: real)
    requires n > 0 && fps > 0.0 && i < j
    ensures BinFrequency(i, n, fps) < BinFrequency(j, n, fps)
  {
    assert (i as real) * fps < (j as real) * fps;
  }

  lemma BinBelowNyquist(k: nat, n: nat, fps: real)
    requires n > 0 && fps > 0.0 && k <= n / 2
    ensures 0.0 <= BinFrequency(k, n, fps) <= fps / 2.0
  {
    assert 0.0 <= (k as real) * fps;
    assert (k as real) * 2.0 <= n as real;
    assert (k as real) * fps * 2.0 <= (n as real) * fps;
  }

  lemma BinSpacing(k: nat, n: nat, fps: real)
    requires n > 0
    ensures BinFrequency(k + 1, n, fps) - BinFrequency(k, n, fps) == fps / (n as real)
  {
    assert ((k + 1) as real) * fps == (k as real) * fps + fps;
  }

  /**
   * The bin grid of an n-point real FFT at fps samples per second (rfftfreq): bins
   * 0 .. n / 2, evenly spaced by fps / n, from 0 Hz up to at most the Nyquist
   * frequency fps / 2.
   */
  function BinFrequencies(n: nat, fps: real): (xf: seq<real>)
    requires n > 0 && fps > 0.0
    ensures |xf| == n / 2 + 1
    ensures xf[0] == 0.0
    ensures forall k :: 0 <= k < |xf| - 1 ==> xf[k + 1] - xf[k] == fps / (n as real)
    ensures forall i, j :: 0 <= i < j < |xf| ==> xf[i] < xf[j]
    ensures forall k :: 0 <= k < |xf| ==> 0.0 <= xf[k] <= fps / 2.0
  {
    var xf := seq(n / 2 + 1, k requires 0 <= k <= n / 2 => BinFrequency(k, n, fps));
    assert forall i, j :: 0 <= i < j < |xf| ==> xf[i] < xf[j] by {
      forall i, j | 0 <= i < j < |xf| ensures xf[i] < xf[j] {
        BinOrder(i, j, n, fps);
      }
    }
    assert forall k :: 0 <= k < |xf| ==> 0.0 <= xf[k] <= fps / 2.0 by {
      forall k | 0 <= k < |xf| ensures 0.0 <= xf[k] <= fps / 2.0 {
        BinBelowNyquist(k, n, fps);
      }
    }
    assert forall k :: 0 <= k < |xf| - 1 ==> xf[k + 1] - xf[k] == fps / (n as real) by {
      forall k | 0 <= k < |xf| - 1 ensures xf[k + 1] - xf[k] == fps / (n as real) {
        BinSpacing(k, n, fps);
      }
    }
    xf
  }

  // ---------------------------------------------------------------------------
  // Band sums
  // ---------------------------------------------------------------------------

  /** The sum of w[k] over the bins k whose frequency xf[k] lies in the band. */
  function MaskedSum(xf: seq<real>, w: seq<real>, band: Band): real
    requires |xf| == |w|
    decreases |xf|
  {
    if xf == [] then 0.0
    else (if band.Contains(xf[0]) then w[0] else 0.0) + MaskedSum(xf[1..], w[1..], band)
  }

  /** Bin frequency times magnitude, bin by bin. */
  function Products(xf: seq<real>, yf: seq<real>): (p: seq<real>)
    requires |xf| == |yf|
    ensures |p| == |xf|
  {
    seq(|xf|, k requires 0 <= k < |xf| => xf[k] * yf[k])
  }

  /** Total magnitude of the selected bins. */
  function BandMass(xf: seq<real>, yf: seq<real>, band: Band): real
    requires |xf| == |yf|
  {
    MaskedSum(xf, yf, band)
  }

  /** Sum of frequency times magnitude over the selected bins. */
  function BandMoment(xf: seq<real>, yf: seq<real>, band: Band): real
    requires |xf| == |yf|
  {
    MaskedSum(xf, Products(xf, yf), band)
  }

  predicate AnyInBand(xf: seq<real>, band: Band) {
    exists k :: 0 <= k < |xf| && band.Contains(xf[k])
  }

  /**
   * centroid_band: the magnitude-weighted mean frequency of the selected bins, or 0
   * when no bin is selected or their magnitudes do not sum to a positive total.
   */
  function CentroidBand(xf: seq<real>, yf: seq<real>, band: Band): real
    requires |xf| == |yf|
  {
    if AnyInBand(xf, band) then
      var total := BandMass(xf, yf, band);
      if total > 0.0 then BandMoment(xf, yf, band) / total else 0.0
    else
      0.0
  }

  lemma {:induction false} MaskedSumNonNegative(xf: seq<real>, w: seq<real>, band: Band)
    requires |xf| == |w| && AllNonNegative(w)
    ensures MaskedSum(xf, w, band) >= 0.0
    decreases |xf|
  {
    if xf != [] {
      MaskedSumNonNegative(xf[1..], w[1..], band);
    }
  }

  lemma {:induction false} MaskedSumAtLeastTerm(xf: seq<real>, w: seq<real>, band: Band, k: nat)
    requires |xf| == |w| && AllNonNegative(w)
    requires k < |xf| && band.Contains(xf[k])
    ensures MaskedSum(xf, w, band) >= w[k]
    decreases |xf|
  {
    if k == 0 {
      MaskedSumNonNegative(xf[1..], w[1..], band);
    } else {
      MaskedSumAtLeastTerm(xf[1..], w[1..], band, k - 1);
    }
  }

  lemma {:induction false} MaskedSumVanishes(xf: seq<real>, w: seq<real>, band: Band)
    requires |xf| == |w|
    requires forall k :: 0 <= k < |xf| && band.Contains(xf[k]) ==> w[k] == 0.0
    ensures MaskedSum(xf, w, band) == 0.0
    decreases |xf|
  {
    if xf != [] {
      MaskedSumVanishes(xf[1..], w[1..], band);
    }
  }

  /** One more bin keeps the moment between lo and hi times the mass. */
  lemma AddBinBounds(lo: real, hi: real, x: real, y: real, m: real, t: real)
    requires y >= 0.0
    requires y > 0.0 ==> lo <= x <= hi
    requires lo * t <= m <= hi * t
    ensures lo * (y + t) <= x * y + m <= hi * (y + t)
  {
    if y > 0.0 {
      assert lo * y <= x * y;
      assert x * y <= hi * y;
    }
    assert lo * (y + t) == lo * y + lo * t;
    assert hi * (y + t) == hi * y + hi * t;
  }

  lemma ProductsTail(xf: seq<real>, yf: seq<real>)
    requires |xf| == |yf| && xf != []
    ensures Products(xf, yf)[1..] == Products(xf[1..], yf[1..])
  {
    assert forall i :: 0 <= i < |xf| - 1 ==> Products(xf, yf)[1..][i] == Products(xf[1..], yf[1..])[i];
  }

  /**
   * When every selected bin that carries energy lies in [lo, hi], the moment lies
   * between lo and hi times the mass.
   */
  lemma {:induction false} MomentBounds(xf: seq<real>, yf: seq<real>, band: Band, lo: real, hi: real)
    requires |xf| == |yf| && AllNonNegative(yf)
    requires forall k :: 0 <= k < |xf| && band.Contains(xf[k]) && yf[k] > 0.0 ==> lo <= xf[k] <= hi
    ensures lo * BandMass(xf, yf, band) <= BandMoment(xf, yf, band) <= hi * BandMass(xf, yf, band)
    decreases |xf|
  {
    if xf != [] {
      ProductsTail(xf, yf);
      MomentBounds(xf[1..], yf[1..], band, lo, hi);
      var m, t := BandMoment(xf[1..], yf[1..], band), BandMass(xf[1..], yf[1..], band);
      if band.Contains(xf[0]) {
        assert BandMass(xf, yf, band) == yf[0] + t;
        assert BandMoment(xf, yf, band) == xf[0] * yf[0] + m;
        AddBinBounds(lo, hi, xf[0], yf[0], m, t);
      } else {
        assert BandMass(xf, yf, band) == t;
        assert BandMoment(xf, yf, band) == m;
      }
    }
  }

  lemma QuotientBounds(lo: real, hi: real, m: real, t: real)
    requires t > 0.0 && lo * t <= m <= hi * t
    ensures lo <= m / t <= hi
  {
    var q := m / t;
    assert q * t == m;
  }

  // ---------------------------------------------------------------------------
  // Properties of one band's centroid
  // ---------------------------------------------------------------------------

  /** A band in which no selected bin carries energy (or no bin is selected) reports 0. */
  lemma CentroidOfSilentBand(xf: seq<real>, yf: seq<real>, band: Band)
    requires |xf| == |yf|
    requires forall k :: 0 <= k < |xf| && band.Contains(xf[k]) ==> yf[k] == 0.0
    ensures CentroidBand(xf, yf, band) == 0.0
  {
    MaskedSumVanishes(xf, yf, band);
  }

  /** The division is guarded: a band whose selected magnitudes do not sum to a positive total reports 0. */
  lemma CentroidOfNonPositiveMass(xf: seq<real>, yf: seq<real>, band: Band)
    requires |xf| == |yf|
    ensures BandMass(xf, yf, band) <= 0.0 ==> CentroidBand(xf, yf, band) == 0.0
  {
  }

  /** With non-negative magnitudes the mass is zero exactly when every selected magnitude is. */
  lemma BandMassZeroIff(xf: seq<real>, yf: seq<real>, band: Band)
    requires |xf| == |yf| && AllNonNegative(yf)
    ensures BandMass(xf, yf, band) == 0.0
        <==> forall k :: 0 <= k < |xf| && band.Contains(xf[k]) ==> yf[k] == 0.0
  {
    if forall k :: 0 <= k < |xf| && band.Contains(xf[k]) ==> yf[k] == 0.0 {
      MaskedSumVanishes(xf, yf, band);
    } else {
      var k :| 0 <= k < |xf| && band.Contains(xf[k]) && yf[k] != 0.0;
      MaskedSumAtLeastTerm(xf, yf, band, k);
    }
  }

  /**
   * When every selected bin that carries energy lies in [lo, hi], the centroid lies
   * in [lo, hi] if the band has energy, and is 0 otherwise.
   */
  lemma CentroidBetween(xf: seq<real>, yf: seq<real>, band: Band, lo: real, hi: real)
    requires |xf| == |yf| && AllNonNegative(yf)
    requires forall k :: 0 <= k < |xf| && band.Contains(xf[k]) && yf[k] > 0.0 ==> lo <= xf[k] <= hi
    ensures if BandMass(xf, yf, band) > 0.0 then lo <= CentroidBand(xf, yf, band) <= hi
            else CentroidBand(xf, yf, band) == 0.0
  {
    var total := BandMass(xf, yf, band);
    if total > 0.0 {
      if !AnyInBand(xf, band) {
        MaskedSumVanishes(xf, yf, band);
      }
      MomentBounds(xf, yf, band, lo, hi);
      QuotientBounds(lo, hi, BandMoment(xf, yf, band), total);
    }
  }

  /** The centroid of a band is 0 or a frequency inside the band. */
  lemma CentroidWithinBand(xf: seq<real>, yf: seq<real>, band: Band)
    requires |xf| == |yf| && AllNonNegative(yf)
    ensures CentroidBand(xf, yf, band) == 0.0 || band.Contains(CentroidBand(xf, yf, band))
  {
    CentroidBetween(xf, yf, band, band.fmin, band.fmax);
  }

  /** Non-negative bin frequencies and magnitudes give a non-negative centroid. */
  lemma CentroidNonNegative(xf: seq<real>, yf: seq<real>, band: Band)
    requires |xf| == |yf| && AllNonNegative(xf) && AllNonNegative(yf)
    ensures CentroidBand(xf, yf, band) >= 0.0
  {
    var hi := MaskedSum(xf, xf, band);
    forall k | 0 <= k < |xf| && band.Contains(xf[k]) && yf[k] > 0.0
      ensures 0.0 <= xf[k] <= hi
    {
      MaskedSumAtLeastTerm(xf, xf, band, k);
    }
    CentroidBetween(xf, yf, band, 0.0, hi);
  }

  /** All of a band's energy in one selected bin: the centroid is that bin's frequency. */
  lemma CentroidOfSingleBin(xf: seq<real>, yf: seq<real>, band: Band, k: nat)
    requires |xf| == |yf| && AllNonNegative(yf)
    requires k < |xf| && band.Contains(xf[k]) && yf[k] > 0.0
    requires forall j :: 0 <= j < |xf| && j != k && band.Contains(xf[j]) ==> yf[j] == 0.0
    ensures CentroidBand(xf, yf, band) == xf[k]
  {
    MaskedSumAtLeastTerm(xf, yf, band, k);
    CentroidBetween(xf, yf, band, xf[k], xf[k]);
  }

  /**
   * With non-negative frequencies and magnitudes, the centroid is positive exactly
   * when some selected bin has both a positive frequency and a positive magnitude.
   */
  lemma CentroidPositiveIff(xf: seq<real>, yf: seq<real>, band: Band)
    requires |xf| == |yf| && AllNonNegative(xf) && AllNonNegative(yf)
    ensures CentroidBand(xf, yf, band) > 0.0
        <==> exists k :: 0 <= k < |xf| && band.Contains(xf[k]) && yf[k] > 0.0 && xf[k] > 0.0
  {
    var p := Products(xf, yf);
    assert AllNonNegative(p) by {
      forall k | 0 <= k < |p| ensures p[k] >= 0.0 {
        assert p[k] == xf[k] * yf[k];
      }
    }
    if k :| 0 <= k < |xf| && band.Contains(xf[k]) && yf[k] > 0.0 && xf[k] > 0.0 {
      MaskedSumAtLeastTerm(xf, yf, band, k);
      MaskedSumAtLeastTerm(xf, p, band, k);
      assert p[k] > 0.0;
      var total := BandMass(xf, yf, band);
      var moment := BandMoment(xf, yf, band);
      assert AnyInBand(xf, band);
      assert moment > 0.0 && total > 0.0;
      assert moment / total > 0.0;
    } else {
      forall j | 0 <= j < |xf| && band.Contains(xf[j]) ensures p[j] == 0.0 {
        assert p[j] == xf[j] * yf[j];
      }
      MaskedSumVanishes(xf, p, band);
    }
  }

  // ---------------------------------------------------------------------------
  // analyze_frequencies
  // ---------------------------------------------------------------------------

  /**
   * analyze_frequencies: de-mean the window, take the magnitude spectrum of the
   * result on the bin grid for |window| samples at fps, and reduce it to the
   * centroids of the low, mid and high bands.
   */
  function AnalyzeFrequencies(window: seq<real>, fps: real, absRfft: seq<real> -> seq<real>): (a: Analysis)
    requires |window| > 0 && fps > 0.0
    requires IsMagnitudeSpectrum(absRfft(DeMean(window)), |window|)
    ensures a.xf == BinFrequencies(|window|, fps) && a.yf == absRfft(DeMean(window))
    ensures |a.xf| == |a.yf| == |window| / 2 + 1
    ensures a.low >= 0.0 && (a.low == 0.0 || LowBand.Contains(a.low))
    ensures a.mid >= 0.0 && (a.mid == 0.0 || MidBand.Contains(a.mid))
    ensures a.high >= 0.0 && (a.high == 0.0 || HighBand.Contains(a.high))
  {
    var signal := DeMean(window);
    var yf := absRfft(signal);
    var xf := BinFrequencies(|window|, fps);
    CentroidWithinBand(xf, yf, LowBand);
    CentroidWithinBand(xf, yf, MidBand);
    CentroidWithinBand(xf, yf, HighBand);
    Analysis(CentroidBand(xf, yf, LowBand), CentroidBand(xf, yf, MidBand), CentroidBand(xf, yf, HighBand), xf, yf)
  }

  /**
   * A constant window, under any transform that maps the all-zero signal to an
   * all-zero spectrum (every DFT does), yields an all-zero spectrum and three zero
   * centroids.
   */
  lemma ConstantWindowIsSilent(window: seq<real>, fps: real, absRfft: seq<real> -> seq<real>)
    requires |window| > 0 && fps > 0.0
    requires forall k :: 0 <= k < |window| ==> window[k] == window[0]
    requires absRfft(Zeros(|window|)) == Zeros(|window| / 2 + 1)
    ensures IsMagnitudeSpectrum(absRfft(DeMean(window)), |window|)
    ensures var a := AnalyzeFrequencies(window, fps, absRfft);
            a.yf == Zeros(|window| / 2 + 1) && a.low == 0.0 && a.mid == 0.0 && a.high == 0.0
  {
    ConstantWindowDeMeansToZero(window);
    var xf := BinFrequencies(|window|, fps);
    var yf := Zeros(|window| / 2 + 1);
    CentroidOfSilentBand(xf, yf, LowBand);
    CentroidOfSilentBand(xf, yf, MidBand);
    CentroidOfSilentBand(xf, yf, HighBand);
  }

  /**
   * The bands are closed at both ends: when all the energy sits in one bin at exactly
   * 0.5 Hz (or 2.0 Hz), the two bands that share that edge both report it.
   */
  lemma SharedEdgeCountedTwice(xf: seq<real>, yf: seq<real>, k: nat)
    requires |xf| == |yf| && AllNonNegative(yf)
    requires k < |xf| && yf[k] > 0.0
    requires forall j :: 0 <= j < |xf| && j != k ==> yf[j] == 0.0
    ensures xf[k] == 0.5 ==> CentroidBand(xf, yf, LowBand) == CentroidBand(xf, yf, MidBand) == 0.5
    ensures xf[k] == 2.0 ==> CentroidBand(xf, yf, MidBand) == CentroidBand(xf, yf, HighBand) == 2.0
  {
    if xf[k] == 0.5 {
      CentroidOfSingleBin(xf, yf, LowBand, k);
      CentroidOfSingleBin(xf, yf, MidBand, k);
    }
    if xf[k] == 2.0 {
      CentroidOfSingleBin(xf, yf, MidBand, k);
      CentroidOfSingleBin(xf, yf, HighBand, k);
    }
  }
}
