/**
 * The waveform decimation of Lumix/Clips/Renderers/WaveformRenderer.cs: the
 * samples are cut into targetWidth buckets of `Count / targetWidth` samples
 * each, and every bucket yields its largest and smallest sample, which the
 * clip draws as one column. Samples are exact reals within the range of a
 * float; the buckets are independent, so the parallel loop is modelled as a
 * sequential one.
 */
module Waveform {
  import opened Wrappers

  /** float.MaxValue, (2 - 2^-23) * 2^127. */
  const FloatMax: real := 340282346638528859811704183484516925440.0

  /** A finite float. */
  predicate IsFloat(x: real)
  {
    -FloatMax <= x <= FloatMax
  }

  predicate AllFloats(s: seq<real>)
  {
    forall j :: 0 <= j < |s| ==> IsFloat(s[j])
  }

  /**
   * m is what the max loop leaves for s[lo..hi): float.MinValue for an empty
   * range, otherwise the largest sample in it.
   */
  predicate IsPeak(s: seq<real>, lo: nat, hi: nat, m: real)
    requires lo <= hi <= |s|
  {
    && (lo == hi ==> m == -FloatMax)
    && (lo < hi ==> (forall j :: lo <= j < hi ==> s[j] <= m) && (exists j :: lo <= j < hi && s[j] == m))
  }

  /** The same for the min loop: float.MaxValue for an empty range, otherwise the smallest sample. */
  predicate IsValley(s: seq<real>, lo: nat, hi: nat, m: real)
    requires lo <= hi <= |s|
  {
    && (lo == hi ==> m == FloatMax)
    && (lo < hi ==> (forall j :: lo <= j < hi ==> m <= s[j]) && (exists j :: lo <= j < hi && s[j] == m))
  }

  /** One bucket's inner loop: running max from float.MinValue and running min from float.MaxValue. */
  method Bucket(s: seq<real>, lo: nat, hi: nat) returns (max: real, min: real)
    requires lo <= hi <= |s| && AllFloats(s)
    ensures IsPeak(s, lo, hi, max) && IsValley(s, lo, hi, min)
  {
    max := -FloatMax;
    min := FloatMax;
    var j := lo;
    while j < hi
      invariant lo <= j <= hi
      invariant j == lo ==> max == -FloatMax && min == FloatMax
      invariant forall k :: lo <= k < j ==> s[k] <= max && min <= s[k]
      invariant j > lo ==> (exists k :: lo <= k < j && s[k] == max) && (exists k :: lo <= k < j && s[k] == min)
    {
      var sample := s[j];
      if sample > max {
        max := sample;
      }
      if sample < min {
        min := sample;
      }
      j := j + 1;
    }
  }

  /** Where bucket i starts when every bucket holds spp samples, accumulated bucket by bucket. */
  function Start(i: nat, spp: nat): nat
  {
    if i == 0 then 0 else Start(i - 1, spp) + spp
  }

  /** Start is the product `i * samplesPerPixel` the loop computes. */
  lemma {:induction false} StartIsProduct(i: nat, spp: nat)
    ensures Start(i, spp) == i * spp
  {
    if i > 0 {
      StartIsProduct(i - 1, spp);
      assert i * spp == (i - 1) * spp + spp;
    }
  }

  /** Bucket i ends no later than where bucket w starts, for i < w. */
  lemma {:induction false} StartMonotone(i: nat, w: nat, spp: nat)
    requires i < w
    ensures Start(i, spp) + spp <= Start(w, spp)
    decreases w - i
  {
    if i + 1 < w {
      StartMonotone(i + 1, w, spp);
    }
  }

  /** Bucket i of a width-w split of n samples ends within the samples. */
  lemma BucketFits(n: nat, w: nat, i: nat)
    requires i < w
    ensures Start(i, n / w) + n / w <= Start(w, n / w) <= n
  {
    var spp := n / w;
    StartMonotone(i, w, spp);
    StartIsProduct(w, spp);
    assert n == w * spp + n % w;
  }

  /** The bounds of column i as the loop computes them. */
  lemma ColumnBounds(n: nat, w: nat, i: nat, spp: nat)
    requires i < w && spp == n / w
    ensures i * spp == Start(i, spp) && Start(i, spp) + spp <= n
  {
    BucketFits(n, w, i);
    StartIsProduct(i, spp);
  }

  /** The peak and valley columns Resize returns for a positive width. */
  predicate Decimated(samples: seq<real>, width: nat, peaks: seq<real>, valleys: seq<real>)
    requires width > 0
  {
    var spp := |samples| / width;
    && |peaks| == width && |valleys| == width
    && forall i :: 0 <= i < width ==>
      Start(i, spp) + spp <= |samples|
      && IsPeak(samples, Start(i, spp), Start(i, spp) + spp, peaks[i])
      && IsValley(samples, Start(i, spp), Start(i, spp) + spp, valleys[i])
  }

  /** Column i of Resize's loop: the bucket [i * spp, min(i * spp + spp, Count)), which is always the full bucket. */
  method Column(samples: seq<real>, width: nat, spp: nat, i: nat) returns (max: real, min: real)
    requires i < width && spp == |samples| / width && AllFloats(samples)
    ensures Start(i, spp) + spp <= |samples|
    ensures IsPeak(samples, Start(i, spp), Start(i, spp) + spp, max) && IsValley(samples, Start(i, spp), Start(i, spp) + spp, min)
  {
    ColumnBounds(|samples|, width, i, spp);
    var start := i * spp;
    var end := if start + spp < |samples| then start + spp else |samples|;
    assert end == start + spp;
    max, min := Bucket(samples, start, end);
  }

  /**
   * Resize(targetWidth, samples): a zero width divides by zero, a negative
   * width cannot size the arrays; otherwise bucket i covers
   * [i * spp, min(i * spp + spp, Count)), which is always the full
   * [i * spp, i * spp + spp).
   */
  method Resize(width: int, samples: seq<real>) returns (r: Result<(seq<real>, seq<real>)>)
    requires AllFloats(samples)
    ensures width == 0 ==> r == Err(DivideByZero)
    ensures width < 0 ==> r == Err(NegativeSize)
    ensures width > 0 ==> r.Ok? && Decimated(samples, width, r.value.0, r.value.1)
  {
    if width == 0 {
      return Err(DivideByZero);
    }
    if width < 0 {
      return Err(NegativeSize);
    }
    var spp := |samples| / width;
    var peaks: seq<real> := [];
    var valleys: seq<real> := [];
    var i := 0;
    while i < width
      invariant 0 <= i <= width
      invariant |peaks| == i && |valleys| == i
      invariant ColumnsUpTo(samples, spp, peaks, valleys)
    {
      var max, min := Column(samples, width, spp, i);
      Extend(samples, spp, peaks, valleys, max, min);
      peaks := peaks + [max];
      valleys := valleys + [min];
      i := i + 1;
    }
    ColumnsDecimated(samples, width, peaks, valleys);
    return Ok((peaks, valleys));
  }

  /** The columns for buckets 0 .. i - 1, each with the extent of a width-`spp` bucket. */
  predicate ColumnsUpTo(samples: seq<real>, spp: nat, peaks: seq<real>, valleys: seq<real>)
    requires |peaks| == |valleys|
  {
    forall k :: 0 <= k < |peaks| ==>
      Start(k, spp) + spp <= |samples|
      && IsPeak(samples, Start(k, spp), Start(k, spp) + spp, peaks[k])
      && IsValley(samples, Start(k, spp), Start(k, spp) + spp, valleys[k])
  }

  /** All width columns, each right, are the decimation. */
  lemma ColumnsDecimated(samples: seq<real>, width: nat, peaks: seq<real>, valleys: seq<real>)
    requires width > 0 && |peaks| == width && |valleys| == width
    requires ColumnsUpTo(samples, |samples| / width, peaks, valleys)
    ensures Decimated(samples, width, peaks, valleys)
  {
  }

  /** Appending the next bucket's column keeps the columns right. */
  lemma Extend(samples: seq<real>, spp: nat, peaks: seq<real>, valleys: seq<real>, max: real, min: real)
    requires |peaks| == |valleys| && ColumnsUpTo(samples, spp, peaks, valleys)
    requires Start(|peaks|, spp) + spp <= |samples|
    requires IsPeak(samples, Start(|peaks|, spp), Start(|peaks|, spp) + spp, max)
    requires IsValley(samples, Start(|peaks|, spp), Start(|peaks|, spp) + spp, min)
    ensures ColumnsUpTo(samples, spp, peaks + [max], valleys + [min])
  {
    var ps, vs := peaks + [max], valleys + [min];
    forall k | 0 <= k < |ps|
      ensures Start(k, spp) + spp <= |samples|
      ensures IsPeak(samples, Start(k, spp), Start(k, spp) + spp, ps[k])
      ensures IsValley(samples, Start(k, spp), Start(k, spp) + spp, vs[k])
    {
      if k < |peaks| {
        assert ps[k] == peaks[k] && vs[k] == valleys[k];
      }
    }
  }

  /** In a bucket that holds samples the peak is at or above the valley. */
  lemma PeakAboveValley(s: seq<real>, lo: nat, hi: nat, peak: real, valley: real)
    requires lo < hi <= |s| && IsPeak(s, lo, hi, peak) && IsValley(s, lo, hi, valley)
    ensures valley <= peak
  {
    assert valley <= s[lo] <= peak;
  }

  /** With fewer samples than columns every bucket is empty: each column is float.MinValue over float.MaxValue. */
  lemma FewSamplesGiveEmptyColumns(samples: seq<real>, width: nat, peaks: seq<real>, valleys: seq<real>)
    requires 0 < width && |samples| < width && Decimated(samples, width, peaks, valleys)
    ensures forall i :: 0 <= i < width ==> peaks[i] == -FloatMax && valleys[i] == FloatMax
  {
    assert |samples| / width == 0;
    forall i | 0 <= i < width
      ensures peaks[i] == -FloatMax && valleys[i] == FloatMax
    {
      StartIsProduct(i, 0);
    }
  }

  /**
   * Only the first width * spp samples count: two sample lists of the same
   * length that agree there decimate alike.
   */
  lemma TailIgnored(s: seq<real>, t: seq<real>, width: nat, peaks: seq<real>, valleys: seq<real>)
    requires width > 0 && |s| == |t|
    requires forall j :: 0 <= j < width * (|s| / width) ==> s[j] == t[j]
    requires Decimated(s, width, peaks, valleys)
    ensures Decimated(t, width, peaks, valleys)
  {
    var spp := |s| / width;
    StartIsProduct(width, spp);
    BucketFits(|s|, width, 0);
    ColumnsTransfer(s, t, spp, peaks, valleys);
    ColumnsDecimated(t, width, peaks, valleys);
  }

  /** Columns that only look at the first Start(|peaks|, spp) samples carry over to a list that agrees there. */
  lemma ColumnsTransfer(s: seq<real>, t: seq<real>, spp: nat, peaks: seq<real>, valleys: seq<real>)
    requires |s| == |t| && |peaks| == |valleys| && ColumnsUpTo(s, spp, peaks, valleys)
    requires Start(|peaks|, spp) <= |s|
    requires forall j :: 0 <= j < Start(|peaks|, spp) ==> s[j] == t[j]
    ensures ColumnsUpTo(t, spp, peaks, valleys)
  {
    forall i | 0 <= i < |peaks|
      ensures IsPeak(t, Start(i, spp), Start(i, spp) + spp, peaks[i])
      ensures IsValley(t, Start(i, spp), Start(i, spp) + spp, valleys[i])
    {
      StartMonotone(i, |peaks|, spp);
      Transfers(s, t, Start(i, spp), Start(i, spp) + spp, Start(|peaks|, spp), peaks[i], valleys[i]);
    }
  }

  /** A peak and a valley depend only on the samples of their bucket. */
  lemma Transfers(s: seq<real>, t: seq<real>, lo: nat, hi: nat, agree: nat, peak: real, valley: real)
    requires lo <= hi <= agree <= |s| == |t|
    requires forall j :: 0 <= j < agree ==> s[j] == t[j]
    requires IsPeak(s, lo, hi, peak) && IsValley(s, lo, hi, valley)
    ensures IsPeak(t, lo, hi, peak) && IsValley(t, lo, hi, valley)
  {
    if lo < hi {
      var jp :| lo <= jp < hi && s[jp] == peak;
      var jv :| lo <= jv < hi && s[jv] == valley;
      assert t[jp] == peak && t[jv] == valley;
    }
  }

  /** The position of the first empty read, or the number of chunks when none is empty. */
  function FirstEmpty(chunks: seq<seq<real>>): (k: nat)
    ensures k <= |chunks|
    ensures forall j :: 0 <= j < k ==> |chunks[j]| > 0
    ensures k < |chunks| ==> |chunks[k]| == 0
  {
    if |chunks| == 0 || |chunks[0]| == 0 then 0 else 1 + FirstEmpty(chunks[1..])
  }

  /** The reads laid end to end. */
  function Flatten(chunks: seq<seq<real>>): seq<real>
  {
    if |chunks| == 0 then [] else chunks[0] + Flatten(chunks[1..])
  }

  lemma {:induction false} FlattenSnoc(chunks: seq<seq<real>>, x: seq<real>)
    ensures Flatten(chunks + [x]) == Flatten(chunks) + x
    decreases |chunks|
  {
    if |chunks| == 0 {
      assert chunks + [x] == [x];
    } else {
      assert (chunks + [x])[1..] == chunks[1..] + [x];
      FlattenSnoc(chunks[1..], x);
    }
  }

  lemma {:induction false} FlattenFloats(chunks: seq<seq<real>>)
    requires forall k :: 0 <= k < |chunks| ==> AllFloats(chunks[k])
    ensures AllFloats(Flatten(chunks))
    decreases |chunks|
  {
    if |chunks| > 0 {
      FlattenFloats(chunks[1..]);
    }
  }

  /**
   * GetWaveformPeaks, past opening the file: the reads of up to 1024 samples
   * are appended until one returns nothing, and the collected samples are
   * decimated as Resize does and returned alongside the columns.
   */
  method GetWaveformPeaks(chunks: seq<seq<real>>, width: int) returns (r: Result<(seq<real>, seq<real>, seq<real>)>)
    requires forall k :: 0 <= k < |chunks| ==> AllFloats(chunks[k])
    ensures width == 0 ==> r == Err(DivideByZero)
    ensures width < 0 ==> r == Err(NegativeSize)
    ensures width > 0 ==>
      && r.Ok? && r.value.0 == Flatten(chunks[..FirstEmpty(chunks)])
      && Decimated(r.value.0, width, r.value.1, r.value.2)
  {
    var samples: seq<real> := [];
    var k := 0;
    while k < |chunks| && |chunks[k]| > 0
      invariant 0 <= k <= FirstEmpty(chunks)
      invariant samples == Flatten(chunks[..k])
    {
      FlattenSnoc(chunks[..k], chunks[k]);
      assert chunks[..k + 1] == chunks[..k] + [chunks[k]];
      samples := samples + chunks[k];
      k := k + 1;
    }
    assert k == FirstEmpty(chunks);
    FlattenFloats(chunks[..k]);
    var columns := Resize(width, samples);
    match columns
    case Err(f) =>
      return Err(f);
    case Ok(pv) =>
      return Ok((samples, pv.0, pv.1));
  }
}
