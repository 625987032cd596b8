/**
 * The estimator `calculate_dynamic_range`: choose a decoder from the file
 * name, take a low percentile over the strictly positive smoothed samples and
 * a high percentile over all of them, guard the low value against zero, turn
 * the ratio into 20·log10 "stops" and cap the result at 120.
 *
 * Image decoding, the bilateral filter, `np.percentile` and `np.log10` are
 * not modelled: they reach the model as the functions of an `Env`. Decoders
 * and the filter may fail; `percentile` and `log10` are total.
 */
module DynamicRange {
  import opened Text

  datatype Option<T> = None | Some(value: T)

  /** Which decoder reads the file: the raw-sensor decoder or the standard grayscale one. */
  datatype Route = Raw | Standard

  /** The value returned by the estimator: a number of stops, or `None` after any error. */
  datatype Outcome = Value(r: real) | Failure

  /** The low and high percentile statistics of one smoothed luminance field. */
  datatype Stats = Stats(low: real, high: real)

  /**
   * Everything the estimator calls but the model does not define.
   * A decoder yields the grayscale samples of the image, flattened, or `None`
   * when it raises or (for `cv2.imread`) returns no image; `smooth` is the
   * bilateral filter, `None` when it raises; `percentile(samples, q)` is
   * `np.percentile` on a non-empty population with q in [0, 100]; `log10` is
   * `np.log10`.
   */
  datatype Env = Env(
    rawDecoder: string -> Option<seq<real>>,
    standardDecoder: string -> Option<seq<real>>,
    smooth: seq<real> -> Option<seq<real>>,
    percentile: (seq<real>, real) -> real,
    log10: real -> real)

  /** Extensions that are read with the raw-sensor decoder. */
  const RawExtensions: seq<string> := [".arw", ".dng", ".nef", ".cr2", ".cr3", ".raf"]

  /** The image extensions, besides the raw ones, that the command line picks up; all go to the standard decoder. */
  const StandardExtensions: seq<string> := [".jpg", ".jpeg", ".png", ".bmp", ".tif", ".tiff"]

  /** The number substituted for a low statistic of exactly zero. */
  const Epsilon: real := 1.0e-10

  /** The largest value the estimator returns. */
  const Ceiling: real := 120.0

  const DefaultBitsPerPixel: int := 14
  const DefaultPercentileMax: real := 99.9
  const DefaultPercentileMin: real := 0.1

  /**
   * The decoder chosen for a path: raw exactly when its lower-cased form ends
   * with a raw extension, that is, when its last four characters, lower-cased,
   * are one of them.
   */
  function RouteOf(path: string): (r: Route)
    ensures r == Raw <==> |path| >= 4 && Lower(path[|path| - 4..]) in RawExtensions
  {
    assert forall e :: e in RawExtensions ==> |e| == 4;
    EndsWithAnyOfLength(path, RawExtensions, 4);
    if EndsWithAny(Lower(path), RawExtensions) then Raw else Standard
  }

  /** Decodes the file with the routed decoder. */
  function Decode(path: string, env: Env): (r: Option<seq<real>>)
    ensures r == if |path| >= 4 && Lower(path[|path| - 4..]) in RawExtensions
                 then env.rawDecoder(path) else env.standardDecoder(path)
  {
    match RouteOf(path)
    case Raw => env.rawDecoder(path)
    case Standard => env.standardDecoder(path)
  }

  /**
   * The decoded field after the bilateral filter, or `None` when decoding or
   * the filter fails. The filter receives the output of the decoder chosen by
   * the path's last four characters; a failure of that decoder is never
   * replaced by a try with the other one.
   */
  function Smoothed(path: string, env: Env): (r: Option<seq<real>>)
    ensures
      var d := if |path| >= 4 && Lower(path[|path| - 4..]) in RawExtensions
               then env.rawDecoder(path) else env.standardDecoder(path);
      r == if d.None? then None else env.smooth(d.value)
  {
    match Decode(path, env)
    case None => None
    case Some(gray) => env.smooth(gray)
  }

  /** The samples strictly greater than zero, in their original order (`a[a > 0]`). */
  function Positives(samples: seq<real>): (r: seq<real>)
    ensures |r| <= |samples|
    ensures forall i :: 0 <= i < |r| ==> r[i] > 0.0
    ensures forall x :: x > 0.0 ==> multiset(r)[x] == multiset(samples)[x]
    ensures r == [] <==> forall i :: 0 <= i < |samples| ==> samples[i] <= 0.0
  {
    if samples == [] then []
    else
      var rest := Positives(samples[1..]);
      assert samples == [samples[0]] + samples[1..];
      if samples[0] > 0.0 then [samples[0]] + rest else rest
  }

  /** `np.percentile` accepts only percentiles between 0 and 100 and raises otherwise. */
  predicate PercentileInRange(q: real) {
    0.0 <= q <= 100.0
  }

  /**
   * The two percentile statistics; `None` where `np.percentile` raises:
   * no strictly positive sample, or a percentile outside [0, 100].
   */
  function Statistics(samples: seq<real>, percentileMin: real, percentileMax: real,
                      percentile: (seq<real>, real) -> real): (r: Option<Stats>)
    ensures r.None? <==>
      || (forall i :: 0 <= i < |samples| ==> samples[i] <= 0.0)
      || !PercentileInRange(percentileMin)
      || !PercentileInRange(percentileMax)
    ensures r.Some? ==> r.value.low == percentile(Positives(samples), percentileMin)
    ensures r.Some? ==> r.value.high == percentile(samples, percentileMax)
  {
    var positives := Positives(samples);
    if positives == [] || !PercentileInRange(percentileMin) || !PercentileInRange(percentileMax)
    then None
    else Some(Stats(percentile(positives, percentileMin), percentile(samples, percentileMax)))
  }

  /** The divisor after the zero guard: never zero, and unchanged unless it was zero. */
  function NonZeroLow(low: real): (r: real)
    ensures r != 0.0
    ensures low != 0.0 ==> r == low
    ensures low == 0.0 ==> r == Epsilon
  {
    if low == 0.0 then Epsilon else low
  }

  /** The dynamic range before the cap: 20·log10(high / low), with 1e-10 in place of a zero low value. */
  function Unclamped(st: Stats, log10: real -> real): (r: real)
    ensures st.low != 0.0 ==> r == 20.0 * log10(st.high / st.low)
    ensures st.low == 0.0 ==> r == 20.0 * log10(st.high / Epsilon)
  {
    20.0 * log10(st.high / NonZeroLow(st.low))
  }

  /** `min(x, 120)`: never above the ceiling, and no floor. */
  function Clamp(x: real): (r: real)
    ensures r <= Ceiling
    ensures r <= x
    ensures x <= Ceiling ==> r == x
    ensures Ceiling < x ==> r == Ceiling
  {
    if Ceiling < x then Ceiling else x
  }

  /** `calculate_dynamic_range(image_path, bits_per_pixel, percentile_max, percentile_min)`. */
  function Calculate(path: string, bitsPerPixel: int, percentileMax: real, percentileMin: real,
                     env: Env): (o: Outcome)
    ensures o.Value? ==> o.r <= Ceiling
  {
    match Smoothed(path, env)
    case None => Failure
    case Some(filtered) =>
      match Statistics(filtered, percentileMin, percentileMax, env.percentile)
      case None => Failure
      case Some(st) => Value(Clamp(Unclamped(st, env.log10)))
  }

  /**
   * The call made with the default arguments. The default percentiles are in
   * range, so it fails only when decoding or the filter fails or no smoothed
   * sample is positive.
   */
  function CalculateDefault(path: string, env: Env): (o: Outcome)
    ensures o.Value? ==> o.r <= Ceiling
    ensures o == Failure <==>
      || Smoothed(path, env).None?
      || (forall x :: x in Smoothed(path, env).value ==> x <= 0.0)
  {
    CalculateCases(path, DefaultBitsPerPixel, DefaultPercentileMax, DefaultPercentileMin, env);
    Calculate(path, DefaultBitsPerPixel, DefaultPercentileMax, DefaultPercentileMin, env)
  }

  // ---------------------------------------------------------------- routing

  /** Routing ignores the case of ASCII letters. */
  lemma RouteIgnoresCase(a: string, b: string)
    requires EqualIgnoringCase(a, b)
    ensures RouteOf(a) == RouteOf(b)
  {
    EqualIgnoringCaseIff(a, b);
  }

  /** The raw extensions all have four characters. */
  lemma RawExtensionLength(e: string)
    requires e in RawExtensions
    ensures |e| == 4
  {
  }

  /** The last three characters of a raw extension: they tell every raw extension from every standard one. */
  lemma {:induction false} NotRawSuffix(s: string, e: string)
    requires |s| >= 4
    requires s[|s| - 3..] in ["jpg", "peg", "png", "bmp", "tif", "iff"]
    requires e in RawExtensions
    ensures !EndsWith(s, e)
  {
    RawExtensionLength(e);
    assert e[1..] in ["arw", "dng", "nef", "cr2", "cr3", "raf"];
    EndsWithDrop(s, e, 1);
  }

  /** A lower-cased name ending in a standard image extension is not routed to the raw decoder. */
  lemma {:induction false} StandardExtensionRoutesStandard(path: string, ext: string)
    requires ext in StandardExtensions
    requires EndsWith(Lower(path), ext)
    ensures RouteOf(path) == Standard
  {
    var s := Lower(path);
    assert s[|s| - 3..] == ext[|ext| - 3..];
    forall e | e in RawExtensions
      ensures !EndsWith(s, e)
    {
      NotRawSuffix(s, e);
    }
  }

  /** Which decoder is called is all that routing decides: the other decoder is never consulted. */
  lemma CalculateUsesRoutedDecoderOnly(path: string, b: int, pmax: real, pmin: real, env: Env,
                                       other: string -> Option<seq<real>>)
    ensures RouteOf(path) == Raw ==>
      Calculate(path, b, pmax, pmin, env) == Calculate(path, b, pmax, pmin, env.(standardDecoder := other))
    ensures RouteOf(path) == Standard ==>
      Calculate(path, b, pmax, pmin, env) == Calculate(path, b, pmax, pmin, env.(rawDecoder := other))
  {
  }

  // ---------------------------------------------------------------- statistics

  /** Positives keeps order: filtering a concatenation filters each part. */
  lemma {:induction false} PositivesAppend(a: seq<real>, b: seq<real>)
    ensures Positives(a + b) == Positives(a) + Positives(b)
  {
    if a == [] {
      assert a + b == b;
    } else {
      assert (a + b)[1..] == a[1..] + b;
      PositivesAppend(a[1..], b);
    }
  }

  /** Non-positive samples, wherever they are added, never change the low statistic's population. */
  lemma PositivesIgnoresNonPositive(a: seq<real>, z: seq<real>, b: seq<real>)
    requires forall i :: 0 <= i < |z| ==> z[i] <= 0.0
    ensures Positives(a + z + b) == Positives(a + b)
  {
    PositivesAppend(a + z, b);
    PositivesAppend(a, z);
    PositivesAppend(a, b);
  }

  /** The low statistic is computed from the strictly positive samples only. */
  lemma LowStatisticIgnoresNonPositive(a: seq<real>, z: seq<real>, b: seq<real>,
                                       pmin: real, pmax: real, percentile: (seq<real>, real) -> real)
    requires forall i :: 0 <= i < |z| ==> z[i] <= 0.0
    requires Statistics(a + b, pmin, pmax, percentile).Some?
    ensures Statistics(a + z + b, pmin, pmax, percentile).Some?
    ensures Statistics(a + z + b, pmin, pmax, percentile).value.low
         == Statistics(a + b, pmin, pmax, percentile).value.low
  {
    PositivesIgnoresNonPositive(a, z, b);
    var i :| 0 <= i < |a + b| && (a + b)[i] > 0.0;
    if i < |a| {
      assert (a + z + b)[i] == (a + b)[i];
    } else {
      assert (a + z + b)[i + |z|] == (a + b)[i];
    }
  }

  /** An all-zero (or otherwise non-positive) field is degenerate: the estimator returns `None`. */
  lemma {:induction false} NoPositiveSampleFails(path: string, b: int, pmax: real, pmin: real, env: Env)
    requires Smoothed(path, env).Some?
    requires forall x :: x in Smoothed(path, env).value ==> x <= 0.0
    ensures Calculate(path, b, pmax, pmin, env) == Failure
  {
    var samples := Smoothed(path, env).value;
    assert forall i :: 0 <= i < |samples| ==> samples[i] in samples;
  }

  // ---------------------------------------------------------------- the result

  /**
   * The estimator fails exactly when decoding or the filter fails, the smoothed field has no
   * strictly positive sample, or a percentile is outside [0, 100]; otherwise it
   * returns the capped 20·log10 ratio of the two statistics.
   */
  lemma CalculateCases(path: string, b: int, pmax: real, pmin: real, env: Env)
    ensures Calculate(path, b, pmax, pmin, env) == Failure <==>
      || Smoothed(path, env).None?
      || (forall x :: x in Smoothed(path, env).value ==> x <= 0.0)
      || !PercentileInRange(pmin)
      || !PercentileInRange(pmax)
    ensures Calculate(path, b, pmax, pmin, env).Value? ==>
      var samples := Smoothed(path, env).value;
      var st := Stats(env.percentile(Positives(samples), pmin), env.percentile(samples, pmax));
      Calculate(path, b, pmax, pmin, env).r == Clamp(Unclamped(st, env.log10))
  {
    if Smoothed(path, env).Some? {
      var samples := Smoothed(path, env).value;
      assert (forall x :: x in samples ==> x <= 0.0) <==> (forall i :: 0 <= i < |samples| ==> samples[i] <= 0.0) by {
        assert forall i :: 0 <= i < |samples| ==> samples[i] in samples;
      }
    }
  }

  /** `bits_per_pixel` is never read. */
  lemma CalculateIgnoresBitsPerPixel(path: string, b1: int, b2: int, pmax: real, pmin: real, env: Env)
    ensures Calculate(path, b1, pmax, pmin, env) == Calculate(path, b2, pmax, pmin, env)
  {
  }

  /** A result at or below the ceiling is the unclamped 20·log10 ratio itself. */
  lemma CalculateBelowCeilingIsUnclamped(path: string, b: int, pmax: real, pmin: real, env: Env)
    requires Calculate(path, b, pmax, pmin, env).Value?
    ensures
      var samples := Smoothed(path, env).value;
      var st := Stats(env.percentile(Positives(samples), pmin), env.percentile(samples, pmax));
      Unclamped(st, env.log10) <= Ceiling ==> Calculate(path, b, pmax, pmin, env).r == Unclamped(st, env.log10)
  {
    CalculateCases(path, b, pmax, pmin, env);
  }

  /** The cap is monotone: a larger unclamped value never yields a smaller result. */
  lemma ClampMonotone(x: real, y: real)
    requires x <= y
    ensures Clamp(x) <= Clamp(y)
  {
  }

  /** There is no floor: every bound, however low, is undercut by some successful call. */
  lemma NoFloor(path: string, bound: real)
    ensures
      var env := Env(_ => Some([1.0]), _ => Some([1.0]), s => Some(s), (s, q) => 1.0, x => bound / 20.0 - 1.0);
      var o := CalculateDefault(path, env);
      o.Value? && o.r < bound
  {
    var env := Env(_ => Some([1.0]), _ => Some([1.0]), s => Some(s), (s, q) => 1.0, x => bound / 20.0 - 1.0);
    var st := Stats(1.0, 1.0);
    assert Positives([1.0]) == [1.0];
    assert Statistics([1.0], DefaultPercentileMin, DefaultPercentileMax, env.percentile) == Some(st);
    assert Unclamped(st, env.log10) == bound - 20.0;
  }
}
