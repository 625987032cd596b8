# Dynamic-range estimator: a Dafny model

`dynamic_range.py` estimates the dynamic range of a still image. It picks a
decoder from the file name: the raw-sensor decoder for `.arw .dng .nef .cr2
.cr3 .raf`, in any letter case, and the standard grayscale decoder for
everything else. It smooths the grayscale field with a bilateral filter. It
takes the 0.1th percentile over the strictly positive samples and the 99.9th
percentile over all samples. A low value of exactly zero is replaced by
1e-10. The result is `20·log10(high / low)`, capped at 120 with no floor.
Any exception makes the function return `None`. The script's main block lists
its directory and keeps the names that end, in any letter case, with one of
twelve image extensions. It runs the estimator with the default arguments on
each one and prints a line for every result that is truthy.

The model has three modules:

- `Text` (`text.dfy`): ASCII lower-casing, `endswith`, and comparison that
  ignores case.
- `DynamicRange` (`dynamic_range.dfy`): routing, the positive-sample filter,
  the percentile statistics and their failure cases, the zero guard, the cap,
  and `calculate_dynamic_range` itself (`Calculate`).
- `Cli` (`cli.dfy`): the extension filter, `os.path.join`, the truthiness
  skip, and the main block (`Run`).

What the model cannot see reaches it as the fields of an `Env` value: the two
decoders, the bilateral filter, `np.percentile` and `np.log10`. The decoders
and the filter may fail (`None`). `percentile` and `log10` are total, and
nothing is assumed about the values any of them compute. The directory
listing is a sequence of names. A printed line is the pair of a name and its
value.

The code returns `None` for every failure, so `Outcome` has a single
`Failure`. `np.percentile` raises when a percentile lies outside [0, 100],
and line 53 turns that into `None` too.

## Model

| member | source | states |
|---|---|---|
| Text.Lower | dynamic_range.py:22 | lower-casing keeps the length, lower-cases each character in place and leaves no upper-case ASCII letter |
| Text.LowerIdempotent | dynamic_range.py:22 | lower-casing an already lower-cased name changes nothing |
| Text.EqualIgnoringCaseIff | dynamic_range.py:22 | two names differ only in letter case exactly when their lower-cased forms are equal (both directions) |
| Text.EndsWithAt | dynamic_range.py:22 | `endswith` holds exactly when the last characters of the string are those of the suffix, in order (both directions) |
| Text.EndsWithAnyAppend | dynamic_range.py:62 | a name ends with one of a concatenated list of suffixes exactly when it ends with one of either part |
| Text.EndsWithAnyOfLength | dynamic_range.py:22 | against suffixes of one length k, `lower(s).endswith(...)` holds exactly when `s` has at least k characters and its last k, lower-cased, are one of them |
| DynamicRange.RouteOf | dynamic_range.py:22 | a path goes to the raw decoder if and only if it has at least four characters and its last four, lower-cased, are one of the six raw extensions |
| DynamicRange.Decode | dynamic_range.py:22-30 | the raw decoder reads exactly the paths whose lower-cased last four characters are a raw extension; every other path is read by the standard decoder |
| DynamicRange.Smoothed | dynamic_range.py:22-34 | the filter receives the output of the decoder chosen by the path's last four characters; a failure of that decoder is never replaced by the other decoder, and a failure of either the decoder or the filter gives `None` |
| DynamicRange.Unclamped | dynamic_range.py:41-45 | the uncapped value is 20·log10(high / low) for a non-zero low value and 20·log10(high / 1e-10) for a zero one |
| DynamicRange.CalculateDefault | dynamic_range.py:6-55 | with the default arguments the result is at most 120, and it fails exactly when decoding or the filter fails or no smoothed sample is positive (the default percentiles never cause a failure) |
| DynamicRange.RouteIgnoresCase | dynamic_range.py:22 | a name and any upper- or mixed-case variant of it get the same decoder |
| DynamicRange.StandardExtensionRoutesStandard | dynamic_range.py:22-30 | a name ending (in any case) in `.jpg .jpeg .png .bmp .tif .tiff` goes to the standard decoder |
| DynamicRange.CalculateUsesRoutedDecoderOnly | dynamic_range.py:22-30 | the result depends only on the decoder the route chooses; replacing the other decoder changes nothing |
| DynamicRange.Positives | dynamic_range.py:37 | the low statistic's population holds only strictly positive samples, each with the multiplicity it has in the field, and is empty exactly when no sample is positive |
| DynamicRange.Statistics | dynamic_range.py:37-38 | fails exactly when no sample is positive or a percentile is outside [0, 100]; otherwise low is the percentile of the positive samples and high the percentile of all samples |
| DynamicRange.PositivesIgnoresNonPositive | dynamic_range.py:37 | inserting non-positive samples anywhere in the field leaves the positive population unchanged |
| DynamicRange.LowStatisticIgnoresNonPositive | dynamic_range.py:37 | inserting zero or negative samples never changes the low statistic, and never makes the statistics fail |
| DynamicRange.NoPositiveSampleFails | dynamic_range.py:37-55 | a smoothed field with no strictly positive sample makes the estimator return `None` |
| DynamicRange.NonZeroLow | dynamic_range.py:41-42 | the divisor after the guard is never zero; a non-zero low value passes unchanged and zero becomes exactly 1e-10 |
| DynamicRange.Clamp | dynamic_range.py:48-49 | the capped value never exceeds 120 and never exceeds its input; it equals the input whenever that is at most 120, and is 120 above it |
| DynamicRange.ClampMonotone | dynamic_range.py:48-49 | the cap is monotone non-decreasing |
| DynamicRange.NoFloor | dynamic_range.py:48-49 | no lower bound is applied: for every bound some successful call returns a value below it |
| DynamicRange.Calculate | dynamic_range.py:20-55 | every value the estimator returns is at most 120 |
| DynamicRange.CalculateCases | dynamic_range.py:20-55 | the estimator returns `None` exactly when decoding fails, the filter fails, no smoothed sample is positive, or a percentile is outside [0, 100]; otherwise it returns the capped 20·log10 ratio of high to the guarded low statistic |
| DynamicRange.CalculateBelowCeilingIsUnclamped | dynamic_range.py:45-51 | a successful result whose unclamped ratio is at most 120 is that ratio itself |
| DynamicRange.CalculateIgnoresBitsPerPixel | dynamic_range.py:6 | the result is the same for every `bits_per_pixel` |
| Cli.ImageExtensionsSplit | dynamic_range.py:59 | the twelve listed extensions are the six standard ones followed by the six raw ones |
| Cli.Selected | dynamic_range.py:59-62 | a name is processed exactly when its last four characters, lower-cased, are one of the ten four-character extensions, or its last five are `.jpeg` or `.tiff` |
| Cli.Truthy | dynamic_range.py:66 | a result is truthy exactly when it is neither `None` nor exactly 0.0 |
| Cli.SelectedIgnoresCase | dynamic_range.py:62 | a name and any case variant of it get the same selection decision |
| Cli.RawRoutedIsSelected | dynamic_range.py:59-62 | every name routed to the raw decoder is selected by the command line |
| Cli.SelectedIff | dynamic_range.py:59-62 | a name is selected exactly when it is raw-routed or ends (in any case) with a standard extension, and the latter go to the standard decoder |
| Cli.JoinPath | dynamic_range.py:63 | the joined path ends with the listed name |
| Cli.JoinKeepsRoute | dynamic_range.py:63-64 | joining a selected name onto the directory does not change which decoder reads it |
| Cli.Report | dynamic_range.py:61-67 | every printed line belongs to a listed, selected name whose result is exactly that non-zero value; no more lines than names |
| Cli.ReportAppend | dynamic_range.py:61-67 | lines come out in listing order: the report of a concatenated listing is the concatenation of the reports |
| Cli.ReportIff | dynamic_range.py:61-67 | a line is printed for a name if and only if it is listed, selected and its result is truthy |
| Cli.FalsyResultSkipped | dynamic_range.py:66-67 | a `None` result and a result of exactly 0.0 both print nothing |
| Cli.Run | dynamic_range.py:57-67 | every printed line is for a listed, selected name, carries that name's default-argument estimate on the joined path, and is non-zero and at most 120; no more lines than names |
| Cli.RunIff | dynamic_range.py:57-67 | the script prints a line for a name exactly when it is listed, selected and the default-argument estimate on the joined path is a non-zero number; every printed value is at most 120 |

## Left out

- Image decoding (`rawpy.imread`, `raw.postprocess`, `cv2.imread`) and the grayscale conversion (`cv2.cvtColor`), lines 23-30. These are foreign library calls on binary data. They are the `rawDecoder` and `standardDecoder` fields of `Env`, and a decoder that raises returns `None`. `cv2.imread` does not raise on an unreadable file: it returns `None`, and the exception comes from `gray.astype` on line 34. A `None` from `standardDecoder` stands for that case too. The monochrome-versus-colour branch of lines 24-28 is inside `rawDecoder`.
- The bilateral filter, line 34. It is floating-point numerics in a library, modelled as the `smooth` field of `Env`, which returns `None` when the filter raises. It receives the flattened samples; the image's width and height, which the real filter uses, are folded into that function.
- `np.percentile` and `np.log10` are assumed never to raise beyond the modelled cases (an empty population, a percentile outside [0, 100]). On float arrays `np.log10` only warns, and returns NaN or ±inf.
- `np.percentile`'s interpolation and `np.log10`. Both are uninterpreted `Env` fields, so the model proves nothing numeric about them: not that a constant field gives 0, that a ratio of 2^k gives about 6.02·k, or that a higher percentile never lowers the result.
- Floating point: samples and results are `real`. The model ignores float32/float64 rounding, NaN and ±inf. For example, `log10` of 0 gives `-inf`, and `min` behaves differently with NaN.
- `DynamicRange.Clamp`: Python's `min` returns the integer 120 when it caps. The model returns the same number as a `real`.
- Full Unicode `str.lower`. Only ASCII letters are lower-cased. That covers every listed extension.
- `os.listdir`, `os.path.abspath` and `print`, including the error message of line 54 and the two-decimal formatting of line 67. The listing is an injected sequence of names, and a printed line is a `Cli.Line` value.
- `Cli.JoinPath` follows POSIX `os.path.join` for two components only.
