# Convolution kernels and single-level transforms of pywt, in Dafny

This project models the C core of a pywt fork that computes one level of
the discrete wavelet transform, and proves what each routine computes.
It covers:

- **The extension kernels** (`pywt/_extensions/c/convolution.template.c`):
  - downsampling convolution in every edge mode, plus the periodization kernel that pads the row to a multiple of the step;
  - full reconstruction;
  - valid-part reconstruction, and its periodization variant;
  - `_upsampled_filter_convolution`, the filter dilated by a step over a row read around both edges.
- **The strided copy** (`pywt/src/convolution.template.c`): the same kernels, reading and writing through a stride.
- **The unified prototype** (`pywt/src/unified_convolution.c`): its three minimal reference loops and `unified_convolution`.
- **The Python reference** (`pywt/tests/test_convolution.py`): `edge_extend`, `upsample`, `downsample` and `unified_convolution`.
- **The buffer arithmetic** (`pywt/src/common.c`): buffer lengths and maximum levels.
- **The transforms** (`pywt/src/wt.template.c`): `downcoef_axis`, `downcoef`, `idwt_axis`, `idwt`, `dec_a/d`, `rec_a/d` and `swt_`/`swt_a/d`.

Samples are `real`. Every convolution has a single specification in `Extension.TapSum`: the filter applied at a centre `x` over the row extended in a mode. The one exception is the upsampled-filter kernel, whose wrap-around laps are periodic only when the step divides the row length. It is specified by its own order of taps (`UpsampledFilter.Outputs`) and proved equal to the dilated filter over the periodic extension in that case. Each mode is defined as follows:

- **zero padding**: zeros;
- **constant**: the edge sample;
- **smooth**: the edge sample continued with the edge slope;
- **periodic**: the row repeated;
- **symmetric**: the row mirrored, with the edge sample repeated.

The kernels, which loop over taps stage by stage, are imperative methods over an `array<real>` output. Their loop invariants tie every store or accumulation to `TapSum`. Four kinds of result are proved:

- `Downsampling.Downsampled` and `Downsampling.Periodized` state what the downsampling kernels write.
- `Upsampling.UpsampledFull`, `Upsampling.UpsampledValid` and `Upsampling.UpsampledPeriodized` state what the reconstruction kernels add, and `UpsampledFilter.Outputs` what the upsampled-filter kernel adds.
- The agreement lemmas in `ReferenceAgreement` show that the Python reference yields the same values.
- The lemmas in `Common` tie the buffer-length functions to those write counts.

The module structure follows the program:

| File | Models |
|---|---|
| `extension.dfy` | the edge modes |
| `taps.dfy` | the per-tap inner loops |
| `writes.dfy` | runs of stores and accumulations |
| `downsampling.dfy`, `upsampling.dfy` | the staged kernels |
| `upsampled_filter.dfy` | `_upsampled_filter_convolution` |
| `ext_convolution.dfy`, `src_convolution.dfy` | the two kernel files |
| `reference.dfy`, `reference_agreement.dfy` | the Python reference |
| `prototype.dfy` | `unified_convolution.c` |
| `common.dfy` | `common.c` |
| `layout.dfy`, `axis_transform.dfy`, `transform.dfy` | `wt.template.c` |

A `size_t` is modelled as a natural number below `2^64`; where the C relies on unsigned wrap-around (the buffer-length adjustments), the wrap is written out.

## Model

| member | source | states |
|---|---|---|
| Extension.KernelMode | pywt/_extensions/c/convolution.template.c:122-123 | a one-sample row in smooth mode falls back to constant edges, no other mode changes, and the resulting mode is defined on every row of that length |
| Extension.WrapMod | pywt/_extensions/c/convolution.template.c:151-157 | the sample the periodic edge loops read at an offset is the Euclidean residue of that offset modulo `N` |
| Extension.ReflectMod | pywt/_extensions/c/convolution.template.c:132-140 | the sample the symmetric edge loops read is the residue modulo `2N`, mirrored in its upper half |
| Extension.LeftExt | pywt/_extensions/c/convolution.template.c:128-160 | walking left of the row, the k-th sample each mode's left-edge loop reads is the mode's extension at `-(k+1)` |
| Extension.RightExt | pywt/_extensions/c/convolution.template.c:176-210 | walking right of the row, the k-th sample each right-edge loop reads is the extension at `N + k` |
| Extension.PeriodicExt | pywt/_extensions/c/convolution.template.c:151-157 | the periodic extension is the residue lookup `a[x mod N]` everywhere, inside the row included |
| Extension.Padded | pywt/_extensions/c/convolution.template.c:41-55 | the periodization kernel's row is the input followed by `padding` copies of its last sample |
| Extension.TapSumInRow | pywt/_extensions/c/convolution.template.c:165-171 | when every tap falls inside the row, every mode gives the plain zero-padded sum of the row |
| Extension.ZeroPadRowSum | pywt/_extensions/c/convolution.template.c:158-160 | zero-padding extension is the zero-padded sum wherever the taps fall |
| Extension.TapSumAgree | pywt/_extensions/c/convolution.template.c:125-291 | two extensions that agree on every sample a tap range reads give the same sum |
| Extension.StoresView | pywt/src/convolution.template.c:108-118 | a strided row `input[k * stride]` is exactly its view as a sequence of `N` samples |
| Taps.AddInside | pywt/_extensions/c/convolution.template.c:127-129 | the `j <= i` tap loop adds the zero-padded sum of the taps inside the row |
| Taps.AddLeft | pywt/_extensions/c/convolution.template.c:131-160 | the left-edge switch adds exactly the taps `i+1 .. F-1`, read from the mode's extension left of the row, for all five modes |
| Taps.AddLeftSmooth | pywt/_extensions/c/convolution.template.c:145-150 | the smooth left edge adds the taps left of the row against `a[0] + k(a[0] - a[1])` |
| Taps.AddRight | pywt/_extensions/c/convolution.template.c:176-212 | the right-edge switch adds exactly the taps `0 .. i-N`, read from the mode's extension right of the row; zero padding skips them |
| Taps.AddRightSmooth | pywt/_extensions/c/convolution.template.c:195-200 | the smooth right edge adds the taps right of the row and returns the next tap index `i - N + 1` |
| Taps.AddLeftPeriodized | pywt/_extensions/c/convolution.template.c:48-54 | the periodization left edge, which walks the padding then the row backwards, adds the periodic extension of the padded row |
| Taps.AddRightPeriodized | pywt/_extensions/c/convolution.template.c:92-97 | the periodization right edge, which walks the padding then the row forwards, adds the periodic extension of the padded row |
| Writes.StoredAt | pywt/_extensions/c/convolution.template.c:162 | after a run of `output[at] = v` stores, each slot holds the last value stored to it |
| Writes.AddedAt | pywt/_extensions/c/convolution.template.c:317-318 | after a run of `output[at] += v` accumulations, each slot holds its old value plus everything added to it |
| Writes.StridedSumAt | pywt/src/convolution.template.c:322-323 | accumulating value `p` at slot `p * stride` gives each strided slot its own value and every other slot nothing |
| Writes.StoredContiguous | pywt/_extensions/c/convolution.template.c:162 | with unit stride the stores replace a prefix of the buffer and keep the rest |
| Writes.AddedContiguous | pywt/_extensions/c/convolution.template.c:317-318 | with unit stride each value is added to its own slot and the rest is kept |
| Downsampling.Downsampled | pywt/_extensions/c/convolution.template.c:107-292 | one output for each centre `step - 1 + o * step` below `N + F - 1`, the number of values the kernel stores |
| Downsampling.Periodized | pywt/_extensions/c/convolution.template.c:36-104 | `⌈N/step⌉` outputs, one for each `step` samples of the padded row, the number of values the kernel stores |
| Downsampling.LeftOutput | pywt/_extensions/c/convolution.template.c:125-163 | a stage-1 output (`i < F`, `i < N`) is the full tap sum at `i` in the kernel's mode |
| Downsampling.InnerOutput | pywt/_extensions/c/convolution.template.c:165-171 | a stage-2 output (`F <= i+1`, `i < N`) is the full tap sum, all taps inside the row |
| Downsampling.BothOutput | pywt/_extensions/c/convolution.template.c:173-249 | a stage-3 output, whose taps overhang both edges, is the full tap sum |
| Downsampling.RightOutput | pywt/_extensions/c/convolution.template.c:251-290 | a stage-4 output (right edge, then inside) is the full tap sum |
| Downsampling.PeriodizedLeftOutput | pywt/_extensions/c/convolution.template.c:43-56 | periodization stage 1 computes the periodic tap sum of the padded row |
| Downsampling.PeriodizedBothOutput | pywt/_extensions/c/convolution.template.c:66-87 | periodization stage 3 computes the periodic tap sum of the padded row |
| Downsampling.PeriodizedRightOutput | pywt/_extensions/c/convolution.template.c:89-102 | periodization stage 4 computes the periodic tap sum of the padded row |
| Downsampling.StageSlot | pywt/src/convolution.template.c:125-172 | store `o` of a staged loop lands at `o * inner` from the middle stage and at `o * stride` otherwise, always inside the buffer |
| Downsampling.DownStep | pywt/_extensions/c/convolution.template.c:125-291 | one iteration of any stage stores the next downsampled value in its slot and advances the loop state |
| Downsampling.DownLeftStage | pywt/_extensions/c/convolution.template.c:125-163 | stage 1 keeps the loop invariant and leaves with `F <= i` or `N <= i` |
| Downsampling.DownInnerStage | pywt/_extensions/c/convolution.template.c:165-171 | stage 2 keeps the invariant and leaves with `N <= i` |
| Downsampling.DownBothStage | pywt/_extensions/c/convolution.template.c:173-249 | stage 3 keeps the invariant and leaves with `F <= i` |
| Downsampling.DownRightStage | pywt/_extensions/c/convolution.template.c:251-290 | stage 4 keeps the invariant and leaves past the last centre `N + F - 2` |
| Downsampling.DownsamplingKernel | pywt/_extensions/c/convolution.template.c:122-291 | the four stages together store every downsampled output in its slot and change nothing else |
| Downsampling.PerStep | pywt/_extensions/c/convolution.template.c:43-102 | one iteration of any periodization stage stores the next value in its slot |
| Downsampling.PerLeftStage | pywt/_extensions/c/convolution.template.c:43-56 | periodization stage 1 keeps the loop invariant |
| Downsampling.PerInnerStage | pywt/_extensions/c/convolution.template.c:58-64 | periodization stage 2 keeps the invariant and leaves with `N <= i` |
| Downsampling.PerBothStage | pywt/_extensions/c/convolution.template.c:66-87 | periodization stage 3 keeps the invariant |
| Downsampling.PerRightStage | pywt/_extensions/c/convolution.template.c:89-102 | periodization stage 4 keeps the invariant and leaves past `N + F/2 - 1` |
| Downsampling.PeriodizationKernel | pywt/_extensions/c/convolution.template.c:40-103 | the periodization loops store every periodized output in its slot and change nothing else |
| Upsampling.UpsampledFull | pywt/_extensions/c/convolution.template.c:294-346 | the full reconstruction has `2N + F - 2` outputs |
| Upsampling.UpsampledValid | pywt/_extensions/c/convolution.template.c:461-490 | the valid part has `2(N - F/2 + 1)` outputs, or none when `F/2 = 0`, where the unsigned start index wraps |
| Upsampling.UpsampledPeriodized | pywt/_extensions/c/convolution.template.c:349-450 | the periodization reconstruction has one output per slot `0 .. 2N-1` |
| Upsampling.FullPairStep | pywt/_extensions/c/convolution.template.c:314-344 | one outer step accumulates the even and odd phase sums of its tap range into slots `o` and `o+1` |
| Upsampling.FullKernel | pywt/_extensions/c/convolution.template.c:314-345 | the four stage loops add every full-reconstruction output into slot `q * stride` and change nothing else |
| Upsampling.PhaseSums | pywt/_extensions/c/convolution.template.c:477-483 | the inner loop yields both phase sums of position `i` |
| Upsampling.ValidPairStep | pywt/_extensions/c/convolution.template.c:477-487 | one step extends the accumulated prefix of the valid part by two outputs |
| Upsampling.ValidKernel | pywt/_extensions/c/convolution.template.c:474-489 | the loop adds every valid-part output into its slot and changes nothing else |
| Upsampling.PairLeftPeriodic | pywt/_extensions/c/convolution.template.c:395-400 | the wrapping left-edge loop adds, to both slots, the periodic phase sums of the taps left of the row |
| Upsampling.PairRightPeriodic | pywt/_extensions/c/convolution.template.c:414-419 | the wrapping right-edge loop adds the periodic phase sums of the taps right of the row and returns the next tap |
| Upsampling.PeriodizedStep | pywt/_extensions/c/convolution.template.c:389-447 | one step of any periodization stage accumulates both periodic phase sums into slots `o` and `o+1` |
| Upsampling.PeriodizedHead | pywt/_extensions/c/convolution.template.c:362-387 | with even `F/2`, the prelude accumulates the shifted pair into slots `2N-1` and `0`, and the loop then starts one slot on |
| Upsampling.PeriodizedKernel | pywt/_extensions/c/convolution.template.c:360-449 | the prelude and stage loops add every periodization output into slot `q * stride`, in the source's order; the order does not change the sums |
| ExtConvolution.ExtPadding | pywt/_extensions/c/convolution.template.c:41 | the padding is below `step` and makes `N + padding` a multiple of `step` |
| ExtConvolution.DownsamplingConvolutionPeriodization | pywt/_extensions/c/convolution.template.c:36-104 | returns 0 and replaces the front of the buffer by the periodized outputs |
| ExtConvolution.DownsamplingConvolution | pywt/_extensions/c/convolution.template.c:107-292 | dispatches periodization; otherwise returns 0 with the front of the buffer replaced by the downsampled outputs in the kernel's mode |
| ExtConvolution.ContiguousStages | pywt/_extensions/c/convolution.template.c:162 | with unit stride every stage stores output `o` at `o`, so the values replace a prefix |
| ExtConvolution.UpsamplingConvolutionFull | pywt/_extensions/c/convolution.template.c:294-346 | returns -1 below two taps and -3 for an odd filter, writing nothing; otherwise adds the full reconstruction onto the front |
| ExtConvolution.UpsamplingConvolutionValidSfPeriodization | pywt/_extensions/c/convolution.template.c:349-450 | returns -3 for an odd filter, writing nothing; otherwise adds the periodization reconstruction onto slots `0 .. 2N-1` |
| ExtConvolution.UpsamplingConvolutionValidSf | pywt/_extensions/c/convolution.template.c:461-490 | dispatches periodization; otherwise returns -1 for an odd filter or `N < F/2`, writing nothing, or adds the valid part onto the front |
| UpsampledFilter.NotLeftBelow | pywt/_extensions/c/convolution.template.c:502 | the in-row loop `j * step <= i` runs exactly for the first `i / step + 1` taps |
| UpsampledFilter.BeyondBelow | pywt/_extensions/c/convolution.template.c:517 | the guard `i - j * step >= N` holds exactly for the first `(i - N) / step + 1` taps, and for none when `i < N` |
| UpsampledFilter.BeyondBounds | pywt/_extensions/c/convolution.template.c:515-538 | the taps right of the row come before the taps left of it, and there are at most `F` of them while `i < N + F * step` |
| UpsampledFilter.LapWithin | pywt/_extensions/c/convolution.template.c:506 | a lap from `k0 < N` has at least one position, and its position `q` is inside the row exactly when `q` is below the lap's length |
| UpsampledFilter.LapStep | pywt/_extensions/c/convolution.template.c:519 | one step `k += step, ++j` keeps `k` on lap position `j mod m`, and a lap that runs off the row restarts |
| UpsampledFilter.RightTerm | pywt/_extensions/c/convolution.template.c:519-520 | a tap right of the row multiplies lap sample `k` by filter tap `(i - N) / step - j`, which lies inside the filter |
| UpsampledFilter.InRowTerm | pywt/_extensions/c/convolution.template.c:502-503 | a tap inside the row multiplies sample `i - j * step`, which lies inside the row, by filter tap `j` |
| UpsampledFilter.LeftTerm | pywt/_extensions/c/convolution.template.c:506-507 | a tap left of the row multiplies sample `N - 1 - k` of the backward lap by filter tap `j` |
| UpsampledFilter.RightLap | pywt/_extensions/c/convolution.template.c:519-520 | one lap right of the row adds the next terms of output `o` and stops at the end of the lap or of the taps right of the row |
| UpsampledFilter.RightWrap | pywt/_extensions/c/convolution.template.c:517-521 | the laps right of the row add exactly the first `(i - N) / step + 1` terms |
| UpsampledFilter.InRowToCentre | pywt/_extensions/c/convolution.template.c:502-503 | the in-row loop adds every term up to the first tap left of the row |
| UpsampledFilter.InRowToEnd | pywt/_extensions/c/convolution.template.c:537-538 | with the whole filter right of the row's start, the loop adds every remaining term |
| UpsampledFilter.LeftLap | pywt/_extensions/c/convolution.template.c:526-527 | one lap left of the row adds the next terms and stops at the end of the lap or of the filter |
| UpsampledFilter.LeftWrap | pywt/_extensions/c/convolution.template.c:524-528 | the laps left of the row add every remaining term |
| UpsampledFilter.LeftEdgeOutput | pywt/_extensions/c/convolution.template.c:500-509 | an output of the first run accumulates its whole sum into slot `o` |
| UpsampledFilter.InteriorOutput | pywt/_extensions/c/convolution.template.c:510-514 | an output of the second run accumulates its whole sum into slot `o` |
| UpsampledFilter.BothEdgesOutput | pywt/_extensions/c/convolution.template.c:515-529 | an output of the third run accumulates its whole sum into slot `o` |
| UpsampledFilter.RightEdgeOutput | pywt/_extensions/c/convolution.template.c:530-539 | an output of the last run accumulates its whole sum into slot `o` |
| UpsampledFilter.LeftEdgeRun | pywt/_extensions/c/convolution.template.c:500-509 | the first run keeps the invariant and stops at `F * step` or `N` |
| UpsampledFilter.InteriorRun | pywt/_extensions/c/convolution.template.c:510-514 | the second run keeps the invariant and stops at `N` |
| UpsampledFilter.BothEdgesRun | pywt/_extensions/c/convolution.template.c:515-529 | the third run keeps the invariant and stops at `F * step` or `N + start` |
| UpsampledFilter.RightEdgeRun | pywt/_extensions/c/convolution.template.c:530-539 | the last run keeps the invariant and stops after output `N - 1` |
| UpsampledFilter.UpsampledFilterConvolution | pywt/_extensions/c/convolution.template.c:492-541 | returns 0 after adding one output per sample of the row onto `output[0 .. N-1]`: output `o` is the filter dilated by `step` around centre `F * step / 2 - shift + o`, in the kernel's order of taps |
| UpsampledFilter.PeriodicTerm | pywt/_extensions/c/convolution.template.c:500-539 | when `step` divides `N`, every tap the kernel reads is a tap of the dilated filter over the periodic extension; the taps right of the row come in reverse order |
| UpsampledFilter.RightTermsReversed | pywt/_extensions/c/convolution.template.c:517-521 | when `step` divides `N`, the taps right of the row sum to the first `(i - N) / step + 1` periodic taps |
| UpsampledFilter.TermsArePeriodic | pywt/_extensions/c/convolution.template.c:500-539 | when `step` divides `N`, the kernel's running sum equals the periodic dilated sum from the last tap right of the row onwards |
| UpsampledFilter.UpsampledFilterPeriodic | pywt/_extensions/c/convolution.template.c:492-541 | when `step` divides `N`, output `o` is the filter dilated by `step` over the periodically extended row, centred on `F * step / 2 - shift + o` |
| UpsampledFilter.UpsampledFilterIsSwt | pywt/_extensions/c/convolution.template.c:492-541 | at level `L` on a row divisible by `2^L`, the kernel with `step = 2^(L-1)` and no shift computes the stationary transform's output |
| UpsampledFilter.UnevenRowIsNotPeriodic | pywt/_extensions/c/convolution.template.c:519-520 | when `step` does not divide `N` (`N = 3`, `step = 2`), the laps wrap sample 4 to sample 0, while the periodic extension reads sample 1 |
| SrcConvolution.SrcPadding | pywt/src/convolution.template.c:41 | the padding is one sample for odd `N` and none otherwise, whatever the step |
| SrcConvolution.DownsamplingConvolutionPeriodization | pywt/src/convolution.template.c:36-105 | as written: the middle stage stores output `o` at `output[o]` and the other stages at `output[o * stride]` |
| SrcConvolution.DownsamplingConvolution | pywt/src/convolution.template.c:108-296 | as written: the downsampled outputs, with the middle stage storing at `output[o]` |
| SrcConvolution.DownsamplingConvolutionPeriodizationStrided | pywt/src/convolution.template.c:36-105 | corrected: every periodized output `o` is stored at `o * stride` |
| SrcConvolution.DownsamplingConvolutionStrided | pywt/src/convolution.template.c:108-296 | corrected: every output `o` is stored at `o * stride` in every mode |
| SrcConvolution.UpsamplingConvolutionFull | pywt/src/convolution.template.c:298-351 | returns -1 below two taps, writing nothing; otherwise adds the full reconstruction at `q * stride` |
| SrcConvolution.FullOddFilter | pywt/src/convolution.template.c:298-351 | with no parity check, an odd filter's last tap is never read, so the result is that of its even prefix |
| SrcConvolution.UpsamplingConvolutionValidSfPeriodization | pywt/src/convolution.template.c:354-456 | returns -3 for an odd filter, writing nothing; otherwise adds the periodization reconstruction at `q * stride` |
| SrcConvolution.UpsamplingConvolutionValidSf | pywt/src/convolution.template.c:467-497 | the status of the extension kernel, and the valid part added at `q * stride` |
| SrcConvolution.UpsampledFilterConvolution | pywt/src/convolution.template.c:500-506 | the stub refuses every call with -1 and writes nothing |
| SrcConvolution.MiddleStageStores | pywt/src/convolution.template.c:165-172 | with centres 1 and 3, the middle-stage store goes to slot 1 and leaves slot 2 stale; stored with the stride, it lands at 2 |
| SrcConvolution.MiddleStageMisplaced | pywt/src/convolution.template.c:165-172 | on a four-sample row with a two-tap filter, step 2 and stride 2, output 1 overwrites slot 1 and never reaches slot 2 |
| Reference.Upsampled | pywt/tests/test_convolution.py:49-52 | `upsample(a, s)` has `len(a) * s` samples |
| Reference.Upsample | pywt/tests/test_convolution.py:49-52 | zeros, then `r[::s] = a`, gives `Upsampled` |
| Reference.UpsampledStuffed | pywt/tests/test_convolution.py:49-52 | the upsampled row holds `a` with `s - 1` zeros after every sample |
| Reference.UpsampledSlots | pywt/tests/test_convolution.py:49-52 | sample `i` lands at `i * s`, and every slot not a multiple of `s` is zero |
| Reference.UpsampledOne | pywt/tests/test_convolution.py:49-52 | upsampling by 1 changes nothing |
| Reference.Downsample | pywt/tests/test_convolution.py:46-47 | `a[s-1::s]` has `len(a) / s` samples |
| Reference.DownsampleUnit | pywt/tests/test_convolution.py:46-47 | downsampling by 1 changes nothing |
| Reference.DownsampleUpsampled | pywt/tests/test_convolution.py:46-52 | for `s > 1`, downsampling an upsampled row keeps its length but returns only zeros: it does not undo upsampling |
| Reference.ModeOf | pywt/tests/test_convolution.py:14-42 | the five recognised mode names never select periodization |
| Reference.EdgeExtension | pywt/tests/test_convolution.py:8-44 | `edge_extend` gives `len(a) * u + n0 + n1` samples |
| Reference.LeadSlotAt | pywt/tests/test_convolution.py:12 | the k-th slot of `reversed(range(u-1, n0, u))` is unique |
| Reference.TrailSlotAt | pywt/tests/test_convolution.py:13 | the k-th slot of `range(-n1, 0, u)` is unique |
| Reference.FillLeading | pywt/tests/test_convolution.py:16-35 | the leading fill loops give every leading slot the mode's value, counted outward from the core |
| Reference.LeadNext | pywt/tests/test_convolution.py:17-35 | the leading iterators yield each mode's left extension in order |
| Reference.FillTrailing | pywt/tests/test_convolution.py:21-40 | the trailing fill loops give every trailing slot the mode's value |
| Reference.TrailNext | pywt/tests/test_convolution.py:21-39 | the trailing iterators yield each mode's right extension in order |
| Reference.CoreSlice | pywt/tests/test_convolution.py:10 | `r[n0:-n1]` is exactly the core for a trailing pad `n1 >= 1`, and empty for `n1 = 0`; the core fits it exactly when `n1 >= 1` or the core has at most one sample |
| Reference.BroadcastIsExtensionWithoutCore | pywt/tests/test_convolution.py:10-26 | with a trailing pad of 0, a one-sample core is the extension with its core slot left at 0, and in constant mode the whole extension |
| Reference.FillBroadcast | pywt/tests/test_convolution.py:12-40 | after a one-sample core broadcast into an empty slice, the fill loops give the leading slots their values and leave the core at 0, except that constant mode's `r[-0::u]` sets every slot |
| Reference.EdgeExtend | pywt/tests/test_convolution.py:8-44 | an unknown mode, an upsampling factor of 0, or a trailing pad of 0 with a core of two or more samples, raises `ValueError`; a one-sample core with a trailing pad of 0 is broadcast; otherwise the result is `EdgeExtension` |
| Reference.EdgeZeroPad | pywt/tests/test_convolution.py:9-15 | for zero padding, the core between zeros is the whole extension |
| Reference.ConvolveValid | pywt/tests/test_convolution.py:61 | `numpy.convolve(..., 'valid')` has `len(x) - len(f) + 1` outputs |
| Reference.ConvolveValidInRow | pywt/tests/test_convolution.py:61 | each valid output is the tap sum with the whole filter inside `x`, whatever the extension mode |
| Reference.Unified | pywt/tests/test_convolution.py:54-63 | the output length is `(len(a) * iu + F * fu - iu) / od` |
| Reference.UnifiedCoreFits | pywt/tests/test_convolution.py:57-60 | the extended core fits `r[F'-1 : -(F'-iu)]` exactly when the dilated filter `F'` is longer than `iu`, or as long with a one-sample core |
| Reference.OneTap | pywt/tests/test_convolution.py:57-60 | a one-sample core with `F' = iu` means one sample, one tap and no upsampling |
| Reference.OneSampleConvolved | pywt/tests/test_convolution.py:60-61 | the broadcast one-sample row convolved with one tap is 0, or the product in constant mode |
| Reference.ConvolveOne | pywt/tests/test_convolution.py:61 | the valid convolution of one sample with one tap is their product |
| Reference.UnifiedConvolution | pywt/tests/test_convolution.py:54-63 | raises `ValueError` exactly when the mode is unknown, `F' < iu`, or `F' = iu` with a core of two or more samples; with `F' = iu` and one sample the result is 0, or `filter[0] * input[0]` in constant mode |
| Reference.UnifiedOneSample | pywt/tests/test_convolution.py:54-63 | `unified_convolution([5.], [2.])` gives `[0.]`, and `[10.]` in constant mode |
| ReferenceAgreement.UnitConvolved | pywt/tests/test_convolution.py:57-61 | without upsampling, the valid convolution of the extended row is the tap sum over the mode's extension |
| ReferenceAgreement.UnifiedNamed | pywt/tests/test_convolution.py:54-63 | a recognised name with a trailing pad returns the convolution for that mode |
| ReferenceAgreement.UnifiedUnit | pywt/tests/test_convolution.py:57-63 | without upsampling, `unified_convolution` convolves the row extended by `F - 1` on each side |
| ReferenceAgreement.DownsamplingAgrees | pywt/_extensions/c/convolution.template.c:107-292 | `unified_convolution(a, f, output_downsampling=step)` equals what the downsampling kernel writes, in every recognised mode, for `F >= 2` |
| ReferenceAgreement.PeriodizationAgrees | pywt/_extensions/c/convolution.template.c:36-104 | the periodization kernel's output `o` is output `F/2 + o * step` of the padded row's periodic reference convolution |
| ReferenceAgreement.UpsampledRowSum | pywt/tests/test_convolution.py:57-61 | on a row upsampled by 2, only the taps of phase `q mod 2` meet samples, and they read the row at `q/2` downwards |
| ReferenceAgreement.UnifiedTwo | pywt/tests/test_convolution.py:57-61 | with the input upsampled by 2, the reference convolves the row extended by `F - 1` and `F - 2` slots |
| ReferenceAgreement.FullAgrees | pywt/_extensions/c/convolution.template.c:294-346 | `unified_convolution(a, f, input_upsampling=2, mode='zero-pad')` is the full reconstruction, for every even `F >= 4` |
| ReferenceAgreement.ValidIsMiddleOfFull | pywt/_extensions/c/convolution.template.c:461-490 | the valid part is the full reconstruction with `F/2 - 1` pairs dropped at each end |
| ReferenceAgreement.PeriodicEdge | pywt/tests/test_convolution.py:16-23 | with an odd leading pad, the periodic extension around an upsampled row is the upsampled row's periodic extension |
| ReferenceAgreement.PeriodizedSlot | pywt/_extensions/c/convolution.template.c:349-450 | slot `q` of the periodization reconstruction is output `q + F/2 - 1` of the periodic convolution of the upsampled row |
| ReferenceAgreement.PeriodizedAgrees | pywt/_extensions/c/convolution.template.c:349-450 | `unified_convolution(a, f, input_upsampling=2, mode='periodic')` contains the periodization reconstruction as its `2N` outputs from `F/2 - 1` |
| Prototype.CeilDiv | pywt/src/unified_convolution.c:43-45 | the least `q` with `q * d >= n` |
| Prototype.CeilDivLeast | pywt/src/unified_convolution.c:43-45 | no smaller multiple covers `n`, and `ceil_div(N, step)` counts the periodization outputs |
| Prototype.AccumulateRow | pywt/src/unified_convolution.c:19-20 | one output slot gains the interior filter sum, and no other slot changes |
| Prototype.ReferenceDownsampling | pywt/src/unified_convolution.c:12-21 | each interior centre `F + s - 1 + i*s` adds its filter sum to slot `i + (F+s-1)/2`, and nothing else changes |
| Prototype.ReferenceDownsamplingAgrees | pywt/src/unified_convolution.c:12-21 | at step 2 with an even filter, the reference writes the extension kernel's interior outputs into their own slots |
| Prototype.ReferenceUpsampling | pywt/src/unified_convolution.c:23-31 | slot `q` gains the step sum of row `q / s`, phase `q mod s` |
| Prototype.StepSumPhase | pywt/src/unified_convolution.c:28-30 | at `s = 2`, phase `r` of a step sum is the phase-`r` filter over the row |
| Prototype.ReferenceUpsamplingAgrees | pywt/src/unified_convolution.c:23-31 | at `s = 2` with an even filter, the reference adds exactly the valid-part reconstruction of the extension kernel |
| Prototype.AccumulateDilated | pywt/src/unified_convolution.c:39-40 | one slot gains the sum of the filter spread `fs` apart |
| Prototype.ReferenceUpsampledFilter | pywt/src/unified_convolution.c:33-41 | each centre `i + F*fs` adds the dilated filter sum to slot `i + F*fs/2`, and nothing else changes |
| Prototype.DilatedIsUpsampled | pywt/src/unified_convolution.c:33-41 | a filter spread `fs` apart is the zero-padded sum of the Python `upsample(filter, fs)` |
| Prototype.MirrorTap | pywt/src/unified_convolution.c:112-118 | the residue-and-mirror read is the symmetric extension right of the row |
| Prototype.AddRightMirror | pywt/src/unified_convolution.c:111-120 | the symmetric right edge adds the taps right of the row |
| Prototype.AddRightWrap | pywt/src/unified_convolution.c:130-134 | the periodic right edge adds the taps right of the row |
| Prototype.AddRightEdge | pywt/src/unified_convolution.c:110-138 | the right-edge switch adds the taps `0 .. x - I` in every mode |
| Prototype.RightEdgeOutput | pywt/src/unified_convolution.c:108-142 | one output of the last loop is the full tap sum at its centre |
| Prototype.NextSlot | pywt/src/unified_convolution.c:54-57 | centres are `od` apart, and output `o` exists while its centre is below `I + F - 1` |
| Prototype.LeftStage | pywt/src/unified_convolution.c:60-99 | the first loop keeps the invariant and stops at `F`, `I` or `O` |
| Prototype.InnerStage | pywt/src/unified_convolution.c:101-103 | the second loop keeps the invariant and stops at `I` or `O` |
| Prototype.RightStage | pywt/src/unified_convolution.c:108-142 | the third loop keeps the invariant and stops past the last centre or at `O` |
| Prototype.UnifiedConvolution | pywt/src/unified_convolution.c:47-145 | at `iu = fu = 1`, slot `o < O` gains the downsampled output the extension kernel stores; periodization reads zeros |
| Common.DwtBufferLength | pywt/src/common.c:36-46 | 0 for an empty signal or filter; otherwise exactly the step-2 kernel's write count, `⌈N/2⌉` for periodization |
| Common.DwtBufferLengthO | pywt/src/common.c:48-62 | one less than `DwtBufferLength`, except for the approximation of an odd `N`; wraps to `2^64 - 1` at `N = F = 1` for the detail |
| Common.DwtBufferLengthOShort | pywt/src/common.c:48-62 | a buffer of this length is one slot short of what the kernel writes (`N = 4`, `F = 2`, detail: 1 vs 2) |
| Common.DwtBufferLengthOPeriodizedShort | pywt/src/common.c:54-58 | in periodization the detail length of an odd row is `N/2`, one slot short of the `⌈N/2⌉` values the periodization kernel writes (`N = 3`: 1 vs 2) |
| Common.ReconstructionBufferLength | pywt/src/common.c:64-69 | 0 for empty inputs; for an even filter, the full reconstruction's write count |
| Common.IdwtBufferLength | pywt/src/common.c:71-78 | `2C` for periodization, the valid part's write count otherwise, with the unsigned wrap when `F > 2C + 2` |
| Common.IdwtBufferLengthO | pywt/src/common.c:80-106 | 0 for rows that cannot be paired; otherwise the longer row's length with the `A - D` adjustment, wrapped as a `size_t` |
| Common.IdwtBufferLengthOShort | pywt/src/common.c:80-106 | for every valid pairing, one slot short of what the valid-part kernel writes (`A = D = 2`, `F = 2`: 3 vs 4) |
| Common.IdwtBufferLengthOPeriodizedShort | pywt/src/common.c:93-101 | in periodization with `A = D + 1`, the length is `2A - 1`, one slot short of the `2A` values the periodization kernel writes (`A = 3`, `D = 2`: 5 vs 6) |
| Common.IdwtOutputLength | pywt/src/common.c:80-106 | corrected: under the same pairing rules, exactly the reconstruction kernels' write count |
| Common.SwtBufferLength | pywt/src/common.c:108-110 | a stationary step writes as many outputs as the input has |
| Common.UintLog2 | pywt/src/common.c:21-31 | `2^r <= x < 2^(r+1)` |
| Common.Log2Unique | pywt/src/common.c:21-31 | the bracketing exponent is unique and below 64 for a `size_t` |
| Common.DwtMaxLevelAsWritten | pywt/src/common.c:112-117 | as written: undefined exactly when `1 <= N < F - 1` (`uint_log2(0)`), and otherwise the corrected level |
| Common.QuotientZero | pywt/src/common.c:116 | `N / (F - 1)` is 0 exactly when `N < F - 1` |
| Common.DwtMaxLevelShortSignal | pywt/src/common.c:112-117 | `N = 3`, `F = 8` reaches `uint_log2(0)`; the corrected level is 0 |
| Common.DwtMaxLevel | pywt/src/common.c:112-117 | corrected: 0 for an empty signal, a filter under two taps or a signal shorter than `F - 1`; otherwise the largest `L` with `(F-1) * 2^L <= N` |
| Common.SwtMaxLevel | pywt/src/common.c:119-129 | the exponent of the largest power of two dividing `N` (0 for `N = 0`), below 64 |
| Layout.NumLoops | pywt/src/wt.template.c:57-61 | the loop count is the product of every extent but the axis's |
| Layout.UnravelInShape | pywt/src/wt.template.c:69-81 | every row number unravels to an index tuple inside the shape, with 0 on the axis, and ravels back |
| Layout.RavelInRange | pywt/src/wt.template.c:69-81 | every such index tuple is the unravelling of a row number below the loop count |
| Layout.UnravelInjective | pywt/src/wt.template.c:69-81 | different row numbers give different rows |
| Layout.RowOffset | pywt/src/wt.template.c:69-81 | the offset loop computes the stride-weighted offset of the row's index tuple |
| Layout.GatherRow | pywt/src/wt.template.c:85-89 | the copy to a temporary gathers the strided row into a fresh contiguous buffer |
| Layout.ScatterRow | pywt/src/wt.template.c:113-118 | the copy from a temporary stores the row back with the array's stride and changes nothing else |
| Layout.WrittenAt | pywt/src/wt.template.c:113-118 | with a non-zero stride, every position of the row holds its value and every other element keeps its old one |
| Layout.RowsLand | pywt/src/wt.template.c:63-119 | with disjoint rows, once all rows are written, place `j` of row `k` holds `rows[k][j]` |
| Layout.RowsKeep | pywt/src/wt.template.c:63-119 | with disjoint rows, a position outside every row keeps its old value |
| AxisTransform.DecCheck | pywt/src/wt.template.c:31-47 | the check result is exactly the conformance predicate: equal rank, axis in range, equal extents off the axis, and the coefficient count on it |
| AxisTransform.DowncoefAxis | pywt/src/wt.template.c:20-129 | 1 exactly when the arrays do not conform; 2 only for a strided axis; otherwise 0, with every output row holding its input row's coefficients |
| AxisTransform.DowncoefAxisRows | pywt/src/wt.template.c:63-119 | place `j` of output row `r` holds coefficient `j` of input row `r` |
| AxisTransform.DowncoefAxisOneRow | pywt/src/wt.template.c:20-129 | on a contiguous one-dimensional array, `downcoef_axis` is the single-row decomposition |
| AxisTransform.IdwtCheck | pywt/src/wt.template.c:174-194 | the check result is exactly the conformance predicate for the present arrays |
| AxisTransform.ReconstructInto | pywt/src/wt.template.c:252-274 | the zeroed row plus the present rows' valid-part reconstructions |
| AxisTransform.IdwtAxis | pywt/src/wt.template.c:156-294 | 3 exactly when neither array is present; 1 exactly when a present array does not conform; otherwise 0 with every output row reconstructed from its coefficient rows, or 2 on an allocation failure, which can only happen when the arrays conform and an axis is strided (the source allocates its temporary rows only then) |
| AxisTransform.IdwtAxisRows | pywt/src/wt.template.c:213-285 | place `j` of output row `r` holds value `j` of the reconstruction from coefficient row `r` of each present array |
| Transform.DecomposedLength | pywt/src/wt.template.c:343-357 | a buffer that passes the `dwt_buffer_length` check is filled exactly to its end |
| Transform.Decompose | pywt/src/wt.template.c:343-357 | a wrong buffer length gives -1 and writes nothing; otherwise 0 with the buffer holding the decomposition |
| Transform.DecA | pywt/src/wt.template.c:343-357 | the approximation, computed with the decomposition low-pass filter |
| Transform.DecD | pywt/src/wt.template.c:362-375 | the detail, computed with the decomposition high-pass filter |
| Transform.Downcoef | pywt/src/wt.template.c:132-153 | the coefficient picks the filter, and the result is checked against the corrected length |
| Transform.Reconstruct | pywt/src/wt.template.c:380-392 | a wrong length gives -1; otherwise the kernel's status, with the full reconstruction added on success |
| Transform.ReconstructedLength | pywt/src/wt.template.c:385-388 | a buffer passing the length check is exactly as long as the full reconstruction |
| Transform.RecA | pywt/src/wt.template.c:380-392 | the approximation reconstructed alone with the low-pass filter |
| Transform.RecD | pywt/src/wt.template.c:397-409 | the detail reconstructed alone with the high-pass filter |
| Transform.ReconstructRow | pywt/src/wt.template.c:317-336 | one kernel call: the valid-part status, with the row's reconstruction added |
| Transform.IdwtFilled | pywt/src/wt.template.c:304-339 | with a valid pairing, the corrected length is exactly what the longer row's kernel writes |
| Transform.Idwt | pywt/src/wt.template.c:304-339 | a wrong length gives 0 and writes nothing; otherwise the zeroed buffer gets both reconstructions, and the first refusing kernel ends the call with -1 |
| Transform.DilateFilter | pywt/src/wt.template.c:433-441 | the dilated filter, tap `i` at `i << (level-1)`, is the Python `upsample(filter, 2^(level-1))` |
| Transform.SwtStep | pywt/src/wt.template.c:413-453 | -1 for a level below 1, -2 beyond `swt_max_level`, -1 for a wrong length or a failed allocation; otherwise 0 with the stationary output |
| Transform.SwtA | pywt/src/wt.template.c:459-463 | the stationary approximation, with the low-pass filter |
| Transform.SwtD | pywt/src/wt.template.c:468-472 | the stationary detail, with the high-pass filter |
| Transform.SwtAtrous | pywt/src/wt.template.c:431-451 | output `o` of level `L` is the "à trous" filter: the original taps `2^(L-1)` apart, read periodically |
| Transform.AtrousIsStuffed | pywt/src/wt.template.c:439-441 | the zeros of the dilated filter contribute nothing |

## Left out

- **Samples**: they are real numbers. Floating-point rounding and the order of summation are not modelled.
- **Strides**: they are counted in elements, not bytes.
- **Temporary rows**: `downcoef_axis` and `idwt_axis` always go through a temporary row. The source skips it for a contiguous axis and writes through the pointer directly; the values written are the same.
- **Allocation**: a failed `malloc` or `wtcalloc` is a nondeterministic choice, because the allocator is not part of this model.
- **Empty coefficient rows**: in `idwt_axis` a missing array's row length counts as 0. `idwt` and `idwt_axis` take a missing array as absent; a pointer that is null while its length is not 0 is not modelled.
- **Kernel requirements**:
  - The periodization kernels accept an empty row: downsampling stores nothing, and reconstruction with an odd filter, or with `F/2` odd, writes nothing. With an empty row and `F/2` even, the reconstruction's shift loop never ends, so `Upsampling.PeriodizedRowOk` requires that case away. The other kernels require `N >= 1`. The source's behaviour with an empty row is not modelled for them:
    - Downsampling outside periodization runs only its third stage, and `i - j >= 0` always holds for a `size_t`. Zero padding reads nothing and stores `⌊F/step⌋` zeros, which is `F/2` at step 2, although `dwt_buffer_length(0, F)` is 0. Periodic and symmetric modes loop forever in laps that make no progress. Constant mode reads `input[-1]` in a loop that never ends, and so does smooth mode, which falls back to constant below two samples.
    - Full reconstruction (`ExtConvolution.UpsamplingConvolutionFull`, `SrcConvolution.UpsamplingConvolutionFull`) adds nothing to the buffer, because its third stage starts each tap loop past the end. The model still requires the buffer to hold `|UpsampledFull|`, that is `F - 2` slots, to all of which it adds 0.
    - The valid-part kernel refuses an empty row with -1 whenever `F/2 >= 1`.
  - The downsampling kernels accept an empty filter. With `F = 0` they store `⌊N/step⌋` zeros, as the source's second stage does. `Transform.Decompose`, `Transform.DecA`, `Transform.DecD`, `Transform.Downcoef`, `AxisTransform.DecReady` and `AxisTransform.DowncoefAxisOneRow` require `|filter| >= 1`. The reason is that `dwt_buffer_length(N, 0)` is 0 (`pywt/src/common.c:37-38`), so the buffer the source checks against is empty while the kernel would store `⌊N/2⌋` zeros past its end.
  - The strided kernels require the row and the output to fit their buffers. The source does not check this.
- **Overflow**:
  - `swt_` shifts the filter length into `e_filter_len`, and that `size_t` overflow is required away.
  - `N + F - 1 < 2^64` is required wherever a kernel's output count is formed.
- Upsampling.PeriodizedRowOk: also excludes `F = 0`. Then `start = F/2 = 0`, and `F/2` is even. The shift loop `while (j <= start - 1)` compares against `SIZE_MAX`, reads `filter[2*(start-1-j)]` outside the filter and never ends (`pywt/_extensions/c/convolution.template.c:367-372`).
- AxisTransform.IdwtAxis: checks the axis extent against `Common.IdwtOutputLength` rather than `idwt_buffer_length_o` (see Findings), so an extent of the source's length, one slot short, gives 1. As in the source, it drops the statuses of the row kernels.
- **Python reference**:
  - A trailing pad of 0 makes `r[n0:-0]` the empty slice `r[n0:0]`. A core of two or more samples raises `ValueError`; a single sample is broadcast into the empty slice, so its slot keeps its 0 (constant mode then sets every slot). A negative trailing pad (`F' < iu`) raises `ValueError` too. The agreement lemmas for the downsampling kernel therefore need `F >= 2`, and those for the reconstruction kernels need `F >= 4`.
  - Periodic reconstruction with an odd filter is not related to the reference.
- Prototype.UnifiedConvolution: modelled only with `input_upsampling = filter_upsampling = 1`, and with a filter at most one tap longer than the row, because the loops do not handle taps that overhang both edges. Its other upsampling factors are covered by the three minimal loops beside it and by `Prototype.DilatedIsUpsampled`.
- Prototype.ReferenceUpsampling: requires `(F-1)/s <= F/2 - 1`, because only then do its reads stay inside the row.
- Reference.EdgeExtend: requires a non-empty row, and two samples for smooth mode. With an empty row, constant mode's `a[-1]` raises `IndexError` and the periodic and symmetric loops cycle over an empty list without end; smooth mode reads `a[1]`.
- Transform.Downcoef: checks the buffer against `dwt_buffer_length`, the kernel's write count, rather than `dwt_buffer_length_o` (see Findings). A buffer of the source's length, one slot short of what the kernel writes, therefore gives -1 and is left alone. This applies outside periodization except for the approximation of an odd `N`, and in periodization to the detail of an odd `N`.
- AxisTransform.DowncoefAxis: checks the axis extent against `dwt_buffer_length` rather than `dwt_buffer_length_o` (see Findings). An extent of the source's length, one slot short, therefore gives 1, in the same cases as `Transform.Downcoef`, the periodization detail of an odd `N` included.
- Transform.Idwt: checks the buffer against `Common.IdwtOutputLength` rather than `idwt_buffer_length_o` (see Findings). A buffer of the source's length, one slot short of what the kernels write (outside periodization, and in periodization with `A = D + 1`), therefore gives 0 and is left alone.
- UpsampledFilter.UpsampledFilterConvolution: requires `1 <= step <= N`, `shift <= F * step / 2` and `N + F * step < 2^64`. With `step > N` a wrap-around lap can start past the row, and the `while (j < F)` loop around it then never ends. A larger shift wraps the unsigned `start`. The transforms never call this kernel: `swt_` runs its dilated filter through the downsampling kernel.
- UpsampledFilter.UpsampledFilterPeriodic: states the periodic result only when `step` divides `N`. Otherwise the laps restart at the row's start rather than continuing the period (`UpsampledFilter.UnevenRowIsNotPeriodic`), and the result is stated only as the kernel's own tap order in `UpsampledFilter.Outputs`.
- Common.DwtMaxLevel: is the corrected level, 0 for a signal shorter than `F - 1`; the source's `uint_log2(0)` there is modelled as an undefined result by `Common.DwtMaxLevelAsWritten` (see Findings).
- **I/O and allocation helpers**: `timediff`, `printArray` and `main` in `unified_convolution.c`, and `wtcalloc`/`wtfree`, are benchmark I/O or allocation.
- **Downsampling after upsampling**: `downsample(upsample(a, s), s)` does not give back `a`. The code keeps slots `s-1, 2s-1, ...`, which are the inserted zeros. `Reference.DownsampleUpsampled` follows the code.

## Findings

| source | as written | input that shows it | evidently intended | confidence | as-written member | corrected member |
|---|---|---|---|---|---|---|
| pywt/src/convolution.template.c:172 | the middle stage of `_downsampling_convolution` stores `output[o] = sum`; the other stages store `output[o*stride]` (the periodization copy at line 64 does the same) | `N = 4`, `F = 2`, `step = 2`, `stride = 2`: output 1 is written to slot 1, and slot 2 keeps its old value | every output `o` stored at `output[o*stride]` | not executed | SrcConvolution.MiddleStageMisplaced | SrcConvolution.DownsamplingConvolutionStrided |
| pywt/src/common.c:60 | `dwt_buffer_length_o` subtracts one from `(N + F - 1)/2` unless it is the approximation of an odd `N`; `downcoef` and `downcoef_axis` size their output by it | `N = 4`, `F = 2`, detail coefficient: the length is 1, but the kernel writes 2 outputs | the kernel's write count, which is `dwt_buffer_length` | not executed | Common.DwtBufferLengthOShort | Common.DwtBufferLength |
| pywt/src/common.c:58 | in periodization `dwt_buffer_length_o` gives `N/2 + adj`, where `adj` is 1 only for the approximation of an odd `N`; `downcoef` and `downcoef_axis` size their output by it | `N = 3`, `F = 2`, detail coefficient: the length is 1, but the periodization kernel writes 2 outputs | `⌈N/2⌉` for either coefficient, which is `dwt_buffer_length` | not executed | Common.DwtBufferLengthOPeriodizedShort | Common.DwtBufferLength |
| pywt/src/common.c:103 | `idwt_buffer_length_o` gives `2L - F + 1` (plus the odd adjustment); `_idwt` and `idwt_axis` size their output by it | `A = D = 2`, `F = 2`, not periodization: the length is 3, but the valid-part kernel writes 4 outputs | `2L - F + 2`, the valid-part kernel's write count | not executed | Common.IdwtBufferLengthOShort | Common.IdwtOutputLength |
| pywt/src/common.c:101 | in periodization `idwt_buffer_length_o` gives `2D + adj`, with `D` the detail length and `adj = A - D` | `A = 3`, `D = 2`: the length is 5, but the periodization kernel writes `2A = 6` outputs from the approximation row | `2A`, twice the longer row | not executed | Common.IdwtBufferLengthOPeriodizedShort | Common.IdwtOutputLength |
| pywt/src/common.c:116 | `dwt_max_level` returns `uint_log2(N / (F - 1))`, and the quotient is 0 when the signal is shorter than `F - 1` | `N = 3`, `F = 8`: `uint_log2(0)` counts the leading zeros of 0, which is undefined | 0, no level fits | not executed | Common.DwtMaxLevelAsWritten | Common.DwtMaxLevel |
