# autocal in Dafny

AutoCal analyses ratiometric calcium-imaging recordings. Each recorded column interleaves
340 nm and 380 nm readings. The pipeline:

- divides each 340 nm reading by the 380 nm reading that follows it and takes the midpoint of
  the two time stamps;
- smooths the ratio trace with a Savitzky-Golay filter and differences it;
- inverts the ratio when the median slope is positive, because the channels were then recorded
  the other way round;
- finds the rises as long runs of the derivative above a tolerance;
- for every fall segment between two rises, measures the T10/T50/T90/T100 decay times and fits
  a first-order decay to obtain the time constant tau and R2.

A second script measures sarcomere lengths. It applies the same rise scan to intensity
profiles and takes the distance from each peak to the next.

This project models that core on idealised reals:

- `SavitzkyGolay` (sg.dfy): the filter's argument checks, its reflection padding and its
  "valid" convolution. The least-squares kernel is an input.
- `CalTrace` (caltrace.dfy): the `CalciumTrace` class with its fields, construction checks,
  `make_ratio`, `smoothen` and the `correct_ratio` orientation state machine.
- `RiseDetection` (risedetect.dfy): the run-length rise scan, proved to report exactly the
  rises, in order, and the fall segments between them.
- `DecayThresholds` (decay.dfy): the 90/50/10 % levels and the nested intervals above them,
  giving ordered decay times.
- `Models` (models.dfy): the zero- and first-order decay models. The exponential is a
  parameter.
- `TraceletFit` (tracelet.dfy): the three least-squares objectives and the `Tracelet` class
  with `optimize`. The optimizer's result record is an input.
- `CalciumAnalysis` (analysis.dfy): the per-column pipeline of main.py. It covers the capped
  orientation loop, rise times and amplitudes, and the loop over fall segments that extends
  the summary lists of a `TraceCollection`.
- `Sarcomere` (sarcomere.dfy): empty-cell filtering, smoothing and scanning of each column
  pair, and the peak-to-peak spacings of a sheet.
- `CallSites` (callsites.dfy): Python keyword binding and attribute lookup. It is used to state
  three call sites in main.py that fail as written (see Findings).

Python exceptions become `Err` values of a `Result`. Each error carries the assertion or
indexing failure it stands for. The state is left as it was at the point of raising.

## Model

| member | source | states |
|---|---|---|
| SavitzkyGolay.FilterOutcome | sg.py:50-67 | The checks fail in order: first an even or non-positive window, then a window below order + 2, then a negative order (no kernel row). After that the only failure is an empty signal, whose `y[0]` raises IndexError. Every other call succeeds. A signal of more than window_size // 2 samples keeps its length. A shorter signal of n samples gives window_size + 3 - 3n outputs when 3n <= window_size + 2, and 3n - window_size - 1 otherwise. |
| SavitzkyGolay.Filter | sg.py:50-67 | `savitzky_golay` with deriv 0 and the kernel given: the three argument checks, the empty-signal failure, then the reversed kernel convolved with the padded signal. Its outcomes and lengths are stated by FilterOutcome, its entries by FilterAt. |
| SavitzkyGolay.HalfWindow | sg.py:55 | For an odd positive window, window_size == 2 * half_window + 1. |
| SavitzkyGolay.PadLength | sg.py:62-63 | numpy clamps `y[1:h+1]` and `y[-h-1:-1]`: each pad holds half_window samples when the signal is longer than that, and always fewer samples than the signal. |
| SavitzkyGolay.HeadPad | sg.py:62 | The head padding has as many entries as the slice it reflects, each at most y[0]. |
| SavitzkyGolay.TailPad | sg.py:63 | The tail padding has as many entries as the slice it reflects, each at least y[-1]. |
| SavitzkyGolay.HeadPadReflects | sg.py:62 | When the first samples do not dip below y[0], head entry j is the point reflection 2*y[0] - y[h-j]. |
| SavitzkyGolay.TailPadReflects | sg.py:63 | When the last samples do not rise above y[-1], tail entry j is the point reflection 2*y[-1] - y[n-2-j]. |
| SavitzkyGolay.Extend | sg.py:62-64 | The padded signal has len(y) + 2*pad entries, with pad the clamped padding length, and its middle slice is y unchanged. |
| SavitzkyGolay.ConvolveValid | sg.py:67 | "valid" convolution gives len(v) - len(a) + 1 outputs when the kernel is no longer than the signal. Otherwise numpy swaps the two and gives len(a) - len(v) + 1. |
| SavitzkyGolay.ConvolveReversed | sg.py:67 | Convolving with the reversed kernel m[::-1] is the same as correlating with m. |
| SavitzkyGolay.FilterAt | sg.py:64-67 | For a signal longer than window_size // 2, a successful output is as long as the input and output[i] == sum over j < window_size of m[j] * ext[i + j]. |
| SavitzkyGolay.ExtendConstant | sg.py:62-64 | Padding a constant signal gives the same constant at every position, padding included. |
| SavitzkyGolay.FilterKeepsConstant | sg.py:62-67 | A kernel whose weights sum to one returns a constant signal unchanged, boundaries included. |
| CalTrace.ConstructionCheck | caltrace.py:26-27 | Construction passes exactly when data, time and background have one common, even length. It fails with OddRowCount exactly when the lengths agree but are odd. |
| CalTrace.CalciumTrace.constructor | caltrace.py:16-45 | Stores tm, raw_dt and bg, with dt = raw_dt, empty ratio/median_time/smooth/deriv and both flags false. The resulting trace is valid. |
| CalTrace.CalciumTrace.Create | caltrace.py:16-27 | Returns the first failing construction assertion as an error. Otherwise returns a fresh, valid trace as the constructor builds it. |
| CalTrace.Subtract | caltrace.py:83 | Background subtraction keeps the length, and d[i] + bg[i] == raw_dt[i]. |
| CalTrace.ChannelRatio | caltrace.py:88 | The ratio has len(dt)/2 entries, and ratio[i] * dt[2i+1] == dt[2i]. |
| CalTrace.MidTimes | caltrace.py:91 | `median_time` holds one midpoint per pair of time stamps, half as many entries as `tm`. MidTimesIncreasing states where each midpoint lies. |
| CalTrace.MidTimesIncreasing | caltrace.py:91 | Each median time lies strictly between its two time stamps, so strictly increasing stamps give strictly increasing median times. |
| CalTrace.Reciprocals | caltrace.py:139 | The flipped ratio has the same length, no zero entry, and inv[i] * ratio[i] == 1. |
| CalTrace.ReciprocalsInvolution | caltrace.py:139 | Flipping twice restores the ratio trace. |
| CalTrace.CalciumTrace.MakeRatio | caltrace.py:55-93 | dt becomes raw_dt - bg only with correct_background and without smoothing; otherwise it is unchanged. With smoothing, an empty background fails. A zero 380 nm reading fails with ZeroDenominator. Otherwise ratio and median_time are the channel ratio and midpoints, and the trace stays valid. |
| CalTrace.CalciumTrace.Smoothen | caltrace.py:95-116 | An empty ratio fails. A filter error is passed on and nothing changes. Otherwise smooth is the filtered ratio, and deriv becomes its first difference when asked. |
| CalTrace.CalciumTrace.CorrectRatio | caltrace.py:118-148 | Without a derivative it fails. Median > tol on an unverified trace inverts every ratio entry (or fails on a zero entry), sets the flipped flag and leaves it unverified. Median <= tol verifies it without changing the ratio. A verified trace never changes its ratio and never loses verification. |
| SeqMath.SortAsc | caltrace.py:137 | The sorted sequence np.median works from is a permutation of the input and is ascending. |
| SeqMath.MedianAbove | caltrace.py:137 | If every derivative entry exceeds the tolerance, so does the median. |
| SeqMath.MedianAtMost | caltrace.py:143 | If no derivative entry exceeds the tolerance, neither does the median. |
| SeqMath.DiffTelescopes | caltrace.py:114 | np.diff is one shorter than its input, and its entries from i to j sum to s[j] - s[i]. |
| SeqMath.Max | main.py:221 | np.max is an element of the segment and bounds every element. |
| RiseDetection.DetectRises | main.py:108-125 | The scan fails exactly when x_tol < 0 and some sample closes an empty run, reporting the first such index. Otherwise it reports exactly the rises of the derivative, each once. A rise is a maximal run above y_tol, longer than x_tol, and closed by a later sample. Rises are reported in order, separated by at least one sample, and the starts and ends lists have equal length. |
| RiseDetection.CloseRun | main.py:121-125 | A sample at or below y_tol reports the held run when it is longer than x_tol and drops it otherwise. Reading the first element of an empty run fails exactly when x_tol < 0. The scan invariant carries over to the next sample. |
| RiseDetection.ScanExtends | main.py:115-116 | A sample above y_tol extends the held run and keeps the scan invariant. |
| RiseDetection.ScanDiscards | main.py:121-125 | Closing a run of at most x_tol samples reports nothing and keeps the scan invariant. |
| RiseDetection.ScanEmits | main.py:122-124 | Closing a non-empty run longer than x_tol reports a rise and keeps the scan invariant. |
| RiseDetection.ScanFinished | main.py:112-125 | After the last sample, the reports are exactly the rises. A run still open at the end is never reported. |
| RiseDetection.RiseEndingBefore | main.py:112-125 | A rise that ends right before the current sample starts where the held run starts. |
| RiseDetection.RisesInside | main.py:122-124 | Every reported rise has start <= end, end + 1 < len(deriv) and end - start + 1 > x_tol. |
| RiseDetection.RisesOrdered | main.py:122-135 | rise_starts and rise_ends have equal length, so the cycle-count assert never fires. Every rise lies inside the derivative, and starts and ends are both strictly increasing. |
| RiseDetection.FallIntervals | main.py:207 | There are max(len(rise_ends) - 1, 0) fall segments. |
| RiseDetection.FallIntervalsBetweenRises | main.py:207 | Segment i is (rise_ends[i], rise_starts[i+1]). It holds at least two samples, lies inside the trace, and its inner edges are at or below y_tol. |
| RiseDetection.FallBetween | main.py:207 | Consecutive rises are separated by at least one sample at or below y_tol on each side. |
| RiseDetection.RiseClimbs | main.py:112-116 | Over a detected rise of the first difference, the smoothed trace climbs by more than y_tol per sample. |
| Models.ModelZero | models.py:23-34 | `model_zero`: the straight line y0 - k*x, with y1 unused. ModelZeroStartsAtY0 and ModelZeroLinear state its properties. |
| Models.ModelFirst | models.py:10-21 | `model_first`: y0 + (y1 - y0)*(1 - exp(-x*k)) with exp a parameter. ModelFirstStartsAtY0 and ModelFirstBetween state its properties. |
| Models.ModelZeroStartsAtY0 | models.py:23-34 | model_zero(0, k, y0, y1) == y0, and the result does not depend on y1. |
| Models.ModelZeroLinear | models.py:34 | model_zero(a) - model_zero(b) == -k*(a - b), so it strictly decreases when k > 0. |
| Models.ModelFirstStartsAtY0 | models.py:21 | Given exp(0) = 1, model_first(0, k, y0, y1) == y0; with y1 == y0 the curve is flat. |
| Models.ModelFirstBetween | models.py:21 | With the exponential term in (0, 1], the curve lies between y0 and the plateau and has not reached a plateau different from y0. |
| TraceletFit.NumpyDivide | tracelet.py:173 | numpy division is finite exactly when the divisor is nonzero, and then q * b == a. |
| TraceletFit.SquaredResidualsSign | tracelet.py:55 | Every squared residual is non-negative and is zero exactly when the sample is predicted exactly. |
| TraceletFit.SumOfSquares | tracelet.py:55 | The sum of squared residuals is non-negative. |
| TraceletFit.SumOfSquaresZeroIff | tracelet.py:55 | The sum of squared residuals is zero exactly when every sample is predicted exactly. |
| TraceletFit.ObjectiveO0P1 | tracelet.py:35-57 | The zero-order objective is non-negative. |
| TraceletFit.ObjectiveO1P1 | tracelet.py:60-82 | The one-parameter first-order objective is non-negative. |
| TraceletFit.ObjectiveO1P2 | tracelet.py:85-108 | The two-parameter first-order objective is non-negative. |
| TraceletFit.Objective | tracelet.py:123-156 | The objective handed to the optimizer for models 0, 1 and 2 is non-negative. |
| TraceletFit.ObjectiveO1P1PinsPlateau | tracelet.py:70-106 | objective_o1p1(k) == objective_o1p2([k, y[-1]]). |
| TraceletFit.FirstResidualZero | tracelet.py:47-55 | Given exp(0) = 1, the first residual of every objective is zero whatever the parameters. |
| TraceletFit.ObjectiveO0P1ZeroIff | tracelet.py:45-57 | The zero-order objective is zero exactly when every sample lies on the line y0 - k*(x - x0). |
| TraceletFit.ObjectiveO1P2ZeroIff | tracelet.py:96-108 | The two-parameter objective is zero exactly when every sample lies on the first-order curve with that rate and plateau. |
| TraceletFit.ExactCurveMinimises | tracelet.py:85-108 | If the samples follow a first-order curve, its rate and plateau globally minimise the two-parameter objective. |
| TraceletFit.TotalSumOfSquares | tracelet.py:179 | The total sum of squares is non-negative. |
| TraceletFit.TotalSumOfSquaresZeroIff | tracelet.py:179 | The total sum of squares is zero exactly when the segment is flat. |
| TraceletFit.Determination | tracelet.py:179 | R2 = 1 - fun/tss, non-finite for a flat segment. DeterminationBounds states its range. |
| TraceletFit.DeterminationBounds | tracelet.py:179 | When fun >= 0 and tss > 0: R2 is finite and at most 1; it equals 1 exactly when fun == 0; it is non-negative exactly when fun <= tss. |
| TraceletFit.FitDetermination | tracelet.py:173-179 | For a non-flat segment, with fun the objective at the returned parameters: R2 is finite and at most 1, and it equals 1 exactly on a perfect fit. |
| TraceletFit.Tracelet.constructor | tracelet.py:17-33 | A new tracelet holds its time points, ratio and smoothed samples, with opt_k = 1, opt_y1 = 0.5, opt_tau = 1, R2 = 0 and no success. |
| TraceletFit.Tracelet.Optimize | tracelet.py:111-180 | A model outside {0, 1, 2} fails. An accepted result (success, or nit == 500 for model 2) sets success and k, plus y1 = y[-1] for model 1 or y1 = res.x[1] for model 2. A rejected result keeps success, k and y1. tau = 1/k and R2 = 1 - fun/tss are recomputed either way. |
| DecayThresholds.InterpolateMonotone | main.py:221-223 | A larger fraction never gives a lower level. A fraction below 1 stays below a higher peak, and fraction 1 gives the peak. |
| DecayThresholds.LevelMonotone | main.py:221-223 | Because max(y_sm) >= y_sm[-1], ratio_at_90pct >= ratio_at_50pct >= ratio_at_10pct. |
| DecayThresholds.AboveIndices | main.py:225-227 | The selected indices are increasing and in bounds, and index i is selected exactly when y_sm[i] > level. |
| DecayThresholds.AboveIndicesNested | main.py:225-227 | A higher level selects a subset of the indices a lower level selects. |
| DecayThresholds.IntervalsNested | main.py:221-236 | Every index selected for interval_t10 is selected for interval_t50, and every index selected for interval_t50 is selected for interval_t90. So when interval_t10 is non-empty, so are the others, and only the first append can raise the swallowed IndexError. |
| DecayThresholds.NothingAbovePeak | main.py:221-227 | No sample lies above a level at or above the peak. |
| DecayThresholds.DecayDefinedIff | main.py:225-236 | A segment yields decay times exactly when its peak lies above its last smoothed value. |
| DecayThresholds.DecayTimes | main.py:221-236 | The four spans of one segment, or none when an interval is empty and the IndexError is swallowed. DecayDefinedIff says when they exist, DecayOrdered how they are ordered. |
| DecayThresholds.SpanWithin | main.py:230-232 | On a non-decreasing time axis, a nested interval spans between zero and the span of the enclosing one. |
| DecayThresholds.SpanWithinAxis | main.py:230-233 | Any non-empty interval spans between zero and x[-1] - x[0]. |
| DecayThresholds.DecayOrdered | main.py:221-233 | On a non-decreasing time axis, 0 <= T10 <= T50 <= T90 <= T100. |
| Sarcomere.PresentValues | sarcomere_custom.py:85-86 | Filtering never lengthens a column. |
| Sarcomere.PresentIndices | sarcomere_custom.py:85-86 | The kept positions are increasing and in bounds, and a position is kept exactly when its cell is not None. |
| Sarcomere.PresentValuesInOrder | sarcomere_custom.py:85-86 | The k-th kept value is the value of the k-th non-None cell: exactly the non-None cells, in their original order. |
| Sarcomere.ColumnCheckIff | sarcomere_custom.py:88-152 | A column pair is measured exactly when both cleaned columns are equally long and hold 4 values or more than 6. Different lengths fail the assert. An empty intensity column fails in the smoother. A column of 1, 2, 3, 5 or 6 values smooths to 13, 10, 7, 1 or 4 samples, and the plots against the distances fail. |
| Sarcomere.PeakSpacings | sarcomere_custom.py:133 | There are max(len(rise_ends) - 1, 0) spacings, and every index rise_ends[i] + 1 is within dist. |
| Sarcomere.SpacingsPositive | sarcomere_custom.py:133 | On a strictly increasing distance axis, every spacing between ordered rise ends is positive. |
| Sarcomere.SpacingsTelescope | sarcomere_custom.py:133 | The spacings sum to the distance from the sample after the first rise end to the sample after the last one. |
| Sarcomere.MeasureColumn | sarcomere_custom.py:77-152 | Fails exactly when ColumnCheck does, with its error. On success: the smoothed intensity is as long as the column, the derivative one shorter; rises are exactly those of the derivative with tolerances 0.1 and 5; every rise end has a distance sample after it; the result is the peak spacings. |
| Sarcomere.ShortColumnAtMostOneRise | sarcomere_custom.py:90-133 | A column of at most six values has at most one rise, so `sarcomere_dist` looks nothing up before the plots fail. |
| Sarcomere.MeasurePair | sarcomere_custom.py:72-78 | A missing column fails with that pair's number. Otherwise the result is that pair's measurement. |
| Sarcomere.MeasureSheet | sarcomere_custom.py:61-152 | sarcomere_dists is the concatenation of the four pairs' spacings in order. The first missing or failing pair stops the sheet, and every pair before it was measured. |
| Sarcomere.PairsMeasuredExtend | sarcomere_custom.py:72-134 | Measuring the next pair extends the list of measured pairs. |
| Sarcomere.FlattenSnoc | sarcomere_custom.py:134 | `sarcomere_dists += sarcomere_dist` appends the new pair's spacings to the joined list. |
| CalciumAnalysis.TraceCollection.constructor | tracecol.py:17-18 | A new collection starts every summary list (rise_ts, amplitudes, t10s..t100s, taus) empty. |
| CalciumAnalysis.Orient | main.py:78-96 | The loop body runs at most 10 times; an already verified trace is untouched. The ratio ends as it was or inverted. A loop that ends unverified without error ran all 10 passes. A verified trace holds the smoothing of its final ratio (with the filter's length), its first difference, and a median derivative <= 0. |
| CalciumAnalysis.OrientPass | main.py:82-91 | One smooth-and-check pass leaves the ratio as it was or inverted. On success the ratio is non-empty, smooth has the filter's length for it, and deriv == diff(smooth). |
| CalciumAnalysis.RiseTimesPositive | main.py:137-138 | On strictly increasing median times, every rise time is non-negative, and positive when x_tol >= 1. |
| CalciumAnalysis.RiseGains | main.py:137-147 | One gain per rise, from the rise's start to its end: over median_time it is rise_t, over the ratio it is amplitude. RiseTimesPositive states the sign. |
| CalciumAnalysis.RecordRises | main.py:137-149 | rise_ts and amplitudes are extended by each rise's time and ratio gain, in order. |
| CalciumAnalysis.RecordDecay | main.py:221-236 | Each of t10s, t50s, t90s and t100s is extended by that segment's decay time when it has decay times, and nothing is added otherwise: all four grow or none does. |
| CalciumAnalysis.DecayAppendedKeepsColumn | main.py:230-233 | Appending segment by segment keeps the earlier entries of a decay list and adds the trace's own entries after them. |
| CalciumAnalysis.TausAppendedKeepsTaus | main.py:259 | Appending segment by segment keeps the earlier time constants and adds the trace's own after them. |
| CalciumAnalysis.FitTracelet | main.py:241-259 | taus gains 1/k exactly when the two-parameter fit is accepted. |
| CalciumAnalysis.AnalyseFall | main.py:209-259 | One fall segment extends the four decay lists by its decay times (or by nothing) and taus by its time constant (or by nothing). |
| CalciumAnalysis.AnalyseFalls | main.py:207-259 | After the loop over fall segments, each decay list is the old list followed by DecayColumn of the segments, and taus is the old list followed by FittedTaus: one entry per segment that yields one, in segment order. |
| CalciumAnalysis.SegmentDecaysOrdered | main.py:221-233 | On strictly increasing pair times, every fall segment's decay times satisfy 0 <= T10 <= T50 <= T90 <= T100. |
| CalciumAnalysis.RisesWithinTrace | main.py:135-213 | The detected rises and the fall segments between them lie inside the trace, which has one more sample than its derivative. |
| CalciumAnalysis.RecordColumn | main.py:135-259 | After the scan, the collection is extended by the rise times, the amplitudes, the decay times and the time constants of the trace's fall segments. |
| CalciumAnalysis.ScanColumn | main.py:65-125 | Construction or ratio failures come first; every other failure is a trace or scan failure. On success the trace is valid, its times are the midpoints, and its ratio is the channel ratio or its inverse. Its smoothing has the filter's length and the derivative is its difference; a verified trace has a median derivative <= 0; the rises are exactly those of its derivative. |
| CalciumAnalysis.RecordScanned | main.py:135-168 | A rise end past the last pair time raises IndexError and changes nothing. Otherwise the rise times and amplitudes are appended. Then a smoothed trace of another length than median_time fails the plot at main.py:168, with the decay lists and taus unchanged. Otherwise the fall segments are recorded. A ratio longer than window_size // 2 always succeeds. |
| CalciumAnalysis.AnalyseColumn | main.py:65-259 | One data column: a failure before the rise times leaves the collection unchanged, and the two index and plot failures need a column of at most 14 rows. A plot failure keeps the appended rise times and amplitudes but no decay or tau. A success extends every summary list as RecordColumn states for the trace ScanColumn describes. |
| CallSites.BindKeywords | main.py:65-69 | A call without defaults binds exactly when its keywords are its parameters, and then each parameter gets its keyword's argument. Otherwise it fails on an unknown keyword first, then on a missing parameter. |
| CallSites.ExtendAttribute | main.py:140 | `obj.name += values` fails exactly when the object has no attribute `name`. Otherwise it appends to that attribute alone. |
| CallSites.TraceCallAsWrittenFails | main.py:65-69 | The trace call as written fails on the keyword `dt`, while `raw_dt` binds. |
| CallSites.TraceletCallAsWrittenFails | main.py:211-213 | The tracelet call as written fails on the keyword `sm`, while a constructor taking `sm` binds. |
| CallSites.CollectionAsWrittenFails | tracecol.py:17-18 | Extending rise_ts of the attribute-less collection fails. A collection that starts every list empty accepts each extension and then holds exactly the appended values. |

## Left out

- Reading the workbook with openpyxl is not modelled, and neither are the loops over sheets and main.py's loop over data columns. The sarcomere loop over column pairs is modelled by `Sarcomere.MeasureSheet`. Each data column arrives as the sequences `tm`, `rawDt` and `bg`, or as a cell column. It is foreign I/O.
- What plots, histograms, `savefig`, CSV output, `print` and argparse produce is not modelled. They are presentation and command-line plumbing. Only the ways the plots can fail are modelled (next line).
- The least-squares kernel (`np.linalg.pinv` with `math.factorial`) is an input of length `window_size`. It is foreign floating-point linear algebra. The filter's `deriv` and `rate` arguments keep their defaults, 0 and 1, which every caller uses.
- Plots are modelled only where they can fail. In main.py the smoothed trace is plotted against median_time (main.py:168). In sarcomere_custom.py, the smoothed column is plotted against the distances and `dist[i+1]` is read for each rise end (sarcomere_custom.py:145-177). Both fail only when the smoothed signal has another length than its axis. The two sarcomere exceptions (IndexError or ValueError) are one error, `PlotFailed`.
- SavitzkyGolay.FilterAt: the entry-by-entry formula is stated for signals longer than window_size // 2. Shorter signals are covered by FilterOutcome's lengths only.
- SavitzkyGolay.Filter: the integer type assertion of sg.py:50 is not modelled, because the arguments are typed.
- `math.exp` is a parameter. The only facts used about it are hypotheses: exp(0) = 1, or its value in (0, 1].
- Python floats are idealised as reals, with no rounding, overflow or NaN. A Python-float division by zero is an error. A numpy division by zero is `NonFinite`.
- CalTrace.CalciumTrace.MakeRatio: with `smooth_background`, the smoothed background (two window-51 filters and the interleaving loop) is built and then discarded, as in the source. Only the failure on an empty background is modelled, not the discarded values.
- Sheet and column name sanitisation with `re.sub` is not modelled, because it depends on regex semantics. The `sheetname` and `colname` fields are left out.
- CalTrace.CalciumTrace.CorrectRatio: the assertion `self.deriv != []` on a numpy array is idealised as "the derivative is non-empty".
- TraceletFit.Tracelet.Optimize: models 0 and 1 store the whole array `res.x` in `opt_k`; the model stores its single entry. The optimizer is assumed to return as many parameters as the model fits.
- The initial guesses handed to `scipy.optimize.minimize` (2, and [2, y[-1]]) and Nelder-Mead itself are not modelled. The optimizer is a foreign routine, and its result record is an input.
- `print(trce.smooth[range(start, end)])` (main.py:210) is left out, since it only prints.
- `read_deriv2` (sarcomere_custom.py:93) is used only for its length. `sarcomere_intervals` (sarcomere_custom.py:132) feeds only the plots.
- tracelet.py:173-179 recompute opt_tau and R2 after every fit, accepted or not, and the model follows that. main.py:243-259 reads tau only after an accepted fit.
- tracecol.py defines an empty class. The model's `TraceCollection` holds the lists main.py extends (see Findings).

## Findings

| source | as written | input that shows it | evidently intended | confidence | as-written member | corrected member |
|---|---|---|---|---|---|---|
| main.py:65-69 | The raw data is passed as `dt=`, but `CalciumTrace.__init__` (caltrace.py:16) names that parameter `raw_dt`. | Any data column: the keywords sheetname, colname, tm, dt, bg raise a TypeError on `dt`. | Pass the raw data as `raw_dt=`. | not executed | CallSites.TraceCallAsWrittenFails | CalTrace.CalciumTrace.Create |
| main.py:211-213 | `sm=` is passed to `Tracelet(tm, dt)` (tracelet.py:17). main.py:221 then reads `trcelt.y_sm`, which is never set. | Any trace with two rises: the keywords tm, dt, sm raise a TypeError on `sm`. | The tracelet takes and keeps the smoothed samples as `y_sm`. | not executed | CallSites.TraceletCallAsWrittenFails | TraceletFit.Tracelet.constructor |
| tracecol.py:17-18 | The collection's constructor sets no attribute, yet main.py:140 extends `trcecl.rise_ts`. | The first data column: `trcecl.rise_ts += rise_t` raises an AttributeError whatever the rise times are. | The collection starts rise_ts, amplitudes, t10s, t50s, t90s, t100s and taus as empty lists. | not executed | CallSites.CollectionAsWrittenFails | CalciumAnalysis.TraceCollection.constructor |
