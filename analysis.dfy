/** The per-column pipeline of main.py: build the calcium trace, make the ratio, orient it
    with the capped smooth-and-check loop, scan the derivative for rises, record rise times and
    amplitudes, and for every fall segment between two rises record its decay times and, when
    the two-parameter fit is accepted, its time constant. The optimizer is a parameter
    `minimize` from a segment's time points and ratio samples to scipy's result record. */
module CalciumAnalysis {
  import opened Wrappers
  import opened SeqMath
  import SavitzkyGolay
  import opened CalTrace
  import opened RiseDetection
  import opened TraceletFit
  import opened DecayThresholds

  /** `smoothen(size=15, order=3, derivatize=True)` and `correct_ratio(deriv_median_tol=0)`. */
  const SmoothingWindow := 15
  const SmoothingOrder := 3
  const DerivMedianTol := 0.0
  /** The loop stops once `while_counter` exceeds this. */
  const FlipPassCap := 10

  /** The summary lists of one spreadsheet tab that main.py extends column by column. */
  class TraceCollection {
    var riseTs: seq<real>
    var amplitudes: seq<real>
    var t10s: seq<real>
    var t50s: seq<real>
    var t90s: seq<real>
    var t100s: seq<real>
    var taus: seq<Num>

    constructor ()
      ensures riseTs == [] && amplitudes == [] && t10s == [] && t50s == [] && t90s == [] && t100s == []
      ensures taus == []
    {
      riseTs := [];
      amplitudes := [];
      t10s := [];
      t50s := [];
      t90s := [];
      t100s := [];
      taus := [];
    }
  }

  /** Strictly increasing adjacent entries order every pair of entries. */
  lemma {:induction false} IncreasingOrders(s: seq<real>, i: nat, j: nat)
    requires StrictlyIncreasing(s) && i < j < |s|
    ensures s[i] < s[j]
    decreases j - i
  {
    if i + 1 < j {
      IncreasingOrders(s, i + 1, j);
    }
  }

  lemma IncreasingIsSorted(s: seq<real>)
    requires StrictlyIncreasing(s)
    ensures SortedAsc(s)
  {
    forall i, j | 0 <= i < j < |s|
      ensures s[i] <= s[j]
    {
      IncreasingOrders(s, i, j);
    }
  }

  /** The trace has been smoothed with the window of main.py and differenced: the smoothed
      trace is as long as the filter makes it for a ratio trace of this length (the same length
      for more than seven ratios), and the derivative is its first difference. */
  ghost predicate Smoothed(trace: CalciumTrace)
    reads trace
  {
    trace.ratio != [] && |trace.smooth| == SavitzkyGolay.FilteredLength(|trace.ratio|, SmoothingWindow)
    && trace.deriv == Diff(trace.smooth)
  }

  /** The capped orientation loop of main.py: while the ratio trace is not verified, smooth
      it (with its first difference) and check the median of the derivative, flipping the
      trace when the median is positive; give up after ten passes. The trace ends up either
      as it was or inverted (two flips cancel), and a trace this loop verifies has a smoothed
      trace and derivative computed from its final ratio with a median derivative at or below
      zero. */
  method Orient(trace: CalciumTrace, kernel: seq<real>) returns (passes: nat, r: Result<(), TraceError>)
    requires trace.Valid()
    requires |kernel| == SmoothingWindow
    modifies trace`smooth, trace`deriv, trace`ratio, trace`ratioVerified, trace`ratioHasBeenFlipped
    ensures trace.Valid()
    ensures passes <= FlipPassCap
    ensures old(trace.ratioVerified) ==> passes == 0 && r == Ok(()) && unchanged(trace)
    ensures r.Ok? && !trace.ratioVerified ==> passes == FlipPassCap
    ensures trace.ratio == old(trace.ratio)
            || (AllNonzero(old(trace.ratio)) && trace.ratio == Reciprocals(old(trace.ratio)))
    ensures r.Ok? && passes > 0 ==> Smoothed(trace)
    ensures r.Ok? && passes > 0 && trace.ratioVerified ==>
              SavitzkyGolay.Filter(trace.ratio, SmoothingWindow, SmoothingOrder, kernel) == Ok(trace.smooth)
              && trace.deriv != [] && Median(trace.deriv) <= DerivMedianTol
    ensures r.Ok? && !old(trace.ratioVerified) ==> passes > 0
  {
    passes := 0;
    r := Ok(());
    if trace.ratioVerified {
      return;
    }
    var counter := 1;
    while !trace.ratioVerified
      invariant trace.Valid()
      invariant counter == passes + 1 && passes < FlipPassCap
      invariant trace.ratio == old(trace.ratio)
                || (AllNonzero(old(trace.ratio)) && trace.ratio == Reciprocals(old(trace.ratio)))
      invariant passes == 0 ==> !trace.ratioVerified
      invariant passes > 0 ==> Smoothed(trace)
      invariant passes > 0 && trace.ratioVerified ==>
                  SavitzkyGolay.Filter(trace.ratio, SmoothingWindow, SmoothingOrder, kernel) == Ok(trace.smooth)
                  && trace.deriv != [] && Median(trace.deriv) <= DerivMedianTol
      decreases FlipPassCap - passes
    {
      ghost var before := trace.ratio;
      r := OrientPass(trace, kernel);
      if trace.ratio != before && before != old(trace.ratio) {
        ReciprocalsInvolution(old(trace.ratio));
      }
      if r.Err? {
        return;
      }
      counter := counter + 1;
      passes := passes + 1;
      if counter > FlipPassCap {
        break;
      }
    }
  }

  /** One pass of the orientation loop: smooth the ratio trace with its first difference,
      then check the median of the derivative, flipping the trace when it is positive. */
  method OrientPass(trace: CalciumTrace, kernel: seq<real>) returns (r: Result<(), TraceError>)
    requires trace.Valid() && !trace.ratioVerified
    requires |kernel| == SmoothingWindow
    modifies trace`smooth, trace`deriv, trace`ratio, trace`ratioVerified, trace`ratioHasBeenFlipped
    ensures trace.Valid()
    ensures trace.ratio == old(trace.ratio)
            || (AllNonzero(old(trace.ratio)) && trace.ratio == Reciprocals(old(trace.ratio)))
    ensures r.Ok? ==> Smoothed(trace)
    ensures r.Ok? && trace.ratioVerified ==>
              SavitzkyGolay.Filter(trace.ratio, SmoothingWindow, SmoothingOrder, kernel) == Ok(trace.smooth)
              && trace.deriv != [] && Median(trace.deriv) <= DerivMedianTol
  {
    r := trace.Smoothen(SmoothingWindow, SmoothingOrder, true, kernel);
    if r.Err? {
      return;
    }
    SavitzkyGolay.FilterOutcome(trace.ratio, SmoothingWindow, SmoothingOrder, kernel);
    r := trace.CorrectRatio(DerivMedianTol);
  }

  /** Every rise starts no later than it ends, and ends before sample `n`. */
  predicate RisesBefore(starts: seq<nat>, ends: seq<nat>, n: nat)
  {
    |starts| == |ends| && forall i :: 0 <= i < |ends| ==> starts[i] <= ends[i] < n
  }

  /** The change of `series` from the start to the end of each rise: over the pair times it
      is `rise_t`, over the ratio trace it is `amplitude`. */
  function RiseGains(series: seq<real>, starts: seq<nat>, ends: seq<nat>): (g: seq<real>)
    requires RisesBefore(starts, ends, |series|)
    ensures |g| == |starts|
  {
    seq(|starts|, i requires 0 <= i < |starts| => series[ends[i]] - series[starts[i]])
  }

  /** On strictly increasing pair times, every rise time is non-negative, and positive when
      a rise must span more than one sample. */
  lemma RiseTimesPositive(d: seq<real>, yTol: real, xTol: int, medianTime: seq<real>, starts: seq<nat>, ends: seq<nat>)
    requires Detected(d, yTol, xTol, starts, ends) && |d| <= |medianTime|
    requires StrictlyIncreasing(medianTime)
    ensures forall i :: 0 <= i < |starts| ==> RiseGains(medianTime, starts, ends)[i] >= 0.0
    ensures xTol >= 1 ==> forall i :: 0 <= i < |starts| ==> RiseGains(medianTime, starts, ends)[i] > 0.0
  {
    forall i | 0 <= i < |starts|
      ensures RiseGains(medianTime, starts, ends)[i] >= 0.0
      ensures xTol >= 1 ==> RiseGains(medianTime, starts, ends)[i] > 0.0
    {
      assert IsRise(d, yTol, xTol, starts[i], ends[i]);
      if starts[i] < ends[i] {
        IncreasingOrders(medianTime, starts[i], ends[i]);
      }
    }
  }

  /** Appends the rise times and amplitudes of one trace (main.py:137-149). */
  method RecordRises(coll: TraceCollection, medianTime: seq<real>, ratio: seq<real>, starts: seq<nat>, ends: seq<nat>)
    requires RisesBefore(starts, ends, |medianTime|) && RisesBefore(starts, ends, |ratio|)
    modifies coll`riseTs, coll`amplitudes
    ensures coll.riseTs == old(coll.riseTs) + RiseGains(medianTime, starts, ends)
    ensures coll.amplitudes == old(coll.amplitudes) + RiseGains(ratio, starts, ends)
  {
    coll.riseTs := coll.riseTs + RiseGains(medianTime, starts, ends);
    coll.amplitudes := coll.amplitudes + RiseGains(ratio, starts, ends);
  }

  /** The four decay lists of the collection. */
  datatype DecayField = T10 | T50 | T90 | T100

  function Pick(d: Decay, field: DecayField): real
  {
    match field
    case T10 => d.t10
    case T50 => d.t50
    case T90 => d.t90
    case T100 => d.t100
  }

  /** What one segment adds to one decay list: its decay time, or nothing. */
  function DecayEntry(decay: Option<Decay>, field: DecayField): seq<real>
  {
    match decay
    case Some(d) => [Pick(d, field)]
    case None => []
  }

  /** Appends the decay times of one fall segment in the order main.py does, each append
      reading the first and last entry of one interval; an empty interval raises the
      `IndexError` that main.py swallows. Because the intervals are nested, either all four
      lists grow or none does. */
  method RecordDecay(coll: TraceCollection, x: seq<real>, sm: seq<real>)
    requires 0 < |sm| && |x| == |sm|
    modifies coll`t10s, coll`t50s, coll`t90s, coll`t100s
    ensures coll.t10s == old(coll.t10s) + DecayEntry(DecayTimes(x, sm), T10)
    ensures coll.t50s == old(coll.t50s) + DecayEntry(DecayTimes(x, sm), T50)
    ensures coll.t90s == old(coll.t90s) + DecayEntry(DecayTimes(x, sm), T90)
    ensures coll.t100s == old(coll.t100s) + DecayEntry(DecayTimes(x, sm), T100)
  {
    var interval10 := AboveIndices(sm, Level(sm, 0.9));
    var interval50 := AboveIndices(sm, Level(sm, 0.5));
    var interval90 := AboveIndices(sm, Level(sm, 0.1));
    IntervalsNested(sm);
    if |interval10| == 0 {
      return;
    }
    coll.t10s := coll.t10s + [Span(x, interval10)];
    if |interval50| == 0 {
      return;
    }
    coll.t50s := coll.t50s + [Span(x, interval50)];
    if |interval90| == 0 {
      return;
    }
    coll.t90s := coll.t90s + [Span(x, interval90)];
    coll.t100s := coll.t100s + [x[|x| - 1] - x[0]];
  }

  /** Every fall segment is a non-empty slice `[a, b)` of traces of length `n`. */
  predicate SegmentsFit(falls: seq<(nat, nat)>, n: nat)
  {
    forall j :: 0 <= j < |falls| ==> falls[j].0 < falls[j].1 <= n
  }

  /** The optimizer returns a rate and a plateau for the two-parameter fit. */
  ghost predicate TwoParameterResults(minimize: (seq<real>, seq<real>) -> MinimizeResult)
  {
    forall sx, sy :: |minimize(sx, sy).x| == 2
  }

  /** The decay times of the fall segment `[a, b)` of the pair times and smoothed trace. */
  function SegmentDecay(tm: seq<real>, sm: seq<real>, fall: (nat, nat)): Option<Decay>
    requires fall.0 < fall.1 <= |tm| && |tm| == |sm|
  {
    DecayTimes(tm[fall.0..fall.1], sm[fall.0..fall.1])
  }

  /** What the fall segment `[a, b)` adds to the time constants: `1 / k` when the
      two-parameter fit of its ratio samples is accepted, nothing otherwise. */
  function SegmentTau(tm: seq<real>, ratio: seq<real>, fall: (nat, nat), minimize: (seq<real>, seq<real>) -> MinimizeResult): seq<Num>
    requires fall.0 < fall.1 <= |tm| && |tm| == |ratio| && TwoParameterResults(minimize)
  {
    var res := minimize(tm[fall.0..fall.1], ratio[fall.0..fall.1]);
    if Accepted(2, res) then [NumpyDivide(1.0, res.x[0])] else []
  }

  /** The decay times of each fall segment, in order. */
  function SegmentDecays(tm: seq<real>, sm: seq<real>, falls: seq<(nat, nat)>): (decays: seq<Option<Decay>>)
    requires |tm| == |sm| && SegmentsFit(falls, |tm|)
    ensures |decays| == |falls|
  {
    seq(|falls|, j requires 0 <= j < |falls| => SegmentDecay(tm, sm, falls[j]))
  }

  /** A decay list after the entries of the first `n` segment decays are appended to
      `column`, one segment at a time. */
  function DecayAppended(column: seq<real>, decays: seq<Option<Decay>>, n: nat, field: DecayField): seq<real>
    requires n <= |decays|
  {
    if n == 0 then column
    else DecayAppended(column, decays, n - 1, field) + DecayEntry(decays[n - 1], field)
  }

  /** One decay list of a trace on its own: one entry per fall segment with decay times. */
  function DecayColumn(tm: seq<real>, sm: seq<real>, falls: seq<(nat, nat)>, field: DecayField): seq<real>
    requires |tm| == |sm| && SegmentsFit(falls, |tm|)
  {
    DecayAppended([], SegmentDecays(tm, sm, falls), |falls|, field)
  }

  /** The time constants after those of the first `n` fall segments are appended to `taus`. */
  function TausAppended(taus: seq<Num>, tm: seq<real>, ratio: seq<real>, falls: seq<(nat, nat)>, n: nat,
                        minimize: (seq<real>, seq<real>) -> MinimizeResult): seq<Num>
    requires |tm| == |ratio| && SegmentsFit(falls, |tm|) && TwoParameterResults(minimize) && n <= |falls|
  {
    if n == 0 then taus
    else TausAppended(taus, tm, ratio, falls, n - 1, minimize) + SegmentTau(tm, ratio, falls[n - 1], minimize)
  }

  /** The time constants of a trace on its own, one per accepted fit. */
  function FittedTaus(tm: seq<real>, ratio: seq<real>, falls: seq<(nat, nat)>, minimize: (seq<real>, seq<real>) -> MinimizeResult): seq<Num>
    requires |tm| == |ratio| && SegmentsFit(falls, |tm|) && TwoParameterResults(minimize)
  {
    TausAppended([], tm, ratio, falls, |falls|, minimize)
  }

  /** On strictly increasing pair times (as `MidTimesIncreasing` gives for strictly increasing
      frame times), the decay times of every fall segment are ordered as their names say:
      0 <= T10 <= T50 <= T90 <= T100. */
  lemma SegmentDecaysOrdered(tm: seq<real>, sm: seq<real>, falls: seq<(nat, nat)>, j: nat)
    requires |tm| == |sm| && SegmentsFit(falls, |tm|) && j < |falls|
    requires StrictlyIncreasing(tm)
    requires SegmentDecays(tm, sm, falls)[j].Some?
    ensures var d := SegmentDecays(tm, sm, falls)[j].value;
            0.0 <= d.t10 <= d.t50 <= d.t90 <= d.t100
  {
    var (a, b) := falls[j];
    IncreasingIsSorted(tm);
    var x := tm[a..b];
    assert forall i, k :: 0 <= i < k < |x| ==> x[i] == tm[a + i] <= tm[a + k] == x[k];
    DecayOrdered(x, sm[a..b]);
  }

  /** Appending segment by segment to an existing decay list gives that list followed by the
      trace's own list: earlier columns are kept and nothing is reordered. */
  lemma {:induction false} DecayAppendedKeepsColumn(column: seq<real>, decays: seq<Option<Decay>>, n: nat, field: DecayField)
    requires n <= |decays|
    ensures DecayAppended(column, decays, n, field) == column + DecayAppended([], decays, n, field)
    decreases n
  {
    if n > 0 {
      DecayAppendedKeepsColumn(column, decays, n - 1, field);
      AppendRegroups(column, DecayAppended([], decays, n - 1, field), DecayEntry(decays[n - 1], field));
    }
  }

  /** The same for the time constants. */
  lemma {:induction false} TausAppendedKeepsTaus(taus: seq<Num>, tm: seq<real>, ratio: seq<real>,
                                                 falls: seq<(nat, nat)>, n: nat,
                                                 minimize: (seq<real>, seq<real>) -> MinimizeResult)
    requires |tm| == |ratio| && SegmentsFit(falls, |tm|) && TwoParameterResults(minimize) && n <= |falls|
    ensures TausAppended(taus, tm, ratio, falls, n, minimize) == taus + TausAppended([], tm, ratio, falls, n, minimize)
    decreases n
  {
    if n > 0 {
      var rest := TausAppended([], tm, ratio, falls, n - 1, minimize);
      var entry := SegmentTau(tm, ratio, falls[n - 1], minimize);
      TausAppendedKeepsTaus(taus, tm, ratio, falls, n - 1, minimize);
      assert TausAppended(taus, tm, ratio, falls, n, minimize) == (taus + rest) + entry;
      AppendRegroups(taus, rest, entry);
      assert TausAppended([], tm, ratio, falls, n, minimize) == rest + entry;
    }
  }

  /** `trcelt.optimize(model=2)` followed by `trcecl.taus += [trcelt.opt_tau]` when the fit
      succeeded, on a tracelet that has not been fitted before. */
  method FitTracelet(coll: TraceCollection, tracelet: Tracelet, minimize: (seq<real>, seq<real>) -> MinimizeResult)
    requires Evaluable(tracelet.x, tracelet.y) && !tracelet.optSuccess && TwoParameterResults(minimize)
    modifies tracelet, coll`taus
    ensures var res := minimize(tracelet.x, tracelet.y);
            coll.taus == old(coll.taus) + if Accepted(2, res) then [NumpyDivide(1.0, res.x[0])] else []
  {
    var res := minimize(tracelet.x, tracelet.y);
    var fitted := tracelet.Optimize(2, res);
    if tracelet.optSuccess {
      coll.taus := coll.taus + [tracelet.optTau];
    }
  }

  /** The body of the loop over `tracelet_intervals` (main.py:209-259) for one segment: a
      tracelet, its decay times, the two-parameter fit, and its time constant when the fit is
      accepted. */
  method AnalyseFall(coll: TraceCollection, tm: seq<real>, ratio: seq<real>, sm: seq<real>,
                     fall: (nat, nat), minimize: (seq<real>, seq<real>) -> MinimizeResult)
    requires fall.0 < fall.1 <= |tm| && |tm| == |ratio| == |sm| && TwoParameterResults(minimize)
    modifies coll`t10s, coll`t50s, coll`t90s, coll`t100s, coll`taus
    ensures coll.t10s == old(coll.t10s) + DecayEntry(SegmentDecay(tm, sm, fall), T10)
    ensures coll.t50s == old(coll.t50s) + DecayEntry(SegmentDecay(tm, sm, fall), T50)
    ensures coll.t90s == old(coll.t90s) + DecayEntry(SegmentDecay(tm, sm, fall), T90)
    ensures coll.t100s == old(coll.t100s) + DecayEntry(SegmentDecay(tm, sm, fall), T100)
    ensures coll.taus == old(coll.taus) + SegmentTau(tm, ratio, fall, minimize)
  {
    var (start, end) := fall;
    var tracelet := new Tracelet(tm[start..end], ratio[start..end], sm[start..end]);
    RecordDecay(coll, tracelet.x, tracelet.ySm);
    assert DecayTimes(tracelet.x, tracelet.ySm) == SegmentDecay(tm, sm, fall);
    FitTracelet(coll, tracelet, minimize);
  }

  /** Appending to a list that already extends `prefix` by `part` extends it by `part + more`. */
  lemma AppendRegroups<T>(prefix: seq<T>, part: seq<T>, more: seq<T>)
    ensures prefix + part + more == prefix + (part + more)
  {
  }

  /** The decay list of the collection that `field` names. */
  function DecayColumnsOf(coll: TraceCollection, field: DecayField): seq<real>
    reads coll`t10s, coll`t50s, coll`t90s, coll`t100s
  {
    match field
    case T10 => coll.t10s
    case T50 => coll.t50s
    case T90 => coll.t90s
    case T100 => coll.t100s
  }

  /** The loop over `tracelet_intervals` (main.py:209-259). */
  method AnalyseFalls(coll: TraceCollection, tm: seq<real>, ratio: seq<real>, sm: seq<real>,
                      falls: seq<(nat, nat)>, minimize: (seq<real>, seq<real>) -> MinimizeResult)
    requires |tm| == |ratio| == |sm| && SegmentsFit(falls, |tm|) && TwoParameterResults(minimize)
    modifies coll`t10s, coll`t50s, coll`t90s, coll`t100s, coll`taus
    ensures forall field :: DecayColumnsOf(coll, field)
              == old(DecayColumnsOf(coll, field)) + DecayColumn(tm, sm, falls, field)
    ensures coll.taus == old(coll.taus) + FittedTaus(tm, ratio, falls, minimize)
  {
    ghost var t10s, t50s, t90s, t100s := coll.t10s, coll.t50s, coll.t90s, coll.t100s;
    ghost var decays := SegmentDecays(tm, sm, falls);
    for j := 0 to |falls|
      invariant coll.t10s == DecayAppended(t10s, decays, j, T10)
      invariant coll.t50s == DecayAppended(t50s, decays, j, T50)
      invariant coll.t90s == DecayAppended(t90s, decays, j, T90)
      invariant coll.t100s == DecayAppended(t100s, decays, j, T100)
      invariant coll.taus == TausAppended(old(coll.taus), tm, ratio, falls, j, minimize)
    {
      AnalyseFall(coll, tm, ratio, sm, falls[j], minimize);
      assert decays[j] == SegmentDecay(tm, sm, falls[j]);
    }
    forall field
      ensures DecayColumnsOf(coll, field) == old(DecayColumnsOf(coll, field)) + DecayColumn(tm, sm, falls, field)
    {
      match field {
        case T10 => assert coll.t10s == DecayAppended(t10s, decays, |falls|, T10);
        case T50 => assert coll.t50s == DecayAppended(t50s, decays, |falls|, T50);
        case T90 => assert coll.t90s == DecayAppended(t90s, decays, |falls|, T90);
        case T100 => assert coll.t100s == DecayAppended(t100s, decays, |falls|, T100);
      }
      DecayAppendedKeepsColumn(old(DecayColumnsOf(coll, field)), decays, |falls|, field);
    }
    TausAppendedKeepsTaus(old(coll.taus), tm, ratio, falls, |falls|, minimize);
  }

  /** The part of one data column after the scan (main.py:135-259): the rises found in the
      derivative `d` of the smoothed trace `sm` are recorded, then every fall segment between
      consecutive rises is analysed. */
  method RecordColumn(coll: TraceCollection, tm: seq<real>, ratio: seq<real>, sm: seq<real>, d: seq<real>,
                      rises: Rises, xTol: int, yTol: real, minimize: (seq<real>, seq<real>) -> MinimizeResult)
    requires |sm| == |ratio| == |tm| && d == Diff(sm)
    requires Detected(d, yTol, xTol, rises.starts, rises.ends)
    requires TwoParameterResults(minimize)
    modifies coll
    ensures coll.riseTs == old(coll.riseTs) + RiseGains(tm, rises.starts, rises.ends)
    ensures coll.amplitudes == old(coll.amplitudes) + RiseGains(ratio, rises.starts, rises.ends)
    ensures SegmentsFit(FallIntervals(rises.starts, rises.ends), |tm|)
    ensures var falls := FallIntervals(rises.starts, rises.ends);
            forall field :: DecayColumnsOf(coll, field)
              == old(DecayColumnsOf(coll, field)) + DecayColumn(tm, sm, falls, field)
    ensures var falls := FallIntervals(rises.starts, rises.ends);
            coll.taus == old(coll.taus) + FittedTaus(tm, ratio, falls, minimize)
  {
    var (starts, ends) := (rises.starts, rises.ends);
    RisesWithinTrace(sm, d, yTol, xTol, starts, ends);
    RecordRises(coll, tm, ratio, starts, ends);
    AnalyseFalls(coll, tm, ratio, sm, FallIntervals(starts, ends), minimize);
  }

  /** The rises detected in the first difference of a trace, and the fall segments between
      them, lie inside the trace. */
  lemma RisesWithinTrace(sm: seq<real>, d: seq<real>, yTol: real, xTol: int, starts: seq<nat>, ends: seq<nat>)
    requires d == Diff(sm)
    requires Detected(d, yTol, xTol, starts, ends)
    ensures |starts| == |ends|
    ensures forall i :: 0 <= i < |ends| ==> starts[i] <= ends[i] < |sm|
    ensures SegmentsFit(FallIntervals(starts, ends), |sm|)
  {
    FallIntervalsBetweenRises(d, yTol, xTol, starts, ends);
    if |ends| > 0 {
      assert ends[0] < |d|;
    }
  }

  datatype AnalysisError =
    | TraceFailed(traceError: TraceError)
    | ScanFailed(scanError: ScanError)
    | RiseOutsideTrace      // `trce.median_time[rise_ends[i]]` past the last pair time: IndexError
    | PlotLengthMismatch    // `splt.plot(trce.median_time, trce.smooth)` on unequal lengths: ValueError

  /** What the scan of one data column establishes about its trace and its rises: the trace was
      built from the column, its ratio made and oriented (as made, or inverted), smoothed and
      differenced, and `rises` are exactly the rises of its derivative. */
  ghost predicate ColumnScanned(t: CalciumTrace, tm: seq<real>, rawDt: seq<real>, bg: seq<real>,
                                rises: Rises, xTol: int, yTol: real)
    reads t
  {
    ConstructionCheck(tm, rawDt, bg) == None && !HasZeroDenominator(rawDt)
    && t.Valid() && t.medianTime == MidTimes(tm)
    && (t.ratio == ChannelRatio(rawDt)
        || (AllNonzero(ChannelRatio(rawDt)) && t.ratio == Reciprocals(ChannelRatio(rawDt))))
    && Smoothed(t)
    && (t.ratioVerified ==> t.deriv != [] && Median(t.deriv) <= DerivMedianTol)
    && Detected(t.deriv, yTol, xTol, rises.starts, rises.ends)
  }

  /** The part of one data column before anything is recorded (main.py:65-125) with the
      default `make_ratio()`: the trace is built, its ratio made and oriented, and the rises
      of its derivative detected. */
  method ScanColumn(tm: seq<real>, rawDt: seq<real>, bg: seq<real>, kernel: seq<real>, xTol: int, yTol: real)
    returns (r: Result<CalciumTrace, AnalysisError>, rises: Rises)
    requires |kernel| == SmoothingWindow
    ensures ConstructionCheck(tm, rawDt, bg).Some? ==> r == Err(TraceFailed(ConstructionCheck(tm, rawDt, bg).value))
    ensures ConstructionCheck(tm, rawDt, bg) == None && HasZeroDenominator(rawDt) ==> r == Err(TraceFailed(ZeroDenominator))
    ensures r.Err? ==> r.error.TraceFailed? || r.error.ScanFailed?
    ensures r.Ok? ==> fresh(r.value) && ColumnScanned(r.value, tm, rawDt, bg, rises, xTol, yTol)
  {
    rises := Rises([], []);
    var created := CalciumTrace.Create(tm, rawDt, bg);
    if created.Err? {
      return Err(TraceFailed(created.error)), rises;
    }
    var trace := created.value;
    var made := trace.MakeRatio(false, true);
    if made.Err? {
      return Err(TraceFailed(made.error)), rises;
    }
    var passes, oriented := Orient(trace, kernel);
    if oriented.Err? {
      return Err(TraceFailed(oriented.error)), rises;
    }
    var scanned := DetectRises(trace.deriv, yTol, xTol);
    if scanned.Err? {
      return Err(ScanFailed(scanned.error)), rises;
    }
    rises := scanned.value;
    r := Ok(trace);
  }

  /** Every rise ends at a pair time. */
  predicate EndsWithin(ends: seq<nat>, n: nat)
  {
    forall i :: 0 <= i < |ends| ==> ends[i] < n
  }

  /** What main.py does with a scanned trace (main.py:130-259): the rise times index the pair
      times at every rise end (an `IndexError` when one lies past them, before anything is
      appended); rise times and amplitudes are appended; the smoothed trace is plotted against
      the pair times (a `ValueError` when their lengths differ, after the rise lists have
      grown); then every fall segment is recorded. A ratio trace of more than seven samples
      never fails here. */
  method RecordScanned(coll: TraceCollection, trace: CalciumTrace, rises: Rises, xTol: int, yTol: real,
                       minimize: (seq<real>, seq<real>) -> MinimizeResult)
    returns (r: Result<(), AnalysisError>)
    requires trace.Valid() && Smoothed(trace) && Detected(trace.deriv, yTol, xTol, rises.starts, rises.ends)
    requires TwoParameterResults(minimize)
    modifies coll
    ensures r == Err(RiseOutsideTrace) <==> !EndsWithin(rises.ends, |trace.medianTime|)
    ensures r == Err(PlotLengthMismatch) <==>
              EndsWithin(rises.ends, |trace.medianTime|) && |trace.smooth| != |trace.medianTime|
    ensures |trace.ratio| > SmoothingWindow / 2 ==> r.Ok?
    ensures r == Err(RiseOutsideTrace) ==> unchanged(coll)
    ensures r != Err(RiseOutsideTrace) ==>
              RisesBefore(rises.starts, rises.ends, |trace.medianTime|)
              && coll.riseTs == old(coll.riseTs) + RiseGains(trace.medianTime, rises.starts, rises.ends)
              && coll.amplitudes == old(coll.amplitudes) + RiseGains(trace.ratio, rises.starts, rises.ends)
    ensures r == Err(PlotLengthMismatch) ==>
              coll.t10s == old(coll.t10s) && coll.t50s == old(coll.t50s) && coll.t90s == old(coll.t90s)
              && coll.t100s == old(coll.t100s) && coll.taus == old(coll.taus)
    ensures r.Ok? ==>
              var falls := FallIntervals(rises.starts, rises.ends);
              |trace.medianTime| == |trace.smooth| && SegmentsFit(falls, |trace.medianTime|)
              && (forall field :: DecayColumnsOf(coll, field)
                    == old(DecayColumnsOf(coll, field)) + DecayColumn(trace.medianTime, trace.smooth, falls, field))
              && coll.taus == old(coll.taus) + FittedTaus(trace.medianTime, trace.ratio, falls, minimize)
  {
    var (tmMid, ratio, sm, d) := (trace.medianTime, trace.ratio, trace.smooth, trace.deriv);
    var (starts, ends) := (rises.starts, rises.ends);
    RisesInside(d, yTol, xTol, starts, ends);
    if |ratio| > SmoothingWindow / 2 {
      SavitzkyGolay.FilterLengthKept(|ratio|, SmoothingWindow);
      assert EndsWithin(ends, |tmMid|);
    }
    if !EndsWithin(ends, |tmMid|) {
      return Err(RiseOutsideTrace);
    }
    if |sm| != |tmMid| {
      RecordRises(coll, tmMid, ratio, starts, ends);
      return Err(PlotLengthMismatch);
    }
    RecordColumn(coll, tmMid, ratio, sm, d, rises, xTol, yTol, minimize);
    r := Ok(());
  }

  /** One data column of main.py (lines 65-259): the trace is scanned, then its rises and
      every fall segment recorded. A failure of the scan, or a rise past the pair times, leaves
      the collection as it was; a smoothed trace whose length differs from the pair times
      stops the run after the rise lists have grown. */
  method AnalyseColumn(coll: TraceCollection, tm: seq<real>, rawDt: seq<real>, bg: seq<real>,
                       kernel: seq<real>, xTol: int, yTol: real,
                       minimize: (seq<real>, seq<real>) -> MinimizeResult)
    returns (r: Result<CalciumTrace, AnalysisError>, rises: Rises)
    requires |kernel| == SmoothingWindow
    requires TwoParameterResults(minimize)
    modifies coll
    ensures ConstructionCheck(tm, rawDt, bg).Some? ==> r == Err(TraceFailed(ConstructionCheck(tm, rawDt, bg).value))
    ensures ConstructionCheck(tm, rawDt, bg) == None && HasZeroDenominator(rawDt) ==> r == Err(TraceFailed(ZeroDenominator))
    ensures r.Err? && !r.error.PlotLengthMismatch? ==> unchanged(coll)
    ensures r.Err? && (r.error.RiseOutsideTrace? || r.error.PlotLengthMismatch?) ==>
              |tm| / 2 <= SmoothingWindow / 2
    ensures r.Err? && r.error.PlotLengthMismatch? ==>
              coll.t10s == old(coll.t10s) && coll.t50s == old(coll.t50s) && coll.t90s == old(coll.t90s)
              && coll.t100s == old(coll.t100s) && coll.taus == old(coll.taus)
    ensures r.Ok? ==> fresh(r.value) && ColumnScanned(r.value, tm, rawDt, bg, rises, xTol, yTol)
    ensures r.Ok? ==>
              RisesBefore(rises.starts, rises.ends, |r.value.medianTime|) && |r.value.ratio| == |r.value.medianTime|
              && coll.riseTs == old(coll.riseTs) + RiseGains(r.value.medianTime, rises.starts, rises.ends)
              && coll.amplitudes == old(coll.amplitudes) + RiseGains(r.value.ratio, rises.starts, rises.ends)
    ensures r.Ok? ==>
              var falls := FallIntervals(rises.starts, rises.ends);
              var t := r.value;
              |t.medianTime| == |t.smooth| && SegmentsFit(falls, |t.medianTime|)
              && (forall field :: DecayColumnsOf(coll, field)
                    == old(DecayColumnsOf(coll, field)) + DecayColumn(t.medianTime, t.smooth, falls, field))
              && coll.taus == old(coll.taus) + FittedTaus(t.medianTime, t.ratio, falls, minimize)
  {
    r, rises := ScanColumn(tm, rawDt, bg, kernel, xTol, yTol);
    if r.Ok? {
      var trace := r.value;
      var recorded := RecordScanned(coll, trace, rises, xTol, yTol, minimize);
      if recorded.Err? {
        r := Err(recorded.error);
      }
    }
  }
}
