/** The decay attributes main.py measures on each fall segment: the times the smoothed trace
    spends above 90 %, 50 % and 10 % of the way from the segment's final value up to its peak
    (T10, T50, T90), and the length of the whole segment (T100). */
module DecayThresholds {
  import opened Wrappers
  import opened SeqMath

  datatype Decay = Decay(t10: real, t50: real, t90: real, t100: real)

  /** The value a fraction `frac` of the way from `lo` up to `hi`. */
  function Interpolate(frac: real, lo: real, hi: real): real
  {
    frac * (hi - lo) + lo
  }

  /** `ratio_at_Npct`: the level a fraction `frac` of the way from the last smoothed sample
      up to the peak. */
  function Level(sm: seq<real>, frac: real): real
    requires |sm| > 0
  {
    Interpolate(frac, sm[|sm| - 1], Max(sm))
  }

  /** Between a low and a high end, a larger fraction never gives a lower value, a fraction
      below one stays below a high end that exceeds the low one, and the fraction one gives
      the high end. */
  lemma InterpolateMonotone(f: real, g: real, lo: real, hi: real)
    requires f <= g && lo <= hi
    ensures Interpolate(f, lo, hi) <= Interpolate(g, lo, hi)
    ensures g < 1.0 && lo < hi ==> Interpolate(g, lo, hi) < hi
    ensures Interpolate(1.0, lo, hi) == hi
    ensures lo == hi ==> Interpolate(f, lo, hi) == hi
  {
    var gap, span := g - f, hi - lo;
    assert g * span - f * span == gap * span;
    ProductNonNegative(gap, span);
    if g < 1.0 && lo < hi {
      var rest := 1.0 - g;
      assert span - g * span == rest * span;
      ProductPositive(rest, span);
    }
  }

  lemma ProductNonNegative(a: real, b: real)
    requires a >= 0.0 && b >= 0.0
    ensures a * b >= 0.0
  {
  }

  lemma ProductPositive(a: real, b: real)
    requires a > 0.0 && b > 0.0
    ensures a * b > 0.0
  {
  }

  /** The peak is never below the last sample, so a larger fraction never gives a lower
      level, a fraction below one stays below a peak that exceeds the last sample, and the
      fraction one is the peak itself. */
  lemma LevelMonotone(sm: seq<real>, f: real, g: real)
    requires |sm| > 0 && f <= g
    ensures Level(sm, f) <= Level(sm, g)
    ensures g < 1.0 && Max(sm) > sm[|sm| - 1] ==> Level(sm, g) < Max(sm)
    ensures Level(sm, 1.0) == Max(sm)
    ensures Max(sm) == sm[|sm| - 1] ==> Level(sm, f) == Max(sm)
  {
    InterpolateMonotone(f, g, sm[|sm| - 1], Max(sm));
  }

  /** The indices `i` with `sm[i] > level`, in order: the filter behind
      `[x[i] for i in range(len(x)) if y_sm[i] > level]`. */
  function AboveIndices(sm: seq<real>, level: real): (idx: seq<nat>)
    ensures Increasing(idx)
    ensures forall k :: 0 <= k < |idx| ==> idx[k] < |sm|
    ensures forall i :: 0 <= i < |sm| ==> (i in idx <==> sm[i] > level)
    decreases |sm|
  {
    if sm == [] then []
    else
      var n := |sm| - 1;
      var rest := AboveIndices(sm[..n], level);
      assert forall i :: 0 <= i < n ==> sm[..n][i] == sm[i];
      if sm[n] > level then rest + [n] else rest
  }

  /** A higher level selects a subset of the indices a lower level selects. */
  lemma AboveIndicesNested(sm: seq<real>, high: real, low: real)
    requires low <= high
    ensures forall k :: 0 <= k < |AboveIndices(sm, high)| ==> AboveIndices(sm, high)[k] in AboveIndices(sm, low)
  {
    var hi := AboveIndices(sm, high);
    forall k | 0 <= k < |hi|
      ensures hi[k] in AboveIndices(sm, low)
    {
      assert sm[hi[k]] > high;
    }
  }

  /** `interval[-1] - interval[0]` for the time points at the selected indices. */
  function Span(x: seq<real>, idx: seq<nat>): real
    requires |idx| > 0
    requires forall k :: 0 <= k < |idx| ==> idx[k] < |x|
  {
    x[idx[|idx| - 1]] - x[idx[0]]
  }

  /** The decay times of one segment, or `None` when an interval is empty and the
      `IndexError` is swallowed. */
  function DecayTimes(x: seq<real>, sm: seq<real>): Option<Decay>
    requires 0 < |sm| && |x| == |sm|
  {
    var i10 := AboveIndices(sm, Level(sm, 0.9));
    var i50 := AboveIndices(sm, Level(sm, 0.5));
    var i90 := AboveIndices(sm, Level(sm, 0.1));
    if |i10| == 0 || |i50| == 0 || |i90| == 0 then None
    else Some(Decay(Span(x, i10), Span(x, i50), Span(x, i90), x[|x| - 1] - x[0]))
  }

  /** The three intervals are nested: every time point above the 90 % level is above the 50 %
      level, and every one above the 50 % level is above the 10 % level. So the T10 interval is
      empty only when the others may also be: the swallowed `IndexError` can only come from
      the first of the four appends. */
  lemma IntervalsNested(sm: seq<real>)
    requires |sm| > 0
    ensures forall i :: i in AboveIndices(sm, Level(sm, 0.9)) ==> i in AboveIndices(sm, Level(sm, 0.5))
    ensures forall i :: i in AboveIndices(sm, Level(sm, 0.5)) ==> i in AboveIndices(sm, Level(sm, 0.1))
    ensures |AboveIndices(sm, Level(sm, 0.9))| > 0 ==> |AboveIndices(sm, Level(sm, 0.5))| > 0
    ensures |AboveIndices(sm, Level(sm, 0.5))| > 0 ==> |AboveIndices(sm, Level(sm, 0.1))| > 0
  {
    LevelMonotone(sm, 0.5, 0.9);
    LevelMonotone(sm, 0.1, 0.5);
    AboveIndicesNested(sm, Level(sm, 0.9), Level(sm, 0.5));
    AboveIndicesNested(sm, Level(sm, 0.5), Level(sm, 0.1));
  }

  /** No sample lies above a level at or above the peak. */
  lemma NothingAbovePeak(sm: seq<real>, level: real)
    requires |sm| > 0 && level >= Max(sm)
    ensures AboveIndices(sm, level) == []
  {
  }

  /** A segment yields decay times exactly when its peak lies above its final value. */
  lemma DecayDefinedIff(x: seq<real>, sm: seq<real>)
    requires 0 < |sm| && |x| == |sm|
    ensures DecayTimes(x, sm).Some? <==> Max(sm) > sm[|sm| - 1]
  {
    IntervalsNested(sm);
    LevelMonotone(sm, 0.9, 0.9);
    if Max(sm) > sm[|sm| - 1] {
      var p :| 0 <= p < |sm| && sm[p] == Max(sm);
      assert p in AboveIndices(sm, Level(sm, 0.9));
    } else {
      NothingAbovePeak(sm, Level(sm, 0.9));
    }
  }

  /** An index sequence whose entries all occur in an ordered outer sequence spans no more
      of a non-decreasing time axis than the outer one does, and no less than zero. */
  lemma SpanWithin(x: seq<real>, inner: seq<nat>, outer: seq<nat>)
    requires SortedAsc(x)
    requires |inner| > 0 && Increasing(inner) && Increasing(outer)
    requires forall k :: 0 <= k < |outer| ==> outer[k] < |x|
    requires forall k :: 0 <= k < |inner| ==> inner[k] in outer
    ensures 0.0 <= Span(x, inner) <= Span(x, outer)
  {
    assert inner[0] in outer && inner[|inner| - 1] in outer;
    assert outer[0] <= inner[0];
    assert inner[|inner| - 1] <= outer[|outer| - 1];
    assert inner[0] <= inner[|inner| - 1];
  }

  /** The span of any non-empty ordered index sequence on a non-decreasing time axis lies
      between zero and the span of the whole axis. */
  lemma SpanWithinAxis(x: seq<real>, idx: seq<nat>)
    requires SortedAsc(x)
    requires |idx| > 0 && Increasing(idx)
    requires forall k :: 0 <= k < |idx| ==> idx[k] < |x|
    ensures 0.0 <= Span(x, idx) <= x[|x| - 1] - x[0]
  {
    assert idx[0] <= idx[|idx| - 1];
  }

  /** On a non-decreasing time axis, the decay times are ordered as their names say:
      0 <= T10 <= T50 <= T90 <= T100. */
  lemma DecayOrdered(x: seq<real>, sm: seq<real>)
    requires 0 < |sm| && |x| == |sm|
    requires SortedAsc(x)
    requires DecayTimes(x, sm).Some?
    ensures 0.0 <= DecayTimes(x, sm).value.t10 <= DecayTimes(x, sm).value.t50
    ensures DecayTimes(x, sm).value.t50 <= DecayTimes(x, sm).value.t90 <= DecayTimes(x, sm).value.t100
  {
    var i10 := AboveIndices(sm, Level(sm, 0.9));
    var i50 := AboveIndices(sm, Level(sm, 0.5));
    var i90 := AboveIndices(sm, Level(sm, 0.1));
    assert DecayTimes(x, sm).value == Decay(Span(x, i10), Span(x, i50), Span(x, i90), x[|x| - 1] - x[0]);
    LevelMonotone(sm, 0.5, 0.9);
    LevelMonotone(sm, 0.1, 0.5);
    AboveIndicesNested(sm, Level(sm, 0.9), Level(sm, 0.5));
    AboveIndicesNested(sm, Level(sm, 0.5), Level(sm, 0.1));
    SpanWithin(x, i10, i50);
    SpanWithin(x, i50, i90);
    SpanWithinAxis(x, i90);
  }
}
