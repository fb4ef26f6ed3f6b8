/** The run-length threshold scan that main.py and sarcomere_custom.py share: it marks the
    stretches where a derivative stays above `yTol` for more than `xTol` samples, and the
    fall segments between consecutive stretches. */
module RiseDetection {
  import opened Wrappers
  import opened SeqMath

  /** `s..e` is a maximal stretch of samples above `yTol` that a later sample at or below
      `yTol` closes, and it is longer than `xTol`: what the scan reports as a rise. */
  predicate IsRise(d: seq<real>, yTol: real, xTol: int, s: int, e: int)
  {
    0 <= s <= e && e + 1 < |d|
    && (forall k :: s <= k <= e ==> d[k] > yTol)
    && d[e + 1] <= yTol
    && (s == 0 || d[s - 1] <= yTol)
    && e - s + 1 > xTol
  }

  /** Sample `i` closes a run that holds no index: with a negative `xTol` the scan then
      reads the first element of the empty run. */
  predicate ClosesEmptyRun(d: seq<real>, yTol: real, i: int)
  {
    0 <= i < |d| && d[i] <= yTol && (i == 0 || d[i - 1] <= yTol)
  }

  /** `starts`/`ends` list exactly the rises of `d`, each once, in increasing order with at
      least one sample between any rise and a later one. (The bounds are part of `IsRise`;
      stating them on their own lets them be used without naming the rise.) */
  ghost predicate Detected(d: seq<real>, yTol: real, xTol: int, starts: seq<nat>, ends: seq<nat>)
  {
    |starts| == |ends|
    && (forall k :: 0 <= k < |starts| ==> starts[k] <= ends[k] && ends[k] + 1 < |d|)
    && (forall k {:trigger IsRise(d, yTol, xTol, starts[k], ends[k])} :: 0 <= k < |starts| ==> IsRise(d, yTol, xTol, starts[k], ends[k]))
    && (forall a, b :: 0 <= a < b < |starts| ==> ends[a] + 1 < starts[b])
    && (forall s, e :: IsRise(d, yTol, xTol, s, e) ==>
          exists k :: 0 <= k < |starts| && starts[k] == s && ends[k] == e)
  }

  datatype Rises = Rises(starts: seq<nat>, ends: seq<nat>)

  datatype ScanError = EmptyRunIndexed(at: nat)

  /** A stretch of samples above `yTol` that starts at the beginning or right after a sample at
      or below `yTol` and ends right before `i` is the run the scan holds at `i`. */
  lemma RiseEndingBefore(d: seq<real>, yTol: real, xTol: int, i: nat, runStart: nat, s: int)
    requires i < |d| && runStart <= i
    requires forall k :: runStart <= k < i ==> d[k] > yTol
    requires runStart == 0 || d[runStart - 1] <= yTol
    requires IsRise(d, yTol, xTol, s, i - 1)
    ensures s == runStart
  {
  }

  /** What the scan knows after reading `d[..i]` while it holds the run `runStart..i-1`:
      every reported interval is a rise, the reports are ordered and lie before the run, and
      every rise closed before `i` has been reported. */
  ghost predicate Scanned(d: seq<real>, yTol: real, xTol: int, i: nat, runStart: nat, starts: seq<nat>, ends: seq<nat>)
  {
    runStart <= i <= |d|
    && (forall k :: runStart <= k < i ==> d[k] > yTol)
    && (runStart == 0 || d[runStart - 1] <= yTol)
    && |starts| == |ends|
    && (forall k :: 0 <= k < |starts| ==> starts[k] <= ends[k] && ends[k] + 1 < |d|)
    && (forall k {:trigger IsRise(d, yTol, xTol, starts[k], ends[k])} :: 0 <= k < |starts| ==> IsRise(d, yTol, xTol, starts[k], ends[k]))
    && (forall a, b :: 0 <= a < b < |starts| ==> ends[a] + 1 < starts[b])
    && (forall k :: 0 <= k < |ends| ==> ends[k] + 1 < runStart)
    && (forall s, e :: IsRise(d, yTol, xTol, s, e) && e + 1 < i ==>
          exists k :: 0 <= k < |starts| && starts[k] == s && ends[k] == e)
  }

  /** A sample above `yTol` extends the run. */
  lemma ScanExtends(d: seq<real>, yTol: real, xTol: int, i: nat, runStart: nat, starts: seq<nat>, ends: seq<nat>)
    requires Scanned(d, yTol, xTol, i, runStart, starts, ends)
    requires i < |d| && d[i] > yTol
    ensures Scanned(d, yTol, xTol, i + 1, runStart, starts, ends)
  {
  }

  /** A sample at or below `yTol` closes a run too short to report. */
  lemma ScanDiscards(d: seq<real>, yTol: real, xTol: int, i: nat, runStart: nat, starts: seq<nat>, ends: seq<nat>)
    requires Scanned(d, yTol, xTol, i, runStart, starts, ends)
    requires i < |d| && d[i] <= yTol && i - runStart <= xTol
    ensures Scanned(d, yTol, xTol, i + 1, i + 1, starts, ends)
  {
    forall s, e | IsRise(d, yTol, xTol, s, e) && e + 1 < i + 1
      ensures exists k :: 0 <= k < |starts| && starts[k] == s && ends[k] == e
    {
      if e + 1 == i {
        RiseEndingBefore(d, yTol, xTol, i, runStart, s);
      }
    }
  }

  /** A sample at or below `yTol` closes a non-empty run longer than `xTol`: a rise. */
  lemma ScanEmits(d: seq<real>, yTol: real, xTol: int, i: nat, runStart: nat, starts: seq<nat>, ends: seq<nat>)
    requires Scanned(d, yTol, xTol, i, runStart, starts, ends)
    requires i < |d| && d[i] <= yTol && i - runStart > xTol && runStart < i
    ensures IsRise(d, yTol, xTol, runStart, i - 1)
    ensures Scanned(d, yTol, xTol, i + 1, i + 1, starts + [runStart], ends + [i - 1])
  {
    var starts', ends' := starts + [runStart], ends + [i - 1];
    forall s, e | IsRise(d, yTol, xTol, s, e) && e + 1 < i + 1
      ensures exists k :: 0 <= k < |starts'| && starts'[k] == s && ends'[k] == e
    {
      if e + 1 == i {
        RiseEndingBefore(d, yTol, xTol, i, runStart, s);
        assert starts'[|starts|] == s && ends'[|ends|] == e;
      } else {
        var k :| 0 <= k < |starts| && starts[k] == s && ends[k] == e;
        assert starts'[k] == s && ends'[k] == e;
      }
    }
  }

  /** Once every sample is read, the reports are exactly the rises. */
  lemma ScanFinished(d: seq<real>, yTol: real, xTol: int, runStart: nat, starts: seq<nat>, ends: seq<nat>)
    requires Scanned(d, yTol, xTol, |d|, runStart, starts, ends)
    ensures Detected(d, yTol, xTol, starts, ends)
  {
  }

  /** The scan of main.py:108-125: extend the current run while the derivative exceeds
      `yTol`; at any other sample report the run if it is longer than `xTol`, then reset it.
      A run still open at the end is dropped. */
  method DetectRises(d: seq<real>, yTol: real, xTol: int) returns (r: Result<Rises, ScanError>)
    ensures r.Err? <==> xTol < 0 && exists i :: ClosesEmptyRun(d, yTol, i)
    ensures r.Err? ==> ClosesEmptyRun(d, yTol, r.error.at)
                       && forall i :: 0 <= i < r.error.at ==> !ClosesEmptyRun(d, yTol, i)
    ensures r.Ok? ==> Detected(d, yTol, xTol, r.value.starts, r.value.ends)
  {
    var starts: seq<nat> := [];
    var ends: seq<nat> := [];
    var run: seq<nat> := [];
    ghost var runStart: nat := 0;
    for i := 0 to |d|
      invariant runStart + |run| == i
      invariant forall j :: 0 <= j < |run| ==> run[j] == runStart + j
      invariant Scanned(d, yTol, xTol, i, runStart, starts, ends)
      invariant xTol < 0 ==> forall j :: 0 <= j < i ==> !ClosesEmptyRun(d, yTol, j)
    {
      if d[i] > yTol {
        ScanExtends(d, yTol, xTol, i, runStart, starts, ends);
        run := run + [i];
      } else {
        var closed := CloseRun(d, yTol, xTol, i, run, runStart, starts, ends);
        if closed.Err? {
          return closed;
        }
        starts, ends := closed.value.starts, closed.value.ends;
        run := [];
        runStart := i + 1;
      }
    }
    ScanFinished(d, yTol, xTol, runStart, starts, ends);
    return Ok(Rises(starts, ends));
  }

  /** The branch of the scan at a sample `d[i]` at or below `yTol`: the run held so far is
      reported when it is longer than `xTol` (reading its first element fails when it is
      empty), and dropped otherwise. */
  method CloseRun(d: seq<real>, yTol: real, xTol: int, i: nat, run: seq<nat>, ghost runStart: nat,
                  starts: seq<nat>, ends: seq<nat>) returns (r: Result<Rises, ScanError>)
    requires Scanned(d, yTol, xTol, i, runStart, starts, ends)
    requires i < |d| && d[i] <= yTol
    requires runStart + |run| == i && forall j :: 0 <= j < |run| ==> run[j] == runStart + j
    ensures r.Err? <==> xTol < 0 && run == []
    ensures r.Err? ==> r.error.at == i && ClosesEmptyRun(d, yTol, i)
    ensures xTol < 0 && r.Ok? ==> !ClosesEmptyRun(d, yTol, i)
    ensures r.Ok? ==> Scanned(d, yTol, xTol, i + 1, i + 1, r.value.starts, r.value.ends)
  {
    if |run| > xTol {
      if run == [] {
        assert ClosesEmptyRun(d, yTol, i);
        return Err(EmptyRunIndexed(i));
      }
      assert run[0] == runStart && run[|run| - 1] == i - 1;
      assert d[i - 1] > yTol;
      ScanEmits(d, yTol, xTol, i, runStart, starts, ends);
      r := Ok(Rises(starts + [run[0]], ends + [run[|run| - 1]]));
    } else {
      ScanDiscards(d, yTol, xTol, i, runStart, starts, ends);
      r := Ok(Rises(starts, ends));
    }
  }

  /** Each reported rise lies inside the derivative with a sample after it, and is longer
      than `xTol`. */
  lemma RisesInside(d: seq<real>, yTol: real, xTol: int, starts: seq<nat>, ends: seq<nat>)
    requires Detected(d, yTol, xTol, starts, ends)
    ensures |starts| == |ends|
    ensures forall i :: 0 <= i < |ends| ==> starts[i] <= ends[i] && ends[i] + 1 < |d| && ends[i] - starts[i] + 1 > xTol
  {
    forall i | 0 <= i < |ends|
      ensures starts[i] <= ends[i] && ends[i] + 1 < |d| && ends[i] - starts[i] + 1 > xTol
    {
      assert IsRise(d, yTol, xTol, starts[i], ends[i]);
    }
  }

  /** The reported rises lie inside the derivative with a sample after each of them, each is
      longer than `xTol`, and both their starts and their ends are strictly increasing. */
  lemma RisesOrdered(d: seq<real>, yTol: real, xTol: int, starts: seq<nat>, ends: seq<nat>)
    requires Detected(d, yTol, xTol, starts, ends)
    ensures |starts| == |ends|
    ensures forall i :: 0 <= i < |ends| ==> starts[i] <= ends[i] && ends[i] + 1 < |d| && ends[i] - starts[i] + 1 > xTol
    ensures Increasing(starts) && Increasing(ends)
  {
    RisesInside(d, yTol, xTol, starts, ends);
    forall a, b | 0 <= a < b < |ends|
      ensures starts[a] < starts[b] && ends[a] < ends[b]
    {
      assert ends[a] + 1 < starts[b];
    }
  }

  /** `tracelet_intervals`: each fall segment runs from the end of one rise to the start of
      the next; there is one fewer than there are rises, and none without rises. */
  function FallIntervals(starts: seq<nat>, ends: seq<nat>): (f: seq<(nat, nat)>)
    requires |starts| == |ends|
    ensures |f| == if |ends| == 0 then 0 else |ends| - 1
  {
    if |ends| == 0 then []
    else seq(|ends| - 1, i requires 0 <= i < |ends| - 1 => (ends[i], starts[i + 1]))
  }

  /** The fall segments between detected rises hold at least two samples, lie inside the
      trace, begin at a rise's last index and end at the next rise's first index, and the
      derivative is at or below `yTol` at both of their inner edges. */
  lemma FallIntervalsBetweenRises(d: seq<real>, yTol: real, xTol: int, starts: seq<nat>, ends: seq<nat>)
    requires Detected(d, yTol, xTol, starts, ends)
    ensures forall i :: 0 <= i < |FallIntervals(starts, ends)| ==>
              FallIntervals(starts, ends)[i].0 == ends[i]
              && FallIntervals(starts, ends)[i].1 == starts[i + 1]
              && FallIntervals(starts, ends)[i].0 + 1 < FallIntervals(starts, ends)[i].1
              && FallIntervals(starts, ends)[i].1 + 1 < |d|
              && d[FallIntervals(starts, ends)[i].0 + 1] <= yTol
              && d[FallIntervals(starts, ends)[i].1 - 1] <= yTol
  {
    var f := FallIntervals(starts, ends);
    forall i | 0 <= i < |f|
      ensures f[i].0 == ends[i] && f[i].1 == starts[i + 1]
      ensures f[i].0 + 1 < f[i].1 && f[i].1 + 1 < |d|
      ensures d[f[i].0 + 1] <= yTol && d[f[i].1 - 1] <= yTol
    {
      assert f[i] == (ends[i], starts[i + 1]);
      FallBetween(d, yTol, xTol, starts, ends, i);
    }
  }

  /** The samples right after one rise and right before the next are at or below `yTol`,
      and at least one sample lies strictly between the two rises. */
  lemma FallBetween(d: seq<real>, yTol: real, xTol: int, starts: seq<nat>, ends: seq<nat>, i: nat)
    requires Detected(d, yTol, xTol, starts, ends)
    requires i + 1 < |ends|
    ensures IsRise(d, yTol, xTol, starts[i], ends[i]) && IsRise(d, yTol, xTol, starts[i + 1], ends[i + 1])
    ensures ends[i] + 1 < starts[i + 1] <= ends[i + 1] && ends[i + 1] + 1 < |d|
    ensures d[ends[i] + 1] <= yTol && d[starts[i + 1] - 1] <= yTol
  {
  }

  /** Over a detected rise of the first difference of a trace, the trace climbs by more than
      `yTol` per sample. */
  lemma RiseClimbs(smooth: seq<real>, yTol: real, xTol: int, s: nat, e: nat)
    requires IsRise(Diff(smooth), yTol, xTol, s, e)
    ensures smooth[e + 1] - smooth[s] > (e - s + 1) as real * yTol
  {
    var d := Diff(smooth);
    DiffTelescopes(smooth, s, e + 1);
    SumAbove(d[s..e + 1], yTol);
  }
}
