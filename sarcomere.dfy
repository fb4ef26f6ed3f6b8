/** The sarcomere-length measurement of sarcomere_custom.py. Each sheet holds four pairs of
    columns, a distance column followed by an intensity column. Each column loses its header
    and its empty cells; the intensity is smoothed with a 13-point cubic Savitzky-Golay filter
    and differenced; the rises of the derivative are detected with the fixed tolerances 0.1
    and 5; and the distances between consecutive rise ends are collected over the sheet. */
module Sarcomere {
  import opened Wrappers
  import opened SeqMath
  import SavitzkyGolay
  import opened RiseDetection

  const Window := 13
  const Order := 3
  const YTolerance := 0.1
  const XTolerance := 5
  /** `d_cols = range(0, 8, 2)`: four distance columns, each followed by its intensity. */
  const ColumnPairs := 4

  /** A spreadsheet cell: a number, or `None` when it is empty. */
  type Cell = Option<real>

  /** `column[1:]`: the column without its header cell. */
  function Body(cells: seq<Cell>): seq<Cell>
  {
    if cells == [] then [] else cells[1..]
  }

  /** `[x for x in cells if x is not None]`. */
  function PresentValues(cells: seq<Cell>): (vals: seq<real>)
    ensures |vals| <= |cells|
    decreases |cells|
  {
    if cells == [] then []
    else
      var n := |cells| - 1;
      var rest := PresentValues(cells[..n]);
      match cells[n]
      case Some(v) => rest + [v]
      case None => rest
  }

  /** The positions of the non-empty cells, in order. */
  function PresentIndices(cells: seq<Cell>): (idx: seq<nat>)
    ensures Increasing(idx)
    ensures forall k :: 0 <= k < |idx| ==> idx[k] < |cells|
    ensures forall i :: 0 <= i < |cells| ==> (i in idx <==> cells[i].Some?)
    decreases |cells|
  {
    if cells == [] then []
    else
      var n := |cells| - 1;
      var rest := PresentIndices(cells[..n]);
      assert forall i :: 0 <= i < n ==> cells[..n][i] == cells[i];
      if cells[n].Some? then rest + [n] else rest
  }

  /** The filter keeps exactly the non-empty cells, in their original order: the k-th value
      kept is the value of the k-th non-empty cell. */
  lemma {:induction false} PresentValuesInOrder(cells: seq<Cell>)
    ensures |PresentValues(cells)| == |PresentIndices(cells)|
    ensures forall k :: 0 <= k < |PresentIndices(cells)| ==>
              cells[PresentIndices(cells)[k]] == Some(PresentValues(cells)[k])
    decreases |cells|
  {
    if cells != [] {
      var n := |cells| - 1;
      PresentValuesInOrder(cells[..n]);
      assert forall i :: 0 <= i < n ==> cells[..n][i] == cells[i];
    }
  }

  datatype ColumnError =
    | ColumnMissing(pair: nat)                            // `cols[d_col]` or `cols[d_col + 1]` does not exist
    | LengthMismatch                                      // the assert of sarcomere_custom.py:88
    | SmoothingFailed(cause: SavitzkyGolay.FilterError)   // the intensity column is empty
    /** The plots of sarcomere_custom.py:142-152 raise: `dist[i+1]` of a rise end past the
        distances is an IndexError, and plotting the distances against a smoothed column of
        another length is a ValueError. */
    | PlotFailed

  /** The distances and intensities of one column pair after cleaning. */
  datatype Pair = Pair(dist: seq<real>, read: seq<real>)

  function Cleaned(distCells: seq<Cell>, readCells: seq<Cell>): Pair
  {
    Pair(PresentValues(Body(distCells)), PresentValues(Body(readCells)))
  }

  /** Why the measurement of the cleaned columns `dist` and `read` stops, if it does. */
  function ColumnCheck(dist: seq<real>, read: seq<real>, kernel: seq<real>): Option<ColumnError>
    requires |kernel| == Window
  {
    if |dist| != |read| then Some(LengthMismatch)
    else
      match SavitzkyGolay.Filter(read, Window, Order, kernel)
      case Err(e) => Some(SmoothingFailed(e))
      case Ok(smooth) => if |smooth| != |dist| then Some(PlotFailed) else None
  }

  /** Why the measurement of one column pair stops, if it does. */
  function PairCheck(distCells: seq<Cell>, readCells: seq<Cell>, kernel: seq<real>): Option<ColumnError>
    requires |kernel| == Window
  {
    ColumnCheck(Cleaned(distCells, readCells).dist, Cleaned(distCells, readCells).read, kernel)
  }

  /** A column pair is measured exactly when its two cleaned columns are equally long and
      hold four or more than six values. Otherwise the lengths differ, or the smoother reads
      the first sample of an empty intensity column, or the smoothed column of 1, 2, 3, 5 or 6
      values has 13, 10, 7, 1 or 4 samples and the plots fail. */
  lemma ColumnCheckIff(dist: seq<real>, read: seq<real>, kernel: seq<real>)
    requires |kernel| == Window
    ensures ColumnCheck(dist, read, kernel) == None <==>
              |dist| == |read| && (|read| > Window / 2 || |read| == 4)
    ensures ColumnCheck(dist, read, kernel) == Some(LengthMismatch) <==> |dist| != |read|
    ensures ColumnCheck(dist, read, kernel) == Some(SmoothingFailed(SavitzkyGolay.EmptySignal)) <==>
              |dist| == |read| == 0
    ensures ColumnCheck(dist, read, kernel) == Some(PlotFailed) <==>
              |dist| == |read| && 0 < |read| <= Window / 2 && |read| != 4
  {
    SavitzkyGolay.FilterOutcome(read, Window, Order, kernel);
  }

  /** Every rise end is followed by a distance sample. */
  predicate EndsInside(dist: seq<real>, ends: seq<nat>)
  {
    forall i :: 0 <= i < |ends| ==> ends[i] + 1 < |dist|
  }

  /** `sarcomere_dist`: the distance from the sample after each rise end to the sample after
      the next rise end; one fewer than there are rises, and none (nothing is looked up) with
      fewer than two rises. */
  function PeakSpacings(dist: seq<real>, ends: seq<nat>): (sp: seq<real>)
    requires |ends| > 1 ==> EndsInside(dist, ends)
    ensures |sp| == if |ends| == 0 then 0 else |ends| - 1
  {
    if |ends| == 0 then []
    else seq(|ends| - 1, i requires 0 <= i < |ends| - 1 => dist[ends[i + 1] + 1] - dist[ends[i] + 1])
  }

  /** On a strictly increasing distance axis, every spacing between ordered rise ends is
      positive. */
  lemma SpacingsPositive(dist: seq<real>, ends: seq<nat>)
    requires EndsInside(dist, ends)
    requires forall i, j :: 0 <= i < j < |dist| ==> dist[i] < dist[j]
    requires Increasing(ends)
    ensures forall k :: 0 <= k < |PeakSpacings(dist, ends)| ==> PeakSpacings(dist, ends)[k] > 0.0
  {
    var sp := PeakSpacings(dist, ends);
    forall k | 0 <= k < |sp|
      ensures sp[k] > 0.0
    {
      assert ends[k] < ends[k + 1];
      assert dist[ends[k] + 1] < dist[ends[k + 1] + 1];
    }
  }

  /** The spacings add up to the distance from the sample after the first rise end to the
      sample after the last one. */
  lemma SpacingsTelescope(dist: seq<real>, ends: seq<nat>)
    requires EndsInside(dist, ends)
    requires |ends| > 0
    ensures Sum(PeakSpacings(dist, ends)) == dist[ends[|ends| - 1] + 1] - dist[ends[0] + 1]
  {
    var peaks := seq(|ends|, i requires 0 <= i < |ends| => dist[ends[i] + 1]);
    var sp := PeakSpacings(dist, ends);
    DiffTelescopes(peaks, 0, |ends| - 1);
    assert sp == Diff(peaks)[0..|ends| - 1];
  }

  /** What a successful measurement of one column pair establishes: the cleaned columns pass
      the checks, the smoothed intensity is as long as the intensity column, its first
      difference is one sample shorter, `rises` are exactly the rises of the first difference,
      each rise end is followed by a distance sample, and `spacings` are the peak spacings. */
  ghost predicate ColumnMeasured(distCells: seq<Cell>, readCells: seq<Cell>, kernel: seq<real>, rises: Rises, spacings: seq<real>)
    requires |kernel| == Window
  {
    PairCheck(distCells, readCells, kernel) == None
    && var Pair(dist, read) := Cleaned(distCells, readCells);
    var smooth := SavitzkyGolay.Filter(read, Window, Order, kernel).value;
    var deriv := Diff(smooth);
    0 < |read| && |smooth| == |read|
    && |deriv| == |smooth| - 1
    && Detected(deriv, YTolerance, XTolerance, rises.starts, rises.ends)
    && EndsInside(dist, rises.ends)
    && spacings == PeakSpacings(dist, rises.ends)
  }

  /** The body of the loop over `d_cols` (sarcomere_custom.py:77-133) for one column pair. */
  method MeasureColumn(distCells: seq<Cell>, readCells: seq<Cell>, kernel: seq<real>)
    returns (r: Result<seq<real>, ColumnError>, rises: Rises)
    requires |kernel| == Window
    ensures r.Err? <==> PairCheck(distCells, readCells, kernel).Some?
    ensures r.Err? ==> Some(r.error) == PairCheck(distCells, readCells, kernel)
    ensures r.Ok? ==> ColumnMeasured(distCells, readCells, kernel, rises, r.value)
  {
    rises := Rises([], []);
    var dist := PresentValues(Body(distCells));
    var read := PresentValues(Body(readCells));
    if |dist| != |read| {
      return Err(LengthMismatch), rises;
    }
    var smoothed := SavitzkyGolay.Filter(read, Window, Order, kernel);
    if smoothed.Err? {
      return Err(SmoothingFailed(smoothed.error)), rises;
    }
    SavitzkyGolay.FilterOutcome(read, Window, Order, kernel);
    var readDeriv := Diff(smoothed.value);
    var scanned := DetectRises(readDeriv, YTolerance, XTolerance);
    assert scanned.Ok?;
    rises := scanned.value;
    RisesInside(readDeriv, YTolerance, XTolerance, rises.starts, rises.ends);
    if |read| <= Window / 2 {
      ShortColumnAtMostOneRise(read, kernel, rises);
    }
    var sarcomereDist := PeakSpacings(dist, rises.ends);
    if |smoothed.value| != |dist| {
      return Err(PlotFailed), rises;
    }
    r := Ok(sarcomereDist);
  }

  /** An intensity column of at most six values smooths to at most 13 samples (13, 10, 7, 4,
      1 or 4 of them), too few for two rises of more than five samples each with a sample at or
      below the tolerance after each: `sarcomere_dist` of such a column looks nothing up. */
  lemma ShortColumnAtMostOneRise(read: seq<real>, kernel: seq<real>, rises: Rises)
    requires |kernel| == Window && 0 < |read| <= Window / 2
    requires Detected(Diff(SavitzkyGolay.Filter(read, Window, Order, kernel).value), YTolerance, XTolerance,
                      rises.starts, rises.ends)
    ensures |rises.ends| <= 1
  {
    SavitzkyGolay.FilterOutcome(read, Window, Order, kernel);
    var d := Diff(SavitzkyGolay.Filter(read, Window, Order, kernel).value);
    assert |d| <= 12;
    RisesInside(d, YTolerance, XTolerance, rises.starts, rises.ends);
    if |rises.ends| > 1 {
      FallBetween(d, YTolerance, XTolerance, rises.starts, rises.ends, 0);
      assert false;
    }
  }

  /** All parts joined in order. */
  function Flatten(parts: seq<seq<real>>): seq<real>
    decreases |parts|
  {
    if parts == [] then [] else Flatten(parts[..|parts| - 1]) + parts[|parts| - 1]
  }

  /** Column pair `c` of the sheet exists and its measurement gave `rises` and `spacings`. */
  ghost predicate PairMeasured(columns: seq<seq<Cell>>, kernel: seq<real>, c: nat, rises: Rises, spacings: seq<real>)
    requires |kernel| == Window
  {
    2 * c + 1 < |columns| && ColumnMeasured(columns[2 * c], columns[2 * c + 1], kernel, rises, spacings)
  }

  /** One pass of the loop over `d_cols`: `cols[d_col]` and `cols[d_col + 1]` are looked up
      and measured. */
  method MeasurePair(columns: seq<seq<Cell>>, kernel: seq<real>, c: nat)
    returns (r: Result<seq<real>, ColumnError>, rises: Rises)
    requires |kernel| == Window
    ensures r.Err? && 2 * c + 1 >= |columns| ==> r.error == ColumnMissing(c)
    ensures r.Err? && 2 * c + 1 < |columns| ==> Some(r.error) == PairCheck(columns[2 * c], columns[2 * c + 1], kernel)
    ensures r.Ok? ==> PairMeasured(columns, kernel, c, rises, r.value)
  {
    if 2 * c + 1 >= |columns| {
      return Err(ColumnMissing(c)), Rises([], []);
    }
    r, rises := MeasureColumn(columns[2 * c], columns[2 * c + 1], kernel);
  }

  /** The loop over the four column pairs of one sheet (sarcomere_custom.py:72-134): the
      spacings of every pair are appended to `sarcomere_dists`; the first pair that is missing
      or fails its checks stops the measurement. `rises` and `parts` are what each measured
      pair contributed. */
  method MeasureSheet(columns: seq<seq<Cell>>, kernel: seq<real>)
    returns (r: Result<seq<real>, ColumnError>, ghost rises: seq<Rises>, ghost parts: seq<seq<real>>)
    requires |kernel| == Window
    ensures |rises| == |parts| <= ColumnPairs
    ensures forall c :: 0 <= c < |parts| ==> PairMeasured(columns, kernel, c, rises[c], parts[c])
    ensures r.Ok? <==> |parts| == ColumnPairs
    ensures r.Ok? ==> r.value == Flatten(parts)
    ensures r.Err? && 2 * |parts| + 1 >= |columns| ==> r.error == ColumnMissing(|parts|)
    ensures r.Err? && 2 * |parts| + 1 < |columns| ==>
              Some(r.error) == PairCheck(columns[2 * |parts|], columns[2 * |parts| + 1], kernel)
  {
    var sarcomereDists: seq<real> := [];
    rises, parts := [], [];
    for c := 0 to ColumnPairs
      invariant |rises| == |parts| == c
      invariant forall j :: 0 <= j < c ==> PairMeasured(columns, kernel, j, rises[j], parts[j])
      invariant sarcomereDists == Flatten(parts)
    {
      var measured, found := MeasurePair(columns, kernel, c);
      if measured.Err? {
        return Err(measured.error), rises, parts;
      }
      PairsMeasuredExtend(columns, kernel, rises, parts, found, measured.value);
      FlattenSnoc(parts, measured.value);
      sarcomereDists := sarcomereDists + measured.value;
      rises, parts := rises + [found], parts + [measured.value];
    }
    r := Ok(sarcomereDists);
  }

  /** The measurement of the next column pair extends the measured pairs. */
  lemma PairsMeasuredExtend(columns: seq<seq<Cell>>, kernel: seq<real>, rises: seq<Rises>, parts: seq<seq<real>>,
                            found: Rises, part: seq<real>)
    requires |kernel| == Window && |rises| == |parts|
    requires forall j :: 0 <= j < |parts| ==> PairMeasured(columns, kernel, j, rises[j], parts[j])
    requires PairMeasured(columns, kernel, |parts|, found, part)
    ensures forall j :: 0 <= j < |parts| + 1 ==> PairMeasured(columns, kernel, j, (rises + [found])[j], (parts + [part])[j])
  {
    forall j | 0 <= j < |parts| + 1
      ensures PairMeasured(columns, kernel, j, (rises + [found])[j], (parts + [part])[j])
    {
      if j < |parts| {
        assert PairMeasured(columns, kernel, j, rises[j], parts[j]);
        assert (rises + [found])[j] == rises[j] && (parts + [part])[j] == parts[j];
      } else {
        assert (rises + [found])[j] == found && (parts + [part])[j] == part;
      }
    }
  }

  /** Joining one more part appends it. */
  lemma FlattenSnoc(parts: seq<seq<real>>, part: seq<real>)
    ensures Flatten(parts + [part]) == Flatten(parts) + part
  {
    assert (parts + [part])[..|parts|] == parts;
  }
}
