/** The calcium trace of caltrace.py: one recorded column of interleaved 340 nm / 380 nm
    readings with its time and background columns, the ratio trace built from it, the
    smoothed trace and its first difference, and the two orientation flags. */
module CalTrace {
  import opened Wrappers
  import opened SeqMath
  import SavitzkyGolay

  /** The assertion or arithmetic failure that stops a method of the trace. */
  datatype TraceError =
    | DimensionMismatch                          // data, time and background differ in length
    | OddRowCount                                // the readings do not pair up
    | EmptyBackground                            // smoothing an empty background channel indexes its first sample
    | ZeroDenominator                            // a 380 nm reading of zero in the ratio
    | RatioNotCalculated                         // smoothing before the ratio exists
    | FilterFailed(cause: SavitzkyGolay.FilterError)
    | DerivativeNotCalculated                    // orientation check before the derivative exists
    | ZeroRatio                                  // a ratio of zero cannot be inverted

  /** The two assertions of the constructor, in the order they are made. */
  function ConstructionCheck(tm: seq<real>, rawDt: seq<real>, bg: seq<real>): (r: Option<TraceError>)
    ensures r == None <==> |rawDt| == |tm| == |bg| && |rawDt| % 2 == 0
    ensures r == Some(OddRowCount) <==> |rawDt| == |tm| == |bg| && |rawDt| % 2 == 1
  {
    if !(|rawDt| == |tm| && |rawDt| == |bg|) then Some(DimensionMismatch)
    else if |rawDt| % 2 != 0 then Some(OddRowCount)
    else None
  }

  /** Background subtraction, reading by reading. */
  function Subtract(a: seq<real>, b: seq<real>): (d: seq<real>)
    requires |a| == |b|
    ensures |d| == |a|
    ensures forall i :: 0 <= i < |a| ==> d[i] + b[i] == a[i]
  {
    seq(|a|, i requires 0 <= i < |a| => a[i] - b[i])
  }

  /** Some 380 nm reading (odd position) is zero, so the ratio divides by zero. */
  predicate HasZeroDenominator(dt: seq<real>)
  {
    exists i :: 0 <= i < |dt| / 2 && dt[2 * i + 1] == 0.0
  }

  /** The ratio trace: each 340 nm reading over the 380 nm reading that follows it. */
  function ChannelRatio(dt: seq<real>): (ratio: seq<real>)
    requires |dt| % 2 == 0 && !HasZeroDenominator(dt)
    ensures |ratio| == |dt| / 2
    ensures forall i :: 0 <= i < |ratio| ==> ratio[i] * dt[2 * i + 1] == dt[2 * i]
  {
    seq(|dt| / 2, i requires 0 <= i < |dt| / 2 => dt[2 * i] / dt[2 * i + 1])
  }

  /** The assumed time of each reading pair: the midpoint of its two time stamps. */
  function MidTimes(tm: seq<real>): (mid: seq<real>)
    requires |tm| % 2 == 0
    ensures |mid| == |tm| / 2
  {
    seq(|tm| / 2, i requires 0 <= i < |tm| / 2 => (tm[2 * i] + tm[2 * i + 1]) / 2.0)
  }

  predicate StrictlyIncreasing(s: seq<real>)
  {
    forall i :: 0 <= i < |s| - 1 ==> s[i] < s[i + 1]
  }

  /** Each midpoint lies strictly between its two time stamps, so strictly increasing time
      stamps give strictly increasing midpoints. */
  lemma MidTimesIncreasing(tm: seq<real>)
    requires |tm| % 2 == 0 && StrictlyIncreasing(tm)
    ensures forall i :: 0 <= i < |tm| / 2 ==> tm[2 * i] < MidTimes(tm)[i] < tm[2 * i + 1]
    ensures StrictlyIncreasing(MidTimes(tm))
  {
    var mid := MidTimes(tm);
    forall i | 0 <= i < |mid| - 1
      ensures mid[i] < mid[i + 1]
    {
      assert tm[2 * i + 1] < tm[2 * i + 2];
    }
  }

  predicate AllNonzero(s: seq<real>)
  {
    forall i :: 0 <= i < |s| ==> s[i] != 0.0
  }

  /** `[1./r for r in ratio]` */
  function Reciprocals(s: seq<real>): (inv: seq<real>)
    requires AllNonzero(s)
    ensures |inv| == |s| && AllNonzero(inv)
    ensures forall i :: 0 <= i < |s| ==> inv[i] * s[i] == 1.0
  {
    seq(|s|, i requires 0 <= i < |s| => 1.0 / s[i])
  }

  /** Flipping twice restores the ratio trace: a flip never loses information. */
  lemma ReciprocalsInvolution(s: seq<real>)
    requires AllNonzero(s)
    ensures Reciprocals(Reciprocals(s)) == s
  {
    var once := Reciprocals(s);
    var twice := Reciprocals(once);
    forall i | 0 <= i < |s|
      ensures twice[i] == s[i]
    {
      assert twice[i] * once[i] == 1.0 && once[i] * s[i] == 1.0;
    }
  }

  class CalciumTrace {
    const tm: seq<real>
    const rawDt: seq<real>
    const bg: seq<real>
    var dt: seq<real>
    var ratio: seq<real>
    var medianTime: seq<real>
    var smooth: seq<real>
    var deriv: seq<real>
    var ratioVerified: bool
    var ratioHasBeenFlipped: bool

    /** The recorded columns pair up, the working data is the raw data with or without the
        background taken off, and the ratio and time traces have one entry per reading pair
        once they exist. */
    ghost predicate Valid()
      reads this
    {
      ConstructionCheck(tm, rawDt, bg) == None
      && (dt == rawDt || dt == Subtract(rawDt, bg))
      && |ratio| == |medianTime|
      && (ratio == [] || |ratio| == |tm| / 2)
    }

    constructor (tm: seq<real>, rawDt: seq<real>, bg: seq<real>)
      requires ConstructionCheck(tm, rawDt, bg) == None
      ensures Valid()
      ensures this.tm == tm && this.rawDt == rawDt && this.bg == bg && dt == rawDt
      ensures ratio == [] && medianTime == [] && smooth == [] && deriv == []
      ensures !ratioVerified && !ratioHasBeenFlipped
    {
      this.tm := tm;
      this.rawDt := rawDt;
      this.bg := bg;
      dt := rawDt;
      ratio := [];
      medianTime := [];
      smooth := [];
      deriv := [];
      ratioVerified := false;
      ratioHasBeenFlipped := false;
    }

    /** `CalciumTrace(sheetname, colname, tm, raw_dt, bg)` with its two assertions. */
    static method Create(tm: seq<real>, rawDt: seq<real>, bg: seq<real>) returns (r: Result<CalciumTrace, TraceError>)
      ensures ConstructionCheck(tm, rawDt, bg).Some? ==> r == Err(ConstructionCheck(tm, rawDt, bg).value)
      ensures ConstructionCheck(tm, rawDt, bg) == None ==>
                r.Ok? && fresh(r.value) && r.value.Valid()
                && r.value.tm == tm && r.value.rawDt == rawDt && r.value.bg == bg && r.value.dt == rawDt
                && r.value.ratio == [] && r.value.medianTime == [] && r.value.smooth == [] && r.value.deriv == []
                && !r.value.ratioVerified && !r.value.ratioHasBeenFlipped
    {
      var check := ConstructionCheck(tm, rawDt, bg);
      if check.Some? {
        return Err(check.value);
      }
      var trace := new CalciumTrace(tm, rawDt, bg);
      return Ok(trace);
    }

    /** `make_ratio`: optional background subtraction, then the ratio and time traces.
        With `smoothBackground` the smoothed background is built and then dropped, so the
        working data is left as it was; only an empty background makes that branch fail. */
    method MakeRatio(correctBackground: bool, smoothBackground: bool) returns (r: Result<(), TraceError>)
      requires Valid()
      modifies this`dt, this`ratio, this`medianTime
      ensures Valid()
      ensures correctBackground && smoothBackground && bg == [] ==>
                r == Err(EmptyBackground) && dt == old(dt) && ratio == old(ratio) && medianTime == old(medianTime)
      ensures !(correctBackground && smoothBackground && bg == []) ==>
                dt == (if correctBackground && !smoothBackground then Subtract(rawDt, bg) else old(dt))
      ensures !(correctBackground && smoothBackground && bg == []) && HasZeroDenominator(dt) ==>
                r == Err(ZeroDenominator) && ratio == old(ratio) && medianTime == old(medianTime)
      ensures !(correctBackground && smoothBackground && bg == []) && !HasZeroDenominator(dt) ==>
                r == Ok(()) && ratio == ChannelRatio(dt) && medianTime == MidTimes(tm)
    {
      if correctBackground {
        if smoothBackground {
          if bg == [] {
            return Err(EmptyBackground);
          }
        } else {
          dt := Subtract(rawDt, bg);
        }
      }
      if HasZeroDenominator(dt) {
        return Err(ZeroDenominator);
      }
      ratio := ChannelRatio(dt);
      medianTime := MidTimes(tm);
      r := Ok(());
    }

    /** `smoothen(size, order, derivatize)`: the Savitzky-Golay smoothing of the ratio trace
        (kernel supplied) and, if asked, its first difference. */
    method Smoothen(size: int, order: int, derivatize: bool, kernel: seq<real>) returns (r: Result<(), TraceError>)
      requires Valid()
      requires SavitzkyGolay.KernelExists(size, order) ==> |kernel| == size
      modifies this`smooth, this`deriv
      ensures Valid()
      ensures ratio == [] ==> r == Err(RatioNotCalculated) && smooth == old(smooth) && deriv == old(deriv)
      ensures ratio != [] ==>
                match SavitzkyGolay.Filter(ratio, size, order, kernel)
                case Err(e) => r == Err(FilterFailed(e)) && smooth == old(smooth) && deriv == old(deriv)
                case Ok(s) => r == Ok(()) && smooth == s && deriv == (if derivatize then Diff(s) else old(deriv))
    {
      if ratio == [] {
        return Err(RatioNotCalculated);
      }
      var filtered := SavitzkyGolay.Filter(ratio, size, order, kernel);
      if filtered.Err? {
        return Err(FilterFailed(filtered.error));
      }
      smooth := filtered.value;
      if derivatize {
        deriv := Diff(smooth);
      }
      r := Ok(());
    }

    /** `correct_ratio(deriv_median_tol)`: a derivative whose median lies above the tolerance
        means the channels were recorded the other way round, so an unverified ratio trace is
        inverted; a median at or below the tolerance verifies the trace. A verified trace is
        never inverted again and never loses its verification. */
    method CorrectRatio(tol: real) returns (r: Result<(), TraceError>)
      requires Valid()
      modifies this`ratio, this`ratioVerified, this`ratioHasBeenFlipped
      ensures Valid()
      ensures deriv == [] ==> r == Err(DerivativeNotCalculated) && unchanged(this)
      ensures deriv != [] && Median(deriv) > tol && !old(ratioVerified) ==>
                if AllNonzero(old(ratio))
                then r == Ok(()) && ratio == Reciprocals(old(ratio)) && ratioHasBeenFlipped && !ratioVerified
                else r == Err(ZeroRatio) && unchanged(this)
      ensures deriv != [] && Median(deriv) > tol && old(ratioVerified) ==> r == Ok(()) && unchanged(this)
      ensures deriv != [] && Median(deriv) <= tol ==>
                r == Ok(()) && ratioVerified && ratio == old(ratio)
                && ratioHasBeenFlipped == old(ratioHasBeenFlipped)
      ensures old(ratioVerified) ==> ratioVerified && ratio == old(ratio)
    {
      if deriv == [] {
        return Err(DerivativeNotCalculated);
      }
      var median := Median(deriv);
      if median > tol && !ratioVerified {
        if !AllNonzero(ratio) {
          return Err(ZeroRatio);
        }
        ratio := Reciprocals(ratio);
        ratioHasBeenFlipped := true;
      } else if median <= tol {
        ratioVerified := true;
      }
      r := Ok(());
    }
  }
}
