/** The Savitzky-Golay smoother of sg.py with its boundary handling.
    The least-squares kernel `m` (a row of the pseudo-inverse of the Vandermonde matrix,
    computed with a foreign linear-algebra routine) is an input of length `windowSize`;
    everything around it -- argument checks, odd-reflection padding and the "valid"
    convolution -- follows sg.py step for step on real numbers (no floating-point rounding),
    including numpy's clamping of the padding slices when the signal has no more than
    `window_size // 2` samples and the swap `np.convolve` makes when the kernel is longer than
    the padded signal. */
module SavitzkyGolay {
  import opened Wrappers
  import opened SeqMath

  /** The assertion (or indexing failure) that stops `savitzky_golay`. */
  datatype FilterError =
    | WindowNotPositiveOdd     // window_size % 2 == 1 and window_size >= 1 fails
    | WindowTooSmallForOrder   // window_size >= order + 2 fails
    | KernelRowMissing         // order < 0: the pseudo-inverse has no row 0 to select
    | EmptySignal              // `y[0]` of an empty signal raises IndexError

  /** The argument checks pass and the pseudo-inverse has a smoothing row. */
  predicate KernelExists(windowSize: int, order: int)
  {
    windowSize % 2 == 1 && windowSize >= 1 && windowSize >= order + 2 && order >= 0
  }

  /** `window_size // 2`: the window is the centre sample and `h` samples on either side. */
  function HalfWindow(windowSize: int): (h: nat)
    requires windowSize % 2 == 1 && windowSize >= 1
    ensures windowSize == 2 * h + 1
  {
    windowSize / 2
  }

  /** How many samples `y[1:h+1]` and `y[-h-1:-1]` hold: numpy clamps both slices to the
      signal, so a signal of at most `h` samples gives all but one of them. */
  function PadLength(n: nat, h: nat): (a: nat)
    requires n > 0
    ensures a < n && a <= h
    ensures n > h ==> a == h
  {
    if n > h then h else n - 1
  }

  /** `first_vals`: the first `h` samples reflected through the first sample, so that
      entry `j` stands at distance `h - j` before the start. */
  function HeadPad(y: seq<real>, h: nat): (p: seq<real>)
    requires h < |y|
    ensures |p| == h
    ensures forall j :: 0 <= j < h ==> p[j] <= y[0]
  {
    seq(h, j requires 0 <= j < h => y[0] - Abs(y[h - j] - y[0]))
  }

  /** `last_vals`: the mirror image of `HeadPad` at the end of the signal. */
  function TailPad(y: seq<real>, h: nat): (p: seq<real>)
    requires h < |y|
    ensures |p| == h
    ensures forall j :: 0 <= j < h ==> p[j] >= y[|y| - 1]
  {
    seq(h, j requires 0 <= j < h => y[|y| - 1] + Abs(y[|y| - 2 - j] - y[|y| - 1]))
  }

  /** The padded signal `concatenate((first_vals, y, last_vals))` for the half window `h`. */
  function Extend(y: seq<real>, h: nat): (e: seq<real>)
    requires 0 < |y|
    ensures |e| == |y| + 2 * PadLength(|y|, h)
    ensures e[PadLength(|y|, h)..PadLength(|y|, h) + |y|] == y
  {
    var a := PadLength(|y|, h);
    HeadPad(y, a) + y + TailPad(y, a)
  }

  /** `m[::-1]` */
  function Reverse(m: seq<real>): (r: seq<real>)
    ensures |r| == |m|
  {
    if m == [] then [] else Reverse(m[1..]) + [m[0]]
  }

  /** The weighted sum of a window: sum over j of m[j] * w[j]. */
  function Dot(m: seq<real>, w: seq<real>): real
    requires |m| == |w|
  {
    if m == [] then 0.0 else m[0] * w[0] + Dot(m[1..], w[1..])
  }

  /** One output of numpy's convolution: the kernel is applied back to front,
      a[k] * w[|a| - 1 - k]. */
  function ConvolveAt(a: seq<real>, w: seq<real>): real
    requires |a| == |w|
  {
    if a == [] then 0.0 else a[0] * w[|w| - 1] + ConvolveAt(a[1..], w[..|w| - 1])
  }

  /** `np.convolve(a, v, mode='valid')`: the shorter array slides along the longer one (numpy
      swaps the two when `v` is the shorter), one output per position of full overlap. */
  function ConvolveValid(a: seq<real>, v: seq<real>): (out: seq<real>)
    requires 0 < |a| && 0 < |v|
    ensures |out| == if |a| <= |v| then |v| - |a| + 1 else |a| - |v| + 1
    decreases if |a| <= |v| then 0 else 1
  {
    if |a| <= |v| then seq(|v| - |a| + 1, i requires 0 <= i <= |v| - |a| => ConvolveAt(a, v[i..i + |a|]))
    else ConvolveValid(v, a)
  }

  /** `savitzky_golay(y, window_size, order)` with `deriv = 0` and the kernel supplied. */
  function Filter(y: seq<real>, windowSize: int, order: int, m: seq<real>): Result<seq<real>, FilterError>
    requires KernelExists(windowSize, order) ==> |m| == windowSize
  {
    if !(windowSize % 2 == 1 && windowSize >= 1) then Err(WindowNotPositiveOdd)
    else if windowSize < order + 2 then Err(WindowTooSmallForOrder)
    else if order < 0 then Err(KernelRowMissing)
    else
      if |y| == 0 then Err(EmptySignal)
      else Ok(ConvolveValid(Reverse(m), Extend(y, HalfWindow(windowSize))))
  }

  /** The length of the filtered signal for a signal of `n` samples. */
  function FilteredLength(n: nat, windowSize: int): (len: nat)
    requires n > 0 && windowSize % 2 == 1 && windowSize >= 1
  {
    var ext := n + 2 * PadLength(n, HalfWindow(windowSize));
    if windowSize <= ext then ext - windowSize + 1 else windowSize - ext + 1
  }

  /** A signal of more than `window_size // 2` samples is padded by `window_size // 2` on
      either side, and filtering it keeps its length. */
  lemma FilterLengthKept(n: nat, windowSize: int)
    requires windowSize % 2 == 1 && windowSize >= 1 && n > windowSize / 2
    ensures FilteredLength(n, windowSize) == n
  {
  }

  /** The argument checks of sg.py, in the order they are made, and the one condition on the
      signal itself. Every other call succeeds; its output is exactly as long as the input when
      the signal has more than `window_size // 2` samples, and |window_size + 2 - 3n| + 1 long
      for a shorter signal of n samples, whose padding holds only n - 1 samples on each side. */
  lemma FilterOutcome(y: seq<real>, windowSize: int, order: int, m: seq<real>)
    requires KernelExists(windowSize, order) ==> |m| == windowSize
    ensures (Filter(y, windowSize, order, m) == Err(WindowNotPositiveOdd)) <==>
            !(windowSize % 2 == 1 && windowSize >= 1)
    ensures (Filter(y, windowSize, order, m) == Err(WindowTooSmallForOrder)) <==>
            windowSize % 2 == 1 && windowSize >= 1 && windowSize < order + 2
    ensures (Filter(y, windowSize, order, m) == Err(KernelRowMissing)) <==>
            windowSize % 2 == 1 && windowSize >= 1 && windowSize >= order + 2 && order < 0
    ensures (Filter(y, windowSize, order, m) == Err(EmptySignal)) <==>
            KernelExists(windowSize, order) && |y| == 0
    ensures Filter(y, windowSize, order, m).Ok? <==> KernelExists(windowSize, order) && |y| > 0
    ensures Filter(y, windowSize, order, m).Ok? ==>
              |Filter(y, windowSize, order, m).value| == FilteredLength(|y|, windowSize)
    ensures Filter(y, windowSize, order, m).Ok? && |y| > windowSize / 2 ==>
              |Filter(y, windowSize, order, m).value| == |y|
    ensures Filter(y, windowSize, order, m).Ok? && |y| <= windowSize / 2 ==>
              |Filter(y, windowSize, order, m).value|
              == if 3 * |y| <= windowSize + 2 then windowSize + 3 - 3 * |y| else 3 * |y| - windowSize - 1
  {
  }

  lemma {:induction false} ConvolveAtSnoc(a: seq<real>, x: real, w: seq<real>)
    requires |a| + 1 == |w|
    ensures ConvolveAt(a + [x], w) == ConvolveAt(a, w[1..]) + x * w[0]
    decreases |a|
  {
    if a != [] {
      assert (a + [x])[1..] == a[1..] + [x];
      assert w[..|w| - 1][1..] == w[1..][..|w[1..]| - 1];
      ConvolveAtSnoc(a[1..], x, w[..|w| - 1]);
    }
  }

  /** Convolving with the reversed kernel is correlating with the kernel itself. */
  lemma {:induction false} ConvolveReversed(m: seq<real>, w: seq<real>)
    requires |m| == |w|
    ensures ConvolveAt(Reverse(m), w) == Dot(m, w)
  {
    if m != [] {
      ConvolveReversed(m[1..], w[1..]);
      ConvolveAtSnoc(Reverse(m[1..]), m[0], w);
    }
  }

  /** For a signal longer than half the window, each output sample is the kernel-weighted sum
      of the padded signal from that sample on:
      output[i] == sum over j < window_size of m[j] * ext[i + j]. */
  lemma FilterAt(y: seq<real>, windowSize: int, order: int, m: seq<real>, i: nat)
    requires KernelExists(windowSize, order) ==> |m| == windowSize
    requires Filter(y, windowSize, order, m).Ok?
    requires windowSize / 2 < |y| && i < |y|
    ensures |Filter(y, windowSize, order, m).value| == |y|
    ensures var ext := Extend(y, HalfWindow(windowSize));
            Filter(y, windowSize, order, m).value[i] == Dot(m, ext[i..i + windowSize])
  {
    var ext := Extend(y, HalfWindow(windowSize));
    ConvolveReversed(m, ext[i..i + windowSize]);
  }

  /** When the first `h` samples do not fall below the first one, the head padding is the
      point reflection of the signal through its first sample. */
  lemma HeadPadReflects(y: seq<real>, h: nat, j: nat)
    requires h < |y| && j < h
    requires forall k :: 1 <= k <= h ==> y[k] >= y[0]
    ensures HeadPad(y, h)[j] == 2.0 * y[0] - y[h - j]
  {
    assert Abs(y[h - j] - y[0]) == y[h - j] - y[0];
    assert HeadPad(y, h)[j] == y[0] - Abs(y[h - j] - y[0]);
  }

  /** When the last `h` samples before the end do not rise above the last one, the tail
      padding is the point reflection of the signal through its last sample. */
  lemma TailPadReflects(y: seq<real>, h: nat, j: nat)
    requires h < |y| && j < h
    requires forall k :: |y| - 1 - h <= k < |y| - 1 ==> y[k] <= y[|y| - 1]
    ensures TailPad(y, h)[j] == 2.0 * y[|y| - 1] - y[|y| - 2 - j]
  {
    assert Abs(y[|y| - 2 - j] - y[|y| - 1]) == y[|y| - 1] - y[|y| - 2 - j];
    assert TailPad(y, h)[j] == y[|y| - 1] + Abs(y[|y| - 2 - j] - y[|y| - 1]);
  }

  lemma {:induction false} DotConstant(m: seq<real>, w: seq<real>, c: real)
    requires |m| == |w|
    requires forall j :: 0 <= j < |w| ==> w[j] == c
    ensures Dot(m, w) == c * Sum(m)
  {
    if m != [] {
      DotConstant(m[1..], w[1..], c);
    }
  }

  /** Padding a constant signal yields the same constant everywhere. */
  lemma ExtendConstant(y: seq<real>, h: nat, c: real)
    requires 0 < |y|
    requires forall i :: 0 <= i < |y| ==> y[i] == c
    ensures forall k :: 0 <= k < |Extend(y, h)| ==> Extend(y, h)[k] == c
  {
    var ext := Extend(y, h);
    var a := PadLength(|y|, h);
    forall k | 0 <= k < |ext|
      ensures ext[k] == c
    {
      if k < a {
        assert y[a - k] == c && Abs(y[a - k] - y[0]) == 0.0;
        assert ext[k] == HeadPad(y, a)[k] == y[0] - Abs(y[a - k] - y[0]);
      } else if k < a + |y| {
        assert ext[k] == y[k - a];
      } else {
        var j := k - a - |y|;
        assert y[|y| - 2 - j] == c && Abs(y[|y| - 2 - j] - y[|y| - 1]) == 0.0;
        assert ext[k] == TailPad(y, a)[j] == y[|y| - 1] + Abs(y[|y| - 2 - j] - y[|y| - 1]);
      }
    }
  }

  /** A kernel whose weights sum to one (as every smoothing row of the pseudo-inverse does)
      leaves a constant signal unchanged, boundaries included. */
  lemma FilterKeepsConstant(y: seq<real>, windowSize: int, order: int, m: seq<real>, c: real)
    requires KernelExists(windowSize, order) && |m| == windowSize
    requires Sum(m) == 1.0
    requires |y| > windowSize / 2
    requires forall i :: 0 <= i < |y| ==> y[i] == c
    ensures Filter(y, windowSize, order, m) == Ok(y)
  {
    var h := HalfWindow(windowSize);
    var ext := Extend(y, h);
    ExtendConstant(y, h, c);
    var out := ConvolveValid(Reverse(m), ext);
    assert Filter(y, windowSize, order, m) == Ok(out);
    forall i | 0 <= i < |y|
      ensures out[i] == y[i]
    {
      var w := ext[i..i + windowSize];
      assert out[i] == ConvolveAt(Reverse(m), w);
      ConvolveReversed(m, w);
      DotConstant(m, w, c);
      assert out[i] == c * Sum(m) == c;
    }
    assert out == y;
  }
}
