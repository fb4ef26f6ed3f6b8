/** The two decay models of models.py. The exponential is a parameter `exp`; the only fact
    about it that any lemma uses is stated there as a hypothesis (exp(0) = 1, or the range of
    exp at one point). */
module Models {

  /** `model_zero`: a straight-line decay from `y0` at rate `k`; `y1` is accepted and unused. */
  function ModelZero(x: real, k: real, y0: real, y1: real): real
  {
    y0 - k * x
  }

  /** `model_first`: a first-order approach from `y0` towards the plateau `y1` at rate `k`. */
  function ModelFirst(exp: real -> real, x: real, k: real, y0: real, y1: real): real
  {
    y0 + (y1 - y0) * (1.0 - exp(-1.0 * x * k))
  }

  /** The zero-order model starts at `y0` and never looks at the plateau. */
  lemma ModelZeroStartsAtY0(x: real, k: real, y0: real, y1: real, otherY1: real)
    ensures ModelZero(0.0, k, y0, y1) == y0
    ensures ModelZero(x, k, y0, y1) == ModelZero(x, k, y0, otherY1)
  {
  }

  /** The zero-order model is linear in time with slope `-k`, so it strictly decreases
      whenever `k` is positive. */
  lemma ModelZeroLinear(a: real, b: real, k: real, y0: real, y1: real)
    ensures ModelZero(a, k, y0, y1) - ModelZero(b, k, y0, y1) == -k * (a - b)
    ensures k > 0.0 && a < b ==> ModelZero(a, k, y0, y1) > ModelZero(b, k, y0, y1)
  {
    assert ModelZero(a, k, y0, y1) - ModelZero(b, k, y0, y1) == -k * (a - b);
    if k > 0.0 && a < b {
      assert k * (b - a) > 0.0;
    }
  }

  /** With exp(0) = 1 the first-order model starts at `y0`; with the plateau equal to the
      start it is flat whatever the rate. */
  lemma ModelFirstStartsAtY0(exp: real -> real, x: real, k: real, y0: real, y1: real)
    requires exp(0.0) == 1.0
    ensures ModelFirst(exp, 0.0, k, y0, y1) == y0
    ensures ModelFirst(exp, x, k, y0, y0) == y0
  {
    assert -1.0 * 0.0 * k == 0.0;
  }

  /** Where the exponential term lies in (0, 1] -- a non-negative time and rate -- the
      first-order curve lies between its start and its plateau and has not reached the
      plateau yet. */
  lemma ModelFirstBetween(exp: real -> real, x: real, k: real, y0: real, y1: real)
    requires 0.0 < exp(-1.0 * x * k) <= 1.0
    ensures y0 <= y1 ==> y0 <= ModelFirst(exp, x, k, y0, y1) <= y1
    ensures y1 <= y0 ==> y1 <= ModelFirst(exp, x, k, y0, y1) <= y0
    ensures y0 != y1 ==> ModelFirst(exp, x, k, y0, y1) != y1
  {
    var gap, c := y1 - y0, 1.0 - exp(-1.0 * x * k);
    assert ModelFirst(exp, x, k, y0, y1) == y0 + gap * c;
    ScaledBelowOne(gap, c);
  }

  /** Scaling by a factor in [0, 1) keeps a number between zero and itself and moves any
      non-zero number. */
  lemma ScaledBelowOne(a: real, c: real)
    requires 0.0 <= c < 1.0
    ensures a >= 0.0 ==> 0.0 <= a * c <= a
    ensures a <= 0.0 ==> a <= a * c <= 0.0
    ensures a != 0.0 ==> a * c != a
  {
    if a > 0.0 {
      assert a * (1.0 - c) > 0.0;
    }
    if a < 0.0 {
      assert (-a) * (1.0 - c) > 0.0;
    }
  }
}
