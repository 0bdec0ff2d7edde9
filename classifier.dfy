/** The snapshot classifier: from the black and white pixel counts of the
    canvas before and after an escalation step, decide whether a prompt
    appeared. */
module Classifier {

  datatype Option<T> = None | Some(value: T)

  /** The classifier's threshold on the ratio. */
  const Threshold := 10

  /** The divisor the ratio uses: the change in white pixels, or the final
      white count when that change is zero. */
  function Divisor(winitial: int, wfinal: int): int {
    if wfinal == winitial then wfinal else wfinal - winitial
  }

  /** The ratio of the change in black pixels to the divisor, or None when
      the division faults (no white pixels before or after). */
  function Ratio(binitial: int, bfinal: int, winitial: int, wfinal: int): (r: Option<real>)
    ensures r.None? <==> winitial == 0 && wfinal == 0
  {
    if wfinal == winitial then
      if wfinal == 0 then None else Some((bfinal - binitial) as real / wfinal as real)
    else Some((bfinal - binitial) as real / (wfinal - winitial) as real)
  }

  /** The ratio is the quotient of the change in black pixels by the divisor. */
  lemma RatioIsQuotient(binitial: int, bfinal: int, winitial: int, wfinal: int)
    requires Ratio(binitial, bfinal, winitial, wfinal).Some?
    ensures Ratio(binitial, bfinal, winitial, wfinal).value * Divisor(winitial, wfinal) as real
            == (bfinal - binitial) as real
  {
  }

  /** The verdict: a prompt is detected when the ratio exceeds 10; None
      when the ratio faults. */
  function PromptDetected(binitial: int, bfinal: int, winitial: int, wfinal: int): Option<bool> {
    match Ratio(binitial, bfinal, winitial, wfinal)
    case None => None
    case Some(ratio) => Some(ratio > Threshold as real)
  }

  /** The same verdict decided over integers only, by cross-multiplying with
      the divisor and minding its sign. */
  function PromptDetectedByCrossMultiplying(binitial: int, bfinal: int, winitial: int, wfinal: int): Option<bool> {
    var d := Divisor(winitial, wfinal);
    var n := bfinal - binitial;
    if d == 0 then None
    else if d > 0 then Some(n > Threshold * d)
    else Some(n < Threshold * d)
  }

  lemma QuotientAbove(n: real, d: real, q: real, t: real)
    requires d != 0.0 && q * d == n
    ensures d > 0.0 ==> (q > t <==> n > t * d)
    ensures d < 0.0 ==> (q > t <==> n < t * d)
  {
    assert n - t * d == (q - t) * d;
    if q > t {
      assert d > 0.0 ==> (q - t) * d > 0.0;
      assert d < 0.0 ==> (q - t) * d < 0.0;
    } else {
      assert d > 0.0 ==> (q - t) * d <= 0.0;
      assert d < 0.0 ==> (q - t) * d >= 0.0;
    }
  }

  /** The verdict over reals agrees with the integer one on every input:
      the classifier can be decided exactly, with no rounding. */
  lemma PromptDetectedExact(binitial: int, bfinal: int, winitial: int, wfinal: int)
    ensures PromptDetected(binitial, bfinal, winitial, wfinal)
         == PromptDetectedByCrossMultiplying(binitial, bfinal, winitial, wfinal)
  {
    var d := Divisor(winitial, wfinal);
    var r := Ratio(binitial, bfinal, winitial, wfinal);
    if r.Some? {
      RatioIsQuotient(binitial, bfinal, winitial, wfinal);
      QuotientAbove((bfinal - binitial) as real, d as real, r.value, Threshold as real);
    }
  }

  /** Largest pixel count on the 1024 x 800 screen. */
  const MaxPixels := 1024 * 800

  /** With counts of at most MaxPixels, a ratio that differs from 10 differs
      from it by at least 1 / MaxPixels, far more than the rounding error of
      a double division near 10, so evaluating the ratio in floating point
      yields the same verdict. */
  lemma VerdictMargin(binitial: nat, bfinal: nat, winitial: nat, wfinal: nat)
    requires binitial <= MaxPixels && bfinal <= MaxPixels && winitial <= MaxPixels && wfinal <= MaxPixels
    requires Ratio(binitial, bfinal, winitial, wfinal).Some?
    ensures var q := Ratio(binitial, bfinal, winitial, wfinal).value;
            q == Threshold as real || q - Threshold as real >= 1.0 / MaxPixels as real
            || Threshold as real - q >= 1.0 / MaxPixels as real
  {
    var q := Ratio(binitial, bfinal, winitial, wfinal).value;
    var d := Divisor(winitial, wfinal);
    var n := bfinal - binitial;
    assert d != 0 && -MaxPixels <= d <= MaxPixels;
    RatioIsQuotient(binitial, bfinal, winitial, wfinal);
    DistanceFromThreshold(n, d, q);
  }

  lemma DistanceFromThreshold(n: int, d: int, q: real)
    requires d != 0 && -MaxPixels <= d <= MaxPixels && q * d as real == n as real
    ensures q == Threshold as real || q - Threshold as real >= 1.0 / MaxPixels as real
            || Threshold as real - q >= 1.0 / MaxPixels as real
  {
    var e := n - Threshold * d;
    var diff := q - Threshold as real;
    assert diff * d as real == e as real;
    if e != 0 {
      var m := MaxPixels as real;
      if d > 0 {
        if e > 0 { AtLeastReciprocal(diff, d as real, e as real, m); }
        else { AtLeastReciprocal(-diff, d as real, -(e as real), m); }
      } else {
        if e > 0 { AtLeastReciprocal(-diff, -(d as real), e as real, m); }
        else { AtLeastReciprocal(diff, -(d as real), -(e as real), m); }
      }
    } else {
      assert diff * d as real == 0.0;
    }
  }

  lemma AtLeastReciprocal(x: real, d: real, p: real, m: real)
    requires 0.0 < d <= m && x * d == p && p >= 1.0
    ensures x >= 1.0 / m
  {
    assert x > 0.0;
    assert x * m >= x * d;
    assert x * m >= 1.0;
  }

  /** The two sample measurements noted beside the classifier: a generic
      redraw (no prompt) and a command prompt appearing (prompt). */
  lemma SampleMeasurements()
    ensures PromptDetected(108, 1431, 753, 74051) == Some(false)
    ensures PromptDetected(108, 191513, 753, 3094) == Some(true)
  {
    PromptDetectedExact(108, 1431, 753, 74051);
    PromptDetectedExact(108, 191513, 753, 3094);
  }

  /** When the white count did not change the ratio falls back to dividing
      by the final white count, which faults only when that count is zero. */
  lemma UnchangedWhiteFallback(binitial: int, bfinal: int, white: nat)
    ensures white == 0 ==> PromptDetected(binitial, bfinal, white, white).None?
    ensures white > 0 ==> PromptDetected(binitial, bfinal, white, white) == Some(bfinal - binitial > Threshold * white)
  {
    PromptDetectedExact(binitial, bfinal, white, white);
  }
}
