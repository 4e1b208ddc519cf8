/**
 * The completion percentages the pages display, in exact arithmetic:
 * `(completed / total) * 100`, JavaScript's NaN for `0 / 0`, and `Math.round`
 * on non-negative values (round half up).
 */
module Percent {

  /** A JavaScript number as far as these pages need one: finite, or NaN. */
  datatype JsNumber = NaN | Finite(value: real)

  /** `(completed / total) * 100` for a non-empty chapter list. */
  function Percentage(completed: nat, total: nat): (r: real)
    requires completed <= total && total > 0
    ensures 0.0 <= r <= 100.0
    ensures r == 100.0 <==> completed == total
    ensures r == 0.0 <==> completed == 0
  {
    var q := completed as real / total as real;
    FractionBounds(completed as real, total as real);
    100.0 * q
  }

  /** A part over a positive whole lies in [0, 1]; it is 1 only for the whole and 0 only for nothing. */
  lemma FractionBounds(part: real, whole: real)
    requires 0.0 <= part <= whole && whole > 0.0
    ensures 0.0 <= part / whole <= 1.0
    ensures part / whole == 1.0 <==> part == whole
    ensures part / whole == 0.0 <==> part == 0.0
  {
    var q := part / whole;
    assert q * whole == part;
    assert (q - 1.0) * whole == part - whole;
    assert q > 1.0 ==> (q - 1.0) * whole > 0.0;
    assert q < 0.0 ==> (0.0 - q) * whole > 0.0;
  }

  /** `Math.round`: the nearest integer, halves rounded up. */
  function RoundHalfUp(x: real): (r: int)
    ensures r as real - 0.5 <= x < r as real + 0.5
  {
    (x + 0.5).Floor
  }

  /** `Math.round` on a JavaScript number; NaN stays NaN. */
  function Round(x: JsNumber): (r: JsNumber)
    ensures r.NaN? <==> x.NaN?
    ensures x.Finite? ==> r.value == RoundHalfUp(x.value) as real
  {
    match x
    case NaN => NaN
    case Finite(v) => Finite(RoundHalfUp(v) as real)
  }

  /** `(completed / total) * 100` with no guard: NaN for an empty chapter list. */
  function Ratio(completed: nat, total: nat): (r: JsNumber)
    requires completed <= total
    ensures r.NaN? <==> total == 0
    ensures total > 0 ==> r.value == Percentage(completed, total)
  {
    if total == 0 then NaN else Finite(Percentage(completed, total))
  }

  /** A rounded percentage stays in [0, 100]: 100 when all are completed, 0 when none are. */
  lemma RoundedPercentage(completed: nat, total: nat)
    requires completed <= total && total > 0
    ensures 0 <= RoundHalfUp(Percentage(completed, total)) <= 100
    ensures completed == total ==> RoundHalfUp(Percentage(completed, total)) == 100
    ensures completed == 0 ==> RoundHalfUp(Percentage(completed, total)) == 0
  {
  }

  /**
   * Rounding makes 100 reachable before every chapter is completed: with 199 of
   * 200 chapters completed the page shows 100.
   */
  lemma RoundedHundredBeforeAllCompleted()
    ensures RoundHalfUp(Percentage(199, 200)) == 100
  {
    assert Percentage(199, 200) == 99.5;
  }
}
