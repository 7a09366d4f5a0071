/**
 The JavaScript value conventions the betting engine relies on, stated once:
 optional values, numeric fields that may be absent or NaN, truthiness, and the
 two rounding operations the engine uses (`Math.round` and `toFixed(2)`).
 All numbers are exact `real`s; IEEE-754 binary rounding is not modelled.
 */
module JsValues {

  /** `undefined`/`null` versus a present value. */
  datatype Option<+T> = None | Some(value: T) {
    function GetOr(default: T): T {
      match this
      case Some(v) => v
      case None => default
    }
  }

  /** A field that JavaScript reads as a number: absent (`undefined`/`null`), NaN, or a number. */
  datatype JsNumber = Absent | NaN | Num(value: real) {
    /** `typeof x === 'number' && !Number.isNaN(x)` */
    predicate IsNumber() {
      Num?
    }

    /** JavaScript truthiness: `undefined`, `null`, NaN and 0 are falsy. */
    predicate Truthy() {
      Num? && value != 0.0
    }
  }

  /** JavaScript truthiness of a numeric identifier (`0` and a missing id are falsy). */
  predicate TruthyId(id: Option<int>) {
    id.Some? && id.value != 0
  }

  /** `x || fallback` on an optional number: absent and 0 fall back. */
  function OrElse(x: Option<real>, fallback: real): (r: real)
    ensures x.Some? && x.value != 0.0 ==> r == x.value
    ensures x.None? || x.value == 0.0 ==> r == fallback
  {
    if x.Some? && x.value != 0.0 then x.value else fallback
  }

  function Min(a: real, b: real): (r: real)
    ensures r <= a && r <= b
    ensures r == a || r == b
  {
    if a <= b then a else b
  }

  function Max(a: real, b: real): (r: real)
    ensures r >= a && r >= b
    ensures r == a || r == b
  {
    if a >= b then a else b
  }

  /** `Math.round`: the nearest integer, halves rounded towards +infinity. */
  function Round(x: real): (r: int)
    ensures x - 0.5 < r as real <= x + 0.5
  {
    (x + 0.5).Floor
  }

  /** `Math.round` is the only integer within half a unit of x (halves going up). */
  lemma RoundUnique(x: real, n: int)
    requires x - 0.5 < n as real <= x + 0.5
    ensures Round(x) == n
  {
  }

  /** Rounding is monotone. */
  lemma RoundMonotone(x: real, y: real)
    requires x <= y
    ensures Round(x) <= Round(y)
  {
  }

  /** An integral value is fixed by rounding, so values between two integers round between them. */
  lemma RoundBetween(x: real, lo: int, hi: int)
    requires lo as real <= x <= hi as real
    ensures lo <= Round(x) <= hi
  {
    RoundMonotone(lo as real, x);
    RoundMonotone(x, hi as real);
    RoundUnique(lo as real, lo);
    RoundUnique(hi as real, hi);
  }

  /** The real number n / 100. */
  function Hundredths(n: int): (r: real)
    ensures r * 100.0 == n as real
    ensures (r * 100.0).Floor == n
  {
    n as real / 100.0
  }

  /** `Number(x.toFixed(2))` in exact arithmetic: hundredths, halves rounded away from zero. */
  function ToFixed2(x: real): (r: real)
    ensures -0.005 <= r - x <= 0.005
    ensures (r * 100.0).Floor as real == r * 100.0
    ensures x >= 0.0 ==> r >= 0.0
  {
    if x >= 0.0 then
      var n := Round(x * 100.0);
      assert -0.5 <= n as real - x * 100.0 <= 0.5;
      Hundredths(n)
    else
      var n := Round(-x * 100.0);
      assert -0.5 <= n as real + x * 100.0 <= 0.5;
      Hundredths(-n)
  }

  /** A value already in hundredths is left unchanged, so applying `toFixed(2)` twice changes nothing. */
  lemma ToFixed2Idempotent(x: real)
    ensures ToFixed2(ToFixed2(x)) == ToFixed2(x)
  {
    var r := ToFixed2(x);
    var n := (r * 100.0).Floor;
    assert r == n as real / 100.0;
    if r >= 0.0 {
      RoundUnique(r * 100.0, n);
    } else {
      RoundUnique(-r * 100.0, -n);
    }
  }
}
