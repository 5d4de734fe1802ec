/**
 * The slice of JavaScript's value semantics the modelled code relies on:
 * number values (with NaN and the infinities), truthiness, coercion to
 * string and number, `Math.round`, the `%` operator, and the two numeric
 * helpers `round2` and `isIncrement` that both pricing engines define
 * identically (functions/_utils/db.ts:40-51, src/worker-api/worker.js:32-44).
 */
module Js {
  import opened Wrappers

  /** A JavaScript number. Finite doubles are modelled as exact reals. */
  datatype Num = Finite(value: real) | NaN | Infinity(negative: bool)

  /** `isNumber(x)`: a number that is finite (`Number.isFinite`). */
  predicate IsNumber(x: Num) {
    x.Finite?
  }

  /** A JavaScript value as it arrives in a parsed JSON body. `Object` is a
      plain (non-array) object whose contents the modelled code never reads. */
  datatype Value = Undefined | Null | Bool(b: bool) | Number(n: Num) | Str(s: string) | Object

  /** JavaScript truthiness (`if (x)`, `x || y`, `!x`). */
  predicate Truthy(v: Value) {
    match v
    case Undefined => false
    case Null => false
    case Bool(b) => b
    case Number(n) => n != Finite(0.0) && n != NaN
    case Str(s) => s != ""
    case Object => true
  }

  /** Text of a number in a template literal or `String(n)`; `show` stands for
      JavaScript's Number-to-String conversion of a finite value. */
  function NumText(n: Num, show: real -> string): string {
    match n
    case Finite(v) => show(v)
    case NaN => "NaN"
    case Infinity(negative) => if negative then "-Infinity" else "Infinity"
  }

  /** `String(v)`. */
  function ToText(v: Value, show: real -> string): string {
    match v
    case Undefined => "undefined"
    case Null => "null"
    case Bool(b) => if b then "true" else "false"
    case Number(n) => NumText(n, show)
    case Str(s) => s
    case Object => "[object Object]"
  }

  /** `String(v || "")`: a falsy value reads as the empty string. */
  function FieldText(v: Value, show: real -> string): (r: string)
    ensures !Truthy(v) ==> r == ""
    ensures v.Str? ==> r == v.s
  {
    if Truthy(v) then ToText(v, show) else ""
  }

  /** `Number(v)`; `parse` stands for JavaScript's string-to-number parsing. */
  function ToNum(v: Value, parse: string -> Num): Num {
    match v
    case Undefined => NaN
    case Null => Finite(0.0)
    case Bool(b) => Finite(if b then 1.0 else 0.0)
    case Number(n) => n
    case Str(s) => parse(s)
    case Object => NaN
  }

  function Abs(x: real): (r: real)
    ensures r >= 0.0 && (r == x || r == -x)
  {
    if x < 0.0 then -x else x
  }

  /** `Math.round(x)` for a finite x: the nearest integer, halves rounded up. */
  function Round(x: real): (r: int)
    ensures r as real - 0.5 <= x < r as real + 0.5
  {
    (x + 0.5).Floor
  }

  /** The integer nearest to x is the only one within the half-open window. */
  lemma RoundUnique(x: real, k: int)
    requires k as real - 0.5 <= x < k as real + 0.5
    ensures Round(x) == k
  {
    var r := Round(x);
    assert r as real - 0.5 <= x < r as real + 0.5;
    assert k - 1 < r < k + 1;
  }

  /** `round2(n)` = `Math.round(n * 100) / 100`: round to whole cents. */
  function Round2(n: real): (r: real)
    ensures IsCents(r)
    ensures n - 0.005 < r <= n + 0.005
  {
    Cents(Round(n * 100.0))
  }

  /** `round2` on any number: NaN and the infinities pass through, since
      `Math.round` and the division by 100 keep them. */
  function Round2Num(n: Num): (r: Num)
    ensures r.Finite? <==> n.Finite?
    ensures r.Finite? ==> r.value == Round2(n.value)
    ensures r.Finite? ==> IsCents(r.value) && n.value - 0.005 < r.value <= n.value + 0.005
    ensures !n.Finite? ==> r == n
  {
    if n.Finite? then Finite(Round2(n.value)) else n
  }

  /** `a + b`. Finite sums are exact; opposite infinities give NaN. */
  function NumAdd(a: Num, b: Num): (r: Num)
    ensures r.Finite? <==> a.Finite? && b.Finite?
    ensures r.Finite? ==> r.value == a.value + b.value
    ensures a == NaN || b == NaN ==> r == NaN
  {
    match (a, b)
    case (Finite(x), Finite(y)) => Finite(x + y)
    case (Infinity(m), Infinity(n)) => if m == n then a else NaN
    case (Infinity(_), Finite(_)) => a
    case (Finite(_), Infinity(_)) => b
    case _ => NaN
  }

  /** `a * b`. Finite products are exact; an infinity times zero is NaN and
      otherwise the sign of an infinite product is the sign rule's. */
  function NumMul(a: Num, b: Num): (r: Num)
    ensures r.Finite? <==> a.Finite? && b.Finite?
    ensures r.Finite? ==> r.value == a.value * b.value
    ensures a == NaN || b == NaN ==> r == NaN
  {
    match (a, b)
    case (Finite(x), Finite(y)) => Finite(x * y)
    case (Infinity(m), Infinity(n)) => Infinity(m != n)
    case (Infinity(m), Finite(y)) => if y == 0.0 then NaN else Infinity(m != (y < 0.0))
    case (Finite(x), Infinity(n)) => if x == 0.0 then NaN else Infinity(n != (x < 0.0))
    case _ => NaN
  }

  /** Addition and multiplication commute on every number, NaN and the
      infinities included. */
  lemma NumArithCommutes(a: Num, b: Num)
    ensures NumAdd(a, b) == NumAdd(b, a)
    ensures NumMul(a, b) == NumMul(b, a)
  {
  }

  /** A whole number of hundredths. */
  ghost predicate IsCents(x: real) {
    exists k: int {:trigger Cents(k)} :: x == Cents(k)
  }

  function Cents(k: int): real {
    k as real / 100.0
  }

  /** A value that is already a whole number of cents is left unchanged. */
  lemma Round2OfCents(k: int)
    ensures Round2(Cents(k)) == Cents(k)
  {
    assert Cents(k) * 100.0 == k as real;
    RoundUnique(Cents(k) * 100.0, k);
  }

  /** Rounding to cents twice is rounding once. */
  lemma Round2Idempotent(x: real)
    ensures Round2(Round2(x)) == Round2(x)
  {
    var k := Round(x * 100.0);
    assert Round2(x) == Cents(k);
    Round2OfCents(k);
  }

  /** A whole number of cents times an integer quantity is again whole cents,
      so `round2(per * quantity)` is the exact product. */
  lemma Round2OfCentsTimesInt(k: int, q: int)
    ensures Round2(Cents(k) * q as real) == Cents(k) * q as real
  {
    assert Cents(k) * q as real == Cents(k * q);
    Round2OfCents(k * q);
  }

  predicate IsInteger(x: real) {
    x.Floor as real == x
  }

  /** Rounding to cents first makes a whole-number multiple exact, however
      many arrows: `round2(round2(x) * q) == round2(x) * q` for integer q. */
  lemma Round2ThenScale(x: real, q: real)
    ensures IsInteger(q) ==> Round2(Round2(x) * q) == Round2(x) * q
  {
    if IsInteger(q) {
      var k := Round(x * 100.0);
      assert Round2(x) == Cents(k);
      var qi := q.Floor;
      assert q == qi as real;
      Round2OfCentsTimesInt(k, qi);
      assert Round2(Cents(k) * qi as real) == Cents(k) * qi as real;
      assert Round2(x) * q == Cents(k) * qi as real;
    }
  }

  /** The same on JavaScript numbers: `round2(round2(x) * q)` is the exact
      product for a finite x and an integer q. */
  lemma Round2NumThenScale(x: Num, q: Num)
    ensures x.Finite? && q.Finite? && IsInteger(q.value) ==>
              Round2Num(NumMul(Round2Num(x), q)) == Finite(Round2(x.value) * q.value)
  {
    if x.Finite? && q.Finite? && IsInteger(q.value) {
      var k := Round(x.value * 100.0);
      var qi := q.value.Floor;
      var c := Cents(k) * qi as real;
      Round2OfCentsTimesInt(k, qi);
      assert Round2Num(x) == Finite(Cents(k));
      assert NumMul(Finite(Cents(k)), q) == Finite(c);
      assert Round2Num(Finite(c)) == Finite(c);
    }
  }

  /** `isIncrement(n, inc)`: n/inc is within 1e-6 of the integer Math.round
      gives. With inc = 0 the quotient is an infinity or NaN and the
      JavaScript comparison is false. */
  predicate IsIncrement(n: real, inc: real) {
    if inc == 0.0 then false
    else
      var scaled := n / inc;
      Abs(scaled - Round(scaled) as real) < 0.000001
  }

  /** n/inc lies within the 1e-6 tolerance of k increments. */
  predicate NearMultiple(n: real, inc: real, k: int)
    requires inc != 0.0
  {
    Abs(n / inc - k as real) < 0.000001
  }

  /** n is on an increment exactly when n/inc is within 1e-6 of SOME integer. */
  lemma IsIncrementIffNearInteger(n: real, inc: real)
    requires inc != 0.0
    ensures IsIncrement(n, inc) <==> exists k: int :: NearMultiple(n, inc, k)
  {
    var s := n / inc;
    if IsIncrement(n, inc) {
      assert NearMultiple(n, inc, Round(s));
    }
    if k: int :| NearMultiple(n, inc, k) {
      RoundUnique(s, k);
    }
  }

  /** Every exact multiple of the increment passes. */
  lemma MultipleIsIncrement(k: int, inc: real)
    requires inc != 0.0
    ensures IsIncrement(k as real * inc, inc)
  {
    assert k as real * inc / inc == k as real;
    RoundUnique(k as real, k);
  }

  /** Truncation toward zero, as JavaScript's `%` uses it. */
  function Trunc(x: real): (r: int)
    ensures Abs(r as real) <= Abs(x) < Abs(r as real) + 1.0
    ensures r == 0 || (r < 0 <==> x < 0.0)
  {
    if x >= 0.0 then x.Floor else -((-x).Floor)
  }

  /** JavaScript's `x % y` on finite operands: the remainder has the sign of x;
      a zero divisor gives NaN. */
  function Rem(x: real, y: real): (r: Num)
    ensures r.Finite? <==> y != 0.0
  {
    if y == 0.0 then NaN else Finite(x - y * Trunc(x / y) as real)
  }

  /** On integers, `q % 2` is zero exactly for the even ones, negative or not. */
  lemma RemTwoOfInt(q: int)
    ensures Rem(q as real, 2.0) == Finite(0.0) <==> q % 2 == 0
  {
    var t := Trunc(q as real / 2.0);
    if q >= 0 {
      assert t == q / 2;
    } else {
      assert t == -((-q) / 2);
    }
  }
}
