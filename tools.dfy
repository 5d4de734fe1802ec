/**
 * The calculators of the tools page (src/pages/ToolsPage.tsx): the
 * front-of-centre formula and the two numeric input helpers.
 */
module Tools {
  import opened Js

  /** FOC percentage from a balance point and an arrow length, both in
      inches from the nock throat; 0 for a non-positive length. */
  function CalcFOC(balance: real, length: real): (r: real)
    ensures length <= 0.0 ==> r == 0.0
    ensures length > 0.0 ==> balance == length / 2.0 + r * length / 100.0
  {
    if length <= 0.0 then 0.0 else ((balance - length / 2.0) / length) * 100.0
  }

  /** The balance point at the centre reads 0%, at the tip 50% and at the
      nock -50%. */
  lemma CalcFOCAnchors(length: real)
    requires length > 0.0
    ensures CalcFOC(length / 2.0, length) == 0.0
    ensures CalcFOC(length, length) == 50.0
    ensures CalcFOC(0.0, length) == -50.0
  {
    var c, t, n := CalcFOC(length / 2.0, length), CalcFOC(length, length), CalcFOC(0.0, length);
    assert c * length == 0.0;
    assert (t - 50.0) * length == 0.0;
    assert (n + 50.0) * length == 0.0;
  }

  /** Moving the balance point forward raises the FOC. */
  lemma CalcFOCMonotone(b1: real, b2: real, length: real)
    requires length > 0.0 && b1 <= b2
    ensures CalcFOC(b1, length) <= CalcFOC(b2, length)
  {
    var r1, r2 := CalcFOC(b1, length), CalcFOC(b2, length);
    assert (r2 - r1) * length / 100.0 == b2 - b1;
  }

  /** A balance point on the arrow gives an FOC within [-50, 50]. */
  lemma CalcFOCBounded(balance: real, length: real)
    requires length > 0.0 && 0.0 <= balance <= length
    ensures -50.0 <= CalcFOC(balance, length) <= 50.0
  {
    CalcFOCAnchors(length);
    CalcFOCMonotone(0.0, balance, length);
    CalcFOCMonotone(balance, length, length);
  }

  /** `Math.max(min, Math.min(max, n))`. */
  function ClampNum(n: real, min: real, max: real): (r: real)
    ensures min <= max ==> min <= r <= max
    ensures min <= n <= max ==> r == n
    ensures max < min ==> r == min
    ensures n < min ==> r == min
    ensures min <= max < n ==> r == max
  {
    var upper := if max <= n then max else n;
    if min >= upper then min else upper
  }

  /** Clamping a clamped value again changes nothing. */
  lemma ClampIdempotent(n: real, min: real, max: real)
    requires min <= max
    ensures ClampNum(ClampNum(n, min, max), min, max) == ClampNum(n, min, max)
  {
  }

  /** `safeNum`: the parsed number when finite, else the fallback; `parse`
      is JavaScript's `Number(string)`. */
  function SafeNum(x: string, parse: string -> Num, fallback: real): (r: real)
    ensures IsNumber(parse(x)) ==> r == parse(x).value
    ensures !IsNumber(parse(x)) ==> r == fallback
  {
    var n := parse(x);
    if IsNumber(n) then n.value else fallback
  }

  /** `safeNum` with its default fallback 0. */
  function SafeNumDefault(x: string, parse: string -> Num): (r: real)
    ensures !IsNumber(parse(x)) ==> r == 0.0
    ensures IsNumber(parse(x)) ==> r == parse(x).value
  {
    SafeNum(x, parse, 0.0)
  }

  /** The FOC the calculator shows for the two text inputs: each goes
      through `safeNum`, then `calcFOC(B, L)`. */
  function FocReading(arrowLen: string, balancePt: string, parse: string -> Num): real {
    CalcFOC(SafeNumDefault(balancePt, parse), SafeNumDefault(arrowLen, parse))
  }

  /** An arrow length that does not parse to a positive finite number reads
      0%; otherwise the reading is the formula at the parsed values, with an
      unparseable balance point taken as the nock, so -50%. */
  lemma FocReadingCases(arrowLen: string, balancePt: string, parse: string -> Num)
    ensures !(IsNumber(parse(arrowLen)) && parse(arrowLen).value > 0.0) ==> FocReading(arrowLen, balancePt, parse) == 0.0
    ensures IsNumber(parse(arrowLen)) && parse(arrowLen).value > 0.0 && IsNumber(parse(balancePt)) ==>
              FocReading(arrowLen, balancePt, parse) == CalcFOC(parse(balancePt).value, parse(arrowLen).value)
    ensures IsNumber(parse(arrowLen)) && parse(arrowLen).value > 0.0 && !IsNumber(parse(balancePt)) ==>
              FocReading(arrowLen, balancePt, parse) == -50.0
  {
    if IsNumber(parse(arrowLen)) && parse(arrowLen).value > 0.0 {
      CalcFOCAnchors(parse(arrowLen).value);
    }
  }
}
