/**
 * The legacy (v1) build engine of the standalone worker
 * (src/worker-api/worker.js). It has the same three functions as the
 * current engine but different rules: vane and point are mandatory, every
 * component must be active, the minimum cut is 24", any even quantity of at
 * least 6 is allowed, fletching is fixed at 3 vanes, and wrap rules apply
 * whenever a wrap is chosen.
 */
module LegacyEngine {
  import opened Wrappers
  import opened Js
  import opened Catalog
  import Text

  const BUILD_LABOR_PER_ARROW: real := 4.5
  const MIN_CUT_LENGTH: real := 24.0
  const CUT_INCREMENT: real := 0.25
  const MICRO_OD_MAX: real := 0.265
  const MIN_QTY: real := 6.0

  /** The worker passes every numeric argument as a JavaScript number. */
  datatype Selection = Selection(
    shaft: Option<Shaft>,
    wrap: Option<Wrap>,
    vane: Option<Vane>,
    point: Option<Point>,
    cut_length: Num,
    quantity: Num,
    fletch_count: Num)

  datatype Verdict = Accepted | Rejected(field: string, message: string)

  /** The required slots are filled and the numbers are finite. */
  predicate Complete(sel: Selection) {
    sel.shaft.Some? && sel.vane.Some? && sel.point.Some? && IsNumber(sel.cut_length) && IsNumber(sel.quantity)
  }

  /** Every rule of the v1 validator, unordered. */
  predicate Admissible(sel: Selection) {
    && Complete(sel)
    && sel.shaft.value.active == 1
    && (sel.wrap.Some? ==> sel.wrap.value.active == 1)
    && sel.vane.value.active == 1
    && sel.point.value.active == 1
    && MIN_CUT_LENGTH <= sel.cut_length.value <= sel.shaft.value.max_length
    && IsIncrement(sel.cut_length.value, CUT_INCREMENT)
    && sel.quantity.value >= MIN_QTY
    && Rem(sel.quantity.value, 2.0) == Finite(0.0)
    && sel.fletch_count == Finite(3.0)
    && (sel.wrap.Some? ==>
          && sel.wrap.value.min_outer_diameter <= sel.shaft.value.outer_diameter <= sel.wrap.value.max_outer_diameter
          && sel.wrap.value.length < sel.cut_length.value)
    && !(sel.shaft.value.outer_diameter <= MICRO_OD_MAX && !Flag(sel.vane.value.compatible_micro))
    && !UnsupportedThread(sel.point.value)
  }

  /** v1 `validateBuild`: the first failing rule decides. */
  function ValidateBuild(sel: Selection): (r: Verdict)
    ensures r == Accepted <==> Admissible(sel)
    ensures sel.shaft.None? ==> r.Rejected? && r.field == "shaft_id"
  {
    // required selections
    if sel.shaft.None? then Rejected("shaft_id", "Shaft selection is required.")
    else if sel.vane.None? then Rejected("vane_id", "Vane selection is required.")
    else if sel.point.None? then Rejected("point_id", "Point selection is required.")
    else if !IsNumber(sel.cut_length) then Rejected("cut_length", "Cut length is required.")
    else if !IsNumber(sel.quantity) then Rejected("quantity", "Quantity is required.")
    else
      var shaft, vane, point := sel.shaft.value, sel.vane.value, sel.point.value;
      var cut, q := sel.cut_length.value, sel.quantity.value;
      // active checks
      if shaft.active != 1 then Rejected("shaft_id", "Selected shaft is not available.")
      else if sel.wrap.Some? && sel.wrap.value.active != 1 then Rejected("wrap_id", "Selected wrap is not available.")
      else if vane.active != 1 then Rejected("vane_id", "Selected vane is not available.")
      else if point.active != 1 then Rejected("point_id", "Selected point is not available.")
      // cut length rules
      else if cut > shaft.max_length then Rejected("cut_length", "Cut length exceeds raw shaft length.")
      else if cut < MIN_CUT_LENGTH then Rejected("cut_length", "Minimum cut length is 24\".")
      else if !IsIncrement(cut, CUT_INCREMENT) then Rejected("cut_length", "Cut length must be in 0.25\" increments.")
      // quantity rules
      else if q < MIN_QTY then Rejected("quantity", "Minimum order is 6 arrows.")
      else if Rem(q, 2.0) != Finite(0.0) then Rejected("quantity", "Quantity must be an even number.")
      // fletch count
      else if !IsNumber(sel.fletch_count) || sel.fletch_count != Finite(3.0) then
        Rejected("fletch_count", "Fletching count must be 3 for now.")
      // wrap compatibility, whenever a wrap is chosen
      else if sel.wrap.Some? && (shaft.outer_diameter < sel.wrap.value.min_outer_diameter
                                 || shaft.outer_diameter > sel.wrap.value.max_outer_diameter) then
        Rejected("wrap_id", "Wrap is not compatible with selected shaft.")
      else if sel.wrap.Some? && sel.wrap.value.length >= cut then
        Rejected("wrap_id", "Wrap length exceeds arrow length.")
      // vane micro compatibility and point thread
      else if shaft.outer_diameter <= MICRO_OD_MAX && !Flag(vane.compatible_micro) then
        Rejected("vane_id", "Selected vane is not compatible with micro-diameter shafts.")
      else if UnsupportedThread(point) then
        Rejected("point_id", "Point thread type is not supported.")
      else
        Accepted
  }

  /** Required selections are checked shaft, vane, point, each with its own
      field; then cut_length and quantity must be finite, in that order. */
  lemma RequiredChecksInOrder(sel: Selection)
    ensures sel.shaft.Some? && sel.vane.None? ==> ValidateBuild(sel) == Rejected("vane_id", "Vane selection is required.")
    ensures sel.shaft.Some? && sel.vane.Some? && sel.point.None? ==>
              ValidateBuild(sel) == Rejected("point_id", "Point selection is required.")
    ensures sel.shaft.Some? && sel.vane.Some? && sel.point.Some? && !IsNumber(sel.cut_length) ==>
              ValidateBuild(sel) == Rejected("cut_length", "Cut length is required.")
    ensures sel.shaft.Some? && sel.vane.Some? && sel.point.Some? && IsNumber(sel.cut_length) && !IsNumber(sel.quantity) ==>
              ValidateBuild(sel) == Rejected("quantity", "Quantity is required.")
  {
  }

  /** An inactive component fails with its own slot's field, shaft first,
      then wrap, vane and point. */
  lemma InactiveComponentRejected(sel: Selection)
    requires Complete(sel)
    ensures sel.shaft.value.active != 1 ==> ValidateBuild(sel) == Rejected("shaft_id", "Selected shaft is not available.")
    ensures sel.shaft.value.active == 1 && sel.wrap.Some? && sel.wrap.value.active != 1 ==>
              ValidateBuild(sel) == Rejected("wrap_id", "Selected wrap is not available.")
    ensures sel.shaft.value.active == 1 && (sel.wrap.Some? ==> sel.wrap.value.active == 1) && sel.vane.value.active != 1 ==>
              ValidateBuild(sel) == Rejected("vane_id", "Selected vane is not available.")
    ensures sel.shaft.value.active == 1 && (sel.wrap.Some? ==> sel.wrap.value.active == 1) && sel.vane.value.active == 1
            && sel.point.value.active != 1 ==>
              ValidateBuild(sel) == Rejected("point_id", "Selected point is not available.")
  {
  }

  /** All components present and active. */
  predicate AllActive(sel: Selection)
    requires Complete(sel)
  {
    sel.shaft.value.active == 1 && (sel.wrap.Some? ==> sel.wrap.value.active == 1)
    && sel.vane.value.active == 1 && sel.point.value.active == 1
  }

  /** The cut length must be at most max_length, at least 24 and on a 0.25
      step, checked in that order. */
  lemma CutChecksInOrder(sel: Selection)
    requires Complete(sel) && AllActive(sel)
    ensures sel.cut_length.value > sel.shaft.value.max_length ==>
              ValidateBuild(sel) == Rejected("cut_length", "Cut length exceeds raw shaft length.")
    ensures sel.cut_length.value <= sel.shaft.value.max_length && sel.cut_length.value < MIN_CUT_LENGTH ==>
              ValidateBuild(sel) == Rejected("cut_length", "Minimum cut length is 24\".")
    ensures MIN_CUT_LENGTH <= sel.cut_length.value <= sel.shaft.value.max_length
            && !IsIncrement(sel.cut_length.value, CUT_INCREMENT) ==>
              ValidateBuild(sel) == Rejected("cut_length", "Cut length must be in 0.25\" increments.")
  {
  }

  /** An integer quantity passes the quantity rules exactly when it is even
      and at least 6, so 8 is accepted here. */
  lemma QuantityRules(sel: Selection, q: int)
    requires Complete(sel) && AllActive(sel) && sel.quantity == Finite(q as real)
    requires MIN_CUT_LENGTH <= sel.cut_length.value <= sel.shaft.value.max_length
    requires IsIncrement(sel.cut_length.value, CUT_INCREMENT)
    ensures ValidateBuild(sel).Rejected? && ValidateBuild(sel).field == "quantity" <==> q < 6 || q % 2 != 0
  {
    RemTwoOfInt(q);
  }

  /** Fletching must be exactly 3 once the earlier rules pass. */
  lemma FletchMustBeThree(sel: Selection)
    requires Complete(sel) && AllActive(sel)
    requires MIN_CUT_LENGTH <= sel.cut_length.value <= sel.shaft.value.max_length
    requires IsIncrement(sel.cut_length.value, CUT_INCREMENT)
    requires sel.quantity.value >= MIN_QTY && Rem(sel.quantity.value, 2.0) == Finite(0.0)
    ensures sel.fletch_count != Finite(3.0) ==>
              ValidateBuild(sel) == Rejected("fletch_count", "Fletching count must be 3 for now.")
  {
  }

  /** Wrap rules apply to every chosen wrap: the OD window, then the length. */
  lemma WrapRulesAlwaysApply(sel: Selection, w: Wrap)
    requires sel.wrap == Some(w) && Complete(sel) && AllActive(sel)
    requires MIN_CUT_LENGTH <= sel.cut_length.value <= sel.shaft.value.max_length
    requires IsIncrement(sel.cut_length.value, CUT_INCREMENT)
    requires sel.quantity.value >= MIN_QTY && Rem(sel.quantity.value, 2.0) == Finite(0.0)
    requires sel.fletch_count == Finite(3.0)
    ensures !(w.min_outer_diameter <= sel.shaft.value.outer_diameter <= w.max_outer_diameter) ==>
              ValidateBuild(sel) == Rejected("wrap_id", "Wrap is not compatible with selected shaft.")
    ensures w.min_outer_diameter <= sel.shaft.value.outer_diameter <= w.max_outer_diameter && w.length >= sel.cut_length.value ==>
              ValidateBuild(sel) == Rejected("wrap_id", "Wrap length exceeds arrow length.")
  {
  }

  // ---- pricing ----

  /** Both figures are JavaScript numbers: a non-finite input reaches them. */
  datatype Quote = Quote(per_arrow: Num, subtotal: Num)

  /** shaft + wrap + vane x fletch + point + labour, before rounding. */
  function PerArrowSum(sel: Selection): real
    requires sel.shaft.Some? && sel.vane.Some? && sel.point.Some? && IsNumber(sel.fletch_count)
  {
    sel.shaft.value.price_per_shaft
    + (if sel.wrap.Some? then sel.wrap.value.price_per_arrow else 0.0)
    + sel.vane.value.price_per_arrow * sel.fletch_count.value
    + sel.point.value.price
    + BUILD_LABOR_PER_ARROW
  }

  /** The per-arrow sum as JavaScript computes it: the vane term
      `vane.price_per_arrow * fletch_count` is its only summand that can be
      non-finite, and finite sums are exact. */
  function RawPerArrow(sel: Selection): Num
    requires sel.shaft.Some? && sel.vane.Some? && sel.point.Some?
  {
    NumAdd(
      NumAdd(Finite(sel.shaft.value.price_per_shaft + (if sel.wrap.Some? then sel.wrap.value.price_per_arrow else 0.0)),
             NumMul(Finite(sel.vane.value.price_per_arrow), sel.fletch_count)),
      Finite(sel.point.value.price + BUILD_LABOR_PER_ARROW))
  }

  /** The JavaScript sum is finite exactly when the fletch count is, and
      then it is the exact per-arrow sum. */
  lemma RawPerArrowIsSum(sel: Selection)
    requires sel.shaft.Some? && sel.vane.Some? && sel.point.Some?
    ensures RawPerArrow(sel).Finite? <==> IsNumber(sel.fletch_count)
    ensures RawPerArrow(sel).Finite? ==> RawPerArrow(sel).value == PerArrowSum(sel)
  {
  }

  /** v1 `calculatePrice`. Shaft, vane and point are dereferenced
      unconditionally. A non-finite fletch count makes both figures
      non-finite; a non-finite quantity only the subtotal. */
  function CalculatePrice(sel: Selection): (r: Quote)
    requires sel.shaft.Some? && sel.vane.Some? && sel.point.Some?
    ensures r.per_arrow.Finite? <==> IsNumber(sel.fletch_count)
    ensures r.subtotal.Finite? <==> IsNumber(sel.quantity) && IsNumber(sel.fletch_count)
    ensures sel.quantity == NaN ==> r.subtotal == NaN
    ensures r.per_arrow.Finite? ==>
              && IsCents(r.per_arrow.value)
              && PerArrowSum(sel) - 0.005 < r.per_arrow.value <= PerArrowSum(sel) + 0.005
    ensures r.subtotal.Finite? ==> IsCents(r.subtotal.value)
    ensures r.subtotal.Finite? && IsInteger(sel.quantity.value) ==>
              r.subtotal.value == r.per_arrow.value * sel.quantity.value
  {
    var raw := RawPerArrow(sel);
    var per := Round2Num(raw);
    var subtotal := Round2Num(NumMul(per, sel.quantity));
    RawPerArrowIsSum(sel);
    Round2NumThenScale(raw, sel.quantity);
    Quote(per, subtotal)
  }

  /** An accepted v1 build is priced, with three vanes per arrow. */
  lemma AcceptedBuildIsPriced(sel: Selection)
    requires ValidateBuild(sel) == Accepted
    ensures CalculatePrice(sel).per_arrow.Finite? && CalculatePrice(sel).subtotal.Finite?
    ensures PerArrowSum(sel) == sel.shaft.value.price_per_shaft
              + (if sel.wrap.Some? then sel.wrap.value.price_per_arrow else 0.0)
              + 3.0 * sel.vane.value.price_per_arrow + sel.point.value.price + BUILD_LABOR_PER_ARROW
  {
  }

  // ---- summary ----

  datatype Summary = Summary(
    shaft: string,
    cut_length: Num,
    wrap: string,
    vane: string,
    point: string,
    quantity: Num)

  /** v1 `buildSummary`; `show` is JavaScript's Number-to-String conversion.
      The point label is shared with the current engine. */
  function BuildSummary(sel: Selection, show: real -> string): (r: Summary)
    requires sel.shaft.Some? && sel.vane.Some? && sel.point.Some?
    ensures r.cut_length == sel.cut_length && r.quantity == sel.quantity
    ensures r.wrap == (if sel.wrap.Some? then sel.wrap.value.name else "No wrap")
    ensures r.point == PointLabel(sel.point.value, show)
    ensures Text.AllWhitespace(TextOr(sel.point.value.brand) + " " + TextOr(sel.point.value.model)) ==>
              r.point == sel.point.value.kind + " " + show(sel.point.value.weight_grains) + "gr"
  {
    var shaft, vane := sel.shaft.value, sel.vane.value;
    PointLabelFallback(sel.point.value, show);
    Summary(
      shaft.brand + " " + shaft.model + " " + show(shaft.spine),
      sel.cut_length,
      if sel.wrap.Some? then sel.wrap.value.name else "No wrap",
      vane.brand + " " + vane.model,
      PointLabel(sel.point.value, show),
      sel.quantity)
  }
}
