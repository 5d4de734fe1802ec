/**
 * The current server-side build engine (functions/_utils/db.ts):
 * `validateBuild`, an ordered chain of early returns whose first failing
 * rule names the offending field; `calculatePrice`, an additive per-arrow
 * formula rounded to cents before it is multiplied by the quantity; and
 * `buildSummary`, the display labels of a resolved build.
 */
module BuildEngine {
  import opened Wrappers
  import opened Js
  import opened Catalog
  import Text

  const BUILD_LABOR_PER_ARROW: real := 4.5
  const MIN_CUT_LENGTH: real := 20.0
  const CUT_INCREMENT: real := 0.25
  const MICRO_OD_MAX: real := 0.265
  const ALLOWED_QTYS: seq<real> := [6.0, 12.0]

  /** The record the engine's three functions receive. `cut_length` None is
      null or undefined; `fletch_count` None is an argument left undefined. */
  datatype Selection = Selection(
    shaft: Option<Shaft>,
    wrap: Option<Wrap>,
    vane: Option<Vane>,
    point: Option<Point>,
    insert: Option<Insert>,
    nock: Option<Nock>,
    cut_mode: string,
    cut_length: Option<Num>,
    quantity: Num,
    fletch_count: Option<Num>)

  datatype Verdict = Accepted | Rejected(field: string, message: string)

  /** Any cut_mode other than "cut" is treated as uncut. */
  predicate IsCut(sel: Selection) {
    sel.cut_mode == "cut"
  }

  /** `isNumber(cut_length)`. */
  predicate CutLengthIsNumber(sel: Selection) {
    sel.cut_length.Some? && IsNumber(sel.cut_length.value)
  }

  function CutValue(sel: Selection): real
    requires CutLengthIsNumber(sel)
  {
    sel.cut_length.value.value
  }

  /** `Number(fletch_count)`: undefined becomes NaN. */
  function Fletch(sel: Selection): Num {
    sel.fletch_count.GetOr(NaN)
  }

  /** `[0, 3, 4].includes(Number(fletch_count))`. */
  predicate FletchAllowed(n: Num) {
    n == Finite(0.0) || n == Finite(3.0) || n == Finite(4.0)
  }

  /** The shaft's outer diameter lies in the wrap's inclusive window. */
  predicate OdInWindow(shaft: Shaft, wrap: Wrap) {
    wrap.min_outer_diameter <= shaft.outer_diameter <= wrap.max_outer_diameter
  }

  /** A micro-diameter shaft with a vane that does not declare micro support. */
  predicate MicroIncompatible(shaft: Shaft, vane: Vane) {
    shaft.outer_diameter <= MICRO_OD_MAX && !Flag(vane.compatible_micro)
  }

  /** The cut-mode block passes: in cut mode a finite length within
      [MIN_CUT_LENGTH, max_length] on a quarter-inch step; otherwise no length. */
  predicate CutRulesPass(sel: Selection)
    requires sel.shaft.Some?
  {
    if IsCut(sel) then
      && CutLengthIsNumber(sel)
      && MIN_CUT_LENGTH <= CutValue(sel) <= sel.shaft.value.max_length
      && IsIncrement(CutValue(sel), CUT_INCREMENT)
    else
      sel.cut_length.None?
  }

  /** Every rule of validateBuild at once, with no order: the set of builds it accepts. */
  predicate Admissible(sel: Selection) {
    && sel.shaft.Some?
    && IsNumber(sel.quantity)
    && CutRulesPass(sel)
    && sel.quantity.value in ALLOWED_QTYS
    && FletchAllowed(Fletch(sel))
    && (Fletch(sel) == Finite(0.0) <==> sel.vane.None?)
    && (sel.wrap.Some? && IsCut(sel) ==>
          OdInWindow(sel.shaft.value, sel.wrap.value) && sel.wrap.value.length < CutValue(sel))
    && (sel.vane.Some? ==> !MicroIncompatible(sel.shaft.value, sel.vane.value))
    && (sel.point.Some? ==> !UnsupportedThread(sel.point.value))
  }

  const FIELDS: set<string> :=
    {"shaft_id", "quantity", "cut_length", "fletch_count", "vane_id", "wrap_id", "point_id"}

  /** `validateBuild`: the first failing rule, in source order, decides. */
  function ValidateBuild(sel: Selection): (r: Verdict)
    ensures r == Accepted <==> Admissible(sel)
    ensures sel.shaft.None? ==> r == Rejected("shaft_id", "Shaft selection is required.")
    ensures r.Rejected? ==> r.field in FIELDS
  {
    if sel.shaft.None? then Rejected("shaft_id", "Shaft selection is required.")
    else if !IsNumber(sel.quantity) then Rejected("quantity", "Quantity is required.")
    else
      var shaft := sel.shaft.value;
      var q := sel.quantity.value;
      var fletch := Fletch(sel);
      // cut-mode block
      if IsCut(sel) && !CutLengthIsNumber(sel) then
        Rejected("cut_length", "Cut length is required.")
      else if IsCut(sel) && CutValue(sel) > shaft.max_length then
        Rejected("cut_length", "Cut length exceeds raw shaft length.")
      else if IsCut(sel) && CutValue(sel) < MIN_CUT_LENGTH then
        Rejected("cut_length", "Minimum cut length is 20\".")
      else if IsCut(sel) && !IsIncrement(CutValue(sel), CUT_INCREMENT) then
        Rejected("cut_length", "Cut length must be in 0.25\" increments.")
      else if !IsCut(sel) && sel.cut_length.Some? then
        Rejected("cut_length", "For uncut builds, cut_length must be null.")
      // quantity must be exactly 6 or 12
      else if q != 6.0 && q != 12.0 then
        Rejected("quantity", "Quantity must be 6 or 12.")
      // fletch count and its coupling with the vane
      else if !FletchAllowed(fletch) then
        Rejected("fletch_count", "Fletching count must be 0, 3, or 4.")
      else if fletch == Finite(0.0) && sel.vane.Some? then
        Rejected("vane_id", "If fletch_count is 0, vane must be empty.")
      else if fletch != Finite(0.0) && sel.vane.None? then
        Rejected("vane_id", "Vane selection is required when fletching is enabled.")
      // wrap compatibility, only when a wrap is chosen and the shaft is cut
      else if sel.wrap.Some? && IsCut(sel) && !OdInWindow(shaft, sel.wrap.value) then
        Rejected("wrap_id", "Wrap is not compatible with selected shaft.")
      else if sel.wrap.Some? && IsCut(sel) && sel.wrap.value.length >= CutValue(sel) then
        Rejected("wrap_id", "Wrap length exceeds arrow length.")
      // vane micro compatibility
      else if sel.vane.Some? && MicroIncompatible(shaft, sel.vane.value) then
        Rejected("vane_id", "Selected vane is not compatible with micro-diameter shafts.")
      // point thread
      else if sel.point.Some? && UnsupportedThread(sel.point.value) then
        Rejected("point_id", "Point thread type is not supported.")
      else
        Accepted
  }

  /** A missing shaft is rejected whatever else the selection holds. */
  lemma MissingShaftAlwaysRejected(sel: Selection, other: Selection)
    requires sel.shaft.None? && other.shaft.None?
    ensures ValidateBuild(sel) == ValidateBuild(other)
    ensures ValidateBuild(sel).Rejected? && ValidateBuild(sel).field == "shaft_id"
  {
  }

  /** A non-finite quantity fails right after the shaft check; a finite one
      outside {6, 12} fails only once the cut rules pass, and before them the
      cut rules report their own field. */
  lemma QuantityRuleOrder(sel: Selection)
    requires sel.shaft.Some?
    ensures !IsNumber(sel.quantity) ==> ValidateBuild(sel) == Rejected("quantity", "Quantity is required.")
    ensures IsNumber(sel.quantity) && !CutRulesPass(sel) ==> ValidateBuild(sel).field == "cut_length"
    ensures IsNumber(sel.quantity) && CutRulesPass(sel) && sel.quantity.value !in ALLOWED_QTYS ==>
              ValidateBuild(sel) == Rejected("quantity", "Quantity must be 6 or 12.")
  {
  }

  /** In cut mode the length checks run in the order: finite, at most
      max_length, at least 20, on a 0.25 step. */
  lemma CutChecksInOrder(sel: Selection)
    requires sel.shaft.Some? && IsNumber(sel.quantity) && IsCut(sel)
    ensures !CutLengthIsNumber(sel) ==>
              ValidateBuild(sel) == Rejected("cut_length", "Cut length is required.")
    ensures CutLengthIsNumber(sel) && CutValue(sel) > sel.shaft.value.max_length ==>
              ValidateBuild(sel) == Rejected("cut_length", "Cut length exceeds raw shaft length.")
    ensures CutLengthIsNumber(sel) && CutValue(sel) <= sel.shaft.value.max_length && CutValue(sel) < MIN_CUT_LENGTH ==>
              ValidateBuild(sel) == Rejected("cut_length", "Minimum cut length is 20\".")
    ensures CutLengthIsNumber(sel) && MIN_CUT_LENGTH <= CutValue(sel) <= sel.shaft.value.max_length
              && !IsIncrement(CutValue(sel), CUT_INCREMENT) ==>
              ValidateBuild(sel) == Rejected("cut_length", "Cut length must be in 0.25\" increments.")
  {
  }

  /** Any mode other than "cut" counts as uncut, and then a length is refused. */
  lemma UncutRejectsLength(sel: Selection)
    requires sel.shaft.Some? && IsNumber(sel.quantity)
    requires sel.cut_mode != "cut" && sel.cut_length.Some?
    ensures ValidateBuild(sel) == Rejected("cut_length", "For uncut builds, cut_length must be null.")
  {
  }

  /** A shaft-only cut build at the given length: 6 arrows, no fletching. */
  function PlainCutBuild(shaft: Shaft, len: real): Selection {
    Selection(Some(shaft), None, None, None, None, None, "cut", Some(Finite(len)), Finite(6.0), Some(Finite(0.0)))
  }

  /** The increment law: 20.0 and 20.25 pass, 20.26 is rejected on cut_length. */
  lemma {:induction false} IncrementExamples(shaft: Shaft)
    requires shaft.max_length >= 21.0
    ensures ValidateBuild(PlainCutBuild(shaft, 20.0)) == Accepted
    ensures ValidateBuild(PlainCutBuild(shaft, 20.25)) == Accepted
    ensures ValidateBuild(PlainCutBuild(shaft, 20.26)) == Rejected("cut_length", "Cut length must be in 0.25\" increments.")
  {
    MultipleIsIncrement(80, CUT_INCREMENT);
    assert 80 as real * CUT_INCREMENT == 20.0;
    MultipleIsIncrement(81, CUT_INCREMENT);
    assert 81 as real * CUT_INCREMENT == 20.25;
    assert 20.26 / CUT_INCREMENT == 81.04;
    RoundUnique(81.04, 81);
  }

  /** Quantity exactness: 6 and 12 pass, 1, 5, 8 and 24 fail on quantity. */
  lemma QuantityExamples(shaft: Shaft)
    ensures var uncut := Selection(Some(shaft), None, None, None, None, None, "uncut", None, Finite(6.0), Some(Finite(0.0)));
            && ValidateBuild(uncut) == Accepted
            && ValidateBuild(uncut.(quantity := Finite(12.0))) == Accepted
            && ValidateBuild(uncut.(quantity := Finite(1.0))).field == "quantity"
            && ValidateBuild(uncut.(quantity := Finite(5.0))).field == "quantity"
            && ValidateBuild(uncut.(quantity := Finite(8.0))).field == "quantity"
            && ValidateBuild(uncut.(quantity := Finite(24.0))).field == "quantity"
  {
  }

  /** fletch_count must be 0, 3 or 4; 0 forbids a vane and 3 or 4 demand one. */
  lemma FletchVaneCoupling(sel: Selection)
    requires sel.shaft.Some? && IsNumber(sel.quantity) && CutRulesPass(sel)
    requires sel.quantity.value in ALLOWED_QTYS
    ensures !FletchAllowed(Fletch(sel)) ==>
              ValidateBuild(sel) == Rejected("fletch_count", "Fletching count must be 0, 3, or 4.")
    ensures Fletch(sel) == Finite(0.0) && sel.vane.Some? ==> ValidateBuild(sel).field == "vane_id"
    ensures FletchAllowed(Fletch(sel)) && Fletch(sel) != Finite(0.0) && sel.vane.None? ==>
              ValidateBuild(sel) == Rejected("vane_id", "Vane selection is required when fletching is enabled.")
  {
  }

  /** An uncut build's verdict does not depend on the wrap at all. */
  lemma UncutIgnoresWrap(sel: Selection, w: Option<Wrap>)
    requires !IsCut(sel)
    ensures ValidateBuild(sel.(wrap := w)) == ValidateBuild(sel)
  {
  }

  /** In cut mode, once the earlier rules pass, a chosen wrap needs the shaft
      OD inside its inclusive window and must be strictly shorter than the cut. */
  lemma WrapRules(sel: Selection)
    requires sel.shaft.Some? && IsNumber(sel.quantity) && CutRulesPass(sel) && IsCut(sel)
    requires sel.quantity.value in ALLOWED_QTYS && FletchAllowed(Fletch(sel))
    requires Fletch(sel) == Finite(0.0) <==> sel.vane.None?
    requires sel.wrap.Some?
    ensures !OdInWindow(sel.shaft.value, sel.wrap.value) ==>
              ValidateBuild(sel) == Rejected("wrap_id", "Wrap is not compatible with selected shaft.")
    ensures OdInWindow(sel.shaft.value, sel.wrap.value) && sel.wrap.value.length >= CutValue(sel) ==>
              ValidateBuild(sel) == Rejected("wrap_id", "Wrap length exceeds arrow length.")
  {
  }

  /** The micro-vane example: a 0.204" shaft refuses a vane without micro
      support and accepts the same vane with it. */
  lemma MicroVaneExample(shaft: Shaft, vane: Vane)
    requires shaft.outer_diameter == 0.204
    ensures var sel := Selection(Some(shaft), None, Some(vane.(compatible_micro := 0)), None, None, None,
                                 "uncut", None, Finite(6.0), Some(Finite(3.0)));
            && ValidateBuild(sel) == Rejected("vane_id", "Selected vane is not compatible with micro-diameter shafts.")
            && ValidateBuild(sel.(vane := Some(vane.(compatible_micro := 1)))) == Accepted
  {
  }

  /** On a shaft of OD at most 0.265" a vane must declare micro support;
      on a thicker shaft any vane passes this rule. Swapping the vane of an
      accepted build changes the verdict only through this rule. */
  lemma MicroVaneRule(sel: Selection, v: Vane)
    requires sel.vane.Some? && ValidateBuild(sel) == Accepted
    ensures ValidateBuild(sel.(vane := Some(v))) ==
              if MicroIncompatible(sel.shaft.value, v)
              then Rejected("vane_id", "Selected vane is not compatible with micro-diameter shafts.")
              else Accepted
    ensures sel.shaft.value.outer_diameter > MICRO_OD_MAX ==> ValidateBuild(sel.(vane := Some(v))) == Accepted
  {
  }

  /** A point whose thread is set and is not "8-32" is the last rule to fail;
      an absent or empty thread is accepted. */
  lemma ThreadRule(sel: Selection, p: Point)
    requires ValidateBuild(sel.(point := None)) == Accepted
    ensures ValidateBuild(sel.(point := Some(p))) ==
              if UnsupportedThread(p) then Rejected("point_id", "Point thread type is not supported.") else Accepted
    ensures p.thread == None || p.thread == Some("") || p.thread == Some("8-32") ==>
              ValidateBuild(sel.(point := Some(p))) == Accepted
  {
  }

  // ---- pricing ----

  /** Both figures are JavaScript numbers: a non-finite input reaches them. */
  datatype Quote = Quote(per_arrow: Num, subtotal: Num)

  function WrapPrice(w: Option<Wrap>): real {
    if w.Some? then w.value.price_per_arrow else 0.0
  }

  /** An insert costs its own price plus the collar's exactly when it needs one. */
  function InsertPrice(i: Option<Insert>): real {
    if i.None? then 0.0
    else i.value.price_per_arrow + (if Flag(i.value.requires_collar) then i.value.collar_price_per_arrow.GetOr(0.0) else 0.0)
  }

  function PointPrice(p: Option<Point>): real {
    if p.Some? then p.value.price else 0.0
  }

  function NockPrice(n: Option<Nock>): real {
    if n.Some? then n.value.price_per_arrow else 0.0
  }

  /** JavaScript arithmetic gives a finite price exactly when the quantity is
      finite and, if a vane is chosen, so is the fletch count it multiplies. */
  predicate PriceIsFinite(sel: Selection) {
    IsNumber(sel.quantity) && (sel.vane.Some? ==> IsNumber(Fletch(sel)))
  }

  function VanePrice(sel: Selection): real
    requires sel.vane.Some? ==> IsNumber(Fletch(sel))
  {
    if sel.vane.Some? then sel.vane.value.price_per_arrow * Fletch(sel).value else 0.0
  }

  /** The unrounded per-arrow sum: shaft, the chosen optional components and
      the fixed labour charge. */
  function PerArrowSum(sel: Selection): real
    requires sel.shaft.Some?
    requires sel.vane.Some? ==> IsNumber(Fletch(sel))
  {
    sel.shaft.value.price_per_shaft + WrapPrice(sel.wrap) + VanePrice(sel)
    + InsertPrice(sel.insert) + PointPrice(sel.point) + NockPrice(sel.nock)
    + BUILD_LABOR_PER_ARROW
  }

  /** `vane.price_per_arrow * fletch_count`: the count is not converted, so
      an undefined one gives NaN. */
  function VaneTerm(sel: Selection): Num {
    if sel.vane.Some? then NumMul(Finite(sel.vane.value.price_per_arrow), Fletch(sel)) else Finite(0.0)
  }

  /** The unrounded per-arrow sum as JavaScript computes it; the vane term is
      its only summand that can be non-finite, and finite sums are exact, so
      the finite summands are grouped around it. */
  function RawPerArrow(sel: Selection): Num
    requires sel.shaft.Some?
  {
    NumAdd(NumAdd(Finite(sel.shaft.value.price_per_shaft + WrapPrice(sel.wrap)), VaneTerm(sel)),
           Finite(InsertPrice(sel.insert) + PointPrice(sel.point) + NockPrice(sel.nock) + BUILD_LABOR_PER_ARROW))
  }

  /** The JavaScript sum is finite exactly when the vane term is, and then
      it is the exact per-arrow sum. */
  lemma RawPerArrowIsSum(sel: Selection)
    requires sel.shaft.Some?
    ensures RawPerArrow(sel).Finite? <==> (sel.vane.Some? ==> IsNumber(Fletch(sel)))
    ensures RawPerArrow(sel).Finite? ==> RawPerArrow(sel).value == PerArrowSum(sel)
  {
  }

  /** `calculatePrice`. A vane with a non-finite fletch count makes both
      figures non-finite; a non-finite quantity leaves the per-arrow price
      finite and makes only the subtotal non-finite (NaN for NaN). The
      per-arrow price is the sum rounded to cents, and because it is rounded
      before the multiplication, an integer quantity makes the subtotal the
      exact product. */
  function CalculatePrice(sel: Selection): (r: Quote)
    requires sel.shaft.Some?
    ensures r.per_arrow.Finite? <==> (sel.vane.Some? ==> IsNumber(Fletch(sel)))
    ensures r.subtotal.Finite? <==> PriceIsFinite(sel)
    ensures sel.quantity == NaN ==> r.subtotal == NaN
    ensures r.per_arrow.Finite? ==>
              && IsCents(r.per_arrow.value)
              && PerArrowSum(sel) - 0.005 < r.per_arrow.value <= PerArrowSum(sel) + 0.005
    ensures r.subtotal.Finite? ==> IsCents(r.subtotal.value)
    ensures r.subtotal.Finite? && IsInteger(sel.quantity.value) ==>
              r.subtotal.value == r.per_arrow.value * sel.quantity.value
  {
    var raw := RawPerArrow(sel);
    var per := Round2Num(raw);
    var subtotal := Round2Num(NumMul(per, sel.quantity));
    RawPerArrowIsSum(sel);
    Round2NumThenScale(raw, sel.quantity);
    Quote(per, subtotal)
  }

  /** Every accepted build has a finite price, and its subtotal is exactly
      the rounded per-arrow price times 6 or 12. */
  lemma AcceptedBuildIsPriced(sel: Selection)
    requires ValidateBuild(sel) == Accepted
    ensures sel.shaft.Some? && CalculatePrice(sel).per_arrow.Finite? && CalculatePrice(sel).subtotal.Finite?
    ensures CalculatePrice(sel).subtotal.value == CalculatePrice(sel).per_arrow.value * sel.quantity.value
  {
    assert IsInteger(sel.quantity.value);
  }

  /** Each optional component adds its own price to the per-arrow sum and
      nothing when absent. */
  lemma OptionalComponentsAdd(sel: Selection, w: Wrap, i: Insert, p: Point, n: Nock)
    requires sel.shaft.Some? && (sel.vane.Some? ==> IsNumber(Fletch(sel)))
    requires sel.wrap.None? && sel.insert.None? && sel.point.None? && sel.nock.None?
    ensures PerArrowSum(sel.(wrap := Some(w))) == PerArrowSum(sel) + w.price_per_arrow
    ensures PerArrowSum(sel.(insert := Some(i))) == PerArrowSum(sel) + i.price_per_arrow
              + (if Flag(i.requires_collar) then i.collar_price_per_arrow.GetOr(0.0) else 0.0)
    ensures PerArrowSum(sel.(point := Some(p))) == PerArrowSum(sel) + p.price
    ensures PerArrowSum(sel.(nock := Some(n))) == PerArrowSum(sel) + n.price_per_arrow
  {
    assert PointPrice(Some(p)) == p.price;
    assert VanePrice(sel.(point := Some(p))) == VanePrice(sel);
  }

  /** The price round trip: a $50 shaft alone, 6 arrows, is 54.50 each and 327.00 in all. */
  lemma PriceExample(shaft: Shaft)
    requires shaft.price_per_shaft == 50.0
    ensures var sel := PlainCutBuild(shaft, 20.0);
            CalculatePrice(sel) == Quote(Finite(54.5), Finite(327.0))
  {
    var sel := PlainCutBuild(shaft, 20.0);
    assert PerArrowSum(sel) == 54.5;
    RoundUnique(5450.0, 5450);
    assert Round2(54.5) == 54.5;
    assert 54.5 * 6.0 == 327.0;
    RoundUnique(32700.0, 32700);
  }

  // ---- summary ----

  datatype Summary = Summary(
    shaft: string,
    cut_mode: string,
    cut_length: Option<Num>,
    wrap: string,
    vane: string,
    insert: string,
    point: string,
    nock: string,
    quantity: Num)

  /** `${fletch_count}` in the vane label: an argument left undefined reads
      "undefined". */
  function FletchText(fletch: Option<Num>, show: real -> string): string {
    if fletch.Some? then NumText(fletch.value, show) else ToText(Undefined, show)
  }

  /** The vane label: "None" exactly when fletch_count is 0 or no vane is
      chosen, otherwise the vane's name and the count as JavaScript prints it. */
  function VaneLabel(vane: Option<Vane>, fletch: Option<Num>, show: real -> string): (r: string)
    ensures r == "None" <==> vane.None? || fletch == Some(Finite(0.0))
    ensures vane.Some? && fletch.None? ==> r == vane.value.brand + " " + vane.value.model + " (undefined-fletch)"
    ensures vane.Some? && fletch.Some? && fletch != Some(Finite(0.0)) ==>
              r == vane.value.brand + " " + vane.value.model + " (" + NumText(fletch.value, show) + "-fletch)"
  {
    if fletch == Some(Finite(0.0)) then "None"
    else if vane.Some? then
      var r := vane.value.brand + " " + vane.value.model + " (" + FletchText(fletch, show) + "-fletch)";
      assert |r| >= 10;
      r
    else "None"
  }

  /** An insert's label: its brand and model, then " (+collar)" when it
      requires a collar. */
  function InsertLabel(i: Insert): (r: string)
    ensures |r| >= |i.brand| + 1 + |i.model|
    ensures r[..|i.brand| + 1 + |i.model|] == i.brand + " " + i.model
  {
    i.brand + " " + i.model + (if Flag(i.requires_collar) then " (+collar)" else "")
  }

  /** `buildSummary`; `show` is JavaScript's Number-to-String conversion. */
  function BuildSummary(sel: Selection, show: real -> string): (r: Summary)
    requires sel.shaft.Some?
    ensures r.cut_mode in {"cut", "uncut"}
    ensures r.quantity == sel.quantity
  {
    var shaft := sel.shaft.value;
    var mode := if IsCut(sel) then "cut" else "uncut";
    Summary(
      shaft.brand + " " + shaft.model + " " + show(shaft.spine),
      mode,
      if mode == "cut" then sel.cut_length else None,
      if sel.wrap.Some? then sel.wrap.value.name else "None",
      VaneLabel(sel.vane, sel.fletch_count, show),
      if sel.insert.Some? then InsertLabel(sel.insert.value) else "None",
      if sel.point.Some? then PointLabel(sel.point.value, show) else "None",
      if sel.nock.Some? then sel.nock.value.brand + " " + sel.nock.value.model else "None",
      sel.quantity)
  }

  /** Absent slots read "None", and so does the vane when fletch_count is 0. */
  lemma SummaryAbsentSlots(sel: Selection, show: real -> string)
    requires sel.shaft.Some?
    ensures sel.wrap.None? ==> BuildSummary(sel, show).wrap == "None"
    ensures sel.vane.None? || sel.fletch_count == Some(Finite(0.0)) ==> BuildSummary(sel, show).vane == "None"
    ensures sel.insert.None? ==> BuildSummary(sel, show).insert == "None"
    ensures sel.point.None? ==> BuildSummary(sel, show).point == "None"
    ensures sel.nock.None? ==> BuildSummary(sel, show).nock == "None"
  {
  }

  /** The summary carries a cut length only in cut mode, and then verbatim. */
  lemma SummaryCutLength(sel: Selection, show: real -> string)
    requires sel.shaft.Some?
    ensures BuildSummary(sel, show).cut_mode == "cut" <==> IsCut(sel)
    ensures BuildSummary(sel, show).cut_length == if IsCut(sel) then sel.cut_length else None
  {
  }

  /** An insert's label gains " (+collar)" exactly when it requires a collar. */
  lemma InsertLabelCollar(i: Insert)
    ensures Flag(i.requires_collar) <==> InsertLabel(i) == i.brand + " " + i.model + " (+collar)"
    ensures !Flag(i.requires_collar) <==> InsertLabel(i) == i.brand + " " + i.model
  {
    var base := i.brand + " " + i.model;
    if !Flag(i.requires_collar) {
      assert |InsertLabel(i)| == |base|;
      assert |base + " (+collar)"| == |base| + 10;
    }
  }
}
