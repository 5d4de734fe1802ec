/**
 * The client-side logic of the arrow builder (src/ArrowBuilderPage.tsx):
 * the builder state and its update rules, the compatibility filters, the
 * total-arrow-weight / front-of-centre estimator, the cleanup that runs when
 * the shaft changes, and the pricing gate and payload.
 *
 * Catalog rows reach the client through the catalog endpoint, so the
 * component records are the shared ones of module Catalog.
 */
module BuilderPage {
  import opened Wrappers
  import opened Js
  import opened Catalog
  import Tools
  import BuildEngine

  const VANE_CENTER_FROM_NOCK_IN: real := 1.75
  const MICRO_OD_MAX: real := 0.265

  // ---- builder state ----

  datatype CutMode = Uncut | Cut

  /** `BuilderState`; an absent or null id is None. */
  datatype BuilderState = BuilderState(
    shaft_id: Option<int>,
    cut_mode: CutMode,
    cut_length: Option<real>,
    nock_id: Option<int>,
    wrap_id: Option<int>,
    vane_id: Option<int>,
    fletch_count: int,
    vane_primary_color: Option<string>,
    vane_secondary_color: Option<string>,
    insert_id: Option<int>,
    point_id: Option<int>,
    quantity: int)

  const DEFAULT_STATE: BuilderState :=
    BuilderState(None, Uncut, None, None, None, None, 0, None, None, None, None, 6)

  /** The value ranges the state's declared type allows. */
  predicate WellTyped(s: BuilderState) {
    (s.fletch_count == 0 || s.fletch_count == 3 || s.fletch_count == 4)
    && (s.quantity == 6 || s.quantity == 12)
  }

  /** An id that is present and non-zero, i.e. JavaScript-truthy. */
  predicate IdSet(id: Option<int>) {
    id.Some? && id.value != 0
  }

  /** `selectShaft`: back to the defaults with the new shaft, keeping a
      quantity of 12. */
  function SelectShaft(s: BuilderState, id: int): (r: BuilderState)
    ensures r.shaft_id == Some(id)
    ensures r.quantity == (if s.quantity == 12 then 12 else 6)
    ensures r.(shaft_id := None, quantity := 6) == DEFAULT_STATE
  {
    DEFAULT_STATE.(shaft_id := Some(id), quantity := if s.quantity == 12 then 12 else 6)
  }

  /** `setCutMode`: switching to uncut drops the length. */
  function SetCutMode(s: BuilderState, mode: CutMode): (r: BuilderState)
    ensures r.cut_mode == mode
    ensures r.cut_length == (if mode == Uncut then None else s.cut_length)
    ensures r.(cut_mode := s.cut_mode, cut_length := s.cut_length) == s
  {
    s.(cut_mode := mode, cut_length := if mode == Uncut then None else s.cut_length)
  }

  /** `setCutLength`: `parse` is JavaScript's `Number(string)`; a non-finite
      result stores null. */
  function SetCutLength(s: BuilderState, v: string, parse: string -> Num): (r: BuilderState)
    ensures r.cut_length.Some? <==> IsNumber(parse(v))
    ensures r.cut_length.Some? ==> r.cut_length.value == parse(v).value
    ensures r.(cut_length := s.cut_length) == s
  {
    var n := parse(v);
    s.(cut_length := if IsNumber(n) then Some(n.value) else None)
  }

  /** `setQty`, whose argument is typed `6 | 12`. */
  function SetQty(s: BuilderState, q: int): (r: BuilderState)
    requires q == 6 || q == 12
    ensures r.quantity == q && r.(quantity := s.quantity) == s
  {
    s.(quantity := q)
  }

  /** `setFletchCount`, whose argument is typed `0 | 3 | 4`: choosing no
      fletching clears the vane; otherwise the vane is kept. */
  function SetFletchCount(s: BuilderState, n: int): (r: BuilderState)
    requires n == 0 || n == 3 || n == 4
    ensures r.fletch_count == n
    ensures r.vane_id == (if n == 0 then None else s.vane_id)
    ensures r.(fletch_count := s.fletch_count, vane_id := s.vane_id) == s
  {
    if n == 0 then s.(fletch_count := 0, vane_id := None) else s.(fletch_count := n)
  }

  /** The named update rules keep the state within its declared type. */
  lemma SettersStayWellTyped(s: BuilderState, id: int, mode: CutMode, v: string, parse: string -> Num, q: int, n: int)
    requires WellTyped(s)
    requires q == 6 || q == 12
    requires n == 0 || n == 3 || n == 4
    ensures WellTyped(SelectShaft(s, id)) && WellTyped(SetCutMode(s, mode))
    ensures WellTyped(SetCutLength(s, v, parse)) && WellTyped(SetQty(s, q)) && WellTyped(SetFletchCount(s, n))
  {
  }

  // ---- catalog lookups ----

  /** `Array.prototype.find` by id: the first element whose key matches. */
  function FindBy<T>(xs: seq<T>, id: int, key: T -> int): (r: Option<T>)
    ensures r.None? <==> forall i :: 0 <= i < |xs| ==> key(xs[i]) != id
    ensures r.Some? ==> exists i :: 0 <= i < |xs| && xs[i] == r.value && key(xs[i]) == id
                                    && forall j :: 0 <= j < i ==> key(xs[j]) != id
  {
    if |xs| == 0 then None
    else if key(xs[0]) == id then Some(xs[0])
    else
      var r := FindBy(xs[1..], id, key);
      assert forall i :: 1 <= i < |xs| ==> xs[i] == xs[1..][i - 1];
      r
  }

  datatype Inventory = Inventory(
    shafts: seq<Shaft>,
    wraps: seq<Wrap>,
    vanes: seq<Vane>,
    inserts: seq<Insert>,
    points: seq<Point>,
    nocks: seq<Nock>)

  /** The optional components the estimator reads. */
  datatype Parts = Parts(
    wrap: Option<Wrap>,
    vane: Option<Vane>,
    nock: Option<Nock>,
    insert: Option<Insert>,
    point: Option<Point>)

  function WrapId(w: Wrap): int { w.id }
  function VaneId(v: Vane): int { v.id }

  /** The shaft is looked up whenever an id is present; the other slots only
      for a truthy id. */
  function SelectedShaft(st: BuilderState, inv: Inventory): (r: Option<Shaft>)
    ensures r.None? <==> st.shaft_id.None? || forall i :: 0 <= i < |inv.shafts| ==> inv.shafts[i].id != st.shaft_id.value
    ensures r.Some? ==> r.value in inv.shafts && r.value.id == st.shaft_id.value
  {
    if st.shaft_id.Some? then FindBy(inv.shafts, st.shaft_id.value, (x: Shaft) => x.id) else None
  }

  function SelectedParts(st: BuilderState, inv: Inventory): (r: Parts)
    ensures !IdSet(st.wrap_id) ==> r.wrap.None?
    ensures r.wrap.Some? ==> r.wrap.value in inv.wraps && r.wrap.value.id == st.wrap_id.value
    ensures !IdSet(st.vane_id) ==> r.vane.None?
    ensures r.vane.Some? ==> r.vane.value in inv.vanes && r.vane.value.id == st.vane_id.value
    ensures !IdSet(st.nock_id) ==> r.nock.None?
    ensures r.nock.Some? ==> r.nock.value in inv.nocks && r.nock.value.id == st.nock_id.value
    ensures !IdSet(st.insert_id) ==> r.insert.None?
    ensures r.insert.Some? ==> r.insert.value in inv.inserts && r.insert.value.id == st.insert_id.value
    ensures !IdSet(st.point_id) ==> r.point.None?
    ensures r.point.Some? ==> r.point.value in inv.points && r.point.value.id == st.point_id.value
  {
    Parts(
      if IdSet(st.wrap_id) then FindBy(inv.wraps, st.wrap_id.value, WrapId) else None,
      if IdSet(st.vane_id) then FindBy(inv.vanes, st.vane_id.value, VaneId) else None,
      if IdSet(st.nock_id) then FindBy(inv.nocks, st.nock_id.value, (x: Nock) => x.id) else None,
      if IdSet(st.insert_id) then FindBy(inv.inserts, st.insert_id.value, (x: Insert) => x.id) else None,
      if IdSet(st.point_id) then FindBy(inv.points, st.point_id.value, (x: Point) => x.id) else None)
  }

  // ---- compatibility filters ----

  /** `Array.prototype.filter`: every element is kept exactly as often as it
      occurs when it passes, and never when it does not. */
  function Filter<T(!new)>(xs: seq<T>, keep: T -> bool): (r: seq<T>)
    ensures forall x :: multiset(r)[x] == if keep(x) then multiset(xs)[x] else 0
    ensures forall x :: x in r <==> x in xs && keep(x)
  {
    if |xs| == 0 then []
    else
      assert xs == [xs[0]] + xs[1..];
      (if keep(xs[0]) then [xs[0]] else []) + Filter(xs[1..], keep)
  }

  /** `compatibleWraps`: the wraps whose inclusive OD window holds the
      selected shaft's OD; none without a shaft. */
  function CompatibleWraps(shaft: Option<Shaft>, wraps: seq<Wrap>): (r: seq<Wrap>)
    ensures shaft.None? ==> r == []
    ensures shaft.Some? ==> forall w :: w in r <==> w in wraps && BuildEngine.OdInWindow(shaft.value, w)
  {
    if shaft.None? then []
    else
      var od := shaft.value.outer_diameter;
      Filter(wraps, (w: Wrap) => od >= w.min_outer_diameter && od <= w.max_outer_diameter)
  }

  /** `compatibleVanes`: on a micro shaft only vanes marked exactly 1; all
      vanes otherwise or without a shaft. */
  function CompatibleVanes(shaft: Option<Shaft>, vanes: seq<Vane>): (r: seq<Vane>)
    ensures shaft.None? || shaft.value.outer_diameter > MICRO_OD_MAX ==> r == vanes
    ensures shaft.Some? && shaft.value.outer_diameter <= MICRO_OD_MAX ==>
              forall v :: v in r <==> v in vanes && v.compatible_micro == 1
  {
    if shaft.None? then vanes
    else if shaft.value.outer_diameter <= MICRO_OD_MAX then Filter(vanes, (v: Vane) => v.compatible_micro == 1)
    else vanes
  }

  /** Every vane the client offers for a shaft passes the server's micro
      rule; the client is the stricter of the two, since the server accepts
      any non-zero flag. */
  lemma OfferedVanesPassServerRule(shaft: Shaft, vanes: seq<Vane>, v: Vane)
    requires v in CompatibleVanes(Some(shaft), vanes)
    ensures v in vanes && !BuildEngine.MicroIncompatible(shaft, v)
  {
  }

  // ---- weight and balance estimator ----

  datatype Estimate = Estimate(taw: Option<int>, foc: Option<real>)

  /** The length the estimator uses: the cut length in cut mode. */
  function EstimateLength(mode: CutMode, cut_length: Option<real>): Option<real> {
    if mode == Cut && cut_length.Some? then cut_length else None
  }

  function ShaftGr(shaft: Shaft, len: real): real { shaft.gpi * len }

  function WrapGr(p: Parts): real {
    if p.wrap.Some? then p.wrap.value.weight_grains else 0.0
  }

  /** A vane's weight, 0 when it has none. */
  function VaneEach(p: Parts): real {
    if p.vane.Some? && p.vane.value.weight_grains.Some? then p.vane.value.weight_grains.value else 0.0
  }

  function VaneGr(p: Parts, fletch: int): real {
    if fletch == 0 then 0.0 else VaneEach(p) * fletch as real
  }

  function NockGr(p: Parts): real {
    if p.nock.Some? then p.nock.value.weight_grains else 0.0
  }

  /** Insert weight, plus its collar only when the insert requires one. */
  function InsertGr(p: Parts): real {
    if p.insert.None? then 0.0
    else
      var i := p.insert.value;
      i.weight_grains + (if Flag(i.requires_collar) then i.collar_weight_grains.GetOr(0.0) else 0.0)
  }

  function PointGr(p: Parts): real {
    if p.point.Some? then p.point.value.weight_grains else 0.0
  }

  /** Total grains of the arrow. */
  function TotalGr(shaft: Shaft, p: Parts, len: real, fletch: int): real {
    ShaftGr(shaft, len) + WrapGr(p) + VaneGr(p, fletch) + NockGr(p) + InsertGr(p) + PointGr(p)
  }

  function WrapLen(p: Parts): real {
    if p.wrap.Some? then p.wrap.value.length else 0.0
  }

  /** The wrap's centre of mass, from 0 to its length. */
  function WrapX(p: Parts): real {
    if WrapLen(p) > 0.0 then WrapLen(p) / 2.0 else 0.0
  }

  /** Sum of weight times position: shaft at L/2, wrap at its centre, vanes
      at 1.75", nock at 0, insert and point at L. */
  function Moment(shaft: Shaft, p: Parts, len: real, fletch: int): real {
    ShaftGr(shaft, len) * (len / 2.0) + WrapGr(p) * WrapX(p) + VaneGr(p, fletch) * VANE_CENTER_FROM_NOCK_IN
    + NockGr(p) * 0.0 + InsertGr(p) * len + PointGr(p) * len
  }

  function Balance(shaft: Shaft, p: Parts, len: real, fletch: int): real
    requires TotalGr(shaft, p, len, fletch) > 0.0
  {
    Moment(shaft, p, len, fletch) / TotalGr(shaft, p, len, fletch)
  }

  /** The `estimated` computation. Both outputs are null together: without a
      shaft, outside cut mode, without a positive length, or when the total
      weight rounds to nothing. Otherwise TAW is the total rounded to a grain
      and FOC is the tools-page formula at the balance point, to 0.1%. */
  function Estimated(shaft: Option<Shaft>, p: Parts, mode: CutMode, cut_length: Option<real>, fletch: int): (r: Estimate)
    ensures r.taw.None? <==> r.foc.None?
    ensures r.taw.Some? <==>
              && shaft.Some? && mode == Cut && cut_length.Some? && cut_length.value > 0.0
              && Round(TotalGr(shaft.value, p, cut_length.value, fletch)) > 0
    ensures r.taw.Some? ==>
              var t := TotalGr(shaft.value, p, cut_length.value, fletch);
              r.taw.value as real - 0.5 <= t < r.taw.value as real + 0.5
    ensures r.foc.Some? ==>
              && TotalGr(shaft.value, p, cut_length.value, fletch) >= 0.5
              && var b := Balance(shaft.value, p, cut_length.value, fletch);
                 Abs(r.foc.value - Tools.CalcFOC(b, cut_length.value)) <= 0.05
  {
    if shaft.None? then Estimate(None, None)
    else
      var l := EstimateLength(mode, cut_length);
      if l.None? || l.value == 0.0 || l.value <= 0.0 then Estimate(None, None)
      else
        var len := l.value;
        var total := TotalGr(shaft.value, p, len, fletch);
        var taw := Round(total);
        if taw == 0 || taw <= 0 then Estimate(None, None)
        else
          var balance := Moment(shaft.value, p, len, fletch) / total;
          var foc := ((balance - len / 2.0) / len) * 100.0;
          assert foc == Tools.CalcFOC(balance, len);
          Estimate(Some(taw), Some(Round(foc * 10.0) as real / 10.0))
  }

  /** The estimate for the builder's current state. */
  function EstimateOf(st: BuilderState, inv: Inventory): (r: Estimate)
    ensures st.cut_mode != Cut || st.cut_length.None? ==> r == Estimate(None, None)
    ensures SelectedShaft(st, inv).None? ==> r == Estimate(None, None)
    ensures r.taw.Some? ==> exists i :: 0 <= i < |inv.shafts| && inv.shafts[i].id == st.shaft_id.value
  {
    Estimated(SelectedShaft(st, inv), SelectedParts(st, inv), st.cut_mode, st.cut_length, st.fletch_count)
  }

  /** Vanes weigh nothing without fletching or without a recorded weight. */
  lemma VaneWeightVanishes(p: Parts, fletch: int)
    ensures fletch == 0 ==> VaneGr(p, fletch) == 0.0
    ensures p.vane.None? || p.vane.value.weight_grains.None? ==> VaneGr(p, fletch) == 0.0
  {
  }

  /** The collar adds its weight exactly when the insert requires one. */
  lemma CollarWeightRule(i: Insert, p: Parts)
    requires p.insert == Some(i)
    ensures InsertGr(p) == i.weight_grains + (if Flag(i.requires_collar) then i.collar_weight_grains.GetOr(0.0) else 0.0)
    ensures !Flag(i.requires_collar) ==> InsertGr(p) == i.weight_grains
  {
  }

  const NO_PARTS: Parts := Parts(None, None, None, None, None)

  /** A bare shaft balances at its middle, so its FOC reads 0. */
  lemma {:induction false} ShaftOnlyFocIsZero(shaft: Shaft, len: real, fletch: int)
    requires len > 0.0 && shaft.gpi > 0.0 && Round(shaft.gpi * len) > 0
    ensures Estimated(Some(shaft), NO_PARTS, Cut, Some(len), fletch).foc == Some(0.0)
  {
    var t := TotalGr(shaft, NO_PARTS, len, fletch);
    assert VaneGr(NO_PARTS, fletch) == 0.0;
    assert t == shaft.gpi * len;
    assert Moment(shaft, NO_PARTS, len, fletch) == t * (len / 2.0);
    assert Moment(shaft, NO_PARTS, len, fletch) / t == len / 2.0;
    Tools.CalcFOCAnchors(len);
    RoundUnique(0.0, 0);
  }

  /** All component weights (and the fletch count) are non-negative. */
  predicate NonNegativeWeights(shaft: Shaft, p: Parts, fletch: int) {
    && shaft.gpi >= 0.0 && fletch >= 0
    && (p.wrap.Some? ==> p.wrap.value.weight_grains >= 0.0)
    && (p.vane.Some? ==> p.vane.value.weight_grains.GetOr(0.0) >= 0.0)
    && (p.nock.Some? ==> p.nock.value.weight_grains >= 0.0)
    && (p.insert.Some? ==> p.insert.value.weight_grains >= 0.0 && p.insert.value.collar_weight_grains.GetOr(0.0) >= 0.0)
    && (p.point.Some? ==> p.point.value.weight_grains >= 0.0)
  }

  lemma MulBetween(w: real, x: real, len: real)
    requires w >= 0.0 && 0.0 <= x <= len
    ensures 0.0 <= w * x <= w * len
  {
  }

  /** Every weight term is non-negative and sits at a position on the
      arrow, so the moment lies between 0 and total weight times length. */
  lemma {:induction false} MomentOnArrow(shaft: Shaft, p: Parts, len: real, fletch: int)
    requires len > 0.0 && NonNegativeWeights(shaft, p, fletch)
    requires VANE_CENTER_FROM_NOCK_IN <= len && WrapX(p) <= len
    ensures 0.0 <= Moment(shaft, p, len, fletch) <= TotalGr(shaft, p, len, fletch) * len
  {
    MulBetween(shaft.gpi, len, len);
    assert VaneEach(p) >= 0.0;
    MulBetween(VaneEach(p), fletch as real, fletch as real);
    WeightedSumBound(ShaftGr(shaft, len), WrapGr(p), VaneGr(p, fletch), NockGr(p), InsertGr(p), PointGr(p),
                     WrapX(p), VANE_CENTER_FROM_NOCK_IN, len);
  }

  lemma WeightedSumBound(a: real, b: real, c: real, d: real, e: real, f: real, xb: real, xc: real, len: real)
    requires a >= 0.0 && b >= 0.0 && c >= 0.0 && d >= 0.0 && e >= 0.0 && f >= 0.0
    requires len > 0.0 && 0.0 <= xb <= len && 0.0 <= xc <= len
    ensures 0.0 <= a * (len / 2.0) + b * xb + c * xc + d * 0.0 + e * len + f * len <= (a + b + c + d + e + f) * len
  {
    MulBetween(a, len / 2.0, len);
    MulBetween(b, xb, len);
    MulBetween(c, xc, len);
    MulBetween(d, 0.0, len);
    MulBetween(e, len, len);
    MulBetween(f, len, len);
    SumBetween(a * (len / 2.0), b * xb, c * xc, d * 0.0, e * len, f * len,
               a * len, b * len, c * len, d * len, e * len, f * len);
    Distribute6(a, b, c, d, e, f, len);
  }

  lemma SumBetween(u1: real, u2: real, u3: real, u4: real, u5: real, u6: real,
                   v1: real, v2: real, v3: real, v4: real, v5: real, v6: real)
    requires 0.0 <= u1 <= v1 && 0.0 <= u2 <= v2 && 0.0 <= u3 <= v3
    requires 0.0 <= u4 <= v4 && 0.0 <= u5 <= v5 && 0.0 <= u6 <= v6
    ensures 0.0 <= u1 + u2 + u3 + u4 + u5 + u6 <= v1 + v2 + v3 + v4 + v5 + v6
  {
  }

  lemma Distribute6(a: real, b: real, c: real, d: real, e: real, f: real, len: real)
    ensures (a + b + c + d + e + f) * len == a * len + b * len + c * len + d * len + e * len + f * len
  {
  }

  lemma QuotientBetween(m: real, t: real, len: real)
    requires t > 0.0 && 0.0 <= m <= t * len
    ensures 0.0 <= m / t <= len
  {
    var b := m / t;
    assert b * t == m;
    if b > len {
      assert b * t > len * t;
    }
  }

  /** With non-negative weights whose modelled positions lie on the arrow
      (the vane centre and the wrap's centre within the length), the
      estimated FOC lies in [-50, 50]. */
  lemma {:induction false} FocBounded(shaft: Shaft, p: Parts, len: real, fletch: int)
    requires len > 0.0 && NonNegativeWeights(shaft, p, fletch)
    requires VANE_CENTER_FROM_NOCK_IN <= len && WrapX(p) <= len
    requires Round(TotalGr(shaft, p, len, fletch)) > 0
    ensures var r := Estimated(Some(shaft), p, Cut, Some(len), fletch);
            r.foc.Some? && -50.0 <= r.foc.value <= 50.0
  {
    var t := TotalGr(shaft, p, len, fletch);
    MomentOnArrow(shaft, p, len, fletch);
    QuotientBetween(Moment(shaft, p, len, fletch), t, len);
    var b := Balance(shaft, p, len, fletch);
    Tools.CalcFOCBounded(b, len);
    EstimatedFoc(shaft, p, len, fletch);
    TenthBounded(Tools.CalcFOC(b, len));
  }

  /** In cut mode with a positive rounded total, the estimate's FOC is the
      tools-page FOC at the balance point, rounded to a tenth. */
  lemma EstimatedFoc(shaft: Shaft, p: Parts, len: real, fletch: int)
    requires len > 0.0 && Round(TotalGr(shaft, p, len, fletch)) > 0
    ensures TotalGr(shaft, p, len, fletch) >= 0.5
    ensures Estimated(Some(shaft), p, Cut, Some(len), fletch).foc
            == Some(Round(Tools.CalcFOC(Balance(shaft, p, len, fletch), len) * 10.0) as real / 10.0)
  {
  }

  /** Rounding to a tenth keeps a value within [-50, 50]. */
  lemma TenthBounded(f: real)
    requires -50.0 <= f <= 50.0
    ensures -50.0 <= Round(f * 10.0) as real / 10.0 <= 50.0
  {
    var k := Round(f * 10.0);
    assert -500 <= k <= 500;
  }

  // ---- cleanup when the shaft changes ----

  /** The selected wrap is found and fits the shaft. */
  predicate WrapCompatible(st: BuilderState, shaft: Shaft, wraps: seq<Wrap>) {
    IdSet(st.wrap_id) ==>
      var w := FindBy(wraps, st.wrap_id.value, WrapId);
      w.Some? && shaft.outer_diameter >= w.value.min_outer_diameter && shaft.outer_diameter <= w.value.max_outer_diameter
  }

  /** The selected vane is found and, on a micro shaft, marked exactly 1. */
  predicate VaneCompatible(st: BuilderState, shaft: Shaft, vanes: seq<Vane>) {
    IdSet(st.vane_id) ==>
      var v := FindBy(vanes, st.vane_id.value, VaneId);
      v.Some? && !(shaft.outer_diameter <= MICRO_OD_MAX && v.value.compatible_micro != 1)
  }

  /** A cut length in cut mode is within the shaft's raw length. */
  predicate CutCompatible(st: BuilderState, shaft: Shaft) {
    st.cut_mode == Cut && st.cut_length.Some? ==> st.cut_length.value <= shaft.max_length
  }

  predicate Compatible(st: BuilderState, shaft: Shaft, wraps: seq<Wrap>, vanes: seq<Vane>) {
    WrapCompatible(st, shaft, wraps) && VaneCompatible(st, shaft, vanes) && CutCompatible(st, shaft)
  }

  /** The three cleanup rules, one per field group. */
  function CleanWrap(st: BuilderState, shaft: Shaft, wraps: seq<Wrap>): BuilderState {
    if WrapCompatible(st, shaft, wraps) then st else st.(wrap_id := None)
  }

  function CleanVane(st: BuilderState, shaft: Shaft, vanes: seq<Vane>): BuilderState {
    if VaneCompatible(st, shaft, vanes) then st else st.(vane_id := None, fletch_count := 0)
  }

  function CleanCut(st: BuilderState, shaft: Shaft): BuilderState {
    if CutCompatible(st, shaft) then st else st.(cut_length := None)
  }

  /** The state the shaft-change effect produces: unchanged without a
      truthy shaft id or a selected shaft, otherwise the three rules in
      order. */
  function Cleaned(prev: BuilderState, shaft: Option<Shaft>, wraps: seq<Wrap>, vanes: seq<Vane>): BuilderState {
    if !IdSet(prev.shaft_id) || shaft.None? then prev
    else CleanCut(CleanVane(CleanWrap(prev, shaft.value, wraps), shaft.value, vanes), shaft.value)
  }

  /** The effect itself, copying `prev` and clearing fields one rule at a
      time. */
  method CleanupOnShaftChange(prev: BuilderState, shaft: Option<Shaft>, wraps: seq<Wrap>, vanes: seq<Vane>)
    returns (next: BuilderState)
    ensures next == Cleaned(prev, shaft, wraps, vanes)
  {
    if !IdSet(prev.shaft_id) {
      return prev;
    }
    next := prev;
    if IdSet(next.wrap_id) && shaft.Some? {
      var w := FindBy(wraps, next.wrap_id.value, WrapId);
      var ok := w.Some? && shaft.value.outer_diameter >= w.value.min_outer_diameter
                        && shaft.value.outer_diameter <= w.value.max_outer_diameter;
      if !ok {
        next := next.(wrap_id := None);
      }
    }
    if IdSet(next.vane_id) && shaft.Some? {
      var v := FindBy(vanes, next.vane_id.value, VaneId);
      var isMicro := shaft.value.outer_diameter <= MICRO_OD_MAX;
      if v.None? || (isMicro && v.value.compatible_micro != 1) {
        next := next.(vane_id := None);
        next := next.(fletch_count := 0);
      }
    }
    if next.cut_mode == Cut && next.cut_length.Some? && shaft.Some? {
      if next.cut_length.value > shaft.value.max_length {
        next := next.(cut_length := None);
      }
    }
  }

  /** After cleanup with a shaft, every remaining selection is compatible. */
  lemma CleanedIsCompatible(prev: BuilderState, shaft: Shaft, wraps: seq<Wrap>, vanes: seq<Vane>)
    requires IdSet(prev.shaft_id)
    ensures Compatible(Cleaned(prev, Some(shaft), wraps, vanes), shaft, wraps, vanes)
  {
  }

  /** Cleanup only clears: each of wrap, vane and cut length is kept or
      nulled, the fletch count drops to 0 exactly when the vane is cleared,
      and no other field changes. A selection is cleared only when it was
      incompatible. */
  lemma CleanedOnlyClears(prev: BuilderState, shaft: Shaft, wraps: seq<Wrap>, vanes: seq<Vane>)
    requires IdSet(prev.shaft_id)
    ensures var next := Cleaned(prev, Some(shaft), wraps, vanes);
            && next.(wrap_id := prev.wrap_id, vane_id := prev.vane_id, fletch_count := prev.fletch_count,
                     cut_length := prev.cut_length) == prev
            && (next.wrap_id == prev.wrap_id || next.wrap_id.None?)
            && (next.vane_id == prev.vane_id || next.vane_id.None?)
            && (next.cut_length == prev.cut_length || next.cut_length.None?)
            && (next.wrap_id != prev.wrap_id <==> !WrapCompatible(prev, shaft, wraps))
            && (next.vane_id != prev.vane_id <==> !VaneCompatible(prev, shaft, vanes))
            && (next.fletch_count == (if VaneCompatible(prev, shaft, vanes) then prev.fletch_count else 0))
            && (next.cut_length != prev.cut_length <==> !CutCompatible(prev, shaft))
  {
  }

  /** A compatible state is left alone, so a second cleanup changes nothing. */
  lemma {:induction false} CleanedIdempotent(prev: BuilderState, shaft: Option<Shaft>, wraps: seq<Wrap>, vanes: seq<Vane>)
    ensures shaft.Some? && Compatible(prev, shaft.value, wraps, vanes) ==> Cleaned(prev, shaft, wraps, vanes) == prev
    ensures Cleaned(Cleaned(prev, shaft, wraps, vanes), shaft, wraps, vanes) == Cleaned(prev, shaft, wraps, vanes)
  {
    if IdSet(prev.shaft_id) && shaft.Some? {
      CleanedIsCompatible(prev, shaft.value, wraps, vanes);
    }
  }

  /** `selectShaft` already clears wrap, vane and length, so the cleanup
      that follows it never changes the state. */
  lemma SelectShaftNeedsNoCleanup(s: BuilderState, id: int, shaft: Option<Shaft>, wraps: seq<Wrap>, vanes: seq<Vane>)
    ensures Cleaned(SelectShaft(s, id), shaft, wraps, vanes) == SelectShaft(s, id)
  {
  }

  // ---- pricing gate and payload ----

  /** `canPrice`: a truthy shaft id, an acceptable cut, quantity 6 or 12. */
  predicate CanPrice(s: BuilderState) {
    IdSet(s.shaft_id) && (s.cut_mode == Uncut || s.cut_length.Some?) && (s.quantity == 6 || s.quantity == 12)
  }

  /** The gate holds back only what the server would refuse anyway: a
      priceable well-typed state sends a finite quantity of 6 or 12 and a
      cut length exactly in cut mode, so the server's quantity and
      cut-length-presence rules pass; an unpriceable one with a shaft id is
      in cut mode without a length, which the server refuses on cut_length. */
  lemma CanPriceMatchesServer(s: BuilderState, shaft: Option<Shaft>, wrap: Option<Wrap>, vane: Option<Vane>,
                              point: Option<Point>, insert: Option<Insert>, nock: Option<Nock>)
    requires WellTyped(s)
    ensures var sel := ServerSelection(PricePayload(s), shaft, wrap, vane, point, insert, nock);
            CanPrice(s) ==>
              && IsNumber(sel.quantity) && sel.quantity.value in BuildEngine.ALLOWED_QTYS
              && (BuildEngine.IsCut(sel) ==> BuildEngine.CutLengthIsNumber(sel))
              && (!BuildEngine.IsCut(sel) ==> sel.cut_length.None?)
    ensures var sel := ServerSelection(PricePayload(s), shaft, wrap, vane, point, insert, nock);
            !CanPrice(s) && IdSet(s.shaft_id) && shaft.Some? ==>
              BuildEngine.ValidateBuild(sel) == BuildEngine.Rejected("cut_length", "Cut length is required.")
  {
  }

  /** Choosing a shaft makes the build priceable at once (it starts uncut);
      switching to cut mode without a length makes it unpriceable until a
      finite length is entered. */
  lemma CanPriceTransitions(s: BuilderState, id: int, v: string, parse: string -> Num)
    requires WellTyped(s)
    ensures id != 0 <==> CanPrice(SelectShaft(s, id))
    ensures IdSet(s.shaft_id) && s.cut_length.None? ==> !CanPrice(SetCutMode(s, Cut))
    ensures CanPrice(SetCutMode(s, Cut)) && !IsNumber(parse(v)) ==> !CanPrice(SetCutLength(SetCutMode(s, Cut), v, parse))
    ensures IdSet(s.shaft_id) && IsNumber(parse(v)) ==> CanPrice(SetCutLength(SetCutMode(s, Cut), v, parse))
  {
  }

  /** The JSON body sent to the price endpoint. */
  datatype Payload = Payload(
    shaft_id: Option<int>,
    cut_mode: string,
    cut_length: Option<real>,
    nock_id: Option<int>,
    wrap_id: Option<int>,
    vane_id: Option<int>,
    fletch_count: int,
    insert_id: Option<int>,
    point_id: Option<int>,
    quantity: int)

  function ModeText(m: CutMode): string {
    if m == Cut then "cut" else "uncut"
  }

  /** The pricing payload: a length only in cut mode, and no vane without
      fletching; the other ids pass through. */
  function PricePayload(s: BuilderState): (r: Payload)
    ensures r.cut_mode == "cut" <==> s.cut_mode == Cut
    ensures r.cut_mode == "cut" || r.cut_mode == "uncut"
    ensures r.cut_length == (if s.cut_mode == Cut then s.cut_length else None)
    ensures r.vane_id == (if s.fletch_count == 0 then None else s.vane_id)
    ensures r.shaft_id == s.shaft_id && r.wrap_id == s.wrap_id && r.nock_id == s.nock_id
    ensures r.insert_id == s.insert_id && r.point_id == s.point_id
    ensures r.fletch_count == s.fletch_count && r.quantity == s.quantity
  {
    Payload(
      s.shaft_id,
      ModeText(s.cut_mode),
      if s.cut_mode == Cut then s.cut_length else None,
      s.nock_id,
      s.wrap_id,
      if s.fletch_count == 0 then None else s.vane_id,
      s.fletch_count,
      s.insert_id,
      s.point_id,
      s.quantity)
  }

  /** The server engine's view of a payload, given the rows its ids name. */
  function ServerSelection(pl: Payload, shaft: Option<Shaft>, wrap: Option<Wrap>, vane: Option<Vane>,
                           point: Option<Point>, insert: Option<Insert>, nock: Option<Nock>): BuildEngine.Selection
  {
    BuildEngine.Selection(shaft, wrap, vane, point, insert, nock, pl.cut_mode,
      if pl.cut_length.Some? then Some(Finite(pl.cut_length.value)) else None,
      Finite(pl.quantity as real), Some(Finite(pl.fletch_count as real)))
  }

  /** A well-typed state's payload never trips the server's uncut-length
      rule, its fletch-count range, or its "no fletching but a vane" rule
      (the server finds no vane for a null id). */
  lemma PayloadMeetsServerCoupling(s: BuilderState, shaft: Option<Shaft>, wrap: Option<Wrap>, vane: Option<Vane>,
                                    point: Option<Point>, insert: Option<Insert>, nock: Option<Nock>)
    requires WellTyped(s)
    requires PricePayload(s).vane_id.None? ==> vane.None?
    ensures var sel := ServerSelection(PricePayload(s), shaft, wrap, vane, point, insert, nock);
            && (!BuildEngine.IsCut(sel) ==> sel.cut_length.None?)
            && BuildEngine.FletchAllowed(BuildEngine.Fletch(sel))
            && (BuildEngine.Fletch(sel) == Finite(0.0) ==> sel.vane.None?)
  {
  }
}
