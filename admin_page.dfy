/**
 * The label helpers and the active toggle of the admin page
 * (src/pages/AdminPage.tsx).
 */
module AdminPage {
  import opened Wrappers
  import opened Js
  import AdminRouter

  /** A listed row. A field the row lacks, or holds as null, is None;
      `typeof x === "number"` holds exactly for the Some values, NaN
      included. */
  datatype Row = Row(
    id: Num, active: Option<Num>, name: Option<string>, model: Option<string>,
    price_per_shaft: Option<Num>, price_per_arrow: Option<Num>, price: Option<Num>)

  const NO_PRICE: string := "—"

  /** `priceLabel`: the first price the row has, per shaft, per arrow or
      plain, else a dash; `fixed2` stands for `toFixed(2)`. */
  function PriceLabel(r: Row, fixed2: Num -> string): (text: string)
    ensures r.price_per_shaft.Some? ==> text == "$" + fixed2(r.price_per_shaft.value) + " / shaft"
    ensures r.price_per_shaft.None? && r.price_per_arrow.Some? ==> text == "$" + fixed2(r.price_per_arrow.value) + " / arrow"
    ensures r.price_per_shaft.None? && r.price_per_arrow.None? && r.price.Some? ==> text == "$" + fixed2(r.price.value)
    ensures text == NO_PRICE <==> r.price_per_shaft.None? && r.price_per_arrow.None? && r.price.None?
  {
    if r.price_per_shaft.Some? then "$" + fixed2(r.price_per_shaft.value) + " / shaft"
    else if r.price_per_arrow.Some? then "$" + fixed2(r.price_per_arrow.value) + " / arrow"
    else if r.price.Some? then
      var plain := "$" + fixed2(r.price.value);
      assert plain[0] != NO_PRICE[0];
      plain
    else NO_PRICE
  }

  /** A per-shaft price hides the other two, and a per-arrow price hides
      the plain one. */
  lemma PricePrecedence(r: Row, perArrow: Option<Num>, price: Option<Num>, fixed2: Num -> string)
    ensures r.price_per_shaft.Some? ==>
              PriceLabel(r.(price_per_arrow := perArrow, price := price), fixed2) == PriceLabel(r, fixed2)
    ensures r.price_per_arrow.Some? ==>
              PriceLabel(r.(price := price), fixed2) == PriceLabel(r, fixed2)
  {
  }

  /** JavaScript truthiness of an optional text field. */
  predicate Filled(x: Option<string>) {
    x.Some? && x.value != ""
  }

  /** `titleLabel`: the name if truthy, else the model if truthy, else the
      id as text; `show` is the Number-to-String conversion. */
  function TitleLabel(r: Row, show: real -> string): (text: string)
    ensures Filled(r.name) ==> text == r.name.value
    ensures !Filled(r.name) && Filled(r.model) ==> text == r.model.value
    ensures !Filled(r.name) && !Filled(r.model) ==> text == NumText(r.id, show)
    ensures Filled(r.name) || Filled(r.model) ==> text != ""
  {
    if Filled(r.name) then r.name.value
    else if Filled(r.model) then r.model.value
    else NumText(r.id, show)
  }

  /** An empty name or model reads as if it were missing. */
  lemma EmptyTitleFallsThrough(r: Row, show: real -> string)
    ensures TitleLabel(r.(name := Some("")), show) == TitleLabel(r.(name := None), show)
    ensures TitleLabel(r.(model := Some("")), show) == TitleLabel(r.(model := None), show)
  {
  }

  /** `r.active ? 0 : 1`: the `active` value the toggle sends. */
  function ToggleValue(active: Option<Num>): (v: int)
    ensures v == 0 || v == 1
    ensures v == 0 <==> active.Some? && Truthy(Number(active.value))
  {
    if active.Some? && Truthy(Number(active.value)) then 0 else 1
  }

  /** On the 0/1 flags the table stores, toggling flips the flag, so two
      toggles give back the original. */
  lemma ToggleFlips(a: int)
    requires a == 0 || a == 1
    ensures ToggleValue(Some(Finite(a as real))) == 1 - a
    ensures ToggleValue(Some(Finite(ToggleValue(Some(Finite(a as real))) as real))) == a
  {
  }

  /** The toggle body names `active`, a column the router's PATCH does not
      allow, so the router answers "No fields to update". */
  lemma ToggleBodyIsRejected(r: Row, id: string, now: string, show: real -> string, stringify: Value -> string)
    ensures var body := map["active" := Number(Finite(ToggleValue(r.active) as real))];
            AdminRouter.PatchOf(body, id, now, show, stringify) == Err(AdminRouter.NO_FIELDS_MESSAGE)
  {
    AdminRouter.ActiveKeyIsNotPatched(Number(Finite(ToggleValue(r.active) as real)), id, now, show, stringify);
  }
}
