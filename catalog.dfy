/**
 * Catalog component records as the D1 tables deliver them. Integer columns
 * used as booleans (`active`, `compatible_micro`, `requires_collar`) keep
 * their integer values; nullable columns are Options.
 */
module Catalog {
  import opened Wrappers
  import Text

  /** An integer column read as a JavaScript condition: truthy unless 0. */
  predicate Flag(x: int) {
    x != 0
  }

  datatype Shaft = Shaft(
    id: int,
    brand: string,
    model: string,
    spine: real,
    gpi: real,                 // grains per inch
    inner_diameter: real,
    outer_diameter: real,
    max_length: real,          // raw (uncut) length, inches
    price_per_shaft: real,
    active: int)

  datatype Wrap = Wrap(
    id: int,
    name: string,
    length: real,
    min_outer_diameter: real,
    max_outer_diameter: real,
    weight_grains: real,
    price_per_arrow: real,
    active: int)

  datatype Vane = Vane(
    id: int,
    brand: string,
    model: string,
    weight_grains: Option<real>,
    compatible_micro: int,     // usable on micro-diameter shafts
    price_per_arrow: real,     // per single vane
    active: int)

  datatype Insert = Insert(
    id: int,
    brand: string,
    model: string,
    weight_grains: real,
    price_per_arrow: real,
    requires_collar: int,
    collar_weight_grains: Option<real>,
    collar_price_per_arrow: Option<real>,
    active: int)

  datatype Point = Point(
    id: int,
    kind: string,              // the `type` column: "field" or "broadhead"
    brand: Option<string>,
    model: Option<string>,
    weight_grains: real,
    thread: Option<string>,
    price: real,
    active: int)

  datatype Nock = Nock(
    id: int,
    brand: string,
    model: string,
    weight_grains: real,
    price_per_arrow: real,
    active: int)

  /** `x || ""` for an optional text column. */
  function TextOr(x: Option<string>): string {
    x.GetOr("")
  }

  /** A thread the server rejects: set, non-empty and not "8-32". */
  predicate UnsupportedThread(p: Point) {
    p.thread.Some? && p.thread.value != "" && p.thread.value != "8-32"
  }

  // The point label both engines' buildSummary compute.

  /** `${point.brand || ""} ${point.model || ""}`, trimmed. */
  function PointName(p: Point): string {
    Text.Trim(TextOr(p.brand) + " " + TextOr(p.model))
  }

  /** A point's label: its trimmed name, or "{type} {weight}gr" when that is empty. */
  function PointLabel(p: Point, show: real -> string): (r: string)
    ensures r != ""
    ensures PointName(p) != "" ==> r == PointName(p)
  {
    var name := PointName(p);
    if name != "" then name else p.kind + " " + show(p.weight_grains) + "gr"
  }

  /** A point falls back to "{type} {weight}gr" exactly when brand and model
      are both absent or blank; otherwise its label is a non-empty name with
      no surrounding whitespace. */
  lemma PointLabelFallback(p: Point, show: real -> string)
    ensures Text.AllWhitespace(TextOr(p.brand) + " " + TextOr(p.model)) ==>
              PointLabel(p, show) == p.kind + " " + show(p.weight_grains) + "gr"
    ensures !Text.AllWhitespace(TextOr(p.brand) + " " + TextOr(p.model)) ==>
              && PointLabel(p, show) == PointName(p) != ""
              && !Text.IsWhitespace(PointLabel(p, show)[0])
              && !Text.IsWhitespace(PointLabel(p, show)[|PointLabel(p, show)| - 1])
  {
    var raw := TextOr(p.brand) + " " + TextOr(p.model);
    Text.TrimEmptyIff(raw);
    var i, j := Text.TrimIsSlice(raw);
  }
}
