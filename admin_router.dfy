/**
 * The request-independent parts of the admin products API
 * (functions/api/admin/router.ts): routing on the stripped path, the POST
 * field normalisation, the PATCH column and argument builder, and the
 * storage key of an uploaded image.
 */
module AdminRouter {
  import opened Wrappers
  import opened Js
  import Text

  const ADMIN_PREFIX: string := "/api/admin"

  /** `pathname.replace(/^\/api\/admin/, "") || "/"`. */
  function AdminPath(pathname: string): (r: string)
    ensures r != ""
    ensures ADMIN_PREFIX <= pathname && |pathname| > |ADMIN_PREFIX| ==> ADMIN_PREFIX + r == pathname
    ensures !(ADMIN_PREFIX <= pathname) && pathname != "" ==> r == pathname
  {
    var rest := if ADMIN_PREFIX <= pathname then pathname[|ADMIN_PREFIX|..] else pathname;
    if rest == "" then "/" else rest
  }

  /** Every route is reached under the prefix, and the bare prefix is "/". */
  lemma AdminPathOfRoute(route: string)
    requires route != ""
    ensures AdminPath(ADMIN_PREFIX + route) == route
    ensures AdminPath(ADMIN_PREFIX) == "/" && AdminPath("") == "/"
  {
    var p := ADMIN_PREFIX + route;
    assert ADMIN_PREFIX <= p && p[|ADMIN_PREFIX|..] == route;
  }

  const PRODUCTS_PREFIX: string := "/products/"

  /** `path.match(/^\/products\/([^/]+)$/)`: the id of a single product. */
  function ProductId(path: string): (r: Option<string>)
    ensures r.Some? ==> r.value != "" && '/' !in r.value && path == PRODUCTS_PREFIX + r.value
  {
    if PRODUCTS_PREFIX <= path && |path| > |PRODUCTS_PREFIX| && '/' !in path[|PRODUCTS_PREFIX|..]
    then Some(path[|PRODUCTS_PREFIX|..])
    else None
  }

  /** The id pattern reads back exactly the ids it can match. */
  lemma ProductIdRoundTrip(id: string)
    ensures ProductId(PRODUCTS_PREFIX + id) == if id != "" && '/' !in id then Some(id) else None
  {
    var p := PRODUCTS_PREFIX + id;
    assert p[|PRODUCTS_PREFIX|..] == id;
  }

  /** The fields of a POST body the handler reads. */
  datatype ProductBody = ProductBody(
    category: Value, brand: Value, name: Value, sku: Value,
    price_cents: Value, is_active: Value, specs: Value)

  /** The row the POST handler inserts, without its generated id and time. */
  datatype NewProduct = NewProduct(
    category: string, brand: string, name: string, sku: Option<string>,
    price_cents: Num, is_active: int, specs_json: string)

  const REQUIRED_MESSAGE: string := "category, brand, and name are required"

  /** The POST normalisation: text fields default to "", `sku` to null,
      `price_cents` to 0 and `specs` to `{}`; `is_active` is 0 only for a
      literal `false`. `stringify` stands for `JSON.stringify` of a truthy
      value. */
  function NormalizeProduct(b: ProductBody, show: real -> string, parse: string -> Num, stringify: Value -> string): (r: Result<NewProduct, string>)
    ensures r.Ok? <==> FieldText(b.category, show) != "" && FieldText(b.brand, show) != "" && FieldText(b.name, show) != ""
    ensures r.Err? ==> r.error == REQUIRED_MESSAGE
    ensures r.Ok? ==> && r.value.category == FieldText(b.category, show)
                      && r.value.brand == FieldText(b.brand, show)
                      && r.value.name == FieldText(b.name, show)
    ensures r.Ok? ==> (r.value.is_active == 0 <==> b.is_active == Bool(false)) && r.value.is_active in {0, 1}
    ensures r.Ok? ==> (r.value.sku.Some? <==> Truthy(b.sku))
    ensures r.Ok? && !Truthy(b.price_cents) ==> r.value.price_cents == Finite(0.0)
    ensures r.Ok? && !Truthy(b.specs) ==> r.value.specs_json == "{}"
  {
    var category := FieldText(b.category, show);
    var brand := FieldText(b.brand, show);
    var name := FieldText(b.name, show);
    var sku := if Truthy(b.sku) then Some(ToText(b.sku, show)) else None;
    var price := ToNum(if Truthy(b.price_cents) then b.price_cents else Number(Finite(0.0)), parse);
    var active := if b.is_active == Bool(false) then 0 else 1;
    var specs := if Truthy(b.specs) then stringify(b.specs) else "{}";
    if category == "" || brand == "" || name == "" then Err(REQUIRED_MESSAGE)
    else Ok(NewProduct(category, brand, name, sku, price, active, specs))
  }

  /** With string fields the required check is exactly non-emptiness, and a
      missing, null or zero `is_active` still creates an active product. */
  lemma PostStringFields(category: string, brand: string, name: string, rest: ProductBody,
                         show: real -> string, parse: string -> Num, stringify: Value -> string)
    requires rest.is_active in {Undefined, Null, Number(Finite(0.0)), Bool(true)}
    ensures var b := rest.(category := Str(category), brand := Str(brand), name := Str(name));
            var r := NormalizeProduct(b, show, parse, stringify);
            && (r.Ok? <==> category != "" && brand != "" && name != "")
            && (r.Ok? ==> r.value.is_active == 1)
  {
  }

  /** A PATCH body: its keys, with an absent key reading `undefined`. */
  type Body = map<string, Value>

  function Get(body: Body, k: string): Value {
    if k in body then body[k] else Undefined
  }

  predicate Defined(body: Body, k: string) {
    Get(body, k) != Undefined
  }

  /** The columns a PATCH may set, in the order they are tried. */
  const ALLOW: seq<string> := ["category", "brand", "name", "sku", "price_cents", "is_active", "specs_json"]

  /** A bound value: a body value passed as is, or a string. */
  datatype Arg = Val(v: Value) | Txt(s: string)

  /** The keys of `keys` that the body defines, in the order of `keys`. */
  function Kept(keys: seq<string>, body: Body): (r: seq<string>)
    ensures forall k :: k in r <==> k in keys && Defined(body, k)
    ensures |r| <= |keys|
  {
    if keys == [] then []
    else
      var init := keys[..|keys| - 1];
      var k := keys[|keys| - 1];
      assert keys == init + [k];
      Kept(init, body) + if Defined(body, k) then [k] else []
  }

  function Column(k: string): string {
    k + " = ?"
  }

  /** `${k} = ?` for every key. */
  function Columns(keys: seq<string>): (r: seq<string>)
    ensures |r| == |keys|
    ensures forall i :: 0 <= i < |keys| ==> r[i] == Column(keys[i])
  {
    if keys == [] then [] else Columns(keys[..|keys| - 1]) + [Column(keys[|keys| - 1])]
  }

  /** The argument bound for an allowed key: `specs_json` as `String(v)`,
      anything else as the body's own value. */
  function ArgFor(body: Body, k: string, show: real -> string): Arg {
    if k == "specs_json" then Txt(ToText(Get(body, k), show)) else Val(Get(body, k))
  }

  function ArgsFor(body: Body, keys: seq<string>, show: real -> string): (r: seq<Arg>)
    ensures |r| == |keys|
    ensures forall i :: 0 <= i < |keys| ==> r[i] == ArgFor(body, keys[i], show)
  {
    if keys == [] then [] else ArgsFor(body, keys[..|keys| - 1], show) + [ArgFor(body, keys[|keys| - 1], show)]
  }

  /** A truthy `specs` object stands in for an undefined `specs_json`. */
  predicate SpecsFallback(body: Body) {
    Truthy(Get(body, "specs")) && !Defined(body, "specs_json")
  }

  /** The SET clause's assignments for an allow-list, `updated_at` last. */
  function SetColumns(allow: seq<string>, body: Body): seq<string> {
    Columns(Kept(allow, body))
    + (if SpecsFallback(body) then [Column("specs_json")] else [])
    + [Column("updated_at")]
  }

  /** The bound arguments: one per assignment, then the id. */
  function SetArgs(allow: seq<string>, body: Body, id: string, now: string, show: real -> string, stringify: Value -> string): seq<Arg> {
    ArgsFor(body, Kept(allow, body), show)
    + (if SpecsFallback(body) then [Txt(stringify(Get(body, "specs")))] else [])
    + [Txt(now), Txt(id)]
  }

  datatype Update = Update(fields: seq<string>, args: seq<Arg>)

  const NO_FIELDS_MESSAGE: string := "No fields to update"

  /** The PATCH outcome: rejected when only `updated_at` would be set. */
  function PatchOf(body: Body, id: string, now: string, show: real -> string, stringify: Value -> string): (r: Result<Update, string>)
    ensures r.Err? <==> Kept(ALLOW, body) == [] && !SpecsFallback(body)
    ensures r.Err? ==> r.error == NO_FIELDS_MESSAGE
    ensures r.Ok? ==> |r.value.fields| >= 2
  {
    var fields := SetColumns(ALLOW, body);
    if |fields| == 1 then Err(NO_FIELDS_MESSAGE)
    else Ok(Update(fields, SetArgs(ALLOW, body, id, now, show, stringify)))
  }

  /** The PATCH handler's builder: pushes one assignment and one argument
      per allowed key the body defines, then the `specs` fallback,
      `updated_at` and the id. `now` is the handler's timestamp. */
  method PatchProduct(body: Body, id: string, now: string, show: real -> string, stringify: Value -> string)
    returns (r: Result<Update, string>)
    ensures r == PatchOf(body, id, now, show, stringify)
  {
    var fields, args := PushAllowed(body, ALLOW, show);
    ghost var allowed, allowedArgs := fields, args;
    if Truthy(Get(body, "specs")) && Get(body, "specs_json") == Undefined {
      fields := fields + [Column("specs_json")];
      args := args + [Txt(stringify(Get(body, "specs")))];
    }
    assert fields == allowed + (if SpecsFallback(body) then [Column("specs_json")] else []);
    assert args == allowedArgs + (if SpecsFallback(body) then [Txt(stringify(Get(body, "specs")))] else []);
    fields := fields + [Column("updated_at")];
    args := args + [Txt(now), Txt(id)];
    if |fields| == 1 {
      return Err(NO_FIELDS_MESSAGE);
    }
    return Ok(Update(fields, args));
  }

  /** The `for (const k of allow)` loop. */
  method PushAllowed(body: Body, keys: seq<string>, show: real -> string) returns (fields: seq<string>, args: seq<Arg>)
    ensures fields == Columns(Kept(keys, body))
    ensures args == ArgsFor(body, Kept(keys, body), show)
  {
    fields, args := [], [];
    for i := 0 to |keys|
      invariant fields == Columns(Kept(keys[..i], body))
      invariant args == ArgsFor(body, Kept(keys[..i], body), show)
    {
      var k := keys[i];
      PushStep(keys, i, body, show);
      if Get(body, k) == Undefined {
        continue;
      }
      fields := fields + [Column(k)];
      if k == "specs_json" {
        args := args + [Txt(ToText(Get(body, k), show))];
      } else {
        args := args + [Val(Get(body, k))];
      }
    }
    assert keys[..|keys|] == keys;
  }

  /** One more key of the loop: kept, with its column and argument, exactly
      when the body defines it. */
  lemma PushStep(keys: seq<string>, i: int, body: Body, show: real -> string)
    requires 0 <= i < |keys|
    ensures !Defined(body, keys[i]) ==> Kept(keys[..i + 1], body) == Kept(keys[..i], body)
    ensures Defined(body, keys[i]) ==>
              && Columns(Kept(keys[..i + 1], body)) == Columns(Kept(keys[..i], body)) + [Column(keys[i])]
              && ArgsFor(body, Kept(keys[..i + 1], body), show) == ArgsFor(body, Kept(keys[..i], body), show) + [ArgFor(body, keys[i], show)]
  {
    assert keys[..i + 1][..i] == keys[..i];
    var kept := Kept(keys[..i], body);
    if Defined(body, keys[i]) {
      assert Kept(keys[..i + 1], body) == kept + [keys[i]];
      assert (kept + [keys[i]])[..|kept|] == kept;
    }
  }

  /** Position of a key in a list (its length when absent). */
  function Pos(keys: seq<string>, k: string): (r: nat)
    ensures r <= |keys|
    ensures r < |keys| <==> k in keys
    ensures r < |keys| ==> keys[r] == k && k !in keys[..r]
  {
    if keys == [] then 0
    else if keys[0] == k then 0
    else
      var p := Pos(keys[1..], k);
      assert p < |keys| - 1 ==> keys[1..][..p] == keys[1..p + 1];
      p + 1
  }

  predicate NoDuplicates(keys: seq<string>) {
    forall i, j :: 0 <= i < j < |keys| ==> keys[i] != keys[j]
  }

  /** Every element of xs is earlier in keys than the elements after it. */
  predicate InOrder(xs: seq<string>, keys: seq<string>) {
    forall i, j :: 0 <= i < j < |xs| ==> Pos(keys, xs[i]) < Pos(keys, xs[j])
  }

  /** The kept keys keep the list's order. */
  lemma {:induction false} KeptInOrder(keys: seq<string>, body: Body)
    requires NoDuplicates(keys)
    ensures InOrder(Kept(keys, body), keys)
  {
    if keys != [] {
      var init := keys[..|keys| - 1];
      var k := keys[|keys| - 1];
      assert keys == init + [k];
      assert NoDuplicates(init);
      KeptInOrder(init, body);
      var p := Kept(init, body);
      InOrderWiden(p, init, k);
      if Defined(body, k) {
        assert k !in init;
        assert keys[|init|] == k && k !in keys[..|init|];
        PosUnique(keys, k, |init|);
        InOrderExtend(p, keys, k, |init|);
      }
    }
  }

  /** Adding a key at the end of the list moves no listed key. */
  lemma InOrderWiden(p: seq<string>, init: seq<string>, k: string)
    requires InOrder(p, init) && forall x :: x in p ==> x in init
    ensures InOrder(p, init + [k])
    ensures forall x :: x in p ==> Pos(init + [k], x) < |init|
  {
    forall x | x in p ensures Pos(init + [k], x) == Pos(init, x) < |init| {
      PosOfPrefix(init, k, x);
    }
    forall i, j | 0 <= i < j < |p| ensures Pos(init + [k], p[i]) < Pos(init + [k], p[j]) {
      assert p[i] in p && p[j] in p;
    }
  }

  /** A key placed after every element of p extends the order. */
  lemma InOrderExtend(p: seq<string>, keys: seq<string>, k: string, n: int)
    requires InOrder(p, keys) && Pos(keys, k) == n
    requires forall x :: x in p ==> Pos(keys, x) < n
    ensures InOrder(p + [k], keys)
  {
    var r := p + [k];
    forall i, j | 0 <= i < j < |r| ensures Pos(keys, r[i]) < Pos(keys, r[j]) {
      assert r[i] == p[i] && p[i] in p;
      if j < |p| {
        assert r[j] == p[j];
      }
    }
  }

  lemma PosUnique(keys: seq<string>, k: string, m: int)
    requires 0 <= m < |keys| && keys[m] == k && k !in keys[..m]
    ensures Pos(keys, k) == m
  {
  }

  lemma PosOfPrefix(init: seq<string>, k: string, x: string)
    requires x in init
    ensures Pos(init + [k], x) == Pos(init, x)
  {
    var m := Pos(init, x);
    var keys := init + [k];
    assert keys[..m] == init[..m];
    PosUnique(keys, x, m);
  }

  /** The PATCH assigns exactly the allowed keys the body defines, in
      allow-list order, then an optional `specs_json` from `specs`, then
      `updated_at`; `args` holds one value per assignment plus the id. */
  lemma PatchShape(body: Body, id: string, now: string, show: real -> string, stringify: Value -> string)
    ensures InOrder(Kept(ALLOW, body), ALLOW)
    ensures SetColumns(ALLOW, body)[..|Kept(ALLOW, body)|] == Columns(Kept(ALLOW, body))
    ensures Text.Last(SetColumns(ALLOW, body)) == "updated_at = ?"
    ensures |SetArgs(ALLOW, body, id, now, show, stringify)| == |SetColumns(ALLOW, body)| + 1
    ensures Text.Last(SetArgs(ALLOW, body, id, now, show, stringify)) == Txt(id)
  {
    AllowDistinct();
    KeptInOrder(ALLOW, body);
    ShapeFor(ALLOW, body, id, now, show, stringify);
  }

  lemma AllowDistinct()
    ensures NoDuplicates(ALLOW)
  {
  }

  lemma ShapeFor(allow: seq<string>, body: Body, id: string, now: string, show: real -> string, stringify: Value -> string)
    ensures SetColumns(allow, body)[..|Kept(allow, body)|] == Columns(Kept(allow, body))
    ensures Text.Last(SetColumns(allow, body)) == "updated_at = ?"
    ensures |SetArgs(allow, body, id, now, show, stringify)| == |SetColumns(allow, body)| + 1
    ensures Text.Last(SetArgs(allow, body, id, now, show, stringify)) == Txt(id)
  {
    var kept := Kept(allow, body);
    var cols := Columns(kept);
    var extra := if SpecsFallback(body) then [Column("specs_json")] else [];
    var sc := SetColumns(allow, body);
    assert sc == cols + extra + [Column("updated_at")];
    assert sc[..|kept|] == cols;
    assert Column("updated_at") == "updated_at = ?";
    var extraArgs := if SpecsFallback(body) then [Txt(stringify(Get(body, "specs")))] else [];
    var sa := SetArgs(allow, body, id, now, show, stringify);
    assert sa == ArgsFor(body, kept, show) + extraArgs + [Txt(now), Txt(id)];
    assert |extraArgs| == |extra|;
  }

  /** `specs_json` is assigned at most once: from the body's own
      `specs_json` when defined, otherwise from a truthy `specs`. */
  lemma {:induction false} SpecsJsonOnce(body: Body)
    ensures multiset(SetColumns(ALLOW, body))[Column("specs_json")]
            == if Defined(body, "specs_json") || Truthy(Get(body, "specs")) then 1 else 0
  {
    AllowHasSpecsJsonOnce();
    SpecsJsonOnceFor(ALLOW, body);
  }

  lemma {:induction false} SpecsJsonOnceFor(allow: seq<string>, body: Body)
    requires multiset(allow)["specs_json"] == 1
    ensures multiset(SetColumns(allow, body))[Column("specs_json")]
            == if Defined(body, "specs_json") || Truthy(Get(body, "specs")) then 1 else 0
  {
    var kept := Kept(allow, body);
    var c := Column("specs_json");
    ColumnsCount(kept, "specs_json");
    KeptAtMostOnce(allow, body, "specs_json");
    assert Column("updated_at") != c by {
      assert Column("updated_at")[0] != c[0];
    }
    var extra := if SpecsFallback(body) then [c] else [];
    assert multiset(extra)[c] == if SpecsFallback(body) then 1 else 0;
    assert multiset([Column("updated_at")])[c] == 0;
    assert multiset(SetColumns(allow, body)) == multiset(Columns(kept)) + multiset(extra) + multiset([Column("updated_at")]);
  }

  lemma AllowHasSpecsJsonOnce()
    ensures multiset(ALLOW)["specs_json"] == 1
  {
    assert ALLOW == ALLOW[..6] + ["specs_json"];
    assert "specs_json" !in ALLOW[..6];
  }

  /** `Column` is injective, so counting assignments counts keys. */
  lemma {:induction false} ColumnsCount(keys: seq<string>, k: string)
    ensures multiset(Columns(keys))[Column(k)] == multiset(keys)[k]
  {
    if keys != [] {
      var init := keys[..|keys| - 1];
      var x := keys[|keys| - 1];
      assert keys == init + [x];
      ColumnsCount(init, k);
      assert Columns(keys) == Columns(init) + [Column(x)];
      if Column(x) == Column(k) {
        assert x == Column(x)[..|x|] && k == Column(k)[..|k|];
      }
    }
  }

  /** A key occurring once in the list is kept once when defined. */
  lemma {:induction false} KeptAtMostOnce(keys: seq<string>, body: Body, k: string)
    requires multiset(keys)[k] == 1
    ensures multiset(Kept(keys, body))[k] == if Defined(body, k) then 1 else 0
  {
    var init := keys[..|keys| - 1];
    var x := keys[|keys| - 1];
    assert keys == init + [x];
    if x == k {
      assert multiset(init)[k] == 0;
      KeptAbsent(init, body, k);
    } else {
      KeptAtMostOnce(init, body, k);
    }
  }

  lemma KeptAbsent(keys: seq<string>, body: Body, k: string)
    requires k !in keys
    ensures multiset(Kept(keys, body))[k] == 0
  {
  }

  /** The PATCH is rejected exactly when the body defines no allowed key
      and no `specs` fallback applies. */
  lemma PatchRejectedIff(body: Body, id: string, now: string, show: real -> string, stringify: Value -> string)
    ensures PatchOf(body, id, now, show, stringify).Err? <==>
              (forall k :: k in ALLOW ==> !Defined(body, k)) && !SpecsFallback(body)
    ensures PatchOf(body, id, now, show, stringify).Err? ==>
              PatchOf(body, id, now, show, stringify).error == NO_FIELDS_MESSAGE
  {
    var kept := Kept(ALLOW, body);
    if kept != [] {
      assert kept[0] in kept;
    }
  }

  /** The admin page's toggle body `{active: …}` names no allowed column
      (the allow-list has `is_active`), so such a PATCH is rejected. */
  lemma ActiveKeyIsNotPatched(v: Value, id: string, now: string, show: real -> string, stringify: Value -> string)
    ensures PatchOf(map["active" := v], id, now, show, stringify) == Err(NO_FIELDS_MESSAGE)
  {
    PatchRejectedIff(map["active" := v], id, now, show, stringify);
  }

  /** `(fileName.split(".").pop() || "jpg").toLowerCase()`. */
  function ImageExt(fileName: string): (r: string)
    ensures r != "" && '.' !in r
    ensures Text.ToLower(r) == r
  {
    var parts := Text.Split(fileName, '.');
    var seg := Text.Last(parts);
    assert seg in parts;
    var ext := if seg == "" then "jpg" else seg;
    Text.ToLowerKeepsChar(ext, '.');
    Text.ToLowerIdempotent(ext);
    Text.ToLower(ext)
  }

  /** The extension is the text after the last '.', lower-cased, and "jpg"
      only when that text is empty. */
  lemma ImageExtOfDotted(fileName: string, k: int)
    requires 0 < k <= |fileName| && fileName[k - 1] == '.' && '.' !in fileName[k..]
    ensures ImageExt(fileName) == if k == |fileName| then "jpg" else Text.ToLower(fileName[k..])
  {
    Text.LastOfSplit(fileName, k, '.');
  }

  /** A name without any '.' is its own extension. */
  lemma ImageExtOfUndotted(fileName: string)
    requires '.' !in fileName
    ensures ImageExt(fileName) == if fileName == "" then "jpg" else Text.ToLower(fileName)
  {
    Text.SplitWithoutSep(fileName, '.');
  }

  /** The R2 key `products/{productId}/{uid}.{ext}`; `uid` stands for the
      random UUID. */
  function ImageKey(productId: string, uid: string, fileName: string): (r: string)
    ensures |r| > |"products/" + productId + "/"|
    ensures r[..|"products/" + productId + "/"|] == "products/" + productId + "/"
  {
    "products/" + productId + "/" + uid + "." + ImageExt(fileName)
  }

  /** The stored key carries the upload's extension: applying the rule to
      the key gives the same extension again. */
  lemma ImageKeyKeepsExtension(productId: string, uid: string, fileName: string)
    ensures ImageExt(ImageKey(productId, uid, fileName)) == ImageExt(fileName)
  {
    var ext := ImageExt(fileName);
    var key := ImageKey(productId, uid, fileName);
    var k := |key| - |ext|;
    assert key[k..] == ext && key[k - 1] == '.';
    ImageExtOfDotted(key, k);
  }
}
