# Dyla Archery arrow builder — a Dafny model

This project models the logic of the Dyla Archery custom-arrow site. At its
centre are the two server-side build engines. Each one validates an arrow
build, rejecting it with the first failing rule's field and message. It then
prices the build by an additive per-arrow formula plus labour, rounded to
cents: `round2` is applied first, and the rounded figure is then multiplied
by the quantity. Finally it summarises the build as labels.

- **Current engine** (`BuildEngine`): the Cloudflare Pages functions.
- **Legacy v1 engine** (`LegacyEngine`): the standalone worker.

The rest of the model covers:

- **Builder page** (`BuilderPage`, `ShaftGroups`):
  - the total-arrow-weight and front-of-center estimator;
  - the wrap and vane compatibility filters;
  - the state setters and the cleanup after a shaft change. The cleanup is a method that rewrites a copy of the state step by step;
  - the pricing gate and the pricing payload;
  - shaft grouping, a method that fills the groups in a loop.
- **Small helpers:**
  - the tools-page calculators (`Tools`);
  - the contact form's normalisation and checks (`Contact`);
  - the Access cookie parser and credential pre-check (`Access`). The cookie parser is a method with a scanning loop;
  - the admin API's audience check, domain normalisation and key-set cache (`AdminAuth`). The cache is a class whose `Get` updates its map;
  - the admin router's path handling, POST normalisation, PATCH column builder and image keys (`AdminRouter`). The PATCH builder is a method whose loop pushes onto the column and argument lists;
  - the admin page's label helpers and active toggle (`AdminPage`).

JavaScript values that matter are modelled explicitly in `Js`:

- numbers are `Finite(real) | NaN | Infinity`;
- request fields are `Undefined | Null | Bool | Number | Str | Object`, with JavaScript truthiness;
- `Math.round(x)` is `Floor(x + 1/2)`;
- `%` truncates toward zero.

Conversions the engine delegates to the JavaScript runtime are parameters of
the model:

- Number-to-String;
- `Number(string)` parsing;
- `toFixed(2)`;
- `JSON.stringify`.

Generated ids and the current time are also parameters.

Some behaviours of the code are easy to miss:

- **TAW.** The estimator treats a total that rounds to 0 grains as
  unavailable: it checks `!taw || taw <= 0` after rounding.
- **Collar price.** The collar price of an insert defaults to 0 when absent
  (`?? 0`).
- **Summary cut mode.** The current summary normalises any cut mode other
  than `"cut"` to `"uncut"` rather than passing it through. Its vane label
  carries `(N-fletch)` and its insert label carries ` (+collar)`.
- **`active` flags.** The current validator does not check them; only the
  catalog readers filter inactive records, and they are not part of the
  engine.
- **Non-finite prices.** A non-finite quantity leaves the per-arrow price
  finite and makes only the subtotal NaN or infinite; a non-finite fletch
  count with a vane makes both figures non-finite.

## Model

| member | source | states |
|---|---|---|
| Js.Round2 | functions/_utils/db.ts:44-46 | `round2` yields a whole number of cents within half a cent of its input |
| Js.Round2Idempotent | functions/_utils/db.ts:44-46 | rounding an already rounded amount changes nothing |
| Js.Round2ThenScale | functions/_utils/db.ts:276-277 | a rounded per-arrow price times an integer quantity is already whole cents, so the second `round2` is exact |
| Js.Round2Num | functions/_utils/db.ts:44-46 | `round2` keeps NaN and the infinities and rounds a finite number to whole cents within half a cent |
| Js.NumAdd | functions/_utils/db.ts:267-274 | a sum is finite iff both operands are, is then the exact sum, and NaN absorbs |
| Js.NumMul | functions/_utils/db.ts:270 | a product is finite iff both operands are, is then the exact product, and NaN absorbs |
| Js.NumArithCommutes | functions/_utils/db.ts:267-277 | `+` and `*` commute on every number, NaN and the infinities included |
| Js.Round2NumThenScale | functions/_utils/db.ts:276-277 | for a finite sum and an integer quantity the subtotal is the exact product of the rounded per-arrow price and the quantity |
| Js.IsIncrementIffNearInteger | functions/_utils/db.ts:48-51 | `isIncrement(n, inc)` holds iff n/inc lies within 1e-6 of some integer |
| Js.MultipleIsIncrement | functions/_utils/db.ts:48-51 | every exact multiple of the increment passes |
| Js.Rem | src/worker-api/worker.js:151 | the truncating `%` is finite exactly when the divisor is non-zero |
| Js.RemTwoOfInt | src/worker-api/worker.js:151 | for integer quantities, `q % 2 === 0` is evenness |
| Js.FieldText | functions/api/contact.ts:16 | `String(x \|\| "")` is empty for every falsy value and is the string itself for a string |
| Text.TrimEmptyIff | functions/api/contact.ts:20 | a trimmed string is empty exactly when the input is all whitespace |
| Text.TrimIdempotent | functions/api/contact.ts:16-18 | trimming twice is trimming once |
| Text.ToLowerIdempotent | functions/api/contact.ts:17 | lower-casing twice is lower-casing once |
| Text.IndexOf | functions/_utils/access.ts:7 | the result is -1 iff the character is absent, else its first position |
| Text.Split | functions/_utils/access.ts:5 | `split` yields at least one part and no part holds the separator |
| Text.JoinSplit | functions/_utils/access.ts:5 | joining the parts with the separator gives back the input |
| Text.LastOfSplit | functions/api/admin/router.ts:133 | the last part of a split is the text after the last separator |
| Catalog.PointLabelFallback | functions/_utils/db.ts:295 | a point reads "{type} {weight}gr" exactly when its trimmed brand and model are empty, otherwise a non-empty trimmed name |
| Catalog.PointLabel | functions/_utils/db.ts:295 | a point label is never empty, and is the trimmed brand-and-model name whenever that is non-empty |
| BuildEngine.ValidateBuild | functions/_utils/db.ts:203-262 | a build is accepted iff it satisfies every rule; a missing shaft is rejected on `shaft_id`; every rejection names a known field |
| BuildEngine.MissingShaftAlwaysRejected | functions/_utils/db.ts:206 | without a shaft the verdict is the same whatever the other inputs |
| BuildEngine.QuantityRuleOrder | functions/_utils/db.ts:207-224 | a non-finite quantity fails right after the shaft check; a finite one other than 6 or 12 fails only once the cut rules pass |
| BuildEngine.CutChecksInOrder | functions/_utils/db.ts:211-215 | in cut mode the length must be finite, then at most max_length, then at least 20, then on a 0.25 increment, each failing on `cut_length` with its own message |
| BuildEngine.UncutRejectsLength | functions/_utils/db.ts:209-220 | any mode other than "cut" is uncut, and an uncut build with a cut length fails |
| BuildEngine.IncrementExamples | functions/_utils/db.ts:211-215 | 20.0 and 20.25 are accepted, 20.26 is rejected with the increment message |
| BuildEngine.QuantityExamples | functions/_utils/db.ts:224 | an otherwise valid build is accepted with 6 or 12 arrows and rejected on `quantity` with 1, 5, 8 or 24 |
| BuildEngine.FletchVaneCoupling | functions/_utils/db.ts:227-235 | a fletch count outside {0,3,4} fails `fletch_count`; 0 with a vane, or 3/4 without one, fails `vane_id` |
| BuildEngine.UncutIgnoresWrap | functions/_utils/db.ts:238-245 | an uncut build's verdict does not depend on the wrap |
| BuildEngine.WrapRules | functions/_utils/db.ts:238-245 | in cut mode a wrap outside the inclusive OD window, or at least as long as the cut, fails `wrap_id` |
| BuildEngine.MicroVaneExample | functions/_utils/db.ts:248-252 | on a 0.204" shaft a vane without micro support fails `vane_id` and the same vane with it is accepted |
| BuildEngine.MicroVaneRule | functions/_utils/db.ts:248-252 | swapping the vane of an accepted build gives the micro-vane rejection on `vane_id` iff the shaft's OD is at most 0.265" and the new vane lacks micro support, and acceptance otherwise |
| BuildEngine.ThreadRule | functions/_utils/db.ts:255-259 | adding a point keeps an accepted build accepted iff its thread is absent, empty or "8-32" |
| BuildEngine.RawPerArrowIsSum | functions/_utils/db.ts:267-274 | the JavaScript per-arrow sum is finite iff there is no vane or the fletch count is finite, and is then the exact sum of the component prices and labour |
| BuildEngine.CalculatePrice | functions/_utils/db.ts:264-279 | the per-arrow price is finite iff there is no vane or the fletch count is finite; the subtotal is finite iff that holds and the quantity is finite, and a NaN quantity gives a NaN subtotal; finite figures are whole cents, the per-arrow price is within half a cent of the raw sum, and the subtotal is per-arrow times an integer quantity |
| BuildEngine.AcceptedBuildIsPriced | functions/_utils/db.ts:264-279 | every accepted build gets a quote whose subtotal is per-arrow times quantity exactly |
| BuildEngine.OptionalComponentsAdd | functions/_utils/db.ts:267-274 | each optional component adds exactly its own price to the raw per-arrow sum |
| BuildEngine.PriceExample | functions/_utils/db.ts:264-279 | a $50 shaft alone, six arrows, is quoted 54.50 per arrow and 327.00 in total |
| BuildEngine.BuildSummary | functions/_utils/db.ts:282-311 | the summary's cut mode is "cut" or "uncut" and the quantity passes through |
| BuildEngine.SummaryAbsentSlots | functions/_utils/db.ts:286-296 | absent slots read "None", and so does the vane when fletch_count is 0 |
| BuildEngine.SummaryCutLength | functions/_utils/db.ts:298-303 | the mode is "cut" exactly for cut builds, and only then is the cut length shown |
| BuildEngine.VaneLabel | functions/_utils/db.ts:287-292 | the vane label is "None" iff there is no vane or fletch_count is 0; otherwise brand, model and the count as JavaScript prints it, "undefined" for a missing count |
| BuildEngine.InsertLabel | functions/_utils/db.ts:294 | an insert label begins with the insert's brand and model |
| BuildEngine.InsertLabelCollar | functions/_utils/db.ts:294 | an insert label ends in " (+collar)" iff the insert requires a collar |
| LegacyEngine.ValidateBuild | src/worker-api/worker.js:121-181 | a v1 build is accepted iff it satisfies every v1 rule, including the micro-vane and 8-32 thread rules; a missing shaft fails `shaft_id` |
| LegacyEngine.RequiredChecksInOrder | src/worker-api/worker.js:123-128 | shaft, vane and point are required in that order, then a finite cut length, then a finite quantity |
| LegacyEngine.InactiveComponentRejected | src/worker-api/worker.js:131-134 | an inactive shaft, wrap, vane or point fails on its own field, in that order |
| LegacyEngine.CutChecksInOrder | src/worker-api/worker.js:137-145 | cut length at most max_length, then at least 24, then on a 0.25 increment |
| LegacyEngine.QuantityRules | src/worker-api/worker.js:148-153 | an integer quantity is rejected on `quantity` iff it is below 6 or odd |
| LegacyEngine.FletchMustBeThree | src/worker-api/worker.js:156-158 | any fletch count other than 3 fails `fletch_count` |
| LegacyEngine.WrapRulesAlwaysApply | src/worker-api/worker.js:161-168 | a wrap outside the OD window or not shorter than the cut fails `wrap_id`, with no cut-mode condition |
| LegacyEngine.RawPerArrowIsSum | src/worker-api/worker.js:184-189 | the JavaScript per-arrow sum is finite iff the fletch count is, and is then the exact sum |
| LegacyEngine.CalculatePrice | src/worker-api/worker.js:183-195 | the per-arrow price is finite iff the fletch count is; the subtotal is finite iff quantity and fletch count both are, and NaN for a NaN quantity; finite figures are whole cents, within half a cent of the raw sum, subtotal per-arrow times an integer quantity |
| LegacyEngine.AcceptedBuildIsPriced | src/worker-api/worker.js:183-195 | an accepted v1 build is priced, with the vane counted three times |
| LegacyEngine.BuildSummary | src/worker-api/worker.js:197-211 | the wrap reads "No wrap" when absent, cut length and quantity pass through, and the point falls back to "{type} {weight}gr" |
| BuilderPage.SelectShaft | src/ArrowBuilderPage.tsx:538-546 | selecting a shaft resets every other field to its default but keeps quantity 12 |
| BuilderPage.SetCutMode | src/ArrowBuilderPage.tsx:548-554 | switching to uncut clears the cut length; nothing else changes |
| BuilderPage.SetCutLength | src/ArrowBuilderPage.tsx:556-559 | the length is set iff the input parses to a finite number, and then to that number |
| BuilderPage.SetQty | src/ArrowBuilderPage.tsx:561-563 | only the quantity changes |
| BuilderPage.SetFletchCount | src/ArrowBuilderPage.tsx:565-572 | setting fletch 0 clears the vane; nothing else changes |
| BuilderPage.SettersStayWellTyped | src/ArrowBuilderPage.tsx:129-147 | every setter keeps the state within its declared types (fletch 0/3/4, quantity 6/12) |
| BuilderPage.FindBy | src/ArrowBuilderPage.tsx:296-310 | the lookup fails iff no record has the id, and otherwise returns a record with that id |
| BuilderPage.SelectedShaft | src/ArrowBuilderPage.tsx:287-290 | no shaft is selected iff the id is null or names no shaft; a selected shaft is in the list and has that id |
| BuilderPage.SelectedParts | src/ArrowBuilderPage.tsx:291-310 | each optional part is absent for a falsy id, and a found part is in its list with that id |
| BuilderPage.CompatibleWraps | src/ArrowBuilderPage.tsx:313-317 | empty without a shaft; otherwise exactly the wraps whose inclusive OD window contains the shaft's OD |
| BuilderPage.CompatibleVanes | src/ArrowBuilderPage.tsx:320-324 | all vanes without a shaft or for a non-micro shaft; only micro-compatible vanes for a shaft of OD at most 0.265 |
| BuilderPage.OfferedVanesPassServerRule | src/ArrowBuilderPage.tsx:320-324 | every offered vane passes the server engine's micro-vane rule |
| BuilderPage.Estimated | src/ArrowBuilderPage.tsx:333-403 | TAW and FOC are both present or both absent; present iff there is a shaft, cut mode and a positive length, and the total rounds to a positive grain count; TAW is the total rounded and FOC is within 0.05 of the tools-page formula at the balance point |
| BuilderPage.EstimateOf | src/ArrowBuilderPage.tsx:333-414 | the page shows no estimate outside cut mode, without a cut length, or when the shaft id names no shaft; an estimate implies the id names some shaft |
| BuilderPage.VaneWeightVanishes | src/ArrowBuilderPage.tsx:353-355 | vanes weigh nothing with fletch 0, no vane, or a vane without a weight |
| BuilderPage.CollarWeightRule | src/ArrowBuilderPage.tsx:359-363 | the collar weight counts only when the insert requires a collar |
| BuilderPage.ShaftOnlyFocIsZero | src/ArrowBuilderPage.tsx:372-401 | a bare shaft balances at its middle, so its FOC is 0 |
| BuilderPage.MomentOnArrow | src/ArrowBuilderPage.tsx:390-398 | with non-negative weights placed on the arrow, the balance point lies between nock and tip |
| BuilderPage.EstimatedFoc | src/ArrowBuilderPage.tsx:390-401 | with a cut length and a total that rounds to a positive grain count, the FOC shown is the tools-page FOC at the balance point rounded to one decimal |
| BuilderPage.FocBounded | src/ArrowBuilderPage.tsx:398-401 | under those conditions FOC lies in [-50, 50] |
| BuilderPage.CleanupOnShaftChange | src/ArrowBuilderPage.tsx:436-466 | the step-by-step cleanup computes the specified cleaned state |
| BuilderPage.CleanedIsCompatible | src/ArrowBuilderPage.tsx:441-461 | after cleanup the wrap, vane and cut length all fit the new shaft |
| BuilderPage.CleanedOnlyClears | src/ArrowBuilderPage.tsx:436-466 | cleanup only clears: the wrap iff incompatible, the vane and fletch count iff incompatible, the cut length iff it exceeds max_length; nothing else changes |
| BuilderPage.CleanedIdempotent | src/ArrowBuilderPage.tsx:436-466 | a compatible state is left alone and cleaning twice is cleaning once |
| BuilderPage.SelectShaftNeedsNoCleanup | src/ArrowBuilderPage.tsx:538-546 | the state right after selecting a shaft needs no cleanup |
| BuilderPage.CanPriceTransitions | src/ArrowBuilderPage.tsx:469-475 | selecting a shaft enables pricing; cut mode without a length disables it, and a parsed length enables it again |
| BuilderPage.CanPriceMatchesServer | src/ArrowBuilderPage.tsx:469-475 | a priceable well-typed state passes the server's quantity and cut-length-presence rules; an unpriceable one with a shaft id is refused by the server on `cut_length` anyway |
| BuilderPage.PricePayload | src/ArrowBuilderPage.tsx:515-532 | the payload's cut length is null unless the mode is cut, its vane is null when fletch is 0, and the other fields are copied |
| BuilderPage.PayloadMeetsServerCoupling | src/ArrowBuilderPage.tsx:519-526 | a payload from a well-typed state always passes the server's uncut-length and fletch/vane rules |
| ShaftGroups.GroupShafts | src/ArrowBuilderPage.tsx:207-218 | the loop produces the specified grouping |
| ShaftGroups.SortBySpine | src/ArrowBuilderPage.tsx:216 | the items are sorted by ascending spine and are a permutation of the input |
| ShaftGroups.DistinctKeysExact | src/ArrowBuilderPage.tsx:208-213 | the keys are exactly the input's "brand model" keys, without duplicates |
| ShaftGroups.FirstAppearanceOrder | src/ArrowBuilderPage.tsx:208-213 | keys appear in the order of their first occurrence in the input |
| ShaftGroups.MembersExact | src/ArrowBuilderPage.tsx:210-212 | a key's members are exactly the input shafts with that key, with multiplicity |
| ShaftGroups.GroupedIsPartition | src/ArrowBuilderPage.tsx:207-218 | together the groups hold every input shaft exactly once |
| ShaftGroups.GroupKeysAreDistinctKeys | src/ArrowBuilderPage.tsx:214-215 | there is one group per distinct key, in first-appearance order |
| ShaftGroups.GroupedCoversKeys | src/ArrowBuilderPage.tsx:207-218 | every shaft's key has a group and every group's key comes from some shaft |
| ShaftGroups.GroupedKeyOrder | src/ArrowBuilderPage.tsx:214-215 | group keys are distinct and ordered by first appearance |
| ShaftGroups.GroupedItems | src/ArrowBuilderPage.tsx:214-217 | a group's items all have its key, are sorted by spine, and are a permutation of that key's shafts |
| Tools.CalcFOC | src/pages/ToolsPage.tsx:16-19 | 0 for a non-positive length; otherwise the balance point is L/2 plus FOC% of L |
| Tools.CalcFOCAnchors | src/pages/ToolsPage.tsx:12-19 | balance at L/2 gives 0, at L gives 50 and at 0 gives -50 |
| Tools.CalcFOCMonotone | src/pages/ToolsPage.tsx:16-19 | FOC grows with the balance point |
| Tools.CalcFOCBounded | src/pages/ToolsPage.tsx:16-19 | a balance point on the arrow gives FOC within [-50, 50] |
| Tools.ClampNum | src/pages/ToolsPage.tsx:3-5 | the result lies in [min, max] when min <= max and is n when n is in range |
| Tools.ClampIdempotent | src/pages/ToolsPage.tsx:3-5 | clamping twice is clamping once |
| Tools.FocReadingCases | src/pages/ToolsPage.tsx:26-30 | through `safeNum`, an arrow length that is not a positive finite number reads 0%; otherwise the reading is `calcFOC` of the parsed values, and an unparseable balance point reads -50% |
| Contact.CheckFields | functions/api/contact.ts:20-23 | accepted iff name and an '@' email are present and the message has 10 to 5000 characters; else the first failing rule's field and message |
| Contact.CheckContact | functions/api/contact.ts:13-23 | a falsy body fails `body` before anything else; otherwise the normalised fields are checked |
| Contact.AtSurvivesOnlyFromRaw | functions/api/contact.ts:17-21 | trimming and lower-casing never create an '@' |
| Contact.BlankNameAndEmailRules | functions/api/contact.ts:16-21 | a name is rejected as empty iff it is all whitespace; an accepted email had an '@' as submitted |
| Contact.EmailNormIdempotent | functions/api/contact.ts:17 | trim-then-lowercase is idempotent |
| Contact.NormaliseIdempotent | functions/api/contact.ts:16-18 | normalised fields are fixed points of the normalisation |
| Contact.AcceptedIsStable | functions/api/contact.ts:13-23 | resubmitting an accepted message's stored fields is accepted with the same row |
| Access.GetCookie | functions/_utils/access.ts:3-14 | the scan returns the specified first-match lookup over the trimmed parts |
| Access.Scan | functions/_utils/access.ts:6-13 | the loop skips parts without '=' and stops at the first part whose key matches |
| Access.LookupIsFirstMatch | functions/_utils/access.ts:6-13 | a value is found iff some part has the key, and it is the value of the first such part |
| Access.NoHeaderNoCookie | functions/_utils/access.ts:4 | a missing or empty cookie header yields no cookie |
| Access.SingleCookieRoundTrip | functions/_utils/access.ts:5-11 | a one-cookie header gives back its value, which may contain '=' |
| Access.LookupPresentIff | functions/_utils/access.ts:3-12 | `getCookie` yields a truthy value iff the first cookie part keyed by the name has a non-empty value |
| Access.PreCheckIff | functions/_utils/access.ts:24-38 | the request is rejected before any network call iff the first trimmed cookie part keyed CF_Authorization is missing or empty and the two service-token headers are not both non-empty |
| Access.ServiceTokenReachesIdentity | functions/_utils/access.ts:24-36 | both service-token headers always reach the identity check |
| Access.NoCredentialsRejected | functions/_utils/access.ts:36-38 | without a cookie header and a full service token, the request is rejected |
| Access.AuthCookieValue | functions/_utils/access.ts:33-38 | an empty CF_Authorization value counts as absent and a non-empty one passes the pre-check |
| AdminAuth.ConfiguredAudienceMatch | functions/api/admin/auth.ts:12-16 | for the non-empty audience `requireAccess` checks, a token passes iff its claim lists the audience, as a string or inside a list |
| AdminAuth.AudShapesAgree | functions/api/admin/auth.ts:14-15 | a non-empty string and its one-element list agree; `""` and `[""]` do not |
| AdminAuth.StripTrailingSlashes | functions/api/admin/auth.ts:22 | the result is a prefix of the input, never ends in '/', and only '/' was removed |
| AdminAuth.StripIdempotent | functions/api/admin/auth.ts:44 | normalising twice is normalising once |
| AdminAuth.StripIgnoresExtraSlashes | functions/api/admin/auth.ts:22 | domains differing only in trailing slashes normalise alike |
| AdminAuth.JwksCache.constructor | functions/api/admin/auth.ts:19 | the cache starts empty |
| AdminAuth.JwksCache.Get | functions/api/admin/auth.ts:21-29 | returns the key set for the normalised domain's certs URL, stores it under that key, and creates a new one only for an unseen key |
| AdminAuth.CachedOnSecondCall | functions/api/admin/auth.ts:21-29 | a second call for the same domain, with any trailing slashes, returns the same key set and creates nothing more |
| AdminRouter.AdminPath | functions/api/admin/router.ts:24 | the routed path is never empty; it is the pathname minus a leading `/api/admin` |
| AdminRouter.AdminPathOfRoute | functions/api/admin/router.ts:24 | every route is reachable under the prefix and the bare prefix routes to "/" |
| AdminRouter.ProductId | functions/api/admin/router.ts:78 | a matched id is non-empty, slash-free, and rebuilds the path |
| AdminRouter.ProductIdRoundTrip | functions/api/admin/router.ts:78-80 | the pattern matches exactly the non-empty slash-free ids |
| AdminRouter.NormalizeProduct | functions/api/admin/router.ts:55-65 | accepted iff category, brand and name are non-empty; `is_active` is 0 iff the body has `false`; sku is kept iff truthy; price defaults to 0 and specs to "{}" |
| AdminRouter.PostStringFields | functions/api/admin/router.ts:55-65 | with string fields the required check is exactly non-emptiness, and a missing, null, zero or `true` `is_active` gives an active product |
| AdminRouter.Kept | functions/api/admin/router.ts:87-89 | the kept keys are exactly the allow-list keys defined in the body |
| AdminRouter.PushAllowed | functions/api/admin/router.ts:87-93 | the loop pushes one column and one argument per defined allowed key, `specs_json` stringified |
| AdminRouter.PatchProduct | functions/api/admin/router.ts:84-107 | the handler builds exactly the specified update or rejection |
| AdminRouter.PatchOf | functions/api/admin/router.ts:84-107 | the PATCH is refused with "No fields to update" iff no allowed key is defined and no `specs` fallback applies; an accepted one sets at least one column besides `updated_at` |
| AdminRouter.KeptInOrder | functions/api/admin/router.ts:87-89 | kept keys come in allow-list order |
| AdminRouter.PatchShape | functions/api/admin/router.ts:87-103 | columns start with the kept keys in allow-list order and end with `updated_at = ?`; the arguments have one more element, the id |
| AdminRouter.SpecsJsonOnce | functions/api/admin/router.ts:91-99 | `specs_json` is assigned once if the body defines it or has truthy `specs`, else not at all |
| AdminRouter.PatchRejectedIff | functions/api/admin/router.ts:105-107 | rejected with "No fields to update" iff no allowed key is defined and no `specs` fallback applies |
| AdminRouter.ActiveKeyIsNotPatched | functions/api/admin/router.ts:87 | a body with only `active` is rejected, since the allow-list has `is_active` |
| AdminRouter.ImageExt | functions/api/admin/router.ts:133 | the extension is never empty, has no '.', and is lower case |
| AdminRouter.ImageExtOfDotted | functions/api/admin/router.ts:133 | the extension is the lower-cased text after the last '.', or "jpg" when that is empty |
| AdminRouter.ImageExtOfUndotted | functions/api/admin/router.ts:133 | a name without '.' is its own extension, or "jpg" when empty |
| AdminRouter.ImageKey | functions/api/admin/router.ts:134 | every stored key lies under `products/{id}/` |
| AdminRouter.ImageKeyKeepsExtension | functions/api/admin/router.ts:134 | the stored key has the uploaded file's extension |
| AdminPage.PriceLabel | src/pages/AdminPage.tsx:50-55 | per-shaft, then per-arrow, then plain price; the dash appears iff the row has none |
| AdminPage.PricePrecedence | src/pages/AdminPage.tsx:50-55 | a per-shaft price hides the other two and a per-arrow price hides the plain one |
| AdminPage.TitleLabel | src/pages/AdminPage.tsx:57-62 | the truthy name, else the truthy model, else the id as text |
| AdminPage.EmptyTitleFallsThrough | src/pages/AdminPage.tsx:59-61 | an empty name or model reads as missing |
| AdminPage.ToggleValue | src/pages/AdminPage.tsx:159 | the toggle sends 0 iff the row is truthy-active, and 1 otherwise |
| AdminPage.ToggleFlips | src/pages/AdminPage.tsx:159 | on 0/1 flags the toggle flips, and two toggles restore the flag |
| AdminPage.ToggleBodyIsRejected | src/pages/AdminPage.tsx:157-160 | the toggle's `{active}` body is answered "No fields to update" by the products PATCH |

## Left out

- Database access is not modelled, because it is I/O:
  - catalog fetchers;
  - customer, draft order and arrow build writes;
  - the contact insert;
  - the admin GET, INSERT, UPDATE and DELETE statements.

  The model stops at the values and the SQL column and argument lists that would be sent.
- The HTTP handlers are not modelled:
  - the price, draft and catalog endpoints;
  - the worker's `fetch` router;
  - `r2-ping`, the image proxy and CORS.

  Three of them have problems:
  - `price.ts:64` reads an undefined `args`, so that request always fails with a server error;
  - `price.ts:95` calls the summary without `fletch_count`, which the model allows by making that field optional (the vane label then reads "(undefined-fletch)");
  - `draft.ts:20` declares an unused uncut sentinel.
- Several calls go to foreign code, so these are left out:
  - JWT verification by `jose` (`auth.ts:48-56`);
  - the Access get-identity request (`access.ts:41-57`);
  - R2 storage;
  - `crypto.randomUUID`;
  - building URLs: `new URL` never fails here, and a key set is identified by its URL only.
- The admin router's GET listing and DELETE routes, and the multipart image upload parsing, are left out. They only shape SQL and storage I/O; the image's storage key is modelled.
- JavaScript's number formatting and parsing are opaque parameters rather than IEEE-754 code:
  - `String(number)`;
  - `toFixed`;
  - `toLocaleString`;
  - `JSON.stringify`;
  - `Number(string)`.

  Arithmetic is on exact reals, so double-rounding artefacts are not modelled.
- `Js.Value` has no array case: a JSON array in a request field (`String(x || "")` at `contact.ts:16-18`, the POST fields at `router.ts:55-65`) and the truthiness of `[]` are not expressible. The audience claim's string-or-list shape is modelled separately.
- String length counts characters, not UTF-16 code units. `toLowerCase` maps ASCII letters only.
- React rendering, timers, debouncing, fetch effects and the inline JSX selection handlers are left out. The named setters are modelled.
- BuilderPage.Estimated: the FOC rounding to one decimal (`Math.round(foc*10)/10`) is stated as "within 0.05 of the exact FOC" rather than as the rounded value itself; BuilderPage.EstimatedFoc states the rounded value for a cut arrow.
- BuildEngine.CalculatePrice: requires a shaft. Without one the source throws a TypeError at `db.ts:268`; every caller validates the build first.
- BuildEngine.BuildSummary: requires a shaft. Without one the source throws a TypeError at `db.ts:285`.
- LegacyEngine.CalculatePrice: requires a shaft, a vane and a point. Without them the source throws a TypeError at `worker.js:185-188`; the caller validates first, and the v1 rules require all three.
- LegacyEngine.BuildSummary: requires a shaft, a vane and a point, as the source dereferences all three.
- ShaftGroups.SortBySpine: the stability of JavaScript's sort (equal spines keep their input order) is not stated; only sortedness and permutation are.
- AdminPage.ToggleBodyIsRejected: the toggle PATCHes `/api/admin/{type}/{id}` for six component tables. The admin router routes only `/products/{id}`, and its allow-list has `is_active`, not `active`. The model states the column mismatch only; the routing mismatch is not part of this model.
