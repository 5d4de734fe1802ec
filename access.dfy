/**
 * The Cloudflare Access guard's local part (functions/_utils/access.ts):
 * the cookie-header parser and the credential-presence check that decides,
 * before any network call, whether a request is rejected outright.
 */
module Access {
  import opened Wrappers
  import Text

  const AUTH_COOKIE: string := "CF_Authorization"

  /** `req.headers.get("cookie") || ""`. */
  function HeaderText(header: Option<string>): string {
    if header.Some? then header.value else ""
  }

  /** `raw.split(";").map((s) => s.trim())`. */
  function CookieParts(header: Option<string>): seq<string> {
    var pieces := Text.Split(HeaderText(header), ';');
    seq(|pieces|, i requires 0 <= i < |pieces| => Text.Trim(pieces[i]))
  }

  /** The part has an '=' and the text before the first one is `name`. */
  predicate KeyIs(part: string, name: string) {
    var eq := Text.IndexOf(part, '=');
    eq != -1 && part[..eq] == name
  }

  /** Everything after the first '='. */
  function ValueOf(part: string): string
    requires '=' in part
  {
    part[Text.IndexOf(part, '=') + 1..]
  }

  /** The value of the first part whose key is `name`. */
  function Lookup(parts: seq<string>, name: string): Option<string> {
    if |parts| == 0 then None
    else if KeyIs(parts[0], name) then Some(ValueOf(parts[0]))
    else Lookup(parts[1..], name)
  }

  /** `getCookie`: scans the trimmed parts, skipping those without '=', and
      returns the value of the first whose key matches. */
  method GetCookie(header: Option<string>, name: string) returns (r: Option<string>)
    ensures r == Lookup(CookieParts(header), name)
  {
    r := Scan(CookieParts(header), name);
  }

  /** The `for` loop of `getCookie` over the split and trimmed parts. */
  method Scan(parts: seq<string>, name: string) returns (r: Option<string>)
    ensures r == Lookup(parts, name)
  {
    var i := 0;
    while i < |parts|
      invariant 0 <= i <= |parts|
      invariant Lookup(parts[i..], name) == Lookup(parts, name)
    {
      var p := parts[i];
      var eq := Text.IndexOf(p, '=');
      if eq != -1 {
        var k := p[..eq];
        var v := p[eq + 1..];
        if k == name {
          LookupMatch(parts, i, name);
          return Some(v);
        }
      }
      LookupSkip(parts, i, name);
      i := i + 1;
    }
    return None;
  }

  /** A matching part ends the scan with its value. */
  lemma LookupMatch(parts: seq<string>, i: int, name: string)
    requires 0 <= i < |parts| && KeyIs(parts[i], name)
    ensures Lookup(parts[i..], name) == Some(parts[i][Text.IndexOf(parts[i], '=') + 1..])
  {
    assert parts[i..][0] == parts[i];
  }

  /** A part without the key passes the scan on. */
  lemma LookupSkip(parts: seq<string>, i: int, name: string)
    requires 0 <= i < |parts| && !KeyIs(parts[i], name)
    ensures Lookup(parts[i..], name) == Lookup(parts[i + 1..], name)
  {
    assert parts[i..][0] == parts[i] && parts[i..][1..] == parts[i + 1..];
  }

  /** Lookup finds a value exactly when some part has the key, and then it
      is the value of the first such part. Keys compare exactly, so case
      matters. */
  lemma {:induction false} LookupIsFirstMatch(parts: seq<string>, name: string)
    ensures Lookup(parts, name).Some? <==> exists i :: 0 <= i < |parts| && KeyIs(parts[i], name)
    ensures Lookup(parts, name).Some? ==>
              exists i :: && 0 <= i < |parts| && KeyIs(parts[i], name)
                          && Lookup(parts, name) == Some(ValueOf(parts[i]))
                          && forall j :: 0 <= j < i ==> !KeyIs(parts[j], name)
  {
    if |parts| > 0 && !KeyIs(parts[0], name) {
      LookupIsFirstMatch(parts[1..], name);
      assert forall i :: 1 <= i < |parts| ==> parts[i] == parts[1..][i - 1];
      if Lookup(parts, name).Some? {
        var i :| && 0 <= i < |parts[1..]| && KeyIs(parts[1..][i], name)
                 && Lookup(parts[1..], name) == Some(ValueOf(parts[1..][i]))
                 && forall j :: 0 <= j < i ==> !KeyIs(parts[1..][j], name);
        assert KeyIs(parts[i + 1], name);
      }
    }
  }

  /** A request without a cookie header has no cookies. */
  lemma NoHeaderNoCookie(name: string)
    ensures Lookup(CookieParts(None), name) == None
    ensures Lookup(CookieParts(Some("")), name) == None
  {
    assert Text.Split("", ';') == [""];
    assert CookieParts(None) == [Text.Trim("")];
    assert Text.IndexOf("", '=') == -1;
  }

  /** A header holding one cookie gives back its value, which may itself
      contain '='. */
  lemma {:induction false} SingleCookieRoundTrip(name: string, value: string)
    requires '=' !in name && ';' !in name && ';' !in value
    requires Text.Trim(name + "=" + value) == name + "=" + value
    ensures Lookup(CookieParts(Some(name + "=" + value)), name) == Some(value)
  {
    var s := name + "=" + value;
    assert ';' !in s by {
      forall k | 0 <= k < |s| ensures s[k] != ';' {
        if k < |name| { assert s[k] == name[k]; }
        else if k > |name| { assert s[k] == value[k - |name| - 1]; }
      }
    }
    assert Text.Split(s, ';') == [s];
    assert CookieParts(Some(s)) == [s];
    assert s[..|name|] == name;
    assert s[|name|] == '=';
    assert Text.IndexOf(s, '=') == |name|;
    assert s[|name| + 1..] == value;
    assert KeyIs(s, name);
  }

  /** A header value is present and not empty (JavaScript-truthy). */
  predicate Present(x: Option<string>) {
    x.Some? && x.value != ""
  }

  datatype Gate = Unauthorized | CheckIdentity

  /** The pre-check of `requireAccess`: with neither a truthy
      CF_Authorization cookie nor both service-token headers the request
      is answered 401 at once; otherwise the identity endpoint decides. */
  function PreCheck(cookieHeader: Option<string>, clientId: Option<string>, clientSecret: Option<string>): (r: Gate)
    ensures r == Unauthorized <==>
              !Present(Lookup(CookieParts(cookieHeader), AUTH_COOKIE)) && !(Present(clientId) && Present(clientSecret))
  {
    var cfAuth := Lookup(CookieParts(cookieHeader), AUTH_COOKIE);
    if !Present(cfAuth) && !(Present(clientId) && Present(clientSecret)) then Unauthorized else CheckIdentity
  }

  /** Some part is the first to carry the key `name`, and its value is not
      empty. */
  predicate FirstValueSet(parts: seq<string>, name: string) {
    exists i :: && 0 <= i < |parts| && KeyIs(parts[i], name) && ValueOf(parts[i]) != ""
                && forall j :: 0 <= j < i ==> !KeyIs(parts[j], name)
  }

  /** The looked-up cookie is truthy exactly when the first part with the
      key has a non-empty value; later duplicates are never consulted. */
  lemma LookupPresentIff(parts: seq<string>, name: string)
    ensures Present(Lookup(parts, name)) <==> FirstValueSet(parts, name)
  {
    LookupIsFirstMatch(parts, name);
    if FirstValueSet(parts, name) {
      var i :| && 0 <= i < |parts| && KeyIs(parts[i], name) && ValueOf(parts[i]) != ""
               && forall j :: 0 <= j < i ==> !KeyIs(parts[j], name);
      var i' :| && 0 <= i' < |parts| && KeyIs(parts[i'], name)
                && Lookup(parts, name) == Some(ValueOf(parts[i']))
                && forall j :: 0 <= j < i' ==> !KeyIs(parts[j], name);
      assert i == i';
    }
  }

  /** The pre-check over the raw request: it answers 401 at once exactly
      when, among the trimmed `;`-separated parts of the cookie header, the
      first one keyed CF_Authorization is missing or has an empty value, and
      the two service-token headers are not both non-empty. */
  lemma PreCheckIff(cookieHeader: Option<string>, clientId: Option<string>, clientSecret: Option<string>)
    ensures PreCheck(cookieHeader, clientId, clientSecret) == Unauthorized <==>
              !FirstValueSet(CookieParts(cookieHeader), AUTH_COOKIE) && !(Present(clientId) && Present(clientSecret))
  {
    LookupPresentIff(CookieParts(cookieHeader), AUTH_COOKIE);
  }

  /** Both service-token headers always reach the identity check. */
  lemma ServiceTokenReachesIdentity(cookieHeader: Option<string>, clientId: Option<string>, clientSecret: Option<string>)
    requires Present(clientId) && Present(clientSecret)
    ensures PreCheck(cookieHeader, clientId, clientSecret) == CheckIdentity
  {
  }

  /** Without a cookie header, a missing or empty token header is rejected. */
  lemma NoCredentialsRejected(clientId: Option<string>, clientSecret: Option<string>)
    requires !Present(clientId) || !Present(clientSecret)
    ensures PreCheck(None, clientId, clientSecret) == Unauthorized
  {
    NoHeaderNoCookie(AUTH_COOKIE);
  }

  /** An authorisation cookie with an empty value counts as absent; one
      with a value passes the pre-check. */
  lemma AuthCookieValue(clientId: Option<string>, clientSecret: Option<string>, token: string)
    requires !Present(clientId)
    requires ';' !in token && (token == [] || !Text.IsWhitespace(token[|token| - 1]))
    ensures PreCheck(Some(AUTH_COOKIE + "=" + token), clientId, clientSecret)
            == if token == "" then Unauthorized else CheckIdentity
  {
    var s := AUTH_COOKIE + "=" + token;
    assert '=' !in AUTH_COOKIE && ';' !in AUTH_COOKIE;
    assert !Text.IsWhitespace(s[0]) && Text.TrimStart(s) == s;
    assert !Text.IsWhitespace(s[|s| - 1]) && Text.TrimEnd(s) == s;
    SingleCookieRoundTrip(AUTH_COOKIE, token);
  }
}
