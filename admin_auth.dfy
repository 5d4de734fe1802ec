/**
 * The local parts of the admin API's Access check
 * (functions/api/admin/auth.ts): audience matching on a verified token's
 * payload, the trailing-slash normalisation of the team domain, and the
 * per-domain cache of remote key sets.
 */
module AdminAuth {

  /** The `aud` claim: absent, a single string, or a list of strings. */
  datatype Aud = Missing | One(s: string) | Many(xs: seq<string>)

  /** `getAudOk`: a falsy claim (absent or the empty string) never matches;
      a list matches by membership and a string by equality. */
  function GetAudOk(aud: Aud, want: string): (r: bool)
    ensures aud.Missing? || aud == One("") ==> !r
    ensures aud.One? && aud.s != "" ==> (r <==> aud.s == want)
    ensures aud.Many? ==> (r <==> want in aud.xs)
  {
    match aud
    case Missing => false
    case One(s) => s != "" && s == want
    case Many(xs) => want in xs
  }

  /** A single audience and the one-element list agree, except that an
      empty string claim is rejected outright while `[""]` matches "". */
  lemma AudShapesAgree(a: string, want: string)
    ensures a != "" ==> GetAudOk(One(a), want) == GetAudOk(Many([a]), want)
    ensures GetAudOk(Many([""]), "") && !GetAudOk(One(""), "")
  {
  }

  /** The audiences a claim lists, read without the falsy test. */
  function Listed(aud: Aud): seq<string> {
    match aud
    case Missing => []
    case One(s) => [s]
    case Many(xs) => xs
  }

  /** `requireAccess` only checks a configured, hence non-empty, audience
      (the missing-config test comes first). For such an audience the falsy
      test never matters: the token passes exactly when its claim lists the
      audience, whether as a string or inside a list. */
  lemma ConfiguredAudienceMatch(aud: Aud, want: string)
    requires want != ""
    ensures GetAudOk(aud, want) <==> want in Listed(aud)
  {
  }

  /** `s.replace(/\/+$/, "")`: every trailing '/' removed. */
  function StripTrailingSlashes(s: string): (r: string)
    ensures |r| <= |s| && r == s[..|r|]
    ensures r == [] || r[|r| - 1] != '/'
    ensures forall i :: |r| <= i < |s| ==> s[i] == '/'
  {
    if |s| > 0 && s[|s| - 1] == '/' then StripTrailingSlashes(s[..|s| - 1]) else s
  }

  /** Normalising twice is normalising once, and a string without a
      trailing slash is left alone. */
  lemma StripIdempotent(s: string)
    ensures StripTrailingSlashes(StripTrailingSlashes(s)) == StripTrailingSlashes(s)
    ensures s == [] || s[|s| - 1] != '/' ==> StripTrailingSlashes(s) == s
  {
  }

  /** Two domains differing only in trailing slashes share one cache key. */
  lemma {:induction false} StripIgnoresExtraSlashes(s: string, n: nat)
    ensures StripTrailingSlashes(s + seq(n, _ => '/')) == StripTrailingSlashes(s)
  {
    if n > 0 {
      var t := s + seq(n, _ => '/');
      assert t[..|t| - 1] == s + seq(n - 1, _ => '/');
      StripIgnoresExtraSlashes(s, n - 1);
    } else {
      assert s + seq(0, _ => '/') == s;
    }
  }

  const CERTS_PATH: string := "/cdn-cgi/access/certs"

  /** What `createRemoteJWKSet` returns, identified by its certs URL. */
  datatype RemoteJwks = RemoteJwks(url: string)

  /** The module-level `jwksCache` and the key sets created so far. */
  class JwksCache {
    var entries: map<string, RemoteJwks>
    ghost var created: seq<string>

    /** Every key is normalised and maps to its own certs URL, and exactly
        one key set was created per key. */
    ghost predicate Valid()
      reads this
    {
      && (forall k :: k in entries ==> StripTrailingSlashes(k) == k && entries[k] == RemoteJwks(k + CERTS_PATH))
      && (forall k :: k in entries <==> k in created)
      && (forall i, j :: 0 <= i < j < |created| ==> created[i] != created[j])
    }

    constructor ()
      ensures Valid() && entries == map[] && created == []
    {
      entries := map[];
      created := [];
    }

    /** `getJwks`: the cached key set for the normalised domain, or a new one
        stored under it. */
    method Get(teamDomain: string) returns (jwks: RemoteJwks)
      requires Valid()
      modifies this
      ensures Valid()
      ensures var key := StripTrailingSlashes(teamDomain);
              && jwks == RemoteJwks(key + CERTS_PATH)
              && entries == old(entries)[key := jwks]
              && (key in old(entries) ==> created == old(created))
              && (key !in old(entries) ==> created == old(created) + [key])
    {
      StripIdempotent(teamDomain);
      var key := StripTrailingSlashes(teamDomain);
      if key in entries {
        jwks := entries[key];
        return;
      }
      jwks := RemoteJwks(key + CERTS_PATH);
      entries := entries[key := jwks];
      created := created + [key];
    }
  }

  /** A second lookup of the same domain, with or without trailing slashes,
      returns the cached set and creates nothing. */
  method CachedOnSecondCall(cache: JwksCache, domain: string, n: nat) returns (first: RemoteJwks, second: RemoteJwks)
    requires cache.Valid()
    modifies cache
    ensures first == second
    ensures |cache.created| <= |old(cache.created)| + 1
  {
    first := cache.Get(domain);
    StripIgnoresExtraSlashes(domain, n);
    second := cache.Get(domain + seq(n, _ => '/'));
  }
}
