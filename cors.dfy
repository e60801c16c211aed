/** The origin check the socket server's CORS configuration applies to every
    cross-origin request. */
module Cors {
  import opened Common

  /** The client URL used when the environment does not set one. */
  const DefaultClientUrl: string := "http://localhost:5173"

  /** `process.env.CLIENT_URL || 'http://localhost:5173'`. */
  function ClientUrl(env: Option<string>): (r: string)
    ensures Truthy(env) ==> r == env.value
    ensures !Truthy(env) ==> r == DefaultClientUrl
  {
    if Truthy(env) then env.value else DefaultClientUrl
  }

  /** `s.replace(/\/$/, '')`: drop one '/' at the very end, if there is one. */
  function StripTrailingSlash(s: string): (r: string)
    ensures r == s || r + "/" == s
    ensures r != s <==> (s != "" && s[|s| - 1] == '/')
  {
    if s != "" && s[|s| - 1] == '/' then s[..|s| - 1] else s
  }

  /** The origin callback: `true` is `callback(null, true)`, `false` is the
      'Not allowed by CORS' error. */
  predicate OriginAllowed(origin: Option<string>, clientUrl: string): (ok: bool)
    ensures !Truthy(origin) ==> ok
    ensures origin == Some(clientUrl) ==> ok
    ensures !ok ==> && Truthy(origin) && origin.value != clientUrl
                    && !Includes(origin.value, "localhost") && !Includes(origin.value, "vercel.app")
  {
    !Truthy(origin)
    || StripTrailingSlash(origin.value) == StripTrailingSlash(clientUrl)
    || Includes(origin.value, "localhost")
    || Includes(origin.value, "vercel.app")
  }

  /** The callback accepts exactly: no origin, the client URL up to one trailing
      '/', and any origin containing "localhost" or "vercel.app" at some position. */
  lemma OriginAllowedIff(origin: Option<string>, clientUrl: string)
    ensures OriginAllowed(origin, clientUrl) <==>
      || origin == None || origin == Some("")
      || StripTrailingSlash(origin.value) == StripTrailingSlash(clientUrl)
      || (exists i :: OccursAt(origin.value, "localhost", i))
      || (exists i :: OccursAt(origin.value, "vercel.app", i))
  {
    if origin.Some? {
      IncludesIff(origin.value, "localhost");
      IncludesIff(origin.value, "vercel.app");
    }
  }

  /** The configured client URL is accepted with or without a trailing '/'. */
  lemma ClientUrlAccepted(clientUrl: string)
    ensures OriginAllowed(Some(clientUrl), clientUrl)
    ensures OriginAllowed(Some(StripTrailingSlash(clientUrl) + "/"), clientUrl)
  {
    var u := StripTrailingSlash(clientUrl) + "/";
    assert u[..|u| - 1] == StripTrailingSlash(clientUrl);
  }

  /** Any origin with "localhost" or "vercel.app" inside it is accepted, whatever
      surrounds it: the check is a substring test, not a host-name match. */
  lemma SubstringOriginsAccepted(before: string, after: string, clientUrl: string)
    ensures OriginAllowed(Some(before + "localhost" + after), clientUrl)
    ensures OriginAllowed(Some(before + "vercel.app" + after), clientUrl)
  {
    IncludesInside(before, "localhost", after);
    IncludesInside(before, "vercel.app", after);
  }

  /** An origin that is not the client URL (even after stripping one '/') and
      mentions neither marker is refused. */
  lemma OtherOriginsRefused(origin: string, clientUrl: string)
    requires origin != ""
    requires StripTrailingSlash(origin) != StripTrailingSlash(clientUrl)
    requires forall i :: !OccursAt(origin, "localhost", i)
    requires forall i :: !OccursAt(origin, "vercel.app", i)
    ensures !OriginAllowed(Some(origin), clientUrl)
  {
    IncludesIff(origin, "localhost");
    IncludesIff(origin, "vercel.app");
  }
}
