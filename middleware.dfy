/** The authentication gate in front of the API: four public paths pass, any
    other path under `/api/` needs an `auth-token` cookie, everything else
    passes. The cookie is only looked up, never checked. */
module Middleware {
  import opened Strings

  const PublicRoutes: seq<string> := ["/api/auth/signin", "/api/auth/signup", "/signin", "/signup"]
  const ApiPrefix := "/api/"
  const AuthCookie := "auth-token"
  const AuthRequiredMessage := "Authentication required"

  /** What the gate does with a request: let it through, or answer it itself. */
  datatype Decision = Next | Reject(status: nat, error: string)

  /** The request cookies, by name; a cookie that is present is an object,
      which is truthy whatever its value. */
  type Cookies = map<string, string>

  /** `middleware(request)`. */
  function Gate(pathname: string, cookies: Cookies): (d: Decision)
    ensures pathname in PublicRoutes ==> d == Next
    ensures !StartsWith(pathname, ApiPrefix) ==> d == Next
    ensures d.Reject? <==> pathname !in PublicRoutes && StartsWith(pathname, ApiPrefix) && AuthCookie !in cookies
    ensures d.Reject? ==> d == Reject(401, AuthRequiredMessage)
  {
    if pathname in PublicRoutes then Next
    else if StartsWith(pathname, ApiPrefix) && AuthCookie !in cookies then Reject(401, AuthRequiredMessage)
    else Next
  }

  /** The `/api/:path*` matcher: `/api` itself and every path below it. */
  predicate MatcherApplies(pathname: string)
  {
    pathname == "/api" || StartsWith(pathname, ApiPrefix)
  }

  /** What a request meets: the gate where the matcher applies, otherwise nothing. */
  function Route(pathname: string, cookies: Cookies): (d: Decision)
    ensures !MatcherApplies(pathname) ==> d == Next
    ensures d.Reject? <==> pathname !in PublicRoutes && StartsWith(pathname, ApiPrefix) && AuthCookie !in cookies
    ensures d.Reject? ==> d == Reject(401, AuthRequiredMessage)
  {
    if MatcherApplies(pathname) then Gate(pathname, cookies) else Next
  }

  /** The matcher does not change any decision: every path the gate would
      reject starts with `/api/`, which the matcher covers, so the gate and the
      routed request agree on every path. The public page paths `/signin` and
      `/signup` never reach the gate at all. */
  lemma MatcherAgreesWithGate(pathname: string, cookies: Cookies)
    ensures Route(pathname, cookies) == Gate(pathname, cookies)
    ensures pathname == "/signin" || pathname == "/signup" ==> !MatcherApplies(pathname)
  {
    if pathname == "/signin" || pathname == "/signup" {
      assert pathname[..|ApiPrefix|] != ApiPrefix by {
        assert pathname[1] != ApiPrefix[1];
      }
    }
  }

  /** Only the presence of the cookie matters: two requests with the same
      path whose cookie jars agree on whether `auth-token` is set get the
      same decision, whatever the token's value and whatever other cookies
      they carry. */
  lemma OnlyCookiePresenceMatters(pathname: string, a: Cookies, b: Cookies)
    requires AuthCookie in a <==> AuthCookie in b
    ensures Gate(pathname, a) == Gate(pathname, b)
  {
  }

  /** The two sign-in and sign-up endpoints are reachable without a token. */
  lemma AuthEndpointsArePublic(cookies: Cookies)
    ensures Route("/api/auth/signin", cookies) == Next
    ensures Route("/api/auth/signup", cookies) == Next
  {
  }

  /** Every other API path without the cookie is refused with 401. */
  lemma ProtectedWithoutToken(pathname: string, cookies: Cookies)
    requires StartsWith(pathname, ApiPrefix) && pathname !in PublicRoutes
    requires AuthCookie !in cookies
    ensures Route(pathname, cookies) == Reject(401, AuthRequiredMessage)
  {
  }
}
