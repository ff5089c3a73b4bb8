/**
 * The top-level routing of the dashboard application: how the resolver's
 * flag and the stored access token combine into `auth`, which element each
 * route renders, and the logout navigation.
 */
module Routing {
  import opened Js
  import Auth
  import opened Wrappers

  const Home := "/"
  const Dashboard := "/dashboard"

  /** `auth = authenticated && accessTokenRaw` */
  function DeriveAuth(authenticated: Auth.Flag, raw: Value): (auth: Value)
    ensures Truthy(auth) <==> authenticated == Auth.Authenticated && Truthy(raw)
    ensures authenticated == Auth.Unknown ==> auth == Null
    ensures authenticated == Auth.Unauthenticated ==> auth == Bool(false)
    ensures authenticated == Auth.Authenticated ==> auth == raw
  {
    And(Auth.FlagValue(authenticated), raw)
  }

  /** `auth` as the routing component computes it from the resolver's state:
      only the token under the default name is read. */
  function SessionAuth(s: Auth.Session): (auth: Value)
    ensures auth == Null || auth == Bool(false) || auth.Str?
    ensures Truthy(auth) <==>
      s.flag == Auth.Authenticated && Auth.AccessTokenName in s.storage && s.storage[Auth.AccessTokenName] != ""
  {
    DeriveAuth(s.flag, Auth.GetItem(s.storage, Auth.AccessTokenName))
  }

  /** What a route renders. */
  datatype Element = LoginPage(auth: Value) | Redirect(to: string) | DashboardPage(auth: Value) | NoMatch

  /** The `<Routes>` table: `/` shows the login page unless `auth` is truthy,
      in which case it redirects to the dashboard; `/dashboard` always shows
      the dashboard. */
  function RouteElement(path: string, auth: Value): (e: Element)
    ensures path == Home ==> (e == LoginPage(auth) <==> !Truthy(auth))
    ensures path == Home ==> (e == Redirect(Dashboard) <==> Truthy(auth))
    ensures path == Dashboard ==> e == DashboardPage(auth)
    ensures e.Redirect? ==> path == Home && e.to == Dashboard
    ensures path != Home && path != Dashboard ==> e == NoMatch
  {
    if path == Home then
      if !Truthy(auth) then LoginPage(auth) else Redirect(Dashboard)
    else if path == Dashboard then DashboardPage(auth)
    else NoMatch
  }

  /** A token stored only under a dataset-scoped key does not make `auth` truthy. */
  lemma DatasetTokenDoesNotAuthenticate(s: Auth.Session, res: Auth.AuthResponse)
    requires Auth.IsDatasetGrant(res.scope)
    requires Auth.AccessTokenName !in s.storage
    ensures Auth.AfterSuccess(s, Some(res)).flag == Auth.Authenticated
    ensures !Truthy(SessionAuth(Auth.AfterSuccess(s, Some(res))))
  {
    Auth.KeyIsDefaultOrScoped(res.scope);
  }

  /** A successful resolution with a non-dataset grant and a non-empty token
      makes `auth` that token, so `/` redirects to the dashboard. */
  lemma DefaultTokenAuthenticates(s: Auth.Session, res: Auth.AuthResponse, token: string)
    requires !Auth.IsDatasetGrant(res.scope)
    requires res.accessToken == Some(token) && token != ""
    ensures SessionAuth(Auth.AfterSuccess(s, Some(res))) == Str(token)
    ensures RouteElement(Home, SessionAuth(Auth.AfterSuccess(s, Some(res)))) == Redirect(Dashboard)
  {
    Auth.KeyIsDefaultOrScoped(res.scope);
  }

  /** While the flag is still null, `/` shows the login page and never redirects. */
  lemma UnknownShowsLogin(s: Auth.Session)
    requires s.flag == Auth.Unknown
    ensures RouteElement(Home, SessionAuth(s)) == LoginPage(Null)
  {
  }

  /** The outcome of the SDK's `revokeAuth()`. */
  datatype Revocation = Revoked | RevokeFailed

  /** The router's current location. */
  class Router {
    var location: string

    constructor (location: string)
      ensures this.location == location
    {
      this.location := location;
    }

    /** The element rendered at the current location. */
    function Current(auth: Value): Element
      reads this
    {
      RouteElement(location, auth)
    }

    /** `navigate(to)` */
    method Navigate(to: string)
      modifies this
      ensures location == to
    {
      location := to;
    }

    /** `clearAuth`: whether revocation succeeds or fails, navigate to `/`. */
    method ClearAuth(revocation: Revocation)
      modifies this
      ensures location == Home
      ensures forall auth :: Current(auth) == RouteElement(Home, auth)
    {
      match revocation
      case Revoked => Navigate(Home);
      case RevokeFailed => Navigate(Home);
    }
  }
}
