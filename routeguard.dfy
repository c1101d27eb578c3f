/** The route guard that wraps every page: it fetches the access token and the
    user's role, then either sends the browser to the Kakao login page, navigates
    inside the app, or marks the user authenticated. The two fetches are inputs. */
module RouteGuard {
  import opened Common

  /** The result of an awaited call: it threw, or it produced a value. */
  datatype Fetch<T> = Threw | Got(value: T)

  datatype Outcome =
    | ToLogin                // `window.location.href = KAKAO_LOGIN_URL`
    | NavigateTo(path: string)
    | Authenticated          // `setIsAuthenticated(true)`

  const RoleSelectionPaths: seq<string> := ["/role", "/email-verification", "/verification-success"]

  /** `checkAuth`: `token` is what `getAccessToken()` gave, `role` is
      `userInfo?.role` from `getUserInfoApiCall()` (None for a null user or a null
      role); the role is fetched only after a truthy token. */
  function Decide(token: Fetch<Option<string>>, role: Fetch<Option<string>>, pathname: string): (r: Outcome)
    ensures r.NavigateTo? ==> r.path == "/home" || r.path == "/role"
    ensures !r.ToLogin? ==> token.Got? && Truthy(token.value) && role.Got?
  {
    if token.Threw? || !Truthy(token.value) then ToLogin
    else if role.Threw? then ToLogin
    else
      var hasRole := Truthy(role.value);
      var selecting := pathname in RoleSelectionPaths;
      if hasRole && selecting then NavigateTo("/home")
      else if !hasRole && pathname == "/home" then NavigateTo("/role")
      else if selecting then Authenticated
      else if !hasRole then NavigateTo("/role")
      else Authenticated
  }

  /** Each branch of the decision, in the order the checks run. */
  lemma DecideOutcome(token: Fetch<Option<string>>, role: Fetch<Option<string>>, pathname: string)
    ensures token.Threw? || (token.Got? && !Truthy(token.value)) ==> Decide(token, role, pathname) == ToLogin
    ensures token.Got? && Truthy(token.value) && role.Threw? ==> Decide(token, role, pathname) == ToLogin
    ensures token.Got? && Truthy(token.value) && role.Got? ==>
      var hasRole := Truthy(role.value);
      && (hasRole && pathname in RoleSelectionPaths ==> Decide(token, role, pathname) == NavigateTo("/home"))
      && (!hasRole && pathname == "/home" ==> Decide(token, role, pathname) == NavigateTo("/role"))
      && (!hasRole && pathname in RoleSelectionPaths ==> Decide(token, role, pathname) == Authenticated)
      && (!hasRole && pathname !in RoleSelectionPaths ==> Decide(token, role, pathname) == NavigateTo("/role"))
      && (hasRole && pathname !in RoleSelectionPaths ==> Decide(token, role, pathname) == Authenticated)
  {
  }

  /** A page is let through exactly when both fetches succeeded with a truthy token
      and either the page is a role-selection page and the user has no role yet, or
      it is another page and the user has one. */
  lemma AuthenticatedIff(token: Fetch<Option<string>>, role: Fetch<Option<string>>, pathname: string)
    ensures Decide(token, role, pathname) == Authenticated <==>
      && token.Got? && Truthy(token.value) && role.Got?
      && (pathname in RoleSelectionPaths <==> !Truthy(role.value))
  {
    if token.Got? && Truthy(token.value) && role.Got? && pathname == "/home" {
      assert pathname !in RoleSelectionPaths;
    }
  }

  /** The only in-app destinations are `/home` and `/role`, and `/home` is never
      sent to a user without a role. */
  lemma NavigationTargets(token: Fetch<Option<string>>, role: Fetch<Option<string>>, pathname: string)
    ensures Decide(token, role, pathname).NavigateTo? ==>
      Decide(token, role, pathname).path in {"/home", "/role"}
    ensures Decide(token, role, pathname) == NavigateTo("/home") ==> role.Got? && Truthy(role.value)
  {
  }

  /** The component's state: `isAuthenticated` and `isLoading`. */
  class Guard {
    var authenticated: bool
    var loading: bool

    constructor()
      ensures !authenticated && loading
    {
      authenticated := false;
      loading := true;
    }

    /** Children are rendered once loading has finished and the user is
        authenticated. */
    predicate Renders()
      reads this
    {
      !loading && authenticated
    }

    /** One run of the effect. Every path, the early returns included, passes
        through `finally`, so loading always ends; `isAuthenticated` is only ever
        set to true, so a flag raised by an earlier run survives a later redirect. */
    method CheckAuth(token: Fetch<Option<string>>, role: Fetch<Option<string>>, pathname: string)
      returns (o: Outcome)
      modifies this
      ensures o == Decide(token, role, pathname)
      ensures authenticated == (old(authenticated) || o == Authenticated)
      ensures !loading
      ensures o == Authenticated ==> Renders()
    {
      if token.Threw? {
        o := ToLogin;
      } else if !Truthy(token.value) {
        o := ToLogin;
      } else if role.Threw? {
        o := ToLogin;
      } else {
        var hasRole := role.value.Some? && role.value.value != "";
        var selecting := pathname == "/role" || pathname == "/email-verification"
                         || pathname == "/verification-success";
        if hasRole && selecting {
          o := NavigateTo("/home");
        } else if !hasRole && pathname == "/home" {
          o := NavigateTo("/role");
        } else if selecting {
          authenticated := true;
          o := Authenticated;
        } else if !hasRole {
          o := NavigateTo("/role");
        } else {
          authenticated := true;
          o := Authenticated;
        }
      }
      loading := false;
    }
  }
}
