/** The authentication provider (components/providers/AuthProvider.tsx): the
    signed-in user and the loading flag it keeps, the route guard it runs on
    every change, and the redirects it issues on auth events and sign-out.
    Redirects (`router.push`) are returned values; the Supabase calls enter as
    their outcomes. */
module AuthProvider {
  import opened Common

  /** The part of a Supabase user the app reads. */
  datatype AuthUser = AuthUser(id: string, email: Option<string>, displayName: Option<string>)

  const ProtectedRoutes: seq<string> := ["/"]
  const AuthRoutes: seq<string> := ["/login", "/signup"]

  /** The route-protection effect: where to send the browser, if anywhere. */
  function GuardRedirect(loading: bool, pathname: string, user: Option<AuthUser>): (r: Option<string>)
    ensures loading ==> r.None?
    ensures r == Some("/login") <==> !loading && pathname == "/" && user.None?
    ensures r == Some("/") <==> !loading && pathname in {"/login", "/signup"} && user.Some?
    ensures r.Some? ==> r.value in {"/login", "/"}
  {
    if loading then None
    else if pathname in ProtectedRoutes && user.None? then Some("/login")
    else if pathname in AuthRoutes && user.Some? then Some("/")
    else None
  }

  /** Every other combination of path and user stays where it is. */
  lemma GuardStays(loading: bool, pathname: string, user: Option<AuthUser>)
    requires !(pathname == "/" && user.None?) && !(pathname in {"/login", "/signup"} && user.Some?)
    ensures GuardRedirect(loading, pathname, user).None?
  {
  }

  /** A page the guard sends the browser to is one the guard accepts. */
  lemma GuardSettles(pathname: string, user: Option<AuthUser>)
    requires GuardRedirect(false, pathname, user).Some?
    ensures GuardRedirect(false, GuardRedirect(false, pathname, user).value, user).None?
  {
  }

  /** The routing rule of the `onAuthStateChange` listener; `sessionUser` is
      `session?.user`. */
  function EventRedirect(event: string, pathname: string, sessionUser: Option<AuthUser>): (r: Option<string>)
    ensures r == Some("/login") <==> event == "SIGNED_OUT" && pathname == "/"
    ensures r == Some("/") <==> event == "SIGNED_IN" && sessionUser.Some? && pathname in {"/login", "/signup"}
    ensures r.Some? ==> r.value in {"/login", "/"}
  {
    if event == "SIGNED_OUT" then
      if pathname in ProtectedRoutes then Some("/login") else None
    else if event == "SIGNED_IN" && sessionUser.Some? then
      if pathname in AuthRoutes then Some("/") else None
    else None
  }

  /** The listener and the guard agree: whenever the listener redirects (and a
      sign-out event carries no user), the guard run on the state the listener
      leaves behind sends the browser to the same place. */
  lemma EventAgreesWithGuard(event: string, pathname: string, sessionUser: Option<AuthUser>)
    requires EventRedirect(event, pathname, sessionUser).Some?
    requires event == "SIGNED_OUT" ==> sessionUser.None?
    ensures GuardRedirect(false, pathname, sessionUser) == EventRedirect(event, pathname, sessionUser)
  {
  }

  class AuthState {
    var user: Option<AuthUser>
    var loading: bool

    constructor()
      ensures user.None? && loading
    {
      user := None;
      loading := true;
    }

    /** `checkUser`: `fetched` is the user `getUser` returned, or `None` when
        the call threw; loading ends either way. */
    method CheckUser(fetched: Option<Option<AuthUser>>)
      modifies this
      ensures fetched.Some? ==> user == fetched.value
      ensures fetched.None? ==> user == old(user)
      ensures !loading
    {
      if fetched.Some? {
        user := fetched.value;
      }
      loading := false;
    }

    /** The `onAuthStateChange` listener. */
    method OnAuthStateChange(event: string, sessionUser: Option<AuthUser>, pathname: string)
      returns (redirect: Option<string>)
      modifies this
      ensures user == sessionUser && !loading
      ensures redirect == EventRedirect(event, pathname, sessionUser)
    {
      user := sessionUser;
      loading := false;
      if event == "SIGNED_OUT" {
        if pathname in ProtectedRoutes {
          redirect := Some("/login");
        } else {
          redirect := None;
        }
      } else if event == "SIGNED_IN" && sessionUser.Some? {
        if pathname in AuthRoutes {
          redirect := Some("/");
        } else {
          redirect := None;
        }
      } else {
        redirect := None;
      }
    }

    /** `signOut`: an error returned by the call is only logged, so the user is
        cleared and the browser sent to /login all the same; only a thrown
        error leaves everything as it was. */
    method SignOut(returnedError: bool, threw: bool) returns (redirect: Option<string>)
      modifies this
      ensures !threw ==> user.None? && redirect == Some("/login")
      ensures threw ==> user == old(user) && redirect.None?
      ensures loading == old(loading)
    {
      if threw {
        redirect := None;
        return;
      }
      user := None;
      redirect := Some("/login");
    }
  }
}
