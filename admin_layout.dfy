/** The admin route guard (app/admin/layout.tsx): from the loading flag, the
    authenticated flag and the path, what the layout renders and whether it
    sends the browser to the login page. */
module AdminLayout {
  import opened Types
  import Auth

  const LoginPath: string := "/admin/login"

  datatype Screen = LoadingScreen | BareChildren | Blank | NavbarWithChildren

  datatype Decision = Decision(screen: Screen, redirectToLogin: bool)

  /** The render branch and the redirect effect of AdminLayoutContent. */
  function Decide(isLoading: bool, isAuthenticated: bool, pathname: string): (d: Decision)
    ensures d.redirectToLogin <==> pathname != LoginPath && !isLoading && !isAuthenticated
    ensures isLoading ==> d.screen == LoadingScreen
    ensures !isLoading && pathname == LoginPath ==> d.screen == BareChildren
    ensures !isLoading && pathname != LoginPath && !isAuthenticated ==> d.screen == Blank
    ensures !isLoading && pathname != LoginPath && isAuthenticated ==> d.screen == NavbarWithChildren
  {
    var redirect := if pathname == LoginPath then false else !isLoading && !isAuthenticated;
    var screen :=
      if isLoading then LoadingScreen
      else if pathname == LoginPath then BareChildren
      else if !isAuthenticated then Blank
      else NavbarWithChildren;
    Decision(screen, redirect)
  }

  /** Protected pages are never rendered to a signed-out visitor: page
      content appears outside the login page only when signed in and loaded. */
  lemma ProtectedChildrenNeedSignIn(isLoading: bool, isAuthenticated: bool, pathname: string)
    ensures var d := Decide(isLoading, isAuthenticated, pathname);
      pathname != LoginPath && (d.screen == BareChildren || d.screen == NavbarWithChildren)
      ==> isAuthenticated && !isLoading
  {
  }

  /** The login page never redirects, and a redirect never coexists with
      rendered content. */
  lemma RedirectOnlyBlank(isLoading: bool, isAuthenticated: bool, pathname: string)
    ensures !Decide(isLoading, isAuthenticated, LoginPath).redirectToLogin
    ensures Decide(isLoading, isAuthenticated, pathname).redirectToLogin
            ==> Decide(isLoading, isAuthenticated, pathname).screen == Blank
  {
  }

  /** The guard once the admin provider has mounted: outside the login page
      the visitor is sent to log in exactly when no stored flag restored a
      sign-in, and otherwise sees the navbar and the page. */
  method GuardAfterMount(env: Option<string>, hasWindow: bool, session: Auth.SessionStorage, pathname: string)
    returns (d: Decision)
    requires pathname != LoginPath
    ensures d.redirectToLogin <==> !Auth.Restores(hasWindow, session.entries)
    ensures d.screen == (if Auth.Restores(hasWindow, session.entries) then NavbarWithChildren else Blank)
  {
    var provider := Auth.MountFresh(Auth.AdminPassword(env), hasWindow, session);
    d := Decide(provider.isLoading, provider.isAuthenticated, pathname);
  }
}
