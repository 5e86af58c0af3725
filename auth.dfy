/** The admin sign-in state shared by contexts/AdminAuthContext.tsx and
    contexts/AuthContext.tsx, which hold the same code: a provider with an
    authenticated flag and a loading flag, a password check, and a session
    flag kept in the browser's session storage under one key. */
module Auth {
  import opened Types

  const DefaultPassword: string := "admin123"
  const AuthKey: string := "admin_authenticated"

  /** The password: the environment's value, or the default when the
      variable is unset or empty. */
  function AdminPassword(env: Option<string>): (p: string)
    ensures p != ""
    ensures env.Some? && env.value != "" ==> p == env.value
    ensures env.None? || env.value == "" ==> p == DefaultPassword
  {
    if env.Some? && env.value != "" then env.value else DefaultPassword
  }

  /** Whether the stored session flag restores a sign-in: only with a
      browser window and only when the flag is exactly "true". */
  predicate Restores(hasWindow: bool, entries: map<string, string>) {
    hasWindow && AuthKey in entries && entries[AuthKey] == "true"
  }

  /** The browser's session storage, one tab's string entries. */
  class SessionStorage {
    var entries: map<string, string>

    constructor (entries: map<string, string>)
      ensures this.entries == entries
    {
      this.entries := entries;
    }
  }

  class AuthProvider {
    const password: string
    const hasWindow: bool
    const session: SessionStorage
    var isAuthenticated: bool
    var isLoading: bool

    /** A provider as first rendered: signed out and loading. */
    constructor (password: string, hasWindow: bool, session: SessionStorage)
      ensures this.password == password && this.hasWindow == hasWindow && this.session == session
      ensures !isAuthenticated && isLoading
    {
      this.password := password;
      this.hasWindow := hasWindow;
      this.session := session;
      isAuthenticated := false;
      isLoading := true;
    }

    /** The mount effect: a stored flag signs in, and loading ends either way. */
    method Mount()
      modifies this`isAuthenticated, this`isLoading
      ensures !isLoading
      ensures isAuthenticated <==> old(isAuthenticated) || Restores(hasWindow, session.entries)
    {
      if hasWindow {
        var stored := if AuthKey in session.entries then Some(session.entries[AuthKey]) else None;
        if stored == Some("true") {
          isAuthenticated := true;
        }
      }
      isLoading := false;
    }

    /** login: succeeds exactly on the password, then signs in and stores
      the flag; a wrong password changes nothing. */
    method Login(attempt: string) returns (ok: bool)
      modifies this`isAuthenticated, session`entries
      ensures ok <==> attempt == password
      ensures ok ==> isAuthenticated
      ensures ok && hasWindow ==> session.entries == old(session.entries)[AuthKey := "true"]
      ensures !ok || !hasWindow ==> session.entries == old(session.entries)
      ensures !ok ==> isAuthenticated == old(isAuthenticated)
    {
      if attempt == password {
        isAuthenticated := true;
        if hasWindow {
          session.entries := session.entries[AuthKey := "true"];
        }
        return true;
      }
      return false;
    }

    /** logout: signs out and removes the flag. */
    method Logout()
      modifies this`isAuthenticated, session`entries
      ensures !isAuthenticated
      ensures session.entries == if hasWindow then old(session.entries) - {AuthKey} else old(session.entries)
    {
      isAuthenticated := false;
      if hasWindow {
        session.entries := session.entries - {AuthKey};
      }
    }
  }

  /** A mounted fresh provider is signed in exactly when the flag restores. */
  method MountFresh(password: string, hasWindow: bool, session: SessionStorage) returns (p: AuthProvider)
    ensures fresh(p) && p.session == session && p.hasWindow == hasWindow && p.password == password
    ensures !p.isLoading
    ensures p.isAuthenticated <==> Restores(hasWindow, session.entries)
  {
    p := new AuthProvider(password, hasWindow, session);
    p.Mount();
  }

  /** Both contexts use the same key: a sign-in through the admin provider
      is restored by an AuthProvider mounted later in the same tab, and a
      sign-out through it is not. */
  method RestoreAcrossProviders(env: Option<string>, session: SessionStorage)
    returns (restoredAfterLogin: bool, restoredAfterLogout: bool)
    modifies session
    ensures restoredAfterLogin && !restoredAfterLogout
  {
    var admin := MountFresh(AdminPassword(env), true, session);
    var ok := admin.Login(AdminPassword(env));
    var other := MountFresh(AdminPassword(env), true, session);
    restoredAfterLogin := other.isAuthenticated;
    admin.Logout();
    var third := MountFresh(AdminPassword(env), true, session);
    restoredAfterLogout := third.isAuthenticated;
  }

  /** A wrong password never signs in a provider that was signed out, and
      leaves the session storage as it was. */
  method WrongPasswordKeepsSignedOut(env: Option<string>, attempt: string, session: SessionStorage)
    returns (ok: bool, signedIn: bool)
    requires attempt != AdminPassword(env)
    requires !Restores(true, session.entries)
    modifies session
    ensures !ok && !signedIn
    ensures session.entries == old(session.entries)
  {
    var p := MountFresh(AdminPassword(env), true, session);
    ok := p.Login(attempt);
    signedIn := p.isAuthenticated;
  }
}
