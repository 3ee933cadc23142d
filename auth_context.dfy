/**
 * The authentication session (src/Context/AuthContext.tsx): the provider's state and the
 * browser's key/value storage, which keeps the token and the user name across page loads.
 */
module AuthContext {
  import opened Wrappers
  import Retry

  const TokenKey := "jwtToken"
  const UsernameKey := "username"

  /** `localStorage.getItem(key)` read with JavaScript truthiness: a missing or empty value is unusable. */
  predicate Stored(storage: map<string, string>, key: string) {
    key in storage && storage[key] != ""
  }

  class AuthProvider {
    var isAuthenticated: bool
    var token: Option<string>
    var username: Option<string>
    var isAuthLoading: bool
    /** localStorage. */
    var storage: map<string, string>

    /**
     * The session's rule: it is authenticated exactly when a token is known, a token and a user
     * name are known together, and an authenticated session's token and user name are the ones
     * in storage.
     */
    predicate Valid()
      reads this
    {
      && (isAuthenticated <==> token.Some?)
      && (token.Some? <==> username.Some?)
      && (isAuthenticated ==>
            && TokenKey in storage && storage[TokenKey] == token.value
            && UsernameKey in storage && storage[UsernameKey] == username.value)
    }

    /** The provider's first render: nothing known yet, still loading. */
    constructor (initialStorage: map<string, string>)
      ensures Valid()
      ensures !isAuthenticated && token == None && username == None && isAuthLoading
      ensures storage == initialStorage
    {
      isAuthenticated := false;
      token := None;
      username := None;
      isAuthLoading := true;
      storage := initialStorage;
    }

    /**
     * initializeAuth: restores the session when both stored values are present and non-empty,
     * leaves it unchanged otherwise, and always ends loading. Storage is only read.
     */
    method InitializeAuth()
      requires Valid()
      modifies this
      ensures Valid()
      ensures !isAuthLoading && storage == old(storage)
      ensures Stored(storage, TokenKey) && Stored(storage, UsernameKey) ==>
                && isAuthenticated
                && token == Some(storage[TokenKey])
                && username == Some(storage[UsernameKey])
      ensures !(Stored(storage, TokenKey) && Stored(storage, UsernameKey)) ==>
                && isAuthenticated == old(isAuthenticated)
                && token == old(token) && username == old(username)
    {
      var storedToken := if TokenKey in storage then Some(storage[TokenKey]) else None;
      var storedUsername := if UsernameKey in storage then Some(storage[UsernameKey]) else None;
      if storedToken.Some? && storedToken.value != "" && storedUsername.Some? && storedUsername.value != "" {
        token := storedToken;
        username := storedUsername;
        isAuthenticated := true;
      }
      isAuthLoading := false;
    }

    /** login: stores both values and takes them as the session's token and user name. */
    method Login(newToken: string, newUsername: string)
      requires Valid()
      modifies this
      ensures Valid()
      ensures storage == old(storage)[TokenKey := newToken][UsernameKey := newUsername]
      ensures isAuthenticated && token == Some(newToken) && username == Some(newUsername)
      ensures isAuthLoading == old(isAuthLoading)
    {
      storage := storage[TokenKey := newToken][UsernameKey := newUsername];
      token := Some(newToken);
      username := Some(newUsername);
      isAuthenticated := true;
    }

    /** logout: removes both values from storage and forgets the session; other keys stay. */
    method Logout()
      requires Valid()
      modifies this
      ensures Valid()
      ensures storage == old(storage) - {TokenKey, UsernameKey}
      ensures !isAuthenticated && token == None && username == None
      ensures isAuthLoading == old(isAuthLoading)
    {
      storage := storage - {TokenKey, UsernameKey};
      token := None;
      username := None;
      isAuthenticated := false;
    }

    /** What useAuthFetchRetry reads from the context: a token is offered exactly when authenticated. */
    function View(): (view: Retry.AuthView)
      reads this
      requires Valid()
      ensures view.token.Some? <==> isAuthenticated
      ensures view.loading == isAuthLoading
    {
      Retry.AuthView(isAuthLoading, token)
    }
  }

  /**
   * A whole page load: the provider starts, restores the session from storage, and the user may
   * log in and out afterwards; a stored session survives the reload exactly when both values are
   * non-empty.
   */
  method Reload(stored: map<string, string>) returns (session: AuthProvider)
    ensures fresh(session) && session.Valid()
    ensures !session.isAuthLoading && session.storage == stored
    ensures session.isAuthenticated <==> Stored(stored, TokenKey) && Stored(stored, UsernameKey)
  {
    session := new AuthProvider(stored);
    session.InitializeAuth();
  }

  /** Logging in and reloading the page restores the same session, when both values are non-empty. */
  method LoginSurvivesReload(stored: map<string, string>, t: string, u: string)
    returns (before: AuthProvider, after: AuthProvider)
    requires t != "" && u != ""
    ensures fresh(before) && fresh(after)
    ensures after.isAuthenticated && after.token == before.token == Some(t) && after.username == before.username == Some(u)
  {
    before := Reload(stored);
    before.Login(t, u);
    after := Reload(before.storage);
  }

  /** After logging out, a reload finds no session. */
  method LogoutSurvivesReload(stored: map<string, string>) returns (after: AuthProvider)
    ensures fresh(after) && !after.isAuthenticated && after.token == None
  {
    var before := Reload(stored);
    before.Logout();
    after := Reload(before.storage);
  }
}
