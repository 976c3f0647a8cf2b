/** The authentication helpers the router and the views call. They consult
    the application's single store; here the store (or its state) is a
    parameter. */
module Auth {
  import opened Js
  import opened Session
  import Actions
  import Store

  /** `isAuthenticated()`: the flag is set and a user is present. */
  function IsAuthenticated(s: StoreState): (r: bool)
    ensures r <==> s.isAuthenticated && s.user.Some?
    ensures AuthConsistent(s) ==> (r <==> s.isAuthenticated)
  {
    s.isAuthenticated && s.user.Some?
  }

  /** `getAuthToken()`: the stored token; in a consistent state it is `null`
      exactly when nobody is signed in, and truthy otherwise. */
  function GetAuthToken(s: StoreState): (r: Value)
    ensures r == s.authToken
    ensures AuthConsistent(s) ==> (r == Null <==> !IsAuthenticated(s))
    ensures AuthConsistent(s) && IsAuthenticated(s) ==> Truthy(r)
  {
    s.authToken
  }

  /** `logout()`: dispatches the store's `logout` action. */
  method Logout(store: Store.SessionStore)
    modifies store
    ensures store.State() == Actions.Apply(old(store.State()), Actions.Logout)
    ensures !IsAuthenticated(store.State()) && GetAuthToken(store.State()) == Null
  {
    store.Logout();
  }

  /** In every state the store can reach from its creation, whatever the
      actions, the helper's answer is the flag itself and the token is
      `null` exactly when the helper says nobody is signed in. */
  lemma ReachableStatesAgree(startTime: int, actions: seq<Actions.Action>)
    ensures var s := Actions.Run(Initial(startTime), actions);
      IsAuthenticated(s) == s.isAuthenticated &&
      (GetAuthToken(s) == Null <==> !IsAuthenticated(s))
  {
    Actions.RunKeepsAuthConsistent(Initial(startTime), actions);
  }

  /** A successful login signs in; a logout after it signs out again. */
  lemma LoginThenLogout(s: StoreState, identifier: string, password: string, now: nat, tokenNow: nat)
    requires !Actions.LoginRejected(identifier, password)
    ensures var s1 := Actions.Apply(s, Actions.Login(identifier, password, now, tokenNow));
      IsAuthenticated(s1) && GetAuthToken(s1) == Actions.LoginUser(identifier, now, tokenNow)["authToken"] &&
      !IsAuthenticated(Actions.Apply(s1, Actions.Logout)) &&
      GetAuthToken(Actions.Apply(s1, Actions.Logout)) == Null
  {
  }
}
