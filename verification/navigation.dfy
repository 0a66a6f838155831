/** The session gate of the root stack navigator (`MyStack`): a state of
    (loading, authState, persisted storage), the three events that change it,
    and the render decision that picks which screens are registered. The two
    asynchronous sources — the one-shot read of the stored token and the
    provider's sign-in/sign-out stream — are modelled as an arbitrary
    sequence of events, which covers every order in which they can arrive. */
module Navigation {
  import opened Wrappers
  import opened JsText
  import Storage

  /** Route names. `Login` is the name two handlers navigate to; no
      navigator registers a screen under it. */
  datatype Route = Home | LoginScreen | SignUp | Login

  datatype Event =
    | TokenRead(token: Option<string>)   // `checkAuth` resumed with the value it read under "token"
    | SignedIn(uid: string)               // `onAuthStateChanged` with a user
    | SignedOut                           // `onAuthStateChanged` with no user

  datatype Session = Session(loading: bool, authState: Option<string>, store: Storage.Store)

  /** What `MyStack` renders: nothing while loading, otherwise a stack navigator. */
  datatype View = NoNavigator | Navigator(initialRoute: Route, screens: seq<Route>)

  /** The state on mount, over whatever the device has persisted. Nothing is
      rendered until the stored token has been read. */
  function Start(store: Storage.Store): (s: Session)
    ensures s.authState == None && s.store == store
    ensures Render(s) == NoNavigator
  {
    Session(true, None, store)
  }

  /** The auth state an event leaves behind, whatever it was before. */
  function AuthAfter(e: Event): Option<string> {
    match e
    case TokenRead(token) => token
    case SignedIn(uid) => Some(uid)
    case SignedOut => None
  }

  /** The persisted token a provider event leaves behind. */
  function PersistedAfter(e: Event): Option<Storage.Value>
    requires !e.TokenRead?
  {
    if e.SignedIn? then Some(Storage.Text(e.uid)) else None
  }

  /** One event. The stored-token read resolves loading; the provider events
      overwrite the auth state and the persisted token but leave loading alone;
      no event touches any storage key other than the token. */
  function Step(s: Session, e: Event): (t: Session)
    ensures t.authState == AuthAfter(e)
    ensures t.loading == (s.loading && !e.TokenRead?)
    ensures e.TokenRead? ==> t.store == s.store
    ensures !e.TokenRead? ==> Storage.GetItem(t.store, Storage.TokenKey) == PersistedAfter(e)
    ensures forall k :: k != Storage.TokenKey ==> Storage.GetItem(t.store, k) == Storage.GetItem(s.store, k)
  {
    match e
    case TokenRead(token) =>
      s.(authState := token, loading := false)
    case SignedIn(uid) =>
      s.(authState := Some(uid), store := Storage.Apply(s.store, Storage.SetItem(Storage.TokenKey, Storage.Text(uid))))
    case SignedOut =>
      s.(authState := None, store := Storage.Apply(s.store, Storage.RemoveItem(Storage.TokenKey)))
  }

  /** Events applied in arrival order. Once loading has been resolved no
      sequence of events makes it true again. */
  function Run(s: Session, events: seq<Event>): (t: Session)
    ensures !s.loading ==> !t.loading
    decreases |events|
  {
    if events == [] then s else Run(Step(s, events[0]), events[1..])
  }

  /** The screen groups of the navigator: signed in registers only `Home`,
      signed out registers exactly `LoginScreen` and `SignUp`; the initial
      route is always one of the registered screens. */
  function Render(s: Session): (v: View)
    ensures v.NoNavigator? <==> s.loading
    ensures v.Navigator? ==> v.initialRoute in v.screens && Login !in v.screens
    ensures v.Navigator? ==> v.initialRoute == (if Truthy(s.authState) then Home else LoginScreen)
    ensures v.Navigator? ==> |v.screens| == (if Truthy(s.authState) then 1 else 2)
    ensures v.Navigator? ==> (Home in v.screens <==> Truthy(s.authState))
    ensures v.Navigator? ==> (LoginScreen in v.screens <==> !Truthy(s.authState))
    ensures v.Navigator? ==> (SignUp in v.screens <==> !Truthy(s.authState))
  {
    if s.loading then NoNavigator
    else if Truthy(s.authState) then Navigator(Home, [Home])
    else Navigator(LoginScreen, [LoginScreen, SignUp])
  }

  /** Loading stays true exactly as long as no stored-token read has arrived. */
  lemma {:induction false} LoadingUntilTokenRead(s: Session, events: seq<Event>)
    ensures Run(s, events).loading <==> s.loading && forall k :: 0 <= k < |events| ==> !events[k].TokenRead?
    decreases |events|
  {
    if events != [] {
      LoadingUntilTokenRead(Step(s, events[0]), events[1..]);
      assert forall k :: 1 <= k < |events| ==> events[k] == events[1..][k - 1];
    }
  }

  /** Every event fully overwrites the auth state, so after a non-empty
      sequence it depends only on the last event, not on the start state. */
  lemma {:induction false} LastEventDecidesAuth(s: Session, events: seq<Event>)
    requires events != []
    ensures Run(s, events).authState == AuthAfter(events[|events| - 1])
    decreases |events|
  {
    if |events| > 1 {
      LastEventDecidesAuth(Step(s, events[0]), events[1..]);
    }
  }

  /** The persisted token after a sequence whose last provider event is at
      index `i`: that event's token. Stored-token reads never write it. */
  lemma {:induction false} LastProviderEventDecidesToken(s: Session, events: seq<Event>, i: nat)
    requires i < |events| && !events[i].TokenRead?
    requires forall k :: i < k < |events| ==> events[k].TokenRead?
    ensures Storage.GetItem(Run(s, events).store, Storage.TokenKey) == PersistedAfter(events[i])
    decreases |events|
  {
    if i > 0 {
      LastProviderEventDecidesToken(Step(s, events[0]), events[1..], i - 1);
    } else {
      ReadsKeepStore(Step(s, events[0]), events[1..]);
    }
  }

  /** A sequence of stored-token reads leaves the persisted storage untouched. */
  lemma {:induction false} ReadsKeepStore(s: Session, events: seq<Event>)
    requires forall k :: 0 <= k < |events| ==> events[k].TokenRead?
    ensures Run(s, events).store == s.store
    decreases |events|
  {
    if events != [] {
      ReadsKeepStore(Step(s, events[0]), events[1..]);
    }
  }

  /** A sign-in followed by a sign-out leaves the session signed out, with no
      persisted token, and a resolved gate shows the login group. */
  lemma SignInThenSignOut(s: Session, uid: string)
    ensures Run(s, [SignedIn(uid), SignedOut]).authState == None
    ensures Storage.GetItem(Run(s, [SignedIn(uid), SignedOut]).store, Storage.TokenKey) == None
    ensures !s.loading ==> Render(Run(s, [SignedIn(uid), SignedOut])) == Navigator(LoginScreen, [LoginScreen, SignUp])
  {
    var events := [SignedIn(uid), SignedOut];
    LastEventDecidesAuth(s, events);
    LastProviderEventDecidesToken(s, events, 1);
  }

  /** The token `checkAuth` reads back from a store: the text under "token", or `null`. */
  function StoredToken(store: Storage.Store): Option<string> {
    match Storage.GetItem(store, Storage.TokenKey)
    case Some(Text(t)) => Some(t)
    case _ => None
  }

  /** A cold start with nothing persisted and no provider event resolves to
      the login group once the stored token has been read. */
  lemma ColdStartShowsLogin(store: Storage.Store)
    requires Storage.TokenKey !in store
    ensures Render(Run(Start(store), [TokenRead(StoredToken(store))])) == Navigator(LoginScreen, [LoginScreen, SignUp])
  {
  }
}
