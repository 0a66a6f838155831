/** The decision logic of the log-in screen: `handleLogin` and `handleLogout`. */
module LoginScreen {
  import opened Wrappers
  import opened JsText
  import opened Effects
  import Storage
  import Navigation

  const MissingCredentials: Alert := ErrorAlert("Please enter both email and password")

  /** The alert for a rejected password or an unknown user, whose
      affirmative button leads to the sign-up screen. */
  const OfferSignUp: Alert :=
    Alert("Login Failed", "Incorrect email or password. Do you want to create an account?", Some(Navigation.SignUp))

  /** The sign-in error codes that mean "wrong credentials". */
  predicate IsCredentialError(f: Failure) {
    f.code == "auth/user-not-found" || f.code == "auth/wrong-password"
  }

  /** The alert for a failed sign-in: wrong credentials offer sign-up, any
      other error shows its own message. */
  function LoginFailureAlert(f: Failure): (a: Alert)
    ensures a.title == "Login Failed"
    ensures a.confirmRoute.Some? <==> IsCredentialError(f)
    ensures a.confirmRoute.Some? ==> a == OfferSignUp
    ensures a.confirmRoute.None? ==> a.message == f.message
  {
    if IsCredentialError(f) then OfferSignUp else Alert("Login Failed", f.message, None)
  }

  /** The accepted path of `handleLogin`: the untrimmed credentials are sent;
      a signed-in user's uid is stored as the token and their profile record
      replaces the cached user data, then the screen goes `Home`. */
  function SignIn(email: string, password: string, reply: AuthReply): (r: Outcome)
    ensures r.requests != [] && r.requests[0] == SignInRequest(email, password)
    ensures reply.Authenticated? ==>
      && r.requests == [SignInRequest(email, password)] + SessionWrites(reply.user)
      && r.route == Some(Navigation.Home) && r.alerts == []
    ensures reply.AuthFailed? ==>
      r.requests == [SignInRequest(email, password)] && r.alerts == [LoginFailureAlert(reply.failure)] && r.route.None?
    ensures !HasWrite(r.requests)
  {
    match reply
    case Authenticated(user) =>
      var requests := [SignInRequest(email, password)] + SessionWrites(user);
      assert forall k :: 0 <= k < |requests| ==> !IsWrite(requests[k]);
      Outcome(requests, [], Some(Navigation.Home))
    case AuthFailed(f) =>
      var requests := [SignInRequest(email, password)];
      assert !IsWrite(requests[0]);
      Outcome(requests, [LoginFailureAlert(f)], None)
  }

  /** `handleLogin`: blank email or password (after trimming) is refused
      before anything is sent; otherwise the sign-in goes ahead. */
  function HandleLogin(email: string, password: string, reply: AuthReply): (r: Outcome)
    ensures r.requests == [] <==> IsBlank(email) || IsBlank(password)
    ensures r.requests == [] ==> r == Outcome([], [MissingCredentials], None)
    ensures r.requests != [] ==> r == SignIn(email, password, reply)
  {
    if IsBlank(email) || IsBlank(password) then
      Outcome([], [MissingCredentials], None)
    else
      SignIn(email, password, reply)
  }

  /** The storage writes after a successful sign-in, in issue order. */
  function SessionWrites(user: User): seq<Request> {
    var ops := SessionOps(user);
    [StorageRequest(ops[0]), StorageRequest(ops[1]), StorageRequest(ops[2])]
  }

  /** What a log-in attempt leaves in device storage: nothing changes when it
      is refused or the sign-in fails; on success the token is the user's
      uid, the user data holds their email, and no other key changes. */
  lemma LoginStorageEffect(email: string, password: string, reply: AuthReply, store: Storage.Store)
    ensures var after := StorageAfter(store, HandleLogin(email, password, reply).requests);
      IsBlank(email) || IsBlank(password) || reply.AuthFailed? ==> after == store
    ensures var after := StorageAfter(store, HandleLogin(email, password, reply).requests);
      !IsBlank(email) && !IsBlank(password) && reply.Authenticated? ==>
        && Storage.GetItem(after, Storage.TokenKey) == Some(Storage.Text(reply.user.uid))
        && Storage.GetItem(after, Storage.UserDataKey) == Some(Storage.UserData("User", reply.user.email))
        && forall k :: k != Storage.TokenKey && k != Storage.UserDataKey ==> Storage.GetItem(after, k) == Storage.GetItem(store, k)
  {
    var requests := HandleLogin(email, password, reply).requests;
    if IsBlank(email) || IsBlank(password) {
      assert requests == [];
    } else {
      assert requests == SignIn(email, password, reply).requests;
      SignInStorageEffect(email, password, reply, store);
    }
  }

  /** The storage effect of the accepted path of `handleLogin`. */
  lemma SignInStorageEffect(email: string, password: string, reply: AuthReply, store: Storage.Store)
    ensures var after := StorageAfter(store, SignIn(email, password, reply).requests);
      reply.AuthFailed? ==> after == store
    ensures var after := StorageAfter(store, SignIn(email, password, reply).requests);
      reply.Authenticated? ==>
        && Storage.GetItem(after, Storage.TokenKey) == Some(Storage.Text(reply.user.uid))
        && Storage.GetItem(after, Storage.UserDataKey) == Some(Storage.UserData("User", reply.user.email))
        && forall k :: k != Storage.TokenKey && k != Storage.UserDataKey ==> Storage.GetItem(after, k) == Storage.GetItem(store, k)
  {
    match reply
    case Authenticated(user) =>
      SessionWritesStore(email, password, user, store);
      SessionOpsEffect(user, store);
    case AuthFailed(_) =>
      var requests := SignIn(email, password, reply).requests;
      assert requests[1..] == [];
      assert StorageOps(requests) == [];
  }

  /** The storage operations after a successful sign-in: the uid becomes
      the token and the cached user data is replaced. */
  function SessionOps(user: User): (ops: seq<Storage.Op>)
    ensures |ops| == 3
  {
    [ Storage.SetItem(Storage.TokenKey, Storage.Text(user.uid)),
      Storage.RemoveItem(Storage.UserDataKey),
      Storage.SetItem(Storage.UserDataKey, Storage.UserData("User", user.email)) ]
  }

  lemma SessionOpsEffect(user: User, store: Storage.Store)
    ensures var ops := SessionOps(user);
      var after := Storage.Apply(Storage.Apply(Storage.Apply(store, ops[0]), ops[1]), ops[2]);
      && Storage.GetItem(after, Storage.TokenKey) == Some(Storage.Text(user.uid))
      && Storage.GetItem(after, Storage.UserDataKey) == Some(Storage.UserData("User", user.email))
      && forall k :: k != Storage.TokenKey && k != Storage.UserDataKey ==> Storage.GetItem(after, k) == Storage.GetItem(store, k)
  {
    var ops := SessionOps(user);
    var s1 := Storage.Apply(store, ops[0]);
    var s2 := Storage.Apply(s1, ops[1]);
    assert Storage.GetItem(s2, Storage.TokenKey) == Some(Storage.Text(user.uid));
  }

  lemma SessionWritesStore(email: string, password: string, user: User, store: Storage.Store)
    ensures var ops := SessionOps(user);
      StorageAfter(store, [SignInRequest(email, password)] + SessionWrites(user))
        == Storage.Apply(Storage.Apply(Storage.Apply(store, ops[0]), ops[1]), ops[2])
  {
    var requests := [SignInRequest(email, password)] + SessionWrites(user);
    var writes := SessionWrites(user);
    var ops := SessionOps(user);
    StorageOpsOfWrites(requests, writes, ops);
    ApplyThree(store, ops);
  }

  lemma StorageOpsOfWrites(requests: seq<Request>, writes: seq<Request>, ops: seq<Storage.Op>)
    requires |writes| == 3 && forall k :: 0 <= k < 3 ==> writes[k].StorageRequest?
    requires |requests| == 4 && !requests[0].StorageRequest? && requests[1..] == writes
    requires ops == [writes[0].op, writes[1].op, writes[2].op]
    ensures StorageOps(requests) == ops
  {
    assert StorageOps(requests) == StorageOps(writes);
    assert writes[1..][1..] == [writes[2]];
    assert [writes[2]][1..] == [];
    assert StorageOps([writes[2]]) == [writes[2].op];
    assert StorageOps(writes[1..]) == [writes[1].op, writes[2].op];
    assert StorageOps(writes) == [writes[0].op] + StorageOps(writes[1..]);
  }

  lemma ApplyThree(store: Storage.Store, ops: seq<Storage.Op>)
    requires |ops| == 3
    ensures Storage.ApplyAll(store, ops) == Storage.Apply(Storage.Apply(Storage.Apply(store, ops[0]), ops[1]), ops[2])
  {
    var s1 := Storage.Apply(store, ops[0]);
    var s2 := Storage.Apply(s1, ops[1]);
    assert ops[1..][1..] == [ops[2]];
    assert [ops[2]][1..] == [];
    assert Storage.ApplyAll(s2, [ops[2]]) == Storage.ApplyAll(Storage.Apply(s2, ops[2]), []);
    assert Storage.ApplyAll(s1, ops[1..]) == Storage.ApplyAll(s2, [ops[2]]);
  }

  /** `handleLogout`: sign out of the provider, then clear device storage and
      go to `Login`; a failure is shown and storage is left alone. */
  function HandleLogout(reply: Reply): (r: Outcome)
    ensures r.requests != [] && r.requests[0] == SignOutRequest
    ensures reply.Done? ==>
      r.requests == [SignOutRequest, StorageRequest(Storage.Clear)] && r.route == Some(Navigation.Login) && r.alerts == []
    ensures reply.Failed? ==>
      r.requests == [SignOutRequest] && r.alerts == [Alert("Logout Failed", reply.failure.message, None)] && r.route.None?
    ensures !HasWrite(r.requests)
  {
    match reply
    case Done => Outcome([SignOutRequest, StorageRequest(Storage.Clear)], [], Some(Navigation.Login))
    case Failed(f) => Outcome([SignOutRequest], [Alert("Logout Failed", f.message, None)], None)
  }

  /** A successful logout leaves no key in device storage. */
  lemma LogoutClearsStorage(store: Storage.Store)
    ensures forall k :: Storage.GetItem(StorageAfter(store, HandleLogout(Done).requests), k) == None
  {
    var requests := HandleLogout(Done).requests;
    assert requests[1..] == [StorageRequest(Storage.Clear)];
    assert requests[1..][1..] == [];
    assert StorageOps(requests) == [Storage.Clear];
    assert [Storage.Clear][1..] == [];
    assert StorageAfter(store, requests) == Storage.ApplyAll(Storage.Apply(store, Storage.Clear), []);
  }
}
