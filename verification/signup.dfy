/** The decision logic of the sign-up screen: `handleSignUp`. */
module SignUpScreen {
  import opened Wrappers
  import opened JsText
  import opened Effects
  import Navigation

  const PasswordMismatch: Alert := ErrorAlert("Passwords do not match")
  const MissingFields: Alert := ErrorAlert("Please fill in all fields")
  const AccountCreated: Alert := Alert("Success", "Account created successfully!", Some(Navigation.LoginScreen))

  /** The message for a failed account creation or profile write: the two
      known sign-up codes get fixed wording, any other error its own message. */
  function SignUpErrorMessage(f: Failure): (m: string)
    ensures f.code == "auth/email-already-in-use" ==> m == "That email address is already in use!"
    ensures f.code == "auth/invalid-email" ==> m == "That email address is invalid!"
    ensures f.code != "auth/email-already-in-use" && f.code != "auth/invalid-email" ==> m == f.message
  {
    if f.code == "auth/email-already-in-use" then "That email address is already in use!"
    else if f.code == "auth/invalid-email" then "That email address is invalid!"
    else f.message
  }

  /** The profile document written for a new account. */
  function ProfileFields(name: string, email: string): Fields {
    map["name" := Str(name), "email" := Str(email)]
  }

  /** Whether the form passes both local checks. */
  predicate Acceptable(name: string, email: string, password: string, confirm: string) {
    password == confirm && !IsBlank(name) && !IsBlank(email) && !IsBlank(password)
  }

  /** The accepted path of `handleSignUp`: create the account, then write a
      profile document holding exactly the name and email under the new uid. */
  function CreateAccount(name: string, email: string, password: string, auth: AuthReply, write: Reply): (r: Outcome)
    ensures r.requests != [] && r.requests[0] == CreateUserRequest(email, password)
    ensures HasWrite(r.requests) <==> auth.Authenticated?
    ensures auth.Authenticated? ==>
      && |r.requests| == 2 && r.requests[1].SetUserDoc? && r.requests[1].uid == auth.user.uid
      && r.requests[1].data.Keys == {"name", "email"}
      && r.requests[1].data["name"] == Str(name) && r.requests[1].data["email"] == Str(email)
    ensures auth.Authenticated? && write.Done? ==> r.alerts == [AccountCreated]
    ensures auth.AuthFailed? ==>
      r.requests == [CreateUserRequest(email, password)] && r.alerts == [ErrorAlert(SignUpErrorMessage(auth.failure))]
    ensures auth.Authenticated? && write.Failed? ==> r.alerts == [ErrorAlert(SignUpErrorMessage(write.failure))]
    ensures r.route.None?
  {
    match auth
    case AuthFailed(f) =>
      Outcome([CreateUserRequest(email, password)], [ErrorAlert(SignUpErrorMessage(f))], None)
    case Authenticated(user) =>
      var requests := [CreateUserRequest(email, password), SetUserDoc(user.uid, ProfileFields(name, email))];
      assert IsWrite(requests[1]);
      match write
      case Done => Outcome(requests, [AccountCreated], None)
      case Failed(f) => Outcome(requests, [ErrorAlert(SignUpErrorMessage(f))], None)
  }

  /** `handleSignUp`. The confirmation check runs first, on the untrimmed
      passwords, so a mismatch is reported even when fields are blank; then
      blank name, email or password is refused; only a form passing both
      checks reaches the backend. */
  function HandleSignUp(name: string, email: string, password: string, confirm: string,
                        auth: AuthReply, write: Reply): (r: Outcome)
    ensures password != confirm ==> r == Outcome([], [PasswordMismatch], None)
    ensures password == confirm && (IsBlank(name) || IsBlank(email) || IsBlank(password)) ==>
      r == Outcome([], [MissingFields], None)
    ensures r.requests == [] <==> !Acceptable(name, email, password, confirm)
    ensures Acceptable(name, email, password, confirm) ==> r == CreateAccount(name, email, password, auth, write)
  {
    if password != confirm then
      Outcome([], [PasswordMismatch], None)
    else if IsBlank(name) || IsBlank(email) || IsBlank(password) then
      Outcome([], [MissingFields], None)
    else
      CreateAccount(name, email, password, auth, write)
  }
}
