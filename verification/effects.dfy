/** What a screen handler hands to the outside world. The hosted
    authentication service, the document database and device storage are
    not called: a handler returns the requests it would issue, and the
    replies those requests get are inputs to the handler. */
module Effects {
  import opened Wrappers
  import Storage
  import Navigation

  /** A document field value as the screens write it. */
  datatype FieldValue = Str(s: string) | Flag(b: bool)

  type Fields = map<string, FieldValue>

  /** An error raised by a backend call: its `code` and `message`. */
  datatype Failure = Failure(code: string, message: string)

  datatype User = User(uid: string, email: string)

  /** The reply to a sign-in or account-creation call. */
  datatype AuthReply = Authenticated(user: User) | AuthFailed(failure: Failure)

  /** The reply to any other backend call. */
  datatype Reply = Done | Failed(failure: Failure)

  datatype Request =
    | SignInRequest(email: string, password: string)
    | CreateUserRequest(email: string, password: string)
    | SignOutRequest
    | WatchMenu(uid: string)                                  // live subscription to users/{uid}/menu
    | AddMenuDoc(uid: string, data: Fields)                   // users/{uid}/menu.add(data)
    | UpdateMenuDoc(uid: string, key: string, data: Fields)   // users/{uid}/menu/{key}.update(data)
    | DeleteMenuDoc(uid: string, key: string)                 // users/{uid}/menu/{key}.delete()
    | SetUserDoc(uid: string, data: Fields)                   // users/{uid}.set(data)
    | StorageRequest(op: Storage.Op)

  /** Requests that write to the document database. */
  predicate IsWrite(r: Request) {
    r.AddMenuDoc? || r.UpdateMenuDoc? || r.DeleteMenuDoc? || r.SetUserDoc?
  }

  predicate HasWrite(requests: seq<Request>) {
    exists k :: 0 <= k < |requests| && IsWrite(requests[k])
  }

  /** An alert shown to the user; `confirmRoute` is where its affirmative
      button navigates, if it has one. */
  datatype Alert = Alert(title: string, message: string, confirmRoute: Option<Navigation.Route>)

  function ErrorAlert(message: string): Alert {
    Alert("Error", message, None)
  }

  /** What a handler did: requests in issue order, alerts in display order,
      and the route it navigated to. */
  datatype Outcome = Outcome(requests: seq<Request>, alerts: seq<Alert>, route: Option<Navigation.Route>)

  /** The storage operations among `requests`, in order. */
  function StorageOps(requests: seq<Request>): seq<Storage.Op>
    decreases |requests|
  {
    if requests == [] then []
    else (if requests[0].StorageRequest? then [requests[0].op] else []) + StorageOps(requests[1..])
  }

  /** The device storage once `requests` have all completed. */
  function StorageAfter(store: Storage.Store, requests: seq<Request>): Storage.Store {
    Storage.ApplyAll(store, StorageOps(requests))
  }
}
