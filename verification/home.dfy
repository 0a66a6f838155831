/** The decision logic of the menu-management screen: its local state, the
    handlers behind its buttons and subscriptions, and the foreground
    notification display. Backend calls appear as requests; their replies
    are inputs. */
module HomeScreen {
  import opened Wrappers
  import opened JsText
  import opened Effects
  import Storage
  import Navigation

  /** The add form's text fields and switch. */
  datatype MenuForm = MenuForm(title: string, description: string, price: string, status: bool)

  const EmptyForm: MenuForm := MenuForm("", "", "", false)

  /** The document the add form writes. */
  function FormFields(f: MenuForm): Fields {
    map["title" := Str(f.title), "description" := Str(f.description), "price" := Str(f.price), "status" := Flag(f.status)]
  }

  /** The field a listed entry carries its document id under. */
  const KeyField: string := "key"

  /** A document of the user's menu collection as a snapshot delivers it. */
  datatype Doc = Doc(id: string, data: Fields)

  /** A listed menu entry `{...data, key: id}`. */
  datatype Entry = Entry(key: string, data: Fields)

  /** The entry as an object: the document's fields, with `key` holding the
      document id even when the document has a field of that name. */
  function EntryFields(e: Entry): (fields: Fields)
    ensures KeyField in fields && fields[KeyField] == Str(e.key)
    ensures forall f :: f != KeyField ==> (f in fields <==> f in e.data)
    ensures forall f :: f != KeyField && f in e.data ==> fields[f] == e.data[f]
  {
    e.data[KeyField := Str(e.key)]
  }

  /** `fields[name]` when it is a string, the only kind `.trim()` accepts. */
  function StringField(fields: Fields, name: string): Option<string> {
    if name in fields && fields[name].Str? then Some(fields[name].s) else None
  }

  /** JavaScript truthiness of `fields[name]`; a missing field is `undefined`. */
  predicate FieldTruthy(fields: Fields, name: string) {
    name in fields && match fields[name]
      case Str(s) => s != ""
      case Flag(b) => b
  }

  /** Firestore `update`: the given top-level fields replace or extend the document's. */
  function Merge(data: Fields, update: Fields): (r: Fields)
    ensures r.Keys == data.Keys + update.Keys
    ensures forall f :: f in update ==> r[f] == update[f]
    ensures forall f :: f in data && f !in update ==> r[f] == data[f]
  {
    data + update
  }

  datatype State = State(
    loading: bool,
    menuItems: seq<Entry>,
    userId: string,
    newItem: MenuForm,
    editItem: Option<Entry>,
    addModalVisible: bool,
    editModalVisible: bool)

  const Initial: State := State(true, [], "", EmptyForm, None, false, false)

  /** A handler's effect on the screen state, and what it issued. */
  datatype Handled = Handled(state: State, outcome: Outcome)

  const RequiredAlert: Alert := ErrorAlert("Title and Price are required")

  const DeletePrompt: Alert := Alert("Delete Item", "Are you sure you want to delete this item?", None)

  /** `fetchUserData`: a signed-in user's uid becomes the screen's `userId`
      and their menu collection is watched; with no user the screen navigates
      to `Login`. */
  function FetchUserData(st: State, currentUser: Option<User>): (r: Handled)
    ensures currentUser.Some? ==>
      && r.state == st.(userId := currentUser.value.uid)
      && r.outcome.requests == [WatchMenu(currentUser.value.uid)]
      && r.outcome.route.None?
    ensures currentUser.None? ==> r.state == st && r.outcome.requests == [] && r.outcome.route == Some(Navigation.Login)
    ensures r.outcome.alerts == []
    ensures !HasWrite(r.outcome.requests)
  {
    match currentUser
    case Some(user) => Handled(st.(userId := user.uid), Outcome([WatchMenu(user.uid)], [], None))
    case None => Handled(st, Outcome([], [], Some(Navigation.Login)))
  }

  /** The snapshot mapping: one entry per document, in iteration order, keyed
      by the document id. */
  function SnapshotItems(docs: seq<Doc>): (items: seq<Entry>)
    ensures |items| == |docs|
    ensures forall k :: 0 <= k < |docs| ==> items[k].key == docs[k].id && items[k].data == docs[k].data
    decreases |docs|
  {
    if docs == [] then [] else [Entry(docs[0].id, docs[0].data)] + SnapshotItems(docs[1..])
  }

  /** A snapshot arrives: the list is replaced by its documents and loading ends. */
  function ReceiveSnapshot(st: State, docs: seq<Doc>): (t: State)
    ensures !t.loading
    ensures |t.menuItems| == |docs|
    ensures forall k :: 0 <= k < |docs| ==>
      EntryFields(t.menuItems[k])[KeyField] == Str(docs[k].id) && t.menuItems[k].data == docs[k].data
    ensures t.(menuItems := st.menuItems, loading := st.loading) == st
  {
    st.(menuItems := SnapshotItems(docs), loading := false)
  }

  /** `addItem`: blank title or price (after trimming) is refused with an
      alert; without a user nothing happens; otherwise the form is written
      as a new document, and on success the form is reset and closed. */
  function SubmitNewItem(st: State, reply: Reply): (r: Handled)
    ensures IsBlank(st.newItem.title) || IsBlank(st.newItem.price) ==>
      r.state == st && r.outcome.requests == [] && r.outcome.alerts == [RequiredAlert]
    ensures r.outcome.requests == [] <==> IsBlank(st.newItem.title) || IsBlank(st.newItem.price) || st.userId == ""
    ensures r.outcome.requests != [] ==> r.outcome.requests == [AddMenuDoc(st.userId, FormFields(st.newItem))]
    ensures !IsBlank(st.newItem.title) && !IsBlank(st.newItem.price) && st.userId == "" ==>
      r == Handled(st, Outcome([], [], None))
    ensures r.outcome.requests != [] && reply.Done? ==>
      r.state == st.(newItem := EmptyForm, addModalVisible := false) && r.outcome.alerts == []
    ensures reply.Failed? ==> r.state == st
    ensures reply.Failed? && r.outcome.requests != [] ==> r.outcome.alerts == [ErrorAlert("Failed to add item")]
    ensures r.outcome.route.None?
  {
    var form := st.newItem;
    if IsBlank(form.title) || IsBlank(form.price) then
      Handled(st, Outcome([], [RequiredAlert], None))
    else if st.userId == "" then
      Handled(st, Outcome([], [], None))
    else
      var requests := [AddMenuDoc(st.userId, FormFields(form))];
      match reply
      case Done => Handled(st.(newItem := EmptyForm, addModalVisible := false), Outcome(requests, [], None))
      case Failed(_) => Handled(st, Outcome(requests, [ErrorAlert("Failed to add item")], None))
  }

  /** An edited entry whose title and price are strings that are not blank. */
  predicate FilledIn(e: Entry) {
    var fields := EntryFields(e);
    && StringField(fields, "title").Some? && !IsBlank(StringField(fields, "title").value)
    && StringField(fields, "price").Some? && !IsBlank(StringField(fields, "price").value)
  }

  /** Whether `updateItem` throws a TypeError on an entry under edit:
      `editItem.title.trim()` runs first, and `editItem.price.trim()` once
      the title has passed, so a field that is not a string throws. */
  predicate EntryThrows(e: Entry) {
    || StringField(EntryFields(e), "title").None?
    || (!IsBlank(StringField(EntryFields(e), "title").value) && StringField(EntryFields(e), "price").None?)
  }

  /** Whether `updateItem` throws: also when there is no entry under edit. */
  predicate EditThrows(st: State) {
    st.editItem.None? || EntryThrows(st.editItem.value)
  }

  predicate TitleBlank(e: Entry) {
    StringField(EntryFields(e), "title").Some? && IsBlank(StringField(EntryFields(e), "title").value)
  }

  /** The write of `updateItem`: the whole entry, `key` included, goes over
      its document; success closes the edit, failure alerts and keeps it. */
  function WriteEdit(st: State, e: Entry, reply: Reply): (r: Handled)
    ensures r.outcome.requests == [UpdateMenuDoc(st.userId, e.key, EntryFields(e))]
    ensures HasWrite(r.outcome.requests)
    ensures reply.Done? ==> r.state == st.(editItem := None, editModalVisible := false) && r.outcome.alerts == []
    ensures reply.Failed? ==> r.state == st && r.outcome.alerts == [ErrorAlert("Failed to update item")]
    ensures r.outcome.route.None?
  {
    var requests := [UpdateMenuDoc(st.userId, e.key, EntryFields(e))];
    assert IsWrite(requests[0]);
    match reply
    case Done => Handled(st.(editItem := None, editModalVisible := false), Outcome(requests, [], None))
    case Failed(_) => Handled(st, Outcome(requests, [ErrorAlert("Failed to update item")], None))
  }

  /** What `updateItem`'s two checks make of an entry under edit. */
  datatype EditCheck = Throws | Blank | Ready

  /** The checks of `updateItem` in source order: `title.trim()` (throws
      unless a string), then `price.trim()` only when the title is filled. */
  function CheckEdit(e: Entry): (c: EditCheck)
    ensures c.Throws? <==> EntryThrows(e)
    ensures c.Ready? <==> FilledIn(e)
    ensures TitleBlank(e) ==> c.Blank?
  {
    var fields := EntryFields(e);
    match StringField(fields, "title")
    case None => Throws
    case Some(title) =>
      if IsBlank(title) then Blank
      else
        match StringField(fields, "price")
        case None => Throws
        case Some(price) => if IsBlank(price) then Blank else Ready
  }

  /** `updateItem` on the entry under edit. A throw is an `Err`. Blank
      title or price is refused with an alert; without a user nothing
      happens; otherwise the edit is written. */
  function SubmitEntry(st: State, e: Entry, reply: Reply): (r: Result<Handled, string>)
    ensures r.Err? <==> EntryThrows(e)
    ensures TitleBlank(e) ==> r == Ok(Handled(st, Outcome([], [RequiredAlert], None)))
    ensures !EntryThrows(e) && !FilledIn(e) ==> r == Ok(Handled(st, Outcome([], [RequiredAlert], None)))
    ensures FilledIn(e) && st.userId == "" ==> r == Ok(Handled(st, Outcome([], [], None)))
    ensures r.Ok? ==> (r.value.outcome.requests != [] <==> st.userId != "" && FilledIn(e))
    ensures r.Ok? && r.value.outcome.requests != [] ==> r.value == WriteEdit(st, e, reply)
    ensures r.Ok? && r.value.outcome.requests == [] ==> r.value.state == st
  {
    match CheckEdit(e)
    case Throws => Err("TypeError")
    case Blank => Ok(Handled(st, Outcome([], [RequiredAlert], None)))
    case Ready =>
      if st.userId == "" then Ok(Handled(st, Outcome([], [], None)))
      else Ok(WriteEdit(st, e, reply))
  }

  /** `updateItem`: with no entry under edit, `editItem.title` throws
      before anything is done. */
  function SubmitEdit(st: State, reply: Reply): (r: Result<Handled, string>)
    ensures r.Err? <==> EditThrows(st)
    ensures st.editItem.None? ==> r == Err("TypeError")
    ensures st.editItem.Some? ==> r == SubmitEntry(st, st.editItem.value, reply)
  {
    match st.editItem
    case None => Err("TypeError")
    case Some(e) => SubmitEntry(st, e, reply)
  }

  /** `deleteItem`: with a user, a confirmation prompt; confirming deletes
      the document. The list itself only changes through the next snapshot. */
  function ConfirmDelete(st: State, key: string, confirmed: bool, reply: Reply): (r: Handled)
    ensures r.state == st
    ensures r.outcome.requests != [] <==> st.userId != "" && confirmed
    ensures r.outcome.requests != [] ==> r.outcome.requests == [DeleteMenuDoc(st.userId, key)]
    ensures st.userId != "" <==> r.outcome.alerts != [] && r.outcome.alerts[0] == DeletePrompt
    ensures st.userId == "" ==> r.outcome.alerts == []
    ensures st.userId != "" && !(confirmed && reply.Failed?) ==> r.outcome.alerts == [DeletePrompt]
    ensures st.userId != "" && confirmed && reply.Failed? ==>
      r.outcome.alerts == [DeletePrompt, ErrorAlert("Failed to delete item")]
    ensures r.outcome.route.None?
  {
    if st.userId == "" then Handled(st, Outcome([], [], None))
    else if !confirmed then Handled(st, Outcome([], [DeletePrompt], None))
    else
      var requests := [DeleteMenuDoc(st.userId, key)];
      match reply
      case Done => Handled(st, Outcome(requests, [DeletePrompt], None))
      case Failed(_) => Handled(st, Outcome(requests, [DeletePrompt, ErrorAlert("Failed to delete item")], None))
  }

  /** `toggleStatus`: with a user, exactly one update of the entry's
      document, carrying only `status`, set to the negation of the entry's
      current status. */
  function ToggleStatus(st: State, item: Entry, reply: Reply): (r: Handled)
    ensures r.state == st
    ensures st.userId == "" ==> r.outcome.requests == []
    ensures st.userId != "" ==> |r.outcome.requests| == 1 && r.outcome.requests[0].UpdateMenuDoc?
    ensures st.userId != "" ==>
      var w := r.outcome.requests[0];
      && w.uid == st.userId && w.key == item.key
      && w.data.Keys == {"status"}
      && w.data["status"].Flag? && (w.data["status"].b <==> !FieldTruthy(item.data, "status"))
    ensures st.userId != "" && reply.Failed? ==> r.outcome.alerts == [ErrorAlert("Failed to toggle status")]
    ensures st.userId == "" || reply.Done? ==> r.outcome.alerts == []
    ensures r.outcome.route.None?
  {
    if st.userId == "" then Handled(st, Outcome([], [], None))
    else
      var requests := [UpdateMenuDoc(st.userId, item.key, map["status" := Flag(!FieldTruthy(EntryFields(item), "status"))])];
      match reply
      case Done => Handled(st, Outcome(requests, [], None))
      case Failed(_) => Handled(st, Outcome(requests, [ErrorAlert("Failed to toggle status")], None))
  }

  /** Toggling twice, with the first write applied to the document in
      between, restores a boolean status. */
  lemma ToggleTwiceRestores(st: State, item: Entry, b: bool, reply: Reply)
    requires st.userId != "" && "status" in item.data && item.data["status"] == Flag(b)
    ensures var w := ToggleStatus(st, item, reply).outcome.requests[0];
      var toggled := Entry(item.key, Merge(item.data, w.data));
      var w2 := ToggleStatus(st, toggled, reply).outcome.requests[0];
      Merge(toggled.data, w2.data) == item.data
  {
    var w := ToggleStatus(st, item, reply).outcome.requests[0];
    var toggled := Entry(item.key, Merge(item.data, w.data));
    assert toggled.data["status"] == Flag(!b);
    var w2 := ToggleStatus(st, toggled, reply).outcome.requests[0];
    assert w2.data["status"] == Flag(b);
  }

  /** `signOut`: with a user, sign out of the provider; once that succeeds
      the stored token is removed, the list is emptied and the screen goes to
      `SignUp`. Without a user the screen replaces itself with `Home`. */
  function SignOut(st: State, hasCurrentUser: bool, reply: Reply): (r: Handled)
    ensures hasCurrentUser && reply.Done? ==>
      && r.outcome.requests == [SignOutRequest, StorageRequest(Storage.RemoveItem(Storage.TokenKey))]
      && r.state == st.(menuItems := [])
      && r.outcome.route == Some(Navigation.SignUp)
      && r.outcome.alerts == []
    ensures !(hasCurrentUser && reply.Done?) ==> r.state == st
    ensures hasCurrentUser <==> r.outcome.requests != [] && r.outcome.requests[0] == SignOutRequest
    ensures !hasCurrentUser ==> r.outcome == Outcome([], [], Some(Navigation.Home))
    ensures hasCurrentUser && reply.Failed? ==>
      && r.outcome.requests == [SignOutRequest]
      && r.outcome.alerts == [Alert("Sign Out Error", reply.failure.message, None)]
      && r.outcome.route.None?
    ensures !HasWrite(r.outcome.requests)
  {
    if hasCurrentUser then
      match reply
      case Done =>
        Handled(st.(menuItems := []),
                Outcome([SignOutRequest, StorageRequest(Storage.RemoveItem(Storage.TokenKey))], [], Some(Navigation.SignUp)))
      case Failed(f) =>
        Handled(st, Outcome([SignOutRequest], [Alert("Sign Out Error", f.message, None)], None))
    else
      Handled(st, Outcome([], [], Some(Navigation.Home)))
  }

  /** A successful sign-out forgets the stored token and keeps every other key. */
  lemma SignOutForgetsToken(st: State, store: Storage.Store)
    ensures var after := StorageAfter(store, SignOut(st, true, Done).outcome.requests);
      && Storage.GetItem(after, Storage.TokenKey) == None
      && forall k :: k != Storage.TokenKey ==> Storage.GetItem(after, k) == Storage.GetItem(store, k)
  {
    var requests := SignOut(st, true, Done).outcome.requests;
    var op := Storage.RemoveItem(Storage.TokenKey);
    assert requests[1..] == [StorageRequest(op)];
    assert requests[1..][1..] == [];
    assert StorageOps(requests[1..]) == [op];
    assert StorageOps(requests) == [op];
    assert [op][1..] == [];
    assert StorageAfter(store, requests) == Storage.ApplyAll(Storage.Apply(store, op), []);
  }

  /** The screen mounts loading, with no user and an empty list; the first
      snapshot after a successful fetch ends loading and lists its documents
      under the fetched user's id, leaving the forms as mounted. */
  lemma MountThenSnapshot(user: User, docs: seq<Doc>)
    ensures Initial.loading && Initial.userId == "" && Initial.menuItems == []
    ensures var t := ReceiveSnapshot(FetchUserData(Initial, Some(user)).state, docs);
      && !t.loading && t.userId == user.uid
      && |t.menuItems| == |docs|
      && (forall k :: 0 <= k < |docs| ==> t.menuItems[k].key == docs[k].id)
      && t.newItem == EmptyForm && t.editItem.None? && !t.addModalVisible && !t.editModalVisible
  {
  }

  /** No handler writes to the database while `userId` is empty. */
  lemma NoWritesWithoutUser(st: State, item: Entry, key: string, confirmed: bool, reply: Reply)
    requires st.userId == ""
    ensures !HasWrite(SubmitNewItem(st, reply).outcome.requests)
    ensures SubmitEdit(st, reply).Ok? ==> !HasWrite(SubmitEdit(st, reply).value.outcome.requests)
    ensures !HasWrite(ConfirmDelete(st, key, confirmed, reply).outcome.requests)
    ensures !HasWrite(ToggleStatus(st, item, reply).outcome.requests)
  {
  }

  /** A foreground message's notification as the screen hands it to the
      local notification display. */
  datatype Notification = Notification(title: Option<string>, body: Option<string>)

  datatype LocalNotification = LocalNotification(channelId: string, title: string, message: string)

  const ChannelId: string := "default-channel-id"

  /** `showNotification`: nothing for a missing notification; otherwise a
      local notification on the default channel whose title and message are
      the notification's, or empty where absent. */
  function ShowNotification(n: Option<Notification>): (r: Option<LocalNotification>)
    ensures r.None? <==> n.None?
    ensures n.Some? && r.Some? ==> r.value.channelId == ChannelId
    ensures n.Some? && r.Some? ==> r.value.title == (if n.value.title.Some? then n.value.title.value else "")
    ensures n.Some? && r.Some? ==> r.value.message == (if n.value.body.Some? then n.value.body.value else "")
  {
    match n
    case None => None
    case Some(note) =>
      Some(LocalNotification(ChannelId, OrEmpty(note.title), OrEmpty(note.body)))
  }

  /** `value || ''` on a string-or-undefined. */
  function OrEmpty(v: Option<string>): string {
    if Truthy(v) then v.value else ""
  }
}
