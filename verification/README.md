# Food app storefront: cart reducer, session gate and screen handlers in Dafny

This project models the parts of a React Native storefront/menu-management app
that have their own behaviour. Everything else in the app calls hosted services
(authentication, a document database, push messaging) or renders views. The
modelled parts are:

- **The cart slice** (`CartSlice`, `cart.dfy`). This is the Redux store of cart
  lines. It has the reducers `addItem`, `removeItem`, `increaseQuantity` and
  `decreaseQuantity`, and the selectors `selectItems` (`SelectItems`, the line
  list itself) and `selectTotalPrice`. The cart is a `seq<Line>` and every
  reducer is a pure function. The contracts say how each reducer changes:
  - the ids in cart order (`Ids`);
  - the quantity held under the touched id (`QuantityOf`);
  - the lines of every other product (`Only`);
  - the invariant `Valid`: at most one line per id, every quantity at least 1.

  Positional lemmas state the exact resulting sequence on a cart with distinct
  ids. Total-price lemmas state how each reducer moves the total.
  `SelectTotalPrice` is the running `reduce` written as a loop and is proved
  equal to the recursive sum `Total`.
- **The session gate** (`Navigation`, `navigation.dfy`). This is the root stack
  navigator's state `(loading, authState, device storage)`. Three events change
  it: the startup read of the stored token, and the provider's signed-in and
  signed-out notifications. `Render` chooses the registered screens and the
  initial route. Arbitrary event sequences (`Run`) stand in for the
  asynchronous interleaving of the two event sources.
- **The screen handlers**:
  - `HomeScreen` (`home.dfy`): add, edit, delete and toggle of menu entries,
    the snapshot-to-list mapping, sign-out, and the foreground-notification
    display;
  - `LoginScreen` (`login.dfy`): log-in and log-out;
  - `SignUpScreen` (`signup.dfy`): account creation.

  Each handler is a pure function of the screen's inputs and of the replies its
  backend calls get. It returns the requests it issues, the alerts it shows and
  the route it navigates to (`Effects`, `effects.dfy`).

Supporting modules:
- `Storage`: the device key/value store as a map.
- `JsText`: `String.prototype.trim` over the ECMAScript whitespace and
  line-terminator code points, and string truthiness.
- `Wrappers`: `Option` and `Result`.

JavaScript truthiness is modelled where the code relies on it:
- an empty-string `authState` counts as signed out;
- an empty `userId` counts as "no user";
- a missing `status` field toggles to `true`.

`Login` is the route that `fetchUserData` and `handleLogout` navigate to.
`Render` never registers a screen under that name, and its contract states this.

## Model

| member | source | states |
|---|---|---|
| `JsText.TrimStart` | Screens/Home.jsx:152 | the result is a suffix of the input that does not start with whitespace, and everything cut off is whitespace |
| `JsText.TrimEnd` | Screens/Home.jsx:152 | the result is a prefix of the input that does not end with whitespace, and everything cut off is whitespace |
| `JsText.Trim` | AdminLogIn/LoginScreen.jsx:22 | `s.trim()` is empty exactly when every character is whitespace; otherwise it starts and ends with non-whitespace |
| `Storage.Apply` | AdminLogIn/LoginScreen.jsx:32-38 | `setItem` makes the key read back the value, `removeItem` makes it read back null, `clear` empties the store, and no other key changes |
| `Navigation.Start` | Navigation/stacknavigation.js:13-14 | the mounted gate starts with `authState` null over the persisted store and renders nothing |
| `Navigation.Step` | Navigation/stacknavigation.js:17-34 | the token read sets `authState` to the value read and ends loading without touching storage; signed-in(uid) sets `authState` and the persisted token to uid; signed-out clears both; neither provider event changes loading; no event touches another storage key |
| `Navigation.Run` | Navigation/stacknavigation.js:14-20 | once loading is false, no sequence of events makes it true again |
| `Navigation.Render` | Navigation/stacknavigation.js:39-58 | nothing is rendered exactly while loading; a truthy `authState` registers only `Home` and starts there; otherwise exactly `LoginScreen` and `SignUp` are registered and `LoginScreen` is the initial route; `Login` is never registered |
| `Navigation.LoadingUntilTokenRead` | Navigation/stacknavigation.js:14-21 | after any event sequence, loading is true exactly when it was true before and no token-read event arrived |
| `Navigation.LastEventDecidesAuth` | Navigation/stacknavigation.js:19-32 | after a non-empty event sequence, `authState` is whatever the last event sets, whatever the starting state |
| `Navigation.LastProviderEventDecidesToken` | Navigation/stacknavigation.js:24-33 | the persisted token is the one written by the last provider event, since token reads never write it |
| `Navigation.ReadsKeepStore` | Navigation/stacknavigation.js:17-21 | token-read events leave device storage unchanged |
| `Navigation.SignInThenSignOut` | Navigation/stacknavigation.js:24-33 | signed-in followed by signed-out leaves `authState` null and no persisted token, and a resolved gate shows the login group |
| `Navigation.ColdStartShowsLogin` | Navigation/stacknavigation.js:17-21 | with no stored token, the startup read alone leads to the `LoginScreen`/`SignUp` group |
| `CartSlice.Find` | Redux/Slice.js:13 | `find` returns the first line carrying the id, and returns none exactly when no line carries it |
| `CartSlice.Without` | Redux/Slice.js:22 | `filter` keeps exactly the lines with another id, leaves no line with the id, and is the identity when the id is absent |
| `CartSlice.WithoutCounts` | Redux/Slice.js:22 | `filter` keeps each line with another id as many times as it occurs, and no line with the id |
| `CartSlice.WithoutOne` | Redux/Slice.js:22 | on a single line, `filter` keeps it exactly when its id differs |
| `CartSlice.WithoutAppend` | Redux/Slice.js:22 | `filter` distributes over concatenation, so the kept lines keep their relative order; with `WithoutOne` this fixes the result on every cart |
| `CartSlice.AddItem` | Redux/Slice.js:11-19 | a present id keeps the id order, a new id is appended as the product with quantity 1; the id's quantity grows by exactly 1; every other product's lines are unchanged; the invariant is kept |
| `CartSlice.RemoveItem` | Redux/Slice.js:20-23 | no line with the id remains; every other product's lines keep their contents and order; an absent id changes nothing; the invariant is kept |
| `CartSlice.IncreaseQuantity` | Redux/Slice.js:24-30 | ids keep their order; the id's quantity grows by 1 when present; other products are unchanged; an absent id changes nothing; the invariant is kept |
| `CartSlice.DecreaseQuantity` | Redux/Slice.js:31-39 | a first line above quantity 1 loses one unit with ids unchanged; at quantity 1 or less every line of the id goes; other products are unchanged; an absent id changes nothing; the invariant is kept |
| `CartSlice.Reduce` | Redux/Slice.js:10-40 | every reducer keeps the invariant "distinct ids, quantities at least 1" |
| `CartSlice.Run` | Redux/Slice.js:3-40 | every cart reachable from a valid cart, including the empty initial cart, satisfies the invariant |
| `CartSlice.SelectTotalPrice` | Redux/Slice.js:46 | the `reduce` from 0 equals the sum of price times quantity over all lines, and is 0 for the empty cart |
| `CartSlice.SelectItems` | Redux/Slice.js:45 | the selector hands out the cart's own lines in order, so the list a view gets has one line per product and quantities of at least 1 |
| `CartSlice.AddExistingLine` | Redux/Slice.js:11-15 | on a cart with distinct ids, adding the product on line i gives the same cart with line i's quantity plus 1 |
| `CartSlice.RemoveUniqueLine` | Redux/Slice.js:20-23 | on a cart with distinct ids, removing line i's id gives the cart without exactly that line, rest in order |
| `CartSlice.IncreaseUniqueLine` | Redux/Slice.js:24-30 | on a cart with distinct ids, increasing line i's id adds 1 to that line only |
| `CartSlice.DecreaseUniqueLine` | Redux/Slice.js:31-39 | on a cart with distinct ids, decreasing line i's id subtracts 1 from that line when above 1, and otherwise drops exactly that line |
| `CartSlice.TotalAfterAdd` | Redux/Slice.js:11-18 | adding raises the total by one unit price: the price already on the cart line when present, else the product's price |
| `CartSlice.TotalAfterDecrease` | Redux/Slice.js:31-39 | on a valid cart, decreasing a present id lowers the total by that line's unit price |
| `CartSlice.TotalAfterRemove` | Redux/Slice.js:20-23 | on a cart with distinct ids, removing line i's id lowers the total by its price times quantity |
| `CartSlice.AddRepeatedly` | Redux/Slice.js:3-18 | adding the same product n ≥ 1 times to the empty cart yields exactly one line for it, with quantity n |
| `CartSlice.AddTwiceThenDecreaseTwice` | Redux/Slice.js:11-39 | add A (price 10) twice gives quantity 2 and total 20; decreasing gives quantity 1 and total 10; decreasing again empties the cart with total 0 |
| `HomeScreen.EntryFields` | Screens/Home.jsx:100-103 | a listed entry's `key` is the document id even when the document has a `key` field; every other field is the document's |
| `HomeScreen.SnapshotItems` | Screens/Home.jsx:98-104 | one entry per document, in iteration order, keyed by the document id and carrying its data |
| `HomeScreen.ReceiveSnapshot` | Screens/Home.jsx:97-106 | a snapshot replaces the list with its documents (id under `key`) and ends loading; nothing else changes |
| `HomeScreen.MountThenSnapshot` | Screens/Home.jsx:71-107 | the screen mounts loading, with no user and an empty list; after a successful fetch, the first snapshot ends loading and lists its documents under the user's id, with the forms as mounted |
| `HomeScreen.FetchUserData` | Screens/Home.jsx:88-116 | with a current user, only `userId` changes, to the user's uid, the menu is watched, and the screen stays; with no user nothing changes and the screen navigates to `Login`; no alert and no database write |
| `HomeScreen.SubmitNewItem` | Screens/Home.jsx:151-171 | a blank title or price is refused with "Title and Price are required" and no request; with filled fields and no user nothing happens at all; a request is issued exactly when both are filled and `userId` is set, and it adds the form's fields; success resets and closes the form with no alert; failure alerts "Failed to add item" and keeps the state; there is no navigation |
| `HomeScreen.WriteEdit` | Screens/Home.jsx:179-193 | exactly one update of the entry's document with the whole entry, `key` included; success only clears `editItem` and closes the edit modal, with no alert; failure alerts "Failed to update item" and keeps the state; there is no navigation |
| `HomeScreen.CheckEdit` | Screens/Home.jsx:174-177 | the edit checks throw exactly when the title is not a string, or a non-blank title comes with a price that is not a string; they pass exactly when both are non-blank strings; a blank title is refused before the price is looked at |
| `HomeScreen.SubmitEntry` | Screens/Home.jsx:174-194 | for an entry under edit, it throws exactly as the checks say; a blank title, or a filled title with a blank price, gives only the required-fields alert; filled fields with no user do nothing; a request is issued exactly when both fields are filled and `userId` is set, and then it is the edit's write; otherwise the state is unchanged |
| `HomeScreen.SubmitEdit` | Screens/Home.jsx:173-194 | with no entry under edit it throws a TypeError before doing anything; otherwise it is the entry's submission; it throws exactly in those cases |
| `HomeScreen.ConfirmDelete` | Screens/Home.jsx:196-215 | with no user nothing is shown; with a user the confirmation prompt comes first; the delete of that key is issued exactly when a user is set and the prompt is confirmed; only a failed delete adds "Failed to delete item"; the state is unchanged and there is no navigation |
| `HomeScreen.ToggleStatus` | Screens/Home.jsx:217-228 | with no user nothing is issued; otherwise exactly one update of the item's document, with only `status`, set to the negation of the item's current status; only a failed update alerts, with "Failed to toggle status"; the state is unchanged and there is no navigation |
| `HomeScreen.ToggleTwiceRestores` | Screens/Home.jsx:220-222 | toggling a boolean status twice, with the first update applied in between, restores the document's fields |
| `HomeScreen.SignOut` | Screens/Home.jsx:230-246 | with a user, provider sign-out is requested first; success issues exactly sign-out and the removal of `token`, only empties the list and goes to `SignUp` with no alert; failure requests nothing more, alerts "Sign Out Error" with its message, keeps the state and stays; without a user nothing is requested and the screen goes to `Home` |
| `HomeScreen.SignOutForgetsToken` | Screens/Home.jsx:234-235 | a successful sign-out removes the stored token and no other key |
| `HomeScreen.NoWritesWithoutUser` | Screens/Home.jsx:157 | with an empty `userId`, the add, update, delete and toggle handlers issue no database write |
| `HomeScreen.ShowNotification` | Screens/Home.jsx:54-62 | nothing for a missing notification; otherwise a local notification on the default channel, with title and message defaulting to empty |
| `LoginScreen.LoginFailureAlert` | AdminLogIn/LoginScreen.jsx:43-60 | the alert offers navigation to `SignUp` exactly for `auth/user-not-found` and `auth/wrong-password`; any other error shows its own message |
| `LoginScreen.SignIn` | AdminLogIn/LoginScreen.jsx:27-61 | sign-in with the untrimmed credentials is requested first; success issues exactly that and the three storage calls, in order, and goes `Home` with no alert; failure requests nothing more and shows the mapped alert; no database write |
| `LoginScreen.HandleLogin` | AdminLogIn/LoginScreen.jsx:21-62 | nothing is requested exactly when email or password is blank after trimming, and then only "Please enter both email and password" is shown; otherwise the sign-in goes ahead |
| `LoginScreen.LoginStorageEffect` | AdminLogIn/LoginScreen.jsx:28-38 | a refused or failed log-in leaves storage unchanged; a successful one stores the uid as `token` and a record with the user's email as `user_data`, and changes no other key |
| `LoginScreen.HandleLogout` | AdminLogIn/LoginScreen.jsx:64-73 | provider sign-out is requested first; success issues exactly sign-out and `clear` and navigates to `Login` with no alert; failure requests nothing more, shows "Logout Failed" with its message and stays |
| `LoginScreen.LogoutClearsStorage` | AdminLogIn/LoginScreen.jsx:66-67 | after a successful logout no key remains in device storage |
| `SignUpScreen.SignUpErrorMessage` | Screens/SignUp.jsx:49-56 | `auth/email-already-in-use` and `auth/invalid-email` get their fixed messages; any other error shows its own message |
| `SignUpScreen.CreateAccount` | Screens/SignUp.jsx:36-58 | account creation is requested first; a failed creation requests nothing more; a database write happens exactly when creation succeeds, and the profile document for the uid has exactly `name` and `email`; success shows the alert leading to `LoginScreen`; failures show the mapped message |
| `SignUpScreen.HandleSignUp` | Screens/SignUp.jsx:25-59 | a password mismatch is refused with "Passwords do not match" whatever the other fields hold; otherwise a blank name, email or password is refused with "Please fill in all fields"; nothing is requested exactly when a check fails |

## Left out

- Hosted services are left out as calls. Sign-in, sign-up, sign-out, the document database and device storage become `Request` values, and their replies are handler inputs. The provider's real-time listeners and their unsubscription (Navigation/stacknavigation.js:36, Screens/Home.jsx:109) are not modelled.
- Push-notification setup is left out: channel creation, FCM token fetch, permission prompts and the background handler. These are platform I/O. Only `showNotification`'s choice of fields is modelled.
- Rendering, styles, modals, the form text-change handlers and `openEditModal` are left out as presentation. `openEditModal` copies an entry into `editItem`, and immutable values make that copy implicit.
- `Redux/Cart.jsx` is a view over the selectors. `Redux/AuthSlice.js` has empty reducers. `index.js` and `App.tsx` only register components.
- Prices are integers. The app multiplies and adds JavaScript floating-point numbers.
- `CartSlice.Line`: JavaScript arithmetic on a missing or non-numeric quantity (`undefined + 1`) is not modelled, because quantities are integers here.
- Storage calls are assumed to succeed. In `handleLogin`, a storage failure would be caught and shown as a generic "Login Failed" alert; that path is not modelled.
- `Navigation.Step`: the token-read event carries the value that was read rather than re-reading storage at arrival. This covers every interleaving of the asynchronous read with provider events.
- `Storage.Value`: the `user_data` record is kept structured. Its `JSON.stringify` text form is never read back by the app.
- `HomeScreen.SubmitEdit`: when the handler throws, the model returns an error value. It does not model the unhandled promise rejection that results.
- Console logging is left out.
- `Effects.FieldValue`: document field values are narrowed to strings and booleans. Numbers and other Firestore types are not modelled. A number title or price would make `.trim()` throw, and `!item.status` treats them by JavaScript truthiness.
- `HomeScreen.SignOut`: `navigation.replace('Home')` is recorded as a plain route to `Home`. The difference from `navigate` is that the current screen is replaced on the navigation stack, and the stack is not modelled.

Two behaviours of the code are kept as written:
- `decreaseQuantity` at quantity 1 or less removes every line with that id, not only the line found. This is the `filter` at Redux/Slice.js:37.
- The navigator's signed-in test is JavaScript truthiness, so an empty stored token shows the login group.
