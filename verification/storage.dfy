/** The device's key/value persistence (AsyncStorage) as a pure map, and
    the three operations the application issues against it. */
module Storage {
  import opened Wrappers

  /** A stored value. `UserData` is the record the login screen serialises
      to JSON; its text form is never read back by the application. */
  datatype Value = Text(text: string) | UserData(name: string, email: string)

  type Store = map<string, Value>

  /** The key holding the signed-in user's uid. */
  const TokenKey: string := "token"
  /** The key holding the cached profile record of the signed-in user. */
  const UserDataKey: string := "user_data"

  datatype Op = SetItem(key: string, value: Value) | RemoveItem(key: string) | Clear

  /** `getItem(key)`: the stored value, or `null`. */
  function GetItem(store: Store, key: string): Option<Value> {
    if key in store then Some(store[key]) else None
  }

  /** One storage operation. */
  function Apply(store: Store, op: Op): (r: Store)
    ensures op.SetItem? ==> GetItem(r, op.key) == Some(op.value)
    ensures op.RemoveItem? ==> GetItem(r, op.key) == None
    ensures op.Clear? ==> forall k :: GetItem(r, k) == None
    ensures !op.Clear? ==> forall k :: k != op.key ==> GetItem(r, k) == GetItem(store, k)
  {
    match op
    case SetItem(key, value) => store[key := value]
    case RemoveItem(key) => store - {key}
    case Clear => map[]
  }

  /** Storage operations applied in the order they were issued. */
  function ApplyAll(store: Store, ops: seq<Op>): Store
    decreases |ops|
  {
    if ops == [] then store else ApplyAll(Apply(store, ops[0]), ops[1..])
  }
}
