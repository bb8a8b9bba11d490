/** The web client's auth store (a zustand store): the signed-in user and
    token, mirrored into the browser's `localStorage` under the keys `token`
    and `user`. `serialize` and `parse` stand for `JSON.stringify` and
    `JSON.parse` (`None` is a parse error); outside a browser there is no
    storage and only the in-memory fields change. */
module AuthStore {
  import opened Common

  /** The user the client keeps: id, email and username. */
  datatype ClientUser = ClientUser(id: string, email: string, username: string)

  const TokenKey: string := "token"
  const UserKey: string := "user"

  /** JavaScript truthiness of `localStorage.getItem(key)`: present and not empty. */
  predicate Truthy(storage: map<string, string>, key: string)
  {
    key in storage && storage[key] != ""
  }

  /** The `(user, token)` pair `initialize` leaves, starting from `(user, token)`:
      taken from storage only when both keys hold text and the stored user
      parses; otherwise unchanged. */
  function Restored(inBrowser: bool, storage: map<string, string>, parse: string -> Option<ClientUser>,
                    user: Option<ClientUser>, token: Option<string>): (r: (Option<ClientUser>, Option<string>))
    ensures r != (user, token) ==> inBrowser && Truthy(storage, TokenKey) && Truthy(storage, UserKey)
    ensures inBrowser && Truthy(storage, TokenKey) && Truthy(storage, UserKey) && parse(storage[UserKey]).Some? ==>
              r == (parse(storage[UserKey]), Some(storage[TokenKey]))
    ensures Truthy(storage, UserKey) && parse(storage[UserKey]).None? ==> r == (user, token)
  {
    if inBrowser && Truthy(storage, TokenKey) && Truthy(storage, UserKey) && parse(storage[UserKey]).Some? then
      (parse(storage[UserKey]), Some(storage[TokenKey]))
    else (user, token)
  }

  class Store {
    const inBrowser: bool
    var user: Option<ClientUser>
    var token: Option<string>
    var storage: map<string, string>

    /** The store as created: nobody signed in. */
    constructor (inBrowser: bool, storage: map<string, string>)
      ensures this.inBrowser == inBrowser && this.storage == storage
      ensures user == None && token == None
    {
      this.inBrowser := inBrowser;
      this.storage := storage;
      user := None;
      token := None;
    }

    /** `setAuth(user, token)`: sets both fields and, in a browser, writes both
        storage keys. */
    method SetAuth(u: ClientUser, t: string, serialize: ClientUser -> string)
      modifies this
      ensures user == Some(u) && token == Some(t)
      ensures storage == if inBrowser then old(storage)[TokenKey := t][UserKey := serialize(u)] else old(storage)
    {
      if inBrowser {
        storage := storage[TokenKey := t];
        storage := storage[UserKey := serialize(u)];
      }
      user, token := Some(u), Some(t);
    }

    /** `logout()`: clears both fields and, in a browser, removes both storage keys. */
    method Logout()
      modifies this
      ensures user == None && token == None
      ensures storage == if inBrowser then old(storage) - {TokenKey, UserKey} else old(storage)
    {
      if inBrowser {
        storage := storage - {TokenKey};
        storage := storage - {UserKey};
      }
      user, token := None, None;
    }

    /** `initialize()`: restores the fields from storage, as `Restored` says. */
    method Initialize(parse: string -> Option<ClientUser>)
      modifies this
      ensures (user, token) == Restored(inBrowser, storage, parse, old(user), old(token))
      ensures storage == old(storage)
    {
      if inBrowser {
        var t := if TokenKey in storage then Some(storage[TokenKey]) else None;
        var userStr := if UserKey in storage then Some(storage[UserKey]) else None;
        if t.Some? && t.value != "" && userStr.Some? && userStr.value != "" {
          var parsed := parse(userStr.value);
          if parsed.Some? {
            token, user := t, parsed;
          }
        }
      }
    }
  }

  /** In a browser, a reload after `setAuth(u, t)` restores `u` and `t`
      whatever the store held, provided `JSON.parse` reads back what
      `JSON.stringify` wrote and the token is not empty. */
  lemma {:induction false} SetAuthThenRestore(storage: map<string, string>, u: ClientUser, t: string,
                                              serialize: ClientUser -> string, parse: string -> Option<ClientUser>,
                                              user: Option<ClientUser>, token: Option<string>)
    requires t != "" && serialize(u) != "" && parse(serialize(u)) == Some(u)
    ensures Restored(true, storage[TokenKey := t][UserKey := serialize(u)], parse, user, token) == (Some(u), Some(t))
  {
    var s := storage[TokenKey := t][UserKey := serialize(u)];
    assert TokenKey != UserKey;
    assert s[TokenKey] == t && s[UserKey] == serialize(u);
  }

  /** After `logout()`, `initialize()` leaves the store signed out. */
  lemma {:induction false} LogoutThenRestore(storage: map<string, string>, parse: string -> Option<ClientUser>)
    ensures Restored(true, storage - {TokenKey, UserKey}, parse, None, None) == (None, None)
  {
    assert TokenKey !in storage - {TokenKey, UserKey};
  }
}
