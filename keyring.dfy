// The part of the `keyring` library the scripts use: a password stored
// under a service name and a user name, read back with `get_password`
// (`None` when nothing is stored) and written with `set_password`.
module Keyrings {
  import opened Wrappers

  type Store = map<(string, string), string>

  /** `keyring.get_password(service, user)` on a given store. */
  function Lookup(store: Store, service: string, user: string): Option<string> {
    if (service, user) in store then Some(store[(service, user)]) else None
  }

  /** The five passwords of a Twitter credentials entry, in the order the
      scripts store and read them. */
  const TwitterFields := ["bearer_token", "api_key", "api_key_secret", "access_token", "access_token_secret"]

  /** The passwords stored under `service` for the given user names. */
  function LookupAll(store: Store, service: string, users: seq<string>): (vs: seq<Option<string>>)
    ensures |vs| == |users|
    ensures forall i :: 0 <= i < |users| ==> vs[i] == Lookup(store, service, users[i])
  {
    seq(|users|, i requires 0 <= i < |users| => Lookup(store, service, users[i]))
  }

  /** `all([...])` over the values read back. */
  predicate AllTruthy(vs: seq<Option<string>>) {
    forall i :: 0 <= i < |vs| ==> Truthy(vs[i])
  }

  /** The system keyring, whose store `set_password` changes in place. */
  class Keyring {
    var store: Store

    constructor (initial: Store)
      ensures store == initial
    {
      store := initial;
    }

    function GetPassword(service: string, user: string): Option<string>
      reads this
    {
      Lookup(store, service, user)
    }

    /** `keyring.set_password(service, user, password)`: the entry is
        replaced and every other entry is kept. */
    method SetPassword(service: string, user: string, password: string)
      modifies this
      ensures store == old(store)[(service, user) := password]
      ensures GetPassword(service, user) == Some(password)
      ensures forall s, u :: (s, u) != (service, user) ==> GetPassword(s, u) == old(GetPassword(s, u))
    {
      store := store[(service, user) := password];
    }
  }
}
