/**
 * The second authentication store, the one that also lets a signed-in user edit their
 * profile. It starts signed out and writes the token and the user to `localStorage` as
 * it changes; its own rehydration from storage is not part of this model.
 */
module PersistedAuth {
  import opened Wrappers
  import Json
  import Storage

  /** A user as the authentication service returns it. */
  datatype User = User(id: string, email: string, name: string, companyName: string)

  /** `JSON.stringify(user)`. */
  function EncodeUser(u: User): string {
    Json.EncodeRecord([("id", u.id), ("email", u.email), ("name", u.name), ("companyName", u.companyName)])
  }

  class Store {
    var user: Option<User>
    var token: Option<string>
    var isAuthenticated: bool
    const storage: Storage.LocalStorage

    constructor (storage: Storage.LocalStorage)
      ensures this.storage == storage
      ensures user.None? && token.None? && !isAuthenticated
      ensures Consistent()
    {
      this.storage := storage;
      user, token, isAuthenticated := None, None, false;
    }

    /** Signed in exactly while a token is held. */
    predicate Consistent()
      reads this
    {
      isAuthenticated <==> token.Some?
    }

    /** Storage holds the user the store holds. */
    predicate UserStored()
      reads this, storage
    {
      storage.GetItem("user") == if user.Some? then Some(EncodeUser(user.value)) else None
    }

    /** Storage holds the token the store holds. */
    predicate TokenStored()
      reads this, storage
    {
      storage.GetItem("token") == token
    }

    /** `login`: store the token and the user, then hold them and count as signed in. */
    method Login(u: User, t: string)
      modifies this, storage
      ensures user == Some(u) && token == Some(t) && isAuthenticated
      ensures storage.items == old(storage.items)["token" := t]["user" := EncodeUser(u)]
      ensures Consistent() && UserStored() && TokenStored()
    {
      storage.SetItem("token", t);
      storage.SetItem("user", EncodeUser(u));
      user, token, isAuthenticated := Some(u), Some(t), true;
    }

    /** `logout`: remove the two keys, and nothing else, then forget the session. */
    method Logout()
      modifies this, storage
      ensures user.None? && token.None? && !isAuthenticated
      ensures storage.items == old(storage.items) - {"token"} - {"user"}
      ensures Consistent() && UserStored() && TokenStored()
    {
      storage.RemoveItem("token");
      storage.RemoveItem("user");
      user, token, isAuthenticated := None, None, false;
    }

    /**
     * `updateUser`: store and hold the new user; the token and the signed-in flag are not
     * touched, so a signed-out store stays signed out (while now holding a user).
     */
    method UpdateUser(u: User)
      modifies this, storage
      ensures user == Some(u) && token == old(token) && isAuthenticated == old(isAuthenticated)
      ensures storage.items == old(storage.items)["user" := EncodeUser(u)]
      ensures old(Consistent()) ==> Consistent()
      ensures UserStored()
      ensures old(TokenStored()) ==> TokenStored()
    {
      storage.SetItem("user", EncodeUser(u));
      user := Some(u);
    }
  }
}
