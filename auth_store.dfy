/**
 * The authentication store the pages use: the signed-in user, the token and whether the
 * session counts as signed in, loaded from `localStorage` when the page starts and
 * written back to it on login and logout.
 */
module AuthStore {
  import opened Wrappers
  import Json
  import Storage

  /** A user as the server sends it; the role is "admin" or "staff", which the client does not check. */
  datatype User = User(id: string, name: string, email: string, role: string)

  const UserKeys: seq<string> := ["id", "name", "email", "role"]

  function UserFields(u: User): seq<(string, string)> {
    [("id", u.id), ("name", u.name), ("email", u.email), ("role", u.role)]
  }

  /** `JSON.stringify(user)`. */
  function EncodeUser(u: User): string {
    Json.EncodeRecord(UserFields(u))
  }

  /**
   * `JSON.parse` of the stored user: the text `null` gives no user, a stringified user
   * gives that user, and any other text is a parse error.
   */
  function ParseUser(t: string): Result<Option<User>, string> {
    if t == "null" then Success(None)
    else
      match Json.DecodeRecord(UserKeys, t)
      case Some(vs) =>
        if |vs| == 4 then Success(Some(User(vs[0], vs[1], vs[2], vs[3]))) else Failure("SyntaxError")
      case None => Failure("SyntaxError")
  }

  /** Parsing a stringified user gives back the same user. */
  lemma ParseEncodedUser(u: User)
    ensures ParseUser(EncodeUser(u)) == Success(Some(u))
  {
    var fields := UserFields(u);
    Json.RecordRoundTrip(fields);
    Json.RecordIsNonEmpty(fields);
    assert Json.Names(fields) == UserKeys;
    assert Json.Contents(fields) == [u.id, u.name, u.email, u.role];
  }

  datatype State = State(user: Option<User>, token: Option<string>, isAuthenticated: bool)

  const SignedOut := State(None, None, false)

  /** A stored value that JavaScript treats as true: present and not the empty string. */
  predicate Truthy(items: map<string, string>, key: string) {
    key in items && items[key] != ""
  }

  /**
   * `loadInitialState`. Signed in exactly when both the stored token and the stored user
   * are non-empty and the user text parses; a parse error signs out entirely; an absent
   * or empty token is no token.
   */
  function LoadInitialState(items: map<string, string>): (s: State)
    ensures var parsed := Truthy(items, "user") ==> ParseUser(items["user"]).Success?;
      && (s.isAuthenticated <==> Truthy(items, "token") && Truthy(items, "user") && parsed)
      && (!parsed ==> s == SignedOut)
      && (parsed ==> (s.token.Some? <==> Truthy(items, "token")))
      && (s.token.Some? ==> s.token.value == items["token"])
      && (parsed ==> s.user == if Truthy(items, "user") then ParseUser(items["user"]).value else None)
  {
    var user := if Truthy(items, "user") then ParseUser(items["user"]) else Success(None);
    match user
    case Failure(_) => SignedOut
    case Success(u) =>
      var token := if Truthy(items, "token") then Some(items["token"]) else None;
      State(u, token, Truthy(items, "token") && Truthy(items, "user"))
  }

  /** What login leaves in storage. */
  function AfterLogin(items: map<string, string>, u: User, token: string): map<string, string> {
    items["user" := EncodeUser(u)]["token" := token]
  }

  /** What logout leaves in storage. */
  function AfterLogout(items: map<string, string>): map<string, string> {
    items - {"user"} - {"token"}
  }

  /** Reloading the page after a login with a non-empty token restores the same session. */
  lemma ReloadAfterLogin(items: map<string, string>, u: User, token: string)
    requires token != ""
    ensures LoadInitialState(AfterLogin(items, u, token)) == State(Some(u), Some(token), true)
  {
    ParseEncodedUser(u);
    Json.RecordIsNonEmpty(UserFields(u));
  }

  /** Reloading the page after a logout starts signed out. */
  lemma ReloadAfterLogout(items: map<string, string>)
    ensures LoadInitialState(AfterLogout(items)) == SignedOut
  {
  }

  /** Logging out twice leaves storage as logging out once. */
  lemma LogoutIdempotent(items: map<string, string>)
    ensures AfterLogout(AfterLogout(items)) == AfterLogout(items)
  {
  }

  class Store {
    var user: Option<User>
    var token: Option<string>
    var isAuthenticated: bool
    const storage: Storage.LocalStorage

    /** The store as it starts: the state loaded from storage, which is left untouched. */
    constructor (storage: Storage.LocalStorage)
      ensures this.storage == storage
      ensures Current() == LoadInitialState(storage.items)
    {
      this.storage := storage;
      var s := LoadInitialState(storage.items);
      user, token, isAuthenticated := s.user, s.token, s.isAuthenticated;
    }

    function Current(): State
      reads this
    {
      State(user, token, isAuthenticated)
    }

    /** Signed in exactly while a token is held, and storage holds the user and the token. */
    predicate Mirrored()
      reads this, storage
    {
      && (isAuthenticated <==> token.Some?)
      && storage.GetItem("token") == token
      && storage.GetItem("user") == if user.Some? then Some(EncodeUser(user.value)) else None
    }

    /** `login`: store the user and the token, then hold them and count as signed in. */
    method Login(u: User, t: string)
      modifies this, storage
      ensures Current() == State(Some(u), Some(t), true)
      ensures storage.items == AfterLogin(old(storage.items), u, t)
      ensures Mirrored()
    {
      storage.SetItem("user", EncodeUser(u));
      storage.SetItem("token", t);
      user, token, isAuthenticated := Some(u), Some(t), true;
    }

    /** `logout`: remove the two keys, and nothing else, then forget the session. */
    method Logout()
      modifies this, storage
      ensures Current() == SignedOut
      ensures storage.items == AfterLogout(old(storage.items))
      ensures Mirrored()
    {
      storage.RemoveItem("user");
      storage.RemoveItem("token");
      user, token, isAuthenticated := None, None, false;
    }
  }
}
