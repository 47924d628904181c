/**
 * The session store: the signed-in user, kept in memory and mirrored in
 * the browser's key-value store under two keys, the token under
 * `userToken` and the profile without its token under `currentUser`.
 */
module Auth {

  import opened Wrappers
  import opened ProfileCodec

  /** The signed-in user as the login endpoint returns it. */
  datatype User = User(id: int, username: string, email: string, firstName: string, lastName: string, token: string)

  const TokenKey: string := "userToken"
  const UserKey: string := "currentUser"

  /** `{ ...userData, token: undefined }`: the user without the token. */
  function ProfileOf(u: User): (p: Profile)
    ensures User(p.id, p.username, p.email, p.firstName, p.lastName, u.token) == u
  {
    Profile(u.id, u.username, u.email, u.firstName, u.lastName)
  }

  /** `{ ...profile, token }`: a profile joined with a token. */
  function WithToken(p: Profile, token: string): (u: User)
    ensures ProfileOf(u) == p && u.token == token
  {
    User(p.id, p.username, p.email, p.firstName, p.lastName, token)
  }

  /** The two keys are present together or absent together. */
  predicate Consistent(store: map<string, string>)
    ensures TokenKey !in store && UserKey !in store ==> Consistent(store)
    ensures TokenKey in store && UserKey in store ==> Consistent(store)
  {
    TokenKey in store <==> UserKey in store
  }

  /** `storedUser && storedToken`: both entries present and non-empty. */
  predicate HasSession(store: map<string, string>)
    ensures HasSession(store) ==> Consistent(store)
  {
    UserKey in store && store[UserKey] != "" && TokenKey in store && store[TokenKey] != ""
  }

  /** What hydration finds in the store. */
  datatype Hydration = NoSession | Restored(user: User) | Malformed

  /**
   * The read path of hydration: no session unless both entries are
   * present and non-empty; otherwise the stored profile joined with the
   * stored token, or `Malformed` where parsing the profile would throw.
   */
  function ReadSession(store: map<string, string>): (h: Hydration)
    ensures h == NoSession <==> !HasSession(store)
    ensures h == Malformed <==> HasSession(store) && Decode(store[UserKey]).None?
    ensures HasSession(store) && Decode(store[UserKey]).Some? ==>
      h == Restored(WithToken(Decode(store[UserKey]).value, store[TokenKey]))
    ensures h.Restored? ==>
      && h.user.token == store[TokenKey]
      && Decode(store[UserKey]) == Some(ProfileOf(h.user))
  {
    if !HasSession(store) then NoSession
    else match Decode(store[UserKey])
      case Some(p) => Restored(WithToken(p, store[TokenKey]))
      case None => Malformed
  }

  /** The store after a successful login: both entries written, nothing else touched. */
  function LoginStore(store: map<string, string>, u: User): (r: map<string, string>)
    ensures TokenKey in r && r[TokenKey] == u.token
    ensures UserKey in r && r[UserKey] == Encode(ProfileOf(u))
    ensures forall k :: k != TokenKey && k != UserKey ==>
              (k in r <==> k in store) && (k in store ==> r[k] == store[k])
  {
    store[TokenKey := u.token][UserKey := Encode(ProfileOf(u))]
  }

  /** The store after logout: both entries removed, nothing else touched. */
  function LogoutStore(store: map<string, string>): (r: map<string, string>)
    ensures TokenKey !in r && UserKey !in r
    ensures forall k :: k != TokenKey && k != UserKey ==>
              (k in r <==> k in store) && (k in store ==> r[k] == store[k])
  {
    store - {TokenKey, UserKey}
  }

  /** Reloading after a login restores the same user, provided the token is non-empty. */
  lemma LoginThenHydrate(store: map<string, string>, u: User)
    requires u.token != ""
    ensures ReadSession(LoginStore(store, u)) == Restored(u)
  {
    DecodeEncode(ProfileOf(u));
  }

  /** An empty token is stored but not restored: the reloaded page is signed out. */
  lemma EmptyTokenNotRestored(store: map<string, string>, u: User)
    requires u.token == ""
    ensures ReadSession(LoginStore(store, u)) == NoSession
  {
  }

  /** Reloading after a logout finds no session. */
  lemma LogoutThenHydrate(store: map<string, string>)
    ensures ReadSession(LogoutStore(store)) == NoSession
  {
  }

  /** Logging out twice leaves the store as logging out once. */
  lemma LogoutIdempotent(store: map<string, string>)
    ensures LogoutStore(LogoutStore(store)) == LogoutStore(store)
  {
  }

  /** Login and logout both leave the two keys present together or absent together. */
  lemma TransitionsConsistent(store: map<string, string>, u: User)
    ensures Consistent(LoginStore(store, u))
    ensures Consistent(LogoutStore(store))
  {
  }

  /** `AuthProvider`'s state. */
  class AuthProvider {
    var user: Option<User>
    /** The browser's persistent key-value store. */
    var store: map<string, string>

    /** `isAuthenticated`. */
    function IsAuthenticated(): (r: bool)
      reads this
      ensures r <==> user != None
    {
      user.Some?
    }

    /** Mounting the provider: no user yet, whatever the store holds. */
    constructor (store: map<string, string>)
      ensures user == None && !IsAuthenticated()
      ensures this.store == store
    {
      user := None;
      this.store := store;
    }

    /**
     * The mount effect: fills the user from the store when it holds a
     * session. `threw` reports a stored profile that does not parse.
     */
    method Hydrate() returns (threw: bool)
      modifies this`user
      ensures ReadSession(store).Restored? ==> user == Some(ReadSession(store).user)
      ensures !ReadSession(store).Restored? ==> user == old(user)
      ensures threw <==> ReadSession(store) == Malformed
    {
      threw := false;
      match ReadSession(store)
      case Restored(u) =>
        user := Some(u);
      case NoSession =>
      case Malformed =>
        threw := true;
    }

    /**
     * `login`, once the endpoint has answered with `outcome`: on success
     * both entries are written and the user is set; on failure the error
     * is rethrown and nothing changes.
     */
    method Login(outcome: Result<User, string>) returns (r: Result<(), string>)
      modifies this
      ensures outcome.Err? ==> r == Err(outcome.error) && store == old(store) && user == old(user)
      ensures outcome.Ok? ==>
        && r == Ok(())
        && store == LoginStore(old(store), outcome.value)
        && user == Some(outcome.value)
      ensures Consistent(old(store)) ==> Consistent(store)
    {
      match outcome
      case Err(message) =>
        r := Err(message);
      case Ok(u) =>
        store := store[TokenKey := u.token];
        store := store[UserKey := Encode(ProfileOf(u))];
        user := Some(u);
        r := Ok(());
    }

    /** `logout`: both entries removed, user cleared. */
    method Logout()
      modifies this
      ensures store == LogoutStore(old(store)) && user == None
      ensures Consistent(store) && !IsAuthenticated()
    {
      store := store - {TokenKey};
      store := store - {UserKey};
      user := None;
    }
  }

  /**
   * A login followed by a page reload: a new provider over the same store
   * hydrates to the user that logged in.
   */
  method ReloadAfterLogin(initial: map<string, string>, u: User) returns (restored: Option<User>)
    requires u.token != ""
    ensures restored == Some(u)
  {
    var before := new AuthProvider(initial);
    var r := before.Login(Ok(u));
    var after := new AuthProvider(before.store);
    var threw := after.Hydrate();
    LoginThenHydrate(initial, u);
    restored := after.user;
  }

  /** A logout followed by a page reload: the new provider stays signed out. */
  method ReloadAfterLogout(initial: map<string, string>) returns (restored: Option<User>)
    ensures restored == None
  {
    var before := new AuthProvider(initial);
    before.Logout();
    var after := new AuthProvider(before.store);
    var threw := after.Hydrate();
    restored := after.user;
  }

  /** A failed login leaves a signed-out provider signed out with its store untouched. */
  method FailedLogin(initial: map<string, string>, message: string)
    returns (r: Result<(), string>, signedIn: bool, store: map<string, string>)
    ensures r == Err(message) && !signedIn && store == initial
  {
    var provider := new AuthProvider(initial);
    r := provider.Login(Err(message));
    signedIn, store := provider.IsAuthenticated(), provider.store;
  }
}
