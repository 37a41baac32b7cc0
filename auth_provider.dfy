/** The session side of the authentication context (src/auth/AuthProvider.jsx):
    the bearer token cached under the local storage key 'token', its mirror in
    component state, the signed-in user record and the loading flag. */
module AuthProvider {
  import opened Wrappers

  const TokenKey := "token"

  /** A user record of the identity provider, field name to value. */
  type UserRecord = map<string, string>

  /** What decoding the payload segment of a stored token yields.
      `Undecodable`: `atob` or `JSON.parse` throws. `NoExp`: the payload has no
      numeric `exp` claim, so `payload.exp * 1000` is NaN. `ExpAt(seconds)`: the
      `exp` claim of section 4.1.4 of RFC 7519, in seconds since the epoch. */
  datatype Payload = Undecodable | NoExp | ExpAt(seconds: int)

  /** `localStorage.getItem('token')`. */
  function Stored(storage: map<string, string>): Option<string>
  {
    if TokenKey in storage then Some(storage[TokenKey]) else None
  }

  /** `exp * 1000 > Date.now()`, with `now` in milliseconds. */
  predicate Unexpired(p: Payload, now: int)
  {
    p.ExpAt? && p.seconds * 1000 > now
  }

  /** What `getToken` decides to do. */
  datatype Plan =
    | NoSession       // no user: resolve to null
    | Reuse(token: string)  // the cached token is still valid: return it
    | Refresh         // ask the identity provider for a fresh token
    | Abort           // decoding threw: the catch resolves to null

  /** The decision of `getToken`, as a function of the signed-in flag, the
      stored token, the payload decoder and the current time. */
  function TokenPlan(signedIn: bool, stored: Option<string>, decode: string -> Payload, now: int): Plan
  {
    if !signedIn then NoSession
    else if stored.Some? && stored.value != "" then
      var payload := decode(stored.value);
      if payload.Undecodable? then Abort
      else if Unexpired(payload, now) then Reuse(stored.value)
      else Refresh
    else Refresh
  }

  /** The cache is hit exactly when a user is signed in and the stored token is
      non-empty with an `exp` strictly in the future; the token returned is the
      stored one. */
  lemma CacheHitExactly(signedIn: bool, stored: Option<string>, decode: string -> Payload, now: int)
    ensures TokenPlan(signedIn, stored, decode, now).Reuse?
            <==> signedIn && stored.Some? && stored.value != "" && Unexpired(decode(stored.value), now)
    ensures TokenPlan(signedIn, stored, decode, now).Reuse? ==> TokenPlan(signedIn, stored, decode, now).token == stored.value
  {
  }

  /** A refresh happens exactly when a user is signed in and the stored token
      is absent or empty, or decodes to an `exp` that is not in the future. */
  lemma RefreshExactly(signedIn: bool, stored: Option<string>, decode: string -> Payload, now: int)
    ensures TokenPlan(signedIn, stored, decode, now) == Refresh
            <==> signedIn && (stored.None? || stored.value == ""
                              || (!decode(stored.value).Undecodable? && !Unexpired(decode(stored.value), now)))
  {
  }

  /** A token whose `exp` lies in the future at `now` also is reused at every
      earlier time; one that must be refreshed at `now` must be refreshed at
      every later time. */
  lemma ExpiryIsMonotone(stored: Option<string>, decode: string -> Payload, earlier: int, later: int)
    requires earlier <= later
    ensures TokenPlan(true, stored, decode, later).Reuse? ==> TokenPlan(true, stored, decode, earlier).Reuse?
    ensures TokenPlan(true, stored, decode, earlier) == Refresh ==> TokenPlan(true, stored, decode, later) == Refresh
  {
  }

  /** The boundary is strict: a token whose `exp` equals the current time in
      milliseconds is refreshed. */
  lemma ExpiryBoundary(token: string, decode: string -> Payload, seconds: int)
    requires token != "" && decode(token) == ExpAt(seconds)
    ensures TokenPlan(true, Some(token), decode, seconds * 1000) == Refresh
    ensures TokenPlan(true, Some(token), decode, seconds * 1000 - 1) == Reuse(token)
  {
  }

  /** The authentication context's mutable state. */
  class AuthState {
    var user: Option<UserRecord>
    var loading: bool
    var token: Option<string>             // the `token` state
    var storage: map<string, string>      // local storage
    var tokenRequests: nat                // calls made to `user.getIdToken()`

    /** The `token` state mirrors the stored token. */
    predicate Valid()
      reads this
    {
      token == Stored(storage)
    }

    /** A fresh provider: no user yet, loading, and the token state read from
        storage. */
    constructor (storage: map<string, string>)
      ensures Valid()
      ensures user.None? && loading && this.storage == storage && tokenRequests == 0
    {
      user := None;
      loading := true;
      this.storage := storage;
      token := Stored(storage);
      tokenRequests := 0;
    }

    /** `storeToken`. `issued` is the result of `getIdToken()`: the token, or
        `None` when it throws, in which case nothing is written. */
    method StoreToken(issued: Option<string>) returns (t: Option<string>)
      requires Valid()
      modifies this
      ensures Valid()
      ensures t == issued
      ensures tokenRequests == old(tokenRequests) + 1
      ensures issued.Some? ==> storage == old(storage)[TokenKey := issued.value] && token == issued
      ensures issued.None? ==> storage == old(storage) && token == old(token)
      ensures user == old(user) && loading == old(loading)
    {
      tokenRequests := tokenRequests + 1;
      match issued
      case None =>
        return None;
      case Some(newToken) =>
        storage := storage[TokenKey := newToken];
        token := Some(newToken);
        return Some(newToken);
    }

    /** `getToken`. `now` is `Date.now()`, `decode` reads the stored token's
        payload and `issued` is what a refresh would obtain. */
    method GetToken(now: int, decode: string -> Payload, issued: Option<string>) returns (t: Option<string>)
      requires Valid()
      modifies this
      ensures Valid()
      ensures user == old(user) && loading == old(loading)
      ensures var plan := TokenPlan(old(user).Some?, Stored(old(storage)), decode, now);
        && (plan.NoSession? || plan.Abort? ==> t.None?)
        && (plan.Reuse? ==> t == Some(plan.token))
        && (plan.Refresh? ==> t == issued && tokenRequests == old(tokenRequests) + 1)
        && (plan.Refresh? && issued.Some? ==> storage == old(storage)[TokenKey := issued.value] && token == issued)
        && (!plan.Refresh? || issued.None? ==> storage == old(storage) && token == old(token))
        && (!plan.Refresh? ==> tokenRequests == old(tokenRequests))
    {
      if user.None? {
        return None;
      }
      var current := Stored(storage);
      if current.Some? && current.value != "" {
        var payload := decode(current.value);
        if payload.Undecodable? {
          return None;
        }
        if Unexpired(payload, now) {
          return current;
        }
      }
      t := StoreToken(issued);
    }

    /** `createUser`, `signIn` and `googleSignIn`, which differ only in the
        identity provider call. `signedIn` is that call's user, `None` when it
        throws; on success the user's token is stored. The user state itself is
        set by the auth-state listener. */
    method SignIn(signedIn: Option<UserRecord>, issued: Option<string>) returns (ok: bool)
      requires Valid()
      modifies this
      ensures Valid()
      ensures ok == signedIn.Some?
      ensures tokenRequests == old(tokenRequests) + (if ok then 1 else 0)
      ensures !loading && user == old(user)
      ensures ok && issued.Some? ==> storage == old(storage)[TokenKey := issued.value] && token == issued
      ensures !ok || issued.None? ==> storage == old(storage) && token == old(token)
    {
      loading := true;
      if signedIn.None? {
        loading := false;
        return false;
      }
      var _ := StoreToken(issued);
      loading := false;
      return true;
    }

    /** `logOut`. `signedOut` says whether `signOut` resolved; when it throws,
        storage and the token state stay as they were. */
    method LogOut(signedOut: bool)
      requires Valid()
      modifies this
      ensures Valid()
      ensures !loading && user == old(user) && tokenRequests == old(tokenRequests)
      ensures signedOut ==> storage == old(storage) - {TokenKey} && token.None?
      ensures !signedOut ==> storage == old(storage) && token == old(token)
    {
      loading := true;
      if signedOut {
        storage := storage - {TokenKey};
        token := None;
      }
      loading := false;
    }

    /** The `onAuthStateChanged` listener. With a user its token is stored;
        without one the stored token is removed and the token state cleared. */
    method AuthChanged(current: Option<UserRecord>, issued: Option<string>)
      requires Valid()
      modifies this
      ensures Valid()
      ensures user == current && !loading
      ensures current.None? ==> storage == old(storage) - {TokenKey} && token.None?
                                && tokenRequests == old(tokenRequests)
      ensures current.Some? ==> tokenRequests == old(tokenRequests) + 1
      ensures current.Some? && issued.Some? ==> storage == old(storage)[TokenKey := issued.value]
                                                && token == issued
      ensures current.Some? && issued.None? ==> storage == old(storage) && token == old(token)
    {
      user := current;
      if current.Some? {
        var _ := StoreToken(issued);
      } else {
        storage := storage - {TokenKey};
        token := None;
      }
      loading := false;
    }

    /** `updateUserProfile`. `updated` says whether `updateProfile` resolved;
        only then is the user record changed, and only in `displayName` and
        `photoURL` (spreading an absent record gives an empty one). */
    method UpdateUserProfile(name: string, photo: string, updated: bool)
      modifies this
      ensures storage == old(storage) && token == old(token) && loading == old(loading)
      ensures tokenRequests == old(tokenRequests)
      ensures !updated ==> user == old(user)
      ensures updated ==> user.Some?
                          && user.value == Profiled(if old(user).Some? then old(user).value else map[], name, photo)
    {
      if updated {
        var previous := if user.Some? then user.value else map[];
        user := Some(previous["displayName" := name]["photoURL" := photo]);
      }
    }
  }

  /** The record `{ ...prev, displayName: name, photoURL: photo }`. */
  function Profiled(prev: UserRecord, name: string, photo: string): (r: UserRecord)
    ensures r.Keys == prev.Keys + {"displayName", "photoURL"}
    ensures r["displayName"] == name && r["photoURL"] == photo
    ensures forall k :: k in prev && k != "displayName" && k != "photoURL" ==> r[k] == prev[k]
  {
    prev["displayName" := name]["photoURL" := photo]
  }

  /** After a successful refresh the next `getToken` at a time before the new
      token's expiry returns it from storage without another refresh. */
  method RefreshThenReuse(s: AuthState, now: int, later: int, decode: string -> Payload, newToken: string, again: Option<string>)
      returns (first: Option<string>, second: Option<string>)
    requires s.Valid() && s.user.Some?
    requires TokenPlan(true, Stored(s.storage), decode, now) == Refresh
    requires newToken != "" && Unexpired(decode(newToken), later)
    modifies s
    ensures first == Some(newToken) && second == Some(newToken)
    ensures s.tokenRequests == old(s.tokenRequests) + 1
  {
    first := s.GetToken(now, decode, Some(newToken));
    second := s.GetToken(later, decode, again);
  }

  /** Once signed out and with the user gone, no token is obtained and none is
      requested from the identity provider. */
  method SignOutThenAccess(s: AuthState, now: int, decode: string -> Payload, issued: Option<string>)
      returns (t: Option<string>)
    requires s.Valid()
    modifies s
    ensures t.None? && s.token.None? && TokenKey !in s.storage
  {
    s.LogOut(true);
    s.AuthChanged(None, issued);
    t := s.GetToken(now, decode, issued);
  }
}
