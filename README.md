# RelicVeil client: a verified model of its session, request and reaction logic

RelicVeil is a single-page front end for browsing and curating historical
artifact records. Almost all of it is presentation. This project models the four
pieces that have behaviour worth stating. Each is a Dafny module named after its
source file.

- `Register` (src/pages/Register.jsx): the password rules checked before
  sign-up, and the guard that stops an invalid password before `createUser`.
  These are pure functions. `ValidatePassword` is compared with an independent
  reference: an ordered list of checks together with `FirstFailure`, which picks
  out the first check that fails.
- `ArtifactDetails` (src/pages/ArtifactDetails.jsx): the like/dislike state of
  the detail page, as the class `ArtifactReactions`. It holds the two flags, the
  `likedArtifacts` / `dislikedArtifacts` lists from local storage, and the
  displayed `likeCount`. `HandleLike` and `HandleDislike` change these fields in
  place. Each is proved equal to a pure transition (`Liked`, `Disliked`), and the
  lemmas state the properties of those transitions.
- `AuthProvider` (src/auth/AuthProvider.jsx): the token cache, as the class
  `AuthState`. It holds local storage as a map, the `token` state, the user
  record and the loading flag. Its invariant `Valid()` says that the `token`
  state always mirrors the stored `'token'` entry. `GetToken` is tied to the
  decision function `TokenPlan`. The field `tokenRequests` counts the calls to
  the identity provider's `getIdToken()`, so "no refresh" and "exactly one
  refresh" can be stated.
- `Api` (src/utils/api.js): building the request headers (the defaults, then an
  optional `Authorization: Bearer` header per section 2.1 of RFC 6750, then the
  caller's headers), the error policy of `apiCall`, and the method and path of
  every endpoint helper. The helpers are checked against an independent routing
  table, `Recognize`, in both directions.

Inputs that come from outside the program are parameters:

- the current time (`Date.now()`);
- the decoded token payload (`decode`, returning `Payload`);
- the token the identity provider issues (`issued`);
- the server's replies (`Reply`, `HttpReply`, and a `server` function);
- the outcomes of the Firebase calls;
- `encodeURIComponent` (`encode`).

Each asynchronous handler is modelled as one atomic step.

Two behaviours of the code are worth noting:

- `apiCall` parses the body before it checks the status, so an unparsable
  body rejects with the parse error, whatever the status (`Settle`,
  `InvalidJson`).
- A cached token whose payload cannot be decoded makes `getToken` resolve to
  `null` without a refresh, because the whole body sits in one `try`
  (`TokenPlan`, `Abort`).

The local count does not come back after a like → dislike → like cycle. A
dislike from liked takes one away, but a like from disliked adds two, so the
count ends two above where it started (`LikeDislikeLikeCount`). The source does
not say which rule the server follows, so this is stated as a property of the
model, not reported as a defect.

## Model

| member | source | states |
|---|---|---|
| `Register.ValidatePassword` | src/pages/Register.jsx:29-40 | no message exactly when the password has at least 6 characters, an ASCII uppercase letter and an ASCII lowercase letter; any message is one of the three fixed messages |
| `Register.FirstFailure` | src/pages/Register.jsx:29-40 | an ordered chain of checks yields nothing exactly when every check passes; otherwise it yields the message of a failing check with only passing checks before it |
| `Register.ValidateIsFirstFailure` | src/pages/Register.jsx:29-40 | the validator returns the first failure in the fixed order length → uppercase → lowercase, so it returns at most one message |
| `Register.ShortPasswordRejectedForLength` | src/pages/Register.jsx:30-32 | a password shorter than 6 characters gets the length message, whatever it contains |
| `Register.MissingUppercaseReported` | src/pages/Register.jsx:33-35 | a password of length ≥ 6 with no `[A-Z]` character gets the uppercase message |
| `Register.MissingLowercaseReported` | src/pages/Register.jsx:36-38 | a password of length ≥ 6 that has an uppercase letter but no `[a-z]` character gets the lowercase message |
| `Register.AppendKeepsValid` | src/pages/Register.jsx:29-40 | appending characters to an accepted password keeps it accepted |
| `Register.Submit` | src/pages/Register.jsx:42-59 | no call is made exactly when the password is unacceptable; the first call is always `createUser` with the form's email and password; the second, made exactly when `createUser` succeeded, is `updateUserProfile` with the form's name and photo URL; the toast is the validator's message, else the thrown error's message, else the success message; the page navigates home exactly when both calls succeeded |
| `Register.RejectedPasswordMakesNoCall` | src/pages/Register.jsx:45-49 | when the validator reports a message, neither `createUser` nor `updateUserProfile` is called, that message is shown, and there is no navigation |
| `ArtifactDetails.Without` | src/pages/ArtifactDetails.jsx:92-95 | filtering an id out of a list gives a list no longer than the original, whose elements are exactly the original elements other than that id |
| `ArtifactDetails.WithoutIsSubsequence` | src/pages/ArtifactDetails.jsx:145-148 | the filtered list keeps the remaining ids in their original order |
| `ArtifactDetails.WithoutKeepsOthers` | src/pages/ArtifactDetails.jsx:145-148 | every other id occurs as often as before, and the removed id no longer occurs |
| `ArtifactDetails.WithoutAbsent` | src/pages/ArtifactDetails.jsx:92-95 | a list that does not contain the id is written back unchanged |
| `ArtifactDetails.Mounted` | src/pages/ArtifactDetails.jsx:27-33 | the mount effect sets each flag to whether the page's id is in the matching stored list |
| `ArtifactDetails.LikeWhenLikedIsNoop` | src/pages/ArtifactDetails.jsx:66-68 | liking an artifact that is already liked leaves the flags, the lists and the count unchanged; for a signed-in user it also shows no toast |
| `ArtifactDetails.DislikeOnlyFromLiked` | src/pages/ArtifactDetails.jsx:120-122 | a dislike changes something only from the liked, not-disliked state |
| `ArtifactDetails.RejectedReplyChangesNothing` | src/pages/ArtifactDetails.jsx:83-89 | a failed request, a non-ok status, or `success` false leaves the state of both handlers unchanged |
| `ArtifactDetails.SuccessfulLike` | src/pages/ArtifactDetails.jsx:89-106 | after a successful like: liked and not disliked; the id is appended to the liked list; if it was disliked, the id leaves the disliked list while every other id keeps its order and number, and otherwise that list is untouched; the count (absent read as 0) rises by 1 from neutral and by 2 from disliked |
| `ArtifactDetails.SuccessfulDislike` | src/pages/ArtifactDetails.jsx:143-158 | after a successful dislike: every occurrence of the id leaves the liked list, other ids keep their order and number; the id is appended to the disliked list; the flags become not liked and disliked; the count becomes max(0, count − 1) and is never negative |
| `ArtifactDetails.HandlersKeepConsistent` | src/pages/ArtifactDetails.jsx:27-33 | both handlers keep each flag equal to whether the id is in the matching stored list |
| `ArtifactDetails.Transitions` | src/pages/ArtifactDetails.jsx:60-164 | the three states neutral / liked / disliked are closed under both handlers: like goes to liked from any state on an accepted reply, dislike goes to disliked only from liked, and every other step stays put |
| `ArtifactDetails.LikeIdempotent` | src/pages/ArtifactDetails.jsx:66-68 | after a successful like, another like changes nothing |
| `ArtifactDetails.LikeDislikeLikeCount` | src/pages/ArtifactDetails.jsx:103-106 | from neutral with a non-negative count n, the cycle like → dislike → like ends at n + 2 |
| `ArtifactDetails.ArtifactReactions.constructor` | src/pages/ArtifactDetails.jsx:27-33 | the page starts in the mounted state for its id |
| `ArtifactDetails.ArtifactReactions.HandleLike` | src/pages/ArtifactDetails.jsx:60-112 | the new state is `Liked` of the old one, the toast is the source's, and the flags stay consistent with the lists |
| `ArtifactDetails.ArtifactReactions.HandleDislike` | src/pages/ArtifactDetails.jsx:114-164 | the new state is `Disliked` of the old one, the toast is the source's, and the flags stay consistent with the lists |
| `AuthProvider.CacheHitExactly` | src/auth/AuthProvider.jsx:96-104 | the cached token is returned exactly when a user is signed in and the stored token is non-empty with `exp*1000 > now` (strict), and then it is that stored token |
| `AuthProvider.RefreshExactly` | src/auth/AuthProvider.jsx:92-108 | a refresh is planned exactly when a user is signed in and the stored token is absent or empty, or decodes to an `exp` that is not in the future |
| `AuthProvider.ExpiryIsMonotone` | src/auth/AuthProvider.jsx:100-104 | a token reused at some time is also reused at every earlier time; a refresh needed at some time is also needed at every later time |
| `AuthProvider.ExpiryBoundary` | src/auth/AuthProvider.jsx:102 | the comparison is strict: at exactly `exp*1000` the token is refreshed; one millisecond earlier it is reused |
| `AuthProvider.AuthState.constructor` | src/auth/AuthProvider.jsx:17-19 | no user, loading, and the token state read from storage |
| `AuthProvider.AuthState.StoreToken` | src/auth/AuthProvider.jsx:21-31 | exactly one token request; on success the token is written under `'token'`, set as the state and returned; on failure `null` is returned and storage is not written |
| `AuthProvider.AuthState.GetToken` | src/auth/AuthProvider.jsx:92-113 | with no user it returns null and makes no request; on a cache hit it returns the stored token and changes nothing; otherwise exactly one refresh, whose result is stored and returned; an undecodable payload returns null without refreshing |
| `AuthProvider.AuthState.SignIn` | src/auth/AuthProvider.jsx:33-65 | a successful sign-in makes one token request and stores the issued token; a failed one makes no request and leaves storage and token unchanged; loading is false afterwards |
| `AuthProvider.AuthState.LogOut` | src/auth/AuthProvider.jsx:67-76 | after a successful sign-out the stored token is removed and the token state is null; if `signOut` throws, storage and token are untouched; loading is false afterwards |
| `AuthProvider.AuthState.AuthChanged` | src/auth/AuthProvider.jsx:115-127 | the user state takes the reported user; with no user the stored token is removed, the token state becomes null and no request is made; with a user exactly one token request is made and the issued token is stored |
| `AuthProvider.AuthState.UpdateUserProfile` | src/auth/AuthProvider.jsx:78-84 | only after `updateProfile` resolves is the user record replaced; among the record's string fields only `displayName` and `photoURL` change, and storage and token are untouched (the record's methods are not modelled, see Left out) |
| `AuthProvider.Profiled` | src/auth/AuthProvider.jsx:83 | the spread record has the old keys plus the two profile keys, those two hold the new values, and every other field is preserved |
| `AuthProvider.RefreshThenReuse` | src/auth/AuthProvider.jsx:92-113 | after one refresh to a token that has not expired, the next access returns the same token with no second request |
| `AuthProvider.SignOutThenAccess` | src/auth/AuthProvider.jsx:67-123 | after sign-out, and once the listener reports no user, access yields no token and nothing is stored |
| `Api.AuthHeader` | src/utils/api.js:4-7 | an `Authorization` entry exactly when the token is truthy, with value `"Bearer " + token`, and no other entry |
| `Api.BuildRequest` | src/utils/api.js:1-23 | the URL is the configured URL plus `'/api'` plus the endpoint; the method and body are the caller's; `Authorization` is present exactly when the caller supplies it or an accessor returns a truthy token, with the bearer value unless overridden; `Content-Type: application/json` is present unless the caller supplies that key; caller headers override defaults and auth; no other header is sent |
| `Api.FailureMessage` | src/utils/api.js:27-29 | the server's `message` when it is truthy, otherwise `'API call failed'`; never empty |
| `Api.Settle` | src/utils/api.js:25-31 | the call resolves exactly on an ok, parsable reply, and then to the parsed body unchanged; a failed fetch rejects with the network error; an unparsable body rejects with the parse error; a non-ok `null` body rejects with the TypeError of reading `message`; any other non-ok body rejects with the selected message |
| `Api.NotFoundExample` | src/utils/api.js:27-29 | a 404 reply with `{message: "not found"}` rejects with `"not found"` |
| `Api.ApiCall` | src/utils/api.js:10-36 | the request sent is the assembled request; the outcome is the settlement of the server's single reply, with no retry |
| `Api.HelperCall` | src/utils/api.js:39-100 | helpers pass no headers; public helpers pass no token accessor, and protected helpers pass the one they are given |
| `Api.PublicHelpersSendNoAuthorization` | src/utils/api.js:39-55 | a public helper's request carries only the JSON content type, never `Authorization` |
| `Api.ProtectedHelpersSendBearer` | src/utils/api.js:58-100 | a protected helper whose accessor yields a token sends the JSON content type and `Bearer` plus that token |
| `Api.RecognizeHelperCall` | src/utils/api.js:39-100 | every helper's method, path and body are recognised by the routing table as that helper (e.g. `likeArtifact(id)` → `PATCH /artifacts/{id}/like`, `deleteArtifact(id)` → `DELETE /artifacts/{id}`), so no two helpers share a request |
| `Api.RecognizedIsHelperCall` | src/utils/api.js:39-100 | conversely, every request the routing table recognises is exactly the request that helper makes |

## Left out

- AuthProvider.AuthState.UpdateUserProfile: the user record is cut down to its string fields. The spread `{ ...prev, displayName, photoURL }` copies only own fields, so it also drops the provider object's methods, among them `getIdToken`. After a profile update, a refresh would then throw inside `storeToken` and resolve to `null` until the listener sets a new user. That loss is not modelled: `issued` is a parameter that does not depend on the user record.
- Firebase calls are not modelled: sign-up, sign-in, popup sign-in, sign-out, profile update and `getIdToken`. Each becomes its outcome, passed in as a parameter.
- `sendPasswordReset` only wraps a foreign call in the loading flag, so it is not modelled.
- `handleGoogleSignIn` on the registration page is a foreign call followed by a toast, so it is not modelled.
- JWT decoding (`atob`, `JSON.parse` of the payload segment) is abstract: `decode` returns `Payload`. `Undecodable` stands for a throw; `NoExp` stands for a missing or non-numeric `exp`, which compares as NaN and forces a refresh.
- Time is not modelled: `Date.now()` is the parameter `now`, in milliseconds. The `exp` claim is an integer number of seconds, not a floating-point number.
- Fetch and JSON are not modelled. Server replies are the parameters `Reply` / `HttpReply` and the `server` function. A parsed document is reduced to its string `message` member and its text; the JSON `null` is a separate case. A truthy non-string `message` is not modelled.
- Request bodies are the already-serialised `JSON.stringify` text.
- `encodeURIComponent` in `searchArtifacts` is the parameter `encode`.
- Header keys in `RequestHeaders` are matched exactly, case-sensitively, as in the object spread. `fetch` later lower-cases header names; that step is not modelled.
- The like and dislike handlers call `fetch` directly on a fixed local URL that sends `Bearer <token>` even when the token is null. That request, `fetchArtifactDetails` and the `getToken` call inside the handlers are not modelled; the handlers receive only the reply.
- `ArtifactReactions` assumes the artifact has loaded. The state updater on a null artifact would throw during rendering; that case is not modelled. The page's redirect for a signed-out visitor is not modelled either; the handlers' own signed-in guard is.
- Concurrency is not modelled: async interleavings, `Promise.all`, React's deferred state updates, and other tabs changing local storage. Every handler is one atomic step. The like handler's use of the pre-update `hasDisliked` is modelled.
- Register.ValidatePassword: the length is counted in Unicode scalar values. JavaScript's `length` counts UTF-16 code units, so passwords with characters outside the Basic Multilingual Plane are measured differently.
- ArtifactDetails.Count: the like count is an integer. A non-numeric `likeCount` value is not modelled.
- Api.RecognizeHelperCall: requires item ids without '/'. This is a condition of the reference routing table, not of the helpers, which put any id into the path.
- Toasts, navigation, console logging and document titles are not modelled, except the toast texts the handlers return.
