/** The REST client (src/utils/api.js): request assembly, the header merge with
    an optional bearer token, the error policy of `apiCall`, and the fixed method
    and path of every endpoint helper. */
module Api {
  import opened Wrappers

  type Headers = map<string, string>

  const ApiSuffix := "/api"
  const ContentType := "Content-Type"
  const JsonMedia := "application/json"
  const Authorization := "Authorization"
  const GenericFailure := "API call failed"

  /** `BASE_URL`: the configured API origin followed by '/api'. */
  function BaseUrl(configured: string): string { configured + ApiSuffix }

  /** The `getToken` argument of `apiCall`: absent (`null`), or an accessor and
      the token it resolves to (`null` or a string). */
  datatype TokenSource = NoAccessor | Accessor(resolves: Option<string>)

  /** A bearer token is sent when an accessor is given and its token is truthy. */
  predicate Authorizes(source: TokenSource)
  {
    source.Accessor? && source.resolves.Some? && source.resolves.value != ""
  }

  /** `getAuthHeader`: the Authorization header of section 2.1 of RFC 6750 for
      a truthy token, otherwise no header. */
  function AuthHeader(token: Option<string>): (h: Headers)
    ensures Authorization in h <==> token.Some? && token.value != ""
    ensures h.Keys <= {Authorization}
    ensures Authorization in h ==> h[Authorization] == "Bearer " + token.value
  {
    if token.Some? && token.value != "" then map[Authorization := "Bearer " + token.value] else map[]
  }

  /** The headers `apiCall` sends: the JSON content type, then the auth header
      when there is an accessor, then the caller's `options.headers`, later
      entries overriding earlier ones. */
  function RequestHeaders(source: TokenSource, callerHeaders: Headers): Headers
  {
    var defaults := map[ContentType := JsonMedia]
      + (if source.Accessor? then AuthHeader(source.resolves) else map[]);
    defaults + callerHeaders
  }

  /** The `fetch` options a helper passes; `headers` is empty when absent. */
  datatype Options = Options(verb: Option<string>, body: Option<string>, headers: Headers)

  /** What reaches `fetch`: the URL and the options after the header merge. */
  datatype Request = Request(url: string, verb: Option<string>, body: Option<string>, headers: Headers)

  /** The request `apiCall` hands to `fetch`. The Authorization header is
      present exactly when the caller supplies one or an accessor resolves a
      truthy token, and then carries the bearer credential unless the caller
      overrides it. The JSON content type is always sent unless the caller names
      that key, every caller header wins over the defaults and the auth header,
      and no other header is sent. */
  function BuildRequest(configured: string, endpoint: string, options: Options, source: TokenSource): (r: Request)
    ensures r.url == BaseUrl(configured) + endpoint
    ensures r.verb == options.verb && r.body == options.body
    ensures Authorization in r.headers <==> Authorization in options.headers || Authorizes(source)
    ensures (Authorization !in options.headers && Authorizes(source))
              ==> r.headers[Authorization] == "Bearer " + source.resolves.value
    ensures ContentType in r.headers
    ensures r.headers[ContentType]
              == if ContentType in options.headers then options.headers[ContentType] else JsonMedia
    ensures forall k :: k in options.headers ==> k in r.headers && r.headers[k] == options.headers[k]
    ensures r.headers.Keys
              == {ContentType} + (if Authorizes(source) then {Authorization} else {}) + options.headers.Keys
  {
    Request(BaseUrl(configured) + endpoint, options.verb, options.body, RequestHeaders(source, options.headers))
  }

  /** The parsed JSON body, reduced to what the client inspects: its `message`
      member (when it is a string) and the document as a whole. */
  datatype Json = Json(message: Option<string>, document: string)

  /** What `response.json()` yields: a body that does not parse (it throws),
      the JSON `null`, or a document. */
  datatype Body = Unparsable | Null | Document(json: Json)

  /** The server's reply to one request. `Unreachable`: `fetch` rejects.
      `Replied`: a status and the body. */
  datatype HttpReply = Unreachable | Replied(ok: bool, body: Body)

  /** Why a call rejects. `NullBody` is the TypeError thrown by reading
      `data.message` when the error body is the JSON `null`. */
  datatype ApiError = NetworkError | InvalidJson | NullBody | Failed(message: string)

  datatype Outcome = Resolved(data: Body) | Rejected(error: ApiError)

  /** `data.message || 'API call failed'`. */
  function FailureMessage(data: Json): (m: string)
    ensures m != ""
    ensures data.message.Some? && data.message.value != "" ==> m == data.message.value
    ensures data.message.None? || data.message.value == "" ==> m == GenericFailure
  {
    if data.message.Some? && data.message.value != "" then data.message.value else GenericFailure
  }

  /** How `apiCall` settles on a reply. The body is parsed before the status is
      looked at, so an unparsable error body rejects with the parse error. */
  function Settle(reply: HttpReply): (o: Outcome)
    ensures o.Resolved? <==> reply.Replied? && reply.ok && !reply.body.Unparsable?
    ensures o.Resolved? ==> o.data == reply.body
    ensures reply.Unreachable? ==> o == Rejected(NetworkError)
    ensures reply.Replied? && reply.body.Unparsable? ==> o == Rejected(InvalidJson)
    ensures (reply.Replied? && !reply.ok && reply.body.Null?) ==> o == Rejected(NullBody)
    ensures (reply.Replied? && !reply.ok && reply.body.Document?)
              ==> o == Rejected(Failed(FailureMessage(reply.body.json)))
  {
    match reply
    case Unreachable => Rejected(NetworkError)
    case Replied(ok, body) =>
      match body
      case Unparsable => Rejected(InvalidJson)
      case Null => if ok then Resolved(Null) else Rejected(NullBody)
      case Document(data) => if ok then Resolved(body) else Rejected(Failed(FailureMessage(data)))
  }

  /** A 404 answer `{message: "not found"}` rejects with "not found". */
  lemma NotFoundExample(document: string)
    ensures Settle(Replied(false, Document(Json(Some("not found"), document)))) == Rejected(Failed("not found"))
  {
  }

  /** `apiCall`: assemble the request, send it to `server` once, and settle on
      its reply. No retry is made. */
  method ApiCall(configured: string, endpoint: string, options: Options, source: TokenSource,
                 server: Request -> HttpReply)
      returns (sent: Request, outcome: Outcome)
    ensures sent == BuildRequest(configured, endpoint, options, source)
    ensures outcome == Settle(server(sent))
  {
    sent := BuildRequest(configured, endpoint, options, source);
    var reply := server(sent);
    if reply.Unreachable? {
      return sent, Rejected(NetworkError);
    }
    if reply.body.Unparsable? {
      return sent, Rejected(InvalidJson);
    }
    if reply.ok {
      return sent, Resolved(reply.body);
    }
    if reply.body.Null? {
      return sent, Rejected(NullBody);
    }
    outcome := Rejected(Failed(FailureMessage(reply.body.json)));
  }

  // ---------------------------------------------------------------------------
  // Endpoint helpers
  // ---------------------------------------------------------------------------

  /** The exported helpers with their arguments. Request bodies are the
      `JSON.stringify`'d text. */
  datatype Helper =
    | GetPublicArtifacts
    | GetTopLikedArtifacts
    | SearchArtifacts(query: string)
    | AddArtifact(artifactData: string)
    | UpdateArtifact(id: string, updateData: string)
    | DeleteArtifact(id: string)
    | LikeArtifact(id: string)
    | DislikeArtifact(id: string)
    | GetUserArtifacts
    | GetLikedArtifacts

  predicate IsPublic(h: Helper)
  {
    h.GetPublicArtifacts? || h.GetTopLikedArtifacts? || h.SearchArtifacts?
  }

  /** The arguments a helper hands to `apiCall`. */
  datatype Call = Call(endpoint: string, options: Options, source: TokenSource)

  /** The `apiCall` a helper makes. `encode` stands for `encodeURIComponent`;
      `source` is the accessor a protected helper is given (public helpers take
      none). */
  function HelperCall(h: Helper, encode: string -> string, source: TokenSource): (c: Call)
    ensures c.options.headers == map[]
    ensures c.source == if IsPublic(h) then NoAccessor else source
  {
    match h
    case GetPublicArtifacts => Call("/artifacts", Options(Some("GET"), None, map[]), NoAccessor)
    case GetTopLikedArtifacts => Call("/artifacts/top-liked", Options(Some("GET"), None, map[]), NoAccessor)
    case SearchArtifacts(q) => Call("/artifacts/search?q=" + encode(q), Options(Some("GET"), None, map[]), NoAccessor)
    case AddArtifact(data) => Call("/artifacts", Options(Some("POST"), Some(data), map[]), source)
    case UpdateArtifact(id, data) => Call("/artifacts/" + id, Options(Some("PATCH"), Some(data), map[]), source)
    case DeleteArtifact(id) => Call("/artifacts/" + id, Options(Some("DELETE"), None, map[]), source)
    case LikeArtifact(id) => Call("/artifacts/" + id + "/like", Options(Some("PATCH"), None, map[]), source)
    case DislikeArtifact(id) => Call("/artifacts/" + id + "/dislike", Options(Some("PATCH"), None, map[]), source)
    case GetUserArtifacts => Call("/artifacts/user/me", Options(Some("GET"), None, map[]), source)
    case GetLikedArtifacts => Call("/artifacts/liked/me", Options(Some("GET"), None, map[]), source)
  }

  /** The public helpers never send an Authorization header, whatever accessor
      the caller has: they send only the JSON content type. */
  lemma PublicHelpersSendNoAuthorization(h: Helper, encode: string -> string, source: TokenSource,
                                         configured: string)
    requires IsPublic(h)
    ensures var c := HelperCall(h, encode, source);
      BuildRequest(configured, c.endpoint, c.options, c.source).headers == map[ContentType := JsonMedia]
  {
  }

  /** A protected helper sends the bearer token its accessor resolves. */
  lemma ProtectedHelpersSendBearer(h: Helper, encode: string -> string, token: string, configured: string)
    requires !IsPublic(h) && token != ""
    ensures var c := HelperCall(h, encode, Accessor(Some(token)));
      BuildRequest(configured, c.endpoint, c.options, c.source).headers
        == map[ContentType := JsonMedia, Authorization := "Bearer " + token]
  {
  }

  // ---------------------------------------------------------------------------
  // The routing table, as an independent reference for the helpers
  // ---------------------------------------------------------------------------

  const Collection := "/artifacts"
  const ItemPrefix := "/artifacts/"
  const SearchPrefix := "/artifacts/search?q="

  predicate HasPrefix(s: string, prefix: string) { |prefix| <= |s| && s[..|prefix|] == prefix }
  predicate HasSuffix(s: string, suffix: string) { |suffix| <= |s| && s[|s| - |suffix|..] == suffix }

  /** An id written into a path: it contains no '/'. */
  predicate PathSafe(id: string) { '/' !in id }

  /** The ids a helper writes into its path are path segments. */
  predicate SafeHelper(h: Helper)
  {
    match h
    case UpdateArtifact(id, _) => PathSafe(id)
    case DeleteArtifact(id) => PathSafe(id)
    case LikeArtifact(id) => PathSafe(id)
    case DislikeArtifact(id) => PathSafe(id)
    case _ => true
  }

  /** The item id of a path `/artifacts/{id}{tail}` with a '/'-free id, if the
      path has that shape. */
  function ItemId(path: string, tail: string): (r: Option<string>)
    ensures r.Some? ==> PathSafe(r.value) && path == ItemPrefix + r.value + tail
  {
    if HasPrefix(path, ItemPrefix) && HasSuffix(path[|ItemPrefix|..], tail) then
      var rest := path[|ItemPrefix|..];
      var id := rest[..|rest| - |tail|];
      assert rest == id + tail;
      assert path == ItemPrefix + rest;
      if PathSafe(id) then Some(id) else None
    else None
  }

  /** Which helper a method, path and body belong to, read back as a server's
      router would. Searches come back with the query as it appears on the wire. */
  function Recognize(verb: Option<string>, path: string, body: Option<string>): Option<Helper>
  {
    if verb == Some("GET") && body.None? then
      if path == Collection then Some(GetPublicArtifacts)
      else if path == "/artifacts/top-liked" then Some(GetTopLikedArtifacts)
      else if path == "/artifacts/user/me" then Some(GetUserArtifacts)
      else if path == "/artifacts/liked/me" then Some(GetLikedArtifacts)
      else if HasPrefix(path, SearchPrefix) then Some(SearchArtifacts(path[|SearchPrefix|..]))
      else None
    else if verb == Some("POST") && path == Collection && body.Some? then Some(AddArtifact(body.value))
    else if verb == Some("PATCH") && body.None? then
      match ItemId(path, "/like")
      case Some(id) => Some(LikeArtifact(id))
      case None =>
        match ItemId(path, "/dislike")
        case Some(id) => Some(DislikeArtifact(id))
        case None => None
    else if verb == Some("PATCH") && body.Some? then
      match ItemId(path, "")
      case Some(id) => Some(UpdateArtifact(id, body.value))
      case None => None
    else if verb == Some("DELETE") && body.None? then
      match ItemId(path, "")
      case Some(id) => Some(DeleteArtifact(id))
      case None => None
    else None
  }

  /** The helper as its request shows it: a search carries its encoded query. */
  function OnWire(h: Helper, encode: string -> string): Helper
  {
    if h.SearchArtifacts? then SearchArtifacts(encode(h.query)) else h
  }

  lemma ItemIdOf(id: string, tail: string)
    requires PathSafe(id)
    ensures ItemId(ItemPrefix + id + tail, tail) == Some(id)
  {
    var path := ItemPrefix + id + tail;
    assert path[..|ItemPrefix|] == ItemPrefix;
    assert path[|ItemPrefix|..] == id + tail;
    assert (id + tail)[..|id|] == id;
  }

  /** A like path does not end in '/dislike' and vice versa. */
  lemma LikeIsNotDislike(id: string)
    ensures ItemId(ItemPrefix + id + "/like", "/dislike").None?
    ensures ItemId(ItemPrefix + id + "/dislike", "/like").None?
  {
    var p := ItemPrefix + id + "/like";
    var rest := p[|ItemPrefix|..];
    assert rest == id + "/like";
    if |rest| >= 8 {
      assert rest[|rest| - 8..][3] == rest[|rest| - 5] == '/';
    }
    var q := ItemPrefix + id + "/dislike";
    var tail := q[|ItemPrefix|..];
    assert tail == id + "/dislike";
    assert tail[|tail| - 5..][0] == tail[|tail| - 5] == 's';
  }

  /** Every helper's request is recognised as that helper: the method, path and
      body of each helper are fixed and no two helpers share them. */
  lemma {:induction false} RecognizeHelperCall(h: Helper, encode: string -> string, source: TokenSource)
    requires SafeHelper(h)
    ensures var c := HelperCall(h, encode, source);
      Recognize(c.options.verb, c.endpoint, c.options.body) == Some(OnWire(h, encode))
  {
    match h
    case SearchArtifacts(q) =>
      var path := SearchPrefix + encode(q);
      assert path[..|SearchPrefix|] == SearchPrefix;
      assert path[|SearchPrefix|..] == encode(q);
      assert path[11] == 's';
      assert "/artifacts/top-liked"[11] == 't';
      assert "/artifacts/user/me"[11] == 'u' && "/artifacts/liked/me"[11] == 'l';
    case UpdateArtifact(id, _) =>
      assert ItemPrefix + id + "" == ItemPrefix + id;
      ItemIdOf(id, "");
    case DeleteArtifact(id) =>
      assert ItemPrefix + id + "" == ItemPrefix + id;
      ItemIdOf(id, "");
    case LikeArtifact(id) =>
      ItemIdOf(id, "/like");
    case DislikeArtifact(id) =>
      ItemIdOf(id, "/dislike");
      LikeIsNotDislike(id);
    case _ =>
  }

  /** Conversely, whatever the router recognises is exactly the request that
      helper makes (with the query taken as already encoded). */
  lemma RecognizedIsHelperCall(verb: Option<string>, path: string, body: Option<string>, source: TokenSource)
    requires Recognize(verb, path, body).Some?
    ensures var h := Recognize(verb, path, body).value;
      var c := HelperCall(h, s => s, source);
      SafeHelper(h) && c.options.verb == verb && c.endpoint == path && c.options.body == body
  {
    var h := Recognize(verb, path, body).value;
    if h.SearchArtifacts? {
      assert path == SearchPrefix + path[|SearchPrefix|..];
    } else if h.LikeArtifact? {
      assert ItemId(path, "/like") == Some(h.id);
    } else if h.DislikeArtifact? {
      assert ItemId(path, "/dislike") == Some(h.id);
    } else if h.UpdateArtifact? || h.DeleteArtifact? {
      assert ItemId(path, "") == Some(h.id);
    }
  }
}
