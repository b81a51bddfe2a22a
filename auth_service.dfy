/** The client's session: the signed-in user cached in `localStorage` for 24 hours
    next to its expiry time, the access token written by login, register and refresh,
    and `getCurrentUser`, which retries once through a refresh after a 401. The clock
    is the parameter `now` (milliseconds, as `Date.now()` returns them). */
module AuthService {
  import opened Wrappers
  import opened Json
  import opened LocalStorage
  import opened HttpClient
  import JsStrings

  const UserCacheKey: string := "user_cache"
  const UserCacheExpiryKey: string := "user_cache_expiry"
  /** `24 * 60 * 60 * 1000`: how long a cached user stays valid, in milliseconds. */
  const Day: int := 86400000

  const RegisterEndpoint: string := "/api/v1/user/register"
  const LoginEndpoint: string := "/api/v1/user/login"
  const RefreshEndpoint: string := "/api/v1/user/refresh"
  const MeEndpoint: string := "/api/v1/user/me"

  const UserExistsMessage: string := "이미 존재하는 사용자입니다."
  const InvalidCredentialsMessage: string := "이메일 또는 비밀번호가 올바르지 않습니다."
  const SessionExpiredMessage: string := "세션이 만료되었습니다. 다시 로그인해주세요."
  const AuthExpiredMessage: string := "인증이 만료되었습니다. 다시 로그인해주세요."

  /** What these functions throw: an `ApiRequestError` passed on, or a plain `Error`. */
  datatype Thrown = ApiError(error: ApiRequestError) | PlainError(message: string)

  // ---------------------------------------------------------------------------
  // The user cache

  /** Both cache entries hold something truthy (present and not the empty string). */
  predicate CachePresent(items: map<string, string>) {
    UserCacheKey in items && items[UserCacheKey] != "" &&
    UserCacheExpiryKey in items && items[UserCacheExpiryKey] != ""
  }

  /** `removeCachedUser` on the stored map. */
  function WithoutCache(items: map<string, string>): (r: map<string, string>)
    ensures UserCacheKey !in r && UserCacheExpiryKey !in r
    ensures forall k :: k in items && k != UserCacheKey && k != UserCacheExpiryKey ==> k in r && r[k] == items[k]
    ensures forall k :: k in r ==> k in items
  {
    items - {UserCacheKey, UserCacheExpiryKey}
  }

  /** `clearAllTokens` on the stored map. */
  function Cleared(items: map<string, string>): (r: map<string, string>)
    ensures AccessTokenKey !in r && UserCacheKey !in r && UserCacheExpiryKey !in r
    ensures forall k :: k in items && k != AccessTokenKey && k != UserCacheKey && k != UserCacheExpiryKey ==> k in r && r[k] == items[k]
    ensures forall k :: k in r ==> k in items
  {
    WithoutCache(items - {AccessTokenKey})
  }

  /** What `getCachedUser` returns (`JNull` for `null`) and leaves in storage. */
  datatype CacheRead = CacheRead(user: Json, items: map<string, string>)

  /** The specification of `getCachedUser`: a missing entry gives `null` and changes
      nothing; an expiry in the past gives `null` and drops both entries (an expiry
      that does not parse is `NaN`, which never lies in the past); a cached user that
      does not parse also drops both entries. */
  function ReadCache(items: map<string, string>, codec: Codec, now: int): CacheRead {
    if !CachePresent(items) then CacheRead(JNull, items)
    else
      var expiry := JsStrings.ParseInt(items[UserCacheExpiryKey]);
      if expiry.Some? && now > expiry.value then CacheRead(JNull, WithoutCache(items))
      else
        match codec.parse(items[UserCacheKey])
        case Some(user) => CacheRead(user, items)
        case None => CacheRead(JNull, WithoutCache(items))
  }

  /** The specification of `setCachedUser`: the user as JSON, and the expiry `now + Day`
      as a decimal string. */
  function WriteCache(items: map<string, string>, codec: Codec, user: Json, now: int): (r: map<string, string>)
    ensures UserCacheKey in r && UserCacheExpiryKey in r && r[UserCacheKey] == codec.stringify(user)
    ensures JsStrings.ParseInt(r[UserCacheExpiryKey]) == Some(now + Day)
    ensures forall k :: k in items && k != UserCacheKey && k != UserCacheExpiryKey ==> k in r && r[k] == items[k]
  {
    JsStrings.ParseIntToString(now + Day);
    items[UserCacheKey := codec.stringify(user)][UserCacheExpiryKey := JsStrings.IntToString(now + Day)]
  }

  /** `getCachedUser`. */
  method GetCachedUser(ls: Storage, codec: Codec, now: int) returns (user: Json)
    modifies ls
    ensures user == ReadCache(old(ls.items), codec, now).user
    ensures ls.items == ReadCache(old(ls.items), codec, now).items
  {
    var cachedUser := ls.GetItem(UserCacheKey);
    var expiryTime := ls.GetItem(UserCacheExpiryKey);
    if cachedUser.None? || cachedUser.value == "" || expiryTime.None? || expiryTime.value == "" {
      return JNull;
    }
    var expiry := JsStrings.ParseInt(expiryTime.value);
    if expiry.Some? && now > expiry.value {
      RemoveCachedUser(ls);
      return JNull;
    }
    var parsed := codec.parse(cachedUser.value);
    if parsed.None? {
      RemoveCachedUser(ls);
      return JNull;
    }
    user := parsed.value;
  }

  /** `setCachedUser`. */
  method SetCachedUser(ls: Storage, codec: Codec, user: Json, now: int)
    modifies ls
    ensures ls.items == WriteCache(old(ls.items), codec, user, now)
  {
    ls.SetItem(UserCacheKey, codec.stringify(user));
    ls.SetItem(UserCacheExpiryKey, JsStrings.IntToString(now + Day));
  }

  /** `removeCachedUser`. */
  method RemoveCachedUser(ls: Storage)
    modifies ls
    ensures ls.items == WithoutCache(old(ls.items))
  {
    ls.RemoveItem(UserCacheKey);
    ls.RemoveItem(UserCacheExpiryKey);
  }

  /** A user cached at `t` is read back unchanged at any time up to `t + Day`, and
      the read leaves the storage as it is. */
  lemma CacheRoundTrip(items: map<string, string>, codec: Codec, user: Json, t: int, later: int)
    requires later <= t + Day
    requires RoundTrips(codec, user) && codec.stringify(user) != ""
    ensures ReadCache(WriteCache(items, codec, user, t), codec, later) == CacheRead(user, WriteCache(items, codec, user, t))
  {
    var written := WriteCache(items, codec, user, t);
    assert JsStrings.ParseInt(written[UserCacheExpiryKey]) == Some(t + Day);
    assert codec.parse(written[UserCacheKey]) == Some(user);
  }

  /** After `t + Day` the same entry reads as `null` and both entries are gone. */
  lemma CacheExpires(items: map<string, string>, codec: Codec, user: Json, t: int, later: int)
    requires later > t + Day
    requires codec.stringify(user) != ""
    ensures ReadCache(WriteCache(items, codec, user, t), codec, later) == CacheRead(JNull, WithoutCache(WriteCache(items, codec, user, t)))
  {
    var written := WriteCache(items, codec, user, t);
    assert JsStrings.ParseInt(written[UserCacheExpiryKey]) == Some(t + Day);
  }

  /** A missing or empty entry reads as `null` and nothing is removed; an entry that
      cannot be dropped by expiry but does not parse reads as `null` and is removed. */
  lemma CacheReadCases(items: map<string, string>, codec: Codec, now: int)
    ensures !CachePresent(items) ==> ReadCache(items, codec, now) == CacheRead(JNull, items)
    ensures CachePresent(items) && JsStrings.ParseInt(items[UserCacheExpiryKey]).None? && codec.parse(items[UserCacheKey]).None? ==>
      ReadCache(items, codec, now) == CacheRead(JNull, WithoutCache(items))
    ensures ReadCache(items, codec, now).user != JNull ==>
      ReadCache(items, codec, now).items == items && Some(ReadCache(items, codec, now).user) == codec.parse(items[UserCacheKey])
  {
  }

  // ---------------------------------------------------------------------------
  // Signing out

  /** Clearing after a refresh forgets whatever the refresh stored or removed. */
  lemma ClearedAbsorbs(items: map<string, string>, token: string)
    ensures Cleared(items[AccessTokenKey := token]) == Cleared(items)
    ensures Cleared(Cleared(items)) == Cleared(items)
  {
  }

  /** `clearAllTokens`: the token and both cache entries are removed. */
  method ClearAllTokens(ls: Storage)
    modifies ls
    ensures ls.items == Cleared(old(ls.items))
    ensures !IsLoggedIn(ls)
  {
    RemoveAccessToken(ls);
    RemoveCachedUser(ls);
  }

  /** `logout`. */
  method Logout(ls: Storage)
    modifies ls
    ensures ls.items == Cleared(old(ls.items))
    ensures !IsLoggedIn(ls)
  {
    ClearAllTokens(ls);
  }

  /** `isLoggedIn`: an access token is stored (an empty one counts). */
  function IsLoggedIn(ls: Storage): (b: bool)
    reads ls
    ensures b <==> AccessTokenKey in ls.items
  {
    GetAccessToken(ls) != None
  }

  /** After signing out there is no cached user, whenever it is read. */
  lemma ClearedHasNoUser(items: map<string, string>, codec: Codec, now: int)
    ensures ReadCache(Cleared(items), codec, now) == CacheRead(JNull, Cleared(items))
  {
    assert !CachePresent(Cleared(items));
  }

  // ---------------------------------------------------------------------------
  // Calls that yield a token

  /** `response.accessToken.value`, when it is a string. */
  function AccessTokenOf(response: Json): (t: Option<string>)
    ensures t.Some? <==>
      response.JObject? && "accessToken" in response.fields && response.fields["accessToken"].JObject? &&
      "value" in response.fields["accessToken"].fields && response.fields["accessToken"].fields["value"].JString?
    ensures t.Some? ==> response.fields["accessToken"].fields["value"] == JString(t.value)
  {
    match response
    case JObject(fields) =>
      if "accessToken" in fields && fields["accessToken"].JObject? && "value" in fields["accessToken"].fields then
        match fields["accessToken"].fields["value"]
        case JString(value) => Some(value)
        case _ => None
      else None
    case _ => None
  }

  /** How login, register and refresh end: a token-bearing answer is returned, one
      without a token throws a `TypeError`, the status the caller names becomes a
      plain `Error` with its message, and every other `ApiRequestError` is rethrown. */
  function TokenCallResult(o: Result<Json, ApiRequestError>, status: int, message: string): Result<Json, Thrown> {
    match o
    case Failure(e) => Failure(if e.status == status then PlainError(message) else ApiError(e))
    case Success(v) => if AccessTokenOf(v).Some? then Success(v) else Failure(PlainError(JsStrings.TypeErrorMessage))
  }

  /** The three ways a token call can end, in both directions. */
  lemma TokenCallResultCases(o: Result<Json, ApiRequestError>, status: int, message: string)
    requires message != JsStrings.TypeErrorMessage
    ensures TokenCallResult(o, status, message).Success? <==> o.Success? && AccessTokenOf(o.value).Some?
    ensures TokenCallResult(o, status, message) == Failure(PlainError(message)) <==> o.Failure? && o.error.status == status
    ensures (exists e :: TokenCallResult(o, status, message) == Failure(ApiError(e))) <==> o.Failure? && o.error.status != status
    ensures TokenCallResult(o, status, message).Success? ==> TokenCallResult(o, status, message).value == o.value
  {
    if o.Failure? && o.error.status != status {
      assert TokenCallResult(o, status, message) == Failure(ApiError(o.error));
    }
  }

  /** The storage after a token call: the token is stored exactly on success. */
  function TokenItems(items: map<string, string>, r: Result<Json, Thrown>): map<string, string> {
    if r.Success? && AccessTokenOf(r.value).Some? then items[AccessTokenKey := AccessTokenOf(r.value).value] else items
  }

  function PostInit(body: Option<string>): RequestInit {
    RequestInit(Some("POST"), None, body)
  }

  /** `registerUser`: a 409 becomes the user-exists message. */
  method RegisterUser(ls: Storage, codec: Codec, net: Network, baseUrl: string, userData: Json)
    returns (r: Result<Json, Thrown>)
    modifies ls, net
    ensures net.sent == old(net.sent) +
      [SentRequest(RequestUrl(baseUrl, RegisterEndpoint), ConfigFor(PostInit(Some(codec.stringify(userData))), old(GetAccessToken(ls)), RegisterEndpoint))]
    ensures r == TokenCallResult(Normalize(codec, old(net.NextOutcome())), 409, UserExistsMessage)
    ensures ls.items == TokenItems(old(ls.items), r)
  {
    var response := HttpRequest(ls, codec, net, baseUrl, RegisterEndpoint, PostInit(Some(codec.stringify(userData))));
    if response.Failure? {
      if response.error.status == 409 {
        return Failure(PlainError(UserExistsMessage));
      }
      return Failure(ApiError(response.error));
    }
    var token := AccessTokenOf(response.value);
    if token.None? {
      return Failure(PlainError(JsStrings.TypeErrorMessage));
    }
    SetAccessToken(ls, token.value);
    r := Success(response.value);
  }

  /** `loginUser`: a 401 becomes the wrong-credentials message. */
  method LoginUser(ls: Storage, codec: Codec, net: Network, baseUrl: string, credentials: Json)
    returns (r: Result<Json, Thrown>)
    modifies ls, net
    ensures net.sent == old(net.sent) +
      [SentRequest(RequestUrl(baseUrl, LoginEndpoint), ConfigFor(PostInit(Some(codec.stringify(credentials))), old(GetAccessToken(ls)), LoginEndpoint))]
    ensures r == TokenCallResult(Normalize(codec, old(net.NextOutcome())), 401, InvalidCredentialsMessage)
    ensures ls.items == TokenItems(old(ls.items), r)
  {
    var response := HttpRequest(ls, codec, net, baseUrl, LoginEndpoint, PostInit(Some(codec.stringify(credentials))));
    if response.Failure? {
      if response.error.status == 401 {
        return Failure(PlainError(InvalidCredentialsMessage));
      }
      return Failure(ApiError(response.error));
    }
    var token := AccessTokenOf(response.value);
    if token.None? {
      return Failure(PlainError(JsStrings.TypeErrorMessage));
    }
    SetAccessToken(ls, token.value);
    r := Success(response.value);
  }

  /** The storage after a refresh: the new token on success, everything signed out
      on a 401, unchanged otherwise. */
  function RefreshItems(items: map<string, string>, o: Result<Json, ApiRequestError>): map<string, string> {
    if o.Failure? && o.error.status == 401 then Cleared(items)
    else TokenItems(items, TokenCallResult(o, 401, SessionExpiredMessage))
  }

  /** `refreshAccessToken`: a 401 signs out before the session-expired message. */
  method RefreshAccessToken(ls: Storage, codec: Codec, net: Network, baseUrl: string)
    returns (r: Result<Json, Thrown>)
    modifies ls, net
    ensures net.sent == old(net.sent) +
      [SentRequest(RequestUrl(baseUrl, RefreshEndpoint), ConfigFor(PostInit(None), old(GetAccessToken(ls)), RefreshEndpoint))]
    ensures net.pending == if old(net.pending) == [] then [] else old(net.pending)[1..]
    ensures r == TokenCallResult(Normalize(codec, old(net.NextOutcome())), 401, SessionExpiredMessage)
    ensures ls.items == RefreshItems(old(ls.items), Normalize(codec, old(net.NextOutcome())))
  {
    var response := HttpRequest(ls, codec, net, baseUrl, RefreshEndpoint, PostInit(None));
    if response.Failure? {
      if response.error.status == 401 {
        ClearAllTokens(ls);
        return Failure(PlainError(SessionExpiredMessage));
      }
      return Failure(ApiError(response.error));
    }
    var token := AccessTokenOf(response.value);
    if token.None? {
      return Failure(PlainError(JsStrings.TypeErrorMessage));
    }
    SetAccessToken(ls, token.value);
    r := Success(response.value);
  }

  // ---------------------------------------------------------------------------
  // The current user

  /** The k-th answer the network will give (a failure once none are left). */
  function Answer(answers: seq<FetchOutcome>, k: nat): FetchOutcome {
    if k < |answers| then answers[k] else NetworkFailure
  }

  /** The answers left after one request. */
  function Rest(answers: seq<FetchOutcome>): seq<FetchOutcome> {
    if answers == [] then [] else answers[1..]
  }

  lemma AnswerRest(answers: seq<FetchOutcome>, k: nat)
    ensures Answer(Rest(answers), k) == Answer(answers, k + 1)
  {
  }

  /** What `getCurrentUser` ends with, what it leaves in storage, and how many
      requests it sends. */
  datatype SessionRun = SessionRun(result: Result<Json, Thrown>, items: map<string, string>, requests: nat)

  /** The specification of the retry after a 401: a refresh, then one more `/me`;
      if either fails the session is cleared. */
  function RefreshRun(items: map<string, string>, codec: Codec, answers: seq<FetchOutcome>, now: int): SessionRun {
    var refreshed := TokenCallResult(Normalize(codec, Answer(answers, 0)), 401, SessionExpiredMessage);
    if refreshed.Failure? then SessionRun(Failure(PlainError(AuthExpiredMessage)), Cleared(items), 1)
    else
      var retried := Normalize(codec, Answer(answers, 1));
      if retried.Success? then
        SessionRun(Success(retried.value), WriteCache(items[AccessTokenKey := AccessTokenOf(refreshed.value).value], codec, retried.value, now), 2)
      else SessionRun(Failure(PlainError(AuthExpiredMessage)), Cleared(items), 2)
  }

  /** The specification of `getCurrentUser` over the answers still to come: a user
      is cached; a 401 is followed by the retry above; any other error is rethrown. */
  function CurrentUserRun(items: map<string, string>, codec: Codec, answers: seq<FetchOutcome>, now: int): SessionRun {
    var first := Normalize(codec, Answer(answers, 0));
    if first.Success? then SessionRun(Success(first.value), WriteCache(items, codec, first.value, now), 1)
    else if first.error.status != 401 then SessionRun(Failure(ApiError(first.error)), items, 1)
    else
      var retry := RefreshRun(items, codec, Rest(answers), now);
      SessionRun(retry.result, retry.items, retry.requests + 1)
  }

  /** The inner `try` of `getCurrentUser`: the refresh, then `/me` with the new token. */
  method RefreshThenRetry(ls: Storage, codec: Codec, net: Network, baseUrl: string, now: int)
    returns (r: Result<Json, Thrown>)
    modifies ls, net
    ensures var run := RefreshRun(old(ls.items), codec, old(net.pending), now);
      r == run.result && ls.items == run.items &&
      |net.sent| == |old(net.sent)| + run.requests && net.sent[..|old(net.sent)|] == old(net.sent)
    ensures net.sent[|old(net.sent)|] ==
      SentRequest(RequestUrl(baseUrl, RefreshEndpoint), ConfigFor(PostInit(None), old(GetAccessToken(ls)), RefreshEndpoint))
    ensures |net.sent| == |old(net.sent)| + 2 ==>
      net.sent[|old(net.sent)| + 1] == SentRequest(RequestUrl(baseUrl, MeEndpoint),
        ConfigFor(NoInit, AccessTokenOf(Normalize(codec, Answer(old(net.pending), 0)).value), MeEndpoint))
  {
    ghost var answers := net.pending;
    ghost var items := ls.items;
    ghost var run := RefreshRun(items, codec, answers, now);
    ghost var first := Normalize(codec, Answer(answers, 0));
    var refreshed := RefreshAccessToken(ls, codec, net, baseUrl);
    assert refreshed == TokenCallResult(first, 401, SessionExpiredMessage);
    assert Answer(net.pending, 0) == Answer(answers, 1);
    if refreshed.Success? {
      ghost var afterRefresh := net.sent;
      ghost var token := AccessTokenOf(refreshed.value).value;
      assert ls.items == items[AccessTokenKey := token];
      var retried := HttpRequest(ls, codec, net, baseUrl, MeEndpoint, NoInit);
      assert retried == Normalize(codec, Answer(answers, 1));
      assert net.sent == afterRefresh + [net.sent[|afterRefresh|]];
      if retried.Success? {
        SetCachedUser(ls, codec, retried.value, now);
        assert run == SessionRun(Success(retried.value), ls.items, 2);
        return Success(retried.value);
      }
      assert run == SessionRun(Failure(PlainError(AuthExpiredMessage)), Cleared(items), 2);
      ClearedAbsorbs(items, token);
    } else {
      assert run == SessionRun(Failure(PlainError(AuthExpiredMessage)), Cleared(items), 1);
      assert ls.items == items || ls.items == Cleared(items);
      ClearedAbsorbs(items, "");
    }
    ClearAllTokens(ls);
    r := Failure(PlainError(AuthExpiredMessage));
  }

  /** `getCurrentUser`. The retry after a refresh carries the new token. */
  method GetCurrentUser(ls: Storage, codec: Codec, net: Network, baseUrl: string, now: int)
    returns (r: Result<Json, Thrown>)
    modifies ls, net
    ensures var run := CurrentUserRun(old(ls.items), codec, old(net.pending), now);
      r == run.result && ls.items == run.items &&
      |net.sent| == |old(net.sent)| + run.requests && net.sent[..|old(net.sent)|] == old(net.sent)
    ensures net.sent[|old(net.sent)|] == SentRequest(RequestUrl(baseUrl, MeEndpoint), ConfigFor(NoInit, old(GetAccessToken(ls)), MeEndpoint))
    ensures |net.sent| == |old(net.sent)| + 3 ==>
      net.sent[|old(net.sent)| + 2] == SentRequest(RequestUrl(baseUrl, MeEndpoint),
        ConfigFor(NoInit, AccessTokenOf(Normalize(codec, Answer(old(net.pending), 1)).value), MeEndpoint))
  {
    ghost var answers := net.pending;
    ghost var sent0 := net.sent;
    var response := HttpRequest(ls, codec, net, baseUrl, MeEndpoint, NoInit);
    if response.Success? {
      SetCachedUser(ls, codec, response.value, now);
      return Success(response.value);
    }
    if response.error.status != 401 {
      return Failure(ApiError(response.error));
    }
    ghost var sent1 := net.sent;
    ghost var items := ls.items;
    assert net.pending == Rest(answers);
    AnswerRest(answers, 0);
    ghost var retry := RefreshRun(items, codec, Rest(answers), now);
    assert CurrentUserRun(items, codec, answers, now) == SessionRun(retry.result, retry.items, retry.requests + 1);
    r := RefreshThenRetry(ls, codec, net, baseUrl, now);
    ExtendsTwice(sent0, sent1, net.sent);
  }

  /** A log that extends a log that extends `a` still begins with `a`. */
  lemma ExtendsTwice(a: seq<SentRequest>, b: seq<SentRequest>, c: seq<SentRequest>)
    requires |a| < |b| <= |c| && b[..|a|] == a && c[..|b|] == b
    ensures c[..|a|] == a && c[|a|] == b[|a|]
  {
    assert c[..|a|] == c[..|b|][..|a|];
  }

  /** A user that `getCurrentUser` returns is in the cache for the next 24 hours. */
  lemma CurrentUserIsCached(items: map<string, string>, codec: Codec, answers: seq<FetchOutcome>, now: int, later: int)
    requires CurrentUserRun(items, codec, answers, now).result.Success?
    requires RoundTrips(codec, CurrentUserRun(items, codec, answers, now).result.value)
    requires codec.stringify(CurrentUserRun(items, codec, answers, now).result.value) != ""
    requires later <= now + Day
    ensures ReadCache(CurrentUserRun(items, codec, answers, now).items, codec, later).user == CurrentUserRun(items, codec, answers, now).result.value
  {
    var run := CurrentUserRun(items, codec, answers, now);
    var first := Normalize(codec, Answer(answers, 0));
    if first.Success? {
      CacheRoundTrip(items, codec, first.value, now, later);
    } else {
      var refreshed := TokenCallResult(Normalize(codec, Answer(answers, 1)), 401, SessionExpiredMessage);
      CacheRoundTrip(items[AccessTokenKey := AccessTokenOf(refreshed.value).value], codec, run.result.value, now, later);
    }
  }

  /** `getCurrentUser` fails with the authentication-expired message exactly when the
      first answer was a 401 and the refresh or the retry failed; the session is then
      cleared. Only a 401 leads to more than one request. */
  lemma CurrentUserSignsOut(items: map<string, string>, codec: Codec, answers: seq<FetchOutcome>, now: int)
    ensures var run := CurrentUserRun(items, codec, answers, now);
      run.result == Failure(PlainError(AuthExpiredMessage)) <==> run.requests > 1 && run.result.Failure?
    ensures var run := CurrentUserRun(items, codec, answers, now);
      run.requests > 1 <==> Normalize(codec, Answer(answers, 0)).Failure? && Normalize(codec, Answer(answers, 0)).error.status == 401
    ensures var run := CurrentUserRun(items, codec, answers, now);
      run.result.Failure? && run.requests > 1 ==> run.items == Cleared(items)
  {
    var first := Normalize(codec, Answer(answers, 0));
    if first.Failure? && first.error.status != 401 {
      assert CurrentUserRun(items, codec, answers, now).result == Failure(ApiError(first.error));
    }
  }
}
