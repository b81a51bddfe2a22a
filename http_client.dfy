/** The shared HTTP client: the access token kept in `localStorage`, the request
    every call is turned into (URL, headers, bearer token), and the normalisation of
    every failure into an `ApiRequestError`. `fetch` is modelled by `Network`, which
    records the requests sent and hands out the answers it is given, in order. */
module HttpClient {
  import opened Wrappers
  import opened Json
  import opened LocalStorage
  import JsStrings

  const AccessTokenKey: string := "access_token"
  const DefaultBaseUrl: string := "http://localhost:3001"
  const NetworkErrorMessage: string := "네트워크 오류가 발생했습니다."
  const HttpErrorPrefix: string := "HTTP error! status: "

  /** `ApiRequestError`: the HTTP status (0 for anything but an error answer) and the message. */
  datatype ApiRequestError = ApiRequestError(status: int, message: string)

  /** The `RequestInit` callers pass (`verb` is its `method`); `None` is a property left undefined. */
  datatype RequestInit = RequestInit(verb: Option<string>, headers: Option<map<string, string>>, body: Option<string>)

  const NoInit: RequestInit := RequestInit(None, None, None)

  /** The `config` handed to `fetch`. */
  datatype RequestConfig = RequestConfig(verb: Option<string>, headers: map<string, string>, body: Option<string>)

  /** What `fetch` yields: a rejection (network failure) or a response. */
  datatype FetchOutcome = NetworkFailure | Response(status: int, body: string)

  datatype SentRequest = SentRequest(url: string, config: RequestConfig)

  /** The network as `fetch` sees it: the answers still to come and the requests made. */
  class Network {
    var pending: seq<FetchOutcome>
    var sent: seq<SentRequest>

    constructor (answers: seq<FetchOutcome>)
      ensures pending == answers && sent == []
    {
      pending := answers;
      sent := [];
    }

    function NextOutcome(): FetchOutcome
      reads this
    {
      if pending == [] then NetworkFailure else pending[0]
    }

    method Fetch(url: string, config: RequestConfig) returns (outcome: FetchOutcome)
      modifies this
      ensures outcome == old(NextOutcome())
      ensures pending == if old(pending) == [] then [] else old(pending)[1..]
      ensures sent == old(sent) + [SentRequest(url, config)]
    {
      outcome := NextOutcome();
      if pending != [] {
        pending := pending[1..];
      }
      sent := sent + [SentRequest(url, config)];
    }
  }

  // ---------------------------------------------------------------------------
  // Token storage

  /** `getAccessToken`. */
  function GetAccessToken(ls: Storage): (t: Option<string>)
    reads ls
    ensures t.Some? <==> AccessTokenKey in ls.items
    ensures t.Some? ==> t.value == ls.items[AccessTokenKey]
  {
    ls.GetItem(AccessTokenKey)
  }

  /** `setAccessToken`. */
  method SetAccessToken(ls: Storage, token: string)
    modifies ls
    ensures ls.items == old(ls.items)[AccessTokenKey := token]
    ensures GetAccessToken(ls) == Some(token)
  {
    ls.SetItem(AccessTokenKey, token);
  }

  /** `removeAccessToken`. */
  method RemoveAccessToken(ls: Storage)
    modifies ls
    ensures ls.items == old(ls.items) - {AccessTokenKey}
    ensures GetAccessToken(ls) == None
  {
    ls.RemoveItem(AccessTokenKey);
  }

  // ---------------------------------------------------------------------------
  // Building the request

  /** `import.meta.env.VITE_API_URL || 'http://localhost:3001'`. */
  function ApiBaseUrl(configured: Option<string>): (url: string)
    ensures configured.Some? && configured.value != "" ==> url == configured.value
    ensures configured.None? || configured.value == "" ==> url == DefaultBaseUrl
  {
    if configured.Some? && configured.value != "" then configured.value else DefaultBaseUrl
  }

  /** The request URL: the base URL followed by the endpoint, nothing in between. */
  function RequestUrl(baseUrl: string, endpoint: string): (url: string)
    ensures JsStrings.StartsWith(url, baseUrl) && url[|baseUrl|..] == endpoint
  {
    baseUrl + endpoint
  }

  /** The headers before the token rule: `{'Content-Type': 'application/json',
      ...options.headers}` is built, but the later `...options` puts the caller's own
      headers object in its place whenever there is one. */
  function BaseHeaders(options: RequestInit): (h: map<string, string>)
    ensures options.headers.Some? ==> h == options.headers.value
    ensures options.headers.None? ==> h == map["Content-Type" := "application/json"]
  {
    var merged := map["Content-Type" := "application/json"] + options.headers.GetOr(map[]);
    if options.headers.Some? then options.headers.value else merged
  }

  /** Whether the bearer token is attached: a non-empty token, and an endpoint that
      names neither `/login` nor `/register`. */
  predicate AttachesToken(token: Option<string>, endpoint: string) {
    token.Some? && token.value != ""
    && !JsStrings.Includes(endpoint, "/login") && !JsStrings.Includes(endpoint, "/register")
  }

  /** The authorization header of section 2.1 of RFC 6750. */
  function BearerValue(token: string): string {
    "Bearer " + token
  }

  function HeadersFor(options: RequestInit, token: Option<string>, endpoint: string): (h: map<string, string>)
    ensures AttachesToken(token, endpoint) ==> h == BaseHeaders(options)["Authorization" := BearerValue(token.value)]
    ensures !AttachesToken(token, endpoint) ==> h == BaseHeaders(options)
  {
    var headers := BaseHeaders(options);
    if AttachesToken(token, endpoint) then headers["Authorization" := BearerValue(token.value)] else headers
  }

  function ConfigFor(options: RequestInit, token: Option<string>, endpoint: string): (config: RequestConfig)
    ensures config.verb == options.verb && config.body == options.body
    ensures config.headers == HeadersFor(options, token, endpoint)
  {
    RequestConfig(options.verb, HeadersFor(options, token, endpoint), options.body)
  }

  /** The token rule in both directions: without caller headers, an `Authorization`
      header is present exactly when the token is attached, and then it carries it. */
  lemma AuthorizationHeaderRule(options: RequestInit, token: Option<string>, endpoint: string)
    requires options.headers.None?
    ensures "Authorization" in HeadersFor(options, token, endpoint) <==> AttachesToken(token, endpoint)
    ensures AttachesToken(token, endpoint) ==>
      HeadersFor(options, token, endpoint)["Authorization"] == "Bearer " + token.value
    ensures HeadersFor(options, token, endpoint)["Content-Type"] == "application/json"
  {
  }

  /** Caller headers replace the default `Content-Type` rather than merging with it. */
  lemma CallerHeadersReplaceDefault(options: RequestInit, token: Option<string>, endpoint: string)
    requires options.headers.Some? && "Content-Type" !in options.headers.value
    ensures "Content-Type" !in HeadersFor(options, token, endpoint)
  {
  }

  // ---------------------------------------------------------------------------
  // Normalising the outcome

  predicate IsOk(status: int) {
    200 <= status <= 299
  }

  /** The truthy `message` of a body that parses to an object, if any. A body that
      parses to anything else has no `message` property (or, for `null`, throws while
      reading it), and the fallback stays. */
  function BodyMessage(codec: Codec, body: string): Option<Json> {
    match codec.parse(body)
    case Some(JObject(fields)) =>
      if "message" in fields && Truthy(fields["message"]) then Some(fields["message"])
      else None
    case _ => None
  }

  /** The message of an error answer: `String` of the parsed body's truthy `message`
      when there is one (so NestJS's array of validation messages is shown joined by
      commas), and otherwise `HTTP error! status: N`. */
  function ErrorMessage(codec: Codec, status: int, body: string): (m: string)
    ensures BodyMessage(codec, body).Some? ==> m == ToJsString(BodyMessage(codec, body).value)
    ensures BodyMessage(codec, body).None? ==> m == HttpErrorPrefix + JsStrings.IntToString(status)
    ensures m == "" ==> BodyMessage(codec, body).Some?
  {
    var fallback := HttpErrorPrefix + JsStrings.IntToString(status);
    match codec.parse(body)
    case Some(JObject(fields)) =>
      if "message" in fields && Truthy(fields["message"]) then ToJsString(fields["message"])
      else fallback
    case _ => fallback
  }

  /** A truthy string `message` is shown as it is. */
  lemma StringMessageShown(codec: Codec, status: int, body: string, fields: map<string, Json>, message: string)
    requires codec.parse(body) == Some(JObject(fields))
    requires "message" in fields && fields["message"] == JString(message) && message != ""
    ensures ErrorMessage(codec, status, body) == message
  {
  }

  /** A list of validation messages, as a `ValidationPipe` answers a bad request
      with, is shown as the messages joined by commas. */
  lemma {:induction false} ValidationMessagesShown(codec: Codec, status: int, body: string, fields: map<string, Json>,
                                elems: seq<Json>, messages: seq<string>)
    requires |messages| >= 1 && |elems| == |messages|
    requires forall i :: 0 <= i < |elems| ==> elems[i] == JString(messages[i])
    requires codec.parse(body) == Some(JObject(fields))
    requires "message" in fields && fields["message"] == JArray(elems)
    ensures ErrorMessage(codec, status, body) == JsStrings.Join(messages, ',')
  {
    JoinedStrings(elems, messages);
    assert Truthy(JArray(elems));
    assert BodyMessage(codec, body) == Some(JArray(elems));
  }

  lemma {:induction false} JoinedStrings(elems: seq<Json>, messages: seq<string>)
    requires |messages| >= 1 && |elems| == |messages|
    requires forall i :: 0 <= i < |elems| ==> elems[i] == JString(messages[i])
    ensures ToJsString(JArray(elems)) == JsStrings.Join(messages, ',')
  {
    var shown := seq(|elems|, i requires 0 <= i < |elems| => ElementString(elems[i]));
    assert shown == messages by {
      forall i | 0 <= i < |elems|
        ensures shown[i] == messages[i]
      {
        assert shown[i] == ElementString(elems[i]);
        assert elems[i] == JString(messages[i]);
        assert ToJsString(JString(messages[i])) == messages[i];
      }
    }
    assert ToJsString(JArray(elems)) == JsStrings.Join(shown, ',');
  }

  /** One validation message is shown alone: registering with `a@b` shows the
      pipe's `email must be an email`, not the status fallback. */
  lemma SingleValidationMessage(codec: Codec, body: string, fields: map<string, Json>)
    requires codec.parse(body) == Some(JObject(fields))
    requires "message" in fields && fields["message"] == JArray([JString("email must be an email")])
    ensures ErrorMessage(codec, 400, body) == "email must be an email"
  {
    ValidationMessagesShown(codec, 400, body, fields, fields["message"].elems, ["email must be an email"]);
  }

  /** A falsy `message` (absent, `null`, `false`, `0` or `""`) leaves the status
      message in place. */
  lemma FalsyMessageFallsBack(codec: Codec, status: int, body: string, fields: map<string, Json>)
    requires codec.parse(body) == Some(JObject(fields))
    requires "message" !in fields || !Truthy(fields["message"])
    ensures ErrorMessage(codec, status, body) == HttpErrorPrefix + JsStrings.IntToString(status)
  {
  }

  /** Every way `httpRequest` can end: the parsed body of a successful answer, an
      `ApiRequestError` with the answer's status for an error answer, and status 0
      for a network failure or an unparsable successful answer. */
  function Normalize(codec: Codec, outcome: FetchOutcome): (r: Result<Json, ApiRequestError>)
    ensures outcome.NetworkFailure? ==> r == Failure(ApiRequestError(0, NetworkErrorMessage))
    ensures outcome.Response? && !IsOk(outcome.status) ==>
      r == Failure(ApiRequestError(outcome.status, ErrorMessage(codec, outcome.status, outcome.body)))
    ensures outcome.Response? && IsOk(outcome.status) ==>
      (r.Success? <==> codec.parse(outcome.body).Some?) &&
      (r.Success? ==> Some(r.value) == codec.parse(outcome.body)) &&
      (r.Failure? ==> r.error == ApiRequestError(0, NetworkErrorMessage))
  {
    match outcome
    case NetworkFailure => Failure(ApiRequestError(0, NetworkErrorMessage))
    case Response(status, body) =>
      if !IsOk(status) then Failure(ApiRequestError(status, ErrorMessage(codec, status, body)))
      else
        match codec.parse(body)
        case Some(v) => Success(v)
        case None => Failure(ApiRequestError(0, NetworkErrorMessage))
  }

  /** A failure carries a non-zero status only when the server answered with an
      error status, and then it is that status. */
  lemma StatusZeroUnlessErrorAnswer(codec: Codec, outcome: FetchOutcome)
    requires Normalize(codec, outcome).Failure?
    requires !(outcome.Response? && outcome.status == 0)
    ensures Normalize(codec, outcome).error.status != 0 <==> outcome.Response? && !IsOk(outcome.status)
  {
  }

  /** `httpRequest`: the request is built from the stored token, sent once, and its
      outcome normalised. */
  method HttpRequest(ls: Storage, codec: Codec, net: Network, baseUrl: string, endpoint: string, options: RequestInit)
    returns (r: Result<Json, ApiRequestError>)
    modifies net
    ensures net.sent == old(net.sent) + [SentRequest(RequestUrl(baseUrl, endpoint), ConfigFor(options, GetAccessToken(ls), endpoint))]
    ensures net.pending == if old(net.pending) == [] then [] else old(net.pending)[1..]
    ensures r == Normalize(codec, old(net.NextOutcome()))
  {
    var url := baseUrl + endpoint;
    var headers := BaseHeaders(options);
    var token := GetAccessToken(ls);
    if token.Some? && token.value != "" && !JsStrings.Includes(endpoint, "/login") && !JsStrings.Includes(endpoint, "/register") {
      headers := headers["Authorization" := "Bearer " + token.value];
    }
    var config := RequestConfig(options.verb, headers, options.body);
    var response := net.Fetch(url, config);
    if response.NetworkFailure? {
      return Failure(ApiRequestError(0, NetworkErrorMessage));
    }
    if !(200 <= response.status <= 299) {
      var errorMessage := HttpErrorPrefix + JsStrings.IntToString(response.status);
      var errorData := codec.parse(response.body);
      if errorData.Some? && errorData.value.JObject? && "message" in errorData.value.fields {
        var message := errorData.value.fields["message"];
        if Truthy(message) {
          errorMessage := ToJsString(message);
        }
      }
      return Failure(ApiRequestError(response.status, errorMessage));
    }
    var parsed := codec.parse(response.body);
    if parsed.None? {
      return Failure(ApiRequestError(0, NetworkErrorMessage));
    }
    r := Success(parsed.value);
  }
}
