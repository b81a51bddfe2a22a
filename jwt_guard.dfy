/** The API's route guard: it takes the second space-separated word of the
    `Authorization` header as the token, asks the token verifier (not part of this
    model, so a parameter) for its payload, and on success attaches the payload to
    the request as its user. The first word is not looked at. */
module JwtGuard {
  import opened Wrappers
  import opened Json
  import JsStrings
  import HttpClient

  /** `authService.verifyToken`: the payload, or `None` where it throws. */
  type TokenVerifier = string -> Option<Json>

  /** The token the guard reads from the header: none for a missing or empty header
      and none when the second field is absent or empty. */
  function TokenOf(authHeader: Option<string>): (token: Option<string>)
    ensures token.Some? ==> token.value != "" && ' ' !in token.value
    ensures authHeader.None? || authHeader.value == "" ==> token.None?
  {
    if authHeader.None? || authHeader.value == "" then None
    else
      var fields := JsStrings.Split(authHeader.value, ' ');
      if |fields| < 2 || fields[1] == "" then None else Some(fields[1])
  }

  /** Whatever the first word is, a non-empty space-free second word followed by
      nothing or by another space is the token. */
  lemma TokenIsSecondWord(scheme: string, token: string, rest: string)
    requires ' ' !in scheme && ' ' !in token && token != ""
    requires rest == "" || rest[0] == ' '
    ensures TokenOf(Some(scheme + " " + token + rest)) == Some(token)
  {
    SecondField(scheme, token, rest);
  }

  lemma SecondField(scheme: string, token: string, rest: string)
    requires ' ' !in scheme && ' ' !in token
    requires rest == "" || rest[0] == ' '
    ensures var fields := JsStrings.Split(scheme + " " + token + rest, ' '); |fields| >= 2 && fields[1] == token
  {
    var tail := token + rest;
    assert scheme + " " + token + rest == scheme + [' '] + tail;
    JsStrings.SplitAfter(scheme, ' ', tail);
    FirstField(token, rest);
  }

  /** A space-free word followed by nothing or by a space is the first field. */
  lemma FirstField(word: string, rest: string)
    requires ' ' !in word
    requires rest == "" || rest[0] == ' '
    ensures JsStrings.Split(word + rest, ' ')[0] == word
  {
    if rest == "" {
      assert word + rest == word;
      JsStrings.SplitAbsent(word, ' ');
    } else {
      assert word + rest == word + [' '] + rest[1..];
      JsStrings.SplitAfter(word, ' ', rest[1..]);
    }
  }

  /** A header without a space, such as a bare `Bearer`, has no token, and neither
      has one whose first two words are separated by two spaces. */
  lemma NoTokenWithoutSecondWord(scheme: string, rest: string)
    requires ' ' !in scheme
    ensures TokenOf(Some(scheme)) == None
    ensures TokenOf(Some(scheme + "  " + rest)) == None
  {
    JsStrings.SplitAbsent(scheme, ' ');
    var h := scheme + "  " + rest;
    assert h == scheme + [' '] + (" " + rest);
    assert " " + rest == "" + [' '] + rest;
    JsStrings.SplitAfter(scheme, ' ', " " + rest);
    JsStrings.SplitAfter("", ' ', rest);
  }

  /** The guard reads back exactly the token the web client attaches. */
  lemma ReadsClientBearer(token: string)
    requires ' ' !in token && token != ""
    ensures TokenOf(Some(HttpClient.BearerValue(token))) == Some(token)
  {
    TokenIsSecondWord("Bearer", token, "");
    assert HttpClient.BearerValue(token) == "Bearer" + " " + token + "";
  }

  /** The incoming request: its `Authorization` header and the user the guard
      attaches. */
  class Request {
    const authorization: Option<string>
    var user: Option<Json>

    constructor (authorization: Option<string>)
      ensures this.authorization == authorization && user == None
    {
      this.authorization := authorization;
      user := None;
    }
  }

  /** `validateRequest`: true exactly when a token was found and verified; only then
      is the request's user set, to the verified payload. */
  method ValidateRequest(request: Request, verifyToken: TokenVerifier) returns (allowed: bool)
    modifies request
    ensures allowed <==> TokenOf(request.authorization).Some? && verifyToken(TokenOf(request.authorization).value).Some?
    ensures allowed ==> request.user == verifyToken(TokenOf(request.authorization).value)
    ensures !allowed ==> request.user == old(request.user)
  {
    var token := TokenOf(request.authorization);
    if token.None? {
      return false;
    }
    var payload := verifyToken(token.value);
    if payload.None? {
      return false;
    }
    request.user := payload;
    allowed := true;
  }
}
