/**
 * The API's authentication guard: it takes the bearer token from the
 * `Authorization` header, lets public routes through (attaching the user
 * when the token is good), refuses other routes without a token or with a
 * bad one, mapping the JWT error to a message and business code, and
 * attaches the user, sending a refreshed token back when the token service
 * issues one. Token validation and refreshing are parameters.
 */
module AuthGuard {
  import opened Wrappers
  import opened Text

  const NewTokenHeader := "x-new-token"

  // ---------------------------------------------------------------- the token

  /** `extractTokenFromHeader`: the second space-separated part when the first is `Bearer`. */
  function ExtractToken(authorization: Option<string>): Option<string> {
    if authorization.None? then None
    else
      var parts := Split(authorization.value, ' ');
      if parts[0] == "Bearer" && |parts| >= 2 then Some(parts[1]) else None
  }

  lemma {:induction false} JoinStartsWithFirst(parts: seq<string>, sep: char)
    requires |parts| >= 1
    ensures StartsWith(Join(parts, sep), parts[0])
    ensures |parts| >= 2 ==> StartsWith(Join(parts, sep), parts[0] + [sep])
  {
    if |parts| >= 2 {
      assert Join(parts, sep) == parts[0] + [sep] + Join(parts[1..], sep);
      assert (parts[0] + [sep] + Join(parts[1..], sep))[..|parts[0]| + 1] == parts[0] + [sep];
      assert (parts[0] + [sep] + Join(parts[1..], sep))[..|parts[0]|] == parts[0];
    }
  }

  /**
   * A token is found exactly for a header `Bearer <token>` whose token has
   * no space and is followed by the end of the header or a space.
   */
  lemma ExtractTokenOf(token: string, rest: string)
    requires ' ' !in token && (rest == "" || rest[0] == ' ')
    ensures ExtractToken(Some("Bearer " + token + rest)) == Some(token)
  {
    var h := "Bearer " + token + rest;
    assert h == "Bearer" + [' '] + (token + rest);
    SplitSeparated("Bearer", token + rest, ' ');
    if rest == "" {
      assert token + rest == token;
      SplitFree(token, ' ');
    } else {
      assert token + rest == token + [' '] + rest[1..];
      SplitSeparated(token, rest[1..], ' ');
    }
  }

  /** A token found is space-free and follows `Bearer ` at the very start of the header. */
  lemma ExtractTokenShape(authorization: Option<string>)
    requires ExtractToken(authorization).Some?
    ensures var token := ExtractToken(authorization).value;
      authorization.Some? && ' ' !in token && StartsWith(authorization.value, "Bearer " + token)
  {
    var parts := Split(authorization.value, ' ');
    var token := parts[1];
    assert Join(parts, ' ') == parts[0] + [' '] + Join(parts[1..], ' ');
    JoinStartsWithFirst(parts[1..], ' ');
    var h := authorization.value;
    assert h == "Bearer" + [' '] + Join(parts[1..], ' ');
    assert h[..|"Bearer " + token|] == "Bearer " + token;
  }

  // ---------------------------------------------------------------- the decision

  datatype AuthUser = AuthUser(id: string, username: string)

  /** What `validateToken` reports. */
  datatype TokenCheck = TokenCheck(isValid: bool, user: Option<AuthUser>, hasTokenRecord: bool,
                                   errorType: Option<string>, error: Option<string>)

  /** `TOKEN_EXPIRED` and `TOKEN_INVALID`. */
  datatype BusinessCode = TokenExpired | TokenInvalid

  /** `HttpErrorFactory.unauthorized(message, null, code)`; `None` is the factory's default code. */
  datatype HttpError = Unauthorized(message: string, code: Option<BusinessCode>)

  predicate Truthy(s: Option<string>) { s.Some? && s.value != "" }

  /** The error for a token that did not validate, by the JWT library's error name. */
  function TokenError(check: TokenCheck): HttpError {
    if check.errorType == Some("TokenExpiredError") then Unauthorized("Login session has expired", Some(TokenExpired))
    else if check.errorType == Some("JsonWebTokenError") then Unauthorized("Invalid authentication token", Some(TokenInvalid))
    else if check.errorType == Some("NotBeforeError") then Unauthorized("Authentication token not yet valid", Some(TokenInvalid))
    else Unauthorized(if Truthy(check.error) then check.error.value else "Invalid authentication token", Some(TokenInvalid))
  }

  /** An expired token is told apart from every other failure by its code; the message is never empty. */
  lemma TokenErrorCodes(check: TokenCheck)
    ensures TokenError(check).code == Some(TokenExpired) <==> check.errorType == Some("TokenExpiredError")
    ensures TokenError(check).code == Some(TokenInvalid) <==> check.errorType != Some("TokenExpiredError")
    ensures TokenError(check).message != ""
  {
  }

  /** `canActivate`'s verdict: `Ok(user)` with the user to attach, or the error thrown. */
  function Verdict(isPublic: bool, token: Option<string>, check: TokenCheck): Result<Option<AuthUser>, HttpError> {
    if isPublic then Ok(check.user)
    else if !Truthy(token) then Err(Unauthorized("Please login first", None))
    else if !check.isValid then Err(TokenError(check))
    else Ok(check.user)
  }

  /**
   * Public routes always pass, whatever the token; other routes need a
   * token, and then pass exactly when it validates, otherwise failing with
   * the mapped error.
   */
  lemma VerdictMeaning(isPublic: bool, token: Option<string>, check: TokenCheck)
    ensures isPublic ==> Verdict(isPublic, token, check) == Ok(check.user)
    ensures !isPublic && !Truthy(token) ==> Verdict(isPublic, token, check) == Err(Unauthorized("Please login first", None))
    ensures !isPublic && Truthy(token) ==> (Verdict(isPublic, token, check).Ok? <==> check.isValid)
    ensures !isPublic && Truthy(token) && !check.isValid ==> Verdict(isPublic, token, check) == Err(TokenError(check))
    ensures Verdict(isPublic, token, check).Err? ==> Verdict(isPublic, token, check).error.message != ""
  {
  }

  // ---------------------------------------------------------------- the guard

  /** The request, whose `user` the guard attaches. */
  class Request {
    var user: Option<AuthUser>

    constructor()
      ensures user.None?
    {
      user := None;
    }
  }

  /** The response headers the guard may set. */
  class Response {
    var headers: map<string, string>

    constructor()
      ensures headers == map[]
    {
      headers := map[];
    }
  }

  /**
   * `canActivate`: `validate` is the token service's answer for a token and
   * `refreshed` the new token its sliding refresh issues, `None` when it
   * issues none or fails. The request's user is set as the verdict says;
   * a public route keeps the request's user when the token gives none; the
   * refresh headers are set only for a valid token with a token record and
   * a user on a protected route.
   */
  method CanActivate(request: Request, response: Response, authorization: Option<string>, isPublic: bool,
                     validate: Option<string> -> TokenCheck, refreshed: Option<string>)
    returns (r: Result<bool, HttpError>)
    modifies request, response
    ensures var verdict := Verdict(isPublic, ExtractToken(authorization), validate(ExtractToken(authorization)));
      && (r.Ok? <==> verdict.Ok?)
      && (r.Ok? ==> r.value)
      && (r.Err? ==> r.error == verdict.error)
    ensures var check := validate(ExtractToken(authorization));
      && (isPublic && check.user.Some? ==> request.user == check.user)
      && (isPublic && check.user.None? ==> request.user == old(request.user))
      && (!isPublic && r.Ok? ==> request.user == check.user)
      && (r.Err? ==> request.user == old(request.user))
    ensures var check := validate(ExtractToken(authorization));
      if !isPublic && r.Ok? && check.hasTokenRecord && check.user.Some? && refreshed.Some? then
        response.headers == old(response.headers)[NewTokenHeader := refreshed.value]
                            ["Access-Control-Expose-Headers" := NewTokenHeader]["Cache-Control" := "no-store"]
      else response.headers == old(response.headers)
  {
    var token := ExtractToken(authorization);
    var check := validate(token);
    if isPublic {
      if check.user.Some? {
        request.user := check.user;
      }
      return Ok(true);
    }
    if !Truthy(token) {
      return Err(Unauthorized("Please login first", None));
    }
    if !check.isValid {
      return Err(TokenError(check));
    }
    request.user := check.user;
    if check.hasTokenRecord && check.user.Some? {
      HandleTokenRefresh(response, refreshed);
    }
    return Ok(true);
  }

  /** `handleTokenRefresh`: a new token is exposed to the client and the response is not cached. */
  method HandleTokenRefresh(response: Response, refreshed: Option<string>)
    modifies response
    ensures refreshed.Some? ==>
      response.headers == old(response.headers)[NewTokenHeader := refreshed.value]
                          ["Access-Control-Expose-Headers" := NewTokenHeader]["Cache-Control" := "no-store"]
    ensures refreshed.None? ==> response.headers == old(response.headers)
  {
    if refreshed.Some? {
      response.headers := response.headers[NewTokenHeader := refreshed.value];
      response.headers := response.headers["Access-Control-Expose-Headers" := NewTokenHeader];
      response.headers := response.headers["Cache-Control" := "no-store"];
    }
  }
}
