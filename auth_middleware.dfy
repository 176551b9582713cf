/**
 * The access gate of backend/middleware/auth.js: `protect` reads a bearer
 * token from the Authorization header and verifies it; `admin` lets only the
 * admin role through. Token verification (`jwt.verify`) is an oracle passed in.
 */
module AuthMiddleware {
  import opened Wrappers
  import opened Strings

  type UserId = nat

  /** The decoded token payload that becomes `req.user`. */
  datatype Claims = Claims(id: UserId, role: string)

  /** `jwt.verify(token, secret)`: the payload, or `None` when it throws. */
  type Verifier = string -> Option<Claims>

  datatype GateError = NoToken | InvalidToken | AdminOnly {
    function Status(): nat {
      match this
      case NoToken => 401
      case InvalidToken => 401
      case AdminOnly => 403
    }
  }

  /** The token `protect` extracts: the second space-separated field of a
      header starting with "Bearer", when that field is not empty. */
  function BearerToken(header: Option<string>): (token: Option<string>)
    ensures token.Some? ==> header.Some? && StartsWith(header.value, "Bearer")
    ensures token.Some? ==> token.value != "" && ' ' !in token.value
    ensures header.None? || header == Some("") || header == Some("Bearer") ==> token.None?
  {
    if header.None? || !StartsWith(header.value, "Bearer") then None
    else
      var fields := Split(header.value, ' ');
      if |fields| < 2 || fields[1] == "" then None else Some(fields[1])
  }

  /** The header the front end sends, `Bearer ${token}`, yields that token back. */
  lemma BearerRoundTrip(token: string)
    requires token != "" && ' ' !in token
    ensures BearerToken(Some("Bearer " + token)) == Some(token)
  {
    assert "Bearer " + token == "Bearer" + [' '] + token;
    SplitCons("Bearer", ' ', token);
  }

  /** `protect`: 401 without a token or when verification fails, otherwise
      the verified claims become the request's user. */
  function Protect(header: Option<string>, verify: Verifier): (r: Result<Claims, GateError>)
    ensures BearerToken(header).None? <==> r == Failure(NoToken)
    ensures r.Success? <==> BearerToken(header).Some? && verify(BearerToken(header).value).Some?
    ensures r.Success? ==> r.value == verify(BearerToken(header).value).value
    ensures r.Failure? ==> r.error.Status() == 401
  {
    match BearerToken(header)
    case None => Failure(NoToken)
    case Some(token) =>
      match verify(token)
      case None => Failure(InvalidToken)
      case Some(claims) => Success(claims)
  }

  /** `admin`: passes exactly a present user whose role is "admin"; 403 otherwise. */
  function Admin(user: Option<Claims>): (r: Result<Claims, GateError>)
    ensures r.Success? <==> user.Some? && user.value.role == "admin"
    ensures r.Success? ==> r.value == user.value
    ensures r.Failure? ==> r == Failure(AdminOnly) && r.error.Status() == 403
  {
    if user.Some? && user.value.role == "admin" then Success(user.value) else Failure(AdminOnly)
  }

  /** `protect` followed by `admin`, the chain in front of every product write. */
  function AdminAccess(header: Option<string>, verify: Verifier): (r: Result<Claims, GateError>)
    ensures r.Success? <==> Protect(header, verify).Success? && Protect(header, verify).value.role == "admin"
    ensures Protect(header, verify).Failure? ==> r == Protect(header, verify)
    ensures Protect(header, verify).Success? && r.Failure? ==> r.error.Status() == 403
  {
    match Protect(header, verify)
    case Failure(e) => Failure(e)
    case Success(claims) => Admin(Some(claims))
  }
}
