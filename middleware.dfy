/** `AuthMiddleware`: read the session cookie, refuse with 401 when it is
    missing or empty or when the token does not validate, and otherwise hand
    the validated claims to the next handler. Token validation (signature
    and expiry) is a parameter. */
module Middleware {
  import opened Common
  import opened Models
  import opened Http

  /** The framework's cookie lookup: the empty string for a cookie the
      request does not carry. */
  function CookieValue(cookies: map<string, string>, name: string): string
  {
    if name in cookies then cookies[name] else ""
  }

  /** The middleware's verdict: a response that ends the request (and
      whether validation was reached), or the claims stored for the next
      handler. */
  datatype Gate = Rejected(response: Response, validated: bool) | Admitted(claims: Claims)

  function AuthMiddleware(cookies: map<string, string>, validate: string -> Result<Claims, string>): (g: Gate)
    ensures g.Rejected? ==> g.response == Unauthorized
    ensures g.Admitted? <==>
              CookieValue(cookies, SessionCookieName) != ""
              && validate(CookieValue(cookies, SessionCookieName)).Success?
    ensures g.Admitted? ==> g.claims == validate(CookieValue(cookies, SessionCookieName)).value
    ensures CookieValue(cookies, SessionCookieName) == "" ==> g == Rejected(Unauthorized, false)
  {
    var token := CookieValue(cookies, SessionCookieName);
    if token == "" then Rejected(Unauthorized, false)
    else
      match validate(token)
      case Failure(_) => Rejected(Unauthorized, true)
      case Success(claims) => Admitted(claims)
  }

  /** The verdict depends on the session cookie only: other cookies, and
      the validator's answers for other tokens, change nothing. */
  lemma GateReadsOnlySessionCookie(c1: map<string, string>, c2: map<string, string>,
                                   v1: string -> Result<Claims, string>, v2: string -> Result<Claims, string>)
    requires CookieValue(c1, SessionCookieName) == CookieValue(c2, SessionCookieName)
    requires v1(CookieValue(c1, SessionCookieName)) == v2(CookieValue(c1, SessionCookieName))
    ensures AuthMiddleware(c1, v1) == AuthMiddleware(c2, v2)
  {
  }
}
