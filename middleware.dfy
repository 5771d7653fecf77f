/**
 * `authMiddleware` of the HTTP server: it reads the `authorization`
 * header, takes the text after the exact prefix `"Bearer "`, verifies it
 * as a JSON Web Token and either answers 401 or attaches the decoded
 * user to the request and hands it on to the next handler.
 */
module Middleware {
  import opened Wrappers
  import opened Identity

  const BearerPrefix := "Bearer "
  const Unauthorized := 401
  const NoTokenError := "No token provided"
  const BadTokenError := "Invalid or expired token"

  /**
   * The token of an `authorization` header: what follows `"Bearer "`
   * (case-sensitive, space included). A missing or empty header, or any
   * other prefix, gives none.
   */
  function BearerToken(header: Option<string>): (t: Option<string>)
    ensures t.Some? ==> header == Some(BearerPrefix + t.value)
    ensures header.Some? && BearerPrefix <= header.value ==> t.Some?
  {
    match header
    case None => None
    case Some(h) =>
      if h == "" || !(|h| >= |BearerPrefix| && h[..|BearerPrefix|] == BearerPrefix) then None
      else
        assert h == h[..|BearerPrefix|] + h[|BearerPrefix|..];
        Some(h[|BearerPrefix|..])
  }

  /** What the middleware does with one request: answer with an error, or call `next` with a user. */
  datatype Outcome = Reject(status: int, error: string) | Next(user: Claims)

  /** The middleware's decision for a header, a secret and a verifier. */
  function Authorize(header: Option<string>, secret: string, verify: Verifier): (o: Outcome)
    ensures o.Reject? ==> o.status == Unauthorized
    ensures o.Reject? ==> (o.error == NoTokenError <==> BearerToken(header).None?)
    ensures o.Next? <==> BearerToken(header).Some? && verify(secret, BearerToken(header).value).Some?
  {
    match BearerToken(header)
    case None => Reject(Unauthorized, NoTokenError)
    case Some(token) =>
      match verify(secret, token)
      case None => Reject(Unauthorized, BadTokenError)
      case Some(claims) => Next(claims)
  }

  /** For the header `"Bearer " + t` the token handed to the verifier is exactly `t`. */
  lemma {:induction false} BearerTokenIsSuffix(t: string)
    ensures BearerToken(Some(BearerPrefix + t)) == Some(t)
  {
  }

  /** The prefix is compared case-sensitively: a lower-case scheme carries no token. */
  lemma LowerCaseSchemeRejected(t: string)
    ensures BearerToken(Some("bearer " + t)).None?
  {
  }

  /** A header `"Bearer " + t` passes exactly when `t` verifies, and then with the verified identity. */
  lemma {:induction false} AuthorizeBearer(t: string, secret: string, verify: Verifier)
    ensures Authorize(Some(BearerPrefix + t), secret, verify)
            == (match verify(secret, t)
                case None => Reject(Unauthorized, BadTokenError)
                case Some(c) => Next(c))
  {
  }

  /**
   * An Express request and response as the middleware sees them: the
   * header it reads, the `user` it may attach, the responses sent and
   * the number of times `next` was called.
   */
  class Exchange {
    const authorization: Option<string>
    var user: Option<Claims>
    var responses: seq<(int, string)>
    var nextCalls: nat

    constructor (authorization: Option<string>)
      ensures this.authorization == authorization
      ensures user.None? && responses == [] && nextCalls == 0
    {
      this.authorization := authorization;
      user := None;
      responses := [];
      nextCalls := 0;
    }

    /** `authMiddleware(req, res, next)` */
    method AuthMiddleware(secret: string, verify: Verifier) returns (o: Outcome)
      modifies this
      ensures o == Authorize(authorization, secret, verify)
      ensures o.Reject? ==> user == old(user) && nextCalls == old(nextCalls)
                            && responses == old(responses) + [(o.status, o.error)]
      ensures o.Next? ==> user == Some(o.user) && nextCalls == old(nextCalls) + 1
                          && responses == old(responses)
    {
      var token := BearerToken(authorization);
      if token.None? {
        o := Reject(Unauthorized, NoTokenError);
        responses := responses + [(o.status, o.error)];
        return;
      }
      var decoded := verify(secret, token.value);
      if decoded.None? {
        o := Reject(Unauthorized, BadTokenError);
        responses := responses + [(o.status, o.error)];
        return;
      }
      user := decoded;
      nextCalls := nextCalls + 1;
      o := Next(decoded.value);
    }
  }
}
