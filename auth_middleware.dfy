/** The demo service's bearer-token check in front of the post routes. */
module AuthMiddleware {
  import opened Wrappers
  import opened Strings
  import opened BlogHttp

  const TokenRequiredMessage: string := "Token required"
  const InvalidTokenMessage: string := "Invalid token"

  /** `req.headers.authorization?.split(' ')[1]`, kept only when it is a non-empty string. */
  function BearerToken(authorization: Option<string>): (token: Option<string>)
    ensures token.Some? ==> authorization.Some? && token.value != "" && ' ' !in token.value
    ensures token.None? <==>
              authorization.None? || ' ' !in authorization.value || SecondField(authorization.value, ' ') == Some("")
  {
    match authorization
    case None => None
    case Some(header) =>
      match SecondField(header, ' ')
      case None => None
      case Some(t) => if t == "" then None else Some(t)
  }

  /** The token is the second space-separated field whatever the first word is; later
      fields are ignored. */
  lemma TokenAfterAnySchemeWord(scheme: string, token: string, rest: string)
    requires ' ' !in scheme && ' ' !in token && token != ""
    requires rest == [] || rest[0] == ' '
    ensures BearerToken(Some(scheme + " " + token + rest)) == Some(token)
  {
    assert scheme + " " + token + rest == scheme + [' '] + token + rest;
    SecondFieldOf(scheme, token, rest, ' ');
  }

  /** A header with nothing after the scheme word, or with an empty second field, has no token. */
  lemma NoTokenAfterBareScheme(scheme: string, rest: string)
    requires ' ' !in scheme
    requires rest == [] || rest[0] == ' '
    ensures BearerToken(Some(scheme)) == None
    ensures BearerToken(Some(scheme + " " + rest)) == None
  {
    assert scheme + " " + rest == scheme + [' '] + [] + rest;
    SecondFieldOf(scheme, [], rest, ' ');
  }

  /** What the middleware does with the request: pass it on, or answer it. */
  datatype Decision = CallNext | Respond(reply: Reply)

  class Request {
    const authorization: Option<string>
    var user: Option<Claims>

    constructor (authorization: Option<string>)
      ensures this.authorization == authorization && user == None
    {
      this.authorization := authorization;
      user := None;
    }
  }

  /** `authenticate`: 401 without a token, 403 when verification fails, otherwise the
      decoded payload is attached to the request and `next` is called. */
  method Authenticate(req: Request, verify: string -> Option<Claims>) returns (decision: Decision)
    modifies req
    ensures var token := BearerToken(req.authorization);
      && (token.None? ==>
            decision == Respond(Reply(401, MessageBody(TokenRequiredMessage))) && req.user == old(req.user))
      && (token.Some? && verify(token.value).None? ==>
            decision == Respond(Reply(403, MessageBody(InvalidTokenMessage))) && req.user == old(req.user))
      && (token.Some? && verify(token.value).Some? ==>
            decision == CallNext && req.user == verify(token.value))
  {
    var token := BearerToken(req.authorization);
    if token.None? {
      return Respond(Reply(401, MessageBody(TokenRequiredMessage)));
    }
    var decoded := verify(token.value);
    if decoded.None? {
      return Respond(Reply(403, MessageBody(InvalidTokenMessage)));
    }
    req.user := decoded;
    decision := CallNext;
  }
}
