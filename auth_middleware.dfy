/**
 * The authentication gates (backend/middleware/authMiddleware.js): `protect` takes the bearer token
 * from the Authorization header and verifies it; `admin` admits administrators only.
 */
module AuthMiddleware {
  import opened Js
  import opened Http

  /** The user carried by a token, as signed at login: `{ id, username, role }`. */
  datatype User = User(id: int, username: string, role: string)

  const NoToken := "No autorizado, no se proporcionó token."
  const TokenFailed := "No autorizado, token fallido."
  const NotAdmin := "No tienes permiso de administrador para realizar esta acción."

  /**
   * The token `protect` takes: only from a non-empty header starting with 'Bearer', the field after
   * its first space (`split(' ')[1]`), and only when that is non-empty.
   */
  function BearerToken(authorization: Option<string>): (token: Option<string>)
    ensures token.Some? <==>
      && authorization.Some? && StartsWith(authorization.value, "Bearer")
      && SecondField(authorization.value).Some? && SecondField(authorization.value).value != ""
    ensures token.Some? ==> token == SecondField(authorization.value)
  {
    if authorization.Some? && authorization.value != "" && StartsWith(authorization.value, "Bearer") then
      match SecondField(authorization.value)
      case Some(t) => if t != "" then Some(t) else None
      case None => None
    else None
  }

  /** A header written `Bearer <token>`, with a token free of spaces, yields that token. */
  lemma BearerTokenOfHeader(token: string)
    requires token != "" && forall k :: 0 <= k < |token| ==> token[k] != ' '
    ensures BearerToken(Some("Bearer " + token)) == Some(token)
  {
    var h := "Bearer " + token;
    assert StartsAt(h, 0, "Bearer");
    assert h[6] == ' ' && forall k :: 0 <= k < 6 ==> h[k] != ' ';
    assert IndexOfChar(h, ' ', 0) == Some(6);
    assert h[7..] == token;
  }

  /** 'Bearer' alone, or followed by a space and nothing, carries no token. */
  lemma BearerWithoutToken()
    ensures BearerToken(Some("Bearer")) == None
    ensures BearerToken(Some("Bearer ")) == None
  {
    assert forall k :: 0 <= k < |"Bearer"| ==> "Bearer"[k] != ' ';
    var h := "Bearer ";
    assert h[6] == ' ' && forall k :: 0 <= k < 6 ==> h[k] != ' ';
    assert IndexOfChar(h, ' ', 0) == Some(6);
    assert h[7..] == "";
  }

  datatype AuthGate = Authenticated(user: User) | Rejected(response: Response)

  /**
   * protect: 401 without a token or when `jwt.verify` throws; otherwise the request goes on with
   * `req.user` set to the decoded user. Token verification is the oracle `verify`.
   */
  function Protect(authorization: Option<string>, verify: string -> Option<User>): (g: AuthGate)
    ensures BearerToken(authorization).None? ==> g == Rejected(Reply(401, NoToken))
    ensures BearerToken(authorization).Some? && verify(BearerToken(authorization).value).None? ==>
      g == Rejected(Reply(401, TokenFailed))
    ensures BearerToken(authorization).Some? && verify(BearerToken(authorization).value).Some? ==>
      g == Authenticated(verify(BearerToken(authorization).value).value)
  {
    match BearerToken(authorization)
    case None => Rejected(Reply(401, NoToken))
    case Some(token) =>
      match verify(token)
      case None => Rejected(Reply(401, TokenFailed))
      case Some(user) => Authenticated(user)
  }

  /** A missing header, or one that does not start with 'Bearer', is refused before any verification. */
  lemma ProtectNeedsBearer(authorization: Option<string>, verify: string -> Option<User>)
    requires authorization.None? || !StartsWith(authorization.value, "Bearer")
    ensures Protect(authorization, verify) == Rejected(Reply(401, NoToken))
  {
  }

  predicate IsAdmin(user: User)
  {
    user.role == "admin"
  }

  /** admin: `next()` exactly when `req.user` is set and its role is 'admin', else 403. */
  function Admin(user: Option<User>): (g: Gate)
    ensures g.Next? <==> user.Some? && IsAdmin(user.value)
    ensures !g.Next? ==> g == Halt(Reply(403, NotAdmin))
  {
    if user.Some? && IsAdmin(user.value) then Next else Halt(Reply(403, NotAdmin))
  }
}
