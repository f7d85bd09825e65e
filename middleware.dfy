/** The three request guards of the server: bearer-token authentication,
    the role check and the garage-isolation check, and the chain a
    garage-scoped route puts in front of its handler. Token verification
    is a parameter: `verify` returns the email claim of a token it
    accepts and None for one it rejects. */
module Middleware {
  import opened Common
  import opened Text
  import opened Schema
  import opened Storage

  /** The token of an Authorization header, as
      `authHeader && authHeader.split(' ')[1]`: None when the header is
      missing or has no second field, or when that field is empty. */
  function BearerToken(header: Option<string>): (r: Option<string>)
    ensures r.Some? ==> header.Some? && r.value != [] && ' ' !in r.value
    ensures header.Some? && ' ' !in header.value ==> r.None?
    ensures r.Some? <==> header.Some? && SecondField(header.value, ' ').Some? && SecondField(header.value, ' ').value != ""
    ensures r.Some? ==> r == SecondField(header.value, ' ')
  {
    if header.None? then None
    else
      var field := SecondField(header.value, ' ');
      if field.Some? && field.value != [] then field else None
  }

  /** The header the client sends, `Bearer <token>`, yields that token. */
  lemma BearerTokenOfHeader(token: string)
    requires token != [] && ' ' !in token
    ensures BearerToken(Some("Bearer " + token)) == Some(token)
  {
    var h := "Bearer " + token;
    assert h == "Bearer" + [' '] + token;
    IndexOfAfterPrefix("Bearer", ' ', token);
    assert h[7..] == token;
    UpToAbsent(token, ' ');
    assert SecondField(h, ' ') == Some(token);
  }

  /** authenticateToken: no token is 401, a token `verify` rejects is 403,
      a verified email with no user is 401; otherwise the user with it. */
  function Authenticate(s: Store, header: Option<string>, verify: string -> Option<string>): (r: Result<User>)
    reads s
    ensures BearerToken(header).None? ==> r == Err(HttpError(401, "Access token required"))
    ensures BearerToken(header).Some? && verify(BearerToken(header).value).None?
            ==> r == Err(HttpError(403, "Invalid token"))
    ensures r.Ok? <==> BearerToken(header).Some? && verify(BearerToken(header).value).Some?
                       && (exists u :: u in s.users && u.email == verify(BearerToken(header).value).value)
    ensures r.Ok? ==> r.value in s.users && r.value.email == verify(BearerToken(header).value).value
    ensures BearerToken(header).Some? && verify(BearerToken(header).value).Some?
            && (forall u :: u in s.users ==> u.email != verify(BearerToken(header).value).value)
            ==> r == Err(HttpError(401, "User not found"))
    ensures r.Err? ==> r.error.status == 401 || r.error.status == 403
  {
    var token := BearerToken(header);
    if token.None? then Err(HttpError(401, "Access token required"))
    else
      var claim := verify(token.value);
      if claim.None? then Err(HttpError(403, "Invalid token"))
      else
        var user := s.GetUserByEmail(claim.value);
        if user.None? then Err(HttpError(401, "User not found")) else Ok(user.value)
  }

  /** The user a request authenticates as is the only user with the verified email. */
  lemma AuthenticatesAsTheOwner(s: Store, header: Option<string>, verify: string -> Option<string>, u: User)
    requires s.Valid() && u in s.users
    requires BearerToken(header).Some? && verify(BearerToken(header).value) == Some(u.email)
    ensures Authenticate(s, header, verify) == Ok(u)
  {
    UserByEmailIsTheUser(s, u);
  }

  /** requireRole: the request passes iff a user is present and their role
      is one of `roles`; otherwise 403. */
  function RequireRole(user: Option<User>, roles: seq<Role>): (r: Outcome)
    ensures r.Pass? <==> user.Some? && user.value.role in roles
    ensures r.Fail? ==> r.error == HttpError(403, "Insufficient permissions")
  {
    if user.None? || user.value.role !in roles then Fail(HttpError(403, "Insufficient permissions")) else Pass
  }

  /** JavaScript truthiness of an optional string: present and non-empty. */
  predicate Truthy(x: Option<string>)
  {
    x.Some? && x.value != ""
  }

  /** `req.params.garageId || req.body.garageId`: the route parameter when
      it is truthy, else the body field when that is truthy, else none. */
  function CheckedGarageId(params: Option<string>, body: Option<string>): (r: Option<string>)
    ensures r.Some? ==> r.value != ""
    ensures Truthy(params) ==> r == params
    ensures !Truthy(params) ==> (r.Some? <==> Truthy(body)) && (r.Some? ==> r == body)
  {
    if Truthy(params) then params else if Truthy(body) then body else None
  }

  /** requireGarageAccess: a super admin always passes; anyone else passes
      only when the checked garage id is present and equals their own. */
  function RequireGarageAccess(user: User, params: Option<string>, body: Option<string>): (r: Outcome)
    ensures user.role == SuperAdmin ==> r.Pass?
    ensures user.role != SuperAdmin ==>
              (r.Pass? <==> CheckedGarageId(params, body).Some? && user.garageId == CheckedGarageId(params, body))
    ensures r.Fail? ==> r.error == HttpError(403, "Access denied to this garage")
  {
    if user.role == SuperAdmin then Pass
    else
      var g := CheckedGarageId(params, body);
      if g.None? || user.garageId != g then Fail(HttpError(403, "Access denied to this garage")) else Pass
  }

  /** The chain in front of a garage-scoped handler: authenticateToken,
      then requireRole when the route lists roles, then requireGarageAccess. */
  function Gate(s: Store, header: Option<string>, verify: string -> Option<string>, roles: Option<seq<Role>>,
                params: Option<string>, body: Option<string>): (r: Result<User>)
    reads s
    ensures r.Ok? ==> Authenticate(s, header, verify) == r
    ensures r.Ok? && roles.Some? ==> r.value.role in roles.value
    ensures r.Ok? ==> RequireGarageAccess(r.value, params, body).Pass?
    ensures var a := Authenticate(s, header, verify);
            r.Ok? <==> a.Ok? && (roles.Some? ==> RequireRole(Some(a.value), roles.value).Pass?)
                       && RequireGarageAccess(a.value, params, body).Pass?
    ensures var a := Authenticate(s, header, verify);
            a.Err? ==> r == a
    ensures var a := Authenticate(s, header, verify);
            a.Ok? && roles.Some? && RequireRole(Some(a.value), roles.value).Fail?
            ==> r == Err(HttpError(403, "Insufficient permissions"))
    ensures var a := Authenticate(s, header, verify);
            a.Ok? && (roles.Some? ==> RequireRole(Some(a.value), roles.value).Pass?)
            && RequireGarageAccess(a.value, params, body).Fail?
            ==> r == Err(HttpError(403, "Access denied to this garage"))
  {
    var auth := Authenticate(s, header, verify);
    if auth.Err? then auth
    else
      var role := if roles.Some? then RequireRole(Some(auth.value), roles.value) else Pass;
      if role.Fail? then Err(role.error)
      else
        var access := RequireGarageAccess(auth.value, params, body);
        if access.Fail? then Err(access.error) else auth
  }

  /** Garage isolation: anyone but a super admin who gets through the chain
      of a route naming garage `g` belongs to garage `g`. */
  lemma GateIsolatesGarages(s: Store, header: Option<string>, verify: string -> Option<string>,
                            roles: Option<seq<Role>>, g: string, body: Option<string>)
    requires g != ""
    requires Gate(s, header, verify, roles, Some(g), body).Ok?
    ensures var u := Gate(s, header, verify, roles, Some(g), body).value;
            u.role == SuperAdmin || u.garageId == Some(g)
  {
  }

  /** A user bound to no garage (as staff are at registration) is refused
      by the garage check on every request. */
  lemma UnboundUsersAreRefused(user: User, params: Option<string>, body: Option<string>)
    requires user.role != SuperAdmin && user.garageId.None?
    ensures RequireGarageAccess(user, params, body) == Fail(HttpError(403, "Access denied to this garage"))
  {
  }
}
