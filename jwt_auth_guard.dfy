/** The bearer-token guard in front of every user route: it reads the `Authorization`
    header, verifies the token (signature checking is a parameter), loads the token's
    user with the whole User -> UserRole -> Role -> RolePermission -> Permission graph,
    and flattens that graph into the request's identity: one list of permission names
    per role link. */
module JwtAuthGuard {
  import opened Common
  import opened Text
  import opened Entities

  const BearerPrefix: string := "Bearer "
  const MissingTokenMessage: string := "Token no proporcionado"
  const EmptyTokenMessage: string := "Token vac\U{ed}o"
  const InvalidTokenMessage: string := "Token inv\U{e1}lido"
  const UnknownUserMessage: string := "Usuario no encontrado"

  /** An HTTP header as the framework hands it over: one value, or several when the
      header is repeated. */
  datatype HeaderValue = Single(text: string) | Multiple(texts: seq<string>)

  /** The claims of a verified token that the guard reads. */
  datatype JwtPayload = JwtPayload(sub: string, email: Option<string>)

  datatype PermissionClaim = PermissionClaim(name: string)
  datatype RoleClaim = RoleClaim(permissions: seq<PermissionClaim>)

  /** The identity the guard attaches to the request. */
  datatype AuthenticatedUser = AuthenticatedUser(sub: string, email: Option<string>, roles: seq<RoleClaim>)

  /** `s.replace(pattern, '')` for a non-empty pattern: the first occurrence removed. */
  function ReplaceFirst(s: string, pattern: string): (r: string)
    requires pattern != []
    ensures StartsWith(s, pattern) ==> r == s[|pattern|..]
    ensures |r| == |s| || |r| == |s| - |pattern|
    decreases |s|
  {
    if StartsWith(s, pattern) then s[|pattern|..]
    else if s == [] then s
    else [s[0]] + ReplaceFirst(s[1..], pattern)
  }

  /** `extractToken`: a single header value that starts with `Bearer `, minus the
      prefix and trimmed; anything else, or nothing left, is refused. */
  function ExtractToken(header: Option<HeaderValue>): (r: Result<string, HttpError>)
    ensures r == Failure(Unauthorized(MissingTokenMessage)) <==>
      !(header.Some? && header.value.Single? && StartsWith(header.value.text, BearerPrefix))
    ensures r == Failure(Unauthorized(EmptyTokenMessage)) <==>
      header.Some? && header.value.Single? && StartsWith(header.value.text, BearerPrefix)
      && Trim(header.value.text[|BearerPrefix|..]) == ""
    ensures r.Success? ==> r.value == Trim(header.value.text[|BearerPrefix|..]) && r.value != "" && IsTrimmed(r.value)
    ensures r.Failure? ==> r.error == Unauthorized(MissingTokenMessage) || r.error == Unauthorized(EmptyTokenMessage)
  {
    if header.None? || !header.value.Single? || header.value.text == "" || !StartsWith(header.value.text, BearerPrefix) then
      Failure(Unauthorized(MissingTokenMessage))
    else
      var token := Trim(ReplaceFirst(header.value.text, BearerPrefix));
      if token == "" then Failure(Unauthorized(EmptyTokenMessage)) else Success(token)
  }

  /** A token that is already trimmed and non-empty travels through the header intact. */
  lemma BearerRoundTrip(token: string)
    requires token != "" && IsTrimmed(token)
    ensures ExtractToken(Some(Single(BearerPrefix + token))) == Success(token)
  {
    var h := BearerPrefix + token;
    assert h[..|BearerPrefix|] == BearerPrefix;
    assert h[|BearerPrefix|..] == token;
    TrimOfTrimmed(token);
  }

  /** The scheme is matched case-sensitively, and a repeated header is refused. */
  lemma SchemeIsCaseSensitive(token: string)
    ensures ExtractToken(Some(Single("bearer " + token))) == Failure(Unauthorized(MissingTokenMessage))
    ensures ExtractToken(Some(Multiple([BearerPrefix + token]))) == Failure(Unauthorized(MissingTokenMessage))
  {
    var h := "bearer " + token;
    assert h[0] == 'b';
  }

  /** `verifyToken`: every failure of the verifier becomes the one Unauthorized error. */
  function VerifyToken(verify: string -> Option<JwtPayload>, token: string): (r: Result<JwtPayload, HttpError>)
    ensures r.Failure? <==> verify(token).None?
    ensures r.Failure? ==> r.error == Unauthorized(InvalidTokenMessage)
    ensures r.Success? ==> r.value == verify(token).value
  {
    match verify(token)
    case None => Failure(Unauthorized(InvalidTokenMessage))
    case Some(p) => Success(p)
  }

  /** `rolePermission.permission.name` over the grants of one role; `None` when a grant
      has no joined permission, where the code reads a property of `undefined` and throws. */
  function PermissionNames(grants: seq<LoadedGrant>): (r: Option<seq<PermissionClaim>>)
    ensures r.Some? <==> forall i :: 0 <= i < |grants| ==> grants[i].permission.Some?
    ensures r.Some? ==> |r.value| == |grants|
    ensures r.Some? ==> forall i :: 0 <= i < |grants| ==> r.value[i] == PermissionClaim(grants[i].permission.value.name)
  {
    if grants == [] then Some([])
    else if grants[0].permission.None? then None
    else
      match PermissionNames(grants[1..])
      case None => None
      case Some(rest) => Some([PermissionClaim(grants[0].permission.value.name)] + rest)
  }

  /** The claim of one role link: no role, or a role without its grants loaded, gives an
      empty list (`?.` and `|| []`); otherwise the names of its grants, in order. */
  function RoleClaimOf(link: LoadedUserRole): (r: Option<RoleClaim>)
    ensures link.role.None? ==> r == Some(RoleClaim([]))
    ensures link.role.Some? && link.role.value.permissions.None? ==> r == Some(RoleClaim([]))
    ensures link.role.Some? && link.role.value.permissions.Some? ==>
      (r.Some? <==> PermissionNames(link.role.value.permissions.value).Some?)
    ensures link.role.Some? && link.role.value.permissions.Some? && r.Some? ==>
      r.value.permissions == PermissionNames(link.role.value.permissions.value).value
  {
    if link.role.None? || link.role.value.permissions.None? then Some(RoleClaim([]))
    else
      match PermissionNames(link.role.value.permissions.value)
      case None => None
      case Some(names) => Some(RoleClaim(names))
  }

  function RoleClaims(links: seq<LoadedUserRole>): (r: Option<seq<RoleClaim>>)
    ensures r.Some? <==> forall i :: 0 <= i < |links| ==> RoleClaimOf(links[i]).Some?
    ensures r.Some? ==> |r.value| == |links|
    ensures r.Some? ==> forall i :: 0 <= i < |links| ==> r.value[i] == RoleClaimOf(links[i]).value
  {
    if links == [] then Some([])
    else
      var head := RoleClaimOf(links[0]);
      if head.None? then None
      else
        match RoleClaims(links[1..])
        case None => None
        case Some(rest) => Some([head.value] + rest)
  }

  /** `mapUserToAuthenticatedUser`: subject and email from the token, one claim per role
      link of the stored user. The thrown TypeError of a grant without a permission
      surfaces as the framework's unhandled-error answer. */
  function MapUserToAuthenticatedUser(payload: JwtPayload, user: LoadedUser): (r: Result<AuthenticatedUser, HttpError>)
    ensures r.Success? <==> RoleClaims(user.roles).Some?
    ensures r.Success? ==> r.value == AuthenticatedUser(payload.sub, payload.email, RoleClaims(user.roles).value)
    ensures r.Failure? ==> r.error == InternalServerError(UnhandledMessage)
  {
    match RoleClaims(user.roles)
    case None => Failure(InternalServerError(UnhandledMessage))
    case Some(roles) => Success(AuthenticatedUser(payload.sub, payload.email, roles))
  }

  /** The identity never depends on the stored email or any other user column: only the
      token's claims and the role graph enter it. */
  lemma IdentityIgnoresUserColumns(payload: JwtPayload, user: LoadedUser, other: User)
    ensures MapUserToAuthenticatedUser(payload, user) == MapUserToAuthenticatedUser(payload, user.(user := other))
  {
  }

  /** The user id a token names: `parseInt(payload.sub, 10)`, `None` for NaN. */
  function SubjectId(payload: JwtPayload): Option<int> {
    ParseInt(payload.sub)
  }

  /** `canActivate` as a function of the tables, the header and the verifier. */
  function Authenticate(t: Tables, header: Option<HeaderValue>, verify: string -> Option<JwtPayload>): (r: Result<AuthenticatedUser, HttpError>)
    ensures r.Success? ==> ExtractToken(header).Success? && verify(ExtractToken(header).value).Some?
    ensures r.Success? ==>
      var payload := verify(ExtractToken(header).value).value;
      && SubjectId(payload).Some?
      && LoadUser(t, SubjectId(payload).value, false, true).Some?
      && r == MapUserToAuthenticatedUser(payload, LoadUser(t, SubjectId(payload).value, false, true).value)
      && r.value.sub == payload.sub && r.value.email == payload.email
    ensures ExtractToken(header).Success? && verify(ExtractToken(header).value).Some? ==>
      var payload := verify(ExtractToken(header).value).value;
      SubjectId(payload).Some? && LoadUser(t, SubjectId(payload).value, false, true).Some? ==>
      r == MapUserToAuthenticatedUser(payload, LoadUser(t, SubjectId(payload).value, false, true).value)
  {
    match ExtractToken(header)
    case Failure(e) => Failure(e)
    case Success(token) =>
      match VerifyToken(verify, token)
      case Failure(e) => Failure(e)
      case Success(payload) =>
        match SubjectId(payload)
        case None => Failure(Unauthorized(UnknownUserMessage))
        case Some(id) =>
          match LoadUser(t, id, false, true)
          case None => Failure(Unauthorized(UnknownUserMessage))
          case Some(user) => MapUserToAuthenticatedUser(payload, user)
  }

  /** The failures, in the order the guard meets them: header, verification, then the
      user lookup, which reports an unknown or soft-deleted user as Unauthorized. */
  lemma AuthenticateFailures(t: Tables, header: Option<HeaderValue>, verify: string -> Option<JwtPayload>)
    ensures ExtractToken(header).Failure? ==> Authenticate(t, header, verify) == Failure(ExtractToken(header).error)
    ensures ExtractToken(header).Success? && verify(ExtractToken(header).value).None? ==>
      Authenticate(t, header, verify) == Failure(Unauthorized(InvalidTokenMessage))
    ensures ExtractToken(header).Success? && verify(ExtractToken(header).value).Some? ==>
      var payload := verify(ExtractToken(header).value).value;
      (SubjectId(payload).None? || FindById(t.users, UserId, SubjectId(payload).value).None?
       || FindById(t.users, UserId, SubjectId(payload).value).value.deletedAt.NonNull?) ==>
      Authenticate(t, header, verify) == Failure(Unauthorized(UnknownUserMessage))
  {
  }

  /** Every link of role links joined in a guard load has a claim when every grant
      names a stored, live permission. */
  lemma {:induction false} ClaimsOfSoundGrants(t: Tables, links: seq<UserRole>)
    requires forall g :: g in t.rolePermissions ==>
      var p := FindById(t.permissions, PermissionId, g.permissionId); p.Some? && p.value.deletedAt.Null?
    ensures RoleClaims(LoadLinks(t, links, false, true)).Some?
  {
    var loaded := LoadLinks(t, links, false, true);
    forall i | 0 <= i < |loaded|
      ensures RoleClaimOf(loaded[i]).Some?
    {
      var rid := links[i].roleId;
      if loaded[i].role.Some? {
        var grants := GrantsOf(t.rolePermissions, rid);
        var lg := LoadGrants(t, grants, false);
        assert loaded[i].role.value.permissions == Some(lg);
        forall j | 0 <= j < |lg|
          ensures lg[j].permission.Some?
        {
          assert grants[j] in grants;
        }
      }
    }
  }

  /** A token for a live user whose roles grant only stored, live permissions is accepted,
      with one claim per role link; a link to a soft-deleted role contributes an empty
      claim. */
  lemma AuthenticateLiveUser(t: Tables, header: Option<HeaderValue>, verify: string -> Option<JwtPayload>, id: int)
    requires ExtractToken(header).Success? && verify(ExtractToken(header).value).Some?
    requires SubjectId(verify(ExtractToken(header).value).value) == Some(id)
    requires FindById(t.users, UserId, id).Some? && FindById(t.users, UserId, id).value.deletedAt.Null?
    requires forall g :: g in t.rolePermissions ==>
      var p := FindById(t.permissions, PermissionId, g.permissionId); p.Some? && p.value.deletedAt.Null?
    ensures Authenticate(t, header, verify).Success?
    ensures |Authenticate(t, header, verify).value.roles| == |LinksOf(t.userRoles, id)|
    ensures forall i :: 0 <= i < |LinksOf(t.userRoles, id)| ==>
      Authenticate(t, header, verify).value.roles[i] == RoleClaimOf(LoadLinks(t, LinksOf(t.userRoles, id), false, true)[i]).value
  {
    var token := ExtractToken(header).value;
    var payload := verify(token).value;
    assert VerifyToken(verify, token) == Success(payload);
    var user := LoadUser(t, id, false, true);
    assert user.Some?;
    ClaimsOfSoundGrants(t, LinksOf(t.userRoles, id));
    assert user.value.roles == LoadLinks(t, LinksOf(t.userRoles, id), false, true);
    assert MapUserToAuthenticatedUser(payload, user.value).Success?;
    assert ExtractToken(header) == Success(token);
    assert Authenticate(t, header, verify) == MapUserToAuthenticatedUser(payload, user.value);
  }

  /** A link to a soft-deleted role is not joined by the guard's load, and so contributes
      an empty claim. */
  lemma DeletedRoleGivesEmptyClaim(t: Tables, link: UserRole)
    requires var role := FindById(t.roles, RoleId, link.roleId); role.Some? && role.value.deletedAt.NonNull?
    ensures LoadLinks(t, [link], false, true)[0].role.None?
    ensures RoleClaimOf(LoadLinks(t, [link], false, true)[0]) == Some(RoleClaim([]))
  {
  }

  /** Every grant whose permission row is missing (or hidden as soft-deleted) turns every
      request of every user holding that role into an unhandled error. */
  lemma MissingPermissionFails(payload: JwtPayload, user: LoadedUser, i: nat, grants: seq<LoadedGrant>, j: nat)
    requires i < |user.roles| && user.roles[i].role.Some? && user.roles[i].role.value.permissions == Some(grants)
    requires j < |grants| && grants[j].permission.None?
    ensures MapUserToAuthenticatedUser(payload, user) == Failure(InternalServerError(UnhandledMessage))
  {
    assert RoleClaimOf(user.roles[i]).None?;
  }

  /** The request the guard inspects; `user` is the field it fills in. */
  class Request {
    const authorization: Option<HeaderValue>
    var user: Option<AuthenticatedUser>

    constructor (authorization: Option<HeaderValue>)
      ensures this.authorization == authorization && user.None?
    {
      this.authorization := authorization;
      user := None;
    }
  }

  /** `canActivate`: the checks in order; only when all of them pass is `req.user` set,
      and the guard answers true. */
  method CanActivate(req: Request, t: Tables, verify: string -> Option<JwtPayload>) returns (r: Result<bool, HttpError>)
    modifies req
    ensures r.Success? <==> Authenticate(t, req.authorization, verify).Success?
    ensures r.Success? ==> r.value && req.user == Some(Authenticate(t, req.authorization, verify).value)
    ensures r.Failure? ==> r.error == Authenticate(t, req.authorization, verify).error && req.user == old(req.user)
  {
    var token := ExtractToken(req.authorization);
    if token.Failure? {
      return Failure(token.error);
    }
    var payload := VerifyToken(verify, token.value);
    if payload.Failure? {
      return Failure(payload.error);
    }
    var id := SubjectId(payload.value);
    if id.None? {
      return Failure(Unauthorized(UnknownUserMessage));
    }
    var user := LoadUser(t, id.value, false, true);
    if user.None? {
      return Failure(Unauthorized(UnknownUserMessage));
    }
    var mapped := MapUserToAuthenticatedUser(payload.value, user.value);
    if mapped.Failure? {
      return Failure(mapped.error);
    }
    req.user := Some(mapped.value);
    return Success(true);
  }
}
