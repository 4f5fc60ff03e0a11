/** The authentication middleware: `requireAuth` reads the bearer token, asks the identity
    provider who it belongs to, reads the user's role and stores the user on the request;
    `requireRole` then admits only the listed roles. The identity provider is not part of
    this model: its answers are a map from token to identity. */
module Auth {
  import opened Common
  import opened Store

  datatype AuthUser = AuthUser(id: Id, email: string, role: Role)

  /** What the identity provider answers for a token it accepts. */
  datatype Identity = Identity(id: Id, email: Option<string>)

  const BearerPrefix: string := "Bearer "

  /** The token of an `Authorization` header: the text after a leading `Bearer `. */
  function ParseBearer(header: Option<string>): (r: Result<string>)
    ensures r.Ok? <==> header.Some? && |header.value| >= |BearerPrefix| && header.value[..|BearerPrefix|] == BearerPrefix
    ensures r.Ok? ==> header.value == BearerPrefix + r.value
    ensures r.Err? ==> r.error == Unauthorized
  {
    if header.Some? && |header.value| >= 7 && header.value[..7] == BearerPrefix then
      assert header.value == header.value[..7] + header.value[7..];
      Ok(header.value[7..])
    else Err(Unauthorized)
  }

  /** Whatever token a client sends after the prefix is the token the provider is asked
      about. */
  lemma BearerRoundTrip(token: string)
    ensures ParseBearer(Some(BearerPrefix + token)) == Ok(token)
  {
    var h := BearerPrefix + token;
    assert h[..7] == BearerPrefix;
    assert h[7..] == token;
  }

  /** `requireAuth` as a function of the header, the provider and the `profiles` table. */
  function Authenticate(header: Option<string>, provider: map<string, Identity>, profiles: map<Id, Profile>): (r: Result<AuthUser>)
    ensures r.Ok? <==> ParseBearer(header).Ok? && ParseBearer(header).value in provider
    ensures r.Err? ==> r.error == Unauthorized
    ensures r.Ok? ==>
      var who := provider[ParseBearer(header).value];
      r.value.id == who.id && r.value.email == who.email.GetOr("") &&
      r.value.role == (if who.id in profiles then profiles[who.id].role else Fan)
  {
    match ParseBearer(header)
    case Err(e) => Err(e)
    case Ok(token) =>
      if token !in provider then Err(Unauthorized)
      else
        var who := provider[token];
        var role := if who.id in profiles then profiles[who.id].role else Fan;
        Ok(AuthUser(who.id, who.email.GetOr(""), role))
  }

  /** The request object; `user` is what `requireAuth` attaches. */
  class Request {
    var user: Option<AuthUser>

    constructor ()
      ensures user == None
    {
      user := None;
    }
  }

  method RequireAuth(req: Request, header: Option<string>, provider: map<string, Identity>, profiles: map<Id, Profile>)
    returns (r: Result<AuthUser>)
    modifies req
    ensures r == Authenticate(header, provider, profiles)
    ensures req.user == if r.Ok? then Some(r.value) else old(req.user)
  {
    r := Authenticate(header, provider, profiles);
    if r.Ok? {
      req.user := Some(r.value);
    }
  }

  /** `requireRole(...roles)`. */
  function RequireRole(user: Option<AuthUser>, roles: seq<Role>): (r: Result<AuthUser>)
    ensures r == Err(Unauthorized) <==> user.None?
    ensures r == Err(Forbidden) <==> user.Some? && user.value.role !in roles
    ensures r.Ok? <==> user.Some? && user.value.role in roles
    ensures r.Ok? ==> r.value == user.value
  {
    match user
    case None => Err(Unauthorized)
    case Some(u) => if u.role in roles then Ok(u) else Err(Forbidden)
  }

  /** The roles the router demands of the dashboard and of the admin panel. */
  const DashboardRoles: seq<Role> := [Star]
  const AdminRoles: seq<Role> := [Admin]

  /** What both middlewares in a row admit. */
  function Admit(header: Option<string>, provider: map<string, Identity>, profiles: map<Id, Profile>, roles: seq<Role>): Result<AuthUser>
  {
    match Authenticate(header, provider, profiles)
    case Err(e) => Err(e)
    case Ok(u) => RequireRole(Some(u), roles)
  }

  /** The dashboard admits exactly the callers whose profile says star, and the admin panel
      exactly those whose profile says admin; a caller with no profile row is a fan and is
      admitted to neither. */
  lemma GatesFollowProfiles(header: Option<string>, provider: map<string, Identity>, profiles: map<Id, Profile>)
    ensures Admit(header, provider, profiles, DashboardRoles).Ok? <==>
      Authenticate(header, provider, profiles).Ok? &&
      Authenticate(header, provider, profiles).value.id in profiles &&
      profiles[Authenticate(header, provider, profiles).value.id].role == Star
    ensures Admit(header, provider, profiles, AdminRoles).Ok? <==>
      Authenticate(header, provider, profiles).Ok? &&
      Authenticate(header, provider, profiles).value.id in profiles &&
      profiles[Authenticate(header, provider, profiles).value.id].role == Admin
    ensures Authenticate(header, provider, profiles).Ok? && !Admit(header, provider, profiles, DashboardRoles).Ok? ==>
      Admit(header, provider, profiles, DashboardRoles) == Err(Forbidden)
  {
  }
}
