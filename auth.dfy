/**
 * Authorisation: the role check every protected endpoint runs, the token
 * checks in front of it, and the login check. An admin satisfies every role
 * requirement; anyone else only the requirement of their own role.
 */
module Auth {
  import opened Collections
  import opened Domain
  import opened Persistence

  // ----- role_verifier -----

  /** The error a failed requirement for `required` raises. */
  function RoleRequired(required: UserRole): (e: Error)
    ensures HttpStatus(e) == 403
  {
    match required
    case Admin => AdminRoleRequired
    case Dispatcher => DispatcherRoleRequired
    case Worker => WorkerRoleRequired
  }

  /**
   * `RoleVerifier.verify`: the user passes a requirement when they hold the
   * required role or are an admin; otherwise the role-specific 403 error.
   */
  function Verify(u: User, required: UserRole): (r: Result<()>)
    ensures r.Ok? <==> u.role == required || u.role == Admin
    ensures r.Err? ==> r.error == RoleRequired(required)
  {
    if required == Admin && u.role != Admin then Err(AdminRoleRequired)
    else if required == Dispatcher && u.role !in {Dispatcher, Admin} then Err(DispatcherRoleRequired)
    else if required == Worker && u.role !in {Worker, Admin} then Err(WorkerRoleRequired)
    else Ok(())
  }

  /**
   * The role lattice: an admin passes everything, everyone passes their own
   * role, only an admin passes the admin requirement, and dispatchers and
   * workers do not pass each other's requirement.
   */
  lemma RoleLattice(u: User, required: UserRole)
    ensures u.role == Admin ==> Verify(u, required).Ok?
    ensures Verify(u, u.role).Ok?
    ensures Verify(u, Admin).Ok? <==> u.role == Admin
    ensures u.role == Dispatcher ==> Verify(u, Worker) == Err(WorkerRoleRequired)
    ensures u.role == Worker ==> Verify(u, Dispatcher) == Err(DispatcherRoleRequired)
  {
  }

  // ----- auth_utils -----

  /** What reading and decoding the access token gave: the subject id, no token, or a token that does not decode. */
  datatype TokenOutcome = Decoded(sub: nat) | MissingToken | Undecodable

  /**
   * `validate_token_from_request` and its websocket twin: a missing token is
   * AuthError, an undecodable or expired one TokenExpired; both are 401.
   */
  function ValidateToken(t: TokenOutcome): (r: Result<nat>)
    ensures r.Ok? <==> t.Decoded?
    ensures r.Ok? ==> r.value == t.sub
    ensures t.MissingToken? ==> r == Err(AuthError)
    ensures t.Undecodable? ==> r == Err(TokenExpired)
    ensures r.Err? ==> HttpStatus(r.error) == 401
  {
    match t
    case Decoded(sub) => Ok(sub)
    case MissingToken => Err(AuthError)
    case Undecodable => Err(TokenExpired)
  }

  /** `get_current_user`: the token's subject looked up by id; a deleted user is `None`. */
  function CurrentUser(users: seq<User>, t: TokenOutcome): (r: Result<Option<User>>)
    ensures r.Err? <==> ValidateToken(t).Err?
    ensures r.Err? ==> r.error == ValidateToken(t).error
    ensures r.Ok? ==> r.value == FindUser(users, t.sub)
  {
    match ValidateToken(t)
    case Err(e) => Err(e)
    case Ok(id) => Ok(FindUser(users, id))
  }

  /**
   * `require_role`: the current user when the token is good and the user
   * passes the requirement. A token that names no user fails on the missing
   * user's role (an internal error).
   */
  function RequireRole(users: seq<User>, t: TokenOutcome, required: UserRole): (r: Result<User>)
    ensures ValidateToken(t).Err? ==> r == Err(ValidateToken(t).error)
    ensures r.Ok? <==> t.Decoded? && FindUser(users, t.sub).Some? && Verify(FindUser(users, t.sub).value, required).Ok?
    ensures r.Ok? ==> r.value == FindUser(users, t.sub).value
    ensures t.Decoded? && FindUser(users, t.sub).None? ==> r == Err(Internal)
    ensures t.Decoded? && FindUser(users, t.sub).Some? && r.Err? ==> r.error == RoleRequired(required)
  {
    match CurrentUser(users, t)
    case Err(e) => Err(e)
    case Ok(None) => Err(Internal)
    case Ok(Some(u)) =>
      match Verify(u, required)
      case Ok(_) => Ok(u)
      case Err(e) => Err(e)
  }

  /** Some role of the list is one the user passes. */
  predicate PassesAny(u: User, roles: seq<UserRole>)
  {
    exists i :: 0 <= i < |roles| && Verify(u, roles[i]).Ok?
  }

  /**
   * `required_roles`: the roles are tried in order and the current user is
   * returned at the first one they pass. When none passes, the last role's
   * error is raised; with no roles at all the source raises `None`, which is
   * itself an error (an internal one). A token naming no user fails on every
   * role with an internal error.
   */
  method RequiredRoles(users: seq<User>, t: TokenOutcome, roles: seq<UserRole>) returns (r: Result<User>)
    ensures ValidateToken(t).Err? ==> r == Err(ValidateToken(t).error)
    ensures r.Ok? <==> t.Decoded? && FindUser(users, t.sub).Some? && PassesAny(FindUser(users, t.sub).value, roles)
    ensures r.Ok? ==> r.value == FindUser(users, t.sub).value
    ensures t.Decoded? && (roles == [] || FindUser(users, t.sub).None?) ==> r == Err(Internal)
    ensures t.Decoded? && FindUser(users, t.sub).Some? && roles != [] && r.Err? ==>
      r.error == RoleRequired(roles[|roles| - 1])
  {
    var current := CurrentUser(users, t);
    if current.Err? {
      return Err(current.error);
    }
    var exception: Option<Error> := None;
    for i := 0 to |roles|
      invariant forall j :: 0 <= j < i ==> current.value.Some? ==> Verify(current.value.value, roles[j]).Err?
      invariant i == 0 <==> exception.None?
      invariant i > 0 && current.value.None? ==> exception == Some(Internal)
      invariant i > 0 && current.value.Some? ==> exception == Some(RoleRequired(roles[i - 1]))
    {
      if current.value.None? {
        // reading the role of a missing user raises, and the loop keeps that error
        exception := Some(Internal);
      } else {
        var v := Verify(current.value.value, roles[i]);
        if v.Ok? {
          return Ok(current.value.value);
        }
        exception := Some(v.error);
      }
    }
    if exception.None? {
      return Err(Internal);
    }
    return Err(exception.value);
  }

  // ----- auth_service -----

  /** The users stored with `login`, in stored order (`get_by_filters(login=...)`). */
  function WithLogin(users: seq<User>, login: string): (r: seq<User>)
    ensures forall u :: u in r <==> u in users && u.login == login
  {
    Filter(users, (u: User) => u.login == login)
  }

  /** The users stored under any other login. */
  function WithoutLogin(users: seq<User>, login: string): (r: seq<User>)
    ensures forall u :: u in r <==> u in users && u.login != login
  {
    Filter(users, (u: User) => u.login != login)
  }

  /**
   * `check_user`: an unknown login and a wrong password both give
   * WrongLoginPassword; only a correct password with a role other than the
   * requested one gives WrongRole; otherwise the first user with the login.
   * The password check is the hasher's verify, a parameter here.
   */
  function CheckUser(users: seq<User>, login: string, password: string, role: UserRole,
                     verify: (string, string) -> bool): (r: Result<User>)
    ensures WithLogin(users, login) == [] ==> r == Err(WrongLoginPassword)
    ensures WithLogin(users, login) != [] ==>
      var u := WithLogin(users, login)[0];
      && (!verify(password, u.password) ==> r == Err(WrongLoginPassword))
      && (verify(password, u.password) && u.role != role ==> r == Err(WrongRole))
      && (r.Ok? <==> verify(password, u.password) && u.role == role)
      && (r.Ok? ==> r.value == u)
    ensures r.Ok? ==> r.value in users && r.value.login == login && r.value.role == role
  {
    var found := WithLogin(users, login);
    if found == [] then Err(WrongLoginPassword)
    else
      var u := found[0];
      assert u in found;
      if !verify(password, u.password) then Err(WrongLoginPassword)
      else if u.role != role then Err(WrongRole)
      else Ok(u)
  }

  /**
   * A wrong password is indistinguishable from an unknown login: the answer
   * is the one the same table without that login would give, whatever role
   * was asked for.
   */
  lemma WrongPasswordLooksLikeUnknownLogin(users: seq<User>, login: string, password: string,
                                           role: UserRole, other: UserRole, verify: (string, string) -> bool)
    requires WithLogin(users, login) != [] && !verify(password, WithLogin(users, login)[0].password)
    ensures CheckUser(users, login, password, role, verify) == CheckUser(WithoutLogin(users, login), login, password, other, verify)
  {
    var rest := WithoutLogin(users, login);
    assert forall u :: u !in WithLogin(rest, login);
  }
}
