/** The user-management endpoints. Identity's UserManager writes each change
    as soon as it is made, so an action that fails half-way leaves its
    earlier writes in place; the caller's id comes from the NameIdentifier
    claim, absent when the request carries none. What Identity's own
    validators decide (password rules, unique names, concurrency stamps) is
    the parameter `accepted`. */
module UsersController {
  import opened Common
  import opened Dates
  import opened Entities
  import opened Data
  import opened UserAuthorization

  const NoRole: string := "Sin Rol"

  /** The reply to `Forbid("message")`: that overload takes its arguments as
      authentication scheme names, no handler is registered under the
      message, so the framework throws while executing the result, outside
      the action's try/catch, and with no exception handler installed the
      client receives 500. */
  const MessageForbid: Failure := ServerError

  function OrEmpty(s: Option<string>): string
  {
    if s.Some? then s.value else ""
  }

  // ------------------------------------------------------------------ list

  /** The first role of the user, or "Sin Rol" when it has none. */
  function RoleLabel(t: Tables, id: UserId): string
  {
    var roles := RolesOf(t, id);
    if roles == [] then NoRole else roles[0]
  }

  function ToDto(t: Tables, u: ApplicationUser): UserDto
  {
    UserDto(u.id, OrEmpty(u.email), u.nombreCompleto, OrEmpty(u.nombreEsquema), RoleLabel(t, u.id), u.estaActivo)
  }

  function DtoOf(t: Tables): ApplicationUser -> UserDto
  {
    (u: ApplicationUser) => ToDto(t, u)
  }

  /** Where(u => u.NombreEsquema == currentSchema): a user without a schema
      never matches, since the schema compared with is never null. */
  function InSchema(schema: string): ApplicationUser -> bool
  {
    (u: ApplicationUser) => u.nombreEsquema == Some(schema)
  }

  /** Root sees every user; anyone else the users of its own schema. */
  function VisibleUsers(t: Tables, callerId: UserId): seq<ApplicationUser>
  {
    var p := GetUserPermissions(t, callerId);
    if p.isRoot then t.users else Filter(t.users, InSchema(p.schema))
  }

  function GetUsersSpec(t: Tables, caller: Option<UserId>): Result<seq<UserDto>>
  {
    match caller
    case None => Fail(Unauthorized)
    case Some(callerId) => Ok(Map(VisibleUsers(t, callerId), DtoOf(t)))
  }

  /** GetUsers: the visible users, one DTO each, built in a loop. */
  method GetUsers(ctx: ApplicationDbContext, caller: Option<UserId>) returns (r: Result<seq<UserDto>>)
    ensures r == GetUsersSpec(ctx.Snapshot(), caller)
  {
    var t := ctx.Snapshot();
    if caller.None? {
      r := Fail(Unauthorized);
    } else {
      var p := GetUserPermissions(t, caller.value);
      var users := t.users;
      if !p.isRoot {
        users := Filter(users, InSchema(p.schema));
      }
      assert users == VisibleUsers(t, caller.value);
      var userDtos: seq<UserDto> := [];
      for j := 0 to |users|
        invariant userDtos == Map(users[..j], DtoOf(t))
      {
        var user := users[j];
        var roles := RolesOf(t, user.id);
        var rol := if roles == [] then NoRole else roles[0];
        var dto := UserDto(user.id, OrEmpty(user.email), user.nombreCompleto,
                           OrEmpty(user.nombreEsquema), rol, user.estaActivo);
        assert dto == DtoOf(t)(user);
        MapSnoc(users, j, DtoOf(t));
        userDtos := userDtos + [dto];
      }
      assert users[..|users|] == users;
      r := Ok(userDtos);
    }
  }

  /** Schema isolation: in a store with unique keys, a stored user is
      listed exactly when the caller is Root or the user belongs to the
      caller's schema; the caller need not manage users. */
  lemma GetUsersVisibility(t: Tables, callerId: UserId, u: ApplicationUser)
    requires UniqueUserIds(t.users) && u in t.users
    ensures var p := GetUserPermissions(t, callerId);
            GetUsersSpec(t, Some(callerId)).Ok?
            && ((exists d :: d in GetUsersSpec(t, Some(callerId)).value && d.id == u.id)
                <==> p.isRoot || u.nombreEsquema == Some(p.schema))
  {
    var p := GetUserPermissions(t, callerId);
    var visible := VisibleUsers(t, callerId);
    if p.isRoot || u.nombreEsquema == Some(p.schema) {
      VisibleIsListed(t, callerId, u);
    }
    ListedIsVisible(t, callerId, u);
  }

  lemma VisibleIsListed(t: Tables, callerId: UserId, u: ApplicationUser)
    requires u in VisibleUsers(t, callerId)
    ensures exists d :: d in Map(VisibleUsers(t, callerId), DtoOf(t)) && d.id == u.id
  {
    var visible := VisibleUsers(t, callerId);
    var k :| 0 <= k < |visible| && visible[k] == u;
    assert Map(visible, DtoOf(t))[k].id == u.id;
  }

  lemma ListedIsVisible(t: Tables, callerId: UserId, u: ApplicationUser)
    requires UniqueUserIds(t.users) && u in t.users
    ensures var p := GetUserPermissions(t, callerId);
            (exists d :: d in Map(VisibleUsers(t, callerId), DtoOf(t)) && d.id == u.id)
            ==> p.isRoot || u.nombreEsquema == Some(p.schema)
  {
    var visible := VisibleUsers(t, callerId);
    if exists d :: d in Map(visible, DtoOf(t)) && d.id == u.id {
      ListedUserExists(t, visible, u.id);
      var v :| v in visible && v.id == u.id;
      VisibleInSchema(t, callerId, v);
      SameIdSameUser(t.users, u, v);
    }
  }

  lemma ListedUserExists(t: Tables, visible: seq<ApplicationUser>, id: UserId)
    requires exists d :: d in Map(visible, DtoOf(t)) && d.id == id
    ensures exists v :: v in visible && v.id == id
  {
    var dtos := Map(visible, DtoOf(t));
    var d :| d in dtos && d.id == id;
    var k :| 0 <= k < |dtos| && dtos[k] == d;
    assert visible[k] in visible;
  }

  lemma VisibleInSchema(t: Tables, callerId: UserId, v: ApplicationUser)
    requires v in VisibleUsers(t, callerId)
    ensures var p := GetUserPermissions(t, callerId);
            v in t.users && (p.isRoot || v.nombreEsquema == Some(p.schema))
  {
    var visible := VisibleUsers(t, callerId);
    var k :| 0 <= k < |visible| && visible[k] == v;
  }

  lemma SameIdSameUser(us: seq<ApplicationUser>, u: ApplicationUser, v: ApplicationUser)
    requires UniqueUserIds(us) && u in us && v in us && u.id == v.id
    ensures u == v
  {
    var i :| 0 <= i < |us| && us[i] == u;
    var j :| 0 <= j < |us| && us[j] == v;
    assert i == j;
  }

  /** Every DTO describes a stored user: its schema and role label are the
      user's, with the empty schema and "Sin Rol" standing in for none. */
  lemma GetUsersDtos(t: Tables, callerId: UserId)
    ensures forall d | d in GetUsersSpec(t, Some(callerId)).value ::
              exists u :: u in t.users && u.id == d.id && d.nombreEsquema == OrEmpty(u.nombreEsquema)
                          && d.rol == (if RolesOf(t, u.id) == [] then NoRole else RolesOf(t, u.id)[0])
                          && d.estaActivo == u.estaActivo
  {
    var visible := VisibleUsers(t, callerId);
    var dtos := Map(visible, DtoOf(t));
    forall d | d in dtos
      ensures exists u :: u in t.users && u.id == d.id && d.nombreEsquema == OrEmpty(u.nombreEsquema)
                          && d.rol == (if RolesOf(t, u.id) == [] then NoRole else RolesOf(t, u.id)[0])
                          && d.estaActivo == u.estaActivo
    {
      var k :| 0 <= k < |dtos| && dtos[k] == d;
      assert visible[k] in visible;
      assert visible[k] in t.users;
    }
  }

  // ---------------------------------------------------------------- create

  function NewUser(m: CreateUserDto, id: UserId, schema: string, now: DateTime): ApplicationUser
  {
    ApplicationUser(id, Some(m.email), Some(m.email), m.nombreCompleto, Some(schema), true, true, now)
  }

  /** A caller that is not Root asking for a Root gets a seller instead. */
  function TargetRole(isRoot: bool, rol: string): (r: string)
    ensures !isRoot ==> r != RootRole
    ensures r == rol || (r == SellerRole && rol == RootRole)
  {
    if !isRoot && rol == RootRole then SellerRole else rol
  }

  /** The `required` string properties of CreateUserDto: under [ApiController]
      a blank one is answered 400 before the action runs. */
  predicate CreateUserDtoValid(m: CreateUserDto)
  {
    Required(m.email) && Required(m.password) && Required(m.nombreCompleto) && Required(m.rol)
  }

  /** The `required` string properties of UpdateUserDto. */
  predicate UpdateUserDtoValid(m: UpdateUserDto)
  {
    Required(m.email) && Required(m.nombreCompleto)
  }

  /** CreateUser: the caller must manage users; the new user is stored once
      Identity accepts it, and gets the target role only when that role
      exists. The refusal of a caller that may not manage users calls
      Forbid with a message, which answers 500 (see MessageForbid). */
  function CreateUserSpec(t: Tables, caller: Option<UserId>, m: CreateUserDto, newId: UserId,
                          now: DateTime, accepted: bool): Outcome<()>
  {
    if !CreateUserDtoValid(m) then Outcome(t, Fail(BadRequest))
    else match caller
    case None => Outcome(t, Fail(Unauthorized))
    case Some(callerId) =>
      var p := GetUserPermissions(t, callerId);
      if !p.canManage then Outcome(t, Fail(MessageForbid))
      else if !accepted then Outcome(t, Fail(BadRequest))
      else
        var schema := DetermineTargetSchema(p.isRoot, m.nombreEsquema, p.schema);
        var t1 := t.(users := t.users + [NewUser(m, newId, schema, now)]);
        var role := TargetRole(p.isRoot, m.rol);
        if role in t.roles then Outcome(t1.(userRoles := t.userRoles[newId := [role]]), Ok(()))
        else Outcome(t1, Ok(()))
  }

  method CreateUser(ctx: ApplicationDbContext, caller: Option<UserId>, m: CreateUserDto, newId: UserId,
                    now: DateTime, accepted: bool) returns (r: Result<()>)
    requires ctx.Valid() && newId !in UserIds(ctx.Snapshot())
    modifies ctx
    ensures Outcome(ctx.Snapshot(), r) == CreateUserSpec(old(ctx.Snapshot()), caller, m, newId, now, accepted)
    ensures ctx.Valid()
  {
    if !CreateUserDtoValid(m) {
      return Fail(BadRequest);
    }
    if caller.None? {
      return Fail(Unauthorized);
    }
    var t := ctx.Snapshot();
    var p := GetUserPermissions(t, caller.value);
    if !p.canManage {
      return Fail(MessageForbid);
    }
    var targetSchema := DetermineTargetSchema(p.isRoot, m.nombreEsquema, p.schema);
    var newUser := NewUser(m, newId, targetSchema, now);
    if !accepted {
      return Fail(BadRequest);
    }
    ctx.users := ctx.users + [newUser];
    var t1 := t.(users := t.users + [newUser]);
    assert ctx.Snapshot() == t1;
    var targetRole := m.rol;
    if !p.isRoot && targetRole == RootRole {
      targetRole := SellerRole;
    }
    if targetRole in ctx.roles {
      ctx.userRoles := ctx.userRoles[newId := [targetRole]];
      assert ctx.Snapshot() == t1.(userRoles := t.userRoles[newId := [targetRole]]);
    }
    CreateUserConsistent(t, caller, m, newId, now, accepted);
    r := Ok(());
  }

  /** Rows that refer to users keep resolving when users are only added. */
  lemma RowsOkWithMoreUsers(t: Tables, t': Tables)
    requires t' == t.(users := t'.users, userRoles := t'.userRoles)
    requires UserIds(t) <= UserIds(t')
    requires DbConstraints(t)
    ensures forall c | c in t'.consultas :: ConsultationOk(t', c)
    ensures forall g | g in t'.graduaciones :: GraduationOk(t', g)
    ensures forall s | s in t'.ventas :: SaleOk(t', s)
    ensures forall d | d in t'.detalleVentas :: SaleDetailOk(t', d)
    ensures forall a | a in t'.abonos :: PaymentOk(t', a)
  {
    forall c | c in t'.consultas ensures ConsultationOk(t', c) {
      assert ConsultationOk(t, c);
    }
    forall s | s in t'.ventas ensures SaleOk(t', s) {
      assert SaleOk(t, s);
    }
    forall a | a in t'.abonos ensures PaymentOk(t', a) {
      assert PaymentOk(t, a);
    }
    forall g | g in t'.graduaciones ensures GraduationOk(t', g) {
      assert GraduationOk(t, g);
    }
    forall d | d in t'.detalleVentas ensures SaleDetailOk(t', d) {
      assert SaleDetailOk(t, d);
    }
  }

  /** Creating a user keeps the store consistent; a refused request
      changes nothing. */
  lemma CreateUserConsistent(t: Tables, caller: Option<UserId>, m: CreateUserDto, newId: UserId,
                             now: DateTime, accepted: bool)
    requires Consistent(t) && newId !in UserIds(t)
    ensures var o := CreateUserSpec(t, caller, m, newId, now, accepted);
            && Consistent(o.tables)
            && (o.result.Fail? ==> o.tables == t)
  {
    var o := CreateUserSpec(t, caller, m, newId, now, accepted);
    if o.result.Ok? {
      var p := GetUserPermissions(t, caller.value);
      var u := NewUser(m, newId, DetermineTargetSchema(p.isRoot, m.nombreEsquema, p.schema), now);
      var role := TargetRole(p.isRoot, m.rol);
      if role in t.roles {
        assert o.tables == t.(users := t.users + [u], userRoles := t.userRoles[newId := [role]]);
        AddUserConsistent(t, u, t.userRoles[newId := [role]]);
      } else {
        assert o.tables == t.(users := t.users + [u], userRoles := t.userRoles);
        AddUserConsistent(t, u, t.userRoles);
      }
    }
  }

  /** A user with a fresh key, and role assignments that name only known
      users and roles, keep the store consistent. */
  lemma AddUserConsistent(t: Tables, u: ApplicationUser, userRoles: map<UserId, seq<string>>)
    requires Consistent(t) && u.id !in UserIds(t)
    requires RoleAssignmentsOk(userRoles, UserIds(t) + {u.id}, t.roles)
    ensures Consistent(t.(users := t.users + [u], userRoles := userRoles))
  {
    var t' := t.(users := t.users + [u], userRoles := userRoles);
    AppendUser(t.users, u);
    RowsOkWithMoreUsers(t, t');
  }

  /** A user with a fresh key appended keeps the keys unique and adds
      exactly its key. */
  lemma AppendUser(us: seq<ApplicationUser>, u: ApplicationUser)
    requires UniqueUserIds(us) && u.id !in UserKeys(us)
    ensures UniqueUserIds(us + [u]) && UserKeys(us + [u]) == UserKeys(us) + {u.id}
  {
    var us' := us + [u];
    forall i, j | 0 <= i < j < |us'| ensures us'[i].id != us'[j].id {
      if j < |us| {
        assert us'[i] == us[i] && us'[j] == us[j];
      } else {
        assert us[i] in us;
      }
    }
    forall v | v in UserKeys(us') ensures v in UserKeys(us) + {u.id} {
      var x :| x in us' && x.id == v;
      if x != u {
        assert x in us;
      }
    }
    forall v | v in UserKeys(us) + {u.id} ensures v in UserKeys(us') {
      if v != u.id {
        var x :| x in us && x.id == v;
        assert x in us';
      } else {
        assert u in us';
      }
    }
  }

  /** A create succeeds exactly for a caller that manages users and a user
      Identity accepts; the new user is placed in the target schema, holds
      the target role exactly when that role exists and no other, and a
      caller that is not Root never creates a Root or a user outside its
      own schema. */
  lemma CreateUserOutcome(t: Tables, caller: Option<UserId>, m: CreateUserDto, newId: UserId,
                          now: DateTime, accepted: bool)
    requires newId !in t.userRoles
    ensures var o := CreateUserSpec(t, caller, m, newId, now, accepted);
            && (o.result.Ok? <==> CreateUserDtoValid(m) && caller.Some? && GetUserPermissions(t, caller.value).canManage
                                  && accepted)
            && (o.result.Ok? ==>
                  var p := GetUserPermissions(t, caller.value);
                  var role := TargetRole(p.isRoot, m.rol);
                  && o.tables.users == t.users + [NewUser(m, newId, DetermineTargetSchema(p.isRoot, m.nombreEsquema, p.schema), now)]
                  && RolesOf(o.tables, newId) == (if role in t.roles then [role] else [])
                  && (!p.isRoot ==> !HasRole(o.tables, newId, RootRole)
                                    && o.tables.users[|t.users|].nombreEsquema == Some(p.schema))
                  && (forall id | id != newId :: RolesOf(o.tables, id) == RolesOf(t, id)))
  {
  }

  // ---------------------------------------------------------------- update

  /** The fields UpdateUser writes: name and active flag always, the schema
      only for a Root caller that sends a non-empty one. The email sent is
      not written. */
  function ApplyUserUpdate(u: ApplicationUser, m: UpdateUserDto, isRoot: bool): ApplicationUser
  {
    var u1 := u.(nombreCompleto := m.nombreCompleto, estaActivo := m.estaActivo);
    if isRoot && !IsNullOrEmpty(m.nombreEsquema) then u1.(nombreEsquema := m.nombreEsquema) else u1
  }

  function FirstRole(t: Tables, id: UserId): Option<string>
  {
    var roles := RolesOf(t, id);
    if roles == [] then None else Some(roles[0])
  }

  function NotRole(role: string): string -> bool
  {
    (r: string) => r != role
  }

  /** RemoveFromRoleAsync, when the role is a non-empty name. */
  function RemoveRole(t: Tables, id: UserId, role: Option<string>): Tables
  {
    if !IsNullOrEmpty(role) then t.(userRoles := t.userRoles[id := Filter(RolesOf(t, id), NotRole(role.value))])
    else t
  }

  /** AddToRoleAsync after RoleExistsAsync: only an existing role the user
      does not hold yet is added. */
  function AddRole(t: Tables, id: UserId, role: string): Tables
  {
    if role in t.roles && role !in RolesOf(t, id) then t.(userRoles := t.userRoles[id := RolesOf(t, id) + [role]])
    else t
  }

  /** Who calls: unknown, or known with its Root and Admin flags. */
  predicate KnownCaller(t: Tables, caller: Option<UserId>)
  {
    caller.Some? && caller.value in UserIds(t)
  }

  function UpdateUserSpec(t: Tables, caller: Option<UserId>, id: UserId, m: UpdateUserDto, accepted: bool): Outcome<()>
  {
    if !UpdateUserDtoValid(m) then Outcome(t, Fail(BadRequest))
    else if !KnownCaller(t, caller) then Outcome(t, Fail(Unauthorized))
    else
      var callerId := caller.value;
      var isRoot := HasRole(t, callerId, RootRole);
      var isAdmin := HasRole(t, callerId, AdminRole);
      if !isRoot && !isAdmin then Outcome(t, Fail(Forbidden))
      else match FindIndex(t.users, HasId(id))
        case None => Outcome(t, Fail(NotFound))
        case Some(i) =>
          if !CanModifyUser(t, callerId, id) then Outcome(t, Fail(MessageForbid))
          else if !accepted then Outcome(t, Fail(BadRequest))
          else
            RoleChange(t.(users := t.users[i := ApplyUserUpdate(t.users[i], m, isRoot)]), id, m.rol, isRoot)
  }

  /** The role part of UpdateUser, on the store the field update left: no
      change when the first role already equals the one asked for; a caller
      that is not Root asking for Root is refused; otherwise the current
      role is removed and the requested one added if it exists. */
  function RoleChange(t1: Tables, id: UserId, rol: Option<string>, isRoot: bool): Outcome<()>
  {
    var currentRole := FirstRole(t1, id);
    if currentRole == rol then Outcome(t1, Ok(()))
    else if !isRoot && rol == Some(RootRole) then Outcome(t1, Fail(BadRequest))
    else
      var t2 := RemoveRole(t1, id, currentRole);
      // RoleExistsAsync(null) throws: the action ends in a server error
      if rol.None? then Outcome(t2, Fail(ServerError))
      else Outcome(AddRole(t2, id, rol.value), Ok(()))
  }

  method ChangeRole(ctx: ApplicationDbContext, id: UserId, rol: Option<string>, isRoot: bool) returns (r: Result<()>)
    modifies ctx
    ensures Outcome(ctx.Snapshot(), r) == RoleChange(old(ctx.Snapshot()), id, rol, isRoot)
  {
    var t1 := ctx.Snapshot();
    var currentRole := FirstRole(t1, id);
    if currentRole != rol {
      if !isRoot && rol == Some(RootRole) {
        return Fail(BadRequest);
      }
      if !IsNullOrEmpty(currentRole) {
        ctx.userRoles := ctx.userRoles[id := Filter(RolesOf(t1, id), NotRole(currentRole.value))];
      }
      if rol.None? {
        return Fail(ServerError);
      }
      var t2 := ctx.Snapshot();
      if rol.value in ctx.roles && rol.value !in RolesOf(t2, id) {
        ctx.userRoles := ctx.userRoles[id := RolesOf(t2, id) + [rol.value]];
      }
    }
    r := Ok(());
  }

  method UpdateUser(ctx: ApplicationDbContext, caller: Option<UserId>, id: UserId, m: UpdateUserDto,
                    accepted: bool) returns (r: Result<()>)
    requires ctx.Valid()
    modifies ctx
    ensures Outcome(ctx.Snapshot(), r) == UpdateUserSpec(old(ctx.Snapshot()), caller, id, m, accepted)
    ensures ctx.Valid()
  {
    var t := ctx.Snapshot();
    if !UpdateUserDtoValid(m) {
      return Fail(BadRequest);
    }
    if !KnownCaller(t, caller) {
      return Fail(Unauthorized);
    }
    var currentRoles := RolesOf(t, caller.value);
    var isRoot := RootRole in currentRoles;
    var isAdmin := AdminRole in currentRoles;
    if !isRoot && !isAdmin {
      return Fail(Forbidden);
    }
    var found := FindIndex(ctx.users, HasId(id));
    if found.None? {
      return Fail(NotFound);
    }
    var i := found.value;
    if !CanModifyUser(t, caller.value, id) {
      return Fail(MessageForbid);
    }
    var userToUpdate := ctx.users[i];
    userToUpdate := userToUpdate.(nombreCompleto := m.nombreCompleto, estaActivo := m.estaActivo);
    if isRoot && !IsNullOrEmpty(m.nombreEsquema) {
      userToUpdate := userToUpdate.(nombreEsquema := m.nombreEsquema);
    }
    if !accepted {
      return Fail(BadRequest);
    }
    assert ctx.users == t.users && found == FindIndex(t.users, HasId(id));
    assert userToUpdate == ApplyUserUpdate(t.users[i], m, isRoot);
    ctx.users := ctx.users[i := userToUpdate];
    r := ChangeRole(ctx, id, m.rol, isRoot);
    UpdateUserConsistent(t, caller, id, m, accepted);
  }

  /** The row at i replaced by one with the same id keeps the user keys. */
  lemma ReplaceUserKeys(t: Tables, i: nat, u: ApplicationUser)
    requires i < |t.users| && u.id == t.users[i].id
    ensures UserIds(t.(users := t.users[i := u])) == UserIds(t)
  {
    var t' := t.(users := t.users[i := u]);
    forall x | x in UserIds(t') ensures x in UserIds(t) {
      var v :| v in t'.users && v.id == x;
      var k :| 0 <= k < |t'.users| && t'.users[k] == v;
      assert t.users[k] in t.users;
    }
    forall x | x in UserIds(t) ensures x in UserIds(t') {
      var v :| v in t.users && v.id == x;
      var k :| 0 <= k < |t.users| && t.users[k] == v;
      assert t'.users[k] in t'.users;
    }
  }

  /** Every state the update passes through is consistent: the user keeps
      its id, removed roles only shrink its list, and an added role exists. */
  lemma UpdateUserConsistent(t: Tables, caller: Option<UserId>, id: UserId, m: UpdateUserDto, accepted: bool)
    requires Consistent(t)
    ensures Consistent(UpdateUserSpec(t, caller, id, m, accepted).tables)
  {
    var o := UpdateUserSpec(t, caller, id, m, accepted);
    if o.tables != t {
      var i := FindIndex(t.users, HasId(id)).value;
      var isRoot := HasRole(t, caller.value, RootRole);
      var u := ApplyUserUpdate(t.users[i], m, isRoot);
      var t1 := t.(users := t.users[i := u]);
      ReplacedUserConsistent(t, i, u);
      ReplaceUserKeys(t, i, u);
      assert o == RoleChange(t1, id, m.rol, isRoot);
      RoleChangeConsistent(t1, id, m.rol, isRoot);
    }
  }

  /** The role change keeps a consistent store consistent. */
  lemma RoleChangeConsistent(t1: Tables, id: UserId, rol: Option<string>, isRoot: bool)
    requires Consistent(t1) && id in UserIds(t1)
    ensures Consistent(RoleChange(t1, id, rol, isRoot).tables)
  {
    var o := RoleChange(t1, id, rol, isRoot);
    if o.tables != t1 {
      var currentRole := FirstRole(t1, id);
      var t2 := RemoveRole(t1, id, currentRole);
      RemoveRoleKeepsAssignments(t1, id, currentRole);
      if rol.Some? {
        AddRoleKeepsAssignments(t2, id, rol.value);
      }
      RoleChangeKeepsUsers(t1, id, rol, isRoot);
      RolesChangedConsistent(t1, o.tables);
    }
  }

  lemma RemoveRoleKeepsAssignments(t: Tables, id: UserId, role: Option<string>)
    requires RoleAssignmentsOk(t.userRoles, UserIds(t), t.roles) && id in UserIds(t)
    ensures var t' := RemoveRole(t, id, role);
            t' == t.(userRoles := t'.userRoles) && RoleAssignmentsOk(t'.userRoles, UserIds(t), t.roles)
  {
    if !IsNullOrEmpty(role) {
      var kept := Filter(RolesOf(t, id), NotRole(role.value));
      forall r | r in kept ensures r in t.roles {
        var k :| 0 <= k < |kept| && kept[k] == r;
      }
    }
  }

  lemma AddRoleKeepsAssignments(t: Tables, id: UserId, role: string)
    requires RoleAssignmentsOk(t.userRoles, UserIds(t), t.roles) && id in UserIds(t)
    ensures var t' := AddRole(t, id, role);
            t' == t.(userRoles := t'.userRoles) && RoleAssignmentsOk(t'.userRoles, UserIds(t), t.roles)
  {
  }

  /** Replacing a user by one with the same id keeps the store consistent. */
  lemma ReplacedUserConsistent(t: Tables, i: nat, u: ApplicationUser)
    requires Consistent(t) && i < |t.users| && u.id == t.users[i].id
    ensures Consistent(t.(users := t.users[i := u]))
  {
    var t' := t.(users := t.users[i := u]);
    ReplaceUserKeys(t, i, u);
    RowsOkWithMoreUsers(t, t');
    assert KeysUnique(t') by {
      forall a, b | 0 <= a < b < |t'.users| ensures t'.users[a].id != t'.users[b].id {
        assert t'.users[a].id == t.users[a].id && t'.users[b].id == t.users[b].id;
      }
    }
  }

  /** A role list that only loses entries, or gains an existing role of a
      stored user, keeps the store consistent. */
  lemma RolesChangedConsistent(t: Tables, t': Tables)
    requires Consistent(t)
    requires t' == t.(userRoles := t'.userRoles)
    requires RoleAssignmentsOk(t'.userRoles, UserIds(t), t.roles)
    ensures Consistent(t')
  {
  }

  /** Update rules: nothing changes unless a known Root or Admin caller may
      modify a stored target; a caller that is not Root changes no schema
      and grants no Root role; a refused Root grant comes after the field
      update has been stored. */
  lemma UpdateUserGuards(t: Tables, caller: Option<UserId>, id: UserId, m: UpdateUserDto, accepted: bool)
    ensures var o := UpdateUserSpec(t, caller, id, m, accepted);
            && (o.tables != t ==> UpdateUserDtoValid(m) && KnownCaller(t, caller) && id in UserIds(t)
                                  && CanModifyUser(t, caller.value, id) && accepted)
            && (o.result.Ok? ==> KnownCaller(t, caller) && CanModifyUser(t, caller.value, id))
            && (KnownCaller(t, caller) && !HasRole(t, caller.value, RootRole) ==>
                  && |o.tables.users| == |t.users|
                  && (forall k :: 0 <= k < |t.users| ==> o.tables.users[k].nombreEsquema == t.users[k].nombreEsquema)
                  && (forall x | HasRole(o.tables, x, RootRole) :: HasRole(t, x, RootRole)))
  {
    var o := UpdateUserSpec(t, caller, id, m, accepted);
    if UpdateUserDtoValid(m) && KnownCaller(t, caller) && HasRole(t, caller.value, AdminRole)
       && !HasRole(t, caller.value, RootRole) {
      var found := FindIndex(t.users, HasId(id));
      if found.Some? && CanModifyUser(t, caller.value, id) && accepted {
        var i := found.value;
        var u := ApplyUserUpdate(t.users[i], m, false);
        var t1 := t.(users := t.users[i := u]);
        assert o == RoleChange(t1, id, m.rol, false);
        RoleChangeKeepsUsers(t1, id, m.rol, false);
        assert u.nombreEsquema == t.users[i].nombreEsquema;
        NonRootGrantsNoRoot(t1, id, m.rol);
        assert forall x :: RolesOf(t1, x) == RolesOf(t, x);
      }
    }
  }

  /** A role change by a caller that is not Root leaves no one holding
      Root who did not hold it before. */
  lemma NonRootGrantsNoRoot(t1: Tables, id: UserId, rol: Option<string>)
    ensures forall x | HasRole(RoleChange(t1, id, rol, false).tables, x, RootRole) :: HasRole(t1, x, RootRole)
  {
    var o := RoleChange(t1, id, rol, false);
    var t2 := RemoveRole(t1, id, FirstRole(t1, id));
    forall x | HasRole(o.tables, x, RootRole) ensures HasRole(t1, x, RootRole) {
      if x == id && o.tables != t1 {
        assert RootRole in RolesOf(t2, id) || rol == Some(RootRole);
      }
    }
  }

  /** The role part touches the role assignments only. */
  lemma RoleChangeKeepsUsers(t1: Tables, id: UserId, rol: Option<string>, isRoot: bool)
    ensures RoleChange(t1, id, rol, isRoot).tables == t1.(userRoles := RoleChange(t1, id, rol, isRoot).tables.userRoles)
  {
  }

  /** A request that names no role, for a user that holds one, removes it
      and then fails as a server error with the removal stored. */
  lemma UpdateUserNullRole(t: Tables, caller: Option<UserId>, id: UserId, m: UpdateUserDto)
    requires UpdateUserDtoValid(m) && KnownCaller(t, caller) && id in UserIds(t) && CanModifyUser(t, caller.value, id)
    requires m.rol.None? && RolesOf(t, id) != [] && RolesOf(t, id)[0] != ""
    ensures var o := UpdateUserSpec(t, caller, id, m, true);
            o.result == Fail(ServerError) && RolesOf(t, id)[0] !in RolesOf(o.tables, id)
  {
    var i := FindIndex(t.users, HasId(id)).value;
    var t1 := t.(users := t.users[i := ApplyUserUpdate(t.users[i], m, HasRole(t, caller.value, RootRole))]);
    assert RolesOf(t1, id) == RolesOf(t, id);
  }

  // ---------------------------------------------------------------- delete

  /** A row that names the user: a consultation, a sale or a payment. */
  predicate UserReferenced(t: Tables, id: UserId)
  {
    || (exists c :: c in t.consultas && c.usuarioId == Some(id))
    || (exists s :: s in t.ventas && s.usuarioId == Some(id))
    || (exists a :: a in t.abonos && a.usuarioId == Some(id))
  }

  /** The store without the user at i and without its role assignments. */
  function WithoutUser(t: Tables, i: nat): Tables
    requires i < |t.users|
  {
    t.(users := RemoveAt(t.users, i), userRoles := t.userRoles - {t.users[i].id})
  }

  function DeleteUserSpec(t: Tables, caller: Option<UserId>, id: UserId, accepted: bool): Outcome<()>
  {
    if !KnownCaller(t, caller) then Outcome(t, Fail(Unauthorized))
    else
      var callerId := caller.value;
      if !HasRole(t, callerId, RootRole) && !HasRole(t, callerId, AdminRole) then Outcome(t, Fail(Forbidden))
      else match FindIndex(t.users, HasId(id))
        case None => Outcome(t, Fail(NotFound))
        case Some(i) =>
          if id == callerId then Outcome(t, Fail(BadRequest))
          else if !CanModifyUser(t, callerId, id) then Outcome(t, Fail(MessageForbid))
          else
            var t' := WithoutUser(t, i);
            // a row still naming the user makes SaveChanges throw; the catch answers 500
            if !DbConstraints(t') then Outcome(t, Fail(ServerError))
            else if !accepted then Outcome(t, Fail(BadRequest))
            else Outcome(t', Ok(()))
  }

  method DeleteUser(ctx: ApplicationDbContext, caller: Option<UserId>, id: UserId, accepted: bool)
    returns (r: Result<()>)
    requires ctx.Valid()
    modifies ctx
    ensures Outcome(ctx.Snapshot(), r) == DeleteUserSpec(old(ctx.Snapshot()), caller, id, accepted)
    ensures ctx.Valid()
  {
    var t := ctx.Snapshot();
    if !KnownCaller(t, caller) {
      r := Fail(Unauthorized);
    } else if RootRole !in RolesOf(t, caller.value) && AdminRole !in RolesOf(t, caller.value) {
      r := Fail(Forbidden);
    } else {
      var found := FindIndex(ctx.users, HasId(id));
      assert found == FindIndex(t.users, HasId(id));
      if found.None? {
        r := Fail(NotFound);
      } else if ctx.users[found.value].id == caller.value {
        r := Fail(BadRequest);
      } else if !CanModifyUser(t, caller.value, id) {
        r := Fail(MessageForbid);
      } else {
        var i := found.value;
        ctx.users := RemoveAt(ctx.users, i);
        ctx.userRoles := ctx.userRoles - {id};
        assert ctx.Snapshot() == WithoutUser(t, i);
        var ok := ctx.SaveChanges();
        if !ok {
          ctx.Restore(t);
          r := Fail(ServerError);
        } else if !accepted {
          ctx.Restore(t);
          r := Fail(BadRequest);
        } else {
          DeleteUserAccepted(t, i);
          r := Ok(());
        }
      }
    }
  }

  /** Removing the row at i from rows with unique keys drops exactly its
      key. */
  lemma RemoveUserRow(s: seq<ApplicationUser>, i: nat)
    requires UniqueUserIds(s) && i < |s|
    ensures var s' := RemoveAt(s, i);
            && (set u | u in s' :: u.id) == (set u | u in s :: u.id) - {s[i].id}
            && UniqueUserIds(s')
  {
    RemainingUsers(s, i);
    OtherUsersKept(s, i);
    KeptUserIds(s, RemoveAt(s, i), s[i].id);
    RemainingUserIdsUnique(s, i);
  }

  lemma RemainingUsers(s: seq<ApplicationUser>, i: nat)
    requires UniqueUserIds(s) && i < |s|
    ensures forall x | x in RemoveAt(s, i) :: x in s && x.id != s[i].id
  {
    var s' := RemoveAt(s, i);
    forall x | x in s' ensures x in s && x.id != s[i].id {
      var k :| 0 <= k < |s'| && s'[k] == x;
      var k0 := if k < i then k else k + 1;
      assert s[k0] == x;
    }
  }

  lemma OtherUsersKept(s: seq<ApplicationUser>, i: nat)
    requires i < |s|
    ensures forall x | x in s && x.id != s[i].id :: x in RemoveAt(s, i)
  {
    var s' := RemoveAt(s, i);
    forall x | x in s && x.id != s[i].id ensures x in s' {
      var k :| 0 <= k < |s| && s[k] == x;
      var k1 := if k < i then k else k - 1;
      assert s'[k1] == x;
    }
  }

  /** The keys left when the rows kept are exactly those without key id. */
  lemma KeptUserIds(s: seq<ApplicationUser>, s': seq<ApplicationUser>, id: UserId)
    requires forall x | x in s' :: x in s && x.id != id
    requires forall x | x in s && x.id != id :: x in s'
    ensures (set u | u in s' :: u.id) == (set u | u in s :: u.id) - {id}
  {
    var before := set u | u in s :: u.id;
    var after := set u | u in s' :: u.id;
    forall v | v in after ensures v in before - {id} {
      var x :| x in s' && x.id == v;
    }
    forall v | v in before - {id} ensures v in after {
      var x :| x in s && x.id == v;
    }
  }

  lemma RemainingUserIdsUnique(s: seq<ApplicationUser>, i: nat)
    requires UniqueUserIds(s) && i < |s|
    ensures UniqueUserIds(RemoveAt(s, i))
  {
    var s' := RemoveAt(s, i);
    forall a, b | 0 <= a < b < |s'| ensures s'[a].id != s'[b].id {
      var a0 := if a < i then a else a + 1;
      var b0 := if b < i then b else b + 1;
      assert s'[a] == s[a0] && s'[b] == s[b0];
    }
  }

  /** A deletion the database accepts leaves a consistent store without
      the user. */
  lemma DeleteUserAccepted(t: Tables, i: nat)
    requires Consistent(t) && i < |t.users| && DbConstraints(WithoutUser(t, i))
    ensures Consistent(WithoutUser(t, i)) && t.users[i].id !in UserIds(WithoutUser(t, i))
  {
    RemoveUserRow(t.users, i);
  }

  /** The database refuses the deletion exactly when a consultation, sale
      or payment still names the user. */
  lemma DeleteUserRefusedIff(t: Tables, i: nat)
    requires Consistent(t) && i < |t.users|
    ensures DbConstraints(WithoutUser(t, i)) <==> !UserReferenced(t, t.users[i].id)
  {
    var id := t.users[i].id;
    var t' := WithoutUser(t, i);
    RemoveUserRow(t.users, i);
    assert UserIds(t') == UserIds(t) - {id};
    if UserReferenced(t, id) {
      if exists c :: c in t.consultas && c.usuarioId == Some(id) {
        var c :| c in t.consultas && c.usuarioId == Some(id);
        assert !ConsultationOk(t', c);
      } else if exists s :: s in t.ventas && s.usuarioId == Some(id) {
        var s :| s in t.ventas && s.usuarioId == Some(id);
        assert !SaleOk(t', s);
      } else {
        var a :| a in t.abonos && a.usuarioId == Some(id);
        assert !PaymentOk(t', a);
      }
    } else {
      forall c | c in t'.consultas ensures ConsultationOk(t', c) {
        assert ConsultationOk(t, c);
      }
      forall s | s in t'.ventas ensures SaleOk(t', s) {
        assert SaleOk(t, s);
      }
      forall a | a in t'.abonos ensures PaymentOk(t', a) {
        assert PaymentOk(t, a);
      }
      forall g | g in t'.graduaciones ensures GraduationOk(t', g) {
        assert GraduationOk(t, g);
      }
      forall d | d in t'.detalleVentas ensures SaleDetailOk(t', d) {
        assert SaleDetailOk(t, d);
      }
      assert KeysUnique(t');
    }
  }

  /** Delete rules: a caller never deletes itself; a deletion happens only
      for a known caller allowed to modify a stored, unreferenced target
      other than itself, and then removes the user and its roles and
      nothing else; every refusal leaves the store as it was. */
  lemma DeleteUserGuards(t: Tables, caller: Option<UserId>, id: UserId, accepted: bool)
    requires Consistent(t)
    ensures var o := DeleteUserSpec(t, caller, id, accepted);
            && (caller == Some(id) ==> o.tables == t && o.result.Fail?)
            && (o.result.Fail? ==> o.tables == t)
            && (o.result.Ok? <==> KnownCaller(t, caller) && id in UserIds(t) && id != caller.value
                                  && CanModifyUser(t, caller.value, id) && !UserReferenced(t, id) && accepted)
            && (o.result.Ok? ==> UserIds(o.tables) == UserIds(t) - {id} && id !in o.tables.userRoles
                                 && Consistent(o.tables))
  {
    var o := DeleteUserSpec(t, caller, id, accepted);
    var found := FindIndex(t.users, HasId(id));
    if found.Some? {
      var i := found.value;
      DeleteUserRefusedIff(t, i);
      RemoveUserRow(t.users, i);
      if o.result.Ok? {
        DeleteUserAccepted(t, i);
      }
    }
  }

  // ------------------------------------------- refusals by the permission check

  /** The requests CreateUser refuses after asking whether the caller may
      manage users. */
  predicate CreateRefused(t: Tables, caller: Option<UserId>, m: CreateUserDto)
  {
    CreateUserDtoValid(m) && caller.Some? && !GetUserPermissions(t, caller.value).canManage
  }

  /** The requests UpdateUser refuses after asking whether the caller may
      modify the target. */
  predicate UpdateRefused(t: Tables, caller: Option<UserId>, id: UserId, m: UpdateUserDto)
  {
    && UpdateUserDtoValid(m) && KnownCaller(t, caller)
    && (HasRole(t, caller.value, RootRole) || HasRole(t, caller.value, AdminRole))
    && FindIndex(t.users, HasId(id)).Some? && !CanModifyUser(t, caller.value, id)
  }

  /** The requests DeleteUser refuses after asking whether the caller may
      modify the target. */
  predicate DeleteRefused(t: Tables, caller: Option<UserId>, id: UserId)
  {
    && KnownCaller(t, caller)
    && (HasRole(t, caller.value, RootRole) || HasRole(t, caller.value, AdminRole))
    && FindIndex(t.users, HasId(id)).Some? && id != caller.value && !CanModifyUser(t, caller.value, id)
  }

  /** As written: every refusal by the permission check answers 500 with
      the store unchanged, so a client cannot tell it from a crash; an Admin
      of one schema deleting a user of another is one such request. */
  lemma PermissionRefusalIsServerError(t: Tables, caller: Option<UserId>, id: UserId, cm: CreateUserDto,
                                       um: UpdateUserDto, newId: UserId, now: DateTime, accepted: bool)
    ensures CreateRefused(t, caller, cm) ==> CreateUserSpec(t, caller, cm, newId, now, accepted) == Outcome(t, Fail(ServerError))
    ensures UpdateRefused(t, caller, id, um) ==> UpdateUserSpec(t, caller, id, um, accepted) == Outcome(t, Fail(ServerError))
    ensures DeleteRefused(t, caller, id) ==> DeleteUserSpec(t, caller, id, accepted) == Outcome(t, Fail(ServerError))
  {
  }

  /** The concrete case: Admin "x" of schema "a" deleting user "y" of schema
      "b" gets 500. */
  lemma CrossSchemaDeleteIsServerError()
    ensures var when := DateTime(Date(2024, 1, 1), 0, Utc);
            var admin := ApplicationUser("x", None, None, "X", Some("a"), true, true, when);
            var other := ApplicationUser("y", None, None, "Y", Some("b"), true, true, when);
            var t := Tables([], [], [], [], [], [], [], [admin, other],
                            map["x" := [AdminRole], "y" := [AdminRole]], {AdminRole}, 1);
            DeleteUserSpec(t, Some("x"), "y", true) == Outcome(t, Fail(ServerError))
  {
    var when := DateTime(Date(2024, 1, 1), 0, Utc);
    var admin := ApplicationUser("x", None, None, "X", Some("a"), true, true, when);
    var other := ApplicationUser("y", None, None, "Y", Some("b"), true, true, when);
    var t := Tables([], [], [], [], [], [], [], [admin, other],
                    map["x" := [AdminRole], "y" := [AdminRole]], {AdminRole}, 1);
    assert "x" in UserIds(t) by { assert admin in t.users; }
    assert HasId("y")(t.users[1]) && !HasId("y")(t.users[0]);
    assert FindIndex(t.users, HasId("y")) == Some(1);
    assert FindById(t, "x") == Some(admin) && FindById(t, "y") == Some(other);
    assert !CanModifyUser(t, "x", "y");
  }

  /** The replies evidently intended: a refusal by the permission check
      answers 403 with the store unchanged, like the bare Forbid() of the
      role test; every other reply as written. */
  function CreateUserSpecIntended(t: Tables, caller: Option<UserId>, m: CreateUserDto, newId: UserId,
                                  now: DateTime, accepted: bool): Outcome<()>
  {
    if CreateRefused(t, caller, m) then Outcome(t, Fail(Forbidden))
    else CreateUserSpec(t, caller, m, newId, now, accepted)
  }

  function UpdateUserSpecIntended(t: Tables, caller: Option<UserId>, id: UserId, m: UpdateUserDto,
                                  accepted: bool): Outcome<()>
  {
    if UpdateRefused(t, caller, id, m) then Outcome(t, Fail(Forbidden))
    else UpdateUserSpec(t, caller, id, m, accepted)
  }

  function DeleteUserSpecIntended(t: Tables, caller: Option<UserId>, id: UserId, accepted: bool): Outcome<()>
  {
    if DeleteRefused(t, caller, id) then Outcome(t, Fail(Forbidden))
    else DeleteUserSpec(t, caller, id, accepted)
  }

  /** Corrected: a create is answered 403 exactly for a valid request
      from a caller that may not manage users, with the store unchanged. */
  lemma CreateUserIntendedForbids(t: Tables, caller: Option<UserId>, m: CreateUserDto, newId: UserId,
                                  now: DateTime, accepted: bool)
    ensures var o := CreateUserSpecIntended(t, caller, m, newId, now, accepted);
            && (o.result == Fail(Forbidden) <==> CreateUserDtoValid(m) && caller.Some?
                                                 && !GetUserPermissions(t, caller.value).canManage)
            && (o.result == Fail(Forbidden) ==> o.tables == t)
            && (o.result == Fail(ServerError) ==> !CreateRefused(t, caller, m))
  {
  }

  /** The role step never answers 403. */
  lemma RoleChangeNeverForbids(t1: Tables, id: UserId, rol: Option<string>, isRoot: bool)
    ensures RoleChange(t1, id, rol, isRoot).result != Fail(Forbidden)
  {
  }

  /** Corrected: an update is answered 403 exactly for a valid request from
      a stored caller that is neither Root nor Admin, or that may not modify
      the stored target; the store is then unchanged. */
  lemma UpdateUserIntendedForbids(t: Tables, caller: Option<UserId>, id: UserId, m: UpdateUserDto,
                                  accepted: bool)
    ensures var o := UpdateUserSpecIntended(t, caller, id, m, accepted);
            && (o.result == Fail(Forbidden)
                <==> UpdateUserDtoValid(m) && KnownCaller(t, caller)
                     && ((!HasRole(t, caller.value, RootRole) && !HasRole(t, caller.value, AdminRole))
                         || (id in UserIds(t) && !CanModifyUser(t, caller.value, id))))
            && (o.result == Fail(Forbidden) ==> o.tables == t)
  {
    FoundIffStored(t, id);
    var o := UpdateUserSpec(t, caller, id, m, accepted);
    if UpdateUserDtoValid(m) && KnownCaller(t, caller) {
      var callerId := caller.value;
      var isRoot := HasRole(t, callerId, RootRole);
      if (isRoot || HasRole(t, callerId, AdminRole)) && id in UserIds(t) && CanModifyUser(t, callerId, id)
         && accepted {
        var i := FindIndex(t.users, HasId(id)).value;
        var t1 := t.(users := t.users[i := ApplyUserUpdate(t.users[i], m, isRoot)]);
        assert o == RoleChange(t1, id, m.rol, isRoot);
        RoleChangeNeverForbids(t1, id, m.rol, isRoot);
      }
    }
  }

  /** Corrected: a delete is answered 403 exactly to a stored caller that
      is neither Root nor Admin, or that may not modify the stored target
      other than itself; the store is then unchanged. */
  lemma DeleteUserIntendedForbids(t: Tables, caller: Option<UserId>, id: UserId, accepted: bool)
    ensures var o := DeleteUserSpecIntended(t, caller, id, accepted);
            && (o.result == Fail(Forbidden)
                <==> KnownCaller(t, caller)
                     && ((!HasRole(t, caller.value, RootRole) && !HasRole(t, caller.value, AdminRole))
                         || (id in UserIds(t) && id != caller.value && !CanModifyUser(t, caller.value, id))))
            && (o.result == Fail(Forbidden) ==> o.tables == t)
  {
    FoundIffStored(t, id);
  }

  /** FindIndex on the id finds a row exactly when the id is stored. */
  lemma FoundIffStored(t: Tables, id: UserId)
    ensures FindIndex(t.users, HasId(id)).Some? <==> id in UserIds(t)
  {
    if id in UserIds(t) {
      var u :| u in t.users && u.id == id;
      var k :| 0 <= k < |t.users| && t.users[k] == u;
      assert HasId(id)(t.users[k]);
    }
  }
}
