/** Who may manage which users: the caller's permissions, the schema a new
    user is placed in, and whether one user may modify another. Users and
    their roles are read from the Identity tables. */
module UserAuthorization {
  import opened Common
  import opened Entities
  import opened Data

  const RootRole: string := "Root"
  const AdminRole: string := "Admin"
  const SellerRole: string := "Vendedor"
  const PublicSchema: string := "public"

  // ------------------------------------------------------------ lookups

  function HasId(id: UserId): ApplicationUser -> bool
  {
    (u: ApplicationUser) => u.id == id
  }

  /** UserManager.FindByIdAsync. */
  function FindById(t: Tables, id: UserId): (r: Option<ApplicationUser>)
    ensures r.Some? ==> r.value in t.users && r.value.id == id
    ensures r.None? <==> id !in UserIds(t)
  {
    match FindIndex(t.users, HasId(id))
    case None =>
      assert forall u | u in t.users :: u.id != id by {
        forall u | u in t.users ensures u.id != id {
          var k :| 0 <= k < |t.users| && t.users[k] == u;
          assert !HasId(id)(t.users[k]);
        }
      }
      None
    case Some(i) => Some(t.users[i])
  }

  /** With unique keys, the user FindById answers is the only one with that
      id. */
  lemma FindByIdUnique(t: Tables, u: ApplicationUser)
    requires UniqueUserIds(t.users) && u in t.users
    ensures FindById(t, u.id) == Some(u)
  {
    var k :| 0 <= k < |t.users| && t.users[k] == u;
    var i := FindIndex(t.users, HasId(u.id)).value;
    assert HasId(u.id)(t.users[k]);
    assert forall j | 0 <= j < |t.users| && j != k :: t.users[j].id != u.id;
  }

  /** UserManager.GetRolesAsync: the role names of the user, in order. */
  function RolesOf(t: Tables, id: UserId): seq<string>
  {
    if id in t.userRoles then t.userRoles[id] else []
  }

  predicate HasRole(t: Tables, id: UserId, role: string)
  {
    role in RolesOf(t, id)
  }

  // ---------------------------------------------------------- permissions

  datatype Permissions = Permissions(canManage: bool, isRoot: bool, isAdmin: bool, schema: string)

  function SchemaOrEmpty(u: ApplicationUser): string
  {
    if u.nombreEsquema.Some? then u.nombreEsquema.value else ""
  }

  /** GetUserPermissionsAsync: nothing for an unknown user; otherwise the
      Root and Admin flags from its roles, management for either, and its
      schema (empty when it has none). */
  function GetUserPermissions(t: Tables, userId: UserId): (r: Permissions)
    ensures userId !in UserIds(t) ==> r == Permissions(false, false, false, "")
    ensures r.isRoot <==> userId in UserIds(t) && HasRole(t, userId, RootRole)
    ensures r.isAdmin <==> userId in UserIds(t) && HasRole(t, userId, AdminRole)
    ensures r.canManage <==> r.isRoot || r.isAdmin
    ensures userId in UserIds(t) ==> exists u :: u in t.users && u.id == userId && r.schema == SchemaOrEmpty(u)
  {
    match FindById(t, userId)
    case None => Permissions(false, false, false, "")
    case Some(user) =>
      var roles := RolesOf(t, user.id);
      var isRoot := RootRole in roles;
      var isAdmin := AdminRole in roles;
      Permissions(isRoot || isAdmin, isRoot, isAdmin, SchemaOrEmpty(user))
  }

  /** In a consistent store the schema is the one of the user with that id. */
  lemma PermissionsSchema(t: Tables, u: ApplicationUser)
    requires KeysUnique(t) && u in t.users
    ensures GetUserPermissions(t, u.id).schema == SchemaOrEmpty(u)
  {
    FindByIdUnique(t, u);
  }

  /** DetermineTargetSchema: Root places the new user where it asks (the
      public schema when it asks for none); anyone else places it in its own
      schema. */
  function DetermineTargetSchema(isRoot: bool, requestedSchema: Option<string>, creatorSchema: string): (r: string)
    ensures isRoot && requestedSchema.Some? ==> r == requestedSchema.value
    ensures isRoot && requestedSchema.None? ==> r == PublicSchema
    ensures !isRoot ==> r == creatorSchema
  {
    if isRoot then
      if requestedSchema.Some? then requestedSchema.value else PublicSchema
    else creatorSchema
  }

  /** A caller that is not Root creates users only in its own schema,
      whatever it asks for. */
  lemma NonRootTargetsOwnSchema(t: Tables, callerId: UserId, requestedSchema: Option<string>)
    requires !GetUserPermissions(t, callerId).isRoot
    ensures var p := GetUserPermissions(t, callerId);
            DetermineTargetSchema(p.isRoot, requestedSchema, p.schema) == p.schema
  {
  }

  /** CanModifyUserAsync: both users must exist; Root may modify anyone, an
      Admin only a non-Root user of its own schema, anyone else no one. */
  function CanModifyUser(t: Tables, currentUserId: UserId, targetUserId: UserId): (r: bool)
    ensures r ==> currentUserId in UserIds(t) && targetUserId in UserIds(t)
    ensures r ==> HasRole(t, currentUserId, RootRole) || HasRole(t, currentUserId, AdminRole)
  {
    match (FindById(t, currentUserId), FindById(t, targetUserId))
    case (Some(currentUser), Some(targetUser)) =>
      var isRoot := RootRole in RolesOf(t, currentUser.id);
      var isAdmin := AdminRole in RolesOf(t, currentUser.id);
      if isRoot then true
      else if isAdmin then
        if RootRole in RolesOf(t, targetUser.id) then false
        else currentUser.nombreEsquema == targetUser.nombreEsquema
      else false
    case _ => false
  }

  /** The whole rule, stated on the stored users: in a store with unique
      keys, the caller may modify the target exactly when both exist and
      the caller is Root, or an Admin looking at a non-Root user whose
      schema equals its own (two users without a schema count as equal). */
  lemma CanModifyUserIff(t: Tables, current: ApplicationUser, target: ApplicationUser)
    requires KeysUnique(t) && current in t.users && target in t.users
    ensures CanModifyUser(t, current.id, target.id)
            <==> HasRole(t, current.id, RootRole)
                 || (HasRole(t, current.id, AdminRole) && !HasRole(t, target.id, RootRole)
                     && current.nombreEsquema == target.nombreEsquema)
  {
    FindByIdUnique(t, current);
    FindByIdUnique(t, target);
  }

  /** Only a caller that may manage users may modify one. */
  lemma CanModifyNeedsManage(t: Tables, currentUserId: UserId, targetUserId: UserId)
    requires CanModifyUser(t, currentUserId, targetUserId)
    ensures GetUserPermissions(t, currentUserId).canManage
  {
  }

  /** An Admin that is not Root never modifies a Root. */
  lemma AdminNeverModifiesRoot(t: Tables, currentUserId: UserId, targetUserId: UserId)
    requires !HasRole(t, currentUserId, RootRole) && HasRole(t, targetUserId, RootRole)
    ensures !CanModifyUser(t, currentUserId, targetUserId)
  {
  }

  /** Root may modify every stored user, itself included. */
  lemma RootModifiesAnyone(t: Tables, currentUserId: UserId, targetUserId: UserId)
    requires currentUserId in UserIds(t) && HasRole(t, currentUserId, RootRole) && targetUserId in UserIds(t)
    ensures CanModifyUser(t, currentUserId, targetUserId)
  {
  }
}
