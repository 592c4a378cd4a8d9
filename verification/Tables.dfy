/** The canonical tables (internal/db/sqlite/store.go) keyed by public id, and the reads every mutation starts with. */
module Tables {
  import opened Prelude
  import opened Events

  datatype Organisation = Organisation(name: string, active: bool)

  /** A row of organisation_memberships or workspace_memberships; `scope` is the organisation or workspace. */
  datatype Membership = Membership(scope: string, user: string, role: Role, active: bool, version: int)

  datatype Workspace = Workspace(organisation: string, active: bool)

  datatype Entitlement = Entitlement(organisation: string, product: string, active: bool)

  datatype Assignment = Assignment(user: string, organisation: string, product: string, active: bool)

  type Memberships = map<string, Membership>

  datatype Database = Database(
    users: map<string, bool>,
    admins: set<string>,
    organisations: map<string, Organisation>,
    members: Memberships,
    workspaces: map<string, Workspace>,
    workspaceMembers: Memberships,
    products: map<string, bool>,
    entitlements: map<string, Entitlement>,
    assignments: map<string, Assignment>,
    outbox: seq<OutboxRow>)

  datatype Error =
    | InvalidUser | UserNotFound
    | InvalidOrganisationId | InvalidOrganisationName | InvalidRole | OrganisationNotFound | OrganisationIsArchived
    | UnauthorisedOrganisation | OwnerMutation | DuplicateMember | MembershipNotFound
    | InvalidWorkspaceId | InvalidWorkspace | InvalidWorkspaceName | WorkspaceNotFound | WorkspaceIsArchived | UnauthorisedWorkspace | DuplicateWorkspaceMember
    | WorkspaceMembershipNotFound | AccessScopeDenied
    | InvalidProductKey | ProductNotFound | ProductIsRetired | UnauthorisedProduct
    | EntitlementNotFound | EntitlementInactive | DuplicateEntitlement
    | AssignmentNotFound | AssignmentInactive | DuplicateAssignment | ProductAccessDenied
    | CommandConflict | CommandReplayMismatch | CommandUnsupported | InvalidCleanup
    | ConstraintViolation | InvalidEvent

  type Outcome = Result<Database, Error>

  const CTRL_PRODUCT := "product.tockrctrl"
  const IMS_PRODUCT := "product.tockrims"

  /** The tables right after the migrations: two seeded products, nothing else. */
  const MIGRATED: Database :=
    Database(map[], {}, map[], map[], map[], map[], map[CTRL_PRODUCT := true, IMS_PRODUCT := true], map[], map[], [])

  predicate CanAdminister(role: Role) {
    role.Owner? || role.Admin?
  }

  predicate ActiveUser(db: Database, user: string) {
    user in db.users && db.users[user]
  }

  predicate IsCurrent(t: Memberships, id: string, scope: string, user: string) {
    id in t && t[id].active && t[id].scope == scope && t[id].user == user
  }

  /** The current-membership unique index: at most one active row for each (scope, user). */
  ghost predicate OneCurrent(t: Memberships) {
    forall i, j :: i in t && j in t && t[i].active && t[j].active && t[i].scope == t[j].scope && t[i].user == t[j].user ==> i == j
  }

  ghost function Current(t: Memberships, scope: string, user: string): (r: Option<string>)
    ensures r.Some? ==> IsCurrent(t, r.value, scope, user)
    ensures r.None? ==> forall id :: !IsCurrent(t, id, scope, user)
  {
    if exists id :: IsCurrent(t, id, scope, user) then
      var id :| IsCurrent(t, id, scope, user);
      Some(id)
    else None
  }

  ghost function RoleIn(t: Memberships, scope: string, user: string): Role {
    match Current(t, scope, user)
    case None => NoRole
    case Some(id) => t[id].role
  }

  /** `UPDATE ... SET active=0 WHERE id=?` */
  function Retire(t: Memberships, id: string): Memberships
    requires id in t
  {
    t[id := t[id].(active := false)]
  }

  /** `UPDATE ... SET active=0 WHERE scope=? AND active=1` */
  function RetireScope(t: Memberships, scope: string): Memberships {
    map i | i in t :: if t[i].scope == scope then t[i].(active := false) else t[i]
  }

  /** INSERT under the table's unique indexes: a new public id, and no other active row for the (scope, user). */
  ghost function Insert(t: Memberships, id: string, row: Membership): (r: Result<Memberships, Error>)
    ensures r.Ok? ==> id !in t && r.value == t[id := row]
    ensures r.Ok? ==> forall i :: !IsCurrent(t, i, row.scope, row.user)
  {
    var _ :- Need(id !in t && Current(t, row.scope, row.user).None?, ConstraintViolation);
    Ok(t[id := row])
  }

  /** `rows` lists the active rows of the scope, each once, in whatever order the query returned them. */
  ghost predicate ListsActive(rows: seq<string>, t: Memberships, scope: string) {
    && (forall i, j :: 0 <= i < j < |rows| ==> rows[i] != rows[j])
    && (forall i :: 0 <= i < |rows| ==> rows[i] in t && t[rows[i]].active && t[rows[i]].scope == scope)
    && (forall id :: id in t && t[id].active && t[id].scope == scope ==> id in rows)
  }

  /** A transaction that wrote `db` appends its events and commits, or fails on an invalid event and writes nothing. */
  function Commit(db: Database, events: seq<Event>): Outcome {
    if forall e :: e in events ==> WellFormed(e) then Ok(db.(outbox := AppendAll(db.outbox, events)))
    else Err(InvalidEvent)
  }

  datatype Authority = Authority(role: Role, systemAdmin: bool)

  /** authorisedOrganisationMutationTx */
  ghost function AuthoriseOrganisation(db: Database, actor: string, organisation: string): Result<Authority, Error> {
    var _ :- Need(ActiveUser(db, actor), UnauthorisedOrganisation);
    var _ :- Need(organisation in db.organisations, OrganisationNotFound);
    var _ :- Need(db.organisations[organisation].active, OrganisationIsArchived);
    if actor in db.admins then Ok(Authority(NoRole, true))
    else
      var role := RoleIn(db.members, organisation, actor);
      var _ :- Need(CanAdminister(role), UnauthorisedOrganisation);
      Ok(Authority(role, false))
  }

  datatype Scope = Scope(organisation: string, organisationRole: Role, workspaceRole: Role, systemAdmin: bool)

  /** proveWorkspaceScopeQuery */
  ghost function ProveWorkspaceScope(db: Database, user: string, workspace: string, adminOnly: bool): Result<Scope, Error> {
    var _ :- Need(ActiveUser(db, user) && workspace in db.workspaces && db.workspaces[workspace].active, AccessScopeDenied);
    var organisation := db.workspaces[workspace].organisation;
    var _ :- Need(organisation in db.organisations && db.organisations[organisation].active, AccessScopeDenied);
    var scope := Scope(organisation, RoleIn(db.members, organisation, user),
                       RoleIn(db.workspaceMembers, workspace, user), user in db.admins);
    var _ :- Need(scope.systemAdmin || !scope.organisationRole.NoRole?, AccessScopeDenied);
    var _ :- Need(!adminOnly || scope.systemAdmin || CanAdminister(scope.organisationRole) || CanAdminister(scope.workspaceRole),
            AccessScopeDenied);
    var _ :- Need(adminOnly || scope.systemAdmin || CanAdminister(scope.organisationRole) || !scope.workspaceRole.NoRole?,
            AccessScopeDenied);
    Ok(scope)
  }

  /** authorisedWorkspaceMutationTx with classifyWorkspaceScopeErrorTx */
  ghost function AuthoriseWorkspace(db: Database, actor: string, workspace: string, allowWorkspaceAdmin: bool): Result<Scope, Error> {
    match ProveWorkspaceScope(db, actor, workspace, true)
    case Ok(scope) =>
      var _ :- Need(allowWorkspaceAdmin || scope.systemAdmin || CanAdminister(scope.organisationRole), UnauthorisedWorkspace);
      Ok(scope)
    case Err(_) =>
      if workspace !in db.workspaces || db.workspaces[workspace].organisation !in db.organisations then Err(WorkspaceNotFound)
      else if !db.workspaces[workspace].active || !db.organisations[db.workspaces[workspace].organisation].active then
        Err(WorkspaceIsArchived)
      else Err(UnauthorisedWorkspace)
  }
}
