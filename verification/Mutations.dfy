/** What each store mutation does to the tables, as a function: the specification the `Store` methods are proved against. */
module Mutations {
  import opened Prelude
  import opened Events
  import opened Tables

  // ----- users (users.go) -----

  /** The user's email, its uniqueness, the name and the password checks are not modelled. */
  function CreateUser(db: Database, user: string, active: bool): Outcome {
    var _ :- Need(HasIdPrefix("usr_", user), InvalidUser);
    var _ :- Need(user !in db.users, ConstraintViolation);
    Commit(db.(users := db.users[user := active]), [UserCreated(user, active)])
  }

  function SetUserActive(db: Database, user: string, active: bool): Outcome {
    var id := Trim(user);
    var _ :- Need(id in db.users, UserNotFound);
    if db.users[id] == active then Ok(db)
    else Commit(db.(users := db.users[id := active]), [UserStatusChanged(id, active)])
  }

  // ----- organisations (organisation.go) -----

  /** The actor is looked up by its trimmed id, but the event carries the id as given. */
  ghost function CreateOrganisation(db: Database, actor: string, organisation: string, name: string, membership: string): Outcome {
    var _ :- Need(HasIdPrefix("org_", organisation), InvalidOrganisationId);
    var _ :- Need(0 < |Trim(name)| <= 200, InvalidOrganisationName);
    var user := Trim(actor);
    var _ :- Need(ActiveUser(db, user), UnauthorisedOrganisation);
    var _ :- Need(organisation !in db.organisations, ConstraintViolation);
    var members :- Insert(db.members, membership, Membership(organisation, user, Owner, true, 1));
    Commit(db.(organisations := db.organisations[organisation := Organisation(Trim(name), true)], members := members),
           [OrganisationCreated(organisation), OrganisationMembershipAdded(organisation, membership, actor, Owner)])
  }

  /** The target is looked up by its trimmed id, but the event carries the id as given. */
  ghost function AddOrganisationMember(db: Database, actor: string, organisation: string, target: string, role: Role,
                                       membership: string): Outcome {
    var _ :- Need(role.Admin? || role.Member?, InvalidRole);
    var authority :- AuthoriseOrganisation(db, actor, organisation);
    var _ :- Need(authority.systemAdmin || !authority.role.Admin? || !role.Admin?, UnauthorisedOrganisation);
    var user := Trim(target);
    var _ :- Need(ActiveUser(db, user), UnauthorisedOrganisation);
    var _ :- Need(Current(db.members, organisation, user).None?, DuplicateMember);
    var members :- Insert(db.members, membership, Membership(organisation, user, role, true, 1));
    Commit(db.(members := members),
           [OrganisationMembershipAdded(organisation, membership, target, role)])
  }

  /** An organisation membership an actor may change: the active target's current row, at the expected version, not the owner's. */
  ghost function MutableMembership(db: Database, authority: Authority, organisation: string, target: string,
                                   expected: Option<int>): (r: Result<string, Error>)
    ensures r.Ok? ==> IsCurrent(db.members, r.value, organisation, target)
  {
    var current := Current(db.members, organisation, target);
    var _ :- Need(ActiveUser(db, target) && current.Some?, MembershipNotFound);
    var row := db.members[current.value];
    var _ :- Need(expected.Some? ==> expected.value == row.version, CommandConflict);
    var _ :- Need(!row.role.Owner?, OwnerMutation);
    var _ :- Need(authority.systemAdmin || !authority.role.Admin? || row.role.Member?, UnauthorisedOrganisation);
    Ok(current.value)
  }

  /** The current row is found by the id as given, but the new row belongs to the user with the trimmed id. */
  ghost function ChangeOrganisationRole(db: Database, actor: string, organisation: string, target: string, role: Role,
                                        expected: Option<int>, membership: string): Outcome {
    var _ :- Need(role.Admin? || role.Member?, InvalidRole);
    var authority :- AuthoriseOrganisation(db, actor, organisation);
    var current :- MutableMembership(db, authority, organisation, target, expected);
    var _ :- Need(db.members[current].role != role, DuplicateMember);
    var _ :- Need(ActiveUser(db, Trim(target)), UnauthorisedOrganisation);
    var next := Membership(organisation, Trim(target), role, true, db.members[current].version + 1);
    var members :- Insert(Retire(db.members, current), membership, next);
    Commit(db.(members := members),
           [OrganisationRoleChanged(organisation, membership, target, role)])
  }

  ghost function DeactivateOrganisationMember(db: Database, actor: string, organisation: string, target: string,
                                              expected: Option<int>): Outcome {
    var authority :- AuthoriseOrganisation(db, actor, organisation);
    var current :- MutableMembership(db, authority, organisation, target, expected);
    Commit(db.(members := Retire(db.members, current)),
           [OrganisationMembershipRemoved(organisation, current, target, db.members[current].role)])
  }

  datatype ScopeKind = OrganisationScope | WorkspaceScope

  function RemovalEvent(kind: ScopeKind, scope: string, membership: string, user: string, role: Role): Event {
    match kind
    case OrganisationScope => OrganisationMembershipRemoved(scope, membership, user, role)
    case WorkspaceScope => WorkspaceMembershipRemoved(scope, membership, user, role)
  }

  /** One removal event for each archived membership row. */
  function RemovalEvents(kind: ScopeKind, t: Memberships, scope: string, rows: seq<string>): seq<Event>
    requires forall i :: 0 <= i < |rows| ==> rows[i] in t
  {
    if rows == [] then []
    else [RemovalEvent(kind, scope, rows[0], t[rows[0]].user, t[rows[0]].role)] + RemovalEvents(kind, t, scope, rows[1..])
  }

  /** `rows` is the order in which the active memberships were read. */
  ghost function ArchiveOrganisation(db: Database, actor: string, organisation: string, rows: seq<string>): Outcome
    requires ListsActive(rows, db.members, organisation)
  {
    var authority :- AuthoriseOrganisation(db, actor, organisation);
    var _ :- Need(authority.systemAdmin || authority.role.Owner?, UnauthorisedOrganisation);
    Commit(db.(organisations := db.organisations[organisation := db.organisations[organisation].(active := false)],
               members := RetireScope(db.members, organisation)),
           RemovalEvents(OrganisationScope, db.members, organisation, rows) + [OrganisationArchived(organisation)])
  }

  ghost function RenameOrganisation(db: Database, actor: string, organisation: string, name: string): Outcome {
    var _ :- Need(0 < |Trim(name)| <= 200, InvalidOrganisationName);
    var _ :- AuthoriseOrganisation(db, actor, organisation);
    Commit(db.(organisations := db.organisations[organisation := Organisation(Trim(name), true)]),
           [OrganisationRenamed(organisation, Trim(name))])
  }

  // ----- workspaces (workspace.go) -----

  predicate WorkspaceRoleValid(role: Role) {
    role.Admin? || role.Member? || role.Viewer?
  }

  ghost function CreateWorkspace(db: Database, actor: string, organisation: string, workspace: string, name: string,
                                 membership: string): Outcome {
    var _ :- Need(HasIdPrefix("wsp_", workspace), InvalidWorkspaceId);
    var _ :- Need(HasIdPrefix("org_", organisation), InvalidWorkspace);
    var _ :- Need(0 < |Trim(name)| <= 200, InvalidWorkspaceName);
    var _ :- AuthoriseOrganisation(db, actor, organisation);
    var _ :- Need(workspace !in db.workspaces, ConstraintViolation);
    var members :- Insert(db.workspaceMembers, membership, Membership(workspace, actor, Admin, true, 1));
    Commit(db.(workspaces := db.workspaces[workspace := Workspace(organisation, true)], workspaceMembers := members),
           [WorkspaceCreated(workspace, organisation), WorkspaceMembershipAdded(workspace, membership, actor, Admin)])
  }

  /** activeWorkspaceTargetUserTx: the target is an active user with an active organisation membership. */
  ghost predicate WorkspaceTarget(db: Database, workspace: string, target: string) {
    && workspace in db.workspaces
    && var organisation := db.workspaces[workspace].organisation;
    && organisation in db.organisations && db.organisations[organisation].active
    && ActiveUser(db, target) && Current(db.members, organisation, target).Some?
  }

  ghost function AddWorkspaceMember(db: Database, actor: string, workspace: string, target: string, role: Role,
                                    membership: string): Outcome {
    var _ :- Need(WorkspaceRoleValid(role), InvalidRole);
    var _ :- AuthoriseWorkspace(db, actor, workspace, true);
    var _ :- Need(WorkspaceTarget(db, workspace, target), UnauthorisedWorkspace);
    var _ :- Need(Current(db.workspaceMembers, workspace, target).None?, DuplicateWorkspaceMember);
    var members :- Insert(db.workspaceMembers, membership, Membership(workspace, target, role, true, 1));
    Commit(db.(workspaceMembers := members),
           [WorkspaceMembershipAdded(workspace, membership, target, role)])
  }

  ghost function MutableWorkspaceMembership(db: Database, actor: string, workspace: string, target: string,
                                            expected: Option<int>): (r: Result<string, Error>)
    ensures r.Ok? ==> IsCurrent(db.workspaceMembers, r.value, workspace, target)
  {
    var _ :- AuthoriseWorkspace(db, actor, workspace, true);
    var _ :- Need(WorkspaceTarget(db, workspace, target), UnauthorisedWorkspace);
    var current := Current(db.workspaceMembers, workspace, target);
    var _ :- Need(current.Some?, WorkspaceMembershipNotFound);
    var _ :- Need(expected.Some? ==> expected.value == db.workspaceMembers[current.value].version, CommandConflict);
    Ok(current.value)
  }

  ghost function ChangeWorkspaceRole(db: Database, actor: string, workspace: string, target: string, role: Role,
                                     expected: Option<int>, membership: string): Outcome {
    var _ :- Need(WorkspaceRoleValid(role), InvalidRole);
    var current :- MutableWorkspaceMembership(db, actor, workspace, target, expected);
    var _ :- Need(db.workspaceMembers[current].role != role, DuplicateWorkspaceMember);
    var next := Membership(workspace, target, role, true, db.workspaceMembers[current].version + 1);
    var members :- Insert(Retire(db.workspaceMembers, current), membership, next);
    Commit(db.(workspaceMembers := members),
           [WorkspaceRoleChanged(workspace, membership, target, role)])
  }

  ghost function DeactivateWorkspaceMember(db: Database, actor: string, workspace: string, target: string,
                                           expected: Option<int>): Outcome {
    var current :- MutableWorkspaceMembership(db, actor, workspace, target, expected);
    Commit(db.(workspaceMembers := Retire(db.workspaceMembers, current)),
           [WorkspaceMembershipRemoved(workspace, current, target, db.workspaceMembers[current].role)])
  }

  ghost function ArchiveWorkspace(db: Database, actor: string, workspace: string, rows: seq<string>): Outcome
    requires ListsActive(rows, db.workspaceMembers, workspace)
  {
    var _ :- AuthoriseWorkspace(db, actor, workspace, false);
    Commit(db.(workspaces := db.workspaces[workspace := db.workspaces[workspace].(active := false)],
               workspaceMembers := RetireScope(db.workspaceMembers, workspace)),
           RemovalEvents(WorkspaceScope, db.workspaceMembers, workspace, rows) + [WorkspaceArchived(workspace)])
  }

  // ----- products, entitlements and assignments (product.go, product_access.go) -----

  function RetireProduct(db: Database, actor: string, product: string): Outcome {
    var key := Trim(product);
    var _ :- Need(HasIdPrefix("product.", key), InvalidProductKey);
    var _ :- Need(ActiveUser(db, Trim(actor)) && Trim(actor) in db.admins, UnauthorisedProduct);
    var _ :- Need(key in db.products, ProductNotFound);
    var _ :- Need(db.products[key], ProductIsRetired);
    Commit(db.(products := db.products[key := false]), [ProductRetired(key)])
  }

  ghost predicate HasEntitlement(db: Database, organisation: string, product: string) {
    exists id :: id in db.entitlements && db.entitlements[id] == Entitlement(organisation, product, true)
  }

  ghost predicate HasAssignment(db: Database, user: string, organisation: string, product: string) {
    exists id :: id in db.assignments && db.assignments[id] == Assignment(user, organisation, product, true)
  }

  ghost function EntitleOrganisation(db: Database, actor: string, organisation: string, product: string, entitlement: string): Outcome {
    var key := Trim(product);
    var _ :- Need(HasIdPrefix("product.", key), InvalidProductKey);
    var _ :- AuthoriseOrganisation(db, actor, organisation);
    var _ :- Need(key in db.products, ProductNotFound);
    var _ :- Need(db.products[key], ProductIsRetired);
    var _ :- Need(!HasEntitlement(db, organisation, key), DuplicateEntitlement);
    var _ :- Need(entitlement !in db.entitlements, ConstraintViolation);
    Commit(db.(entitlements := db.entitlements[entitlement := Entitlement(organisation, key, true)]),
           [EntitlementGranted(entitlement, organisation, key)])
  }

  /** The row is looked up by the trimmed id; the event carries the id as given. */
  ghost function RevokeEntitlement(db: Database, actor: string, organisation: string, entitlement: string): Outcome {
    var id := Trim(entitlement);
    var _ :- Need(id in db.entitlements && db.entitlements[id].organisation == organisation, EntitlementNotFound);
    var _ :- AuthoriseOrganisation(db, actor, organisation);
    var _ :- Need(db.entitlements[id].active, EntitlementInactive);
    Commit(db.(entitlements := db.entitlements[id := db.entitlements[id].(active := false)]),
           [EntitlementRevoked(entitlement, organisation, db.entitlements[id].product)])
  }

  ghost function AssignProduct(db: Database, actor: string, organisation: string, target: string, product: string,
                               assignment: string): Outcome {
    var user, key := Trim(target), Trim(product);
    var _ :- Need(HasIdPrefix("product.", key), InvalidProductKey);
    var _ :- AuthoriseOrganisation(db, actor, organisation);
    var _ :- Need(key in db.products, ProductNotFound);
    var _ :- Need(db.products[key], ProductIsRetired);
    var _ :- Need(ActiveUser(db, user) && Current(db.members, organisation, user).Some?, UnauthorisedOrganisation);
    var _ :- Need(!HasAssignment(db, user, organisation, key), DuplicateAssignment);
    var _ :- Need(assignment !in db.assignments, ConstraintViolation);
    Commit(db.(assignments := db.assignments[assignment := Assignment(user, organisation, key, true)]),
           [AssignmentGranted(assignment, organisation, user, key)])
  }

  /** The row is looked up by trimmed ids; authority is checked on the organisation id as given. */
  ghost function RevokeAssignment(db: Database, actor: string, organisation: string, assignment: string): Outcome {
    var id := Trim(assignment);
    var _ :- Need(id in db.assignments && db.assignments[id].organisation == Trim(organisation), AssignmentNotFound);
    var _ :- AuthoriseOrganisation(db, actor, organisation);
    var _ :- Need(db.assignments[id].active, AssignmentInactive);
    var row := db.assignments[id];
    Commit(db.(assignments := db.assignments[id := row.(active := false)]),
           [AssignmentRevoked(assignment, organisation, row.user, row.product)])
  }
}
