/** Who may change what (organisation.go, workspace.go, product.go, product_access.go): the authority behind every successful
    organisation and workspace mutation, stated from the membership rows. */
module Authority {
  import opened Prelude
  import opened Events
  import opened Tables
  import opened Mutations
  import opened Runs
  import opened Integrity
  import opened Bootstrap
  import opened Lifecycle
  import opened Whitespace

  /** The user holds one of these roles by an active row. */
  ghost predicate HoldsRole(t: Memberships, scope: string, user: string, roles: set<Role>) {
    exists id :: IsCurrent(t, id, scope, user) && t[id].role in roles
  }

  ghost predicate IsAdmin(db: Database, actor: string, organisation: string) {
    actor in db.admins || HoldsRole(db.members, organisation, actor, {Owner, Admin})
  }

  predicate OpenOrganisation(db: Database, organisation: string) {
    organisation in db.organisations && db.organisations[organisation].active
  }

  lemma RoleIsHeld(t: Memberships, scope: string, user: string, roles: set<Role>)
    requires RoleIn(t, scope, user) in roles && NoRole !in roles
    ensures HoldsRole(t, scope, user, roles)
  {
    var id := Current(t, scope, user).value;
    assert IsCurrent(t, id, scope, user) && t[id].role in roles;
  }

  lemma AuthorisedIsAdmin(db: Database, actor: string, organisation: string)
    requires AuthoriseOrganisation(db, actor, organisation).Ok?
    ensures ActiveUser(db, actor) && OpenOrganisation(db, organisation) && IsAdmin(db, actor, organisation)
    ensures var a := AuthoriseOrganisation(db, actor, organisation).value;
            && (a.systemAdmin <==> actor in db.admins)
            && (!a.systemAdmin ==> a.role == RoleIn(db.members, organisation, actor))
  {
    hide Current;
    if actor !in db.admins { RoleIsHeld(db.members, organisation, actor, {Owner, Admin}); }
  }

  predicate NeedsOrganisation(m: Mutation) {
    m.MAddOrganisationMember? || m.MChangeOrganisationRole? || m.MDeactivateOrganisationMember? || m.MArchiveOrganisation?
    || m.MRenameOrganisation? || m.MCreateWorkspace? || m.MEntitleOrganisation? || m.MRevokeEntitlement? || m.MAssignProduct?
    || m.MRevokeAssignment?
  }

  /** The organisation whose rows a mutation changes: a revocation finds its row by trimmed ids. */
  function ChangedOrganisation(db: Database, m: Mutation): string {
    if m.MRevokeAssignment? && Trim(m.assignment) in db.assignments then db.assignments[Trim(m.assignment)].organisation
    else if NeedsOrganisation(m) then m.organisation
    else ""
  }

  /** Every organisation, member, workspace, entitlement or assignment row written is one of this organisation. */
  ghost predicate WritesWithin(db: Database, next: Database, organisation: string) {
    && next.users == db.users && next.admins == db.admins && next.products == db.products
    && (forall o :: o in next.organisations && !(o in db.organisations && next.organisations[o] == db.organisations[o]) ==> o == organisation)
    && (forall id :: id in next.members && !(id in db.members && next.members[id] == db.members[id]) ==>
          next.members[id].scope == organisation)
    && (forall w :: w in next.workspaces && !(w in db.workspaces && next.workspaces[w] == db.workspaces[w]) ==>
          next.workspaces[w].organisation == organisation)
    && (forall id :: id in next.workspaceMembers && !(id in db.workspaceMembers && next.workspaceMembers[id] == db.workspaceMembers[id]) ==>
          var w := next.workspaceMembers[id].scope; w in next.workspaces && next.workspaces[w].organisation == organisation)
    && (forall id :: id in next.entitlements && !(id in db.entitlements && next.entitlements[id] == db.entitlements[id]) ==>
          next.entitlements[id].organisation == organisation)
    && (forall id :: id in next.assignments && !(id in db.assignments && next.assignments[id] == db.assignments[id]) ==>
          next.assignments[id].organisation == organisation)
  }

  /** Every change inside an organisation is asked for by an active user who administers the organisation named in the call,
      while it is active, and writes rows of one organisation: the one named, unless the call is a revocation of an assignment
      under an id with surrounding whitespace. */
  lemma OrganisationAuthority(db: Database, m: Mutation)
    requires NeedsOrganisation(m) && Apply(db, m).Ok?
    ensures ActiveUser(db, m.actor) && OpenOrganisation(db, m.organisation) && IsAdmin(db, m.actor, m.organisation)
    ensures WritesWithin(db, Apply(db, m).value, ChangedOrganisation(db, m))
    ensures ChangedOrganisation(db, m) == m.organisation <==> !m.MRevokeAssignment? || Trim(m.organisation) == m.organisation
    ensures CanonicalIds(db) ==> ChangedOrganisation(db, m) == m.organisation
  {
    CallerAdministers(db, m);
    if m.MRevokeAssignment? {
      RevocationWrites(db, m);
    } else if OrganisationMutation(m) || m.MRenameOrganisation? {
      OrganisationWrites(db, m);
    } else {
      AccessWrites(db, m);
    }
    hide Apply, WritesWithin, Trim, IsAdmin, ActiveUser, OpenOrganisation;
  }

  lemma OrganisationWrites(db: Database, m: Mutation)
    requires (OrganisationMutation(m) || m.MRenameOrganisation?) && NeedsOrganisation(m) && Apply(db, m).Ok?
    ensures WritesWithin(db, Apply(db, m).value, m.organisation)
  {
    hide WellFormed, AppendAll, Trim, AuthoriseOrganisation, HasIdPrefix, Current, RemovalEvents, ListsActive, ActiveUser;
  }

  lemma AccessWrites(db: Database, m: Mutation)
    requires m.MCreateWorkspace? || m.MEntitleOrganisation? || m.MRevokeEntitlement? || m.MAssignProduct?
    requires Apply(db, m).Ok?
    ensures WritesWithin(db, Apply(db, m).value, m.organisation)
  {
    hide WellFormed, AppendAll, Trim, AuthoriseOrganisation, HasIdPrefix, Current, HasEntitlement, HasAssignment, ActiveUser;
  }

  lemma RevocationWrites(db: Database, m: Mutation)
    requires m.MRevokeAssignment? && Apply(db, m).Ok?
    ensures Trim(m.assignment) in db.assignments && db.assignments[Trim(m.assignment)].organisation == Trim(m.organisation)
    ensures WritesWithin(db, Apply(db, m).value, Trim(m.organisation))
  {
    hide WellFormed, AppendAll, Trim, AuthoriseOrganisation;
  }

  lemma CallerAdministers(db: Database, m: Mutation)
    requires NeedsOrganisation(m) && Apply(db, m).Ok?
    ensures ActiveUser(db, m.actor) && OpenOrganisation(db, m.organisation) && IsAdmin(db, m.actor, m.organisation)
  {
    hide WellFormed, AppendAll, Trim, Current, RemovalEvents, RetireScope, Retire, MutableMembership, ListsActive, HasEntitlement, HasAssignment,
      AuthoriseOrganisation, HasIdPrefix, Commit, Insert;
    assert AuthoriseOrganisation(db, m.actor, m.organisation).Ok?;
    AuthorisedIsAdmin(db, m.actor, m.organisation);
  }

  /** The owner of "org_1 ", who does not administer "org_1", ends an assignment of "org_1". */
  lemma OutsiderRevokes()
    ensures Inv(TWO) && !IsAdmin(TWO, "usr_b", "org_1")
    ensures TWO.assignments["upa_1"] == Assignment("usr_a", "org_1", CTRL_PRODUCT, true)
    ensures var r := RevokeAssignment(TWO, "usr_b", "org_1 ", "upa_1");
            r.Ok? && "upa_1" in r.value.assignments && !r.value.assignments["upa_1"].active
  {
    TwoRevokes();
    hide Inv, RevokeAssignment;
  }

  /** What it takes to end an assignment of an archived organisation: to own another one whose id trims to its. */
  lemma StrayOwnerRevokes(db: Database, actor: string, organisation: string, assignment: string, owner: string)
    requires Inv(db) && IsArchived(db, Trim(organisation)) && organisation in db.organisations && db.organisations[organisation].active
    requires ActiveUser(db, actor) && actor !in db.admins && IsCurrent(db.members, owner, organisation, actor) && db.members[owner].role.Owner?
    requires Trim(assignment) == assignment && assignment in db.assignments && db.assignments[assignment].active
    requires db.assignments[assignment].organisation == Trim(organisation)
    requires WellFormed(AssignmentRevoked(assignment, organisation, db.assignments[assignment].user, db.assignments[assignment].product))
    ensures var m := MRevokeAssignment(actor, organisation, assignment);
            StrayRevocation(db, m, Trim(organisation)) && !SameAssignments(db, Step(db, m), Trim(organisation))
  {
    var m := MRevokeAssignment(actor, organisation, assignment);
    RevocationIs(db, m);
    hide Inv, Apply, RevokeAssignment, Trim, OneCurrent, WellFormed, SameAssignments;
    Ready(db);
    OwnerRevokes(db, actor, organisation, assignment, owner);
    EndedDiffers(db, Step(db, m), Trim(organisation));
  }

  lemma RevocationIs(db: Database, m: Mutation)
    requires m.MRevokeAssignment?
    ensures Apply(db, m) == RevokeAssignment(db, m.actor, m.organisation, m.assignment)
  {
    hide RevokeAssignment;
  }

  /** The same tables once "org_1" is archived. */
  const ENDED: Database :=
    TWO.(organisations := TWO.organisations["org_1" := TWO.organisations["org_1"].(active := false)],
         members := RetireScope(TWO.members, "org_1"))

  lemma EndedShape()
    ensures ENDED.users == map["usr_a" := true, "usr_b" := true] && ENDED.admins == {}
    ensures ENDED.organisations == map["org_1" := Organisation("One", false), "org_1 " := Organisation("Other", true)]
    ensures "omem_2" in ENDED.members && ENDED.members["omem_2"] == Membership("org_1 ", "usr_b", Owner, true, 1)
    ensures ENDED.assignments == map["upa_1" := Assignment("usr_a", "org_1", CTRL_PRODUCT, true)]
  {
  }

  lemma EndedInv()
    ensures Inv(ENDED)
  {
    TwoInv();
    StagedArchive(TWO, "org_1");
    hide Inv;
  }

  /** Its being archived does not protect the assignment of "org_1" from the owner of "org_1 ". */
  lemma ArchivedAssignmentEnds()
    ensures Inv(ENDED) && IsArchived(ENDED, "org_1")
    ensures var revocation := MRevokeAssignment("usr_b", "org_1 ", "upa_1");
            StrayRevocation(ENDED, revocation, "org_1") && !SameAssignments(ENDED, Step(ENDED, revocation), "org_1")
  {
    EndedInv();
    EndedShape();
    SpacedIds();
    PaddedAnnouncement();
    hide Inv, Apply, Trim, WellFormed, SameAssignments, RetireScope;
    StrayOwnerRevokes(ENDED, "usr_b", "org_1 ", "upa_1", "omem_2");
  }

  /** Only the owner or a system administrator archives an organisation. */
  lemma ArchiveAuthority(db: Database, actor: string, organisation: string, rows: seq<string>)
    requires ListsActive(rows, db.members, organisation) && ArchiveOrganisation(db, actor, organisation, rows).Ok?
    ensures actor in db.admins || HoldsRole(db.members, organisation, actor, {Owner})
  {
    hide Commit, RetireScope, RemovalEvents, ListsActive, Current;
    AuthorisedIsAdmin(db, actor, organisation);
    if actor !in db.admins { RoleIsHeld(db.members, organisation, actor, {Owner}); }
  }

  /** Nobody, system administrators included, changes or removes an owner; and an organisation administrator who is neither
      owner nor system administrator adds plain members only, and changes or removes plain members only. What such an
      administrator promotes a member to is not restricted. */
  lemma ReachOfAdmins(db: Database, m: Mutation)
    requires Apply(db, m).Ok?
    requires m.MAddOrganisationMember? || m.MChangeOrganisationRole? || m.MDeactivateOrganisationMember?
    ensures var touch := TouchOf(db, OrganisationScope, m);
            var plain := m.actor !in db.admins && RoleIn(db.members, m.organisation, m.actor).Admin?;
            && (touch.Added? ==> !touch.row.role.Owner? && (plain ==> touch.row.role.Member?))
            && (touch.Changed? || touch.Removed? ==>
                  touch.current in db.members && !db.members[touch.current].role.Owner? && (plain ==> db.members[touch.current].role.Member?))
  {
    hide WellFormed, AppendAll, Trim, Current, AuthoriseOrganisation, Commit, Insert, Retire;
    AuthorisedIsAdmin(db, m.actor, m.organisation);
  }

  /** An organisation administrator who is not a system administrator adds nobody as an administrator, but makes any current
      plain member one. */
  lemma AdminsPromoteButDoNotAdd(db: Database, actor: string, organisation: string, target: string, membership: string, own: string, current: string)
    requires Inv(db) && OpenOrganisation(db, organisation) && ActiveUser(db, actor) && actor !in db.admins
    requires IsCurrent(db.members, own, organisation, actor) && db.members[own].role.Admin?
    requires ActiveUser(db, target) && Trim(target) == target
    requires IsCurrent(db.members, current, organisation, target) && db.members[current].role.Member?
    requires membership !in db.members && WellFormed(OrganisationRoleChanged(organisation, membership, target, Admin))
    ensures ChangeOrganisationRole(db, actor, organisation, target, Admin, None, membership).Ok?
    ensures forall other :: AddOrganisationMember(db, actor, organisation, other, Admin, membership) == Err(UnauthorisedOrganisation)
  {
    Ready(db);
    CurrentIs(db.members, organisation, actor, own);
    hide Inv, OneCurrent, Trim, WellFormed, AppendAll, Current, Retire;
    AdminPromotes(db, actor, organisation, target, membership, current);
  }

  lemma AdminPromotes(db: Database, actor: string, organisation: string, target: string, membership: string, current: string)
    requires OneCurrent(db.members) && AuthoriseOrganisation(db, actor, organisation) == Ok(Authority(Admin, false))
    requires ActiveUser(db, target) && Trim(target) == target
    requires IsCurrent(db.members, current, organisation, target) && db.members[current].role.Member?
    requires membership !in db.members && WellFormed(OrganisationRoleChanged(organisation, membership, target, Admin))
    ensures ChangeOrganisationRole(db, actor, organisation, target, Admin, None, membership).Ok?
  {
    CurrentIs(db.members, organisation, target, current);
    RetiredLeavesNone(db.members, organisation, target, current);
    hide OneCurrent, Trim, WellFormed, AppendAll, Current, AuthoriseOrganisation;
  }

  lemma RetiredLeavesNone(t: Memberships, scope: string, user: string, current: string)
    requires OneCurrent(t) && IsCurrent(t, current, scope, user)
    ensures Current(Retire(t, current), scope, user).None?
  {
  }

  /** Changes inside a workspace are made, while it and its organisation are active, by an administrator of the organisation,
      or, archiving excepted, by an administrator of the workspace who belongs to the organisation. */
  lemma WorkspaceAuthority(db: Database, m: Mutation)
    requires m.MAddWorkspaceMember? || m.MChangeWorkspaceRole? || m.MDeactivateWorkspaceMember? || m.MArchiveWorkspace?
    requires Apply(db, m).Ok?
    ensures ActiveUser(db, m.actor) && m.workspace in db.workspaces && db.workspaces[m.workspace].active
    ensures var organisation := db.workspaces[m.workspace].organisation;
            && OpenOrganisation(db, organisation)
            && (IsAdmin(db, m.actor, organisation)
                || (!m.MArchiveWorkspace? && HoldsRole(db.workspaceMembers, m.workspace, m.actor, {Owner, Admin})
                    && HoldsRole(db.members, organisation, m.actor, ANY_ROLE)))
  {
    hide WellFormed, AppendAll, Trim, Current, RemovalEvents, RetireScope, Retire, ListsActive, WorkspaceTarget, Commit, Insert, RoleIn,
      AuthoriseWorkspace;
    assert AuthoriseWorkspace(db, m.actor, m.workspace, !m.MArchiveWorkspace?).Ok?;
    ScopeAuthority(db, m.actor, m.workspace, !m.MArchiveWorkspace?);
  }

  lemma ScopeAuthority(db: Database, actor: string, workspace: string, allowWorkspaceAdmin: bool)
    requires AuthoriseWorkspace(db, actor, workspace, allowWorkspaceAdmin).Ok?
    ensures ActiveUser(db, actor) && workspace in db.workspaces && db.workspaces[workspace].active
    ensures var organisation := db.workspaces[workspace].organisation;
            && OpenOrganisation(db, organisation)
            && (IsAdmin(db, actor, organisation)
                || (allowWorkspaceAdmin && HoldsRole(db.workspaceMembers, workspace, actor, {Owner, Admin})
                    && HoldsRole(db.members, organisation, actor, ANY_ROLE)))
  {
    hide RoleIn, HoldsRole;
    var organisation := db.workspaces[workspace].organisation;
    var role, workspaceRole := RoleIn(db.members, organisation, actor), RoleIn(db.workspaceMembers, workspace, actor);
    if actor !in db.admins {
      RoleIsHeld(db.members, organisation, actor, ANY_ROLE);
      if CanAdminister(role) {
        RoleIsHeld(db.members, organisation, actor, {Owner, Admin});
      } else {
        RoleIsHeld(db.workspaceMembers, workspace, actor, {Owner, Admin});
      }
    }
  }

  const ANY_ROLE: set<Role> := {Owner, Admin, Member, Viewer}

  lemma CurrentHoldsRole(db: Database, scope: string, user: string)
    requires Inv(db) && Current(db.members, scope, user).Some?
    ensures HoldsRole(db.members, scope, user, ANY_ROLE)
  {
    hide OneOwner, AccessRows, Gapless, OneCurrent;
    var id := Current(db.members, scope, user).value;
    assert IsCurrent(db.members, id, scope, user) && db.members[id].role in ANY_ROLE;
  }

  /** Whoever is added to a workspace, or given another role in it, is an active user and an active member of its organisation
      at that moment. */
  lemma WorkspaceMembersBelong(db: Database, m: Mutation)
    requires Inv(db) && Apply(db, m).Ok? && (m.MAddWorkspaceMember? || m.MChangeWorkspaceRole? || m.MDeactivateWorkspaceMember?)
    ensures ActiveUser(db, m.target) && m.workspace in db.workspaces
    ensures HoldsRole(db.members, db.workspaces[m.workspace].organisation, m.target, ANY_ROLE)
  {
    hide Inv, WellFormed, AppendAll, Trim, Current, AuthoriseWorkspace, Commit, Insert, Retire, HoldsRole;
    assert WorkspaceTarget(db, m.workspace, m.target);
    CurrentHoldsRole(db, db.workspaces[m.workspace].organisation, m.target);
  }

  /** Products are assigned to active users who belong to the organisation, and only while the product is active. */
  lemma AssigneesBelong(db: Database, actor: string, organisation: string, target: string, product: string, assignment: string)
    requires Inv(db) && AssignProduct(db, actor, organisation, target, product, assignment).Ok?
    ensures ActiveUser(db, Trim(target)) && HoldsRole(db.members, organisation, Trim(target), ANY_ROLE)
    ensures Trim(product) in db.products && db.products[Trim(product)]
  {
    hide Inv, Trim, Current, AuthoriseOrganisation, Commit, HasAssignment, HoldsRole;
    CurrentHoldsRole(db, organisation, Trim(target));
  }

  /** Only an active system administrator retires a product, only once, and nothing brings it back. */
  lemma RetiredForGood(db: Database, actor: string, product: string, ms: seq<Mutation>)
    requires RetireProduct(db, actor, product).Ok?
    ensures ActiveUser(db, Trim(actor)) && Trim(actor) in db.admins && Trim(product) in db.products && db.products[Trim(product)]
    ensures var end := Run(RetireProduct(db, actor, product).value, ms); Trim(product) in end.products && !end.products[Trim(product)]
  {
    RetiredStays(RetireProduct(db, actor, product).value, Trim(product), ms);
    hide Trim, Run;
  }

  predicate IsRetired(db: Database, product: string) {
    product in db.products && !db.products[product]
  }

  lemma {:induction false} RetiredStays(db: Database, product: string, ms: seq<Mutation>)
    ensures IsRetired(db, product) ==> IsRetired(Run(db, ms), product)
    decreases |ms|
  {
    hide Apply, IsRetired;
    if ms != [] {
      RetiredStep(db, product, ms[0]);
      RetiredStays(Step(db, ms[0]), product, ms[1..]);
    }
  }

  lemma RetiredStep(db: Database, product: string, m: Mutation)
    ensures IsRetired(db, product) ==> IsRetired(Step(db, m), product)
  {
    if OrganisationMutation(m) || m.MRenameOrganisation? {
      ProductsKeptByOrganisations(db, m);
    } else if WorkspaceMutation(m) {
      ProductsKeptByWorkspaces(db, m);
    } else {
      hide WellFormed, AppendAll, Trim, AuthoriseOrganisation, HasEntitlement, HasAssignment, Current, CreateOrganisation,
        AddOrganisationMember, ChangeOrganisationRole, DeactivateOrganisationMember, ArchiveOrganisation, RenameOrganisation, CreateWorkspace,
        AddWorkspaceMember, ChangeWorkspaceRole, DeactivateWorkspaceMember, ArchiveWorkspace;
    }
  }

  lemma ProductsKeptByOrganisations(db: Database, m: Mutation)
    requires OrganisationMutation(m) || m.MRenameOrganisation?
    ensures Step(db, m).products == db.products
  {
    hide WellFormed, AppendAll, Trim, Current, AuthoriseOrganisation, MutableMembership, RemovalEvents, RetireScope, Retire, ListsActive;
  }

  lemma ProductsKeptByWorkspaces(db: Database, m: Mutation)
    requires WorkspaceMutation(m)
    ensures Step(db, m).products == db.products
  {
    hide WellFormed, AppendAll, Trim, Current, AuthoriseOrganisation, AuthoriseWorkspace, MutableWorkspaceMembership, WorkspaceTarget,
      RemovalEvents, RetireScope, Retire, ListsActive;
  }
}
