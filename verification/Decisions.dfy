/** When each mutation is carried out, in terms of the rows alone, what it then writes, and how it is refused otherwise. */
module Decisions {
  import opened Prelude
  import opened Events
  import opened Tables
  import opened Mutations
  import opened Integrity
  import opened Bootstrap
  import opened Authority
  import Access

  // ----- what rows say -----

  ghost predicate HasRow(t: Memberships, scope: string, user: string) {
    exists id :: IsCurrent(t, id, scope, user)
  }

  lemma RowIff(t: Memberships, scope: string, user: string)
    ensures HasRow(t, scope, user) <==> Current(t, scope, user).Some?
  {
    var current := Current(t, scope, user);
    assert current.Some? ==> IsCurrent(t, current.value, scope, user);
  }

  lemma RoleIff(t: Memberships, scope: string, user: string, role: Role)
    requires OneCurrent(t) && !role.NoRole?
    ensures HoldsRole(t, scope, user, {role}) <==> RoleIn(t, scope, user) == role
  {
    if id :| IsCurrent(t, id, scope, user) && t[id].role in {role} { CurrentIs(t, scope, user, id); }
    var current := Current(t, scope, user);
    assert current.Some? ==> IsCurrent(t, current.value, scope, user);
  }

  lemma RolesIff(t: Memberships, scope: string, user: string)
    requires OneCurrent(t)
    ensures HoldsRole(t, scope, user, {Owner, Admin}) <==> CanAdminister(RoleIn(t, scope, user))
    ensures HoldsRole(t, scope, user, ANY_ROLE) <==> !RoleIn(t, scope, user).NoRole?
  {
    if id :| IsCurrent(t, id, scope, user) { CurrentIs(t, scope, user, id); }
    var current := Current(t, scope, user);
    assert current.Some? ==> IsCurrent(t, current.value, scope, user);
  }

  /** The staged tables with these events appended to the outbox, unless one of them is malformed. */
  ghost predicate Writes(r: Outcome, staged: Database, es: seq<Event>) {
    if forall e :: e in es ==> WellFormed(e) then
      && r.Ok? && r.value == staged.(outbox := r.value.outbox)
      && staged.outbox <= r.value.outbox && Payloads(r.value.outbox) == Payloads(staged.outbox) + es
    else r == Err(InvalidEvent)
  }

  lemma CommitWrites(staged: Database, es: seq<Event>)
    requires Gapless(staged.outbox)
    ensures Writes(Commit(staged, es), staged, es)
  {
    hide WellFormed, Payloads, Gapless, AppendAll;
    if Commit(staged, es).Ok? { CommitShape(staged, es); }
  }

  // ----- who may change an organisation or a workspace -----

  ghost predicate Administers(db: Database, actor: string, organisation: string) {
    ActiveUser(db, actor) && OpenOrganisation(db, organisation) && IsAdmin(db, actor, organisation)
  }

  function AdministersError(db: Database, actor: string, organisation: string): Error {
    if !ActiveUser(db, actor) then UnauthorisedOrganisation
    else if organisation !in db.organisations then OrganisationNotFound
    else if !db.organisations[organisation].active then OrganisationIsArchived
    else UnauthorisedOrganisation
  }

  lemma OrganisationRights(db: Database, actor: string, organisation: string)
    requires OneCurrent(db.members)
    ensures var r := AuthoriseOrganisation(db, actor, organisation);
            && (Administers(db, actor, organisation) ==>
                  && r.Ok? && (r.value.systemAdmin <==> actor in db.admins)
                  && (actor !in db.admins ==>
                        && (r.value.role.Owner? <==> HoldsRole(db.members, organisation, actor, {Owner}))
                        && (r.value.role.Admin? <==> HoldsRole(db.members, organisation, actor, {Admin})))
                  && (actor in db.admins ==> r.value.role.NoRole?)
                  && (!r.value.role.Admin? <==> actor in db.admins || HoldsRole(db.members, organisation, actor, {Owner})))
            && (!Administers(db, actor, organisation) ==> r == Err(AdministersError(db, actor, organisation)))
  {
    hide HoldsRole, RoleIn, OneCurrent;
    RolesIff(db.members, organisation, actor);
    RoleIff(db.members, organisation, actor, Owner);
    RoleIff(db.members, organisation, actor, Admin);
  }

  predicate OpenWorkspaces(db: Database, workspace: string) {
    workspace in db.workspaces && db.workspaces[workspace].active && OpenOrganisation(db, db.workspaces[workspace].organisation)
  }

  /** Whoever proves an admin scope: the organisation's administrators, and the workspace's who belong to the organisation. */
  ghost predicate AdministersWorkspace(db: Database, actor: string, workspace: string, asWorkspaceAdmin: bool) {
    && ActiveUser(db, actor) && OpenWorkspaces(db, workspace)
    && var organisation := db.workspaces[workspace].organisation;
       (IsAdmin(db, actor, organisation)
        || (asWorkspaceAdmin && HoldsRole(db.workspaceMembers, workspace, actor, {Owner, Admin})
            && HoldsRole(db.members, organisation, actor, ANY_ROLE)))
  }

  function WorkspaceError(db: Database, workspace: string): Error {
    if workspace !in db.workspaces || db.workspaces[workspace].organisation !in db.organisations then WorkspaceNotFound
    else if !OpenWorkspaces(db, workspace) then WorkspaceIsArchived
    else UnauthorisedWorkspace
  }

  lemma WorkspaceRights(db: Database, actor: string, workspace: string, asWorkspaceAdmin: bool)
    requires OneCurrent(db.members) && OneCurrent(db.workspaceMembers)
    ensures var r := AuthoriseWorkspace(db, actor, workspace, asWorkspaceAdmin);
            if AdministersWorkspace(db, actor, workspace, asWorkspaceAdmin) then r.Ok? else r == Err(WorkspaceError(db, workspace))
  {
    hide HoldsRole, RoleIn, OneCurrent;
    if workspace in db.workspaces { RolesIff(db.members, db.workspaces[workspace].organisation, actor); }
    RolesIff(db.workspaceMembers, workspace, actor);
  }

  /** Who can prove a workspace scope, and which roles the proof names. */
  lemma ScopeRights(db: Database, user: string, workspace: string, adminOnly: bool)
    requires OneCurrent(db.members) && OneCurrent(db.workspaceMembers)
    ensures var r := ProveWorkspaceScope(db, user, workspace, adminOnly);
            && (r.Ok? <==>
                  if adminOnly then AdministersWorkspace(db, user, workspace, true)
                  else
                    && ActiveUser(db, user) && OpenWorkspaces(db, workspace)
                    && var organisation := db.workspaces[workspace].organisation;
                       (IsAdmin(db, user, organisation)
                        || (HoldsRole(db.members, organisation, user, ANY_ROLE) && HoldsRole(db.workspaceMembers, workspace, user, ANY_ROLE))))
            && (r.Err? ==> r.error == AccessScopeDenied)
            && (r.Ok? ==>
                  && r.value.organisation == db.workspaces[workspace].organisation
                  && (r.value.systemAdmin <==> user in db.admins)
                  && (forall role: Role | !role.NoRole? ::
                        (r.value.organisationRole == role <==> HoldsRole(db.members, r.value.organisation, user, {role}))
                        && (r.value.workspaceRole == role <==> HoldsRole(db.workspaceMembers, workspace, user, {role}))))
  {
    hide HoldsRole, RoleIn, OneCurrent;
    if workspace in db.workspaces {
      var organisation := db.workspaces[workspace].organisation;
      RolesIff(db.members, organisation, user);
      RolesIff(db.workspaceMembers, workspace, user);
      forall role: Role | !role.NoRole?
        ensures RoleIn(db.members, organisation, user) == role <==> HoldsRole(db.members, organisation, user, {role})
        ensures RoleIn(db.workspaceMembers, workspace, user) == role <==> HoldsRole(db.workspaceMembers, workspace, user, {role})
      {
        RoleIff(db.members, organisation, user, role);
        RoleIff(db.workspaceMembers, workspace, user, role);
      }
    }
  }

  // ----- users -----

  lemma CreateUserDecides(db: Database, user: string, active: bool)
    requires Gapless(db.outbox)
    ensures var r := CreateUser(db, user, active);
            if !HasIdPrefix("usr_", user) then r == Err(InvalidUser)
            else if user in db.users then r == Err(ConstraintViolation)
            else Writes(r, db.(users := db.users[user := active]), [UserCreated(user, active)])
  {
    hide Writes, Commit, Gapless;
    CommitWrites(db.(users := db.users[user := active]), [UserCreated(user, active)]);
  }

  /** The requested flag is stored and announced; nothing is written where it is the flag already. */
  lemma SetUserActiveDecides(db: Database, user: string, active: bool)
    requires Gapless(db.outbox)
    ensures var r, id := SetUserActive(db, user, active), Trim(user);
            if id !in db.users then r == Err(UserNotFound)
            else if db.users[id] == active then r == Ok(db)
            else Writes(r, db.(users := db.users[id := active]), [UserStatusChanged(id, active)])
  {
    hide Writes, Commit, Gapless, Trim;
    CommitWrites(db.(users := db.users[Trim(user) := active]), [UserStatusChanged(Trim(user), active)]);
  }

  // ----- organisations -----

  predicate NameFits(name: string) {
    0 < |Trim(name)| <= 200
  }

  lemma CreateOrganisationDecides(db: Database, actor: string, organisation: string, name: string, membership: string)
    requires Inv(db)
    ensures var r, user := CreateOrganisation(db, actor, organisation, name, membership), Trim(actor);
            if !HasIdPrefix("org_", organisation) then r == Err(InvalidOrganisationId)
            else if !NameFits(name) then r == Err(InvalidOrganisationName)
            else if !ActiveUser(db, user) then r == Err(UnauthorisedOrganisation)
            else if organisation in db.organisations || membership in db.members then r == Err(ConstraintViolation)
            else Writes(r, db.(organisations := db.organisations[organisation := Organisation(Trim(name), true)],
                               members := db.members[membership := Membership(organisation, user, Owner, true, 1)]),
                        [OrganisationCreated(organisation), OrganisationMembershipAdded(organisation, membership, actor, Owner)])
  {
    hide Inv, Writes, Commit, Gapless, Trim, OneCurrent, Current, HasRow;
    if organisation !in db.organisations { NoRowsYet(db, organisation, Trim(actor)); }
    RowIff(db.members, organisation, Trim(actor));
    Ready(db);
    CommitWrites(db.(organisations := db.organisations[organisation := Organisation(Trim(name), true)],
                     members := db.members[membership := Membership(organisation, Trim(actor), Owner, true, 1)]),
                 [OrganisationCreated(organisation), OrganisationMembershipAdded(organisation, membership, actor, Owner)]);
  }

  lemma NoRowsYet(db: Database, organisation: string, user: string)
    requires Inv(db) && organisation !in db.organisations
    ensures !HasRow(db.members, organisation, user)
  {
    hide OneOwner, AccessRows, Gapless, OneCurrent;
  }

  /** What an administrator who is neither owner nor system administrator lacks: hold on administrators. */
  ghost predicate MayHandle(db: Database, actor: string, organisation: string, role: Role) {
    actor in db.admins || HoldsRole(db.members, organisation, actor, {Owner}) || role.Member?
  }

  lemma AddMemberDecides(db: Database, actor: string, organisation: string, target: string, role: Role, membership: string)
    requires Inv(db)
    ensures var r, user := AddOrganisationMember(db, actor, organisation, target, role, membership), Trim(target);
            if !(role.Admin? || role.Member?) then r == Err(InvalidRole)
            else if !Administers(db, actor, organisation) then r == Err(AdministersError(db, actor, organisation))
            else if !MayHandle(db, actor, organisation, role) then r == Err(UnauthorisedOrganisation)
            else if !ActiveUser(db, user) then r == Err(UnauthorisedOrganisation)
            else if HasRow(db.members, organisation, user) then r == Err(DuplicateMember)
            else if membership in db.members then r == Err(ConstraintViolation)
            else Writes(r, db.(members := db.members[membership := Membership(organisation, user, role, true, 1)]),
                        [OrganisationMembershipAdded(organisation, membership, target, role)])
  {
    hide Inv, Writes, Commit, Gapless, Trim, OneCurrent, Current, HasRow, HoldsRole, IsAdmin, AuthoriseOrganisation, OpenOrganisation, AdministersError;
    Ready(db);
    OrganisationRights(db, actor, organisation);
    RowIff(db.members, organisation, Trim(target));
    CommitWrites(db.(members := db.members[membership := Membership(organisation, Trim(target), role, true, 1)]),
                 [OrganisationMembershipAdded(organisation, membership, target, role)]);
  }

  /** `current` is the target's row, if there is one. */
  lemma MutableDecides(db: Database, actor: string, organisation: string, target: string, expected: Option<int>, current: string)
    requires OneCurrent(db.members) && Administers(db, actor, organisation)
    requires HasRow(db.members, organisation, target) ==> IsCurrent(db.members, current, organisation, target)
    ensures var r := MutableMembership(db, AuthoriseOrganisation(db, actor, organisation).value, organisation, target, expected);
            if !ActiveUser(db, target) || !HasRow(db.members, organisation, target) then r == Err(MembershipNotFound)
            else if expected.Some? && expected.value != db.members[current].version then r == Err(CommandConflict)
            else if db.members[current].role.Owner? then r == Err(OwnerMutation)
            else if !MayHandle(db, actor, organisation, db.members[current].role) then r == Err(UnauthorisedOrganisation)
            else r == Ok(current)
  {
    hide OneCurrent, Current, HasRow, HoldsRole, IsAdmin, AuthoriseOrganisation, OpenOrganisation, AdministersError;
    OrganisationRights(db, actor, organisation);
    RowIff(db.members, organisation, target);
    if HasRow(db.members, organisation, target) { CurrentIs(db.members, organisation, target, current); }
  }

  lemma ChangeRoleDecides(db: Database, actor: string, organisation: string, target: string, role: Role, expected: Option<int>,
                          membership: string, current: string)
    requires Inv(db) && (HasRow(db.members, organisation, target) ==> IsCurrent(db.members, current, organisation, target))
    ensures var r, user := ChangeOrganisationRole(db, actor, organisation, target, role, expected, membership), Trim(target);
            if !(role.Admin? || role.Member?) then r == Err(InvalidRole)
            else if !Administers(db, actor, organisation) then r == Err(AdministersError(db, actor, organisation))
            else if !ActiveUser(db, target) || !HasRow(db.members, organisation, target) then r == Err(MembershipNotFound)
            else if expected.Some? && expected.value != db.members[current].version then r == Err(CommandConflict)
            else if db.members[current].role.Owner? then r == Err(OwnerMutation)
            else if !MayHandle(db, actor, organisation, db.members[current].role) then r == Err(UnauthorisedOrganisation)
            else if db.members[current].role == role then r == Err(DuplicateMember)
            else if !ActiveUser(db, user) then r == Err(UnauthorisedOrganisation)
            else if membership in db.members || (user != target && HasRow(db.members, organisation, user)) then r == Err(ConstraintViolation)
            else Writes(r, db.(members := db.members[current := db.members[current].(active := false)]
                                                    [membership := Membership(organisation, user, role, true, db.members[current].version + 1)]),
                        [OrganisationRoleChanged(organisation, membership, target, role)])
  {
    hide Inv, Writes, OneCurrent, Trim, HasRow, Administers, AuthoriseOrganisation, AdministersError, MutableMembership, ChangeOrganisationRole, MayHandle;
    Ready(db);
    OrganisationRights(db, actor, organisation);
    if Administers(db, actor, organisation) {
      MutableDecides(db, actor, organisation, target, expected, current);
      if (role.Admin? || role.Member?) && MutableMembership(db, AuthoriseOrganisation(db, actor, organisation).value, organisation, target, expected).Ok? {
        NoSuchRow(db.members, organisation, target, current);
        ChangeRoleApplies(db, actor, organisation, target, role, expected, membership, current);
      } else {
        ChangeRoleRefused(db, actor, organisation, target, role, expected, membership);
      }
    } else {
      ChangeRoleRefused(db, actor, organisation, target, role, expected, membership);
    }
  }

  lemma ChangeRoleRefused(db: Database, actor: string, organisation: string, target: string, role: Role, expected: Option<int>, membership: string)
    ensures var r, authority := ChangeOrganisationRole(db, actor, organisation, target, role, expected, membership),
                                AuthoriseOrganisation(db, actor, organisation);
            && (!(role.Admin? || role.Member?) ==> r == Err(InvalidRole))
            && ((role.Admin? || role.Member?) && authority.Err? ==> r == Err(authority.error))
            && ((role.Admin? || role.Member?) && authority.Ok? ==>
                  var mutable := MutableMembership(db, authority.value, organisation, target, expected);
                  mutable.Err? ==> r == Err(mutable.error))
  {
    hide AuthoriseOrganisation, MutableMembership, Commit, Trim, Insert;
  }

  lemma ChangeRoleApplies(db: Database, actor: string, organisation: string, target: string, role: Role, expected: Option<int>,
                          membership: string, current: string)
    requires OneCurrent(db.members) && Gapless(db.outbox) && (role.Admin? || role.Member?) && AuthoriseOrganisation(db, actor, organisation).Ok?
    requires MutableMembership(db, AuthoriseOrganisation(db, actor, organisation).value, organisation, target, expected) == Ok(current)
    ensures var r, user := ChangeOrganisationRole(db, actor, organisation, target, role, expected, membership), Trim(target);
            if db.members[current].role == role then r == Err(DuplicateMember)
            else if !ActiveUser(db, user) then r == Err(UnauthorisedOrganisation)
            else if membership in db.members || (user != target && HasRow(db.members, organisation, user)) then r == Err(ConstraintViolation)
            else Writes(r, db.(members := db.members[current := db.members[current].(active := false)]
                                                    [membership := Membership(organisation, user, role, true, db.members[current].version + 1)]),
                        [OrganisationRoleChanged(organisation, membership, target, role)])
  {
    hide AuthoriseOrganisation, MutableMembership, Writes, Commit, Trim, OneCurrent, Current, HasRow, Gapless;
    RetiredRows(db.members, organisation, target, Trim(target), current);
    RowIff(Retire(db.members, current), organisation, Trim(target));
    CommitWrites(db.(members := db.members[current := db.members[current].(active := false)]
                                          [membership := Membership(organisation, Trim(target), role, true, db.members[current].version + 1)]),
                 [OrganisationRoleChanged(organisation, membership, target, role)]);
  }

  lemma NoSuchRow(t: Memberships, scope: string, user: string, current: string)
    requires HasRow(t, scope, user) ==> IsCurrent(t, current, scope, user)
    ensures !IsCurrent(t, current, scope, user) ==> !HasRow(t, scope, user)
  {
  }

  /** After retiring a user's current row, another user has a row if it had one before. */
  lemma RetiredRows(t: Memberships, scope: string, user: string, other: string, current: string)
    requires OneCurrent(t) && IsCurrent(t, current, scope, user)
    ensures HasRow(t, scope, user)
    ensures HasRow(Retire(t, current), scope, other) <==> other != user && HasRow(t, scope, other)
  {
    var t' := Retire(t, current);
    if id :| IsCurrent(t, id, scope, other) && other != user { assert IsCurrent(t', id, scope, other); }
    if id :| IsCurrent(t', id, scope, other) { assert IsCurrent(t, id, scope, other); }
  }

  lemma DeactivateMemberDecides(db: Database, actor: string, organisation: string, target: string, expected: Option<int>, current: string)
    requires Inv(db) && (HasRow(db.members, organisation, target) ==> IsCurrent(db.members, current, organisation, target))
    ensures var r := DeactivateOrganisationMember(db, actor, organisation, target, expected);
            if !Administers(db, actor, organisation) then r == Err(AdministersError(db, actor, organisation))
            else if !ActiveUser(db, target) || !HasRow(db.members, organisation, target) then r == Err(MembershipNotFound)
            else if expected.Some? && expected.value != db.members[current].version then r == Err(CommandConflict)
            else if db.members[current].role.Owner? then r == Err(OwnerMutation)
            else if !MayHandle(db, actor, organisation, db.members[current].role) then r == Err(UnauthorisedOrganisation)
            else Writes(r, db.(members := db.members[current := db.members[current].(active := false)]),
                        [OrganisationMembershipRemoved(organisation, current, target, db.members[current].role)])
  {
    hide Inv, Writes, Commit, Gapless, OneCurrent, Current, HasRow, HoldsRole, IsAdmin, AuthoriseOrganisation, OpenOrganisation,
      AdministersError, MutableMembership;
    Ready(db);
    OrganisationRights(db, actor, organisation);
    if Administers(db, actor, organisation) {
      MutableDecides(db, actor, organisation, target, expected, current);
      if IsCurrent(db.members, current, organisation, target) {
        CommitWrites(db.(members := db.members[current := db.members[current].(active := false)]),
                     [OrganisationMembershipRemoved(organisation, current, target, db.members[current].role)]);
      } else {
        NoSuchRow(db.members, organisation, target, current);
      }
    }
  }

  /** Every active row of the scope has ended, and nothing else has changed. */
  ghost predicate ScopeEnded(t: Memberships, t': Memberships, scope: string) {
    && t'.Keys == t.Keys
    && forall id :: id in t ==> t'[id] == if t[id].scope == scope then t[id].(active := false) else t[id]
  }

  /** One removal for each listed row, naming its user and role. */
  ghost predicate RemovalsOf(es: seq<Event>, kind: ScopeKind, t: Memberships, scope: string, rows: seq<string>) {
    && |es| == |rows|
    && (forall i :: 0 <= i < |rows| ==> rows[i] in t)
    && (forall i :: 0 <= i < |rows| ==>
          es[i] == match kind
                   case OrganisationScope => OrganisationMembershipRemoved(scope, rows[i], t[rows[i]].user, t[rows[i]].role)
                   case WorkspaceScope => WorkspaceMembershipRemoved(scope, rows[i], t[rows[i]].user, t[rows[i]].role))
  }

  lemma ScopeEnds(t: Memberships, scope: string, rows: seq<string>)
    requires ListsActive(rows, t, scope)
    ensures ScopeEnded(t, RetireScope(t, scope), scope) && forall i :: 0 <= i < |rows| ==> rows[i] in t
  {
  }

  lemma {:induction false} RemovalEventsAre(kind: ScopeKind, t: Memberships, scope: string, rows: seq<string>)
    requires forall i :: 0 <= i < |rows| ==> rows[i] in t
    ensures RemovalsOf(RemovalEvents(kind, t, scope, rows), kind, t, scope, rows)
    decreases |rows|
  {
    if rows != [] { RemovalEventsAre(kind, t, scope, rows[1..]); }
  }

  lemma ArchiveOrganisationDecides(db: Database, actor: string, organisation: string, rows: seq<string>)
    requires Inv(db) && ListsActive(rows, db.members, organisation)
    ensures var r := ArchiveOrganisation(db, actor, organisation, rows);
            if !Administers(db, actor, organisation) then r == Err(AdministersError(db, actor, organisation))
            else if !(actor in db.admins || HoldsRole(db.members, organisation, actor, {Owner})) then r == Err(UnauthorisedOrganisation)
            else exists members, removals ::
              && ScopeEnded(db.members, members, organisation) && RemovalsOf(removals, OrganisationScope, db.members, organisation, rows)
              && Writes(r, db.(organisations := db.organisations[organisation := db.organisations[organisation].(active := false)],
                               members := members),
                        removals + [OrganisationArchived(organisation)])
  {
    hide Inv, Writes, Commit, Gapless, OneCurrent, HoldsRole, IsAdmin, AuthoriseOrganisation, AdministersError, RetireScope,
      RemovalEvents, ScopeEnded, RemovalsOf, ListsActive;
    Ready(db);
    OrganisationRights(db, actor, organisation);
    ScopeEnds(db.members, organisation, rows);
    RemovalEventsAre(OrganisationScope, db.members, organisation, rows);
    var members, removals := RetireScope(db.members, organisation), RemovalEvents(OrganisationScope, db.members, organisation, rows);
    if Administers(db, actor, organisation) {
      CommitWrites(db.(organisations := db.organisations[organisation := db.organisations[organisation].(active := false)], members := members),
                   removals + [OrganisationArchived(organisation)]);
    }
  }

  lemma RenameDecides(db: Database, actor: string, organisation: string, name: string)
    requires Inv(db)
    ensures var r := RenameOrganisation(db, actor, organisation, name);
            if !NameFits(name) then r == Err(InvalidOrganisationName)
            else if !Administers(db, actor, organisation) then r == Err(AdministersError(db, actor, organisation))
            else Writes(r, db.(organisations := db.organisations[organisation := Organisation(Trim(name), true)]),
                        [OrganisationRenamed(organisation, Trim(name))])
  {
    hide Inv, Writes, Commit, Gapless, Trim, OneCurrent, HoldsRole, IsAdmin, AuthoriseOrganisation, OpenOrganisation, AdministersError;
    Ready(db);
    OrganisationRights(db, actor, organisation);
    CommitWrites(db.(organisations := db.organisations[organisation := Organisation(Trim(name), true)]), [OrganisationRenamed(organisation, Trim(name))]);
  }

  // ----- workspaces -----

  lemma CreateWorkspaceDecides(db: Database, actor: string, organisation: string, workspace: string, name: string, membership: string)
    requires Inv(db)
    ensures var r := CreateWorkspace(db, actor, organisation, workspace, name, membership);
            if !HasIdPrefix("wsp_", workspace) then r == Err(InvalidWorkspaceId)
            else if !HasIdPrefix("org_", organisation) then r == Err(InvalidWorkspace)
            else if !NameFits(name) then r == Err(InvalidWorkspaceName)
            else if !Administers(db, actor, organisation) then r == Err(AdministersError(db, actor, organisation))
            else if workspace in db.workspaces || membership in db.workspaceMembers then r == Err(ConstraintViolation)
            else Writes(r, db.(workspaces := db.workspaces[workspace := Workspace(organisation, true)],
                               workspaceMembers := db.workspaceMembers[membership := Membership(workspace, actor, Admin, true, 1)]),
                        [WorkspaceCreated(workspace, organisation), WorkspaceMembershipAdded(workspace, membership, actor, Admin)])
  {
    hide Inv, Writes, Commit, Gapless, Trim, OneCurrent, Current, HasRow, HoldsRole, IsAdmin, AuthoriseOrganisation, OpenOrganisation, AdministersError;
    Ready(db);
    OrganisationRights(db, actor, organisation);
    if workspace !in db.workspaces { NoWorkspaceRows(db, workspace, actor); }
    RowIff(db.workspaceMembers, workspace, actor);
    CommitWrites(db.(workspaces := db.workspaces[workspace := Workspace(organisation, true)],
                     workspaceMembers := db.workspaceMembers[membership := Membership(workspace, actor, Admin, true, 1)]),
                 [WorkspaceCreated(workspace, organisation), WorkspaceMembershipAdded(workspace, membership, actor, Admin)]);
  }

  lemma NoWorkspaceRows(db: Database, workspace: string, user: string)
    requires Inv(db) && workspace !in db.workspaces
    ensures !HasRow(db.workspaceMembers, workspace, user)
  {
    hide OneOwner, AccessRows, Gapless, OneCurrent;
  }

  /** Who can be given a role in a workspace: active users who belong to its organisation. */
  ghost predicate Eligible(db: Database, workspace: string, target: string) {
    OpenWorkspaces(db, workspace) && ActiveUser(db, target) && HasRow(db.members, db.workspaces[workspace].organisation, target)
  }

  lemma TargetIff(db: Database, workspace: string, target: string)
    requires OpenWorkspaces(db, workspace)
    ensures WorkspaceTarget(db, workspace, target) <==> Eligible(db, workspace, target)
  {
    hide HasRow, Current;
    RowIff(db.members, db.workspaces[workspace].organisation, target);
  }

  predicate WorkspaceRole(role: Role) {
    !role.NoRole? && !role.Owner?
  }

  lemma AddToWorkspaceDecides(db: Database, actor: string, workspace: string, target: string, role: Role, membership: string)
    requires Inv(db)
    ensures var r := AddWorkspaceMember(db, actor, workspace, target, role, membership);
            if !WorkspaceRole(role) then r == Err(InvalidRole)
            else if !AdministersWorkspace(db, actor, workspace, true) then r == Err(WorkspaceError(db, workspace))
            else if !Eligible(db, workspace, target) then r == Err(UnauthorisedWorkspace)
            else if HasRow(db.workspaceMembers, workspace, target) then r == Err(DuplicateWorkspaceMember)
            else if membership in db.workspaceMembers then r == Err(ConstraintViolation)
            else Writes(r, db.(workspaceMembers := db.workspaceMembers[membership := Membership(workspace, target, role, true, 1)]),
                        [WorkspaceMembershipAdded(workspace, membership, target, role)])
  {
    hide Inv, Writes, Commit, Gapless, OneCurrent, Current, HasRow, HoldsRole, IsAdmin, AuthoriseWorkspace, WorkspaceTarget, Eligible,
      OpenOrganisation, WorkspaceError;
    Ready(db);
    WorkspaceRights(db, actor, workspace, true);
    if OpenWorkspaces(db, workspace) { TargetIff(db, workspace, target); }
    RowIff(db.workspaceMembers, workspace, target);
    CommitWrites(db.(workspaceMembers := db.workspaceMembers[membership := Membership(workspace, target, role, true, 1)]),
                 [WorkspaceMembershipAdded(workspace, membership, target, role)]);
  }

  lemma MutableInWorkspaceDecides(db: Database, actor: string, workspace: string, target: string, expected: Option<int>, current: string)
    requires OneCurrent(db.members) && OneCurrent(db.workspaceMembers)
    requires HasRow(db.workspaceMembers, workspace, target) ==> IsCurrent(db.workspaceMembers, current, workspace, target)
    ensures var r := MutableWorkspaceMembership(db, actor, workspace, target, expected);
            if !AdministersWorkspace(db, actor, workspace, true) then r == Err(WorkspaceError(db, workspace))
            else if !Eligible(db, workspace, target) then r == Err(UnauthorisedWorkspace)
            else if !HasRow(db.workspaceMembers, workspace, target) then r == Err(WorkspaceMembershipNotFound)
            else if expected.Some? && expected.value != db.workspaceMembers[current].version then r == Err(CommandConflict)
            else r == Ok(current)
  {
    hide OneCurrent, Current, HasRow, HoldsRole, IsAdmin, AuthoriseWorkspace, WorkspaceTarget, Eligible, OpenOrganisation, WorkspaceError;
    WorkspaceRights(db, actor, workspace, true);
    if OpenWorkspaces(db, workspace) { TargetIff(db, workspace, target); }
    RowIff(db.workspaceMembers, workspace, target);
    if HasRow(db.workspaceMembers, workspace, target) { CurrentIs(db.workspaceMembers, workspace, target, current); }
  }

  lemma ChangeInWorkspaceDecides(db: Database, actor: string, workspace: string, target: string, role: Role, expected: Option<int>,
                                 membership: string, current: string)
    requires Inv(db) && (HasRow(db.workspaceMembers, workspace, target) ==> IsCurrent(db.workspaceMembers, current, workspace, target))
    ensures var r := ChangeWorkspaceRole(db, actor, workspace, target, role, expected, membership);
            if !WorkspaceRole(role) then r == Err(InvalidRole)
            else if !AdministersWorkspace(db, actor, workspace, true) then r == Err(WorkspaceError(db, workspace))
            else if !Eligible(db, workspace, target) then r == Err(UnauthorisedWorkspace)
            else if !HasRow(db.workspaceMembers, workspace, target) then r == Err(WorkspaceMembershipNotFound)
            else if expected.Some? && expected.value != db.workspaceMembers[current].version then r == Err(CommandConflict)
            else if db.workspaceMembers[current].role == role then r == Err(DuplicateWorkspaceMember)
            else if membership in db.workspaceMembers then r == Err(ConstraintViolation)
            else Writes(r, db.(workspaceMembers := db.workspaceMembers[current := db.workspaceMembers[current].(active := false)]
                                 [membership := Membership(workspace, target, role, true, db.workspaceMembers[current].version + 1)]),
                        [WorkspaceRoleChanged(workspace, membership, target, role)])
  {
    hide Inv, Writes, OneCurrent, HasRow, AdministersWorkspace, Eligible, WorkspaceError, MutableWorkspaceMembership, ChangeWorkspaceRole;
    Ready(db);
    MutableInWorkspaceDecides(db, actor, workspace, target, expected, current);
    if WorkspaceRole(role) && MutableWorkspaceMembership(db, actor, workspace, target, expected).Ok? {
      ChangeInWorkspaceApplies(db, actor, workspace, target, role, expected, membership, current);
    } else {
      ChangeInWorkspaceRefused(db, actor, workspace, target, role, expected, membership);
    }
  }

  lemma ChangeInWorkspaceRefused(db: Database, actor: string, workspace: string, target: string, role: Role, expected: Option<int>,
                                 membership: string)
    ensures var r, mutable := ChangeWorkspaceRole(db, actor, workspace, target, role, expected, membership),
                              MutableWorkspaceMembership(db, actor, workspace, target, expected);
            && (!WorkspaceRole(role) ==> r == Err(InvalidRole))
            && (WorkspaceRole(role) && mutable.Err? ==> r == Err(mutable.error))
  {
    hide MutableWorkspaceMembership, Commit, Insert;
  }

  lemma ChangeInWorkspaceApplies(db: Database, actor: string, workspace: string, target: string, role: Role, expected: Option<int>,
                                 membership: string, current: string)
    requires OneCurrent(db.workspaceMembers) && Gapless(db.outbox) && WorkspaceRole(role)
    requires MutableWorkspaceMembership(db, actor, workspace, target, expected) == Ok(current)
    ensures var r := ChangeWorkspaceRole(db, actor, workspace, target, role, expected, membership);
            if db.workspaceMembers[current].role == role then r == Err(DuplicateWorkspaceMember)
            else if membership in db.workspaceMembers then r == Err(ConstraintViolation)
            else Writes(r, db.(workspaceMembers := db.workspaceMembers[current := db.workspaceMembers[current].(active := false)]
                                 [membership := Membership(workspace, target, role, true, db.workspaceMembers[current].version + 1)]),
                        [WorkspaceRoleChanged(workspace, membership, target, role)])
  {
    hide MutableWorkspaceMembership, Writes, Commit, OneCurrent, Current, HasRow, Gapless;
    RetiredRows(db.workspaceMembers, workspace, target, target, current);
    RowIff(Retire(db.workspaceMembers, current), workspace, target);
    CommitWrites(db.(workspaceMembers := db.workspaceMembers[current := db.workspaceMembers[current].(active := false)]
                       [membership := Membership(workspace, target, role, true, db.workspaceMembers[current].version + 1)]),
                 [WorkspaceRoleChanged(workspace, membership, target, role)]);
  }

  lemma RemoveFromWorkspaceDecides(db: Database, actor: string, workspace: string, target: string, expected: Option<int>, current: string)
    requires Inv(db) && (HasRow(db.workspaceMembers, workspace, target) ==> IsCurrent(db.workspaceMembers, current, workspace, target))
    ensures var r := DeactivateWorkspaceMember(db, actor, workspace, target, expected);
            if !AdministersWorkspace(db, actor, workspace, true) then r == Err(WorkspaceError(db, workspace))
            else if !Eligible(db, workspace, target) then r == Err(UnauthorisedWorkspace)
            else if !HasRow(db.workspaceMembers, workspace, target) then r == Err(WorkspaceMembershipNotFound)
            else if expected.Some? && expected.value != db.workspaceMembers[current].version then r == Err(CommandConflict)
            else Writes(r, db.(workspaceMembers := db.workspaceMembers[current := db.workspaceMembers[current].(active := false)]),
                        [WorkspaceMembershipRemoved(workspace, current, target, db.workspaceMembers[current].role)])
  {
    hide Inv, Writes, Commit, Gapless, OneCurrent, Current, HasRow, AdministersWorkspace, Eligible, WorkspaceError, MutableWorkspaceMembership;
    Ready(db);
    MutableInWorkspaceDecides(db, actor, workspace, target, expected, current);
    if IsCurrent(db.workspaceMembers, current, workspace, target) {
      CommitWrites(db.(workspaceMembers := db.workspaceMembers[current := db.workspaceMembers[current].(active := false)]),
                   [WorkspaceMembershipRemoved(workspace, current, target, db.workspaceMembers[current].role)]);
    } else {
      NoSuchRow(db.workspaceMembers, workspace, target, current);
    }
  }

  lemma ArchiveWorkspaceDecides(db: Database, actor: string, workspace: string, rows: seq<string>)
    requires Inv(db) && ListsActive(rows, db.workspaceMembers, workspace)
    ensures var r := ArchiveWorkspace(db, actor, workspace, rows);
            if !AdministersWorkspace(db, actor, workspace, false) then r == Err(WorkspaceError(db, workspace))
            else exists members, removals ::
              && ScopeEnded(db.workspaceMembers, members, workspace) && RemovalsOf(removals, WorkspaceScope, db.workspaceMembers, workspace, rows)
              && Writes(r, db.(workspaces := db.workspaces[workspace := db.workspaces[workspace].(active := false)], workspaceMembers := members),
                        removals + [WorkspaceArchived(workspace)])
  {
    hide Inv, Writes, Commit, Gapless, OneCurrent, HoldsRole, IsAdmin, AuthoriseWorkspace, WorkspaceError, RetireScope,
      RemovalEvents, ScopeEnded, RemovalsOf, ListsActive;
    Ready(db);
    WorkspaceRights(db, actor, workspace, false);
    ScopeEnds(db.workspaceMembers, workspace, rows);
    RemovalEventsAre(WorkspaceScope, db.workspaceMembers, workspace, rows);
    var members, removals := RetireScope(db.workspaceMembers, workspace), RemovalEvents(WorkspaceScope, db.workspaceMembers, workspace, rows);
    if AdministersWorkspace(db, actor, workspace, false) {
      CommitWrites(db.(workspaces := db.workspaces[workspace := db.workspaces[workspace].(active := false)], workspaceMembers := members),
                   removals + [WorkspaceArchived(workspace)]);
    }
  }

  // ----- products, entitlements and assignments -----

  lemma RetireProductDecides(db: Database, actor: string, product: string)
    requires Gapless(db.outbox)
    ensures var r, key := RetireProduct(db, actor, product), Trim(product);
            if !HasIdPrefix("product.", key) then r == Err(InvalidProductKey)
            else if !(ActiveUser(db, Trim(actor)) && Trim(actor) in db.admins) then r == Err(UnauthorisedProduct)
            else if key !in db.products then r == Err(ProductNotFound)
            else if !db.products[key] then r == Err(ProductIsRetired)
            else Writes(r, db.(products := db.products[key := false]), [ProductRetired(key)])
  {
    hide Writes, Commit, Gapless, Trim;
    CommitWrites(db.(products := db.products[Trim(product) := false]), [ProductRetired(Trim(product))]);
  }

  ghost predicate Entitled(db: Database, organisation: string, product: string) {
    exists id :: id in db.entitlements && db.entitlements[id].active
                 && db.entitlements[id].organisation == organisation && db.entitlements[id].product == product
  }

  ghost predicate Assigned(db: Database, user: string, organisation: string, product: string) {
    exists id :: id in db.assignments && db.assignments[id].active && db.assignments[id].user == user
                 && db.assignments[id].organisation == organisation && db.assignments[id].product == product
  }

  lemma EntitledIff(db: Database, organisation: string, product: string)
    ensures HasEntitlement(db, organisation, product) <==> Entitled(db, organisation, product)
  {
    if id :| id in db.entitlements && db.entitlements[id].active
             && db.entitlements[id].organisation == organisation && db.entitlements[id].product == product {
      assert db.entitlements[id] == Entitlement(organisation, product, true);
    }
    if id :| id in db.entitlements && db.entitlements[id] == Entitlement(organisation, product, true) { assert db.entitlements[id].active; }
  }

  lemma AssignedIff(db: Database, user: string, organisation: string, product: string)
    ensures HasAssignment(db, user, organisation, product) <==> Assigned(db, user, organisation, product)
  {
    if id :| id in db.assignments && db.assignments[id].active && db.assignments[id].user == user
             && db.assignments[id].organisation == organisation && db.assignments[id].product == product {
      assert db.assignments[id] == Assignment(user, organisation, product, true);
    }
    if id :| id in db.assignments && db.assignments[id] == Assignment(user, organisation, product, true) { assert db.assignments[id].active; }
  }

  lemma EntitleDecides(db: Database, actor: string, organisation: string, product: string, entitlement: string)
    requires Inv(db)
    ensures var r, key := EntitleOrganisation(db, actor, organisation, product, entitlement), Trim(product);
            if !HasIdPrefix("product.", key) then r == Err(InvalidProductKey)
            else if !Administers(db, actor, organisation) then r == Err(AdministersError(db, actor, organisation))
            else if key !in db.products then r == Err(ProductNotFound)
            else if !db.products[key] then r == Err(ProductIsRetired)
            else if Entitled(db, organisation, key) then r == Err(DuplicateEntitlement)
            else if entitlement in db.entitlements then r == Err(ConstraintViolation)
            else Writes(r, db.(entitlements := db.entitlements[entitlement := Entitlement(organisation, key, true)]),
                        [EntitlementGranted(entitlement, organisation, key)])
  {
    hide Inv, Writes, Commit, Gapless, Trim, OneCurrent, HoldsRole, IsAdmin, AuthoriseOrganisation, OpenOrganisation, AdministersError,
      HasEntitlement, Entitled;
    Ready(db);
    OrganisationRights(db, actor, organisation);
    EntitledIff(db, organisation, Trim(product));
    CommitWrites(db.(entitlements := db.entitlements[entitlement := Entitlement(organisation, Trim(product), true)]),
                 [EntitlementGranted(entitlement, organisation, Trim(product))]);
  }

  lemma RevokeEntitlementDecides(db: Database, actor: string, organisation: string, entitlement: string)
    requires Inv(db)
    ensures var r, id := RevokeEntitlement(db, actor, organisation, entitlement), Trim(entitlement);
            if !(id in db.entitlements && db.entitlements[id].organisation == organisation) then r == Err(EntitlementNotFound)
            else if !Administers(db, actor, organisation) then r == Err(AdministersError(db, actor, organisation))
            else if !db.entitlements[id].active then r == Err(EntitlementInactive)
            else Writes(r, db.(entitlements := db.entitlements[id := Entitlement(organisation, db.entitlements[id].product, false)]),
                        [EntitlementRevoked(entitlement, organisation, db.entitlements[id].product)])
  {
    hide Inv, Writes, Commit, Gapless, Trim, OneCurrent, HoldsRole, IsAdmin, AuthoriseOrganisation, OpenOrganisation, AdministersError;
    Ready(db);
    OrganisationRights(db, actor, organisation);
    var id := Trim(entitlement);
    if id in db.entitlements {
      CommitWrites(db.(entitlements := db.entitlements[id := Entitlement(organisation, db.entitlements[id].product, false)]),
                   [EntitlementRevoked(entitlement, organisation, db.entitlements[id].product)]);
    }
  }

  lemma AssignDecides(db: Database, actor: string, organisation: string, target: string, product: string, assignment: string)
    requires Inv(db)
    ensures var r, user, key := AssignProduct(db, actor, organisation, target, product, assignment), Trim(target), Trim(product);
            if !HasIdPrefix("product.", key) then r == Err(InvalidProductKey)
            else if !Administers(db, actor, organisation) then r == Err(AdministersError(db, actor, organisation))
            else if key !in db.products then r == Err(ProductNotFound)
            else if !db.products[key] then r == Err(ProductIsRetired)
            else if !(ActiveUser(db, user) && HasRow(db.members, organisation, user)) then r == Err(UnauthorisedOrganisation)
            else if Assigned(db, user, organisation, key) then r == Err(DuplicateAssignment)
            else if assignment in db.assignments then r == Err(ConstraintViolation)
            else Writes(r, db.(assignments := db.assignments[assignment := Assignment(user, organisation, key, true)]),
                        [AssignmentGranted(assignment, organisation, user, key)])
  {
    hide Inv, Writes, Commit, Gapless, Trim, OneCurrent, Current, HasRow, HoldsRole, IsAdmin, AuthoriseOrganisation, OpenOrganisation,
      AdministersError, HasAssignment, Assigned;
    Ready(db);
    OrganisationRights(db, actor, organisation);
    AssignedIff(db, Trim(target), organisation, Trim(product));
    RowIff(db.members, organisation, Trim(target));
    CommitWrites(db.(assignments := db.assignments[assignment := Assignment(Trim(target), organisation, Trim(product), true)]),
                 [AssignmentGranted(assignment, organisation, Trim(target), Trim(product))]);
  }

  lemma RevokeAssignmentDecides(db: Database, actor: string, organisation: string, assignment: string)
    requires Inv(db)
    ensures var r, id := RevokeAssignment(db, actor, organisation, assignment), Trim(assignment);
            if !(id in db.assignments && db.assignments[id].organisation == Trim(organisation)) then r == Err(AssignmentNotFound)
            else if !Administers(db, actor, organisation) then r == Err(AdministersError(db, actor, organisation))
            else if !db.assignments[id].active then r == Err(AssignmentInactive)
            else
              var row := db.assignments[id];
              Writes(r, db.(assignments := db.assignments[id := Assignment(row.user, row.organisation, row.product, false)]),
                     [AssignmentRevoked(assignment, organisation, row.user, row.product)])
  {
    hide Inv, Writes, Commit, Gapless, Trim, OneCurrent, HoldsRole, IsAdmin, AuthoriseOrganisation, OpenOrganisation, AdministersError;
    Ready(db);
    OrganisationRights(db, actor, organisation);
    var id := Trim(assignment);
    if id in db.assignments {
      var row := db.assignments[id];
      CommitWrites(db.(assignments := db.assignments[id := Assignment(row.user, row.organisation, row.product, false)]),
                   [AssignmentRevoked(assignment, organisation, row.user, row.product)]);
    }
  }

  /** Access to a product is proved exactly when every link of the chain is there: an active user, an open workspace of the
      organisation, an active product, an active entitlement and assignment, and a membership of the organisation with either an
      administrator's role or a membership of the workspace. The proof names the roles as stored. */
  lemma AccessDecides(db: Database, user: string, organisation: string, product: string, workspace: string)
    requires Inv(db)
    ensures var r, key := Access.ProveProductAccess(db, user, organisation, product, workspace), Trim(product);
            && (r.Ok? <==>
                  && HasIdPrefix("product.", key) && key in db.products && db.products[key]
                  && ActiveUser(db, user) && OpenWorkspaces(db, workspace) && db.workspaces[workspace].organisation == organisation
                  && Entitled(db, organisation, key) && Assigned(db, user, organisation, key)
                  && HoldsRole(db.members, organisation, user, ANY_ROLE)
                  && (HoldsRole(db.members, organisation, user, {Owner, Admin}) || HasRow(db.workspaceMembers, workspace, user)))
            && (r.Err? ==> r.error == ProductAccessDenied)
            && (r.Ok? ==>
                  && r.value.user == user && r.value.organisation == organisation && r.value.product == key && r.value.workspace == workspace
                  && forall role: Role | !role.NoRole? ::
                       (r.value.organisationRole == role <==> HoldsRole(db.members, organisation, user, {role}))
                       && (r.value.workspaceRole == role <==> HoldsRole(db.workspaceMembers, workspace, user, {role})))
  {
    hide Inv, Trim, OneCurrent, HoldsRole, HasRow, RoleIn, Current, HasEntitlement, HasAssignment, Entitled, Assigned;
    Ready(db);
    EntitledIff(db, organisation, Trim(product));
    AssignedIff(db, user, organisation, Trim(product));
    RolesIff(db.members, organisation, user);
    Access.MemberRoles(db, organisation, user, workspace);
    RowIff(db.workspaceMembers, workspace, user);
    forall role: Role | !role.NoRole?
      ensures RoleIn(db.members, organisation, user) == role <==> HoldsRole(db.members, organisation, user, {role})
      ensures RoleIn(db.workspaceMembers, workspace, user) == role <==> HoldsRole(db.workspaceMembers, workspace, user, {role})
    {
      RoleIff(db.members, organisation, user, role);
      RoleIff(db.workspaceMembers, workspace, user, role);
    }
  }
}
