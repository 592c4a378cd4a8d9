/** The invariant of the canonical tables, and its preservation by every mutation. */
module Integrity {
  import opened Prelude
  import opened Events
  import opened Tables
  import opened Mutations
  import opened Runs

  ghost predicate MembershipRows(t: Memberships, scopes: set<string>, users: set<string>) {
    && OneCurrent(t)
    && (forall id :: id in t ==> t[id].scope in scopes && t[id].user in users && t[id].version >= 1 && !t[id].role.NoRole?)
  }

  /** Every organisation has exactly one owner row ever, active exactly while the organisation is;
      an archived organisation has no active membership at all. */
  ghost predicate OneOwner(t: Memberships, organisations: map<string, Organisation>) {
    && (forall o :: o in organisations ==> exists id :: IsOwner(t, id, o))
    && (forall i, j :: i in t && j in t && t[i].role.Owner? && t[j].role.Owner? && t[i].scope == t[j].scope ==> i == j)
    && (forall i :: i in t && t[i].scope in organisations && t[i].role.Owner? ==> t[i].active == organisations[t[i].scope].active)
    && (forall i :: i in t && t[i].scope in organisations && t[i].active ==> organisations[t[i].scope].active)
  }

  predicate IsOwner(t: Memberships, id: string, organisation: string) {
    id in t && t[id].scope == organisation && t[id].role.Owner?
  }

  /** Entitlements and assignments point at existing rows, and each has at most one active row for its key. */
  ghost predicate AccessRows(entitlements: map<string, Entitlement>, assignments: map<string, Assignment>,
                             organisations: set<string>, products: set<string>, users: set<string>) {
    && (forall i :: i in entitlements ==> entitlements[i].organisation in organisations && entitlements[i].product in products)
    && (forall i, j | i in entitlements && j in entitlements :: entitlements[i].active && entitlements[i] == entitlements[j] ==> i == j)
    && (forall i :: i in assignments ==>
         assignments[i].organisation in organisations && assignments[i].product in products && assignments[i].user in users)
    && (forall i, j | i in assignments && j in assignments :: assignments[i].active && assignments[i] == assignments[j] ==> i == j)
  }

  ghost predicate Inv(db: Database) {
    && MembershipRows(db.members, db.organisations.Keys, db.users.Keys)
    && (forall id :: id in db.members ==> !db.members[id].role.Viewer?)
    && OneOwner(db.members, db.organisations)
    && (forall w :: w in db.workspaces ==> db.workspaces[w].organisation in db.organisations)
    && MembershipRows(db.workspaceMembers, db.workspaces.Keys, db.users.Keys)
    && (forall id :: id in db.workspaceMembers ==> !db.workspaceMembers[id].role.Owner?)
    && AccessRows(db.entitlements, db.assignments, db.organisations.Keys, db.products.Keys, db.users.Keys)
    && (forall p :: p in db.products ==> HasIdPrefix("product.", p))
    && Gapless(db.outbox)
  }

  lemma MigratedInv()
    ensures Inv(MIGRATED)
  {
  }

  lemma CurrentIs(t: Memberships, scope: string, user: string, id: string)
    requires OneCurrent(t) && IsCurrent(t, id, scope, user)
    ensures Current(t, scope, user) == Some(id)
  {
  }

  // ----- how the membership tables change -----

  lemma InsertRow(t: Memberships, id: string, row: Membership, scopes: set<string>, users: set<string>)
    requires MembershipRows(t, scopes, users) && id !in t && row.active
    requires row.scope in scopes && row.user in users && row.version >= 1 && !row.role.NoRole?
    requires forall i :: !IsCurrent(t, i, row.scope, row.user)
    ensures MembershipRows(t[id := row], scopes, users)
  {
    forall i | i in t && t[i].active && t[i].scope == row.scope && t[i].user == row.user
      ensures false
    {
      assert IsCurrent(t, i, row.scope, row.user);
    }
  }

  lemma RetireRow(t: Memberships, id: string, scopes: set<string>, users: set<string>)
    requires MembershipRows(t, scopes, users) && id in t && t[id].active
    ensures MembershipRows(Retire(t, id), scopes, users)
    ensures forall i :: !IsCurrent(Retire(t, id), i, t[id].scope, t[id].user)
  {
  }

  lemma RetireAll(t: Memberships, scope: string, scopes: set<string>, users: set<string>)
    requires MembershipRows(t, scopes, users)
    ensures MembershipRows(RetireScope(t, scope), scopes, users)
  {
  }

  lemma WiderScopes(t: Memberships, scopes: set<string>, users: set<string>, scopes': set<string>, users': set<string>)
    requires MembershipRows(t, scopes, users) && scopes <= scopes' && users <= users'
    ensures MembershipRows(t, scopes', users')
  {
  }

  lemma WiderAccess(db: Database, organisations: set<string>, products: set<string>, users: set<string>)
    requires Inv(db) && db.organisations.Keys <= organisations && db.products.Keys <= products && db.users.Keys <= users
    ensures AccessRows(db.entitlements, db.assignments, organisations, products, users)
  {
    hide OneOwner, Gapless, MembershipRows;
  }

  lemma OwnerKept(t: Memberships, t': Memberships, organisations: map<string, Organisation>)
    requires OneOwner(t, organisations)
    requires forall id :: id in t ==> id in t' && t'[id].scope == t[id].scope && t'[id].role == t[id].role && (t[id].role.Owner? ==> t'[id] == t[id])
    requires forall id :: id in t' && t'[id].role.Owner? ==> id in t
    requires forall id :: id in t' && t'[id].scope in organisations && t'[id].active ==> organisations[t'[id].scope].active
    ensures OneOwner(t', organisations)
  {
    forall o | o in organisations
      ensures exists id :: IsOwner(t', id, o)
    {
      var id :| IsOwner(t, id, o);
      assert IsOwner(t', id, o);
    }
  }

  lemma OwnerUntouched(t: Memberships, id: string, organisations: map<string, Organisation>)
    requires OneOwner(t, organisations) && id in t && !t[id].role.Owner?
    ensures OneOwner(Retire(t, id), organisations)
  {
    OwnerKept(t, Retire(t, id), organisations);
  }

  lemma CommitShape(db: Database, es: seq<Event>)
    requires Gapless(db.outbox)
    ensures Commit(db, es).Ok? ==>
              && var next := Commit(db, es).value;
              && next == db.(outbox := next.outbox)
              && db.outbox <= next.outbox
              && Gapless(next.outbox)
              && Payloads(next.outbox) == Payloads(db.outbox) + es
  {
    hide WellFormed;
    AppendAllGapless(db.outbox, es);
  }

  // ----- preservation, one lemma per mutation family -----

  ghost predicate Keeps(r: Outcome) {
    r.Ok? ==> Inv(r.value)
  }

  lemma CommitKeeps(staged: Database, es: seq<Event>)
    requires Inv(staged)
    ensures Keeps(Commit(staged, es))
  {
    hide WellFormed, AggregateOf, Append, AppendAll, Count, OneOwner, MembershipRows, AccessRows, Gapless;
    CommitShape(staged, es);
  }

  lemma StagedUsers(db: Database, user: string, active: bool)
    requires Inv(db)
    ensures Inv(db.(users := db.users[user := active]))
  {
    hide OneOwner, Gapless, MembershipRows, AccessRows;
    var users := db.users[user := active].Keys;
    WiderScopes(db.members, db.organisations.Keys, db.users.Keys, db.organisations.Keys, users);
    WiderScopes(db.workspaceMembers, db.workspaces.Keys, db.users.Keys, db.workspaces.Keys, users);
    WiderAccess(db, db.organisations.Keys, db.products.Keys, users);
  }

  lemma CreateUserKeeps(db: Database, user: string, active: bool)
    requires Inv(db)
    ensures Keeps(CreateUser(db, user, active))
  {
    hide Inv, Commit;
    StagedUsers(db, user, active);
    CommitKeeps(db.(users := db.users[user := active]), [UserCreated(user, active)]);
  }

  lemma SetUserActiveKeeps(db: Database, user: string, active: bool)
    requires Inv(db)
    ensures Keeps(SetUserActive(db, user, active))
  {
    hide Inv, Commit;
    var id := Trim(user);
    StagedUsers(db, id, active);
    CommitKeeps(db.(users := db.users[id := active]), [UserStatusChanged(id, active)]);
  }

  lemma StagedMembers(db: Database, t: Memberships)
    requires Inv(db) && MembershipRows(t, db.organisations.Keys, db.users.Keys)
    requires forall id :: id in t ==> !t[id].role.Viewer?
    requires OneOwner(t, db.organisations)
    ensures Inv(db.(members := t))
  {
    hide OneOwner, Gapless, MembershipRows;
  }

  lemma StagedFounding(db: Database, organisation: string, name: string, membership: string, user: string)
    requires Inv(db) && organisation !in db.organisations && membership !in db.members && user in db.users
    ensures Inv(db.(organisations := db.organisations[organisation := Organisation(name, true)],
                    members := db.members[membership := Membership(organisation, user, Owner, true, 1)]))
  {
    hide Gapless, AccessRows, OneOwner, MembershipRows;
    var row := Membership(organisation, user, Owner, true, 1);
    var organisations := db.organisations[organisation := Organisation(name, true)];
    FoundedRows(db, organisation, organisations.Keys, membership, row);
    FoundedOwner(db, organisation, name, membership, user);
    WiderAccess(db, organisations.Keys, db.products.Keys, db.users.Keys);
  }

  lemma FoundedRows(db: Database, organisation: string, organisations: set<string>, membership: string, row: Membership)
    requires Inv(db) && organisation !in db.organisations && membership !in db.members && row.user in db.users
    requires organisations == db.organisations.Keys + {organisation}
    requires row == Membership(organisation, row.user, Owner, true, 1)
    ensures MembershipRows(db.members[membership := row], organisations, db.users.Keys)
  {
    hide Gapless, AccessRows, OneOwner;
    InsertRow(db.members, membership, row, organisations, db.users.Keys);
  }

  lemma FoundedOwner(db: Database, organisation: string, name: string, membership: string, user: string)
    requires Inv(db) && organisation !in db.organisations && membership !in db.members
    ensures OneOwner(db.members[membership := Membership(organisation, user, Owner, true, 1)],
                     db.organisations[organisation := Organisation(name, true)])
  {
    hide Gapless, AccessRows;
    var t := db.members[membership := Membership(organisation, user, Owner, true, 1)];
    var organisations := db.organisations[organisation := Organisation(name, true)];
    forall o | o in organisations
      ensures exists id :: IsOwner(t, id, o)
    {
      if o == organisation {
        assert IsOwner(t, membership, o);
      } else {
        var id :| IsOwner(db.members, id, o);
        assert IsOwner(t, id, o);
      }
    }
  }

  lemma CreateOrganisationKeeps(db: Database, actor: string, organisation: string, name: string, membership: string)
    requires Inv(db)
    ensures Keeps(CreateOrganisation(db, actor, organisation, name, membership))
  {
    hide Inv, Commit;
    if CreateOrganisation(db, actor, organisation, name, membership).Ok? {
      var user := Trim(actor);
      StagedFounding(db, organisation, Trim(name), membership, user);
      CommitKeeps(db.(organisations := db.organisations[organisation := Organisation(Trim(name), true)],
                      members := db.members[membership := Membership(organisation, user, Owner, true, 1)]),
                  [OrganisationCreated(organisation), OrganisationMembershipAdded(organisation, membership, actor, Owner)]);
    }
  }

  lemma StagedMember(db: Database, id: string, row: Membership)
    requires Inv(db) && id !in db.members && row.active && (row.role.Admin? || row.role.Member?) && row.version >= 1
    requires row.scope in db.organisations && db.organisations[row.scope].active && row.user in db.users
    requires forall i :: !IsCurrent(db.members, i, row.scope, row.user)
    ensures Inv(db.(members := db.members[id := row]))
  {
    hide Gapless, AccessRows;
    var t := db.members[id := row];
    hide OneCurrent;
    InsertRow(db.members, id, row, db.organisations.Keys, db.users.Keys);
    OwnerKept(db.members, t, db.organisations);
    StagedMembers(db, t);
  }

  lemma AddOrganisationMemberKeeps(db: Database, actor: string, organisation: string, target: string, role: Role, membership: string)
    requires Inv(db)
    ensures Keeps(AddOrganisationMember(db, actor, organisation, target, role, membership))
  {
    hide Inv, Commit;
    if AddOrganisationMember(db, actor, organisation, target, role, membership).Ok? {
      var row := Membership(organisation, Trim(target), role, true, 1);
      StagedMember(db, membership, row);
      CommitKeeps(db.(members := db.members[membership := row]), [OrganisationMembershipAdded(organisation, membership, target, role)]);
    }
  }

  lemma StagedRetire(db: Database, id: string)
    requires Inv(db) && id in db.members && db.members[id].active && !db.members[id].role.Owner?
    ensures Inv(db.(members := Retire(db.members, id)))
    ensures forall i :: !IsCurrent(Retire(db.members, id), i, db.members[id].scope, db.members[id].user)
  {
    hide Gapless, AccessRows, MembershipRows, OneOwner;
    RetireRow(db.members, id, db.organisations.Keys, db.users.Keys);
    OwnerUntouched(db.members, id, db.organisations);
    StagedMembers(db, Retire(db.members, id));
  }

  lemma ActiveScope(db: Database, id: string)
    requires Inv(db) && id in db.members && db.members[id].active
    ensures db.members[id].scope in db.organisations && db.organisations[db.members[id].scope].active
    ensures db.members[id].user in db.users && db.members[id].version >= 1
  {
    hide Gapless, AccessRows, OneCurrent;
  }

  lemma ChangeOrganisationRoleKeeps(db: Database, actor: string, organisation: string, target: string, role: Role,
                                    expected: Option<int>, membership: string)
    requires Inv(db)
    ensures Keeps(ChangeOrganisationRole(db, actor, organisation, target, role, expected, membership))
  {
    hide Inv, Commit;
    if ChangeOrganisationRole(db, actor, organisation, target, role, expected, membership).Ok? {
      var current := MutableMembership(db, AuthoriseOrganisation(db, actor, organisation).value, organisation, target, expected).value;
      ActiveScope(db, current);
      StagedRetire(db, current);
      var retired := db.(members := Retire(db.members, current));
      var row := Membership(organisation, Trim(target), role, true, db.members[current].version + 1);
      StagedMember(retired, membership, row);
      CommitKeeps(retired.(members := retired.members[membership := row]), [OrganisationRoleChanged(organisation, membership, target, role)]);
    }
  }

  lemma DeactivateOrganisationMemberKeeps(db: Database, actor: string, organisation: string, target: string, expected: Option<int>)
    requires Inv(db)
    ensures Keeps(DeactivateOrganisationMember(db, actor, organisation, target, expected))
  {
    hide Inv, Commit;
    if DeactivateOrganisationMember(db, actor, organisation, target, expected).Ok? {
      var current := MutableMembership(db, AuthoriseOrganisation(db, actor, organisation).value, organisation, target, expected).value;
      StagedRetire(db, current);
      CommitKeeps(db.(members := Retire(db.members, current)),
                  [OrganisationMembershipRemoved(organisation, current, target, db.members[current].role)]);
    }
  }

  lemma ArchivedOwner(db: Database, organisation: string)
    requires Inv(db) && organisation in db.organisations
    ensures OneOwner(RetireScope(db.members, organisation),
                     db.organisations[organisation := db.organisations[organisation].(active := false)])
  {
    hide Gapless, AccessRows, MembershipRows;
    var organisations := db.organisations[organisation := db.organisations[organisation].(active := false)];
    forall o | o in organisations
      ensures exists id :: IsOwner(RetireScope(db.members, organisation), id, o)
    {
      var id :| IsOwner(db.members, id, o);
      assert IsOwner(RetireScope(db.members, organisation), id, o);
    }
  }

  lemma StagedArchive(db: Database, organisation: string)
    requires Inv(db) && organisation in db.organisations
    ensures Inv(db.(organisations := db.organisations[organisation := db.organisations[organisation].(active := false)],
                    members := RetireScope(db.members, organisation)))
  {
    hide Gapless, AccessRows, MembershipRows, OneOwner;
    var organisations := db.organisations[organisation := db.organisations[organisation].(active := false)];
    assert organisations.Keys == db.organisations.Keys;
    RetireAll(db.members, organisation, db.organisations.Keys, db.users.Keys);
    ArchivedOwner(db, organisation);
  }

  lemma ArchiveOrganisationKeeps(db: Database, actor: string, organisation: string, rows: seq<string>)
    requires Inv(db) && ListsActive(rows, db.members, organisation)
    ensures Keeps(ArchiveOrganisation(db, actor, organisation, rows))
  {
    hide Inv, Commit;
    if ArchiveOrganisation(db, actor, organisation, rows).Ok? {
      StagedArchive(db, organisation);
      CommitKeeps(db.(organisations := db.organisations[organisation := db.organisations[organisation].(active := false)],
                      members := RetireScope(db.members, organisation)),
                  RemovalEvents(OrganisationScope, db.members, organisation, rows) + [OrganisationArchived(organisation)]);
    }
  }

  lemma StagedRename(db: Database, organisation: string, name: string)
    requires Inv(db) && organisation in db.organisations && db.organisations[organisation].active
    ensures Inv(db.(organisations := db.organisations[organisation := Organisation(name, true)]))
  {
    hide Gapless, AccessRows, MembershipRows;
    assert db.organisations[organisation := Organisation(name, true)].Keys == db.organisations.Keys;
  }

  lemma RenameOrganisationKeeps(db: Database, actor: string, organisation: string, name: string)
    requires Inv(db)
    ensures Keeps(RenameOrganisation(db, actor, organisation, name))
  {
    hide Inv, Commit;
    if RenameOrganisation(db, actor, organisation, name).Ok? {
      StagedRename(db, organisation, Trim(name));
      CommitKeeps(db.(organisations := db.organisations[organisation := Organisation(Trim(name), true)]),
                  [OrganisationRenamed(organisation, Trim(name))]);
    }
  }

  // ----- workspaces -----

  lemma StagedWorkspaceMembers(db: Database, t: Memberships)
    requires Inv(db) && MembershipRows(t, db.workspaces.Keys, db.users.Keys)
    requires forall id :: id in t ==> !t[id].role.Owner?
    ensures Inv(db.(workspaceMembers := t))
  {
    hide OneOwner, Gapless, MembershipRows, AccessRows;
  }

  lemma StagedWorkspace(db: Database, workspace: string, row: Workspace)
    requires Inv(db) && row.organisation in db.organisations
    ensures Inv(db.(workspaces := db.workspaces[workspace := row]))
  {
    hide OneOwner, Gapless, MembershipRows, AccessRows;
    var workspaces := db.workspaces[workspace := row].Keys;
    WiderScopes(db.workspaceMembers, db.workspaces.Keys, db.users.Keys, workspaces, db.users.Keys);
  }

  lemma StagedWorkspaceMember(db: Database, id: string, row: Membership)
    requires Inv(db) && id !in db.workspaceMembers && row.active && WorkspaceRoleValid(row.role) && row.version >= 1
    requires row.scope in db.workspaces && row.user in db.users
    requires forall i :: !IsCurrent(db.workspaceMembers, i, row.scope, row.user)
    ensures Inv(db.(workspaceMembers := db.workspaceMembers[id := row]))
  {
    hide Gapless, AccessRows, OneOwner, MembershipRows;
    InsertRow(db.workspaceMembers, id, row, db.workspaces.Keys, db.users.Keys);
    StagedWorkspaceMembers(db, db.workspaceMembers[id := row]);
  }

  lemma StagedWorkspaceRetire(db: Database, id: string)
    requires Inv(db) && id in db.workspaceMembers && db.workspaceMembers[id].active
    ensures Inv(db.(workspaceMembers := Retire(db.workspaceMembers, id)))
    ensures forall i :: !IsCurrent(Retire(db.workspaceMembers, id), i, db.workspaceMembers[id].scope, db.workspaceMembers[id].user)
  {
    hide Gapless, AccessRows, OneOwner, MembershipRows;
    RetireRow(db.workspaceMembers, id, db.workspaces.Keys, db.users.Keys);
    StagedWorkspaceMembers(db, Retire(db.workspaceMembers, id));
  }

  lemma CreateWorkspaceKeeps(db: Database, actor: string, organisation: string, workspace: string, name: string, membership: string)
    requires Inv(db)
    ensures Keeps(CreateWorkspace(db, actor, organisation, workspace, name, membership))
  {
    hide Inv, Commit, Trim;
    if CreateWorkspace(db, actor, organisation, workspace, name, membership).Ok? {
      var founded := db.(workspaces := db.workspaces[workspace := Workspace(organisation, true)]);
      var row := Membership(workspace, actor, Admin, true, 1);
      StagedWorkspace(db, workspace, Workspace(organisation, true));
      StagedWorkspaceMember(founded, membership, row);
      CommitKeeps(founded.(workspaceMembers := founded.workspaceMembers[membership := row]),
                  [WorkspaceCreated(workspace, organisation), WorkspaceMembershipAdded(workspace, membership, actor, Admin)]);
    }
  }

  lemma AddWorkspaceMemberKeeps(db: Database, actor: string, workspace: string, target: string, role: Role, membership: string)
    requires Inv(db)
    ensures Keeps(AddWorkspaceMember(db, actor, workspace, target, role, membership))
  {
    hide Inv, Commit;
    if AddWorkspaceMember(db, actor, workspace, target, role, membership).Ok? {
      var row := Membership(workspace, target, role, true, 1);
      StagedWorkspaceMember(db, membership, row);
      CommitKeeps(db.(workspaceMembers := db.workspaceMembers[membership := row]), [WorkspaceMembershipAdded(workspace, membership, target, role)]);
    }
  }

  lemma CurrentWorkspaceRow(db: Database, id: string)
    requires Inv(db) && id in db.workspaceMembers
    ensures db.workspaceMembers[id].scope in db.workspaces && db.workspaceMembers[id].user in db.users && db.workspaceMembers[id].version >= 1
  {
    hide Gapless, AccessRows, OneCurrent, OneOwner;
  }

  lemma ChangeWorkspaceRoleKeeps(db: Database, actor: string, workspace: string, target: string, role: Role,
                                 expected: Option<int>, membership: string)
    requires Inv(db)
    ensures Keeps(ChangeWorkspaceRole(db, actor, workspace, target, role, expected, membership))
  {
    hide Inv, Commit;
    if ChangeWorkspaceRole(db, actor, workspace, target, role, expected, membership).Ok? {
      var current := MutableWorkspaceMembership(db, actor, workspace, target, expected).value;
      CurrentWorkspaceRow(db, current);
      StagedWorkspaceRetire(db, current);
      var retired := db.(workspaceMembers := Retire(db.workspaceMembers, current));
      var row := Membership(workspace, target, role, true, db.workspaceMembers[current].version + 1);
      StagedWorkspaceMember(retired, membership, row);
      CommitKeeps(retired.(workspaceMembers := retired.workspaceMembers[membership := row]),
                  [WorkspaceRoleChanged(workspace, membership, target, role)]);
    }
  }

  lemma DeactivateWorkspaceMemberKeeps(db: Database, actor: string, workspace: string, target: string, expected: Option<int>)
    requires Inv(db)
    ensures Keeps(DeactivateWorkspaceMember(db, actor, workspace, target, expected))
  {
    hide Inv, Commit;
    if DeactivateWorkspaceMember(db, actor, workspace, target, expected).Ok? {
      var current := MutableWorkspaceMembership(db, actor, workspace, target, expected).value;
      StagedWorkspaceRetire(db, current);
      CommitKeeps(db.(workspaceMembers := Retire(db.workspaceMembers, current)),
                  [WorkspaceMembershipRemoved(workspace, current, target, db.workspaceMembers[current].role)]);
    }
  }

  lemma StagedWorkspaceArchive(db: Database, workspace: string)
    requires Inv(db) && workspace in db.workspaces
    ensures Inv(db.(workspaces := db.workspaces[workspace := db.workspaces[workspace].(active := false)],
                    workspaceMembers := RetireScope(db.workspaceMembers, workspace)))
  {
    hide Gapless, AccessRows, OneOwner, MembershipRows;
    var closed := db.(workspaces := db.workspaces[workspace := db.workspaces[workspace].(active := false)]);
    StagedWorkspace(db, workspace, db.workspaces[workspace].(active := false));
    RetireAll(db.workspaceMembers, workspace, closed.workspaces.Keys, db.users.Keys);
    StagedWorkspaceMembers(closed, RetireScope(db.workspaceMembers, workspace));
  }

  lemma ArchiveWorkspaceKeeps(db: Database, actor: string, workspace: string, rows: seq<string>)
    requires Inv(db) && ListsActive(rows, db.workspaceMembers, workspace)
    ensures Keeps(ArchiveWorkspace(db, actor, workspace, rows))
  {
    hide Inv, Commit;
    if ArchiveWorkspace(db, actor, workspace, rows).Ok? {
      StagedWorkspaceArchive(db, workspace);
      CommitKeeps(db.(workspaces := db.workspaces[workspace := db.workspaces[workspace].(active := false)],
                      workspaceMembers := RetireScope(db.workspaceMembers, workspace)),
                  RemovalEvents(WorkspaceScope, db.workspaceMembers, workspace, rows) + [WorkspaceArchived(workspace)]);
    }
  }

  // ----- products and access -----

  lemma StagedAccess(db: Database, entitlements: map<string, Entitlement>, assignments: map<string, Assignment>)
    requires Inv(db)
    requires AccessRows(entitlements, assignments, db.organisations.Keys, db.products.Keys, db.users.Keys)
    ensures Inv(db.(entitlements := entitlements, assignments := assignments))
  {
    hide OneOwner, Gapless, MembershipRows, AccessRows;
  }

  lemma RetireProductKeeps(db: Database, actor: string, product: string)
    requires Inv(db)
    ensures Keeps(RetireProduct(db, actor, product))
  {
    hide Commit, OneOwner, Gapless, MembershipRows, AccessRows;
    var key := Trim(product);
    if RetireProduct(db, actor, product).Ok? {
      assert db.products[key := false].Keys == db.products.Keys;
      CommitKeeps(db.(products := db.products[key := false]), [ProductRetired(key)]);
    }
  }

  lemma EntitlementRow(db: Database, id: string, row: Entitlement)
    requires Inv(db) && row.organisation in db.organisations && row.product in db.products
    requires row.active ==> id !in db.entitlements && !HasEntitlement(db, row.organisation, row.product)
    ensures AccessRows(db.entitlements[id := row], db.assignments, db.organisations.Keys, db.products.Keys, db.users.Keys)
  {
    hide OneOwner, Gapless, MembershipRows;
    var t := db.entitlements[id := row];
    assert forall i :: i in db.entitlements && row.active ==> db.entitlements[i] != row;
    forall i, j | i in t && j in t && t[i].active && t[i] == t[j]
      ensures i == j
    {
    }
  }

  lemma AssignmentRow(db: Database, id: string, row: Assignment)
    requires Inv(db) && row.organisation in db.organisations && row.product in db.products && row.user in db.users
    requires row.active ==> id !in db.assignments && !HasAssignment(db, row.user, row.organisation, row.product)
    ensures AccessRows(db.entitlements, db.assignments[id := row], db.organisations.Keys, db.products.Keys, db.users.Keys)
  {
    hide OneOwner, Gapless, MembershipRows;
    var t := db.assignments[id := row];
    assert forall i :: i in db.assignments && row.active ==> db.assignments[i] != row;
    forall i, j | i in t && j in t && t[i].active && t[i] == t[j]
      ensures i == j
    {
    }
  }

  lemma AccessTargets(db: Database)
    requires Inv(db)
    ensures forall i :: i in db.entitlements ==>
              db.entitlements[i].organisation in db.organisations && db.entitlements[i].product in db.products
    ensures forall i :: i in db.assignments ==>
              db.assignments[i].organisation in db.organisations && db.assignments[i].product in db.products && db.assignments[i].user in db.users
  {
    hide OneOwner, Gapless, MembershipRows;
  }

  lemma EntitleOrganisationKeeps(db: Database, actor: string, organisation: string, product: string, entitlement: string)
    requires Inv(db)
    ensures Keeps(EntitleOrganisation(db, actor, organisation, product, entitlement))
  {
    hide Inv, Commit, AccessRows;
    if EntitleOrganisation(db, actor, organisation, product, entitlement).Ok? {
      var key := Trim(product);
      var row := Entitlement(organisation, key, true);
      EntitlementRow(db, entitlement, row);
      StagedAccess(db, db.entitlements[entitlement := row], db.assignments);
      CommitKeeps(db.(entitlements := db.entitlements[entitlement := row]), [EntitlementGranted(entitlement, organisation, key)]);
    }
  }

  lemma RevokeEntitlementKeeps(db: Database, actor: string, organisation: string, entitlement: string)
    requires Inv(db)
    ensures Keeps(RevokeEntitlement(db, actor, organisation, entitlement))
  {
    hide Inv, Commit, AccessRows;
    if RevokeEntitlement(db, actor, organisation, entitlement).Ok? {
      var id := Trim(entitlement);
      AccessTargets(db);
      var row := db.entitlements[id].(active := false);
      EntitlementRow(db, id, row);
      StagedAccess(db, db.entitlements[id := row], db.assignments);
      CommitKeeps(db.(entitlements := db.entitlements[id := row]), [EntitlementRevoked(entitlement, organisation, row.product)]);
    }
  }

  lemma AssignProductKeeps(db: Database, actor: string, organisation: string, target: string, product: string, assignment: string)
    requires Inv(db)
    ensures Keeps(AssignProduct(db, actor, organisation, target, product, assignment))
  {
    hide Inv, Commit, AccessRows;
    if AssignProduct(db, actor, organisation, target, product, assignment).Ok? {
      var user, key := Trim(target), Trim(product);
      var row := Assignment(user, organisation, key, true);
      AssignmentRow(db, assignment, row);
      StagedAccess(db, db.entitlements, db.assignments[assignment := row]);
      CommitKeeps(db.(assignments := db.assignments[assignment := row]), [AssignmentGranted(assignment, organisation, user, key)]);
    }
  }

  lemma RevokeAssignmentKeeps(db: Database, actor: string, organisation: string, assignment: string)
    requires Inv(db)
    ensures Keeps(RevokeAssignment(db, actor, organisation, assignment))
  {
    hide Inv, Commit, AccessRows;
    if RevokeAssignment(db, actor, organisation, assignment).Ok? {
      var id := Trim(assignment);
      AccessTargets(db);
      var row := db.assignments[id].(active := false);
      AssignmentRow(db, id, row);
      StagedAccess(db, db.entitlements, db.assignments[id := row]);
      CommitKeeps(db.(assignments := db.assignments[id := row]), [AssignmentRevoked(assignment, organisation, row.user, row.product)]);
    }
  }

  // ----- every mutation, every run -----

  lemma AdminsKeep(db: Database, admins: set<string>)
    requires Inv(db)
    ensures Inv(db.(admins := admins))
  {
    hide OneOwner, MembershipRows, Gapless, OneCurrent;
  }

  lemma ApplyKeeps(db: Database, m: Mutation)
    requires Inv(db)
    ensures Keeps(Apply(db, m))
  {
    hide CreateUser, SetUserActive, CreateOrganisation, AddOrganisationMember, ChangeOrganisationRole, DeactivateOrganisationMember,
      ArchiveOrganisation, RenameOrganisation, CreateWorkspace, AddWorkspaceMember, ChangeWorkspaceRole, DeactivateWorkspaceMember,
      ArchiveWorkspace, RetireProduct, EntitleOrganisation, RevokeEntitlement, AssignProduct, RevokeAssignment,
      Inv, ListsActive;
    match m
    case SetAdmins(admins) => AdminsKeep(db, admins);
    case MCreateUser(u, a) => CreateUserKeeps(db, u, a);
    case MSetUserActive(u, a) => SetUserActiveKeeps(db, u, a);
    case MCreateOrganisation(a, o, n, id) => CreateOrganisationKeeps(db, a, o, n, id);
    case MAddOrganisationMember(a, o, t, r, id) => AddOrganisationMemberKeeps(db, a, o, t, r, id);
    case MChangeOrganisationRole(a, o, t, r, v, id) => ChangeOrganisationRoleKeeps(db, a, o, t, r, v, id);
    case MDeactivateOrganisationMember(a, o, t, v) => DeactivateOrganisationMemberKeeps(db, a, o, t, v);
    case MArchiveOrganisation(a, o, rows) =>
      if ListsActive(rows, db.members, o) { ArchiveOrganisationKeeps(db, a, o, rows); }
    case MRenameOrganisation(a, o, n) => RenameOrganisationKeeps(db, a, o, n);
    case MCreateWorkspace(a, o, w, n, id) => CreateWorkspaceKeeps(db, a, o, w, n, id);
    case MAddWorkspaceMember(a, w, t, r, id) => AddWorkspaceMemberKeeps(db, a, w, t, r, id);
    case MChangeWorkspaceRole(a, w, t, r, v, id) => ChangeWorkspaceRoleKeeps(db, a, w, t, r, v, id);
    case MDeactivateWorkspaceMember(a, w, t, v) => DeactivateWorkspaceMemberKeeps(db, a, w, t, v);
    case MArchiveWorkspace(a, w, rows) =>
      if ListsActive(rows, db.workspaceMembers, w) { ArchiveWorkspaceKeeps(db, a, w, rows); }
    case MRetireProduct(a, p) => RetireProductKeeps(db, a, p);
    case MEntitleOrganisation(a, o, p, id) => EntitleOrganisationKeeps(db, a, o, p, id);
    case MRevokeEntitlement(a, o, id) => RevokeEntitlementKeeps(db, a, o, id);
    case MAssignProduct(a, o, t, p, id) => AssignProductKeeps(db, a, o, t, p, id);
    case MRevokeAssignment(a, o, id) => RevokeAssignmentKeeps(db, a, o, id);
  }

  lemma {:induction false} RunKeeps(db: Database, ms: seq<Mutation>)
    requires Inv(db)
    ensures Inv(Run(db, ms))
    decreases |ms|
  {
    hide Inv, Apply;
    if ms != [] {
      ApplyKeeps(db, ms[0]);
      RunKeeps(Step(db, ms[0]), ms[1..]);
    }
  }
}
