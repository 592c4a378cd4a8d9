/** The store as it updates its tables: every mutation reads, writes rows, appends its events and commits, or leaves the
    tables as they were (users.go, organisation.go, workspace.go, product.go, product_access.go, events.go). */
module PlatformStore {
  import opened Prelude
  import opened Events
  import opened Tables
  import opened Mutations
  import opened Runs
  import opened Integrity

  class Store {
    var users: map<string, bool>
    var admins: set<string>
    var organisations: map<string, Organisation>
    var members: Memberships
    var workspaces: map<string, Workspace>
    var workspaceMembers: Memberships
    var products: map<string, bool>
    var entitlements: map<string, Entitlement>
    var assignments: map<string, Assignment>
    var outbox: seq<OutboxRow>

    ghost function State(): Database
      reads this
    {
      Database(users, admins, organisations, members, workspaces, workspaceMembers, products, entitlements, assignments, outbox)
    }

    ghost predicate Valid()
      reads this
    {
      Inv(State())
    }

    /** The call did what the specification says: its new tables, or its error and the tables as before. */
    ghost predicate Does(r: Result<(), Error>, before: Database, spec: Outcome)
      reads this
    {
      match spec
      case Ok(next) => r.Ok? && State() == next
      case Err(e) => r == Err(e) && State() == before
    }

    constructor ()
      ensures Valid() && State() == MIGRATED
    {
      users, admins, organisations, members, workspaces, workspaceMembers := map[], {}, map[], map[], map[], map[];
      products, entitlements, assignments, outbox := map[CTRL_PRODUCT := true, IMS_PRODUCT := true], map[], map[], [];
      new;
      MigratedInv();
    }

    // ----- transactions and events -----

    method Begin() returns (saved: Database)
      ensures saved == State()
    {
      return Database(users, admins, organisations, members, workspaces, workspaceMembers, products, entitlements, assignments, outbox);
    }

    method Rollback(saved: Database)
      modifies this
      ensures State() == saved
    {
      users, admins, organisations, members := saved.users, saved.admins, saved.organisations, saved.members;
      workspaces, workspaceMembers, products := saved.workspaces, saved.workspaceMembers, saved.products;
      entitlements, assignments, outbox := saved.entitlements, saved.assignments, saved.outbox;
    }

    /** `COALESCE(MAX(sequence),0)+1` over the aggregate's rows. */
    method NextSequence(a: Aggregate) returns (next: int)
      requires Gapless(outbox)
      ensures next == Count(outbox, a) + 1
    {
      var greatest, i := 0, 0;
      while i < |outbox|
        invariant 0 <= i <= |outbox|
        invariant Gapless(outbox[..i]) && greatest == Count(outbox[..i], a)
      {
        assert outbox[..i + 1][..i] == outbox[..i];
        GaplessPrefix(outbox, i + 1);
        if outbox[i].aggregate == a && outbox[i].sequence > greatest { greatest := outbox[i].sequence; }
        i := i + 1;
      }
      assert outbox[..i] == outbox;
      return greatest + 1;
    }

    /** The row id a primary key assigns: one past the greatest. */
    method NextId() returns (next: int)
      requires Gapless(outbox)
      ensures next == |outbox| + 1
    {
      GaplessIds(outbox);
      return if outbox == [] then 1 else outbox[|outbox| - 1].id + 1;
    }

    /** appendPlatformEventTx */
    method AppendEvent(e: Event) returns (ok: bool)
      requires Gapless(outbox)
      modifies `outbox
      ensures ok == WellFormed(e)
      ensures outbox == if ok then Append(old(outbox), e) else old(outbox)
      ensures Gapless(outbox)
    {
      hide WellFormed, AggregateOf;
      AppendGapless(outbox, e);
      if !WellFormed(e) { return false; }
      var sequence := NextSequence(AggregateOf(e));
      var id := NextId();
      outbox := outbox + [OutboxRow(id, AggregateOf(e), sequence, e)];
      return true;
    }

    /** The end of a transaction that announces its change with these events, in order. */
    method Finish(saved: Database, events: seq<Event>) returns (r: Result<(), Error>)
      requires Gapless(outbox)
      modifies this
      ensures match Commit(old(State()), events)
              case Ok(next) => r.Ok? && State() == next
              case Err(e) => r == Err(e) && State() == saved
    {
      hide WellFormed, AggregateOf, Append, Count;
      ghost var start := outbox;
      var i := 0;
      while i < |events|
        invariant 0 <= i <= |events|
        invariant State() == old(State()).(outbox := outbox) && Gapless(outbox)
        invariant AppendAll(start, events) == AppendAll(outbox, events[i..])
        invariant forall j :: 0 <= j < i ==> WellFormed(events[j])
      {
        var ok := AppendEvent(events[i]);
        if !ok {
          Rollback(saved);
          return Err(InvalidEvent);
        }
        assert events[i..][1..] == events[i + 1..];
        i := i + 1;
      }
      return Ok(());
    }

    // ----- reads -----

    method ActiveUserId(user: string) returns (known: bool)
      ensures known == ActiveUser(State(), user)
    {
      return user in users && users[user];
    }

    method FindCurrent(t: Memberships, scope: string, user: string) returns (r: Option<string>)
      requires OneCurrent(t)
      ensures r == Current(t, scope, user)
    {
      var rest := t.Keys;
      while rest != {}
        invariant rest <= t.Keys
        invariant forall id :: id in t && id !in rest ==> !IsCurrent(t, id, scope, user)
        decreases |rest|
      {
        var id :| id in rest;
        if t[id].active && t[id].scope == scope && t[id].user == user {
          CurrentIs(t, scope, user, id);
          return Some(id);
        }
        rest := rest - {id};
      }
      return None;
    }

    method CurrentRole(t: Memberships, scope: string, user: string) returns (role: Role)
      requires OneCurrent(t)
      ensures role == RoleIn(t, scope, user)
    {
      var current := FindCurrent(t, scope, user);
      return if current.Some? then t[current.value].role else NoRole;
    }

    ghost predicate Unique()
      reads this
    {
      OneCurrent(members) && OneCurrent(workspaceMembers) && Gapless(outbox)
    }

    method Authorise(actor: string, organisation: string) returns (r: Result<Authority, Error>)
      requires Unique()
      ensures r == AuthoriseOrganisation(State(), actor, organisation)
    {
      hide OneCurrent, Gapless, Current;
      var known := ActiveUserId(actor);
      if !known { return Err(UnauthorisedOrganisation); }
      if organisation !in organisations { return Err(OrganisationNotFound); }
      if !organisations[organisation].active { return Err(OrganisationIsArchived); }
      if actor in admins { return Ok(Authority(NoRole, true)); }
      var role := CurrentRole(members, organisation, actor);
      if !CanAdminister(role) { return Err(UnauthorisedOrganisation); }
      return Ok(Authority(role, false));
    }

    method ProveScope(user: string, workspace: string, adminOnly: bool) returns (r: Result<Scope, Error>)
      requires Unique()
      ensures r == ProveWorkspaceScope(State(), user, workspace, adminOnly)
    {
      hide OneCurrent, Gapless, Current;
      var known := ActiveUserId(user);
      if !known || workspace !in workspaces || !workspaces[workspace].active { return Err(AccessScopeDenied); }
      var organisation := workspaces[workspace].organisation;
      if organisation !in organisations || !organisations[organisation].active { return Err(AccessScopeDenied); }
      var organisationRole := CurrentRole(members, organisation, user);
      var workspaceRole := CurrentRole(workspaceMembers, workspace, user);
      var systemAdmin := user in admins;
      if !systemAdmin && organisationRole.NoRole? { return Err(AccessScopeDenied); }
      if adminOnly && !systemAdmin && !CanAdminister(organisationRole) && !CanAdminister(workspaceRole) { return Err(AccessScopeDenied); }
      if !adminOnly && !systemAdmin && !CanAdminister(organisationRole) && workspaceRole.NoRole? { return Err(AccessScopeDenied); }
      return Ok(Scope(organisation, organisationRole, workspaceRole, systemAdmin));
    }

    method AuthoriseInWorkspace(actor: string, workspace: string, allowWorkspaceAdmin: bool) returns (r: Result<Scope, Error>)
      requires Unique()
      ensures r == AuthoriseWorkspace(State(), actor, workspace, allowWorkspaceAdmin)
    {
      hide OneCurrent, Gapless, Current, ProveWorkspaceScope;
      var proof := ProveScope(actor, workspace, true);
      if proof.Ok? {
        if !allowWorkspaceAdmin && !proof.value.systemAdmin && !CanAdminister(proof.value.organisationRole) { return Err(UnauthorisedWorkspace); }
        return proof;
      }
      if workspace !in workspaces || workspaces[workspace].organisation !in organisations { return Err(WorkspaceNotFound); }
      if !workspaces[workspace].active || !organisations[workspaces[workspace].organisation].active { return Err(WorkspaceIsArchived); }
      return Err(UnauthorisedWorkspace);
    }

    /** An INSERT under the unique indexes. */
    method InsertRow(t: Memberships, id: string, row: Membership) returns (r: Result<Memberships, Error>)
      requires OneCurrent(t)
      ensures r == Insert(t, id, row)
    {
      hide OneCurrent;
      var current := FindCurrent(t, row.scope, row.user);
      if id in t || current.Some? { return Err(ConstraintViolation); }
      return Ok(t[id := row]);
    }

    /** A role change retires the current row and inserts its successor. */
    method ReplaceRow(t: Memberships, current: string, id: string, row: Membership) returns (r: Result<Memberships, Error>)
      requires OneCurrent(t) && current in t
      ensures r == Insert(Retire(t, current), id, row)
    {
      RetiredUnique(t, current);
      hide Insert, OneCurrent;
      r := InsertRow(t[current := t[current].(active := false)], id, row);
    }

    // ----- users -----

    method CreateUserAccount(user: string, active: bool) returns (r: Result<(), Error>)
      requires Valid()
      modifies this
      ensures Valid() && Does(r, old(State()), CreateUser(old(State()), user, active))
    {
      ValidUnique();
      CreateUserKeeps(State(), user, active);
      hide Inv, Commit, Insert, IsCurrent, Gapless, OneCurrent;
      if !HasIdPrefix("usr_", user) { return Err(InvalidUser); }
      if user in users { return Err(ConstraintViolation); }
      var saved := Begin();
      users := users[user := active];
      r := Finish(saved, [UserCreated(user, active)]);
    }

    method SetUserActiveFlag(user: string, active: bool) returns (r: Result<(), Error>)
      requires Valid()
      modifies this
      ensures Valid() && Does(r, old(State()), SetUserActive(old(State()), user, active))
    {
      ValidUnique();
      SetUserActiveKeeps(State(), user, active);
      hide Inv, Commit, Insert, IsCurrent, Gapless, OneCurrent, Trim;
      var id := Trim(user);
      if id !in users { return Err(UserNotFound); }
      if users[id] == active { return Ok(()); }
      var saved := Begin();
      users := users[id := active];
      r := Finish(saved, [UserStatusChanged(id, active)]);
    }

    // ----- organisations -----

    method CreateOrganisationFor(actor: string, organisation: string, name: string, membership: string) returns (r: Result<(), Error>)
      requires Valid()
      modifies this
      ensures Valid() && Does(r, old(State()), CreateOrganisation(old(State()), actor, organisation, name, membership))
    {
      ValidUnique();
      CreateOrganisationKeeps(State(), actor, organisation, name, membership);
      hide Inv, Commit, Insert, IsCurrent, Gapless, OneCurrent, Trim, Current;
      if !HasIdPrefix("org_", organisation) { return Err(InvalidOrganisationId); }
      if Trim(name) == "" || |Trim(name)| > 200 { return Err(InvalidOrganisationName); }
      var user := Trim(actor);
      var known := ActiveUserId(user);
      if !known { return Err(UnauthorisedOrganisation); }
      if organisation in organisations { return Err(ConstraintViolation); }
      var inserted := InsertRow(members, membership, Membership(organisation, user, Owner, true, 1));
      if inserted.Err? { return Err(inserted.error); }
      var saved := Begin();
      organisations := organisations[organisation := Organisation(Trim(name), true)];
      members := inserted.value;
      assert State() == old(State()).(organisations := old(organisations)[organisation := Organisation(Trim(name), true)], members := inserted.value);
      r := Finish(saved, [OrganisationCreated(organisation), OrganisationMembershipAdded(organisation, membership, actor, Owner)]);
    }

    method AddMember(actor: string, organisation: string, target: string, role: Role, membership: string) returns (r: Result<(), Error>)
      requires Valid()
      modifies this
      ensures Valid() && Does(r, old(State()), AddOrganisationMember(old(State()), actor, organisation, target, role, membership))
    {
      ValidUnique();
      AddOrganisationMemberKeeps(State(), actor, organisation, target, role, membership);
      hide Inv, Commit, Insert, IsCurrent, Gapless, OneCurrent, Trim, Current, AuthoriseOrganisation;
      if !role.Admin? && !role.Member? { return Err(InvalidRole); }
      var authority :- Authorise(actor, organisation);
      if !authority.systemAdmin && authority.role.Admin? && role.Admin? { return Err(UnauthorisedOrganisation); }
      var user := Trim(target);
      var known := ActiveUserId(user);
      if !known { return Err(UnauthorisedOrganisation); }
      var existing := FindCurrent(members, organisation, user);
      if existing.Some? { return Err(DuplicateMember); }
      var inserted := InsertRow(members, membership, Membership(organisation, user, role, true, 1));
      if inserted.Err? { return Err(inserted.error); }
      var saved := Begin();
      members := inserted.value;
      assert State() == old(State()).(members := inserted.value);
      r := Finish(saved, [OrganisationMembershipAdded(organisation, membership, target, role)]);
    }

    /** The checks a role change and a deactivation share. */
    method FindMutable(authority: Authority, organisation: string, target: string, expected: Option<int>) returns (r: Result<string, Error>)
      requires Unique()
      ensures r == MutableMembership(State(), authority, organisation, target, expected)
    {
      hide OneCurrent, Gapless, Current;
      var current := FindCurrent(members, organisation, target);
      var known := ActiveUserId(target);
      if !known || current.None? { return Err(MembershipNotFound); }
      var row := members[current.value];
      if expected.Some? && expected.value != row.version { return Err(CommandConflict); }
      if row.role.Owner? { return Err(OwnerMutation); }
      if !authority.systemAdmin && authority.role.Admin? && !row.role.Member? { return Err(UnauthorisedOrganisation); }
      return Ok(current.value);
    }

    method PlanMemberRole(actor: string, organisation: string, target: string, role: Role, expected: Option<int>, membership: string)
      returns (r: Result<Memberships, Error>)
      requires Unique()
      ensures r == MemberRolePlan(State(), actor, organisation, target, role, expected, membership)
    {
      hide Gapless, OneCurrent, Insert, Retire, Current, Trim, AuthoriseOrganisation, MutableMembership;
      if !role.Admin? && !role.Member? { return Err(InvalidRole); }
      var authority :- Authorise(actor, organisation);
      var current :- FindMutable(authority, organisation, target, expected);
      if members[current].role == role { return Err(DuplicateMember); }
      var user := Trim(target);
      var known := ActiveUserId(user);
      if !known { return Err(UnauthorisedOrganisation); }
      r := ReplaceRow(members, current, membership, Membership(organisation, user, role, true, members[current].version + 1));
    }

    method ChangeMemberRole(actor: string, organisation: string, target: string, role: Role, expected: Option<int>, membership: string)
      returns (r: Result<(), Error>)
      requires Valid()
      modifies this
      ensures Valid() && Does(r, old(State()), ChangeOrganisationRole(old(State()), actor, organisation, target, role, expected, membership))
    {
      ValidUnique();
      ChangeOrganisationRoleKeeps(State(), actor, organisation, target, role, expected, membership);
      MemberRolePlanned(State(), actor, organisation, target, role, expected, membership);
      hide Inv, Commit, Gapless, OneCurrent, ChangeOrganisationRole, MemberRolePlan;
      var planned := PlanMemberRole(actor, organisation, target, role, expected, membership);
      if planned.Err? { return Err(planned.error); }
      var saved := Begin();
      members := planned.value;
      assert State() == old(State()).(members := planned.value);
      r := Finish(saved, [OrganisationRoleChanged(organisation, membership, target, role)]);
    }

    method DeactivateMember(actor: string, organisation: string, target: string, expected: Option<int>) returns (r: Result<(), Error>)
      requires Valid()
      modifies this
      ensures Valid() && Does(r, old(State()), DeactivateOrganisationMember(old(State()), actor, organisation, target, expected))
    {
      ValidUnique();
      DeactivateOrganisationMemberKeeps(State(), actor, organisation, target, expected);
      hide Inv, Commit, Insert, IsCurrent, Gapless, OneCurrent, Current, AuthoriseOrganisation, MutableMembership;
      var authority :- Authorise(actor, organisation);
      var current :- FindMutable(authority, organisation, target, expected);
      var role := members[current].role;
      var saved := Begin();
      members := members[current := members[current].(active := false)];
      assert State() == old(State()).(members := Retire(old(members), current));
      r := Finish(saved, [OrganisationMembershipRemoved(organisation, current, target, role)]);
    }

    /** `SELECT ... WHERE scope=? AND active=1`, in no particular order. */
    method ReadActive(t: Memberships, scope: string) returns (rows: seq<string>)
      ensures ListsActive(rows, t, scope)
    {
      rows := [];
      var rest := t.Keys;
      while rest != {}
        invariant rest <= t.Keys
        invariant forall i, j :: 0 <= i < j < |rows| ==> rows[i] != rows[j]
        invariant forall i :: 0 <= i < |rows| ==> rows[i] in t && rows[i] !in rest && t[rows[i]].active && t[rows[i]].scope == scope
        invariant forall id :: id in t && id !in rest && t[id].active && t[id].scope == scope ==> id in rows
        decreases |rest|
      {
        var id :| id in rest;
        if t[id].active && t[id].scope == scope { rows := rows + [id]; }
        rest := rest - {id};
      }
    }

    /** `UPDATE ... SET active=0 WHERE scope=? AND active=1` over the rows just read. */
    method RetireRows(t: Memberships, scope: string, rows: seq<string>) returns (retired: Memberships)
      requires ListsActive(rows, t, scope)
      ensures retired == RetireScope(t, scope)
    {
      retired := t;
      var i := 0;
      while i < |rows|
        invariant 0 <= i <= |rows| && retired.Keys == t.Keys
        invariant forall id :: id in t ==> retired[id] == if id in rows[..i] then t[id].(active := false) else t[id]
      {
        retired := retired[rows[i] := retired[rows[i]].(active := false)];
        i := i + 1;
      }
      assert rows[..i] == rows;
    }

    method ListRemovals(kind: ScopeKind, t: Memberships, scope: string, rows: seq<string>) returns (events: seq<Event>)
      requires forall i :: 0 <= i < |rows| ==> rows[i] in t
      ensures events == RemovalEvents(kind, t, scope, rows)
    {
      events := [];
      var i := |rows|;
      while i > 0
        invariant 0 <= i <= |rows| && events == RemovalEvents(kind, t, scope, rows[i..])
      {
        i := i - 1;
        assert rows[i..][1..] == rows[i + 1..];
        events := [RemovalEvent(kind, scope, rows[i], t[rows[i]].user, t[rows[i]].role)] + events;
      }
    }

    method CloseOrganisation(organisation: string, retired: Memberships, removals: seq<Event>) returns (r: Result<(), Error>)
      requires Gapless(outbox) && organisation in organisations
      modifies this
      ensures var staged := old(State()).(organisations := old(organisations)[organisation := old(organisations)[organisation].(active := false)],
                                          members := retired);
              match Commit(staged, removals + [OrganisationArchived(organisation)])
              case Ok(next) => r.Ok? && State() == next
              case Err(e) => r == Err(e) && State() == old(State())
    {
      hide Gapless, Commit;
      var saved := Begin();
      members := retired;
      organisations := organisations[organisation := organisations[organisation].(active := false)];
      r := Finish(saved, removals + [OrganisationArchived(organisation)]);
    }

    method ArchiveOrganisationById(actor: string, organisation: string) returns (r: Result<(), Error>, ghost rows: seq<string>)
      requires Valid()
      modifies this
      ensures Valid() && ListsActive(rows, old(members), organisation)
      ensures Does(r, old(State()), ArchiveOrganisation(old(State()), actor, organisation, rows))
    {
      ValidUnique();
      var retired, removals, listed := ArchiveRows(OrganisationScope, members, organisation);
      rows := listed;
      ArchiveOrganisationKeeps(State(), actor, organisation, rows);
      hide Inv, Commit, Insert, IsCurrent, Gapless, OneCurrent, RetireScope, RemovalEvents, ListsActive, Current, AuthoriseOrganisation;
      AuthorisedOrganisationExists(State(), actor, organisation);
      var authority := Authorise(actor, organisation);
      if authority.Err? { return Err(authority.error), rows; }
      if !authority.value.systemAdmin && !authority.value.role.Owner? { return Err(UnauthorisedOrganisation), rows; }
      r := CloseOrganisation(organisation, retired, removals);
    }

    /** What archiving a scope reads and retires, and the events it owes: one removal for each active row. */
    method ArchiveRows(kind: ScopeKind, t: Memberships, scope: string) returns (retired: Memberships, removals: seq<Event>, ghost rows: seq<string>)
      ensures ListsActive(rows, t, scope) && retired == RetireScope(t, scope) && removals == RemovalEvents(kind, t, scope, rows)
    {
      var listed := ReadActive(t, scope);
      rows := listed;
      removals := ListRemovals(kind, t, scope, listed);
      retired := RetireRows(t, scope, listed);
    }

    method RenameOrganisationById(actor: string, organisation: string, name: string) returns (r: Result<(), Error>)
      requires Valid()
      modifies this
      ensures Valid() && Does(r, old(State()), RenameOrganisation(old(State()), actor, organisation, name))
    {
      ValidUnique();
      RenameOrganisationKeeps(State(), actor, organisation, name);
      hide Inv, Commit, Insert, IsCurrent, Gapless, OneCurrent, Trim, Current;
      if Trim(name) == "" || |Trim(name)| > 200 { return Err(InvalidOrganisationName); }
      var authority := Authorise(actor, organisation);
      if authority.Err? { return Err(authority.error); }
      var saved := Begin();
      organisations := organisations[organisation := organisations[organisation].(name := Trim(name))];
      assert State() == old(State()).(organisations := organisations);
      r := Finish(saved, [OrganisationRenamed(organisation, Trim(name))]);
    }

    // ----- workspaces -----

    method CreateWorkspaceIn(actor: string, organisation: string, workspace: string, name: string, membership: string)
      returns (r: Result<(), Error>)
      requires Valid()
      modifies this
      ensures Valid() && Does(r, old(State()), CreateWorkspace(old(State()), actor, organisation, workspace, name, membership))
    {
      ValidUnique();
      CreateWorkspaceKeeps(State(), actor, organisation, workspace, name, membership);
      hide Inv, Commit, Insert, IsCurrent, Gapless, OneCurrent, Current, AuthoriseOrganisation, Trim;
      if !HasIdPrefix("wsp_", workspace) { return Err(InvalidWorkspaceId); }
      if !HasIdPrefix("org_", organisation) { return Err(InvalidWorkspace); }
      if Trim(name) == "" || |Trim(name)| > 200 { return Err(InvalidWorkspaceName); }
      var authority := Authorise(actor, organisation);
      if authority.Err? { return Err(authority.error); }
      if workspace in workspaces { return Err(ConstraintViolation); }
      var inserted := InsertRow(workspaceMembers, membership, Membership(workspace, actor, Admin, true, 1));
      if inserted.Err? { return Err(inserted.error); }
      var saved := Begin();
      workspaces := workspaces[workspace := Workspace(organisation, true)];
      workspaceMembers := inserted.value;
      assert State() == old(State()).(workspaces := workspaces, workspaceMembers := inserted.value);
      r := Finish(saved, [WorkspaceCreated(workspace, organisation), WorkspaceMembershipAdded(workspace, membership, actor, Admin)]);
    }

    method TargetAllowed(workspace: string, target: string) returns (allowed: bool)
      requires Unique()
      ensures allowed == WorkspaceTarget(State(), workspace, target)
    {
      hide OneCurrent, Gapless, Current;
      if workspace !in workspaces { return false; }
      var organisation := workspaces[workspace].organisation;
      if organisation !in organisations || !organisations[organisation].active { return false; }
      var known := ActiveUserId(target);
      var current := FindCurrent(members, organisation, target);
      return known && current.Some?;
    }

    method AddToWorkspace(actor: string, workspace: string, target: string, role: Role, membership: string) returns (r: Result<(), Error>)
      requires Valid()
      modifies this
      ensures Valid() && Does(r, old(State()), AddWorkspaceMember(old(State()), actor, workspace, target, role, membership))
    {
      ValidUnique();
      AddWorkspaceMemberKeeps(State(), actor, workspace, target, role, membership);
      hide Inv, Commit, Insert, IsCurrent, Gapless, OneCurrent, Current, AuthoriseWorkspace, WorkspaceTarget;
      if !WorkspaceRoleValid(role) { return Err(InvalidRole); }
      var scope := AuthoriseInWorkspace(actor, workspace, true);
      if scope.Err? { return Err(scope.error); }
      var allowed := TargetAllowed(workspace, target);
      if !allowed { return Err(UnauthorisedWorkspace); }
      var existing := FindCurrent(workspaceMembers, workspace, target);
      if existing.Some? { return Err(DuplicateWorkspaceMember); }
      var inserted := InsertRow(workspaceMembers, membership, Membership(workspace, target, role, true, 1));
      if inserted.Err? { return Err(inserted.error); }
      var saved := Begin();
      workspaceMembers := inserted.value;
      assert State() == old(State()).(workspaceMembers := inserted.value);
      r := Finish(saved, [WorkspaceMembershipAdded(workspace, membership, target, role)]);
    }

    method FindMutableInWorkspace(actor: string, workspace: string, target: string, expected: Option<int>) returns (r: Result<string, Error>)
      requires Unique()
      ensures r == MutableWorkspaceMembership(State(), actor, workspace, target, expected)
    {
      hide OneCurrent, Gapless, Current, AuthoriseWorkspace, WorkspaceTarget;
      var scope := AuthoriseInWorkspace(actor, workspace, true);
      if scope.Err? { return Err(scope.error); }
      var allowed := TargetAllowed(workspace, target);
      if !allowed { return Err(UnauthorisedWorkspace); }
      var current := FindCurrent(workspaceMembers, workspace, target);
      if current.None? { return Err(WorkspaceMembershipNotFound); }
      if expected.Some? && expected.value != workspaceMembers[current.value].version { return Err(CommandConflict); }
      return Ok(current.value);
    }

    method PlanRoleInWorkspace(actor: string, workspace: string, target: string, role: Role, expected: Option<int>, membership: string)
      returns (r: Result<Memberships, Error>)
      requires Unique()
      ensures r == WorkspaceRolePlan(State(), actor, workspace, target, role, expected, membership)
    {
      hide Gapless, OneCurrent, Insert, Retire, Current, MutableWorkspaceMembership;
      if !WorkspaceRoleValid(role) { return Err(InvalidRole); }
      var current :- FindMutableInWorkspace(actor, workspace, target, expected);
      if workspaceMembers[current].role == role { return Err(DuplicateWorkspaceMember); }
      var next := Membership(workspace, target, role, true, workspaceMembers[current].version + 1);
      r := ReplaceRow(workspaceMembers, current, membership, next);
    }

    method ChangeRoleInWorkspace(actor: string, workspace: string, target: string, role: Role, expected: Option<int>, membership: string)
      returns (r: Result<(), Error>)
      requires Valid()
      modifies this
      ensures Valid() && Does(r, old(State()), ChangeWorkspaceRole(old(State()), actor, workspace, target, role, expected, membership))
    {
      ValidUnique();
      ChangeWorkspaceRoleKeeps(State(), actor, workspace, target, role, expected, membership);
      WorkspaceRolePlanned(State(), actor, workspace, target, role, expected, membership);
      hide Inv, Commit, Gapless, OneCurrent, ChangeWorkspaceRole, WorkspaceRolePlan;
      var planned := PlanRoleInWorkspace(actor, workspace, target, role, expected, membership);
      if planned.Err? { return Err(planned.error); }
      var saved := Begin();
      workspaceMembers := planned.value;
      assert State() == old(State()).(workspaceMembers := planned.value);
      r := Finish(saved, [WorkspaceRoleChanged(workspace, membership, target, role)]);
    }

    method RemoveFromWorkspace(actor: string, workspace: string, target: string, expected: Option<int>) returns (r: Result<(), Error>)
      requires Valid()
      modifies this
      ensures Valid() && Does(r, old(State()), DeactivateWorkspaceMember(old(State()), actor, workspace, target, expected))
    {
      ValidUnique();
      DeactivateWorkspaceMemberKeeps(State(), actor, workspace, target, expected);
      hide Inv, Commit, Insert, IsCurrent, Gapless, OneCurrent, Current, MutableWorkspaceMembership;
      var current :- FindMutableInWorkspace(actor, workspace, target, expected);
      var role := workspaceMembers[current].role;
      var saved := Begin();
      workspaceMembers := workspaceMembers[current := workspaceMembers[current].(active := false)];
      assert State() == old(State()).(workspaceMembers := Retire(old(workspaceMembers), current));
      r := Finish(saved, [WorkspaceMembershipRemoved(workspace, current, target, role)]);
    }

    method CloseWorkspace(workspace: string, retired: Memberships, removals: seq<Event>) returns (r: Result<(), Error>)
      requires Gapless(outbox) && workspace in workspaces
      modifies this
      ensures var staged := old(State()).(workspaces := old(workspaces)[workspace := old(workspaces)[workspace].(active := false)],
                                          workspaceMembers := retired);
              match Commit(staged, removals + [WorkspaceArchived(workspace)])
              case Ok(next) => r.Ok? && State() == next
              case Err(e) => r == Err(e) && State() == old(State())
    {
      hide Gapless, Commit;
      var saved := Begin();
      workspaceMembers := retired;
      workspaces := workspaces[workspace := workspaces[workspace].(active := false)];
      r := Finish(saved, removals + [WorkspaceArchived(workspace)]);
    }

    method ArchiveWorkspaceById(actor: string, workspace: string) returns (r: Result<(), Error>, ghost rows: seq<string>)
      requires Valid()
      modifies this
      ensures Valid() && ListsActive(rows, old(workspaceMembers), workspace)
      ensures Does(r, old(State()), ArchiveWorkspace(old(State()), actor, workspace, rows))
    {
      ValidUnique();
      var retired, removals, listed := ArchiveRows(WorkspaceScope, workspaceMembers, workspace);
      rows := listed;
      ArchiveWorkspaceKeeps(State(), actor, workspace, rows);
      ArchiveWorkspaceIs(State(), actor, workspace, rows);
      hide Inv, Commit, Gapless, OneCurrent, RetireScope, RemovalEvents, ListsActive, AuthoriseWorkspace, ArchiveWorkspace;
      var scope := AuthoriseInWorkspace(actor, workspace, false);
      if scope.Err? { return Err(scope.error), rows; }
      r := CloseWorkspace(workspace, retired, removals);
    }

    // ----- products and access -----

    method RetireProductByKey(actor: string, product: string) returns (r: Result<(), Error>)
      requires Valid()
      modifies this
      ensures Valid() && Does(r, old(State()), RetireProduct(old(State()), actor, product))
    {
      ValidUnique();
      RetireProductKeeps(State(), actor, product);
      hide Inv, Commit, Insert, IsCurrent, Gapless, OneCurrent, Trim;
      var key, user := Trim(product), Trim(actor);
      if !HasIdPrefix("product.", key) { return Err(InvalidProductKey); }
      var known := ActiveUserId(user);
      if !known || user !in admins { return Err(UnauthorisedProduct); }
      if key !in products { return Err(ProductNotFound); }
      if !products[key] { return Err(ProductIsRetired); }
      var saved := Begin();
      products := products[key := false];
      assert State() == old(State()).(products := products);
      r := Finish(saved, [ProductRetired(key)]);
    }

    method Entitled(organisation: string, product: string) returns (yes: bool)
      ensures yes == HasEntitlement(State(), organisation, product)
    {
      yes := exists id :: id in entitlements && entitlements[id] == Entitlement(organisation, product, true);
    }

    method Assigned(user: string, organisation: string, product: string) returns (yes: bool)
      ensures yes == HasAssignment(State(), user, organisation, product)
    {
      yes := exists id :: id in assignments && assignments[id] == Assignment(user, organisation, product, true);
    }

    method Entitle(actor: string, organisation: string, product: string, entitlement: string) returns (r: Result<(), Error>)
      requires Valid()
      modifies this
      ensures Valid() && Does(r, old(State()), EntitleOrganisation(old(State()), actor, organisation, product, entitlement))
    {
      ValidUnique();
      EntitleOrganisationKeeps(State(), actor, organisation, product, entitlement);
      hide Inv, Commit, Insert, IsCurrent, Gapless, OneCurrent, Trim, AuthoriseOrganisation, HasEntitlement;
      var key := Trim(product);
      if !HasIdPrefix("product.", key) { return Err(InvalidProductKey); }
      var authority := Authorise(actor, organisation);
      if authority.Err? { return Err(authority.error); }
      if key !in products { return Err(ProductNotFound); }
      if !products[key] { return Err(ProductIsRetired); }
      var entitled := Entitled(organisation, key);
      if entitled { return Err(DuplicateEntitlement); }
      if entitlement in entitlements { return Err(ConstraintViolation); }
      var saved := Begin();
      entitlements := entitlements[entitlement := Entitlement(organisation, key, true)];
      assert State() == old(State()).(entitlements := entitlements);
      r := Finish(saved, [EntitlementGranted(entitlement, organisation, key)]);
    }

    method RevokeEntitlementById(actor: string, organisation: string, entitlement: string) returns (r: Result<(), Error>)
      requires Valid()
      modifies this
      ensures Valid() && Does(r, old(State()), RevokeEntitlement(old(State()), actor, organisation, entitlement))
    {
      ValidUnique();
      RevokeEntitlementKeeps(State(), actor, organisation, entitlement);
      hide Inv, Commit, Insert, IsCurrent, Gapless, OneCurrent, Trim, AuthoriseOrganisation;
      var id := Trim(entitlement);
      if id !in entitlements || entitlements[id].organisation != organisation { return Err(EntitlementNotFound); }
      var authority := Authorise(actor, organisation);
      if authority.Err? { return Err(authority.error); }
      if !entitlements[id].active { return Err(EntitlementInactive); }
      var saved := Begin();
      entitlements := entitlements[id := entitlements[id].(active := false)];
      assert State() == old(State()).(entitlements := entitlements);
      r := Finish(saved, [EntitlementRevoked(entitlement, organisation, entitlements[id].product)]);
    }

    method Assign(actor: string, organisation: string, target: string, product: string, assignment: string) returns (r: Result<(), Error>)
      requires Valid()
      modifies this
      ensures Valid() && Does(r, old(State()), AssignProduct(old(State()), actor, organisation, target, product, assignment))
    {
      ValidUnique();
      AssignProductKeeps(State(), actor, organisation, target, product, assignment);
      hide Inv, Commit, Insert, IsCurrent, Gapless, OneCurrent, Trim, Current, AuthoriseOrganisation, HasAssignment;
      var user, key := Trim(target), Trim(product);
      if !HasIdPrefix("product.", key) { return Err(InvalidProductKey); }
      var authority := Authorise(actor, organisation);
      if authority.Err? { return Err(authority.error); }
      if key !in products { return Err(ProductNotFound); }
      if !products[key] { return Err(ProductIsRetired); }
      var known := ActiveUserId(user);
      var current := FindCurrent(members, organisation, user);
      if !known || current.None? { return Err(UnauthorisedOrganisation); }
      var held := Assigned(user, organisation, key);
      if held { return Err(DuplicateAssignment); }
      if assignment in assignments { return Err(ConstraintViolation); }
      var saved := Begin();
      assignments := assignments[assignment := Assignment(user, organisation, key, true)];
      assert State() == old(State()).(assignments := assignments);
      r := Finish(saved, [AssignmentGranted(assignment, organisation, user, key)]);
    }

    method RevokeAssignmentById(actor: string, organisation: string, assignment: string) returns (r: Result<(), Error>)
      requires Valid()
      modifies this
      ensures Valid() && Does(r, old(State()), RevokeAssignment(old(State()), actor, organisation, assignment))
    {
      ValidUnique();
      RevokeAssignmentKeeps(State(), actor, organisation, assignment);
      hide Inv, Commit, Insert, IsCurrent, Gapless, OneCurrent, Trim, AuthoriseOrganisation;
      var id := Trim(assignment);
      if id !in assignments || assignments[id].organisation != Trim(organisation) { return Err(AssignmentNotFound); }
      var authority := Authorise(actor, organisation);
      if authority.Err? { return Err(authority.error); }
      if !assignments[id].active { return Err(AssignmentInactive); }
      var saved := Begin();
      assignments := assignments[id := assignments[id].(active := false)];
      assert State() == old(State()).(assignments := assignments);
      r := Finish(saved, [AssignmentRevoked(assignment, organisation, assignments[id].user, assignments[id].product)]);
    }

    lemma ValidUnique()
      requires Valid()
      ensures Unique()
    {
      hide OneOwner, AccessRows, Gapless, OneCurrent;
    }
  }

  /** The membership table a role change would leave, before it is announced. */
  ghost function MemberRolePlan(db: Database, actor: string, organisation: string, target: string, role: Role, expected: Option<int>,
                                membership: string): Result<Memberships, Error>
  {
    var _ :- Need(role.Admin? || role.Member?, InvalidRole);
    var authority :- AuthoriseOrganisation(db, actor, organisation);
    var current :- MutableMembership(db, authority, organisation, target, expected);
    var _ :- Need(db.members[current].role != role, DuplicateMember);
    var _ :- Need(ActiveUser(db, Trim(target)), UnauthorisedOrganisation);
    Insert(Retire(db.members, current), membership, Membership(organisation, Trim(target), role, true, db.members[current].version + 1))
  }

  lemma MemberRolePlanned(db: Database, actor: string, organisation: string, target: string, role: Role, expected: Option<int>, membership: string)
    ensures ChangeOrganisationRole(db, actor, organisation, target, role, expected, membership) ==
            match MemberRolePlan(db, actor, organisation, target, role, expected, membership)
            case Ok(t) => Commit(db.(members := t), [OrganisationRoleChanged(organisation, membership, target, role)])
            case Err(e) => Err(e)
  {
    hide Commit, Insert, Trim, AuthoriseOrganisation, MutableMembership;
  }

  ghost function WorkspaceRolePlan(db: Database, actor: string, workspace: string, target: string, role: Role, expected: Option<int>,
                                   membership: string): Result<Memberships, Error>
  {
    var _ :- Need(WorkspaceRoleValid(role), InvalidRole);
    var current :- MutableWorkspaceMembership(db, actor, workspace, target, expected);
    var _ :- Need(db.workspaceMembers[current].role != role, DuplicateWorkspaceMember);
    Insert(Retire(db.workspaceMembers, current), membership,
           Membership(workspace, target, role, true, db.workspaceMembers[current].version + 1))
  }

  lemma WorkspaceRolePlanned(db: Database, actor: string, workspace: string, target: string, role: Role, expected: Option<int>, membership: string)
    ensures ChangeWorkspaceRole(db, actor, workspace, target, role, expected, membership) ==
            match WorkspaceRolePlan(db, actor, workspace, target, role, expected, membership)
            case Ok(t) => Commit(db.(workspaceMembers := t), [WorkspaceRoleChanged(workspace, membership, target, role)])
            case Err(e) => Err(e)
  {
    hide Commit, Insert, MutableWorkspaceMembership;
  }

  lemma ArchiveWorkspaceIs(db: Database, actor: string, workspace: string, rows: seq<string>)
    requires ListsActive(rows, db.workspaceMembers, workspace)
    ensures AuthoriseWorkspace(db, actor, workspace, false).Ok? ==> workspace in db.workspaces
    ensures ArchiveWorkspace(db, actor, workspace, rows) ==
            match AuthoriseWorkspace(db, actor, workspace, false)
            case Ok(_) =>
              Commit(db.(workspaces := db.workspaces[workspace := db.workspaces[workspace].(active := false)],
                         workspaceMembers := RetireScope(db.workspaceMembers, workspace)),
                     RemovalEvents(WorkspaceScope, db.workspaceMembers, workspace, rows) + [WorkspaceArchived(workspace)])
            case Err(e) => Err(e)
  {
    hide Commit, RetireScope, RemovalEvents, Current;
  }

  lemma AuthorisedOrganisationExists(db: Database, actor: string, organisation: string)
    ensures AuthoriseOrganisation(db, actor, organisation).Ok? ==> organisation in db.organisations && db.organisations[organisation].active
  {
    hide Current;
  }

  lemma RetiredUnique(t: Memberships, id: string)
    requires OneCurrent(t) && id in t
    ensures OneCurrent(Retire(t, id))
  {
  }

  lemma {:induction false} GaplessPrefix(rows: seq<OutboxRow>, n: nat)
    requires Gapless(rows) && n <= |rows|
    ensures Gapless(rows[..n])
    decreases |rows|
  {
    if n < |rows| {
      GaplessPrefix(rows[..|rows| - 1], n);
      assert rows[..|rows| - 1][..n] == rows[..n];
    } else {
      assert rows[..n] == rows;
    }
  }
}
