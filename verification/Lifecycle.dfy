/** Membership histories over whole runs: rows are never rewritten, owners are founders, archived organisations are frozen,
    and an expected version is spent at most once. (organisation.go, workspace.go) */
module Lifecycle {
  import opened Prelude
  import opened Events
  import opened Tables
  import opened Mutations
  import opened Runs
  import opened Integrity
  import opened Bootstrap

  // ----- what a mutation does to one membership table -----

  datatype Touch =
    | Kept
    | Added(id: string, row: Membership)
    | Changed(current: string, id: string, user: string, role: Role)
    | Removed(current: string)
    | Closed(scope: string)

  /** `t'` is what the touch makes of `t`. */
  ghost predicate Made(t: Memberships, t': Memberships, touch: Touch) {
    match touch
    case Kept => t' == t
    case Added(id, row) =>
      && id !in t && row.active && row.version == 1
      && (forall i :: !IsCurrent(t, i, row.scope, row.user))
      && t' == t[id := row]
    case Changed(current, id, user, role) =>
      && id !in t && current in t && t[current].active && t[current].role != role
      && (forall i :: IsCurrent(t, i, t[current].scope, user) ==> i == current)
      && t' == t[current := t[current].(active := false)][id := t[current].(user := user, role := role, version := t[current].version + 1)]
    case Removed(current) => current in t && t[current].active && t' == Retire(t, current)
    case Closed(scope) => t' == RetireScope(t, scope)
  }

  ghost function CurrentId(t: Memberships, scope: string, user: string): string {
    match Current(t, scope, user)
    case None => ""
    case Some(id) => id
  }

  ghost function TouchOf(db: Database, kind: ScopeKind, m: Mutation): Touch {
    match kind
    case OrganisationScope => (
      match m
      case MCreateOrganisation(a, o, _, id) => Added(id, Membership(o, Trim(a), Owner, true, 1))
      case MAddOrganisationMember(_, o, t, r, id) => Added(id, Membership(o, Trim(t), r, true, 1))
      case MChangeOrganisationRole(_, o, t, r, _, id) => Changed(CurrentId(db.members, o, t), id, Trim(t), r)
      case MDeactivateOrganisationMember(_, o, t, _) => Removed(CurrentId(db.members, o, t))
      case MArchiveOrganisation(_, o, _) => Closed(o)
      case _ => Kept)
    case WorkspaceScope => (
      match m
      case MCreateWorkspace(a, _, w, _, id) => Added(id, Membership(w, a, Admin, true, 1))
      case MAddWorkspaceMember(_, w, t, r, id) => Added(id, Membership(w, t, r, true, 1))
      case MChangeWorkspaceRole(_, w, t, r, _, id) => Changed(CurrentId(db.workspaceMembers, w, t), id, t, r)
      case MDeactivateWorkspaceMember(_, w, t, _) => Removed(CurrentId(db.workspaceMembers, w, t))
      case MArchiveWorkspace(_, w, _) => Closed(w)
      case _ => Kept)
  }

  ghost predicate MakesTouch(db: Database, kind: ScopeKind, m: Mutation) {
    Apply(db, m).Ok? ==> Made(Members(db, kind), Members(Apply(db, m).value, kind), TouchOf(db, kind, m))
  }

  /** After retiring one row, an insert finds no other current row. */
  lemma InsertedAlone(t: Memberships, current: string, id: string, row: Membership)
    requires current in t && Insert(Retire(t, current), id, row).Ok?
    ensures forall i :: IsCurrent(t, i, row.scope, row.user) ==> i == current
  {
    forall i | IsCurrent(t, i, row.scope, row.user)
      ensures i == current
    {
      assert !IsCurrent(Retire(t, current), i, row.scope, row.user);
    }
  }

  lemma OrganisationTouch(db: Database, m: Mutation)
    requires m.MCreateOrganisation? || m.MAddOrganisationMember? || m.MChangeOrganisationRole? || m.MDeactivateOrganisationMember? || m.MArchiveOrganisation?
    ensures MakesTouch(db, OrganisationScope, m)
  {
    hide AuthoriseOrganisation, WellFormed, AppendAll, Trim, Current, RemovalEvents, RetireScope, ListsActive;
    if m.MChangeOrganisationRole? && Apply(db, m).Ok? {
      var current := CurrentId(db.members, m.organisation, m.target);
      InsertedAlone(db.members, current, m.membership,
                    Membership(m.organisation, Trim(m.target), m.role, true, db.members[current].version + 1));
    }
  }

  lemma WorkspaceTouch(db: Database, m: Mutation)
    requires m.MCreateWorkspace? || m.MAddWorkspaceMember? || m.MChangeWorkspaceRole? || m.MDeactivateWorkspaceMember? || m.MArchiveWorkspace?
    ensures MakesTouch(db, WorkspaceScope, m)
  {
    hide AuthoriseOrganisation, AuthoriseWorkspace, WorkspaceTarget, WellFormed, AppendAll, Trim, Current, RemovalEvents, RetireScope, ListsActive;
    if m.MChangeWorkspaceRole? && Apply(db, m).Ok? {
      var current := CurrentId(db.workspaceMembers, m.workspace, m.target);
      InsertedAlone(db.workspaceMembers, current, m.membership,
                    Membership(m.workspace, m.target, m.role, true, db.workspaceMembers[current].version + 1));
    }
  }

  predicate OrganisationMutation(m: Mutation) {
    m.MCreateOrganisation? || m.MAddOrganisationMember? || m.MChangeOrganisationRole? || m.MDeactivateOrganisationMember? || m.MArchiveOrganisation?
  }

  predicate WorkspaceMutation(m: Mutation) {
    m.MCreateWorkspace? || m.MAddWorkspaceMember? || m.MChangeWorkspaceRole? || m.MDeactivateWorkspaceMember? || m.MArchiveWorkspace?
  }

  lemma OrganisationElsewhere(db: Database, m: Mutation)
    requires OrganisationMutation(m)
    ensures MakesTouch(db, WorkspaceScope, m)
  {
    hide AuthoriseOrganisation, MutableMembership, WellFormed, AppendAll, Trim, Current, RemovalEvents, RetireScope, ListsActive;
  }

  lemma WorkspaceElsewhere(db: Database, m: Mutation)
    requires WorkspaceMutation(m)
    ensures MakesTouch(db, OrganisationScope, m)
  {
    hide AuthoriseOrganisation, AuthoriseWorkspace, MutableWorkspaceMembership, WorkspaceTarget, WellFormed, AppendAll, Trim, Current,
      RemovalEvents, RetireScope, ListsActive;
  }

  lemma OthersTouchNothing(db: Database, kind: ScopeKind, m: Mutation)
    requires !OrganisationMutation(m) && !WorkspaceMutation(m)
    ensures MakesTouch(db, kind, m)
  {
    hide CreateOrganisation, AddOrganisationMember, ChangeOrganisationRole, DeactivateOrganisationMember, ArchiveOrganisation,
      CreateWorkspace, AddWorkspaceMember, ChangeWorkspaceRole, DeactivateWorkspaceMember, ArchiveWorkspace,
      AuthoriseOrganisation, WellFormed, AppendAll, Trim, Current, HasEntitlement, HasAssignment;
  }

  lemma ApplyTouches(db: Database, kind: ScopeKind, m: Mutation)
    ensures MakesTouch(db, kind, m)
  {
    hide MakesTouch;
    if OrganisationMutation(m) {
      if kind.OrganisationScope? { OrganisationTouch(db, m); } else { OrganisationElsewhere(db, m); }
    } else if WorkspaceMutation(m) {
      if kind.OrganisationScope? { WorkspaceElsewhere(db, m); } else { WorkspaceTouch(db, m); }
    } else {
      OthersTouchNothing(db, kind, m);
    }
  }

  // ----- rows are history -----

  /** No row is lost or rewritten: the only change a row ever sees is its one deactivation. */
  ghost predicate Remembers(t: Memberships, t': Memberships) {
    forall id :: id in t ==> id in t' && (t'[id] == t[id] || t'[id] == t[id].(active := false))
  }

  lemma TouchRemembers(t: Memberships, t': Memberships, touch: Touch)
    requires Made(t, t', touch)
    ensures Remembers(t, t')
  {
  }

  lemma StepRemembers(db: Database, kind: ScopeKind, m: Mutation)
    ensures Remembers(Members(db, kind), Members(Step(db, m), kind))
  {
    hide Apply, TouchOf, Made;
    ApplyTouches(db, kind, m);
    if Apply(db, m).Ok? {
      TouchRemembers(Members(db, kind), Members(Step(db, m), kind), TouchOf(db, kind, m));
    }
  }

  /** From any tables, over any run. */
  lemma {:induction false} RunRemembers(db: Database, kind: ScopeKind, ms: seq<Mutation>)
    ensures Remembers(Members(db, kind), Members(Run(db, ms), kind))
    decreases |ms|
  {
    hide Apply;
    if ms != [] {
      StepRemembers(db, kind, ms[0]);
      RunRemembers(Step(db, ms[0]), kind, ms[1..]);
    }
  }

  /** The founder owns the organisation in every later state: nobody else ever does, and the ownership is active exactly
      while the organisation is. */
  lemma FounderOwnsForever(db: Database, actor: string, organisation: string, name: string, membership: string, ms: seq<Mutation>)
    requires Inv(db) && CreateOrganisation(db, actor, organisation, name, membership).Ok?
    ensures var end := Run(CreateOrganisation(db, actor, organisation, name, membership).value, ms);
            && IsOwner(end.members, membership, organisation) && end.members[membership].user == Trim(actor)
            && (forall id :: IsOwner(end.members, id, organisation) ==> id == membership)
            && organisation in end.organisations
            && end.members[membership].active == end.organisations[organisation].active
  {
    hide Inv, Trim, AppendAll, WellFormed, Apply;
    var next := CreateOrganisation(db, actor, organisation, name, membership).value;
    CreateOrganisationKeeps(db, actor, organisation, name, membership);
    RunRemembers(next, OrganisationScope, ms);
    RunKeeps(next, ms);
    OwnerAlone(Run(next, ms), organisation, membership);
  }

  lemma OwnerAlone(db: Database, organisation: string, membership: string)
    requires Inv(db) && IsOwner(db.members, membership, organisation)
    ensures forall id :: IsOwner(db.members, id, organisation) ==> id == membership
    ensures organisation in db.organisations && db.members[membership].active == db.organisations[organisation].active
  {
    hide AccessRows, Gapless, OneCurrent;
  }

  predicate IsActiveOwner(db: Database, id: string, organisation: string) {
    IsOwner(db.members, id, organisation) && db.members[id].active
  }

  /** In every reachable state an active organisation has exactly one active owner, an archived one has none, and each
      (scope, user) has at most one active membership. */
  lemma OwnersOverRuns(ms: seq<Mutation>, organisation: string)
    requires organisation in Run(MIGRATED, ms).organisations
    ensures var db := Run(MIGRATED, ms);
            && (db.organisations[organisation].active <==> exists id :: IsActiveOwner(db, id, organisation))
            && (forall i, j :: IsActiveOwner(db, i, organisation) && IsActiveOwner(db, j, organisation) ==> i == j)
            && OneCurrent(db.members) && OneCurrent(db.workspaceMembers)
  {
    hide Inv, Run;
    MigratedInv();
    RunKeeps(MIGRATED, ms);
    OwnersIn(Run(MIGRATED, ms), organisation);
  }

  lemma OwnersIn(db: Database, organisation: string)
    requires Inv(db) && organisation in db.organisations
    ensures db.organisations[organisation].active <==> exists id :: IsActiveOwner(db, id, organisation)
    ensures forall i, j :: IsActiveOwner(db, i, organisation) && IsActiveOwner(db, j, organisation) ==> i == j
    ensures OneCurrent(db.members) && OneCurrent(db.workspaceMembers)
  {
    hide AccessRows, Gapless, OneCurrent;
    var owner :| IsOwner(db.members, owner, organisation);
    assert db.organisations[organisation].active ==> IsActiveOwner(db, owner, organisation);
  }

  // ----- versions -----

  /** The version of the active row, if there is one. */
  ghost function VersionOf(t: Memberships, scope: string, user: string): Option<int> {
    match Current(t, scope, user)
    case None => None
    case Some(id) => Some(t[id].version)
  }

  /** The touch gives the user an active row where it had none: by an add, or by a role change of a row held under a padded id. */
  ghost predicate Enters(t: Memberships, touch: Touch, scope: string, user: string) {
    || (touch.Added? && touch.row.scope == scope && touch.row.user == user)
    || (touch.Changed? && touch.user == user && touch.current in t && t[touch.current].scope == scope && t[touch.current].user != user)
  }

  ghost predicate ChangesRoleOf(t: Memberships, touch: Touch, scope: string, user: string) {
    touch.Changed? && touch.user == user && IsCurrent(t, touch.current, scope, user)
  }

  /** One touch either starts a lineage, an add at 1, or moves it up by one, or ends it, or leaves it alone. */
  lemma TouchVersion(t: Memberships, t': Memberships, touch: Touch, scope: string, user: string)
    requires OneCurrent(t) && OneCurrent(t') && Made(t, t', touch)
    ensures Enters(t, touch, scope, user) ==>
              && VersionOf(t, scope, user).None?
              && VersionOf(t', scope, user) == Some(if touch.Added? then 1 else t[touch.current].version + 1)
    ensures ChangesRoleOf(t, touch, scope, user) ==>
              VersionOf(t, scope, user).Some? && VersionOf(t', scope, user) == Some(VersionOf(t, scope, user).value + 1)
    ensures !Enters(t, touch, scope, user) && !ChangesRoleOf(t, touch, scope, user) ==>
              VersionOf(t', scope, user) == None || VersionOf(t', scope, user) == VersionOf(t, scope, user)
    ensures (touch.Removed? || (touch.Changed? && touch.user != user)) && IsCurrent(t, touch.current, scope, user) ==>
              VersionOf(t', scope, user) == None
  {
    if i :| IsCurrent(t', i, scope, user) {
      CurrentIs(t', scope, user, i);
      if IsCurrent(t, i, scope, user) { CurrentIs(t, scope, user, i); }
    }
    if i :| IsCurrent(t, i, scope, user) {
      CurrentIs(t, scope, user, i);
    }
    if Enters(t, touch, scope, user) {
      CurrentIs(t', scope, user, touch.id);
    }
    if ChangesRoleOf(t, touch, scope, user) {
      CurrentIs(t', scope, user, touch.id);
    }
  }

  lemma StepVersion(db: Database, kind: ScopeKind, m: Mutation, scope: string, user: string)
    requires Inv(db) && Apply(db, m).Ok?
    ensures var t, t', touch := Members(db, kind), Members(Apply(db, m).value, kind), TouchOf(db, kind, m);
            && Made(t, t', touch) && OneCurrent(t) && OneCurrent(t')
  {
    hide Apply, TouchOf, Made, Inv, OneCurrent;
    ApplyTouches(db, kind, m);
    ApplyKeeps(db, m);
    Ready(db);
    Ready(Apply(db, m).value);
  }

  ghost predicate Succeeds(db: Database, m: Mutation) {
    Apply(db, m).Ok?
  }

  /** Nowhere in the run does the user enter the scope. */
  ghost predicate NoEntries(db: Database, kind: ScopeKind, ms: seq<Mutation>, scope: string, user: string)
    decreases |ms|
  {
    ms == [] ||
    (!(Succeeds(db, ms[0]) && Enters(Members(db, kind), TouchOf(db, kind, ms[0]), scope, user))
     && NoEntries(Step(db, ms[0]), kind, ms[1..], scope, user))
  }

  /** How many mutations of the run changed the user's role in the scope. */
  ghost function RoleChanges(db: Database, kind: ScopeKind, ms: seq<Mutation>, scope: string, user: string): nat
    decreases |ms|
  {
    if ms == [] then 0
    else (if Succeeds(db, ms[0]) && ChangesRoleOf(Members(db, kind), TouchOf(db, kind, ms[0]), scope, user) then 1 else 0)
         + RoleChanges(Step(db, ms[0]), kind, ms[1..], scope, user)
  }

  /** Along one lineage the active row's version is where it started plus the role changes made. */
  lemma {:induction false} VersionCounts(db: Database, kind: ScopeKind, ms: seq<Mutation>, scope: string, user: string)
    requires Inv(db) && NoEntries(db, kind, ms, scope, user)
    ensures var start, end := VersionOf(Members(db, kind), scope, user), VersionOf(Members(Run(db, ms), kind), scope, user);
            end.Some? ==> start.Some? && end.value == start.value + RoleChanges(db, kind, ms, scope, user)
    decreases |ms|
  {
    hide Inv, Apply, Members, VersionOf, TouchOf, Made, Enters, ChangesRoleOf, OneCurrent;
    if ms != [] {
      var m := ms[0];
      ApplyKeeps(db, m);
      VersionCounts(Step(db, m), kind, ms[1..], scope, user);
      if Apply(db, m).Ok? {
        StepVersion(db, kind, m, scope, user);
        TouchVersion(Members(db, kind), Members(Step(db, m), kind), TouchOf(db, kind, m), scope, user);
      }
    }
  }

  /** A role change or deactivation of the user in the scope that insists on version `v`. */
  predicate Spends(m: Mutation, kind: ScopeKind, scope: string, user: string, v: int) {
    match m
    case MChangeOrganisationRole(_, s, t, _, e, _) => kind.OrganisationScope? && s == scope && t == user && e == Some(v)
    case MDeactivateOrganisationMember(_, s, t, e) => kind.OrganisationScope? && s == scope && t == user && e == Some(v)
    case MChangeWorkspaceRole(_, s, t, _, e, _) => kind.WorkspaceScope? && s == scope && t == user && e == Some(v)
    case MDeactivateWorkspaceMember(_, s, t, e) => kind.WorkspaceScope? && s == scope && t == user && e == Some(v)
    case _ => false
  }

  /** Such a call succeeds only while the active row is at that version, and moves it on or ends it. */
  lemma SpendingNeedsVersion(db: Database, m: Mutation, kind: ScopeKind, scope: string, user: string, v: int)
    requires Spends(m, kind, scope, user, v) && Apply(db, m).Ok?
    ensures VersionOf(Members(db, kind), scope, user) == Some(v)
    ensures var touch := TouchOf(db, kind, m);
            (touch.Changed? || touch.Removed?) && IsCurrent(Members(db, kind), touch.current, scope, user)
  {
    hide AuthoriseOrganisation, AuthoriseWorkspace, WorkspaceTarget, Trim, AppendAll, WellFormed, Current;
  }

  lemma SpentMovesOn(db: Database, m: Mutation, kind: ScopeKind, scope: string, user: string, v: int)
    requires Inv(db) && Spends(m, kind, scope, user, v) && Apply(db, m).Ok?
    ensures var after := VersionOf(Members(Step(db, m), kind), scope, user); after == None || after == Some(v + 1)
  {
    hide Inv, Apply, Spends, Members, TouchOf, Made, OneCurrent, VersionOf;
    SpendingNeedsVersion(db, m, kind, scope, user, v);
    StepVersion(db, kind, m, scope, user);
    TouchVersion(Members(db, kind), Members(Step(db, m), kind), TouchOf(db, kind, m), scope, user);
  }

  /** Optimistic concurrency: of all role changes and deactivations insisting on the same version, at most one succeeds until
      the user enters the scope anew, whatever else happens in between. */
  lemma VersionSpentOnce(db: Database, first: Mutation, between: seq<Mutation>, second: Mutation,
                         kind: ScopeKind, scope: string, user: string, v: int)
    requires Inv(db) && Spends(first, kind, scope, user, v) && Apply(db, first).Ok?
    requires Spends(second, kind, scope, user, v)
    requires NoEntries(Step(db, first), kind, between, scope, user)
    ensures Apply(Run(Step(db, first), between), second).Err?
  {
    hide Inv, Apply, Spends, Members, VersionOf, Run, NoEntries, RoleChanges;
    ApplyKeeps(db, first);
    SpentMovesOn(db, first, kind, scope, user, v);
    VersionCounts(Step(db, first), kind, between, scope, user);
    if Apply(Run(Step(db, first), between), second).Ok? {
      SpendingNeedsVersion(Run(Step(db, first), between), second, kind, scope, user, v);
    }
  }

  // ----- archived organisations -----

  /** The two tables hold the same rows for these scopes. */
  ghost predicate SameRows(t: Memberships, t': Memberships, scopes: set<string>) {
    && (forall id :: id in t && t[id].scope in scopes ==> id in t' && t'[id] == t[id])
    && (forall id :: id in t' && t'[id].scope in scopes ==> id in t && t[id] == t'[id])
  }

  ghost function WorkspacesOf(db: Database, organisation: string): set<string> {
    set w | w in db.workspaces && db.workspaces[w].organisation == organisation
  }

  ghost predicate SameEntitlements(db: Database, next: Database, organisation: string) {
    && (forall id :: id in db.entitlements && db.entitlements[id].organisation == organisation ==>
          id in next.entitlements && next.entitlements[id] == db.entitlements[id])
    && (forall id :: id in next.entitlements && next.entitlements[id].organisation == organisation ==>
          id in db.entitlements && db.entitlements[id] == next.entitlements[id])
  }

  ghost predicate SameAssignments(db: Database, next: Database, organisation: string) {
    && (forall id :: id in db.assignments && db.assignments[id].organisation == organisation ==>
          id in next.assignments && next.assignments[id] == db.assignments[id])
    && (forall id :: id in next.assignments && next.assignments[id].organisation == organisation ==>
          id in db.assignments && db.assignments[id] == next.assignments[id])
  }

  ghost predicate SameWorkspaces(db: Database, next: Database, organisation: string) {
    && WorkspacesOf(next, organisation) == WorkspacesOf(db, organisation)
    && (forall w :: w in WorkspacesOf(db, organisation) ==> next.workspaces[w] == db.workspaces[w])
    && SameRows(db.workspaceMembers, next.workspaceMembers, WorkspacesOf(db, organisation))
  }

  /** Nothing that belongs to the organisation differs, its assignments perhaps excepted: its row, members, workspaces,
      workspace members and entitlements. */
  ghost predicate AtRest(db: Database, next: Database, organisation: string) {
    && organisation in db.organisations && organisation in next.organisations
    && next.organisations[organisation] == db.organisations[organisation]
    && SameRows(db.members, next.members, {organisation})
    && SameWorkspaces(db, next, organisation)
    && SameEntitlements(db, next, organisation)
  }

  ghost predicate Frozen(db: Database, next: Database, organisation: string) {
    AtRest(db, next, organisation) && SameAssignments(db, next, organisation)
  }

  predicate IsArchived(db: Database, organisation: string) {
    organisation in db.organisations && !db.organisations[organisation].active
  }

  /** The touch stays away from these scopes. */
  ghost predicate Spares(t: Memberships, touch: Touch, scopes: set<string>) {
    match touch
    case Kept => true
    case Added(_, row) => row.scope !in scopes
    case Changed(current, _, _, _) => current in t ==> t[current].scope !in scopes
    case Removed(current) => current in t ==> t[current].scope !in scopes
    case Closed(scope) => scope !in scopes
  }

  lemma SparedRows(t: Memberships, t': Memberships, touch: Touch, scopes: set<string>)
    requires Made(t, t', touch) && Spares(t, touch, scopes)
    ensures SameRows(t, t', scopes)
  {
  }

  lemma OrganisationSpares(db: Database, m: Mutation, organisation: string)
    requires IsArchived(db, organisation) && Apply(db, m).Ok? && OrganisationMutation(m)
    ensures Spares(db.members, TouchOf(db, OrganisationScope, m), {organisation})
  {
    hide WellFormed, AppendAll, Trim, Current, RemovalEvents, ListsActive, RetireScope;
  }

  lemma WorkspaceSpares(db: Database, m: Mutation, organisation: string)
    requires IsArchived(db, organisation) && Apply(db, m).Ok? && WorkspaceMutation(m)
    ensures Spares(db.workspaceMembers, TouchOf(db, WorkspaceScope, m), WorkspacesOf(db, organisation))
  {
    hide WellFormed, AppendAll, Trim, Current, RemovalEvents, ListsActive, RetireScope, WorkspaceTarget, RoleIn, Commit;
  }

  lemma StepSpares(db: Database, m: Mutation, organisation: string)
    requires IsArchived(db, organisation) && Apply(db, m).Ok?
    ensures Spares(db.members, TouchOf(db, OrganisationScope, m), {organisation})
    ensures Spares(db.workspaceMembers, TouchOf(db, WorkspaceScope, m), WorkspacesOf(db, organisation))
  {
    hide Apply, IsArchived;
    if OrganisationMutation(m) {
      OrganisationSpares(db, m, organisation);
    } else if WorkspaceMutation(m) {
      WorkspaceSpares(db, m, organisation);
    }
  }

  /** The tables other than the membership tables and the assignments. */
  ghost predicate FrozenElsewhere(db: Database, next: Database, organisation: string) {
    && organisation in db.organisations && organisation in next.organisations
    && next.organisations[organisation] == db.organisations[organisation]
    && WorkspacesOf(next, organisation) == WorkspacesOf(db, organisation)
    && (forall w :: w in WorkspacesOf(db, organisation) ==> next.workspaces[w] == db.workspaces[w])
    && SameEntitlements(db, next, organisation)
  }

  ghost predicate FreezesElsewhere(db: Database, r: Outcome, organisation: string) {
    r.Ok? ==> FrozenElsewhere(db, r.value, organisation)
  }

  lemma SameElsewhere(db: Database, next: Database, organisation: string)
    requires organisation in db.organisations && organisation in next.organisations
    requires next.organisations[organisation] == db.organisations[organisation]
    requires next.workspaces == db.workspaces && next.entitlements == db.entitlements
    ensures FrozenElsewhere(db, next, organisation)
  {
  }

  lemma EntitlementsUnchanged(db: Database, next: Database, organisation: string)
    requires next.entitlements == db.entitlements
    ensures SameEntitlements(db, next, organisation)
  {
  }

  lemma ElsewhereByUsers(db: Database, m: Mutation, organisation: string)
    requires IsArchived(db, organisation) && (m.SetAdmins? || m.MCreateUser? || m.MSetUserActive? || m.MRetireProduct?)
    ensures FreezesElsewhere(db, Apply(db, m), organisation)
  {
    hide WellFormed, AppendAll, Trim, FrozenElsewhere;
    if Apply(db, m).Ok? { SameElsewhere(db, Apply(db, m).value, organisation); }
  }

  lemma ElsewhereByOrganisations(db: Database, m: Mutation, organisation: string)
    requires IsArchived(db, organisation) && (OrganisationMutation(m) || m.MRenameOrganisation?)
    ensures FreezesElsewhere(db, Apply(db, m), organisation)
  {
    hide WellFormed, AppendAll, Trim, Current, RemovalEvents, ListsActive, RetireScope, Retire, FrozenElsewhere, MutableMembership;
    if Apply(db, m).Ok? { SameElsewhere(db, Apply(db, m).value, organisation); }
  }

  lemma ElsewhereByWorkspaces(db: Database, m: Mutation, organisation: string)
    requires IsArchived(db, organisation) && WorkspaceMutation(m)
    ensures FreezesElsewhere(db, Apply(db, m), organisation)
  {
    hide WellFormed, AppendAll, Trim, Current, RemovalEvents, ListsActive, RetireScope, Retire, MutableWorkspaceMembership, WorkspaceTarget,
      SameEntitlements;
    if Apply(db, m).Ok? {
      EntitlementsUnchanged(db, Apply(db, m).value, organisation);
    }
  }

  lemma EntitlementElsewhere(db: Database, next: Database, id: string, row: Entitlement, organisation: string)
    requires organisation in db.organisations && row.organisation != organisation
    requires id in db.entitlements ==> db.entitlements[id].organisation != organisation
    requires next == db.(entitlements := db.entitlements[id := row], outbox := next.outbox)
    ensures FrozenElsewhere(db, next, organisation)
  {
  }

  lemma ElsewhereByEntitlements(db: Database, m: Mutation, organisation: string)
    requires IsArchived(db, organisation) && (m.MEntitleOrganisation? || m.MRevokeEntitlement?)
    ensures FreezesElsewhere(db, Apply(db, m), organisation)
  {
    hide WellFormed, AppendAll, Trim, Current, HasEntitlement, FrozenElsewhere;
    if Apply(db, m).Ok? {
      var next := Apply(db, m).value;
      var id := if m.MRevokeEntitlement? then Trim(m.entitlement) else m.entitlement;
      EntitlementElsewhere(db, next, id, next.entitlements[id], organisation);
    }
  }

  lemma ElsewhereByAssignments(db: Database, m: Mutation, organisation: string)
    requires IsArchived(db, organisation) && (m.MAssignProduct? || m.MRevokeAssignment?)
    ensures FreezesElsewhere(db, Apply(db, m), organisation)
  {
    hide WellFormed, AppendAll, Trim, Current, HasAssignment, FrozenElsewhere, AuthoriseOrganisation;
    if Apply(db, m).Ok? { SameElsewhere(db, Apply(db, m).value, organisation); }
  }

  lemma StepElsewhere(db: Database, m: Mutation, organisation: string)
    requires IsArchived(db, organisation)
    ensures FreezesElsewhere(db, Apply(db, m), organisation)
  {
    hide FreezesElsewhere, Apply, IsArchived;
    if m.SetAdmins? || m.MCreateUser? || m.MSetUserActive? || m.MRetireProduct? {
      ElsewhereByUsers(db, m, organisation);
    } else if OrganisationMutation(m) || m.MRenameOrganisation? {
      ElsewhereByOrganisations(db, m, organisation);
    } else if WorkspaceMutation(m) {
      ElsewhereByWorkspaces(db, m, organisation);
    } else if m.MEntitleOrganisation? || m.MRevokeEntitlement? {
      ElsewhereByEntitlements(db, m, organisation);
    } else {
      ElsewhereByAssignments(db, m, organisation);
    }
  }

  lemma StepAtRest(db: Database, m: Mutation, organisation: string)
    requires IsArchived(db, organisation)
    ensures AtRest(db, Step(db, m), organisation)
  {
    hide Apply, TouchOf, Made, Spares, WorkspacesOf, SameEntitlements, SameRows;
    if Apply(db, m).Ok? {
      var next := Apply(db, m).value;
      StepElsewhere(db, m, organisation);
      StepSpares(db, m, organisation);
      ApplyTouches(db, OrganisationScope, m);
      SparedRows(db.members, next.members, TouchOf(db, OrganisationScope, m), {organisation});
      ApplyTouches(db, WorkspaceScope, m);
      SparedRows(db.workspaceMembers, next.workspaceMembers, TouchOf(db, WorkspaceScope, m), WorkspacesOf(db, organisation));
    } else {
      AtRestRefl(db, organisation);
    }
  }

  lemma AtRestRefl(db: Database, organisation: string)
    requires IsArchived(db, organisation)
    ensures AtRest(db, db, organisation)
  {
  }

  lemma AtRestTrans(db: Database, mid: Database, next: Database, organisation: string)
    requires AtRest(db, mid, organisation) && AtRest(mid, next, organisation)
    ensures AtRest(db, next, organisation)
  {
    hide WorkspacesOf, SameEntitlements, SameRows;
    SameRowsTrans(db.members, mid.members, next.members, {organisation});
    SameRowsTrans(db.workspaceMembers, mid.workspaceMembers, next.workspaceMembers, WorkspacesOf(db, organisation));
    SameEntitlementsTrans(db, mid, next, organisation);
    assert forall w :: w in WorkspacesOf(db, organisation) ==> w in WorkspacesOf(mid, organisation);
  }

  lemma SameRowsTrans(t: Memberships, u: Memberships, v: Memberships, scopes: set<string>)
    requires SameRows(t, u, scopes) && SameRows(u, v, scopes)
    ensures SameRows(t, v, scopes)
  {
  }

  lemma SameEntitlementsTrans(db: Database, mid: Database, next: Database, organisation: string)
    requires SameEntitlements(db, mid, organisation) && SameEntitlements(mid, next, organisation)
    ensures SameEntitlements(db, next, organisation)
  {
  }

  // ----- assignments of archived organisations -----

  /** A successful revocation under another organisation's id that trims to this one's. */
  ghost predicate StrayRevocation(db: Database, m: Mutation, organisation: string) {
    Apply(db, m).Ok? && m.MRevokeAssignment? && Trim(m.organisation) == organisation && m.organisation != organisation
  }

  ghost predicate NoStrays(db: Database, ms: seq<Mutation>, organisation: string)
    decreases |ms|
  {
    ms == [] || (!StrayRevocation(db, ms[0], organisation) && NoStrays(Step(db, ms[0]), ms[1..], organisation))
  }

  /** Assignments stay, and only ever end. */
  ghost predicate AssignmentsRemembered(db: Database, next: Database) {
    forall id :: id in db.assignments ==>
      id in next.assignments && (next.assignments[id] == db.assignments[id] || next.assignments[id] == db.assignments[id].(active := false))
  }

  /** An active assignment of the organisation has ended. */
  ghost predicate SomeEnded(db: Database, next: Database, organisation: string) {
    exists id :: id in db.assignments && db.assignments[id].organisation == organisation && db.assignments[id].active
                 && id in next.assignments && !next.assignments[id].active
  }

  lemma StepAssignments(db: Database, m: Mutation, organisation: string)
    requires IsArchived(db, organisation)
    ensures AssignmentsRemembered(db, Step(db, m))
    ensures StrayRevocation(db, m, organisation) ==> SomeEnded(db, Step(db, m), organisation)
    ensures !StrayRevocation(db, m, organisation) ==> SameAssignments(db, Step(db, m), organisation)
  {
    if m.MRevokeAssignment? {
      RevocationAssignments(db, m, organisation);
    } else if m.MAssignProduct? {
      AssignAssignments(db, m, organisation);
    } else {
      OthersLeaveAssignments(db, m);
    }
    hide Apply, Trim;
  }

  lemma RevocationAssignments(db: Database, m: Mutation, organisation: string)
    requires IsArchived(db, organisation) && m.MRevokeAssignment?
    ensures AssignmentsRemembered(db, Step(db, m))
    ensures StrayRevocation(db, m, organisation) ==> SomeEnded(db, Step(db, m), organisation)
    ensures !StrayRevocation(db, m, organisation) ==> SameAssignments(db, Step(db, m), organisation)
  {
    hide WellFormed, AppendAll, Trim, Current;
    if Apply(db, m).Ok? {
      var id := Trim(m.assignment);
      assert id in db.assignments && db.assignments[id].active;
    }
  }

  lemma AssignAssignments(db: Database, m: Mutation, organisation: string)
    requires IsArchived(db, organisation) && m.MAssignProduct?
    ensures AssignmentsRemembered(db, Step(db, m)) && SameAssignments(db, Step(db, m), organisation)
  {
    hide WellFormed, AppendAll, Trim, Current, HasAssignment;
  }

  lemma OthersLeaveAssignments(db: Database, m: Mutation)
    requires !m.MRevokeAssignment? && !m.MAssignProduct?
    ensures Step(db, m).assignments == db.assignments
  {
    if OrganisationMutation(m) || WorkspaceMutation(m) {
      MembershipsLeaveAssignments(db, m);
    } else {
      hide WellFormed, AppendAll, Trim, Current, AuthoriseOrganisation, HasEntitlement, CreateOrganisation, AddOrganisationMember,
        ChangeOrganisationRole, DeactivateOrganisationMember, ArchiveOrganisation, CreateWorkspace, AddWorkspaceMember, ChangeWorkspaceRole,
        DeactivateWorkspaceMember, ArchiveWorkspace;
    }
  }

  lemma MembershipsLeaveAssignments(db: Database, m: Mutation)
    requires OrganisationMutation(m) || WorkspaceMutation(m)
    ensures Step(db, m).assignments == db.assignments
  {
    hide WellFormed, AppendAll, Trim, Current, AuthoriseOrganisation, AuthoriseWorkspace, MutableMembership, MutableWorkspaceMembership,
      WorkspaceTarget, RemovalEvents, RetireScope, Retire, ListsActive;
  }

  lemma EndedStays(db: Database, mid: Database, next: Database, organisation: string)
    requires AssignmentsRemembered(db, mid) && AssignmentsRemembered(mid, next)
    ensures AssignmentsRemembered(db, next)
    ensures SomeEnded(db, mid, organisation) ==> SomeEnded(db, next, organisation)
    ensures SameAssignments(db, mid, organisation) && SomeEnded(mid, next, organisation) ==> SomeEnded(db, next, organisation)
    ensures SameAssignments(db, mid, organisation) && SameAssignments(mid, next, organisation) ==> SameAssignments(db, next, organisation)
  {
  }

  lemma {:induction false} RunAssignments(db: Database, ms: seq<Mutation>, organisation: string)
    requires IsArchived(db, organisation)
    ensures AssignmentsRemembered(db, Run(db, ms))
    ensures !NoStrays(db, ms, organisation) ==> SomeEnded(db, Run(db, ms), organisation)
    ensures NoStrays(db, ms, organisation) ==> SameAssignments(db, Run(db, ms), organisation)
    decreases |ms|
  {
    hide Step, AssignmentsRemembered, SomeEnded, SameAssignments, SameRows, SameWorkspaces, SameEntitlements, StrayRevocation;
    if ms == [] {
      AssignmentsRefl(db, organisation);
    } else {
      var mid := Step(db, ms[0]);
      StepAtRest(db, ms[0], organisation);
      StepAssignments(db, ms[0], organisation);
      RunAssignments(mid, ms[1..], organisation);
      EndedStays(db, mid, Run(db, ms), organisation);
    }
  }

  lemma AssignmentsRefl(db: Database, organisation: string)
    ensures AssignmentsRemembered(db, db) && SameAssignments(db, db, organisation)
  {
  }

  lemma EndedDiffers(db: Database, next: Database, organisation: string)
    requires SomeEnded(db, next, organisation)
    ensures !SameAssignments(db, next, organisation)
  {
  }

  /** Archiving is final: whatever runs afterwards, an archived organisation keeps no active member, and its row, members,
      workspaces, workspace members and entitlements do not change. Neither do its assignments, if and only if the run holds no
      revocation under another organisation's id that trims to its own. */
  lemma ArchivedForever(db: Database, ms: seq<Mutation>, organisation: string)
    requires Inv(db) && IsArchived(db, organisation)
    ensures AtRest(db, Run(db, ms), organisation)
    ensures SameAssignments(db, Run(db, ms), organisation) <==> NoStrays(db, ms, organisation)
    ensures forall id :: id in Run(db, ms).members && Run(db, ms).members[id].scope == organisation ==> !Run(db, ms).members[id].active
  {
    hide Inv, Run, NoStrays, SomeEnded, SameAssignments, AssignmentsRemembered, SameRows, SameWorkspaces, SameEntitlements;
    RunAtRest(db, ms, organisation);
    RunAssignments(db, ms, organisation);
    if SomeEnded(db, Run(db, ms), organisation) { EndedDiffers(db, Run(db, ms), organisation); }
    RunKeeps(db, ms);
    NoActiveMember(Run(db, ms), organisation);
  }

  lemma {:induction false} RunAtRest(db: Database, ms: seq<Mutation>, organisation: string)
    requires IsArchived(db, organisation)
    ensures AtRest(db, Run(db, ms), organisation)
    decreases |ms|
  {
    hide Step, SameRows, SameWorkspaces, SameEntitlements;
    if ms == [] {
      AtRestRefl(db, organisation);
    } else {
      StepAtRest(db, ms[0], organisation);
      RunAtRest(Step(db, ms[0]), ms[1..], organisation);
      AtRestTrans(db, Step(db, ms[0]), Run(db, ms), organisation);
    }
  }

  /** One step leaves an archived organisation as it was if and only if it is no such revocation. */
  lemma StepFrozenIff(db: Database, m: Mutation, organisation: string)
    requires IsArchived(db, organisation)
    ensures Frozen(db, Step(db, m), organisation) <==> !StrayRevocation(db, m, organisation)
  {
    hide Step, SomeEnded, SameAssignments, AtRest;
    StepAtRest(db, m, organisation);
    StepAssignments(db, m, organisation);
    if SomeEnded(db, Step(db, m), organisation) { EndedDiffers(db, Step(db, m), organisation); }
  }

  /** Where ids carry no surrounding whitespace there are no such revocations, and archived organisations are frozen for good. */
  lemma {:induction false} CanonicalRunsFreeze(db: Database, ms: seq<Mutation>, organisation: string)
    requires CanonicalIds(db) && forall i :: 0 <= i < |ms| ==> Canonical(ms[i])
    ensures NoStrays(db, ms, organisation)
    decreases |ms|
  {
    hide CanonicalIds, Canonical, Apply, Trim;
    if ms != [] {
      NoStrayHere(db, ms[0], organisation);
      ApplyCanonicalIds(db, ms[0]);
      CanonicalRunsFreeze(Step(db, ms[0]), ms[1..], organisation);
    }
  }

  lemma NoStrayHere(db: Database, m: Mutation, organisation: string)
    requires CanonicalIds(db)
    ensures !StrayRevocation(db, m, organisation)
  {
    hide Trim, WellFormed, AppendAll, Current;
  }

  lemma NoActiveMember(db: Database, organisation: string)
    requires Inv(db) && IsArchived(db, organisation)
    ensures forall id :: id in db.members && db.members[id].scope == organisation ==> !db.members[id].active
  {
    hide AccessRows, Gapless, OneCurrent;
  }
}
