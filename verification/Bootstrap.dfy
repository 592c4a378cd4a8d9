/** What a consumer can rebuild: canonical facts from a snapshot, kept up to date by folding outbox events.
    (platform_read_authority.go, events.go, internal/events/event.go) */
module Bootstrap {
  import opened Prelude
  import opened Events
  import opened Tables
  import opened Mutations
  import opened Runs
  import opened Integrity

  /** The entity kinds in canonical record order. */
  datatype Kind =
    | UserKind | OrganisationKind | OrganisationMembershipKind | WorkspaceKind
    | WorkspaceMembershipKind | ProductKind | EntitlementKind | AssignmentKind

  datatype Key = Key(kind: Kind, id: string)

  datatype Status = Active | Archived | Revoked | Retired

  /** A shared projection record without its name and provenance; unused relations are empty. */
  datatype Record = Record(status: Status, user: string, organisation: string, workspace: string, product: string, role: Role)

  type Facts = map<Key, Record>

  function UserRecord(active: bool): Record {
    Record(if active then Active else Archived, "", "", "", "", NoRole)
  }

  function OrganisationRecord(active: bool): Record {
    Record(if active then Active else Archived, "", "", "", "", NoRole)
  }

  function WorkspaceRecord(organisation: string, active: bool): Record {
    Record(if active then Active else Archived, "", organisation, "", "", NoRole)
  }

  function ProductRecord(active: bool): Record {
    Record(if active then Active else Retired, "", "", "", "", NoRole)
  }

  function MembershipRecord(kind: ScopeKind, scope: string, user: string, role: Role, active: bool): Record {
    Record(if active then Active else Revoked, user,
           if kind.OrganisationScope? then scope else "", if kind.WorkspaceScope? then scope else "", "", role)
  }

  function EntitlementRecord(organisation: string, product: string, active: bool): Record {
    Record(if active then Active else Revoked, "", organisation, "", product, NoRole)
  }

  function AssignmentRecord(user: string, organisation: string, product: string, active: bool): Record {
    Record(if active then Active else Revoked, user, organisation, "", product, NoRole)
  }

  function MembershipKey(kind: ScopeKind, id: string): Key {
    Key(if kind.OrganisationScope? then OrganisationMembershipKind else WorkspaceMembershipKind, id)
  }

  function MembershipRow(kind: ScopeKind, row: Membership): Record {
    MembershipRecord(kind, row.scope, row.user, row.role, row.active)
  }

  /** The canonical fact the tables hold under a key. */
  function RecordAt(db: Database, k: Key): Option<Record> {
    match k.kind
    case UserKind => if k.id in db.users then Some(UserRecord(db.users[k.id])) else None
    case OrganisationKind => if k.id in db.organisations then Some(OrganisationRecord(db.organisations[k.id].active)) else None
    case OrganisationMembershipKind => if k.id in db.members then Some(MembershipRow(OrganisationScope, db.members[k.id])) else None
    case WorkspaceKind =>
      if k.id in db.workspaces then Some(WorkspaceRecord(db.workspaces[k.id].organisation, db.workspaces[k.id].active)) else None
    case WorkspaceMembershipKind =>
      if k.id in db.workspaceMembers then Some(MembershipRow(WorkspaceScope, db.workspaceMembers[k.id])) else None
    case ProductKind => if k.id in db.products then Some(ProductRecord(db.products[k.id])) else None
    case EntitlementKind =>
      if k.id in db.entitlements then
        var e := db.entitlements[k.id];
        Some(EntitlementRecord(e.organisation, e.product, e.active))
      else None
    case AssignmentKind =>
      if k.id in db.assignments then
        var a := db.assignments[k.id];
        Some(AssignmentRecord(a.user, a.organisation, a.product, a.active))
      else None
  }

  function Lookup(f: Facts, k: Key): Option<Record> {
    if k in f then Some(f[k]) else None
  }

  /** The consumer's facts are exactly the canonical ones. */
  ghost predicate Mirrors(f: Facts, db: Database) {
    forall k :: Lookup(f, k) == RecordAt(db, k)
  }

  /** Two mirrors of the same tables are the same facts. */
  lemma MirrorsUnique(f: Facts, g: Facts, db: Database)
    requires Mirrors(f, db) && Mirrors(g, db)
    ensures f == g
  {
    assert forall k :: Lookup(f, k) == Lookup(g, k);
    assert forall k :: k in f <==> Lookup(f, k).Some?;
    assert forall k :: k in g <==> Lookup(g, k).Some?;
    assert forall k :: k in f ==> f[k] == Lookup(f, k).value;
    assert forall k :: k in g ==> g[k] == Lookup(g, k).value;
  }

  /** A role change names only the new row: any other current row of the (scope, user) is superseded. */
  function Supersede(f: Facts, kind: ScopeKind, scope: string, user: string): Facts {
    map k | k in f ::
      if k.kind == MembershipKey(kind, "").kind && f[k].user == user
         && (if kind.OrganisationScope? then f[k].organisation else f[k].workspace) == scope
      then f[k].(status := Revoked)
      else f[k]
  }

  /** How a consumer applies one event. Entitlements and assignments must be keyed on the event's aggregate id, which is the
      trimmed id: a revocation's payload carries the id as given. */
  function Fold(f: Facts, e: Event): Facts {
    match e
    case UserCreated(u, a) => f[Key(UserKind, u) := UserRecord(a)]
    case UserStatusChanged(u, a) => f[Key(UserKind, u) := UserRecord(a)]
    case OrganisationCreated(o) => f[Key(OrganisationKind, o) := OrganisationRecord(true)]
    case OrganisationMembershipAdded(o, m, u, r) =>
      f[MembershipKey(OrganisationScope, m) := MembershipRecord(OrganisationScope, o, u, r, true)]
    case OrganisationRoleChanged(o, m, u, r) =>
      Supersede(f, OrganisationScope, o, u)[MembershipKey(OrganisationScope, m) := MembershipRecord(OrganisationScope, o, u, r, true)]
    case OrganisationMembershipRemoved(o, m, u, r) =>
      f[MembershipKey(OrganisationScope, m) := MembershipRecord(OrganisationScope, o, u, r, false)]
    case OrganisationArchived(o) => f[Key(OrganisationKind, o) := OrganisationRecord(false)]
    case OrganisationRenamed(_, _) => f
    case WorkspaceCreated(w, o) => f[Key(WorkspaceKind, w) := WorkspaceRecord(o, true)]
    case WorkspaceMembershipAdded(w, m, u, r) =>
      f[MembershipKey(WorkspaceScope, m) := MembershipRecord(WorkspaceScope, w, u, r, true)]
    case WorkspaceRoleChanged(w, m, u, r) =>
      Supersede(f, WorkspaceScope, w, u)[MembershipKey(WorkspaceScope, m) := MembershipRecord(WorkspaceScope, w, u, r, true)]
    case WorkspaceMembershipRemoved(w, m, u, r) =>
      f[MembershipKey(WorkspaceScope, m) := MembershipRecord(WorkspaceScope, w, u, r, false)]
    case WorkspaceArchived(w) =>
      var k := Key(WorkspaceKind, w);
      if k in f then f[k := f[k].(status := Archived)] else f
    case ProductRetired(p) => f[Key(ProductKind, p) := ProductRecord(false)]
    case EntitlementGranted(id, o, p) => f[Key(EntitlementKind, Trim(id)) := EntitlementRecord(o, p, true)]
    case EntitlementRevoked(id, o, p) => f[Key(EntitlementKind, Trim(id)) := EntitlementRecord(o, p, false)]
    case AssignmentGranted(id, o, u, p) => f[Key(AssignmentKind, Trim(id)) := AssignmentRecord(u, o, p, true)]
    case AssignmentRevoked(id, o, u, p) => f[Key(AssignmentKind, Trim(id)) := AssignmentRecord(u, o, p, false)]
  }

  function FoldAll(f: Facts, es: seq<Event>): Facts
    decreases |es|
  {
    if es == [] then f else FoldAll(Fold(f, es[0]), es[1..])
  }

  lemma {:induction false} FoldAllConcat(f: Facts, xs: seq<Event>, ys: seq<Event>)
    ensures FoldAll(f, xs + ys) == FoldAll(FoldAll(f, xs), ys)
    decreases |xs|
  {
    hide Fold;
    if xs == [] {
      assert xs + ys == ys;
    } else {
      assert (xs + ys)[1..] == xs[1..] + ys;
      FoldAllConcat(Fold(f, xs[0]), xs[1..], ys);
    }
  }

  lemma FoldOne(f: Facts, e: Event)
    ensures FoldAll(f, [e]) == Fold(f, e)
  {
    hide Fold;
    assert [e][1..] == [];
  }

  lemma FoldTwo(f: Facts, e: Event, d: Event)
    ensures FoldAll(f, [e, d]) == Fold(Fold(f, e), d)
  {
    hide Fold;
    assert [e, d][1..] == [d];
    FoldOne(Fold(f, e), d);
  }

  /** Writing one record follows a table change that touches one key. */
  lemma Upsert(f: Facts, db: Database, next: Database, k: Key, r: Record)
    requires Mirrors(f, db)
    requires RecordAt(next, k) == Some(r)
    requires forall j :: j != k ==> RecordAt(next, j) == RecordAt(db, j)
    ensures Mirrors(f[k := r], next)
  {
    hide RecordAt;
    forall j
      ensures Lookup(f[k := r], j) == RecordAt(next, j)
    {
      assert Lookup(f, j) == RecordAt(db, j);
    }
  }

  function Members(db: Database, kind: ScopeKind): Memberships {
    match kind
    case OrganisationScope => db.members
    case WorkspaceScope => db.workspaceMembers
  }

  function WithMembers(db: Database, kind: ScopeKind, t: Memberships): Database {
    match kind
    case OrganisationScope => db.(members := t)
    case WorkspaceScope => db.(workspaceMembers := t)
  }

  lemma MemberWritten(f: Facts, db: Database, kind: ScopeKind, id: string, row: Membership)
    requires Mirrors(f, db)
    ensures Mirrors(f[MembershipKey(kind, id) := MembershipRow(kind, row)], WithMembers(db, kind, Members(db, kind)[id := row]))
  {
    hide Mirrors, Lookup;
    Upsert(f, db, WithMembers(db, kind, Members(db, kind)[id := row]), MembershipKey(kind, id), MembershipRow(kind, row));
  }

  /** Retiring the one current row and folding the supersession agree. */
  lemma Superseded(f: Facts, db: Database, kind: ScopeKind, scope: string, user: string, id: string)
    requires Mirrors(f, db) && OneCurrent(Members(db, kind))
    requires IsCurrent(Members(db, kind), id, scope, user)
    ensures Mirrors(Supersede(f, kind, scope, user), WithMembers(db, kind, Retire(Members(db, kind), id)))
  {
    var next := WithMembers(db, kind, Retire(Members(db, kind), id));
    forall k
      ensures Lookup(Supersede(f, kind, scope, user), k) == RecordAt(next, k)
    {
      assert Lookup(f, k) == RecordAt(db, k);
      if k.kind == MembershipKey(kind, "").kind && k.id in Members(db, kind) {
        assert k == MembershipKey(kind, k.id);
        SupersededRow(Members(db, kind), kind, scope, user, id, k.id);
      }
    }
  }

  lemma SupersededRow(t: Memberships, kind: ScopeKind, scope: string, user: string, id: string, j: string)
    requires OneCurrent(t) && IsCurrent(t, id, scope, user) && j in t
    ensures MembershipRow(kind, Retire(t, id)[j]) ==
            if t[j].scope == scope && t[j].user == user then MembershipRow(kind, t[j]).(status := Revoked) else MembershipRow(kind, t[j])
  {
  }

  /** The events appended between two states of the same database. */
  function NewEvents(db: Database, next: Database): seq<Event>
    requires Payloads(db.outbox) <= Payloads(next.outbox)
  {
    Payloads(next.outbox)[|Payloads(db.outbox)|..]
  }

  /** `f`, kept up to date by the events appended since, mirrors the later tables. */
  ghost predicate Followed(f: Facts, db: Database, next: Database) {
    && Payloads(db.outbox) <= Payloads(next.outbox)
    && Mirrors(FoldAll(f, NewEvents(db, next)), next)
  }

  ghost predicate Follows(f: Facts, db: Database, r: Outcome) {
    r.Ok? ==> Followed(f, db, r.value)
  }

  lemma Committed(f: Facts, db: Database, staged: Database, es: seq<Event>)
    requires Gapless(db.outbox) && staged.outbox == db.outbox
    requires Mirrors(FoldAll(f, es), staged)
    ensures Follows(f, db, Commit(staged, es))
  {
    hide FoldAll, Commit, Gapless, Payloads;
    CommitShape(staged, es);
    if Commit(staged, es).Ok? {
      var next := Commit(staged, es).value;
      assert NewEvents(db, next) == es;
      forall k
        ensures Lookup(FoldAll(f, es), k) == RecordAt(next, k)
      {
        assert RecordAt(next, k) == RecordAt(staged, k);
      }
    }
  }

  lemma CommittedOne(f: Facts, db: Database, staged: Database, e: Event)
    requires Gapless(db.outbox) && staged.outbox == db.outbox
    requires Mirrors(Fold(f, e), staged)
    ensures Follows(f, db, Commit(staged, [e]))
  {
    FoldOne(f, e);
    Committed(f, db, staged, [e]);
  }

  lemma CommittedTwo(f: Facts, db: Database, staged: Database, e: Event, d: Event)
    requires Gapless(db.outbox) && staged.outbox == db.outbox
    requires Mirrors(Fold(Fold(f, e), d), staged)
    ensures Follows(f, db, Commit(staged, [e, d]))
  {
    FoldTwo(f, e, d);
    Committed(f, db, staged, [e, d]);
  }

  // ----- each mutation's events describe its change -----

  lemma UserWritten(f: Facts, db: Database, user: string, active: bool)
    requires Mirrors(f, db)
    ensures Mirrors(f[Key(UserKind, user) := UserRecord(active)], db.(users := db.users[user := active]))
  {
    hide Mirrors, Lookup;
    Upsert(f, db, db.(users := db.users[user := active]), Key(UserKind, user), UserRecord(active));
  }

  lemma CreateUserFollows(f: Facts, db: Database, user: string, active: bool)
    requires Mirrors(f, db) && Gapless(db.outbox)
    ensures Follows(f, db, CreateUser(db, user, active))
  {
    hide Mirrors, Commit, Followed, Gapless;
    UserWritten(f, db, user, active);
    CommittedOne(f, db, db.(users := db.users[user := active]), UserCreated(user, active));
  }

  lemma NothingFollows(f: Facts, db: Database)
    requires Mirrors(f, db)
    ensures Followed(f, db, db)
  {
    hide Mirrors;
    assert NewEvents(db, db) == [];
  }

  lemma SetUserActiveFollows(f: Facts, db: Database, user: string, active: bool)
    requires Mirrors(f, db) && Gapless(db.outbox)
    ensures Follows(f, db, SetUserActive(db, user, active))
  {
    hide Mirrors, Commit, Followed, Gapless;
    var id := Trim(user);
    NothingFollows(f, db);
    UserWritten(f, db, id, active);
    CommittedOne(f, db, db.(users := db.users[id := active]), UserStatusChanged(id, active));
  }

  lemma OrganisationWritten(f: Facts, db: Database, organisation: string, row: Organisation)
    requires Mirrors(f, db)
    ensures Mirrors(f[Key(OrganisationKind, organisation) := OrganisationRecord(row.active)],
                    db.(organisations := db.organisations[organisation := row]))
  {
    hide Mirrors, Lookup;
    Upsert(f, db, db.(organisations := db.organisations[organisation := row]),
           Key(OrganisationKind, organisation), OrganisationRecord(row.active));
  }

  lemma CreateOrganisationFollows(f: Facts, db: Database, actor: string, organisation: string, name: string, membership: string)
    requires Mirrors(f, db) && Gapless(db.outbox) && Trim(actor) == actor
    ensures Follows(f, db, CreateOrganisation(db, actor, organisation, name, membership))
  {
    hide Mirrors, Commit, Followed, Gapless, Trim;
    if CreateOrganisation(db, actor, organisation, name, membership).Ok? {
      var founded := db.(organisations := db.organisations[organisation := Organisation(Trim(name), true)]);
      var row := Membership(organisation, actor, Owner, true, 1);
      var created, added := OrganisationCreated(organisation), OrganisationMembershipAdded(organisation, membership, actor, Owner);
      OrganisationWritten(f, db, organisation, Organisation(Trim(name), true));
      MemberWritten(Fold(f, created), founded, OrganisationScope, membership, row);
      CommittedTwo(f, db, founded.(members := db.members[membership := row]), created, added);
    }
  }

  lemma AddOrganisationMemberFollows(f: Facts, db: Database, actor: string, organisation: string, target: string, role: Role,
                                     membership: string)
    requires Mirrors(f, db) && Gapless(db.outbox) && Trim(target) == target
    ensures Follows(f, db, AddOrganisationMember(db, actor, organisation, target, role, membership))
  {
    hide Mirrors, Commit, Followed, Gapless, Trim, AuthoriseOrganisation;
    if AddOrganisationMember(db, actor, organisation, target, role, membership).Ok? {
      var row := Membership(organisation, target, role, true, 1);
      MemberWritten(f, db, OrganisationScope, membership, row);
      CommittedOne(f, db, db.(members := db.members[membership := row]), OrganisationMembershipAdded(organisation, membership, target, role));
    }
  }

  lemma ChangeOrganisationRoleFollows(f: Facts, db: Database, actor: string, organisation: string, target: string, role: Role,
                                      expected: Option<int>, membership: string)
    requires Mirrors(f, db) && Gapless(db.outbox) && OneCurrent(db.members) && (target in db.users ==> Trim(target) == target)
    ensures Follows(f, db, ChangeOrganisationRole(db, actor, organisation, target, role, expected, membership))
  {
    hide Mirrors, Commit, Followed, Gapless, Trim, AuthoriseOrganisation, OneCurrent, Supersede;
    if ChangeOrganisationRole(db, actor, organisation, target, role, expected, membership).Ok? {
      var current := MutableMembership(db, AuthoriseOrganisation(db, actor, organisation).value, organisation, target, expected).value;
      var retired := db.(members := Retire(db.members, current));
      var row := Membership(organisation, target, role, true, db.members[current].version + 1);
      Superseded(f, db, OrganisationScope, organisation, target, current);
      MemberWritten(Supersede(f, OrganisationScope, organisation, target), retired, OrganisationScope, membership, row);
      CommittedOne(f, db, retired.(members := retired.members[membership := row]),
                   OrganisationRoleChanged(organisation, membership, target, role));
    }
  }

  lemma DeactivateOrganisationMemberFollows(f: Facts, db: Database, actor: string, organisation: string, target: string, expected: Option<int>)
    requires Mirrors(f, db) && Gapless(db.outbox)
    ensures Follows(f, db, DeactivateOrganisationMember(db, actor, organisation, target, expected))
  {
    hide Mirrors, Commit, Followed, Gapless, AuthoriseOrganisation;
    if DeactivateOrganisationMember(db, actor, organisation, target, expected).Ok? {
      var current := MutableMembership(db, AuthoriseOrganisation(db, actor, organisation).value, organisation, target, expected).value;
      MemberWritten(f, db, OrganisationScope, current, db.members[current].(active := false));
      CommittedOne(f, db, db.(members := Retire(db.members, current)),
                   OrganisationMembershipRemoved(organisation, current, target, db.members[current].role));
    }
  }

  // ----- archives: one removal event per active row -----

  function RetireList(t: Memberships, rows: seq<string>): Memberships
    requires forall i :: 0 <= i < |rows| ==> rows[i] in t
    decreases |rows|
  {
    if rows == [] then t else RetireList(Retire(t, rows[0]), rows[1..])
  }

  lemma {:induction false} RetireListShape(t: Memberships, rows: seq<string>)
    requires forall i :: 0 <= i < |rows| ==> rows[i] in t
    ensures RetireList(t, rows).Keys == t.Keys
    ensures forall id :: id in t ==> RetireList(t, rows)[id] == if id in rows then t[id].(active := false) else t[id]
    decreases |rows|
  {
    if rows != [] {
      RetireListShape(Retire(t, rows[0]), rows[1..]);
    }
  }

  lemma RetireListIsScope(t: Memberships, scope: string, rows: seq<string>)
    requires ListsActive(rows, t, scope)
    ensures RetireList(t, rows) == RetireScope(t, scope)
  {
    RetireListShape(t, rows);
  }

  lemma {:induction false} RemovalEventsFrame(kind: ScopeKind, t: Memberships, u: Memberships, scope: string, rows: seq<string>)
    requires forall i :: 0 <= i < |rows| ==> rows[i] in t && rows[i] in u && t[rows[i]].user == u[rows[i]].user && t[rows[i]].role == u[rows[i]].role
    ensures RemovalEvents(kind, t, scope, rows) == RemovalEvents(kind, u, scope, rows)
  {
    if rows != [] {
      RemovalEventsFrame(kind, t, u, scope, rows[1..]);
    }
  }

  lemma {:induction false} RemovalsFold(f: Facts, db: Database, kind: ScopeKind, scope: string, rows: seq<string>)
    requires Mirrors(f, db)
    requires forall i :: 0 <= i < |rows| ==> rows[i] in Members(db, kind) && Members(db, kind)[rows[i]].scope == scope
    ensures Mirrors(FoldAll(f, RemovalEvents(kind, Members(db, kind), scope, rows)), WithMembers(db, kind, RetireList(Members(db, kind), rows)))
    decreases |rows|
  {
    hide Mirrors;
    var t := Members(db, kind);
    if rows != [] {
      var row := t[rows[0]];
      var e := RemovalEvent(kind, scope, rows[0], row.user, row.role);
      var retired := WithMembers(db, kind, Retire(t, rows[0]));
      MemberWritten(f, db, kind, rows[0], row.(active := false));
      RemovalsFold(Fold(f, e), retired, kind, scope, rows[1..]);
      RemovalEventsFrame(kind, t, Retire(t, rows[0]), scope, rows[1..]);
      assert RemovalEvents(kind, t, scope, rows)[1..] == RemovalEvents(kind, t, scope, rows[1..]);
    }
  }

  lemma ArchiveOrganisationFollows(f: Facts, db: Database, actor: string, organisation: string, rows: seq<string>)
    requires Mirrors(f, db) && Gapless(db.outbox) && ListsActive(rows, db.members, organisation)
    ensures Follows(f, db, ArchiveOrganisation(db, actor, organisation, rows))
  {
    hide Mirrors, Commit, Followed, Gapless, FoldAll, RetireList, RetireScope, RemovalEvents;
    if ArchiveOrganisation(db, actor, organisation, rows).Ok? {
      var removals := RemovalEvents(OrganisationScope, db.members, organisation, rows);
      var closed := OrganisationArchived(organisation);
      var retired := db.(members := RetireScope(db.members, organisation));
      var row := db.organisations[organisation].(active := false);
      RemovalsFold(f, db, OrganisationScope, organisation, rows);
      RetireListIsScope(db.members, organisation, rows);
      OrganisationWritten(FoldAll(f, removals), retired, organisation, row);
      FoldAllConcat(f, removals, [closed]);
      FoldOne(FoldAll(f, removals), closed);
      Committed(f, db, retired.(organisations := db.organisations[organisation := row]), removals + [closed]);
    }
  }

  lemma RenameOrganisationFollows(f: Facts, db: Database, actor: string, organisation: string, name: string)
    requires Mirrors(f, db) && Gapless(db.outbox)
    ensures Follows(f, db, RenameOrganisation(db, actor, organisation, name))
  {
    hide Mirrors, Commit, Followed, Gapless, Trim, Current;
    if RenameOrganisation(db, actor, organisation, name).Ok? {
      var renamed := db.(organisations := db.organisations[organisation := Organisation(Trim(name), true)]);
      RenamedFacts(f, db, organisation, Trim(name));
      CommittedOne(f, db, renamed, OrganisationRenamed(organisation, Trim(name)));
    }
  }

  lemma RenamedFacts(f: Facts, db: Database, organisation: string, name: string)
    requires Mirrors(f, db) && organisation in db.organisations && db.organisations[organisation].active
    ensures Mirrors(f, db.(organisations := db.organisations[organisation := Organisation(name, true)]))
  {
    hide Mirrors;
    SameFacts(f, db, db.(organisations := db.organisations[organisation := Organisation(name, true)]));
  }

  lemma SameFacts(f: Facts, db: Database, next: Database)
    requires Mirrors(f, db)
    requires forall k :: RecordAt(next, k) == RecordAt(db, k)
    ensures Mirrors(f, next)
  {
    hide RecordAt;
  }

  // ----- workspaces -----

  lemma WorkspaceWritten(f: Facts, db: Database, workspace: string, row: Workspace)
    requires Mirrors(f, db)
    ensures Mirrors(f[Key(WorkspaceKind, workspace) := WorkspaceRecord(row.organisation, row.active)],
                    db.(workspaces := db.workspaces[workspace := row]))
  {
    hide Mirrors, Lookup;
    Upsert(f, db, db.(workspaces := db.workspaces[workspace := row]),
           Key(WorkspaceKind, workspace), WorkspaceRecord(row.organisation, row.active));
  }

  lemma CreateWorkspaceFollows(f: Facts, db: Database, actor: string, organisation: string, workspace: string, name: string,
                               membership: string)
    requires Mirrors(f, db) && Gapless(db.outbox)
    ensures Follows(f, db, CreateWorkspace(db, actor, organisation, workspace, name, membership))
  {
    hide Mirrors, Commit, Followed, Gapless, AuthoriseOrganisation, Trim;
    if CreateWorkspace(db, actor, organisation, workspace, name, membership).Ok? {
      var founded := db.(workspaces := db.workspaces[workspace := Workspace(organisation, true)]);
      var row := Membership(workspace, actor, Admin, true, 1);
      var created, added := WorkspaceCreated(workspace, organisation), WorkspaceMembershipAdded(workspace, membership, actor, Admin);
      WorkspaceWritten(f, db, workspace, Workspace(organisation, true));
      MemberWritten(Fold(f, created), founded, WorkspaceScope, membership, row);
      CommittedTwo(f, db, founded.(workspaceMembers := db.workspaceMembers[membership := row]), created, added);
    }
  }

  lemma AddWorkspaceMemberFollows(f: Facts, db: Database, actor: string, workspace: string, target: string, role: Role, membership: string)
    requires Mirrors(f, db) && Gapless(db.outbox)
    ensures Follows(f, db, AddWorkspaceMember(db, actor, workspace, target, role, membership))
  {
    hide Mirrors, Commit, Followed, Gapless, AuthoriseWorkspace, WorkspaceTarget;
    if AddWorkspaceMember(db, actor, workspace, target, role, membership).Ok? {
      var row := Membership(workspace, target, role, true, 1);
      MemberWritten(f, db, WorkspaceScope, membership, row);
      CommittedOne(f, db, db.(workspaceMembers := db.workspaceMembers[membership := row]),
                   WorkspaceMembershipAdded(workspace, membership, target, role));
    }
  }

  lemma ChangeWorkspaceRoleFollows(f: Facts, db: Database, actor: string, workspace: string, target: string, role: Role,
                                   expected: Option<int>, membership: string)
    requires Mirrors(f, db) && Gapless(db.outbox) && OneCurrent(db.workspaceMembers)
    ensures Follows(f, db, ChangeWorkspaceRole(db, actor, workspace, target, role, expected, membership))
  {
    hide Mirrors, Commit, Followed, Gapless, AuthoriseWorkspace, WorkspaceTarget, OneCurrent, Supersede;
    if ChangeWorkspaceRole(db, actor, workspace, target, role, expected, membership).Ok? {
      var current := MutableWorkspaceMembership(db, actor, workspace, target, expected).value;
      var retired := db.(workspaceMembers := Retire(db.workspaceMembers, current));
      var row := Membership(workspace, target, role, true, db.workspaceMembers[current].version + 1);
      Superseded(f, db, WorkspaceScope, workspace, target, current);
      MemberWritten(Supersede(f, WorkspaceScope, workspace, target), retired, WorkspaceScope, membership, row);
      CommittedOne(f, db, retired.(workspaceMembers := retired.workspaceMembers[membership := row]),
                   WorkspaceRoleChanged(workspace, membership, target, role));
    }
  }

  lemma DeactivateWorkspaceMemberFollows(f: Facts, db: Database, actor: string, workspace: string, target: string, expected: Option<int>)
    requires Mirrors(f, db) && Gapless(db.outbox)
    ensures Follows(f, db, DeactivateWorkspaceMember(db, actor, workspace, target, expected))
  {
    hide Mirrors, Commit, Followed, Gapless, AuthoriseWorkspace, WorkspaceTarget;
    if DeactivateWorkspaceMember(db, actor, workspace, target, expected).Ok? {
      var current := MutableWorkspaceMembership(db, actor, workspace, target, expected).value;
      MemberWritten(f, db, WorkspaceScope, current, db.workspaceMembers[current].(active := false));
      CommittedOne(f, db, db.(workspaceMembers := Retire(db.workspaceMembers, current)),
                   WorkspaceMembershipRemoved(workspace, current, target, db.workspaceMembers[current].role));
    }
  }

  lemma WorkspaceClosed(f: Facts, db: Database, workspace: string)
    requires Mirrors(f, db) && workspace in db.workspaces
    ensures Mirrors(Fold(f, WorkspaceArchived(workspace)),
                    db.(workspaces := db.workspaces[workspace := db.workspaces[workspace].(active := false)]))
  {
    var k := Key(WorkspaceKind, workspace);
    assert Lookup(f, k) == RecordAt(db, k);
    hide Mirrors;
    WorkspaceWritten(f, db, workspace, db.workspaces[workspace].(active := false));
  }

  lemma ArchiveWorkspaceFollows(f: Facts, db: Database, actor: string, workspace: string, rows: seq<string>)
    requires Mirrors(f, db) && Gapless(db.outbox) && ListsActive(rows, db.workspaceMembers, workspace)
    ensures Follows(f, db, ArchiveWorkspace(db, actor, workspace, rows))
  {
    hide Mirrors, Commit, Followed, Gapless, FoldAll, RetireList, RetireScope, RemovalEvents, Fold;
    if ArchiveWorkspace(db, actor, workspace, rows).Ok? {
      var removals := RemovalEvents(WorkspaceScope, db.workspaceMembers, workspace, rows);
      var closed := WorkspaceArchived(workspace);
      var retired := db.(workspaceMembers := RetireScope(db.workspaceMembers, workspace));
      RemovalsFold(f, db, WorkspaceScope, workspace, rows);
      RetireListIsScope(db.workspaceMembers, workspace, rows);
      WorkspaceClosed(FoldAll(f, removals), retired, workspace);
      FoldAllConcat(f, removals, [closed]);
      FoldOne(FoldAll(f, removals), closed);
      Committed(f, db, retired.(workspaces := db.workspaces[workspace := db.workspaces[workspace].(active := false)]), removals + [closed]);
    }
  }

  // ----- products and access -----

  lemma RetireProductFollows(f: Facts, db: Database, actor: string, product: string)
    requires Mirrors(f, db) && Gapless(db.outbox)
    ensures Follows(f, db, RetireProduct(db, actor, product))
  {
    hide Mirrors, Lookup, Commit, Followed, Gapless;
    var key := Trim(product);
    var next := db.(products := db.products[key := false]);
    Upsert(f, db, next, Key(ProductKind, key), ProductRecord(false));
    CommittedOne(f, db, next, ProductRetired(key));
  }

  lemma EntitlementWritten(f: Facts, db: Database, id: string, row: Entitlement)
    requires Mirrors(f, db)
    ensures Mirrors(f[Key(EntitlementKind, id) := EntitlementRecord(row.organisation, row.product, row.active)],
                    db.(entitlements := db.entitlements[id := row]))
  {
    hide Mirrors, Lookup;
    Upsert(f, db, db.(entitlements := db.entitlements[id := row]),
           Key(EntitlementKind, id), EntitlementRecord(row.organisation, row.product, row.active));
  }

  lemma AssignmentWritten(f: Facts, db: Database, id: string, row: Assignment)
    requires Mirrors(f, db)
    ensures Mirrors(f[Key(AssignmentKind, id) := AssignmentRecord(row.user, row.organisation, row.product, row.active)],
                    db.(assignments := db.assignments[id := row]))
  {
    hide Mirrors, Lookup;
    Upsert(f, db, db.(assignments := db.assignments[id := row]),
           Key(AssignmentKind, id), AssignmentRecord(row.user, row.organisation, row.product, row.active));
  }

  lemma EntitleOrganisationFollows(f: Facts, db: Database, actor: string, organisation: string, product: string, entitlement: string)
    requires Mirrors(f, db) && Gapless(db.outbox) && Trim(entitlement) == entitlement
    ensures Follows(f, db, EntitleOrganisation(db, actor, organisation, product, entitlement))
  {
    hide Mirrors, Commit, Followed, Gapless, Trim, AuthoriseOrganisation, HasEntitlement;
    var key := Trim(product);
    var row := Entitlement(organisation, key, true);
    EntitlementWritten(f, db, entitlement, row);
    CommittedOne(f, db, db.(entitlements := db.entitlements[entitlement := row]), EntitlementGranted(entitlement, organisation, key));
  }

  lemma RevokeEntitlementFollows(f: Facts, db: Database, actor: string, organisation: string, entitlement: string)
    requires Mirrors(f, db) && Gapless(db.outbox)
    ensures Follows(f, db, RevokeEntitlement(db, actor, organisation, entitlement))
  {
    hide Mirrors, Commit, Followed, Gapless, Trim, AuthoriseOrganisation;
    var id := Trim(entitlement);
    if RevokeEntitlement(db, actor, organisation, entitlement).Ok? {
      var row := db.entitlements[id].(active := false);
      EntitlementWritten(f, db, id, row);
      CommittedOne(f, db, db.(entitlements := db.entitlements[id := row]), EntitlementRevoked(entitlement, organisation, row.product));
    }
  }

  lemma AssignProductFollows(f: Facts, db: Database, actor: string, organisation: string, target: string, product: string, assignment: string)
    requires Mirrors(f, db) && Gapless(db.outbox) && Trim(assignment) == assignment
    ensures Follows(f, db, AssignProduct(db, actor, organisation, target, product, assignment))
  {
    hide Mirrors, Commit, Followed, Gapless, Trim, AuthoriseOrganisation, HasAssignment;
    var user, key := Trim(target), Trim(product);
    var row := Assignment(user, organisation, key, true);
    AssignmentWritten(f, db, assignment, row);
    CommittedOne(f, db, db.(assignments := db.assignments[assignment := row]), AssignmentGranted(assignment, organisation, user, key));
  }

  lemma RevokeAssignmentFollows(f: Facts, db: Database, actor: string, organisation: string, assignment: string)
    requires Mirrors(f, db) && Gapless(db.outbox) && (organisation in db.organisations ==> Trim(organisation) == organisation)
    ensures Follows(f, db, RevokeAssignment(db, actor, organisation, assignment))
  {
    hide Mirrors, Commit, Followed, Gapless, Trim;
    var id := Trim(assignment);
    if RevokeAssignment(db, actor, organisation, assignment).Ok? {
      var row := db.assignments[id].(active := false);
      AssignmentWritten(f, db, id, row);
      CommittedOne(f, db, db.(assignments := db.assignments[id := row]), AssignmentRevoked(assignment, organisation, row.user, row.product));
    }
  }

  // ----- runs -----

  /** Ids the caller chooses, and freshly generated ids, carry no surrounding whitespace. */
  predicate Canonical(m: Mutation) {
    match m
    case MCreateUser(u, _) => Trim(u) == u
    case MCreateOrganisation(a, o, _, _) => Trim(a) == a && Trim(o) == o
    case MAddOrganisationMember(_, _, t, _, _) => Trim(t) == t
    case MEntitleOrganisation(_, _, _, id) => Trim(id) == id
    case MAssignProduct(_, _, _, _, id) => Trim(id) == id
    case _ => true
  }

  ghost predicate CanonicalIds(db: Database) {
    && (forall u :: u in db.users ==> Trim(u) == u)
    && (forall o :: o in db.organisations ==> Trim(o) == o)
  }

  ghost predicate KeepsCanonicalIds(r: Outcome) {
    r.Ok? ==> CanonicalIds(r.value)
  }

  lemma OrganisationCanonicalIds(db: Database, m: Mutation)
    requires CanonicalIds(db) && Canonical(m)
    requires m.MCreateOrganisation? || m.MArchiveOrganisation? || m.MRenameOrganisation?
    ensures KeepsCanonicalIds(Apply(db, m))
  {
    hide ListsActive, WellFormed, AppendAll, RetireScope, RemovalEvents, Trim, Current;
    if Apply(db, m).Ok? {
      var o := m.organisation;
      assert Apply(db, m).value.organisations.Keys == db.organisations.Keys + {o};
    }
  }

  lemma MemberCanonicalIds(db: Database, m: Mutation)
    requires CanonicalIds(db)
    requires m.MAddOrganisationMember? || m.MChangeOrganisationRole? || m.MDeactivateOrganisationMember?
    ensures KeepsCanonicalIds(Apply(db, m))
  {
    hide AuthoriseOrganisation, MutableMembership, WellFormed, AppendAll, Retire, Trim, Current;
  }

  lemma WorkspaceCanonicalIds(db: Database, m: Mutation)
    requires CanonicalIds(db)
    requires m.MCreateWorkspace? || m.MAddWorkspaceMember? || m.MChangeWorkspaceRole? || m.MDeactivateWorkspaceMember? || m.MArchiveWorkspace?
    ensures KeepsCanonicalIds(Apply(db, m))
  {
    hide AuthoriseOrganisation, AuthoriseWorkspace, MutableWorkspaceMembership, WorkspaceTarget, ListsActive, WellFormed, AppendAll,
      Retire, RetireScope, RemovalEvents, Trim, Current;
  }

  lemma AccessCanonicalIds(db: Database, m: Mutation)
    requires CanonicalIds(db)
    requires m.MRetireProduct? || m.MEntitleOrganisation? || m.MRevokeEntitlement? || m.MAssignProduct? || m.MRevokeAssignment?
    ensures KeepsCanonicalIds(Apply(db, m))
  {
    hide AuthoriseOrganisation, WellFormed, AppendAll, Trim, Current, HasEntitlement, HasAssignment;
  }

  lemma ApplyCanonicalIds(db: Database, m: Mutation)
    requires CanonicalIds(db) && Canonical(m)
    ensures KeepsCanonicalIds(Apply(db, m))
  {
    hide CreateOrganisation, AddOrganisationMember, ChangeOrganisationRole, DeactivateOrganisationMember,
      ArchiveOrganisation, RenameOrganisation, CreateWorkspace, AddWorkspaceMember, ChangeWorkspaceRole, DeactivateWorkspaceMember,
      ArchiveWorkspace, RetireProduct, EntitleOrganisation, RevokeEntitlement, AssignProduct, RevokeAssignment,
      ListsActive, WellFormed, AppendAll, Trim;
    match m
    case SetAdmins(_) =>
    case MCreateUser(_, _) =>
    case MSetUserActive(_, _) =>
    case MCreateOrganisation(_, _, _, _) => OrganisationCanonicalIds(db, m);
    case MArchiveOrganisation(_, _, _) => OrganisationCanonicalIds(db, m);
    case MRenameOrganisation(_, _, _) => OrganisationCanonicalIds(db, m);
    case MAddOrganisationMember(_, _, _, _, _) => MemberCanonicalIds(db, m);
    case MChangeOrganisationRole(_, _, _, _, _, _) => MemberCanonicalIds(db, m);
    case MDeactivateOrganisationMember(_, _, _, _) => MemberCanonicalIds(db, m);
    case MCreateWorkspace(_, _, _, _, _) => WorkspaceCanonicalIds(db, m);
    case MAddWorkspaceMember(_, _, _, _, _) => WorkspaceCanonicalIds(db, m);
    case MChangeWorkspaceRole(_, _, _, _, _, _) => WorkspaceCanonicalIds(db, m);
    case MDeactivateWorkspaceMember(_, _, _, _) => WorkspaceCanonicalIds(db, m);
    case MArchiveWorkspace(_, _, _) => WorkspaceCanonicalIds(db, m);
    case _ => AccessCanonicalIds(db, m);
  }

  lemma Ready(db: Database)
    requires Inv(db)
    ensures Gapless(db.outbox) && OneCurrent(db.members) && OneCurrent(db.workspaceMembers)
  {
    hide OneOwner, AccessRows, Gapless, OneCurrent;
  }

  lemma OrganisationsFollow(f: Facts, db: Database, m: Mutation)
    requires Inv(db) && CanonicalIds(db) && Canonical(m) && Mirrors(f, db)
    requires m.MCreateOrganisation? || m.MAddOrganisationMember? || m.MChangeOrganisationRole? || m.MDeactivateOrganisationMember?
             || m.MArchiveOrganisation? || m.MRenameOrganisation?
    ensures Follows(f, db, Apply(db, m))
  {
    hide CreateOrganisation, AddOrganisationMember, ChangeOrganisationRole, DeactivateOrganisationMember, ArchiveOrganisation,
      RenameOrganisation, Inv, Gapless, Mirrors, Followed, Trim, OneCurrent, ListsActive;
    Ready(db);
    match m
    case MCreateOrganisation(a, o, n, id) => CreateOrganisationFollows(f, db, a, o, n, id);
    case MAddOrganisationMember(a, o, t, r, id) => AddOrganisationMemberFollows(f, db, a, o, t, r, id);
    case MChangeOrganisationRole(a, o, t, r, v, id) => ChangeOrganisationRoleFollows(f, db, a, o, t, r, v, id);
    case MDeactivateOrganisationMember(a, o, t, v) => DeactivateOrganisationMemberFollows(f, db, a, o, t, v);
    case MArchiveOrganisation(a, o, rows) =>
      if ListsActive(rows, db.members, o) { ArchiveOrganisationFollows(f, db, a, o, rows); }
    case MRenameOrganisation(a, o, n) => RenameOrganisationFollows(f, db, a, o, n);
  }

  lemma WorkspacesFollow(f: Facts, db: Database, m: Mutation)
    requires Inv(db) && Mirrors(f, db)
    requires m.MCreateWorkspace? || m.MAddWorkspaceMember? || m.MChangeWorkspaceRole? || m.MDeactivateWorkspaceMember? || m.MArchiveWorkspace?
    ensures Follows(f, db, Apply(db, m))
  {
    hide CreateWorkspace, AddWorkspaceMember, ChangeWorkspaceRole, DeactivateWorkspaceMember, ArchiveWorkspace,
      Inv, Gapless, Mirrors, Followed, Trim, OneCurrent, ListsActive;
    Ready(db);
    match m
    case MCreateWorkspace(a, o, w, n, id) => CreateWorkspaceFollows(f, db, a, o, w, n, id);
    case MAddWorkspaceMember(a, w, t, r, id) => AddWorkspaceMemberFollows(f, db, a, w, t, r, id);
    case MChangeWorkspaceRole(a, w, t, r, v, id) => ChangeWorkspaceRoleFollows(f, db, a, w, t, r, v, id);
    case MDeactivateWorkspaceMember(a, w, t, v) => DeactivateWorkspaceMemberFollows(f, db, a, w, t, v);
    case MArchiveWorkspace(a, w, rows) =>
      if ListsActive(rows, db.workspaceMembers, w) { ArchiveWorkspaceFollows(f, db, a, w, rows); }
  }

  lemma ApplyFollows(f: Facts, db: Database, m: Mutation)
    requires Inv(db) && CanonicalIds(db) && Canonical(m) && Mirrors(f, db)
    ensures Follows(f, db, Apply(db, m))
  {
    hide CreateUser, SetUserActive, CreateOrganisation, AddOrganisationMember, ChangeOrganisationRole, DeactivateOrganisationMember,
      ArchiveOrganisation, RenameOrganisation, CreateWorkspace, AddWorkspaceMember, ChangeWorkspaceRole, DeactivateWorkspaceMember,
      ArchiveWorkspace, RetireProduct, EntitleOrganisation, RevokeEntitlement, AssignProduct, RevokeAssignment,
      Inv, Gapless, Mirrors, Followed, Trim, OneCurrent, ListsActive;
    Ready(db);
    match m
    case SetAdmins(admins) => AdminsFollow(f, db, admins);
    case MCreateUser(u, a) => CreateUserFollows(f, db, u, a);
    case MSetUserActive(u, a) => SetUserActiveFollows(f, db, u, a);
    case MRetireProduct(a, p) => RetireProductFollows(f, db, a, p);
    case MEntitleOrganisation(a, o, p, id) => EntitleOrganisationFollows(f, db, a, o, p, id);
    case MRevokeEntitlement(a, o, id) => RevokeEntitlementFollows(f, db, a, o, id);
    case MAssignProduct(a, o, t, p, id) => AssignProductFollows(f, db, a, o, t, p, id);
    case MRevokeAssignment(a, o, id) => RevokeAssignmentFollows(f, db, a, o, id);
    case _ =>
      if m.MCreateWorkspace? || m.MAddWorkspaceMember? || m.MChangeWorkspaceRole? || m.MDeactivateWorkspaceMember? || m.MArchiveWorkspace? {
        WorkspacesFollow(f, db, m);
      } else {
        OrganisationsFollow(f, db, m);
      }
  }

  lemma AdminsFollow(f: Facts, db: Database, admins: set<string>)
    requires Mirrors(f, db)
    ensures Followed(f, db, db.(admins := admins))
  {
    SameFacts(f, db, db.(admins := admins));
    assert NewEvents(db, db.(admins := admins)) == [];
  }

  lemma FollowedStep(f: Facts, db: Database, mid: Database, next: Database)
    requires Followed(f, db, mid) && Followed(FoldAll(f, NewEvents(db, mid)), mid, next)
    ensures Followed(f, db, next)
  {
    hide Mirrors, FoldAll, Payloads;
    FoldAllConcat(f, NewEvents(db, mid), NewEvents(mid, next));
    assert NewEvents(db, mid) + NewEvents(mid, next) == NewEvents(db, next);
  }

  /** Over every run of canonical mutations, folding the events appended since onto the facts at the start gives
      exactly the facts at the end. */
  lemma {:induction false} RunFollows(f: Facts, db: Database, ms: seq<Mutation>)
    requires Inv(db) && CanonicalIds(db) && Mirrors(f, db)
    requires forall i :: 0 <= i < |ms| ==> Canonical(ms[i])
    ensures Followed(f, db, Run(db, ms))
    decreases |ms|
  {
    hide Inv, Mirrors, CanonicalIds, Canonical, Apply, FoldAll;
    if ms == [] {
      NothingFollows(f, db);
    } else {
      var mid := Step(db, ms[0]);
      ApplyKeeps(db, ms[0]);
      ApplyCanonicalIds(db, ms[0]);
      ApplyFollows(f, db, ms[0]);
      NothingFollows(f, db);
      RunFollows(FoldAll(f, NewEvents(db, mid)), mid, ms[1..]);
      FollowedStep(f, db, mid, Run(db, ms));
    }
  }
}
