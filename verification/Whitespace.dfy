/** Where an outbox event and the row it announces disagree: five mutations look a row up by a trimmed id but announce an id as
    given (organisation.go, product.go, product_access.go). For revoking an entitlement that does no harm, since the event is filed
    under the trimmed id; for the other four the bootstrap theorem must assume trimmed ids, and here is exactly why. */
module Whitespace {
  import opened Prelude
  import opened Events
  import opened Tables
  import opened Mutations
  import opened Runs
  import opened Integrity
  import opened Bootstrap
  import opened Lifecycle

  /** A consumer that mirrors the tables, and folds the events of a commit, holds every fact of the new tables. */
  lemma Announced(f: Facts, db: Database, staged: Database, es: seq<Event>, k: Key)
    requires Gapless(db.outbox) && staged.outbox == db.outbox && Commit(staged, es).Ok?
    requires Followed(f, db, Commit(staged, es).value)
    ensures Lookup(FoldAll(f, es), k) == RecordAt(staged, k)
  {
    hide FoldAll, Commit, Gapless, Payloads;
    CommitShape(staged, es);
    var next := Commit(staged, es).value;
    assert NewEvents(db, next) == es;
  }

  /** Adding a member keeps the mirror if and only if the target id was given trimmed. */
  lemma AddFollowsIff(f: Facts, db: Database, actor: string, organisation: string, target: string, role: Role, membership: string)
    requires Mirrors(f, db) && Gapless(db.outbox)
    requires AddOrganisationMember(db, actor, organisation, target, role, membership).Ok?
    ensures Follows(f, db, AddOrganisationMember(db, actor, organisation, target, role, membership)) <==> Trim(target) == target
  {
    hide Mirrors, Commit, Followed, Gapless, Trim, AuthoriseOrganisation;
    var row := Membership(organisation, Trim(target), role, true, 1);
    var staged := db.(members := db.members[membership := row]);
    var e := OrganisationMembershipAdded(organisation, membership, target, role);
    if Trim(target) == target {
      AddOrganisationMemberFollows(f, db, actor, organisation, target, role, membership);
    } else if Followed(f, db, Commit(staged, [e]).value) {
      Announced(f, db, staged, [e], MembershipKey(OrganisationScope, membership));
      FoldOne(f, e);
    }
  }

  /** Creating an organisation keeps the mirror if and only if the actor id was given trimmed. */
  lemma CreateFollowsIff(f: Facts, db: Database, actor: string, organisation: string, name: string, membership: string)
    requires Mirrors(f, db) && Gapless(db.outbox)
    requires CreateOrganisation(db, actor, organisation, name, membership).Ok?
    ensures Follows(f, db, CreateOrganisation(db, actor, organisation, name, membership)) <==> Trim(actor) == actor
  {
    hide Mirrors, Commit, Followed, Gapless, Trim;
    var row := Membership(organisation, Trim(actor), Owner, true, 1);
    var staged := db.(organisations := db.organisations[organisation := Organisation(Trim(name), true)],
                      members := db.members[membership := row]);
    var e, d := OrganisationCreated(organisation), OrganisationMembershipAdded(organisation, membership, actor, Owner);
    if Trim(actor) == actor {
      CreateOrganisationFollows(f, db, actor, organisation, name, membership);
    } else if Followed(f, db, Commit(staged, [e, d]).value) {
      Announced(f, db, staged, [e, d], MembershipKey(OrganisationScope, membership));
      FoldTwo(f, e, d);
    }
  }

  /** Changing a role keeps the mirror if and only if the target id was given trimmed. */
  lemma ChangeFollowsIff(f: Facts, db: Database, actor: string, organisation: string, target: string, role: Role, expected: Option<int>,
                         membership: string)
    requires Mirrors(f, db) && Gapless(db.outbox) && OneCurrent(db.members)
    requires ChangeOrganisationRole(db, actor, organisation, target, role, expected, membership).Ok?
    ensures Follows(f, db, ChangeOrganisationRole(db, actor, organisation, target, role, expected, membership)) <==> Trim(target) == target
  {
    hide Mirrors, Commit, Followed, Gapless, Trim, AuthoriseOrganisation, OneCurrent, Supersede;
    var current := MutableMembership(db, AuthoriseOrganisation(db, actor, organisation).value, organisation, target, expected).value;
    var row := Membership(organisation, Trim(target), role, true, db.members[current].version + 1);
    var staged := db.(members := Retire(db.members, current)[membership := row]);
    var e := OrganisationRoleChanged(organisation, membership, target, role);
    if Trim(target) == target {
      ChangeOrganisationRoleFollows(f, db, actor, organisation, target, role, expected, membership);
    } else if Followed(f, db, Commit(staged, [e]).value) {
      Announced(f, db, staged, [e], MembershipKey(OrganisationScope, membership));
      FoldOne(f, e);
    }
  }

  /** Revoking an assignment keeps the mirror if and only if the organisation id was given trimmed. */
  lemma RevokeFollowsIff(f: Facts, db: Database, actor: string, organisation: string, assignment: string)
    requires Mirrors(f, db) && Gapless(db.outbox)
    requires RevokeAssignment(db, actor, organisation, assignment).Ok?
    ensures Follows(f, db, RevokeAssignment(db, actor, organisation, assignment)) <==> Trim(organisation) == organisation
  {
    hide Mirrors, Commit, Followed, Gapless, Trim, AuthoriseOrganisation;
    var id := Trim(assignment);
    var row := db.assignments[id].(active := false);
    var staged := db.(assignments := db.assignments[id := row]);
    var e := AssignmentRevoked(assignment, organisation, row.user, row.product);
    if Trim(organisation) == organisation {
      RevokeAssignmentFollows(f, db, actor, organisation, assignment);
    } else if Followed(f, db, Commit(staged, [e]).value) {
      Announced(f, db, staged, [e], Key(AssignmentKind, id));
      FoldOne(f, e);
    }
  }

  // ----- an input for each -----

  const OWNED: Database :=
    MIGRATED.(users := map["usr_a" := true, "usr_b" := true],
              organisations := map["org_1" := Organisation("One", true)],
              members := map["omem_1" := Membership("org_1", "usr_a", Owner, true, 1)])

  lemma OwnedInv()
    ensures Inv(OWNED)
  {
    hide Inv;
    MigratedInv();
    StagedUsers(MIGRATED, "usr_a", true);
    var one := MIGRATED.(users := map["usr_a" := true]);
    StagedUsers(one, "usr_b", true);
    var two := MIGRATED.(users := map["usr_a" := true, "usr_b" := true]);
    assert one == MIGRATED.(users := MIGRATED.users["usr_a" := true]) && two == one.(users := one.users["usr_b" := true]);
    StagedFounding(two, "org_1", "One", "omem_1", "usr_a");
  }

  lemma SpacedTarget()
    ensures Trim(" usr_b") == "usr_b" && Trim("usr_b") == "usr_b" && Trim("org_1") == "org_1" && Trim("omem_2") == "omem_2"
  {
    assert TrimLeft(" usr_b") == TrimLeft("usr_b");
  }

  lemma SpacedMemberAdded(target: string)
    requires Trim(target) == "usr_b"
    ensures var r := AddOrganisationMember(OWNED, "usr_a", "org_1", target, Member, "omem_2");
            r.Ok? && "omem_2" in r.value.members && r.value.members["omem_2"].user == "usr_b"
  {
    OwnedInv();
    hide Inv, AppendAll, Trim;
    SpacedTarget();
    CurrentIs(OWNED.members, "org_1", "usr_a", "omem_1");
    assert HasIdPrefix("omem_", "omem_2") && HasIdPrefix("usr_", "usr_b") && HasIdPrefix("org_", "org_1");
  }

  /** The input that breaks the mirror: the owner adds " usr_b" and the store accepts it. */
  lemma SpacedTargetNotFollowed(f: Facts)
    requires Mirrors(f, OWNED)
    ensures Inv(OWNED)
    ensures AddOrganisationMember(OWNED, "usr_a", "org_1", " usr_b", Member, "omem_2").Ok?
    ensures !Follows(f, OWNED, AddOrganisationMember(OWNED, "usr_a", "org_1", " usr_b", Member, "omem_2"))
  {
    OwnedInv();
    SpacedTarget();
    SpacedMemberAdded(" usr_b");
    Ready(OWNED);
    hide Inv, Mirrors, Follows, AddOrganisationMember, Trim;
    AddFollowsIff(f, OWNED, "usr_a", "org_1", " usr_b", Member, "omem_2");
  }

  /** The founder of "org_2" gives " usr_a" as its id and the store accepts it. */
  lemma SpacedActorNotFollowed(f: Facts)
    requires Mirrors(f, OWNED)
    ensures CreateOrganisation(OWNED, " usr_a", "org_2", "Two", "omem_2").Ok?
    ensures !Follows(f, OWNED, CreateOrganisation(OWNED, " usr_a", "org_2", "Two", "omem_2"))
  {
    SpacedIds();
    hide Mirrors, Follows, AppendAll, Trim;
    assert HasIdPrefix("omem_", "omem_2") && HasIdPrefix("usr_", "usr_a") && HasIdPrefix("org_", "org_2");
    CreateFollowsIff(f, OWNED, " usr_a", "org_2", "Two", "omem_2");
  }

  lemma SpacedIds()
    ensures Trim(" usr_a") == "usr_a" == Trim("usr_a") && Trim("org_1") == "org_1" && Trim("org_2") == "org_2" && Trim("omem_2") == "omem_2"
    ensures Trim("Two") == "Two" && Trim("usr_b ") == "usr_b" == Trim("usr_b") && Trim("org_1 ") == "org_1" && Trim("omem_3") == "omem_3"
    ensures Trim("upa_1") == "upa_1" && Trim(CTRL_PRODUCT) == CTRL_PRODUCT
  {
    assert TrimLeft(" usr_a") == TrimLeft("usr_a");
    assert "usr_b "[..5] == "usr_b" && TrimRight("usr_b ") == TrimRight("usr_b");
    assert "org_1 "[..5] == "org_1" && TrimRight("org_1 ") == TrimRight("org_1");
  }

  /** A member row under the padded id "usr_b ", next to a user "usr_b". */
  const PADDED: Database :=
    OWNED.(users := OWNED.users["usr_b " := true],
           members := OWNED.members["omem_2" := Membership("org_1", "usr_b ", Member, true, 1)])

  lemma PaddedInv()
    ensures Inv(PADDED)
  {
    OwnedInv();
    hide Inv;
    StagedUsers(OWNED, "usr_b ", true);
    var wider := OWNED.(users := OWNED.users["usr_b " := true]);
    StagedMember(wider, "omem_2", Membership("org_1", "usr_b ", Member, true, 1));
    assert PADDED == wider.(members := wider.members["omem_2" := Membership("org_1", "usr_b ", Member, true, 1)]);
  }

  /** What it takes for an owner to make a member an administrator. */
  lemma OwnerPromotes(db: Database, actor: string, organisation: string, target: string, membership: string, owner: string, current: string)
    requires OneCurrent(db.members) && organisation in db.organisations && db.organisations[organisation].active
    requires ActiveUser(db, actor) && actor !in db.admins && IsCurrent(db.members, owner, organisation, actor) && db.members[owner].role.Owner?
    requires ActiveUser(db, target) && IsCurrent(db.members, current, organisation, target) && db.members[current].role.Member?
    requires ActiveUser(db, Trim(target)) && membership !in db.members && Current(Retire(db.members, current), organisation, Trim(target)).None?
    requires WellFormed(OrganisationRoleChanged(organisation, membership, target, Admin))
    ensures ChangeOrganisationRole(db, actor, organisation, target, Admin, None, membership).Ok?
  {
    CurrentIs(db.members, organisation, actor, owner);
    CurrentIs(db.members, organisation, target, current);
    hide Trim, WellFormed, AppendAll, Retire, OneCurrent;
  }

  /** Its role change is accepted, and gives the new row to "usr_b" while the event names "usr_b ". */
  lemma PaddedTargetNotFollowed(f: Facts)
    requires Mirrors(f, PADDED)
    ensures Inv(PADDED)
    ensures ChangeOrganisationRole(PADDED, "usr_a", "org_1", "usr_b ", Admin, None, "omem_3").Ok?
    ensures !Follows(f, PADDED, ChangeOrganisationRole(PADDED, "usr_a", "org_1", "usr_b ", Admin, None, "omem_3"))
  {
    PaddedInv();
    SpacedIds();
    PaddedAnnouncement();
    hide Inv, Mirrors, Follows, Trim, ChangeOrganisationRole, OneCurrent, Current, WellFormed;
    Ready(PADDED);
    PaddedCurrent();
    OwnerPromotes(PADDED, "usr_a", "org_1", "usr_b ", "omem_3", "omem_1", "omem_2");
    ChangeFollowsIff(f, PADDED, "usr_a", "org_1", "usr_b ", Admin, None, "omem_3");
  }

  lemma PaddedAnnouncement()
    ensures WellFormed(OrganisationRoleChanged("org_1", "omem_3", "usr_b ", Admin))
    ensures WellFormed(AssignmentRevoked("upa_1", "org_1 ", "usr_a", CTRL_PRODUCT))
  {
    SpacedIds();
    hide Trim;
    assert HasIdPrefix("omem_", "omem_3") && HasIdPrefix("usr_", "usr_b") && HasIdPrefix("org_", "org_1");
    assert HasIdPrefix("upa_", "upa_1") && HasIdPrefix("usr_", "usr_a") && HasIdPrefix("product.", CTRL_PRODUCT);
  }

  lemma PaddedCurrent()
    requires OneCurrent(PADDED.members)
    ensures Current(PADDED.members, "org_1", "usr_a") == Some("omem_1")
    ensures Current(PADDED.members, "org_1", "usr_b ") == Some("omem_2")
    ensures Current(Retire(PADDED.members, "omem_2"), "org_1", "usr_b") == None
  {
    CurrentIs(PADDED.members, "org_1", "usr_a", "omem_1");
    CurrentIs(PADDED.members, "org_1", "usr_b ", "omem_2");
  }

  /** Organisations "org_1" and "org_1 ", and an assignment in the first. */
  const TWO: Database :=
    OWNED.(organisations := OWNED.organisations["org_1 " := Organisation("Other", true)],
           members := OWNED.members["omem_2" := Membership("org_1 ", "usr_b", Owner, true, 1)],
           assignments := map["upa_1" := Assignment("usr_a", "org_1", CTRL_PRODUCT, true)])

  lemma TwoInv()
    ensures Inv(TWO)
  {
    OwnedInv();
    hide Inv;
    StagedFounding(OWNED, "org_1 ", "Other", "omem_2", "usr_b");
    var founded := OWNED.(organisations := OWNED.organisations["org_1 " := Organisation("Other", true)],
                          members := OWNED.members["omem_2" := Membership("org_1 ", "usr_b", Owner, true, 1)]);
    var row := Assignment("usr_a", "org_1", CTRL_PRODUCT, true);
    AssignmentRow(founded, "upa_1", row);
    StagedAccess(founded, founded.entitlements, founded.assignments["upa_1" := row]);
    assert TWO == founded.(entitlements := founded.entitlements, assignments := founded.assignments["upa_1" := row]);
  }

  /** What it takes for an owner to revoke an assignment. */
  lemma OwnerRevokes(db: Database, actor: string, organisation: string, assignment: string, owner: string)
    requires OneCurrent(db.members) && organisation in db.organisations && db.organisations[organisation].active
    requires ActiveUser(db, actor) && actor !in db.admins && IsCurrent(db.members, owner, organisation, actor) && db.members[owner].role.Owner?
    requires Trim(assignment) == assignment && assignment in db.assignments && db.assignments[assignment].active
    requires db.assignments[assignment].organisation == Trim(organisation)
    requires WellFormed(AssignmentRevoked(assignment, organisation, db.assignments[assignment].user, db.assignments[assignment].product))
    ensures var r := RevokeAssignment(db, actor, organisation, assignment);
            r.Ok? && assignment in r.value.assignments && !r.value.assignments[assignment].active
  {
    CurrentIs(db.members, organisation, actor, owner);
    hide Trim, WellFormed, AppendAll, OneCurrent;
  }

  /** The owner of "org_1 " revokes the assignment in "org_1", and the event names "org_1 ". */
  lemma PaddedOrganisationNotFollowed(f: Facts)
    requires Mirrors(f, TWO)
    ensures Inv(TWO) && TWO.assignments["upa_1"].organisation == "org_1"
    ensures RevokeAssignment(TWO, "usr_b", "org_1 ", "upa_1").Ok?
    ensures !Follows(f, TWO, RevokeAssignment(TWO, "usr_b", "org_1 ", "upa_1"))
  {
    TwoRevokes();
    Ready(TWO);
    hide Inv, Mirrors, Follows, RevokeAssignment, Trim, OneCurrent;
    SpacedIds();
    RevokeFollowsIff(f, TWO, "usr_b", "org_1 ", "upa_1");
  }

  lemma TwoRevokes()
    ensures Inv(TWO)
    ensures var r := RevokeAssignment(TWO, "usr_b", "org_1 ", "upa_1");
            r.Ok? && "upa_1" in r.value.assignments && !r.value.assignments["upa_1"].active
  {
    TwoInv();
    SpacedIds();
    PaddedAnnouncement();
    hide Inv, RevokeAssignment, Trim, OneCurrent, WellFormed;
    Ready(TWO);
    OwnerRevokes(TWO, "usr_b", "org_1 ", "upa_1", "omem_2");
  }

  // ----- which of them runs can meet -----

  /** Organisation members are entered under trimmed ids only. */
  ghost predicate MembersTrimmed(db: Database) {
    forall id :: id in db.members ==> Trim(db.members[id].user) == db.members[id].user
  }

  ghost predicate KeepsTrimmed(r: Outcome) {
    r.Ok? ==> MembersTrimmed(r.value)
  }

  lemma InsertTrimmed(db: Database, m: Mutation)
    requires MembersTrimmed(db) && (m.MCreateOrganisation? || m.MAddOrganisationMember?)
    ensures KeepsTrimmed(Apply(db, m))
  {
    hide Trim, WellFormed, AppendAll, Current, AuthoriseOrganisation;
    TrimTwice(m.actor);
    if m.MAddOrganisationMember? { TrimTwice(m.target); }
  }

  lemma ChangeTrimmed(db: Database, m: Mutation)
    requires MembersTrimmed(db) && (m.MChangeOrganisationRole? || m.MDeactivateOrganisationMember?)
    ensures KeepsTrimmed(Apply(db, m))
  {
    hide Trim, WellFormed, AppendAll, Current, AuthoriseOrganisation;
    TrimTwice(m.target);
  }

  lemma ArchiveTrimmed(db: Database, m: Mutation)
    requires MembersTrimmed(db) && (m.MArchiveOrganisation? || m.MRenameOrganisation?)
    ensures KeepsTrimmed(Apply(db, m))
  {
    hide Trim, WellFormed, AppendAll, Current, AuthoriseOrganisation, RemovalEvents, ListsActive;
  }

  lemma StepMembersTrimmed(db: Database, m: Mutation)
    requires MembersTrimmed(db)
    ensures MembersTrimmed(Step(db, m))
  {
    hide Apply, Trim;
    if m.MCreateOrganisation? || m.MAddOrganisationMember? {
      InsertTrimmed(db, m);
    } else if m.MChangeOrganisationRole? || m.MDeactivateOrganisationMember? {
      ChangeTrimmed(db, m);
    } else if m.MArchiveOrganisation? || m.MRenameOrganisation? {
      ArchiveTrimmed(db, m);
    } else {
      OthersLeaveMembers(db, m);
    }
  }

  lemma OthersLeaveMembers(db: Database, m: Mutation)
    requires !m.MCreateOrganisation? && !m.MAddOrganisationMember? && !m.MChangeOrganisationRole? && !m.MDeactivateOrganisationMember?
             && !m.MArchiveOrganisation? && !m.MRenameOrganisation?
    ensures Step(db, m).members == db.members
  {
    hide Trim, WellFormed, AppendAll, Current, AuthoriseOrganisation, AuthoriseWorkspace, MutableWorkspaceMembership, WorkspaceTarget,
      RemovalEvents, RetireScope, Retire, ListsActive, HasEntitlement, HasAssignment, CreateOrganisation, AddOrganisationMember,
      ChangeOrganisationRole, DeactivateOrganisationMember, ArchiveOrganisation, RenameOrganisation;
  }

  lemma {:induction false} RunMembersTrimmed(db: Database, ms: seq<Mutation>)
    requires MembersTrimmed(db)
    ensures MembersTrimmed(Run(db, ms))
    decreases |ms|
  {
    hide MembersTrimmed, Apply;
    if ms != [] {
      StepMembersTrimmed(db, ms[0]);
      RunMembersTrimmed(Step(db, ms[0]), ms[1..]);
    }
  }

  /** So after any run of these mutations every role change that succeeds keeps the mirror: a row like the padded one above can
      only have been imported. */
  lemma RoleChangesFollow(f: Facts, ms: seq<Mutation>, actor: string, organisation: string, target: string, role: Role,
                          expected: Option<int>, membership: string)
    requires Mirrors(f, Run(MIGRATED, ms))
    ensures Follows(f, Run(MIGRATED, ms), ChangeOrganisationRole(Run(MIGRATED, ms), actor, organisation, target, role, expected, membership))
  {
    hide Inv, Run, Mirrors, Follows, Trim;
    var db := Run(MIGRATED, ms);
    MigratedInv();
    RunKeeps(MIGRATED, ms);
    Ready(db);
    RunMembersTrimmed(MIGRATED, ms);
    if ChangeOrganisationRole(db, actor, organisation, target, role, expected, membership).Ok? {
      TargetTrimmed(db, actor, organisation, target, role, expected, membership);
      ChangeFollowsIff(f, db, actor, organisation, target, role, expected, membership);
    } else {
      FailedFollows(f, db, ChangeOrganisationRole(db, actor, organisation, target, role, expected, membership));
    }
  }

  lemma TargetTrimmed(db: Database, actor: string, organisation: string, target: string, role: Role, expected: Option<int>, membership: string)
    requires MembersTrimmed(db) && ChangeOrganisationRole(db, actor, organisation, target, role, expected, membership).Ok?
    ensures Trim(target) == target
  {
    hide Trim, WellFormed, AppendAll, Current, AuthoriseOrganisation;
  }

  lemma FailedFollows(f: Facts, db: Database, r: Outcome)
    requires r.Err?
    ensures Follows(f, db, r)
  {
  }

  /** And after any such run the only way to enter a scope is to be added to it. */
  lemma OnlyAddsEnter(ms: seq<Mutation>, m: Mutation, kind: ScopeKind, scope: string, user: string)
    requires Apply(Run(MIGRATED, ms), m).Ok?
    requires Enters(Members(Run(MIGRATED, ms), kind), TouchOf(Run(MIGRATED, ms), kind, m), scope, user)
    ensures TouchOf(Run(MIGRATED, ms), kind, m).Added?
  {
    hide Run;
    RunMembersTrimmed(MIGRATED, ms);
    EntersByAdd(Run(MIGRATED, ms), m, kind, scope, user);
  }

  lemma EntersByAdd(db: Database, m: Mutation, kind: ScopeKind, scope: string, user: string)
    requires MembersTrimmed(db) && Apply(db, m).Ok? && Enters(Members(db, kind), TouchOf(db, kind, m), scope, user)
    ensures TouchOf(db, kind, m).Added?
  {
    if m.MChangeOrganisationRole? {
      TargetTrimmed(db, m.actor, m.organisation, m.target, m.role, m.expected, m.membership);
    }
    hide MembersTrimmed, Trim, WellFormed, AppendAll, Current, AuthoriseOrganisation, AuthoriseWorkspace, WorkspaceTarget;
  }
}
