/** What deactivating a user does (users.go): the flag over whole runs, and everything a deactivated user is refused. */
module Accounts {
  import opened Prelude
  import opened Events
  import opened Tables
  import opened Mutations
  import opened Runs
  import opened Integrity
  import opened Lifecycle
  import Access

  /** The user whose authority the mutation needs. Two mutations trim the id. */
  predicate ActsAs(m: Mutation, user: string) {
    match m
    case SetAdmins(_) => false
    case MCreateUser(_, _) => false
    case MSetUserActive(_, _) => false
    case MCreateOrganisation(a, _, _, _) => Trim(a) == user
    case MRetireProduct(a, _) => Trim(a) == user
    case _ => m.actor == user
  }

  predicate Sets(m: Mutation, user: string) {
    m.MSetUserActive? && Trim(m.user) == user
  }

  predicate Inactive(db: Database, user: string) {
    user in db.users && !db.users[user]
  }

  /** A successful call stores exactly the requested flag for exactly that user, and announces it if it is new. */
  lemma FlagIsSet(db: Database, user: string, active: bool)
    requires Gapless(db.outbox) && Apply(db, MSetUserActive(user, active)).Ok?
    ensures var next, id := Step(db, MSetUserActive(user, active)), Trim(user);
            && id in db.users && next == db.(users := db.users[id := active], outbox := next.outbox)
            && Payloads(next.outbox) ==
               Payloads(db.outbox) + if db.users[id] == active then [] else [UserStatusChanged(id, active)]
  {
    hide Trim, WellFormed, Gapless, Payloads, AppendAll;
    var id := Trim(user);
    if db.users[id] != active {
      CommitShape(db.(users := db.users[id := active]), [UserStatusChanged(id, active)]);
    } else {
      assert db.users[id := active] == db.users;
    }
  }

  lemma OrganisationsKeepUsers(db: Database, m: Mutation)
    requires OrganisationMutation(m)
    ensures Step(db, m).users == db.users
  {
    hide WellFormed, AppendAll, Trim, Current, AuthoriseOrganisation, MutableMembership, RemovalEvents, RetireScope, Retire, ListsActive;
  }

  lemma WorkspacesKeepUsers(db: Database, m: Mutation)
    requires WorkspaceMutation(m)
    ensures Step(db, m).users == db.users
  {
    hide WellFormed, AppendAll, Trim, Current, AuthoriseOrganisation, AuthoriseWorkspace, MutableWorkspaceMembership, WorkspaceTarget,
      RemovalEvents, RetireScope, Retire, ListsActive;
  }

  lemma OthersKeepUsers(db: Database, m: Mutation)
    requires !OrganisationMutation(m) && !WorkspaceMutation(m) && !m.MCreateUser? && !m.MSetUserActive?
    ensures Step(db, m).users == db.users
  {
    hide WellFormed, AppendAll, Trim, Current, AuthoriseOrganisation, HasEntitlement, HasAssignment, CreateOrganisation, AddOrganisationMember,
      ChangeOrganisationRole, DeactivateOrganisationMember, ArchiveOrganisation, CreateWorkspace, AddWorkspaceMember, ChangeWorkspaceRole,
      DeactivateWorkspaceMember, ArchiveWorkspace;
  }

  lemma OnlyUserCallsWriteUsers(db: Database, m: Mutation)
    requires !m.MCreateUser? && !m.MSetUserActive?
    ensures Step(db, m).users == db.users
  {
    hide Step;
    if OrganisationMutation(m) {
      OrganisationsKeepUsers(db, m);
    } else if WorkspaceMutation(m) {
      WorkspacesKeepUsers(db, m);
    } else {
      OthersKeepUsers(db, m);
    }
  }

  /** The flag a user has after the calls, if it had this one before. */
  function LastFlag(ms: seq<Mutation>, user: string, before: bool): bool
    decreases |ms|
  {
    if ms == [] then before else LastFlag(ms[1..], user, if Sets(ms[0], user) then ms[0].active else before)
  }

  lemma StepFlag(db: Database, m: Mutation, user: string)
    requires user in db.users && HasIdPrefix("usr_", user) && Trim(user) == user
    ensures user in Step(db, m).users && Step(db, m).users[user] == if Sets(m, user) then m.active else db.users[user]
  {
    if m.MCreateUser? || m.MSetUserActive? {
      UserCallFlag(db, m, user);
    } else {
      OnlyUserCallsWriteUsers(db, m);
    }
    hide Step, Trim;
  }

  lemma UserCallFlag(db: Database, m: Mutation, user: string)
    requires user in db.users && HasIdPrefix("usr_", user) && Trim(user) == user && (m.MCreateUser? || m.MSetUserActive?)
    ensures user in Step(db, m).users && Step(db, m).users[user] == if Sets(m, user) then m.active else db.users[user]
  {
    hide Trim, CreateUser, SetUserActive;
    if m.MCreateUser? {
      CreatedFlag(db, m.user, m.active, user);
    } else {
      SetFlag(db, m.user, m.active, user);
    }
  }

  lemma CreatedFlag(db: Database, created: string, active: bool, user: string)
    requires user in db.users
    ensures var r := CreateUser(db, created, active); r.Ok? ==> user in r.value.users && r.value.users[user] == db.users[user]
  {
    hide WellFormed, AppendAll;
  }

  lemma SetFlag(db: Database, called: string, active: bool, user: string)
    requires user in db.users && HasIdPrefix("usr_", user) && Trim(user) == user
    ensures var r := SetUserActive(db, called, active);
            if Trim(called) == user then r.Ok? && user in r.value.users && r.value.users[user] == active
            else r.Ok? ==> user in r.value.users && r.value.users[user] == db.users[user]
  {
    hide Trim, HasIdPrefix, Commit, WellFormed;
    StatusFits(user, active);
    CommitOne(db.(users := db.users[Trim(called) := active]), UserStatusChanged(Trim(called), active));
  }

  lemma CommitOne(staged: Database, e: Event)
    ensures var r := Commit(staged, [e]); (r.Ok? <==> WellFormed(e)) && (r.Ok? ==> r.value == staged.(outbox := r.value.outbox))
  {
    hide WellFormed, AppendAll;
    assert e in [e];
  }

  lemma StatusFits(user: string, active: bool)
    requires HasIdPrefix("usr_", user) && Trim(user) == user
    ensures WellFormed(UserStatusChanged(user, active))
  {
  }

  /** Last call wins: over any run a user's flag is the one of the last call that named the user, or else unchanged. */
  lemma {:induction false} FlagOverRuns(db: Database, ms: seq<Mutation>, user: string)
    requires user in db.users && HasIdPrefix("usr_", user) && Trim(user) == user
    ensures user in Run(db, ms).users && Run(db, ms).users[user] == LastFlag(ms, user, db.users[user])
    decreases |ms|
  {
    hide Step, Sets, Trim;
    if ms != [] {
      StepFlag(db, ms[0], user);
      FlagOverRuns(Step(db, ms[0]), ms[1..], user);
    }
  }

  // ----- what an inactive user is refused -----

  lemma OrganisationsRefuse(db: Database, m: Mutation, user: string)
    requires Inactive(db, user) && ActsAs(m, user) && (OrganisationMutation(m) || m.MRenameOrganisation? || m.MRetireProduct?)
    ensures Apply(db, m).Err?
  {
    hide WellFormed, AppendAll, Trim, Current, MutableMembership, RemovalEvents, RetireScope, Retire, ListsActive;
  }

  lemma WorkspacesRefuse(db: Database, m: Mutation, user: string)
    requires Inactive(db, user) && ActsAs(m, user) && WorkspaceMutation(m)
    ensures Apply(db, m).Err?
  {
    hide WellFormed, AppendAll, Trim, Current, WorkspaceTarget, RemovalEvents, RetireScope, Retire, ListsActive;
  }

  lemma AccessRefuses(db: Database, m: Mutation, user: string)
    requires Inactive(db, user) && ActsAs(m, user)
    requires m.MEntitleOrganisation? || m.MRevokeEntitlement? || m.MAssignProduct? || m.MRevokeAssignment?
    ensures Apply(db, m).Err?
  {
    hide WellFormed, AppendAll, Trim, Current, HasEntitlement, HasAssignment;
  }

  lemma Refused(db: Database, m: Mutation, user: string)
    requires Inactive(db, user) && ActsAs(m, user)
    ensures Apply(db, m).Err?
  {
    hide Apply, Inactive;
    if WorkspaceMutation(m) {
      WorkspacesRefuse(db, m, user);
    } else if OrganisationMutation(m) || m.MRenameOrganisation? || m.MRetireProduct? {
      OrganisationsRefuse(db, m, user);
    } else {
      AccessRefuses(db, m, user);
    }
  }

  /** The user changes nothing, and proves neither a workspace scope nor access to a product. */
  ghost predicate Barred(db: Database, user: string) {
    && (forall m :: ActsAs(m, user) ==> Apply(db, m).Err?)
    && (forall workspace, adminOnly :: ProveWorkspaceScope(db, user, workspace, adminOnly).Err?)
    && (forall organisation, product, workspace :: Access.ProveProductAccess(db, user, organisation, product, workspace).Err?)
  }

  lemma InactiveIsBarred(db: Database, user: string)
    requires Inactive(db, user)
    ensures Barred(db, user)
  {
    forall m | ActsAs(m, user)
      ensures Apply(db, m).Err?
    {
      Refused(db, m, user);
    }
    hide Apply, Trim, Current;
  }

  lemma {:induction false} InactiveStays(db: Database, ms: seq<Mutation>, user: string)
    requires Inactive(db, user) && forall i :: 0 <= i < |ms| && Sets(ms[i], user) ==> !ms[i].active
    ensures Inactive(Run(db, ms), user)
    decreases |ms|
  {
    hide Step, Sets;
    if ms != [] {
      StepInactive(db, ms[0], user);
      InactiveStays(Step(db, ms[0]), ms[1..], user);
    }
  }

  lemma StepInactive(db: Database, m: Mutation, user: string)
    requires Inactive(db, user) && (Sets(m, user) ==> !m.active)
    ensures Inactive(Step(db, m), user)
  {
    if m.MCreateUser? || m.MSetUserActive? {
      UserCallInactive(db, m, user);
    } else {
      OnlyUserCallsWriteUsers(db, m);
    }
    hide Step, Trim;
  }

  lemma UserCallInactive(db: Database, m: Mutation, user: string)
    requires Inactive(db, user) && (Sets(m, user) ==> !m.active) && (m.MCreateUser? || m.MSetUserActive?)
    ensures Inactive(Step(db, m), user)
  {
    hide Trim, WellFormed, AppendAll;
  }

  /** After a successful deactivation the user is barred in every later state, until a call reactivates it. */
  lemma DeactivationBars(db: Database, user: string, ms: seq<Mutation>)
    requires Gapless(db.outbox) && Apply(db, MSetUserActive(user, false)).Ok?
    requires forall i :: 0 <= i < |ms| && Sets(ms[i], Trim(user)) ==> !ms[i].active
    ensures var end := Run(Step(db, MSetUserActive(user, false)), ms); Inactive(end, Trim(user)) && Barred(end, Trim(user))
  {
    hide Step, Run, Sets, Barred, Gapless, Trim;
    FlagIsSet(db, user, false);
    InactiveStays(Step(db, MSetUserActive(user, false)), ms, Trim(user));
    InactiveIsBarred(Run(Step(db, MSetUserActive(user, false)), ms), Trim(user));
  }
}
