/** Idempotent membership commands (membership_command.go): a ledger of results keyed by consumer and idempotency key. */
module Commands {
  import opened Prelude
  import opened Events
  import opened Tables
  import opened Mutations
  import opened Runs
  import opened Integrity
  import opened Bootstrap
  import opened Lifecycle
  import opened Whitespace
  import Decisions

  datatype CommandScope = OrganisationMembership | WorkspaceMembership | OtherScope

  datatype Operation = Add | ChangeRole | Deactivate | OtherOperation

  /** `at` is the time the call was made; 0 is the zero time. */
  datatype Request = Request(consumer: string, key: string, hash: string, actor: string, scope: CommandScope, operation: Operation,
                             organisation: string, workspace: string, user: string, role: Role, expected: int, at: int)

  datatype CommandResult = CommandResult(membership: string, organisation: string, workspace: string, user: string, role: Role,
                                         active: bool, version: int, replay: bool)

  datatype LedgerKey = LedgerKey(consumer: string, key: string)

  datatype LedgerRow = LedgerRow(hash: string, result: CommandResult, createdAt: int)

  type Ledger = map<LedgerKey, LedgerRow>

  const RETENTION := 24 * 60 * 60

  function KeyOf(r: Request): LedgerKey {
    LedgerKey(r.consumer, r.key)
  }

  function KindOf(r: Request): ScopeKind {
    if r.scope.OrganisationMembership? then OrganisationScope else WorkspaceScope
  }

  function ScopeOf(r: Request): string {
    if r.scope.OrganisationMembership? then r.organisation else r.workspace
  }

  /** The mutation a command stands for; role changes and deactivations insist on the expected version. */
  function MutationOf(r: Request, newId: string): Option<Mutation> {
    match (r.scope, r.operation)
    case (OrganisationMembership, Add) => Some(MAddOrganisationMember(r.actor, r.organisation, r.user, r.role, newId))
    case (OrganisationMembership, ChangeRole) =>
      Some(MChangeOrganisationRole(r.actor, r.organisation, r.user, r.role, Some(r.expected), newId))
    case (OrganisationMembership, Deactivate) => Some(MDeactivateOrganisationMember(r.actor, r.organisation, r.user, Some(r.expected)))
    case (WorkspaceMembership, Add) => Some(MAddWorkspaceMember(r.actor, r.workspace, r.user, r.role, newId))
    case (WorkspaceMembership, ChangeRole) =>
      Some(MChangeWorkspaceRole(r.actor, r.workspace, r.user, r.role, Some(r.expected), newId))
    case (WorkspaceMembership, Deactivate) => Some(MDeactivateWorkspaceMember(r.actor, r.workspace, r.user, Some(r.expected)))
    case _ => None
  }

  /** The result is put together from the request and the row the mutation returned, not read back. */
  ghost function ResultOf(db: Database, r: Request, newId: string): CommandResult {
    var t, scope := Members(db, KindOf(r)), ScopeOf(r);
    var organisation := if r.scope.OrganisationMembership? then r.organisation else "";
    var workspace := if r.scope.WorkspaceMembership? then r.workspace else "";
    match r.operation
    case Add => CommandResult(newId, organisation, workspace, r.user, r.role, true, 1, false)
    case ChangeRole => CommandResult(newId, organisation, workspace, r.user, r.role, true, r.expected + 1, false)
    case _ => CommandResult(CurrentId(t, scope, r.user), organisation, workspace, r.user, RoleIn(t, scope, r.user), false, r.expected, false)
  }

  /** validateMembershipCommandActorTx: a replay still needs a currently authorised actor. */
  ghost function ActorAuthorised(db: Database, r: Request): Result<(), Error> {
    match r.scope
    case OrganisationMembership =>
      var _ :- AuthoriseOrganisation(db, r.actor, r.organisation);
      Ok(())
    case WorkspaceMembership =>
      var _ :- AuthoriseWorkspace(db, r.actor, r.workspace, true);
      Ok(())
    case OtherScope => Err(CommandUnsupported)
  }

  datatype Executed = Executed(db: Database, ledger: Ledger, result: CommandResult)

  predicate Complete(r: Request) {
    Trim(r.consumer) != "" && Trim(r.hash) != "" && Trim(r.key) != "" && r.at != 0
  }

  /** The CHECK constraints of platform_membership_command_results. */
  predicate LedgerRowAllowed(r: Request) {
    |r.consumer| <= 100 && |r.key| <= 128 && |r.hash| == 64
  }

  ghost function Replay(db: Database, ledger: Ledger, r: Request): Result<Executed, Error>
    requires KeyOf(r) in ledger
  {
    var row := ledger[KeyOf(r)];
    var _ :- Need(row.hash == r.hash, CommandReplayMismatch);
    var _ :- ActorAuthorised(db, r);
    Ok(Executed(db, ledger, row.result.(replay := true)))
  }

  ghost function ExecuteFirst(db: Database, ledger: Ledger, r: Request, newId: string): Result<Executed, Error> {
    var mutation := MutationOf(r, newId);
    var _ :- Need(mutation.Some?, CommandUnsupported);
    var next :- Apply(db, mutation.value);
    var _ :- Need(LedgerRowAllowed(r), ConstraintViolation);
    var result := ResultOf(db, r, newId);
    Ok(Executed(next, ledger[KeyOf(r) := LedgerRow(r.hash, result, r.at)], result))
  }

  /** ExecuteMembershipCommand: mutation and ledger row are one transaction. */
  ghost function Execute(db: Database, ledger: Ledger, r: Request, newId: string): Result<Executed, Error> {
    var _ :- Need(Complete(r), CommandConflict);
    if KeyOf(r) in ledger then Replay(db, ledger, r) else ExecuteFirst(db, ledger, r, newId)
  }

  function Eligible(ledger: Ledger, before: int): set<LedgerKey> {
    set k | k in ledger && ledger[k].createdAt <= before
  }

  /** CleanupMembershipCommandResults may delete exactly these keys: the oldest `limit` rows made at or before `before`. */
  ghost predicate CleanupRemoves(ledger: Ledger, before: int, limit: int, now: int, removed: set<LedgerKey>) {
    && before != 0 && before <= now - RETENTION && 1 <= limit <= 1000
    && removed <= Eligible(ledger, before)
    && |removed| == (if |Eligible(ledger, before)| <= limit then |Eligible(ledger, before)| else limit)
    && (forall k, j :: k in removed && j in Eligible(ledger, before) && j !in removed ==> ledger[k].createdAt <= ledger[j].createdAt)
  }

  // ----- one command -----

  /** Whose row the command leaves: organisation adds and role changes trim the user id, the others take it as given. */
  function UserOf(r: Request): string {
    if r.scope.OrganisationMembership? && !r.operation.Deactivate? then Trim(r.user) else r.user
  }

  /** The first answer tells the truth about the row it wrote: scope, role, active flag and version are the stored ones, and so
      is the user, unless an organisation add or role change was given an id with surrounding whitespace. */
  lemma FirstResultAgrees(db: Database, ledger: Ledger, r: Request, newId: string)
    requires Inv(db) && KeyOf(r) !in ledger && Execute(db, ledger, r, newId).Ok?
    ensures var done := Execute(db, ledger, r, newId).value;
            var t := Members(done.db, KindOf(r));
            && done.result.membership in t
            && t[done.result.membership] == Membership(ScopeOf(r), UserOf(r), done.result.role, done.result.active, done.result.version)
            && (if r.scope.OrganisationMembership? then done.result.organisation else done.result.workspace) == t[done.result.membership].scope
            && (done.result.user == t[done.result.membership].user <==> UserOf(r) == r.user)
  {
    hide Inv, Apply, Trim, Current, Made, TouchOf;
    ApplyTouches(db, KindOf(r), MutationOf(r, newId).value);
    if r.operation.Add? {
      AddedByCommand(db, r, newId);
    } else {
      RevisedByCommand(db, r, newId);
    }
  }

  predicate ValidId(prefix: string, s: string) {
    HasIdPrefix(prefix, s) && |s| <= 200 && forall i :: 0 <= i < |s| ==> s[i] != '\r' && s[i] != '\n' && s[i] != ' ' && s[i] != '\t'
  }

  predicate TokenChar(c: char) {
    'A' <= c <= 'Z' || 'a' <= c <= 'z' || '0' <= c <= '9' || c == '.' || c == '_' || c == '~' || c == '-'
  }

  /** membershipcommand.ValidateRequest, which the command handler asks first, on the fields modelled here. */
  predicate ValidRequest(r: Request) {
    && !r.scope.OtherScope? && !r.operation.OtherOperation?
    && 0 < |r.key| <= 128 && (forall i :: 0 <= i < |r.key| ==> TokenChar(r.key[i]))
    && ValidId("usr_", r.user)
    && (if r.scope.OrganisationMembership? then ValidId("org_", r.organisation) && r.workspace == ""
        else ValidId("wsp_", r.workspace) && r.organisation == "")
    && (r.operation.Add? ==> r.expected == 0 && !r.role.NoRole?)
    && (r.operation.ChangeRole? ==> r.expected > 0 && !r.role.NoRole?)
    && (r.operation.Deactivate? ==> r.expected > 0 && r.role.NoRole?)
  }

  const TABBED_USER := "usr_b\U{B}"

  const TABBED_COMMAND: Request :=
    Request("tockrims", "key", HASH, "usr_a", OrganisationMembership, Add, "org_1", "", TABBED_USER, Member, 0, 1)

  const HASH: string := seq(64, _ => 'a')

  /** The input that shows it: a valid command adds a user under "usr_b" and a vertical tab, and answers with that id, where the
      row has "usr_b". */
  lemma TabbedCommandAnswers()
    ensures ValidRequest(TABBED_COMMAND) && Execute(OWNED, map[], TABBED_COMMAND, "omem_2").Ok?
    ensures var done := Execute(OWNED, map[], TABBED_COMMAND, "omem_2").value;
            done.result.user == TABBED_USER != "usr_b" && "omem_2" in done.db.members && done.db.members["omem_2"].user == "usr_b"
  {
    TabbedUser();
    SpacedMemberAdded(TABBED_USER);
    TabbedCommandComplete();
    hide Trim, AddOrganisationMember, Execute, ValidRequest, Complete, LedgerRowAllowed;
    AddCommandRuns(OWNED, TABBED_COMMAND, "omem_2");
  }

  lemma AddCommandRuns(db: Database, r: Request, newId: string)
    requires Complete(r) && LedgerRowAllowed(r) && r.scope.OrganisationMembership? && r.operation.Add?
    requires AddOrganisationMember(db, r.actor, r.organisation, r.user, r.role, newId).Ok?
    ensures Execute(db, map[], r, newId).Ok?
    ensures var done := Execute(db, map[], r, newId).value;
            done.db == AddOrganisationMember(db, r.actor, r.organisation, r.user, r.role, newId).value && done.result.user == r.user
  {
    hide Trim, AddOrganisationMember, Current;
  }

  lemma TabbedUser()
    ensures Trim(TABBED_USER) == "usr_b" && TABBED_USER != "usr_b" && ValidId("usr_", TABBED_USER)
  {
    assert TABBED_USER[..5] == "usr_b" && IsSpace(TABBED_USER[5]);
    NoBlanks("usr_b");
  }

  lemma TabbedCommandComplete()
    ensures Complete(TABBED_COMMAND) && LedgerRowAllowed(TABBED_COMMAND) && ValidRequest(TABBED_COMMAND)
  {
    TabbedUser();
    assert Trim("tockrims") == "tockrims" && Trim("key") == "key";
    NoBlanks(HASH);
    hide Trim;
    assert HasIdPrefix("org_", "org_1");
  }

  lemma NoBlanks(s: string)
    requires s != [] && !IsSpace(s[0]) && !IsSpace(s[|s| - 1])
    ensures Trim(s) == s
  {
  }

  /** Which store mutation answers a command under a new key: what is asked, in the scope it names; a revision insists on its
      version. */
  lemma FirstDecides(db: Database, ledger: Ledger, r: Request, newId: string)
    requires KeyOf(r) !in ledger
    ensures var done := Execute(db, ledger, r, newId);
            var outcome :=
              match (r.scope, r.operation)
              case (OrganisationMembership, Add) => AddOrganisationMember(db, r.actor, r.organisation, r.user, r.role, newId)
              case (OrganisationMembership, ChangeRole) =>
                ChangeOrganisationRole(db, r.actor, r.organisation, r.user, r.role, Some(r.expected), newId)
              case (OrganisationMembership, Deactivate) => DeactivateOrganisationMember(db, r.actor, r.organisation, r.user, Some(r.expected))
              case (WorkspaceMembership, Add) => AddWorkspaceMember(db, r.actor, r.workspace, r.user, r.role, newId)
              case (WorkspaceMembership, ChangeRole) =>
                ChangeWorkspaceRole(db, r.actor, r.workspace, r.user, r.role, Some(r.expected), newId)
              case (WorkspaceMembership, Deactivate) => DeactivateWorkspaceMember(db, r.actor, r.workspace, r.user, Some(r.expected))
              case _ => Err(CommandUnsupported);
            if Trim(r.consumer) == "" || Trim(r.hash) == "" || Trim(r.key) == "" || r.at == 0 then done == Err(CommandConflict)
            else if outcome.Err? then done == Err(outcome.error)
            else if |r.consumer| > 100 || |r.key| > 128 || |r.hash| != 64 then done == Err(ConstraintViolation)
            else
              && done.Ok? && done.value.db == outcome.value && !done.value.result.replay
              && done.value.ledger == ledger[KeyOf(r) := LedgerRow(r.hash, done.value.result, r.at)]
  {
    hide Trim, CreateOrganisation, AddOrganisationMember, ChangeOrganisationRole, DeactivateOrganisationMember, ArchiveOrganisation,
      RenameOrganisation, CreateWorkspace, AddWorkspaceMember, ChangeWorkspaceRole, DeactivateWorkspaceMember, ArchiveWorkspace, RetireProduct,
      EntitleOrganisation, RevokeEntitlement, AssignProduct, RevokeAssignment, CreateUser, SetUserActive, RoleIn, CurrentId, ListsActive;
  }

  lemma AddedByCommand(db: Database, r: Request, newId: string)
    requires r.operation.Add? && MutationOf(r, newId).Some? && Apply(db, MutationOf(r, newId).value).Ok?
    requires Made(Members(db, KindOf(r)), Members(Apply(db, MutationOf(r, newId).value).value, KindOf(r)),
                  TouchOf(db, KindOf(r), MutationOf(r, newId).value))
    ensures var t := Members(Apply(db, MutationOf(r, newId).value).value, KindOf(r));
            newId in t && t[newId] == Membership(ScopeOf(r), UserOf(r), r.role, true, 1)
  {
    hide AppendAll, WellFormed, Current, AuthoriseOrganisation, AuthoriseWorkspace, Insert, Commit, Trim;
  }

  lemma RevisedByCommand(db: Database, r: Request, newId: string)
    requires Inv(db) && !r.operation.Add? && MutationOf(r, newId).Some? && Apply(db, MutationOf(r, newId).value).Ok?
    requires Made(Members(db, KindOf(r)), Members(Apply(db, MutationOf(r, newId).value).value, KindOf(r)),
                  TouchOf(db, KindOf(r), MutationOf(r, newId).value))
    ensures var t := Members(Apply(db, MutationOf(r, newId).value).value, KindOf(r));
            var result := ResultOf(db, r, newId);
            result.membership in t
            && t[result.membership] == Membership(ScopeOf(r), UserOf(r), result.role, result.active, result.version)
  {
    hide Inv, Apply, Trim, OneCurrent;
    var kind, scope := KindOf(r), ScopeOf(r);
    SpendingNeedsVersion(db, MutationOf(r, newId).value, kind, scope, r.user, r.expected);
    Ready(db);
    CurrentIs(Members(db, kind), scope, r.user, CurrentId(Members(db, kind), scope, r.user));
  }

  // ----- runs of commands, other mutations and clean-ups -----

  datatype State = State(db: Database, ledger: Ledger)

  datatype Call =
    | Command(request: Request, newId: string)
    | Other(mutation: Mutation)
    | Cleanup(before: int, limit: int, now: int, removed: set<LedgerKey>)

  ghost function CallStep(s: State, c: Call): State {
    match c
    case Command(r, id) => (
      match Execute(s.db, s.ledger, r, id)
      case Ok(done) => State(done.db, done.ledger)
      case Err(_) => s)
    case Other(m) => s.(db := Step(s.db, m))
    case Cleanup(before, limit, now, removed) =>
      if CleanupRemoves(s.ledger, before, limit, now, removed) then s.(ledger := s.ledger - removed) else s
  }

  ghost function Calls(s: State, cs: seq<Call>): State
    decreases |cs|
  {
    if cs == [] then s else Calls(CallStep(s, cs[0]), cs[1..])
  }

  ghost predicate Drops(s: State, c: Call, key: LedgerKey) {
    c.Cleanup? && CleanupRemoves(s.ledger, c.before, c.limit, c.now, c.removed) && key in c.removed
  }

  /** No clean-up of the run removes the key's row. */
  ghost predicate Retains(s: State, cs: seq<Call>, key: LedgerKey)
    decreases |cs|
  {
    cs == [] || (!Drops(s, cs[0], key) && Retains(CallStep(s, cs[0]), cs[1..], key))
  }

  /** The call is a command under the key that wrote something: tables, outbox or ledger. */
  ghost predicate Writes(s: State, c: Call, key: LedgerKey) {
    c.Command? && KeyOf(c.request) == key && CallStep(s, c) != s
  }

  ghost function WriteCount(s: State, cs: seq<Call>, key: LedgerKey): nat
    decreases |cs|
  {
    if cs == [] then 0 else (if Writes(s, cs[0], key) then 1 else 0) + WriteCount(CallStep(s, cs[0]), cs[1..], key)
  }

  /** A call keeps a recorded result, and commands under its key then write nothing at all. */
  lemma RecordedStays(s: State, c: Call, key: LedgerKey)
    requires key in s.ledger && !Drops(s, c, key)
    ensures key in CallStep(s, c).ledger && CallStep(s, c).ledger[key] == s.ledger[key]
    ensures !Writes(s, c, key)
  {
    hide Apply, CleanupRemoves, ResultOf, ActorAuthorised, MutationOf;
  }

  lemma {:induction false} RecordedStaysAll(s: State, cs: seq<Call>, key: LedgerKey)
    requires key in s.ledger && Retains(s, cs, key)
    ensures key in Calls(s, cs).ledger && Calls(s, cs).ledger[key] == s.ledger[key]
    ensures WriteCount(s, cs, key) == 0
    decreases |cs|
  {
    hide CallStep, Drops, Writes;
    if cs != [] {
      RecordedStays(s, cs[0], key);
      RecordedStaysAll(CallStep(s, cs[0]), cs[1..], key);
    }
  }

  lemma WritingRecords(s: State, c: Call, key: LedgerKey)
    requires Writes(s, c, key)
    ensures key !in s.ledger && key in CallStep(s, c).ledger
  {
    hide Apply, CleanupRemoves, ResultOf, ActorAuthorised, MutationOf;
  }

  /** Exactly-once: while a key's result is retained, at most one command under the key writes, whatever else runs in between. */
  lemma {:induction false} WritesOnce(s: State, cs: seq<Call>, key: LedgerKey)
    requires Retains(s, cs, key)
    ensures WriteCount(s, cs, key) <= if key in s.ledger then 0 else 1
    decreases |cs|
  {
    hide CallStep, Drops, Writes;
    if cs != [] {
      var next := CallStep(s, cs[0]);
      if key in s.ledger {
        RecordedStaysAll(s, cs, key);
      } else if Writes(s, cs[0], key) {
        WritingRecords(s, cs[0], key);
        RecordedStaysAll(next, cs[1..], key);
      } else {
        WritesOnce(next, cs[1..], key);
      }
    }
  }

  /** Who may send a command, first or again: the administrators of the scope it names, while the scope is open. */
  ghost predicate MayCommand(db: Database, r: Request) {
    match r.scope
    case OrganisationMembership => Decisions.Administers(db, r.actor, r.organisation)
    case WorkspaceMembership => Decisions.AdministersWorkspace(db, r.actor, r.workspace, true)
    case OtherScope => false
  }

  function CommandError(db: Database, r: Request): Error {
    match r.scope
    case OrganisationMembership => Decisions.AdministersError(db, r.actor, r.organisation)
    case WorkspaceMembership => Decisions.WorkspaceError(db, r.workspace)
    case OtherScope => CommandUnsupported
  }

  lemma ActorDecides(db: Database, r: Request)
    requires Inv(db)
    ensures var rights := ActorAuthorised(db, r); if MayCommand(db, r) then rights.Ok? else rights == Err(CommandError(db, r))
  {
    hide Inv, AuthoriseOrganisation, AuthoriseWorkspace, Decisions.Administers, Decisions.AdministersWorkspace, OneCurrent;
    Ready(db);
    Decisions.OrganisationRights(db, r.actor, r.organisation);
    Decisions.WorkspaceRights(db, r.actor, r.workspace, true);
  }

  lemma {:induction false} CallsKeep(s: State, cs: seq<Call>)
    requires Inv(s.db)
    ensures Inv(Calls(s, cs).db)
    decreases |cs|
  {
    hide Inv, CallStep;
    if cs != [] {
      CallKeeps(s, cs[0]);
      CallsKeep(CallStep(s, cs[0]), cs[1..]);
    }
  }

  lemma CallKeeps(s: State, c: Call)
    requires Inv(s.db)
    ensures Inv(CallStep(s, c).db)
  {
    hide Inv, Apply, CleanupRemoves, ResultOf, ActorAuthorised, MutationOf;
    if c.Other? { ApplyKeeps(s.db, c.mutation); }
    if c.Command? && MutationOf(c.request, c.newId).Some? { ApplyKeeps(s.db, MutationOf(c.request, c.newId).value); }
  }

  /** A retry after any retaining run: a different hash is refused; the same hash gives the first result marked as a replay,
      exactly when the actor administers the scope named in the retry at that moment; nothing is written either way. */
  lemma RetryReplaysFirst(s: State, first: Request, newId: string, cs: seq<Call>, again: Request, newId': string)
    requires Inv(s.db) && KeyOf(first) !in s.ledger && Execute(s.db, s.ledger, first, newId).Ok?
    requires Retains(CallStep(s, Command(first, newId)), cs, KeyOf(first))
    requires KeyOf(again) == KeyOf(first) && Complete(again)
    ensures var end := Calls(CallStep(s, Command(first, newId)), cs);
            var result := Execute(s.db, s.ledger, first, newId).value.result;
            !result.replay
            && Execute(end.db, end.ledger, again, newId') ==
               (if again.hash != first.hash then Err(CommandReplayMismatch)
                else if MayCommand(end.db, again) then Ok(Executed(end.db, end.ledger, result.(replay := true)))
                else Err(CommandError(end.db, again)))
  {
    hide Apply, CleanupRemoves, ActorAuthorised, MutationOf, Retains, RoleIn, CurrentId, Inv, MayCommand, CommandError;
    RecordedStaysAll(CallStep(s, Command(first, newId)), cs, KeyOf(first));
    CallKeeps(s, Command(first, newId));
    CallsKeep(CallStep(s, Command(first, newId)), cs);
    ActorDecides(Calls(CallStep(s, Command(first, newId)), cs).db, again);
  }

  /** No command succeeds, first or replayed, for an actor who does not administer the scope then. */
  lemma CommandsNeedRights(db: Database, ledger: Ledger, r: Request, newId: string)
    requires Inv(db) && Execute(db, ledger, r, newId).Ok?
    ensures MayCommand(db, r)
  {
    hide Inv, Apply, ActorAuthorised, MayCommand, RoleIn, CurrentId;
    ActorDecides(db, r);
    if KeyOf(r) !in ledger { MutationNeedsRights(db, r, newId); }
  }

  lemma MutationNeedsRights(db: Database, r: Request, newId: string)
    requires Inv(db) && MutationOf(r, newId).Some? && Apply(db, MutationOf(r, newId).value).Ok?
    ensures MayCommand(db, r)
  {
    hide Inv, Trim, AppendAll, WellFormed, Current, AuthoriseOrganisation, AuthoriseWorkspace, WorkspaceTarget, MayCommand, Insert, Commit,
      MutableMembership;
    ActorDecides(db, r);
  }

  // ----- the retention window -----

  predicate Within(c: Call, from: int, until: int) {
    match c
    case Command(r, _) => from <= r.at < until
    case Cleanup(_, _, now, _) => from <= now < until
    case Other(_) => true
  }

  lemma DayStep(s: State, c: Call, key: LedgerKey, from: int)
    requires Within(c, from, from + RETENTION)
    requires key in s.ledger ==> s.ledger[key].createdAt >= from
    ensures !Drops(s, c, key)
    ensures key in CallStep(s, c).ledger ==> CallStep(s, c).ledger[key].createdAt >= from
  {
    hide Apply, ResultOf, ActorAuthorised, MutationOf;
    assert c.Cleanup? && key in s.ledger && key in Eligible(s.ledger, c.before) ==> from <= c.before;
  }

  /** A result made at or after `from` outlives every call made before `from` plus 24 hours. */
  lemma {:induction false} DayRetains(s: State, cs: seq<Call>, key: LedgerKey, from: int)
    requires forall i :: 0 <= i < |cs| ==> Within(cs[i], from, from + 24 * 60 * 60)
    requires key in s.ledger ==> s.ledger[key].createdAt >= from
    ensures Retains(s, cs, key)
    decreases |cs|
  {
    hide CallStep, Drops, Within;
    if cs != [] {
      DayStep(s, cs[0], key, from);
      DayRetains(CallStep(s, cs[0]), cs[1..], key, from);
    }
  }

  /** Within any 24 hours a new key is spent at most once, however clean-ups are scheduled. */
  lemma OnceADay(s: State, cs: seq<Call>, key: LedgerKey, from: int)
    requires key !in s.ledger
    requires forall i :: 0 <= i < |cs| ==> Within(cs[i], from, from + 24 * 60 * 60)
    ensures WriteCount(s, cs, key) <= 1
  {
    DayRetains(s, cs, key, from);
    WritesOnce(s, cs, key);
  }

  // ----- cleaning up -----

  /** The keys of the results made at or before `before`. */
  function MadeBy(ledger: Ledger, before: int): set<LedgerKey> {
    set k | k in ledger && ledger[k].createdAt <= before
  }

  /** `ledgers` is what a series of clean-ups with one bound and one limit leaves, `removed` what each of them deletes. */
  ghost predicate Cleaning(ledgers: seq<Ledger>, removed: seq<set<LedgerKey>>, nows: seq<int>, before: int, limit: int) {
    && |ledgers| == |removed| + 1 && |nows| == |removed|
    && forall i | 0 <= i < |removed| ::
      CleanupRemoves(ledgers[i], before, limit, nows[i], removed[i]) && ledgers[i + 1] == ledgers[i] - removed[i]
  }

  lemma CleanupStep(ledger: Ledger, before: int, limit: int, now: int, removed: set<LedgerKey>)
    requires CleanupRemoves(ledger, before, limit, now, removed)
    ensures var due, left := MadeBy(ledger, before), MadeBy(ledger - removed, before);
            && limit >= 1 && removed <= due <= ledger.Keys && left == due - removed
            && |removed| == (if |due| <= limit then |due| else limit) && |left| == |due| - |removed|
            && forall k, j :: k in removed && j in left ==> ledger[k].createdAt <= ledger[j].createdAt
  {
    assert Eligible(ledger, before) == MadeBy(ledger, before);
    assert MadeBy(ledger - removed, before) == MadeBy(ledger, before) - removed;
  }

  /** Clean-ups with one bound and limit delete the results made by then oldest first, `limit` at a time until none is left, and
      nothing made after the bound. */
  lemma {:induction false} CleaningIsOldestFirst(ledgers: seq<Ledger>, removed: seq<set<LedgerKey>>, nows: seq<int>, before: int, limit: int)
    requires Cleaning(ledgers, removed, nows, before, limit)
    ensures var n := |removed|;
            var first, last := ledgers[0], ledgers[n];
            var gone, left := MadeBy(first, before) - MadeBy(last, before), MadeBy(last, before);
            && left <= MadeBy(first, before) && last == first - gone
            && |left| == (if |MadeBy(first, before)| <= n * limit then 0 else |MadeBy(first, before)| - n * limit)
            && forall k, j :: k in gone && j in left ==> first[k].createdAt <= first[j].createdAt
    decreases |removed|
  {
    hide CleanupRemoves, MadeBy;
    var n := |removed|;
    if n > 0 {
      CleaningIsOldestFirst(ledgers[..n], removed[..n - 1], nows[..n - 1], before, limit);
      CleanupStep(ledgers[n - 1], before, limit, nows[n - 1], removed[n - 1]);
      assert n * limit == (n - 1) * limit + limit;
      assert ledgers[..n][n - 1] == ledgers[n - 1];
    }
  }
}
