/** The command ledger as the store updates it (membership_command.go): one transaction over the membership tables and the
    results table, and the batched clean-up. */
module CommandStore {
  import opened Prelude
  import opened Events
  import opened Tables
  import opened Mutations
  import opened Runs
  import opened Integrity
  import opened Bootstrap
  import opened Lifecycle
  import opened Commands
  import opened PlatformStore

  class Executor {
    const store: Store
    var results: Ledger

    constructor (store: Store)
      ensures this.store == store && results == map[]
    {
      this.store, results := store, map[];
    }

    /** The mutation a first command stands for. */
    method Dispatch(r: Request, newId: string) returns (done: Result<(), Error>)
      requires store.Valid()
      modifies store
      ensures store.Valid()
      ensures match MutationOf(r, newId)
              case None => done == Err(CommandUnsupported) && store.State() == old(store.State())
              case Some(m) => store.Does(done, old(store.State()), Apply(old(store.State()), m))
    {
      hide Inv, AddOrganisationMember, ChangeOrganisationRole, DeactivateOrganisationMember, AddWorkspaceMember, ChangeWorkspaceRole,
        DeactivateWorkspaceMember;
      match (r.scope, r.operation) {
        case (OrganisationMembership, Add) => done := store.AddMember(r.actor, r.organisation, r.user, r.role, newId);
        case (OrganisationMembership, ChangeRole) =>
          done := store.ChangeMemberRole(r.actor, r.organisation, r.user, r.role, Some(r.expected), newId);
        case (OrganisationMembership, Deactivate) => done := store.DeactivateMember(r.actor, r.organisation, r.user, Some(r.expected));
        case (WorkspaceMembership, Add) => done := store.AddToWorkspace(r.actor, r.workspace, r.user, r.role, newId);
        case (WorkspaceMembership, ChangeRole) =>
          done := store.ChangeRoleInWorkspace(r.actor, r.workspace, r.user, r.role, Some(r.expected), newId);
        case (WorkspaceMembership, Deactivate) => done := store.RemoveFromWorkspace(r.actor, r.workspace, r.user, Some(r.expected));
        case _ => done := Err(CommandUnsupported);
      }
    }

    method ActorAllowed(r: Request) returns (allowed: Result<(), Error>)
      requires store.Unique()
      ensures allowed == ActorAuthorised(store.State(), r)
    {
      match r.scope {
        case OrganisationMembership =>
          var authority := store.Authorise(r.actor, r.organisation);
          return if authority.Ok? then Ok(()) else Err(authority.error);
        case WorkspaceMembership =>
          var scope := store.AuthoriseInWorkspace(r.actor, r.workspace, true);
          return if scope.Ok? then Ok(()) else Err(scope.error);
        case OtherScope =>
          return Err(CommandUnsupported);
      }
    }

    /** The answer to a first command, read before it runs: only a deactivation needs the row it ends. */
    method Answer(r: Request, newId: string) returns (result: CommandResult)
      requires store.Unique()
      ensures result == ResultOf(store.State(), r, newId)
    {
      hide OneCurrent, Gapless, Current;
      var t := if r.scope.OrganisationMembership? then store.members else store.workspaceMembers;
      var scope := if r.scope.OrganisationMembership? then r.organisation else r.workspace;
      var organisation := if r.scope.OrganisationMembership? then r.organisation else "";
      var workspace := if r.scope.WorkspaceMembership? then r.workspace else "";
      match r.operation {
        case Add => return CommandResult(newId, organisation, workspace, r.user, r.role, true, 1, false);
        case ChangeRole => return CommandResult(newId, organisation, workspace, r.user, r.role, true, r.expected + 1, false);
        case _ =>
          var current := store.FindCurrent(t, scope, r.user);
          var id := if current.Some? then current.value else "";
          var role := if current.Some? then t[current.value].role else NoRole;
          return CommandResult(id, organisation, workspace, r.user, role, false, r.expected, false);
      }
    }

    /** ExecuteMembershipCommand */
    method ExecuteCommand(r: Request, newId: string) returns (answer: Result<CommandResult, Error>)
      requires store.Valid()
      modifies this, store
      ensures store.Valid()
      ensures match Execute(old(store.State()), old(results), r, newId)
              case Ok(done) => answer == Ok(done.result) && store.State() == done.db && results == done.ledger
              case Err(e) => answer == Err(e) && store.State() == old(store.State()) && results == old(results)
    {
      store.ValidUnique();
      hide Inv, Apply, ResultOf, ActorAuthorised, MutationOf, Gapless, OneCurrent, Complete, LedgerRowAllowed;
      if !Complete(r) { return Err(CommandConflict); }
      var key := LedgerKey(r.consumer, r.key);
      if key in results {
        var row := results[key];
        if row.hash != r.hash { return Err(CommandReplayMismatch); }
        var allowed := ActorAllowed(r);
        if allowed.Err? { return Err(allowed.error); }
        return Ok(row.result.(replay := true));
      }
      answer := ExecuteNew(r, newId);
    }

    method ExecuteNew(r: Request, newId: string) returns (answer: Result<CommandResult, Error>)
      requires store.Valid()
      modifies this, store
      ensures store.Valid()
      ensures match ExecuteFirst(old(store.State()), old(results), r, newId)
              case Ok(done) => answer == Ok(done.result) && store.State() == done.db && results == done.ledger
              case Err(e) => answer == Err(e) && store.State() == old(store.State()) && results == old(results)
    {
      store.ValidUnique();
      hide Inv, Apply, ResultOf, MutationOf, Gapless, OneCurrent, LedgerRowAllowed;
      var saved := store.Begin();
      var result := Answer(r, newId);
      var done := Dispatch(r, newId);
      if done.Err? { return Err(done.error); }
      if !LedgerRowAllowed(r) {
        store.Rollback(saved);
        return Err(ConstraintViolation);
      }
      results := results[LedgerKey(r.consumer, r.key) := LedgerRow(r.hash, result, r.at)];
      return Ok(result);
    }

    method Oldest(keys: set<LedgerKey>) returns (oldest: LedgerKey)
      requires keys != {} && keys <= results.Keys
      ensures oldest in keys && forall k :: k in keys ==> results[oldest].createdAt <= results[k].createdAt
    {
      oldest :| oldest in keys;
      var rest := keys - {oldest};
      while rest != {}
        invariant rest <= keys && oldest in keys
        invariant forall k :: k in keys && k !in rest ==> results[oldest].createdAt <= results[k].createdAt
        decreases |rest|
      {
        var k :| k in rest;
        if results[k].createdAt < results[oldest].createdAt { oldest := k; }
        rest := rest - {k};
      }
    }

    /** CleanupMembershipCommandResults */
    method Clean(before: int, limit: int, now: int) returns (r: Result<int, Error>, ghost removed: set<LedgerKey>)
      modifies `results
      ensures results == old(results) - removed
      ensures r.Ok? ==> CleanupRemoves(old(results), before, limit, now, removed) && r.value == |removed|
      ensures r.Err? <==> before == 0 || before > now - RETENTION || limit < 1 || limit > 1000
      ensures r.Err? ==> r.error == InvalidCleanup && removed == {}
    {
      removed := {};
      if before == 0 || before > now - RETENTION || limit < 1 || limit > 1000 {
        assert results - removed == results;
        return Err(InvalidCleanup), removed;
      }
      ghost var all := Eligible(results, before);
      var rest, count := Eligible(results, before), 0;
      while rest != {} && count < limit
        invariant rest <= all && removed == all - rest && 0 <= count <= limit
        invariant |removed| == count && |rest| == |all| - count
        invariant results == old(results) - removed
        invariant forall k, j :: k in removed && j in rest ==> old(results)[k].createdAt <= old(results)[j].createdAt
        decreases |rest|
      {
        var oldest := Oldest(rest);
        rest := rest - {oldest};
        removed := removed + {oldest};
        results := results - {oldest};
        count := count + 1;
      }
      return Ok(count), removed;
    }
  }
}
