/** Product access (product_access.go) and workspace scope (access_scope.go): the decisions, and how they agree. */
module Access {
  import opened Prelude
  import opened Events
  import opened Tables
  import opened Mutations
  import opened Integrity

  datatype ProductAccess = ProductAccess(user: string, organisation: string, product: string, workspace: string,
                                         organisationRole: Role, workspaceRole: Role)

  /** The organisation membership row the launch query joins on. */
  ghost predicate MemberJoin(db: Database, id: string, user: string, organisation: string, workspace: string) {
    && IsCurrent(db.members, id, organisation, user)
    && (CanAdminister(db.members[id].role) || exists wm :: IsCurrent(db.workspaceMembers, wm, workspace, user))
  }

  ghost predicate EntitlementJoin(db: Database, id: string, organisation: string, product: string) {
    id in db.entitlements && db.entitlements[id].organisation == organisation && db.entitlements[id].product == product
    && db.entitlements[id].active
  }

  ghost predicate AssignmentJoin(db: Database, id: string, user: string, organisation: string, product: string) {
    id in db.assignments && db.assignments[id].user == user && db.assignments[id].organisation == organisation
    && db.assignments[id].product == product && db.assignments[id].active
  }

  predicate OpenWorkspace(db: Database, organisation: string, workspace: string) {
    && organisation in db.organisations && db.organisations[organisation].active
    && workspace in db.workspaces && db.workspaces[workspace].organisation == organisation && db.workspaces[workspace].active
  }

  /** One row of the launch query's join, for a product. */
  ghost predicate Launchable(db: Database, user: string, organisation: string, workspace: string, product: string) {
    && product in db.products && db.products[product]
    && ActiveUser(db, user) && OpenWorkspace(db, organisation, workspace)
    && (exists om :: MemberJoin(db, om, user, organisation, workspace))
    && (exists e :: EntitlementJoin(db, e, organisation, product))
    && (exists a :: AssignmentJoin(db, a, user, organisation, product))
  }

  /** ListLaunchableProducts, as the set of product keys. */
  ghost function ListLaunchable(db: Database, user: string, organisation: string, workspace: string): Result<set<string>, Error> {
    var _ :- Need(Trim(user) != "" && Trim(organisation) != "" && Trim(workspace) != "", ProductAccessDenied);
    Ok(set p | p in db.products && Launchable(db, Trim(user), Trim(organisation), Trim(workspace), p))
  }

  /** ProveProductAccess. Only the product key is trimmed. */
  ghost function ProveProductAccess(db: Database, user: string, organisation: string, product: string, workspace: string):
    Result<ProductAccess, Error>
  {
    var key := Trim(product);
    var _ :- Need(HasIdPrefix("product.", key), ProductAccessDenied);
    var _ :- Need(ActiveUser(db, user) && OpenWorkspace(db, organisation, workspace), ProductAccessDenied);
    var _ :- Need(key in db.products && db.products[key], ProductAccessDenied);
    var _ :- Need(HasEntitlement(db, organisation, key) && HasAssignment(db, user, organisation, key), ProductAccessDenied);
    var organisationRole := RoleIn(db.members, organisation, user);
    var workspaceRole := RoleIn(db.workspaceMembers, workspace, user);
    var _ :- Need(Current(db.members, organisation, user).Some?, ProductAccessDenied);
    var _ :- Need(CanAdminister(organisationRole) || Current(db.workspaceMembers, workspace, user).Some?, ProductAccessDenied);
    Ok(ProductAccess(user, organisation, key, workspace, organisationRole, workspaceRole))
  }

  /** A product is listed as launchable exactly when access to it can be proved for the trimmed ids; only a blank id is refused. */
  lemma ListAgreesWithProof(db: Database, user: string, organisation: string, product: string, workspace: string)
    requires Inv(db) && Trim(product) == product
    ensures var listed := ListLaunchable(db, user, organisation, workspace);
            if [] in [Trim(user), Trim(organisation), Trim(workspace)] then listed == Err(ProductAccessDenied)
            else
              && listed.Ok?
              && (product in listed.value <==>
                  ProveProductAccess(db, Trim(user), Trim(organisation), product, Trim(workspace)).Ok?)
  {
    hide Inv, Trim, Launchable, HasEntitlement, HasAssignment, OpenWorkspace, Current, RoleIn;
    JoinsAgree(db, Trim(user), Trim(organisation), product, Trim(workspace));
    ProductsNamed(db);
  }

  lemma ProductsNamed(db: Database)
    requires Inv(db)
    ensures forall product :: product in db.products ==> HasIdPrefix("product.", product)
  {
    hide OneOwner, AccessRows, Gapless, MembershipRows;
  }

  lemma JoinsAgree(db: Database, user: string, organisation: string, product: string, workspace: string)
    requires Inv(db)
    ensures Launchable(db, user, organisation, workspace, product) <==>
            && product in db.products && db.products[product]
            && ActiveUser(db, user) && OpenWorkspace(db, organisation, workspace)
            && Current(db.members, organisation, user).Some?
            && (CanAdminister(RoleIn(db.members, organisation, user)) || Current(db.workspaceMembers, workspace, user).Some?)
            && HasEntitlement(db, organisation, product) && HasAssignment(db, user, organisation, product)
  {
    MemberJoinAgrees(db, user, organisation, workspace);
    EntitlementAgrees(db, organisation, product);
    AssignmentAgrees(db, user, organisation, product);
    hide Inv, MemberJoin, EntitlementJoin, AssignmentJoin, HasEntitlement, HasAssignment, OpenWorkspace, Current, RoleIn;
  }

  lemma MemberJoinAgrees(db: Database, user: string, organisation: string, workspace: string)
    requires Inv(db)
    ensures (exists om :: MemberJoin(db, om, user, organisation, workspace)) <==>
            && Current(db.members, organisation, user).Some?
            && (CanAdminister(RoleIn(db.members, organisation, user)) || Current(db.workspaceMembers, workspace, user).Some?)
  {
    hide OneOwner, AccessRows, Gapless;
    var current := Current(db.members, organisation, user);
    if om :| MemberJoin(db, om, user, organisation, workspace) { CurrentIs(db.members, organisation, user, om); }
    if current.Some? && (CanAdminister(RoleIn(db.members, organisation, user)) || Current(db.workspaceMembers, workspace, user).Some?) {
      assert MemberJoin(db, current.value, user, organisation, workspace);
    }
  }

  lemma EntitlementAgrees(db: Database, organisation: string, product: string)
    ensures (exists e :: EntitlementJoin(db, e, organisation, product)) <==> HasEntitlement(db, organisation, product)
  {
    if e :| EntitlementJoin(db, e, organisation, product) { assert db.entitlements[e] == Entitlement(organisation, product, true); }
    if id :| id in db.entitlements && db.entitlements[id] == Entitlement(organisation, product, true) {
      assert EntitlementJoin(db, id, organisation, product);
    }
  }

  lemma AssignmentAgrees(db: Database, user: string, organisation: string, product: string)
    ensures (exists a :: AssignmentJoin(db, a, user, organisation, product)) <==> HasAssignment(db, user, organisation, product)
  {
    if a :| AssignmentJoin(db, a, user, organisation, product) { assert db.assignments[a] == Assignment(user, organisation, product, true); }
    if id :| id in db.assignments && db.assignments[id] == Assignment(user, organisation, product, true) {
      assert AssignmentJoin(db, id, user, organisation, product);
    }
  }

  /** Product access never goes further than the workspace scope: who can launch can also prove the (non-admin) scope. */
  lemma LaunchImpliesScope(db: Database, user: string, organisation: string, product: string, workspace: string)
    requires Inv(db) && ProveProductAccess(db, user, organisation, product, workspace).Ok?
    ensures var scope := ProveWorkspaceScope(db, user, workspace, false);
            scope.Ok? && scope.value.organisation == organisation
            && scope.value.organisationRole == ProveProductAccess(db, user, organisation, product, workspace).value.organisationRole
  {
    MemberRoles(db, organisation, user, workspace);
    hide Inv, Trim, Current, HasEntitlement, HasAssignment;
  }

  lemma MemberRoles(db: Database, organisation: string, user: string, workspace: string)
    requires Inv(db)
    ensures Current(db.members, organisation, user).Some? <==> !RoleIn(db.members, organisation, user).NoRole?
    ensures Current(db.workspaceMembers, workspace, user).Some? <==> !RoleIn(db.workspaceMembers, workspace, user).NoRole?
  {
    hide OneOwner, AccessRows, Gapless, OneCurrent;
  }

  /** An admin scope proof is a scope proof, with the same scope. */
  lemma AdminScopeIsScope(db: Database, user: string, workspace: string)
    requires ProveWorkspaceScope(db, user, workspace, true).Ok?
    ensures ProveWorkspaceScope(db, user, workspace, false) == ProveWorkspaceScope(db, user, workspace, true)
  {
    hide Current;
  }

  // ----- withdrawing access takes effect at once -----

  lemma RevokedAssignmentDenies(db: Database, actor: string, organisation: string, assignment: string, workspace: string)
    requires Inv(db) && Trim(organisation) == organisation && RevokeAssignment(db, actor, organisation, assignment).Ok?
    ensures var row := db.assignments[Trim(assignment)];
            Trim(row.product) == row.product ==>
              ProveProductAccess(RevokeAssignment(db, actor, organisation, assignment).value, row.user, organisation, row.product, workspace).Err?
  {
    OnlyAssignment(db, Trim(assignment), RevokeAssignment(db, actor, organisation, assignment).value.outbox);
    hide Inv, AuthoriseOrganisation, AppendAll, WellFormed, HasEntitlement, HasAssignment, Trim, RoleIn, Current;
  }

  lemma OnlyAssignment(db: Database, id: string, outbox: seq<OutboxRow>)
    requires Inv(db) && id in db.assignments && db.assignments[id].active
    ensures var row := db.assignments[id];
            !HasAssignment(db.(assignments := db.assignments[id := row.(active := false)], outbox := outbox), row.user, row.organisation, row.product)
  {
    hide OneOwner, MembershipRows, Gapless;
    var row := db.assignments[id];
    assert forall j :: j in db.assignments && db.assignments[j] == Assignment(row.user, row.organisation, row.product, true) ==> j == id;
  }

  /** Revoking an entitlement denies the product to everyone in the organisation. */
  lemma RevokedEntitlementDenies(db: Database, actor: string, organisation: string, entitlement: string, user: string, workspace: string)
    requires Inv(db) && RevokeEntitlement(db, actor, organisation, entitlement).Ok?
    ensures var row := db.entitlements[Trim(entitlement)];
            Trim(row.product) == row.product ==>
              ProveProductAccess(RevokeEntitlement(db, actor, organisation, entitlement).value, user, organisation, row.product, workspace).Err?
  {
    OnlyEntitlement(db, Trim(entitlement), RevokeEntitlement(db, actor, organisation, entitlement).value.outbox);
    hide Inv, AuthoriseOrganisation, AppendAll, WellFormed, HasEntitlement, HasAssignment, Trim, RoleIn, Current;
  }

  lemma OnlyEntitlement(db: Database, id: string, outbox: seq<OutboxRow>)
    requires Inv(db) && id in db.entitlements && db.entitlements[id].active
    ensures var row := db.entitlements[id];
            !HasEntitlement(db.(entitlements := db.entitlements[id := row.(active := false)], outbox := outbox), row.organisation, row.product)
  {
    hide OneOwner, MembershipRows, Gapless;
    var row := db.entitlements[id];
    assert forall j :: j in db.entitlements && db.entitlements[j] == Entitlement(row.organisation, row.product, true) ==> j == id;
  }
}
