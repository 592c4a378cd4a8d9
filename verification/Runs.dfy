/** Mutations as data, and runs: any sequence of mutations, each committing or leaving the tables alone. */
module Runs {
  import opened Prelude
  import opened Events
  import opened Tables
  import opened Mutations

  /** One store call. Fresh random ids, and the order in which an archive read its rows, are arguments. */
  datatype Mutation =
    | SetAdmins(admins: set<string>)  // system_role_assignments is written by operators, outside the store
    | MCreateUser(user: string, active: bool)
    | MSetUserActive(user: string, active: bool)
    | MCreateOrganisation(actor: string, organisation: string, name: string, membership: string)
    | MAddOrganisationMember(actor: string, organisation: string, target: string, role: Role, membership: string)
    | MChangeOrganisationRole(actor: string, organisation: string, target: string, role: Role, expected: Option<int>, membership: string)
    | MDeactivateOrganisationMember(actor: string, organisation: string, target: string, expected: Option<int>)
    | MArchiveOrganisation(actor: string, organisation: string, rows: seq<string>)
    | MRenameOrganisation(actor: string, organisation: string, name: string)
    | MCreateWorkspace(actor: string, organisation: string, workspace: string, name: string, membership: string)
    | MAddWorkspaceMember(actor: string, workspace: string, target: string, role: Role, membership: string)
    | MChangeWorkspaceRole(actor: string, workspace: string, target: string, role: Role, expected: Option<int>, membership: string)
    | MDeactivateWorkspaceMember(actor: string, workspace: string, target: string, expected: Option<int>)
    | MArchiveWorkspace(actor: string, workspace: string, rows: seq<string>)
    | MRetireProduct(actor: string, product: string)
    | MEntitleOrganisation(actor: string, organisation: string, product: string, entitlement: string)
    | MRevokeEntitlement(actor: string, organisation: string, entitlement: string)
    | MAssignProduct(actor: string, organisation: string, target: string, product: string, assignment: string)
    | MRevokeAssignment(actor: string, organisation: string, assignment: string)

  /** A row order that does not list the active rows cannot come from the archive query, and counts as a failed call. */
  ghost function Apply(db: Database, m: Mutation): Outcome {
    match m
    case SetAdmins(admins) => Ok(db.(admins := admins))
    case MCreateUser(u, a) => CreateUser(db, u, a)
    case MSetUserActive(u, a) => SetUserActive(db, u, a)
    case MCreateOrganisation(a, o, n, id) => CreateOrganisation(db, a, o, n, id)
    case MAddOrganisationMember(a, o, t, r, id) => AddOrganisationMember(db, a, o, t, r, id)
    case MChangeOrganisationRole(a, o, t, r, v, id) => ChangeOrganisationRole(db, a, o, t, r, v, id)
    case MDeactivateOrganisationMember(a, o, t, v) => DeactivateOrganisationMember(db, a, o, t, v)
    case MArchiveOrganisation(a, o, rows) =>
      if ListsActive(rows, db.members, o) then ArchiveOrganisation(db, a, o, rows) else Err(ConstraintViolation)
    case MRenameOrganisation(a, o, n) => RenameOrganisation(db, a, o, n)
    case MCreateWorkspace(a, o, w, n, id) => CreateWorkspace(db, a, o, w, n, id)
    case MAddWorkspaceMember(a, w, t, r, id) => AddWorkspaceMember(db, a, w, t, r, id)
    case MChangeWorkspaceRole(a, w, t, r, v, id) => ChangeWorkspaceRole(db, a, w, t, r, v, id)
    case MDeactivateWorkspaceMember(a, w, t, v) => DeactivateWorkspaceMember(db, a, w, t, v)
    case MArchiveWorkspace(a, w, rows) =>
      if ListsActive(rows, db.workspaceMembers, w) then ArchiveWorkspace(db, a, w, rows) else Err(ConstraintViolation)
    case MRetireProduct(a, p) => RetireProduct(db, a, p)
    case MEntitleOrganisation(a, o, p, id) => EntitleOrganisation(db, a, o, p, id)
    case MRevokeEntitlement(a, o, id) => RevokeEntitlement(db, a, o, id)
    case MAssignProduct(a, o, t, p, id) => AssignProduct(db, a, o, t, p, id)
    case MRevokeAssignment(a, o, id) => RevokeAssignment(db, a, o, id)
  }

  ghost function Step(db: Database, m: Mutation): Database {
    match Apply(db, m)
    case Ok(next) => next
    case Err(_) => db
  }

  ghost function Run(db: Database, ms: seq<Mutation>): Database
    decreases |ms|
  {
    if ms == [] then db else Run(Step(db, ms[0]), ms[1..])
  }

  lemma {:induction false} RunSplit(db: Database, ms: seq<Mutation>, j: nat)
    requires j <= |ms|
    ensures Run(db, ms) == Run(Run(db, ms[..j]), ms[j..])
    decreases j
  {
    hide Step;
    if j == 0 {
      assert ms[0..] == ms;
    } else {
      RunSplit(Step(db, ms[0]), ms[1..], j - 1);
      assert ms[1..][..j - 1] == ms[..j][1..] && ms[1..][j - 1..] == ms[j..];
    }
  }
}
