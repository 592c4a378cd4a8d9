/** The durable production import (platform_import.go): one transaction for each record, resumable from its checkpoint,
    and compensated in reverse order. */
module Import {
  import opened Prelude

  /** In manifest order of kinds. */
  datatype Entity =
    | UserEntity | OrganisationEntity | WorkspaceEntity | OrganisationMembershipEntity | WorkspaceMembershipEntity
    | ProductEntity | EntitlementEntity | AssignmentEntity

  datatype RowKey = RowKey(entity: Entity, id: string)

  /** What a manifest says about an entity, and, in normal form, what its row stores. */
  datatype Payload =
    | User(email: string, name: string, active: bool, createdAt: string)
    | Organisation(name: string, status: string, createdAt: string, archivedAt: string, actor: string)
    | Workspace(organisation: string, name: string, status: string, createdAt: string, archivedAt: string, actor: string)
    | Membership(scope: RowKey, user: string, role: string, active: bool, assignedBy: string, assignedAt: string, removedBy: string,
                 removedAt: string, reason: string)
    | Product(name: string, status: string, createdAt: string, retiredAt: string, actor: string)
    | Entitlement(organisation: string, product: string, status: string, grantedBy: string, grantedAt: string, revokedBy: string,
                  revokedAt: string, reason: string)
    | Assignment(user: string, organisation: string, product: string, status: string, assignedBy: string, assignedAt: string,
                 revokedBy: string, revokedAt: string, reason: string)

  /** `timesParse`: its timestamps parse. `insertable`: its row meets the table's CHECK constraints and its event is well formed. */
  datatype Record = Record(key: RowKey, payload: Payload, createPolicy: string, timesParse: bool, insertable: bool)

  type Rows = map<RowKey, Payload>

  datatype ImportError =
    | InvalidManifest | BadRecord | RecordConflict | UnknownReference | ConstraintViolation
    | AlreadyReversed | RunNotFound | RollbackBlocked

  function LowerChar(c: char): char {
    if 'A' <= c <= 'Z' then (c as int + 32) as char else c
  }

  function Lower(s: string): string {
    seq(|s|, i requires 0 <= i < |s| => LowerChar(s[i]))
  }

  predicate PayloadFits(r: Record) {
    match r.key.entity
    case UserEntity =>
      && r.payload.User? && HasIdPrefix("usr_", r.key.id) && Trim(r.payload.email) != "" && Trim(r.payload.name) != ""
    case OrganisationEntity => r.payload.Organisation?
    case WorkspaceEntity => r.payload.Workspace?
    case OrganisationMembershipEntity => r.payload.Membership? && r.payload.scope.entity.OrganisationEntity? && MembershipFits(r.payload)
    case WorkspaceMembershipEntity => r.payload.Membership? && r.payload.scope.entity.WorkspaceEntity? && MembershipFits(r.payload)
    case ProductEntity => r.payload.Product?
    case EntitlementEntity => r.payload.Entitlement?
    case AssignmentEntity => r.payload.Assignment?
  }

  predicate MembershipFits(p: Payload)
    requires p.Membership?
  {
    p.scope.id != "" && p.user != "" && Trim(p.assignedBy) != "" && Trim(p.assignedAt) != "" && Trim(p.role) != ""
  }

  /** The row an INSERT makes of the payload. User ids are resolved trimmed; the history's actor is not stored in the row. */
  function Stored(p: Payload): Payload {
    match p
    case User(email, name, active, created) => User(Lower(Trim(email)), Trim(name), active, created)
    case Organisation(name, status, created, archived, _) => Organisation(Trim(name), status, created, archived, "")
    case Workspace(o, name, status, created, archived, _) => Workspace(o, Trim(name), status, created, archived, "")
    case Membership(s, u, role, active, giver, at, removedBy, removedAt, reason) =>
      Membership(s, u, role, active, Trim(giver), at, Trim(removedBy), removedAt, reason)
    case Product(name, status, created, retired, _) => Product(name, status, created, retired, "")
    case Entitlement(o, product, status, giver, at, revokedBy, revokedAt, reason) =>
      Entitlement(o, product, status, Trim(giver), at, Trim(revokedBy), revokedAt, reason)
    case Assignment(u, o, product, status, giver, at, revokedBy, revokedAt, reason) =>
      Assignment(u, o, product, status, Trim(giver), at, Trim(revokedBy), revokedAt, reason)
  }

  /** How an existing row is compared with the payload: users and removers normalised, everything else as given. */
  predicate Matches(row: Payload, p: Payload) {
    match p
    case User(email, name, active, created) => row == User(Lower(Trim(email)), Trim(name), active, created)
    case Organisation(name, status, created, archived, _) => row == Organisation(name, status, created, archived, "")
    case Workspace(o, name, status, created, archived, _) => row == Workspace(o, name, status, created, archived, "")
    case Membership(s, u, role, active, giver, at, removedBy, removedAt, reason) =>
      row == Membership(s, u, role, active, giver, at, Trim(removedBy), removedAt, reason)
    case Product(name, status, created, retired, _) => row == Product(name, status, created, retired, "")
    case Entitlement(o, product, status, giver, at, revokedBy, revokedAt, reason) =>
      row == Entitlement(o, product, status, giver, at, revokedBy, revokedAt, reason)
    case Assignment(u, o, product, status, giver, at, revokedBy, revokedAt, reason) =>
      row == Assignment(u, o, product, status, giver, at, revokedBy, revokedAt, reason)
  }

  /** The names and ids that are stored trimmed but compared as given. */
  predicate Trimmed(p: Payload) {
    match p
    case User(_, _, _, _) => true
    case Organisation(name, _, _, _, _) => Trim(name) == name
    case Workspace(_, name, _, _, _, _) => Trim(name) == name
    case Membership(_, _, _, _, giver, _, _, _, _) => Trim(giver) == giver
    case Product(_, _, _, _, _) => true
    case Entitlement(_, _, _, giver, _, revokedBy, _, _) => Trim(giver) == giver && Trim(revokedBy) == revokedBy
    case Assignment(_, _, _, _, giver, _, revokedBy, _, _) => Trim(giver) == giver && Trim(revokedBy) == revokedBy
  }

  function UserKey(id: string): RowKey {
    RowKey(UserEntity, Trim(id))
  }

  /** importActorTx: an active user. */
  predicate ActorKnown(rows: Rows, id: string) {
    Trim(id) != "" && UserKey(id) in rows && rows[UserKey(id)].User? && rows[UserKey(id)].active
  }

  predicate OptionalActorKnown(rows: Rows, id: string) {
    Trim(id) == "" || ActorKnown(rows, id)
  }

  predicate ActorsKnown(rows: Rows, p: Payload) {
    match p
    case User(_, _, _, _) => true
    case Organisation(_, _, _, _, actor) => ActorKnown(rows, actor)
    case Workspace(_, _, _, _, _, actor) => ActorKnown(rows, actor)
    case Membership(_, _, _, _, giver, _, removedBy, _, _) => ActorKnown(rows, giver) && OptionalActorKnown(rows, removedBy)
    case Product(_, _, _, _, actor) => ActorKnown(rows, actor)
    case Entitlement(_, _, _, giver, _, revokedBy, _, _) => ActorKnown(rows, giver) && OptionalActorKnown(rows, revokedBy)
    case Assignment(_, _, _, _, giver, _, revokedBy, _, _) => ActorKnown(rows, giver) && OptionalActorKnown(rows, revokedBy)
  }

  function OptionalUser(id: string): set<RowKey> {
    if id == "" then {} else {RowKey(UserEntity, id)}
  }

  /** The foreign keys of a stored row. */
  function References(row: Payload): set<RowKey> {
    match row
    case User(_, _, _, _) => {}
    case Organisation(_, _, _, _, _) => {}
    case Workspace(o, _, _, _, _, _) => {RowKey(OrganisationEntity, o)}
    case Membership(scope, u, _, _, giver, _, removedBy, _, _) => {scope, RowKey(UserEntity, u), RowKey(UserEntity, giver)} + OptionalUser(removedBy)
    case Product(_, _, _, _, _) => {}
    case Entitlement(o, product, _, giver, _, revokedBy, _, _) =>
      {RowKey(OrganisationEntity, o), RowKey(ProductEntity, product), RowKey(UserEntity, giver)} + OptionalUser(revokedBy)
    case Assignment(u, o, product, _, giver, _, revokedBy, _, _) =>
      {RowKey(UserEntity, u), RowKey(OrganisationEntity, o), RowKey(ProductEntity, product), RowKey(UserEntity, giver)} + OptionalUser(revokedBy)
  }

  /** Entries of the unique indexes other than the public ids. */
  datatype Slot =
    | EmailSlot(email: string)
    | CurrentSlot(entity: Entity, scope: string, user: string)
    | OwnerSlot(organisation: string)
    | EntitlementSlot(organisation: string, product: string)
    | AssignmentSlot(user: string, organisation: string, product: string)

  function Slots(k: RowKey, row: Payload): set<Slot> {
    match row
    case User(email, _, _, _) => {EmailSlot(Lower(email))}
    case Membership(scope, u, role, active, _, _, _, _, _) =>
      (if active then {CurrentSlot(k.entity, scope.id, u)} else {})
      + (if active && role == "owner" && k.entity.OrganisationMembershipEntity? then {OwnerSlot(scope.id)} else {})
    case Entitlement(o, product, status, _, _, _, _, _) => if status == "active" then {EntitlementSlot(o, product)} else {}
    case Assignment(u, o, product, status, _, _, _, _, _) => if status == "active" then {AssignmentSlot(u, o, product)} else {}
    case _ => {}
  }

  predicate SlotsFree(rows: Rows, k: RowKey, row: Payload) {
    forall j :: j in rows ==> Slots(j, rows[j]) !! Slots(k, row)
  }

  /** applyProductionRecordTx: reconcile with the existing row, or create it. The flag tells which. */
  function ApplyRow(rows: Rows, r: Record): Result<(Rows, bool), ImportError> {
    var _ :- Need(PayloadFits(r) && r.timesParse, BadRecord);
    if r.key in rows then
      var _ :- Need(Matches(rows[r.key], r.payload), RecordConflict);
      Ok((rows, false))
    else
      var _ :- Need(r.createPolicy != "reconcile_only", RecordConflict);
      var _ :- Need(ActorsKnown(rows, r.payload) && References(Stored(r.payload)) <= rows.Keys, UnknownReference);
      var _ :- Need(r.insertable && SlotsFree(rows, r.key, Stored(r.payload)), ConstraintViolation);
      Ok((rows[r.key := Stored(r.payload)], true))
  }

  /** deleteImportedRecordTx: refused while another row refers to it, or when it is gone. */
  function DeleteRow(rows: Rows, k: RowKey): Result<Rows, ImportError> {
    var _ :- Need(k in rows && forall j :: j in rows ==> k !in References(rows[j]), RollbackBlocked);
    Ok(rows - {k})
  }

  datatype Status = Running | Paused | Completed | RolledBack

  /** The receipt stored with the run; `skipped` counts reconciled records. */
  datatype Receipt = Receipt(status: Status, next: nat, applied: nat, skipped: nat, created: nat, reconciled: nat)

  datatype RunRow = RunRow(status: Status, next: nat, applied: nat, created: nat, reconciled: nat, receipt: Receipt)

  datatype RecordOutcome = WasCreated | WasReconciled | WasRolledBack

  /** A row of platform_import_records; its order is its position. */
  datatype LedgerRow = LedgerRow(key: RowKey, outcome: RecordOutcome, createdByImport: bool, compensated: bool)

  /** `journal` stands for the audit and outbox entries made for created records. */
  datatype Tables = Tables(rows: Rows, journal: seq<RowKey>, run: Option<RunRow>, ledger: seq<LedgerRow>)

  function ReceiptOf(run: RunRow, skipped: nat): Receipt {
    Receipt(run.status, run.next, run.applied, skipped, run.created, run.reconciled)
  }

  /** loadOrCreateProductionRun */
  function OpenRun(t: Tables): Tables {
    if t.run.Some? then t else t.(run := Some(RunRow(Running, 0, 0, 0, 0, Receipt(Running, 0, 0, 0, 0, 0))))
  }

  /** The transaction of one record: canonical row, ledger row and checkpoint together. */
  function ApplyRecord(t: Tables, records: seq<Record>): Result<Tables, ImportError>
    requires t.run.Some? && t.run.value.next < |records|
  {
    var run := t.run.value;
    var r := records[run.next];
    var (rows, created) :- ApplyRow(t.rows, r);
    var next := run.next + 1;
    var moved := RunRow(if next == |records| then Completed else Paused, next, run.applied + 1,
                        run.created + (if created then 1 else 0), run.reconciled + (if created then 0 else 1), run.receipt);
    Ok(Tables(rows, if created then t.journal + [r.key] else t.journal,
              Some(moved.(receipt := ReceiptOf(moved, 0))),
              t.ledger + [LedgerRow(r.key, if created then WasCreated else WasReconciled, created, false)]))
  }

  function CountReconciled(ledger: seq<LedgerRow>): nat {
    if ledger == [] then 0
    else CountReconciled(ledger[..|ledger| - 1]) + (if ledger[|ledger| - 1].outcome.WasReconciled? then 1 else 0)
  }

  function CountCreated(ledger: seq<LedgerRow>): nat {
    if ledger == [] then 0
    else CountCreated(ledger[..|ledger| - 1]) + (if ledger[|ledger| - 1].createdByImport then 1 else 0)
  }

  /** persistProductionRunReceipt at the end of an apply. */
  function PersistReceipt(t: Tables, records: seq<Record>): Tables
    requires t.run.Some?
  {
    var run := t.run.value.(status := if t.run.value.next == |records| then Completed else Paused);
    t.(run := Some(run.(receipt := ReceiptOf(run, CountReconciled(t.ledger)))))
  }

  /** validateProductionDependencies, with the manifest validation's unique ids. */
  function ParentIds(r: Record): set<string> {
    match r.payload
    case Workspace(o, _, _, _, _, _) => {o}
    case Membership(scope, u, _, _, _, _, _, _, _) => {scope.id, u}
    case Entitlement(o, product, _, _, _, _, _, _) => {o, product}
    case Assignment(u, o, product, _, _, _, _, _, _) => {u, o, product}
    case _ => {}
  }

  predicate SeenBefore(records: seq<Record>, i: nat, id: string)
    requires i < |records|
  {
    exists j :: 0 <= j <= i && records[j].key.id == id
  }

  /** The manifest validation trims the create policy before it compares it; ApplyRow does not. */
  predicate KnownPolicy(r: Record) {
    Trim(r.createPolicy) == "create_or_reconcile" || Trim(r.createPolicy) == "reconcile_only"
  }

  predicate ValidManifest(records: seq<Record>) {
    && |records| > 0
    && (forall i :: 0 <= i < |records| ==> KnownPolicy(records[i]))
    && (forall i, j | 0 <= i < j < |records| :: records[i].key.id != records[j].key.id)
    && (forall i, id | 0 <= i < |records| && id in ParentIds(records[i]) :: SeenBefore(records, i, id))
  }

  /** Applies up to `count` further records; an error stops it with the earlier records committed. */
  function ApplyRecords(t: Tables, records: seq<Record>, count: nat): (r: (Tables, Option<ImportError>))
    requires t.run.Some?
    ensures r.0.run.Some?
    decreases count
  {
    if count == 0 || t.run.value.next >= |records| then (t, None)
    else
      match ApplyRecord(t, records)
      case Err(e) => (t, Some(e))
      case Ok(next) => ApplyRecords(next, records, count - 1)
  }

  /** How many records a call sets out to apply. */
  function Batch(run: RunRow, records: seq<Record>, limit: int): nat {
    var left := if run.next <= |records| then |records| - run.next else 0;
    if limit <= 0 || limit > left then left else limit
  }

  /** ApplyProductionImport by a process that dies after `lives` committed transactions, if it has not returned by then. */
  function ApplyCall(t: Tables, records: seq<Record>, limit: int, lives: nat): Tables {
    if !ValidManifest(records) || (t.run.None? && lives == 0) then t
    else
      var left := if t.run.None? then lives - 1 else lives;
      var open := OpenRun(t);
      var run := open.run.value;
      if run.status.RolledBack? || run.status.Completed? then open
      else
        var batch := Batch(run, records, limit);
        var (done, error) := ApplyRecords(open, records, if left < batch then left else batch);
        if error.None? && left > batch then PersistReceipt(done, records) else done
  }

  function Compensated(t: Tables, i: nat): Tables
    requires i < |t.ledger|
  {
    t.(ledger := t.ledger[i := t.ledger[i].(compensated := true, outcome := WasRolledBack)])
  }

  predicate ToCompensate(row: LedgerRow) {
    row.createdByImport && !row.compensated
  }

  /** `ORDER BY record_order DESC`: the last created record not yet compensated, below `bound`. */
  function LastToCompensate(ledger: seq<LedgerRow>, bound: nat): (r: Option<nat>)
    requires bound <= |ledger|
    ensures r.Some? ==> r.value < bound && ToCompensate(ledger[r.value]) && forall j :: r.value < j < bound ==> !ToCompensate(ledger[j])
    ensures r.None? ==> forall j :: 0 <= j < bound ==> !ToCompensate(ledger[j])
  {
    if bound == 0 then None
    else if ToCompensate(ledger[bound - 1]) then Some(bound - 1)
    else LastToCompensate(ledger, bound - 1)
  }

  /** Compensates up to `lives` records, each in its own transaction. */
  function CompensateAll(t: Tables, bound: nat, lives: nat): (Tables, Option<ImportError>, nat)
    requires bound <= |t.ledger|
    decreases bound
  {
    match LastToCompensate(t.ledger, bound)
    case None => (t, None, lives)
    case Some(i) =>
      if lives == 0 then (t, None, 0)
      else
        match DeleteRow(t.rows, t.ledger[i].key)
        case Err(e) => (t, Some(e), lives)
        case Ok(rows) => CompensateAll(Compensated(t.(rows := rows), i), i, lives - 1)
  }

  /** RollbackProductionImport by a process that dies after `lives` committed transactions. */
  function RollbackCall(t: Tables, lives: nat): Tables {
    if t.run.None? || t.run.value.status.RolledBack? then t
    else
      var (done, error, left) := CompensateAll(t, |t.ledger|, lives);
      if error.Some? || left == 0 then done
      else
        var run := t.run.value.(status := RolledBack);
        done.(run := Some(run.(receipt := ReceiptOf(run, CountReconciled(t.ledger)))))
  }
}
