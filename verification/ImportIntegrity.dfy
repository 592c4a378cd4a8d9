/** What an import may do to the canonical rows: when a record is created, reconciled or refused, and the schema's constraints over
    every sequence of applies and rollbacks (platform_import.go, and the unique indexes of store.go). */
module ImportIntegrity {
  import opened Prelude
  import opened Import
  import opened ImportTheory

  // ----- one record -----

  predicate ActiveUserRow(rows: Rows, id: string) {
    var k := RowKey(UserEntity, id);
    id != "" && k in rows && rows[k].User? && rows[k].active
  }

  /** The users a new row is made on behalf of, and those it names only if they are given. */
  function Givers(p: Payload): set<string> {
    match p
    case User(_, _, _, _) => {}
    case Organisation(_, _, _, _, actor) => {actor}
    case Workspace(_, _, _, _, _, actor) => {actor}
    case Membership(_, _, _, _, giver, _, _, _, _) => {giver}
    case Product(_, _, _, _, actor) => {actor}
    case Entitlement(_, _, _, giver, _, _, _, _) => {giver}
    case Assignment(_, _, _, _, giver, _, _, _, _) => {giver}
  }

  function Removers(p: Payload): set<string> {
    match p
    case Membership(_, _, _, _, _, _, remover, _, _) => {remover}
    case Entitlement(_, _, _, _, _, remover, _, _) => {remover}
    case Assignment(_, _, _, _, _, _, remover, _, _) => {remover}
    case _ => {}
  }

  /** What the row belongs to. */
  function Parents(p: Payload): set<RowKey> {
    match p
    case Workspace(o, _, _, _, _, _) => {RowKey(OrganisationEntity, o)}
    case Membership(scope, u, _, _, _, _, _, _, _) => {scope, RowKey(UserEntity, u)}
    case Entitlement(o, product, _, _, _, _, _, _) => {RowKey(OrganisationEntity, o), RowKey(ProductEntity, product)}
    case Assignment(u, o, product, _, _, _, _, _, _) =>
      {RowKey(UserEntity, u), RowKey(OrganisationEntity, o), RowKey(ProductEntity, product)}
    case _ => {}
  }

  predicate Sponsored(rows: Rows, p: Payload) {
    && (forall id :: id in Givers(p) ==> ActiveUserRow(rows, Trim(id)))
    && (forall id :: id in Removers(p) && Trim(id) != "" ==> ActiveUserRow(rows, Trim(id)))
    && Parents(p) <= rows.Keys
  }

  lemma SponsoredIff(rows: Rows, p: Payload)
    ensures Sponsored(rows, p) <==> ActorsKnown(rows, p) && References(Stored(p)) <= rows.Keys
  {
    hide Trim, Lower;
    match p
    case User(_, _, _, _) =>
    case Organisation(_, _, _, _, actor) => assert actor in Givers(p);
    case Workspace(_, _, _, _, _, actor) => assert actor in Givers(p);
    case Membership(_, _, _, _, giver, _, remover, _, _) => assert giver in Givers(p) && remover in Removers(p);
    case Product(_, _, _, _, actor) => assert actor in Givers(p);
    case Entitlement(_, _, _, giver, _, remover, _, _) => assert giver in Givers(p) && remover in Removers(p);
    case Assignment(_, _, _, _, giver, _, remover, _, _) => assert giver in Givers(p) && remover in Removers(p);
  }

  /** The payload is of the record's kind. */
  predicate OfKind(entity: Entity, p: Payload) {
    match entity
    case UserEntity => p.User?
    case OrganisationEntity => p.Organisation?
    case WorkspaceEntity => p.Workspace?
    case OrganisationMembershipEntity => p.Membership? && p.scope.entity.OrganisationEntity?
    case WorkspaceMembershipEntity => p.Membership? && p.scope.entity.WorkspaceEntity?
    case ProductEntity => p.Product?
    case EntitlementEntity => p.Entitlement?
    case AssignmentEntity => p.Assignment?
  }

  /** And its required fields are there. */
  predicate Filled(k: RowKey, p: Payload) {
    && (p.User? ==> HasIdPrefix("usr_", k.id) && Trim(p.email) != "" && Trim(p.name) != "")
    && (p.Membership? ==> p.scope.id != "" && p.user != "" && Trim(p.assignedBy) != "" && Trim(p.assignedAt) != "" && Trim(p.role) != "")
  }

  /** Some row holds an entry of a unique index that the new row would need. */
  ghost predicate Taken(rows: Rows, k: RowKey, row: Payload) {
    exists j, slot :: j in rows && slot in Slots(j, rows[j]) && slot in Slots(k, row)
  }

  /** A record of another kind than it says, with a field or timestamp missing, is refused; one that exists is reconciled if it
      agrees with its row, and a conflict if not; a new one is created unless its policy forbids it, whom or what it names is not
      there, or an index or check constraint stands against it. */
  lemma RecordDecides(rows: Rows, r: Record)
    ensures var done := ApplyRow(rows, r);
            if !(OfKind(r.key.entity, r.payload) && Filled(r.key, r.payload) && r.timesParse) then done == Err(BadRecord)
            else if r.key in rows then
              done == if Matches(rows[r.key], r.payload) then Ok((rows, false)) else Err(RecordConflict)
            else if r.createPolicy == "reconcile_only" then done == Err(RecordConflict)
            else if !Sponsored(rows, r.payload) then done == Err(UnknownReference)
            else if !r.insertable || Taken(rows, r.key, Stored(r.payload)) then
              done == Err(ConstraintViolation)
            else done == Ok((rows[r.key := Stored(r.payload)], true))
  {
    hide Trim, Matches, Stored, ActorsKnown, References, Sponsored, OfKind, Filled, PayloadFits, SlotsFree, Taken;
    SponsoredIff(rows, r.payload);
    FitsIff(r);
    FreeIff(rows, r.key, Stored(r.payload));
  }

  lemma FitsIff(r: Record)
    ensures PayloadFits(r) <==> OfKind(r.key.entity, r.payload) && Filled(r.key, r.payload)
  {
    hide Trim;
  }

  lemma FreeIff(rows: Rows, k: RowKey, row: Payload)
    ensures SlotsFree(rows, k, row) <==> !Taken(rows, k, row)
  {
    hide Slots;
    if !SlotsFree(rows, k, row) {
      var j :| j in rows && !(Slots(j, rows[j]) !! Slots(k, row));
      var slot :| slot in Slots(j, rows[j]) && slot in Slots(k, row);
      assert Taken(rows, k, row);
    }
  }

  // ----- the manifest -----

  /** Which manifests are applied: not empty, of records with a known policy, under different ids, where what a record belongs to
      is the record itself or an earlier one. Any other leaves every table as it is. */
  lemma ManifestDecides(t: Tables, records: seq<Record>, limit: int, lives: nat)
    ensures ValidManifest(records) <==>
            && records != []
            && (forall r :: r in records ==> Trim(r.createPolicy) in {"create_or_reconcile", "reconcile_only"})
            && (forall i, j :: 0 <= i < |records| && 0 <= j < |records| && records[i].key.id == records[j].key.id ==> i == j)
            && forall i, k | 0 <= i < |records| && k in Parents(records[i].payload) :: k.id in Ids(records[..i + 1])
    ensures !ValidManifest(records) ==> ApplyCall(t, records, limit, lives) == t
  {
    hide Trim;
    forall i | 0 <= i < |records|
      ensures (forall id :: id in ParentIds(records[i]) ==> SeenBefore(records, i, id)) <==>
              forall k :: k in Parents(records[i].payload) ==> k.id in Ids(records[..i + 1])
    {
      ParentsSeen(records, i);
    }
    hide ParentIds, Parents, Ids, SeenBefore;
  }

  function Ids(records: seq<Record>): set<string> {
    set r | r in records :: r.key.id
  }

  lemma ParentsSeen(records: seq<Record>, i: nat)
    requires i < |records|
    ensures (forall id :: id in ParentIds(records[i]) ==> SeenBefore(records, i, id)) <==>
            forall k :: k in Parents(records[i].payload) ==> k.id in Ids(records[..i + 1])
  {
    assert ParentIds(records[i]) == set k | k in Parents(records[i].payload) :: k.id by {
      match records[i].payload
      case Workspace(o, _, _, _, _, _) => assert RowKey(OrganisationEntity, o) in Parents(records[i].payload);
      case Membership(scope, u, _, _, _, _, _, _, _) =>
        assert scope in Parents(records[i].payload) && RowKey(UserEntity, u) in Parents(records[i].payload);
      case Entitlement(o, product, _, _, _, _, _, _) =>
        assert RowKey(OrganisationEntity, o) in Parents(records[i].payload) && RowKey(ProductEntity, product) in Parents(records[i].payload);
      case Assignment(u, o, product, _, _, _, _, _, _) =>
        assert RowKey(OrganisationEntity, o) in Parents(records[i].payload) && RowKey(ProductEntity, product) in Parents(records[i].payload);
        assert RowKey(UserEntity, u) in Parents(records[i].payload);
      case _ =>
    }
    hide ParentIds, Parents;
    forall id
      ensures SeenBefore(records, i, id) <==> id in Ids(records[..i + 1])
    {
      if j :| 0 <= j <= i && records[j].key.id == id { assert records[..i + 1][j] == records[j]; }
    }
  }

  // ----- the constraints -----

  predicate Shaped(rows: Rows) {
    forall k :: k in rows ==> OfKind(k.entity, rows[k])
  }

  ghost predicate SlotsOnce(rows: Rows) {
    forall j, k :: j in rows && k in rows && j != k ==> Slots(j, rows[j]) !! Slots(k, rows[k])
  }

  ghost predicate Constrained(rows: Rows) {
    Shaped(rows) && SlotsOnce(rows) && NoDangling(rows)
  }

  predicate SameLetter(a: char, b: char) {
    || a == b
    || ('A' <= a <= 'Z' && b as int - a as int == 'a' as int - 'A' as int)
    || ('A' <= b <= 'Z' && a as int - b as int == 'a' as int - 'A' as int)
  }

  predicate SameButCase(s: string, t: string) {
    |s| == |t| && forall i :: 0 <= i < |s| ==> SameLetter(s[i], t[i])
  }

  /** Lower keeps the text but for its capitals, and tells apart exactly what differs in more than case. */
  lemma LowerIs(s: string, t: string)
    ensures SameButCase(s, Lower(s)) && forall c :: c in Lower(s) ==> !('A' <= c <= 'Z')
    ensures Lower(s) == Lower(t) <==> SameButCase(s, t)
  {
    if SameButCase(s, t) {
      assert forall i :: 0 <= i < |s| ==> SameLetter(s[i], t[i]) && Lower(s)[i] == Lower(t)[i];
    }
    if Lower(s) == Lower(t) {
      assert |s| == |Lower(s)| && |t| == |Lower(t)|;
      forall i | 0 <= i < |s|
        ensures SameLetter(s[i], t[i])
      {
        assert Lower(s)[i] == Lower(t)[i];
      }
    }
  }

  /** The unique indexes, spelled out: no two users share an email but for case, no two active memberships a scope and user, no two
      active owners an organisation, no two active entitlements an organisation and product, no two active assignments a user,
      organisation and product. */
  ghost predicate Unique(rows: Rows) {
    && (forall j, k | j in rows && k in rows && rows[j].User? && rows[k].User? && SameButCase(rows[j].email, rows[k].email) :: j == k)
    && (forall j, k | j in rows && k in rows && j.entity == k.entity && rows[j].Membership? && rows[k].Membership?
                      && rows[j].active && rows[k].active && rows[j].scope.id == rows[k].scope.id && rows[j].user == rows[k].user :: j == k)
    && (forall j, k | j in rows && k in rows && j.entity.OrganisationMembershipEntity? && k.entity.OrganisationMembershipEntity?
                      && rows[j].Membership? && rows[k].Membership? && rows[j].active && rows[k].active
                      && rows[j].role == "owner" == rows[k].role && rows[j].scope.id == rows[k].scope.id :: j == k)
    && (forall j, k | j in rows && k in rows && rows[j].Entitlement? && rows[k].Entitlement?
                      && rows[j].status == "active" == rows[k].status && rows[j].organisation == rows[k].organisation
                      && rows[j].product == rows[k].product :: j == k)
    && (forall j, k | j in rows && k in rows && rows[j].Assignment? && rows[k].Assignment?
                      && rows[j].status == "active" == rows[k].status && rows[j].user == rows[k].user
                      && rows[j].organisation == rows[k].organisation && rows[j].product == rows[k].product :: j == k)
  }

  lemma PairUnique(rows: Rows, j: RowKey, k: RowKey, slot: Slot)
    requires SlotsOnce(rows) && j in rows && k in rows && slot in Slots(j, rows[j]) && slot in Slots(k, rows[k])
    ensures j == k
  {
    hide Slots;
  }

  lemma SlotsUnique(rows: Rows)
    requires SlotsOnce(rows)
    ensures Unique(rows)
  {
    hide SlotsOnce, Lower, SameButCase;
    forall j, k | j in rows && k in rows && rows[j].User? && rows[k].User? && SameButCase(rows[j].email, rows[k].email)
      ensures j == k
    {
      LowerIs(rows[j].email, rows[k].email);
      PairUnique(rows, j, k, EmailSlot(Lower(rows[j].email)));
    }
    forall j, k | j in rows && k in rows && j.entity == k.entity && rows[j].Membership? && rows[k].Membership?
                  && rows[j].active && rows[k].active && rows[j].scope.id == rows[k].scope.id && rows[j].user == rows[k].user
      ensures j == k
    {
      PairUnique(rows, j, k, CurrentSlot(j.entity, rows[j].scope.id, rows[j].user));
    }
    forall j, k | j in rows && k in rows && j.entity.OrganisationMembershipEntity? && k.entity.OrganisationMembershipEntity?
                  && rows[j].Membership? && rows[k].Membership? && rows[j].active && rows[k].active
                  && rows[j].role == "owner" == rows[k].role && rows[j].scope.id == rows[k].scope.id
      ensures j == k
    {
      PairUnique(rows, j, k, OwnerSlot(rows[j].scope.id));
    }
    forall j, k | j in rows && k in rows && rows[j].Entitlement? && rows[k].Entitlement?
                  && rows[j].status == "active" == rows[k].status && rows[j].organisation == rows[k].organisation
                  && rows[j].product == rows[k].product
      ensures j == k
    {
      PairUnique(rows, j, k, EntitlementSlot(rows[j].organisation, rows[j].product));
    }
    forall j, k | j in rows && k in rows && rows[j].Assignment? && rows[k].Assignment?
                  && rows[j].status == "active" == rows[k].status && rows[j].user == rows[k].user
                  && rows[j].organisation == rows[k].organisation && rows[j].product == rows[k].product
      ensures j == k
    {
      PairUnique(rows, j, k, AssignmentSlot(rows[j].user, rows[j].organisation, rows[j].product));
    }
  }

  lemma RecordKeeps(rows: Rows, r: Record)
    requires Constrained(rows) && ApplyRow(rows, r).Ok?
    ensures Constrained(ApplyRow(rows, r).value.0)
  {
    hide NoDangling, Slots, Matches, ActorsKnown, References, Stored;
    AppliedReferences(rows, r);
    StoredKind(r);
  }

  lemma StoredKind(r: Record)
    requires PayloadFits(r)
    ensures OfKind(r.key.entity, Stored(r.payload))
  {
    hide Trim, Lower;
  }

  lemma DeleteKeeps(rows: Rows, k: RowKey)
    requires Constrained(rows) && DeleteRow(rows, k).Ok?
    ensures Constrained(DeleteRow(rows, k).value)
  {
    hide Slots, References;
  }

  lemma {:induction false} RecordsKeep(t: Tables, records: seq<Record>, count: nat)
    requires t.run.Some? && Constrained(t.rows)
    ensures Constrained(ApplyRecords(t, records, count).0.rows)
    decreases count
  {
    hide Constrained, ApplyRow;
    if count > 0 && t.run.value.next < |records| {
      var r := records[t.run.value.next];
      if ApplyRow(t.rows, r).Ok? {
        RecordKeeps(t.rows, r);
        RecordsKeep(ApplyRecord(t, records).value, records, count - 1);
      }
    }
  }

  lemma {:induction false} CompensationsKeep(t: Tables, bound: nat, lives: nat)
    requires bound <= |t.ledger| && Constrained(t.rows)
    ensures Constrained(CompensateAll(t, bound, lives).0.rows)
    decreases bound
  {
    hide Constrained, DeleteRow;
    var last := LastToCompensate(t.ledger, bound);
    if last.Some? && lives > 0 {
      var deleted := DeleteRow(t.rows, t.ledger[last.value].key);
      if deleted.Ok? {
        DeleteKeeps(t.rows, t.ledger[last.value].key);
        CompensationsKeep(Compensated(t.(rows := deleted.value), last.value), last.value, lives - 1);
      }
    }
  }

  /** A call on one manifest's run, by a process that may die. */
  datatype ImportCall = ApplyFor(records: seq<Record>, limit: int, lives: nat) | RollBack(lives: nat)

  function AfterCall(t: Tables, c: ImportCall): Tables {
    match c
    case ApplyFor(records, limit, lives) => ApplyCall(t, records, limit, lives)
    case RollBack(lives) => RollbackCall(t, lives)
  }

  function AfterCalls(t: Tables, cs: seq<ImportCall>): Tables
    decreases |cs|
  {
    if cs == [] then t else AfterCalls(AfterCall(t, cs[0]), cs[1..])
  }

  lemma CallKeeps(t: Tables, c: ImportCall)
    requires Constrained(t.rows)
    ensures Constrained(AfterCall(t, c).rows)
  {
    hide Constrained, ValidManifest, ApplyRecords, CompensateAll, Batch;
    match c
    case ApplyFor(records, limit, lives) =>
      var left := if t.run.None? && lives > 0 then lives - 1 else lives;
      var open := OpenRun(t);
      var batch := Batch(open.run.value, records, limit);
      RecordsKeep(open, records, if left < batch then left else batch);
    case RollBack(lives) => CompensationsKeep(t, |t.ledger|, lives);
  }

  /** Whatever is applied and rolled back, and wherever processes die: no reference dangles, and no unique index is violated. */
  lemma {:induction false} ImportsKeepConstraints(t: Tables, cs: seq<ImportCall>)
    requires Constrained(t.rows)
    ensures Constrained(AfterCalls(t, cs).rows) && Unique(AfterCalls(t, cs).rows)
    decreases |cs|
  {
    hide Shaped, SlotsOnce, NoDangling, AfterCall;
    if cs == [] {
      SlotsUnique(t.rows);
    } else {
      CallKeeps(t, cs[0]);
      ImportsKeepConstraints(AfterCall(t, cs[0]), cs[1..]);
    }
  }
}
