/** Read-authority snapshots (platform_read_authority.go): canonical records taken with the outbox cursor in one transaction,
    read back in pages. */
module Snapshots {
  import opened Prelude
  import opened Events
  import opened Tables
  import opened Mutations
  import opened Runs
  import opened Integrity
  import opened Bootstrap
  import Feed

  datatype SnapshotError =
    | InvalidConsumer | InvalidRequest | MissingProvenance | SnapshotNotFound | SnapshotExpired | CursorInvalid

  const MAX_RECORDS := 10000
  const MAX_PAGE := 500
  const SECOND := 1_000_000_000
  const MAX_TTL := 24 * 60 * 60 * SECOND

  // ----- kinds -----

  const CANONICAL_KINDS: seq<Kind> :=
    [UserKind, OrganisationKind, OrganisationMembershipKind, WorkspaceKind, WorkspaceMembershipKind, ProductKind, EntitlementKind, AssignmentKind]

  function KindName(k: Kind): string {
    match k
    case UserKind => "user"
    case OrganisationKind => "organisation"
    case OrganisationMembershipKind => "organisation_membership"
    case WorkspaceKind => "workspace"
    case WorkspaceMembershipKind => "workspace_membership"
    case ProductKind => "product"
    case EntitlementKind => "organisation_product_entitlement"
    case AssignmentKind => "user_product_assignment"
  }

  function Rank(k: Kind): nat {
    match k
    case UserKind => 0
    case OrganisationKind => 1
    case OrganisationMembershipKind => 2
    case WorkspaceKind => 3
    case WorkspaceMembershipKind => 4
    case ProductKind => 5
    case EntitlementKind => 6
    case AssignmentKind => 7
  }

  /** ValidateEntityKind */
  function ParseKind(s: string): Option<Kind> {
    if s == KindName(UserKind) then Some(UserKind)
    else if s == KindName(OrganisationKind) then Some(OrganisationKind)
    else if s == KindName(OrganisationMembershipKind) then Some(OrganisationMembershipKind)
    else if s == KindName(WorkspaceKind) then Some(WorkspaceKind)
    else if s == KindName(WorkspaceMembershipKind) then Some(WorkspaceMembershipKind)
    else if s == KindName(ProductKind) then Some(ProductKind)
    else if s == KindName(EntitlementKind) then Some(EntitlementKind)
    else if s == KindName(AssignmentKind) then Some(AssignmentKind)
    else None
  }

  /** The kinds a request lists: known, and each once. */
  ghost predicate ListsKinds(values: seq<string>, kinds: set<Kind>) {
    && 0 < |values| <= |CANONICAL_KINDS|
    && (forall i :: 0 <= i < |values| ==> ParseKind(Trim(values[i])).Some? && ParseKind(Trim(values[i])).value in kinds)
    && (forall i, j | 0 <= i < j < |values| :: ParseKind(Trim(values[i])) != ParseKind(Trim(values[j])))
    && (forall k :: k in kinds ==> exists i :: 0 <= i < |values| && ParseKind(Trim(values[i])) == Some(k))
  }

  ghost predicate RankOrder(kinds: seq<Kind>) {
    forall i, j | 0 <= i < j < |kinds| :: Rank(kinds[i]) < Rank(kinds[j])
  }

  ghost function KindSet(kinds: seq<Kind>): set<Kind> {
    set k | k in kinds
  }

  /** validateReadAuthorityKinds: the canonical kinds among those listed, whatever order the request lists them in. */
  method ValidateKinds(values: seq<string>) returns (r: Result<seq<Kind>, SnapshotError>)
    ensures r.Ok? <==> exists kinds :: ListsKinds(values, kinds)
    ensures r.Ok? ==> RankOrder(r.value) && ListsKinds(values, KindSet(r.value))
    ensures r.Err? ==> r.error == InvalidRequest
  {
    hide ParseKind, Trim, Rank;
    if |values| == 0 || |values| > |CANONICAL_KINDS| { return Err(InvalidRequest); }
    var seen: set<Kind> := {};
    var i := 0;
    while i < |values|
      invariant 0 <= i <= |values|
      invariant forall j :: 0 <= j < i ==> ParseKind(Trim(values[j])).Some? && ParseKind(Trim(values[j])).value in seen
      invariant forall j, l | 0 <= j < l < i :: ParseKind(Trim(values[j])) != ParseKind(Trim(values[l]))
      invariant forall k :: k in seen ==> exists j :: 0 <= j < i && ParseKind(Trim(values[j])) == Some(k)
    {
      var kind := ParseKind(Trim(values[i]));
      if kind.None? || kind.value in seen { return Err(InvalidRequest); }
      seen := seen + {kind.value};
      i := i + 1;
    }
    assert ListsKinds(values, seen);
    var ordered := Canonically(seen);
    assert KindSet(ordered) == seen;
    return Ok(ordered);
  }

  method Canonically(seen: set<Kind>) returns (ordered: seq<Kind>)
    ensures RankOrder(ordered) && forall k :: k in ordered <==> k in seen
  {
    ordered := [];
    var i := 0;
    while i < |CANONICAL_KINDS|
      invariant 0 <= i <= |CANONICAL_KINDS|
      invariant RankOrder(ordered)
      invariant forall k :: k in ordered <==> k in seen && Rank(k) < i
    {
      if CANONICAL_KINDS[i] in seen { ordered := ordered + [CANONICAL_KINDS[i]]; }
      assert forall k :: Rank(k) == i <==> k == CANONICAL_KINDS[i];
      i := i + 1;
    }
  }

  // ----- the canonical order -----

  /** Byte order, as both the database and the sort compare ids. */
  predicate LexLess(a: string, b: string) {
    b != [] && (a == [] || a[0] < b[0] || (a[0] == b[0] && LexLess(a[1..], b[1..])))
  }

  lemma {:induction false} LexTotal(a: string, b: string)
    ensures (LexLess(a, b) || LexLess(b, a)) <==> a != b
    ensures !(LexLess(a, b) && LexLess(b, a))
    decreases |a|
  {
    if a != [] && b != [] && a[0] == b[0] {
      LexTotal(a[1..], b[1..]);
      assert a == [a[0]] + a[1..] && b == [b[0]] + b[1..];
    }
  }

  lemma {:induction false} LexTransitive(a: string, b: string, c: string)
    requires LexLess(a, b) && LexLess(b, c)
    ensures LexLess(a, c)
    decreases |a|
  {
    if a != [] && a[0] == b[0] && b[0] == c[0] { LexTransitive(a[1..], b[1..], c[1..]); }
  }

  predicate KeyLess(a: Key, b: Key) {
    Rank(a.kind) < Rank(b.kind) || (a.kind == b.kind && LexLess(a.id, b.id))
  }

  lemma KeyTotal(a: Key, b: Key)
    ensures (KeyLess(a, b) || KeyLess(b, a)) <==> a != b
    ensures !(KeyLess(a, b) && KeyLess(b, a))
  {
    LexTotal(a.id, b.id);
  }

  ghost predicate SortedKeys(ks: seq<Key>) {
    forall i, j | 0 <= i < j < |ks| :: KeyLess(ks[i], ks[j])
  }

  /** Two canonically sorted sequences of the same keys are the same sequence. */
  lemma {:induction false} SortedUnique(ks: seq<Key>, ls: seq<Key>)
    requires SortedKeys(ks) && SortedKeys(ls) && forall k :: k in ks <==> k in ls
    ensures ks == ls
    decreases |ks|
  {
    hide KeyLess;
    var first := if ls == [] then Key(UserKind, "") else ls[0];
    assert ls != [] ==> first in ls;
    if ks == [] {
    } else {
      assert ks[0] in ls && ls != [];
      assert ls[0] in ks;
      KeyTotal(ks[0], ls[0]);
      FirstIsLeast(ks, ls[0]);
      FirstIsLeast(ls, ks[0]);
      forall k
        ensures k in ks[1..] <==> k in ls[1..]
      {
        KeyTotal(ks[0], ks[0]);
        assert k in ks <==> k == ks[0] || k in ks[1..];
        assert k in ls <==> k == ls[0] || k in ls[1..];
      }
      SortedUnique(ks[1..], ls[1..]);
    }
  }

  lemma FirstIsLeast(ks: seq<Key>, k: Key)
    requires SortedKeys(ks) && k in ks
    ensures k == ks[0] || KeyLess(ks[0], k)
  {
    hide KeyLess;
  }

  // ----- provenance -----

  datatype Provenance = FromEvent(cursor: int, sequence: int) | FromMigration

  function MembershipOf(e: Event): Option<string> {
    match e
    case OrganisationMembershipAdded(_, m, _, _) => Some(m)
    case OrganisationRoleChanged(_, m, _, _) => Some(m)
    case OrganisationMembershipRemoved(_, m, _, _) => Some(m)
    case WorkspaceMembershipAdded(_, m, _, _) => Some(m)
    case WorkspaceRoleChanged(_, m, _, _) => Some(m)
    case WorkspaceMembershipRemoved(_, m, _, _) => Some(m)
    case _ => None
  }

  /** The aggregate a record's events are filed under. */
  function SourceAggregate(k: Key, r: Record): Aggregate {
    match k.kind
    case UserKind => Aggregate(UserAggregate, k.id)
    case OrganisationKind => Aggregate(OrganisationAggregate, k.id)
    case OrganisationMembershipKind => Aggregate(OrganisationAggregate, r.organisation)
    case WorkspaceKind => Aggregate(WorkspaceAggregate, k.id)
    case WorkspaceMembershipKind => Aggregate(WorkspaceAggregate, r.workspace)
    case ProductKind => Aggregate(ProductAggregate, k.id)
    case EntitlementKind => Aggregate(AccessAggregate, k.id)
    case AssignmentKind => Aggregate(AccessAggregate, k.id)
  }

  predicate IsMembershipKind(k: Kind) {
    k.OrganisationMembershipKind? || k.WorkspaceMembershipKind?
  }

  predicate IsSource(row: OutboxRow, k: Key, r: Record) {
    row.aggregate == SourceAggregate(k, r) && (IsMembershipKind(k.kind) ==> MembershipOf(row.event) == Some(k.id))
  }

  /** `ORDER BY id DESC LIMIT 1` */
  function Latest(outbox: seq<OutboxRow>, k: Key, r: Record): (row: Option<OutboxRow>)
    ensures row.Some? ==> row.value in outbox && IsSource(row.value, k, r)
    ensures row.None? ==> forall i :: 0 <= i < |outbox| ==> !IsSource(outbox[i], k, r)
  {
    if outbox == [] then None
    else if IsSource(outbox[|outbox| - 1], k, r) then Some(outbox[|outbox| - 1])
    else Latest(outbox[..|outbox| - 1], k, r)
  }

  predicate Seeded(k: Key, r: Record) {
    k.kind.ProductKind? && r.status.Active? && (k.id == CTRL_PRODUCT || k.id == IMS_PRODUCT)
  }

  /** Where a record came from: its latest event, or for a seeded product without events the migration. */
  function ProvenanceOf(outbox: seq<OutboxRow>, k: Key, r: Record): Option<Provenance> {
    match Latest(outbox, k, r)
    case Some(row) => Some(FromEvent(row.id, row.sequence))
    case None => if Seeded(k, r) then Some(FromMigration) else None
  }

  predicate SameRelations(r: Record, s: Record) {
    r.organisation == s.organisation && r.workspace == s.workspace
  }

  /** The event names the record, up to surrounding whitespace in the aggregate id. */
  predicate Names(e: Event, k: Key, r: Record) {
    && AggregateOf(e) == Aggregate(SourceAggregate(k, r).kind, Trim(SourceAggregate(k, r).id))
    && (IsMembershipKind(k.kind) ==> MembershipOf(e) == Some(k.id))
  }

  /** Folding an event leaves a record alone, changes its status only, or names it. */
  lemma FoldNames(f: Facts, e: Event, k: Key)
    requires k in Fold(f, e)
    ensures (k in f && SameRelations(f[k], Fold(f, e)[k]) && (k.kind.ProductKind? ==> f[k] == Fold(f, e)[k])) || Names(e, k, Fold(f, e)[k])
  {
    TrimTwice(k.id);
    if e.EntitlementGranted? || e.EntitlementRevoked? { TrimTwice(e.entitlement); }
    if e.AssignmentGranted? || e.AssignmentRevoked? { TrimTwice(e.assignment); }
    hide Trim;
  }

  lemma {:induction false} FoldAllNames(f: Facts, es: seq<Event>, k: Key)
    requires k in FoldAll(f, es)
    ensures (k in f && SameRelations(f[k], FoldAll(f, es)[k]) && (k.kind.ProductKind? ==> f[k] == FoldAll(f, es)[k]))
            || exists i :: 0 <= i < |es| && Names(es[i], k, FoldAll(f, es)[k])
    decreases |es|
  {
    hide Fold, AggregateOf, MembershipOf, Trim;
    if es != [] {
      var g, last := Fold(f, es[0]), FoldAll(f, es)[k];
      FoldAllNames(g, es[1..], k);
      if k in g && SameRelations(g[k], last) {
        FoldNames(f, es[0], k);
        if Names(es[0], k, g[k]) { assert Names(es[0], k, last); }
      }
      if i :| 0 <= i < |es[1..]| && Names(es[1..][i], k, last) { assert Names(es[i + 1], k, last); }
    }
  }

  lemma {:induction false} GaplessAggregates(rows: seq<OutboxRow>)
    requires Gapless(rows)
    ensures forall i :: 0 <= i < |rows| ==> rows[i].aggregate == AggregateOf(rows[i].event)
  {
    hide AggregateOf;
    if rows != [] { GaplessAggregates(rows[..|rows| - 1]); }
  }

  lemma AggregateTrimmed(e: Event)
    ensures Trim(AggregateOf(e).id) == AggregateOf(e).id
  {
    hide Trim;
    match e
    case UserCreated(u, _) => TrimTwice(u);
    case UserStatusChanged(u, _) => TrimTwice(u);
    case OrganisationCreated(o) => TrimTwice(o);
    case OrganisationMembershipAdded(o, _, _, _) => TrimTwice(o);
    case OrganisationRoleChanged(o, _, _, _) => TrimTwice(o);
    case OrganisationMembershipRemoved(o, _, _, _) => TrimTwice(o);
    case OrganisationArchived(o) => TrimTwice(o);
    case OrganisationRenamed(o, _) => TrimTwice(o);
    case WorkspaceCreated(w, _) => TrimTwice(w);
    case WorkspaceMembershipAdded(w, _, _, _) => TrimTwice(w);
    case WorkspaceRoleChanged(w, _, _, _) => TrimTwice(w);
    case WorkspaceMembershipRemoved(w, _, _, _) => TrimTwice(w);
    case WorkspaceArchived(w) => TrimTwice(w);
    case ProductRetired(p) => TrimTwice(p);
    case EntitlementGranted(id, _, _) => TrimTwice(id);
    case EntitlementRevoked(id, _, _) => TrimTwice(id);
    case AssignmentGranted(id, _, _, _) => TrimTwice(id);
    case AssignmentRevoked(id, _, _, _) => TrimTwice(id);
  }

  const SEED_FACTS: Facts :=
    map[Key(ProductKind, CTRL_PRODUCT) := ProductRecord(true), Key(ProductKind, IMS_PRODUCT) := ProductRecord(true)]

  lemma SeedMirrors()
    ensures Mirrors(SEED_FACTS, MIGRATED)
  {
  }

  /** The facts of any canonical run are the seed folded with the whole outbox. */
  lemma HistoryMirrors(ms: seq<Mutation>)
    requires forall i :: 0 <= i < |ms| ==> Canonical(ms[i])
    ensures Gapless(Run(MIGRATED, ms).outbox)
    ensures Mirrors(FoldAll(SEED_FACTS, Payloads(Run(MIGRATED, ms).outbox)), Run(MIGRATED, ms))
  {
    hide Inv, Mirrors, Canonical, Run, FoldAll;
    MigratedInv();
    SeedMirrors();
    RunFollows(SEED_FACTS, MIGRATED, ms);
    RunKeeps(MIGRATED, ms);
    assert NewEvents(MIGRATED, Run(MIGRATED, ms)) == Payloads(Run(MIGRATED, ms).outbox);
    Ready(Run(MIGRATED, ms));
  }

  /** After any canonical run, a record has provenance if and only if the id its events are filed under carries no
      surrounding whitespace, or the record is a seeded product: a snapshot never fails for want of an event otherwise. */
  lemma ProvenanceIff(ms: seq<Mutation>, k: Key)
    requires forall i :: 0 <= i < |ms| ==> Canonical(ms[i])
    requires RecordAt(Run(MIGRATED, ms), k).Some?
    ensures var db := Run(MIGRATED, ms);
            var r := RecordAt(db, k).value;
            ProvenanceOf(db.outbox, k, r).Some? <==> Trim(SourceAggregate(k, r).id) == SourceAggregate(k, r).id || Seeded(k, r)
  {
    hide Canonical, Run, FoldAll, RecordAt, AggregateOf, MembershipOf, Trim, Gapless, SourceAggregate, Seeded;
    var db := Run(MIGRATED, ms);
    var r := RecordAt(db, k).value;
    HistoryMirrors(ms);
    var f := FoldAll(SEED_FACTS, Payloads(db.outbox));
    assert Lookup(f, k) == RecordAt(db, k);
    FoldAllNames(SEED_FACTS, Payloads(db.outbox), k);
    GaplessAggregates(db.outbox);
    PayloadsLength(db.outbox);
    if i :| 0 <= i < |db.outbox| && Names(Payloads(db.outbox)[i], k, r) {
      assert Trim(SourceAggregate(k, r).id) == SourceAggregate(k, r).id ==> IsSource(db.outbox[i], k, r);
    } else {
      SeedRecord(k, r);
    }
    var latest := Latest(db.outbox, k, r);
    if latest.Some? { AggregateTrimmed(latest.value.event); }
  }

  lemma SeedRecord(k: Key, r: Record)
    ensures k in SEED_FACTS && (k.kind.ProductKind? ==> SEED_FACTS[k] == r) ==> Seeded(k, r)
  {
  }

  // ----- a record without provenance -----

  const PADDED_WORKSPACE: seq<Mutation> :=
    [MCreateUser("usr_a", true), MCreateOrganisation("usr_a", "org_1", "One", "omem_1"),
     MCreateWorkspace("usr_a", "org_1", "wsp_1 ", "One", "wmem_1")]

  lemma PaddedWorkspaceIds()
    ensures Trim("usr_a") == "usr_a" && Trim("org_1") == "org_1" && Trim("One") == "One" && Trim("wsp_1 ") == "wsp_1"
    ensures Trim("omem_1") == "omem_1" && Trim("wmem_1") == "wmem_1"
  {
    assert "wsp_1 "[..5] == "wsp_1" && TrimRight("wsp_1 ") == TrimRight("wsp_1");
  }

  lemma PaddedWorkspaceEvents()
    ensures WellFormed(UserCreated("usr_a", true)) && WellFormed(OrganisationCreated("org_1"))
    ensures WellFormed(OrganisationMembershipAdded("org_1", "omem_1", "usr_a", Owner))
    ensures WellFormed(WorkspaceCreated("wsp_1 ", "org_1")) && WellFormed(WorkspaceMembershipAdded("wsp_1 ", "wmem_1", "usr_a", Admin))
    ensures HasIdPrefix("usr_", "usr_a") && HasIdPrefix("org_", "org_1") && HasIdPrefix("wsp_", "wsp_1 ")
  {
    PaddedWorkspaceIds();
    hide Trim;
    assert HasIdPrefix("usr_", "usr_a") && HasIdPrefix("org_", "org_1") && HasIdPrefix("wsp_", "wsp_1") && HasIdPrefix("wsp_", "wsp_1 ");
    assert HasIdPrefix("omem_", "omem_1") && HasIdPrefix("wmem_", "wmem_1");
  }

  lemma PaddedFounding()
    ensures var two := Step(Step(MIGRATED, PADDED_WORKSPACE[0]), PADDED_WORKSPACE[1]);
            && two.users == map["usr_a" := true] && two.admins == {} && two.workspaces == map[] && two.workspaceMembers == map[]
            && two.organisations == map["org_1" := Organisation("One", true)]
            && two.members == map["omem_1" := Membership("org_1", "usr_a", Owner, true, 1)]
  {
    PaddedWorkspaceIds();
    PaddedWorkspaceEvents();
    hide Trim, WellFormed, AppendAll, HasIdPrefix, Current;
  }

  lemma PaddedCreation(db: Database)
    requires db.users == map["usr_a" := true] && db.admins == {} && db.workspaces == map[] && db.workspaceMembers == map[]
    requires db.organisations == map["org_1" := Organisation("One", true)]
    requires db.members == map["omem_1" := Membership("org_1", "usr_a", Owner, true, 1)]
    ensures var end := Step(db, PADDED_WORKSPACE[2]); "wsp_1 " in end.workspaces && end.workspaces["wsp_1 "] == Workspace("org_1", true)
  {
    PaddedWorkspaceIds();
    PaddedWorkspaceEvents();
    hide Trim, WellFormed, AppendAll, HasIdPrefix, Current;
    assert IsCurrent(db.members, "omem_1", "org_1", "usr_a");
    assert Current(db.members, "org_1", "usr_a") == Some("omem_1");
  }

  /** The owner of "org_1" creates the workspace "wsp_1 ", under an id it chose; its events are filed under "wsp_1", so the
      workspace has no provenance and a snapshot that includes workspaces fails. */
  lemma PaddedWorkspaceHasNoProvenance()
    ensures forall i :: 0 <= i < |PADDED_WORKSPACE| ==> Canonical(PADDED_WORKSPACE[i])
    ensures var db := Run(MIGRATED, PADDED_WORKSPACE);
            var k := Key(WorkspaceKind, "wsp_1 ");
            RecordAt(db, k) == Some(WorkspaceRecord("org_1", true)) && ProvenanceOf(db.outbox, k, RecordAt(db, k).value).None?
  {
    PaddedWorkspaceIds();
    hide Trim, Step, ProvenanceOf;
    PaddedFounding();
    PaddedCreation(Step(Step(MIGRATED, PADDED_WORKSPACE[0]), PADDED_WORKSPACE[1]));
    assert PADDED_WORKSPACE[1..][1..][1..] == [];
    ProvenanceIff(PADDED_WORKSPACE, Key(WorkspaceKind, "wsp_1 "));
  }
}
