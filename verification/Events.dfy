/** The platform event vocabulary (internal/events/event.go) and the outbox table it is appended to
    (internal/db/sqlite/events.go). */
module Events {
  import opened Prelude

  datatype Role = NoRole | Owner | Admin | Member | Viewer

  datatype AggregateType = UserAggregate | OrganisationAggregate | WorkspaceAggregate | ProductAggregate | AccessAggregate

  datatype Aggregate = Aggregate(kind: AggregateType, id: string)

  /** One constructor per event type; the payload's constant fields (`active`, `status`) are implied by it. */
  datatype Event =
    | UserCreated(user: string, active: bool)
    | UserStatusChanged(user: string, active: bool)
    | OrganisationCreated(organisation: string)
    | OrganisationMembershipAdded(organisation: string, membership: string, user: string, role: Role)
    | OrganisationRoleChanged(organisation: string, membership: string, user: string, role: Role)
    | OrganisationMembershipRemoved(organisation: string, membership: string, user: string, role: Role)
    | OrganisationArchived(organisation: string)
    | OrganisationRenamed(organisation: string, name: string)
    | WorkspaceCreated(workspace: string, organisation: string)
    | WorkspaceMembershipAdded(workspace: string, membership: string, user: string, role: Role)
    | WorkspaceRoleChanged(workspace: string, membership: string, user: string, role: Role)
    | WorkspaceMembershipRemoved(workspace: string, membership: string, user: string, role: Role)
    | WorkspaceArchived(workspace: string)
    | ProductRetired(product: string)
    | EntitlementGranted(entitlement: string, organisation: string, product: string)
    | EntitlementRevoked(entitlement: string, organisation: string, product: string)
    | AssignmentGranted(assignment: string, organisation: string, user: string, product: string)
    | AssignmentRevoked(assignment: string, organisation: string, user: string, product: string)

  /** The aggregate an event is filed under. Aggregate ids are trimmed, payload ids are not. */
  function AggregateOf(e: Event): Aggregate {
    match e
    case UserCreated(u, _) => Aggregate(UserAggregate, Trim(u))
    case UserStatusChanged(u, _) => Aggregate(UserAggregate, Trim(u))
    case OrganisationCreated(o) => Aggregate(OrganisationAggregate, Trim(o))
    case OrganisationMembershipAdded(o, _, _, _) => Aggregate(OrganisationAggregate, Trim(o))
    case OrganisationRoleChanged(o, _, _, _) => Aggregate(OrganisationAggregate, Trim(o))
    case OrganisationMembershipRemoved(o, _, _, _) => Aggregate(OrganisationAggregate, Trim(o))
    case OrganisationArchived(o) => Aggregate(OrganisationAggregate, Trim(o))
    case OrganisationRenamed(o, _) => Aggregate(OrganisationAggregate, Trim(o))
    case WorkspaceCreated(w, _) => Aggregate(WorkspaceAggregate, Trim(w))
    case WorkspaceMembershipAdded(w, _, _, _) => Aggregate(WorkspaceAggregate, Trim(w))
    case WorkspaceRoleChanged(w, _, _, _) => Aggregate(WorkspaceAggregate, Trim(w))
    case WorkspaceMembershipRemoved(w, _, _, _) => Aggregate(WorkspaceAggregate, Trim(w))
    case WorkspaceArchived(w) => Aggregate(WorkspaceAggregate, Trim(w))
    case ProductRetired(p) => Aggregate(ProductAggregate, Trim(p))
    case EntitlementGranted(id, _, _) => Aggregate(AccessAggregate, Trim(id))
    case EntitlementRevoked(id, _, _) => Aggregate(AccessAggregate, Trim(id))
    case AssignmentGranted(id, _, _, _) => Aggregate(AccessAggregate, Trim(id))
    case AssignmentRevoked(id, _, _, _) => Aggregate(AccessAggregate, Trim(id))
  }

  predicate UserId(s: string) { HasIdPrefix("usr_", Trim(s)) }
  predicate OrganisationId(s: string) { HasIdPrefix("org_", Trim(s)) }
  predicate WorkspaceId(s: string) { HasIdPrefix("wsp_", Trim(s)) }
  predicate MembershipId(s: string) { HasIdPrefix("omem_", Trim(s)) || HasIdPrefix("wmem_", Trim(s)) }
  predicate ProductKey(s: string) { HasIdPrefix("product.", Trim(s)) }
  predicate EntitlementId(s: string) { HasIdPrefix("ent_", Trim(s)) }
  predicate AssignmentId(s: string) { HasIdPrefix("upa_", Trim(s)) }

  predicate MembershipFields(scopeOk: bool, membership: string, user: string, role: Role) {
    scopeOk && MembershipId(membership) && UserId(user) && !role.NoRole?
  }

  /** Payload validation against the fixed field table: every id carries its prefix. The bound of 4096 bytes on the payload and
      the check that the event's time is not zero are not part of it. */
  predicate WellFormed(e: Event) {
    match e
    case UserCreated(u, _) => UserId(u)
    case UserStatusChanged(u, _) => UserId(u)
    case OrganisationCreated(o) => OrganisationId(o)
    case OrganisationMembershipAdded(o, m, u, r) => MembershipFields(OrganisationId(o), m, u, r)
    case OrganisationRoleChanged(o, m, u, r) => MembershipFields(OrganisationId(o), m, u, r)
    case OrganisationMembershipRemoved(o, m, u, r) => MembershipFields(OrganisationId(o), m, u, r)
    case OrganisationArchived(o) => OrganisationId(o)
    case OrganisationRenamed(o, n) => OrganisationId(o) && 0 < |Trim(n)| <= 200
    case WorkspaceCreated(w, o) => WorkspaceId(w) && OrganisationId(o)
    case WorkspaceMembershipAdded(w, m, u, r) => MembershipFields(WorkspaceId(w), m, u, r)
    case WorkspaceRoleChanged(w, m, u, r) => MembershipFields(WorkspaceId(w), m, u, r)
    case WorkspaceMembershipRemoved(w, m, u, r) => MembershipFields(WorkspaceId(w), m, u, r)
    case WorkspaceArchived(w) => WorkspaceId(w)
    case ProductRetired(p) => ProductKey(p)
    case EntitlementGranted(id, o, p) => EntitlementId(id) && OrganisationId(o) && ProductKey(p)
    case EntitlementRevoked(id, o, p) => EntitlementId(id) && OrganisationId(o) && ProductKey(p)
    case AssignmentGranted(id, o, u, p) => AssignmentId(id) && OrganisationId(o) && UserId(u) && ProductKey(p)
    case AssignmentRevoked(id, o, u, p) => AssignmentId(id) && OrganisationId(o) && UserId(u) && ProductKey(p)
  }

  /** A row of platform_outbox: `id` is the global cursor, `sequence` counts within the aggregate. */
  datatype OutboxRow = OutboxRow(id: int, aggregate: Aggregate, sequence: int, event: Event)

  function Payloads(rows: seq<OutboxRow>): seq<Event> {
    if rows == [] then [] else Payloads(rows[..|rows| - 1]) + [rows[|rows| - 1].event]
  }

  /** How many rows the aggregate already has. */
  function Count(rows: seq<OutboxRow>, a: Aggregate): nat {
    if rows == [] then 0
    else Count(rows[..|rows| - 1], a) + (if rows[|rows| - 1].aggregate == a then 1 else 0)
  }

  /** Append by position: the next id is the row count plus one, the next sequence the aggregate's row count plus one. */
  function Append(rows: seq<OutboxRow>, e: Event): seq<OutboxRow> {
    rows + [OutboxRow(|rows| + 1, AggregateOf(e), Count(rows, AggregateOf(e)) + 1, e)]
  }

  function AppendAll(rows: seq<OutboxRow>, es: seq<Event>): seq<OutboxRow>
    decreases |es|
  {
    if es == [] then rows else AppendAll(Append(rows, es[0]), es[1..])
  }

  /** Ids are exactly 1..N, and every aggregate's sequences are exactly 1..k in id order. */
  ghost predicate Gapless(rows: seq<OutboxRow>) {
    rows == [] ||
    var last := rows[|rows| - 1];
    && Gapless(rows[..|rows| - 1])
    && last.id == |rows|
    && last.aggregate == AggregateOf(last.event)
    && last.sequence == Count(rows[..|rows| - 1], last.aggregate) + 1
  }

  lemma AppendGapless(rows: seq<OutboxRow>, e: Event)
    requires Gapless(rows)
    ensures Gapless(Append(rows, e))
    ensures Payloads(Append(rows, e)) == Payloads(rows) + [e]
    ensures rows <= Append(rows, e) && |Append(rows, e)| == |rows| + 1
  {
    assert Append(rows, e)[..|rows|] == rows;
  }

  lemma {:induction false} AppendAllGapless(rows: seq<OutboxRow>, es: seq<Event>)
    requires Gapless(rows)
    ensures Gapless(AppendAll(rows, es))
    ensures rows <= AppendAll(rows, es)
    ensures |AppendAll(rows, es)| == |rows| + |es|
    ensures Payloads(AppendAll(rows, es)) == Payloads(rows) + es
    decreases |es|
  {
    if es == [] {
    } else {
      AppendGapless(rows, es[0]);
      AppendAllGapless(Append(rows, es[0]), es[1..]);
      assert Payloads(rows) + es == Payloads(rows) + [es[0]] + es[1..];
    }
  }

  lemma {:induction false} PayloadsLength(rows: seq<OutboxRow>)
    ensures |Payloads(rows)| == |rows|
    ensures forall i :: 0 <= i < |rows| ==> Payloads(rows)[i] == rows[i].event
  {
    if rows != [] {
      PayloadsLength(rows[..|rows| - 1]);
    }
  }

  /** Row `i` of a gapless outbox has id i+1. */
  lemma {:induction false} GaplessIds(rows: seq<OutboxRow>)
    requires Gapless(rows)
    ensures forall i :: 0 <= i < |rows| ==> rows[i].id == i + 1
  {
    if rows != [] {
      GaplessIds(rows[..|rows| - 1]);
    }
  }

  ghost predicate SequenceAt(rows: seq<OutboxRow>, a: Aggregate, s: int) {
    exists i :: 0 <= i < |rows| && rows[i].aggregate == a && rows[i].sequence == s
  }

  /** Sequences of one aggregate are exactly 1..k: every value is used, in increasing id order, and none lies outside. */
  lemma {:induction false} SequencesExact(rows: seq<OutboxRow>, a: Aggregate)
    requires Gapless(rows)
    ensures forall s :: SequenceAt(rows, a, s) <==> 1 <= s <= Count(rows, a)
    ensures forall i, j :: 0 <= i < j < |rows| && rows[i].aggregate == rows[j].aggregate == a ==> rows[i].sequence < rows[j].sequence
  {
    if rows != [] {
      var n := |rows| - 1;
      var init := rows[..n];
      SequencesExact(init, a);
      forall s
        ensures SequenceAt(rows, a, s) <==> SequenceAt(init, a, s) || (rows[n].aggregate == a && rows[n].sequence == s)
      {
        if SequenceAt(init, a, s) {
          var i :| 0 <= i < |init| && init[i].aggregate == a && init[i].sequence == s;
          assert rows[i] == init[i];
        }
      }
      forall i, j | 0 <= i < j < |rows| && rows[i].aggregate == rows[j].aggregate == a
        ensures rows[i].sequence < rows[j].sequence
      {
        assert rows[i] == init[i] && SequenceAt(init, a, rows[i].sequence);
        if j < n { assert rows[j] == init[j]; }
      }
    }
  }
}
