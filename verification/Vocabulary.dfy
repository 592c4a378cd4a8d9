/** The event vocabulary as a table (internal/events/event.go): each event type's payload fields, and one rule for each field name. */
module Vocabulary {
  import opened Prelude
  import opened Events

  datatype FieldName =
    | UserField | OrganisationField | WorkspaceField | MembershipField | EntitlementField | AssignmentField | ProductField | RoleField | NameField

  function RoleText(role: Role): string {
    match role
    case NoRole => ""
    case Owner => "owner"
    case Admin => "admin"
    case Member => "member"
    case Viewer => "viewer"
  }

  /** The payload, its boolean and status constants aside. */
  function Payload(e: Event): seq<(FieldName, string)> {
    match e
    case UserCreated(u, _) => [(UserField, u)]
    case UserStatusChanged(u, _) => [(UserField, u)]
    case OrganisationCreated(o) => [(OrganisationField, o)]
    case OrganisationMembershipAdded(o, m, u, r) => [(OrganisationField, o), (MembershipField, m), (UserField, u), (RoleField, RoleText(r))]
    case OrganisationRoleChanged(o, m, u, r) => [(OrganisationField, o), (MembershipField, m), (UserField, u), (RoleField, RoleText(r))]
    case OrganisationMembershipRemoved(o, m, u, r) => [(OrganisationField, o), (MembershipField, m), (UserField, u), (RoleField, RoleText(r))]
    case OrganisationArchived(o) => [(OrganisationField, o)]
    case OrganisationRenamed(o, n) => [(OrganisationField, o), (NameField, n)]
    case WorkspaceCreated(w, o) => [(WorkspaceField, w), (OrganisationField, o)]
    case WorkspaceMembershipAdded(w, m, u, r) => [(WorkspaceField, w), (MembershipField, m), (UserField, u), (RoleField, RoleText(r))]
    case WorkspaceRoleChanged(w, m, u, r) => [(WorkspaceField, w), (MembershipField, m), (UserField, u), (RoleField, RoleText(r))]
    case WorkspaceMembershipRemoved(w, m, u, r) => [(WorkspaceField, w), (MembershipField, m), (UserField, u), (RoleField, RoleText(r))]
    case WorkspaceArchived(w) => [(WorkspaceField, w)]
    case ProductRetired(p) => [(ProductField, p)]
    case EntitlementGranted(id, o, p) => [(EntitlementField, id), (OrganisationField, o), (ProductField, p)]
    case EntitlementRevoked(id, o, p) => [(EntitlementField, id), (OrganisationField, o), (ProductField, p)]
    case AssignmentGranted(id, o, u, p) => [(AssignmentField, id), (OrganisationField, o), (UserField, u), (ProductField, p)]
    case AssignmentRevoked(id, o, u, p) => [(AssignmentField, id), (OrganisationField, o), (UserField, u), (ProductField, p)]
  }

  predicate Prefixed(prefix: string, value: string) {
    prefix <= value && |prefix| < |value|
  }

  /** validPayloadString */
  predicate ValueFits(name: FieldName, given: string) {
    var value := Trim(given);
    && value != ""
    && match name
       case UserField => Prefixed("usr_", value)
       case OrganisationField => Prefixed("org_", value)
       case WorkspaceField => Prefixed("wsp_", value)
       case MembershipField => Prefixed("omem_", value) || Prefixed("wmem_", value)
       case EntitlementField => Prefixed("ent_", value)
       case AssignmentField => Prefixed("upa_", value)
       case ProductField => Prefixed("product.", value)
       case RoleField => value in {"owner", "admin", "member", "viewer"}
       case NameField => |value| <= 200
  }

  /** validAggregateID */
  predicate AggregateFits(a: Aggregate) {
    match a.kind
    case UserAggregate => Prefixed("usr_", a.id)
    case OrganisationAggregate => Prefixed("org_", a.id)
    case WorkspaceAggregate => Prefixed("wsp_", a.id)
    case ProductAggregate => Prefixed("product.", a.id)
    case AccessAggregate => Prefixed("ent_", a.id) || Prefixed("upa_", a.id)
  }

  /** The field that names what an event is filed under. */
  function Subject(e: Event): Aggregate {
    var (name, id) := Payload(e)[0];
    Aggregate(match name
              case UserField => UserAggregate
              case OrganisationField => OrganisationAggregate
              case WorkspaceField => WorkspaceAggregate
              case ProductField => ProductAggregate
              case _ => AccessAggregate, Trim(id))
  }

  lemma RolesFit(role: Role)
    ensures ValueFits(RoleField, RoleText(role)) <==> !role.NoRole?
  {
    assert Trim("owner") == "owner" && Trim("admin") == "admin" && Trim("member") == "member" && Trim("viewer") == "viewer" && Trim("") == "";
  }

  lemma Prefixes(s: string)
    ensures ValueFits(UserField, s) <==> UserId(s)
    ensures ValueFits(OrganisationField, s) <==> OrganisationId(s)
    ensures ValueFits(WorkspaceField, s) <==> WorkspaceId(s)
    ensures ValueFits(MembershipField, s) <==> MembershipId(s)
    ensures ValueFits(EntitlementField, s) <==> EntitlementId(s)
    ensures ValueFits(AssignmentField, s) <==> AssignmentId(s)
    ensures ValueFits(ProductField, s) <==> ProductKey(s)
  {
    hide Trim;
  }

  predicate AllFit(fs: seq<(FieldName, string)>) {
    forall f :: f in fs ==> ValueFits(f.0, f.1)
  }

  lemma FitsOneByOne(a: (FieldName, string), b: (FieldName, string), c: (FieldName, string), d: (FieldName, string))
    ensures AllFit([a]) <==> ValueFits(a.0, a.1)
    ensures AllFit([a, b]) <==> ValueFits(a.0, a.1) && ValueFits(b.0, b.1)
    ensures AllFit([a, b, c]) <==> ValueFits(a.0, a.1) && ValueFits(b.0, b.1) && ValueFits(c.0, c.1)
    ensures AllFit([a, b, c, d]) <==> ValueFits(a.0, a.1) && ValueFits(b.0, b.1) && ValueFits(c.0, c.1) && ValueFits(d.0, d.1)
  {
    hide ValueFits;
    assert a in [a] && a in [a, b] && a in [a, b, c] && a in [a, b, c, d];
    assert b in [a, b] && b in [a, b, c] && b in [a, b, c, d];
    assert c in [a, b, c] && c in [a, b, c, d] && d in [a, b, c, d];
  }

  lemma MembershipFieldsIff(scope: (FieldName, string), m: string, u: string, role: Role)
    requires scope.0.OrganisationField? || scope.0.WorkspaceField?
    ensures AllFit([scope, (MembershipField, m), (UserField, u), (RoleField, RoleText(role))]) <==>
            MembershipFields(if scope.0.OrganisationField? then OrganisationId(scope.1) else WorkspaceId(scope.1), m, u, role)
  {
    hide ValueFits, AllFit, RoleText, UserId, OrganisationId, WorkspaceId, MembershipId;
    FitsOneByOne(scope, (MembershipField, m), (UserField, u), (RoleField, RoleText(role)));
    Prefixes(scope.1);
    Prefixes(m);
    Prefixes(u);
    RolesFit(role);
  }

  lemma AccessFieldsIff(id: (FieldName, string), o: string, u: string, p: string)
    requires id.0.EntitlementField? || id.0.AssignmentField?
    ensures AllFit([id, (OrganisationField, o), (ProductField, p)]) <==> ValueFits(id.0, id.1) && OrganisationId(o) && ProductKey(p)
    ensures AllFit([id, (OrganisationField, o), (UserField, u), (ProductField, p)]) <==>
            ValueFits(id.0, id.1) && OrganisationId(o) && UserId(u) && ProductKey(p)
    ensures ValueFits(id.0, id.1) <==> if id.0.EntitlementField? then EntitlementId(id.1) else AssignmentId(id.1)
  {
    hide ValueFits, AllFit, UserId, OrganisationId, EntitlementId, AssignmentId, ProductKey;
    FitsOneByOne(id, (OrganisationField, o), (UserField, u), (ProductField, p));
    FitsOneByOne(id, (OrganisationField, o), (ProductField, p), (ProductField, p));
    Prefixes(id.1);
    Prefixes(o);
    Prefixes(u);
    Prefixes(p);
  }

  lemma ShortFieldsIff(a: (FieldName, string), b: (FieldName, string))
    ensures AllFit([a]) <==> ValueFits(a.0, a.1)
    ensures AllFit([a, b]) <==> ValueFits(a.0, a.1) && ValueFits(b.0, b.1)
  {
    hide ValueFits, AllFit;
    FitsOneByOne(a, b, a, b);
  }

  /** Validation is exactly the table: an event is well formed if and only if every field of its payload meets the rule of its
      name. */
  lemma WellFormedIff(e: Event)
    ensures WellFormed(e) <==> AllFit(Payload(e))
  {
    hide Trim, ValueFits, AllFit, RoleText, UserId, OrganisationId, WorkspaceId, MembershipId, EntitlementId, AssignmentId, ProductKey,
      MembershipFields;
    match e
    case OrganisationMembershipAdded(o, m, u, r) => MembershipFieldsIff((OrganisationField, o), m, u, r);
    case OrganisationRoleChanged(o, m, u, r) => MembershipFieldsIff((OrganisationField, o), m, u, r);
    case OrganisationMembershipRemoved(o, m, u, r) => MembershipFieldsIff((OrganisationField, o), m, u, r);
    case WorkspaceMembershipAdded(w, m, u, r) => MembershipFieldsIff((WorkspaceField, w), m, u, r);
    case WorkspaceRoleChanged(w, m, u, r) => MembershipFieldsIff((WorkspaceField, w), m, u, r);
    case WorkspaceMembershipRemoved(w, m, u, r) => MembershipFieldsIff((WorkspaceField, w), m, u, r);
    case EntitlementGranted(id, o, p) => AccessFieldsIff((EntitlementField, id), o, o, p);
    case EntitlementRevoked(id, o, p) => AccessFieldsIff((EntitlementField, id), o, o, p);
    case AssignmentGranted(id, o, u, p) => AccessFieldsIff((AssignmentField, id), o, u, p);
    case AssignmentRevoked(id, o, u, p) => AccessFieldsIff((AssignmentField, id), o, u, p);
    case OrganisationRenamed(o, n) =>
      ShortFieldsIff((OrganisationField, o), (NameField, n));
      Prefixes(o);
      NameIs(n);
    case WorkspaceCreated(w, o) =>
      ShortFieldsIff((WorkspaceField, w), (OrganisationField, o));
      Prefixes(w);
      Prefixes(o);
    case UserCreated(u, _) => ShortFieldsIff((UserField, u), (UserField, u)); Prefixes(u);
    case UserStatusChanged(u, _) => ShortFieldsIff((UserField, u), (UserField, u)); Prefixes(u);
    case OrganisationCreated(o) => ShortFieldsIff((OrganisationField, o), (UserField, o)); Prefixes(o);
    case OrganisationArchived(o) => ShortFieldsIff((OrganisationField, o), (UserField, o)); Prefixes(o);
    case WorkspaceArchived(w) => ShortFieldsIff((WorkspaceField, w), (UserField, w)); Prefixes(w);
    case ProductRetired(p) => ShortFieldsIff((ProductField, p), (UserField, p)); Prefixes(p);
  }

  lemma NameIs(n: string)
    ensures ValueFits(NameField, n) <==> 0 < |Trim(n)| <= 200
  {
    hide Trim;
  }

  /** An event is filed under the entity its first field names; the id of a well-formed one carries the prefix of its kind. */
  lemma FiledUnder(e: Event)
    ensures AggregateOf(e) == Subject(e) && (WellFormed(e) ==> AggregateFits(AggregateOf(e)))
  {
    hide Trim;
  }
}
