/** Taking a snapshot and reading it back page by page (platform_read_authority.go). */
module SnapshotReads {
  import opened Prelude
  import opened Events
  import opened Tables
  import opened Mutations
  import opened Runs
  import opened Integrity
  import opened Bootstrap
  import opened Snapshots
  import Cursors
  import Feed

  datatype SnapshotRecord = SnapshotRecord(key: Key, fact: Record, source: Provenance)

  predicate ValidReader(consumer: string) {
    consumer == "tockrctrl" || consumer == "tockrims"
  }

  type Reader = s: string | ValidReader(s) witness "tockrims"

  /** newReadAuthorityID: "snap_" and random bytes in URL base64. */
  type SnapshotId = s: string | "snap_" <= s && Cursors.Plain(s) witness "snap_"

  /** `source` is the outbox cursor of the same transaction. */
  datatype Snapshot = Snapshot(id: SnapshotId, consumer: Reader, source: int, createdAt: int, expiresAt: int, pageSize: int,
                               records: seq<SnapshotRecord>)

  function Keys(records: seq<SnapshotRecord>): seq<Key> {
    seq(|records|, i requires 0 <= i < |records| => records[i].key)
  }

  ghost predicate TrueRecord(db: Database, s: SnapshotRecord) {
    RecordAt(db, s.key) == Some(s.fact) && ProvenanceOf(db.outbox, s.key, s.fact) == Some(s.source)
  }

  ghost predicate Wanted(db: Database, kinds: set<Kind>, k: Key) {
    k.kind in kinds && RecordAt(db, k).Some?
  }

  /** The records of these kinds: every fact of the tables, once, with its provenance, in canonical order. */
  ghost predicate Materialised(records: seq<SnapshotRecord>, db: Database, kinds: set<Kind>) {
    && SortedKeys(Keys(records))
    && (forall i :: 0 <= i < |records| ==> TrueRecord(db, records[i]))
    && (forall k :: k in Keys(records) <==> Wanted(db, kinds, k))
  }

  /** The tables and the kinds determine the snapshot, record for record. */
  lemma MaterialisedUnique(xs: seq<SnapshotRecord>, ys: seq<SnapshotRecord>, db: Database, kinds: set<Kind>)
    requires Materialised(xs, db, kinds) && Materialised(ys, db, kinds)
    ensures xs == ys
  {
    hide RecordAt, ProvenanceOf;
    SortedUnique(Keys(xs), Keys(ys));
    assert |xs| == |Keys(xs)| && |ys| == |Keys(ys)|;
    forall i | 0 <= i < |xs|
      ensures xs[i] == ys[i]
    {
      assert Keys(xs)[i] == Keys(ys)[i];
      assert TrueRecord(db, xs[i]) && TrueRecord(db, ys[i]);
    }
  }

  function Names(values: seq<string>): set<string> {
    set s | s in values :: Trim(s)
  }

  lemma KindsFollowNames(values: seq<string>, other: seq<string>, kinds: set<Kind>, others: set<Kind>)
    requires ListsKinds(values, kinds) && ListsKinds(other, others) && Names(values) <= Names(other)
    ensures kinds <= others
  {
    hide ParseKind, Trim;
    forall k | k in kinds
      ensures k in others
    {
      var i :| 0 <= i < |values| && ParseKind(Trim(values[i])) == Some(k);
      assert Trim(values[i]) in Names(values);
      var t :| t in other && Trim(t) == Trim(values[i]);
      var j :| 0 <= j < |other| && other[j] == t;
    }
  }

  /** Requests that list the same kinds in different orders, or with different padding, get the same records. */
  lemma KindOrderDoesNotMatter(values: seq<string>, other: seq<string>, kinds: set<Kind>, others: set<Kind>, db: Database,
                               xs: seq<SnapshotRecord>, ys: seq<SnapshotRecord>)
    requires ListsKinds(values, kinds) && ListsKinds(other, others) && Names(values) == Names(other)
    requires Materialised(xs, db, kinds) && Materialised(ys, db, others)
    ensures xs == ys
  {
    hide ListsKinds, Materialised;
    KindsFollowNames(values, other, kinds, others);
    KindsFollowNames(other, values, others, kinds);
    assert kinds == others;
    MaterialisedUnique(xs, ys, db, kinds);
  }

  // ----- taking a snapshot -----

  function IdsOf(db: Database, kind: Kind): set<string> {
    match kind
    case UserKind => db.users.Keys
    case OrganisationKind => db.organisations.Keys
    case OrganisationMembershipKind => db.members.Keys
    case WorkspaceKind => db.workspaces.Keys
    case WorkspaceMembershipKind => db.workspaceMembers.Keys
    case ProductKind => db.products.Keys
    case EntitlementKind => db.entitlements.Keys
    case AssignmentKind => db.assignments.Keys
  }

  lemma IdsAreKeys(db: Database, kind: Kind, id: string)
    ensures id in IdsOf(db, kind) <==> RecordAt(db, Key(kind, id)).Some?
  {
  }

  ghost predicate SortedIds(ids: seq<string>) {
    forall i, j | 0 <= i < j < |ids| :: LexLess(ids[i], ids[j])
  }

  /** The least of some ids. */
  method LeastOf(ids: set<string>) returns (least: string)
    requires ids != {}
    ensures least in ids && forall id :: id in ids && id != least ==> LexLess(least, id)
  {
    least :| least in ids;
    var rest := ids - {least};
    while rest != {}
      invariant rest <= ids && least in ids && least !in rest
      invariant forall id :: id in ids && id !in rest && id != least ==> LexLess(least, id)
      decreases |rest|
    {
      var id :| id in rest;
      LexTotal(id, least);
      if LexLess(id, least) {
        forall other | other in ids && other !in rest && other != least
          ensures LexLess(id, other)
        {
          LexTransitive(id, least, other);
        }
        least := id;
      }
      rest := rest - {id};
    }
  }

  /** `ORDER BY public_id` */
  method ReadOrdered(ids: set<string>) returns (ordered: seq<string>)
    ensures SortedIds(ordered) && forall id :: id in ordered <==> id in ids
  {
    ordered := [];
    var rest := ids;
    while rest != {}
      invariant rest <= ids && SortedIds(ordered)
      invariant forall id :: id in ordered <==> id in ids && id !in rest
      invariant forall i, id | 0 <= i < |ordered| && id in rest :: LexLess(ordered[i], id)
      decreases |rest|
    {
      var least := LeastOf(rest);
      ordered := ordered + [least];
      rest := rest - {least};
    }
  }

  /** The records of one kind. */
  method MaterialiseKind(db: Database, kind: Kind) returns (r: Result<seq<SnapshotRecord>, SnapshotError>)
    ensures r.Ok? ==> Materialised(r.value, db, {kind})
    ensures r.Err? ==> r.error == MissingProvenance && exists k :: Wanted(db, {kind}, k) && ProvenanceOf(db.outbox, k, RecordAt(db, k).value).None?
  {
    hide ProvenanceOf, LexLess;
    var ids := ReadOrdered(IdsOf(db, kind));
    var records: seq<SnapshotRecord> := [];
    var i := 0;
    while i < |ids|
      invariant 0 <= i <= |ids| && |records| == i
      invariant forall j :: 0 <= j < i ==> records[j].key == Key(kind, ids[j]) && TrueRecord(db, records[j])
    {
      hide RecordAt;
      var k := Key(kind, ids[i]);
      IdsAreKeys(db, kind, ids[i]);
      var fact := RecordAt(db, k).value;
      var source := ProvenanceOf(db.outbox, k, fact);
      if source.None? {
        assert Wanted(db, {kind}, k);
        return Err(MissingProvenance);
      }
      records := records + [SnapshotRecord(k, fact, source.value)];
      i := i + 1;
    }
    KindMaterialised(db, kind, ids, records);
    return Ok(records);
  }

  lemma KindMaterialised(db: Database, kind: Kind, ids: seq<string>, records: seq<SnapshotRecord>)
    requires SortedIds(ids) && forall id :: id in ids <==> id in IdsOf(db, kind)
    requires |records| == |ids| && forall j :: 0 <= j < |ids| ==> records[j].key == Key(kind, ids[j]) && TrueRecord(db, records[j])
    ensures Materialised(records, db, {kind})
  {
    hide RecordAt, ProvenanceOf, LexLess, IdsOf;
    forall k
      ensures k in Keys(records) <==> Wanted(db, {kind}, k)
    {
      IdsAreKeys(db, kind, k.id);
      if k in Keys(records) {
        var j :| 0 <= j < |records| && Keys(records)[j] == k;
        assert ids[j] in ids;
      }
      if Wanted(db, {kind}, k) {
        var j :| 0 <= j < |ids| && ids[j] == k.id;
        assert Keys(records)[j] == k;
      }
    }
  }

  /** Appending a kind of higher rank keeps the canonical order: the sort that follows has nothing left to do. */
  lemma KindAppended(db: Database, before: set<Kind>, kind: Kind, xs: seq<SnapshotRecord>, ys: seq<SnapshotRecord>)
    requires Materialised(xs, db, before) && Materialised(ys, db, {kind}) && forall b :: b in before ==> Rank(b) < Rank(kind)
    ensures Materialised(xs + ys, db, before + {kind})
  {
    hide RecordAt, ProvenanceOf, LexLess, Rank;
    assert Keys(xs + ys) == Keys(xs) + Keys(ys);
    forall i, j | 0 <= i < |xs| && |xs| <= j < |xs + ys|
      ensures KeyLess(Keys(xs + ys)[i], Keys(xs + ys)[j])
    {
      assert Keys(xs)[i] in Keys(xs) && Keys(ys)[j - |xs|] in Keys(ys);
    }
  }

  method MaterialiseAll(db: Database, kinds: seq<Kind>) returns (r: Result<seq<SnapshotRecord>, SnapshotError>)
    requires RankOrder(kinds)
    ensures r.Ok? ==> Materialised(r.value, db, KindSet(kinds))
    ensures r.Err? ==> r.error == MissingProvenance && SomeUnproven(db, KindSet(kinds))
  {
    hide RecordAt, ProvenanceOf, KeyLess;
    var records: seq<SnapshotRecord> := [];
    var i := 0;
    while i < |kinds|
      invariant 0 <= i <= |kinds|
      invariant Materialised(records, db, KindSet(kinds[..i]))
    {
      var values := MaterialiseKind(db, kinds[i]);
      if values.Err? {
        assert kinds[i] in kinds;
        assert forall k :: Wanted(db, {kinds[i]}, k) ==> Wanted(db, KindSet(kinds), k);
        return Err(values.error);
      }
      KindAppended(db, KindSet(kinds[..i]), kinds[i], records, values.value);
      assert KindSet(kinds[..i]) + {kinds[i]} == KindSet(kinds[..i + 1]);
      records := records + values.value;
      i := i + 1;
    }
    assert kinds[..i] == kinds;
    return Ok(records);
  }

  /** Some record of these kinds has no provenance. */
  ghost predicate SomeUnproven(db: Database, kinds: set<Kind>) {
    exists k :: Wanted(db, kinds, k) && ProvenanceOf(db.outbox, k, RecordAt(db, k).value).None?
  }

  lemma MaterialisedProven(records: seq<SnapshotRecord>, db: Database, kinds: set<Kind>)
    requires Materialised(records, db, kinds)
    ensures !SomeUnproven(db, kinds)
  {
    hide RecordAt, ProvenanceOf, SortedKeys;
    forall k | Wanted(db, kinds, k)
      ensures ProvenanceOf(db.outbox, k, RecordAt(db, k).value).Some?
    {
      assert k in Keys(records);
      var i :| 0 <= i < |records| && Keys(records)[i] == k;
      assert TrueRecord(db, records[i]);
    }
  }

  /** A request lists one set of kinds. */
  lemma KindsUnique(values: seq<string>, kinds: set<Kind>)
    requires ListsKinds(values, kinds)
    ensures forall others :: ListsKinds(values, others) ==> others == kinds
  {
    hide ParseKind, Trim;
  }

  /** CreateReadAuthoritySnapshot: the records are exactly the canonical facts of the listed kinds at the cursor stored
      with them. Refused only for a bad request, a record without provenance, or too many records. */
  method CreateSnapshot(db: Database, consumer: string, values: seq<string>, ttl: int, pageSize: int, createdAt: int, id: SnapshotId)
    returns (r: Result<Snapshot, SnapshotError>)
    ensures r == Err(InvalidConsumer) <==> Trim(consumer) !in {"tockrctrl", "tockrims"}
    ensures Trim(consumer) in {"tockrctrl", "tockrims"} ==>
              if !((pageSize == 0 || 1 <= pageSize <= 500) && 0 < ttl <= 24 * 3600 * SECOND && ttl % SECOND == 0 && createdAt != 0)
              then r == Err(InvalidRequest)
              else
                && ((forall kinds :: !ListsKinds(values, kinds)) ==> r == Err(InvalidRequest))
                && forall kinds | ListsKinds(values, kinds) ::
                  if SomeUnproven(db, kinds) then r == Err(MissingProvenance)
                  else if r.Err? then r.error == InvalidRequest && exists records :: Materialised(records, db, kinds) && |records| > 10000
                  else Materialised(r.value.records, db, kinds) && |r.value.records| <= 10000
    ensures r.Ok? ==>
              var s := r.value;
              && s.id == id && s.consumer == Trim(consumer) && s.createdAt == createdAt && s.expiresAt == createdAt + ttl
              && s.source == Feed.CurrentCursor(db.outbox) && s.pageSize == (if pageSize == 0 then 500 else pageSize)
              && exists kinds :: ListsKinds(values, kinds) && Materialised(s.records, db, kinds)
  {
    hide ListsKinds, Materialised, RecordAt, ProvenanceOf, SomeUnproven;
    if !ValidReader(Trim(consumer)) { return Err(InvalidConsumer); }
    var size := if pageSize == 0 then MAX_PAGE else pageSize;
    if size < 1 || size > MAX_PAGE || ttl <= 0 || ttl > MAX_TTL || ttl % SECOND != 0 || createdAt == 0 { return Err(InvalidRequest); }
    var kinds := ValidateKinds(values);
    if kinds.Err? { return Err(kinds.error); }
    KindsUnique(values, KindSet(kinds.value));
    var records := MaterialiseAll(db, kinds.value);
    if records.Err? { return Err(records.error); }
    MaterialisedProven(records.value, db, KindSet(kinds.value));
    if |records.value| > MAX_RECORDS { return Err(InvalidRequest); }
    return Ok(Snapshot(id, Trim(consumer), Feed.CurrentCursor(db.outbox), createdAt, createdAt + ttl, size, records.value));
  }

  // ----- reading pages -----

  /** `next` is the cursor of the following page, "" on the last. */
  datatype Page = Page(records: seq<SnapshotRecord>, complete: bool, next: string)

  /** encodeReadAuthorityPageCursor */
  function Encode(s: Snapshot, kind: string, ordinal: nat): string {
    Cursors.Write(Cursors.PageFields(s.id, s.consumer, kind, ordinal))
  }

  /** decodeReadAuthorityPageCursor: the ordinal of the last record already read, -1 for none. */
  function Decode(token: string, s: Snapshot, kind: string): (r: Result<int, SnapshotError>)
    ensures r.Ok? ==> -1 <= r.value < |s.records|
  {
    if Trim(token) == "" then Ok(-1 as int)
    else
      match Cursors.Read(token)
      case None => Err(CursorInvalid)
      case Some(f) =>
        var _ :- Need(f.snapshot == s.id && f.consumer == s.consumer && f.kind == kind && f.ordinal < |s.records|, CursorInvalid);
        Ok(f.ordinal as int)
  }

  /** A kind a page can be asked for; "" asks for all. */
  predicate KnownKind(kind: string) {
    kind == "" || ParseKind(kind).Some?
  }

  predicate Selects(kind: string, r: SnapshotRecord) {
    kind == "" || KindName(r.key.kind) == kind
  }

  /** The ordinals from `from` on whose records have the kind asked for. */
  function Matching(records: seq<SnapshotRecord>, kind: string, from: nat): seq<nat>
    decreases if from < |records| then |records| - from else 0
  {
    if from >= |records| then []
    else if Selects(kind, records[from]) then [from] + Matching(records, kind, from + 1)
    else Matching(records, kind, from + 1)
  }

  function At(records: seq<SnapshotRecord>, ordinals: seq<nat>): seq<SnapshotRecord>
    requires forall i :: 0 <= i < |ordinals| ==> ordinals[i] < |records|
  {
    seq(|ordinals|, i requires 0 <= i < |ordinals| => records[ordinals[i]])
  }

  lemma {:induction false} MatchingBounds(records: seq<SnapshotRecord>, kind: string, from: nat)
    ensures forall i :: 0 <= i < |Matching(records, kind, from)| ==> from <= Matching(records, kind, from)[i] < |records|
    decreases if from < |records| then |records| - from else 0
  {
    hide Selects;
    if from < |records| { MatchingBounds(records, kind, from + 1); }
  }

  /** After the first `n` matches, the matches from just past the last of them are the remaining ones. */
  lemma {:induction false} MatchingRest(records: seq<SnapshotRecord>, kind: string, from: nat, n: nat)
    requires 0 < n <= |Matching(records, kind, from)|
    ensures Matching(records, kind, Matching(records, kind, from)[n - 1] + 1) == Matching(records, kind, from)[n..]
    decreases if from < |records| then |records| - from else 0
  {
    hide Selects;
    var all := Matching(records, kind, from);
    if Selects(kind, records[from]) {
      if n > 1 {
        MatchingRest(records, kind, from + 1, n - 1);
        assert all[n - 1] == Matching(records, kind, from + 1)[n - 2];
        assert all[n..] == Matching(records, kind, from + 1)[n - 1..];
      } else {
        assert all[0] == from && all[1..] == Matching(records, kind, from + 1);
      }
    } else {
      MatchingRest(records, kind, from + 1, n);
    }
  }

  function RequestError(s: Snapshot, consumer: string, id: string, kind: string, limit: int, at: int): Option<SnapshotError> {
    if !ValidReader(Trim(consumer)) then Some(InvalidConsumer)
    else if limit < 1 || limit > MAX_PAGE || Trim(id) == "" || at == 0 then Some(InvalidRequest)
    else if !KnownKind(kind) then Some(InvalidRequest)
    else if s.consumer != Trim(consumer) || s.id != id then Some(SnapshotNotFound)
    else if at >= s.expiresAt then Some(SnapshotExpired)
    else None
  }

  /** Who may read a page, and which refusal answers the others: the reader the snapshot was made for, under its own id, before it
      expires, with a limit of 1 to 500 and a kind that exists, if any. */
  lemma ReadDecides(s: Snapshot, consumer: string, id: string, kind: string, limit: int, at: int)
    ensures var outcome := RequestError(s, consumer, id, kind, limit, at);
            var asked := 1 <= limit <= 500 && at != 0 && Trim(id) != "" && (kind != "" ==> exists k: Kind :: KindName(k) == kind);
            && (outcome.None? <==> asked && Trim(consumer) == s.consumer && s.id == id && at < s.expiresAt)
            && (outcome == Some(InvalidConsumer) <==> Trim(consumer) !in {"tockrctrl", "tockrims"})
            && (outcome == Some(InvalidRequest) <==> Trim(consumer) in {"tockrctrl", "tockrims"} && !asked)
            && (outcome == Some(SnapshotExpired) <==> asked && Trim(consumer) == s.consumer && s.id == id && s.expiresAt <= at)
  {
    hide Trim;
    KnownIff(kind);
    hide ParseKind, KindName;
  }

  lemma KnownIff(kind: string)
    ensures KnownKind(kind) <==> kind == "" || exists k: Kind :: KindName(k) == kind
  {
    if k: Kind :| KindName(k) == kind {
      assert ParseKind(kind) == Some(k);
    }
  }

  /** Which cursors are taken: a blank one, to begin with, and one read as an ordinal of this snapshot, for this reader and kind. */
  lemma CursorDecides(token: string, s: Snapshot, kind: string, start: int)
    ensures Decode(token, s, kind) == Ok(start) <==>
            if forall c :: c in token ==> IsSpace(c) then start == -1
            else 0 <= start < |s.records| && Cursors.Read(token) == Some(Cursors.PageFields(s.id, s.consumer, kind, start))
    ensures Decode(token, s, kind).Err? ==> Decode(token, s, kind).error == CursorInvalid
  {
    hide Cursors.Read;
    BlankTrims(token);
  }

  /** The page after `start`: the next `limit` matches, complete exactly if there are no more. */
  function PageAt(s: Snapshot, kind: string, start: int, limit: int): Page
    requires start >= -1 && limit > 0
  {
    MatchingBounds(s.records, kind, start + 1);
    var rest := Matching(s.records, kind, start + 1);
    if |rest| <= limit then Page(At(s.records, rest), true, "")
    else Page(At(s.records, rest[..limit]), false, Encode(s, kind, rest[limit - 1]))
  }

  /** ListReadAuthoritySnapshotRecords, on the snapshot stored under its id. */
  method ListRecords(s: Snapshot, consumer: string, id: string, kind: string, after: string, limit: int, at: int)
    returns (r: Result<Page, SnapshotError>)
    ensures match RequestError(s, consumer, id, kind, limit, at)
            case Some(e) => r == Err(e)
            case None => (
              match Decode(after, s, kind)
              case Err(e) => r == Err(e)
              case Ok(start) => r == Ok(PageAt(s, kind, start, limit)))
  {
    if !ValidReader(Trim(consumer)) { return Err(InvalidConsumer); }
    if limit < 1 || limit > MAX_PAGE || Trim(id) == "" || at == 0 { return Err(InvalidRequest); }
    if kind != "" && ParseKind(kind).None? { return Err(InvalidRequest); }
    if s.consumer != Trim(consumer) || s.id != id { return Err(SnapshotNotFound); }
    if at >= s.expiresAt { return Err(SnapshotExpired); }
    var start := Decode(after, s, kind);
    if start.Err? { return Err(start.error); }
    var page := ReadPage(s, kind, start.value, limit);
    return Ok(page);
  }

  method ReadPage(s: Snapshot, kind: string, start: int, limit: int) returns (page: Page)
    requires start >= -1 && limit > 0
    ensures page == PageAt(s, kind, start, limit)
  {
    hide Selects, Encode;
    ghost var rest := Matching(s.records, kind, start + 1);
    MatchingBounds(s.records, kind, start + 1);
    var records: seq<SnapshotRecord> := [];
    var last, ordinal := start, start + 1;
    while ordinal < |s.records| && |records| < limit
      invariant start + 1 <= ordinal && |records| <= limit && |records| <= |rest|
      invariant records == At(s.records, rest[..|records|])
      invariant rest[|records|..] == Matching(s.records, kind, ordinal)
      invariant |records| > 0 ==> last == rest[|records| - 1] && last < ordinal
    {
      if Selects(kind, s.records[ordinal]) {
        assert rest[|records|] == ordinal;
        assert rest[..|records| + 1] == rest[..|records|] + [ordinal];
        assert rest[|records| + 1..] == rest[|records|..][1..];
        records := records + [s.records[ordinal]];
        last := ordinal;
      }
      ordinal := ordinal + 1;
    }
    page := Page(records, true, "");
    if |records| == limit {
      var more := MoreAfter(s, kind, last + 1);
      MatchingRest(s.records, kind, start + 1, limit);
      if more {
        page := page.(complete := false, next := Encode(s, kind, last));
      }
    }
    assert !(|rest| > limit) ==> rest[..|records|] == rest;
  }

  method MoreAfter(s: Snapshot, kind: string, from: nat) returns (more: bool)
    ensures more <==> Matching(s.records, kind, from) != []
  {
    var ordinal := from;
    while ordinal < |s.records|
      invariant from <= ordinal
      invariant Matching(s.records, kind, ordinal) == Matching(s.records, kind, from)
    {
      if Selects(kind, s.records[ordinal]) { return true; }
      ordinal := ordinal + 1;
    }
    return false;
  }

  // ----- following the pages -----

  lemma EntitlementNamePlain()
    ensures Cursors.Plain("organisation_product_entitlement")
  {
  }

  lemma MembershipNamesPlain()
    ensures Cursors.Plain("organisation_membership") && Cursors.Plain("workspace_membership")
  {
  }

  lemma NamePlain(k: Kind)
    ensures Cursors.Plain(KindName(k))
  {
    match k
    case UserKind => assert Cursors.Plain("user");
    case OrganisationKind => assert Cursors.Plain("organisation");
    case OrganisationMembershipKind => MembershipNamesPlain();
    case WorkspaceKind => assert Cursors.Plain("workspace");
    case WorkspaceMembershipKind => MembershipNamesPlain();
    case ProductKind => assert Cursors.Plain("product");
    case EntitlementKind => EntitlementNamePlain();
    case AssignmentKind => assert Cursors.Plain("user_product_assignment");
  }

  lemma KindPlain(kind: string)
    requires KnownKind(kind)
    ensures Cursors.Plain(kind)
  {
    if kind != "" {
      assert kind == KindName(ParseKind(kind).value) by { hide KindName; }
      NamePlain(ParseKind(kind).value);
      hide ParseKind, KindName, Cursors.Plain;
    }
  }

  lemma ReaderPlain(consumer: Reader)
    ensures Cursors.Plain(consumer)
  {
  }

  /** A cursor's text decodes to the ordinal it was made from, and only against its own snapshot and kind. */
  lemma CursorRoundTrip(s: Snapshot, t: Snapshot, kind: string, other: string, ordinal: nat)
    requires ordinal < |s.records| && KnownKind(kind)
    ensures Decode(Encode(s, kind, ordinal), s, kind) == Ok(ordinal)
    ensures Decode(Encode(s, kind, ordinal), t, other).Ok? <==>
            t.id == s.id && t.consumer == s.consumer && other == kind && ordinal < |t.records|
  {
    KindPlain(kind);
    ReaderPlain(s.consumer);
    hide Cursors.Write, Cursors.Read, Cursors.Plain, ParseKind, Trim;
    Cursors.CursorRoundTrip(Cursors.PageFields(s.id, s.consumer, kind, ordinal));
  }

  /** The records of a kind, all of them for "". */
  function OfKind(records: seq<SnapshotRecord>, kind: string): seq<SnapshotRecord> {
    if records == [] then []
    else if kind == "" || kind == KindName(records[0].key.kind) then [records[0]] + OfKind(records[1..], kind)
    else OfKind(records[1..], kind)
  }

  lemma {:induction false} MatchesAreOfKind(records: seq<SnapshotRecord>, kind: string, from: nat)
    requires from <= |records|
    ensures forall i :: 0 <= i < |Matching(records, kind, from)| ==> Matching(records, kind, from)[i] < |records|
    ensures At(records, Matching(records, kind, from)) == OfKind(records[from..], kind)
    decreases |records| - from
  {
    hide KindName;
    MatchingBounds(records, kind, from);
    if from < |records| {
      MatchesAreOfKind(records, kind, from + 1);
      MatchingBounds(records, kind, from + 1);
      assert records[from..][1..] == records[from + 1..];
      if Selects(kind, records[from]) {
        assert At(records, Matching(records, kind, from)) == [records[from]] + At(records, Matching(records, kind, from + 1));
      }
    }
  }

  /** A page holds the next records of its kind, at most `limit`, and is complete exactly if those are all; otherwise its cursor is
      that of its last record's place. */
  lemma PageIs(s: Snapshot, kind: string, start: int, limit: int)
    requires -1 <= start < |s.records| && limit > 0
    ensures var page, left := PageAt(s, kind, start, limit), OfKind(s.records[start + 1..], kind);
            && page.records == (if |left| <= limit then left else left[..limit])
            && (page.complete <==> |left| <= limit)
            && (page.complete ==> page.next == "")
            && (!page.complete ==> exists last :: start < last < |s.records| && page.next == Encode(s, kind, last) &&
                                                  s.records[last] == left[limit - 1] &&
                                                  OfKind(s.records[last + 1..], kind) == left[limit..])
  {
    hide OfKind, Encode, Selects, Matching;
    var rest, left := Matching(s.records, kind, start + 1), OfKind(s.records[start + 1..], kind);
    MatchingBounds(s.records, kind, start + 1);
    MatchesAreOfKind(s.records, kind, start + 1);
    assert |left| == |rest|;
    if |rest| > limit {
      var last := rest[limit - 1];
      MatchingRest(s.records, kind, start + 1, limit);
      MatchesAreOfKind(s.records, kind, last + 1);
      assert At(s.records, rest[..limit]) == left[..limit];
      assert At(s.records, rest[limit..]) == left[limit..];
    }
  }

  /** What a consumer collects by following page cursors with the given limits, and whether it saw the last page. */
  function FollowPages(s: Snapshot, kind: string, after: string, limits: seq<int>): (seq<SnapshotRecord>, bool)
    decreases |limits|
  {
    if limits == [] || limits[0] <= 0 || Decode(after, s, kind).Err? then ([], false)
    else
      var page := PageAt(s, kind, Decode(after, s, kind).value, limits[0]);
      if page.complete then (page.records, true)
      else
        var (rest, complete) := FollowPages(s, kind, page.next, limits[1..]);
        (page.records + rest, complete)
  }

  /** All records of the kind past a cursor. */
  function Remaining(s: Snapshot, kind: string, after: string): seq<SnapshotRecord>
    requires Decode(after, s, kind).Ok?
  {
    OfKind(s.records[Decode(after, s, kind).value + 1..], kind)
  }

  /** Whatever the page limits, following the cursors yields every record of the kind after the start, once and in order,
      and ends with a complete page after at most as many pages as there are records left. */
  lemma {:induction false} PagesExact(s: Snapshot, kind: string, after: string, limits: seq<int>)
    requires KnownKind(kind) && Decode(after, s, kind).Ok? && forall i :: 0 <= i < |limits| ==> limits[i] > 0
    requires |limits| >= 1 && |limits| >= |Remaining(s, kind, after)|
    ensures FollowPages(s, kind, after, limits) == (Remaining(s, kind, after), true)
    decreases |limits|
  {
    hide Decode, Encode, KnownKind, OfKind, PageAt, ValidReader, Cursors.Plain;
    var start := Decode(after, s, kind).value;
    PageIs(s, kind, start, limits[0]);
    var page, left := PageAt(s, kind, start, limits[0]), Remaining(s, kind, after);
    if !page.complete {
      var last :| start < last < |s.records| && page.next == Encode(s, kind, last) && OfKind(s.records[last + 1..], kind) == left[limits[0]..];
      CursorRoundTrip(s, s, kind, kind, last);
      assert Remaining(s, kind, page.next) == left[limits[0]..];
      PagesExact(s, kind, page.next, limits[1..]);
      assert page.records + left[limits[0]..] == left;
    }
  }

  // ----- bootstrapping from a snapshot -----

  /** The facts a consumer loads from the records. */
  function Load(records: seq<SnapshotRecord>): Facts {
    if records == [] then map[] else Load(records[..|records| - 1])[records[|records| - 1].key := records[|records| - 1].fact]
  }

  ghost predicate LoadedFrom(f: Facts, records: seq<SnapshotRecord>) {
    && (forall k :: k in f <==> k in Keys(records))
    && (forall i :: 0 <= i < |records| ==> records[i].key in f && f[records[i].key] == records[i].fact)
  }

  lemma LastKeyIsNew(records: seq<SnapshotRecord>)
    requires records != [] && SortedKeys(Keys(records))
    ensures var n := |records| - 1;
            SortedKeys(Keys(records[..n])) && Keys(records) == Keys(records[..n]) + [records[n].key] && records[n].key !in Keys(records[..n])
  {
    hide KeyLess;
    var n := |records| - 1;
    assert Keys(records[..n]) == Keys(records)[..n];
    forall i | 0 <= i < n
      ensures Keys(records)[i] != records[n].key
    {
      assert KeyLess(Keys(records)[i], Keys(records)[n]);
      KeyTotal(Keys(records)[i], Keys(records)[n]);
    }
  }

  lemma {:induction false} LoadIsMap(records: seq<SnapshotRecord>)
    requires SortedKeys(Keys(records))
    ensures LoadedFrom(Load(records), records)
    decreases |records|
  {
    hide SortedKeys;
    if records != [] {
      var n := |records| - 1;
      LastKeyIsNew(records);
      LoadIsMap(records[..n]);
      assert forall i :: 0 <= i < n ==> records[i] == records[..n][i] && Keys(records[..n])[i] == records[i].key;
    }
  }

  ghost predicate AllKinds(kinds: set<Kind>) {
    forall k: Kind :: k in kinds
  }

  lemma LoadMirrors(records: seq<SnapshotRecord>, db: Database, kinds: set<Kind>)
    requires Materialised(records, db, kinds) && AllKinds(kinds)
    ensures Mirrors(Load(records), db)
  {
    hide RecordAt, ProvenanceOf, Load, SortedKeys;
    LoadIsMap(records);
    var f := Load(records);
    forall k
      ensures Lookup(f, k) == RecordAt(db, k)
    {
      assert k in f <==> Wanted(db, kinds, k);
      if k in f {
        assert k in Keys(records);
        var i :| 0 <= i < |records| && Keys(records)[i] == k;
        assert TrueRecord(db, records[i]);
      }
    }
  }

  /** Snapshot plus later changes is canonical state: load a snapshot of all kinds, read the outbox from its cursor after any
      canonical run, fold what was read, and the facts are exactly those the tables hold then. */
  lemma SnapshotThenChangesIsCanonical(db: Database, ms: seq<Mutation>, s: Snapshot, kinds: set<Kind>)
    requires Inv(db) && CanonicalIds(db) && forall i :: 0 <= i < |ms| ==> Canonical(ms[i])
    requires Materialised(s.records, db, kinds) && AllKinds(kinds) && s.source == Feed.CurrentCursor(db.outbox)
    ensures var end := Run(db, ms);
            && s.source == |db.outbox| <= |end.outbox|
            && Mirrors(FoldAll(Load(s.records), Payloads(end.outbox[s.source..])), end)
  {
    hide Inv, CanonicalIds, Canonical, Materialised, AllKinds, Mirrors, Run, FoldAll;
    LoadMirrors(s.records, db, kinds);
    RunFollows(Load(s.records), db, ms);
    RunKeeps(db, ms);
    Ready(db);
    var end := Run(db, ms);
    Ready(end);
    GaplessIds(db.outbox);
    PayloadsLength(db.outbox);
    PayloadsLength(end.outbox);
    PayloadsSuffix(end.outbox, |db.outbox|);
  }

  lemma PayloadsSuffix(rows: seq<OutboxRow>, from: nat)
    requires from <= |rows|
    ensures |Payloads(rows)| == |rows| && Payloads(rows[from..]) == Payloads(rows)[from..]
  {
    PayloadsLength(rows);
    PayloadsLength(rows[from..]);
  }

  /** The rows from the snapshot's cursor up to the outbox of any point of the run fold into the facts of that point. */
  lemma FactsAtPoint(db: Database, ms: seq<Mutation>, s: Snapshot, kinds: set<Kind>, j: nat)
    requires Inv(db) && CanonicalIds(db) && Feed.Sound(db.outbox) && forall i :: 0 <= i < |ms| ==> Canonical(ms[i])
    requires Materialised(s.records, db, kinds) && AllKinds(kinds) && s.source == Feed.CurrentCursor(db.outbox) && j <= |ms|
    ensures var point, end := Run(db, ms[..j]), Run(db, ms).outbox;
            && 0 <= s.source <= |point.outbox| <= |end|
            && Mirrors(FoldAll(Load(s.records), Payloads(end[s.source..|point.outbox|])), point)
  {
    hide Inv, CanonicalIds, Canonical, Materialised, AllKinds, Mirrors, Run, FoldAll, Feed.Sound;
    SnapshotThenChangesIsCanonical(db, ms[..j], s, kinds);
    RunSplit(db, ms, j);
    Feed.RunSound(db, ms[..j]);
    Feed.RunSound(Run(db, ms[..j]), ms[j..]);
    var point, end := Run(db, ms[..j]).outbox, Run(db, ms).outbox;
    assert end[s.source..|point|] == point[s.source..];
  }

  /** The same through the feed: the pages a consumer reads from the snapshot's cursor, while the outbox grows with the run,
      fold into exactly the facts the tables held at the point of the run whose last event is the last one read, wherever the
      consumer stopped. */
  lemma FeedFromSnapshotIsCanonical(db: Database, ms: seq<Mutation>, s: Snapshot, kinds: set<Kind>,
                                    outboxes: seq<seq<OutboxRow>>, limits: seq<int>)
    requires Inv(db) && CanonicalIds(db) && forall i :: 0 <= i < |ms| ==> Canonical(ms[i])
    requires Materialised(s.records, db, kinds) && AllKinds(kinds) && s.source == Feed.CurrentCursor(db.outbox)
    requires |limits| == |outboxes| > 0 && Feed.Growing(outboxes) && forall i :: 0 <= i < |limits| ==> 0 < limits[i] <= Feed.MAX_PAGE
    requires db.outbox <= outboxes[0] && outboxes[|outboxes| - 1] == Run(db, ms).outbox
    ensures Feed.Follow(outboxes, limits, s.source).Ok?
    ensures var (events, cursor) := Feed.Follow(outboxes, limits, s.source).value;
            forall j | 0 <= j <= |ms| && |Run(db, ms[..j]).outbox| == cursor ::
              Mirrors(FoldAll(Load(s.records), Payloads(events)), Run(db, ms[..j]))
  {
    hide Inv, CanonicalIds, Canonical, Materialised, AllKinds, Mirrors, Run, FoldAll, Feed.Follow, Feed.Sound, Feed.CurrentCursor;
    SnapshotThenChangesIsCanonical(db, ms, s, kinds);
    Feed.FollowExact(outboxes, limits, s.source);
    Feed.SoundPrefix(outboxes[0], |db.outbox|);
    assert outboxes[0][..|db.outbox|] == db.outbox;
    var (events, cursor) := Feed.Follow(outboxes, limits, s.source).value;
    forall j | 0 <= j <= |ms| && |Run(db, ms[..j]).outbox| == cursor
      ensures Mirrors(FoldAll(Load(s.records), Payloads(events)), Run(db, ms[..j]))
    {
      FactsAtPoint(db, ms, s, kinds, j);
    }
  }
}
