/** The event feed (events.go): pages of the outbox after a global cursor. */
module Feed {
  import opened Prelude
  import opened Events
  import opened Tables
  import opened Mutations
  import opened Runs

  datatype FeedError = InvalidOutboxLimit | SourceGap | SourceInvalid

  /** `next` is 0 on the last page. */
  datatype Page = Page(events: seq<OutboxRow>, hasMore: bool, next: int, source: int, horizon: int)

  const MAX_PAGE := 500

  // Rows come in id order, as the primary key gives them, so the first has the least id and the last the greatest.

  function CurrentCursor(rows: seq<OutboxRow>): int {
    if rows == [] then 0 else rows[|rows| - 1].id
  }

  function Horizon(rows: seq<OutboxRow>): int {
    if rows != [] && rows[0].id > 0 then rows[0].id - 1 else 0
  }

  /** `WHERE id>? ORDER BY id LIMIT ?` */
  function Select(rows: seq<OutboxRow>, after: int, count: nat): seq<OutboxRow> {
    if rows == [] || count == 0 then []
    else if rows[0].id > after then [rows[0]] + Select(rows[1..], after, count - 1)
    else Select(rows[1..], after, count)
  }

  /** The scan of the selected rows stops at the first gap or malformed event. */
  function Scan(selected: seq<OutboxRow>, previous: int): Option<FeedError> {
    if selected == [] then None
    else if selected[0].id != previous + 1 then Some(SourceGap)
    else if !WellFormed(selected[0].event) then Some(SourceInvalid)
    else Scan(selected[1..], selected[0].id)
  }

  function PageOf(selected: seq<OutboxRow>, limit: nat, source: int, horizon: int): Page
    requires 0 < limit
  {
    if |selected| > limit then Page(selected[..limit], true, selected[limit - 1].id, source, horizon)
    else Page(selected, false, 0, source, horizon)
  }

  /** ListPlatformEventsAfter */
  function List(rows: seq<OutboxRow>, after: int, limit: int): Result<Page, FeedError> {
    var _ :- Need(after >= 0 && 0 < limit <= MAX_PAGE, InvalidOutboxLimit);
    var _ :- Need(Horizon(rows) <= after <= CurrentCursor(rows), SourceGap);
    var selected := Select(rows, after, limit + 1);
    match Scan(selected, after)
    case Some(e) => Err(e)
    case None => Ok(PageOf(selected, limit, CurrentCursor(rows), Horizon(rows)))
  }

  /** The query and the scan as one loop over the rows. */
  method ReadRows(rows: seq<OutboxRow>, after: int, count: nat) returns (r: Result<seq<OutboxRow>, FeedError>)
    ensures match Scan(Select(rows, after, count), after)
            case Some(e) => r == Err(e)
            case None => r == Ok(Select(rows, after, count))
  {
    hide WellFormed;
    var events, previous, i := [], after, 0;
    while i < |rows| && |events| < count
      invariant 0 <= i <= |rows| && |events| <= count
      invariant events + Select(rows[i..], after, count - |events|) == Select(rows, after, count)
      invariant Scan(Select(rows, after, count), after) == Scan(Select(rows[i..], after, count - |events|), previous)
    {
      assert rows[i..][1..] == rows[i + 1..];
      if rows[i].id > after {
        if rows[i].id != previous + 1 { return Err(SourceGap); }
        if !WellFormed(rows[i].event) { return Err(SourceInvalid); }
        previous := rows[i].id;
        events := events + [rows[i]];
      }
      i := i + 1;
    }
    assert Select(rows[i..], after, count - |events|) == [];
    assert events == events + [];
    return Ok(events);
  }

  method ListEventsAfter(rows: seq<OutboxRow>, after: int, limit: int) returns (r: Result<Page, FeedError>)
    ensures r == List(rows, after, limit)
  {
    hide WellFormed, Scan, Select;
    if after < 0 || limit <= 0 || limit > MAX_PAGE { return Err(InvalidOutboxLimit); }
    var source, horizon := CurrentCursor(rows), Horizon(rows);
    if after < horizon || after > source { return Err(SourceGap); }
    var read := ReadRows(rows, after, limit + 1);
    if read.Err? { return Err(read.error); }
    var events, hasMore, next := read.value, false, 0;
    if |events| > limit {
      hasMore := true;
      events := events[..limit];
      next := events[|events| - 1].id;
    }
    return Ok(Page(events, hasMore, next, source, horizon));
  }

  // ----- a gapless outbox -----

  ghost predicate Sound(rows: seq<OutboxRow>) {
    Gapless(rows) && forall i :: 0 <= i < |rows| ==> WellFormed(rows[i].event)
  }

  lemma {:induction false} SelectSuffix(rows: seq<OutboxRow>, from: nat, after: nat, count: nat)
    requires from <= after <= |rows| && forall i :: 0 <= i < |rows| ==> rows[i].id == i + 1
    ensures Select(rows[from..], after, count) == rows[after..if after + count <= |rows| then after + count else |rows|]
    decreases |rows| - from, count
  {
    if from < |rows| && count > 0 {
      assert rows[from..][0] == rows[from] && rows[from..][1..] == rows[from + 1..];
      if from == after {
        SelectFrom(rows, after, count);
      } else {
        SelectSuffix(rows, from + 1, after, count);
      }
    }
  }

  lemma {:induction false} SelectFrom(rows: seq<OutboxRow>, after: nat, count: nat)
    requires after <= |rows| && forall i :: 0 <= i < |rows| ==> rows[i].id == i + 1
    ensures forall low :: low <= after ==>
              Select(rows[after..], low, count) == rows[after..if after + count <= |rows| then after + count else |rows|]
    decreases count
  {
    if after < |rows| && count > 0 {
      assert rows[after..][0] == rows[after] && rows[after..][1..] == rows[after + 1..];
      SelectFrom(rows, after + 1, count - 1);
    }
  }

  lemma {:induction false} ScanClean(rows: seq<OutboxRow>, after: nat, end: nat)
    requires after <= end <= |rows|
    requires forall i :: 0 <= i < |rows| ==> rows[i].id == i + 1 && WellFormed(rows[i].event)
    ensures Scan(rows[after..end], after) == None
    decreases end - after
  {
    hide WellFormed;
    if after < end {
      assert rows[after..end][0] == rows[after] && rows[after..end][1..] == rows[after + 1..end];
      ScanClean(rows, after + 1, end);
    }
  }

  function Least(a: int, b: int): int {
    if a <= b then a else b
  }

  /** On a gapless outbox 1..N the feed reports a gap exactly for cursors beyond N, and otherwise returns the next rows. */
  lemma PageExact(rows: seq<OutboxRow>, after: int, limit: int)
    requires Sound(rows) && after >= 0 && 0 < limit <= MAX_PAGE
    ensures after > |rows| ==> List(rows, after, limit) == Err(SourceGap)
    ensures after <= |rows| ==>
              List(rows, after, limit) ==
              Ok(Page(rows[after..Least(after + limit, |rows|)], after + limit < |rows|,
                      if after + limit < |rows| then after + limit else 0, |rows|, 0))
  {
    hide WellFormed, Gapless, Select, Scan;
    GaplessIds(rows);
    if after <= |rows| {
      SelectSuffix(rows, 0, after, limit + 1);
      assert rows[0..] == rows;
      var selected := Select(rows, after, limit + 1);
      ScanClean(rows, after, Least(after + limit + 1, |rows|));
      assert selected == rows[after..Least(after + limit + 1, |rows|)];
      if |selected| > limit {
        assert selected[limit - 1] == rows[after + limit - 1];
        assert selected[..limit] == rows[after..after + limit];
      }
    }
  }

  // ----- any outbox -----

  /** All rows past a cursor, in their order. */
  function Past(rows: seq<OutboxRow>, after: int): seq<OutboxRow> {
    if rows == [] then [] else (if rows[0].id > after then [rows[0]] else []) + Past(rows[1..], after)
  }

  lemma {:induction false} PastIs(rows: seq<OutboxRow>, after: int)
    ensures forall e :: e in Past(rows, after) <==> e in rows && e.id > after
  {
    if rows != [] {
      PastIs(rows[1..], after);
      assert rows == [rows[0]] + rows[1..];
    }
  }

  function FirstOf(es: seq<OutboxRow>, count: nat): seq<OutboxRow> {
    if count < |es| then es[..count] else es
  }

  lemma {:induction false} SelectIs(rows: seq<OutboxRow>, after: int, count: nat)
    ensures Select(rows, after, count) == FirstOf(Past(rows, after), count)
    decreases |rows|
  {
    if rows != [] && count > 0 {
      if rows[0].id > after {
        SelectIs(rows[1..], after, count - 1);
        assert Past(rows, after) == [rows[0]] + Past(rows[1..], after);
      } else {
        SelectIs(rows[1..], after, count);
        assert Past(rows, after) == Past(rows[1..], after);
      }
    }
  }

  /** The rows run on from the cursor: no gap, and every event well formed. */
  ghost predicate RunsOn(es: seq<OutboxRow>, after: int) {
    forall i :: 0 <= i < |es| ==> es[i].id == after + 1 + i && WellFormed(es[i].event)
  }

  lemma {:induction false} ScanIs(es: seq<OutboxRow>, after: int)
    ensures Scan(es, after).None? <==> RunsOn(es, after)
    decreases |es|
  {
    hide WellFormed;
    if es != [] {
      ScanIs(es[1..], es[0].id);
      if RunsOn(es, after) {
        assert RunsOn(es[1..], es[0].id);
      } else if es[0].id == after + 1 && WellFormed(es[0].event) {
        var i :| 0 <= i < |es| && !(es[i].id == after + 1 + i && WellFormed(es[i].event));
        assert es[1..][i - 1] == es[i];
      }
    }
  }

  /** The first row that breaks the run decides the error. */
  lemma {:induction false} BreakDecides(es: seq<OutboxRow>, after: int, i: nat)
    requires i < |es| && RunsOn(es[..i], after) && !(es[i].id == after + 1 + i && WellFormed(es[i].event))
    ensures Scan(es, after) == Some(if es[i].id != after + 1 + i then SourceGap else SourceInvalid)
    decreases i
  {
    hide WellFormed;
    if i > 0 {
      assert es[..i][0] == es[0] && es[1..][..i - 1] == es[..i][1..];
      assert RunsOn(es[1..][..i - 1], es[0].id);
      BreakDecides(es[1..], es[0].id, i - 1);
    }
  }

  /** What the feed answers on any outbox: the cursor and limit must be in range, the cursor within what the outbox covers, and the
      rows past it, up to one more than the limit, must run on; the page is then those rows, cut at the limit. */
  lemma ListDecides(rows: seq<OutboxRow>, after: int, limit: int)
    ensures var r := List(rows, after, limit);
            var horizon, source := if rows != [] && rows[0].id > 1 then rows[0].id - 1 else 0, if rows == [] then 0 else rows[|rows| - 1].id;
            if after < 0 || limit < 1 || limit > 500 then r == Err(InvalidOutboxLimit)
            else if after < horizon || source < after then r == Err(SourceGap)
            else
              var es := FirstOf(Past(rows, after), limit + 1);
              if RunsOn(es, after) then
                if |es| <= limit then r == Ok(Page(es, false, 0, source, horizon))
                else r == Ok(Page(es[..limit], true, after + limit, source, horizon))
              else
                forall i | 0 <= i < |es| && RunsOn(es[..i], after) && !(es[i].id == after + 1 + i && WellFormed(es[i].event)) ::
                  r == Err(if es[i].id != after + 1 + i then SourceGap else SourceInvalid)
  {
    hide WellFormed, Select, Past, FirstOf, Scan;
    if after >= 0 && 1 <= limit <= 500 {
      SelectIs(rows, after, limit + 1);
      var es := FirstOf(Past(rows, after), limit + 1);
      ScanIs(es, after);
      forall i | 0 <= i < |es| && RunsOn(es[..i], after) && !(es[i].id == after + 1 + i && WellFormed(es[i].event))
        ensures Scan(es, after) == Some(if es[i].id != after + 1 + i then SourceGap else SourceInvalid)
      {
        BreakDecides(es, after, i);
      }
    }
  }

  // ----- following the feed while the outbox grows -----

  /** Where a consumer asks next: the page's cursor, or the last event it saw. */
  function Resume(after: int, page: Page): int {
    if page.hasMore then page.next else if page.events != [] then page.events[|page.events| - 1].id else after
  }

  /** Everything a consumer receives by reading once from each of the outboxes in turn, with any limits. */
  function Follow(outboxes: seq<seq<OutboxRow>>, limits: seq<int>, after: int): Result<(seq<OutboxRow>, int), FeedError>
    requires |limits| == |outboxes|
    decreases |outboxes|
  {
    if outboxes == [] then Ok(([], after))
    else
      var page :- List(outboxes[0], after, limits[0]);
      var (rest, cursor) :- Follow(outboxes[1..], limits[1..], Resume(after, page));
      Ok((page.events + rest, cursor))
  }

  ghost predicate Growing(outboxes: seq<seq<OutboxRow>>) {
    && (forall i :: 0 <= i < |outboxes| ==> Sound(outboxes[i]))
    && (forall i, j | 0 <= i < j < |outboxes| :: outboxes[i] <= outboxes[j])
  }

  /** Following the feed from any cursor in 0..N delivers the outbox rows after it once each, in order and without a gap,
      whatever the limits and however the outbox grows meanwhile. */
  lemma {:induction false} FollowExact(outboxes: seq<seq<OutboxRow>>, limits: seq<int>, after: nat)
    requires |limits| == |outboxes| > 0 && Growing(outboxes) && after <= |outboxes[0]|
    requires forall i :: 0 <= i < |limits| ==> 0 < limits[i] <= MAX_PAGE
    ensures var last := outboxes[|outboxes| - 1];
            && Follow(outboxes, limits, after).Ok?
            && var (events, cursor) := Follow(outboxes, limits, after).value;
            after <= cursor <= |last| && events == last[after..cursor]
    decreases |outboxes|
  {
    hide Sound, List, Growing;
    GrowingFirst(outboxes);
    var first, last := outboxes[0], outboxes[|outboxes| - 1];
    PageExact(first, after, limits[0]);
    GaplessFirst(first);
    var page := List(first, after, limits[0]).value;
    var next := Resume(after, page);
    assert next == Least(after + limits[0], |first|);
    var rest := outboxes[1..];
    assert page.events == first[after..next];
    if rest == [] {
      assert page.events + [] == page.events;
    } else {
      GrowingRest(outboxes);
      FollowExact(rest, limits[1..], next);
      var (events, cursor) := Follow(rest, limits[1..], next).value;
      assert rest[|rest| - 1] == last;
      assert last[..|first|] == first;
      assert page.events == last[after..next];
      assert page.events + events == last[after..cursor];
    }
  }

  lemma GrowingFirst(outboxes: seq<seq<OutboxRow>>)
    requires Growing(outboxes) && outboxes != []
    ensures Sound(outboxes[0])
  {
  }

  lemma GrowingRest(outboxes: seq<seq<OutboxRow>>)
    requires Growing(outboxes) && |outboxes| > 1
    ensures Growing(outboxes[1..]) && outboxes[0] <= outboxes[1] && outboxes[0] <= outboxes[|outboxes| - 1]
  {
    hide Sound;
  }

  lemma GaplessFirst(rows: seq<OutboxRow>)
    requires Sound(rows)
    ensures forall i :: 0 <= i < |rows| ==> rows[i].id == i + 1
  {
    hide WellFormed;
    GaplessIds(rows);
  }

  /** A consumer following pages of one outbox gets to its end in a bounded number of reads. */
  lemma {:induction false} FollowTerminates(rows: seq<OutboxRow>, outboxes: seq<seq<OutboxRow>>, limits: seq<int>, after: nat)
    requires Sound(rows) && |limits| == |outboxes| && after <= |rows| && |outboxes| >= |rows| - after
    requires forall i :: 0 <= i < |limits| ==> outboxes[i] == rows && 0 < limits[i] <= MAX_PAGE
    ensures Follow(outboxes, limits, after) == Ok((rows[after..], |rows|))
    decreases |outboxes|
  {
    hide Sound, List;
    if outboxes != [] {
      PageExact(rows, after, limits[0]);
      GaplessFirst(rows);
      var page := List(rows, after, limits[0]).value;
      var next := Resume(after, page);
      assert next == Least(after + limits[0], |rows|);
      FollowTerminates(rows, outboxes[1..], limits[1..], next);
      assert rows[after..] == rows[after..next] + rows[next..];
    }
  }

  // ----- every reachable outbox -----

  ghost predicate AllWellFormed(es: seq<Event>) {
    forall e :: e in es ==> WellFormed(e)
  }

  /** The call appended well-formed events, and nothing else, to the outbox. */
  ghost predicate Appends(db: Database, r: Outcome) {
    r.Ok? ==> r.value.outbox == db.outbox || exists es :: AllWellFormed(es) && r.value.outbox == AppendAll(db.outbox, es)
  }

  lemma OrganisationsAppend(db: Database, m: Mutation)
    requires m.MCreateOrganisation? || m.MAddOrganisationMember? || m.MChangeOrganisationRole? || m.MDeactivateOrganisationMember?
             || m.MArchiveOrganisation? || m.MRenameOrganisation?
    ensures Appends(db, Apply(db, m))
  {
    hide WellFormed, AppendAll, AuthoriseOrganisation, Current, Trim, RemovalEvents, RetireScope, ListsActive, MutableMembership;
  }

  lemma WorkspacesAppend(db: Database, m: Mutation)
    requires m.MCreateWorkspace? || m.MAddWorkspaceMember? || m.MChangeWorkspaceRole? || m.MDeactivateWorkspaceMember? || m.MArchiveWorkspace?
    ensures Appends(db, Apply(db, m))
  {
    hide WellFormed, AppendAll, AuthoriseOrganisation, AuthoriseWorkspace, Current, Trim, RemovalEvents, RetireScope, ListsActive,
      MutableWorkspaceMembership, WorkspaceTarget;
  }

  lemma OthersAppend(db: Database, m: Mutation)
    requires m.SetAdmins? || m.MCreateUser? || m.MSetUserActive? || m.MRetireProduct? || m.MEntitleOrganisation? || m.MRevokeEntitlement?
             || m.MAssignProduct? || m.MRevokeAssignment?
    ensures Appends(db, Apply(db, m))
  {
    hide WellFormed, AppendAll, AuthoriseOrganisation, Current, Trim, HasEntitlement, HasAssignment;
  }

  lemma ApplyAppends(db: Database, m: Mutation)
    ensures Appends(db, Apply(db, m))
  {
    hide Apply, Appends;
    if m.MCreateOrganisation? || m.MAddOrganisationMember? || m.MChangeOrganisationRole? || m.MDeactivateOrganisationMember?
       || m.MArchiveOrganisation? || m.MRenameOrganisation? {
      OrganisationsAppend(db, m);
    } else if m.MCreateWorkspace? || m.MAddWorkspaceMember? || m.MChangeWorkspaceRole? || m.MDeactivateWorkspaceMember? || m.MArchiveWorkspace? {
      WorkspacesAppend(db, m);
    } else {
      OthersAppend(db, m);
    }
  }

  lemma {:induction false} AppendAllSound(rows: seq<OutboxRow>, es: seq<Event>)
    requires Sound(rows) && AllWellFormed(es)
    ensures Sound(AppendAll(rows, es)) && rows <= AppendAll(rows, es)
    decreases |es|
  {
    hide WellFormed, AggregateOf, Count;
    if es != [] {
      AppendGapless(rows, es[0]);
      AppendAllSound(Append(rows, es[0]), es[1..]);
    }
  }

  /** From the migrated tables on, every outbox is gapless, holds well-formed events only, and only ever grows. */
  lemma {:induction false} RunSound(db: Database, ms: seq<Mutation>)
    requires Sound(db.outbox)
    ensures Sound(Run(db, ms).outbox) && db.outbox <= Run(db, ms).outbox
    decreases |ms|
  {
    hide Sound, Apply, AllWellFormed;
    if ms != [] {
      ApplyAppends(db, ms[0]);
      var next := Step(db, ms[0]);
      if next.outbox != db.outbox {
        var es :| AllWellFormed(es) && next.outbox == AppendAll(db.outbox, es);
        AppendAllSound(db.outbox, es);
      }
      RunSound(next, ms[1..]);
    }
  }

  lemma {:induction false} SoundPrefix(rows: seq<OutboxRow>, n: nat)
    requires Sound(rows) && n <= |rows|
    ensures Sound(rows[..n])
    decreases |rows|
  {
    hide WellFormed, AggregateOf, Count;
    if n < |rows| {
      SoundPrefix(rows[..|rows| - 1], n);
      assert rows[..|rows| - 1][..n] == rows[..n];
    } else {
      assert rows[..n] == rows;
    }
  }
}
