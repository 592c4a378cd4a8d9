/** One aggregate's events 1..n, delivered in any order with any duplicates and interleaved with any other inbox work,
    are all applied by alternating reconcile and apply. */
module ProjectionConvergence {
  import opened Prelude
  import opened Projections
  import opened ProjectionSafety
  import opened ProjectionDecisions

  /** One well-formed event of the aggregate for each sequence 1..n, each under its own id. */
  ghost predicate Numbered(events: seq<Delivered>, k: CheckpointKey) {
    && ConsumerFits(k.consumer) && Trim(k.consumer) == k.consumer && AggregateFits(k.aggregateType, k.aggregate)
    && (forall n :: 0 <= n < |events| ==>
          && events[n].sequence == n + 1
          && events[n].aggregateType == k.aggregateType && events[n].aggregate == k.aggregate
          && IdentityFits(events[n]) && EnvelopeFits(events[n]) && PayloadFits(events[n]) && |events[n].payload| > 1 && Understood(events[n]))
    && (forall m, n | 0 <= m < n < |events| :: events[m].id != events[n].id)
  }

  /** So every event passes the source check, under a consumer and aggregate that pass theirs. */
  lemma NumberedPasses(events: seq<Delivered>, k: CheckpointKey)
    requires Numbered(events, k)
    ensures ValidConsumer(k.consumer) && ValidAggregate(k.aggregateType, k.aggregate)
    ensures forall n :: 0 <= n < |events| ==> SourceCheck(events[n]) == Ok("")
  {
    hide ValidConsumer, ConsumerFits, SourceCheck, IdentityFits, EnvelopeFits, PayloadFits, Understood, Complaint, Trim;
    ConsumerIff(k.consumer);
    forall n | 0 <= n < |events|
      ensures SourceCheck(events[n]) == Ok("")
    {
      EventDecides(events[n]);
    }
  }

  ghost predicate TrimmedIds(events: seq<Delivered>) {
    forall n :: 0 <= n < |events| ==> Trim(events[n].id) == events[n].id
  }

  /** The aggregate's history, under ids an apply can find: see `ConvergesIff`. */
  ghost predicate History(events: seq<Delivered>, k: CheckpointKey) {
    Numbered(events, k) && TrimmedIds(events)
  }

  /** Ingests for this consumer are events of the history, or have other ids and other aggregates; the checkpoint is never
      marked unavailable. Everything else is unrestricted. */
  ghost predicate Fair(a: Action, events: seq<Delivered>, k: CheckpointKey) {
    match a
    case AIngest(c, e, _) =>
      Trim(c) == k.consumer ==>
        e in events || (CheckpointKey(Trim(c), e.aggregateType, e.aggregate) != k && forall n :: 0 <= n < |events| ==> events[n].id != e.id)
    case AMarkUnavailable(c, t, id, _, _) => CheckpointKey(Trim(c), t, id) != k
    case _ => true
  }

  predicate RowFits(row: InboxRow, events: seq<Delivered>, last: int) {
    && 1 <= row.event.sequence <= |events| && row.event == events[row.event.sequence - 1]
    && (row.state.Applied? <==> row.event.sequence <= last)
    && (row.state.Pending? ==> row.event.sequence == last + 1)
    && !row.state.Stale? && !row.state.Blocked?
  }

  ghost predicate RowsFit(inbox: Inbox, k: CheckpointKey, events: seq<Delivered>, last: int) {
    forall i :: 0 <= i < |inbox| && KeyOf(inbox[i]) == k ==> RowFits(inbox[i], events, last)
  }

  predicate Healthy(inbox: Inbox, k: CheckpointKey, c: Checkpoint) {
    !c.state.Stuck? && !c.state.Unavailable? && (Lowest(inbox, k, false).None? ==> c.state.Current?)
  }

  ghost predicate KeyOnTrack(inbox: Inbox, checkpoint: Option<Checkpoint>, k: CheckpointKey, events: seq<Delivered>) {
    if checkpoint.Some? then
      && RowsFit(inbox, k, events, checkpoint.value.lastSequence) && Healthy(inbox, k, checkpoint.value)
      && checkpoint.value.lastSequence <= |events|
    else NoRows(inbox, k)
  }

  /** No other aggregate's row holds an id of the history. */
  ghost predicate OwnIds(inbox: Inbox, k: CheckpointKey, events: seq<Delivered>) {
    forall i, n | 0 <= i < |inbox| && 0 <= n < |events| :: Holds(inbox[i], k.consumer, events[n].id) ==> KeyOf(inbox[i]) == k
  }

  ghost predicate OnTrack(p: Projection, k: CheckpointKey, events: seq<Delivered>) {
    Inv(p) && OwnIds(p.inbox, k, events) && KeyOnTrack(p.inbox, CheckpointAt(p.checkpoints, k), k, events)
  }

  // ----- staying on track -----

  lemma SameOnTrack(inbox: Inbox, inbox': Inbox, checkpoint: Option<Checkpoint>, k: CheckpointKey, events: seq<Delivered>)
    requires KeyOnTrack(inbox, checkpoint, k, events) && SameFor(inbox, inbox', k)
    ensures KeyOnTrack(inbox', checkpoint, k, events)
  {
    hide KeyOf, Lowest, RowFits;
    LowestSame(inbox, inbox', k, false);
  }

  /** The event with sequence `s` is held by the row that holds its id, and by no other row of the key. */
  lemma OneRowPerSequence(p: Projection, k: CheckpointKey, events: seq<Delivered>, i: int, j: int)
    requires OnTrack(p, k, events) && 0 <= i < |p.inbox| && 0 <= j < |p.inbox| && KeyOf(p.inbox[i]) == k && KeyOf(p.inbox[j]) == k
    requires p.inbox[i].event.sequence == p.inbox[j].event.sequence
    ensures i == j
  {
    hide KeyInv, Healthy;
    assert RowFits(p.inbox[i], events, p.checkpoints[k].lastSequence) && RowFits(p.inbox[j], events, p.checkpoints[k].lastSequence);
  }

  /** A sequence at or below the checkpoint's is already in the inbox, under the history's id. */
  lemma AppliedIsHeld(p: Projection, k: CheckpointKey, events: seq<Delivered>, n: nat)
    requires OnTrack(p, k, events) && n < |events| && k in p.checkpoints && n < p.checkpoints[k].lastSequence
    ensures exists i :: 0 <= i < |p.inbox| && Holds(p.inbox[i], k.consumer, events[n].id)
  {
    hide NeverUnderstates, Healthy;
    assert KeyInv(p.inbox, k, p.checkpoints[k]);
    assert HasApplied(p.inbox, k, n + 1);
    var i :| AppliedAt(p.inbox, k, i, n + 1);
    assert RowFits(p.inbox[i], events, p.checkpoints[k].lastSequence);
    assert Holds(p.inbox[i], k.consumer, events[n].id);
  }

  lemma IngestOwn(p: Projection, k: CheckpointKey, events: seq<Delivered>, n: nat)
    requires OnTrack(p, k, events) && History(events, k) && n < |events| && Find(p.inbox, k.consumer, events[n].id).None?
    ensures var (state, reason) := Classify("", CheckpointAt(p.checkpoints, k), n + 1);
            KeyOnTrack(p.inbox + [InboxRow(k.consumer, events[n], state, reason)],
                       Some(AfterIngest(CheckpointAt(p.checkpoints, k), state, reason)), k, events)
  {
    hide KeyInv, UniqueEvents, Trim, ValidConsumer, ValidAggregate, SourceCheck, IdentityFits, EnvelopeFits, PayloadFits, Understood, ConsumerFits, AggregateFits;
    var checkpoint := CheckpointAt(p.checkpoints, k);
    if checkpoint.Some? && n < checkpoint.value.lastSequence {
      AppliedIsHeld(p, k, events, n);
    }
    var (state, reason) := Classify("", checkpoint, n + 1);
    var row := InboxRow(k.consumer, events[n], state, reason);
    assert Selected((p.inbox + [row])[|p.inbox|], k, false);
  }

  lemma OwnIdsAppended(inbox: Inbox, row: InboxRow, k: CheckpointKey, events: seq<Delivered>)
    requires OwnIds(inbox, k, events)
    requires KeyOf(row) == k || row.consumer != k.consumer || forall n :: 0 <= n < |events| ==> events[n].id != row.event.id
    ensures OwnIds(inbox + [row], k, events)
  {
  }

  /** The tables after a new event: the row and the checkpoint an ingest writes. */
  function Filed(p: Projection, c: string, e: Delivered, blockedReason: string): Projection {
    var k := CheckpointKey(c, e.aggregateType, e.aggregate);
    var (state, reason) := Classify(blockedReason, CheckpointAt(p.checkpoints, k), e.sequence);
    Projection(p.inbox + [InboxRow(c, e, state, reason)], p.checkpoints[k := AfterIngest(CheckpointAt(p.checkpoints, k), state, reason)])
  }

  lemma IngestFiles(p: Projection, consumer: string, e: Delivered, at: int)
    ensures var next := After(p, Ingest(p, consumer, e, at));
            next == p ||
            (SourceCheck(e).Ok? && Find(p.inbox, Trim(consumer), e.id).None? && next == Filed(p, Trim(consumer), e, SourceCheck(e).value))
  {
    hide Trim, ValidConsumer, SourceCheck, Classify, AfterIngest, SameEvent;
  }

  lemma FiledElsewhere(p: Projection, k: CheckpointKey, events: seq<Delivered>, c: string, e: Delivered, blockedReason: string)
    requires OnTrack(p, k, events) && CheckpointKey(c, e.aggregateType, e.aggregate) != k
    ensures var next := Filed(p, c, e, blockedReason); KeyOnTrack(next.inbox, CheckpointAt(next.checkpoints, k), k, events)
  {
    hide Inv, KeyOnTrack, Classify, AfterIngest, OwnIds;
    var next := Filed(p, c, e, blockedReason);
    assert SameFor(p.inbox, next.inbox, k);
    SameOnTrack(p.inbox, next.inbox, CheckpointAt(p.checkpoints, k), k, events);
  }

  lemma IngestOnTrack(p: Projection, k: CheckpointKey, events: seq<Delivered>, consumer: string, e: Delivered, at: int)
    requires OnTrack(p, k, events) && History(events, k) && Fair(AIngest(consumer, e, at), events, k)
    ensures OnTrack(After(p, Ingest(p, consumer, e, at)), k, events)
  {
    hide Inv, Trim, ValidConsumer, ValidAggregate, SourceCheck, Classify, AfterIngest, KeyOnTrack, OwnIds, Ingest, After, Find,
      IdentityFits, EnvelopeFits, PayloadFits, Understood, ConsumerFits, AggregateFits;
    NumberedPasses(events, k);
    IngestKeeps(p, consumer, e, at);
    IngestFiles(p, consumer, e, at);
    var c := Trim(consumer);
    var next := After(p, Ingest(p, consumer, e, at));
    if next != p {
      OwnIdsAppended(p.inbox, next.inbox[|p.inbox|], k, events);
      if c == k.consumer && e in events {
        var n :| 0 <= n < |events| && events[n] == e;
        IngestOwn(p, k, events, n);
      } else {
        FiledElsewhere(p, k, events, c, e, SourceCheck(e).value);
      }
    }
  }

  lemma OwnIdsSet(inbox: Inbox, i: nat, state: InboxState, reason: string, k: CheckpointKey, events: seq<Delivered>)
    requires OwnIds(inbox, k, events) && i < |inbox|
    ensures OwnIds(SetState(inbox, i, state, reason), k, events)
  {
  }

  /** Recomputing a checkpoint over rows that fit leaves it healthy. */
  lemma RefreshedHealthy(inbox: Inbox, k: CheckpointKey, c: Checkpoint, events: seq<Delivered>)
    requires RowsFit(inbox, k, events, c.lastSequence)
    ensures Healthy(inbox, k, Refreshed(inbox, k, c))
  {
    hide KeyOf;
    var low := Lowest(inbox, k, false);
    if low.Some? {
      assert Selected(inbox[low.value], k, false);
      assert RowFits(inbox[low.value], events, c.lastSequence);
    }
  }

  /** A row of the key next in sequence, once applied, leaves every row fitting the new last sequence. */
  lemma AppliedFits(p: Projection, k: CheckpointKey, events: seq<Delivered>, i: nat)
    requires OnTrack(p, k, events) && k in p.checkpoints && i < |p.inbox| && KeyOf(p.inbox[i]) == k
    requires p.inbox[i].event.sequence == p.checkpoints[k].lastSequence + 1
    ensures RowsFit(SetState(p.inbox, i, Applied, ""), k, events, p.checkpoints[k].lastSequence + 1)
    ensures p.checkpoints[k].lastSequence + 1 <= |events|
  {
    hide Inv, Healthy, OwnIds;
    var last := p.checkpoints[k].lastSequence;
    var inbox := SetState(p.inbox, i, Applied, "");
    assert RowFits(p.inbox[i], events, last);
    forall j | 0 <= j < |inbox| && KeyOf(inbox[j]) == k
      ensures RowFits(inbox[j], events, last + 1)
    {
      assert RowFits(p.inbox[j], events, last);
      if p.inbox[j].event.sequence == last + 1 { OneRowPerSequence(p, k, events, i, j); }
    }
  }

  /** The tables after row `i`, next in sequence for its key, is applied. */
  function Applying(p: Projection, i: nat): Projection
    requires i < |p.inbox| && KeyOf(p.inbox[i]) in p.checkpoints
  {
    var k := KeyOf(p.inbox[i]);
    var inbox := SetState(p.inbox, i, Applied, "");
    var moved := p.checkpoints[k].(lastSequence := p.inbox[i].event.sequence, lastEvent := p.inbox[i].event.id);
    Projection(inbox, p.checkpoints[k := Refreshed(inbox, k, moved)])
  }

  lemma MarkAppliedApplies(p: Projection, consumer: string, event: string, at: int) returns (i: nat)
    ensures var next := After(p, MarkApplied(p, consumer, event, at));
            next == p ||
            (i < |p.inbox| && KeyOf(p.inbox[i]) in p.checkpoints && next == Applying(p, i)
             && p.inbox[i].event.sequence == p.checkpoints[KeyOf(p.inbox[i])].lastSequence + 1)
  {
    hide Trim, ValidConsumer, Refreshed, KeyOf, Find;
    var found := Find(p.inbox, Trim(consumer), Trim(event));
    i := if found.Some? then found.value else 0;
  }

  lemma ApplyingOnTrack(p: Projection, k: CheckpointKey, events: seq<Delivered>, i: nat)
    requires OnTrack(p, k, events) && i < |p.inbox| && KeyOf(p.inbox[i]) in p.checkpoints
    requires p.inbox[i].event.sequence == p.checkpoints[KeyOf(p.inbox[i])].lastSequence + 1
    ensures KeyOnTrack(Applying(p, i).inbox, CheckpointAt(Applying(p, i).checkpoints, k), k, events)
  {
    hide Inv, KeyOnTrack, OwnIds, Refreshed, RowsFit, SameFor;
    var inbox := SetState(p.inbox, i, Applied, "");
    if KeyOf(p.inbox[i]) == k {
      AppliedFits(p, k, events, i);
      OnTrackRefreshed(inbox, k, p.checkpoints[k].(lastSequence := p.inbox[i].event.sequence, lastEvent := p.inbox[i].event.id), events);
    } else {
      SetStateElsewhere(p.inbox, i, Applied, "", k);
      SameOnTrack(p.inbox, inbox, CheckpointAt(p.checkpoints, k), k, events);
    }
  }

  lemma SetStateElsewhere(inbox: Inbox, i: nat, state: InboxState, reason: string, k: CheckpointKey)
    requires i < |inbox| && KeyOf(inbox[i]) != k
    ensures SameFor(inbox, SetState(inbox, i, state, reason), k)
  {
  }

  lemma MarkAppliedOnTrack(p: Projection, k: CheckpointKey, events: seq<Delivered>, consumer: string, event: string, at: int)
    requires OnTrack(p, k, events)
    ensures OnTrack(After(p, MarkApplied(p, consumer, event, at)), k, events)
  {
    hide Inv, KeyOnTrack, OwnIds, MarkApplied, After, KeyOf, Refreshed;
    MarkAppliedKeeps(p, consumer, event, at);
    var i := MarkAppliedApplies(p, consumer, event, at);
    if After(p, MarkApplied(p, consumer, event, at)) != p {
      OwnIdsSet(p.inbox, i, Applied, "", k, events);
      ApplyingOnTrack(p, k, events, i);
    }
  }

  lemma OnTrackRefreshed(inbox: Inbox, k: CheckpointKey, c: Checkpoint, events: seq<Delivered>)
    requires RowsFit(inbox, k, events, c.lastSequence) && c.lastSequence <= |events|
    ensures KeyOnTrack(inbox, Some(Refreshed(inbox, k, c)), k, events)
  {
    hide RowsFit, Refreshed, Healthy;
    RefreshedHealthy(inbox, k, c, events);
    RefreshedExact(inbox, k, c);
  }

  lemma PromotedFits(inbox: Inbox, k: CheckpointKey, events: seq<Delivered>, last: int, i: nat)
    requires RowsFit(inbox, k, events, last) && i < |inbox| && KeyOf(inbox[i]) == k
    requires inbox[i].state.Gap? && inbox[i].event.sequence == last + 1
    ensures RowsFit(SetState(inbox, i, Pending, "awaiting_apply"), k, events, last)
  {
    assert RowFits(inbox[i], events, last);
  }

  /** The inbox after a reconcile of the key: the lowest gap is promoted if it is next in sequence. */
  function Promoted(inbox: Inbox, k: CheckpointKey, c: Checkpoint): Inbox {
    match Lowest(inbox, k, true)
    case None => inbox
    case Some(i) => if inbox[i].event.sequence == c.lastSequence + 1 then SetState(inbox, i, Pending, "awaiting_apply") else inbox
  }

  function Reconciling(p: Projection, k: CheckpointKey): Projection
    requires k in p.checkpoints
  {
    var inbox := Promoted(p.inbox, k, p.checkpoints[k]);
    Projection(inbox, p.checkpoints[k := Refreshed(inbox, k, p.checkpoints[k])])
  }

  lemma ReconcileReconciles(p: Projection, consumer: string, aggregateType: string, aggregate: string, limit: int, at: int)
    ensures var next, k := After(p, Reconcile(p, consumer, aggregateType, aggregate, limit, at)), CheckpointKey(Trim(consumer), aggregateType, aggregate);
            next == p || (k in p.checkpoints && next == Reconciling(p, k))
  {
    hide Trim, ValidConsumer, ValidAggregate, Refreshed;
  }

  lemma PromotedOnTrack(inbox: Inbox, j: CheckpointKey, c: Checkpoint, k: CheckpointKey, events: seq<Delivered>)
    requires OwnIds(inbox, k, events)
    ensures OwnIds(Promoted(inbox, j, c), k, events)
    ensures j != k ==> SameFor(inbox, Promoted(inbox, j, c), k)
    ensures j == k && RowsFit(inbox, k, events, c.lastSequence) ==> RowsFit(Promoted(inbox, j, c), k, events, c.lastSequence)
  {
    hide OwnIds, SameFor, RowsFit, KeyOf;
    var gap := Lowest(inbox, j, true);
    if gap.Some? {
      var i := gap.value;
      assert Selected(inbox[i], j, true);
      OwnIdsSet(inbox, i, Pending, "awaiting_apply", k, events);
      if j != k { SetStateElsewhere(inbox, i, Pending, "awaiting_apply", k); }
      if j == k && RowsFit(inbox, k, events, c.lastSequence) && inbox[i].event.sequence == c.lastSequence + 1 {
        PromotedFits(inbox, k, events, c.lastSequence, i);
      }
    }
    SameForRefl(inbox, k);
  }

  lemma SameForRefl(inbox: Inbox, k: CheckpointKey)
    ensures SameFor(inbox, inbox, k)
  {
  }

  lemma ReconcilingOnTrack(p: Projection, k: CheckpointKey, events: seq<Delivered>, j: CheckpointKey)
    requires OnTrack(p, k, events) && j in p.checkpoints
    ensures var next := Reconciling(p, j);
            OwnIds(next.inbox, k, events) && KeyOnTrack(next.inbox, CheckpointAt(next.checkpoints, k), k, events)
  {
    hide Inv, OwnIds, Refreshed, RowsFit, SameFor, Promoted, Healthy;
    PromotedOnTrack(p.inbox, j, p.checkpoints[j], k, events);
    var inbox := Promoted(p.inbox, j, p.checkpoints[j]);
    if j == k {
      OnTrackRefreshed(inbox, k, p.checkpoints[k], events);
    } else {
      SameOnTrack(p.inbox, inbox, CheckpointAt(p.checkpoints, k), k, events);
    }
  }

  lemma ReconcileOnTrack(p: Projection, k: CheckpointKey, events: seq<Delivered>, consumer: string, aggregateType: string,
                         aggregate: string, limit: int, at: int)
    requires OnTrack(p, k, events)
    ensures OnTrack(After(p, Reconcile(p, consumer, aggregateType, aggregate, limit, at)), k, events)
  {
    hide Inv, KeyOnTrack, OwnIds, Reconcile, After, Trim, Reconciling;
    ReconcileKeeps(p, consumer, aggregateType, aggregate, limit, at);
    ReconcileReconciles(p, consumer, aggregateType, aggregate, limit, at);
    if After(p, Reconcile(p, consumer, aggregateType, aggregate, limit, at)) != p {
      ReconcilingOnTrack(p, k, events, CheckpointKey(Trim(consumer), aggregateType, aggregate));
    }
  }

  lemma MarkUnavailableOnTrack(p: Projection, k: CheckpointKey, events: seq<Delivered>, consumer: string, aggregateType: string,
                               aggregate: string, reason: string, at: int)
    requires OnTrack(p, k, events) && CheckpointKey(Trim(consumer), aggregateType, aggregate) != k
    ensures OnTrack(After(p, MarkUnavailable(p, consumer, aggregateType, aggregate, reason, at)), k, events)
  {
    MarkUnavailableKeeps(p, consumer, aggregateType, aggregate, reason, at);
    hide Inv, Trim, ValidConsumer, ValidAggregate, OwnIds, KeyOnTrack;
  }

  lemma ResumeOnTrack(p: Projection, k: CheckpointKey, events: seq<Delivered>, consumer: string, aggregateType: string, aggregate: string, at: int)
    requires OnTrack(p, k, events)
    ensures OnTrack(After(p, Resume(p, consumer, aggregateType, aggregate, at)), k, events)
  {
    hide Inv, Trim, ValidConsumer, ValidAggregate, OwnIds, Refreshed, RowsFit, Lowest;
    ResumeKeeps(p, consumer, aggregateType, aggregate, at);
  }

  lemma ActOnTrack(p: Projection, k: CheckpointKey, events: seq<Delivered>, a: Action)
    requires OnTrack(p, k, events) && History(events, k) && Fair(a, events, k)
    ensures OnTrack(Act(p, a), k, events)
  {
    hide OnTrack, History, Ingest, MarkApplied, Reconcile, MarkUnavailable, Resume, After;
    match a
    case AIngest(c, e, at) => IngestOnTrack(p, k, events, c, e, at);
    case AMarkApplied(c, id, at) => MarkAppliedOnTrack(p, k, events, c, id, at);
    case AReconcile(c, t, id, limit, at) => ReconcileOnTrack(p, k, events, c, t, id, limit, at);
    case AMarkUnavailable(c, t, id, reason, at) => MarkUnavailableOnTrack(p, k, events, c, t, id, reason, at);
    case AResume(c, t, id, at) => ResumeOnTrack(p, k, events, c, t, id, at);
  }

  lemma {:induction false} ActAllOnTrack(p: Projection, k: CheckpointKey, events: seq<Delivered>, actions: seq<Action>)
    requires OnTrack(p, k, events) && History(events, k) && forall i :: 0 <= i < |actions| ==> Fair(actions[i], events, k)
    ensures OnTrack(ActAll(p, actions), k, events)
    decreases |actions|
  {
    hide OnTrack, History, Act, Fair;
    if actions != [] {
      ActOnTrack(p, k, events, actions[0]);
      ActAllOnTrack(Act(p, actions[0]), k, events, actions[1..]);
    }
  }

  // ----- delivery -----

  ghost predicate HasEvent(inbox: Inbox, k: CheckpointKey, e: Delivered) {
    exists i :: 0 <= i < |inbox| && KeyOf(inbox[i]) == k && inbox[i].event == e
  }

  /** Every event of the history is in the inbox. */
  ghost predicate Complete(p: Projection, k: CheckpointKey, events: seq<Delivered>) {
    forall n :: 0 <= n < |events| ==> HasEvent(p.inbox, k, events[n])
  }

  predicate Delivers(a: Action, e: Delivered, k: CheckpointKey) {
    a.AIngest? && Trim(a.consumer) == k.consumer && a.event == e && a.at != 0
  }

  /** A row holding an id of the history holds the history's event. */
  lemma HeldIsOurs(p: Projection, k: CheckpointKey, events: seq<Delivered>, n: nat, i: nat)
    requires OnTrack(p, k, events) && History(events, k) && n < |events| && i < |p.inbox|
    requires Holds(p.inbox[i], k.consumer, events[n].id)
    ensures KeyOf(p.inbox[i]) == k && p.inbox[i].event == events[n] && k in p.checkpoints
  {
    hide KeyInv, Healthy, UniqueEvents, SourceCheck;
    assert KeyOf(p.inbox[i]) in p.checkpoints;
    assert RowFits(p.inbox[i], events, p.checkpoints[k].lastSequence);
    var m := p.inbox[i].event.sequence - 1;
    assert events[m].id == events[n].id;
  }

  lemma DeliveryArrives(p: Projection, k: CheckpointKey, events: seq<Delivered>, n: nat, a: Action)
    requires OnTrack(p, k, events) && History(events, k) && n < |events| && Delivers(a, events[n], k)
    ensures HasEvent(Act(p, a).inbox, k, events[n])
  {
    hide OnTrack, Trim, ValidConsumer, SourceCheck, Classify, AfterIngest, IdentityFits, EnvelopeFits, PayloadFits, Understood, ConsumerFits, AggregateFits;
    NumberedPasses(events, k);
    var found := Find(p.inbox, k.consumer, events[n].id);
    assert SourceCheck(events[n]) == Ok("") && events[n].aggregateType == k.aggregateType && events[n].aggregate == k.aggregate;
    if found.Some? {
      HeldIsOurs(p, k, events, n, found.value);
      assert Act(p, a) == p;
      assert KeyOf(p.inbox[found.value]) == k;
    } else {
      var next := Act(p, a);
      assert next == Filed(p, k.consumer, events[n], "");
      assert KeyOf(next.inbox[|p.inbox|]) == k && next.inbox[|p.inbox|].event == events[n];
    }
  }

  lemma EventStays(inbox: Inbox, inbox': Inbox, k: CheckpointKey, e: Delivered)
    requires Later(inbox, inbox') && HasEvent(inbox, k, e)
    ensures HasEvent(inbox', k, e)
  {
    var i :| 0 <= i < |inbox| && KeyOf(inbox[i]) == k && inbox[i].event == e;
    assert KeyOf(inbox'[i]) == k && inbox'[i].event == e;
  }

  lemma {:induction false} DeliveredStays(p: Projection, k: CheckpointKey, events: seq<Delivered>, n: nat, actions: seq<Action>, j: nat)
    requires OnTrack(p, k, events) && History(events, k) && n < |events|
    requires forall i :: 0 <= i < |actions| ==> Fair(actions[i], events, k)
    requires j < |actions| && Delivers(actions[j], events[n], k)
    ensures HasEvent(ActAll(p, actions).inbox, k, events[n])
    decreases |actions|
  {
    hide OnTrack, History, Act, Fair, Delivers, HasEvent, Later;
    var next := Act(p, actions[0]);
    ActOnTrack(p, k, events, actions[0]);
    if j == 0 {
      DeliveryArrives(p, k, events, n, actions[0]);
      ActAllLater(next, actions[1..]);
      EventStays(next.inbox, ActAll(p, actions).inbox, k, events[n]);
    } else {
      DeliveredStays(next, k, events, n, actions[1..], j - 1);
    }
  }

  // ----- draining -----

  /** One round of the consumer's loop: reconcile, then apply the next event of the aggregate. */
  function Round(p: Projection, k: CheckpointKey, events: seq<Delivered>, limit: int, at: int): Projection {
    var q := Act(p, AReconcile(k.consumer, k.aggregateType, k.aggregate, limit, at));
    if k in q.checkpoints && 0 <= q.checkpoints[k].lastSequence < |events| then
      Act(q, AMarkApplied(k.consumer, events[q.checkpoints[k].lastSequence].id, at))
    else q
  }

  function Rounds(p: Projection, k: CheckpointKey, events: seq<Delivered>, limit: int, at: int, count: nat): Projection
    decreases count
  {
    if count == 0 then p else Rounds(Round(p, k, events, limit, at), k, events, limit, at, count - 1)
  }

  /** A reconcile leaves the next event ready to apply, wherever it was filed before. */
  lemma NextIsPending(p: Projection, k: CheckpointKey, events: seq<Delivered>, i: nat)
    requires OnTrack(p, k, events) && k in p.checkpoints && i < |p.inbox| && KeyOf(p.inbox[i]) == k
    requires p.inbox[i].event.sequence == p.checkpoints[k].lastSequence + 1
    ensures i < |Promoted(p.inbox, k, p.checkpoints[k])| && Promoted(p.inbox, k, p.checkpoints[k])[i].state.Pending?
  {
    hide Inv, Healthy, OwnIds;
    var last := p.checkpoints[k].lastSequence;
    assert RowFits(p.inbox[i], events, last);
    var gap := Lowest(p.inbox, k, true);
    if p.inbox[i].state.Gap? {
      assert Selected(p.inbox[i], k, true) && gap.Some?;
      assert Selected(p.inbox[gap.value], k, true);
      assert RowFits(p.inbox[gap.value], events, last);
      OneRowPerSequence(p, k, events, i, gap.value);
    } else if gap.Some? {
      assert Selected(p.inbox[gap.value], k, true);
    }
  }

  lemma ReconcileRuns(p: Projection, k: CheckpointKey, events: seq<Delivered>, limit: int, at: int)
    requires OnTrack(p, k, events) && History(events, k) && k in p.checkpoints && 0 < limit <= 1000 && at != 0
    ensures Act(p, AReconcile(k.consumer, k.aggregateType, k.aggregate, limit, at)) == Reconciling(p, k)
  {
    hide Inv, OwnIds, RowsFit, Refreshed, Lowest, SourceCheck, ValidConsumer, ValidAggregate, Trim;
    NumberedPasses(events, k);
  }

  lemma FoundById(inbox: Inbox, consumer: string, id: string, i: nat)
    requires UniqueEvents(inbox) && i < |inbox| && Holds(inbox[i], consumer, id)
    ensures Find(inbox, consumer, id) == Some(i)
  {
    hide Find;
    var found := Find(inbox, consumer, id);
    assert found.Some? && Holds(inbox[found.value], consumer, id);
  }

  lemma MarkAppliedRuns(q: Projection, k: CheckpointKey, id: string, i: nat, at: int)
    requires ValidConsumer(k.consumer) && Trim(k.consumer) == k.consumer && Trim(id) == id && id != "" && at != 0
    requires Find(q.inbox, k.consumer, id) == Some(i) && KeyOf(q.inbox[i]) == k && q.inbox[i].state.Pending?
    requires k in q.checkpoints && !q.checkpoints[k].state.Stuck? && !q.checkpoints[k].state.Unavailable?
    requires q.inbox[i].event.sequence == q.checkpoints[k].lastSequence + 1
    ensures Act(q, AMarkApplied(k.consumer, id, at)) == Applying(q, i)
  {
    hide Trim, ValidConsumer, Refreshed, Find, KeyOf;
  }

  lemma ApplyRuns(q: Projection, k: CheckpointKey, events: seq<Delivered>, i: nat, at: int)
    requires OnTrack(q, k, events) && History(events, k) && k in q.checkpoints && 0 <= q.checkpoints[k].lastSequence < |events| && at != 0
    requires i < |q.inbox| && KeyOf(q.inbox[i]) == k && q.inbox[i].state.Pending?
    requires q.inbox[i].event == events[q.checkpoints[k].lastSequence]
    ensures Act(q, AMarkApplied(k.consumer, events[q.checkpoints[k].lastSequence].id, at)) == Applying(q, i)
  {
    hide RowsFit, OwnIds, Trim, ValidConsumer, ValidAggregate, Healthy, KeyInv, Act, Applying;
    NumberedPasses(events, k);
    var e := events[q.checkpoints[k].lastSequence];
    assert SourceCheck(e).Ok? && Trim(e.id) == e.id;
    assert e.id != "";
    FoundById(q.inbox, k.consumer, e.id, i);
    NotStuck(q, k, events);
    MarkAppliedRuns(q, k, e.id, i, at);
  }

  lemma NotStuck(q: Projection, k: CheckpointKey, events: seq<Delivered>)
    requires OnTrack(q, k, events) && k in q.checkpoints
    ensures !q.checkpoints[k].state.Stuck? && !q.checkpoints[k].state.Unavailable?
    ensures 0 <= q.checkpoints[k].lastSequence <= |events|
  {
    hide RowsFit, OwnIds, Lowest, NeverUnderstates, UniqueEvents;
    assert KeyInv(q.inbox, k, q.checkpoints[k]);
  }

  lemma RoundAdvances(p: Projection, k: CheckpointKey, events: seq<Delivered>, limit: int, at: int)
    requires OnTrack(p, k, events) && History(events, k) && Complete(p, k, events) && 0 < limit <= 1000 && at != 0
    requires k in p.checkpoints && 0 <= p.checkpoints[k].lastSequence < |events|
    ensures var next := Round(p, k, events, limit, at);
            k in next.checkpoints && next.checkpoints[k].lastSequence == p.checkpoints[k].lastSequence + 1
  {
    hide OnTrack, SourceCheck, ValidConsumer, ValidAggregate, Trim, Act, Refreshed, Promoted;
    var last := p.checkpoints[k].lastSequence;
    assert HasEvent(p.inbox, k, events[last]);
    var i: nat :| i < |p.inbox| && KeyOf(p.inbox[i]) == k && p.inbox[i].event == events[last];
    assert events[last].sequence == last + 1;
    hide History, HasEvent, Complete, KeyOf;
    NextIsPending(p, k, events, i);
    ReconcileRuns(p, k, events, limit, at);
    ActOnTrack(p, k, events, AReconcile(k.consumer, k.aggregateType, k.aggregate, limit, at));
    var q := Reconciling(p, k);
    PromotedRows(p.inbox, k, p.checkpoints[k], i);
    RefreshedExact(q.inbox, k, p.checkpoints[k]);
    ApplyRuns(q, k, events, i, at);
    RefreshedExact(SetState(q.inbox, i, Applied, ""), k, q.checkpoints[k].(lastSequence := q.inbox[i].event.sequence, lastEvent := q.inbox[i].event.id));
  }

  lemma PromotedRows(inbox: Inbox, k: CheckpointKey, c: Checkpoint, i: nat)
    requires i < |inbox|
    ensures |Promoted(inbox, k, c)| == |inbox|
    ensures Promoted(inbox, k, c)[i].event == inbox[i].event && KeyOf(Promoted(inbox, k, c)[i]) == KeyOf(inbox[i])
  {
  }

  lemma RoundStays(p: Projection, k: CheckpointKey, events: seq<Delivered>, limit: int, at: int)
    requires OnTrack(p, k, events) && History(events, k) && Complete(p, k, events)
    ensures OnTrack(Round(p, k, events, limit, at), k, events) && Complete(Round(p, k, events, limit, at), k, events)
  {
    hide OnTrack, History, Act, HasEvent, Later;
    var reconcile := AReconcile(k.consumer, k.aggregateType, k.aggregate, limit, at);
    var q := Act(p, reconcile);
    ActOnTrack(p, k, events, reconcile);
    ActLater(p, reconcile);
    StillComplete(p, q, k, events);
    if k in q.checkpoints && 0 <= q.checkpoints[k].lastSequence < |events| {
      var mark := AMarkApplied(k.consumer, events[q.checkpoints[k].lastSequence].id, at);
      ActOnTrack(q, k, events, mark);
      ActLater(q, mark);
      StillComplete(q, Act(q, mark), k, events);
    }
  }

  lemma StillComplete(p: Projection, q: Projection, k: CheckpointKey, events: seq<Delivered>)
    requires Complete(p, k, events) && Later(p.inbox, q.inbox)
    ensures Complete(q, k, events)
  {
    hide HasEvent, Later;
    forall n | 0 <= n < |events|
      ensures HasEvent(q.inbox, k, events[n])
    {
      EventStays(p.inbox, q.inbox, k, events[n]);
    }
  }

  ghost predicate OneRowEach(inbox: Inbox, k: CheckpointKey) {
    forall i, j | 0 <= i < |inbox| && 0 <= j < |inbox| && KeyOf(inbox[i]) == k && KeyOf(inbox[j]) == k :: inbox[i].event == inbox[j].event ==> i == j
  }

  /** Everything is applied: the checkpoint reads current at the last event, and the aggregate's rows are exactly the
      history, each event once and applied. */
  ghost predicate Settled(p: Projection, k: CheckpointKey, events: seq<Delivered>) {
    && k in p.checkpoints && |events| > 0
    && p.checkpoints[k].lastSequence == |events| && p.checkpoints[k].lastEvent == events[|events| - 1].id
    && p.checkpoints[k].state.Current?
    && Complete(p, k, events)
    && (forall i :: 0 <= i < |p.inbox| && KeyOf(p.inbox[i]) == k ==> p.inbox[i].event in events && p.inbox[i].state.Applied?)
    && OneRowEach(p.inbox, k)
  }

  lemma NothingOutstanding(inbox: Inbox, k: CheckpointKey)
    requires forall i :: 0 <= i < |inbox| && KeyOf(inbox[i]) == k ==> inbox[i].state.Applied?
    ensures Lowest(inbox, k, false).None?
  {
    hide KeyOf;
  }

  lemma LastIsNamed(p: Projection, k: CheckpointKey, events: seq<Delivered>)
    requires OnTrack(p, k, events) && |events| > 0 && k in p.checkpoints && p.checkpoints[k].lastSequence == |events|
    ensures p.checkpoints[k].lastEvent == events[|events| - 1].id
  {
    hide Healthy, UniqueEvents, NeverUnderstates;
    assert KeyInv(p.inbox, k, p.checkpoints[k]);
    assert HasApplied(p.inbox, k, |events|);
    var i :| AppliedAt(p.inbox, k, i, |events|);
    assert RowFits(p.inbox[i], events, |events|);
  }

  lemma DoneIsSettled(p: Projection, k: CheckpointKey, events: seq<Delivered>)
    requires OnTrack(p, k, events) && Complete(p, k, events) && |events| > 0
    requires k in p.checkpoints && p.checkpoints[k].lastSequence == |events|
    ensures Settled(p, k, events)
  {
    hide Inv, KeyOf, Lowest, Complete, OwnIds;
    forall i | 0 <= i < |p.inbox| && KeyOf(p.inbox[i]) == k
      ensures p.inbox[i].event in events && p.inbox[i].state.Applied?
    {
      assert RowFits(p.inbox[i], events, |events|);
    }
    NothingOutstanding(p.inbox, k);
    LastIsNamed(p, k, events);
    OneRowForEach(p, k, events);
  }

  lemma OneRowForEach(p: Projection, k: CheckpointKey, events: seq<Delivered>)
    requires OnTrack(p, k, events) && k in p.checkpoints
    ensures OneRowEach(p.inbox, k)
  {
    hide OnTrack, KeyOf;
    forall i, j | 0 <= i < |p.inbox| && 0 <= j < |p.inbox| && KeyOf(p.inbox[i]) == k && KeyOf(p.inbox[j]) == k && p.inbox[i].event == p.inbox[j].event
      ensures i == j
    {
      OneRowPerSequence(p, k, events, i, j);
    }
  }

  lemma {:induction false} RoundsSettle(p: Projection, k: CheckpointKey, events: seq<Delivered>, limit: int, at: int, count: nat)
    requires OnTrack(p, k, events) && History(events, k) && Complete(p, k, events) && 0 < limit <= 1000 && at != 0
    requires |events| > 0 && k in p.checkpoints && 0 <= p.checkpoints[k].lastSequence && p.checkpoints[k].lastSequence + count == |events|
    ensures Settled(Rounds(p, k, events, limit, at, count), k, events)
    decreases count
  {
    hide OnTrack, History, Complete, Round, Settled;
    if count == 0 {
      DoneIsSettled(p, k, events);
    } else {
      RoundAdvances(p, k, events, limit, at);
      RoundStays(p, k, events, limit, at);
      RoundsSettle(Round(p, k, events, limit, at), k, events, limit, at, count - 1);
    }
  }

  lemma EmptyOnTrack(k: CheckpointKey, events: seq<Delivered>)
    ensures OnTrack(EMPTY, k, events)
  {
    EmptyInv();
  }

  ghost predicate IsDelivered(actions: seq<Action>, e: Delivered, k: CheckpointKey) {
    exists j :: 0 <= j < |actions| && Delivers(actions[j], e, k)
  }

  /** Order-insensitive convergence: deliver 1..n in any order, with duplicates, mixed with any applies, reconciles, resumes
      and other aggregates' work; then exactly n minus the checkpoint's last sequence rounds settle the aggregate. */
  lemma Converges(actions: seq<Action>, k: CheckpointKey, events: seq<Delivered>, limit: int, at: int)
    requires History(events, k) && |events| > 0 && 0 < limit <= 1000 && at != 0
    requires forall i :: 0 <= i < |actions| ==> Fair(actions[i], events, k)
    requires forall n :: 0 <= n < |events| ==> IsDelivered(actions, events[n], k)
    ensures var p := ActAll(EMPTY, actions);
            && k in p.checkpoints && 0 <= p.checkpoints[k].lastSequence <= |events|
            && Settled(Rounds(p, k, events, limit, at, |events| - p.checkpoints[k].lastSequence), k, events)
  {
    hide History, Fair, OnTrack, HasEvent, Settled, Delivers, ActAll;
    var p := ActAll(EMPTY, actions);
    EmptyOnTrack(k, events);
    ActAllOnTrack(EMPTY, k, events, actions);
    forall n | 0 <= n < |events|
      ensures HasEvent(p.inbox, k, events[n])
    {
      assert IsDelivered(actions, events[n], k);
      var j :| 0 <= j < |actions| && Delivers(actions[j], events[n], k);
      DeliveredStays(EMPTY, k, events, n, actions, j);
    }
    CompleteHasCheckpoint(p, k, events);
    NotStuck(p, k, events);
    RoundsSettle(p, k, events, limit, at, |events| - p.checkpoints[k].lastSequence);
  }

  lemma CompleteHasCheckpoint(p: Projection, k: CheckpointKey, events: seq<Delivered>)
    requires OnTrack(p, k, events) && Complete(p, k, events) && |events| > 0
    ensures k in p.checkpoints
  {
    assert HasEvent(p.inbox, k, events[0]);
  }

  // ----- ids with surrounding whitespace -----

  /** Ingest files an event under its id as given, but an apply looks for the trimmed id. */
  ghost predicate AppliedTrimmed(inbox: Inbox) {
    forall i :: 0 <= i < |inbox| && inbox[i].state.Applied? ==> Trim(inbox[i].event.id) == inbox[i].event.id
  }

  lemma MarkAppliedTrimmed(p: Projection, consumer: string, event: string, at: int)
    requires AppliedTrimmed(p.inbox)
    ensures AppliedTrimmed(After(p, MarkApplied(p, consumer, event, at)).inbox)
  {
    hide Trim, ValidConsumer, Refreshed, KeyOf;
    TrimTwice(event);
  }

  lemma ActTrimmed(p: Projection, a: Action)
    requires AppliedTrimmed(p.inbox)
    ensures AppliedTrimmed(Act(p, a).inbox)
  {
    hide MarkApplied, Trim, ValidConsumer, ValidAggregate, Refreshed, SourceCheck, Classify, AfterIngest, KeyOf, SameEvent;
    if a.AMarkApplied? {
      MarkAppliedTrimmed(p, a.consumer, a.id, a.at);
    } else if a.AIngest? {
      IngestTrimmed(p, a.consumer, a.event, a.at);
    }
  }

  lemma IngestTrimmed(p: Projection, consumer: string, e: Delivered, at: int)
    requires AppliedTrimmed(p.inbox)
    ensures AppliedTrimmed(After(p, Ingest(p, consumer, e, at)).inbox)
  {
    hide Trim, ValidConsumer, SourceCheck, AfterIngest, SameEvent;
  }

  lemma {:induction false} ActAllTrimmed(p: Projection, actions: seq<Action>)
    requires AppliedTrimmed(p.inbox)
    ensures AppliedTrimmed(ActAll(p, actions).inbox)
    decreases |actions|
  {
    hide Act, AppliedTrimmed;
    if actions != [] {
      ActTrimmed(p, actions[0]);
      ActAllTrimmed(Act(p, actions[0]), actions[1..]);
    }
  }

  lemma {:induction false} RoundsTrimmed(p: Projection, k: CheckpointKey, events: seq<Delivered>, limit: int, at: int, count: nat)
    requires AppliedTrimmed(p.inbox)
    ensures AppliedTrimmed(Rounds(p, k, events, limit, at, count).inbox)
    decreases count
  {
    hide Act, AppliedTrimmed;
    if count > 0 {
      var q := Act(p, AReconcile(k.consumer, k.aggregateType, k.aggregate, limit, at));
      ActTrimmed(p, AReconcile(k.consumer, k.aggregateType, k.aggregate, limit, at));
      if k in q.checkpoints && 0 <= q.checkpoints[k].lastSequence < |events| {
        ActTrimmed(q, AMarkApplied(k.consumer, events[q.checkpoints[k].lastSequence].id, at));
      }
      RoundsTrimmed(Round(p, k, events, limit, at), k, events, limit, at, count - 1);
    }
  }

  /** The row next in order can be applied under its own id if and only if that id carries no surrounding whitespace. */
  lemma AppliesIff(p: Projection, i: nat, at: int)
    requires Inv(p) && i < |p.inbox| && p.inbox[i].state.Pending? && at != 0
    requires ValidConsumer(p.inbox[i].consumer) && Trim(p.inbox[i].consumer) == p.inbox[i].consumer && Trim(p.inbox[i].event.id) != ""
    requires var c := p.checkpoints[KeyOf(p.inbox[i])];
             !c.state.Stuck? && !c.state.Unavailable? && p.inbox[i].event.sequence == c.lastSequence + 1
    ensures var next := After(p, MarkApplied(p, p.inbox[i].consumer, p.inbox[i].event.id, at)).inbox;
            i < |next| && (next[i].state.Applied? <==> Trim(p.inbox[i].event.id) == p.inbox[i].event.id)
  {
    hide Trim, ValidConsumer, Refreshed, KeyInv;
    var row := p.inbox[i];
    var found := Find(p.inbox, row.consumer, Trim(row.event.id));
    if Trim(row.event.id) == row.event.id {
      assert Holds(row, row.consumer, row.event.id);
      assert found == Some(i);
    }
  }

  /** Convergence, delivered as in `Converges`, holds if and only if every id of the history is trimmed. */
  lemma ConvergesIff(actions: seq<Action>, k: CheckpointKey, events: seq<Delivered>, limit: int, at: int)
    requires Numbered(events, k) && |events| > 0 && 0 < limit <= 1000 && at != 0
    requires forall i :: 0 <= i < |actions| ==> Fair(actions[i], events, k)
    requires forall n :: 0 <= n < |events| ==> IsDelivered(actions, events[n], k)
    ensures var p := ActAll(EMPTY, actions);
            TrimmedIds(events) <==>
            k in p.checkpoints && 0 <= p.checkpoints[k].lastSequence <= |events|
            && Settled(Rounds(p, k, events, limit, at, |events| - p.checkpoints[k].lastSequence), k, events)
  {
    hide Numbered, Fair, Settled, IsDelivered, ActAll, Rounds, AppliedTrimmed;
    var p := ActAll(EMPTY, actions);
    NothingApplied();
    ActAllTrimmed(EMPTY, actions);
    if TrimmedIds(events) {
      Converges(actions, k, events, limit, at);
    } else if k in p.checkpoints && 0 <= p.checkpoints[k].lastSequence <= |events| {
      var count := |events| - p.checkpoints[k].lastSequence;
      RoundsTrimmed(p, k, events, limit, at, count);
      if Settled(Rounds(p, k, events, limit, at, count), k, events) { SettledIsTrimmed(Rounds(p, k, events, limit, at, count), k, events); }
    }
  }

  lemma NothingApplied()
    ensures AppliedTrimmed(EMPTY.inbox)
  {
  }

  lemma SettledIsTrimmed(p: Projection, k: CheckpointKey, events: seq<Delivered>)
    requires AppliedTrimmed(p.inbox) && Settled(p, k, events)
    ensures TrimmedIds(events)
  {
    hide Trim, KeyOf, OneRowEach;
    forall n | 0 <= n < |events|
      ensures Trim(events[n].id) == events[n].id
    {
      assert HasEvent(p.inbox, k, events[n]);
    }
  }

  const PADDED_EVENT :=
    Delivered("evt_x ", "platform.user.created", "User", "usr_a", 1, 1, 1, "{\"user_id\":\"usr_a\",\"active\":true}", Recognised)

  /** The input: "evt_x " is accepted as the next event to apply, and then no run of the inbox applies it. */
  lemma PaddedNeverApplied(actions: seq<Action>)
    ensures var p := After(EMPTY, Ingest(EMPTY, "c", PADDED_EVENT, 1));
            && p.inbox == [InboxRow("c", PADDED_EVENT, Pending, "awaiting_apply")]
            && MarkApplied(p, "c", "evt_x ", 1) == Err(InboxNotFound)
            && var later := ActAll(p, actions).inbox;
               |later| > 0 && later[0].event == PADDED_EVENT && !later[0].state.Applied?
  {
    PaddedIngest();
    hide Ingest, MarkApplied, ActAll, Trim;
    var p := After(EMPTY, Ingest(EMPTY, "c", PADDED_EVENT, 1));
    ActAllTrimmed(p, actions);
    ActAllLater(p, actions);
  }

  lemma PaddedTrims()
    ensures Trim("evt_x ") == "evt_x" && Trim("c") == "c" && Trim("User") == "User" && Trim("usr_a") == "usr_a"
    ensures Trim("platform.user.created") == "platform.user.created"
  {
    assert "evt_x "[..5] == "evt_x" && TrimRight("evt_x ") == TrimRight("evt_x");
  }

  lemma PaddedIngest()
    ensures Trim("evt_x ") == "evt_x"
    ensures var p := After(EMPTY, Ingest(EMPTY, "c", PADDED_EVENT, 1));
            && p.inbox == [InboxRow("c", PADDED_EVENT, Pending, "awaiting_apply")]
            && MarkApplied(p, "c", "evt_x ", 1) == Err(InboxNotFound)
  {
    PaddedTrims();
    hide Trim;
    assert HasIdPrefix("evt_", "evt_x ");
  }
}
