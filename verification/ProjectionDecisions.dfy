/** What each inbox operation decides, from the rows and checkpoints alone (projections.go); what blocks an aggregate, and what an
    unavailable one admits. */
module ProjectionDecisions {
  import opened Prelude
  import opened Projections
  import opened ProjectionSafety

  // ----- events -----

  predicate IdentityFits(e: Delivered) {
    "evt_" <= e.id && 4 < |e.id| <= 100
  }

  predicate EnvelopeFits(e: Delivered) {
    Trim(e.eventType) != "" && |e.eventType| <= 200 && e.sequence >= 1 && e.schema >= 1 && e.occurredAt != 0
  }

  predicate AggregateFits(aggregateType: string, aggregate: string) {
    Trim(aggregateType) != "" && |aggregateType| <= 50 && Trim(aggregate) != "" && |aggregate| <= 200
  }

  predicate PayloadFits(e: Delivered) {
    1 <= |e.payload| <= 4096 && !e.check.NotJson?
  }

  /** Of the one schema version there is, and in the vocabulary. */
  predicate Understood(e: Delivered) {
    e.schema == 1 && e.check.Recognised?
  }

  /** Why an event that is not understood is kept as blocked. */
  function Complaint(e: Delivered): string {
    if e.schema != 1 then "unknown_schema_version" else "invalid_event"
  }

  lemma EventDecides(e: Delivered)
    ensures SourceCheck(e) ==
            if !IdentityFits(e) then Err(InvalidIdentity)
            else if !EnvelopeFits(e) then Err(InvalidEnvelope)
            else if !AggregateFits(e.aggregateType, e.aggregate) then Err(InvalidAggregate)
            else if !PayloadFits(e) then Err(InvalidPayload)
            else if Understood(e) then Ok("")
            else Ok(Complaint(e))
  {
    hide Trim;
  }

  /** A name of 1 to 100 lower-case letters, digits, dots, underscores and dashes. */
  predicate ConsumerFits(s: string) {
    1 <= |s| <= 100 && forall c :: c in s ==> 'a' <= c <= 'z' || '0' <= c <= '9' || c in {'.', '_', '-'}
  }

  lemma ConsumerIff(s: string)
    ensures ValidConsumer(s) <==> ConsumerFits(s)
  {
    if ConsumerFits(s) {
      assert forall i :: 0 <= i < |s| ==> s[i] in s;
    }
  }

  // ----- ingest -----

  predicate SameIn(e: Delivered, d: Delivered) {
    (e.id, e.eventType, e.aggregateType, e.aggregate, e.sequence, e.schema, e.occurredAt, e.payload) ==
    (d.id, d.eventType, d.aggregateType, d.aggregate, d.sequence, d.schema, d.occurredAt, d.payload)
  }

  /** How a new event is filed, given its aggregate's last applied sequence, if it has a checkpoint, and whether that is stuck. */
  function FiledAs(e: Delivered, checkpoint: Option<Checkpoint>): (InboxState, string) {
    var last := if checkpoint.Some? then checkpoint.value.lastSequence else 0;
    if !Understood(e) then (Blocked, Complaint(e))
    else if checkpoint.Some? && checkpoint.value.state.Stuck? then (Blocked, "prior_blocked_event")
    else if e.sequence <= last then (Stale, "sequence_already_applied")
    else if e.sequence > last + 1 then (Gap, "missing_prior_sequence")
    else (Pending, "awaiting_apply")
  }

  /** What the checkpoint reads then: nothing clears unavailable or blocked, and a gap hides a pending event. */
  predicate CheckpointMoves(before: Option<Checkpoint>, after: Checkpoint, state: InboxState, reason: string) {
    && after.lastSequence == (if before.Some? then before.value.lastSequence else 0)
    && after.lastEvent == (if before.Some? then before.value.lastEvent else "")
    && (if before.Some? && (before.value.state.Unavailable? || before.value.state.Stuck?) then after == before.value
        else if state.Blocked? then after.state.Stuck? && after.reason == reason
        else if state.Gap? then after.state.Gapped? && after.reason == reason
        else if state.Pending? && !(before.Some? && before.value.state.Gapped?) then after.state.Behind? && after.reason == reason
        else before.Some? ==> after == before.value)
  }

  /** The consumer's row of the event with this id. */
  predicate RowOf(row: InboxRow, consumer: string, id: string) {
    row.consumer == consumer && row.event.id == id
  }

  /** `held` is the row of the event's id, if the consumer has one. */
  lemma IngestDecides(p: Projection, consumer: string, e: Delivered, at: int, held: int)
    requires UniqueEvents(p.inbox)
    requires forall k :: k in p.checkpoints ==> p.checkpoints[k].lastSequence >= 0
    requires var c := Trim(consumer);
             (0 <= held < |p.inbox| && RowOf(p.inbox[held], c, e.id)) || forall i :: 0 <= i < |p.inbox| ==> !RowOf(p.inbox[i], c, e.id)
    ensures var r, c := Ingest(p, consumer, e, at), Trim(consumer);
            var k := CheckpointKey(c, e.aggregateType, e.aggregate);
            var (state, reason) := FiledAs(e, CheckpointAt(p.checkpoints, k));
            if !ConsumerFits(c) then r == Err(InvalidConsumer)
            else if at == 0 then r == Err(MissingTime)
            else if !IdentityFits(e) then r == Err(InvalidIdentity)
            else if !EnvelopeFits(e) then r == Err(InvalidEnvelope)
            else if !AggregateFits(e.aggregateType, e.aggregate) then r == Err(InvalidAggregate)
            else if !PayloadFits(e) then r == Err(InvalidPayload)
            else if 0 <= held < |p.inbox| && RowOf(p.inbox[held], c, e.id) then
              var row := p.inbox[held];
              r == if SameIn(row.event, e) then Ok((p, IngestResult(Duplicate, row.state, row.reason))) else Err(EventConflict)
            else if |e.payload| == 1 then r == Err(ConstraintViolation)
            else
              && r.Ok? && r.value.0.inbox == p.inbox + [InboxRow(c, e, state, reason)]
              && r.value.0.checkpoints.Keys == p.checkpoints.Keys + {k}
              && (forall j :: j in p.checkpoints && j != k ==> r.value.0.checkpoints[j] == p.checkpoints[j])
              && CheckpointMoves(CheckpointAt(p.checkpoints, k), r.value.0.checkpoints[k], state, reason)
              && r.value.1.state == state && r.value.1.reason == reason
              && r.value.1.outcome == match state
                                      case Blocked => BlockedOutcome
                                      case Gap => GapFound
                                      case Stale => StaleOutcome
                                      case _ => Accepted
  {
    hide Trim, ValidConsumer, ConsumerFits, SourceCheck, IdentityFits, AggregateFits, Understood, UniqueEvents, Find;
    ConsumerIff(Trim(consumer));
    EventDecides(e);
    FoundIs(p.inbox, Trim(consumer), e.id, held);
  }

  lemma FoundIs(inbox: Inbox, consumer: string, id: string, held: int)
    requires UniqueEvents(inbox)
    requires (0 <= held < |inbox| && RowOf(inbox[held], consumer, id)) || forall i :: 0 <= i < |inbox| ==> !RowOf(inbox[i], consumer, id)
    ensures Find(inbox, consumer, id) == if 0 <= held < |inbox| && RowOf(inbox[held], consumer, id) then Some(held) else None
  {
  }

  // ----- the other operations -----

  /** What a recomputation reads off the outstanding row with the lowest sequence, the first of several. */
  lemma RecomputedFrom(inbox: Inbox, k: CheckpointKey, c: Checkpoint, i: int)
    requires IsLowest(inbox, k, false, i)
    ensures var row := inbox[i];
            Refreshed(inbox, k, c) ==
            if row.state.Blocked? then c.(state := Stuck, reason := row.reason)
            else if row.state.Gap? then c.(state := Gapped, reason := row.reason)
            else if row.event.sequence == c.lastSequence + 1 then c.(state := Behind, reason := row.reason)
            else c.(state := Gapped, reason := "missing_prior_sequence")
  {
    LowestIs(inbox, k, false, i);
  }

  lemma RecomputedCurrent(inbox: Inbox, k: CheckpointKey, c: Checkpoint)
    requires forall i :: 0 <= i < |inbox| && KeyOf(inbox[i]) == k ==> !(inbox[i].state.Pending? || inbox[i].state.Gap? || inbox[i].state.Blocked?)
    ensures Refreshed(inbox, k, c) == c.(state := Current, reason := "")
  {
    hide KeyOf;
  }

  /** An apply succeeds for the pending row that is next after an open checkpoint, or finds it applied already. */
  lemma ApplyDecides(p: Projection, consumer: string, event: string, at: int, held: int)
    requires Inv(p)
    requires var c := Trim(consumer);
             (0 <= held < |p.inbox| && RowOf(p.inbox[held], c, Trim(event)))
             || forall i :: 0 <= i < |p.inbox| ==> !RowOf(p.inbox[i], c, Trim(event))
    ensures var r, c := MarkApplied(p, consumer, event, at), Trim(consumer);
            if !ConsumerFits(c) then r == Err(InvalidConsumer)
            else if Trim(event) == "" || at == 0 then r == Err(MissingTime)
            else if !(0 <= held < |p.inbox| && RowOf(p.inbox[held], c, Trim(event))) then r == Err(InboxNotFound)
            else
              var row := p.inbox[held];
              match row.state
              case Applied => r == Ok((p, ()))
              case Blocked => r == Err(IsBlocked)
              case Gap => r == Err(HasGap)
              case Stale => r == Err(NotReady)
              case Pending =>
                var checkpoint := p.checkpoints[KeyOf(row)];
                if checkpoint.state.Stuck? then r == Err(IsBlocked)
                else if checkpoint.state.Unavailable? then r == Err(IsUnavailable)
                else if row.event.sequence > checkpoint.lastSequence + 1 then r == Err(HasGap)
                else if row.event.sequence <= checkpoint.lastSequence then r == Err(NotReady)
                else
                  && r.Ok? && r.value.0.inbox == p.inbox[held := row.(state := Applied, reason := "")]
                  && r.value.0.checkpoints.Keys == p.checkpoints.Keys
                  && (forall k :: k in p.checkpoints && k != KeyOf(row) ==> r.value.0.checkpoints[k] == p.checkpoints[k])
                  && r.value.0.checkpoints[KeyOf(row)].lastSequence == row.event.sequence
                  && r.value.0.checkpoints[KeyOf(row)].lastEvent == row.event.id
                  && Exact(r.value.0, KeyOf(row))
  {
    hide Trim, ValidConsumer, ConsumerFits, UniqueEvents, Find, KeyInv, KeyOf;
    ConsumerIff(Trim(consumer));
    FoundIs(p.inbox, Trim(consumer), Trim(event), held);
    if MarkApplied(p, consumer, event, at).Ok? { AppliedExact(p, consumer, event, at); }
  }

  /** A reconcile promotes the lowest gap if it is next, and nothing else; the checkpoint is recomputed. */
  lemma ReconcileDecides(p: Projection, consumer: string, aggregateType: string, aggregate: string, limit: int, at: int)
    ensures var r, c := Reconcile(p, consumer, aggregateType, aggregate, limit, at), Trim(consumer);
            var k := CheckpointKey(c, aggregateType, aggregate);
            if !ConsumerFits(c) then r == Err(InvalidConsumer)
            else if !AggregateFits(aggregateType, aggregate) then r == Err(InvalidAggregate)
            else if !(1 <= limit <= 1000) then r == Err(InvalidLimit)
            else if at == 0 then r == Err(MissingTime)
            else if k !in p.checkpoints then r == Ok((p, (Checkpoint(0, "", Unavailable, "not_initialized"), 0)))
            else if p.checkpoints[k].state.Stuck? || p.checkpoints[k].state.Unavailable? then r == Ok((p, (p.checkpoints[k], 0)))
            else
              && r.Ok? && r.value.0.checkpoints.Keys == p.checkpoints.Keys
              && (forall j :: j in p.checkpoints && j != k ==> r.value.0.checkpoints[j] == p.checkpoints[j])
              && r.value.0.checkpoints[k].lastSequence == p.checkpoints[k].lastSequence
              && r.value.0.checkpoints[k].lastEvent == p.checkpoints[k].lastEvent
              && Exact(r.value.0, k) && r.value.1.0 == r.value.0.checkpoints[k]
              && (if r.value.1.1 == 0 then
                    && r.value.0.inbox == p.inbox
                    && forall i :: IsLowest(p.inbox, k, true, i) ==> p.inbox[i].event.sequence != p.checkpoints[k].lastSequence + 1
                  else
                    && r.value.1.1 == 1
                    && exists i :: IsLowest(p.inbox, k, true, i) && p.inbox[i].event.sequence == p.checkpoints[k].lastSequence + 1
                                   && r.value.0.inbox == p.inbox[i := p.inbox[i].(state := Pending, reason := "awaiting_apply")])
  {
    hide Trim, ValidConsumer, ConsumerFits, Lowest, Refreshed, IsLowest;
    ConsumerIff(Trim(consumer));
    var k := CheckpointKey(Trim(consumer), aggregateType, aggregate);
    LowestIff(p.inbox, k);
    if Reconcile(p, consumer, aggregateType, aggregate, limit, at).Ok? {
      ReconciledExact(p, consumer, aggregateType, aggregate, limit, at);
      if k in p.checkpoints {
        RefreshedExact(Reconcile(p, consumer, aggregateType, aggregate, limit, at).value.0.inbox, k, p.checkpoints[k]);
      }
    }
  }

  lemma LowestIff(inbox: Inbox, k: CheckpointKey)
    ensures forall i :: IsLowest(inbox, k, true, i) <==> i >= 0 && Lowest(inbox, k, true) == Some(i)
  {
    hide Lowest;
    forall i | IsLowest(inbox, k, true, i)
      ensures i >= 0 && Lowest(inbox, k, true) == Some(i)
    {
      LowestIs(inbox, k, true, i);
    }
  }

  lemma MarkUnavailableDecides(p: Projection, consumer: string, aggregateType: string, aggregate: string, reason: string, at: int)
    ensures var r, c := MarkUnavailable(p, consumer, aggregateType, aggregate, reason, at), Trim(consumer);
            var k := CheckpointKey(c, aggregateType, aggregate);
            if !ConsumerFits(c) then r == Err(InvalidConsumer)
            else if !AggregateFits(aggregateType, aggregate) then r == Err(InvalidAggregate)
            else if Trim(reason) == "" || |Trim(reason)| > 500 || at == 0 then r == Err(InvalidReason)
            else
              && r.Ok? && r.value.0.inbox == p.inbox && r.value.0.checkpoints.Keys == p.checkpoints.Keys + {k}
              && (forall j :: j in p.checkpoints && j != k ==> r.value.0.checkpoints[j] == p.checkpoints[j])
              && r.value.0.checkpoints[k] ==
                 (if k in p.checkpoints then p.checkpoints[k].(state := Unavailable, reason := Trim(reason))
                  else Checkpoint(0, "", Unavailable, Trim(reason)))
  {
    hide Trim, ValidConsumer, ConsumerFits;
    ConsumerIff(Trim(consumer));
  }

  lemma ResumeDecides(p: Projection, consumer: string, aggregateType: string, aggregate: string, at: int)
    ensures var r, c := Resume(p, consumer, aggregateType, aggregate, at), Trim(consumer);
            var k := CheckpointKey(c, aggregateType, aggregate);
            if !ConsumerFits(c) then r == Err(InvalidConsumer)
            else if !AggregateFits(aggregateType, aggregate) then r == Err(InvalidAggregate)
            else if at == 0 then r == Err(MissingTime)
            else if k !in p.checkpoints then r == Ok((p, Checkpoint(0, "", Unavailable, "not_initialized")))
            else if !p.checkpoints[k].state.Unavailable? then r == Ok((p, p.checkpoints[k]))
            else
              && r.Ok? && r.value.0.inbox == p.inbox && r.value.0.checkpoints.Keys == p.checkpoints.Keys
              && (forall j :: j in p.checkpoints && j != k ==> r.value.0.checkpoints[j] == p.checkpoints[j])
              && r.value.0.checkpoints[k].lastSequence == p.checkpoints[k].lastSequence
              && r.value.0.checkpoints[k].lastEvent == p.checkpoints[k].lastEvent
              && Exact(r.value.0, k) && r.value.1 == r.value.0.checkpoints[k]
  {
    hide Trim, ValidConsumer, ConsumerFits, Refreshed;
    ConsumerIff(Trim(consumer));
    var k := CheckpointKey(Trim(consumer), aggregateType, aggregate);
    if k in p.checkpoints { RefreshedExact(p.inbox, k, p.checkpoints[k]); }
  }

  // ----- events that are not understood -----

  /** Rows of events that are not understood are blocked, with the reason why. */
  ghost predicate Quarantined(inbox: Inbox) {
    forall i :: 0 <= i < |inbox| && !Understood(inbox[i].event) ==> inbox[i].state.Blocked? && inbox[i].reason == Complaint(inbox[i].event)
  }

  lemma IngestQuarantines(p: Projection, consumer: string, e: Delivered, at: int)
    requires Quarantined(p.inbox)
    ensures Quarantined(After(p, Ingest(p, consumer, e, at)).inbox)
  {
    hide Trim, ValidConsumer, SourceCheck, IdentityFits, EnvelopeFits, AggregateFits, PayloadFits, AfterIngest, SameEvent, Understood, Find;
    EventDecides(e);
  }

  lemma ActQuarantines(p: Projection, a: Action)
    requires Quarantined(p.inbox)
    ensures Quarantined(Act(p, a).inbox)
  {
    hide Ingest, Trim, ValidConsumer, ValidAggregate, Refreshed, Understood, Complaint, KeyOf;
    if a.AIngest? { IngestQuarantines(p, a.consumer, a.event, a.at); }
  }

  /** From the ingest on and over every run, an event of another schema version or outside the vocabulary is blocked, and so
      never pending, missing, stale or applied. */
  lemma {:induction false} NeverUnderstood(p: Projection, actions: seq<Action>)
    requires Quarantined(p.inbox)
    ensures Quarantined(ActAll(p, actions).inbox)
    decreases |actions|
  {
    hide Act, Quarantined;
    if actions != [] {
      ActQuarantines(p, actions[0]);
      NeverUnderstood(Act(p, actions[0]), actions[1..]);
    }
  }

  lemma NothingQuarantined()
    ensures Quarantined(EMPTY.inbox)
  {
  }

  /** A checkpoint has passed the sequence of a blocked row exactly if another row with that sequence was applied. */
  lemma PassedIff(p: Projection, i: nat)
    requires Inv(p) && i < |p.inbox| && p.inbox[i].state.Blocked?
    ensures var k, s := KeyOf(p.inbox[i]), p.inbox[i].event.sequence;
            k in p.checkpoints && (p.checkpoints[k].lastSequence >= s <==> exists j :: j != i && AppliedAt(p.inbox, k, j, s))
  {
    hide KeyOf, NeverUnderstates, UniqueEvents;
    var k, s := KeyOf(p.inbox[i]), p.inbox[i].event.sequence;
    assert KeyInv(p.inbox, k, p.checkpoints[k]);
    if p.checkpoints[k].lastSequence >= s {
      assert HasApplied(p.inbox, k, s);
      var j :| AppliedAt(p.inbox, k, j, s);
      assert j != i;
    }
  }

  // ----- shut aggregates -----

  /** The action works on this aggregate's checkpoint itself. */
  predicate Reopens(a: Action, k: CheckpointKey) {
    a.AResume? && CheckpointKey(Trim(a.consumer), a.aggregateType, a.aggregate) == k
  }

  predicate Marks(a: Action, k: CheckpointKey) {
    a.AMarkUnavailable? && CheckpointKey(Trim(a.consumer), a.aggregateType, a.aggregate) == k
  }

  predicate Shut(p: Projection, k: CheckpointKey) {
    k in p.checkpoints && (p.checkpoints[k].state.Stuck? || p.checkpoints[k].state.Unavailable?)
  }

  /** The checkpoint stands where it stood, and of its rows none has changed and none is newly applied. */
  ghost predicate Stands(p: Projection, next: Projection, k: CheckpointKey) {
    && k in p.checkpoints && k in next.checkpoints
    && next.checkpoints[k].lastSequence == p.checkpoints[k].lastSequence && next.checkpoints[k].lastEvent == p.checkpoints[k].lastEvent
    && |p.inbox| <= |next.inbox|
    && (forall i :: 0 <= i < |p.inbox| && KeyOf(p.inbox[i]) == k ==> next.inbox[i] == p.inbox[i])
    && (forall i :: 0 <= i < |p.inbox| && KeyOf(next.inbox[i]) == k ==> KeyOf(p.inbox[i]) == k)
    && (forall i :: |p.inbox| <= i < |next.inbox| && KeyOf(next.inbox[i]) == k ==> !next.inbox[i].state.Applied?)
  }

  lemma IngestStands(p: Projection, consumer: string, e: Delivered, at: int, k: CheckpointKey)
    requires Shut(p, k)
    ensures var next := After(p, Ingest(p, consumer, e, at)); Stands(p, next, k) && next.checkpoints[k] == p.checkpoints[k]
  {
    hide Trim, ValidConsumer, SourceCheck, SameEvent, Find;
  }

  lemma ApplyStands(p: Projection, consumer: string, event: string, at: int, k: CheckpointKey)
    requires Shut(p, k)
    ensures var next := After(p, MarkApplied(p, consumer, event, at)); Stands(p, next, k) && next.checkpoints[k] == p.checkpoints[k]
  {
    hide Trim, ValidConsumer, Refreshed;
  }

  lemma ReconcileStands(p: Projection, consumer: string, aggregateType: string, aggregate: string, limit: int, at: int, k: CheckpointKey)
    requires Shut(p, k)
    ensures var next := After(p, Reconcile(p, consumer, aggregateType, aggregate, limit, at));
            Stands(p, next, k) && next.checkpoints[k] == p.checkpoints[k]
  {
    hide Trim, ValidConsumer, ValidAggregate, Refreshed;
  }

  lemma ShutStep(p: Projection, a: Action, k: CheckpointKey)
    requires Shut(p, k) && (p.checkpoints[k].state.Unavailable? ==> !Reopens(a, k))
    ensures Stands(p, Act(p, a), k) && Shut(Act(p, a), k)
    ensures if Marks(a, k) then Act(p, a).checkpoints[k] == p.checkpoints[k] || Act(p, a).checkpoints[k].state.Unavailable?
            else Act(p, a).checkpoints[k] == p.checkpoints[k]
  {
    hide Ingest, MarkApplied, Reconcile, Trim, ValidConsumer, ValidAggregate, Refreshed, KeyOf;
    match a
    case AIngest(c, e, at) => IngestStands(p, c, e, at, k);
    case AMarkApplied(c, id, at) => ApplyStands(p, c, id, at, k);
    case AReconcile(c, t, id, limit, at) => ReconcileStands(p, c, t, id, limit, at, k);
    case AMarkUnavailable(_, _, _, _, _) =>
    case AResume(_, _, _, _) =>
  }

  lemma StandsTrans(p: Projection, q: Projection, r: Projection, k: CheckpointKey)
    requires Stands(p, q, k) && Stands(q, r, k)
    ensures Stands(p, r, k)
  {
    hide KeyOf;
  }

  lemma StandsRefl(p: Projection, k: CheckpointKey)
    requires k in p.checkpoints
    ensures Stands(p, p, k)
  {
  }

  /** Once blocked, an aggregate's checkpoint does not move, and none of its rows is promoted or applied, over every run in which
      nobody marks it unavailable. */
  lemma {:induction false} StuckHolds(p: Projection, actions: seq<Action>, k: CheckpointKey)
    requires k in p.checkpoints && p.checkpoints[k].state.Stuck?
    requires forall i :: 0 <= i < |actions| ==> !Marks(actions[i], k)
    ensures var end := ActAll(p, actions); Stands(p, end, k) && end.checkpoints[k] == p.checkpoints[k]
    decreases |actions|
  {
    hide Act, Stands, Marks, Reopens;
    if actions == [] {
      StandsRefl(p, k);
    } else {
      var next := Act(p, actions[0]);
      ShutStep(p, actions[0], k);
      StuckHolds(next, actions[1..], k);
      StandsTrans(p, next, ActAll(p, actions), k);
    }
  }

  /** Marked unavailable, it reads so and stands still over every run in which nobody resumes it. */
  lemma {:induction false} UnavailableHolds(p: Projection, actions: seq<Action>, k: CheckpointKey)
    requires k in p.checkpoints && p.checkpoints[k].state.Unavailable?
    requires forall i :: 0 <= i < |actions| ==> !Reopens(actions[i], k)
    ensures var end := ActAll(p, actions); Stands(p, end, k) && end.checkpoints[k].state.Unavailable?
    decreases |actions|
  {
    hide Act, Stands, Marks, Reopens;
    if actions == [] {
      StandsRefl(p, k);
    } else {
      var next := Act(p, actions[0]);
      ShutStep(p, actions[0], k);
      UnavailableHolds(next, actions[1..], k);
      StandsTrans(p, next, ActAll(p, actions), k);
    }
  }

  /** So an event that is not understood shuts its aggregate from its ingest on, unless that was unavailable already, until
      somebody marks it unavailable. */
  lemma NotUnderstoodShuts(p: Projection, consumer: string, e: Delivered, at: int, actions: seq<Action>)
    requires Ingest(p, consumer, e, at).Ok? && !Understood(e) && Find(p.inbox, Trim(consumer), e.id).None?
    requires var k := CheckpointKey(Trim(consumer), e.aggregateType, e.aggregate);
             && (k in p.checkpoints ==> !p.checkpoints[k].state.Unavailable?)
             && forall i :: 0 <= i < |actions| ==> !Marks(actions[i], k)
    ensures var k := CheckpointKey(Trim(consumer), e.aggregateType, e.aggregate);
            var filed := After(p, Ingest(p, consumer, e, at));
            var end := ActAll(filed, actions);
            && filed.inbox == p.inbox + [InboxRow(Trim(consumer), e, Blocked, Complaint(e))]
            && Stands(filed, end, k) && end.checkpoints[k].state.Stuck?
            && end.checkpoints[k].lastSequence == if k in p.checkpoints then p.checkpoints[k].lastSequence else 0
  {
    hide Trim, ValidConsumer, SourceCheck, IdentityFits, EnvelopeFits, AggregateFits, PayloadFits, Understood, SameEvent, Find, ActAll, Marks, Stands;
    EventDecides(e);
    StuckHolds(After(p, Ingest(p, consumer, e, at)), actions, CheckpointKey(Trim(consumer), e.aggregateType, e.aggregate));
  }
}
