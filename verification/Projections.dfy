/** A consumer's projection inbox and checkpoints (projections.go), as functions on the two tables. */
module Projections {
  import opened Prelude

  /** What json.Valid and the event vocabulary say about an event's payload and ids. */
  datatype PayloadCheck = NotJson | Unrecognised | Recognised

  /** An outbox event as delivered to a consumer. */
  datatype Delivered = Delivered(id: string, eventType: string, aggregateType: string, aggregate: string, sequence: int,
                                 schema: int, occurredAt: int, payload: string, check: PayloadCheck)

  datatype InboxState = Pending | Applied | Gap | Stale | Blocked

  /** A row of platform_projection_inbox; its id is its position. */
  datatype InboxRow = InboxRow(consumer: string, event: Delivered, state: InboxState, reason: string)

  datatype CheckpointState = Current | Behind | Gapped | Stuck | Unavailable  // current, stale, gap, blocked, unavailable

  datatype CheckpointKey = CheckpointKey(consumer: string, aggregateType: string, aggregate: string)

  datatype Checkpoint = Checkpoint(lastSequence: int, lastEvent: string, state: CheckpointState, reason: string)

  type Inbox = seq<InboxRow>

  type Checkpoints = map<CheckpointKey, Checkpoint>

  datatype Projection = Projection(inbox: Inbox, checkpoints: Checkpoints)

  datatype ProjectionError =
    | InvalidConsumer | MissingTime | InvalidIdentity | InvalidEnvelope | InvalidAggregate | InvalidPayload
    | EventConflict | InboxNotFound | IsBlocked | HasGap | NotReady | IsUnavailable | InvalidLimit | InvalidReason | ConstraintViolation

  datatype IngestOutcome = Accepted | Duplicate | StaleOutcome | BlockedOutcome | GapFound

  datatype IngestResult = IngestResult(outcome: IngestOutcome, state: InboxState, reason: string)

  const SCHEMA_VERSION := 1
  const MAX_PAYLOAD := 4096
  const MAX_EVENT_ID := 100

  predicate ConsumerChar(c: char) {
    'a' <= c <= 'z' || '0' <= c <= '9' || c == '.' || c == '_' || c == '-'
  }

  predicate ValidConsumer(s: string) {
    0 < |s| <= 100 && forall i :: 0 <= i < |s| ==> ConsumerChar(s[i])
  }

  predicate ValidAggregate(aggregateType: string, aggregate: string) {
    Trim(aggregateType) != "" && |aggregateType| <= 50 && Trim(aggregate) != "" && |aggregate| <= 200
  }

  /** validateProjectionSourceEvent: an error rejects the event; a non-empty reason stores it as blocked. */
  function SourceCheck(e: Delivered): Result<string, ProjectionError> {
    var _ :- Need(HasIdPrefix("evt_", e.id) && |e.id| <= MAX_EVENT_ID, InvalidIdentity);
    var _ :- Need(Trim(e.eventType) != "" && |e.eventType| <= 200 && e.sequence > 0 && e.schema > 0 && e.occurredAt != 0, InvalidEnvelope);
    var _ :- Need(ValidAggregate(e.aggregateType, e.aggregate), InvalidAggregate);
    var _ :- Need(0 < |e.payload| <= MAX_PAYLOAD && !e.check.NotJson?, InvalidPayload);
    Ok(if e.schema != SCHEMA_VERSION then "unknown_schema_version" else if e.check.Unrecognised? then "invalid_event" else "")
  }

  predicate SameEvent(e: Delivered, d: Delivered) {
    && e.id == d.id && e.eventType == d.eventType && e.aggregateType == d.aggregateType && e.aggregate == d.aggregate
    && e.sequence == d.sequence && e.schema == d.schema && e.occurredAt == d.occurredAt && e.payload == d.payload
  }

  function KeyOf(row: InboxRow): CheckpointKey {
    CheckpointKey(row.consumer, row.event.aggregateType, row.event.aggregate)
  }

  predicate Holds(row: InboxRow, consumer: string, id: string) {
    row.consumer == consumer && row.event.id == id
  }

  /** The row of the (consumer, event id). */
  function Find(inbox: Inbox, consumer: string, id: string): (r: Option<nat>)
    ensures r.Some? ==> r.value < |inbox| && Holds(inbox[r.value], consumer, id)
    ensures r.Some? ==> forall i :: 0 <= i < r.value ==> !Holds(inbox[i], consumer, id)
    ensures r.None? ==> forall i :: 0 <= i < |inbox| ==> !Holds(inbox[i], consumer, id)
  {
    if inbox == [] then None
    else
      var before := Find(inbox[..|inbox| - 1], consumer, id);
      if before.Some? then before
      else if Holds(inbox[|inbox| - 1], consumer, id) then Some(|inbox| - 1)
      else None
  }

  predicate Outstanding(state: InboxState) {
    state.Pending? || state.Gap? || state.Blocked?
  }

  /** The rows a query over one checkpoint key looks at: the gaps, or everything outstanding. */
  predicate Selected(row: InboxRow, k: CheckpointKey, gapsOnly: bool) {
    KeyOf(row) == k && (if gapsOnly then row.state.Gap? else Outstanding(row.state))
  }

  /** `ORDER BY sequence,id LIMIT 1` */
  ghost predicate IsLowest(inbox: Inbox, k: CheckpointKey, gapsOnly: bool, i: int) {
    && 0 <= i < |inbox| && Selected(inbox[i], k, gapsOnly)
    && forall j :: 0 <= j < |inbox| && Selected(inbox[j], k, gapsOnly) ==>
         inbox[i].event.sequence < inbox[j].event.sequence || (inbox[i].event.sequence == inbox[j].event.sequence && i <= j)
  }

  function Lowest(inbox: Inbox, k: CheckpointKey, gapsOnly: bool): (r: Option<nat>)
    ensures r.Some? ==> IsLowest(inbox, k, gapsOnly, r.value)
    ensures r.None? ==> forall j :: 0 <= j < |inbox| ==> !Selected(inbox[j], k, gapsOnly)
  {
    if inbox == [] then None
    else
      var n := |inbox| - 1;
      var before := Lowest(inbox[..n], k, gapsOnly);
      if Selected(inbox[n], k, gapsOnly) && (before.None? || inbox[n].event.sequence < inbox[before.value].event.sequence) then Some(n)
      else before
  }

  /** refreshProjectionCheckpointTx */
  function Refreshed(inbox: Inbox, k: CheckpointKey, c: Checkpoint): Checkpoint {
    match Lowest(inbox, k, false)
    case None => c.(state := Current, reason := "")
    case Some(i) =>
      var row := inbox[i];
      if row.state.Blocked? then c.(state := Stuck, reason := row.reason)
      else if row.state.Gap? then c.(state := Gapped, reason := row.reason)
      else if row.event.sequence == c.lastSequence + 1 then c.(state := Behind, reason := row.reason)
      else c.(state := Gapped, reason := "missing_prior_sequence")
  }

  /** How a new event is filed, from the checkpoint alone. */
  function Classify(blockedReason: string, checkpoint: Option<Checkpoint>, sequence: int): (InboxState, string) {
    if blockedReason != "" then (Blocked, blockedReason)
    else if checkpoint.Some? && checkpoint.value.state.Stuck? then (Blocked, "prior_blocked_event")
    else if checkpoint.None? && sequence > 1 then (Gap, "missing_prior_sequence")
    else if checkpoint.Some? && sequence <= checkpoint.value.lastSequence then (Stale, "sequence_already_applied")
    else if checkpoint.Some? && sequence > checkpoint.value.lastSequence + 1 then (Gap, "missing_prior_sequence")
    else (Pending, "awaiting_apply")
  }

  function OutcomeOf(state: InboxState): IngestOutcome {
    match state
    case Blocked => BlockedOutcome
    case Gap => GapFound
    case Stale => StaleOutcome
    case _ => Accepted
  }

  function CheckpointAt(checkpoints: Checkpoints, k: CheckpointKey): Option<Checkpoint> {
    if k in checkpoints then Some(checkpoints[k]) else None
  }

  /** upsertProjectionCheckpointAfterIngest: the incremental update. A new checkpoint's state is always overwritten here,
      so what it starts as does not show. */
  function AfterIngest(checkpoint: Option<Checkpoint>, state: InboxState, reason: string): Checkpoint {
    var c := if checkpoint.Some? then checkpoint.value else Checkpoint(0, "", Current, "");
    if c.state.Unavailable? || c.state.Stuck? then c
    else
      match state
      case Blocked => c.(state := Stuck, reason := reason)
      case Gap => c.(state := Gapped, reason := reason)
      case Pending => if c.state.Gapped? then c else c.(state := Behind, reason := reason)
      case _ => c
  }

  type Step<T> = Result<(Projection, T), ProjectionError>

  /** IngestPlatformProjectionEvent */
  function Ingest(p: Projection, consumer: string, e: Delivered, at: int): Step<IngestResult> {
    var c := Trim(consumer);
    var _ :- Need(ValidConsumer(c), InvalidConsumer);
    var _ :- Need(at != 0, MissingTime);
    var blockedReason :- SourceCheck(e);
    match Find(p.inbox, c, e.id)
    case Some(i) =>
      var _ :- Need(SameEvent(p.inbox[i].event, e), EventConflict);
      Ok((p, IngestResult(Duplicate, p.inbox[i].state, p.inbox[i].reason)))
    case None =>
      var k := CheckpointKey(c, e.aggregateType, e.aggregate);
      var checkpoint := CheckpointAt(p.checkpoints, k);
      var (state, reason) := Classify(blockedReason, checkpoint, e.sequence);
      var _ :- Need(|e.payload| > 1, ConstraintViolation);
      Ok((Projection(p.inbox + [InboxRow(c, e, state, reason)],
                     p.checkpoints[k := AfterIngest(checkpoint, state, reason)]),
          IngestResult(OutcomeOf(state), state, reason)))
  }

  function SetState(inbox: Inbox, i: nat, state: InboxState, reason: string): Inbox
    requires i < |inbox|
  {
    inbox[i := inbox[i].(state := state, reason := reason)]
  }

  /** MarkPlatformProjectionEventApplied */
  function MarkApplied(p: Projection, consumer: string, event: string, at: int): Step<()> {
    var c := Trim(consumer);
    var _ :- Need(ValidConsumer(c), InvalidConsumer);
    var _ :- Need(Trim(event) != "" && at != 0, MissingTime);
    var found := Find(p.inbox, c, Trim(event));
    var _ :- Need(found.Some?, InboxNotFound);
    var row := p.inbox[found.value];
    if row.state.Applied? then Ok((p, ()))
    else
      var _ :- Need(!row.state.Blocked?, IsBlocked);
      var _ :- Need(!row.state.Gap?, HasGap);
      var _ :- Need(row.state.Pending?, NotReady);
      var k := KeyOf(row);
      var _ :- Need(k in p.checkpoints && !p.checkpoints[k].state.Stuck?, IsBlocked);
      var checkpoint := p.checkpoints[k];
      var _ :- Need(!checkpoint.state.Unavailable?, IsUnavailable);
      var _ :- Need(row.event.sequence <= checkpoint.lastSequence + 1, HasGap);
      var _ :- Need(row.event.sequence == checkpoint.lastSequence + 1, NotReady);
      var inbox := SetState(p.inbox, found.value, Applied, "");
      Ok((Projection(inbox, p.checkpoints[k := Refreshed(inbox, k, checkpoint.(lastSequence := row.event.sequence, lastEvent := row.event.id))]), ()))
  }

  const NOT_INITIALIZED := Checkpoint(0, "", Unavailable, "not_initialized")

  /** ReconcilePlatformProjection: at most one gap is promoted, whatever the limit. */
  function Reconcile(p: Projection, consumer: string, aggregateType: string, aggregate: string, limit: int, at: int): Step<(Checkpoint, int)> {
    var c := Trim(consumer);
    var _ :- Need(ValidConsumer(c), InvalidConsumer);
    var _ :- Need(ValidAggregate(aggregateType, aggregate), InvalidAggregate);
    var _ :- Need(0 < limit <= 1000, InvalidLimit);
    var _ :- Need(at != 0, MissingTime);
    var k := CheckpointKey(c, aggregateType, aggregate);
    if k !in p.checkpoints then Ok((p, (NOT_INITIALIZED, 0)))
    else
      var checkpoint := p.checkpoints[k];
      if checkpoint.state.Stuck? || checkpoint.state.Unavailable? then Ok((p, (checkpoint, 0)))
      else
        var gap := Lowest(p.inbox, k, true);
        var promote := gap.Some? && p.inbox[gap.value].event.sequence == checkpoint.lastSequence + 1;
        var inbox := if promote then SetState(p.inbox, gap.value, Pending, "awaiting_apply") else p.inbox;
        var refreshed := Refreshed(inbox, k, checkpoint);
        Ok((Projection(inbox, p.checkpoints[k := refreshed]), (refreshed, if promote then 1 else 0)))
  }

  /** MarkPlatformProjectionUnavailable */
  function MarkUnavailable(p: Projection, consumer: string, aggregateType: string, aggregate: string, reason: string, at: int): Step<()> {
    var c := Trim(consumer);
    var _ :- Need(ValidConsumer(c), InvalidConsumer);
    var _ :- Need(ValidAggregate(aggregateType, aggregate), InvalidAggregate);
    var _ :- Need(0 < |Trim(reason)| <= 500 && at != 0, InvalidReason);
    var k := CheckpointKey(c, aggregateType, aggregate);
    var checkpoint := if k in p.checkpoints then p.checkpoints[k] else Checkpoint(0, "", Unavailable, "");
    Ok((p.(checkpoints := p.checkpoints[k := checkpoint.(state := Unavailable, reason := Trim(reason))]), ()))
  }

  /** ResumePlatformProjection */
  function Resume(p: Projection, consumer: string, aggregateType: string, aggregate: string, at: int): Step<Checkpoint> {
    var c := Trim(consumer);
    var _ :- Need(ValidConsumer(c), InvalidConsumer);
    var _ :- Need(ValidAggregate(aggregateType, aggregate), InvalidAggregate);
    var _ :- Need(at != 0, MissingTime);
    var k := CheckpointKey(c, aggregateType, aggregate);
    if k !in p.checkpoints then Ok((p, NOT_INITIALIZED))
    else if !p.checkpoints[k].state.Unavailable? then Ok((p, p.checkpoints[k]))
    else
      var refreshed := Refreshed(p.inbox, k, p.checkpoints[k]);
      Ok((p.(checkpoints := p.checkpoints[k := refreshed]), refreshed))
  }

  datatype Action =
    | AIngest(consumer: string, event: Delivered, at: int)
    | AMarkApplied(consumer: string, id: string, at: int)
    | AReconcile(consumer: string, aggregateType: string, aggregate: string, limit: int, at: int)
    | AMarkUnavailable(consumer: string, aggregateType: string, aggregate: string, reason: string, at: int)
    | AResume(consumer: string, aggregateType: string, aggregate: string, at: int)

  function After<T>(p: Projection, r: Step<T>): Projection {
    match r
    case Ok((next, _)) => next
    case Err(_) => p
  }

  function Act(p: Projection, a: Action): Projection {
    match a
    case AIngest(c, e, at) => After(p, Ingest(p, c, e, at))
    case AMarkApplied(c, id, at) => After(p, MarkApplied(p, c, id, at))
    case AReconcile(c, t, id, limit, at) => After(p, Reconcile(p, c, t, id, limit, at))
    case AMarkUnavailable(c, t, id, reason, at) => After(p, MarkUnavailable(p, c, t, id, reason, at))
    case AResume(c, t, id, at) => After(p, Resume(p, c, t, id, at))
  }

  function ActAll(p: Projection, actions: seq<Action>): Projection
    decreases |actions|
  {
    if actions == [] then p else ActAll(Act(p, actions[0]), actions[1..])
  }

  const EMPTY := Projection([], map[])
}
