/** The projection inbox as the store updates it: two tables, changed in place, one transaction for each method. */
module ProjectionStore {
  import opened Prelude
  import opened Projections
  import opened ProjectionSafety

  class Store {
    var inbox: Inbox
    var checkpoints: Checkpoints

    ghost function Tables(): Projection
      reads this
    {
      Projection(inbox, checkpoints)
    }

    ghost predicate Valid()
      reads this
    {
      Inv(Tables())
    }

    constructor ()
      ensures Valid() && Tables() == EMPTY
    {
      inbox, checkpoints := [], map[];
      new;
      EmptyInv();
    }

    /** readProjectionInboxByEvent */
    method ReadByEvent(consumer: string, id: string) returns (found: Option<nat>)
      ensures found == Find(inbox, consumer, id)
    {
      var i := 0;
      while i < |inbox|
        invariant 0 <= i <= |inbox|
        invariant forall j :: 0 <= j < i ==> !Holds(inbox[j], consumer, id)
      {
        if inbox[i].consumer == consumer && inbox[i].event.id == id {
          return Some(i);
        }
        i := i + 1;
      }
      return None;
    }

    /** `SELECT ... WHERE state IN (...) ORDER BY sequence,id LIMIT 1` */
    method ReadLowest(k: CheckpointKey, gapsOnly: bool) returns (lowest: Option<nat>)
      ensures lowest == Lowest(inbox, k, gapsOnly)
    {
      lowest := None;
      var i := 0;
      while i < |inbox|
        invariant 0 <= i <= |inbox|
        invariant lowest == Lowest(inbox[..i], k, gapsOnly)
      {
        assert inbox[..i + 1][..i] == inbox[..i];
        if Selected(inbox[i], k, gapsOnly) {
          if lowest.None? || inbox[i].event.sequence < inbox[lowest.value].event.sequence {
            lowest := Some(i);
          }
        }
        i := i + 1;
      }
      assert inbox[..i] == inbox;
    }

    /** refreshProjectionCheckpointTx: recompute the checkpoint's state from what is outstanding, and store it. */
    method Refresh(k: CheckpointKey, checkpoint: Checkpoint)
      modifies `checkpoints
      ensures checkpoints == old(checkpoints)[k := Refreshed(inbox, k, checkpoint)]
    {
      var c := checkpoint;
      var lowest := ReadLowest(k, false);
      match lowest {
        case None =>
          c := c.(state := Current, reason := "");
        case Some(i) =>
          var row := inbox[i];
          if row.state.Blocked? {
            c := c.(state := Stuck, reason := row.reason);
          } else if row.state.Gap? {
            c := c.(state := Gapped, reason := row.reason);
          } else if row.event.sequence == c.lastSequence + 1 {
            c := c.(state := Behind, reason := row.reason);
          } else {
            c := c.(state := Gapped, reason := "missing_prior_sequence");
          }
      }
      checkpoints := checkpoints[k := c];
    }

    /** upsertProjectionCheckpointAfterIngest: adjust the checkpoint from the new row alone, without reading the inbox. */
    method UpsertAfterIngest(k: CheckpointKey, state: InboxState, reason: string)
      modifies `checkpoints
      ensures checkpoints == old(checkpoints)[k := AfterIngest(CheckpointAt(old(checkpoints), k), state, reason)]
    {
      var c := Checkpoint(0, "", Current, "");
      if k in checkpoints {
        c := checkpoints[k];
      }
      if !c.state.Unavailable? && !c.state.Stuck? {
        match state {
          case Blocked => c := c.(state := Stuck, reason := reason);
          case Gap => c := c.(state := Gapped, reason := reason);
          case Pending =>
            if !c.state.Gapped? {
              c := c.(state := Behind, reason := reason);
            }
          case _ =>
        }
      }
      checkpoints := checkpoints[k := c];
    }

    method ClassifyEvent(k: CheckpointKey, blockedReason: string, sequence: int)
      returns (state: InboxState, outcome: IngestOutcome, reason: string)
      ensures (state, reason) == Classify(blockedReason, CheckpointAt(checkpoints, k), sequence)
      ensures outcome == OutcomeOf(state)
    {
      state, outcome, reason := Pending, Accepted, "awaiting_apply";
      if blockedReason != "" {
        state, outcome, reason := Blocked, BlockedOutcome, blockedReason;
      } else if k in checkpoints && checkpoints[k].state.Stuck? {
        state, outcome, reason := Blocked, BlockedOutcome, "prior_blocked_event";
      } else if k !in checkpoints && sequence > 1 {
        state, outcome, reason := Gap, GapFound, "missing_prior_sequence";
      } else if k in checkpoints && sequence <= checkpoints[k].lastSequence {
        state, outcome, reason := Stale, StaleOutcome, "sequence_already_applied";
      } else if k in checkpoints && sequence > checkpoints[k].lastSequence + 1 {
        state, outcome, reason := Gap, GapFound, "missing_prior_sequence";
      }
    }

    method IngestEvent(consumer: string, e: Delivered, at: int) returns (r: Result<IngestResult, ProjectionError>)
      requires Valid()
      modifies this
      ensures Valid()
      ensures var spec := Ingest(old(Tables()), consumer, e, at);
              && Tables() == After(old(Tables()), spec)
              && r == if spec.Ok? then Ok(spec.value.1) else Err(spec.error)
    {
      IngestKeeps(Tables(), consumer, e, at);
      hide Inv, Classify, AfterIngest, SourceCheck, SameEvent, Find, Trim, ValidConsumer, OutcomeOf, KeyOf;
      var c := Trim(consumer);
      if !ValidConsumer(c) { return Err(InvalidConsumer); }
      if at == 0 { return Err(MissingTime); }
      var check := SourceCheck(e);
      if check.Err? { return Err(check.error); }
      var existing := ReadByEvent(c, e.id);
      if existing.Some? {
        var row := inbox[existing.value];
        if !SameEvent(row.event, e) { return Err(EventConflict); }
        return Ok(IngestResult(Duplicate, row.state, row.reason));
      }
      var k := CheckpointKey(c, e.aggregateType, e.aggregate);
      var state, outcome, reason := ClassifyEvent(k, check.value, e.sequence);
      if |e.payload| <= 1 { return Err(ConstraintViolation); }
      inbox := inbox + [InboxRow(c, e, state, reason)];
      UpsertAfterIngest(k, state, reason);
      return Ok(IngestResult(outcome, state, reason));
    }

    method MarkEventApplied(consumer: string, event: string, at: int) returns (r: Result<(), ProjectionError>)
      requires Valid()
      modifies this
      ensures Valid()
      ensures var spec := MarkApplied(old(Tables()), consumer, event, at);
              && Tables() == After(old(Tables()), spec)
              && r == if spec.Ok? then Ok(()) else Err(spec.error)
    {
      MarkAppliedKeeps(Tables(), consumer, event, at);
      hide Inv, Refreshed, Lowest, Find, Trim, ValidConsumer, ValidAggregate;
      var c := Trim(consumer);
      if !ValidConsumer(c) { return Err(InvalidConsumer); }
      if Trim(event) == "" || at == 0 { return Err(MissingTime); }
      var found := ReadByEvent(c, Trim(event));
      if found.None? { return Err(InboxNotFound); }
      var row := inbox[found.value];
      if row.state.Applied? { return Ok(()); }
      if row.state.Blocked? { return Err(IsBlocked); }
      if row.state.Gap? { return Err(HasGap); }
      if !row.state.Pending? { return Err(NotReady); }
      var k := KeyOf(row);
      if k !in checkpoints || checkpoints[k].state.Stuck? { return Err(IsBlocked); }
      var checkpoint := checkpoints[k];
      if checkpoint.state.Unavailable? { return Err(IsUnavailable); }
      if row.event.sequence != checkpoint.lastSequence + 1 {
        if row.event.sequence > checkpoint.lastSequence + 1 { return Err(HasGap); }
        return Err(NotReady);
      }
      inbox := inbox[found.value := row.(state := Applied, reason := "")];
      checkpoint := checkpoint.(lastSequence := row.event.sequence, lastEvent := row.event.id);
      Refresh(k, checkpoint);
      return Ok(());
    }

    /** The promotion loop leaves after its first promotion, so the limit never matters beyond being positive. */
    method PromoteGaps(k: CheckpointKey, lastSequence: int, limit: int) returns (promoted: int)
      requires 0 < limit
      modifies `inbox
      ensures var gap := Lowest(old(inbox), k, true);
              if gap.Some? && old(inbox)[gap.value].event.sequence == lastSequence + 1 then
                promoted == 1 && inbox == SetState(old(inbox), gap.value, Pending, "awaiting_apply")
              else promoted == 0 && inbox == old(inbox)
    {
      promoted := 0;
      var searching := true;
      while searching && promoted < limit
        invariant searching ==> promoted == 0 && inbox == old(inbox)
        invariant !searching ==>
                    var gap := Lowest(old(inbox), k, true);
                    if gap.Some? && old(inbox)[gap.value].event.sequence == lastSequence + 1 then
                      promoted == 1 && inbox == SetState(old(inbox), gap.value, Pending, "awaiting_apply")
                    else promoted == 0 && inbox == old(inbox)
        decreases searching
      {
        searching := false;
        var gap := ReadLowest(k, true);
        if gap.Some? && inbox[gap.value].event.sequence == lastSequence + 1 {
          inbox := inbox[gap.value := inbox[gap.value].(state := Pending, reason := "awaiting_apply")];
          promoted := promoted + 1;
        }
      }
    }

    method ReconcileAggregate(consumer: string, aggregateType: string, aggregate: string, limit: int, at: int)
      returns (r: Result<(Checkpoint, int), ProjectionError>)
      requires Valid()
      modifies this
      ensures Valid()
      ensures var spec := Reconcile(old(Tables()), consumer, aggregateType, aggregate, limit, at);
              && Tables() == After(old(Tables()), spec)
              && r == if spec.Ok? then Ok(spec.value.1) else Err(spec.error)
    {
      ReconcileKeeps(Tables(), consumer, aggregateType, aggregate, limit, at);
      hide Inv, Refreshed, Lowest, Find, Trim, ValidConsumer, ValidAggregate;
      var c := Trim(consumer);
      if !ValidConsumer(c) { return Err(InvalidConsumer); }
      if !ValidAggregate(aggregateType, aggregate) { return Err(InvalidAggregate); }
      if limit <= 0 || limit > 1000 { return Err(InvalidLimit); }
      if at == 0 { return Err(MissingTime); }
      var k := CheckpointKey(c, aggregateType, aggregate);
      if k !in checkpoints { return Ok((NOT_INITIALIZED, 0)); }
      var checkpoint := checkpoints[k];
      if checkpoint.state.Stuck? || checkpoint.state.Unavailable? { return Ok((checkpoint, 0)); }
      var promoted := PromoteGaps(k, checkpoint.lastSequence, limit);
      Refresh(k, checkpoint);
      return Ok((checkpoints[k], promoted));
    }

    method MarkAggregateUnavailable(consumer: string, aggregateType: string, aggregate: string, reason: string, at: int)
      returns (r: Result<(), ProjectionError>)
      requires Valid()
      modifies `checkpoints
      ensures Valid()
      ensures var spec := MarkUnavailable(old(Tables()), consumer, aggregateType, aggregate, reason, at);
              && Tables() == After(old(Tables()), spec)
              && r == if spec.Ok? then Ok(()) else Err(spec.error)
    {
      MarkUnavailableKeeps(Tables(), consumer, aggregateType, aggregate, reason, at);
      hide Inv;
      var c := Trim(consumer);
      if !ValidConsumer(c) { return Err(InvalidConsumer); }
      if !ValidAggregate(aggregateType, aggregate) { return Err(InvalidAggregate); }
      if Trim(reason) == "" || |Trim(reason)| > 500 || at == 0 { return Err(InvalidReason); }
      var k := CheckpointKey(c, aggregateType, aggregate);
      var checkpoint := Checkpoint(0, "", Unavailable, "");
      if k in checkpoints {
        checkpoint := checkpoints[k];
      }
      checkpoints := checkpoints[k := checkpoint.(state := Unavailable, reason := Trim(reason))];
      return Ok(());
    }

    method ResumeAggregate(consumer: string, aggregateType: string, aggregate: string, at: int)
      returns (r: Result<Checkpoint, ProjectionError>)
      requires Valid()
      modifies `checkpoints
      ensures Valid()
      ensures var spec := Resume(old(Tables()), consumer, aggregateType, aggregate, at);
              && Tables() == After(old(Tables()), spec)
              && r == if spec.Ok? then Ok(spec.value.1) else Err(spec.error)
    {
      ResumeKeeps(Tables(), consumer, aggregateType, aggregate, at);
      hide Inv, Refreshed, Lowest, Find, Trim, ValidConsumer, ValidAggregate;
      var c := Trim(consumer);
      if !ValidConsumer(c) { return Err(InvalidConsumer); }
      if !ValidAggregate(aggregateType, aggregate) { return Err(InvalidAggregate); }
      if at == 0 { return Err(MissingTime); }
      var k := CheckpointKey(c, aggregateType, aggregate);
      if k !in checkpoints { return Ok(NOT_INITIALIZED); }
      if !checkpoints[k].state.Unavailable? { return Ok(checkpoints[k]); }
      Refresh(k, checkpoints[k]);
      return Ok(checkpoints[k]);
    }
  }
}
