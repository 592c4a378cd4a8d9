/** What every sequence of inbox operations keeps: the applied prefix, final rows, and a checkpoint that never understates trouble. */
module ProjectionSafety {
  import opened Prelude
  import opened Projections

  // ----- the invariant -----

  ghost predicate UniqueEvents(inbox: Inbox) {
    forall i, j | 0 <= i < j < |inbox| :: inbox[i].consumer == inbox[j].consumer ==> inbox[i].event.id != inbox[j].event.id
  }

  /** Row `i` is the applied row of this key with sequence `s`. */
  predicate AppliedAt(inbox: Inbox, k: CheckpointKey, i: int, s: int) {
    0 <= i < |inbox| && KeyOf(inbox[i]) == k && inbox[i].state.Applied? && inbox[i].event.sequence == s
  }

  ghost predicate HasApplied(inbox: Inbox, k: CheckpointKey, s: int) {
    exists i :: AppliedAt(inbox, k, i, s)
  }

  /** The applied rows of the key are one row for each sequence 1..last, and `lastEvent` is the id of the last of them. */
  ghost predicate AppliedPrefix(inbox: Inbox, k: CheckpointKey, c: Checkpoint) {
    && 0 <= c.lastSequence
    && (forall s :: 1 <= s <= c.lastSequence ==> HasApplied(inbox, k, s))
    && (forall i, s :: AppliedAt(inbox, k, i, s) ==> 1 <= s <= c.lastSequence)
    && (forall i, j, s :: AppliedAt(inbox, k, i, s) && AppliedAt(inbox, k, j, s) ==> i == j)
    && (forall i :: AppliedAt(inbox, k, i, c.lastSequence) ==> inbox[i].event.id == c.lastEvent)
    && (c.lastSequence == 0 ==> c.lastEvent == "")
  }

  function Severity(state: CheckpointState): int {
    match state
    case Current => 0
    case Behind => 1
    case Gapped => 2
    case Stuck => 3
    case Unavailable => 4
  }

  /** The checkpoint is at least as severe as a recomputation from the inbox would be. */
  predicate NeverUnderstates(inbox: Inbox, k: CheckpointKey, c: Checkpoint) {
    Severity(Refreshed(inbox, k, c).state) <= Severity(c.state)
  }

  ghost predicate KeyInv(inbox: Inbox, k: CheckpointKey, c: Checkpoint) {
    AppliedPrefix(inbox, k, c) && NeverUnderstates(inbox, k, c)
  }

  ghost predicate NoRows(inbox: Inbox, k: CheckpointKey) {
    forall i :: 0 <= i < |inbox| ==> KeyOf(inbox[i]) != k
  }

  ghost predicate Inv(p: Projection) {
    && UniqueEvents(p.inbox)
    && (forall i :: 0 <= i < |p.inbox| ==> p.inbox[i].event.sequence >= 1)
    && (forall k :: k in p.checkpoints ==> KeyInv(p.inbox, k, p.checkpoints[k]))
    && (forall i :: 0 <= i < |p.inbox| ==> KeyOf(p.inbox[i]) in p.checkpoints)
  }

  lemma EmptyInv()
    ensures Inv(EMPTY)
  {
  }

  // ----- lowest rows -----

  lemma LowestIs(inbox: Inbox, k: CheckpointKey, gapsOnly: bool, i: int)
    requires IsLowest(inbox, k, gapsOnly, i)
    ensures Lowest(inbox, k, gapsOnly) == Some(i)
  {
    hide KeyOf;
    var r := Lowest(inbox, k, gapsOnly);
    assert Selected(inbox[i], k, gapsOnly);
    assert r.Some? && IsLowest(inbox, k, gapsOnly, r.value);
    assert Selected(inbox[r.value], k, gapsOnly);
  }

  /** The two inboxes show a query over the key the same rows. */
  ghost predicate SameFor(inbox: Inbox, inbox': Inbox, k: CheckpointKey) {
    && |inbox| <= |inbox'|
    && (forall i :: 0 <= i < |inbox| ==> inbox'[i] == inbox[i] || (KeyOf(inbox[i]) != k && KeyOf(inbox'[i]) != k))
    && (forall i :: |inbox| <= i < |inbox'| ==> KeyOf(inbox'[i]) != k)
  }

  lemma LowestSame(inbox: Inbox, inbox': Inbox, k: CheckpointKey, gapsOnly: bool)
    requires SameFor(inbox, inbox', k)
    ensures Lowest(inbox', k, gapsOnly) == Lowest(inbox, k, gapsOnly)
  {
    hide KeyOf, Lowest, Outstanding;
    var r, r' := Lowest(inbox, k, gapsOnly), Lowest(inbox', k, gapsOnly);
    assert r'.Some? ==> Selected(inbox'[r'.value], k, gapsOnly);
    assert forall j :: 0 <= j < |inbox'| && Selected(inbox'[j], k, gapsOnly) ==> j < |inbox| && Selected(inbox[j], k, gapsOnly);
    if r.Some? {
      assert Selected(inbox[r.value], k, gapsOnly);
      assert IsLowest(inbox', k, gapsOnly, r.value);
      LowestIs(inbox', k, gapsOnly, r.value);
    }
  }

  lemma KeyInvSame(inbox: Inbox, inbox': Inbox, k: CheckpointKey, c: Checkpoint)
    requires SameFor(inbox, inbox', k) && KeyInv(inbox, k, c)
    ensures KeyInv(inbox', k, c)
  {
    hide KeyOf, Lowest, Severity;
    LowestSame(inbox, inbox', k, false);
    if Lowest(inbox, k, false).Some? {
      assert Selected(inbox[Lowest(inbox, k, false).value], k, false);
    }
    AppliedSame(inbox, inbox', k, c);
  }

  /** The applied prefix depends on the applied rows only. */
  lemma PrefixTransfer(inbox: Inbox, inbox': Inbox, k: CheckpointKey, c: Checkpoint)
    requires AppliedPrefix(inbox, k, c)
    requires forall i, s :: AppliedAt(inbox, k, i, s) <==> AppliedAt(inbox', k, i, s)
    requires forall i, s :: AppliedAt(inbox, k, i, s) && i < |inbox'| ==> inbox'[i].event == inbox[i].event
    ensures AppliedPrefix(inbox', k, c)
  {
    forall s | 1 <= s <= c.lastSequence
      ensures HasApplied(inbox', k, s)
    {
      assert HasApplied(inbox, k, s);
    }
    forall i | AppliedAt(inbox', k, i, c.lastSequence)
      ensures inbox'[i].event.id == c.lastEvent
    {
      assert AppliedAt(inbox, k, i, c.lastSequence);
    }
  }

  lemma AppliedSame(inbox: Inbox, inbox': Inbox, k: CheckpointKey, c: Checkpoint)
    requires SameFor(inbox, inbox', k) && AppliedPrefix(inbox, k, c)
    ensures AppliedPrefix(inbox', k, c)
  {
    assert forall i, s :: AppliedAt(inbox, k, i, s) <==> AppliedAt(inbox', k, i, s);
    PrefixTransfer(inbox, inbox', k, c);
  }

  // ----- ingest -----

  lemma AppendedPrefix(inbox: Inbox, row: InboxRow, k: CheckpointKey, c: Checkpoint)
    requires AppliedPrefix(inbox, k, c) && !row.state.Applied?
    ensures AppliedPrefix(inbox + [row], k, c)
  {
    assert forall i, s :: AppliedAt(inbox, k, i, s) <==> AppliedAt(inbox + [row], k, i, s);
    PrefixTransfer(inbox, inbox + [row], k, c);
  }

  /** After an append, the lowest row is the old one or the new one. */
  lemma LowestAppended(inbox: Inbox, row: InboxRow, k: CheckpointKey)
    ensures var before, after := Lowest(inbox, k, false), Lowest(inbox + [row], k, false);
            after == before || (after == Some(|inbox|) && Selected(row, k, false))
  {
    hide KeyOf, Outstanding;
    assert (inbox + [row])[..|inbox|] == inbox;
  }

  /** The incremental update after an ingest never understates, provided the old checkpoint did not. */
  lemma IngestNeverUnderstates(inbox: Inbox, k: CheckpointKey, checkpoint: Option<Checkpoint>, row: InboxRow, blockedReason: string)
    requires KeyOf(row) == k && row.event.sequence >= 1
    requires (row.state, row.reason) == Classify(blockedReason, checkpoint, row.event.sequence)
    requires if checkpoint.Some? then NeverUnderstates(inbox, k, checkpoint.value) else NoRows(inbox, k)
    ensures NeverUnderstates(inbox + [row], k, AfterIngest(checkpoint, row.state, row.reason))
  {
    hide KeyOf;
    LowestAppended(inbox, row, k);
    var after := Lowest(inbox + [row], k, false);
    var before := Lowest(inbox, k, false);
    assert before.Some? ==> Selected(inbox[before.value], k, false);
    if after.Some? && after.value < |inbox| {
      assert (inbox + [row])[after.value] == inbox[after.value];
    }
  }

  /** Changing one key's rows and checkpoint leaves every other key's invariant alone. */
  lemma Rekeyed(p: Projection, inbox: Inbox, k: CheckpointKey, c: Checkpoint)
    requires Inv(p) && UniqueEvents(inbox) && KeyInv(inbox, k, c)
    requires forall i :: 0 <= i < |inbox| ==> inbox[i].event.sequence >= 1
    requires |p.inbox| <= |inbox|
    requires forall i :: 0 <= i < |p.inbox| ==> inbox[i] == p.inbox[i] || (KeyOf(p.inbox[i]) == k && KeyOf(inbox[i]) == k)
    requires forall i :: |p.inbox| <= i < |inbox| ==> KeyOf(inbox[i]) == k
    ensures Inv(Projection(inbox, p.checkpoints[k := c]))
  {
    hide KeyOf, KeyInv, UniqueEvents;
    forall j | j in p.checkpoints && j != k
      ensures KeyInv(inbox, j, p.checkpoints[j])
    {
      assert SameFor(p.inbox, inbox, j);
      KeyInvSame(p.inbox, inbox, j, p.checkpoints[j]);
    }
  }

  lemma IngestKeeps(p: Projection, consumer: string, e: Delivered, at: int)
    requires Inv(p)
    ensures Inv(After(p, Ingest(p, consumer, e, at)))
  {
    hide Trim, ValidConsumer, Classify, AfterIngest, KeyInv, UniqueEvents, ValidAggregate;
    var c := Trim(consumer);
    if Ingest(p, consumer, e, at).Ok? && Find(p.inbox, c, e.id).None? {
      var k := CheckpointKey(c, e.aggregateType, e.aggregate);
      var checkpoint := CheckpointAt(p.checkpoints, k);
      var (state, reason) := Classify(SourceCheck(e).value, checkpoint, e.sequence);
      var row := InboxRow(c, e, state, reason);
      NewRowUnique(p.inbox, row);
      IngestedKey(p, k, row, SourceCheck(e).value);
      Rekeyed(p, p.inbox + [row], k, AfterIngest(checkpoint, state, reason));
    }
  }

  lemma NewRowUnique(inbox: Inbox, row: InboxRow)
    requires UniqueEvents(inbox) && Find(inbox, row.consumer, row.event.id).None?
    ensures UniqueEvents(inbox + [row])
  {
    assert forall i :: 0 <= i < |inbox| ==> !Holds(inbox[i], row.consumer, row.event.id);
  }

  lemma IngestedKey(p: Projection, k: CheckpointKey, row: InboxRow, blockedReason: string)
    requires Inv(p) && KeyOf(row) == k && row.event.sequence >= 1
    requires (row.state, row.reason) == Classify(blockedReason, CheckpointAt(p.checkpoints, k), row.event.sequence)
    ensures KeyInv(p.inbox + [row], k, AfterIngest(CheckpointAt(p.checkpoints, k), row.state, row.reason))
  {
    hide KeyOf, NeverUnderstates, AppliedPrefix, UniqueEvents;
    var checkpoint := CheckpointAt(p.checkpoints, k);
    assert k in p.checkpoints ==> KeyInv(p.inbox, k, p.checkpoints[k]);
    IngestNeverUnderstates(p.inbox, k, checkpoint, row, blockedReason);
    if checkpoint.None? { NoAppliedPrefix(p.inbox, k); }
    AppendedPrefix(p.inbox, row, k, if checkpoint.Some? then checkpoint.value else Checkpoint(0, "", Current, ""));
    PrefixOfFields(p.inbox + [row], k, if checkpoint.Some? then checkpoint.value else Checkpoint(0, "", Current, ""),
                   AfterIngest(checkpoint, row.state, row.reason));
  }

  lemma NoAppliedPrefix(inbox: Inbox, k: CheckpointKey)
    requires NoRows(inbox, k)
    ensures AppliedPrefix(inbox, k, Checkpoint(0, "", Current, ""))
  {
  }

  lemma PrefixOfFields(inbox: Inbox, k: CheckpointKey, c: Checkpoint, d: Checkpoint)
    requires AppliedPrefix(inbox, k, c) && d.lastSequence == c.lastSequence && d.lastEvent == c.lastEvent
    ensures AppliedPrefix(inbox, k, d)
  {
    hide AppliedAt;
  }

  /** A recomputed checkpoint is a fixed point of recomputation. */
  lemma RefreshedExact(inbox: Inbox, k: CheckpointKey, c: Checkpoint)
    ensures Refreshed(inbox, k, Refreshed(inbox, k, c)) == Refreshed(inbox, k, c)
    ensures Refreshed(inbox, k, c).lastSequence == c.lastSequence && Refreshed(inbox, k, c).lastEvent == c.lastEvent
  {
  }

  lemma RefreshedKey(inbox: Inbox, k: CheckpointKey, c: Checkpoint)
    requires AppliedPrefix(inbox, k, c)
    ensures KeyInv(inbox, k, Refreshed(inbox, k, c))
  {
    hide AppliedPrefix, Refreshed;
    RefreshedExact(inbox, k, c);
    PrefixOfFields(inbox, k, c, Refreshed(inbox, k, c));
  }

  lemma StateSetUnique(inbox: Inbox, i: nat, state: InboxState, reason: string)
    requires UniqueEvents(inbox) && i < |inbox|
    ensures UniqueEvents(SetState(inbox, i, state, reason))
  {
  }

  /** Applying the row next in sequence extends the prefix by one. */
  lemma PrefixExtended(inbox: Inbox, k: CheckpointKey, c: Checkpoint, i: nat)
    requires AppliedPrefix(inbox, k, c) && i < |inbox| && KeyOf(inbox[i]) == k && !inbox[i].state.Applied?
    requires inbox[i].event.sequence == c.lastSequence + 1
    ensures AppliedPrefix(SetState(inbox, i, Applied, ""), k, c.(lastSequence := inbox[i].event.sequence, lastEvent := inbox[i].event.id))
  {
    var inbox' := SetState(inbox, i, Applied, "");
    assert forall j, s :: AppliedAt(inbox', k, j, s) <==> AppliedAt(inbox, k, j, s) || (j == i && s == c.lastSequence + 1);
    assert AppliedAt(inbox', k, i, c.lastSequence + 1);
    forall s | 1 <= s <= c.lastSequence + 1
      ensures HasApplied(inbox', k, s)
    {
      if s <= c.lastSequence {
        assert HasApplied(inbox, k, s);
        var j :| AppliedAt(inbox, k, j, s);
        assert AppliedAt(inbox', k, j, s);
      }
    }
  }

  lemma MarkAppliedKeeps(p: Projection, consumer: string, event: string, at: int)
    requires Inv(p)
    ensures Inv(After(p, MarkApplied(p, consumer, event, at)))
  {
    hide Trim, ValidConsumer, Refreshed, UniqueEvents, AppliedPrefix;
    var c := Trim(consumer);
    var r := MarkApplied(p, consumer, event, at);
    if r.Ok? && r.value.0 != p {
      var i := Find(p.inbox, c, Trim(event)).value;
      var row := p.inbox[i];
      var k := KeyOf(row);
      var checkpoint := p.checkpoints[k];
      assert KeyInv(p.inbox, k, checkpoint);
      hide KeyInv;
      PrefixExtended(p.inbox, k, checkpoint, i);
      RefreshedKey(SetState(p.inbox, i, Applied, ""), k, checkpoint.(lastSequence := row.event.sequence, lastEvent := row.event.id));
      StateSetUnique(p.inbox, i, Applied, "");
      Rekeyed(p, SetState(p.inbox, i, Applied, ""), k,
              Refreshed(SetState(p.inbox, i, Applied, ""), k, checkpoint.(lastSequence := row.event.sequence, lastEvent := row.event.id)));
    }
  }

  lemma PrefixUnaffected(inbox: Inbox, k: CheckpointKey, c: Checkpoint, i: nat, reason: string)
    requires AppliedPrefix(inbox, k, c) && i < |inbox| && !inbox[i].state.Applied?
    ensures AppliedPrefix(SetState(inbox, i, Pending, reason), k, c)
  {
    var inbox' := SetState(inbox, i, Pending, reason);
    assert forall j, s :: AppliedAt(inbox', k, j, s) <==> AppliedAt(inbox, k, j, s);
    PrefixTransfer(inbox, inbox', k, c);
  }

  lemma ReconcileKeeps(p: Projection, consumer: string, aggregateType: string, aggregate: string, limit: int, at: int)
    requires Inv(p)
    ensures Inv(After(p, Reconcile(p, consumer, aggregateType, aggregate, limit, at)))
  {
    hide Trim, ValidConsumer, ValidAggregate, Refreshed, UniqueEvents, AppliedPrefix, Lowest;
    var r := Reconcile(p, consumer, aggregateType, aggregate, limit, at);
    if r.Ok? && r.value.0 != p {
      var k := CheckpointKey(Trim(consumer), aggregateType, aggregate);
      var checkpoint := p.checkpoints[k];
      assert KeyInv(p.inbox, k, checkpoint);
      hide KeyInv;
      var gap := Lowest(p.inbox, k, true);
      var promote := gap.Some? && p.inbox[gap.value].event.sequence == checkpoint.lastSequence + 1;
      if promote {
        PrefixUnaffected(p.inbox, k, checkpoint, gap.value, "awaiting_apply");
        StateSetUnique(p.inbox, gap.value, Pending, "awaiting_apply");
      }
      var inbox := if promote then SetState(p.inbox, gap.value, Pending, "awaiting_apply") else p.inbox;
      RefreshedKey(inbox, k, checkpoint);
      Rekeyed(p, inbox, k, Refreshed(inbox, k, checkpoint));
    }
  }

  lemma MarkUnavailableKeeps(p: Projection, consumer: string, aggregateType: string, aggregate: string, reason: string, at: int)
    requires Inv(p)
    ensures Inv(After(p, MarkUnavailable(p, consumer, aggregateType, aggregate, reason, at)))
  {
    hide Trim, ValidConsumer, ValidAggregate, UniqueEvents, AppliedPrefix;
    if MarkUnavailable(p, consumer, aggregateType, aggregate, reason, at).Ok? {
      var k := CheckpointKey(Trim(consumer), aggregateType, aggregate);
      if k in p.checkpoints {
        assert KeyInv(p.inbox, k, p.checkpoints[k]);
      } else {
        NoAppliedPrefix(p.inbox, k);
      }
      var c := if k in p.checkpoints then p.checkpoints[k] else Checkpoint(0, "", Current, "");
      var d := c.(state := Unavailable, reason := Trim(reason));
      PrefixOfFields(p.inbox, k, c, d);
      assert KeyInv(p.inbox, k, d);
      hide KeyInv;
      Rekeyed(p, p.inbox, k, d);
    }
  }

  lemma ResumeKeeps(p: Projection, consumer: string, aggregateType: string, aggregate: string, at: int)
    requires Inv(p)
    ensures Inv(After(p, Resume(p, consumer, aggregateType, aggregate, at)))
  {
    hide Trim, ValidConsumer, ValidAggregate, Refreshed, UniqueEvents, AppliedPrefix;
    var r := Resume(p, consumer, aggregateType, aggregate, at);
    if r.Ok? && r.value.0 != p {
      var k := CheckpointKey(Trim(consumer), aggregateType, aggregate);
      assert KeyInv(p.inbox, k, p.checkpoints[k]);
      hide KeyInv;
      RefreshedKey(p.inbox, k, p.checkpoints[k]);
      Rekeyed(p, p.inbox, k, Refreshed(p.inbox, k, p.checkpoints[k]));
    }
  }

  lemma ActKeeps(p: Projection, a: Action)
    requires Inv(p)
    ensures Inv(Act(p, a))
  {
    hide Inv, Ingest, MarkApplied, Reconcile, MarkUnavailable, Resume, After;
    match a
    case AIngest(c, e, at) => IngestKeeps(p, c, e, at);
    case AMarkApplied(c, id, at) => MarkAppliedKeeps(p, c, id, at);
    case AReconcile(c, t, id, limit, at) => ReconcileKeeps(p, c, t, id, limit, at);
    case AMarkUnavailable(c, t, id, reason, at) => MarkUnavailableKeeps(p, c, t, id, reason, at);
    case AResume(c, t, id, at) => ResumeKeeps(p, c, t, id, at);
  }

  /** Every reachable inbox keeps the applied prefix and never understates trouble. */
  lemma {:induction false} ActAllKeeps(p: Projection, actions: seq<Action>)
    requires Inv(p)
    ensures Inv(ActAll(p, actions))
    decreases |actions|
  {
    hide Inv, Act;
    if actions != [] {
      ActKeeps(p, actions[0]);
      ActAllKeeps(Act(p, actions[0]), actions[1..]);
    }
  }

  // ----- what the invariant says -----

  /** A checkpoint that reads current has nothing pending, missing or blocked behind it. */
  lemma CurrentIsSettled(p: Projection, k: CheckpointKey)
    requires Inv(p) && k in p.checkpoints && p.checkpoints[k].state.Current?
    ensures forall i :: 0 <= i < |p.inbox| && KeyOf(p.inbox[i]) == k ==> !Outstanding(p.inbox[i].state)
  {
    hide KeyOf, UniqueEvents, AppliedPrefix;
    assert KeyInv(p.inbox, k, p.checkpoints[k]);
    assert forall i :: 0 <= i < |p.inbox| && KeyOf(p.inbox[i]) == k && Outstanding(p.inbox[i].state) ==> Selected(p.inbox[i], k, false);
  }

  /** The checkpoint is exactly what a recomputation gives, reason included: so after an apply, a reconcile that refreshes, and
      a resume from unavailable. */
  predicate Exact(p: Projection, k: CheckpointKey) {
    k in p.checkpoints && p.checkpoints[k] == Refreshed(p.inbox, k, p.checkpoints[k])
  }

  lemma AppliedExact(p: Projection, consumer: string, event: string, at: int)
    requires MarkApplied(p, consumer, event, at).Ok?
    ensures var found := Find(p.inbox, Trim(consumer), Trim(event));
            found.Some? && (p.inbox[found.value].state.Pending? ==> Exact(After(p, MarkApplied(p, consumer, event, at)), KeyOf(p.inbox[found.value])))
  {
    hide Trim, ValidConsumer, Refreshed, KeyOf;
    var found := Find(p.inbox, Trim(consumer), Trim(event));
    if p.inbox[found.value].state.Pending? {
      var row := p.inbox[found.value];
      RefreshedExact(SetState(p.inbox, found.value, Applied, ""), KeyOf(row),
                     p.checkpoints[KeyOf(row)].(lastSequence := row.event.sequence, lastEvent := row.event.id));
    }
  }

  lemma ReconciledExact(p: Projection, consumer: string, aggregateType: string, aggregate: string, limit: int, at: int)
    requires Reconcile(p, consumer, aggregateType, aggregate, limit, at).Ok?
    ensures var k := CheckpointKey(Trim(consumer), aggregateType, aggregate);
            k in p.checkpoints && !p.checkpoints[k].state.Stuck? && !p.checkpoints[k].state.Unavailable? ==>
              Exact(After(p, Reconcile(p, consumer, aggregateType, aggregate, limit, at)), k)
  {
    hide Trim, ValidConsumer, ValidAggregate, Refreshed;
    var k := CheckpointKey(Trim(consumer), aggregateType, aggregate);
    if k in p.checkpoints {
      RefreshedExact(Reconcile(p, consumer, aggregateType, aggregate, limit, at).value.0.inbox, k, p.checkpoints[k]);
    }
  }

  lemma ResumedExact(p: Projection, consumer: string, aggregateType: string, aggregate: string, at: int)
    requires Resume(p, consumer, aggregateType, aggregate, at).Ok?
    ensures var k := CheckpointKey(Trim(consumer), aggregateType, aggregate);
            k in p.checkpoints && p.checkpoints[k].state.Unavailable? ==> Exact(After(p, Resume(p, consumer, aggregateType, aggregate, at)), k)
  {
    hide Trim, ValidConsumer, ValidAggregate, Refreshed;
    var k := CheckpointKey(Trim(consumer), aggregateType, aggregate);
    if k in p.checkpoints {
      RefreshedExact(p.inbox, k, p.checkpoints[k]);
    }
  }

  // ----- rows are final -----

  predicate Final(state: InboxState) {
    state.Applied? || state.Stale? || state.Blocked?
  }

  /** No row is lost, no event is rewritten, and a row that is applied, stale or blocked never changes again. */
  ghost predicate Later(inbox: Inbox, inbox': Inbox) {
    && |inbox| <= |inbox'|
    && forall i :: 0 <= i < |inbox| ==>
         && inbox'[i].consumer == inbox[i].consumer && inbox'[i].event == inbox[i].event
         && (Final(inbox[i].state) ==> inbox'[i] == inbox[i])
         && (inbox[i].state.Pending? ==> !inbox'[i].state.Gap?)
         && !(inbox'[i].state != inbox[i].state && (inbox'[i].state.Stale? || inbox'[i].state.Blocked?))
  }

  lemma ActLater(p: Projection, a: Action)
    ensures Later(p.inbox, Act(p, a).inbox)
  {
    hide Trim, ValidConsumer, ValidAggregate, Refreshed, SourceCheck, Classify, AfterIngest, KeyOf, SameEvent;
  }

  lemma {:induction false} ActAllLater(p: Projection, actions: seq<Action>)
    ensures Later(p.inbox, ActAll(p, actions).inbox)
    decreases |actions|
  {
    hide Act;
    if actions != [] {
      ActLater(p, actions[0]);
      ActAllLater(Act(p, actions[0]), actions[1..]);
    }
  }
}
