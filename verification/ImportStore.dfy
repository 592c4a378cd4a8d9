/** The import job as it updates the store: a loop of one-record transactions, and a loop of compensations over a list read
    beforehand. `lives` bounds the transactions the process commits before it dies. */
module ImportStore {
  import opened Prelude
  import opened Import

  /** The records to compensate below `bound`, last first. */
  function Pending(ledger: seq<LedgerRow>, bound: nat): seq<nat>
    requires bound <= |ledger|
  {
    if bound == 0 then []
    else (if ToCompensate(ledger[bound - 1]) then [bound - 1] else []) + Pending(ledger, bound - 1)
  }

  lemma {:induction false} PendingIsLast(ledger: seq<LedgerRow>, bound: nat)
    requires bound <= |ledger|
    ensures match LastToCompensate(ledger, bound)
            case None => Pending(ledger, bound) == []
            case Some(i) => Pending(ledger, bound) == [i] + Pending(ledger, i)
    decreases bound
  {
    if bound > 0 && !ToCompensate(ledger[bound - 1]) { PendingIsLast(ledger, bound - 1); }
  }

  lemma {:induction false} PendingBelow(ledger: seq<LedgerRow>, ledger': seq<LedgerRow>, bound: nat)
    requires bound <= |ledger| && bound <= |ledger'| && ledger[..bound] == ledger'[..bound]
    ensures Pending(ledger, bound) == Pending(ledger', bound)
    decreases bound
  {
    if bound > 0 {
      assert ledger[bound - 1] == ledger[..bound][bound - 1] == ledger'[..bound][bound - 1];
      assert ledger[..bound - 1] == ledger[..bound][..bound - 1] == ledger'[..bound][..bound - 1];
      PendingBelow(ledger, ledger', bound - 1);
    }
  }

  class Job {
    var rows: Rows
    var journal: seq<RowKey>
    var run: Option<RunRow>
    var ledger: seq<LedgerRow>

    ghost function State(): Tables
      reads this
    {
      Tables(rows, journal, run, ledger)
    }

    constructor (rows: Rows, journal: seq<RowKey>)
      ensures State() == Tables(rows, journal, None, [])
    {
      this.rows, this.journal, run, ledger := rows, journal, None, [];
    }

    /** applyProductionRecord: all of the record's writes, or none. */
    method ApplyOne(records: seq<Record>) returns (error: Option<ImportError>)
      requires run.Some? && run.value.next < |records|
      modifies this
      ensures match ApplyRecord(old(State()), records)
              case Ok(t) => State() == t && error.None?
              case Err(e) => State() == old(State()) && error == Some(e)
    {
      var current := run.value;
      var r := records[current.next];
      var applied := ApplyRow(rows, r);
      if applied.Err? { return Some(applied.error); }
      var (newRows, created) := applied.value;
      ledger := ledger + [LedgerRow(r.key, if created then WasCreated else WasReconciled, created, false)];
      rows := newRows;
      current := current.(next := current.next + 1, applied := current.applied + 1);
      if created {
        journal := journal + [r.key];
        current := current.(created := current.created + 1);
      } else {
        current := current.(reconciled := current.reconciled + 1);
      }
      current := current.(status := if current.next == |records| then Completed else Paused);
      run := Some(current.(receipt := ReceiptOf(current, 0)));
      return None;
    }

    /** The number of reconciled ledger rows, counted by a query. */
    method CountSkipped() returns (skipped: nat)
      ensures skipped == CountReconciled(ledger)
    {
      skipped := 0;
      var i := 0;
      while i < |ledger|
        invariant 0 <= i <= |ledger|
        invariant skipped == CountReconciled(ledger[..i])
      {
        assert ledger[..i + 1][..i] == ledger[..i];
        if ledger[i].outcome.WasReconciled? { skipped := skipped + 1; }
        i := i + 1;
      }
      assert ledger[..i] == ledger;
    }

    method ApplyBatch(records: seq<Record>, count: nat) returns (error: Option<ImportError>)
      requires run.Some?
      modifies this
      ensures (State(), error) == ApplyRecords(old(State()), records, count)
    {
      var i := 0;
      while i < count && run.value.next < |records|
        invariant 0 <= i <= count && run.Some?
        invariant ApplyRecords(State(), records, count - i) == ApplyRecords(old(State()), records, count)
      {
        error := ApplyOne(records);
        if error.Some? { return; }
        i := i + 1;
      }
      return None;
    }

    method Apply(records: seq<Record>, limit: int, lives: nat)
      modifies this
      ensures State() == ApplyCall(old(State()), records, limit, lives)
    {
      if !ValidManifest(records) { return; }
      var left := lives;
      if run.None? {
        if left == 0 { return; }
        run := Some(RunRow(Running, 0, 0, 0, 0, Receipt(Running, 0, 0, 0, 0, 0)));
        left := left - 1;
      }
      if run.value.status.RolledBack? || run.value.status.Completed? { return; }
      var batch := Batch(run.value, records, limit);
      var error := ApplyBatch(records, if left < batch then left else batch);
      if error.Some? || left <= batch { return; }
      var skipped := CountSkipped();
      var done := run.value.(status := if run.value.next == |records| then Completed else Paused);
      run := Some(done.(receipt := ReceiptOf(done, skipped)));
    }

    method ListPending() returns (items: seq<nat>)
      ensures items == Pending(ledger, |ledger|)
    {
      items := [];
      var i := 0;
      while i < |ledger|
        invariant 0 <= i <= |ledger|
        invariant items == Pending(ledger, i)
      {
        if ledger[i].createdByImport && !ledger[i].compensated { items := [i] + items; }
        i := i + 1;
      }
    }

    /** One compensation: the canonical row and its ledger mark together. */
    method CompensateOne(i: nat) returns (error: Option<ImportError>)
      requires i < |ledger|
      modifies `rows, `ledger
      ensures match DeleteRow(old(rows), old(ledger)[i].key)
              case Ok(left) => error.None? && State() == Compensated(old(State()).(rows := left), i)
              case Err(e) => error == Some(e) && State() == old(State())
    {
      var deleted := DeleteRow(rows, ledger[i].key);
      if deleted.Err? { return Some(deleted.error); }
      rows := deleted.value;
      ledger := ledger[i := ledger[i].(compensated := true, outcome := WasRolledBack)];
      return None;
    }

    method Rollback(lives: nat)
      modifies this
      ensures State() == RollbackCall(old(State()), lives)
    {
      hide DeleteRow, Pending, CountReconciled, ToCompensate;
      if run.None? || run.value.status.RolledBack? { return; }
      var skipped := CountSkipped();
      var items := ListPending();
      var left := lives;
      var done := 0;
      ghost var bound: nat := |ledger|;
      while done < |items|
        invariant 0 <= done <= |items| && bound <= |ledger|
        invariant run == old(run)
        invariant items[done..] == Pending(ledger, bound)
        invariant CompensateAll(State(), bound, left) == CompensateAll(old(State()), |old(ledger)|, lives)
      {
        PendingIsLast(ledger, bound);
        var i := items[done];
        assert items[done..] == [i] + items[done + 1..];
        assert LastToCompensate(ledger, bound) == Some(i);
        if left == 0 { return; }
        ghost var before := ledger;
        var error := CompensateOne(i);
        if error.Some? { return; }
        PendingBelow(before, ledger, i);
        left := left - 1;
        done := done + 1;
        bound := i;
      }
      PendingIsLast(ledger, bound);
      if left == 0 { return; }
      var reversed := run.value.(status := RolledBack);
      run := Some(reversed.(receipt := ReceiptOf(reversed, skipped)));
    }
  }
}
