/** Batches and crashes do not matter to an import, and rolling it back restores the tables. */
module ImportTheory {
  import opened Prelude
  import opened Import

  // ----- the reference: the canonical rows after the first n records -----

  /** The rows after records 0..n-1 applied one after the other, if none of them fails. */
  function RowsAfter(rows: Rows, records: seq<Record>, n: nat): Option<Rows>
    requires n <= |records|
  {
    if n == 0 then Some(rows)
    else
      match RowsAfter(rows, records, n - 1)
      case None => None
      case Some(before) =>
        match ApplyRow(before, records[n - 1])
        case Err(_) => None
        case Ok((after, _)) => Some(after)
  }

  predicate CreatedAt(rows: Rows, records: seq<Record>, i: nat)
    requires i < |records|
  {
    RowsAfter(rows, records, i).Some? && records[i].key !in RowsAfter(rows, records, i).value
  }

  function JournalAfter(rows: Rows, records: seq<Record>, n: nat): seq<RowKey>
    requires n <= |records|
  {
    if n == 0 then [] else JournalAfter(rows, records, n - 1) + (if CreatedAt(rows, records, n - 1) then [records[n - 1].key] else [])
  }

  function LedgerAfter(rows: Rows, records: seq<Record>, n: nat): (r: seq<LedgerRow>)
    requires n <= |records|
    ensures |r| == n
  {
    if n == 0 then []
    else
      var created := CreatedAt(rows, records, n - 1);
      LedgerAfter(rows, records, n - 1) + [LedgerRow(records[n - 1].key, if created then WasCreated else WasReconciled, created, false)]
  }

  /** The canonical rows, journal and ledger are those of the first `n` records; the ledger holds exactly records 0..n-1. */
  predicate DataAt(t: Tables, start: Tables, records: seq<Record>, n: nat)
    requires n <= |records|
  {
    && RowsAfter(start.rows, records, n) == Some(t.rows)
    && t.journal == start.journal + JournalAfter(start.rows, records, n)
    && t.ledger == LedgerAfter(start.rows, records, n)
  }

  function StatusAt(n: nat, total: nat): Status {
    if n == total then Completed else if n == 0 then Running else Paused
  }

  /** The checkpoint: applied = created + reconciled = next, as counted in the ledger. */
  predicate CheckpointAt(run: RunRow, ledger: seq<LedgerRow>, n: nat, total: nat) {
    && run.next == n && run.applied == n && run.created + run.reconciled == n
    && run.created == CountCreated(ledger) && run.reconciled == CountReconciled(ledger)
    && run.status == StatusAt(n, total)
  }

  /** The durable state of an import of `records` that started on `start`, with the first `n` records applied. */
  predicate At(t: Tables, start: Tables, records: seq<Record>, n: nat) {
    && n <= |records| && |records| > 0 && t.run.Some?
    && CheckpointAt(t.run.value, t.ledger, n, |records|)
    && DataAt(t, start, records, n)
  }

  /** Nothing of this manifest has been stored yet. */
  predicate Unstarted(t: Tables) {
    t.run.None? && t.ledger == []
  }

  lemma OpenedAt(start: Tables, records: seq<Record>)
    requires Unstarted(start) && |records| > 0
    ensures At(OpenRun(start), start, records, 0)
  {
  }

  lemma CountsGrow(ledger: seq<LedgerRow>, row: LedgerRow)
    ensures CountCreated(ledger + [row]) == CountCreated(ledger) + (if row.createdByImport then 1 else 0)
    ensures CountReconciled(ledger + [row]) == CountReconciled(ledger) + (if row.outcome.WasReconciled? then 1 else 0)
  {
    assert (ledger + [row])[..|ledger|] == ledger;
  }

  lemma RecordData(t: Tables, start: Tables, records: seq<Record>, n: nat)
    requires n < |records| && DataAt(t, start, records, n) && t.run.Some? && t.run.value.next == n && ApplyRecord(t, records).Ok?
    ensures DataAt(ApplyRecord(t, records).value, start, records, n + 1)
  {
    hide ApplyRow;
    ApplyRowCreates(t.rows, records[n]);
  }

  lemma RecordCheckpoint(t: Tables, records: seq<Record>, n: nat)
    requires n < |records| && t.run.Some? && CheckpointAt(t.run.value, t.ledger, n, |records|) && ApplyRecord(t, records).Ok?
    ensures ApplyRecord(t, records).value.run.Some?
    ensures CheckpointAt(ApplyRecord(t, records).value.run.value, ApplyRecord(t, records).value.ledger, n + 1, |records|)
  {
    hide ApplyRow, CountCreated, CountReconciled;
    var created := ApplyRow(t.rows, records[n]).value.1;
    CountsGrow(t.ledger, LedgerRow(records[n].key, if created then WasCreated else WasReconciled, created, false));
  }

  lemma RecordAt(t: Tables, start: Tables, records: seq<Record>, n: nat)
    requires At(t, start, records, n) && n < |records|
    ensures ApplyRecord(t, records).Ok? ==> At(ApplyRecord(t, records).value, start, records, n + 1)
    ensures ApplyRecord(t, records).Err? ==> RowsAfter(start.rows, records, n + 1).None?
  {
    hide ApplyRow, CountCreated, CountReconciled, JournalAfter, LedgerAfter;
    if ApplyRecord(t, records).Ok? {
      RecordData(t, start, records, n);
      RecordCheckpoint(t, records, n);
    }
  }

  lemma ApplyRowCreates(rows: Rows, r: Record)
    ensures ApplyRow(rows, r).Ok? ==>
              var (after, created) := ApplyRow(rows, r).value;
              && (created <==> r.key !in rows)
              && after == if created then rows[r.key := Stored(r.payload)] else rows
  {
  }

  // ----- batches and crashes -----

  /** Whatever a call's limit, and wherever its process dies, the durable state is the one after some number of records. */
  lemma AtNext(t: Tables, start: Tables, records: seq<Record>, n: nat)
    requires At(t, start, records, n)
    ensures n <= |records| && |records| > 0 && t.run.Some? && t.run.value.next == n
    ensures t.run.value.status == StatusAt(n, |records|)
  {
    hide DataAt, CountCreated, CountReconciled;
  }

  lemma {:induction false} ApplyRecordsAt(t: Tables, start: Tables, records: seq<Record>, n: nat, count: nat) returns (m: nat)
    requires At(t, start, records, n) && t.run.Some?
    ensures n <= m <= |records| && m <= n + count && At(ApplyRecords(t, records, count).0, start, records, m)
    ensures ApplyRecords(t, records, count).1.None? ==> m == if count < |records| - n then n + count else |records|
    ensures ApplyRecords(t, records, count).1.Some? ==> m < |records| && RowsAfter(start.rows, records, m + 1).None?
    decreases count
  {
    hide At, ApplyRecord, RowsAfter;
    AtNext(t, start, records, n);
    m := n;
    if count > 0 && n < |records| {
      RecordAt(t, start, records, n);
      if ApplyRecord(t, records).Ok? {
        AtNext(ApplyRecord(t, records).value, start, records, n + 1);
        m := ApplyRecordsAt(ApplyRecord(t, records).value, start, records, n + 1, count - 1);
      }
    }
  }

  lemma PersistedAt(t: Tables, start: Tables, records: seq<Record>, n: nat)
    requires At(t, start, records, n) && n > 0
    ensures t.run.Some? && At(PersistReceipt(t, records), start, records, n)
  {
    hide RowsAfter, JournalAfter, LedgerAfter, CountCreated, CountReconciled;
  }

  /** Started or not: the states a manifest's calls move through. */
  predicate Reached(t: Tables, start: Tables, records: seq<Record>, n: nat) {
    (n == 0 && t == start) || At(t, start, records, n)
  }

  /** If every record up to n+1 applies, so does every record before. */
  lemma {:induction false} RowsBefore(rows: Rows, records: seq<Record>, m: nat, n: nat)
    requires m <= n <= |records| && RowsAfter(rows, records, n).Some?
    ensures RowsAfter(rows, records, m).Some?
    decreases n
  {
    hide ApplyRow;
    if m < n { RowsBefore(rows, records, m, n - 1); }
  }

  /** Where an import comes to rest: every record before `m` applies, and record `m`, if there is one, fails. */
  predicate RestsAt(rows: Rows, records: seq<Record>, m: nat) {
    m <= |records| && RowsAfter(rows, records, m).Some? && (m == |records| || RowsAfter(rows, records, m + 1).None?)
  }

  lemma RestsAtOnePlace(rows: Rows, records: seq<Record>, m: nat, n: nat)
    requires RestsAt(rows, records, m) && RestsAt(rows, records, n)
    ensures m == n
  {
    hide RowsAfter;
    if m < n { RowsBefore(rows, records, m + 1, n); }
    if n < m { RowsBefore(rows, records, n + 1, m); }
  }

  /** A call on an open, unfinished run. */
  function RunBatch(open: Tables, records: seq<Record>, limit: int, left: nat): Tables
    requires open.run.Some?
  {
    var batch := Batch(open.run.value, records, limit);
    var (done, error) := ApplyRecords(open, records, if left < batch then left else batch);
    if error.None? && left > batch then PersistReceipt(done, records) else done
  }

  /** How far a call from record `n` sets out to go. */
  function Target(n: nat, limit: int, total: nat): int {
    if limit > 0 && n + limit < total then n + limit else total
  }

  lemma RunBatchReaches(open: Tables, start: Tables, records: seq<Record>, n: nat, limit: int, left: nat) returns (m: nat)
    requires At(open, start, records, n) && open.run.Some? && n < |records|
    ensures n <= m <= Target(n, limit, |records|) && m <= n + left && At(RunBatch(open, records, limit, left), start, records, m)
    ensures left >= |records| ==> m == Target(n, limit, |records|) || RestsAt(start.rows, records, m)
  {
    hide At, RowsAfter, ApplyRecords, PersistReceipt;
    AtNext(open, start, records, n);
    var batch := Batch(open.run.value, records, limit);
    var count := if left < batch then left else batch;
    m := ApplyRecordsAt(open, start, records, n, count);
    AtRows(ApplyRecords(open, records, count).0, start, records, m);
    if m > 0 { PersistedAt(ApplyRecords(open, records, count).0, start, records, m); }
  }

  lemma AtRows(t: Tables, start: Tables, records: seq<Record>, n: nat)
    requires At(t, start, records, n)
    ensures n <= |records| && RowsAfter(start.rows, records, n) == Some(t.rows)
  {
    hide RowsAfter, JournalAfter, LedgerAfter, CountCreated, CountReconciled;
  }

  /** Whatever a call's limit, and wherever its process dies, the durable state is the one after some number of records, never
      more than the limit further on; and a call that lives long enough goes exactly that far, or comes to rest before. */
  lemma ApplyCallReaches(t: Tables, start: Tables, records: seq<Record>, n: nat, limit: int, lives: nat) returns (m: nat)
    requires Unstarted(start) && ValidManifest(records) && Reached(t, start, records, n)
    ensures n <= m && (m <= Target(n, limit, |records|) <= |records|) && m <= n + lives
    ensures Reached(ApplyCall(t, records, limit, lives), start, records, m)
    ensures lives > |records| ==>
              At(ApplyCall(t, records, limit, lives), start, records, m)
              && (m == Target(n, limit, |records|) || RestsAt(start.rows, records, m))
    ensures limit <= 0 && lives > |records| ==> RestsAt(start.rows, records, m)
  {
    m := n;
    if t.run.Some? || lives > 0 {
      OpenAt(t, start, records, n);
      hide At, RowsAfter, ApplyRecords, PersistReceipt, ValidManifest;
      var open, left := OpenRun(t), if t.run.None? then lives - 1 else lives;
      AtNext(open, start, records, n);
      if open.run.value.status.Completed? {
        AtRows(open, start, records, n);
      } else {
        m := RunBatchReaches(open, start, records, n, limit, left);
        CallIsRunBatch(t, records, limit, lives);
      }
    }
  }

  function Sum(attempts: seq<Attempt>): int
    decreases |attempts|
  {
    if attempts == [] then 0 else attempts[0].limit + Sum(attempts[1..])
  }

  lemma {:induction false} SumPositive(attempts: seq<Attempt>)
    requires forall i :: 0 <= i < |attempts| ==> attempts[i].limit > 0
    ensures Sum(attempts) >= 0 && (attempts != [] ==> Sum(attempts) > 0)
    decreases |attempts|
  {
    if attempts != [] { SumPositive(attempts[1..]); }
  }

  lemma ReachedRows(t: Tables, start: Tables, records: seq<Record>, n: nat)
    requires Reached(t, start, records, n)
    ensures n <= |records| && RowsAfter(start.rows, records, n).Some?
  {
    hide At;
    if n > 0 || t != start { AtRows(t, start, records, n); }
  }

  /** Nothing gets past where an import rests. */
  lemma RestIsLast(rows: Rows, records: seq<Record>, i: nat, m: nat)
    requires RestsAt(rows, records, i) && i <= m <= |records| && RowsAfter(rows, records, m).Some?
    ensures m == i
  {
    hide RowsAfter;
    if i < m { RowsBefore(rows, records, i + 1, m); }
  }

  /** Calls with positive limits whose processes live: from record n they arrive at n plus the sum of their limits, or at the end,
      if every record up to there applies; otherwise at the first record that fails. */
  lemma {:induction false} LimitsAddUp(t: Tables, start: Tables, records: seq<Record>, n: nat, attempts: seq<Attempt>) returns (m: nat)
    requires Unstarted(start) && ValidManifest(records) && Reached(t, start, records, n)
    requires forall i :: 0 <= i < |attempts| ==> attempts[i].limit > 0 && attempts[i].lives > |records|
    ensures Reached(Attempts(t, records, attempts), start, records, m)
    ensures var goal := if n + Sum(attempts) < |records| then n + Sum(attempts) else |records|;
            n <= m <= goal && (m == goal || RestsAt(start.rows, records, m))
    decreases |attempts|
  {
    hide Reached, ApplyCall, ValidManifest, At, RowsAfter, RestsAt;
    ReachedRows(t, start, records, n);
    m := n;
    if attempts != [] {
      var i := ApplyCallReaches(t, start, records, n, attempts[0].limit, attempts[0].lives);
      m := LimitsAddUp(ApplyCall(t, records, attempts[0].limit, attempts[0].lives), start, records, i, attempts[1..]);
      ReachedRows(Attempts(t, records, attempts), start, records, m);
      SumPositive(attempts[1..]);
      if i != Target(n, attempts[0].limit, |records|) { RestIsLast(start.rows, records, i, m); }
    }
  }

  /** So a record that fails stops every call at it, and where none fails up to the sum of the limits, exactly so many records are
      applied: rows, journal, ledger and counters are those of that many. */
  lemma PausesExactly(start: Tables, records: seq<Record>, attempts: seq<Attempt>)
    requires Unstarted(start) && ValidManifest(records) && attempts != []
    requires forall i :: 0 <= i < |attempts| ==> attempts[i].limit > 0 && attempts[i].lives > |records|
    ensures var goal := if Sum(attempts) < |records| then Sum(attempts) else |records|;
            var end := Attempts(start, records, attempts);
            && end.run.Some? && 0 <= end.run.value.next <= goal
            && At(end, start, records, end.run.value.next)
            && (RowsAfter(start.rows, records, goal).Some? ==> end.run.value.next == goal)
            && (RowsAfter(start.rows, records, goal).None? ==> RestsAt(start.rows, records, end.run.value.next))
            && (end.run.value.status.Completed? <==> goal == |records| && RowsAfter(start.rows, records, goal).Some?)
  {
    hide ApplyCall, ValidManifest, At, RowsAfter;
    SumPositive(attempts);
    var m := LimitsAddUp(start, start, records, 0, attempts);
    var goal := if Sum(attempts) < |records| then Sum(attempts) else |records|;
    var end := Attempts(start, records, attempts);
    StartedAt(start, start, records, 0, attempts);
    ReachedRows(end, start, records, m);
    AtNext(end, start, records, m);
    if RowsAfter(start.rows, records, goal).Some? && m != goal { RestIsLast(start.rows, records, m, goal); }
  }

  /** One call that lives opens the run. */
  lemma {:induction false} StartedAt(t: Tables, start: Tables, records: seq<Record>, n: nat, attempts: seq<Attempt>)
    requires Unstarted(start) && ValidManifest(records) && Reached(t, start, records, n)
    requires t.run.Some? || (attempts != [] && attempts[0].lives > |records|)
    ensures Attempts(t, records, attempts).run.Some?
    decreases |attempts|
  {
    hide Reached, ApplyCall, ValidManifest, At;
    if attempts != [] {
      var i := ApplyCallReaches(t, start, records, n, attempts[0].limit, attempts[0].lives);
      CallOpens(t, records, attempts[0].limit, attempts[0].lives);
      StartedAt(ApplyCall(t, records, attempts[0].limit, attempts[0].lives), start, records, i, attempts[1..]);
    }
  }

  lemma CallOpens(t: Tables, records: seq<Record>, limit: int, lives: nat)
    requires ValidManifest(records) && (t.run.Some? || lives > 0)
    ensures ApplyCall(t, records, limit, lives).run.Some?
  {
    hide ValidManifest, ApplyRecords, Batch;
  }

  lemma OpenAt(t: Tables, start: Tables, records: seq<Record>, n: nat)
    requires Unstarted(start) && ValidManifest(records) && Reached(t, start, records, n)
    ensures At(OpenRun(t), start, records, n)
  {
    if t.run.None? { OpenedAt(start, records); }
  }

  /** One call of the apply, and how long its process lives. */
  datatype Attempt = Attempt(limit: int, lives: nat)

  function Attempts(t: Tables, records: seq<Record>, attempts: seq<Attempt>): Tables
    decreases |attempts|
  {
    if attempts == [] then t
    else Attempts(ApplyCall(t, records, attempts[0].limit, attempts[0].lives), records, attempts[1..])
  }

  lemma {:induction false} AttemptsReach(t: Tables, start: Tables, records: seq<Record>, n: nat, attempts: seq<Attempt>) returns (m: nat)
    requires Unstarted(start) && ValidManifest(records) && Reached(t, start, records, n)
    ensures n <= m && Reached(Attempts(t, records, attempts), start, records, m)
    decreases |attempts|
  {
    hide Reached, ApplyCall, ValidManifest;
    m := n;
    if attempts != [] {
      var i := ApplyCallReaches(t, start, records, n, attempts[0].limit, attempts[0].lives);
      m := AttemptsReach(ApplyCall(t, records, attempts[0].limit, attempts[0].lives), start, records, i, attempts[1..]);
    }
  }

  /** The tables and counters two imports ended with, receipts aside. */
  predicate SameEnd(t: Tables, u: Tables) {
    && t.rows == u.rows && t.journal == u.journal && t.ledger == u.ledger && t.run.Some? && u.run.Some?
    && t.run.value.(receipt := u.run.value.receipt) == u.run.value
  }

  lemma AtUnique(t: Tables, u: Tables, start: Tables, records: seq<Record>, m: nat)
    requires At(t, start, records, m) && At(u, start, records, m)
    ensures SameEnd(t, u)
  {
    hide RowsAfter, JournalAfter, LedgerAfter, CountCreated, CountReconciled;
  }

  /** Batch and crash independence: however an import is cut into calls, wherever their processes die, and whether or not some
      record fails, one more uninterrupted call ends in the same tables, status and counters as a single full run. Both come to
      rest at the first failing record, and are completed if and only if there is none. */
  lemma BatchesAndCrashesDoNotMatter(start: Tables, records: seq<Record>, attempts: seq<Attempt>, lives: nat)
    requires Unstarted(start) && ValidManifest(records) && lives > |records|
    ensures var full := ApplyCall(start, records, 0, lives);
            var pieces := ApplyCall(Attempts(start, records, attempts), records, 0, lives);
            && SameEnd(full, pieces)
            && RestsAt(start.rows, records, full.run.value.next)
            && (full.run.value.status.Completed? <==> RowsAfter(start.rows, records, |records|).Some?)
  {
    hide At, ApplyCall, Attempts, RowsAfter, ValidManifest;
    var full := ApplyCall(start, records, 0, lives);
    var pieces := ApplyCall(Attempts(start, records, attempts), records, 0, lives);
    var n := ApplyCallReaches(start, start, records, 0, 0, lives);
    var i := AttemptsReach(start, start, records, 0, attempts);
    var m := ApplyCallReaches(Attempts(start, records, attempts), start, records, i, 0, lives);
    RestsAtOnePlace(start.rows, records, n, m);
    AtUnique(full, pieces, start, records, m);
    AtNext(full, start, records, m);
    if RowsAfter(start.rows, records, |records|).Some? && m < |records| { RowsBefore(start.rows, records, m + 1, |records|); }
  }

  // ----- the stored receipt -----

  lemma {:induction false} ProgressClearsSkipped(t: Tables, records: seq<Record>, count: nat)
    requires t.run.Some?
    ensures var (done, _) := ApplyRecords(t, records, count);
            done.run.Some? && (done.run.value.next != t.run.value.next ==> done.run.value.receipt.skipped == 0)
    ensures ApplyRecords(t, records, count).0.run.value.next >= t.run.value.next
    ensures ApplyRecords(t, records, count).0.run.value.next == t.run.value.next ==> ApplyRecords(t, records, count).0 == t
    decreases count
  {
    hide ApplyRow;
    if count > 0 && t.run.value.next < |records| && ApplyRecord(t, records).Ok? {
      var next := ApplyRecord(t, records).value;
      ProgressClearsSkipped(next, records, count - 1);
    }
  }

  lemma RunBatchReceipt(open: Tables, start: Tables, records: seq<Record>, n: nat, limit: int, left: nat)
    requires At(open, start, records, n) && open.run.Some? && n < |records|
    requires At(RunBatch(open, records, limit, left), start, records, |records|)
    ensures var done := RunBatch(open, records, limit, left);
            done.run.Some? && (done.run.value.receipt.skipped == done.run.value.reconciled <==> left > |records| - n || done.run.value.reconciled == 0)
  {
    hide At, RowsAfter, ApplyRecords, PersistReceipt;
    AtNext(open, start, records, n);
    AtNext(RunBatch(open, records, limit, left), start, records, |records|);
    var batch := Batch(open.run.value, records, limit);
    var count := if left < batch then left else batch;
    var m := ApplyRecordsAt(open, start, records, n, count);
    ProgressClearsSkipped(open, records, count);
    var done := ApplyRecords(open, records, count).0;
    AtNext(done, start, records, m);
    if m > 0 {
      PersistedAt(done, start, records, m);
      AtNext(PersistReceipt(done, records), start, records, m);
    }
    PersistedSkipped(done, start, records, m);
  }

  lemma CompletedStays(done: Tables, start: Tables, records: seq<Record>, limit: int, lives: nat)
    requires At(done, start, records, |records|)
    ensures ApplyCall(done, records, limit, lives) == done
  {
    hide At;
    AtNext(done, start, records, |records|);
  }

  /** The receipt a status query reads: when a call applies the last record, the stored receipt's skipped count is right
      exactly if the process lived to persist the receipt, or nothing was reconciled. No later apply repairs it. */
  lemma ReceiptCompleteIff(t: Tables, start: Tables, records: seq<Record>, n: nat, limit: int, lives: nat)
    requires Unstarted(start) && ValidManifest(records) && Reached(t, start, records, n) && n < |records|
    requires At(ApplyCall(t, records, limit, lives), start, records, |records|)
    ensures var done := ApplyCall(t, records, limit, lives);
            var left := if t.run.None? then lives - 1 else lives;
            && (done.run.value.receipt.skipped == done.run.value.reconciled <==> left > |records| - n || done.run.value.reconciled == 0)
            && forall l, v :: ApplyCall(done, records, l, v) == done
  {
    OpenAt(t, start, records, n);
    hide At, RunBatch, ValidManifest;
    var done := ApplyCall(t, records, limit, lives);
    AtNext(done, start, records, |records|);
    AtNext(OpenRun(t), start, records, n);
    CallIsRunBatch(t, records, limit, lives);
    RunBatchReceipt(OpenRun(t), start, records, n, limit, if t.run.None? then lives - 1 else lives);
    hide ApplyCall;
    forall l, v
      ensures ApplyCall(done, records, l, v) == done
    {
      CompletedStays(done, start, records, l, v);
    }
  }

  lemma CallIsRunBatch(t: Tables, records: seq<Record>, limit: int, lives: nat)
    requires ValidManifest(records) && (t.run.Some? || lives > 0)
    requires var status := OpenRun(t).run.value.status; !status.RolledBack? && !status.Completed?
    ensures ApplyCall(t, records, limit, lives) == RunBatch(OpenRun(t), records, limit, if t.run.None? then lives - 1 else lives)
  {
    hide ApplyRecords, PersistReceipt, ValidManifest;
  }

  lemma PersistedSkipped(t: Tables, start: Tables, records: seq<Record>, n: nat)
    requires At(t, start, records, n) && t.run.Some?
    ensures PersistReceipt(t, records).run.Some? && PersistReceipt(t, records).run.value.reconciled == t.run.value.reconciled
    ensures PersistReceipt(t, records).run.value.receipt.skipped == t.run.value.reconciled
  {
    hide RowsAfter, JournalAfter, LedgerAfter, CountCreated, CountReconciled;
  }

  // ----- rollback -----

  /** No foreign key dangles. */
  predicate NoDangling(rows: Rows) {
    forall k :: k in rows ==> References(rows[k]) <= rows.Keys
  }

  lemma {:induction false} RowsAfterReferences(rows: Rows, records: seq<Record>, n: nat)
    requires n <= |records| && NoDangling(rows) && RowsAfter(rows, records, n).Some?
    ensures NoDangling(RowsAfter(rows, records, n).value)
    decreases n
  {
    if n > 0 {
      RowsAfterReferences(rows, records, n - 1);
      var before := RowsAfter(rows, records, n - 1).value;
      AppliedReferences(before, records[n - 1]);
    }
  }

  lemma AppliedReferences(rows: Rows, r: Record)
    requires NoDangling(rows) && ApplyRow(rows, r).Ok?
    ensures NoDangling(ApplyRow(rows, r).value.0)
  {
    hide References, SlotsFree, ActorsKnown, Matches, PayloadFits, Stored;
  }

  /** With records below `b` still in place and those from `b` on compensated: the canonical rows are those after `b` records. */
  ghost predicate RolledTo(t: Tables, start: Tables, records: seq<Record>, n: nat, b: nat) {
    && b <= n <= |records|
    && t.run.Some? && !t.run.value.status.RolledBack? && t.run.value.next == n
    && RowsAfter(start.rows, records, n).Some?
    && RowsAfter(start.rows, records, b) == Some(t.rows)
    && t.journal == start.journal + JournalAfter(start.rows, records, n)
    && LedgerRolled(t.ledger, start.rows, records, n, b)
  }

  ghost predicate LedgerRolled(ledger: seq<LedgerRow>, rows: Rows, records: seq<Record>, n: nat, b: nat)
    requires b <= n <= |records|
  {
    && |ledger| == n
    && forall j :: 0 <= j < n ==>
         && ledger[j].key == records[j].key && (ledger[j].createdByImport <==> CreatedAt(rows, records, j))
         && (ledger[j].createdByImport ==> (ledger[j].compensated <==> j >= b))
  }

  lemma {:induction false} LedgerShape(rows: Rows, records: seq<Record>, n: nat)
    requires n <= |records|
    ensures LedgerRolled(LedgerAfter(rows, records, n), rows, records, n, n)
    decreases n
  {
    hide CreatedAt;
    if n > 0 { LedgerShape(rows, records, n - 1); }
  }

  lemma AppliedIsRolledNowhere(t: Tables, start: Tables, records: seq<Record>, n: nat)
    requires At(t, start, records, n)
    ensures RolledTo(t, start, records, n, n)
  {
    hide RowsAfter, JournalAfter, CountCreated, CountReconciled;
    LedgerShape(start.rows, records, n);
  }

  /** Records that were only reconciled leave the rows as they were. */
  lemma {:induction false} NothingCreatedBetween(rows: Rows, records: seq<Record>, i: nat, b: nat)
    requires i <= b <= |records| && RowsAfter(rows, records, b).Some?
    requires forall j :: i <= j < b ==> !CreatedAt(rows, records, j)
    ensures RowsAfter(rows, records, i) == RowsAfter(rows, records, b)
    decreases b
  {
    hide ApplyRow;
    if i < b {
      NothingCreatedBetween(rows, records, i, b - 1);
      assert !CreatedAt(rows, records, b - 1);
      ApplyRowCreates(RowsAfter(rows, records, b - 1).value, records[b - 1]);
    }
  }

  /** Deleting the last created record never meets a foreign key, and takes the rows back to before it. */
  lemma DeleteUndoesCreate(rows: Rows, records: seq<Record>, i: nat)
    requires i < |records| && NoDangling(rows) && RowsAfter(rows, records, i + 1).Some? && CreatedAt(rows, records, i)
    ensures DeleteRow(RowsAfter(rows, records, i + 1).value, records[i].key) == Ok(RowsAfter(rows, records, i).value)
  {
    RowsAfterReferences(rows, records, i);
    CreateThenDelete(RowsAfter(rows, records, i).value, records[i]);
  }

  lemma CreateThenDelete(rows: Rows, r: Record)
    requires NoDangling(rows) && r.key !in rows && ApplyRow(rows, r).Ok?
    ensures DeleteRow(ApplyRow(rows, r).value.0, r.key) == Ok(rows)
  {
    hide References, SlotsFree, ActorsKnown, Matches, PayloadFits, Stored;
    var after := ApplyRow(rows, r).value.0;
    assert after == rows[r.key := Stored(r.payload)];
    assert References(Stored(r.payload)) <= rows.Keys;
    forall j | j in after
      ensures r.key !in References(after[j])
    {
      if j != r.key { assert References(rows[j]) <= rows.Keys; }
    }
    assert after - {r.key} == rows;
  }

  lemma CompensatedLedger(ledger: seq<LedgerRow>, rows: Rows, records: seq<Record>, n: nat, b: nat, i: nat)
    requires b <= n <= |records| && LedgerRolled(ledger, rows, records, n, b)
    requires i < b && ToCompensate(ledger[i]) && forall j :: i < j < b ==> !ToCompensate(ledger[j])
    ensures LedgerRolled(ledger[i := ledger[i].(compensated := true, outcome := WasRolledBack)], rows, records, n, i)
  {
    hide CreatedAt;
  }

  /** Compensation moves the boundary down; with enough lives it reaches the start. */
  lemma {:induction false} CompensateRolls(t: Tables, start: Tables, records: seq<Record>, n: nat, b: nat, bound: nat, lives: nat) returns (c: nat)
    requires NoDangling(start.rows) && RolledTo(t, start, records, n, b) && b <= bound <= |t.ledger|
    ensures var (done, error, left) := CompensateAll(t, bound, lives);
            && error.None? && RolledTo(done, start, records, n, c) && c <= b
            && done.run == t.run
            && (left > 0 ==> done.rows == start.rows)
            && (lives > bound ==> left > 0)
    decreases bound
  {
    hide CreatedAt, DeleteRow, ApplyRow;
    c := b;
    var last := LastToCompensate(t.ledger, bound);
    match last {
      case None =>
        NothingCreatedBetween(start.rows, records, 0, b);
      case Some(i) =>
        if lives > 0 {
          RolledRow(t, start, records, n, b, i);
          var next := Compensated(t.(rows := RowsAfter(start.rows, records, i).value), i);
          c := CompensateRolls(next, start, records, n, i, i, lives - 1);
        }
    }
  }

  lemma RolledRow(t: Tables, start: Tables, records: seq<Record>, n: nat, b: nat, i: nat)
    requires NoDangling(start.rows) && RolledTo(t, start, records, n, b)
    requires i < |t.ledger| && ToCompensate(t.ledger[i]) && forall j :: i < j < b ==> !ToCompensate(t.ledger[j])
    ensures i < b && RowsAfter(start.rows, records, i).Some?
    ensures DeleteRow(t.rows, t.ledger[i].key) == Ok(RowsAfter(start.rows, records, i).value)
    ensures RolledTo(Compensated(t.(rows := RowsAfter(start.rows, records, i).value), i), start, records, n, i)
  {
    hide CreatedAt, DeleteRow, ApplyRow, NoDangling, JournalAfter;
    RowsBefore(start.rows, records, i + 1, b);
    RowsBefore(start.rows, records, i, b);
    NothingCreatedBetween(start.rows, records, i + 1, b);
    DeleteUndoesCreate(start.rows, records, i);
    CompensatedLedger(t.ledger, start.rows, records, n, b, i);
  }

  function Rollbacks(t: Tables, lives: seq<nat>): Tables
    decreases |lives|
  {
    if lives == [] then t else Rollbacks(RollbackCall(t, lives[0]), lives[1..])
  }

  /** The rollback is complete: the canonical rows are the ones before the import, while the journal and ledger remain. */
  ghost predicate Restored(t: Tables, start: Tables, records: seq<Record>, n: nat)
    requires n <= |records|
  {
    && t.run.Some? && t.run.value.status.RolledBack? && t.rows == start.rows
    && t.journal == start.journal + JournalAfter(start.rows, records, n)
    && |t.ledger| == n
    && forall j :: 0 <= j < n ==>
         && t.ledger[j].key == records[j].key && (t.ledger[j].createdByImport <==> CreatedAt(start.rows, records, j))
         && (t.ledger[j].createdByImport ==> t.ledger[j].compensated)
  }

  ghost predicate Rolling(t: Tables, start: Tables, records: seq<Record>, n: nat, b: nat)
    requires n <= |records|
  {
    RolledTo(t, start, records, n, b) || Restored(t, start, records, n)
  }

  lemma RollbackCallRolls(t: Tables, start: Tables, records: seq<Record>, n: nat, b: nat, lives: nat) returns (c: nat)
    requires n <= |records| && NoDangling(start.rows) && Rolling(t, start, records, n, b)
    ensures Rolling(RollbackCall(t, lives), start, records, n, c)
    ensures lives > n ==> Restored(RollbackCall(t, lives), start, records, n)
  {
    hide CreatedAt, NoDangling, RowsAfter, JournalAfter, CompensateAll, CountReconciled;
    c := b;
    if RolledTo(t, start, records, n, b) {
      c := CompensateRolls(t, start, records, n, b, |t.ledger|, lives);
      var (done, error, left) := CompensateAll(t, |t.ledger|, lives);
      if left > 0 { AllCompensated(t, start, records, n, lives); }
    }
  }

  /** A compensation that ran out of work left nothing to compensate. */
  lemma {:induction false} CompensateFinishes(t: Tables, bound: nat, lives: nat)
    requires bound <= |t.ledger|
    requires forall j :: bound <= j < |t.ledger| ==> !ToCompensate(t.ledger[j])
    ensures var (done, error, left) := CompensateAll(t, bound, lives);
            error.None? && left > 0 ==> forall j :: 0 <= j < |done.ledger| ==> !ToCompensate(done.ledger[j])
    decreases bound
  {
    hide DeleteRow;
    var last := LastToCompensate(t.ledger, bound);
    if last.Some? && lives > 0 && DeleteRow(t.rows, t.ledger[last.value].key).Ok? {
      var i := last.value;
      CompensateFinishes(Compensated(t.(rows := DeleteRow(t.rows, t.ledger[i].key).value), i), i, lives - 1);
    }
  }

  lemma AllCompensated(t: Tables, start: Tables, records: seq<Record>, n: nat, lives: nat)
    ensures var (done, error, left) := CompensateAll(t, |t.ledger|, lives);
            error.None? && left > 0 ==> forall j :: 0 <= j < |done.ledger| && done.ledger[j].createdByImport ==> done.ledger[j].compensated
  {
    hide CompensateAll;
    CompensateFinishes(t, |t.ledger|, lives);
    var (done, error, left) := CompensateAll(t, |t.ledger|, lives);
    assert forall j :: 0 <= j < |done.ledger| && !ToCompensate(done.ledger[j]) && done.ledger[j].createdByImport ==> done.ledger[j].compensated;
  }

  lemma {:induction false} RollbacksRoll(t: Tables, start: Tables, records: seq<Record>, n: nat, b: nat, deaths: seq<nat>) returns (c: nat)
    requires n <= |records| && NoDangling(start.rows) && Rolling(t, start, records, n, b)
    ensures Rolling(Rollbacks(t, deaths), start, records, n, c)
    decreases |deaths|
  {
    hide Rolling, RollbackCall, NoDangling;
    c := b;
    if deaths != [] {
      c := RollbackCallRolls(t, start, records, n, b, deaths[0]);
      c := RollbacksRoll(RollbackCall(t, deaths[0]), start, records, n, c, deaths[1..]);
    }
  }

  /** Rollback inverts apply: after any prefix of an import, and any number of rollbacks that died part way, a rollback that
      lives long enough restores the canonical rows exactly. It is never refused, and running it again changes nothing. */
  lemma RollbackInvertsApply(t: Tables, start: Tables, records: seq<Record>, n: nat, deaths: seq<nat>, lives: nat)
    requires NoDangling(start.rows) && At(t, start, records, n) && lives > n
    ensures n <= |records| && Restored(RollbackCall(Rollbacks(t, deaths), lives), start, records, n)
    ensures forall v :: RollbackCall(RollbackCall(Rollbacks(t, deaths), lives), v) == RollbackCall(Rollbacks(t, deaths), lives)
  {
    hide Rollbacks, NoDangling, RolledTo, CreatedAt, JournalAfter, CompensateAll, At;
    AtNext(t, start, records, n);
    AppliedIsRolledNowhere(t, start, records, n);
    var c := RollbacksRoll(t, start, records, n, n, deaths);
    var d := RollbackCallRolls(Rollbacks(t, deaths), start, records, n, c, lives);
  }

  // ----- importing the same records again -----

  /** A row made from a payload matches it again exactly if the payload was already trimmed. */
  lemma StoredMatchesIff(p: Payload)
    ensures Matches(Stored(p), p) <==> Trimmed(p)
  {
  }

  /** Where a record's row stands after the whole import. */
  lemma {:induction false} RowKept(rows: Rows, records: seq<Record>, i: nat, n: nat)
    requires i < n <= |records| && ValidManifest(records) && RowsAfter(rows, records, n).Some?
    ensures RowsAfter(rows, records, i + 1).Some? && records[i].key in RowsAfter(rows, records, i + 1).value
    ensures records[i].key in RowsAfter(rows, records, n).value
    ensures RowsAfter(rows, records, n).value[records[i].key] == RowsAfter(rows, records, i + 1).value[records[i].key]
    decreases n
  {
    hide ApplyRow;
    assert forall j :: 0 <= j < |records| && j != i ==> records[j].key != records[i].key;
    if RowsAfter(rows, records, n - 1).Some? {
      ApplyRowCreates(RowsAfter(rows, records, n - 1).value, records[n - 1]);
      if i < n - 1 { RowKept(rows, records, i, n - 1); }
    }
  }

  /** Against the imported rows, a record reconciles exactly if it was there before, or is trimmed. */
  lemma ReappliesIff(rows: Rows, records: seq<Record>, i: nat)
    requires i < |records| && ValidManifest(records) && RowsAfter(rows, records, |records|).Some?
    ensures var final := RowsAfter(rows, records, |records|).value;
            if CreatedAt(rows, records, i) ==> Trimmed(records[i].payload) then ApplyRow(final, records[i]) == Ok((final, false))
            else ApplyRow(final, records[i]) == Err(RecordConflict)
  {
    RowKept(rows, records, i, |records|);
    RowsBefore(rows, records, i, |records|);
    StoredMatchesIff(records[i].payload);
    hide Matches, Trimmed, Stored, ActorsKnown, References, SlotsFree, PayloadFits, ValidManifest;
    var before := RowsAfter(rows, records, i).value;
    assert ApplyRow(before, records[i]).Ok?;
    hide RowsAfter;
    ApplyRowCreates(before, records[i]);
  }

  lemma {:induction false} ReimportPrefix(rows: Rows, final: Rows, records: seq<Record>, n: nat)
    requires n <= |records| && ValidManifest(records) && RowsAfter(rows, records, |records|) == Some(final)
    ensures (forall i :: 0 <= i < n && CreatedAt(rows, records, i) ==> Trimmed(records[i].payload)) <==> RowsAfter(final, records, n).Some?
    ensures RowsAfter(final, records, n).Some? ==> RowsAfter(final, records, n).value == final && JournalAfter(final, records, n) == []
    decreases n
  {
    hide ApplyRow, CreatedAt, Trimmed, ValidManifest;
    if n > 0 {
      ReimportPrefix(rows, final, records, n - 1);
      ReappliesIff(rows, records, n - 1);
      if RowsAfter(final, records, n - 1).Some? { NotCreatedAgain(rows, final, records, n - 1); }
    }
  }

  lemma NotCreatedAgain(rows: Rows, final: Rows, records: seq<Record>, i: nat)
    requires i < |records| && ValidManifest(records) && RowsAfter(rows, records, |records|) == Some(final)
    requires RowsAfter(final, records, i) == Some(final)
    ensures !CreatedAt(final, records, i)
  {
    RowKept(rows, records, i, |records|);
  }

  /** Importing the same records under a new manifest succeeds if and only if every record the first import created was
      trimmed; then it changes no row and creates nothing. Otherwise it stops with a conflict. */
  lemma ReimportCreatesNothingIff(start: Tables, records: seq<Record>)
    requires ValidManifest(records) && RowsAfter(start.rows, records, |records|).Some?
    ensures var final := RowsAfter(start.rows, records, |records|).value;
            && ((forall i :: 0 <= i < |records| && CreatedAt(start.rows, records, i) ==> Trimmed(records[i].payload)) <==>
                RowsAfter(final, records, |records|).Some?)
            && (RowsAfter(final, records, |records|).Some? ==>
                  RowsAfter(final, records, |records|).value == final && JournalAfter(final, records, |records|) == [])
  {
    ReimportPrefix(start.rows, RowsAfter(start.rows, records, |records|).value, records, |records|);
  }

  // ----- the create policy -----

  predicate Creates(rows: Rows, r: Record) {
    ApplyRow(rows, r).Ok? && ApplyRow(rows, r).value.1
  }

  /** A record that says `reconcile_only`, up to padding, is created in a state if and only if it is padded and the state would
      create the same record under `create_or_reconcile`. */
  lemma ReconcileOnlyCreatesIff(rows: Rows, r: Record)
    requires Trim(r.createPolicy) == "reconcile_only"
    ensures Creates(rows, r) <==> r.createPolicy != "reconcile_only" && Creates(rows, r.(createPolicy := "create_or_reconcile"))
    ensures Creates(rows, r) ==> ApplyRow(rows, r) == ApplyRow(rows, r.(createPolicy := "create_or_reconcile"))
  {
    hide Matches, ActorsKnown, References, Stored, SlotsFree, Trim;
  }

  /** So some state creates it if and only if it is padded, and some state would create it without the restriction. */
  lemma ReconcileOnlyEverCreatedIff(r: Record)
    requires Trim(r.createPolicy) == "reconcile_only"
    ensures (exists rows :: Creates(rows, r)) <==>
            r.createPolicy != "reconcile_only" && exists rows :: Creates(rows, r.(createPolicy := "create_or_reconcile"))
  {
    hide Creates, Trim;
    if rows :| Creates(rows, r) { ReconcileOnlyCreatesIff(rows, r); }
    if r.createPolicy != "reconcile_only" {
      if rows :| Creates(rows, r.(createPolicy := "create_or_reconcile")) { ReconcileOnlyCreatesIff(rows, r); }
    }
  }

  const WHEN := "2026-01-01T00:00:00Z"

  const PADDED_POLICY: Record :=
    Record(RowKey(UserEntity, "usr_a"), User("a@b", "A", true, WHEN), " reconcile_only", true, true)

  /** The input that shows it: a manifest of one user record with a leading space in its policy is valid, and creates the user. */
  lemma PaddedPolicyCreates()
    ensures ValidManifest([PADDED_POLICY])
    ensures Trim(PADDED_POLICY.createPolicy) == "reconcile_only" && Creates(map[], PADDED_POLICY)
  {
    PaddedPolicyTrims();
    hide Trim;
  }

  lemma PaddedPolicyTrims()
    ensures Trim(" reconcile_only") == "reconcile_only" && Trim("a@b") == "a@b" && Trim("A") == "A"
  {
    assert TrimLeft(" reconcile_only") == TrimLeft("reconcile_only");
    assert TrimRight("reconcile_only") == "reconcile_only";
  }

  // ----- concrete imports -----

  const FOUNDER: Rows := map[RowKey(UserEntity, "usr_a") := User("a@b", "A", true, WHEN)]

  const SPACED: Record :=
    Record(RowKey(OrganisationEntity, "org_1"), Organisation(" One", "active", WHEN, "", "usr_a"), "create_or_reconcile", true, true)

  /** The input that shows it: an organisation imported under a name with a leading space conflicts with its own row. */
  lemma SpacedNameConflicts()
    ensures ValidManifest([SPACED])
    ensures RowsAfter(FOUNDER, [SPACED], 1).Some?
    ensures RowsAfter(RowsAfter(FOUNDER, [SPACED], 1).value, [SPACED], 1).None?
  {
    assert Trim("usr_a") == "usr_a" && Trim("create_or_reconcile") == "create_or_reconcile";
    assert SPACED.key !in FOUNDER && RowsAfter(FOUNDER, [SPACED], 0) == Some(FOUNDER);
    assert [SPACED][0] == SPACED;
    assert ActorKnown(FOUNDER, "usr_a");
    assert Trim(" One") == TrimRight(TrimLeft("One")) == "One";
    var final := FOUNDER[SPACED.key := Stored(SPACED.payload)];
    assert RowsAfter(FOUNDER, [SPACED], 1) == Some(final);
    assert RowsAfter(final, [SPACED], 0) == Some(final);
  }

  const SAME_USER: Record :=
    Record(RowKey(UserEntity, "usr_a"), User("a@b", "A", true, WHEN), "create_or_reconcile", true, true)

  /** The input that shows the receipt's loss: one user already there, and a process that dies after its record's transaction.
      The run is completed with one record reconciled, and the stored receipt says that none was. */
  lemma CrashLosesSkipped()
    ensures ValidManifest([SAME_USER])
    ensures var t := ApplyCall(Tables(FOUNDER, [], None, []), [SAME_USER], 0, 2);
            t.run.Some? && t.run.value.status.Completed? && t.run.value.reconciled == 1 && t.run.value.receipt.skipped == 0
  {
    hide Trim, Lower, ApplyRow;
    SameUserReconciles();
    var start := Tables(FOUNDER, [], None, []);
    var open := OpenRun(start);
    var t := ApplyRecord(open, [SAME_USER]).value;
    assert t.run.value.next == 1 && ApplyRecords(t, [SAME_USER], 0) == (t, None);
    assert ApplyRecords(open, [SAME_USER], 1) == (t, None);
  }

  lemma SameUserReconciles()
    ensures ApplyRow(FOUNDER, SAME_USER) == Ok((FOUNDER, false)) && KnownPolicy(SAME_USER)
  {
    assert Trim("create_or_reconcile") == "create_or_reconcile";
    assert Trim("a@b") == "a@b" && Trim("A") == "A" && Lower("a@b") == "a@b";
  }
}
