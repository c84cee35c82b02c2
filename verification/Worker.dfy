/** The periodic sweeps: redispatch of queued jobs and recovery of expired leases, over the job table in
    order of creation. */
module Worker {
  import opened Domain
  import opened Jobs
  import opened ImportJobs

  ghost predicate DistinctJobs(table: seq<ImportJob>) {
    forall i, j :: 0 <= i < j < |table| ==> table[i] != table[j]
  }

  ghost function Rows(table: seq<ImportJob>): seq<Job>
    reads table
  {
    seq(|table|, i requires 0 <= i < |table| reads table => table[i].Row())
  }

  // ------------------------------------------------------------------- dispatch

  const DISPATCH_LIMIT: nat := 100

  /** The due jobs with an id below `n`, oldest first. */
  function DueBelow(s: Settings, rows: seq<Job>, now: Time, n: nat): seq<JobId>
    requires n <= |rows|
  {
    if n == 0 then []
    else DueBelow(s, rows, now, n - 1) + (if DueForDispatch(s, rows[n - 1], now) then [n - 1] else [])
  }

  /** The dispatch query: the oldest due jobs, up to the limit. */
  function JobsDueForDispatch(s: Settings, rows: seq<Job>, now: Time): seq<JobId> {
    var due := DueBelow(s, rows, now, |rows|);
    if |due| <= DISPATCH_LIMIT then due else due[..DISPATCH_LIMIT]
  }

  /** The table after a sweep, when `broker` accepts some of the messages. */
  ghost function AfterDispatch(s: Settings, rows: seq<Job>, now: Time, broker: JobId -> bool): seq<Job> {
    seq(|rows|, i requires 0 <= i < |rows| =>
      if i in JobsDueForDispatch(s, rows, now) && broker(i) then Dispatched(rows[i], now) else rows[i])
  }

  /** The due list is exactly the due jobs, in order, without repetition. */
  lemma {:induction false} DueBelowIsDue(s: Settings, rows: seq<Job>, now: Time, n: nat)
    requires n <= |rows|
    ensures forall id: JobId :: id in DueBelow(s, rows, now, n) <==> id < n && DueForDispatch(s, rows[id], now)
    ensures forall i, j :: 0 <= i < j < |DueBelow(s, rows, now, n)| ==>
              DueBelow(s, rows, now, n)[i] < DueBelow(s, rows, now, n)[j]
  {
    if n > 0 {
      DueBelowIsDue(s, rows, now, n - 1);
      var before := DueBelow(s, rows, now, n - 1);
      assert forall i :: 0 <= i < |before| ==> before[i] in before;
    }
  }

  /** How many of the first `n` messages the broker accepts. */
  function SentCount(ids: seq<JobId>, broker: JobId -> bool, n: nat): nat
    requires n <= |ids|
  {
    if n == 0 then 0 else SentCount(ids, broker, n - 1) + (if broker(ids[n - 1]) then 1 else 0)
  }

  ghost predicate Valid(ids: seq<JobId>, rows: seq<Job>) {
    forall k :: 0 <= k < |ids| ==> ids[k] < |rows|
  }

  /** The rows after the receipts of the first `n` messages, written one by one. */
  ghost function Receipts(rows: seq<Job>, ids: seq<JobId>, now: Time, broker: JobId -> bool, n: nat): (marked: seq<Job>)
    requires n <= |ids| && Valid(ids, rows)
    ensures |marked| == |rows|
  {
    if n == 0 then rows
    else
      var before := Receipts(rows, ids, now, broker, n - 1);
      var id := ids[n - 1];
      if broker(id) then before[id := MarkDispatched(before[id], now)] else before
  }

  /** One receipt per published job, none elsewhere: the sweep as a whole is `AfterDispatch`. */
  lemma {:induction false} ReceiptsAt(s: Settings, rows: seq<Job>, now: Time, broker: JobId -> bool, n: nat, i: nat)
    requires n <= |JobsDueForDispatch(s, rows, now)| && Valid(JobsDueForDispatch(s, rows, now), rows) && i < |rows|
    ensures Receipts(rows, JobsDueForDispatch(s, rows, now), now, broker, n)[i] ==
            if i in JobsDueForDispatch(s, rows, now)[..n] && broker(i) then Dispatched(rows[i], now) else rows[i]
  {
    var ids := JobsDueForDispatch(s, rows, now);
    DueBelowIsDue(s, rows, now, |rows|);
    if n > 0 {
      ReceiptsAt(s, rows, now, broker, n - 1, i);
      assert ids[..n] == ids[..n - 1] + [ids[n - 1]];
      assert ids[n - 1] in DueBelow(s, rows, now, |rows|);
      assert ids[n - 1] !in ids[..n - 1];
    }
  }

  lemma ReceiptsAreAfterDispatch(s: Settings, rows: seq<Job>, now: Time, broker: JobId -> bool)
    ensures var ids := JobsDueForDispatch(s, rows, now);
            Valid(ids, rows) && Receipts(rows, ids, now, broker, |ids|) == AfterDispatch(s, rows, now, broker)
  {
    var ids := JobsDueForDispatch(s, rows, now);
    DueBelowIsDue(s, rows, now, |rows|);
    forall k | 0 <= k < |ids| ensures ids[k] < |rows| { assert ids[k] in DueBelow(s, rows, now, |rows|); }
    assert ids[..|ids|] == ids;
    forall i | 0 <= i < |rows|
      ensures Receipts(rows, ids, now, broker, |ids|)[i] == AfterDispatch(s, rows, now, broker)[i]
    {
      ReceiptsAt(s, rows, now, broker, |ids|, i);
    }
  }

  method DispatchQueuedImports(s: Settings, table: seq<ImportJob>, now: Time, broker: JobId -> bool)
    returns (eligible: nat, published: nat)
    requires DistinctJobs(table)
    modifies table
    ensures Rows(table) == AfterDispatch(s, old(Rows(table)), now, broker)
    ensures var due := JobsDueForDispatch(s, old(Rows(table)), now);
            eligible == |due| && published == SentCount(due, broker, |due|)
  {
    var rows := seq(|table|, i requires 0 <= i < |table| reads table => table[i].Row());
    var ids := JobsDueForDispatch(s, rows, now);
    ReceiptsAreAfterDispatch(s, rows, now, broker);
    eligible, published := |ids|, 0;
    var k := 0;
    while k < |ids|
      invariant 0 <= k <= |ids|
      invariant published == SentCount(ids, broker, k)
      invariant Rows(table) == Receipts(rows, ids, now, broker, k)
    {
      var id := ids[k];
      if broker(id) {
        ghost var before := Rows(table);
        table[id].MarkDispatched(now);
        assert Rows(table) == before[id := MarkDispatched(before[id], now)];
        published := published + 1;
      }
      k := k + 1;
    }
  }

  // ------------------------------------------------------------------- recovery

  predicate Recovers(row: Job, id: JobId, now: Time, locked: set<JobId>) {
    LeaseExpired(row, now) && id !in locked
  }

  /** The sweep stops at a job without a row for its current attempt. */
  ghost predicate Blocked(rows: seq<Job>, now: Time, locked: set<JobId>) {
    exists i :: 0 <= i < |rows| && Recovers(rows[i], i, now, locked) && Recover(rows[i], now).Err?
  }

  /** One row after the sweep. */
  function RecoveredRow(row: Job, id: JobId, now: Time, locked: set<JobId>): Job {
    if Recovers(row, id, now, locked) && Recover(row, now).Ok? then Recover(row, now).value else row
  }

  /** The sweep puts the job back in the queue. */
  predicate Requeues(row: Job, id: JobId, now: Time, locked: set<JobId>) {
    Recovers(row, id, now, locked) && RecoveredRow(row, id, now, locked).status == Queued
  }

  ghost function AfterRecovery(rows: seq<Job>, now: Time, locked: set<JobId>): seq<Job> {
    seq(|rows|, i requires 0 <= i < |rows| => RecoveredRow(rows[i], i, now, locked))
  }

  /** The sweep takes exactly the processing jobs whose lease has run out and whose row nobody else has locked. It fails
      as a whole if one of them has no current attempt; otherwise it recovers them all, touches no other row, and puts
      back in the queue those with attempts left. */
  lemma RecoverySweepExactly(rows: seq<Job>, now: Time, locked: set<JobId>, i: nat)
    requires i < |rows|
    ensures var row := rows[i];
            var taken := row.status == Processing && row.lease.Some? && row.lease.value.expiresAt < now && i !in locked;
            var lost := row.attemptCount !in row.attempts;
            && (taken && lost ==> Blocked(rows, now, locked))
            && (taken && !lost ==>
                  Recover(row, now).Ok? && AfterRecovery(rows, now, locked)[i] == Recover(row, now).value)
            && (!taken ==> AfterRecovery(rows, now, locked)[i] == row)
            && (!lost ==> (Requeues(row, i, now, locked) <==> taken && row.attemptCount < row.maxAttempts))
    ensures Blocked(rows, now, locked) <==>
            exists j :: 0 <= j < |rows| && rows[j].attemptCount !in rows[j].attempts && rows[j].status == Processing
                        && rows[j].lease.Some? && rows[j].lease.value.expiresAt < now && j !in locked
  {
    if j :| 0 <= j < |rows| && Recovers(rows[j], j, now, locked) && Recover(rows[j], now).Err? {
      assert rows[j].attemptCount !in rows[j].attempts;
    }
    if j :| 0 <= j < |rows| && rows[j].attemptCount !in rows[j].attempts && rows[j].status == Processing
            && rows[j].lease.Some? && rows[j].lease.value.expiresAt < now && j !in locked {
      assert Recovers(rows[j], j, now, locked) && Recover(rows[j], now).Err?;
    }
  }

  method RecoverStaleImports(table: seq<ImportJob>, now: Time, locked: set<JobId>)
    returns (recovered: Result<seq<JobId>, FailureCode>)
    requires DistinctJobs(table)
    modifies table
    ensures recovered.Err? <==> Blocked(old(Rows(table)), now, locked)
    ensures recovered.Err? ==> Rows(table) == old(Rows(table))
    ensures recovered.Ok? ==>
              && Rows(table) == AfterRecovery(old(Rows(table)), now, locked)
              && forall id: JobId :: id in recovered.value <==>
                   id < |table| && Requeues(old(Rows(table))[id], id, now, locked)
  {
    ghost var before := Rows(table);
    var saved := seq(|table|, i requires 0 <= i < |table| reads table => table[i].Row());
    var requeued: seq<JobId> := [];
    var i := 0;
    while i < |table|
      invariant 0 <= i <= |table|
      invariant forall j :: 0 <= j < i ==> Recovers(before[j], j, now, locked) ==> Recover(before[j], now).Ok?
      invariant forall j :: 0 <= j < i ==> table[j].Row() == RecoveredRow(before[j], j, now, locked)
      invariant forall j :: i <= j < |table| ==> table[j].Row() == before[j]
      invariant forall id: JobId :: id in requeued <==> id < i && Requeues(before[id], id, now, locked)
    {
      var outcome := RecoverRound(table[i], i, now, locked);
      assert table[i].Row() == RecoveredRow(before[i], i, now, locked);
      if outcome.Err? {
        assert Recovers(before[i], i, now, locked);
        UndoTo(table, saved);
        return Err(outcome.error);
      }
      requeued := requeued + (if outcome.value then [i] else []);
      i := i + 1;
    }
    return Ok(requeued);
  }

  /** One job of the sweep: whether it goes back to the queue, or the error that stops the sweep. */
  method RecoverRound(job: ImportJob, id: JobId, now: Time, locked: set<JobId>)
    returns (requeued: Result<bool, FailureCode>)
    modifies job
    ensures job.Row() == RecoveredRow(old(job.Row()), id, now, locked)
    ensures requeued.Err? <==> Recovers(old(job.Row()), id, now, locked) && Recover(old(job.Row()), now).Err?
    ensures requeued.Ok? ==> requeued.value == Requeues(old(job.Row()), id, now, locked)
  {
    if job.status == Processing && job.lease.Some? && job.lease.value.expiresAt < now && id !in locked {
      requeued := job.RecoverLease(now);
    } else {
      requeued := Ok(false);
    }
  }

  method UndoTo(table: seq<ImportJob>, saved: seq<Job>)
    requires DistinctJobs(table) && |saved| == |table|
    requires forall i :: 0 <= i < |table| ==>
               saved[i].submission == table[i].submission && saved[i].maxAttempts == table[i].maxAttempts
    modifies table
    ensures Rows(table) == saved
  {
    var i := 0;
    while i < |table|
      invariant 0 <= i <= |table|
      invariant forall j :: 0 <= j < i ==> table[j].Row() == saved[j]
    {
      table[i].Rollback(saved[i]);
      i := i + 1;
    }
  }
}
