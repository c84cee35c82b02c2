/** Repeated dispatch sweeps drain a backlog: how soon a due job is published, and that it is not published
    twice within the redispatch window. */
module Dispatch {
  import opened Domain
  import opened Jobs
  import opened Permutations
  import opened Worker

  const ALL: JobId -> bool := _ => true

  /** How many due jobs are older than `target`. */
  function OlderDue(s: Settings, rows: seq<Job>, now: Time, target: JobId): nat
    requires target <= |rows|
  {
    |DueBelow(s, rows, now, target)|
  }

  /** From a sweep of `rows` at `t` to the table `next` at `t'`: the target is left alone, and an older job that
      is due at `t'` was due at `t` and has not been touched by anything but the sweep. */
  ghost predicate Quiet(s: Settings, rows: seq<Job>, t: Time, next: seq<Job>, t': Time, target: JobId)
    requires target < |rows|
  {
    var after := AfterDispatch(s, rows, t, ALL);
    && |rows| <= |next| && t <= t' < t + s.redispatch * SECOND
    && next[target] == after[target]
    && forall j: JobId :: j < target && DueForDispatch(s, next[j], t') ==>
         next[j] == after[j] && DueForDispatch(s, rows[j], t)
  }

  lemma {:induction false} DueIsPrefix(s: Settings, rows: seq<Job>, now: Time, n: nat, m: nat)
    requires n <= m <= |rows|
    ensures DueBelow(s, rows, now, n) <= DueBelow(s, rows, now, m)
  {
    if n < m { DueIsPrefix(s, rows, now, n, m - 1); }
  }

  /** The sweep publishes the oldest hundred due jobs, and the target if it is among them. */
  lemma SweepTakesOldest(s: Settings, rows: seq<Job>, now: Time, target: JobId)
    requires target < |rows| && DueForDispatch(s, rows[target], now)
    ensures var older, taken := DueBelow(s, rows, now, target), JobsDueForDispatch(s, rows, now);
            if |older| < 100 then target in taken else taken == older[..100]
  {
    var older, due := DueBelow(s, rows, now, target), DueBelow(s, rows, now, |rows|);
    DueIsPrefix(s, rows, now, target + 1, |rows|);
    assert DueBelow(s, rows, now, target + 1) == older + [target];
    assert due[|older|] == target;
    if |older| < 100 {
      assert JobsDueForDispatch(s, rows, now)[|older|] == target;
    }
  }

  lemma SubsetSize<A>(a: set<A>, b: set<A>)
    requires a <= b
    ensures |a| <= |b|
  {
    assert b == a + (b - a);
  }

  lemma DueDistinct(s: Settings, rows: seq<Job>, now: Time, n: nat)
    requires n <= |rows|
    ensures Distinct(DueBelow(s, rows, now, n)) && |Elements(DueBelow(s, rows, now, n))| == |DueBelow(s, rows, now, n)|
  {
    DueBelowIsDue(s, rows, now, n);
    DistinctIffSize(DueBelow(s, rows, now, n));
  }

  /** One sweep that does not reach the target leaves a hundred fewer older due jobs. */
  lemma SweepDrainsHundred(s: Settings, rows: seq<Job>, t: Time, next: seq<Job>, t': Time, target: JobId)
    requires target < |rows| && DueForDispatch(s, rows[target], t) && target !in JobsDueForDispatch(s, rows, t)
    requires Quiet(s, rows, t, next, t', target)
    ensures OlderDue(s, rows, t, target) >= 100
    ensures OlderDue(s, next, t', target) <= OlderDue(s, rows, t, target) - 100
    ensures next[target] == rows[target] && DueForDispatch(s, next[target], t')
  {
    SweepTakesOldest(s, rows, t, target);
    var older, left := DueBelow(s, rows, t, target), DueBelow(s, next, t', target);
    DueBelowIsDue(s, rows, t, target);
    DueBelowIsDue(s, next, t', target);
    var rest := older[100..];
    forall j | j in Elements(left) ensures j in Elements(rest) {
      assert DueForDispatch(s, next[j], t');
      assert j in older;
      assert j !in older[..100];
      assert older == older[..100] + rest;
    }
    SubsetSize(Elements(left), Elements(rest));
    DueDistinct(s, next, t', target);
    DistinctIffSize(rest);
  }

  /** A history of sweeps: the table and the instant of each. */
  ghost predicate Sweeps(s: Settings, tables: seq<seq<Job>>, times: seq<Time>, target: JobId) {
    && |tables| == |times| && (forall k :: 0 <= k < |tables| ==> target < |tables[k]|)
    && forall k :: 0 <= k < |tables| - 1 ==> Quiet(s, tables[k], times[k], tables[k + 1], times[k + 1], target)
  }

  ghost predicate PublishedIn(s: Settings, tables: seq<seq<Job>>, times: seq<Time>, target: JobId, k: int)
    requires |tables| == |times| && 0 <= k < |tables|
  {
    target in JobsDueForDispatch(s, tables[k], times[k])
  }

  /** The drain bound: a due job with r older due jobs is published by one of the next r / 100 + 1 sweeps, when
      they are quiet. */
  lemma {:induction false} DrainBound(s: Settings, tables: seq<seq<Job>>, times: seq<Time>, target: JobId, k: nat)
    requires Sweeps(s, tables, times, target) && k < |tables|
    requires DueForDispatch(s, tables[k][target], times[k])
    requires k + OlderDue(s, tables[k], times[k], target) / 100 < |tables|
    ensures exists i :: k <= i <= k + OlderDue(s, tables[k], times[k], target) / 100 && i < |tables|
              && PublishedIn(s, tables, times, target, i)
    decreases |tables| - k
  {
    var r := OlderDue(s, tables[k], times[k], target);
    if PublishedIn(s, tables, times, target, k) {
    } else if r < 100 {
      SweepTakesOldest(s, tables[k], times[k], target);
    } else {
      SweepDrainsHundred(s, tables[k], times[k], tables[k + 1], times[k + 1], target);
      DrainBound(s, tables, times, target, k + 1);
      var i :| k + 1 <= i <= k + 1 + OlderDue(s, tables[k + 1], times[k + 1], target) / 100 && i < |tables|
        && PublishedIn(s, tables, times, target, i);
    }
  }

  /** A job published in one sweep and touched by nothing else is not published again within the window. */
  lemma NotPublishedTwice(s: Settings, rows: seq<Job>, t: Time, later: seq<Job>, t': Time, id: JobId)
    requires id < |rows| && id < |later| && id in JobsDueForDispatch(s, rows, t)
    requires later[id] == AfterDispatch(s, rows, t, ALL)[id]
    requires t <= t' < t + s.redispatch * SECOND
    ensures id !in JobsDueForDispatch(s, later, t')
  {
    DueBelowIsDue(s, later, t', |later|);
    assert later[id].dispatchedAt == Some(t);
  }

  // ---------------------------------------------------------------- one sweep exactly

  /** The due jobs that are older than job `i`. */
  function DueBefore(s: Settings, rows: seq<Job>, now: Time, i: nat): set<JobId>
    requires i <= |rows|
  {
    set j: JobId | j < i && DueForDispatch(s, rows[j], now)
  }

  lemma DueBeforeSize(s: Settings, rows: seq<Job>, now: Time, i: nat)
    requires i <= |rows|
    ensures |DueBefore(s, rows, now, i)| == |DueBelow(s, rows, now, i)|
  {
    DueBelowIsDue(s, rows, now, i);
    DueDistinct(s, rows, now, i);
    assert DueBefore(s, rows, now, i) == Elements(DueBelow(s, rows, now, i));
  }

  /** A sweep selects a job exactly when it is due and fewer than a hundred older jobs are. */
  lemma SelectedExactly(s: Settings, rows: seq<Job>, now: Time, i: nat)
    requires i < |rows|
    ensures i in JobsDueForDispatch(s, rows, now) <==>
            DueForDispatch(s, rows[i], now) && |DueBefore(s, rows, now, i)| < 100
  {
    DueBeforeSize(s, rows, now, i);
    DueBelowIsDue(s, rows, now, i);
    DueBelowIsDue(s, rows, now, |rows|);
    if DueForDispatch(s, rows[i], now) { SweepTakesOldest(s, rows, now, i); }
  }

  /** What a sweep writes on each row: a receipt exactly if the job is selected and the broker takes its message. */
  lemma SweepExactly(s: Settings, rows: seq<Job>, now: Time, broker: JobId -> bool, i: nat)
    requires i < |rows|
    ensures AfterDispatch(s, rows, now, broker)[i] ==
            if DueForDispatch(s, rows[i], now) && |DueBefore(s, rows, now, i)| < 100 && broker(i) then
              rows[i].(dispatchedAt := Some(now))
            else rows[i]
  {
    SelectedExactly(s, rows, now, i);
  }

  /** The jobs whose messages the broker took in a sweep. */
  function Published(s: Settings, rows: seq<Job>, now: Time, broker: JobId -> bool): set<JobId> {
    set i: JobId | i < |rows| && DueForDispatch(s, rows[i], now) && |DueBefore(s, rows, now, i)| < 100 && broker(i)
  }

  lemma {:induction false} SentCountExactly(ids: seq<JobId>, broker: JobId -> bool, n: nat)
    requires n <= |ids| && forall i, j :: 0 <= i < j < |ids| ==> ids[i] < ids[j]
    ensures SentCount(ids, broker, n) == |set k: nat | k < n && broker(ids[k]) :: ids[k]|
  {
    var sent := set k: nat | k < n && broker(ids[k]) :: ids[k];
    if n == 0 {
      assert sent == {};
    } else {
      SentCountExactly(ids, broker, n - 1);
      var before := set k: nat | k < n - 1 && broker(ids[k]) :: ids[k];
      assert sent == before + (if broker(ids[n - 1]) then {ids[n - 1]} else {});
    }
  }

  /** The two numbers a sweep reports: how many jobs it selected, a hundred at most, and how many rows got a
      receipt. */
  lemma ReportsExactly(s: Settings, rows: seq<Job>, now: Time, broker: JobId -> bool)
    ensures var ids, due := JobsDueForDispatch(s, rows, now), |DueBefore(s, rows, now, |rows|)|;
            && |ids| == (if due < 100 then due else 100)
            && SentCount(ids, broker, |ids|) == |Published(s, rows, now, broker)|
  {
    var ids := JobsDueForDispatch(s, rows, now);
    DueBeforeSize(s, rows, now, |rows|);
    DueBelowIsDue(s, rows, now, |rows|);
    SentCountExactly(ids, broker, |ids|);
    var sent := set k: nat | k < |ids| && broker(ids[k]) :: ids[k];
    forall i: JobId ensures i in sent <==> i in Published(s, rows, now, broker) {
      if i < |rows| { SelectedExactly(s, rows, now, i); }
      if i in sent { assert i in ids; assert i in DueBelow(s, rows, now, |rows|); }
    }
    assert sent == Published(s, rows, now, broker);
  }
}
