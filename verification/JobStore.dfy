/**
 The store object and the worker that drives it. Each store method is one statement of
 `SqliteStore`; the ghost history records the events, so that what `JobQueue` proves about every
 legal history holds of every table this object can reach.
 */
module JobStore {
  import opened Common
  import opened JobQueue

  datatype RecoveryStats = RecoveryStats(requeued: nat, failedRetriesExhausted: nat)
  datatype StoreError = JobNotRunning | DuplicateJob
  datatype JobKind = Scan | Repair | BatchRepair | BatchResume

  /** What the work of a job ends with. */
  datatype WorkDone = WorkDone(runId: Option<string>, resultRef: Option<string>)
  datatype WorkFailed = WorkFailed(code: string, message: string)

  predicate Owns(t: Table, id: JobId, w: WorkerId) {
    id in t && t[id].status == Running && t[id].worker == Some(w)
  }

  /** The rows an expired lease makes recoverable. */
  function StaleIds(t: Table, now: Time): set<JobId> {
    set id | id in t && Stale(t[id], now)
  }

  /** Among `ids`, those whose attempts are used up. */
  function Exhausted(t: Table, ids: set<JobId>, p: Policy): set<JobId>
    requires ids <= t.Keys
  {
    set id | id in ids && t[id].attempts >= p.Limit()
  }

  lemma ExhaustedStep(t: Table, ids: set<JobId>, id: JobId, p: Policy)
    requires ids <= t.Keys && id in t && id !in ids
    ensures |Exhausted(t, ids + {id}, p)| ==
            |Exhausted(t, ids, p)| + (if t[id].attempts >= p.Limit() then 1 else 0)
  {
    var grown := Exhausted(t, ids + {id}, p);
    if t[id].attempts >= p.Limit() {
      assert grown == Exhausted(t, ids, p) + {id};
    } else {
      assert grown == Exhausted(t, ids, p);
    }
  }

  /** `t` is `start` with the rows of `done` recovered. */
  ghost predicate RecoveredOn(t: Table, start: Table, done: set<JobId>, now: Time, p: Policy) {
    && t.Keys == start.Keys
    && forall id :: id in t ==> t[id] == if id in done then Recovered(start[id], now, p) else start[id]
  }

  function Counted(stats: RecoveryStats, exhausted: bool): RecoveryStats {
    if exhausted then stats.(failedRetriesExhausted := stats.failedRetriesExhausted + 1)
    else stats.(requeued := stats.requeued + 1)
  }

  /** The counters of the rows of `done`. */
  ghost predicate Tallied(stats: RecoveryStats, start: Table, done: set<JobId>, p: Policy) {
    && done <= start.Keys
    && stats.requeued + stats.failedRetriesExhausted == |done|
    && stats.failedRetriesExhausted == |Exhausted(start, done, p)|
  }

  lemma RecoverTurn(stats: RecoveryStats, t: Table, start: Table, stale: set<JobId>, left: set<JobId>, id: JobId,
                    now: Time, p: Policy)
    requires RecoveredOn(t, start, stale - left, now, p) && Tallied(stats, start, stale - left, p)
    requires id in left && left <= stale && stale <= start.Keys
    ensures id in t && RecoveredOn(t[id := Recovered(t[id], now, p)], start, stale - (left - {id}), now, p)
    ensures Tallied(Counted(stats, t[id].attempts >= p.Limit()), start, stale - (left - {id}), p)
  {
    var done := stale - left;
    ExhaustedStep(start, done, id, p);
    assert done + {id} == stale - (left - {id});
  }

  /** The row is running and the end of its lease is past. */
  predicate Expired(t: Table, id: JobId, now: Time) {
    id in t && t[id].status == Running && t[id].leasedUntil.Some? && t[id].leasedUntil.value < now
  }

  ghost predicate AttemptsInBounds(t: Table, p: Policy) {
    forall id :: id in t ==> t[id].attempts <= p.Cap() && (t[id].status == Running ==> 1 <= t[id].attempts)
  }

  lemma RowsAreOk(h: History, p: Policy)
    requires Legal(h, p)
    ensures AttemptsInBounds(h.tables[|h.events|], p)
  {
    var n := |h.events|;
    forall id | id in h.tables[n] ensures JobOk(h.tables[n][id], p) { ReachableRowsOk(h, n, id, p); }
  }

  /** What the counters count, read off the rows. */
  lemma RecoveredCounts(t: Table, start: Table, stats: RecoveryStats, now: Time, p: Policy)
    requires AttemptsInBounds(start, p) && RecoveredOn(t, start, StaleIds(start, now), now, p)
    requires Tallied(stats, start, StaleIds(start, now), p)
    ensures stats.requeued == |set id | id in t && Expired(start, id, now) && t[id].status == Queued|
    ensures stats.failedRetriesExhausted == |set id | id in t && Expired(start, id, now) && t[id].status == Failed|
  {
    var stale := StaleIds(start, now);
    RecoveredSets(t, start, now, p);
    var queued := set id | id in t && Expired(start, id, now) && t[id].status == Queued;
    assert queued == stale - Exhausted(start, stale, p);
    assert |queued| == |stale| - |Exhausted(start, stale, p)|;
  }

  lemma RecoveredSets(t: Table, start: Table, now: Time, p: Policy)
    requires AttemptsInBounds(start, p) && RecoveredOn(t, start, StaleIds(start, now), now, p)
    ensures var stale := StaleIds(start, now);
      && (set id | id in t && Expired(start, id, now) && t[id].status == Queued) == stale - Exhausted(start, stale, p)
      && (set id | id in t && Expired(start, id, now) && t[id].status == Failed) == Exhausted(start, stale, p)
  {
    var stale := StaleIds(start, now);
    forall id | id in t ensures Expired(start, id, now) ==>
      t[id].status == if id in Exhausted(start, stale, p) then Failed else Queued
    {
      if Expired(start, id, now) { assert id in stale; }
    }
  }

  class Store {
    const policy: Policy
    var rows: Table
    ghost var history: History

    ghost predicate Valid()
      reads this
    {
      Legal(history, policy) && rows == history.tables[|history.events|]
    }

    constructor (policy: Policy)
      ensures Valid() && rows == map[] && this.policy == policy
    {
      this.policy := policy;
      rows := map[];
      history := History([], [map[]]);
    }

    ghost method Record(e: Event)
      requires Legal(history, policy) && Enabled(history.tables[|history.events|], e)
      requires rows == Apply(history.tables[|history.events|], e, policy)
      modifies this`history
      ensures Valid() && history == Extend(old(history), e, policy)
    {
      ExtendKeepsLegal(history, e, policy);
      history := Extend(history, e, policy);
    }

    method InsertApplicationJob(id: JobId, now: Time) returns (r: Result<(), StoreError>)
      requires Valid()
      modifies this
      ensures Valid() && history == Extend(old(history), Insert(id, now), policy)
      ensures r.Ok? <==> id !in old(rows)
      ensures rows == if r.Ok? then old(rows)[id := NewJob(now)] else old(rows)
    {
      if id in rows {
        r := Err(DuplicateJob);
      } else {
        rows := rows[id := NewJob(now)];
        r := Ok(());
      }
      Record(Insert(id, now));
    }

    /** The subquery of the claim: some queued row with the least submission time. */
    method OldestQueued() returns (r: Option<JobId>)
      ensures r.None? ==> NoneQueued(rows)
      ensures r.Some? ==> Oldest(rows, r.value)
    {
      r := None;
      var left := rows.Keys;
      while left != {}
        invariant left <= rows.Keys
        invariant r.None? ==> forall k :: k in rows && k !in left ==> rows[k].status != Queued
        invariant r.Some? ==> r.value in rows && rows[r.value].status == Queued
        invariant r.Some? ==> forall k :: k in rows && k !in left && rows[k].status == Queued ==>
                                rows[r.value].submittedAt <= rows[k].submittedAt
        decreases left
      {
        var k :| k in left;
        left := left - {k};
        if rows[k].status == Queued && (r.None? || rows[k].submittedAt < rows[r.value].submittedAt) {
          r := Some(k);
        }
      }
    }

    method ClaimNextQueued(worker: WorkerId, now: Time, hb: Time, lu: Time) returns (claimed: Option<JobId>)
      requires Valid()
      modifies this
      ensures Valid() && history == Extend(old(history), Claim(claimed, worker, now, hb, lu), policy)
      ensures claimed.None? <==> NoneQueued(old(rows))
      ensures claimed.None? ==> rows == old(rows)
      ensures claimed.Some? ==>
                && Oldest(old(rows), claimed.value)
                && rows == old(rows)[claimed.value := Claimed(old(rows)[claimed.value], worker, now, hb, lu)]
                && rows[claimed.value].attempts == old(rows)[claimed.value].attempts + 1
                && rows[claimed.value].leasedUntil == Some(lu) && rows[claimed.value].heartbeatAt == Some(hb)
    {
      claimed := OldestQueued();
      if claimed.Some? {
        rows := rows[claimed.value := Claimed(rows[claimed.value], worker, now, hb, lu)];
      }
      Record(Claim(claimed, worker, now, hb, lu));
    }

    method RenewLease(id: JobId, worker: WorkerId, hb: Time, lu: Time) returns (renewed: bool)
      requires Valid()
      modifies this
      ensures Valid() && history == Extend(old(history), Renew(id, worker, hb, lu), policy)
      ensures renewed <==> id in old(rows) && old(rows)[id].status == Running && old(rows)[id].worker == Some(worker)
      ensures rows == if renewed
                      then old(rows)[id := old(rows)[id].(heartbeatAt := Some(hb), leasedUntil := Some(lu))]
                      else old(rows)
    {
      renewed := id in rows && rows[id].worker == Some(worker) && rows[id].status == Running;
      if renewed {
        rows := rows[id := rows[id].(heartbeatAt := Some(hb), leasedUntil := Some(lu))];
      }
      Record(Renew(id, worker, hb, lu));
    }

    /** The loop of a recovery: update the stale rows one by one and count. */
    method RecoverRows(now: Time) returns (stats: RecoveryStats)
      modifies this`rows
      ensures RecoveredOn(rows, old(rows), StaleIds(old(rows), now), now, policy)
      ensures Tallied(stats, old(rows), StaleIds(old(rows), now), policy)
    {
      var stale := StaleIds(rows, now);
      ghost var start := rows;
      stats := RecoveryStats(0, 0);
      var left := stale;
      assert stale - left == {};
      while left != {}
        invariant left <= stale
        invariant RecoveredOn(rows, start, stale - left, now, policy)
        invariant Tallied(stats, start, stale - left, policy)
        decreases left
      {
        var id :| id in left;
        RecoverTurn(stats, rows, start, stale, left, id, now, policy);
        left := left - {id};
        stats := Counted(stats, rows[id].attempts >= policy.Limit());
        rows := rows[id := Recovered(rows[id], now, policy)];
      }
      assert stale - left == stale;
    }

    /** One transaction: select the stale rows and recover them. */
    method RecoverStale(now: Time) returns (stats: RecoveryStats)
      requires Valid()
      modifies this
      ensures Valid() && history == Extend(old(history), Recover(now), policy)
      ensures RecoveredOn(rows, old(rows), StaleIds(old(rows), now), now, policy)
      ensures forall id :: id in rows && Expired(old(rows), id, now) ==>
                && rows[id].worker.None? && rows[id].leasedUntil.None? && rows[id].attempts == old(rows)[id].attempts
                && rows[id].status == if old(rows)[id].attempts < policy.Cap() then Queued else Failed
      ensures forall id :: id in rows && !Expired(old(rows), id, now) ==> rows[id] == old(rows)[id]
      ensures stats.requeued == |set id | id in rows && Expired(old(rows), id, now) && rows[id].status == Queued|
      ensures stats.failedRetriesExhausted ==
              |set id | id in rows && Expired(old(rows), id, now) && rows[id].status == Failed|
    {
      ghost var start := rows;
      RowsAreOk(history, policy);
      stats := RecoverRows(now);
      RecoveredCounts(rows, start, stats, now, policy);
      Record(Recover(now));
    }

    /** The three completions differ only in the columns they write; each is guarded by `running`. */
    method Complete(id: JobId, e: Event) returns (r: Result<(), StoreError>)
      requires Valid() && Finishes(e, id)
      modifies this
      ensures Valid() && history == Extend(old(history), e, policy)
      ensures r.Ok? <==> id in old(rows) && old(rows)[id].status == Running
      ensures rows == if r.Ok? then old(rows)[id := After(id, old(rows)[id], e, policy)] else old(rows)
      ensures r.Ok? ==> rows[id].status.Terminal() && rows[id].worker.None? && rows[id].leasedUntil.None?
      ensures r.Ok? && e.CompleteSuccess? ==>
                && rows[id].status == Succeeded && !rows[id].cancelRequested
                && rows[id].runId == e.runId && rows[id].resultRef == e.resultRef
      ensures r.Ok? && e.CompleteCanceled? ==>
                rows[id].status == Canceled && rows[id].failure == Some(ByClientRequest) && !rows[id].cancelRequested
      ensures r.Ok? && e.CompleteFailure? ==>
                && rows[id].status == Failed && rows[id].failure == Some(Reported(e.code, e.message))
                && rows[id].cancelRequested == old(rows)[id].cancelRequested
    {
      if id in rows && rows[id].status == Running {
        rows := rows[id := After(id, rows[id], e, policy)];
        r := Ok(());
      } else {
        r := Err(JobNotRunning);
      }
      Record(e);
    }

    /** A guarded update of one row: it has its effect, or the row stays as it is. */
    method Touch(id: JobId, e: Event)
      requires Valid() && id in rows && (e.CancelQueued? || e.FlagCancel?) && e.id == id
      modifies this
      ensures Valid() && history == Extend(old(history), e, policy)
      ensures rows == old(rows)[id := After(id, old(rows)[id], e, policy)]
    {
      rows := rows[id := After(id, rows[id], e, policy)];
      Record(e);
    }

    /** `request_cancel_job` with nothing between its read and its update. */
    method RequestCancel(id: JobId, now: Time) returns (r: Result<CancelOutcome, CancelError>)
      requires Valid()
      modifies this
      ensures Valid() && rows.Keys == old(rows).Keys
      ensures forall k :: k in rows && k != id ==> rows[k] == old(rows)[k]
      ensures r == Err(JobNotFound) <==> id !in old(rows)
      ensures r == Err(AlreadyTerminal) <==>
              id in old(rows) && (old(rows)[id].status.Succeeded? || old(rows)[id].status.Failed?)
      ensures r != Err(LeftQueued) && r != Err(LeftRunning)
      ensures id in old(rows) && old(rows)[id].status.Queued? ==>
                r == Ok(CanceledFromQueued) && rows[id].status == Canceled && rows[id].failure == Some(BeforeStart)
      ensures id in old(rows) && old(rows)[id].status.Running? ==>
                r == Ok(CancelRequestedForRunning) && CancelVisible(rows, id)
      ensures id in old(rows) && old(rows)[id].status.Canceled? ==> r == Ok(AlreadyCanceled)
      ensures r.Err? || r == Ok(AlreadyCanceled) ==> rows == old(rows)
    {
      if id !in rows { return Err(JobNotFound); }
      r := ApplyCancel(id, rows[id].status, now);
    }

    /** The update of a cancel request, which may come any number of other events after its read. */
    method ApplyCancel(id: JobId, read: Status, now: Time) returns (r: Result<CancelOutcome, CancelError>)
      requires Valid()
      modifies this
      ensures Valid()
      ensures rows.Keys == old(rows).Keys && forall k :: k in rows && k != id ==> rows[k] == old(rows)[k]
      ensures r != Err(JobNotFound)
      ensures r == Ok(CanceledFromQueued) ==>
                && id in old(rows) && old(rows)[id].status == Queued
                && id in rows && rows[id].status == Canceled && rows[id].failure == Some(BeforeStart)
      ensures r == Ok(CancelRequestedForRunning) ==>
                id in old(rows) && old(rows)[id].status == Running && CancelVisible(rows, id)
      ensures (r.Err? || r == Ok(AlreadyCanceled)) ==> rows == old(rows)
      ensures id in old(rows) && old(rows)[id].status.Terminal() ==> rows == old(rows)
      ensures read.Queued? || read.Running? ==> (r.Ok? <==> id in old(rows) && old(rows)[id].status == read)
      ensures r.Ok? ==> r.value == if read.Queued? then CanceledFromQueued
                                   else if read.Running? then CancelRequestedForRunning else AlreadyCanceled
      ensures read.Canceled? ==> r == Ok(AlreadyCanceled)
      ensures read.Succeeded? || read.Failed? ==> r == Err(AlreadyTerminal)
    {
      match read
      case Queued =>
        r := if id in rows && rows[id].status == Queued then Ok(CanceledFromQueued) else Err(LeftQueued);
        if id in rows { Touch(id, CancelQueued(id, now)); }
      case Running =>
        r := if id in rows && rows[id].status == Running then Ok(CancelRequestedForRunning) else Err(LeftRunning);
        if id in rows { Touch(id, FlagCancel(id)); }
      case Canceled => r := Ok(AlreadyCanceled);
      case Succeeded => r := Err(AlreadyTerminal);
      case Failed => r := Err(AlreadyTerminal);
    }

    method JobCancelRequested(id: JobId) returns (r: bool)
      ensures r <==> CancelVisible(rows, id)
    {
      r := id in rows && rows[id].status == Running && rows[id].cancelRequested;
    }

    /**
     The heartbeat loop, woken at the times `beats`, with no other event in between: it renews at every
     beat of a job that is not cancelled, and once more at most of one that is.
     */
    method Beat(id: JobId, worker: WorkerId, beats: seq<Time>, flag: bool) returns (renewed: nat, seen: bool)
      requires Valid()
      modifies this
      ensures Valid() && rows.Keys == old(rows).Keys
      ensures forall k :: k in rows && k != id ==> rows[k] == old(rows)[k]
      ensures renewed == if flag || !Owns(old(rows), id, worker) || beats == [] then 0
                         else if old(rows)[id].cancelRequested then 1 else |beats|
      ensures seen <==> flag || (beats != [] && CancelVisible(old(rows), id))
      ensures renewed == 0 ==> rows == old(rows)
      ensures renewed > 0 ==>
                && Owns(rows, id, worker)
                && rows[id].leasedUntil == Some(beats[renewed-1] + policy.leaseDurationSecs)
    {
      renewed, seen := 0, flag;
      for i := 0 to |beats|
        invariant Valid() && rows.Keys == old(rows).Keys && renewed == i
        invariant forall k :: k in rows && k != id ==> rows[k] == old(rows)[k]
        invariant seen <==> flag || (i > 0 && CancelVisible(old(rows), id))
        invariant i > 0 ==> !flag && (i > 1 ==> !CancelVisible(old(rows), id)) && Owns(old(rows), id, worker)
        invariant i > 0 ==> Owns(rows, id, worker) && rows[id].cancelRequested == old(rows)[id].cancelRequested
        invariant i > 0 ==> rows[id].leasedUntil == Some(beats[i-1] + policy.leaseDurationSecs)
        invariant i == 0 ==> rows == old(rows)
      {
        if seen { break; }
        seen := JobCancelRequested(id);
        var ok := RenewLease(id, worker, beats[i], beats[i] + policy.leaseDurationSecs);
        if !ok { break; }
        renewed := renewed + 1;
      }
    }

    /**
     The claimed job, run by its worker with no other event in between: `work` is what it ends with, its
     run and result references or the label and text of its failure; `lateCancel` is whether the heartbeat
     saw a cancel while it ran. Scan jobs never look at the cancel flag; the other kinds look before and after.
     */
    method RunClaimedJob(id: JobId, worker: WorkerId, kind: JobKind, work: Result<WorkDone, WorkFailed>,
                         lateCancel: bool, now: Time)
      returns (worked: bool)
      requires Valid() && id in rows && rows[id].status == Running
      modifies this
      ensures Valid() && rows.Keys == old(rows).Keys
      ensures forall k :: k in rows && k != id ==> rows[k] == old(rows)[k]
      ensures rows[id].status.Terminal()
      ensures worked <==> kind.Scan? || !old(rows)[id].cancelRequested
      ensures rows[id].status == Canceled <==>
                !kind.Scan? && (old(rows)[id].cancelRequested || (work.Ok? && lateCancel))
      ensures rows[id].status == Succeeded <==>
                work.Ok? && (kind.Scan? || (!old(rows)[id].cancelRequested && !lateCancel))
      ensures rows[id].status == Succeeded ==>
              rows[id].runId == work.value.runId && rows[id].resultRef == work.value.resultRef
      ensures rows[id].status == Failed ==>
                work.Err? && rows[id].failure == Some(Reported(work.error.code, work.error.message))
    {
      var flag := JobCancelRequested(id);
      var done: Result<(), StoreError>;
      if !kind.Scan? && flag {
        worked := false;
        done := Complete(id, CompleteCanceled(id, worker, now));
      } else {
        worked := true;
        if work.Err? {
          done := Complete(id, CompleteFailure(id, worker, now, work.error.code, work.error.message));
        } else if !kind.Scan? && lateCancel {
          done := Complete(id, CompleteCanceled(id, worker, now));
        } else {
          done := Complete(id, CompleteSuccess(id, worker, now, work.value.runId, work.value.resultRef));
        }
      }
    }
  }
}
