/**
 The durable job queue: rows of `application_jobs` and the statements that update them.

 Every store method is one atomic SQL statement (or one transaction), so a run of the service is
 a sequence of events. The effect of an event on a row depends on that row alone, which is what
 `After` says; `Apply` lifts it to the table and adds the row of a new submission.

 Times are integers. The store compares RFC 3339 texts written by one formatter in UTC, whose
 text order is time order.
 */
module JobQueue {
  import opened Common

  type JobId = string
  type WorkerId = string
  type Time = int
  type U32 = n: nat | n < 0x1_0000_0000

  datatype Status = Queued | Running | Succeeded | Failed | Canceled {
    predicate Terminal() {
      Succeeded? || Failed? || Canceled?
    }
  }

  /** `failure_code` and message: fixed texts, or the label and text the worker reports. */
  datatype Failure = ByClientRequest | BeforeStart | RetriesExhausted | Reported(code: string, message: string)
  datatype RecoveryNote = NoteRetriesExhausted | NoteRequeued

  datatype Job = Job(
    submittedAt: Time,
    status: Status,
    startedAt: Option<Time>,
    completedAt: Option<Time>,
    worker: Option<WorkerId>,
    attempts: nat,
    heartbeatAt: Option<Time>,
    leasedUntil: Option<Time>,
    cancelRequested: bool,
    failure: Option<Failure>,
    recoveryNote: Option<RecoveryNote>,
    runId: Option<string>,
    resultRef: Option<string>)

  type Table = map<JobId, Job>

  datatype Policy = Policy(leaseDurationSecs: nat, heartbeatIntervalSecs: nat, maxAttempts: U32) {
    /** `max_attempts as i32`: the cast keeps the low 32 bits. */
    function Limit(): (limit: int)
      ensures -0x8000_0000 <= limit < 0x8000_0000 && (maxAttempts - limit) % 0x1_0000_0000 == 0
    {
      if maxAttempts < 0x8000_0000 then maxAttempts else maxAttempts - 0x1_0000_0000
    }

    /** How often one job can be claimed; `maxAttempts` unless that is 0 or wraps negative. */
    function Cap(): (cap: nat)
      ensures 1 <= maxAttempts < 0x8000_0000 ==> cap == maxAttempts
      ensures maxAttempts == 0 || maxAttempts >= 0x8000_0000 ==> cap == 1
    {
      if Limit() < 1 then 1 else Limit()
    }
  }

  datatype Event =
    | Insert(id: JobId, now: Time)
    | Claim(chosen: Option<JobId>, worker: WorkerId, now: Time, heartbeatAt: Time, leasedUntil: Time)
    | Renew(id: JobId, worker: WorkerId, heartbeatAt: Time, leasedUntil: Time)
    | Recover(now: Time)
    | CompleteSuccess(id: JobId, worker: WorkerId, now: Time, runId: Option<string>, resultRef: Option<string>)
    | CompleteCanceled(id: JobId, worker: WorkerId, now: Time)
    | CompleteFailure(id: JobId, worker: WorkerId, now: Time, code: string, message: string)
    | CancelQueued(id: JobId, now: Time)
    | FlagCancel(id: JobId)

  // ---------------------------------------------------------------- one row

  function NewJob(now: Time): Job {
    Job(now, Queued, None, None, None, 0, None, None, false, None, None, None, None)
  }

  function Released(j: Job): Job {
    j.(worker := None, heartbeatAt := None, leasedUntil := None)
  }

  function Claimed(j: Job, w: WorkerId, now: Time, hb: Time, lu: Time): Job {
    j.(status := Running, startedAt := Some(now), worker := Some(w), heartbeatAt := Some(hb),
       leasedUntil := Some(lu), attempts := j.attempts + 1)
  }

  predicate Stale(j: Job, now: Time) {
    j.status == Running && j.leasedUntil.Some? && j.leasedUntil.value < now
  }

  /** What recovery does to one stale row: fail it when the attempts are used up, else requeue. */
  function Recovered(j: Job, now: Time, p: Policy): Job {
    if j.attempts >= p.Limit() then
      Released(j).(status := Failed, completedAt := Some(now),
                   failure := Some(RetriesExhausted),
                   recoveryNote := Some(NoteRetriesExhausted))
    else
      Released(j).(status := Queued, startedAt := None, recoveryNote := Some(NoteRequeued))
  }

  /** The effect of an event on a row. A completion does not look at the worker that makes it. */
  function After(id: JobId, j: Job, e: Event, p: Policy): Job {
    match e
    case Insert(_, _) => j
    case Claim(chosen, w, now, hb, lu) =>
      if chosen == Some(id) && j.status == Queued then Claimed(j, w, now, hb, lu) else j
    case Renew(i, w, hb, lu) =>
      if i == id && j.worker == Some(w) && j.status == Running
      then j.(heartbeatAt := Some(hb), leasedUntil := Some(lu)) else j
    case Recover(now) => if Stale(j, now) then Recovered(j, now, p) else j
    case CompleteSuccess(i, _, now, run, ref) =>
      if i == id && j.status == Running
      then Released(j).(status := Succeeded, completedAt := Some(now), runId := run, resultRef := ref,
                        cancelRequested := false) else j
    case CompleteCanceled(i, _, now) =>
      if i == id && j.status == Running
      then Released(j).(status := Canceled, completedAt := Some(now),
                        failure := Some(ByClientRequest), cancelRequested := false) else j
    case CompleteFailure(i, _, now, code, message) =>
      if i == id && j.status == Running
      then Released(j).(status := Failed, completedAt := Some(now), failure := Some(Reported(code, message))) else j
    case CancelQueued(i, now) =>
      if i == id && j.status == Queued
      then j.(status := Canceled, completedAt := Some(now), failure := Some(BeforeStart)) else j
    case FlagCancel(i) =>
      if i == id && j.status == Running then j.(cancelRequested := true) else j
  }

  // ---------------------------------------------------------------- the table

  function Apply(t: Table, e: Event, p: Policy): (r: Table)
    ensures t.Keys <= r.Keys
    ensures forall id :: id in t ==> r[id] == After(id, t[id], e, p)
    ensures forall id :: id in r && id !in t ==> e.Insert? && id == e.id && r[id] == NewJob(e.now)
  {
    var stepped := map id | id in t :: After(id, t[id], e, p);
    if e.Insert? && e.id !in t then stepped[e.id := NewJob(e.now)] else stepped
  }

  predicate Oldest(t: Table, id: JobId) {
    && id in t && t[id].status == Queued
    && forall k :: k in t && t[k].status == Queued ==> t[id].submittedAt <= t[k].submittedAt
  }

  predicate NoneQueued(t: Table) {
    forall k :: k in t ==> t[k].status != Queued
  }

  /** A claim takes an oldest queued row, or nothing when no row is queued. */
  predicate Enabled(t: Table, e: Event) {
    match e
    case Claim(None, _, _, _, _) => NoneQueued(t)
    case Claim(Some(id), _, _, _, _) => Oldest(t, id)
    case _ => true
  }

  // ---------------------------------------------------------------- histories

  /** A run of the service: the events in order, and the table before and after each of them. */
  datatype History = History(events: seq<Event>, tables: seq<Table>)

  /** The run starts from an empty table and every event is enabled when it happens. */
  predicate Legal(h: History, p: Policy) {
    && |h.tables| == |h.events| + 1
    && h.tables[0] == map[]
    && forall i :: 0 <= i < |h.events| ==> StepAt(h, i, p)
  }

  predicate StepAt(h: History, i: nat, p: Policy)
    requires |h.tables| == |h.events| + 1 && i < |h.events|
  {
    Enabled(h.tables[i], h.events[i]) && h.tables[i+1] == Apply(h.tables[i], h.events[i], p)
  }

  /** The history one event longer. */
  ghost function Extend(h: History, e: Event, p: Policy): History
    requires |h.tables| > 0
  {
    History(h.events + [e], h.tables + [Apply(h.tables[|h.tables|-1], e, p)])
  }

  lemma ExtendKeepsLegal(h: History, e: Event, p: Policy)
    requires Legal(h, p) && Enabled(h.tables[|h.events|], e)
    ensures Legal(Extend(h, e, p), p)
  {
    var x := Extend(h, e, p);
    forall i | 0 <= i < |x.events| ensures StepAt(x, i, p) {
      if i < |h.events| { assert StepAt(h, i, p); }
    }
  }

  /** Job `id` is in the table after the first `n` events. */
  predicate Known(h: History, n: nat, id: JobId) {
    n < |h.tables| && id in h.tables[n]
  }

  /** Rows are never dropped, keep their submission time and their terminal status. */
  lemma {:induction false} RowsStay(h: History, i: nat, n: nat, id: JobId, p: Policy)
    requires Legal(h, p) && i <= n <= |h.events| && Known(h, i, id)
    ensures Known(h, n, id)
    ensures h.tables[n][id].submittedAt == h.tables[i][id].submittedAt
    ensures h.tables[i][id].attempts <= h.tables[n][id].attempts
    ensures h.tables[i][id].status.Terminal() ==> h.tables[n][id].status == h.tables[i][id].status
    decreases n
  {
    if i < n {
      RowsStay(h, i, n - 1, id, p);
      assert StepAt(h, n - 1, p);
    }
  }

  // ---------------------------------------------------------------- lifecycle

  /** What every reachable row satisfies. */
  predicate JobOk(j: Job, p: Policy) {
    && (j.status == Queued ==> j.attempts < p.Cap())
    && (j.status == Running ==> 1 <= j.attempts)
    && j.attempts <= p.Cap()
    && (j.status == Running <==> j.worker.Some?)
    && (j.status == Running <==> j.heartbeatAt.Some?)
    && (j.status == Running <==> j.leasedUntil.Some?)
    && (j.status.Terminal() <==> j.completedAt.Some?)
    && (j.status == Queued ==> j.startedAt.None?)
    && (j.status == Running ==> j.startedAt.Some?)
    && (!j.status.Terminal() ==> j.failure.None? && j.runId.None? && j.resultRef.None?)
  }

  /** Every row of every reachable table is well formed, whatever the policy. */
  lemma {:induction false} ReachableRowsOk(h: History, n: nat, id: JobId, p: Policy)
    requires Legal(h, p) && Known(h, n, id)
    ensures JobOk(h.tables[n][id], p)
  {
    if n > 0 {
      assert StepAt(h, n - 1, p);
      if id in h.tables[n-1] {
        ReachableRowsOk(h, n - 1, id, p);
      }
    }
  }

  /**
   A recovery takes every running row whose lease end is past, by however much, away from its worker, keeps
   what it was submitted with, and leaves every other row as it is.
   */
  lemma RecoveryIsExact(h: History, i: nat, id: JobId, p: Policy)
    requires Legal(h, p) && i < |h.events| && h.events[i].Recover? && Known(h, i, id)
    ensures id in h.tables[i+1]
    ensures var j, r, now := h.tables[i][id], h.tables[i+1][id], h.events[i].now;
      if j.status == Running && j.leasedUntil.Some? && j.leasedUntil.value < now then
        && r.status == (if j.attempts < p.Cap() then Queued else Failed)
        && r.worker.None? && r.heartbeatAt.None? && r.leasedUntil.None?
        && r.submittedAt == j.submittedAt && r.attempts == j.attempts && r.cancelRequested == j.cancelRequested
        && (r.status == Queued ==>
              r.startedAt.None? && r.completedAt.None? && r.failure.None? && r.recoveryNote == Some(NoteRequeued))
        && (r.status == Failed ==>
              && r.startedAt == j.startedAt && r.completedAt == Some(now)
              && r.failure == Some(RetriesExhausted) && r.recoveryNote == Some(NoteRetriesExhausted))
      else r == j
  {
    ReachableRowsOk(h, i, id, p);
    assert StepAt(h, i, p);
  }

  /** After a recovery no running row has a lease that ended before its time. */
  lemma NoExpiredLeaseLeft(h: History, i: nat, id: JobId, p: Policy)
    requires Legal(h, p) && i < |h.events| && h.events[i].Recover? && Known(h, i + 1, id)
    requires h.tables[i+1][id].status == Running
    ensures h.tables[i+1][id].leasedUntil.Some? && h.events[i].now <= h.tables[i+1][id].leasedUntil.value
  {
    assert StepAt(h, i, p);
    ReachableRowsOk(h, i + 1, id, p);
    RecoveryIsExact(h, i, id, p);
  }

  /** A job whose lease ran out is given up exactly when its last allowed attempt was the one that did. */
  lemma RecoveryGivesUpLast(h: History, i: nat, id: JobId, p: Policy)
    requires Legal(h, p) && i < |h.events| && h.events[i].Recover? && Known(h, i, id)
    requires h.tables[i][id].leasedUntil.Some? && h.tables[i][id].leasedUntil.value < h.events[i].now
    ensures id in h.tables[i+1]
    ensures h.tables[i+1][id].status == Failed <==> h.tables[i][id].attempts == p.Cap()
    ensures h.tables[i+1][id].status == Queued <==> h.tables[i][id].attempts < p.Cap()
    ensures h.tables[i+1][id].cancelRequested == h.tables[i][id].cancelRequested
  {
    ReachableRowsOk(h, i, id, p);
    assert StepAt(h, i, p);
  }

  predicate StatusChangesAt(h: History, i: nat, id: JobId)
    requires i + 1 < |h.tables|
  {
    && id in h.tables[i] && id in h.tables[i+1]
    && h.tables[i][id].status != h.tables[i+1][id].status
  }

  /** How many of the first `n` events changed the job's status (its submission not counted). */
  function StatusChanges(h: History, n: nat, id: JobId): nat
    requires n < |h.tables|
  {
    if n == 0 then 0 else
      StatusChanges(h, n - 1, id) + (if StatusChangesAt(h, n - 1, id) then 1 else 0)
  }

  /** How many of the first `n` events moved the job into a terminal status. */
  function TerminalEntries(h: History, n: nat, id: JobId): nat
    requires n < |h.tables|
  {
    if n == 0 then 0 else
      TerminalEntries(h, n - 1, id) +
      (if StatusChangesAt(h, n - 1, id) && h.tables[n][id].status.Terminal() then 1 else 0)
  }

  /** The exact relation between a job's status, its attempts and its past. */
  lemma {:induction false} LifecycleCount(h: History, n: nat, id: JobId, p: Policy)
    requires Legal(h, p) && n <= |h.events|
    ensures !Known(h, n, id) ==> StatusChanges(h, n, id) == 0 && TerminalEntries(h, n, id) == 0
    ensures Known(h, n, id) ==>
      var j := h.tables[n][id];
      var c := StatusChanges(h, n, id);
      && (j.status == Queued ==> c == 2 * j.attempts)
      && (j.status == Running ==> c + 1 == 2 * j.attempts)
      && (j.status.Terminal() ==> c == 2 * j.attempts || (c == 2 * j.attempts + 1 && j.attempts < p.Cap()))
      && TerminalEntries(h, n, id) == (if j.status.Terminal() then 1 else 0)
  {
    if n > 0 {
      LifecycleCount(h, n - 1, id, p);
      assert StepAt(h, n - 1, p);
      if id in h.tables[n-1] {
        ReachableRowsOk(h, n - 1, id, p);
      }
    }
  }

  /** A job changes status at most twice per allowed attempt and becomes terminal at most once. */
  lemma LifecycleBound(h: History, n: nat, id: JobId, p: Policy)
    requires Legal(h, p) && n <= |h.events|
    ensures StatusChanges(h, n, id) <= 2 * p.Cap()
    ensures 1 <= p.maxAttempts ==> StatusChanges(h, n, id) <= 2 * p.maxAttempts
    ensures TerminalEntries(h, n, id) <= 1
  {
    LifecycleCount(h, n, id, p);
    if Known(h, n, id) { ReachableRowsOk(h, n, id, p); }
  }

  // ---------------------------------------------------------------- cancellation

  /** What `job_cancel_requested` reports: only a running row is looked at. */
  predicate CancelVisible(t: Table, id: JobId) {
    id in t && t[id].status == Running && t[id].cancelRequested
  }

  /** Once requested, a cancel stays on the row until the row is terminal, across any requeue. */
  lemma {:induction false} CancelRequestSticks(h: History, i: nat, n: nat, id: JobId, p: Policy)
    requires Legal(h, p) && i <= n <= |h.events| && Known(h, i, id)
    requires h.tables[i][id].cancelRequested
    ensures Known(h, n, id)
    ensures !h.tables[n][id].status.Terminal() ==> h.tables[n][id].cancelRequested
    ensures h.tables[n][id].status == Running ==> CancelVisible(h.tables[n], id)
    decreases n
  {
    if i < n {
      CancelRequestSticks(h, i, n - 1, id, p);
      assert StepAt(h, n - 1, p);
      if h.tables[n-1][id].status.Terminal() { RowsStay(h, n - 1, n, id, p); }
    }
  }

  /** The flag is cleared by exactly two kinds of completion, and they end the job. */
  lemma CancelClearedOnlyAtTheEnd(id: JobId, j: Job, e: Event, p: Policy)
    requires j.cancelRequested
    ensures !After(id, j, e, p).cancelRequested <==>
            (e.CompleteSuccess? || e.CompleteCanceled?) && e.id == id && j.status == Running
    ensures !After(id, j, e, p).cancelRequested ==> After(id, j, e, p).status.Terminal()
  {
  }

  datatype CancelOutcome = CanceledFromQueued | CancelRequestedForRunning | AlreadyCanceled
  datatype CancelError = JobNotFound | LeftQueued | LeftRunning | AlreadyTerminal

  /** A cancel whose read is stale, by any amount, leaves a terminal job and every other as they are. */
  lemma StaleCancelIsHarmless(t: Table, id: JobId, now: Time, p: Policy)
    requires id in t && t[id].status.Terminal()
    ensures Apply(t, CancelQueued(id, now), p) == t && Apply(t, FlagCancel(id), p) == t
  {
    forall e | e == CancelQueued(id, now) || e == FlagCancel(id) ensures Apply(t, e, p) == t {
      var r := Apply(t, e, p);
      assert r.Keys == t.Keys;
      assert forall k :: k in t ==> r[k] == t[k];
    }
  }

  /** Before event `n` a cancel was requested while the job was running. */
  ghost predicate Flagged(h: History, n: nat, id: JobId)
    requires |h.tables| == |h.events| + 1 && n <= |h.events|
  {
    exists m :: 0 <= m < n && FlaggedAt(h, m, id)
  }

  predicate FlaggedAt(h: History, m: nat, id: JobId)
    requires |h.tables| == |h.events| + 1 && m < |h.events|
  {
    h.events[m] == FlagCancel(id) && id in h.tables[m] && h.tables[m][id].status == Running
  }

  /**
   The flag is on a row exactly when a cancel was requested while the job was running, now or in an earlier
   attempt, and the job has not succeeded or been cancelled as a running one since.
   */
  lemma {:induction false} FlagIff(h: History, n: nat, id: JobId, p: Policy)
    requires Legal(h, p) && Known(h, n, id)
    ensures h.tables[n][id].cancelRequested <==>
            && Flagged(h, n, id) && h.tables[n][id].status != Succeeded
            && (h.tables[n][id].status == Canceled ==> h.tables[n][id].failure == Some(BeforeStart))
  {
    if n > 0 {
      assert StepAt(h, n - 1, p);
      assert Flagged(h, n, id) <==> Flagged(h, n - 1, id) || FlaggedAt(h, n - 1, id);
      if id in h.tables[n-1] {
        FlagIff(h, n - 1, id, p);
        ReachableRowsOk(h, n - 1, id, p);
      } else {
        NotFlaggedBefore(h, n, id, p);
      }
    }
  }

  lemma NotFlaggedBefore(h: History, n: nat, id: JobId, p: Policy)
    requires Legal(h, p) && 0 < n <= |h.events| && id !in h.tables[n-1]
    ensures !Flagged(h, n, id)
  {
    forall m | 0 <= m < n ensures !FlaggedAt(h, m, id) {
      if id in h.tables[m] { RowsStay(h, m, n - 1, id, p); }
    }
  }

  // ---------------------------------------------------------------- what a row tells about its past

  predicate ClaimOf(e: Event, id: JobId) {
    e.Claim? && e.chosen == Some(id)
  }

  function Claims(h: History, n: nat, id: JobId): nat
    requires n <= |h.events|
  {
    if n == 0 then 0 else Claims(h, n - 1, id) + (if ClaimOf(h.events[n-1], id) then 1 else 0)
  }

  /** A job was attempted as often as it was claimed. */
  lemma {:induction false} AttemptsAreClaims(h: History, n: nat, id: JobId, p: Policy)
    requires Legal(h, p) && n <= |h.events|
    ensures Claims(h, n, id) == if id in h.tables[n] then h.tables[n][id].attempts else 0
  {
    if n > 0 {
      AttemptsAreClaims(h, n - 1, id, p);
      assert StepAt(h, n - 1, p);
    }
  }

  /** A queued row is as it was submitted, or a note says that it was requeued; it names no worker and no end. */
  lemma {:induction false} QueuedRowTells(h: History, n: nat, id: JobId, p: Policy)
    requires Legal(h, p) && Known(h, n, id) && h.tables[n][id].status == Queued
    ensures var j := h.tables[n][id];
      j == Job(j.submittedAt, Queued, None, None, None, j.attempts, None, None, j.cancelRequested, None,
               if j.attempts == 0 then None else Some(NoteRequeued), None, None)
  {
    ReachableRowsOk(h, n, id, p);
    assert StepAt(h, n - 1, p);
    if id in h.tables[n-1] {
      ReachableRowsOk(h, n - 1, id, p);
      if h.tables[n-1][id].status == Queued { QueuedRowTells(h, n - 1, id, p); }
    }
  }

  /**
   A running row was claimed at some event `m`, by the worker it names and at the time it says, and nobody
   claimed it since; its lease and heartbeat are those of event `k`, the last at which that worker set them.
   */
  lemma {:induction false} RunningRowTells(h: History, n: nat, id: JobId, p: Policy) returns (m: nat, k: nat)
    requires Legal(h, p) && Known(h, n, id) && h.tables[n][id].status == Running
    ensures m <= k < n && ClaimOf(h.events[m], id) && forall x :: m < x < n ==> !ClaimOf(h.events[x], id)
    ensures var j, w := h.tables[n][id], h.events[m].worker;
      && j.worker == Some(w) && j.startedAt == Some(h.events[m].now)
      && Leases(h.events[k], id, w) && (forall x :: k < x < n ==> !Leases(h.events[x], id, w))
      && j.leasedUntil == Some(h.events[k].leasedUntil) && j.heartbeatAt == Some(h.events[k].heartbeatAt)
  {
    assert StepAt(h, n - 1, p);
    ReachableRowsOk(h, n - 1, id, p);
    if h.tables[n-1][id].status == Running {
      m, k := RunningRowTells(h, n - 1, id, p);
      if Leases(h.events[n-1], id, h.events[m].worker) { k := n - 1; }
    } else {
      m, k := n - 1, n - 1;
    }
  }

  /** How event `e` ends a job: which it can end, and what the row then says. */
  predicate Ends(id: JobId, j: Job, e: Event, r: Job, p: Policy) {
    && r.submittedAt == j.submittedAt && r.attempts == j.attempts && r.startedAt == j.startedAt
    && match e
       case CompleteSuccess(i, _, now, run, ref) =>
         && i == id && j.status == Running && r.status == Succeeded && r.completedAt == Some(now)
         && r.failure == None && r.runId == run && r.resultRef == ref
       case CompleteCanceled(i, _, now) =>
         && i == id && j.status == Running && r.status == Canceled && r.completedAt == Some(now)
         && r.failure == Some(ByClientRequest)
       case CompleteFailure(i, _, now, code, message) =>
         && i == id && j.status == Running && r.status == Failed && r.completedAt == Some(now)
         && r.failure == Some(Reported(code, message))
       case CancelQueued(i, now) =>
         && i == id && j.status == Queued && r.status == Canceled && r.completedAt == Some(now)
         && r.failure == Some(BeforeStart)
       case Recover(now) =>
         && j.status == Running && j.leasedUntil.Some? && j.leasedUntil.value < now && j.attempts == p.Cap()
         && r.status == Failed && r.completedAt == Some(now)
         && r.failure == Some(RetriesExhausted) && r.recoveryNote == Some(NoteRetriesExhausted)
       case _ => false
  }

  /** A terminal row was written by one event, which ended the job as the row says, and never touched again. */
  lemma {:induction false} TerminalRowTells(h: History, n: nat, id: JobId, p: Policy) returns (m: nat)
    requires Legal(h, p) && Known(h, n, id) && h.tables[n][id].status.Terminal()
    ensures m < n && Known(h, m, id) && !h.tables[m][id].status.Terminal()
    ensures Ends(id, h.tables[m][id], h.events[m], h.tables[n][id], p)
    ensures forall x :: m < x <= n ==> Known(h, x, id) && h.tables[x][id] == h.tables[n][id]
  {
    assert StepAt(h, n - 1, p);
    ReachableRowsOk(h, n - 1, id, p);
    if h.tables[n-1][id].status.Terminal() {
      m := TerminalRowTells(h, n - 1, id, p);
    } else {
      m := n - 1;
    }
  }

  // ---------------------------------------------------------------- at most one executor

  predicate Finishes(e: Event, id: JobId) {
    (e.CompleteSuccess? || e.CompleteCanceled? || e.CompleteFailure?) && e.id == id
  }

  /** The event gives `w` the lease of `id`, or extends it. */
  predicate Leases(e: Event, id: JobId, w: WorkerId) {
    (e.Claim? && e.chosen == Some(id) && e.worker == w) || (e.Renew? && e.id == id && e.worker == w)
  }

  /** The clock never goes backwards, and a recovery compares leases with a time already past. */
  predicate ClockOk(events: seq<Event>, clock: seq<Time>) {
    && |clock| == |events|
    && (forall i, k :: 0 <= i < k < |events| ==> clock[i] <= clock[k])
    && (forall i :: 0 <= i < |events| && events[i].Recover? ==> events[i].now <= clock[i])
  }

  /** At `n`, after `i` and no later than `to`, the owner renews or the job is finished, by `deadline`. */
  predicate ActsInTime(events: seq<Event>, clock: seq<Time>, id: JobId, w: WorkerId,
                       i: nat, n: nat, to: nat, deadline: Time)
    requires |clock| == |events| && to < |events|
  {
    i < n <= to && (Leases(events[n], id, w) || Finishes(events[n], id)) && clock[n] <= deadline
  }

  /**
   The owner acts in time up to `to`: whenever it takes or extends the lease at `i`, the lease it set is
   still open at `to`, or it renews, or the job is finished, no later than the lease end.
   */
  ghost predicate Punctual(events: seq<Event>, clock: seq<Time>, id: JobId, w: WorkerId, from: nat, to: nat)
    requires |clock| == |events| && from <= to < |events|
  {
    forall i :: from <= i < to && Leases(events[i], id, w) ==>
      || clock[to] <= events[i].leasedUntil
      || exists n: nat :: ActsInTime(events, clock, id, w, i, n, to, events[i].leasedUntil)
  }

  predicate Held(t: Table, id: JobId, w: WorkerId, attempts: nat) {
    id in t && t[id].status == Running && t[id].worker == Some(w) && t[id].attempts == attempts
  }

  /** The lease on the row was set by event `i`, and the owner has not touched it since. */
  predicate LeaseFrom(h: History, k: nat, i: nat, id: JobId, w: WorkerId)
    requires i < k < |h.tables| && k <= |h.events|
  {
    && Leases(h.events[i], id, w)
    && id in h.tables[k] && h.tables[k][id].leasedUntil == Some(h.events[i].leasedUntil)
    && forall m :: i < m < k ==> !Leases(h.events[m], id, w)
  }

  /** One event, with the clock still inside the lease: the owner keeps the row. */
  lemma HeldStep(id: JobId, j: Job, e: Event, w: WorkerId, p: Policy)
    requires j.status == Running && j.worker == Some(w) && j.leasedUntil.Some?
    requires !Finishes(e, id) && (e.Recover? ==> e.now <= j.leasedUntil.value)
    ensures var r := After(id, j, e, p);
      && r.status == Running && r.worker == Some(w) && r.attempts == j.attempts
      && r.leasedUntil == (if e.Renew? && Leases(e, id, w) then Some(e.leasedUntil) else j.leasedUntil)
  {
  }

  /** One event of a history, with the clock still inside the lease that event `j` set. */
  lemma LeaseStep(h: History, id: JobId, w: WorkerId, attempts: nat, j: nat, k: nat, p: Policy) returns (i: nat)
    requires Legal(h, p) && j < k < |h.events|
    requires Held(h.tables[k], id, w, attempts) && LeaseFrom(h, k, j, id, w)
    requires !Finishes(h.events[k], id)
    requires h.events[k].Recover? ==> h.events[k].now <= h.events[j].leasedUntil
    ensures Held(h.tables[k+1], id, w, attempts) && j <= i <= k && LeaseFrom(h, k + 1, i, id, w)
  {
    var e := h.events[k];
    assert StepAt(h, k, p);
    HeldStep(id, h.tables[k][id], e, w, p);
    assert !(e.Claim? && e.chosen == Some(id));
    i := if Leases(e, id, w) then k else j;
  }

  lemma {:induction false} OwnerKeepsLease(
    h: History, clock: seq<Time>, id: JobId, w: WorkerId, from: nat, to: nat, k: nat, p: Policy)
    returns (i: nat)
    requires Legal(h, p) && ClockOk(h.events, clock)
    requires from < k <= to < |h.events|
    requires h.events[from].Claim? && h.events[from].chosen == Some(id) && h.events[from].worker == w
    requires Punctual(h.events, clock, id, w, from, to)
    requires forall m :: from < m < k ==> !Finishes(h.events[m], id)
    ensures Known(h, from, id) && Held(h.tables[k], id, w, h.tables[from][id].attempts + 1)
    ensures from <= i < k && LeaseFrom(h, k, i, id, w)
    ensures clock[k] <= h.events[i].leasedUntil
    decreases k
  {
    assert StepAt(h, k - 1, p);
    if k == from + 1 {
      i := from;
    } else {
      var j := OwnerKeepsLease(h, clock, id, w, from, to, k - 1, p);
      i := LeaseStep(h, id, w, h.tables[from][id].attempts + 1, j, k - 1, p);
    }
    DeadlineNotPassed(h.events, clock, id, w, from, to, i, k);
  }

  /** Until the owner acts again, the clock is within the lease it last set. */
  lemma DeadlineNotPassed(
    events: seq<Event>, clock: seq<Time>, id: JobId, w: WorkerId, from: nat, to: nat, i: nat, k: nat)
    requires ClockOk(events, clock) && from <= i < k <= to < |events|
    requires Punctual(events, clock, id, w, from, to) && Leases(events[i], id, w)
    requires forall m :: i < m < k ==> !Leases(events[m], id, w) && !Finishes(events[m], id)
    ensures clock[k] <= events[i].leasedUntil
  {
    if clock[to] > events[i].leasedUntil {
      var n: nat :| ActsInTime(events, clock, id, w, i, n, to, events[i].leasedUntil);
    }
  }

  /**
   From its claim at `from` until the job is finished, a punctual owner keeps the job: at every
   moment in between the row is running, owned by that worker, in the same attempt; no recovery
   changes it and no claim hands it out again. Every interleaving of other workers is allowed.
   */
  lemma AtMostOneExecutor(
    h: History, clock: seq<Time>, id: JobId, w: WorkerId, from: nat, to: nat, k: nat, p: Policy)
    requires Legal(h, p) && ClockOk(h.events, clock)
    requires from < k <= to < |h.events|
    requires h.events[from].Claim? && h.events[from].chosen == Some(id) && h.events[from].worker == w
    requires Punctual(h.events, clock, id, w, from, to)
    requires forall m :: from < m < k ==> !Finishes(h.events[m], id)
    ensures Known(h, from, id) && Held(h.tables[k], id, w, h.tables[from][id].attempts + 1)
    ensures h.events[k].Recover? ==> id in h.tables[k+1] && h.tables[k+1][id] == h.tables[k][id]
    ensures h.events[k].Claim? ==> h.events[k].chosen != Some(id)
  {
    var i := OwnerKeepsLease(h, clock, id, w, from, to, k, p);
    assert StepAt(h, k, p);
  }

  // ---------------------------------------------------------------- who finishes an attempt

  /** At `n` worker `a`, which claimed the job at `m`, finishes an attempt that `b` holds. */
  ghost predicate FinishesAnothers(h: History, m: nat, n: nat, id: JobId, a: WorkerId, b: WorkerId)
    requires |h.tables| == |h.events| + 1
  {
    && m < n < |h.events| && a != b
    && h.events[m].Claim? && h.events[m].chosen == Some(id) && h.events[m].worker == a
    && Finishes(h.events[n], id) && h.events[n].worker == a
    && id in h.tables[n] && h.tables[n][id].status == Running && h.tables[n][id].worker == Some(b)
  }

  /** Within one attempt a running row has one worker. */
  lemma {:induction false} OneWorkerPerAttempt(h: History, i: nat, n: nat, id: JobId, w: WorkerId, p: Policy)
    requires Legal(h, p) && i <= n <= |h.events| && Known(h, i, id)
    requires h.tables[i][id].status == Running && h.tables[i][id].worker == Some(w)
    ensures Known(h, n, id) && h.tables[i][id].attempts <= h.tables[n][id].attempts
    ensures h.tables[n][id].status == Running && h.tables[n][id].attempts == h.tables[i][id].attempts ==>
              h.tables[n][id].worker == Some(w)
    decreases n
  {
    RowsStay(h, i, n, id, p);
    if i < n {
      OneWorkerPerAttempt(h, i, n - 1, id, w, p);
      assert StepAt(h, n - 1, p);
    }
  }

  lemma AnothersAttemptIsASecondOne(h: History, m: nat, n: nat, id: JobId, a: WorkerId, b: WorkerId, p: Policy)
    requires Legal(h, p) && FinishesAnothers(h, m, n, id, a, b)
    ensures p.Limit() >= 2
  {
    assert StepAt(h, m, p);
    OneWorkerPerAttempt(h, m + 1, n, id, a, p);
    ReachableRowsOk(h, n, id, p);
  }

  /** A history in which `a` loses its lease, `b` is handed the job, and `a` finishes it. */
  lemma LateFinish(id: JobId, a: WorkerId, b: WorkerId, p: Policy) returns (h: History)
    requires p.Limit() >= 2 && a != b
    ensures Legal(h, p) && |h.events| == 5 && FinishesAnothers(h, 1, 4, id, a, b)
    ensures Held(h.tables[4], id, b, 2) && id in h.tables[5] && h.tables[5][id].status == Succeeded
  {
    var e2, e3, e4 := Recover(3), Claim(Some(id), b, 4, 4, 5), CompleteSuccess(id, a, 5, None, None);
    var h2, j2 := FirstClaim(id, a, 2, p);
    var j3 := Recovered(j2, 3, p);
    var j4 := Claimed(j3, b, 4, 4, 5);
    var h3 := ExtendOneRow(h2, id, j2, e2, j3, p);
    var h4 := ExtendOneRow(h3, id, j3, e3, j4, p);
    h := ExtendOneRow(h4, id, j4, e4, After(id, j4, e4, p), p);
  }

  /**
   The store does not keep a worker that lost its lease from finishing the attempt of another: for any job
   and any two workers there is such a history exactly when a job may be attempted twice.
   */
  lemma LateOwnerCanFinishAnothersAttempt(id: JobId, a: WorkerId, b: WorkerId, p: Policy)
    requires a != b
    ensures p.Limit() >= 2 <==> exists h, m: nat, n: nat :: Legal(h, p) && FinishesAnothers(h, m, n, id, a, b)
  {
    if p.Limit() >= 2 {
      var h := LateFinish(id, a, b, p);
      assert Legal(h, p) && FinishesAnothers(h, 1, 4, id, a, b);
    }
    if h, m: nat, n: nat :| Legal(h, p) && FinishesAnothers(h, m, n, id, a, b) {
      AnothersAttemptIsASecondOne(h, m, n, id, a, b, p);
    }
  }

  /** Event `m` gave `w` a lease of `id`, and it was the last to do so before `n`. */
  ghost predicate LastLease(h: History, m: nat, n: nat, id: JobId, w: WorkerId)
    requires |h.tables| == |h.events| + 1
  {
    && m < n <= |h.events| && Leases(h.events[m], id, w)
    && id in h.tables[m+1] && h.tables[m+1][id].status == Running && h.tables[m+1][id].worker == Some(w)
    && h.tables[m+1][id].leasedUntil == Some(h.events[m].leasedUntil)
    && forall k :: m < k < n ==> !Leases(h.events[k], id, w)
  }

  lemma {:induction false} LeaseLasts(h: History, clock: seq<Time>, m: nat, k: nat, id: JobId, w: WorkerId, p: Policy)
    requires Legal(h, p) && ClockOk(h.events, clock) && LastLease(h, m, k, id, w)
    requires k > m + 1 ==> clock[k-1] <= h.events[m].leasedUntil
    ensures id in h.tables[k]
    ensures h.tables[k][id].status.Terminal() ||
            (h.tables[k][id].status == Running && h.tables[k][id].worker == Some(w)
             && h.tables[k][id].leasedUntil == Some(h.events[m].leasedUntil))
    decreases k
  {
    if k > m + 1 {
      LeaseLasts(h, clock, m, k - 1, id, w, p);
      assert StepAt(h, k - 1, p);
    }
  }

  /**
   A completion made within the lease its worker last set finishes only an attempt that this worker
   holds, whatever the other workers do; otherwise it finds the job finished and changes nothing.
   */
  lemma OnTimeFinishIsOwn(h: History, clock: seq<Time>, m: nat, n: nat, id: JobId, w: WorkerId, p: Policy)
    requires Legal(h, p) && ClockOk(h.events, clock) && n < |h.events|
    requires Finishes(h.events[n], id) && h.events[n].worker == w
    requires LastLease(h, m, n, id, w) && clock[n] <= h.events[m].leasedUntil
    ensures id in h.tables[n]
    ensures h.tables[n][id].status == Running ==> h.tables[n][id].worker == Some(w)
    ensures h.tables[n][id].status != Running ==> h.tables[n+1] == h.tables[n]
  {
    LeaseLasts(h, clock, m, n, id, w, p);
    assert StepAt(h, n, p);
    if h.tables[n][id].status != Running {
      assert h.tables[n+1].Keys == h.tables[n].Keys;
      assert forall k :: k in h.tables[n] ==> h.tables[n+1][k] == h.tables[n][k];
    }
  }

  /** The history of one job, submitted and claimed by `w` for `lease` seconds. */
  lemma FirstClaim(id: JobId, w: WorkerId, lease: Time, p: Policy) returns (h: History, j: Job)
    ensures Legal(h, p) && h.events == [Insert(id, 0), Claim(Some(id), w, 0, 0, lease)]
    ensures h.tables[2] == map[id := j] && j == Claimed(NewJob(0), w, 0, 0, lease)
  {
    var h0 := History([], [map[]]);
    var h1 := Extend(h0, Insert(id, 0), p);
    ExtendKeepsLegal(h0, Insert(id, 0), p);
    assert h1.tables[1] == map[id := NewJob(0)];
    j := Claimed(NewJob(0), w, 0, 0, lease);
    h := ExtendOneRow(h1, id, NewJob(0), Claim(Some(id), w, 0, 0, lease), j, p);
  }

  lemma ExtendOneRow(h: History, id: JobId, j: Job, e: Event, r: Job, p: Policy) returns (x: History)
    requires Legal(h, p) && h.tables[|h.events|] == map[id := j]
    requires !e.Insert? && (e.Claim? ==> e.chosen == Some(id) && j.status == Queued)
    requires r == After(id, j, e, p)
    ensures Legal(x, p) && x.tables[|x.events|] == map[id := r]
    ensures x.events == h.events + [e] && x.tables == h.tables + [map[id := r]]
  {
    ExtendKeepsLegal(h, e, p);
    x := Extend(h, e, p);
  }

  // ---------------------------------------------------------------- bounded bypass

  /** Event `i` claims some other job although `id` is queued. */
  predicate Bypass(h: History, i: nat, id: JobId)
    requires i < |h.events| && i < |h.tables|
  {
    && h.events[i].Claim? && h.events[i].chosen.Some? && h.events[i].chosen.value != id
    && id in h.tables[i] && h.tables[i][id].status == Queued
  }

  /** How often another job was claimed while `id` was queued, in the first `n` events. */
  function Bypasses(h: History, n: nat, id: JobId): nat
    requires n <= |h.events| && n < |h.tables|
  {
    if n == 0 then 0 else
      Bypasses(h, n - 1, id) + (if Bypass(h, n - 1, id) then 1 else 0)
  }

  /** The part of those claims that went to jobs of `ks`. */
  function BypassesIn(h: History, n: nat, id: JobId, ks: set<JobId>): nat
    requires n <= |h.events| && n < |h.tables|
  {
    if n == 0 then 0 else
      BypassesIn(h, n - 1, id, ks) +
      (if Bypass(h, n - 1, id) && h.events[n-1].chosen.value in ks then 1 else 0)
  }

  /** The other jobs that were not submitted after `id`. */
  function NotYounger(t: Table, id: JobId): set<JobId>
    requires id in t
  {
    set k | k in t && k != id && t[k].submittedAt <= t[id].submittedAt
  }

  lemma {:induction false} BypassesSplit(h: History, n: nat, id: JobId, ks: set<JobId>, k: JobId)
    requires n <= |h.events| && n < |h.tables| && k in ks
    ensures BypassesIn(h, n, id, ks) == BypassesIn(h, n, id, ks - {k}) + BypassesIn(h, n, id, {k})
  {
    if n > 0 { BypassesSplit(h, n - 1, id, ks, k); }
  }

  lemma {:induction false} NoBypassInEmptySet(h: History, n: nat, id: JobId)
    requires n <= |h.events| && n < |h.tables|
    ensures BypassesIn(h, n, id, {}) == 0
  {
    if n > 0 { NoBypassInEmptySet(h, n - 1, id); }
  }

  /** Each bypass by `k` uses up one of its attempts. */
  lemma {:induction false} BypassesByOneJob(h: History, n: nat, id: JobId, k: JobId, p: Policy)
    requires Legal(h, p) && n <= |h.events|
    ensures BypassesIn(h, n, id, {k}) <= (if k in h.tables[n] then h.tables[n][k].attempts else 0)
  {
    if n > 0 {
      BypassesByOneJob(h, n - 1, id, k, p);
      assert StepAt(h, n - 1, p);
      if k in h.tables[n-1] { RowsStay(h, n - 1, n, k, p); }
    }
  }

  lemma {:induction false} BypassesBySet(h: History, n: nat, id: JobId, ks: set<JobId>, p: Policy)
    requires Legal(h, p) && n <= |h.events|
    ensures BypassesIn(h, n, id, ks) <= p.Cap() * |ks|
    decreases |ks|
  {
    if ks == {} {
      NoBypassInEmptySet(h, n, id);
    } else {
      var k :| k in ks;
      BypassesSplit(h, n, id, ks, k);
      BypassesByOneJob(h, n, id, k, p);
      if Known(h, n, k) { ReachableRowsOk(h, n, k, p); }
      BypassesBySet(h, n, id, ks - {k}, p);
      assert |ks| == |ks - {k}| + 1;
      assert p.Cap() * |ks| == p.Cap() * |ks - {k}| + p.Cap();
    }
  }

  /** Claims go to an oldest queued job, so only a job that is not younger can bypass. */
  lemma {:induction false} OnlyNotYoungerBypass(
    h: History, m: nat, n: nat, id: JobId, ks: set<JobId>, p: Policy)
    requires Legal(h, p) && m <= n <= |h.events| && Known(h, n, id)
    requires NotYounger(h.tables[n], id) <= ks
    ensures Bypasses(h, m, id) == BypassesIn(h, m, id, ks)
    decreases m
  {
    if m > 0 {
      OnlyNotYoungerBypass(h, m - 1, n, id, ks, p);
      if Bypass(h, m - 1, id) {
        assert StepAt(h, m - 1, p);
        var k := h.events[m-1].chosen.value;
        RowsStay(h, m - 1, n, id, p);
        RowsStay(h, m - 1, n, k, p);
        assert k in NotYounger(h.tables[n], id);
      }
    }
  }

  /** Bounded bypass, with ties in submission time allowed. */
  lemma BoundedBypass(h: History, n: nat, id: JobId, p: Policy)
    requires Legal(h, p) && n <= |h.events| && Known(h, n, id)
    ensures Bypasses(h, n, id) <= p.Cap() * |NotYounger(h.tables[n], id)|
  {
    OnlyNotYoungerBypass(h, n, n, id, NotYounger(h.tables[n], id), p);
    BypassesBySet(h, n, id, NotYounger(h.tables[n], id), p);
  }

  predicate SubmissionsIncrease(events: seq<Event>) {
    forall i, k :: 0 <= i < k < |events| && events[i].Insert? && events[k].Insert? ==> events[i].now < events[k].now
  }

  lemma {:induction false} SubmittedByAnInsert(h: History, n: nat, id: JobId, p: Policy) returns (i: nat)
    requires Legal(h, p) && Known(h, n, id)
    ensures i < n && h.events[i].Insert? && id !in h.tables[i] && id in h.tables[i+1]
    ensures h.events[i].id == id && h.tables[n][id].submittedAt == h.events[i].now
  {
    assert n > 0;
    assert StepAt(h, n - 1, p);
    if id in h.tables[n-1] {
      i := SubmittedByAnInsert(h, n - 1, id, p);
      RowsStay(h, n - 1, n, id, p);
    } else {
      i := n - 1;
    }
  }

  /**
   When submission times strictly increase, the claims that overtake a job number at most the
   attempt limit times the jobs that were in the table when it was submitted, at event `i`.
   */
  lemma BoundedBypassInOrder(h: History, i: nat, n: nat, p: Policy)
    requires Legal(h, p) && SubmissionsIncrease(h.events)
    requires i < n <= |h.events| && h.events[i].Insert? && h.events[i].id !in h.tables[i]
    ensures Bypasses(h, n, h.events[i].id) <= p.Cap() * |h.tables[i]|
  {
    var id := h.events[i].id;
    assert StepAt(h, i, p);
    RowsStay(h, i + 1, n, id, p);
    forall k | k in NotYounger(h.tables[n], id) ensures k in h.tables[i] {
      var s := SubmittedByAnInsert(h, n, k, p);
      assert s < i;
      RowsStay(h, s + 1, i, k, p);
    }
    OnlyNotYoungerBypass(h, n, n, id, h.tables[i].Keys, p);
    BypassesBySet(h, n, id, h.tables[i].Keys, p);
    assert |h.tables[i].Keys| == |h.tables[i]|;
  }
}
