/** The life of a dataset in a batch run, the recovery of a journal after a crash, and run status. */
module BatchLifecycle {
  import opened Common
  import opened Sorting

  datatype DatasetState =
    | Pending
    | PlanningValidated
    | Running
    | RepairComplete
    | Verifying
    | Succeeded
    | Blocked
    | FailedRecoverable
    | FailedPermanent
    | Cancelled
    | StaleSource
    | VerificationFailed

  predicate IsTerminal(s: DatasetState) {
    s.Succeeded? || s.Blocked? || s.FailedPermanent? || s.Cancelled? || s.VerificationFailed? || s.StaleSource?
  }

  predicate IsRunnable(s: DatasetState) {
    s.Pending? || s.FailedRecoverable?
  }

  function RecoverAfterCrash(s: DatasetState): DatasetState {
    match s
    case Running => FailedRecoverable
    case RepairComplete => FailedRecoverable
    case Verifying => FailedRecoverable
    case PlanningValidated => FailedRecoverable
    case _ => s
  }

  predicate CanTransition(from: DatasetState, to: DatasetState) {
    || from == to
    || match from
       case Pending => (to.PlanningValidated? || to.StaleSource? || to.Cancelled?)
       case PlanningValidated =>
         (to.Running? || to.StaleSource? || to.Cancelled? || to.Blocked? || to.FailedRecoverable?)
       case Running =>
         (to.RepairComplete? || to.FailedRecoverable? || to.FailedPermanent? || to.VerificationFailed? || to.Cancelled?)
       case RepairComplete => (to.Verifying? || to.FailedRecoverable? || to.FailedPermanent? || to.VerificationFailed?)
       case Verifying => (to.Succeeded? || to.FailedRecoverable? || to.FailedPermanent? || to.VerificationFailed?)
       case FailedRecoverable => to == Running
       case Cancelled => to == FailedRecoverable
       case _ => false
  }

  /** The relation read by target: where each state can be entered from. */
  lemma EnteredFrom(from: DatasetState, to: DatasetState)
    requires from != to
    ensures CanTransition(from, to) <==>
            match to
            case Pending => false
            case PlanningValidated => from.Pending?
            case Running => from.PlanningValidated? || from.FailedRecoverable?
            case RepairComplete => from.Running?
            case Verifying => from.RepairComplete?
            case Succeeded => from.Verifying?
            case Blocked => from.PlanningValidated?
            case FailedRecoverable => InFlight(from) || from.Cancelled?
            case FailedPermanent => from.Running? || from.RepairComplete? || from.Verifying?
            case VerificationFailed => from.Running? || from.RepairComplete? || from.Verifying?
            case StaleSource => from.Pending? || from.PlanningValidated?
            case Cancelled => from.Pending? || from.PlanningValidated? || from.Running?
  {
  }

  /** Every state is waiting, in flight or terminal, and only one of these; terminal ones are settled or cancelled. */
  lemma StatesDivide(s: DatasetState)
    ensures IsRunnable(s) <==> !InFlight(s) && !IsTerminal(s)
    ensures !(InFlight(s) && IsTerminal(s))
    ensures IsTerminal(s) <==> Settled(s) || s.Cancelled?
    ensures Settled(s) <==> forall t :: CanTransition(s, t) ==> t == s
    ensures InFlight(s) <==> RecoverAfterCrash(s) != s
  {
    if !Settled(s) {
      var t := if s.Pending? then PlanningValidated else if s.FailedRecoverable? then Running else FailedRecoverable;
      assert CanTransition(s, t);
    }
  }

  datatype IllegalTransition = IllegalTransition(from: DatasetState, to: DatasetState)

  /** States a dataset never leaves; `Cancelled` counts as terminal but is not one of them. */
  predicate Settled(s: DatasetState) {
    s.Succeeded? || s.Blocked? || s.FailedPermanent? || s.StaleSource? || s.VerificationFailed?
  }

  predicate InFlight(s: DatasetState) {
    s.PlanningValidated? || s.Running? || s.RepairComplete? || s.Verifying?
  }

  // ---------------------------------------------------------------- traces

  /** One step of a dataset: a transition, or recovery after a crash. */
  predicate Moves(from: DatasetState, to: DatasetState) {
    CanTransition(from, to) || to == RecoverAfterCrash(from)
  }

  ghost predicate Trace(t: seq<DatasetState>) {
    && t != [] && t[0] == Pending
    && forall i :: 0 <= i < |t| - 1 ==> Moves(t[i], t[i+1])
  }

  /** The trace up to position `n`, without its stutters. */
  function Changes(t: seq<DatasetState>, n: nat): (r: seq<DatasetState>)
    requires n < |t|
    ensures r != [] && r[|r|-1] == t[n]
  {
    if n == 0 then [t[0]]
    else if t[n] == t[n-1] then Changes(t, n - 1)
    else Changes(t, n - 1) + [t[n]]
  }

  /** Position `k` is the last before `n` with a state other than the one at `n`. */
  lemma {:induction false} LastChange(t: seq<DatasetState>, n: nat) returns (k: nat)
    requires n < |t| && t[n] != t[0]
    ensures k < n && t[k] != t[n] && t[k+1] == t[n]
    ensures Changes(t, n) == Changes(t, k) + [t[n]]
  {
    if t[n] == t[n-1] { k := LastChange(t, n - 1); } else { k := n - 1; }
  }

  lemma OnlyFrom(from: DatasetState, to: DatasetState)
    requires Moves(from, to) && from != to
    ensures to == Succeeded ==> from == Verifying
    ensures to == Verifying ==> from == RepairComplete
    ensures to == RepairComplete ==> from == Running
  {
  }

  /** The move that led to the state at `n`, and what it came from. */
  lemma LastArrow(t: seq<DatasetState>, n: nat) returns (k: nat)
    requires Trace(t) && n < |t| && t[n] != Pending
    ensures k < n && Changes(t, n) == Changes(t, k) + [t[n]]
    ensures t[n] == Succeeded ==> t[k] == Verifying
    ensures t[n] == Verifying ==> t[k] == RepairComplete
    ensures t[n] == RepairComplete ==> t[k] == Running
  {
    k := LastChange(t, n);
    OnlyFrom(t[k], t[k+1]);
  }

  /** The last four states are running, repair complete, verifying and succeeded. */
  predicate Earned(c: seq<DatasetState>) {
    var n := |c|;
    n >= 4 && c[n-4] == Running && c[n-3] == RepairComplete && c[n-2] == Verifying && c[n-1] == Succeeded
  }

  /**
   On every trace of transitions and crash recoveries, a dataset that has succeeded went through
   running, repair complete and verifying last, in that order and without a detour.
   */
  lemma SuccessWasEarned(t: seq<DatasetState>, n: nat, c: seq<DatasetState>)
    requires Trace(t) && n < |t| && t[n] == Succeeded && c == Changes(t, n)
    ensures Earned(c)
  {
    var k := LastArrow(t, n);
    var l := LastArrow(t, k);
    var m := LastArrow(t, l);
    assert c == Changes(t, m) + [RepairComplete] + [Verifying] + [Succeeded];
  }

  /** A settled state is never left. */
  lemma {:induction false} SettledForever(t: seq<DatasetState>, i: nat, j: nat)
    requires Trace(t) && i <= j < |t| && Settled(t[i])
    ensures t[j] == t[i]
  {
    if i < j {
      SettledForever(t, i, j - 1);
      assert Moves(t[j-1], t[j]);
    }
  }

  /** `Cancelled` is terminal for a run and still not the end of a dataset. */
  lemma CancelledIsNotSettled()
    ensures IsTerminal(Cancelled) && Moves(Cancelled, FailedRecoverable) && Moves(FailedRecoverable, Running)
  {
  }

  /** A dataset's state, changed only along the transition relation. */
  class DatasetRun {
    var state: DatasetState
    ghost var trace: seq<DatasetState>

    ghost predicate Valid()
      reads this
    {
      Trace(trace) && trace[|trace|-1] == state
    }

    constructor ()
      ensures Valid() && state == Pending && trace == [Pending]
    {
      state := Pending;
      trace := [Pending];
    }

    /** `apply_transition`. */
    method ApplyTransition(to: DatasetState) returns (r: Result<(), IllegalTransition>)
      requires Valid()
      modifies this
      ensures Valid()
      ensures r.Ok? <==> CanTransition(old(state), to)
      ensures r.Ok? ==> state == to && trace == old(trace) + [to]
      ensures r.Err? ==> r.error == IllegalTransition(old(state), to) && state == old(state) && trace == old(trace)
    {
      if CanTransition(state, to) {
        state := to;
        trace := trace + [to];
        return Ok(());
      }
      return Err(IllegalTransition(state, to));
    }

    method Recover()
      requires Valid()
      modifies this
      ensures Valid() && state == RecoverAfterCrash(old(state)) && trace == old(trace) + [state]
      ensures !InFlight(state)
    {
      state := RecoverAfterCrash(state);
      trace := trace + [state];
    }
  }

  // ---------------------------------------------------------------- the journal

  datatype FailureClass =
    | RecoverableFailure
    | PermanentFailure
    | BlockedFailure
    | StaleFailure
    | VerificationFailure
    | CancelledFailure

  /** `interrupted` stands for the message naming the state the record was recovered from. */
  datatype Record = Record(id: string, state: DatasetState, errorClass: Option<FailureClass>,
                           interrupted: Option<DatasetState>, updatedAt: int)

  function Recovered(r: Record, now: int): Record {
    if RecoverAfterCrash(r.state) == r.state then r
    else r.(state := RecoverAfterCrash(r.state), errorClass := Some(RecoverableFailure),
            interrupted := Some(r.state), updatedAt := now)
  }

  ghost predicate DistinctRecords(records: seq<Record>) {
    forall i, j :: 0 <= i < j < |records| ==> records[i].id != records[j].id
  }

  /** Records are keyed by dataset id, as the journal table is. */
  class Journal {
    var records: seq<Record>

    ghost predicate Valid()
      reads this
    {
      DistinctRecords(records)
    }

    constructor ()
      ensures Valid() && records == []
    {
      records := [];
    }

    /** Insert the record, or replace the one with its id. */
    method Upsert(record: Record)
      requires Valid()
      modifies this
      ensures Valid()
      ensures if exists i :: 0 <= i < |old(records)| && old(records)[i].id == record.id
              then |records| == |old(records)| && forall i :: 0 <= i < |records| ==>
                     records[i] == if old(records)[i].id == record.id then record else old(records)[i]
              else records == old(records) + [record]
    {
      for i := 0 to |records|
        invariant records == old(records)
        invariant forall j :: 0 <= j < i ==> records[j].id != record.id
      {
        if records[i].id == record.id {
          records := records[i := record];
          return;
        }
      }
      records := records + [record];
    }

    /** `recover_journal_states`: in place, record by record over a snapshot of the journal. */
    method RecoverJournalStates(now: int)
      requires Valid()
      modifies this
      ensures Valid() && |records| == |old(records)|
      ensures forall i :: 0 <= i < |records| ==> records[i] == Recovered(old(records)[i], now)
    {
      var snapshot := records;
      for k := 0 to |snapshot|
        invariant Valid() && |records| == |snapshot|
        invariant forall i :: 0 <= i < k ==> records[i] == Recovered(snapshot[i], now)
        invariant forall i :: k <= i < |snapshot| ==> records[i] == snapshot[i]
      {
        var record := snapshot[k];
        var state := RecoverAfterCrash(record.state);
        if state != record.state {
          ghost var before := records;
          assert before[k].id == record.id;
          Upsert(record.(state := state, errorClass := Some(RecoverableFailure),
                         interrupted := Some(record.state), updatedAt := now));
          assert forall i :: 0 <= i < |before| && i != k ==> before[i].id != before[k].id;
        }
      }
    }
  }

  /** Recovery leaves nothing in flight, changes no settled record, and doing it again changes nothing. */
  lemma RecoverySettles(r: Record, now: int, later: int)
    ensures !InFlight(Recovered(r, now).state)
    ensures Settled(r.state) ==> Recovered(r, now) == r
    ensures Recovered(Recovered(r, now), later) == Recovered(r, now)
    ensures Recovered(r, now).id == r.id && Moves(r.state, Recovered(r, now).state)
    ensures !InFlight(r.state) <==> Recovered(r, now) == r
    ensures InFlight(r.state) ==>
              Recovered(r, now) == Record(r.id, FailedRecoverable, Some(RecoverableFailure), Some(r.state), now)
  {
  }

  // ---------------------------------------------------------------- status

  function Find(records: seq<Record>, id: string): (r: Option<Record>)
    ensures r.Some? ==> r.value in records && r.value.id == id
    ensures r.None? ==> forall i :: 0 <= i < |records| ==> records[i].id != id
  {
    if records == [] then None
    else if records[0].id == id then Some(records[0])
    else
      var r := Find(records[1..], id);
      assert r.None? ==> forall i :: 0 < i < |records| ==> records[i] == records[1..][i-1];
      r
  }

  predicate DatasetComplete(records: seq<Record>, id: string) {
    Find(records, id).Some? && IsTerminal(Find(records, id).value.state)
  }

  predicate RunIsComplete(plan: seq<string>, records: seq<Record>) {
    forall i :: 0 <= i < |plan| ==> DatasetComplete(records, plan[i])
  }

  datatype Status = Status(completed: bool, resumable: bool)

  predicate Resumes(s: DatasetState) {
    IsRunnable(s) || s == FailedRecoverable || s == Cancelled
  }

  /** The two flags of `read_status`; `cancelledAt` is set on a run that was cancelled. */
  function ReadStatus(plan: seq<string>, records: seq<Record>, cancelledAt: bool): Status {
    var completed := RunIsComplete(plan, records);
    Status(completed,
           && !completed
           && (cancelledAt || |records| < |plan| || exists i :: 0 <= i < |records| && Resumes(records[i].state)))
  }

  /** A run is complete exactly when every planned dataset has a terminal record. */
  lemma CompleteIff(plan: seq<string>, records: seq<Record>)
    requires DistinctRecords(records)
    ensures RunIsComplete(plan, records) <==>
            forall id :: id in plan ==>
              exists i :: 0 <= i < |records| && records[i].id == id && IsTerminal(records[i].state)
  {
    forall id ensures DatasetComplete(records, id) <==>
                      exists i :: 0 <= i < |records| && records[i].id == id && IsTerminal(records[i].state)
    {
      if DatasetComplete(records, id) {
        var i :| 0 <= i < |records| && records[i] == Find(records, id).value;
      }
    }
    if forall id :: id in plan ==> DatasetComplete(records, id) {
      forall k | 0 <= k < |plan| ensures DatasetComplete(records, plan[k]) { assert plan[k] in plan; }
    }
    if RunIsComplete(plan, records) {
      forall id | id in plan ensures DatasetComplete(records, id) {
        var k :| 0 <= k < |plan| && plan[k] == id;
      }
    }
  }

  /** A dataset the journal has nothing about, or left in the middle of its work. */
  ghost predicate Adrift(records: seq<Record>, id: string) {
    Find(records, id).None? || InFlight(Find(records, id).value.state)
  }

  /**
   For every plan and journal: a run is never both completed and resumable. It is neither exactly when it
   was not cancelled, there are as many records as datasets, none of them waits to be resumed, and a
   planned dataset is without record or in flight.
   */
  lemma StatusGap(plan: seq<string>, records: seq<Record>, cancelledAt: bool)
    ensures var s := ReadStatus(plan, records, cancelledAt);
            && !(s.completed && s.resumable)
            && (!s.completed && !s.resumable <==>
                && !cancelledAt && |records| >= |plan|
                && (forall i :: 0 <= i < |records| ==> !Resumes(records[i].state))
                && exists k :: 0 <= k < |plan| && Adrift(records, plan[k]))
  {
    if forall i :: 0 <= i < |records| ==> !Resumes(records[i].state) {
      forall k | 0 <= k < |plan| ensures DatasetComplete(records, plan[k]) <==> !Adrift(records, plan[k]) {
        var r := Find(records, plan[k]);
        if r.Some? {
          var i :| 0 <= i < |records| && records[i] == r.value;
          assert !Resumes(records[i].state);
        }
      }
    }
  }

  /** A journal with at most one record for each dataset of a plan, and no other. */
  ghost predicate JournalOf(plan: seq<string>, records: seq<Record>) {
    DistinctRecords(records) && forall i :: 0 <= i < |records| ==> records[i].id in plan
  }

  function Ids(records: seq<Record>): seq<string> {
    seq(|records|, i requires 0 <= i < |records| => records[i].id)
  }

  /** As many records as datasets means a record for each. */
  lemma FullJournal(plan: seq<string>, records: seq<Record>, id: string)
    requires JournalOf(plan, records) && |records| >= |plan| && id in plan
    ensures Find(records, id).Some?
  {
    var ids := Ids(records);
    assert Distinct(ids);
    DistinctIsSet(ids);
    DistinctIsSet(plan);
    var a, b := set x | x in ids, set x | x in plan;
    assert a <= b;
    SubsetSize(a, b);
    assert id in a;
  }

  /**
   Once the journal is recovered, a run is either completed or resumable, except when it was not
   cancelled, nothing waits, and a planned dataset has no record although there are enough records.
   */
  lemma RecoveredStatusIff(plan: seq<string>, records: seq<Record>, cancelledAt: bool)
    requires forall i :: 0 <= i < |records| ==> !InFlight(records[i].state)
    ensures var s := ReadStatus(plan, records, cancelledAt);
            s.completed == s.resumable <==>
            && !cancelledAt && |records| >= |plan|
            && (forall i :: 0 <= i < |records| ==> !Resumes(records[i].state))
            && exists k :: 0 <= k < |plan| && Find(records, plan[k]).None?
  {
    StatusGap(plan, records, cancelledAt);
    forall k | 0 <= k < |plan| ensures Adrift(records, plan[k]) <==> Find(records, plan[k]).None? {
      var r := Find(records, plan[k]);
      if r.Some? { var i :| 0 <= i < |records| && records[i] == r.value; }
    }
  }

  /** Only a record of a dataset outside the plan can bring that exception about, and the program writes none. */
  lemma RecoveredRunHasStatus(plan: seq<string>, records: seq<Record>, cancelledAt: bool)
    requires DistinctRecords(records) && forall i :: 0 <= i < |records| ==> !InFlight(records[i].state)
    ensures var s := ReadStatus(plan, records, cancelledAt);
            s.completed == s.resumable ==> exists i :: 0 <= i < |records| && records[i].id !in plan
  {
    RecoveredStatusIff(plan, records, cancelledAt);
    if |records| >= |plan| && JournalOf(plan, records) {
      forall k | 0 <= k < |plan| ensures Find(records, plan[k]).Some? { FullJournal(plan, records, plan[k]); }
    }
  }

  /** A dataset in one of the five states the transition relation never leaves. */
  predicate Finished(records: seq<Record>, id: string) {
    Find(records, id).Some? && Settled(Find(records, id).value.state)
  }

  /**
   For every plan and journal: a run is reported as completed with an unfinished dataset exactly when every
   dataset is terminal and one of them was cancelled, a state the relation would allow to leave.
   */
  lemma CompletedButUnfinished(plan: seq<string>, records: seq<Record>, cancelledAt: bool)
    ensures && ReadStatus(plan, records, cancelledAt).completed
            && (exists k :: 0 <= k < |plan| && !Finished(records, plan[k])) <==>
            && (forall k :: 0 <= k < |plan| ==> DatasetComplete(records, plan[k]))
            && exists k :: && 0 <= k < |plan| && DatasetComplete(records, plan[k])
                           && Find(records, plan[k]).value.state == Cancelled
  {
    if RunIsComplete(plan, records) {
      forall k | 0 <= k < |plan|
        ensures !Finished(records, plan[k]) <==> Find(records, plan[k]).value.state == Cancelled
      {
        assert DatasetComplete(records, plan[k]);
      }
    }
  }
}
