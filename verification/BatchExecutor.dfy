/**
 What the executor of batch runs writes into the journal about one dataset, over the whole life of a run:
 a fresh start, any number of crashes and resumes, retries, cancellation, and writes that fail and are only
 logged. One process works on a run at a time, with one task per dataset; what other datasets do shows
 only in when the run is cancelled.
 */
module BatchExecutor {
  import opened Common
  import opened Sorting
  import opened BatchLifecycle

  /** The columns of the dataset's record that the executor reads back. */
  datatype Entry = Entry(state: DatasetState, attempts: nat)

  /** A task: the state it was scheduled with, the attempts on record then, and the attempts so far. */
  datatype Task = Task(prior: Option<DatasetState>, base: nat, attempts: nat)

  datatype Pc =
    | Down
    | Recovering
    | Scheduling(resume: bool)
    | Looping(task: Task)
    | Attempting(task: Task)
    | Repairing(task: Task)
    | Failing(task: Task, failure: FailureClass)
    | Returned

  /** `journaled`: the run has its journal; `resumes`: how often it was resumed. */
  datatype Life = Life(record: Option<Entry>, pc: Pc, journaled: bool, resumes: nat)

  /** `lost`: the write failed, which the executor logs and otherwise ignores. */
  datatype Act =
    | StartFresh
    | Resume
    | Recover
    | Leave
    | Schedule(readFails: bool)
    | CancelAtTop(lost: bool)
    | Attempt(lost: bool)
    | FindCommitted(lost: bool)
    | Begin(lost: bool)
    | FailBefore(failure: FailureClass)
    | Succeed(lost: bool)
    | FailRepair(failure: FailureClass, lost: bool)
    | FailUnrecorded
    | Retry(lost: bool)
    | GiveUp(lost: bool)
    | Crash

  predicate Lossy(a: Act) {
    match a
    case CancelAtTop(lost) => lost
    case Attempt(lost) => lost
    case FindCommitted(lost) => lost
    case Begin(lost) => lost
    case Succeed(lost) => lost
    case FailRepair(_, lost) => lost
    case Retry(lost) => lost
    case GiveUp(lost) => lost
    case _ => false
  }

  function FailureState(f: FailureClass): DatasetState {
    match f
    case RecoverableFailure => FailedRecoverable
    case PermanentFailure => FailedPermanent
    case BlockedFailure => Blocked
    case StaleFailure => StaleSource
    case VerificationFailure => VerificationFailed
    case CancelledFailure => Cancelled
  }

  /**
   What an attempt can fail with once it is running. The errors that stand for an operation not allowed or for
   a failed verification have a class of their own, but nothing on the way builds them.
   */
  predicate Arises(f: FailureClass) {
    f == RecoverableFailure || f == PermanentFailure || f == StaleFailure
  }

  /** What it can fail with before: the lock, the locations, a scan and a changed source, none of them recoverable. */
  predicate ArisesEarly(f: FailureClass) {
    f == PermanentFailure || f == StaleFailure
  }

  /** A resume leaves these records alone. */
  predicate Skipped(record: Option<Entry>) {
    && record.Some?
    && (record.value.state == Succeeded || (!IsRunnable(record.value.state) && IsTerminal(record.value.state)))
  }

  predicate RetryAllowed(max: nat, pc: Pc) {
    pc.Failing? && pc.failure == RecoverableFailure && pc.task.attempts < max
  }

  // ---------------------------------------------------------------- steps

  predicate Can(max: nat, l: Life, a: Act) {
    match a
    case StartFresh => l.pc.Down? && !l.journaled
    case Resume => l.pc.Down? && l.journaled
    case Recover => l.pc.Recovering?
    case Leave => l.pc.Recovering? || l.pc.Scheduling?
    case Schedule(_) => l.pc.Scheduling? && !(l.pc.resume && Skipped(l.record))
    case CancelAtTop(_) => l.pc.Looping?
    case Attempt(_) => l.pc.Looping?
    case FindCommitted(_) => l.pc.Attempting?
    case Begin(_) => l.pc.Attempting?
    case FailBefore(f) => l.pc.Attempting? && ArisesEarly(f)
    case Succeed(_) => l.pc.Repairing?
    case FailRepair(f, _) => l.pc.Repairing? && Arises(f)
    case FailUnrecorded => l.pc.Repairing?
    case Retry(_) => RetryAllowed(max, l.pc)
    case GiveUp(_) => l.pc.Failing? && !RetryAllowed(max, l.pc)
    case Crash => !l.pc.Down?
  }

  function Write(l: Life, state: DatasetState, attempts: nat, lost: bool): Life {
    if lost then l else l.(record := Some(Entry(state, attempts)))
  }

  function Opening(l: Life, readFails: bool): Task {
    var base := if l.record.Some? && !readFails then l.record.value.attempts else 0;
    Task(if l.record.Some? then Some(l.record.value.state) else None, base, base)
  }

  function Do(max: nat, l: Life, a: Act): Life
    requires Can(max, l, a)
  {
    match a
    case StartFresh => l.(pc := Scheduling(false), journaled := true)
    case Resume => l.(pc := Recovering, resumes := l.resumes + 1)
    case Recover =>
      var recovered := (e: Entry) => e.(state := RecoverAfterCrash(e.state));
      l.(record := if l.record.Some? then Some(recovered(l.record.value)) else None, pc := Scheduling(true))
    case Leave => l.(pc := Returned)
    case Schedule(readFails) => l.(pc := Looping(Opening(l, readFails)))
    case CancelAtTop(lost) => Write(l, Cancelled, l.pc.task.attempts, lost).(pc := Returned)
    case Attempt(lost) =>
      var task := l.pc.task.(attempts := l.pc.task.attempts + 1);
      Write(l, PlanningValidated, task.attempts, lost || task.prior == Some(Succeeded)).(pc := Attempting(task))
    case FindCommitted(lost) => Write(l, Succeeded, l.pc.task.attempts, lost).(pc := Returned)
    case Begin(lost) => Write(l, Running, l.pc.task.attempts, lost).(pc := Repairing(l.pc.task))
    case FailBefore(f) => l.(pc := Failing(l.pc.task, f))
    case Succeed(lost) => Write(l, Succeeded, l.pc.task.attempts, lost).(pc := Returned)
    case FailRepair(f, lost) => Write(l, FailureState(f), l.pc.task.attempts, lost).(pc := Failing(l.pc.task, f))
    case FailUnrecorded => l.(pc := Failing(l.pc.task, PermanentFailure))
    case Retry(lost) => Write(l, FailedRecoverable, l.pc.task.attempts, lost).(pc := Looping(l.pc.task))
    case GiveUp(lost) => Write(l, FailureState(l.pc.failure), l.pc.task.attempts, lost).(pc := Returned)
    case Crash => l.(pc := Down)
  }

  datatype Run = Run(acts: seq<Act>, lives: seq<Life>)

  const NOTHING := Life(None, Down, false, 0)

  /** A run begins with nothing on disk. */
  predicate Legal(max: nat, r: Run) {
    && |r.lives| == |r.acts| + 1
    && r.lives[0] == NOTHING
    && forall i :: 0 <= i < |r.acts| ==> StepAt(max, r, i)
  }

  predicate StepAt(max: nat, r: Run, i: nat)
    requires |r.lives| == |r.acts| + 1 && i < |r.acts|
  {
    Can(max, r.lives[i], r.acts[i]) && r.lives[i+1] == Do(max, r.lives[i], r.acts[i])
  }

  /** No write was lost. */
  predicate Lossless(r: Run) {
    forall i :: 0 <= i < |r.acts| ==> !Lossy(r.acts[i])
  }

  // ---------------------------------------------------------------- what every step keeps

  predicate TerminalRecord(l: Life) {
    l.record.Some? && IsTerminal(l.record.value.state)
  }

  /** A task at work never has a terminal record before it, except the failure it has just written itself. */
  predicate WorkOk(l: Life) {
    match l.pc
    case Looping(t) => !TerminalRecord(l) && t.prior != Some(Succeeded)
    case Attempting(t) => !TerminalRecord(l) && t.prior != Some(Succeeded)
    case Repairing(t) => !TerminalRecord(l) && t.prior != Some(Succeeded)
    case Failing(t, f) =>
      && Arises(f) && t.prior != Some(Succeeded)
      && (TerminalRecord(l) ==> l.record.value.state == FailureState(f))
    case Scheduling(resume) => !resume ==> l.record.None?
    case _ => true
  }

  /** States the executor and recovery write; five of the twelve never are. */
  predicate Writes(s: DatasetState) {
    !s.Pending? && !s.RepairComplete? && !s.Verifying? && !s.VerificationFailed? && !s.Blocked?
  }

  predicate LifeOk(l: Life) {
    && WorkOk(l)
    && (!l.journaled ==> l.record.None? && l.pc.Down?)
    && (l.record.Some? ==> Writes(l.record.value.state))
  }

  lemma LifeStep(max: nat, l: Life, a: Act)
    requires LifeOk(l) && Can(max, l, a)
    ensures LifeOk(Do(max, l, a))
    ensures TerminalRecord(l) ==>
              TerminalRecord(Do(max, l, a)) && Do(max, l, a).record.value.state == l.record.value.state
  {
  }

  lemma {:induction false} AlwaysOk(max: nat, r: Run, n: nat)
    requires Legal(max, r) && n < |r.lives|
    ensures LifeOk(r.lives[n])
  {
    if n > 0 {
      AlwaysOk(max, r, n - 1);
      assert StepAt(max, r, n - 1);
      LifeStep(max, r.lives[n-1], r.acts[n-1]);
    }
  }

  /**
   Over every life of a run, with crashes, resumes and lost writes: a terminal record is never left, and
   a cancelled one is no exception, since a resume skips it.
   */
  lemma {:induction false} TerminalForever(max: nat, r: Run, i: nat, n: nat)
    requires Legal(max, r) && i <= n < |r.lives| && TerminalRecord(r.lives[i])
    ensures TerminalRecord(r.lives[n]) && r.lives[n].record.value.state == r.lives[i].record.value.state
  {
    if i < n {
      TerminalForever(max, r, i, n - 1);
      AlwaysOk(max, r, n - 1);
      assert StepAt(max, r, n - 1);
      LifeStep(max, r.lives[n-1], r.acts[n-1]);
    }
  }

  /**
   No record is ever repair complete or verifying, the two states the relation leads through to success, and
   none ever says that verification failed or that an operation was not allowed.
   */
  lemma NeverVerifying(max: nat, r: Run, n: nat)
    requires Legal(max, r) && n < |r.lives| && r.lives[n].record.Some?
    ensures Writes(r.lives[n].record.value.state)
  {
    AlwaysOk(max, r, n);
  }

  /** A write that fails leaves the record as it was, and the executor goes on as if it had not. */
  lemma LostWriteIsLost(max: nat, l: Life, a: Act)
    requires Can(max, l, a) && Lossy(a)
    ensures Do(max, l, a).record == l.record
  {
  }

  /** Only a repair that ran is ever tried again: whatever fails before it, storage included, is final. */
  lemma RetriesFollowRepairs(max: nat, r: Run, n: nat)
    requires Legal(max, r) && n < |r.acts| && r.acts[n].Retry?
    ensures n > 0 && r.acts[n-1].FailRepair? && r.acts[n-1].failure == RecoverableFailure
  {
    assert StepAt(max, r, n);
    assert StepAt(max, r, n - 1);
  }

  // ---------------------------------------------------------------- attempts

  predicate TaskOk(max: nat, l: Life, t: Task) {
    && t.base <= t.attempts
    && (if l.resumes == 0 then t.base == 0 else t.base < max + l.resumes)
    && (t.attempts <= t.base + 1 || t.attempts <= max)
  }

  predicate AttemptsOk(max: nat, l: Life) {
    && (l.record.Some? ==> l.record.value.attempts <= max + l.resumes)
    && (!l.journaled ==> l.resumes == 0)
    && match l.pc
       case Recovering => l.resumes > 0 && (l.record.Some? ==> l.record.value.attempts < max + l.resumes)
       case Scheduling(resume) =>
         if resume then l.resumes > 0 && (l.record.Some? ==> l.record.value.attempts < max + l.resumes)
         else l.record.None? && l.resumes == 0
       case Looping(t) => TaskOk(max, l, t) && (t.attempts == t.base || t.attempts < max)
       case Attempting(t) => TaskOk(max, l, t)
       case Repairing(t) => TaskOk(max, l, t)
       case Failing(t, _) => TaskOk(max, l, t)
       case _ => true
  }

  lemma AttemptsStep(max: nat, l: Life, a: Act)
    requires max >= 1 && LifeOk(l) && AttemptsOk(max, l) && Can(max, l, a)
    ensures AttemptsOk(max, Do(max, l, a))
  {
  }

  lemma AttemptsStepAt(max: nat, r: Run, n: nat)
    requires max >= 1 && Legal(max, r) && n < |r.acts|
    ensures LifeOk(r.lives[n]) && AttemptsOk(max, r.lives[n]) ==> AttemptsOk(max, r.lives[n+1])
  {
    assert StepAt(max, r, n);
    if LifeOk(r.lives[n]) && AttemptsOk(max, r.lives[n]) { AttemptsStep(max, r.lives[n], r.acts[n]); }
  }

  lemma {:induction false} AlwaysAttemptsOk(max: nat, r: Run, n: nat)
    requires max >= 1 && Legal(max, r) && n < |r.lives|
    ensures AttemptsOk(max, r.lives[n])
  {
    if n > 0 {
      AlwaysAttemptsOk(max, r, n - 1);
      AlwaysOk(max, r, n - 1);
      AttemptsStepAt(max, r, n - 1);
    }
  }

  /** Attempts on record never exceed the allowed ones by more than one for each resume. */
  lemma AttemptsBounded(max: nat, r: Run, n: nat)
    requires max >= 1 && Legal(max, r) && n < |r.lives| && r.lives[n].record.Some?
    ensures r.lives[n].record.value.attempts <= max + r.lives[n].resumes
  {
    AlwaysAttemptsOk(max, r, n);
  }

  /** How many of the first `n` acts began an attempt. */
  function AttemptsMade(r: Run, n: nat): nat
    requires n <= |r.acts|
  {
    if n == 0 then 0 else AttemptsMade(r, n - 1) + (if r.acts[n-1].Attempt? then 1 else 0)
  }

  /** The record is read back at every schedule, and no write is lost. */
  predicate Undisturbed(r: Run) {
    Lossless(r) && forall i :: 0 <= i < |r.acts| ==> r.acts[i] != Schedule(true)
  }

  /** Record and task agree that there were `k` attempts. */
  predicate Tallies(l: Life, k: nat) {
    && (if l.record.Some? then l.record.value.attempts else 0) == k
    && match l.pc
       case Looping(t) => t.attempts == k
       case Attempting(t) => t.attempts == k
       case Repairing(t) => t.attempts == k
       case Failing(t, _) => t.attempts == k
       case _ => true
  }

  lemma TallyStep(max: nat, l: Life, a: Act, k: nat)
    requires LifeOk(l) && Tallies(l, k) && Can(max, l, a) && !Lossy(a) && a != Schedule(true)
    ensures Tallies(Do(max, l, a), k + if a.Attempt? then 1 else 0)
  {
  }

  /** Over every life, with crashes and resumes, the record counts exactly the attempts that were begun. */
  lemma {:induction false} AttemptsAreCounted(max: nat, r: Run, n: nat)
    requires Legal(max, r) && Undisturbed(r) && n < |r.lives|
    ensures Tallies(r.lives[n], AttemptsMade(r, n))
  {
    if n > 0 {
      AttemptsAreCounted(max, r, n - 1);
      AlwaysOk(max, r, n - 1);
      assert StepAt(max, r, n - 1);
      TallyStep(max, r.lives[n-1], r.acts[n-1], AttemptsMade(r, n - 1));
    }
  }

  // ---------------------------------------------------------------- moves

  /** The state of a dataset; one without record is pending. */
  function StateOf(l: Life): DatasetState {
    if l.record.Some? then l.record.value.state else Pending
  }

  /** Where a task stands in the journal when no write is lost. */
  predicate InStep(l: Life) {
    match l.pc
    case Scheduling(_) => !InFlight(StateOf(l))
    case Looping(_) => StateOf(l).Pending? || StateOf(l).FailedRecoverable?
    case Attempting(_) => StateOf(l).PlanningValidated?
    case Repairing(_) => StateOf(l).Running?
    case Failing(_, f) =>
      || StateOf(l) == FailureState(f)
      || (f != RecoverableFailure && (StateOf(l).PlanningValidated? || StateOf(l).Running?))
    case _ => true
  }

  predicate Failure(s: DatasetState) {
    s.FailedRecoverable? || s.FailedPermanent? || s.StaleSource?
  }

  /** Every change of state the executor and recovery make. */
  predicate ExecutorMove(a: DatasetState, b: DatasetState) {
    match a
    case Pending => b.PlanningValidated? || b.Cancelled?
    case FailedRecoverable => b.PlanningValidated? || b.Cancelled?
    case PlanningValidated => b.Running? || b.Succeeded? || Failure(b)
    case Running => b.Succeeded? || Failure(b)
    case _ => false
  }

  lemma MoveStep(max: nat, l: Life, a: Act)
    requires LifeOk(l) && InStep(l) && Can(max, l, a) && !Lossy(a)
    ensures InStep(Do(max, l, a))
    ensures StateOf(Do(max, l, a)) != StateOf(l) ==> ExecutorMove(StateOf(l), StateOf(Do(max, l, a)))
  {
  }

  lemma {:induction false} AlwaysInStep(max: nat, r: Run, n: nat)
    requires Legal(max, r) && Lossless(r) && n < |r.lives|
    ensures InStep(r.lives[n])
  {
    if n > 0 {
      AlwaysInStep(max, r, n - 1);
      AlwaysOk(max, r, n - 1);
      assert StepAt(max, r, n - 1);
      MoveStep(max, r.lives[n-1], r.acts[n-1]);
    }
  }

  /** Some run without lost writes is in this state. */
  ghost predicate Reachable(max: nat, l: Life) {
    exists r :: Legal(max, r) && Lossless(r) && r.lives[|r.acts|] == l
  }

  lemma ReachableStep(max: nat, l: Life, a: Act)
    requires Reachable(max, l) && Can(max, l, a) && !Lossy(a)
    ensures Reachable(max, Do(max, l, a))
  {
    var r :| Legal(max, r) && Lossless(r) && r.lives[|r.acts|] == l;
    var t := Run(r.acts + [a], r.lives + [Do(max, l, a)]);
    forall i | 0 <= i < |t.acts| ensures StepAt(max, t, i) {
      if i < |r.acts| { assert StepAt(max, r, i); }
    }
    assert Legal(max, t) && Lossless(t) && t.lives[|t.acts|] == Do(max, l, a);
  }

  const FIRST := Task(None, 0, 0)
  const SECOND := Task(None, 0, 1)

  lemma ReachWork(max: nat)
    ensures Reachable(max, Life(None, Looping(FIRST), true, 0))
    ensures Reachable(max, Life(Some(Entry(PlanningValidated, 1)), Attempting(SECOND), true, 0))
    ensures Reachable(max, Life(Some(Entry(Running, 1)), Repairing(SECOND), true, 0))
  {
    var r := Run([], [NOTHING]);
    assert Legal(max, r) && Lossless(r) && r.lives[0] == NOTHING;
    ReachableStep(max, NOTHING, StartFresh);
    ReachableStep(max, Life(None, Scheduling(false), true, 0), Schedule(false));
    ReachableStep(max, Life(None, Looping(FIRST), true, 0), Attempt(false));
    ReachableStep(max, Life(Some(Entry(PlanningValidated, 1)), Attempting(SECOND), true, 0), Begin(false));
  }

  lemma ReachCrash(max: nat)
    ensures Reachable(max, Life(Some(Entry(PlanningValidated, 1)), Recovering, true, 1))
  {
    ReachWork(max);
    var pv := Entry(PlanningValidated, 1);
    ReachableStep(max, Life(Some(pv), Attempting(SECOND), true, 0), Crash);
    ReachableStep(max, Life(Some(pv), Down, true, 0), Resume);
  }

  lemma ReachRetry(max: nat)
    ensures var task := Task(Some(FailedRecoverable), 1, 1);
            Reachable(max, Life(Some(Entry(FailedRecoverable, 1)), Looping(task), true, 1))
  {
    ReachCrash(max);
    ReachableStep(max, Life(Some(Entry(PlanningValidated, 1)), Recovering, true, 1), Recover);
    ReachableStep(max, Life(Some(Entry(FailedRecoverable, 1)), Scheduling(true), true, 1), Schedule(false));
  }

  /** A run cancelled before its datasets are scheduled returns and leaves no record, or the recovered one. */
  lemma LeavesBeforeStart(max: nat)
    ensures Reachable(max, Life(None, Returned, true, 0))
    ensures Reachable(max, Life(Some(Entry(PlanningValidated, 1)), Returned, true, 1))
    ensures Reachable(max, Life(Some(Entry(FailedRecoverable, 1)), Returned, true, 1))
  {
    var r := Run([], [NOTHING]);
    assert Legal(max, r) && Lossless(r) && r.lives[0] == NOTHING;
    ReachableStep(max, NOTHING, StartFresh);
    ReachableStep(max, Life(None, Scheduling(false), true, 0), Leave);
    ReachCrash(max);
    var l := Life(Some(Entry(PlanningValidated, 1)), Recovering, true, 1);
    ReachableStep(max, l, Leave);
    ReachableStep(max, l, Recover);
    ReachableStep(max, Life(Some(Entry(FailedRecoverable, 1)), Scheduling(true), true, 1), Leave);
  }

  /** The failure that ends in state `s`. */
  function FailureFor(s: DatasetState): FailureClass
    requires Failure(s)
    ensures FailureState(FailureFor(s)) == s && Arises(FailureFor(s))
  {
    match s
    case FailedRecoverable => RecoverableFailure
    case FailedPermanent => PermanentFailure
    case StaleSource => StaleFailure
  }

  /** A step of a run without lost writes that takes a dataset from `a` to `b`. */
  ghost predicate Happens(max: nat, a: DatasetState, b: DatasetState) {
    exists l, act :: StepsTo(max, l, act, a, b)
  }

  ghost predicate StepsTo(max: nat, l: Life, act: Act, a: DatasetState, b: DatasetState) {
    Reachable(max, l) && Can(max, l, act) && !Lossy(act) && StateOf(l) == a && StateOf(Do(max, l, act)) == b
  }

  lemma FailureHappens(max: nat, b: DatasetState)
    requires Failure(b)
    ensures Happens(max, PlanningValidated, b) && Happens(max, Running, b)
  {
    ReachWork(max);
    var f := FailureFor(b);
    assert StepsTo(max, Life(Some(Entry(Running, 1)), Repairing(SECOND), true, 0), FailRepair(f, false), Running, b);
    var l := Life(Some(Entry(PlanningValidated, 1)), Attempting(SECOND), true, 0);
    if f == RecoverableFailure {
      ReachCrash(max);
      assert StepsTo(max, Life(l.record, Recovering, true, 1), Recover, PlanningValidated, b);
    } else {
      ReachableStep(max, l, FailBefore(f));
      assert StepsTo(max, l.(pc := Failing(SECOND, f)), GiveUp(false), PlanningValidated, b);
    }
  }

  lemma MoveHappens(max: nat, a: DatasetState, b: DatasetState)
    requires ExecutorMove(a, b)
    ensures Happens(max, a, b)
  {
    ReachWork(max);
    ReachRetry(max);
    var l0 := Life(None, Looping(FIRST), true, 0);
    var l1 := Life(Some(Entry(FailedRecoverable, 1)), Looping(Task(Some(FailedRecoverable), 1, 1)), true, 1);
    var l2 := Life(Some(Entry(PlanningValidated, 1)), Attempting(SECOND), true, 0);
    var l3 := Life(Some(Entry(Running, 1)), Repairing(SECOND), true, 0);
    if Failure(b) {
      FailureHappens(max, b);
    } else if b.PlanningValidated? {
      assert StepsTo(max, if a.Pending? then l0 else l1, Attempt(false), a, b);
    } else if b.Cancelled? {
      assert StepsTo(max, if a.Pending? then l0 else l1, CancelAtTop(false), a, b);
    } else if b.Running? {
      assert StepsTo(max, l2, Begin(false), a, b);
    } else {
      var last := if a.Running? then Succeed(false) else FindCommitted(false);
      assert StepsTo(max, if a.Running? then l3 else l2, last, a, b);
    }
  }

  /** Without lost writes the executor changes states exactly along `ExecutorMove`. */
  lemma MovesAreExactly(max: nat, a: DatasetState, b: DatasetState)
    requires a != b
    ensures Happens(max, a, b) <==> ExecutorMove(a, b)
  {
    if ExecutorMove(a, b) { MoveHappens(max, a, b); }
    if l, act :| StepsTo(max, l, act, a, b) { HappensAlongMoves(max, l, act); }
  }

  lemma ReachableIsOk(max: nat, l: Life)
    requires Reachable(max, l)
    ensures LifeOk(l) && InStep(l)
  {
    var r :| Legal(max, r) && Lossless(r) && r.lives[|r.acts|] == l;
    AlwaysOk(max, r, |r.acts|);
    AlwaysInStep(max, r, |r.acts|);
  }

  lemma HappensAlongMoves(max: nat, l: Life, act: Act)
    requires Reachable(max, l) && Can(max, l, act) && !Lossy(act) && StateOf(Do(max, l, act)) != StateOf(l)
    ensures ExecutorMove(StateOf(l), StateOf(Do(max, l, act)))
  {
    ReachableIsOk(max, l);
    MoveStep(max, l, act);
  }

  /**
   Which of its moves are transitions of the relation, for all that happen: those of a dataset not yet on
   record, into running, into recoverable failure, and the failures the relation has an arrow for.
   */
  lemma LegalMoveIff(max: nat, a: DatasetState, b: DatasetState)
    requires a != b && Happens(max, a, b)
    ensures CanTransition(a, b) <==>
            || a.Pending? || b.Running? || b.FailedRecoverable?
            || (a.PlanningValidated? && b.StaleSource?)
            || (a.Running? && b.FailedPermanent?)
  {
    MovesAreExactly(max, a, b);
  }

  /** In particular no success is a transition of the relation: not the usual one out of running, and no other. */
  lemma SuccessIsNoTransition(max: nat)
    ensures Happens(max, Running, Succeeded) && !CanTransition(Running, Succeeded)
    ensures forall a :: a != Succeeded && Happens(max, a, Succeeded) ==> !CanTransition(a, Succeeded)
  {
    MovesAreExactly(max, Running, Succeeded);
    forall a | a != Succeeded && Happens(max, a, Succeeded) ensures !CanTransition(a, Succeeded) {
      MovesAreExactly(max, a, Succeeded);
    }
  }

  // ---------------------------------------------------------------- the way to success

  function States(r: Run): seq<DatasetState> {
    seq(|r.lives|, i requires 0 <= i < |r.lives| => StateOf(r.lives[i]))
  }

  lemma StatesMove(max: nat, r: Run, k: nat)
    requires Legal(max, r) && Lossless(r) && k < |r.acts| && States(r)[k] != States(r)[k+1]
    ensures ExecutorMove(States(r)[k], States(r)[k+1])
  {
    AlwaysOk(max, r, k);
    AlwaysInStep(max, r, k);
    assert StepAt(max, r, k);
    MoveStep(max, r.lives[k], r.acts[k]);
  }

  /** The move that led to the state at `n`. */
  lemma LastMove(max: nat, r: Run, t: seq<DatasetState>, n: nat) returns (k: nat)
    requires Legal(max, r) && Lossless(r) && t == States(r) && n < |t| && t[n] != Pending
    ensures k < n && ExecutorMove(t[k], t[n]) && Changes(t, n) == Changes(t, k) + [t[n]]
  {
    assert t[0] == Pending;
    k := LastChange(t, n);
    StatesMove(max, r, k);
  }

  /**
   In every life without lost writes, however often it was resumed, a dataset that has succeeded was
   validated and then, unless its output was found committed, running right before.
   */
  lemma SuccessFollowsValidation(max: nat, r: Run, n: nat, c: seq<DatasetState>)
    requires Legal(max, r) && Lossless(r) && n < |r.lives| && StateOf(r.lives[n]) == Succeeded
    requires c == Changes(States(r), n)
    ensures ValidatedThenSucceeded(c)
  {
    var t := States(r);
    var k := LastMove(max, r, t, n);
    if t[k] != PlanningValidated {
      var l := LastMove(max, r, t, k);
      assert c == Changes(t, l) + [Running] + [Succeeded];
    }
  }

  /** The last states are validated and succeeded, or validated, running and succeeded. */
  predicate ValidatedThenSucceeded(c: seq<DatasetState>) {
    var n := |c|;
    && n >= 2 && c[n-1] == Succeeded
    && (c[n-2] == PlanningValidated || (n >= 3 && c[n-2] == Running && c[n-3] == PlanningValidated))
  }

  // ---------------------------------------------------------------- the status of a run

  /** Some run is in this state, writes lost or not. */
  ghost predicate Lived(max: nat, l: Life) {
    exists r :: Legal(max, r) && r.lives[|r.acts|] == l
  }

  predicate RecordedAs(records: seq<Record>, id: string, entry: Option<Entry>) {
    var r := Find(records, id);
    if entry.None? then r.None? else r.Some? && r.value.state == entry.value.state
  }

  /** The journal of a run holds the record of each dataset that has one, and no other. */
  ghost predicate Holds(plan: seq<string>, lives: seq<Life>, records: seq<Record>) {
    && Distinct(plan) && |lives| == |plan| && JournalOf(plan, records)
    && forall k :: 0 <= k < |plan| ==> RecordedAs(records, plan[k], lives[k].record)
  }

  /** A dataset whose record keeps a status report from calling the run resumable. */
  predicate Unresumable(l: Life) {
    l.record.Some? && !l.record.value.state.FailedRecoverable? && !l.record.value.state.Cancelled?
  }

  lemma EachRecordIsOfALife(plan: seq<string>, lives: seq<Life>, records: seq<Record>, i: nat) returns (k: nat)
    requires Holds(plan, lives, records) && i < |records|
    ensures k < |plan| && plan[k] == records[i].id && lives[k].record.Some?
    ensures lives[k].record.value.state == records[i].state
  {
    k :| 0 <= k < |plan| && plan[k] == records[i].id;
    var f := Find(records, plan[k]);
    assert RecordedAs(records, plan[k], lives[k].record);
    var j :| 0 <= j < |records| && records[j] == f.value;
    assert i == j;
  }

  lemma AllRecorded(plan: seq<string>, lives: seq<Life>, records: seq<Record>)
    requires Holds(plan, lives, records)
    ensures |records| >= |plan| <==> forall k :: 0 <= k < |plan| ==> lives[k].record.Some?
  {
    if |records| >= |plan| {
      forall k | 0 <= k < |plan| ensures lives[k].record.Some? {
        FullJournal(plan, records, plan[k]);
        assert RecordedAs(records, plan[k], lives[k].record);
      }
    }
    if forall k :: 0 <= k < |plan| ==> lives[k].record.Some? {
      FullPlan(plan, lives, records);
    }
  }

  lemma FullPlan(plan: seq<string>, lives: seq<Life>, records: seq<Record>)
    requires Holds(plan, lives, records) && forall k :: 0 <= k < |plan| ==> lives[k].record.Some?
    ensures |records| >= |plan|
  {
    var ids := Ids(records);
    var a, b := set x | x in plan, set x | x in ids;
    forall x | x in a ensures x in b {
      var k :| 0 <= k < |plan| && plan[k] == x;
      assert RecordedAs(records, plan[k], lives[k].record);
      var i :| 0 <= i < |records| && records[i] == Find(records, x).value;
      assert ids[i] == x;
    }
    DistinctIsSet(plan);
    DistinctIsSet(ids);
    SubsetSize(a, b);
  }

  /**
   At any time in the life of a run, crashes and lost writes included: it is reported as completed exactly when
   every dataset has a terminal record, and as neither completed nor resumable exactly when it was not
   cancelled, every dataset has a record, none was cancelled or failed recoverably, and one is at work.
   */
  lemma StatusIff(max: nat, plan: seq<string>, lives: seq<Life>, records: seq<Record>, cancelledAt: bool)
    requires Holds(plan, lives, records) && forall k :: 0 <= k < |plan| ==> Lived(max, lives[k])
    ensures var s := ReadStatus(plan, records, cancelledAt);
            && (s.completed <==> forall k :: 0 <= k < |plan| ==> TerminalRecord(lives[k]))
            && (!s.completed && !s.resumable <==>
                && !cancelledAt && (forall k :: 0 <= k < |plan| ==> Unresumable(lives[k]))
                && exists k :: 0 <= k < |plan| && (StateOf(lives[k]).PlanningValidated? || StateOf(lives[k]).Running?))
  {
    forall k | 0 <= k < |plan| ensures DatasetComplete(records, plan[k]) <==> TerminalRecord(lives[k]) {
      assert RecordedAs(records, plan[k], lives[k].record);
    }
    AllRecorded(plan, lives, records);
    WaitingIff(max, plan, lives, records);
    forall k | 0 <= k < |plan| && Unresumable(lives[k])
      ensures !TerminalRecord(lives[k]) <==> StateOf(lives[k]).PlanningValidated? || StateOf(lives[k]).Running?
    {
      LivedIsOk(max, lives[k]);
    }
  }

  lemma LivedIsOk(max: nat, l: Life)
    requires Lived(max, l)
    ensures LifeOk(l)
  {
    var r :| Legal(max, r) && r.lives[|r.acts|] == l;
    AlwaysOk(max, r, |r.acts|);
  }

  /** A record waits to be resumed exactly when a dataset was cancelled or failed recoverably. */
  lemma WaitingIff(max: nat, plan: seq<string>, lives: seq<Life>, records: seq<Record>)
    requires Holds(plan, lives, records) && forall k :: 0 <= k < |plan| ==> Lived(max, lives[k])
    ensures (exists i :: 0 <= i < |records| && Resumes(records[i].state)) <==>
            exists k :: 0 <= k < |plan| && lives[k].record.Some? && !Unresumable(lives[k])
  {
    if i :| 0 <= i < |records| && Resumes(records[i].state) {
      var k := EachRecordIsOfALife(plan, lives, records, i);
      LivedIsOk(max, lives[k]);
      assert !Unresumable(lives[k]);
    }
    if k :| 0 <= k < |plan| && lives[k].record.Some? && !Unresumable(lives[k]) {
      assert RecordedAs(records, plan[k], lives[k].record);
      var i :| 0 <= i < |records| && records[i] == Find(records, plan[k]).value;
      assert Resumes(records[i].state);
    }
  }

  lemma OneDataset(id: string, l: Life, records: seq<Record>)
    requires l.record.Some? && |records| == 1 && records[0].id == id && records[0].state == l.record.value.state
    ensures Holds([id], [l], records)
  {
    assert Find(records, id) == Some(records[0]);
  }

  /** A crash in the middle of a repair leaves a run that is reported as neither completed nor resumable. */
  lemma CrashHasNoStatus(max: nat, id: string, record: Record) returns (l: Life)
    requires record.id == id && record.state == Running
    ensures Reachable(max, l) && l.pc.Down? && l.record == Some(Entry(Running, 1)) && Holds([id], [l], [record])
    ensures ReadStatus([id], [record], false) == Status(false, false)
  {
    ReachWork(max);
    ReachableStep(max, Life(Some(Entry(Running, 1)), Repairing(SECOND), true, 0), Crash);
    l := Life(Some(Entry(Running, 1)), Down, true, 0);
    OneDataset(id, l, [record]);
    StatusIff(max, [id], [l], [record], false);
    assert StateOf([l][0]).Running?;
  }

  /** A run cancelled before its repair is reported as completed, though nothing was done, and stays so. */
  lemma CancelledIsCompleted(max: nat, id: string, record: Record) returns (l: Life)
    requires record.id == id && record.state == Cancelled
    ensures Reachable(max, l) && l.pc.Returned? && l.record == Some(Entry(Cancelled, 0)) && Holds([id], [l], [record])
    ensures ReadStatus([id], [record], true) == Status(true, false) && !Finished([record], id)
  {
    ReachWork(max);
    ReachableStep(max, Life(None, Looping(FIRST), true, 0), CancelAtTop(false));
    l := Life(Some(Entry(Cancelled, 0)), Returned, true, 0);
    OneDataset(id, l, [record]);
    StatusIff(max, [id], [l], [record], true);
    CompletedButUnfinished([id], [record], true);
    assert Find([record], id) == Some(record);
  }

  // ---------------------------------------------------------------- the retry loop

  /** What one attempt comes to. */
  datatype Outcome =
    | AlreadyCommitted
    | Repaired
    | FailedBefore(failure: FailureClass)
    | FailedRepair(failure: FailureClass)
    | FailedUnrecorded
  {
    predicate Possible() {
      (FailedBefore? ==> ArisesEarly(failure)) && (FailedRepair? ==> Arises(failure))
    }

    predicate Succeeds() {
      AlreadyCommitted? || Repaired?
    }

    function Reason(): FailureClass
      requires !Succeeds()
    {
      if FailedUnrecorded? then PermanentFailure else failure
    }

    predicate Retryable() {
      !Succeeds() && Reason() == RecoverableFailure
    }

    function Final(): DatasetState {
      if Succeeds() then Succeeded else FailureState(Reason())
    }
  }

  /** After attempt `j` of a task that began with `base` attempts on record, the loop goes on. */
  predicate GoesOn(outcomes: nat -> Outcome, base: nat, max: nat, j: nat) {
    outcomes(j).Retryable() && base + j + 1 < max
  }

  /** One process at work on the dataset. */
  class Executor {
    const max: nat
    var life: Life
    ghost var run: Run

    ghost predicate Valid()
      reads this
    {
      max >= 1 && Legal(max, run) && Lossless(run) && life == run.lives[|run.acts|]
    }

    /** The number of attempts is one more than that of retries, within 32 bits. */
    constructor (maxRetries: nat)
      ensures Valid() && life == NOTHING
      ensures maxRetries < 0xFFFF_FFFF ==> max == maxRetries + 1
    {
      max := if maxRetries < 0xFFFF_FFFF then maxRetries + 1 else 0xFFFF_FFFF;
      life := NOTHING;
      run := Run([], [NOTHING]);
    }

    method Perform(a: Act)
      requires Valid() && Can(max, life, a) && !Lossy(a)
      modifies this
      ensures Valid() && life == Do(max, old(life), a)
    {
      ghost var before := run;
      life := Do(max, life, a);
      run := Run(run.acts + [a], run.lives + [life]);
      forall i | 0 <= i < |run.acts| ensures StepAt(max, run, i) {
        if i < |before.acts| { assert StepAt(max, before, i); }
      }
    }

    /** `execute_dataset_once`, up to what is left to the loop around it. */
    method ExecuteOnce(o: Outcome) returns (failed: bool)
      requires Valid() && life.pc.Attempting? && o.Possible()
      modifies this
      ensures Valid()
      ensures failed <==> !o.Succeeds()
      ensures failed ==> life.pc == Failing(old(life).pc.task, o.Reason())
      ensures !failed ==> life.pc == Returned && life.record == Some(Entry(Succeeded, old(life).pc.task.attempts))
    {
      match o {
        case AlreadyCommitted => Perform(FindCommitted(false)); failed := false;
        case Repaired => Perform(Begin(false)); Perform(Succeed(false)); failed := false;
        case FailedBefore(f) => Perform(FailBefore(f)); failed := true;
        case FailedRepair(f) => Perform(Begin(false)); Perform(FailRepair(f, false)); failed := true;
        case FailedUnrecorded => Perform(Begin(false)); Perform(FailUnrecorded); failed := true;
      }
    }

    /** One turn of the loop: an attempt, and what is made of its failure. */
    method Turn(o: Outcome) returns (again: bool)
      requires Valid() && life.pc.Looping? && o.Possible() && life.pc.task.prior != Some(Succeeded)
      modifies this
      ensures Valid()
      ensures again <==> o.Retryable() && old(life).pc.task.attempts + 1 < max
      ensures again ==> life.pc == Looping(old(life).pc.task.(attempts := old(life).pc.task.attempts + 1))
      ensures !again ==> life.pc == Returned && life.record == Some(Entry(o.Final(), old(life).pc.task.attempts + 1))
    {
      Perform(Attempt(false));
      var failed := ExecuteOnce(o);
      again := failed && RetryAllowed(max, life.pc);
      if again {
        Perform(Retry(false));
      } else if failed {
        Perform(GiveUp(false));
      }
    }

    /**
     `execute_dataset_with_retries`, undisturbed: it attempts the dataset until an attempt is final or the
     attempts are used up, or the run is cancelled at the top of the loop, and records exactly that.
     */
    method ExecuteWithRetries(outcomes: nat -> Outcome, cancels: nat -> bool) returns (tries: nat)
      requires Valid() && life.pc.Looping?
      requires life.pc.task.attempts == life.pc.task.base && life.pc.task.prior != Some(Succeeded)
      requires forall k :: outcomes(k).Possible()
      modifies this
      ensures Valid() && life.pc == Returned && life.record.Some?
      ensures life.record.value.attempts == old(life).pc.task.base + tries
      ensures forall j :: 0 <= j < tries ==> !cancels(j)
      ensures forall j :: 0 <= j < tries - 1 ==> GoesOn(outcomes, old(life).pc.task.base, max, j)
      ensures life.record.value.state == Cancelled ==>
                cancels(tries) && (tries > 0 ==> GoesOn(outcomes, old(life).pc.task.base, max, tries - 1))
      ensures life.record.value.state != Cancelled ==>
                && tries > 0 && life.record.value.state == outcomes(tries-1).Final()
                && !GoesOn(outcomes, old(life).pc.task.base, max, tries - 1)
    {
      var task := life.pc.task;
      tries := 0;
      var again := true;
      while again && !cancels(tries)
        invariant Valid()
        invariant forall j :: 0 <= j < tries ==> !cancels(j)
        invariant forall j :: 0 <= j < tries - 1 ==> GoesOn(outcomes, task.base, max, j)
        invariant again ==> life.pc == Looping(task.(attempts := task.base + tries))
        invariant again && tries > 0 ==> GoesOn(outcomes, task.base, max, tries - 1)
        invariant !again ==> tries > 0 && life.pc == Returned
        invariant !again ==> life.record == Some(Entry(outcomes(tries-1).Final(), task.base + tries))
        invariant !again ==> !GoesOn(outcomes, task.base, max, tries - 1)
        decreases again, if task.base + tries < max then max - task.base - tries else 0
      {
        again := Turn(outcomes(tries));
        tries := tries + 1;
      }
      if again { Perform(CancelAtTop(false)); }
    }
  }
}
