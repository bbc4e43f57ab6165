/**
 The writer lock of a dataset, as a protocol: any number of processes, each belonging to a run,
 interleave single operations on one lock object, and may crash between any two of them.

 `Remote` is the lock object of a storage backend, created with its owner in one conditional
 create. `Local` is the lock file beside an output directory, created empty and then written.
 Each backend operation is atomic; one that is in flight when its process crashes has either
 happened or not.
 */
module WriterLock {
  type Pid = nat
  type RunId = string

  datatype Kind = Remote | Local

  /** `Blank`: a lock file whose owner has not been written. */
  datatype Lock = Absent | Blank | Owned(run: RunId)

  /** Where a process stands in `acquire`; `retried` is set after it deleted a stale lock. */
  datatype Pc = Idle | Creating(retried: bool) | Writing | Reading | Deleting | Holding | Rejected

  datatype Proc = Proc(run: RunId, pc: Pc)
  datatype State = State(lock: Lock, procs: map<Pid, Proc>)

  datatype Act =
    | Spawn(run: RunId)
    | Crash
    | Start
    | Create
    | CreateError(applied: bool)   // `applied`: the operation took effect and then reported an error
    | Write
    | WriteError
    | Read
    | ReadError
    | Delete
    | DeleteError(applied: bool)
    | Release
    | ReleaseError(applied: bool)

  predicate At(s: State, p: Pid, pc: Pc) {
    p in s.procs && s.procs[p].pc == pc
  }

  predicate Can(k: Kind, s: State, p: Pid, a: Act) {
    match a
    case Spawn(_) => p !in s.procs
    case Crash => p in s.procs
    case Start => At(s, p, Idle) || At(s, p, Rejected)
    case Create => p in s.procs && s.procs[p].pc.Creating?
    case CreateError(_) => p in s.procs && s.procs[p].pc.Creating?
    case Write => At(s, p, Writing)
    case WriteError => At(s, p, Writing)
    case Read => At(s, p, Reading)
    case ReadError => At(s, p, Reading)
    case Delete => At(s, p, Deleting)
    case DeleteError(_) => At(s, p, Deleting)
    case Release => At(s, p, Holding)
    case ReleaseError(_) => At(s, p, Holding)
  }

  /** `s` with the lock as given and process `p` at `pc`. */
  function Moved(s: State, lock: Lock, p: Pid, pc: Pc): State
    requires p in s.procs
  {
    State(lock, s.procs[p := Proc(s.procs[p].run, pc)])
  }

  /** What a successful create leaves: the owner at once, or an empty file to be written. */
  function Created(k: Kind, run: RunId): Lock {
    if k.Remote? then Owned(run) else Blank
  }

  function Do(k: Kind, s: State, p: Pid, a: Act): State
    requires Can(k, s, p, a)
  {
    match a
    case Spawn(run) => s.(procs := s.procs[p := Proc(run, Idle)])
    case Crash => s.(procs := s.procs - {p})
    case Start => Moved(s, s.lock, p, Creating(false))
    case Create =>
      if s.lock.Absent? then Moved(s, Created(k, s.procs[p].run), p, if k.Remote? then Holding else Writing)
      else Moved(s, s.lock, p, if s.procs[p].pc.retried then Rejected else Reading)
    case CreateError(applied) =>
      Moved(s, if applied && s.lock.Absent? then Created(k, s.procs[p].run) else s.lock, p, Rejected)
    case Write => Moved(s, Owned(s.procs[p].run), p, Holding)
    case WriteError => Moved(s, s.lock, p, Rejected)
    case Read => Moved(s, s.lock, p, if s.lock == Owned(s.procs[p].run) then Deleting else Rejected)
    case ReadError => Moved(s, s.lock, p, Rejected)
    case Delete => Moved(s, Absent, p, Creating(true))
    case DeleteError(applied) =>
      Moved(s, if applied then Absent else s.lock, p, if k.Remote? then Rejected else Creating(true))
    case Release => Moved(s, Absent, p, Idle)
    case ReleaseError(applied) => Moved(s, if applied then Absent else s.lock, p, Idle)
  }

  /** At most one live process per run id. */
  ghost predicate OneProcessPerRun(s: State) {
    forall p, q :: SameRun(s, p, q) ==> p == q
  }

  predicate SameRun(s: State, p: Pid, q: Pid) {
    p in s.procs && q in s.procs && s.procs[p].run == s.procs[q].run
  }

  // ---------------------------------------------------------------- runs of the protocol

  datatype Step = Step(p: Pid, a: Act)
  datatype Run = Run(steps: seq<Step>, states: seq<State>)

  /** A run starts with no process alive; a lock may have been left behind by an earlier one. */
  predicate Legal(k: Kind, r: Run) {
    && |r.states| == |r.steps| + 1
    && r.states[0].procs == map[]
    && forall i :: 0 <= i < |r.steps| ==> StepAt(k, r, i)
  }

  predicate StepAt(k: Kind, r: Run, i: nat)
    requires |r.states| == |r.steps| + 1 && i < |r.steps|
  {
    Can(k, r.states[i], r.steps[i].p, r.steps[i].a) && r.states[i+1] == Do(k, r.states[i], r.steps[i].p, r.steps[i].a)
  }

  ghost predicate Disciplined(r: Run) {
    forall i :: 0 <= i < |r.states| ==> OneProcessPerRun(r.states[i])
  }

  // ---------------------------------------------------------------- mutual exclusion

  /** What the lock says about the processes that rely on it. */
  ghost predicate Consistent(s: State) {
    && (forall p :: At(s, p, Holding) || At(s, p, Deleting) ==> s.lock == Owned(s.procs[p].run))
    && (forall p :: At(s, p, Writing) ==> s.lock == Blank)
    && (forall p, q :: At(s, p, Writing) && At(s, q, Writing) ==> p == q)
  }

  lemma StepKeepsConsistent(k: Kind, s: State, p: Pid, a: Act)
    requires Consistent(s) && OneProcessPerRun(s) && Can(k, s, p, a)
    ensures Consistent(Do(k, s, p, a))
  {
    var t := Do(k, s, p, a);
    OthersStay(k, s, p, a);
    if p in s.procs {
      assert At(s, p, s.procs[p].pc);
      assert forall q :: SameRun(s, q, p) ==> q == p;
    }
    forall q | At(t, q, Holding) || At(t, q, Deleting) ensures t.lock == Owned(t.procs[q].run) {
      if q != p {
        assert At(s, q, t.procs[q].pc);
        assert p in s.procs ==> !SameRun(s, q, p);
      }
    }
    forall q | At(t, q, Writing) ensures t.lock == Blank {
      if q != p { assert At(s, q, Writing); }
    }
  }

  /** `t` is `s` except for what concerns process `p` and the lock. */
  ghost predicate SameOthers(s: State, t: State, p: Pid) {
    forall q :: q != p ==> (q in t.procs <==> q in s.procs) && (q in s.procs ==> t.procs[q] == s.procs[q])
  }

  lemma OthersStay(k: Kind, s: State, p: Pid, a: Act)
    requires Can(k, s, p, a)
    ensures SameOthers(s, Do(k, s, p, a), p)
    ensures forall q, pc :: q != p ==> (At(Do(k, s, p, a), q, pc) <==> At(s, q, pc))
  {
  }

  lemma {:induction false} AlwaysConsistent(k: Kind, r: Run, n: nat)
    requires Legal(k, r) && Disciplined(r) && n < |r.states|
    ensures Consistent(r.states[n])
  {
    if n > 0 {
      AlwaysConsistent(k, r, n - 1);
      assert StepAt(k, r, n - 1);
      StepKeepsConsistent(k, r.states[n-1], r.steps[n-1].p, r.steps[n-1].a);
    }
  }

  /**
   With at most one live process per run, over every interleaving of the operations with crashes and
   restarts: at most one process holds the lock, and the stored record names its run.
   */
  lemma MutualExclusion(k: Kind, r: Run, n: nat, p: Pid, q: Pid)
    requires Legal(k, r) && Disciplined(r) && n < |r.states|
    requires At(r.states[n], p, Holding)
    ensures r.states[n].lock == Owned(r.states[n].procs[p].run)
    ensures At(r.states[n], q, Holding) ==> p == q
  {
    AlwaysConsistent(k, r, n);
    assert At(r.states[n], q, Holding) ==> SameRun(r.states[n], p, q);
  }

  /** A process only ever deletes a lock that names its own run, when reclaiming and when releasing. */
  lemma DeletesOnlyItsOwn(k: Kind, r: Run, i: nat)
    requires Legal(k, r) && Disciplined(r) && i < |r.steps|
    requires r.states[i].lock != Absent && r.states[i+1].lock == Absent
    ensures r.steps[i].p in r.states[i].procs
    ensures r.states[i].lock == Owned(r.states[i].procs[r.steps[i].p].run)
  {
    assert StepAt(k, r, i);
    AlwaysConsistent(k, r, i);
  }

  /**
   The discipline is needed: whenever a second live process of the holder's run asks for the lock, it
   can take it away while the first still believes it holds it.
   */
  lemma SecondProcessOfRunSteals(k: Kind, s: State, p: Pid, q: Pid) returns (acts: seq<Act>, t: State)
    requires p != q && At(s, p, Holding) && At(s, q, Idle) && s.procs[p].run == s.procs[q].run
    requires s.lock == Owned(s.procs[p].run)
    ensures Alone(k, s, q, acts, t)
    ensures At(t, p, Holding) && At(t, q, Holding)
  {
    var run := s.procs[q].run;
    var s1 := Do(k, s, q, Start);
    var s2 := Do(k, s1, q, Create);
    var s3 := Do(k, s2, q, Read);
    var s4 := Do(k, s3, q, Delete);
    assert s4 == State(Absent, s.procs[q := Proc(run, Creating(true))]);
    var last;
    last, t := CreateAlone(k, s4, q);
    AloneCons(k, s3, q, Delete, last, t);
    AloneCons(k, s2, q, Read, [Delete] + last, t);
    AloneCons(k, s1, q, Create, [Read] + ([Delete] + last), t);
    acts := [Start] + ([Create] + ([Read] + ([Delete] + last)));
    AloneCons(k, s, q, Start, [Create] + ([Read] + ([Delete] + last)), t);
  }

  lemma CreateAlone(k: Kind, s: State, q: Pid) returns (acts: seq<Act>, t: State)
    requires s.lock == Absent && q in s.procs && s.procs[q].pc.Creating?
    ensures Alone(k, s, q, acts, t)
    ensures t == State(Owned(s.procs[q].run), s.procs[q := Proc(s.procs[q].run, Holding)])
  {
    var s1 := Do(k, s, q, Create);
    t := if k.Remote? then s1 else Do(k, s1, q, Write);
    var last := if k.Remote? then [] else [Write];
    assert Alone(k, s1, q, last, t);
    AloneCons(k, s, q, Create, last, t);
    acts := [Create] + last;
  }

  /** From `s`, process `q` alone performs `acts` and reaches `t`. */
  predicate Alone(k: Kind, s: State, q: Pid, acts: seq<Act>, t: State)
    decreases |acts|
  {
    if acts == [] then s == t
    else Can(k, s, q, acts[0]) && Alone(k, Do(k, s, q, acts[0]), q, acts[1..], t)
  }

  lemma AloneCons(k: Kind, s: State, q: Pid, a: Act, acts: seq<Act>, t: State)
    requires Can(k, s, q, a) && Alone(k, Do(k, s, q, a), q, acts, t)
    ensures Alone(k, s, q, [a] + acts, t)
  {
    assert ([a] + acts)[1..] == acts;
  }

  // ---------------------------------------------------------------- what changes the lock

  /**
   In every run: a lock comes into being exactly by a create that takes effect while there is none, and names
   the run of its process at once if it is remote; it goes exactly by a delete or a release that takes effect;
   and in between it only changes when the owner is written into it.
   */
  lemma LockChangesIff(k: Kind, r: Run, i: nat)
    requires Legal(k, r) && i < |r.steps|
    ensures var s, t, p, a := r.states[i], r.states[i+1], r.steps[i].p, r.steps[i].a;
      && (s.lock == Absent ==>
            (t.lock != Absent <==> a.Create? || a == CreateError(true) || a.Write?))
      && (s.lock == Absent && t.lock != Absent && !a.Write? ==>
            p in s.procs && t.lock == if k.Remote? then Owned(s.procs[p].run) else Blank)
      && (s.lock != Absent ==>
            (t.lock == Absent <==>
             a.Delete? || a.Release? || a == DeleteError(true) || a == ReleaseError(true)))
      && (s.lock != Absent && t.lock != Absent && t.lock != s.lock ==> a.Write?)
      && (a.Write? ==> p in s.procs && t.lock == Owned(s.procs[p].run))
  {
    assert StepAt(k, r, i);
  }

  /** The owner is only ever written into the blank file its process created. */
  lemma WritesIntoItsOwn(k: Kind, r: Run, i: nat)
    requires Legal(k, r) && Disciplined(r) && i < |r.steps| && r.steps[i].a.Write?
    ensures r.states[i].lock == Blank
  {
    assert StepAt(k, r, i);
    AlwaysConsistent(k, r, i);
    assert At(r.states[i], r.steps[i].p, Writing);
  }

  /**
   A process comes to hold the lock exactly by creating it, or by writing itself into the file it created, and
   ceases to by releasing it, whether that succeeds or not, or by crashing. Nobody else can make it.
   */
  lemma HoldingIff(k: Kind, r: Run, i: nat, q: Pid)
    requires Legal(k, r) && i < |r.steps|
    ensures var s, t, p, a := r.states[i], r.states[i+1], r.steps[i].p, r.steps[i].a;
      && (!At(s, q, Holding) ==>
            (At(t, q, Holding) <==> q == p && (a.Write? || (a.Create? && k.Remote? && s.lock == Absent))))
      && (At(s, q, Holding) ==>
            (!At(t, q, Holding) <==> q == p && (a.Release? || a.ReleaseError? || a.Crash?)))
      && (q in s.procs && q in t.procs ==> t.procs[q].run == s.procs[q].run)
      && (q in s.procs && q !in t.procs <==> q == p && a.Crash?)
      && (q !in s.procs && q in t.procs <==> q == p && a.Spawn?)
      && (q == p && a.Spawn? ==> q in t.procs && t.procs[q] == Proc(a.run, Idle))
  {
    assert StepAt(k, r, i);
  }

  /**
   A process is turned away exactly by an operation that fails, except where a lock file is deleted or a lock
   released, by finding the lock of another run or none when it reads, or by finding one again after it
   deleted its own.
   */
  lemma RejectedIff(k: Kind, r: Run, i: nat)
    requires Legal(k, r) && i < |r.steps|
    ensures var s, t, p, a := r.states[i], r.states[i+1], r.steps[i].p, r.steps[i].a;
      At(t, p, Rejected) <==>
      || a.CreateError? || a.WriteError? || a.ReadError? || (a.DeleteError? && k.Remote?)
      || (a.Create? && s.lock != Absent && At(s, p, Creating(true)))
      || (a.Read? && p in s.procs && s.lock != Owned(s.procs[p].run))
  {
    assert StepAt(k, r, i);
  }

  /** The way of a process that goes on: create, read what is there, delete its own, create once more. */
  lemma GoesOnTo(k: Kind, r: Run, i: nat)
    requires Legal(k, r) && i < |r.steps| && r.steps[i].p in r.states[i+1].procs
    requires !At(r.states[i+1], r.steps[i].p, Rejected) && !At(r.states[i+1], r.steps[i].p, Holding)
    requires !r.steps[i].a.Spawn?
    ensures var pc, a := r.states[i+1].procs[r.steps[i].p].pc, r.steps[i].a;
      && (a.Start? ==> pc == Creating(false))
      && (a.Create? ==> pc == if r.states[i].lock == Absent then Writing else Reading)
      && (a.Read? ==> pc == Deleting)
      && (a.Delete? || a.DeleteError? ==> pc == Creating(true))
      && (a.Release? || a.ReleaseError? ==> pc == Idle)
  {
    assert StepAt(k, r, i);
  }

  /**
   A release that succeeds leaves no lock, and from there any process that is not in the middle of something,
   of whatever run, gets the lock by its own steps alone.
   */
  lemma ReleasedLockIsFree(k: Kind, r: Run, i: nat, q: Pid) returns (acts: seq<Act>, t: State)
    requires Legal(k, r) && i < |r.steps| && r.steps[i].a.Release?
    requires At(r.states[i+1], q, Idle) || At(r.states[i+1], q, Rejected)
    ensures r.states[i+1].lock == Absent && At(r.states[i+1], r.steps[i].p, Idle)
    ensures Alone(k, r.states[i+1], q, acts, t) && At(t, q, Holding)
    ensures t.lock == Owned(r.states[i+1].procs[q].run)
  {
    assert StepAt(k, r, i);
    var s := r.states[i+1];
    var s1 := Do(k, s, q, Start);
    var last;
    last, t := CreateAlone(k, s1, q);
    acts := [Start] + last;
    AloneCons(k, s, q, Start, last, t);
  }

  // ---------------------------------------------------------------- reclaiming

  /** A lock file whose creator died before writing its owner, with nobody about to write it. */
  ghost predicate Orphaned(s: State) {
    && s.lock == Blank
    && forall p :: !At(s, p, Writing) && !At(s, p, Holding) && !At(s, p, Deleting)
  }

  /**
   Such a file is never reclaimed, not even by the run that created it: from then on no process
   acquires the lock, in any continuation.
   */
  lemma {:induction false} OrphanedForever(k: Kind, r: Run, i: nat, n: nat)
    requires Legal(k, r) && i <= n < |r.states| && Orphaned(r.states[i])
    ensures Orphaned(r.states[n])
  {
    if i < n {
      OrphanedForever(k, r, i, n - 1);
      assert StepAt(k, r, n - 1);
      OrphanedStep(k, r.states[n-1], r.steps[n-1].p, r.steps[n-1].a);
    }
  }

  lemma OrphanedStep(k: Kind, s: State, p: Pid, a: Act)
    requires Orphaned(s) && Can(k, s, p, a)
    ensures Orphaned(Do(k, s, p, a))
  {
    var t := Do(k, s, p, a);
    OthersStay(k, s, p, a);
    assert p in s.procs ==> At(s, p, s.procs[p].pc);
    forall q ensures !At(t, q, Writing) && !At(t, q, Holding) && !At(t, q, Deleting) {
      if q != p { assert At(t, q, Writing) ==> At(s, q, Writing); }
    }
  }

  /** A crash between the two steps of creating a lock file leaves one. */
  lemma CrashOrphans(p: Pid, run: RunId) returns (r: Run)
    ensures Legal(Local, r) && Disciplined(r) && r.states[0] == State(Absent, map[])
    ensures r.steps == [Step(p, Spawn(run)), Step(p, Start), Step(p, Create), Step(p, Crash)]
    ensures Orphaned(r.states[4])
  {
    var s0 := State(Absent, map[]);
    var s1 := State(Absent, map[p := Proc(run, Idle)]);
    var s2 := State(Absent, map[p := Proc(run, Creating(false))]);
    var s3 := State(Blank, map[p := Proc(run, Writing)]);
    var s4 := State(Blank, map[]);
    r := Run([Step(p, Spawn(run)), Step(p, Start), Step(p, Create), Step(p, Crash)], [s0, s1, s2, s3, s4]);
    assert s1 == Do(Local, s0, p, Spawn(run)) && s2 == Do(Local, s1, p, Start);
    assert s3 == Do(Local, s2, p, Create) && s4 == Do(Local, s3, p, Crash);
  }

  ghost predicate Sound(s: State) {
    Consistent(s) && OneProcessPerRun(s)
  }

  /** The lock object with its processes, driven one operation at a time. */
  class LockService {
    const kind: Kind
    var state: State

    constructor (kind: Kind, left: Lock)
      ensures this.kind == kind && state == State(left, map[])
      ensures Sound(state)
    {
      this.kind := kind;
      state := State(left, map[]);
    }

    method Perform(p: Pid, a: Act)
      requires Can(kind, state, p, a) && Sound(state) && !a.Spawn?
      modifies this
      ensures state == Do(kind, old(state), p, a) && Sound(state)
    {
      OthersStay(kind, state, p, a);
      StepKeepsConsistent(kind, state, p, a);
      ghost var s := state;
      state := Do(kind, state, p, a);
      assert forall x, y :: SameRun(state, x, y) ==> SameRun(s, x, y);
    }

    /** A new process, of a run that has none alive. */
    method SpawnProcess(p: Pid, run: RunId)
      requires Sound(state) && p !in state.procs
      requires forall q :: q in state.procs ==> state.procs[q].run != run
      modifies this
      ensures Sound(state) && state == old(state).(procs := old(state).procs[p := Proc(run, Idle)])
    {
      StepKeepsConsistent(kind, state, p, Spawn(run));
      ghost var s := state;
      state := Do(kind, state, p, Spawn(run));
      assert forall x, y :: SameRun(state, x, y) ==> x == y || SameRun(s, x, y);
    }

    method Begin(p: Pid)
      requires Sound(state) && (At(state, p, Idle) || At(state, p, Rejected))
      modifies this
      ensures Sound(state) && state == Moved(old(state), old(state).lock, p, Creating(false))
    {
      Perform(p, Start);
    }

    /** `release`, and the end of a local lock: the lock is gone and the process has nothing to do with it. */
    method ReleaseLock(p: Pid)
      requires At(state, p, Holding) && Sound(state)
      modifies this
      ensures Sound(state) && state.lock == Absent
      ensures state.procs == old(state).procs[p := Proc(old(state).procs[p].run, Idle)]
    {
      Perform(p, Release);
    }

    /** Create the lock and, where that is a step of its own, write the owner. */
    method TryCreate(p: Pid)
      requires p in state.procs && state.procs[p].pc.Creating? && Sound(state)
      modifies this
      ensures Sound(state)
      ensures old(state.lock) == Absent ==>
                state == Moved(old(state), Owned(old(state).procs[p].run), p, Holding)
      ensures old(state.lock) != Absent ==>
                var next := if old(state).procs[p].pc.retried then Rejected else Reading;
                state == Moved(old(state), old(state).lock, p, next)
    {
      Perform(p, Create);
      if At(state, p, Writing) { Perform(p, Write); }
    }

    /** `reclaim_or_reject`: take over a lock of the same run, reject any other. */
    method Reclaim(p: Pid)
      requires At(state, p, Reading) && Sound(state)
      modifies this
      ensures Sound(state)
      ensures var next := if old(state).lock == Owned(old(state).procs[p].run) then Holding else Rejected;
              state == Moved(old(state), old(state).lock, p, next)
    {
      ghost var s := state;
      Perform(p, Read);
      if At(state, p, Deleting) {
        Perform(p, Delete);
        assert state == Moved(s, Absent, p, Creating(true));
        TryCreate(p);
        assert state == Moved(s, s.lock, p, Holding);
      }
    }

    /**
     `acquire` by one process while no other one moves and no operation fails: it gets the lock
     exactly when there is none or it already names its run, and otherwise leaves it as it is.
     */
    method Acquire(p: Pid) returns (held: bool)
      requires Sound(state) && (At(state, p, Idle) || At(state, p, Rejected))
      modifies this
      ensures Sound(state)
      ensures held <==> old(state).lock == Absent || old(state).lock == Owned(old(state).procs[p].run)
      ensures held ==>
                state == Moved(old(state), Owned(old(state).procs[p].run), p, Holding)
      ensures !held ==> state == Moved(old(state), old(state).lock, p, Rejected)
    {
      Begin(p);
      TryCreate(p);
      if state.procs[p].pc.Reading? { Reclaim(p); }
      held := state.procs[p].pc.Holding?;
    }
  }
}
