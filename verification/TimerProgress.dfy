/**
 * The module can always be unloaded: in every reachable state some thread can go on until
 * nvkms_exit is done, with the callers of the API only letting go of what they own, and
 * each such step lowers a rank.
 */
module TimerProgress {
  import opened Common
  import opened NvkmsTimers

  /** Steps that allocate nothing and let nothing fire.  Callers take nvkms_lock only to
      free a timer, and give it back when they own none. */
  predicate GoesOn(s: State, step: Step) {
    && Enabled(s, step)
    && match step
       case ByThread(_) => true
       case ByExit(_) => true
       case ByApi(a) =>
         match a
         case QueueWork(_) => true
         case FireReturn(_) => true
         case FreeTimer(_) => true
         case OwnerLock => s.owned != {}
         case OwnerUnlock => s.owned == {}
         case _ => false
  }

  // ---------------------------------------------------------------------------
  // Nobody is stuck
  // ---------------------------------------------------------------------------

  /** The callback of a kernel timer that del_timer_sync waits for goes on. */
  lemma CallbackGoesOn(s: State, t: Tid) returns (step: Step)
    requires t in s.heap && !Synced(s, t)
    ensures GoesOn(s, step)
  {
    step := ByApi(if s.heap[t].kernel.Firing? then QueueWork(t) else FireReturn(t));
  }

  lemma ScanGoesOn(s: State) returns (step: Step)
    requires s.exit.EScan?
    ensures GoesOn(s, step)
  {
    if s.exit.pos < |s.listed| && !Synced(s, s.listed[s.exit.pos]) {
      step := CallbackGoesOn(s, s.listed[s.exit.pos]);
    } else {
      step := ByExit(Scan);
    }
  }

  /** Whoever holds nvkms_lock outside the queue's thread frees a timer or unlocks. */
  lemma OwnerGoesOn(s: State) returns (step: Step)
    requires s.lock == Some(ByOwner)
    ensures GoesOn(s, step)
  {
    if t :| t in s.owned {
      step := ByApi(FreeTimer(t));
    } else {
      step := ByApi(OwnerUnlock);
    }
  }

  lemma OwnerHolds(s: State)
    requires GlobalInv(s) && !Locked(s.worker) && s.lock.Some?
    ensures s.lock == Some(ByOwner)
  {
    assert s.lock != Some(ByWorker);
    assert s.lock.value == ByWorker || s.lock.value == ByOwner;
  }

  lemma WorkerGoesOn(s: State) returns (step: Step)
    requires FullInv(s) && !s.exit.EScan? && !s.worker.WIdle?
    ensures GoesOn(s, step)
  {
    match s.worker
    case WUnlist(_) => step := ByThread(Unlist);
    case WSync(t) =>
      if Synced(s, t) { step := ByThread(Sync); } else { step := CallbackGoesOn(s, t); }
    case WLock(_) =>
      if s.lock.None? {
        step := ByThread(Acquire);
      } else {
        OwnerHolds(s);
        step := OwnerGoesOn(s);
      }
    case WDeref(_) => step := ByThread(Deref);
    case WDecide(_) => step := ByThread(Decide);
    case WProc(_) => step := ByThread(ProcEnd);
    case WFree(_) => step := ByThread(Free);
    case WUnlock => step := ByThread(Release);
  }

  /** With the queue's thread idle and nothing queued, nvkms_exit goes on, or somebody lets
      go of a timer first. */
  lemma IdleGoesOn(s: State) returns (step: Step)
    requires FullInv(s) && s.worker.WIdle? && s.queue == [] && (s.exit.ENone? || s.exit.EStop?)
    ensures GoesOn(s, step)
  {
    if s.exit.EStop? {
      step := ByExit(Stop);
    } else if s.owned == {} {
      step := ByExit(Start);
    } else if s.lock.None? {
      step := ByApi(OwnerLock);
    } else {
      OwnerHolds(s);
      step := OwnerGoesOn(s);
    }
  }

  lemma NextStep(s: State) returns (step: Step)
    requires FullInv(s) && !s.exit.EDone?
    ensures GoesOn(s, step)
  {
    match s.exit
    case EScan(_) => step := ScanGoesOn(s);
    case EFree(_) => step := ByExit(FreeDrained);
    case _ =>
      if !s.worker.WIdle? {
        step := WorkerGoesOn(s);
      } else if s.queue != [] {
        step := ByThread(Take);
      } else {
        step := IdleGoesOn(s);
      }
  }

  /** In every run, until the module is unloaded, somebody can go on. */
  lemma NeverStuck(run: seq<State>, i: nat)
    requires Run(run) && i < |run| && !run[i].exit.EDone?
    ensures exists step :: GoesOn(run[i], step)
  {
    InvOnRun(run, i);
    var step := NextStep(run[i]);
  }

  // ---------------------------------------------------------------------------
  // The rank
  // ---------------------------------------------------------------------------

  function KernelLoad(k: KernelTimer): nat {
    match k
    case Off => 0
    case Returning => 1
    case Armed => 10
    case Firing => 25
  }

  function TimerLoad(s: State, t: Tid): nat {
    if t in s.heap then 1 + KernelLoad(s.heap[t].kernel) else 0
  }

  /** The loads of the timers below n. */
  function Sum(s: State, n: nat): nat {
    if n == 0 then 0 else Sum(s, n - 1) + TimerLoad(s, n - 1)
  }

  function WorkerLoad(w: Worker): nat {
    match w
    case WIdle => 0
    case WUnlist(_) => 15
    case WSync(_) => 13
    case WLock(_) => 11
    case WDeref(_) => 9
    case WDecide(_) => 8
    case WProc(_) => 6
    case WFree(_) => 4
    case WUnlock => 2
  }

  function ExitLoad(e: Exit): nat {
    match e
    case ENone => 9
    case EScan(_) => 5
    case EFree(_) => 6
    case EStop => 3
    case EDone => 0
  }

  function OwnerLoad(owned: set<Tid>, byOwner: bool): nat {
    (if owned == {} then 0 else 5 * |owned| + if byOwner then 0 else 3) + if byOwner then 2 else 0
  }

  function Load(s: State, n: nat): nat {
    Sum(s, n) + 20 * |s.queue| + WorkerLoad(s.worker) + ExitLoad(s.exit) + OwnerLoad(s.owned, s.lock == Some(ByOwner))
  }

  /** What the drain has still to look at in this pass. */
  function ScanLeft(s: State): nat {
    if s.exit.EScan? && s.exit.pos <= |s.listed| then |s.listed| - s.exit.pos else 0
  }

  lemma {:induction false} SumSame(s: State, s': State, n: nat)
    requires forall t: nat :: t < n ==> TimerLoad(s', t) == TimerLoad(s, t)
    ensures Sum(s', n) == Sum(s, n)
  {
    if n > 0 { SumSame(s, s', n - 1); }
  }

  lemma {:induction false} SumUpdate(s: State, s': State, n: nat, t: Tid)
    requires t < n && forall x: nat :: x != t ==> TimerLoad(s', x) == TimerLoad(s, x)
    ensures Sum(s', n) + TimerLoad(s, t) == Sum(s, n) + TimerLoad(s', t)
  {
    if t < n - 1 { SumUpdate(s, s', n - 1, t); } else { SumSame(s, s', n - 1); }
  }

  /** A step changes the load of its own timer only. */
  lemma OtherTimers(s: State, step: Step, x: Tid)
    requires FullInv(s) && Enabled(s, step) && Subject(s, step) != Some(x)
    ensures TimerLoad(Do(s, step), x) == TimerLoad(s, x)
  {
    SubjectIsOk(s, step);
    NoFault(s, step);
    assert TimerInv(s, x);
    Frame(s, step, x);
  }

  lemma OwnedShrinks(owned: set<Tid>, t: Tid, byOwner: bool)
    requires t in owned
    ensures OwnerLoad(owned - {t}, byOwner) < OwnerLoad(owned, byOwner)
  {
    assert |owned - {t}| == |owned| - 1;
  }

  /** The rest of the load, without the timers'. */
  function Rest(s: State): nat {
    20 * |s.queue| + WorkerLoad(s.worker) + ExitLoad(s.exit) + OwnerLoad(s.owned, s.lock == Some(ByOwner))
  }

  /** Falls, or stays while the drain looks at the next timer. */
  predicate Lower(before: nat, after: nat, s: State, s': State) {
    after < before || (after == before && ScanLeft(s') < ScanLeft(s))
  }

  predicate IsEarly(w: WorkerStep) {
    w.Take? || w.Unlist? || w.Sync? || w.Acquire?
  }

  lemma EarlyFalls(s: State, w: WorkerStep, t: Tid)
    requires GlobalInv(s) && WorkerEnabled(s, w) && !WorkerDo(s, w).fault && Subject(s, ByThread(w)) == Some(t) && IsEarly(w)
    ensures Rest(WorkerDo(s, w)) + TimerLoad(WorkerDo(s, w), t) < Rest(s) + TimerLoad(s, t)
  {
  }

  lemma FreeFalls(s: State, t: Tid)
    requires s.worker == WFree(t) && !WorkerDo(s, Free).fault
    ensures Rest(WorkerDo(s, Free)) + TimerLoad(WorkerDo(s, Free), t) < Rest(s) + TimerLoad(s, t)
  {
  }

  lemma LateFalls(s: State, w: WorkerStep, t: Tid)
    requires GlobalInv(s) && WorkerEnabled(s, w) && !WorkerDo(s, w).fault && Subject(s, ByThread(w)) == Some(t) && !IsEarly(w)
    ensures Rest(WorkerDo(s, w)) + TimerLoad(WorkerDo(s, w), t) < Rest(s) + TimerLoad(s, t)
  {
    match w
    case Free => FreeFalls(s, t);
    case _ =>
  }

  lemma WorkerFalls(s: State, w: WorkerStep, t: Tid)
    requires GlobalInv(s) && WorkerEnabled(s, w) && !WorkerDo(s, w).fault && Subject(s, ByThread(w)) == Some(t)
    ensures Rest(WorkerDo(s, w)) + TimerLoad(WorkerDo(s, w), t) < Rest(s) + TimerLoad(s, t)
  {
    if IsEarly(w) { EarlyFalls(s, w, t); } else { LateFalls(s, w, t); }
  }

  lemma ReleaseFalls(s: State)
    requires GlobalInv(s) && s.worker.WUnlock?
    ensures Rest(WorkerDo(s, Release)) < Rest(s) && WorkerDo(s, Release).heap == s.heap
  {
  }

  lemma ExitFalls(s: State, e: ExitStep, t: Tid)
    requires DrainInv(s) && ExitEnabled(s, e) && !ExitDo(s, e).fault && ExitSubject(s, e) == Some(t)
    ensures var s' := ExitDo(s, e); Lower(Rest(s) + TimerLoad(s, t), Rest(s') + TimerLoad(s', t), s, s')
  {
  }

  lemma ExitMoves(s: State, e: ExitStep)
    requires ExitEnabled(s, e) && ExitSubject(s, e).None?
    ensures Rest(ExitDo(s, e)) < Rest(s) && ExitDo(s, e).heap == s.heap
  {
  }

  lemma FreeTimerFalls(s: State, t: Tid)
    requires ApiEnabled(s, FreeTimer(t)) && !ApiDo(s, FreeTimer(t)).fault
    ensures var s' := ApiDo(s, FreeTimer(t)); Rest(s') + TimerLoad(s', t) < Rest(s) + TimerLoad(s, t)
  {
    OwnedShrinks(s.owned, t, s.lock == Some(ByOwner));
  }

  lemma ApiFalls(s: State, a: ApiStep, t: Tid)
    requires GoesOn(s, ByApi(a)) && !ApiDo(s, a).fault && ApiSubject(s, a) == Some(t)
    ensures Rest(ApiDo(s, a)) + TimerLoad(ApiDo(s, a), t) < Rest(s) + TimerLoad(s, t)
  {
    match a
    case FreeTimer(_) => FreeTimerFalls(s, t);
    case _ =>
  }

  lemma ApiMoves(s: State, a: ApiStep)
    requires GoesOn(s, ByApi(a)) && ApiSubject(s, a).None?
    ensures Rest(ApiDo(s, a)) < Rest(s) && ApiDo(s, a).heap == s.heap
  {
  }

  lemma SubjectFalls(s: State, step: Step, t: Tid)
    requires FullInv(s) && GoesOn(s, step) && Subject(s, step) == Some(t)
    ensures var s' := Do(s, step); Lower(Rest(s) + TimerLoad(s, t), Rest(s') + TimerLoad(s', t), s, s')
  {
    SubjectIsOk(s, step);
    NoFault(s, step);
    match step
    case ByThread(w) => WorkerFalls(s, w, t);
    case ByExit(e) => ExitFalls(s, e, t);
    case ByApi(a) => ApiFalls(s, a, t);
  }

  lemma NobodyFalls(s: State, step: Step)
    requires FullInv(s) && GoesOn(s, step) && Subject(s, step).None?
    ensures Rest(Do(s, step)) < Rest(s) && Do(s, step).heap == s.heap
  {
    match step
    case ByThread(w) => ReleaseFalls(s);
    case ByExit(e) => ExitMoves(s, e);
    case ByApi(a) => ApiMoves(s, a);
  }

  /** Every such step lowers the rank, counted over any number of timers that includes the
      one it works on. */
  lemma RankFalls(s: State, step: Step, n: nat)
    requires FullInv(s) && GoesOn(s, step) && (Subject(s, step).Some? ==> Subject(s, step).value < n)
    ensures Lower(Load(s, n), Load(Do(s, step), n), s, Do(s, step))
  {
    var s' := Do(s, step);
    if Subject(s, step).Some? {
      var t := Subject(s, step).value;
      forall x: nat | x != t ensures TimerLoad(s', x) == TimerLoad(s, x) { OtherTimers(s, step, x); }
      SumUpdate(s, s', n, t);
      SubjectFalls(s, step, t);
    } else {
      NobodyFalls(s, step);
      SumSame(s, s', n);
    }
  }

  // ---------------------------------------------------------------------------
  // Unloading
  // ---------------------------------------------------------------------------

  lemma SubjectIsKnown(s: State, step: Step)
    requires FullInv(s) && GoesOn(s, step)
    ensures Subject(s, step).Some? ==> Subject(s, step).value < s.nextTimer
    ensures Do(s, step).nextTimer == s.nextTimer
  {
    if Subject(s, step).Some? { assert TimerInv(s, Subject(s, step).value); }
  }

  lemma Extend(run: seq<State>, step: Step) returns (run': seq<State>)
    requires Run(run) && Enabled(run[|run| - 1], step)
    ensures Run(run') && run' == run + [Do(run[|run| - 1], step)]
  {
    run' := run + [Do(run[|run| - 1], step)];
    assert Next(run[|run| - 1], run'[|run|]);
  }

  lemma {:induction false} FinishExit(run: seq<State>) returns (run': seq<State>)
    requires Run(run)
    ensures Run(run') && run <= run' && run'[|run'| - 1].exit.EDone?
    ensures run'[|run'| - 1].nextTimer == run[|run| - 1].nextTimer
    decreases Load(run[|run| - 1], run[|run| - 1].nextTimer), ScanLeft(run[|run| - 1])
  {
    var s := run[|run| - 1];
    if s.exit.EDone? {
      run' := run;
    } else {
      InvOnRun(run, |run| - 1);
      var step := NextStep(s);
      SubjectIsKnown(s, step);
      RankFalls(s, step, s.nextTimer);
      run' := Extend(run, step);
      run' := FinishExit(run');
    }
  }

  predicate FreedOnce(s: State, t: Tid) {
    multiset(s.freed)[t] == 1
  }

  ghost predicate AllFreed(s: State, n: nat) {
    forall t: Tid :: t < n ==> FreedOnce(s, t)
  }

  /** Every run can be continued, without new timers, until the module is unloaded; then
      every timer ever allocated has been freed exactly once. */
  lemma CanUnload(run: seq<State>) returns (run': seq<State>)
    requires Run(run)
    ensures Run(run') && run <= run' && run'[|run'| - 1].exit.EDone?
    ensures AllFreed(run'[|run'| - 1], run[|run| - 1].nextTimer)
  {
    run' := FinishExit(run);
    var s, n := run'[|run'| - 1], run[|run| - 1].nextTimer;
    forall t: Tid | t < n ensures FreedOnce(s, t) {
      UnloadDrain(run', |run'| - 1, t);
    }
  }

  // ---------------------------------------------------------------------------
  // An instance
  // ---------------------------------------------------------------------------

  /** A delayed timer with a ref_ptr and a timer that is queued at once. */
  const ALLOCATED := State(map[0 := Timer(Some(0), false, false, true, Armed), 1 := Timer(None, false, false, false, Off)],
    [1, 0], [1], WIdle, None, map[0 := RefPtr(2, true)], ENone, {1}, {0}, 2, 1, [], [], [], false)

  lemma AllocatedIsReachable() returns (run: seq<State>)
    ensures Run(run) && run[|run| - 1] == ALLOCATED
  {
    run := [INITIAL];
    run := Extend(run, ByApi(AllocRef));
    run := Extend(run, ByApi(AllocTimer(Some(0), true)));
    run := Extend(run, ByApi(AllocTimer(None, false)));
    var s := run[|run| - 1];
    assert s.heap == ALLOCATED.heap && s.refs == ALLOCATED.refs;
  }

  /** The owner of the ref_ptr lets go of it. */
  const LET_GO := ALLOCATED.(refs := map[0 := RefPtr(1, false)], owners := {})

  lemma LetGoIsReachable() returns (run: seq<State>)
    ensures Run(run) && run[|run| - 1] == LET_GO
  {
    run := AllocatedIsReachable();
    run := Extend(run, ByApi(OwnerLock));
    run := Extend(run, ByApi(FreeRef(0)));
    run := Extend(run, ByApi(OwnerUnlock));
    var s := run[|run| - 1];
    assert s.refs == LET_GO.refs && s.owners == {};
  }

  /** For instance: two timers are allocated, one armed and one queued, the owner of the
      armed one's target lets go, and the module is unloaded with both freed once. */
  lemma UnloadRun() returns (run: seq<State>, i: nat)
    ensures Run(run) && i < |run| && run[i] == LET_GO
    ensures run[|run| - 1].exit.EDone? && FreedOnce(run[|run| - 1], 0) && FreedOnce(run[|run| - 1], 1)
  {
    var start := LetGoIsReachable();
    i := |start| - 1;
    run := CanUnload(start);
  }
}
