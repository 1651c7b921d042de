/**
 * NVKMS timers, the reference-counted pointers they may carry, and the drain that
 * precedes module unload.
 *
 * A timer is one allocation that the kernel timer code, the work queue, the
 * global timers list and its owner all point into.  The model keeps the heap
 * explicit: a step that touches memory which is not allocated, or frees memory
 * that something still points into, sets fault.  The work queue appears as a list
 * whose items run one at a time, in the order queued, and the last step of the unload
 * waits until it is empty; UnloadStop derives both from the steps of KthreadQueue.
 */
module NvkmsTimers {
  import opened Common

  type Tid = nat
  type Rid = nat

  /** The struct timer_list inside a timer. */
  datatype KernelTimer =
    | Off
    | Armed       // pending
    | Firing      // callback entered, item not queued yet
    | Returning   // item queued, callback not yet left

  datatype Timer = Timer(
    ref: Option<Rid>,      // Some for an isRefPtr timer
    cancel: bool,
    complete: bool,
    created: bool,         // kernel_timer_created
    kernel: KernelTimer)

  /** The item the queue's thread is running, and how far its callback has come. */
  datatype Worker =
    | WIdle
    | WUnlist(t: Tid)
    | WSync(t: Tid)
    | WLock(t: Tid)
    | WDeref(t: Tid)
    | WDecide(t: Tid)
    | WProc(t: Tid)
    | WFree(t: Tid)
    | WUnlock

  datatype RefPtr = RefPtr(count: nat, target: bool)

  datatype LockOwner = ByWorker | ByOwner

  /** nvkms_exit.  EScan holds nvkms_timers.lock at a position of the list. */
  datatype Exit = ENone | EScan(pos: nat) | EFree(t: Tid) | EStop | EDone

  /** Recorded when a proc starts. */
  datatype ProcRun = ProcRun(t: Tid, cancelled: bool, targetGone: bool)

  datatype State = State(
    heap: map<Tid, Timer>,
    listed: seq<Tid>,          // nvkms_timers.list, head first
    queue: seq<Tid>,
    worker: Worker,
    lock: Option<LockOwner>,   // nvkms_lock
    refs: map<Rid, RefPtr>,
    exit: Exit,
    // What the callers of the API hold.
    owned: set<Tid>,           // handles not yet passed to nvkms_free_timer
    owners: set<Rid>,          // ref_ptrs not yet passed to nvkms_free_ref_ptr
    // History.
    nextTimer: Tid,
    nextRef: Rid,
    freed: seq<Tid>,
    freedRefs: seq<Rid>,
    procs: seq<ProcRun>,
    fault: bool)

  const INITIAL := State(map[], [], [], WIdle, None, map[], ENone, {}, {}, 0, 0, [], [], [], false)

  predicate Init(s: State) {
    s == INITIAL
  }

  /** The thread of nvkms_kthread_q, running nvkms_kthread_q_callback. */
  datatype WorkerStep = Take | Unlist | Sync | Acquire | Deref | Decide | ProcEnd | Free | Release

  /** nvkms_exit. */
  datatype ExitStep = Start | Scan | FreeDrained | Stop

  /** Everybody else: callers of the API and the kernel's timer softirq. */
  datatype ApiStep =
    | AllocRef
    | AllocTimer(ref: Option<Rid>, delayed: bool)
    | Fire(t: Tid)
    | QueueWork(t: Tid)
    | FireReturn(t: Tid)
    | OwnerLock
    | OwnerUnlock
    | FreeTimer(t: Tid)
    | FreeRef(r: Rid)

  datatype Step = ByThread(w: WorkerStep) | ByExit(e: ExitStep) | ByApi(a: ApiStep)

  function Fail(s: State): State {
    s.(fault := true)
  }

  function Put(s: State, t: Tid, timer: Timer): State {
    s.(heap := s.heap[t := timer])
  }

  /** kfree of a timer; faults if something still points into it. */
  function Kfree(s: State, t: Tid): State {
    if t !in s.heap || !s.heap[t].kernel.Off? || t in s.listed || t in s.queue then Fail(s)
    else s.(heap := s.heap - {t}, freed := s.freed + [t])
  }

  /** nv_kref_put. */
  function PutRef(s: State, r: Rid): State {
    if r !in s.refs || s.refs[r].count == 0 then Fail(s)
    else if s.refs[r].count == 1 then s.(refs := s.refs - {r}, freedRefs := s.freedRefs + [r])
    else s.(refs := s.refs[r := s.refs[r].(count := s.refs[r].count - 1)])
  }

  function Without(list: seq<Tid>, t: Tid): seq<Tid> {
    if list == [] then []
    else if list[0] == t then list[1..]
    else [list[0]] + Without(list[1..], t)
  }

  /** del_timer_sync returns only once the callback is not running. */
  predicate Synced(s: State, t: Tid) {
    t in s.heap && s.heap[t].created ==> s.heap[t].kernel.Off? || s.heap[t].kernel.Armed?
  }

  predicate WorkerEnabled(s: State, w: WorkerStep) {
    match w
    case Take => s.worker.WIdle? && s.queue != []
    case Unlist => s.worker.WUnlist? && !s.exit.EScan?
    case Sync => s.worker.WSync? && Synced(s, s.worker.t)
    case Acquire => s.worker.WLock? && s.lock.None?
    case Deref => s.worker.WDeref?
    case Decide => s.worker.WDecide?
    case ProcEnd => s.worker.WProc?
    case Free => s.worker.WFree?
    case Release => s.worker.WUnlock?
  }

  function WorkerDo(s: State, w: WorkerStep): State
    requires WorkerEnabled(s, w)
  {
    match w
    case Take => s.(queue := s.queue[1..], worker := WUnlist(s.queue[0]))
    case Unlist =>
      if s.worker.t !in s.heap || s.worker.t !in s.listed then Fail(s)
      else s.(listed := Without(s.listed, s.worker.t), worker := WSync(s.worker.t))
    case Sync =>
      var t := s.worker.t;
      if t !in s.heap then Fail(s)
      else Put(s, t, if s.heap[t].created then s.heap[t].(kernel := Off) else s.heap[t])
           .(worker := WLock(t))
    case Acquire => s.(lock := Some(ByWorker), worker := WDeref(s.worker.t))
    case Deref =>
      var t := s.worker.t;
      if t !in s.heap then Fail(s)
      else
        var s1 := s.(worker := WDecide(t));
        if s.heap[t].ref.None? then s1
        else
          var r := s.heap[t].ref.value;
          if r !in s.refs then Fail(s)
          else Put(PutRef(s1, r), t, s.heap[t].(cancel := s.heap[t].cancel || !s.refs[r].target))
    case Decide =>
      var t := s.worker.t;
      if t !in s.heap then Fail(s)
      else if s.heap[t].cancel then s.(worker := WFree(t))
      else
        var ref := s.heap[t].ref;
        s.(worker := WProc(t),
           procs := s.procs + [ProcRun(t, ref.None? && t !in s.owned, ref.Some? && ref.value !in s.owners)])
    case ProcEnd =>
      var t := s.worker.t;
      if t !in s.heap then Fail(s)
      else Put(s, t, s.heap[t].(complete := true)).(worker := WFree(t))
    case Free =>
      var t := s.worker.t;
      if t !in s.heap then Fail(s)
      else if s.heap[t].ref.Some? || s.heap[t].cancel then Kfree(s, t).(worker := WUnlock)
      else s.(worker := WUnlock)
    case Release => s.(lock := None, worker := WIdle)
  }

  predicate ExitEnabled(s: State, e: ExitStep) {
    match e
    case Start => s.exit.ENone? && s.owned == {}
    case Scan => s.exit.EScan? && (s.exit.pos < |s.listed| ==> Synced(s, s.listed[s.exit.pos]))
    case FreeDrained => s.exit.EFree?
    case Stop => s.exit.EStop? && s.queue == [] && s.worker.WIdle?
  }

  function ExitDo(s: State, e: ExitStep): State
    requires ExitEnabled(s, e)
  {
    match e
    case Start => s.(exit := EScan(0))
    case Scan =>
      if s.exit.pos >= |s.listed| then s.(exit := EStop)
      else
        var t := s.listed[s.exit.pos];
        if t !in s.heap then Fail(s)
        else if s.heap[t].created && s.heap[t].kernel.Armed? then
          Put(s, t, s.heap[t].(kernel := Off)).(listed := Without(s.listed, t), exit := EFree(t))
        else s.(exit := EScan(s.exit.pos + 1))
    case FreeDrained =>
      var t := s.exit.t;
      if t !in s.heap then Fail(s)
      else
        var s1 := if s.heap[t].ref.Some? then PutRef(s, s.heap[t].ref.value) else s;
        Kfree(s1, t).(exit := EScan(0))
    case Stop => s.(exit := EDone)
  }

  /** Holding nvkms_lock: a caller, or code called from a proc. */
  predicate OwnerMayAct(s: State) {
    s.lock == Some(ByOwner) || (s.lock == Some(ByWorker) && s.worker.WProc?)
  }

  predicate ApiEnabled(s: State, a: ApiStep) {
    match a
    case AllocRef => s.exit.ENone?
    case AllocTimer(ref, _) => s.exit.ENone? && (ref.Some? ==> ref.value in s.owners)
    case Fire(t) => t in s.heap && s.heap[t].kernel.Armed?
    case QueueWork(t) => t in s.heap && s.heap[t].kernel.Firing?
    case FireReturn(t) => t in s.heap && s.heap[t].kernel.Returning?
    case OwnerLock => s.lock.None?
    case OwnerUnlock => s.lock == Some(ByOwner)
    case FreeTimer(t) => t in s.owned && OwnerMayAct(s)
    case FreeRef(r) => r in s.owners && OwnerMayAct(s)
  }

  function ApiDo(s: State, a: ApiStep): State
    requires ApiEnabled(s, a)
  {
    match a
    case AllocRef =>
      s.(refs := s.refs[s.nextRef := RefPtr(1, true)], owners := s.owners + {s.nextRef},
         nextRef := s.nextRef + 1)
    case AllocTimer(ref, delayed) =>
      var t := s.nextTimer;
      var s1 := if ref.None? then s.(owned := s.owned + {t})
                else if ref.value !in s.refs then Fail(s)
                else s.(refs := s.refs[ref.value := s.refs[ref.value].(count := s.refs[ref.value].count + 1)]);
      var timer := Timer(ref, false, false, delayed, if delayed then Armed else Off);
      s1.(nextTimer := t + 1, heap := s.heap[t := timer], listed := [t] + s.listed,
          queue := if delayed then s.queue else s.queue + [t])
    case Fire(t) => Put(s, t, s.heap[t].(kernel := Firing))
    case QueueWork(t) =>
      if t in s.queue then Fail(s)  // WARN_ON: already pending
      else Put(s, t, s.heap[t].(kernel := Returning)).(queue := s.queue + [t])
    case FireReturn(t) => Put(s, t, s.heap[t].(kernel := Off))
    case OwnerLock => s.(lock := Some(ByOwner))
    case OwnerUnlock => s.(lock := None)
    case FreeTimer(t) =>
      var s1 := s.(owned := s.owned - {t});
      if t !in s.heap then Fail(s1)
      else if s.heap[t].complete then Kfree(s1, t)
      else Put(s1, t, s.heap[t].(cancel := true))
    case FreeRef(r) =>
      var s1 := s.(owners := s.owners - {r});
      if r !in s.refs then Fail(s1)
      else PutRef(s1.(refs := s.refs[r := s.refs[r].(target := false)]), r)
  }

  predicate Enabled(s: State, step: Step) {
    match step
    case ByThread(w) => WorkerEnabled(s, w)
    case ByExit(e) => ExitEnabled(s, e)
    case ByApi(a) => ApiEnabled(s, a)
  }

  function Do(s: State, step: Step): State
    requires Enabled(s, step)
  {
    match step
    case ByThread(w) => WorkerDo(s, w)
    case ByExit(e) => ExitDo(s, e)
    case ByApi(a) => ApiDo(s, a)
  }

  ghost predicate Next(s: State, s': State) {
    exists step :: Enabled(s, step) && s' == Do(s, step)
  }

  ghost predicate Run(run: seq<State>) {
    IsRun(run, Init, Next)
  }

  // ---------------------------------------------------------------------------
  // Invariants
  // ---------------------------------------------------------------------------

  function Held(w: Worker): Option<Tid> {
    match w
    case WIdle => None
    case WUnlock => None
    case WUnlist(t) => Some(t)
    case WSync(t) => Some(t)
    case WLock(t) => Some(t)
    case WDeref(t) => Some(t)
    case WDecide(t) => Some(t)
    case WProc(t) => Some(t)
    case WFree(t) => Some(t)
  }

  predicate Locked(w: Worker) {
    w.WDeref? || w.WDecide? || w.WProc? || w.WFree? || w.WUnlock?
  }

  /** The kernel timer of t is pending, or its callback has yet to queue the item. */
  predicate Waiting(k: KernelTimer) {
    k.Armed? || k.Firing?
  }

  /** Nothing points at a timer that is not allocated. */
  ghost predicate Absent(s: State, t: Tid) {
    t !in s.queue && t !in s.listed && t !in s.owned && Held(s.worker) != Some(t) && s.exit != EFree(t)
  }

  /** An allocated timer is on its way through exactly one of: the kernel timer,
      the queue, the worker, the drain; or it is complete and its owner will free
      it.  A timer without ref_ptr is cancelled exactly when its owner let go. */
  ghost predicate Present(s: State, t: Tid, r: Timer) {
    && (Waiting(r.kernel) ==> r.created && t !in s.queue && Held(s.worker) != Some(t) && s.exit != EFree(t))
    && (r.kernel.Returning? ==>
          r.created && (t in s.queue || s.worker == WUnlist(t) || s.worker == WSync(t)))
    && (t in s.queue ==> Held(s.worker) != Some(t) && s.exit != EFree(t))
    && (s.exit == EFree(t) ==> r.kernel.Off? && Held(s.worker) != Some(t))
    && (r.complete ==>
          && r.kernel.Off? && t !in s.queue && s.exit != EFree(t)
          && (Held(s.worker) == Some(t) ==> s.worker == WFree(t))
          && (r.ref.Some? ==> s.worker == WFree(t)))
    && (r.complete || Waiting(r.kernel) || t in s.queue || Held(s.worker) == Some(t) || s.exit == EFree(t))
    && (r.complete && Held(s.worker) != Some(t) ==> t in s.owned)
    && (r.ref.None? ==> (t in s.owned <==> !r.cancel))
    && (r.ref.Some? ==> t !in s.owned && (r.cancel ==> s.worker == WDecide(t) || s.worker == WFree(t)))
    && (t in s.listed <==> Waiting(r.kernel) || t in s.queue || s.worker == WUnlist(t))
    && (s.worker == WProc(t) ==> !r.complete)
    && (s.worker == WFree(t) && !r.complete ==> r.cancel)
  }

  ghost predicate TimerInv(s: State, t: Tid) {
    && (if t in s.heap then Present(s, t, s.heap[t]) else Absent(s, t))
    && (t in s.heap ==> t < s.nextTimer)
    && multiset(s.freed)[t] == if t < s.nextTimer && t !in s.heap then 1 else 0
  }

  ghost predicate GlobalInv(s: State) {
    && NoDup(s.queue)
    && NoDup(s.listed)
    && (s.lock == Some(ByWorker) <==> Locked(s.worker))
    && (!s.exit.ENone? ==> s.owned == {})
    && !s.fault
  }

  ghost predicate Inv(s: State) {
    GlobalInv(s) && forall t: Tid :: TimerInv(s, t)
  }

  lemma WithoutMember(list: seq<Tid>, t: Tid, x: Tid)
    requires NoDup(list)
    ensures x in Without(list, t) <==> x in list && x != t
  {
    if list != [] && list[0] != t {
      WithoutMember(list[1..], t, x);
    } else if list != [] {
      assert list == [t] + list[1..];
    }
  }

  lemma WithoutNoDup(list: seq<Tid>, t: Tid)
    requires NoDup(list)
    ensures NoDup(Without(list, t))
  {
    if list != [] && list[0] != t {
      WithoutNoDup(list[1..], t);
      WithoutMember(list[1..], t, list[0]);
    }
  }

  /** The timer a step works on. */
  function Subject(s: State, step: Step): Option<Tid> {
    match step
    case ByThread(w) =>
      if w.Take? then (if s.queue == [] then None else Some(s.queue[0])) else Held(s.worker)
    case ByExit(e) => ExitSubject(s, e)
    case ByApi(a) => ApiSubject(s, a)
  }

  function ExitSubject(s: State, e: ExitStep): Option<Tid> {
    match e
    case Scan =>
      if s.exit.EScan? && s.exit.pos < |s.listed| then Some(s.listed[s.exit.pos]) else None
    case FreeDrained => if s.exit.EFree? then Some(s.exit.t) else None
    case _ => None
  }

  function ApiSubject(s: State, a: ApiStep): Option<Tid> {
    match a
    case AllocTimer(_, _) => Some(s.nextTimer)
    case Fire(t) => Some(t)
    case QueueWork(t) => Some(t)
    case FireReturn(t) => Some(t)
    case FreeTimer(t) => Some(t)
    case _ => None
  }

  /** Nothing that concerns t has changed. */
  ghost predicate SameFor(s: State, s': State, t: Tid) {
    && (t in s.heap <==> t in s'.heap)
    && (t in s.heap ==> s.heap[t] == s'.heap[t])
    && (t in s.queue <==> t in s'.queue)
    && (t in s.listed <==> t in s'.listed)
    && (t in s.owned <==> t in s'.owned)
    && (Held(s.worker) == Some(t) || Held(s'.worker) == Some(t) ==> s.worker == s'.worker)
    && (s.exit == EFree(t) <==> s'.exit == EFree(t))
    && (t < s.nextTimer <==> t < s'.nextTimer)
    && multiset(s.freed)[t] == multiset(s'.freed)[t]
  }

  lemma SameKeeps(s: State, s': State, t: Tid)
    requires SameFor(s, s', t) && TimerInv(s, t)
    ensures TimerInv(s', t)
  {
  }

  lemma FrameTake(s: State, t: Tid)
    requires WorkerEnabled(s, Take) && s.queue[0] != t
    ensures SameFor(s, WorkerDo(s, Take), t)
  {
    assert s.queue == [s.queue[0]] + s.queue[1..];
  }

  lemma FrameUnlist(s: State, t: Tid)
    requires NoDup(s.listed) && WorkerEnabled(s, Unlist) && s.worker.t != t && !WorkerDo(s, Unlist).fault
    ensures SameFor(s, WorkerDo(s, Unlist), t)
  {
    WithoutMember(s.listed, s.worker.t, t);
  }

  lemma FrameWorker(s: State, w: WorkerStep, t: Tid)
    requires NoDup(s.listed) && WorkerEnabled(s, w) && !WorkerDo(s, w).fault
    requires Subject(s, ByThread(w)) != Some(t)
    ensures SameFor(s, WorkerDo(s, w), t)
  {
    match w
    case Take => FrameTake(s, t);
    case Unlist => FrameUnlist(s, t);
    case Free => FrameFree(s, t);
    case _ =>
  }

  lemma FrameFree(s: State, t: Tid)
    requires WorkerEnabled(s, Free) && s.worker.t != t && !WorkerDo(s, Free).fault
    ensures SameFor(s, WorkerDo(s, Free), t)
  {
  }

  lemma FrameScan(s: State, t: Tid)
    requires NoDup(s.listed) && ExitEnabled(s, Scan) && !ExitDo(s, Scan).fault && ExitSubject(s, Scan) != Some(t)
    ensures SameFor(s, ExitDo(s, Scan), t)
  {
    if s.exit.pos < |s.listed| {
      WithoutMember(s.listed, s.listed[s.exit.pos], t);
    }
  }

  lemma FrameExit(s: State, e: ExitStep, t: Tid)
    requires NoDup(s.listed) && ExitEnabled(s, e) && !ExitDo(s, e).fault && ExitSubject(s, e) != Some(t)
    ensures SameFor(s, ExitDo(s, e), t)
  {
    if e.Scan? { FrameScan(s, t); }
  }

  lemma FrameAlloc(s: State, a: ApiStep, t: Tid)
    requires a.AllocTimer? && ApiEnabled(s, a) && !ApiDo(s, a).fault && t != s.nextTimer
    ensures SameFor(s, ApiDo(s, a), t)
  {
    assert t in s.queue + [s.nextTimer] <==> t in s.queue;
    assert t in [s.nextTimer] + s.listed <==> t in s.listed;
  }

  lemma FrameTouch(s: State, a: ApiStep, t: Tid)
    requires a.Fire? || a.QueueWork? || a.FireReturn? || a.FreeTimer?
    requires ApiEnabled(s, a) && !ApiDo(s, a).fault && a.t != t
    ensures SameFor(s, ApiDo(s, a), t)
  {
    if a.QueueWork? { assert t in s.queue + [a.t] <==> t in s.queue; }
  }

  lemma FrameApi(s: State, a: ApiStep, t: Tid)
    requires ApiEnabled(s, a) && !ApiDo(s, a).fault && ApiSubject(s, a) != Some(t)
    ensures SameFor(s, ApiDo(s, a), t)
  {
    match a
    case AllocTimer(_, _) => FrameAlloc(s, a, t);
    case AllocRef =>
    case FreeRef(_) =>
    case OwnerLock =>
    case OwnerUnlock =>
    case _ => FrameTouch(s, a, t);
  }

  lemma Frame(s: State, step: Step, t: Tid)
    requires NoDup(s.listed) && Enabled(s, step) && !Do(s, step).fault && Subject(s, step) != Some(t)
    ensures SameFor(s, Do(s, step), t)
  {
    match step
    case ByThread(w) => FrameWorker(s, w, t);
    case ByExit(e) => FrameExit(s, e, t);
    case ByApi(a) => FrameApi(s, a, t);
  }

  lemma TakeSubject(s: State, t: Tid)
    requires GlobalInv(s) && TimerInv(s, t) && WorkerEnabled(s, Take) && t == s.queue[0]
    ensures TimerInv(WorkerDo(s, Take), t)
  {
    assert s.queue == [s.queue[0]] + s.queue[1..];
  }

  lemma UnlistSubject(s: State, t: Tid)
    requires GlobalInv(s) && TimerInv(s, t) && WorkerEnabled(s, Unlist) && t == s.worker.t
    requires !WorkerDo(s, Unlist).fault
    ensures TimerInv(WorkerDo(s, Unlist), t)
  {
    WithoutMember(s.listed, t, t);
  }

  lemma WorkerSubject(s: State, w: WorkerStep, t: Tid)
    requires GlobalInv(s) && TimerInv(s, t) && WorkerEnabled(s, w) && !WorkerDo(s, w).fault
    requires Subject(s, ByThread(w)) == Some(t)
    ensures TimerInv(WorkerDo(s, w), t)
  {
    match w
    case Take => TakeSubject(s, t);
    case Unlist => UnlistSubject(s, t);
    case Sync => SyncSubject(s, t);
    case Deref => DerefSubject(s, t);
    case Free => FreeSubject(s, t);
    case _ =>
  }

  lemma SyncSubject(s: State, t: Tid)
    requires TimerInv(s, t) && WorkerEnabled(s, Sync) && t == s.worker.t && !WorkerDo(s, Sync).fault
    requires !s.fault
    ensures TimerInv(WorkerDo(s, Sync), t)
  {
  }

  lemma DerefSubject(s: State, t: Tid)
    requires TimerInv(s, t) && WorkerEnabled(s, Deref) && t == s.worker.t && !WorkerDo(s, Deref).fault
    ensures TimerInv(WorkerDo(s, Deref), t)
  {
  }

  lemma FreeSubject(s: State, t: Tid)
    requires TimerInv(s, t) && WorkerEnabled(s, Free) && t == s.worker.t && !WorkerDo(s, Free).fault
    ensures TimerInv(WorkerDo(s, Free), t)
  {
  }

  lemma ScanSubject(s: State, t: Tid)
    requires GlobalInv(s) && TimerInv(s, t) && ExitEnabled(s, Scan) && !ExitDo(s, Scan).fault
    requires ExitSubject(s, Scan) == Some(t)
    ensures TimerInv(ExitDo(s, Scan), t)
  {
    WithoutMember(s.listed, t, t);
  }

  lemma ExitSubjectStep(s: State, e: ExitStep, t: Tid)
    requires GlobalInv(s) && TimerInv(s, t) && ExitEnabled(s, e) && !ExitDo(s, e).fault
    requires ExitSubject(s, e) == Some(t)
    ensures TimerInv(ExitDo(s, e), t)
  {
    if e.Scan? { ScanSubject(s, t); }
  }

  lemma AllocSubject(s: State, a: ApiStep, t: Tid)
    requires GlobalInv(s) && TimerInv(s, t) && ApiEnabled(s, a) && !ApiDo(s, a).fault
    requires a.AllocTimer? && t == s.nextTimer
    ensures TimerInv(ApiDo(s, a), t)
  {
  }

  lemma ApiSubjectStep(s: State, a: ApiStep, t: Tid)
    requires GlobalInv(s) && TimerInv(s, t) && ApiEnabled(s, a) && !ApiDo(s, a).fault
    requires ApiSubject(s, a) == Some(t)
    ensures TimerInv(ApiDo(s, a), t)
  {
    if a.AllocTimer? { AllocSubject(s, a, t); }
  }

  lemma TimerStep(s: State, step: Step, t: Tid)
    requires GlobalInv(s) && TimerInv(s, t) && Enabled(s, step) && !Do(s, step).fault
    ensures TimerInv(Do(s, step), t)
  {
    if Subject(s, step) == Some(t) {
      match step
      case ByThread(w) => WorkerSubject(s, w, t);
      case ByExit(e) => ExitSubjectStep(s, e, t);
      case ByApi(a) => ApiSubjectStep(s, a, t);
    } else {
      Frame(s, step, t);
      SameKeeps(s, Do(s, step), t);
    }
  }

  // ---------------------------------------------------------------------------
  // Reference counts
  // ---------------------------------------------------------------------------

  /** The callback has already released the ref_ptr of t. */
  predicate Dropped(w: Worker, t: Tid) {
    w == WDecide(t) || w == WProc(t) || w == WFree(t)
  }

  /** The timers that still hold a reference to r. */
  ghost function Holding(s: State, r: Rid): set<Tid> {
    set t | t in s.heap && s.heap[t].ref == Some(r) && !Dropped(s.worker, t)
  }

  function One(b: bool): nat {
    if b then 1 else 0
  }

  function Lookup(refs: map<Rid, RefPtr>, r: Rid): Option<RefPtr> {
    if r in refs then Some(refs[r]) else None
  }

  /** The count is one for the owner, while it has not let go, plus one for each
      timer that holds a reference; at zero the ref_ptr is freed, once. */
  predicate RefOk(entry: Option<RefPtr>, owned: bool, holders: nat, freed: nat, made: bool) {
    && (entry.Some? ==>
          && made && freed == 0
          && entry.value.count == One(owned) + holders > 0
          && (entry.value.target <==> owned))
    && (entry.None? ==> !owned && holders == 0 && freed == One(made))
  }

  ghost predicate RefInv(s: State, r: Rid) {
    RefOk(Lookup(s.refs, r), r in s.owners, |Holding(s, r)|, multiset(s.freedRefs)[r], r < s.nextRef)
  }

  /** A proc starts only while the timer is not cancelled and its target exists. */
  ghost predicate ProcInv(s: State) {
    && (forall p :: p in s.procs ==> !p.cancelled && !p.targetGone)
    && (s.worker.WDecide? && s.worker.t in s.heap ==>
          var timer := s.heap[s.worker.t];
          !timer.cancel && timer.ref.Some? ==> timer.ref.value in s.owners)
  }

  ghost predicate DrainInv(s: State) {
    match s.exit
    case EScan(pos) =>
      && pos <= |s.listed|
      && forall i :: 0 <= i < pos && s.listed[i] in s.heap ==> !Waiting(s.heap[s.listed[i]].kernel)
    case EStop => forall t :: t in s.heap ==> !Waiting(s.heap[t].kernel)
    case EDone => forall t: Tid :: t !in s.heap
    case _ => true
  }

  ghost predicate FullInv(s: State) {
    && Inv(s)
    && (forall r: Rid :: RefInv(s, r))
    && ProcInv(s)
    && DrainInv(s)
  }

  /** The ref_ptr a step works on: the one it names, or the one of its timer. */
  function SubjectRef(s: State, step: Step): Option<Rid> {
    if step.ByApi? && step.a.AllocTimer? then step.a.ref
    else if step.ByApi? && step.a.FreeRef? then Some(step.a.r)
    else
      var t := Subject(s, step);
      if t.Some? && t.value in s.heap then s.heap[t.value].ref else None
  }

  ghost predicate SubjectOk(s: State, step: Step) {
    && GlobalInv(s)
    && (Subject(s, step).Some? ==> TimerInv(s, Subject(s, step).value))
    && (SubjectRef(s, step).Some? ==> RefInv(s, SubjectRef(s, step).value))
  }

  lemma SubjectIsOk(s: State, step: Step)
    requires FullInv(s)
    ensures SubjectOk(s, step)
  {
  }

  lemma HolderCounts(s: State, t: Tid, r: Rid)
    requires t in s.heap && s.heap[t].ref == Some(r) && !Dropped(s.worker, t) && RefInv(s, r)
    ensures r in s.refs && s.refs[r].count > 0
  {
    assert t in Holding(s, r);
  }

  lemma NoFaultWorker(s: State, w: WorkerStep)
    requires SubjectOk(s, ByThread(w)) && WorkerEnabled(s, w)
    ensures !WorkerDo(s, w).fault
  {
    if w.Deref? && SubjectRef(s, ByThread(w)).Some? {
      HolderCounts(s, s.worker.t, SubjectRef(s, ByThread(w)).value);
    }
  }

  lemma NoFaultExit(s: State, e: ExitStep)
    requires SubjectOk(s, ByExit(e)) && ExitEnabled(s, e)
    ensures !ExitDo(s, e).fault
  {
    if e.FreeDrained? && SubjectRef(s, ByExit(e)).Some? {
      HolderCounts(s, s.exit.t, SubjectRef(s, ByExit(e)).value);
    }
  }

  lemma NoFaultApi(s: State, a: ApiStep)
    requires SubjectOk(s, ByApi(a)) && ApiEnabled(s, a)
    ensures !ApiDo(s, a).fault
  {
  }

  lemma NoFault(s: State, step: Step)
    requires SubjectOk(s, step) && Enabled(s, step)
    ensures !Do(s, step).fault
  {
    match step
    case ByThread(w) => NoFaultWorker(s, w);
    case ByExit(e) => NoFaultExit(s, e);
    case ByApi(a) => NoFaultApi(s, a);
  }

  lemma GlobalTake(s: State)
    requires GlobalInv(s) && WorkerEnabled(s, Take)
    ensures GlobalInv(WorkerDo(s, Take))
  {
    assert s.queue == [s.queue[0]] + s.queue[1..];
  }

  lemma GlobalUnlist(s: State)
    requires GlobalInv(s) && WorkerEnabled(s, Unlist) && !WorkerDo(s, Unlist).fault
    ensures GlobalInv(WorkerDo(s, Unlist))
  {
    WithoutNoDup(s.listed, s.worker.t);
  }

  lemma GlobalWorker(s: State, w: WorkerStep)
    requires SubjectOk(s, ByThread(w)) && WorkerEnabled(s, w) && !WorkerDo(s, w).fault
    ensures GlobalInv(WorkerDo(s, w))
  {
    match w
    case Take => GlobalTake(s);
    case Unlist => GlobalUnlist(s);
    case _ =>
  }

  /** What the drain leaves alone. */
  ghost predicate DrainFrame(s: State, s': State) {
    && s'.queue == s.queue && s'.worker == s.worker && s'.lock == s.lock
    && s'.owned == s.owned && s'.owners == s.owners && s'.procs == s.procs
    && (forall t :: t in s'.heap ==>
          t in s.heap && s'.heap[t].cancel == s.heap[t].cancel && s'.heap[t].ref == s.heap[t].ref)
  }

  lemma ScanFrame(s: State)
    requires ExitEnabled(s, Scan) && !ExitDo(s, Scan).fault
    ensures var s' := ExitDo(s, Scan);
            && DrainFrame(s, s')
            && (s'.listed == s.listed
                || (s.exit.pos < |s.listed| && s'.listed == Without(s.listed, s.listed[s.exit.pos])))
  {
  }

  lemma FreeDrainedFrame(s: State)
    requires ExitEnabled(s, FreeDrained) && !ExitDo(s, FreeDrained).fault
    ensures DrainFrame(s, ExitDo(s, FreeDrained)) && ExitDo(s, FreeDrained).listed == s.listed
  {
  }

  lemma ExitFrame(s: State, e: ExitStep)
    requires ExitEnabled(s, e) && !ExitDo(s, e).fault
    ensures DrainFrame(s, ExitDo(s, e))
  {
    match e
    case Scan => ScanFrame(s);
    case FreeDrained => FreeDrainedFrame(s);
    case _ =>
  }

  lemma GlobalFromFrame(s: State, s': State)
    requires GlobalInv(s) && DrainFrame(s, s') && NoDup(s'.listed) && s.owned == {} && !s'.fault
    ensures GlobalInv(s')
  {
  }

  lemma GlobalExit(s: State, e: ExitStep)
    requires GlobalInv(s) && ExitEnabled(s, e) && !ExitDo(s, e).fault
    ensures GlobalInv(ExitDo(s, e))
  {
    ExitFrame(s, e);
    match e
    case Scan =>
      ScanFrame(s);
      if s.exit.pos < |s.listed| { WithoutNoDup(s.listed, s.listed[s.exit.pos]); }
    case FreeDrained => FreeDrainedFrame(s);
    case _ => assert ExitDo(s, e).listed == s.listed;
    GlobalFromFrame(s, ExitDo(s, e));
  }

  lemma GlobalApi(s: State, a: ApiStep)
    requires SubjectOk(s, ByApi(a)) && ApiEnabled(s, a) && !ApiDo(s, a).fault
    ensures GlobalInv(ApiDo(s, a))
  {
    match a
    case AllocTimer(_, delayed) =>
      NoDupAppend(s.queue, s.nextTimer);
      NoDupPrepend(s.nextTimer, s.listed);
    case QueueWork(t) => NoDupAppend(s.queue, t);
    case _ =>
  }

  lemma GlobalStep(s: State, step: Step)
    requires SubjectOk(s, step) && Enabled(s, step) && !Do(s, step).fault
    ensures GlobalInv(Do(s, step))
  {
    match step
    case ByThread(w) => GlobalWorker(s, w);
    case ByExit(e) => GlobalExit(s, e);
    case ByApi(a) => GlobalApi(s, a);
  }

  lemma ProcStep(s: State, step: Step)
    requires SubjectOk(s, step) && ProcInv(s) && Enabled(s, step) && !Do(s, step).fault
    ensures ProcInv(Do(s, step))
  {
    match step
    case ByThread(w) => ProcWorker(s, w);
    case ByExit(e) => ProcExit(s, e);
    case ByApi(a) => ProcApi(s, a);
  }

  lemma ProcFromFrame(s: State, s': State)
    requires ProcInv(s) && DrainFrame(s, s')
    ensures ProcInv(s')
  {
  }

  lemma ProcExit(s: State, e: ExitStep)
    requires ProcInv(s) && ExitEnabled(s, e) && !ExitDo(s, e).fault
    ensures ProcInv(ExitDo(s, e))
  {
    ExitFrame(s, e);
    ProcFromFrame(s, ExitDo(s, e));
  }

  lemma ProcApi(s: State, a: ApiStep)
    requires SubjectOk(s, ByApi(a)) && ProcInv(s) && ApiEnabled(s, a) && !ApiDo(s, a).fault
    ensures ProcInv(ApiDo(s, a))
  {
  }

  lemma ProcWorker(s: State, w: WorkerStep)
    requires SubjectOk(s, ByThread(w)) && ProcInv(s) && WorkerEnabled(s, w) && !WorkerDo(s, w).fault
    ensures ProcInv(WorkerDo(s, w))
  {
  }

  /** When the drain is over and the queue has stopped, no timer is left. */
  lemma DrainedIsEmpty(s: State, t: Tid)
    requires FullInv(s) && s.exit.EStop? && s.queue == [] && s.worker.WIdle?
    ensures t !in s.heap
  {
    assert TimerInv(s, t);
  }

  /** A timer whose kernel timer is still to fire is on the list. */
  lemma WaitingIsListed(s: State)
    requires forall t: Tid :: TimerInv(s, t)
    ensures forall t :: t in s.heap && Waiting(s.heap[t].kernel) ==> t in s.listed
  {
    forall t | t in s.heap && Waiting(s.heap[t].kernel) ensures t in s.listed {
      assert TimerInv(s, t);
    }
  }

  lemma DrainExit(s: State, e: ExitStep)
    requires SubjectOk(s, ByExit(e)) && DrainInv(s) && ExitEnabled(s, e) && !ExitDo(s, e).fault && !e.Stop?
    requires forall t :: t in s.heap && Waiting(s.heap[t].kernel) ==> t in s.listed
    ensures DrainInv(ExitDo(s, e))
  {
  }

  lemma DrainWorker(s: State, w: WorkerStep)
    requires SubjectOk(s, ByThread(w)) && DrainInv(s) && WorkerEnabled(s, w) && !WorkerDo(s, w).fault
    ensures DrainInv(WorkerDo(s, w))
  {
  }

  lemma DrainApi(s: State, a: ApiStep)
    requires SubjectOk(s, ByApi(a)) && DrainInv(s) && ApiEnabled(s, a) && !ApiDo(s, a).fault
    ensures DrainInv(ApiDo(s, a))
  {
  }

  lemma DrainStep(s: State, step: Step)
    requires FullInv(s) && Enabled(s, step) && !Do(s, step).fault
    ensures DrainInv(Do(s, step))
  {
    SubjectIsOk(s, step);
    match step
    case ByThread(w) => DrainWorker(s, w);
    case ByApi(a) => DrainApi(s, a);
    case ByExit(e) =>
      if e.Stop? {
        forall t: Tid ensures t !in s.heap { DrainedIsEmpty(s, t); }
      } else {
        WaitingIsListed(s);
        DrainExit(s, e);
      }
  }

  lemma HoldingSame(s: State, s': State, t: Tid, r: Rid)
    requires SameFor(s, s', t)
    ensures t in Holding(s, r) <==> t in Holding(s', r)
  {
  }

  /** What a step does to the references of its own timer. */
  ghost predicate HoldsAfter(s: State, step: Step, t: Tid, r: Rid) {
    if step.ByApi? && step.a.AllocTimer? then step.a.ref == Some(r)
    else t in Holding(s, r) && step != ByThread(Deref) && step != ByExit(FreeDrained)
  }

  lemma HoldingSubject(s: State, step: Step, t: Tid, r: Rid)
    requires TimerInv(s, t) && Enabled(s, step) && !Do(s, step).fault && Subject(s, step) == Some(t)
    ensures t in Holding(Do(s, step), r) <==> HoldsAfter(s, step, t, r)
  {
    match step
    case ByThread(w) => HoldingWorker(s, w, t, r);
    case ByExit(e) => HoldingExit(s, e, t, r);
    case ByApi(a) => HoldingApi(s, a, t, r);
  }

  lemma HoldingExit(s: State, e: ExitStep, t: Tid, r: Rid)
    requires TimerInv(s, t) && ExitEnabled(s, e) && !ExitDo(s, e).fault && ExitSubject(s, e) == Some(t)
    ensures t in Holding(ExitDo(s, e), r) <==> HoldsAfter(s, ByExit(e), t, r)
  {
  }

  lemma HoldingApi(s: State, a: ApiStep, t: Tid, r: Rid)
    requires TimerInv(s, t) && ApiEnabled(s, a) && !ApiDo(s, a).fault && ApiSubject(s, a) == Some(t)
    ensures t in Holding(ApiDo(s, a), r) <==> HoldsAfter(s, ByApi(a), t, r)
  {
  }

  lemma HoldingWorker(s: State, w: WorkerStep, t: Tid, r: Rid)
    requires TimerInv(s, t) && WorkerEnabled(s, w) && !WorkerDo(s, w).fault
    requires Subject(s, ByThread(w)) == Some(t)
    ensures t in Holding(WorkerDo(s, w), r) <==> HoldsAfter(s, ByThread(w), t, r)
  {
  }

  lemma HoldingStep(s: State, step: Step, r: Rid)
    requires Inv(s) && Enabled(s, step) && !Do(s, step).fault
    ensures Holding(Do(s, step), r) ==
            match Subject(s, step)
            case None => Holding(s, r)
            case Some(t) => if HoldsAfter(s, step, t, r) then Holding(s, r) + {t} else Holding(s, r) - {t}
  {
    var s' := Do(s, step);
    forall t ensures t in Holding(s', r) <==>
                     if Subject(s, step) == Some(t) then HoldsAfter(s, step, t, r) else t in Holding(s, r)
    {
      assert TimerInv(s, t);
      if Subject(s, step) == Some(t) {
        HoldingSubject(s, step, t, r);
      } else {
        Frame(s, step, t);
        HoldingSame(s, s', t, r);
      }
    }
  }

  predicate TouchesRefs(step: Step) {
    || step == ByThread(Deref) || step == ByExit(FreeDrained)
    || (step.ByApi? && (step.a.AllocRef? || step.a.FreeRef? || step.a.AllocTimer?))
  }

  ghost predicate SameRefs(s: State, s': State) {
    s'.refs == s.refs && s'.owners == s.owners && s'.freedRefs == s.freedRefs && s'.nextRef == s.nextRef
  }

  lemma WorkerKeepsRefs(s: State, w: WorkerStep)
    requires WorkerEnabled(s, w) && !w.Deref?
    ensures SameRefs(s, WorkerDo(s, w))
  {
  }

  lemma ExitKeepsRefs(s: State, e: ExitStep)
    requires ExitEnabled(s, e) && !e.FreeDrained?
    ensures SameRefs(s, ExitDo(s, e))
  {
  }

  lemma ApiKeepsRefs(s: State, a: ApiStep)
    requires ApiEnabled(s, a) && !TouchesRefs(ByApi(a))
    ensures SameRefs(s, ApiDo(s, a))
  {
  }

  lemma RefsUntouched(s: State, step: Step)
    requires Enabled(s, step) && !TouchesRefs(step)
    ensures SameRefs(s, Do(s, step))
  {
    match step
    case ByThread(w) => WorkerKeepsRefs(s, w);
    case ByExit(e) => ExitKeepsRefs(s, e);
    case ByApi(a) => ApiKeepsRefs(s, a);
  }

  lemma RefQuiet(s: State, step: Step, r: Rid)
    requires RefInv(s, r) && Enabled(s, step) && !TouchesRefs(step)
    requires Holding(Do(s, step), r) == Holding(s, r)
    ensures RefInv(Do(s, step), r)
  {
    RefsUntouched(s, step);
  }

  /** Giving up one reference. */
  lemma PutRefIs(s: State, r: Rid, x: Rid)
    requires r in s.refs && s.refs[r].count > 0
    ensures var s' := PutRef(s, r);
            && s'.owners == s.owners && s'.nextRef == s.nextRef && !s'.fault == !s.fault
            && Lookup(s'.refs, x) ==
                 (if x != r then Lookup(s.refs, x)
                  else if s.refs[r].count == 1 then None
                  else Some(s.refs[r].(count := s.refs[r].count - 1)))
            && multiset(s'.freedRefs)[x] ==
                 multiset(s.freedRefs)[x] + One(x == r && s.refs[r].count == 1)
  {
  }

  lemma RefOwner(s: State, a: ApiStep, r: Rid)
    requires ApiEnabled(s, a) && !ApiDo(s, a).fault && (a.AllocRef? || a.FreeRef?)
    requires RefInv(s, r) && Holding(ApiDo(s, a), r) == Holding(s, r)
    ensures RefInv(ApiDo(s, a), r)
  {
  }

  lemma RefTimerOwn(s: State, a: ApiStep, r: Rid)
    requires ApiEnabled(s, a) && !ApiDo(s, a).fault && a.AllocTimer? && a.ref == Some(r)
    requires RefInv(s, r) && s.nextTimer !in Holding(s, r)
    requires Holding(ApiDo(s, a), r) == Holding(s, r) + {s.nextTimer}
    ensures RefInv(ApiDo(s, a), r)
  {
  }

  lemma RefTimerOther(s: State, a: ApiStep, r: Rid)
    requires ApiEnabled(s, a) && !ApiDo(s, a).fault && a.AllocTimer? && a.ref != Some(r)
    requires RefInv(s, r) && Holding(ApiDo(s, a), r) == Holding(s, r)
    ensures RefInv(ApiDo(s, a), r)
  {
    assert Lookup(ApiDo(s, a).refs, r) == Lookup(s.refs, r);
  }

  predicate Drops(s: State, step: Step, t: Tid) {
    || (step == ByThread(Deref) && s.worker == WDeref(t))
    || (step == ByExit(FreeDrained) && s.exit == EFree(t))
  }

  /** Deref and FreeDrained give up the reference of their timer and nothing else. */
  lemma DropIsPut(s: State, step: Step, t: Tid)
    requires Drops(s, step, t) && t in s.heap && !Do(s, step).fault
    ensures var s', ref := Do(s, step), s.heap[t].ref;
            && s'.owners == s.owners && s'.nextRef == s.nextRef
            && (ref.None? ==> s'.refs == s.refs && s'.freedRefs == s.freedRefs)
            && (ref.Some? ==>
                  && ref.value in s.refs && s.refs[ref.value].count > 0
                  && s'.refs == PutRef(s, ref.value).refs && s'.freedRefs == PutRef(s, ref.value).freedRefs)
  {
  }

  lemma RefDrop(s: State, step: Step, t: Tid, r: Rid)
    requires Drops(s, step, t) && t in s.heap && !Do(s, step).fault
    requires RefInv(s, r) && (t in Holding(s, r) <==> s.heap[t].ref == Some(r))
    requires Holding(Do(s, step), r) == Holding(s, r) - {t}
    ensures RefInv(Do(s, step), r)
  {
    DropIsPut(s, step, t);
    if s.heap[t].ref.Some? { PutRefIs(s, s.heap[t].ref.value, r); }
  }

  lemma DropperHolds(s: State, step: Step, t: Tid, r: Rid)
    requires TimerInv(s, t) && Drops(s, step, t)
    ensures t in s.heap && (t in Holding(s, r) <==> s.heap[t].ref == Some(r))
  {
  }

  lemma RefApi(s: State, a: ApiStep, r: Rid)
    requires FullInv(s) && ApiEnabled(s, a) && !ApiDo(s, a).fault && TouchesRefs(ByApi(a))
    ensures RefInv(ApiDo(s, a), r)
  {
    HoldingStep(s, ByApi(a), r);
    assert RefInv(s, r) && TimerInv(s, s.nextTimer);
    if !a.AllocTimer? {
      RefOwner(s, a, r);
    } else if a.ref == Some(r) {
      RefTimerOwn(s, a, r);
    } else {
      RefTimerOther(s, a, r);
    }
  }

  lemma RefStep(s: State, step: Step, r: Rid)
    requires FullInv(s) && Enabled(s, step) && !Do(s, step).fault
    ensures RefInv(Do(s, step), r)
  {
    assert RefInv(s, r);
    if !TouchesRefs(step) {
      HoldingStep(s, step, r);
      assert Holding(Do(s, step), r) == Holding(s, r);
      RefQuiet(s, step, r);
    } else if step.ByApi? {
      RefApi(s, step.a, r);
    } else {
      HoldingStep(s, step, r);
      var t := Subject(s, step).value;
      assert TimerInv(s, t);
      DropperHolds(s, step, t, r);
      RefDrop(s, step, t, r);
    }
  }

  lemma FullStep(s: State, step: Step)
    requires FullInv(s) && Enabled(s, step)
    ensures FullInv(Do(s, step))
  {
    var s' := Do(s, step);
    SubjectIsOk(s, step);
    NoFault(s, step);
    GlobalStep(s, step);
    forall t: Tid ensures TimerInv(s', t) { assert TimerInv(s, t); TimerStep(s, step, t); }
    forall r: Rid ensures RefInv(s', r) { RefStep(s, step, r); }
    ProcStep(s, step);
    DrainStep(s, step);
  }

  lemma FullInit(s: State)
    requires Init(s)
    ensures FullInv(s)
  {
  }

  lemma FullNext(s: State, s': State)
    requires FullInv(s) && Next(s, s')
    ensures FullInv(s')
  {
    var step :| Enabled(s, step) && s' == Do(s, step);
    FullStep(s, step);
  }

  lemma InvOnRun(run: seq<State>, i: nat)
    requires Run(run) && i < |run|
    ensures FullInv(run[i])
  {
    forall s | Init(s) ensures FullInv(s) { FullInit(s); }
    forall s, s' | FullInv(s) && Next(s, s') ensures FullInv(s') { FullNext(s, s'); }
    Always(run, Init, Next, FullInv, i);
  }

  // ---------------------------------------------------------------------------
  // Theorems over every run
  // ---------------------------------------------------------------------------

  /** t is neither waiting to fire, queued, being run, nor being drained. */
  predicate OutOfService(s: State, t: Tid) {
    && (t in s.heap ==> !Waiting(s.heap[t].kernel))
    && t !in s.queue && Held(s.worker) != Some(t) && s.exit != EFree(t)
  }

  /** No step ever touches freed memory or frees memory still in use.  A timer is
      freed at most once; and once its owner has called nvkms_free_timer (before
      the callback, inside the proc or after it) and the timer is out of service,
      it has been freed exactly once. */
  lemma TimerFreedOnce(run: seq<State>, i: nat, t: Tid)
    requires Run(run) && i < |run|
    ensures !run[i].fault
    ensures multiset(run[i].freed)[t] <= 1
    ensures multiset(run[i].freed)[t] == 1 <==> t < run[i].nextTimer && t !in run[i].heap
    ensures t < run[i].nextTimer && t !in run[i].owned && OutOfService(run[i], t) ==>
              multiset(run[i].freed)[t] == 1
  {
    InvOnRun(run, i);
    assert TimerInv(run[i], t);
  }

  /** A ref_ptr's count is the owner's reference plus one for each timer that has
      not released its own; it is freed, once, exactly when none is left; and no
      proc was ever started for a cancelled timer or a target already cleared. */
  lemma WeakPointerSafety(run: seq<State>, i: nat, r: Rid)
    requires Run(run) && i < |run|
    ensures r in run[i].refs ==>
              && run[i].refs[r].count == One(r in run[i].owners) + |Holding(run[i], r)|
              && (run[i].refs[r].target <==> r in run[i].owners)
    ensures r < run[i].nextRef ==>
              (r !in run[i].refs <==> r !in run[i].owners && Holding(run[i], r) == {})
    ensures multiset(run[i].freedRefs)[r] == One(r < run[i].nextRef && r !in run[i].refs)
    ensures forall p :: p in run[i].procs ==> !p.cancelled && !p.targetGone
  {
    InvOnRun(run, i);
    assert RefInv(run[i], r);
  }

  /** After the drain every timer still listed is already queued (or was just taken
      from the queue); once the queue has run empty, every timer ever allocated has
      been freed exactly once.  That it is empty when nv_kthread_q_stop returns is
      UnloadStop.StopFindsQueueEmpty. */
  lemma UnloadDrain(run: seq<State>, i: nat, t: Tid)
    requires Run(run) && i < |run|
    ensures run[i].exit.EStop? && t in run[i].listed ==>
              t in run[i].queue || run[i].worker == WUnlist(t)
    ensures run[i].exit.EDone? && t < run[i].nextTimer ==> multiset(run[i].freed)[t] == 1
  {
    InvOnRun(run, i);
    assert TimerInv(run[i], t);
  }

  function DrainRank(s: State): (nat, nat) {
    match s.exit
    case EScan(pos) => (|s.listed|, if pos <= |s.listed| then |s.listed| - pos + 1 else 0)
    case EFree(_) => (|s.listed|, |s.listed| + 2)
    case _ => (0, 0)
  }

  predicate Below(a: (nat, nat), b: (nat, nat)) {
    a.0 < b.0 || (a.0 == b.0 && a.1 < b.1)
  }

  lemma WithoutShorter(list: seq<Tid>, t: Tid)
    requires t in list
    ensures |Without(list, t)| == |list| - 1
  {
  }

  lemma DrainOwn(s: State, e: ExitStep)
    requires DrainInv(s) && ExitEnabled(s, e) && !ExitDo(s, e).fault && (s.exit.EScan? || s.exit.EFree?)
    ensures ExitDo(s, e).exit.EStop? || Below(DrainRank(ExitDo(s, e)), DrainRank(s))
  {
    if e.Scan? && s.exit.pos < |s.listed| { WithoutShorter(s.listed, s.listed[s.exit.pos]); }
  }

  lemma DrainWorkerList(s: State, w: WorkerStep)
    requires WorkerEnabled(s, w) && !WorkerDo(s, w).fault
    ensures var s' := WorkerDo(s, w);
            s'.exit == s.exit && s'.listed == if w.Unlist? then Without(s.listed, s.worker.t) else s.listed
  {
  }

  lemma DrainApiList(s: State, a: ApiStep)
    requires ApiEnabled(s, a) && (s.exit.EScan? || s.exit.EFree?)
    ensures ApiDo(s, a).exit == s.exit && ApiDo(s, a).listed == s.listed
  {
  }

  lemma DrainForeign(s: State, step: Step)
    requires !step.ByExit? && Enabled(s, step) && !Do(s, step).fault && (s.exit.EScan? || s.exit.EFree?)
    ensures var s' := Do(s, step);
            s'.exit == s.exit && (s'.listed == s.listed || |s'.listed| < |s.listed|)
  {
    match step
    case ByThread(w) =>
      DrainWorkerList(s, w);
      if w.Unlist? && s.worker.t in s.listed { WithoutShorter(s.listed, s.worker.t); }
    case ByApi(a) => DrainApiList(s, a);
    case ByExit(e) =>
  }

  /** The restart loop ends: each of its own steps lowers a rank that no other
      thread can raise. */
  lemma DrainTerminates(s: State, step: Step)
    requires FullInv(s) && Enabled(s, step) && (s.exit.EScan? || s.exit.EFree?)
    ensures step.ByExit? ==>
              Do(s, step).exit.EStop? || Below(DrainRank(Do(s, step)), DrainRank(s))
    ensures !step.ByExit? ==>
              DrainRank(Do(s, step)) == DrainRank(s) || Below(DrainRank(Do(s, step)), DrainRank(s))
  {
    SubjectIsOk(s, step);
    NoFault(s, step);
    if step.ByExit? {
      DrainOwn(s, step.e);
    } else {
      DrainForeign(s, step);
    }
  }
}
