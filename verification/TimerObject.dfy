/**
 * The timer code of NVKMS as an object that its functions change in place: what
 * nvkms_alloc_timer, nvkms_free_timer, nvkms_free_ref_ptr and an undisturbed run of
 * nvkms_kthread_q_callback do, each tied to steps of NvkmsTimers.
 */
module TimerObject {
  import opened Common
  import opened NvkmsTimers

  // ---------------------------------------------------------------------------
  // The callback as a sequence of steps
  // ---------------------------------------------------------------------------

  function Try(s: State, w: WorkerStep): State {
    if WorkerEnabled(s, w) then WorkerDo(s, w) else s
  }

  /** Up to the decision whether to call the proc. */
  function Before(s: State): State {
    Try(Try(Try(Try(s, Unlist), Sync), Acquire), Deref)
  }

  /** The proc, which may pass its own timer to nvkms_free_timer. */
  function Proc(s: State, selfFree: bool): State {
    if !s.worker.WProc? then s
    else
      var t := s.worker.t;
      Try(if selfFree && ApiEnabled(s, FreeTimer(t)) then ApiDo(s, FreeTimer(t)) else s, ProcEnd)
  }

  function Callback(s: State, selfFree: bool): State {
    Try(Try(Proc(Try(Before(s), Decide), selfFree), Free), Release)
  }

  /** s' is reached from s by steps of the state machine. */
  ghost predicate Leads(s: State, s': State) {
    exists path: seq<State> :: Path(path) && path[0] == s && path[|path| - 1] == s'
  }

  ghost predicate Path(path: seq<State>) {
    |path| > 0 && forall i, j :: 0 <= i < j < |path| && j == i + 1 ==> Next(path[i], path[j])
  }

  lemma LeadsHere(s: State)
    ensures Leads(s, s)
  {
    assert Path([s]);
  }

  lemma LeadsOn(s: State, m: State, s': State)
    requires Leads(s, m) && Next(m, s')
    ensures Leads(s, s')
  {
    var path: seq<State> :| Path(path) && path[0] == s && path[|path| - 1] == m;
    assert Path(path + [s']);
  }

  /** One step of the queue's thread, from a state reached from s0. */
  lemma TryStep(s0: State, s: State, w: WorkerStep)
    requires FullInv(s) && WorkerEnabled(s, w) && Leads(s0, s)
    ensures FullInv(Try(s, w)) && Leads(s0, Try(s, w))
  {
    assert Enabled(s, ByThread(w)) && Do(s, ByThread(w)) == WorkerDo(s, w);
    assert Next(s, WorkerDo(s, w));
    FullStep(s, ByThread(w));
    LeadsOn(s0, s, WorkerDo(s, w));
  }

  /** The thread has taken the item and nothing keeps it waiting. */
  predicate Ready(s: State) {
    s.worker.WUnlist? && !s.exit.EScan? && s.lock.None? && Synced(s, s.worker.t)
  }

  lemma ReadyFacts(s: State)
    requires FullInv(s) && Ready(s)
    ensures var t := s.worker.t;
            && !s.fault && t in s.heap && t in s.listed && t !in s.queue && NoDup(s.listed)
            && !s.heap[t].complete
            && (s.heap[t].created ==> s.heap[t].kernel.Off? || s.heap[t].kernel.Armed?)
            && (!s.heap[t].created ==> s.heap[t].kernel.Off?)
            && (s.heap[t].ref.None? ==> (t in s.owned <==> !s.heap[t].cancel))
            && (s.heap[t].ref.Some? ==> t !in s.owned && !s.heap[t].cancel)
  {
    assert TimerInv(s, s.worker.t);
  }

  lemma ReadyRef(s: State)
    requires FullInv(s) && Ready(s) && s.worker.t in s.heap && s.heap[s.worker.t].ref.Some?
    ensures var r := s.heap[s.worker.t].ref.value;
            r in s.refs && s.refs[r].count > 0 && (s.refs[r].target <==> r in s.owners)
  {
    var r := s.heap[s.worker.t].ref.value;
    assert RefInv(s, r);
    assert s.worker.t in Holding(s, r);
  }

  lemma BeforeIsRun(s: State)
    requires FullInv(s) && Ready(s)
    ensures var m := Before(s); FullInv(m) && Leads(s, m) && m.worker == WDecide(s.worker.t)
  {
    LeadsHere(s);
    TryStep(s, s, Unlist);
    var s1 := Try(s, Unlist);
    TryStep(s, s1, Sync);
    var s2 := Try(s1, Sync);
    TryStep(s, s2, Acquire);
    var s3 := Try(s2, Acquire);
    TryStep(s, s3, Deref);
  }

  lemma ProcIsRun(s0: State, s: State, selfFree: bool)
    requires FullInv(s) && Leads(s0, s) && (s.worker.WProc? || s.worker.WFree?)
    requires selfFree && s.worker.WProc? ==> s.worker.t in s.owned
    ensures var m := Proc(s, selfFree); FullInv(m) && Leads(s0, m) && m.worker == WFree(s.worker.t)
  {
    if s.worker.WProc? {
      var t, a := s.worker.t, FreeTimer(s.worker.t);
      var m := s;
      if selfFree {
        assert ApiEnabled(s, a);
        assert Enabled(s, ByApi(a)) && Do(s, ByApi(a)) == ApiDo(s, a);
        assert Next(s, ApiDo(s, a));
        FullStep(s, ByApi(a));
        LeadsOn(s0, s, ApiDo(s, a));
        m := ApiDo(s, a);
      }
      TryStep(s0, m, ProcEnd);
    }
  }

  /** An undisturbed callback is a run of the state machine, so everything proved of
      runs holds of it. */
  lemma CallbackIsRun(s: State, selfFree: bool)
    requires FullInv(s) && Ready(s) && (selfFree ==> s.worker.t in s.owned)
    ensures FullInv(Callback(s, selfFree)) && Leads(s, Callback(s, selfFree))
  {
    BeforeIsRun(s);
    OwnedStays(s);
    var m := Before(s);
    TryStep(s, m, Decide);
    var d := Try(m, Decide);
    ProcIsRun(s, d, selfFree);
    var p := Proc(d, selfFree);
    TryStep(s, p, Free);
    TryStep(s, Try(p, Free), Release);
  }

  /** Where the callback stands after each of its stages. */
  lemma Stages(s: State, selfFree: bool)
    requires FullInv(s) && Ready(s) && (selfFree ==> s.worker.t in s.owned)
    ensures var m := Before(s);
            var d := Try(m, Decide);
            var p := Proc(d, selfFree);
            && m.worker.WDecide? && !WorkerDo(m, Decide).fault
            && FullInv(d) && (d.worker.WProc? || d.worker.WFree?)
            && (selfFree && d.worker.WProc? ==> d.worker.t in d.owned)
            && p.worker.WFree? && !WorkerDo(p, Free).fault
  {
    BeforeIsRun(s);
    OwnedStays(s);
    var m := Before(s);
    TryStep(s, m, Decide);
    ProcIsRun(s, Try(m, Decide), selfFree);
    TryStep(s, Proc(Try(m, Decide), selfFree), Free);
  }

  lemma TryOwned(s: State, w: WorkerStep)
    ensures Try(s, w).owned == s.owned
  {
  }

  lemma OwnedStays(s: State)
    ensures Before(s).owned == s.owned && Try(Before(s), Decide).owned == s.owned
  {
    TryOwned(s, Unlist);
    var s1 := Try(s, Unlist);
    TryOwned(s1, Sync);
    var s2 := Try(s1, Sync);
    TryOwned(s2, Acquire);
    var s3 := Try(s2, Acquire);
    TryOwned(s3, Deref);
    TryOwned(Before(s), Decide);
  }

  /** The proc of the timer is due: neither its owner nor its target let go. */
  predicate Due(s: State, t: Tid)
    requires t in s.heap
  {
    !s.heap[t].cancel && (s.heap[t].ref.Some? ==> s.heap[t].ref.value in s.owners)
  }

  lemma BeforeOutcome(s: State)
    requires FullInv(s) && Ready(s) && s.worker.t in s.heap
    ensures var m, t := Before(s), s.worker.t;
            && m.worker == WDecide(t) && t in m.heap && m.procs == s.procs && m.listed == Without(s.listed, t)
            && m.heap[t].ref == s.heap[t].ref && (m.heap[t].cancel <==> !Due(s, t))
  {
    ReadyFacts(s);
    var t := s.worker.t;
    if s.heap[t].ref.Some? { ReadyRef(s); }
    var s1 := Try(s, Unlist);
    assert s1 == s.(listed := Without(s.listed, t), worker := WSync(t));
    var s2 := Try(s1, Sync);
    assert s2.worker == WLock(t) && s2.heap[t] == (if s.heap[t].created then s.heap[t].(kernel := Off) else s.heap[t]);
    assert s2.refs == s.refs && s2.procs == s.procs && s2.lock == s.lock;
    var s3 := Try(s2, Acquire);
    assert s3 == s2.(lock := Some(ByWorker), worker := WDeref(t));
  }

  lemma ProcOutcome(m: State, selfFree: bool)
    requires m.worker.WDecide? && m.worker.t in m.heap && !m.heap[m.worker.t].complete && m.lock == Some(ByWorker)
    requires selfFree ==> m.worker.t in m.owned
    ensures var p, t := Proc(Try(m, Decide), selfFree), m.worker.t;
            && p.worker == WFree(t) && t in p.heap && p.listed == m.listed && p.heap[t].ref == m.heap[t].ref
            && |p.procs| == |m.procs| + One(!m.heap[t].cancel)
            && (p.heap[t].cancel <==> m.heap[t].cancel || selfFree)
            && (p.heap[t].complete <==> !m.heap[t].cancel)
  {
  }

  lemma EndOutcome(p: State)
    requires p.worker.WFree? && p.worker.t in p.heap && !WorkerDo(p, Free).fault
    ensures var s', t := Try(Try(p, Free), Release), p.worker.t;
            && s'.worker.WIdle? && s'.lock.None? && s'.procs == p.procs && s'.listed == p.listed
            && (t in s'.heap <==> p.heap[t].ref.None? && !p.heap[t].cancel)
            && (t in s'.heap ==> s'.heap[t] == p.heap[t])
  {
  }

  /** What a callback achieves: the proc is called exactly if it is due, and the timer
      survives, complete and in its owner's hands, exactly if the proc was called, the
      timer has no ref_ptr, and the proc did not let go of it. */
  lemma CallbackOutcome(s: State, selfFree: bool)
    requires FullInv(s) && Ready(s) && (selfFree ==> s.worker.t in s.owned)
    ensures var s', t := Callback(s, selfFree), s.worker.t;
            && t in s.heap && s'.worker.WIdle? && s'.lock.None? && t !in s'.listed
            && |s'.procs| == |s.procs| + One(Due(s, t))
            && (t in s'.heap <==> Due(s, t) && s.heap[t].ref.None? && !selfFree)
            && (t in s'.heap ==> s'.heap[t].complete && t in s'.owned)
  {
    ReadyFacts(s);
    BeforeOutcome(s);
    BeforeIsRun(s);
    OwnedStays(s);
    var m, t := Before(s), s.worker.t;
    DecideReady(m);
    ProcOutcome(m, selfFree);
    Stages(s, selfFree);
    EndOutcome(Proc(Try(m, Decide), selfFree));
    WithoutMember(s.listed, t, t);
    CallbackIsRun(s, selfFree);
    StillOwned(Callback(s, selfFree), t);
  }

  lemma DecideReady(m: State)
    requires FullInv(m) && m.worker.WDecide? && m.worker.t in m.heap
    ensures !m.heap[m.worker.t].complete && m.lock == Some(ByWorker)
  {
    assert TimerInv(m, m.worker.t);
  }

  lemma StillOwned(s: State, t: Tid)
    requires FullInv(s) && s.worker.WIdle?
    ensures t in s.heap && s.heap[t].complete ==> t in s.owned
  {
    assert TimerInv(s, t);
  }

  // ---------------------------------------------------------------------------
  // The drain as a sequence of steps
  // ---------------------------------------------------------------------------

  /** The elements of list that are in armed (or, with want false, are not). */
  function Pick(list: seq<Tid>, armed: set<Tid>, want: bool): seq<Tid> {
    if list == [] then []
    else (if (list[0] in armed) == want then [list[0]] else []) + Pick(list[1..], armed, want)
  }

  lemma {:induction false} PickNone(list: seq<Tid>, armed: set<Tid>)
    requires forall t :: t in list ==> t !in armed
    ensures Pick(list, armed, true) == [] && Pick(list, armed, false) == list
  {
    if list != [] {
      PickNone(list[1..], armed);
      assert list == [list[0]] + list[1..];
    }
  }

  /** Removing the first armed timer of a list. */
  lemma {:induction false} PickRemove(list: seq<Tid>, i: nat, armed: set<Tid>, want: bool)
    requires i < |list| && list[i] in armed && forall j :: 0 <= j < i ==> list[j] !in armed
    ensures Pick(list, armed, want) == (if want then [list[i]] else []) + Pick(list[..i] + list[i + 1..], armed, want)
    decreases i
  {
    if i == 0 {
      assert list[..i] + list[i + 1..] == list[1..];
    } else {
      var rest := list[..i] + list[i + 1..];
      PickRemove(list[1..], i - 1, armed, want);
      assert rest[1..] == list[1..][..i - 1] + list[1..][i..];
    }
  }

  lemma DrainStepTo(s0: State, s: State, e: ExitStep)
    requires FullInv(s) && ExitEnabled(s, e) && Leads(s0, s)
    ensures FullInv(ExitDo(s, e)) && Leads(s0, ExitDo(s, e))
  {
    assert Enabled(s, ByExit(e)) && Do(s, ByExit(e)) == ExitDo(s, e);
    assert Next(s, ExitDo(s, e));
    FullStep(s, ByExit(e));
    LeadsOn(s0, s, ExitDo(s, e));
  }

  predicate IsArmed(s: State, t: Tid) {
    t in s.heap && s.heap[t].kernel.Armed?
  }

  /** The kernel timer of t has fired, or is about to, and its item is not queued yet;
      fires are the timers that fire before the drain gets to them. */
  predicate IsLate(s: State, t: Tid, fires: set<Tid>) {
    t in s.heap && (s.heap[t].kernel.Firing? || (s.heap[t].kernel.Armed? && t in fires))
  }

  function Fired(s: State, t: Tid, fires: set<Tid>): State {
    if IsArmed(s, t) && t in fires then ApiDo(s, Fire(t)) else s
  }

  function Queued(s: State, t: Tid): State {
    if t in s.heap && s.heap[t].kernel.Firing? then ApiDo(s, QueueWork(t)) else s
  }

  function Returned(s: State, t: Tid): State {
    if t in s.heap && s.heap[t].kernel.Returning? then ApiDo(s, FireReturn(t)) else s
  }

  /** del_timer_sync waits for the callback of t, if it is running. */
  function Waited(s: State, t: Tid, fires: set<Tid>): State {
    Returned(Queued(Fired(s, t, fires), t), t)
  }

  lemma ApiStepTo(s0: State, s: State, a: ApiStep)
    requires FullInv(s) && ApiEnabled(s, a) && Leads(s0, s)
    ensures FullInv(ApiDo(s, a)) && Leads(s0, ApiDo(s, a))
  {
    assert Enabled(s, ByApi(a)) && Do(s, ByApi(a)) == ApiDo(s, a);
    assert Next(s, ApiDo(s, a));
    FullStep(s, ByApi(a));
    LeadsOn(s0, s, ApiDo(s, a));
  }

  lemma WaitedLeads(s0: State, s: State, t: Tid, fires: set<Tid>)
    requires FullInv(s) && Leads(s0, s)
    ensures FullInv(Waited(s, t, fires)) && Leads(s0, Waited(s, t, fires))
  {
    if IsArmed(s, t) && t in fires { ApiStepTo(s0, s, Fire(t)); }
    var s1 := Fired(s, t, fires);
    if t in s1.heap && s1.heap[t].kernel.Firing? { ApiStepTo(s0, s1, QueueWork(t)); }
    var s2 := Queued(s1, t);
    if t in s2.heap && s2.heap[t].kernel.Returning? { ApiStepTo(s0, s2, FireReturn(t)); }
  }

  function WithKernel(s: State, t: Tid, k: KernelTimer): State
    requires t in s.heap
  {
    s.(heap := s.heap[t := s.heap[t].(kernel := k)])
  }

  lemma KernelTwice(s: State, t: Tid, k: KernelTimer, l: KernelTimer)
    requires t in s.heap
    ensures WithKernel(WithKernel(s, t, k), t, l) == WithKernel(s, t, l)
    ensures WithKernel(s, t, s.heap[t].kernel) == s
  {
    assert s.heap[t := s.heap[t].(kernel := k)][t := s.heap[t].(kernel := l)] == s.heap[t := s.heap[t].(kernel := l)];
    assert s.heap[t := s.heap[t]] == s.heap;
  }

  /** The callback of t is over. */
  function Settle(s: State, t: Tid, fires: set<Tid>): State
    requires t in s.heap
  {
    if IsLate(s, t, fires) then WithKernel(s, t, Off).(queue := s.queue + [t])
    else if s.heap[t].kernel.Returning? then WithKernel(s, t, Off)
    else s
  }

  lemma FiringSettles(s: State, t: Tid)
    requires t in s.heap && s.heap[t].kernel.Firing? && t !in s.queue
    ensures Returned(Queued(s, t), t) == WithKernel(s, t, Off).(queue := s.queue + [t])
  {
    KernelTwice(s, t, Returning, Off);
  }

  lemma WaitedEffect(s: State, t: Tid, fires: set<Tid>)
    requires t in s.heap && (IsLate(s, t, fires) ==> t !in s.queue)
    ensures Waited(s, t, fires) == Settle(s, t, fires)
  {
    var s1 := Fired(s, t, fires);
    if IsLate(s, t, fires) {
      FiringSettles(s1, t);
      KernelTwice(s, t, Firing, Off);
    }
  }

  lemma SettleFlags(s: State, t: Tid, fires: set<Tid>, armed: set<Tid>, late: set<Tid>, x: Tid)
    requires t in s.heap && (x in armed <==> IsArmed(s, x) && x !in fires) && (x in late <==> IsLate(s, x, fires))
    ensures var s' := Settle(s, t, fires);
            (x in armed <==> IsArmed(s', x) && x !in fires) && (x in late - {t} <==> IsLate(s', x, fires))
  {
  }

  lemma LateIsNotQueued(s: State, t: Tid, fires: set<Tid>)
    requires FullInv(s) && t in s.listed
    ensures t in s.heap && (IsLate(s, t, fires) ==> t !in s.queue)
  {
    assert TimerInv(s, t);
  }

  /** A listed timer is allocated, and an armed one has a kernel timer. */
  lemma ListedFacts(s: State, t: Tid)
    requires FullInv(s) && t in s.listed
    ensures t in s.heap && (s.heap[t].kernel.Armed? ==> s.heap[t].created)
  {
    assert TimerInv(s, t);
  }

  lemma {:induction false} WithoutAt(list: seq<Tid>, i: nat)
    requires NoDup(list) && i < |list|
    ensures Without(list, list[i]) == list[..i] + list[i + 1..]
    decreases i
  {
    if i > 0 {
      WithoutAt(list[1..], i - 1);
      assert list[0] != list[i];
      assert [list[0]] + (list[1..][..i - 1] + list[1..][i..]) == list[..i] + list[i + 1..];
    }
  }

  /** What is still to be drained, and what has been: relative to the state s0 in which
      the drain started.  armed are the timers that the drain gets to before they fire,
      late those whose callback it has still to wait for, and queue is what the queue
      will be then. */
  ghost predicate Progress(s0: State, s: State, fires: set<Tid>, armed: set<Tid>, late: set<Tid>, queue: seq<Tid>) {
    && s.worker == s0.worker
    && (forall t :: t in s.listed ==> (t in armed <==> IsArmed(s, t) && t !in fires))
    && (forall t :: t in s.listed ==> (t in late <==> IsLate(s, t, fires)))
    && s.freed + Pick(s.listed, armed, true) == s0.freed + Pick(s0.listed, armed, true)
    && Pick(s.listed, armed, false) == Pick(s0.listed, armed, false)
    && s.queue + Pick(s.listed, late, true) == queue
  }

  ghost predicate Draining(s0: State, s: State, fires: set<Tid>, armed: set<Tid>, late: set<Tid>, queue: seq<Tid>) {
    FullInv(s) && Leads(s0, s) && Progress(s0, s, fires, armed, late, queue)
  }

  /** Nothing behind the drain's position is armed or late; nothing at all at the end. */
  ghost predicate Passed(s: State, armed: set<Tid>, late: set<Tid>) {
    match s.exit
    case EScan(pos) => pos <= |s.listed| && forall i :: 0 <= i < pos ==> s.listed[i] !in armed && s.listed[i] !in late
    case EStop => forall t :: t in s.listed ==> t !in armed && t !in late
    case _ => false
  }

  lemma DrainBegins(s: State, fires: set<Tid>, armed: set<Tid>, late: set<Tid>)
    requires FullInv(s) && armed == (set t | t in s.heap && s.heap[t].kernel.Armed? && t !in fires)
    requires late == set t | t in s.heap && IsLate(s, t, fires)
    ensures Draining(s, s, fires, armed, late, s.queue + Pick(s.listed, late, true))
  {
    LeadsHere(s);
    forall t | t in s.listed ensures t in s.heap { ListedFacts(s, t); }
  }

  /** Taking an element that is not there, or the first one, out of the set. */
  lemma {:induction false} PickWithout(list: seq<Tid>, i: nat, late: set<Tid>)
    requires NoDup(list) && i < |list| && forall j :: 0 <= j < i ==> list[j] !in late
    ensures Pick(list, late, true) == (if list[i] in late then [list[i]] else []) + Pick(list, late - {list[i]}, true)
    decreases i
  {
    if i == 0 {
      SamePick(list[1..], late, late - {list[0]});
    } else {
      PickWithout(list[1..], i - 1, late);
    }
  }

  lemma {:induction false} SamePick(list: seq<Tid>, a: set<Tid>, b: set<Tid>)
    requires forall t :: t in list ==> (t in a <==> t in b)
    ensures Pick(list, a, true) == Pick(list, b, true)
  {
    if list != [] { SamePick(list[1..], a, b); }
  }

  lemma WaitProgress(s0: State, s: State, i: nat, fires: set<Tid>, armed: set<Tid>, late: set<Tid>, queue: seq<Tid>)
    requires Progress(s0, s, fires, armed, late, queue) && NoDup(s.listed)
    requires i < |s.listed| && s.listed[i] in s.heap && forall j :: 0 <= j < i ==> s.listed[j] !in late
    ensures Progress(s0, Settle(s, s.listed[i], fires), fires, armed, late - {s.listed[i]}, queue)
  {
    var t := s.listed[i];
    PickWithout(s.listed, i, late);
    MoveOver(s.queue, t, Pick(s.listed, late - {t}, true));
    forall x | x in s.listed
      ensures x in armed <==> IsArmed(Settle(s, t, fires), x) && x !in fires
      ensures x in late - {t} <==> IsLate(Settle(s, t, fires), x, fires)
    {
      SettleFlags(s, t, fires, armed, late, x);
    }
  }

  /** Waiting for the timer at the drain's position. */
  lemma DrainWait(s0: State, s: State, t: Tid, fires: set<Tid>, armed: set<Tid>, late: set<Tid>, queue: seq<Tid>)
    requires Draining(s0, s, fires, armed, late, queue) && s.exit.EScan?
    requires s.exit.pos < |s.listed| && t == s.listed[s.exit.pos]
    requires forall j :: 0 <= j < s.exit.pos ==> s.listed[j] !in late
    ensures t in s.heap && (IsLate(s, t, fires) ==> t !in s.queue)
    ensures var s' := Waited(s, t, fires);
            && Draining(s0, s', fires, armed, late - {t}, queue)
            && s'.listed == s.listed && s'.exit == s.exit && ExitEnabled(s', Scan)
  {
    LateIsNotQueued(s, t, fires);
    WaitedEffect(s, t, fires);
    WaitedLeads(s0, s, t, fires);
    WaitProgress(s0, s, s.exit.pos, fires, armed, late, queue);
  }

  lemma ScanReady(s: State)
    requires FullInv(s) && s.exit.EScan?
    ensures s.exit.pos < |s.listed| ==> s.listed[s.exit.pos] in s.heap
  {
    if s.exit.pos < |s.listed| { ListedFacts(s, s.listed[s.exit.pos]); }
  }

  lemma DrainSkip(s0: State, s: State, fires: set<Tid>, armed: set<Tid>, late: set<Tid>, queue: seq<Tid>)
    requires Draining(s0, s, fires, armed, late, queue) && s.exit.EScan? && ExitEnabled(s, Scan)
    requires s.exit.pos < |s.listed| ==> s.listed[s.exit.pos] !in armed && s.listed[s.exit.pos] !in late
    ensures Draining(s0, ExitDo(s, Scan), fires, armed, late, queue)
    ensures ExitDo(s, Scan) == s.(exit := if s.exit.pos < |s.listed| then EScan(s.exit.pos + 1) else EStop)
  {
    ScanReady(s);
    DrainStepTo(s0, s, Scan);
  }

  /** The two steps that remove an armed timer. */
  lemma DrainEffect(s: State, t: Tid)
    requires s.exit.EScan? && s.exit.pos < |s.listed| && t == s.listed[s.exit.pos]
    requires t in s.heap && s.heap[t].created && s.heap[t].kernel.Armed? && ExitEnabled(s, Scan)
    ensures var s1 := ExitDo(s, Scan);
            && s1 == s.(heap := s.heap[t := s.heap[t].(kernel := Off)], listed := Without(s.listed, t), exit := EFree(t))
            && ExitEnabled(s1, FreeDrained)
            && (var s2 := ExitDo(s1, FreeDrained);
                !s2.fault ==>
                  && s2.exit == EScan(0) && s2.listed == s1.listed && s2.heap == s.heap - {t} && s2.freed == s.freed + [t]
                  && s2.queue == s.queue && s2.worker == s.worker)
  {
    var s1 := ExitDo(s, Scan);
    var s2 := ExitDo(s1, FreeDrained);
    if !s2.fault { assert s2.heap == s.heap - {t}; }
  }

  lemma DrainRemove(s0: State, s: State, fires: set<Tid>, armed: set<Tid>, late: set<Tid>, queue: seq<Tid>)
    requires Draining(s0, s, fires, armed, late, queue) && s.exit.EScan? && ExitEnabled(s, Scan)
    requires s.exit.pos < |s.listed| && s.listed[s.exit.pos] in armed
    requires forall i :: 0 <= i < s.exit.pos ==> s.listed[i] !in armed
    ensures var s1 := ExitDo(s, Scan);
            && !s1.fault && ExitEnabled(s1, FreeDrained) && s1.exit.EFree?
            && (var s2 := ExitDo(s1, FreeDrained);
                Draining(s0, s2, fires, armed, late, queue) && s2.exit == EScan(0) && |s2.listed| < |s.listed|)
  {
    var t, i := s.listed[s.exit.pos], s.exit.pos;
    ListedFacts(s, t);
    DrainEffect(s, t);
    DrainStepTo(s0, s, Scan);
    DrainStepTo(s0, ExitDo(s, Scan), FreeDrained);
    WithoutAt(s.listed, i);
    PickRemove(s.listed, i, armed, true);
    PickRemove(s.listed, i, armed, false);
    PickSkip(s.listed, i, late);
    DrainedOnce(s0, s, ExitDo(ExitDo(s, Scan), FreeDrained), t, fires, armed, late, queue);
  }

  /** Removing a timer that is not in the set. */
  lemma {:induction false} PickSkip(list: seq<Tid>, i: nat, late: set<Tid>)
    requires i < |list| && list[i] !in late
    ensures Pick(list, late, true) == Pick(list[..i] + list[i + 1..], late, true)
    decreases i
  {
    var rest := list[..i] + list[i + 1..];
    if i == 0 {
      assert rest == list[1..];
    } else {
      PickSkip(list[1..], i - 1, late);
      assert rest[1..] == list[1..][..i - 1] + list[1..][i..];
    }
  }

  lemma DrainedOnce(s0: State, s: State, s2: State, t: Tid, fires: set<Tid>, armed: set<Tid>, late: set<Tid>, queue: seq<Tid>)
    requires Draining(s0, s, fires, armed, late, queue) && FullInv(s2) && Leads(s0, s2) && t in s.listed
    requires s2.listed == Without(s.listed, t) && s2.heap == s.heap - {t} && s2.freed == s.freed + [t]
    requires s2.queue == s.queue && s2.worker == s.worker
    requires Pick(s.listed, armed, true) == [t] + Pick(s2.listed, armed, true)
    requires Pick(s.listed, armed, false) == Pick(s2.listed, armed, false)
    requires Pick(s.listed, late, true) == Pick(s2.listed, late, true)
    ensures Draining(s0, s2, fires, armed, late, queue)
  {
    MoveOver(s.freed, t, Pick(s2.listed, armed, true));
    forall x | x in s2.listed ensures x in s.listed && x != t { WithoutMember(s.listed, t, x); }
    forall x | x in s2.listed
      ensures IsArmed(s, x) == IsArmed(s2, x) && IsLate(s, x, fires) == IsLate(s2, x, fires)
    {
      assert x != t;
    }
  }

  lemma MoveOver(a: seq<Tid>, t: Tid, b: seq<Tid>)
    ensures a + ([t] + b) == a + [t] + b
  {
  }

  // ---------------------------------------------------------------------------
  // The object
  // ---------------------------------------------------------------------------

  class NvkmsModule {
    var heap: map<Tid, Timer>
    var listed: seq<Tid>
    var queue: seq<Tid>
    var worker: Worker
    var lock: Option<LockOwner>
    var refs: map<Rid, RefPtr>
    var exit: Exit
    var owned: set<Tid>
    var owners: set<Rid>
    var nextTimer: Tid
    var nextRef: Rid
    var freed: seq<Tid>
    var freedRefs: seq<Rid>
    var procs: seq<ProcRun>
    var fault: bool

    function Value(): State
      reads this
    {
      State(heap, listed, queue, worker, lock, refs, exit, owned, owners, nextTimer, nextRef, freed, freedRefs, procs, fault)
    }

    /** nvkms_dec_ref: the target as it was, and one reference less. */
    method DecRef(r: Rid) returns (target: bool)
      requires r in refs && refs[r].count > 0
      modifies this`refs, this`freedRefs
      ensures Value() == PutRef(old(Value()), r)
      ensures target == old(refs)[r].target
      ensures r in refs <==> old(refs)[r].count > 1
    {
      target := refs[r].target;
      if refs[r].count == 1 {
        refs, freedRefs := refs - {r}, freedRefs + [r];
      } else {
        refs := refs[r := refs[r].(count := refs[r].count - 1)];
      }
    }

    /** nvkms_free_ref_ptr */
    method FreeRefPtr(r: Rid)
      requires FullInv(Value()) && ApiEnabled(Value(), FreeRef(r))
      modifies this
      ensures Value() == ApiDo(old(Value()), FreeRef(r)) && FullInv(Value())
      ensures r in refs ==> !refs[r].target
    {
      assert Do(Value(), ByApi(FreeRef(r))) == ApiDo(Value(), FreeRef(r));
      FullStep(Value(), ByApi(FreeRef(r)));
      assert RefInv(Value(), r);
      owners := owners - {r};
      refs := refs[r := refs[r].(target := false)];
      var _ := DecRef(r);
    }

    /** nvkms_free_timer: a completed timer is freed, any other one cancelled. */
    method ReleaseTimer(t: Tid)
      requires FullInv(Value()) && ApiEnabled(Value(), FreeTimer(t))
      modifies this
      ensures Value() == ApiDo(old(Value()), FreeTimer(t)) && FullInv(Value())
      ensures t !in owned
      ensures if old(heap)[t].complete then t !in heap && freed == old(freed) + [t]
              else t in heap && heap[t].cancel && freed == old(freed)
    {
      assert Do(Value(), ByApi(FreeTimer(t))) == ApiDo(Value(), FreeTimer(t));
      FullStep(Value(), ByApi(FreeTimer(t)));
      assert TimerInv(Value(), t);
      owned := owned - {t};
      if heap[t].complete {
        heap, freed := heap - {t}, freed + [t];
        return;
      }
      heap := heap[t := heap[t].(cancel := true)];
    }

    /** Leaves the timers list. */
    method UnlistTimer()
      requires WorkerEnabled(Value(), Unlist) && !WorkerDo(Value(), Unlist).fault
      modifies this`listed, this`worker
      ensures Value() == Try(old(Value()), Unlist)
    {
      listed := Without(listed, worker.t);
      worker := WSync(worker.t);
    }

    /** del_timer_sync, if there is a kernel timer. */
    method SyncTimer()
      requires WorkerEnabled(Value(), Sync) && !WorkerDo(Value(), Sync).fault
      modifies this`heap, this`worker
      ensures Value() == Try(old(Value()), Sync)
    {
      var t := worker.t;
      if heap[t].created {
        heap := heap[t := heap[t].(kernel := Off)];
      }
      worker := WLock(t);
    }

    method AcquireLock()
      requires WorkerEnabled(Value(), Acquire)
      modifies this`lock, this`worker
      ensures Value() == Try(old(Value()), Acquire)
    {
      lock := Some(ByWorker);
      worker := WDeref(worker.t);
    }

    /** Gives up the reference; if the target is gone, the timer counts as cancelled. */
    method DropReference()
      requires WorkerEnabled(Value(), Deref) && !WorkerDo(Value(), Deref).fault
      modifies this`heap, this`refs, this`freedRefs, this`worker
      ensures Value() == Try(old(Value()), Deref)
    {
      var t := worker.t;
      if heap[t].ref.Some? {
        var target := DecRef(heap[t].ref.value);
        if !target {
          heap := heap[t := heap[t].(cancel := true)];
        }
      }
      worker := WDecide(t);
    }

    /** Looks at cancel. */
    method DecideProc()
      requires WorkerEnabled(Value(), Decide) && !WorkerDo(Value(), Decide).fault
      modifies this`procs, this`worker
      ensures Value() == Try(old(Value()), Decide)
    {
      var t := worker.t;
      if heap[t].cancel {
        worker := WFree(t);
      } else {
        var ref := heap[t].ref;
        procs := procs + [ProcRun(t, ref.None? && t !in owned, ref.Some? && ref.value !in owners)];
        worker := WProc(t);
      }
    }

    /** Calls the proc unless the timer is cancelled; selfFree says whether the proc
        passes its own timer to nvkms_free_timer. */
    method CallProc(selfFree: bool)
      requires FullInv(Value()) && (worker.WProc? || worker.WFree?)
      requires selfFree && worker.WProc? ==> worker.t in owned
      modifies this
      ensures Value() == Proc(old(Value()), selfFree)
    {
      if worker.WProc? {
        var t := worker.t;
        assert TimerInv(Value(), t);
        if selfFree {
          ReleaseTimer(t);
        }
        heap := heap[t := heap[t].(complete := true)];
        worker := WFree(t);
      }
    }

    /** Frees a timer that nobody else will free. */
    method FreeIfDone()
      requires WorkerEnabled(Value(), Free) && !WorkerDo(Value(), Free).fault
      modifies this`heap, this`freed, this`worker
      ensures Value() == Try(old(Value()), Free)
    {
      var t := worker.t;
      if heap[t].ref.Some? || heap[t].cancel {
        heap, freed := heap - {t}, freed + [t];
      }
      worker := WUnlock;
    }

    /** nvkms_kthread_q_callback, undisturbed. */
    method QueueCallback(selfFree: bool)
      requires FullInv(Value()) && Ready(Value()) && (selfFree ==> worker.t in owned)
      modifies this
      ensures Value() == Callback(old(Value()), selfFree)
      ensures FullInv(Value()) && Leads(old(Value()), Value())
      ensures var s, t := old(Value()), old(worker).t;
              && t in s.heap && worker.WIdle? && lock.None? && t !in listed
              && |procs| == |s.procs| + One(Due(s, t))
              && (t in heap <==> Due(s, t) && s.heap[t].ref.None? && !selfFree)
              && (t in heap ==> heap[t].complete && t in owned)
    {
      CallbackOutcome(Value(), selfFree);
      CallbackIsRun(Value(), selfFree);
      Stages(Value(), selfFree);
      Prepare();
      DecideProc();
      EndCallback(selfFree);
    }

    method EndCallback(selfFree: bool)
      requires FullInv(Value()) && (worker.WProc? || worker.WFree?)
      requires selfFree && worker.WProc? ==> worker.t in owned
      requires Proc(Value(), selfFree).worker.WFree? && !WorkerDo(Proc(Value(), selfFree), Free).fault
      modifies this
      ensures Value() == Try(Try(Proc(old(Value()), selfFree), Free), Release)
    {
      CallProc(selfFree);
      FreeIfDone();
      ReleaseLock();
    }

    method ReleaseLock()
      requires WorkerEnabled(Value(), Release)
      modifies this`lock, this`worker
      ensures Value() == Try(old(Value()), Release)
    {
      lock := None;
      worker := WIdle;
    }

    method Prepare()
      requires FullInv(Value()) && Ready(Value())
      modifies this
      ensures Value() == Before(old(Value()))
    {
      ghost var s := Value();
      LeadsHere(s);
      TryStep(s, s, Unlist);
      UnlistTimer();
      TryStep(s, Value(), Sync);
      SyncTimer();
      TryStep(s, Value(), Acquire);
      AcquireLock();
      TryStep(s, Value(), Deref);
      DropReference();
    }

    /** One look at the timer at the drain's position: an armed one is deactivated and
        taken off the list. */
    method ScanTimer()
      requires exit.EScan? && ExitEnabled(Value(), Scan) && !ExitDo(Value(), Scan).fault
      modifies this`heap, this`listed, this`exit
      ensures Value() == ExitDo(old(Value()), Scan)
    {
      if exit.pos >= |listed| {
        exit := EStop;
        return;
      }
      var t := listed[exit.pos];
      if heap[t].created && heap[t].kernel.Armed? {
        heap := heap[t := heap[t].(kernel := Off)];
        listed := Without(listed, t);
        exit := EFree(t);
      } else {
        exit := EScan(exit.pos + 1);
      }
    }

    /** Gives up the reference of a deactivated timer and frees it; then the drain
        starts over. */
    method FreeScanned()
      requires exit.EFree? && !ExitDo(Value(), FreeDrained).fault
      modifies this`heap, this`refs, this`freed, this`freedRefs, this`exit
      ensures Value() == ExitDo(old(Value()), FreeDrained)
    {
      var t := exit.t;
      if heap[t].ref.Some? {
        var _ := DecRef(heap[t].ref.value);
      }
      heap, freed := heap - {t}, freed + [t];
      exit := EScan(0);
    }

    /** nvkms_timer_callback, in its three steps. */
    method EnterCallback(t: Tid, fires: set<Tid>)
      requires t in heap
      modifies this`heap
      ensures Value() == Fired(old(Value()), t, fires)
    {
      if heap[t].kernel.Armed? && t in fires {
        heap := heap[t := heap[t].(kernel := Firing)];
      }
    }

    method QueueItem(t: Tid)
      requires t in heap && (heap[t].kernel.Firing? ==> t !in queue)
      modifies this`heap, this`queue
      ensures Value() == Queued(old(Value()), t)
    {
      if heap[t].kernel.Firing? {
        heap := heap[t := heap[t].(kernel := Returning)];
        queue := queue + [t];
      }
    }

    method LeaveCallback(t: Tid)
      requires t in heap
      modifies this`heap
      ensures Value() == Returned(old(Value()), t)
    {
      if heap[t].kernel.Returning? {
        heap := heap[t := heap[t].(kernel := Off)];
      }
    }

    /** del_timer_sync on a timer that may be firing. */
    method WaitForCallback(t: Tid, fires: set<Tid>)
      requires t in heap && (IsLate(Value(), t, fires) ==> t !in queue)
      modifies this`heap, this`queue
      ensures Value() == Waited(old(Value()), t, fires)
    {
      EnterCallback(t, fires);
      QueueItem(t);
      LeaveCallback(t);
    }

    /** Waits for the timer at the drain's position. */
    method AwaitNext(fires: set<Tid>, ghost s0: State, ghost armed: set<Tid>, ghost late: set<Tid>, ghost queued: seq<Tid>)
      returns (ghost late': set<Tid>)
      requires exit.EScan? && Draining(s0, Value(), fires, armed, late, queued) && Passed(Value(), armed, late)
      modifies this`heap, this`queue
      ensures Draining(s0, Value(), fires, armed, late', queued) && Passed(Value(), armed, late')
      ensures ExitEnabled(Value(), Scan) && (exit.pos < |listed| ==> listed[exit.pos] !in late')
    {
      late' := late;
      if exit.pos < |listed| {
        var t := listed[exit.pos];
        DrainWait(s0, Value(), t, fires, armed, late, queued);
        WaitForCallback(t, fires);
        late' := late - {t};
      }
    }

    /** The body of the loop: waits for the timer at the drain's position and removes it,
        or goes on to the next. */
    method DrainNext(fires: set<Tid>, ghost s0: State, ghost armed: set<Tid>, ghost late: set<Tid>, ghost queued: seq<Tid>)
      returns (ghost late': set<Tid>)
      requires exit.EScan? && Draining(s0, Value(), fires, armed, late, queued) && Passed(Value(), armed, late)
      modifies this
      ensures Draining(s0, Value(), fires, armed, late', queued) && Passed(Value(), armed, late')
      ensures |listed| < |old(listed)| || (|listed| == |old(listed)| && (exit.EStop? || exit == EScan(old(exit).pos + 1)))
    {
      late' := AwaitNext(fires, s0, armed, late, queued);
      if exit.pos < |listed| && listed[exit.pos] in armed {
        DrainRemove(s0, Value(), fires, armed, late', queued);
      } else {
        DrainSkip(s0, Value(), fires, armed, late', queued);
      }
      ScanTimer();
      if exit.EFree? {
        FreeScanned();
      }
    }

    /** The restart loop of nvkms_exit, with fires the timers that fire before the loop
        gets to them: it frees exactly the armed timers among the others, in list order,
        each with its reference, and waits until those that fired are queued; whatever is
        left in the list is in the hands of the queue. */
    method Drain(fires: set<Tid>)
      requires FullInv(Value()) && exit == EScan(0)
      modifies this
      ensures FullInv(Value()) && Leads(old(Value()), Value()) && exit.EStop?
      ensures var armed := set t | t in old(heap) && old(heap)[t].kernel.Armed? && t !in fires;
              && freed == old(freed) + Pick(old(listed), armed, true)
              && listed == Pick(old(listed), armed, false)
      ensures var late := set t | t in old(heap) && IsLate(old(Value()), t, fires);
              queue == old(queue) + Pick(old(listed), late, true)
      ensures forall t :: t in listed ==> t in queue || worker == WUnlist(t)
    {
      ghost var s0 := Value();
      ghost var armed := set t | t in heap && heap[t].kernel.Armed? && t !in fires;
      ghost var late := set t | t in heap && IsLate(s0, t, fires);
      ghost var queued := queue + Pick(listed, late, true);
      DrainBegins(s0, fires, armed, late);
      while exit.EScan?
        invariant Draining(s0, Value(), fires, armed, late, queued) && Passed(Value(), armed, late)
        decreases |listed|, if exit.EScan? then |listed| - exit.pos + 1 else 0
      {
        late := DrainNext(fires, s0, armed, late, queued);
      }
      PickNone(listed, armed);
      PickNone(listed, late);
      forall t | t in listed ensures t in queue || worker == WUnlist(t) { LeftIsQueued(Value(), t, fires); }
    }
  }

  /** A listed timer that is neither armed nor late is the queue's. */
  lemma LeftIsQueued(s: State, t: Tid, fires: set<Tid>)
    requires FullInv(s) && t in s.listed && !IsLate(s, t, fires) && (IsArmed(s, t) ==> t in fires)
    ensures t in s.queue || s.worker == WUnlist(t)
  {
    assert TimerInv(s, t);
  }
}
