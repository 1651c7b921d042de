/**
 * Closing an NVKMS open, on top of the work queue model.
 *
 * A kernel-space popen embeds the queue item that announces its events.  Closing
 * calls nvKmsClose under nvkms_lock, flushes the queue and frees the popen; when
 * the power management lock is taken, the whole close is handed to a second
 * queue.  The first queue is the state machine of KthreadQueue itself, with every
 * interleaving of its steps.
 */
module PerOpenClose {
  import opened Common
  import Q = KthreadQueue

  type Pid = nat

  /** Items with odd numbers belong to popens, the others to somebody else. */
  function EventItem(p: Pid): Q.Item {
    Q.Work(2 * p + 1)
  }

  predicate IsEvent(item: Q.Item) {
    item.Work? && item.id % 2 == 1
  }

  function Owner(item: Q.Item): Pid
    requires IsEvent(item)
  {
    item.id / 2
  }

  datatype Phase =
    | Open
    | Deferred             // handed to the deferred close queue
    | Closing(t: Q.Tid)    // thread t runs nvkms_close_pm_locked, nvKmsClose not called yet
    | Closed(t: Q.Tid)     // nvKmsClose called
    | Flushing(t: Q.Tid)
    | Freed

  datatype Popen = Popen(kernel: bool, phase: Phase)

  datatype Locker = Thread(t: Q.Tid) | Consumer

  datatype State = State(
    q: Q.State,
    popens: map<Pid, Popen>,
    deferred: seq<Pid>,
    lock: Option<Locker>,   // nvkms_lock
    closes: seq<Pid>,       // history of nvKmsClose calls
    frees: seq<Pid>)        // history of nvkms_free calls

  datatype Step =
    | OpenPopen(p: Pid, kernel: bool)
    | LockBy(l: Locker)
    | Unlock
    | Queue(step: Q.Step)
    | Request(p: Pid, t: Q.Tid, pmFree: bool)
    | TakeDeferred(t: Q.Tid)
    | KmsClose(p: Pid)
    | StartFlush(p: Pid)
    | FreePopen(p: Pid)

  ghost predicate Init(s: State) {
    && Q.Init(s.q)
    && s.popens == map[] && s.deferred == [] && s.lock == None && s.closes == [] && s.frees == []
  }

  /** Thread t is in the middle of closing some popen. */
  predicate Busy(s: State, t: Q.Tid) {
    exists p :: p in s.popens && CloserOf(s.popens[p].phase) == Some(t)
  }

  function CloserOf(ph: Phase): Option<Q.Tid> {
    match ph
    case Closing(t) => Some(t)
    case Closed(t) => Some(t)
    case Flushing(t) => Some(t)
    case _ => None
  }

  /** nvKmsClose has not been called for p yet. */
  predicate HasData(s: State, p: Pid) {
    p in s.popens && (s.popens[p].phase.Open? || s.popens[p].phase.Deferred? || s.popens[p].phase.Closing?)
  }

  /** nvkms_event_queue_changed is called under nvkms_lock, for a popen that core
      NVKMS still knows; other items are scheduled by anybody.  The queue is not
      stopped while popens are being closed. */
  predicate Allowed(s: State, step: Q.Step) {
    match step
    case ClientCheck(t, item) =>
      && !Busy(s, t)
      && (IsEvent(item) ==> HasData(s, Owner(item)) && s.popens[Owner(item)].kernel && s.lock == Some(Thread(t)))
    case NestedCheck(item) =>
      IsEvent(item) ==> HasData(s, Owner(item)) && s.popens[Owner(item)].kernel && s.lock == Some(Consumer)
    case FlushStart(t, stopping) => !Busy(s, t) && !stopping
    case FlushReturn(t) => !Busy(s, t)
    case Finish => s.lock != Some(Consumer)
    case _ => true
  }

  predicate Enabled(s: State, step: Step) {
    match step
    case OpenPopen(p, _) => p !in s.popens
    case LockBy(l) => s.lock.None? && (l.Consumer? ==> s.q.consumer.Running?)
    case Unlock =>
      && s.lock.Some?
      && (match s.lock.value
          case Thread(t) => Q.Pc(s.q, t).Idle?
          case Consumer => s.q.consumer == Q.Running(Q.NoCall))
    case Queue(step) => Q.Enabled(s.q, step) && Allowed(s, step)
    case Request(p, t, pmFree) =>
      && p in s.popens && s.popens[p].phase.Open?
      && (pmFree ==> !Busy(s, t) && Q.Pc(s.q, t).Idle?)
    case TakeDeferred(t) => s.deferred != [] && s.deferred[0] in s.popens && !Busy(s, t) && Q.Pc(s.q, t).Idle?
    case KmsClose(p) =>
      && p in s.popens && s.popens[p].phase.Closing?
      && s.lock == Some(Thread(s.popens[p].phase.t)) && Q.Pc(s.q, s.popens[p].phase.t).Idle?
    case StartFlush(p) =>
      && p in s.popens && s.popens[p].phase.Closed? && s.popens[p].kernel
      && s.lock != Some(Thread(s.popens[p].phase.t)) && Q.Pc(s.q, s.popens[p].phase.t).Idle?
    case FreePopen(p) =>
      && p in s.popens
      && (if s.popens[p].kernel
          then s.popens[p].phase.Flushing? && Q.Pc(s.q, s.popens[p].phase.t).Flushed?
          else s.popens[p].phase.Closed? && s.lock != Some(Thread(s.popens[p].phase.t)))
  }

  function Goto(s: State, p: Pid, ph: Phase): State
    requires p in s.popens
  {
    s.(popens := s.popens[p := s.popens[p].(phase := ph)])
  }

  function Do(s: State, step: Step): State
    requires Enabled(s, step)
  {
    match step
    case OpenPopen(p, kernel) => s.(popens := s.popens[p := Popen(kernel, Open)])
    case LockBy(l) => s.(lock := Some(l))
    case Unlock => s.(lock := None)
    case Queue(step) => s.(q := Q.Do(s.q, step))
    case Request(p, t, pmFree) =>
      if pmFree then Goto(s, p, Closing(t))
      else Goto(s, p, Deferred).(deferred := s.deferred + [p])
    case TakeDeferred(t) => Goto(s, s.deferred[0], Closing(t)).(deferred := s.deferred[1..])
    case KmsClose(p) => Goto(s, p, Closed(s.popens[p].phase.t)).(closes := s.closes + [p])
    case StartFlush(p) =>
      Goto(s, p, Flushing(s.popens[p].phase.t))
      .(q := Q.Do(s.q, Q.FlushStart(s.popens[p].phase.t, false)))
    case FreePopen(p) =>
      Goto(s, p, Freed).(
        frees := s.frees + [p],
        q := if s.popens[p].kernel then Q.Do(s.q, Q.FlushReturn(s.popens[p].phase.t)) else s.q)
  }

  ghost predicate Next(s: State, s': State) {
    exists step :: Enabled(s, step) && s' == Do(s, step)
  }

  ghost predicate Run(run: seq<State>) {
    IsRun(run, Init, Next)
  }

  // ---------------------------------------------------------------------------
  // Invariants
  // ---------------------------------------------------------------------------

  /** Some thread has checked the queue and is about to append the item. */
  ghost predicate Scheduling(q: Q.State, item: Q.Item) {
    || (q.consumer.Running? && q.consumer.call == Q.Checked(item))
    || exists t :: t in q.clients && q.clients[t] == Q.InCall(Q.Checked(item))
  }

  /** Every entry of the item is among the first n accepted. */
  ghost predicate AllBefore(q: Q.State, item: Q.Item, n: nat) {
    forall i :: 0 <= i < |q.accepted| && q.accepted[i] == item ==> i < n
  }

  predicate IsRunning(q: Q.State, item: Q.Item) {
    q.consumer.Running? && |q.dequeued| > 0 && q.dequeued[|q.dequeued| - 1] == item
  }

  predicate Pending(q: Q.State, item: Q.Item) {
    item in q.list || IsRunning(q, item)
  }

  /** All entries of the item have run to completion. */
  ghost predicate AllDone(q: Q.State, item: Q.Item) {
    forall i: nat :: i < |q.accepted| && q.accepted[i] == item ==> Q.Finished(q, i)
  }

  /** While an event is being scheduled, nvkms_lock is held by the scheduler. */
  ghost predicate LockInv(s: State) {
    && (forall t, item :: t in s.q.clients && s.q.clients[t] == Q.InCall(Q.Checked(item)) && IsEvent(item) ==>
          s.lock == Some(Thread(t)) && HasData(s, Owner(item)))
    && (s.q.consumer.Running? && s.q.consumer.call.Checked? && IsEvent(s.q.consumer.call.item) ==>
          s.lock == Some(Consumer) && HasData(s, Owner(s.q.consumer.call.item)))
    && (s.lock == Some(Consumer) ==> s.q.consumer.Running?)
  }

  /** The queue is live and nobody is stopping it. */
  ghost predicate LiveInv(q: Q.State) {
    && !q.shouldExit
    && forall t :: t in q.clients ==>
         match q.clients[t]
         case Flushing(_, _, stopping) => !stopping
         case Flushed(_, stopping) => !stopping
         case StopMustSet => false
         case StopMustPost => false
         case StopMustJoin => false
         case _ => true
  }

  ghost predicate DeferredInv(s: State) {
    && NoDup(s.deferred)
    && forall p :: p in s.deferred <==> p in s.popens && s.popens[p].phase.Deferred?
  }

  /** A thread closes one popen at a time. */
  ghost predicate CloserInv(s: State) {
    forall p, p' :: p in s.popens && p' in s.popens && p != p' && CloserOf(s.popens[p].phase).Some? ==>
      CloserOf(s.popens[p].phase) != CloserOf(s.popens[p'].phase)
  }

  function One(b: bool): nat {
    if b then 1 else 0
  }

  ghost predicate PopenInv(s: State, p: Pid) {
    && (p !in s.popens || !s.popens[p].kernel ==> AllBefore(s.q, EventItem(p), 0))
    && (Scheduling(s.q, EventItem(p)) ==> HasData(s, p) && s.popens[p].kernel)
    && (p in s.popens && s.popens[p].phase.Flushing? ==>
          var pc := Q.Pc(s.q, s.popens[p].phase.t);
          Q.InFlush(pc) && AllBefore(s.q, EventItem(p), pc.rec.start))
    && (p in s.popens && s.popens[p].phase.Freed? ==> AllDone(s.q, EventItem(p)))
    && multiset(s.closes)[p] == One(p in s.popens && !HasData(s, p))
    && multiset(s.frees)[p] == One(p in s.popens && s.popens[p].phase.Freed?)
  }

  ghost predicate QueueInv(q: Q.State) {
    Q.Inv(q) && LiveInv(q)
  }

  ghost predicate ThreadInv(s: State) {
    LockInv(s) && DeferredInv(s) && CloserInv(s)
  }

  ghost predicate Inv(s: State) {
    && QueueInv(s.q)
    && ThreadInv(s)
    && forall p: Pid :: PopenInv(s, p)
  }

  // ---------------------------------------------------------------------------
  // What a step of the queue does to one item
  // ---------------------------------------------------------------------------

  /** An item is appended only by a thread that was scheduling it. */
  lemma AppendNeedsScheduling(q: Q.State, step: Q.Step, item: Q.Item)
    requires Q.Inv(q) && Q.Enabled(q, step) && item.Work? && !Scheduling(q, item)
    ensures var q' := Q.Do(q, step);
            forall i :: 0 <= i < |q'.accepted| && q'.accepted[i] == item ==>
              i < |q.accepted| && q.accepted[i] == item
  {
    match step
    case ClientLock(t) => assert t in q.clients;
    case _ =>
  }

  lemma SchedulingStarts(q: Q.State, step: Q.Step, item: Q.Item)
    requires Q.Enabled(q, step) && Scheduling(Q.Do(q, step), item) && !Scheduling(q, item)
    ensures step == Q.NestedCheck(item) || (step.ClientCheck? && step.item == item)
  {
    Q.ActorOnly(q, step);
  }

  lemma FinishedStays(q: Q.State, step: Q.Step, i: nat)
    requires Q.Inv(q) && Q.Enabled(q, step) && Q.Finished(q, i)
    ensures Q.Finished(Q.Do(q, step), i)
  {
  }

  lemma QueueInvStep(q: Q.State, step: Q.Step)
    requires QueueInv(q) && Q.Enabled(q, step) && (step.FlushStart? ==> !step.stopping)
    ensures QueueInv(Q.Do(q, step))
  {
    Q.InvStep(q, Q.Do(q, step));
    LiveStep(q, step);
  }

  lemma LiveStep(q: Q.State, step: Q.Step)
    requires LiveInv(q) && Q.Enabled(q, step) && (step.FlushStart? ==> !step.stopping)
    ensures LiveInv(Q.Do(q, step))
  {
    Q.ActorOnly(q, step);
  }

  /** After the flush returns, everything accepted before its start is done. */
  lemma FlushedMeansDone(q: Q.State, t: Q.Tid, item: Q.Item)
    requires Q.Inv(q) && Q.Pc(q, t).Flushed? && AllBefore(q, item, Q.Pc(q, t).rec.start)
    ensures AllDone(q, item)
  {
    assert t in q.clients;
    assert Q.ClientOk(q.clients[t], |q.accepted|, q.completions, q.requests);
  }

  /** An item whose entries are all done is neither listed nor running. */
  lemma DoneIsNotPending(q: Q.State, item: Q.Item)
    requires Q.Inv(q) && AllDone(q, item)
    ensures !Pending(q, item)
  {
    var n := |q.dequeued|;
    forall i | 0 <= i < |q.list| ensures q.list[i] != item {
      assert q.accepted[n + i] == q.list[i];
      assert !Q.Finished(q, n + i);
    }
    if q.consumer.Running? {
      assert q.accepted[n - 1] == q.dequeued[n - 1];
      assert !Q.Finished(q, n - 1);
    }
  }

  // ---------------------------------------------------------------------------
  // Every step keeps the invariants
  // ---------------------------------------------------------------------------

  /** What Allowed grants, as far as popen p is concerned. */
  predicate Harmless(s: State, step: Q.Step, p: Pid) {
    && (step == Q.NestedCheck(EventItem(p)) || (step.ClientCheck? && step.item == EventItem(p)) ==>
          HasData(s, p) && s.popens[p].kernel)
    && (p in s.popens && s.popens[p].phase.Flushing? ==> step != Q.FlushReturn(s.popens[p].phase.t))
  }

  lemma FlushGoesOn(s: State, step: Q.Step, t: Q.Tid)
    requires Q.Enabled(s.q, step) && step != Q.FlushReturn(t) && Q.InFlush(Q.Pc(s.q, t))
    ensures Q.InFlush(Q.Pc(Q.Do(s.q, step), t))
    ensures Q.Pc(Q.Do(s.q, step), t).rec.start == Q.Pc(s.q, t).rec.start
  {
    Q.ActorOnly(s.q, step);
    if Q.Actor(step) != Some(t) {
      assert Q.Pc(Q.Do(s.q, step), t) == Q.Pc(s.q, t);
    }
  }

  lemma DoneStays(q: Q.State, step: Q.Step, item: Q.Item)
    requires Q.Inv(q) && Q.Enabled(q, step) && item.Work? && !Scheduling(q, item) && AllDone(q, item)
    ensures AllDone(Q.Do(q, step), item)
  {
    var q' := Q.Do(q, step);
    AppendNeedsScheduling(q, step, item);
    forall i: nat | i < |q'.accepted| && q'.accepted[i] == item ensures Q.Finished(q', i) {
      FinishedStays(q, step, i);
    }
  }

  lemma QueuePopen(s: State, step: Q.Step, p: Pid)
    requires Q.Inv(s.q) && PopenInv(s, p) && Q.Enabled(s.q, step) && Harmless(s, step, p)
    ensures PopenInv(s.(q := Q.Do(s.q, step)), p)
  {
    var q', item := Q.Do(s.q, step), EventItem(p);
    if Scheduling(q', item) && !Scheduling(s.q, item) {
      SchedulingStarts(s.q, step, item);
    }
    if !Scheduling(s.q, item) {
      AppendNeedsScheduling(s.q, step, item);
      if p in s.popens && s.popens[p].phase.Flushing? {
        FlushGoesOn(s, step, s.popens[p].phase.t);
      }
      if p in s.popens && s.popens[p].phase.Freed? {
        DoneStays(s.q, step, item);
      }
    }
  }

  lemma QueueLock(s: State, step: Q.Step)
    requires LockInv(s) && Q.Enabled(s.q, step) && Allowed(s, step)
    ensures LockInv(s.(q := Q.Do(s.q, step)))
  {
    Q.ActorOnly(s.q, step);
  }

  lemma QueueKeeps(s: State, step: Q.Step)
    requires Inv(s) && Q.Enabled(s.q, step) && Allowed(s, step)
    ensures Inv(s.(q := Q.Do(s.q, step)))
  {
    var s' := s.(q := Q.Do(s.q, step));
    QueueInvStep(s.q, step);
    QueueLock(s, step);
    forall p: Pid ensures PopenInv(s', p) {
      assert PopenInv(s, p);
      QueuePopen(s, step, p);
    }
  }

  /** nvKmsClose runs under nvkms_lock, so no event of p is being scheduled. */
  lemma CloseIsQuiet(s: State, p: Pid)
    requires LockInv(s) && Enabled(s, KmsClose(p))
    ensures !Scheduling(s.q, EventItem(p))
  {
  }

  lemma KmsClosePopen(s: State, p: Pid, x: Pid)
    requires PopenInv(s, x) && LockInv(s) && Enabled(s, KmsClose(p))
    ensures PopenInv(Do(s, KmsClose(p)), x)
  {
    CloseIsQuiet(s, p);
  }

  lemma StorePopen(s: State, step: Step, p: Pid)
    requires PopenInv(s, p) && Enabled(s, step) && (step.OpenPopen? || step.LockBy? || step.Unlock? || step.Request? || step.TakeDeferred?)
    requires step.TakeDeferred? ==> s.popens[s.deferred[0]].phase.Deferred?
    ensures PopenInv(Do(s, step), p)
  {
  }

  lemma StoreThreads(s: State, step: Step)
    requires ThreadInv(s) && Enabled(s, step) && !step.Queue? && !step.StartFlush? && !step.FreePopen?
    ensures ThreadInv(Do(s, step))
  {
    StoreLock(s, step);
    if step.TakeDeferred? { assert s.deferred == [s.deferred[0]] + s.deferred[1..]; }
  }

  lemma StoreLock(s: State, step: Step)
    requires LockInv(s) && Enabled(s, step) && !step.Queue? && !step.StartFlush? && !step.FreePopen?
    ensures LockInv(Do(s, step))
  {
    if step.KmsClose? { CloseIsQuiet(s, step.p); }
  }

  lemma StoreKeeps(s: State, step: Step)
    requires Inv(s) && Enabled(s, step) && !step.Queue? && !step.StartFlush? && !step.FreePopen?
    ensures Inv(Do(s, step))
  {
    StoreThreads(s, step);
    forall p: Pid ensures PopenInv(Do(s, step), p) {
      assert PopenInv(s, p);
      if step.KmsClose? { KmsClosePopen(s, step.p, p); } else { StorePopen(s, step, p); }
    }
  }

  lemma StartFlushPopen(s: State, p: Pid, x: Pid)
    requires Q.Inv(s.q) && LiveInv(s.q) && PopenInv(s, x) && Enabled(s, StartFlush(p))
    ensures PopenInv(Do(s, StartFlush(p)), x)
  {
    QueuePopen(s, Q.FlushStart(s.popens[p].phase.t, false), x);
  }

  lemma StartFlushLock(s: State, p: Pid)
    requires LockInv(s) && Enabled(s, StartFlush(p))
    ensures LockInv(Do(s, StartFlush(p)))
  {
    Q.ActorOnly(s.q, Q.FlushStart(s.popens[p].phase.t, false));
  }

  lemma StartFlushClosers(s: State, p: Pid)
    requires DeferredInv(s) && CloserInv(s) && Enabled(s, StartFlush(p))
    ensures DeferredInv(Do(s, StartFlush(p))) && CloserInv(Do(s, StartFlush(p)))
  {
  }

  lemma StartFlushThreads(s: State, p: Pid)
    requires ThreadInv(s) && Enabled(s, StartFlush(p))
    ensures ThreadInv(Do(s, StartFlush(p)))
  {
    StartFlushLock(s, p);
    StartFlushClosers(s, p);
  }

  lemma StartFlushKeeps(s: State, p: Pid)
    requires Inv(s) && Enabled(s, StartFlush(p))
    ensures Inv(Do(s, StartFlush(p)))
  {
    QueueInvStep(s.q, Q.FlushStart(s.popens[p].phase.t, false));
    StartFlushThreads(s, p);
    forall x: Pid ensures PopenInv(Do(s, StartFlush(p)), x) {
      assert PopenInv(s, x);
      StartFlushPopen(s, p, x);
    }
  }

  lemma FreeKeepsOthers(s: State, p: Pid, x: Pid)
    requires Inv(s) && Enabled(s, FreePopen(p)) && x != p
    ensures PopenInv(Do(s, FreePopen(p)), x)
  {
    assert PopenInv(s, x);
    if s.popens[p].kernel {
      QueuePopen(s, Q.FlushReturn(s.popens[p].phase.t), x);
    }
  }

  lemma FreeKeepsOwn(s: State, p: Pid)
    requires Inv(s) && Enabled(s, FreePopen(p))
    ensures PopenInv(Do(s, FreePopen(p)), p)
  {
    assert PopenInv(s, p);
    if s.popens[p].kernel {
      var t := s.popens[p].phase.t;
      FlushedMeansDone(s.q, t, EventItem(p));
      DoneStays(s.q, Q.FlushReturn(t), EventItem(p));
    }
  }

  lemma FreeLock(s: State, p: Pid)
    requires LockInv(s) && Enabled(s, FreePopen(p))
    ensures LockInv(Do(s, FreePopen(p)))
  {
    if s.popens[p].kernel { Q.ActorOnly(s.q, Q.FlushReturn(s.popens[p].phase.t)); }
  }

  lemma FreeClosers(s: State, p: Pid)
    requires DeferredInv(s) && CloserInv(s) && Enabled(s, FreePopen(p))
    ensures DeferredInv(Do(s, FreePopen(p))) && CloserInv(Do(s, FreePopen(p)))
  {
  }

  lemma FreeThreads(s: State, p: Pid)
    requires ThreadInv(s) && Enabled(s, FreePopen(p))
    ensures ThreadInv(Do(s, FreePopen(p)))
  {
    FreeLock(s, p);
    FreeClosers(s, p);
  }

  lemma FreeQueue(s: State, p: Pid)
    requires QueueInv(s.q) && Enabled(s, FreePopen(p))
    ensures QueueInv(Do(s, FreePopen(p)).q)
  {
    if s.popens[p].kernel {
      QueueInvStep(s.q, Q.FlushReturn(s.popens[p].phase.t));
    }
  }

  lemma FreeKeeps(s: State, p: Pid)
    requires Inv(s) && Enabled(s, FreePopen(p))
    ensures Inv(Do(s, FreePopen(p)))
  {
    FreeQueue(s, p);
    FreeThreads(s, p);
    forall x: Pid ensures PopenInv(Do(s, FreePopen(p)), x) {
      if x == p { FreeKeepsOwn(s, p); } else { FreeKeepsOthers(s, p, x); }
    }
  }

  lemma InvNext(s: State, s': State)
    requires Inv(s) && Next(s, s')
    ensures Inv(s')
  {
    var step :| Enabled(s, step) && s' == Do(s, step);
    match step
    case Queue(qstep) => QueueKeeps(s, qstep);
    case StartFlush(p) => StartFlushKeeps(s, p);
    case FreePopen(p) => FreeKeeps(s, p);
    case _ => StoreKeeps(s, step);
  }

  lemma InvOnRun(run: seq<State>, i: nat)
    requires Run(run) && i < |run|
    ensures Inv(run[i])
  {
    forall s, s' | Inv(s) && Next(s, s') ensures Inv(s') { InvNext(s, s'); }
    Always(run, Init, Next, Inv, i);
  }

  /** A popen is closed and freed at most once, in this order, whichever path the
      close took; and once it is freed, the queue item inside it is not listed, not
      running, and not being scheduled, now or ever after. */
  lemma CloseSafety(run: seq<State>, i: nat, p: Pid)
    requires Run(run) && i < |run|
    ensures multiset(run[i].frees)[p] <= multiset(run[i].closes)[p] <= 1
    ensures p in run[i].popens && run[i].popens[p].phase.Freed? <==> multiset(run[i].frees)[p] == 1
    ensures multiset(run[i].frees)[p] == 1 ==>
              !Pending(run[i].q, EventItem(p)) && !Scheduling(run[i].q, EventItem(p))
  {
    InvOnRun(run, i);
    assert PopenInv(run[i], p);
    if p in run[i].popens && run[i].popens[p].phase.Freed? {
      DoneIsNotPending(run[i].q, EventItem(p));
    }
  }

  // ---------------------------------------------------------------------------
  // A close that was asked for is not lost
  // ---------------------------------------------------------------------------

  function Rank(ph: Phase): nat {
    match ph
    case Open => 0
    case Deferred => 1
    case Closing(_) => 2
    case Closed(_) => 3
    case Flushing(_) => 4
    case Freed => 5
  }

  /** p has been opened, and its close has come at least as far as n. */
  ghost predicate Reached(s: State, p: Pid, n: nat) {
    p in s.popens && Rank(s.popens[p].phase) >= n
  }

  lemma ReachedStep(s: State, step: Step, p: Pid, n: nat)
    requires DeferredInv(s) && Enabled(s, step) && Reached(s, p, n)
    ensures Reached(Do(s, step), p, n)
  {
    if step.TakeDeferred? { assert s.deferred[0] in s.deferred; }
  }

  lemma ReachedNext(s: State, s': State, p: Pid, n: nat)
    requires Inv(s) && Next(s, s') && Reached(s, p, n)
    ensures Inv(s') && Reached(s', p, n)
  {
    var step :| Enabled(s, step) && s' == Do(s, step);
    InvNext(s, s');
    ReachedStep(s, step, p, n);
  }

  lemma ReachedOnRun(run: seq<State>, i: nat, j: nat, p: Pid, n: nat)
    requires Run(run) && i <= j < |run| && Reached(run[i], p, n)
    ensures Reached(run[j], p, n)
  {
    InvOnRun(run, i);
    var kept := (s: State) => Inv(s) && Reached(s, p, n);
    forall s, s' | kept(s) && Next(s, s') ensures kept(s') { ReachedNext(s, s', p, n); }
    KeptFrom(run, Init, Next, kept, i, j);
  }

  /** Once the close of a popen has been asked for, it is in the deferred queue, or in the
      hands of a thread that closes it, or freed, and never open again; it skips the
      deferred queue exactly if the power management lock was free; and nvKmsClose has
      been called for it exactly from the moment it is past that stage. */
  lemma RequestIsServed(run: seq<State>, i: nat, j: nat, p: Pid, t: Q.Tid, pmFree: bool)
    requires Run(run) && i < j < |run|
    requires Enabled(run[i], Request(p, t, pmFree)) && run[i + 1] == Do(run[i], Request(p, t, pmFree))
    ensures p in run[j].popens
    ensures var ph := run[j].popens[p].phase;
            && (p in run[j].deferred || CloserOf(ph).Some? || ph.Freed?)
            && (p in run[j].deferred ==> !pmFree && CloserOf(ph).None? && !ph.Freed?)
            && (j == i + 1 ==> (p in run[j].deferred <==> !pmFree))
            && multiset(run[j].closes)[p] == One(ph.Closed? || ph.Flushing? || ph.Freed?)
  {
    ReachedOnRun(run, i + 1, j, p, if pmFree then 2 else 1);
    InvOnRun(run, j);
    assert PopenInv(run[j], p);
  }
}
