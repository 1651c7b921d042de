/**
 * The end of nvkms_exit: the timers of NvkmsTimers on the work queue of KthreadQueue.
 *
 * Each machine takes its own steps.  Scheduling a timer's item and appending to the
 * list are one step, and so are dequeueing the item and entering its callback.  The
 * thread that unloads the module calls nv_kthread_q_stop once the drain is over and
 * is done when that call returns, whatever is in the queue then; that nothing is, is
 * proved.
 */
module UnloadStop {
  import opened Common
  import Q = KthreadQueue
  import T = NvkmsTimers

  /** Items with even numbers belong to timers, the others to somebody else. */
  function ItemOf(t: T.Tid): Q.Item {
    Q.Work(2 * t)
  }

  predicate IsTimer(item: Q.Item) {
    item.Work? && item.id % 2 == 0
  }

  function TimerOf(item: Q.Item): seq<T.Tid> {
    if IsTimer(item) then [item.id / 2] else []
  }

  /** The timers whose items are in the list, in order. */
  function Timers(list: seq<Q.Item>): seq<T.Tid> {
    if list == [] then [] else TimerOf(list[0]) + Timers(list[1..])
  }

  /** The thread that runs nvkms_exit. */
  const UNLOADER: Q.Tid := 0

  datatype StopCall = NotCalled | Called | Returned

  datatype State = State(q: Q.State, t: T.State, stop: StopCall)

  datatype Step =
    | Timer(tstep: T.Step)
    | Queue(qstep: Q.Step)
    | Schedule(qstep: Q.Step, a: T.ApiStep)
    | TakeItem
    | CallStop
    | StopReturns

  ghost predicate Init(s: State) {
    Q.Init(s.q) && T.Init(s.t) && s.stop == NotCalled
  }

  /** Calls nv_kthread_q_schedule_q_item. */
  predicate Schedules(a: T.ApiStep) {
    (a.AllocTimer? && !a.delayed) || a.QueueWork?
  }

  function Scheduled(t: T.State, a: T.ApiStep): T.Tid
    requires Schedules(a)
  {
    if a.QueueWork? then a.t else t.nextTimer
  }

  /** The item that a step is about to append. */
  function Appending(q: Q.State, step: Q.Step): Option<Q.Item> {
    match step
    case ClientLock(t) => if Q.Enabled(q, step) then Some(Q.Pc(q, t).call.item) else None
    case NestedLock => if Q.Enabled(q, step) then Some(q.consumer.call.item) else None
    case _ => None
  }

  /** Steps of the queue that do not concern timers.  Nobody but the unloading thread
      stops the queue; other items are scheduled at any time, from callbacks too. */
  predicate Foreign(s: State, step: Q.Step) {
    match step
    case Dequeue => s.q.list == [] || !IsTimer(s.q.list[0])
    case Finish => s.t.worker.WIdle?  // the callback has returned
    case ClientCheck(t, _) => t != UNLOADER
    case ClientLock(_) => Appending(s.q, step).Some? && !IsTimer(Appending(s.q, step).value)
    case NestedLock => Appending(s.q, step).Some? && !IsTimer(Appending(s.q, step).value)
    case FlushStart(t, stopping) => t != UNLOADER && !stopping
    case StopJoin(_) => false
    case _ => true
  }

  predicate Enabled(s: State, step: Step) {
    match step
    case Timer(step) =>
      && T.Enabled(s.t, step) && step != T.ByThread(T.Take) && step != T.ByExit(T.Stop)
      && (step.ByApi? ==> !Schedules(step.a))
    case Queue(step) => Q.Enabled(s.q, step) && Foreign(s, step)
    case Schedule(step, a) =>
      && T.ApiEnabled(s.t, a) && Schedules(a)
      && Appending(s.q, step) == Some(ItemOf(Scheduled(s.t, a)))
    case TakeItem => Q.Enabled(s.q, Q.Dequeue) && s.q.list != [] && IsTimer(s.q.list[0])
    case CallStop => s.stop.NotCalled? && s.t.exit.EStop? && Q.Enabled(s.q, Q.FlushStart(UNLOADER, true))
    case StopReturns => s.stop.Called? && Q.Enabled(s.q, Q.StopJoin(UNLOADER))
  }

  function Do(s: State, step: Step): State
    requires Enabled(s, step)
  {
    match step
    case Timer(step) => s.(t := T.Do(s.t, step))
    case Queue(step) => s.(q := Q.Do(s.q, step))
    case Schedule(step, a) => s.(q := Q.Do(s.q, step), t := T.ApiDo(s.t, a))
    case TakeItem =>
      s.(q := Q.Do(s.q, Q.Dequeue),
         t := if T.WorkerEnabled(s.t, T.Take) then T.WorkerDo(s.t, T.Take) else T.Fail(s.t))
    case CallStop => s.(q := Q.Do(s.q, Q.FlushStart(UNLOADER, true)), stop := Called)
    case StopReturns => State(Q.Do(s.q, Q.StopJoin(UNLOADER)), s.t.(exit := T.EDone), Returned)
  }

  ghost predicate Next(s: State, s': State) {
    exists step :: Enabled(s, step) && s' == Do(s, step)
  }

  ghost predicate Run(run: seq<State>) {
    IsRun(run, Init, Next)
  }

  // ---------------------------------------------------------------------------
  // Invariants
  // ---------------------------------------------------------------------------

  /** The two machines agree on what is queued and on what is running. */
  ghost predicate Coupled(s: State) {
    && Timers(s.q.list) == s.t.queue
    && (!s.t.worker.WIdle? ==>
          && s.q.consumer.Running? && |s.q.dequeued| > 0
          && IsTimer(s.q.dequeued[|s.q.dequeued| - 1]))
  }

  predicate Stopping(c: Q.Client) {
    || (c.Flushing? && c.stopping) || (c.Flushed? && c.stopping)
    || c.StopMustSet? || c.StopMustPost? || c.StopMustJoin?
  }

  /** Only the unloading thread stops the queue, and only after the drain. */
  ghost predicate StopInv(s: State) {
    && (forall t :: t in s.q.clients && t != UNLOADER ==> !Stopping(s.q.clients[t]))
    && (s.stop.Called? <==> Stopping(Q.Pc(s.q, UNLOADER)))
    && (!s.stop.Called? ==> Q.Pc(s.q, UNLOADER).Idle?)
    && (s.q.shouldExit ==> !s.stop.NotCalled? && !Q.InFlush(Q.Pc(s.q, UNLOADER)))
    && (s.stop.Called? ==> s.t.exit.EStop?)
    && (s.stop.Returned? <==> s.t.exit.EDone?)
  }

  /** Nothing queued after the first n entries belongs to a timer. */
  ghost predicate NoTimersFrom(q: Q.State, n: nat) {
    forall e :: n <= e < |q.accepted| ==> !IsTimer(q.accepted[e])
  }

  ghost predicate Quiet(t: T.State) {
    t.queue == [] && t.worker.WIdle?
  }

  /** Since stop was called no timer was queued; once its flush has returned none is
      queued or running. */
  ghost predicate DrainedInv(s: State) {
    var pc := Q.Pc(s.q, UNLOADER);
    && (Q.InFlush(pc) ==> NoTimersFrom(s.q, pc.rec.start))
    && (pc.StopMustSet? || pc.StopMustPost? || pc.StopMustJoin? || s.stop.Returned? ==> Quiet(s.t))
  }

  ghost predicate Inv(s: State) {
    Q.Inv(s.q) && T.FullInv(s.t) && Coupled(s) && StopInv(s) && DrainedInv(s)
  }

  // ---------------------------------------------------------------------------
  // The list and its timers
  // ---------------------------------------------------------------------------

  lemma Regroup(a: seq<T.Tid>, b: seq<T.Tid>, c: seq<T.Tid>)
    ensures a + (b + c) == a + b + c
  {
  }

  lemma {:induction false} TimersAppend(list: seq<Q.Item>, item: Q.Item)
    ensures Timers(list + [item]) == Timers(list) + TimerOf(item)
    decreases |list|
  {
    if list == [] {
      assert list + [item] == [item];
    } else {
      assert (list + [item])[1..] == list[1..] + [item];
      TimersAppend(list[1..], item);
      Regroup(TimerOf(list[0]), Timers(list[1..]), TimerOf(item));
    }
  }

  lemma {:induction false} NoTimers(list: seq<Q.Item>)
    requires forall i :: 0 <= i < |list| ==> !IsTimer(list[i])
    ensures Timers(list) == []
    decreases |list|
  {
    if list != [] { NoTimers(list[1..]); }
  }

  lemma {:induction false} TimersHas(list: seq<Q.Item>, t: T.Tid)
    ensures ItemOf(t) in list <==> t in Timers(list)
    decreases |list|
  {
    if list != [] { TimersHas(list[1..], t); }
  }

  /** What a step of the queue does to the list. */
  lemma ListStep(q: Q.State, step: Q.Step)
    requires Q.Enabled(q, step)
    ensures var q' := Q.Do(q, step);
            q'.list == match step
                       case Dequeue => if q.list == [] then q.list else q.list[1..]
                       case FlushLock(_) => Q.RawSchedule(q, Q.FlushMark(|q.accepted|)).list
                       case ClientLock(_) => Q.RawSchedule(q, Appending(q, step).value).list
                       case NestedLock => Q.RawSchedule(q, Appending(q, step).value).list
                       case _ => q.list
  {
  }

  /** Foreign steps leave the timers of the list alone. */
  lemma ForeignList(s: State, step: Q.Step)
    requires Q.Enabled(s.q, step) && Foreign(s, step)
    ensures Timers(Q.Do(s.q, step).list) == Timers(s.q.list)
  {
    ListStep(s.q, step);
    match step
    case FlushLock(_) => TimersAppend(s.q.list, Q.FlushMark(|s.q.accepted|));
    case ClientLock(_) => TimersAppend(s.q.list, Appending(s.q, step).value);
    case NestedLock => TimersAppend(s.q.list, Appending(s.q, step).value);
    case _ =>
  }

  /** The consumer stops running the last item only by finishing it. */
  lemma ForeignRunning(s: State, step: Q.Step)
    requires Q.Inv(s.q) && Q.Enabled(s.q, step) && Foreign(s, step) && Coupled(s)
    ensures Coupled(s.(q := Q.Do(s.q, step)))
  {
    ForeignList(s, step);
    if s.q.consumer.Running? && step != Q.Finish { RunningStep(s.q, step); }
  }

  lemma RunningStep(q: Q.State, step: Q.Step)
    requires Q.Enabled(q, step) && q.consumer.Running? && step != Q.Finish
    ensures Q.Do(q, step).consumer.Running? && Q.Do(q, step).dequeued == q.dequeued
  {
  }

  // ---------------------------------------------------------------------------
  // Every step keeps the invariants
  // ---------------------------------------------------------------------------

  lemma FreesKeepQueue(t: T.State, x: T.Tid, r: T.Rid)
    ensures T.Kfree(t, x).queue == t.queue && T.Kfree(t, x).exit == t.exit
    ensures T.PutRef(t, r).queue == t.queue && T.PutRef(t, r).exit == t.exit
  {
  }

  lemma TimerDeref(t: T.State)
    requires T.WorkerEnabled(t, T.Deref)
    ensures T.WorkerDo(t, T.Deref).queue == t.queue && T.WorkerDo(t, T.Deref).exit == t.exit
  {
  }

  /** Steps of the timers that schedule nothing leave the queue alone. */
  lemma TimerWorker(t: T.State, w: T.WorkerStep)
    requires T.WorkerEnabled(t, w) && w != T.Take
    ensures var t' := T.WorkerDo(t, w); t'.queue == t.queue && t'.exit == t.exit && !t.worker.WIdle?
  {
    match w
    case Deref => TimerDeref(t);
    case Free => FreesKeepQueue(t, t.worker.t, 0);
    case _ =>
  }

  lemma TimerExit(t: T.State, e: T.ExitStep)
    requires T.ExitEnabled(t, e) && e != T.Stop
    ensures var t' := T.ExitDo(t, e);
            && t'.queue == t.queue && t'.worker == t.worker && !t.exit.EStop? && !t.exit.EDone? && !t'.exit.EDone?
  {
  }

  lemma TimerApi(t: T.State, a: T.ApiStep)
    requires T.ApiEnabled(t, a) && !Schedules(a)
    ensures var t' := T.ApiDo(t, a); t'.queue == t.queue && t'.worker == t.worker && t'.exit == t.exit
  {
  }

  lemma TimerFrame(t: T.State, step: T.Step)
    requires T.Enabled(t, step) && step != T.ByThread(T.Take) && step != T.ByExit(T.Stop)
    requires step.ByApi? ==> !Schedules(step.a)
    ensures var t' := T.Do(t, step);
            && t'.queue == t.queue && (t.worker.WIdle? ==> t'.worker.WIdle?)
            && (t.exit.EStop? || t.exit.EDone? ==> t'.exit == t.exit) && (t'.exit.EDone? ==> t.exit.EDone?)
  {
    match step
    case ByThread(w) => TimerWorker(t, w);
    case ByExit(e) => TimerExit(t, e);
    case ByApi(a) => TimerApi(t, a);
  }

  lemma TimerKeeps(s: State, step: T.Step)
    requires Inv(s) && Enabled(s, Timer(step))
    ensures Inv(Do(s, Timer(step)))
  {
    T.FullStep(s.t, step);
    TimerFrame(s.t, step);
  }

  lemma QueueStop(s: State, step: Q.Step)
    requires StopInv(s) && Q.Enabled(s.q, step) && Foreign(s, step)
    ensures StopInv(s.(q := Q.Do(s.q, step)))
  {
    Q.ActorOnly(s.q, step);
  }

  /** What is accepted by a foreign step belongs to no timer. */
  lemma ForeignAccepts(s: State, step: Q.Step, n: nat)
    requires Q.Enabled(s.q, step) && Foreign(s, step) && NoTimersFrom(s.q, n)
    ensures NoTimersFrom(Q.Do(s.q, step), n)
  {
  }

  /** When the flush of stop is over, no timer is queued or running. */
  lemma FlushedIsQuiet(s: State)
    requires Q.Inv(s.q) && Coupled(s) && Q.Pc(s.q, UNLOADER).Flushed?
    requires NoTimersFrom(s.q, Q.Pc(s.q, UNLOADER).rec.start)
    ensures Quiet(s.t)
  {
    var q, rec := s.q, Q.Pc(s.q, UNLOADER).rec;
    assert UNLOADER in q.clients;
    assert Q.ClientOk(q.clients[UNLOADER], |q.accepted|, q.completions, q.requests);
    assert rec.marks[1] < |q.dequeued|;
    forall i | 0 <= i < |q.list| ensures !IsTimer(q.list[i]) {
      assert q.list[i] == q.accepted[|q.dequeued| + i];
    }
    NoTimers(q.list);
    assert q.dequeued[|q.dequeued| - 1] == q.accepted[|q.dequeued| - 1];
  }

  lemma QueueDrained(s: State, step: Q.Step)
    requires Q.Inv(s.q) && Coupled(s) && StopInv(s) && DrainedInv(s) && Q.Enabled(s.q, step) && Foreign(s, step)
    ensures DrainedInv(s.(q := Q.Do(s.q, step)))
  {
    var pc, pc' := Q.Pc(s.q, UNLOADER), Q.Pc(Q.Do(s.q, step), UNLOADER);
    UnloaderStep(s, step);
    if step == Q.FlushReturn(UNLOADER) {
      FlushedIsQuiet(s);
    } else if Q.InFlush(pc') {
      ForeignAccepts(s, step, pc.rec.start);
    }
  }

  /** How a foreign step moves the unloading thread. */
  lemma UnloaderStep(s: State, step: Q.Step)
    requires StopInv(s) && Q.Enabled(s.q, step) && Foreign(s, step)
    ensures var pc, pc' := Q.Pc(s.q, UNLOADER), Q.Pc(Q.Do(s.q, step), UNLOADER);
            && (Q.InFlush(pc') ==> Q.InFlush(pc) && pc'.rec.start == pc.rec.start)
            && (pc'.StopMustSet? && !pc.StopMustSet? ==> step == Q.FlushReturn(UNLOADER))
            && (pc'.StopMustPost? && !pc.StopMustPost? ==> pc.StopMustSet?)
            && (pc'.StopMustJoin? && !pc.StopMustJoin? ==> pc.StopMustPost?)
            && (step == Q.FlushReturn(UNLOADER) ==> pc.Flushed?)
  {
    Q.ActorOnly(s.q, step);
    if Q.Actor(step) != Some(UNLOADER) { assert Q.Pc(Q.Do(s.q, step), UNLOADER) == Q.Pc(s.q, UNLOADER); }
  }

  lemma QueueKeeps(s: State, step: Q.Step)
    requires Inv(s) && Enabled(s, Queue(step))
    ensures Inv(Do(s, Queue(step)))
  {
    Q.InvStep(s.q, Q.Do(s.q, step));
    ForeignRunning(s, step);
    QueueStop(s, step);
    QueueDrained(s, step);
  }

  /** After the drain no timer can be queued any more. */
  lemma NothingScheduled(t: T.State, a: T.ApiStep)
    requires T.FullInv(t) && (t.exit.EStop? || t.exit.EDone?) && Schedules(a)
    ensures !T.ApiEnabled(t, a)
  {
  }

  lemma ScheduleTimers(t: T.State, a: T.ApiStep)
    requires T.ApiEnabled(t, a) && Schedules(a) && !T.ApiDo(t, a).fault
    ensures var t' := T.ApiDo(t, a);
            && t'.queue == t.queue + [Scheduled(t, a)] && t'.worker == t.worker && t'.exit == t.exit
  {
  }

  lemma ScheduleIsNew(t: T.State, a: T.ApiStep)
    requires T.FullInv(t) && T.ApiEnabled(t, a) && Schedules(a)
    ensures Scheduled(t, a) !in t.queue
  {
    assert T.TimerInv(t, Scheduled(t, a));
  }

  lemma AppendTimer(q: Q.State, step: Q.Step, t: T.Tid)
    requires Appending(q, step) == Some(ItemOf(t)) && t !in Timers(q.list)
    ensures Timers(Q.Do(q, step).list) == Timers(q.list) + [t]
  {
    ListStep(q, step);
    TimersHas(q.list, t);
    TimersAppend(q.list, ItemOf(t));
  }

  lemma ScheduleCoupled(s: State, step: Q.Step, a: T.ApiStep)
    requires Coupled(s) && Enabled(s, Schedule(step, a)) && Scheduled(s.t, a) !in s.t.queue
    requires T.ApiDo(s.t, a).queue == s.t.queue + [Scheduled(s.t, a)] && T.ApiDo(s.t, a).worker == s.t.worker
    ensures Coupled(Do(s, Schedule(step, a)))
  {
    AppendTimer(s.q, step, Scheduled(s.t, a));
    if s.q.consumer.Running? { RunningStep(s.q, step); }
  }

  lemma ScheduleStop(s: State, step: Q.Step)
    requires StopInv(s) && Q.Enabled(s.q, step) && (step.ClientLock? || step.NestedLock?) && s.stop.NotCalled?
    ensures var s' := s.(q := Q.Do(s.q, step)); StopInv(s') && Q.Pc(s'.q, UNLOADER).Idle?
  {
    Q.ActorOnly(s.q, step);
  }

  lemma ScheduleKeeps(s: State, step: Q.Step, a: T.ApiStep)
    requires Inv(s) && Enabled(s, Schedule(step, a))
    ensures Inv(Do(s, Schedule(step, a)))
  {
    if s.t.exit.EStop? || s.t.exit.EDone? {
      NothingScheduled(s.t, a);
    } else {
      assert T.Do(s.t, T.ByApi(a)) == T.ApiDo(s.t, a);
      T.FullStep(s.t, T.ByApi(a));
      Q.InvStep(s.q, Q.Do(s.q, step));
      ScheduleIsNew(s.t, a);
      ScheduleTimers(s.t, a);
      ScheduleCoupled(s, step, a);
      ScheduleStop(s, step);
    }
  }

  /** The item that the consumer takes is the first timer of the queue, and the thread
      is free to run its callback. */
  lemma TakeIsPossible(s: State)
    requires Coupled(s) && Enabled(s, TakeItem)
    ensures T.WorkerEnabled(s.t, T.Take) && s.q.list[0] == ItemOf(s.t.queue[0])
    ensures Timers(s.q.list[1..]) == s.t.queue[1..]
  {
  }

  lemma TakeStop(s: State)
    requires StopInv(s) && DrainedInv(s) && Enabled(s, TakeItem) && s.t.queue != []
    ensures var s' := s.(q := Q.Do(s.q, Q.Dequeue)); StopInv(s') && DrainedInv(s') && !s.stop.Returned?
  {
    assert Q.Do(s.q, Q.Dequeue).clients == s.q.clients && Q.Do(s.q, Q.Dequeue).accepted == s.q.accepted;
  }

  lemma TakeKeeps(s: State)
    requires Inv(s) && Enabled(s, TakeItem)
    ensures Inv(Do(s, TakeItem))
  {
    TakeIsPossible(s);
    T.FullStep(s.t, T.ByThread(T.Take));
    Q.InvStep(s.q, Q.Do(s.q, Q.Dequeue));
    TakeStop(s);
  }

  lemma CallKeeps(s: State)
    requires Inv(s) && Enabled(s, CallStop)
    ensures Inv(Do(s, CallStop))
  {
    var step := Q.FlushStart(UNLOADER, true);
    Q.InvStep(s.q, Q.Do(s.q, step));
    Q.ActorOnly(s.q, step);
  }

  lemma ReturnKeeps(s: State)
    requires Inv(s) && Enabled(s, StopReturns)
    ensures Inv(Do(s, StopReturns))
  {
    var step := Q.StopJoin(UNLOADER);
    Q.InvStep(s.q, Q.Do(s.q, step));
    Q.ActorOnly(s.q, step);
    assert T.Do(s.t, T.ByExit(T.Stop)) == s.t.(exit := T.EDone);
    T.FullStep(s.t, T.ByExit(T.Stop));
  }

  lemma InvNext(s: State, s': State)
    requires Inv(s) && Next(s, s')
    ensures Inv(s')
  {
    var step :| Enabled(s, step) && s' == Do(s, step);
    match step
    case Timer(tstep) => TimerKeeps(s, tstep);
    case Queue(qstep) => QueueKeeps(s, qstep);
    case Schedule(qstep, a) => ScheduleKeeps(s, qstep, a);
    case TakeItem => TakeKeeps(s);
    case CallStop => CallKeeps(s);
    case StopReturns => ReturnKeeps(s);
  }

  lemma InitIsFine(s: State)
    requires Init(s)
    ensures Inv(s)
  {
    T.FullInit(s.t);
  }

  lemma InvOnRun(run: seq<State>, i: nat)
    requires Run(run) && i < |run|
    ensures Inv(run[i])
  {
    forall s | Init(s) ensures Inv(s) { InitIsFine(s); }
    forall s, s' | Inv(s) && Next(s, s') ensures Inv(s') { InvNext(s, s'); }
    Always(run, Init, Next, Inv, i);
  }

  /** When nv_kthread_q_stop is about to return, no timer is queued or running: the
      guard of the last step of NvkmsTimers holds. */
  lemma StopFindsQueueEmpty(run: seq<State>, i: nat)
    requires Run(run) && i < |run| && Enabled(run[i], StopReturns)
    ensures T.ExitEnabled(run[i].t, T.Stop)
  {
    InvOnRun(run, i);
  }

  /** When nv_kthread_q_stop has returned, every timer ever allocated has been freed
      exactly once, in every interleaving with the queue's own steps. */
  lemma UnloadFreesAll(run: seq<State>, i: nat, t: T.Tid)
    requires Run(run) && i < |run| && run[i].stop.Returned? && t < run[i].t.nextTimer
    ensures multiset(run[i].t.freed)[t] == 1 && !run[i].t.fault
  {
    InvOnRun(run, i);
    assert T.TimerInv(run[i].t, t);
  }
}
