/**
 * A close that was asked for can always be brought to its end: as long as some popen is
 * being closed or waits to be, or the queue has work, some thread can go on, and each
 * such step lowers a rank.
 */
module CloseProgress {
  import opened Common
  import opened PerOpenClose
  import Q = KthreadQueue
  import P = QueueProgress

  /** The thread that is about to call nvKmsClose for some popen. */
  ghost predicate IsClosing(s: State, t: Q.Tid) {
    exists p :: p in s.popens && s.popens[p].phase == Closing(t)
  }

  /** A step that goes on with what has begun.  Of the threads that take nvkms_lock only
      those about to call nvKmsClose do, and these do not give it back before. */
  ghost predicate GoesOn(s: State, step: Step) {
    && Enabled(s, step)
    && match step
       case OpenPopen(_, _) => false
       case Request(_, _, _) => false
       case LockBy(l) => l.Thread? && IsClosing(s, l.t)
       case Unlock => !(s.lock.value.Thread? && IsClosing(s, s.lock.value.t))
       case Queue(qstep) => P.GoesOn(s.q, qstep)
       case _ => true
  }

  // ---------------------------------------------------------------------------
  // A closing thread is in no call of the queue
  // ---------------------------------------------------------------------------

  ghost predicate CloserIdle(s: State) {
    forall p :: p in s.popens && (s.popens[p].phase.Closing? || s.popens[p].phase.Closed?) ==>
      Q.Pc(s.q, s.popens[p].phase.t).Idle?
  }

  lemma CloserIdleQueue(s: State, step: Q.Step)
    requires CloserIdle(s) && Q.Enabled(s.q, step) && Allowed(s, step)
    ensures CloserIdle(s.(q := Q.Do(s.q, step)))
  {
    Q.ActorOnly(s.q, step);
    forall p | p in s.popens && (s.popens[p].phase.Closing? || s.popens[p].phase.Closed?)
      ensures Q.Pc(Q.Do(s.q, step), s.popens[p].phase.t).Idle?
    {
      var t := s.popens[p].phase.t;
      assert CloserOf(s.popens[p].phase) == Some(t);
      assert Busy(s, t);
      if Q.Actor(step) != Some(t) { assert Q.Pc(Q.Do(s.q, step), t) == Q.Pc(s.q, t); }
    }
  }

  lemma CloserIdleStart(s: State, p: Pid)
    requires CloserIdle(s) && CloserInv(s) && Enabled(s, StartFlush(p))
    ensures CloserIdle(Do(s, StartFlush(p)))
  {
    Q.ActorOnly(s.q, Q.FlushStart(s.popens[p].phase.t, false));
  }

  lemma CloserIdleFree(s: State, p: Pid)
    requires CloserIdle(s) && CloserInv(s) && Enabled(s, FreePopen(p))
    ensures CloserIdle(Do(s, FreePopen(p)))
  {
    if s.popens[p].kernel { Q.ActorOnly(s.q, Q.FlushReturn(s.popens[p].phase.t)); }
  }

  lemma CloserIdleStep(s: State, step: Step)
    requires CloserIdle(s) && CloserInv(s) && Enabled(s, step)
    ensures CloserIdle(Do(s, step))
  {
    match step
    case Queue(qstep) => CloserIdleQueue(s, qstep);
    case StartFlush(p) => CloserIdleStart(s, p);
    case FreePopen(p) => CloserIdleFree(s, p);
    case _ =>
  }

  ghost predicate ProgressInv(s: State) {
    Inv(s) && CloserIdle(s) && P.ProgressInv(s.q) && P.CallsInv(s.q)
  }

  lemma QueueMoves(s: State, step: Step)
    requires P.ProgressInv(s.q) && P.CallsInv(s.q) && Enabled(s, step)
    ensures P.ProgressInv(Do(s, step).q) && P.CallsInv(Do(s, step).q)
  {
    match step
    case Queue(qstep) => QueueMove(s.q, qstep);
    case StartFlush(p) => QueueMove(s.q, Q.FlushStart(s.popens[p].phase.t, false));
    case FreePopen(p) => if s.popens[p].kernel { QueueMove(s.q, Q.FlushReturn(s.popens[p].phase.t)); }
    case _ =>
  }

  lemma QueueMove(q: Q.State, step: Q.Step)
    requires P.ProgressInv(q) && P.CallsInv(q) && Q.Enabled(q, step)
    ensures P.ProgressInv(Q.Do(q, step)) && P.CallsInv(Q.Do(q, step))
  {
    assert Q.Next(q, Q.Do(q, step));
    P.ProgressNext(q, Q.Do(q, step));
    P.CallsStep(q, step);
  }

  lemma ProgressStep(s: State, step: Step)
    requires ProgressInv(s) && Enabled(s, step)
    ensures ProgressInv(Do(s, step))
  {
    assert Next(s, Do(s, step));
    InvNext(s, Do(s, step));
    CloserIdleStep(s, step);
    QueueMoves(s, step);
  }

  lemma ProgressNext(s: State, s': State)
    requires ProgressInv(s) && Next(s, s')
    ensures ProgressInv(s')
  {
    var step :| Enabled(s, step) && s' == Do(s, step);
    ProgressStep(s, step);
  }

  lemma ProgressOnRun(run: seq<State>, i: nat)
    requires Run(run) && i < |run|
    ensures ProgressInv(run[i])
  {
    forall s, s' | ProgressInv(s) && Next(s, s') ensures ProgressInv(s') { ProgressNext(s, s'); }
    Always(run, Init, Next, ProgressInv, i);
  }

  // ---------------------------------------------------------------------------
  // Nobody is stuck
  // ---------------------------------------------------------------------------

  /** Every popen is open or freed, nobody holds the lock, and the queue is at rest. */
  ghost predicate AtRest(s: State) {
    && (forall p :: p in s.popens ==> s.popens[p].phase.Open? || s.popens[p].phase.Freed?)
    && s.lock.None? && P.AtRest(s.q)
  }

  /** The flush of a closing thread has returned. */
  ghost predicate FlushOver(s: State, p: Pid) {
    p in s.popens && s.popens[p].phase.Flushing? && Q.Pc(s.q, s.popens[p].phase.t).Flushed?
  }

  lemma FlushOverGoesOn(s: State, p: Pid)
    requires PopenInv(s, p) && FlushOver(s, p) && s.popens[p].kernel
    ensures GoesOn(s, FreePopen(p))
  {
  }

  /** Only kernel-space popens flush. */
  ghost predicate KernelInv(s: State) {
    forall p :: p in s.popens && s.popens[p].phase.Flushing? ==> s.popens[p].kernel
  }

  lemma KernelStep(s: State, step: Step)
    requires KernelInv(s) && Enabled(s, step)
    ensures KernelInv(Do(s, step))
  {
  }

  lemma KernelOnRun(run: seq<State>, i: nat)
    requires Run(run) && i < |run|
    ensures KernelInv(run[i])
  {
    forall s, s' | KernelInv(s) && Next(s, s') ensures KernelInv(s') {
      var step :| Enabled(s, step) && s' == Do(s, step);
      KernelStep(s, step);
    }
    Always(run, Init, Next, KernelInv, i);
  }

  lemma ConsumerLockGoesOn(s: State) returns (step: Step)
    requires ProgressInv(s) && s.lock == Some(Consumer)
    ensures GoesOn(s, step) && !step.TakeDeferred?
  {
    if s.q.consumer.call.NoCall? {
      step := Unlock;
    } else {
      P.ConsumerGoesOn(s.q);
      step := Queue(P.ConsumerStep(s.q));
    }
  }

  lemma ThreadLockGoesOn(s: State, t: Q.Tid) returns (step: Step)
    requires s.lock == Some(Thread(t)) && Q.Pc(s.q, t).Idle?
    ensures GoesOn(s, step) && !step.TakeDeferred?
  {
    if p :| p in s.popens && s.popens[p].phase == Closing(t) {
      step := KmsClose(p);
    } else {
      step := Unlock;
    }
  }

  /** A step of the queue, which is one here too unless it ends the flush of a close. */
  lemma QueueGoesOn(s: State) returns (step: Step)
    requires ProgressInv(s) && KernelInv(s) && s.lock != Some(Consumer) && !P.AtRest(s.q)
    ensures GoesOn(s, step) && !step.TakeDeferred?
  {
    var qstep := P.NextStep(s.q);
    if qstep.FlushReturn? && Busy(s, qstep.t) {
      var p :| p in s.popens && CloserOf(s.popens[p].phase) == Some(qstep.t);
      assert PopenInv(s, p);
      FlushOverGoesOn(s, p);
      step := FreePopen(p);
    } else {
      step := Queue(qstep);
    }
  }

  lemma RestIsIdle(s: State, t: Q.Tid)
    requires LiveInv(s.q) && P.AtRest(s.q)
    ensures Q.Pc(s.q, t).Idle?
  {
  }

  /** With the queue at rest and the lock free, a popen that is being closed goes on. */
  lemma CloserGoesOn(s: State, p: Pid) returns (step: Step)
    requires ProgressInv(s) && P.AtRest(s.q) && s.lock.None?
    requires p in s.popens && CloserOf(s.popens[p].phase).Some?
    ensures GoesOn(s, step) && !step.TakeDeferred?
  {
    var t := CloserOf(s.popens[p].phase).value;
    RestIsIdle(s, t);
    assert PopenInv(s, p);
    match s.popens[p].phase
    case Closing(_) =>
      assert IsClosing(s, t);
      step := LockBy(Thread(t));
    case Closed(_) => step := if s.popens[p].kernel then StartFlush(p) else FreePopen(p);
    case _ => assert false;
  }

  /** With nobody closing, an idle thread takes the first deferred close. */
  lemma DeferredGoesOn(s: State, p: Pid, t: Q.Tid)
    requires DeferredInv(s) && p in s.popens && s.popens[p].phase.Deferred? && Q.Pc(s.q, t).Idle? && !Busy(s, t)
    ensures GoesOn(s, TakeDeferred(t))
  {
    assert p in s.deferred;
    assert s.deferred[0] in s.deferred;
  }

  /** What can be done next; t is the thread that takes over a deferred close when nobody
      else is closing. */
  lemma NextStep(s: State, t: Q.Tid) returns (step: Step)
    requires ProgressInv(s) && KernelInv(s) && !AtRest(s)
    ensures GoesOn(s, step) && (step.TakeDeferred? ==> step.t == t)
  {
    if s.lock == Some(Consumer) {
      step := ConsumerLockGoesOn(s);
    } else if s.lock.Some? && Q.Pc(s.q, s.lock.value.t).Idle? {
      step := ThreadLockGoesOn(s, s.lock.value.t);
    } else if !P.AtRest(s.q) {
      step := QueueGoesOn(s);
    } else if s.lock.Some? {
      RestIsIdle(s, s.lock.value.t);
      assert false;
    } else if p :| p in s.popens && CloserOf(s.popens[p].phase).Some? {
      step := CloserGoesOn(s, p);
    } else {
      var p :| p in s.popens && !s.popens[p].phase.Open? && !s.popens[p].phase.Freed?;
      RestIsIdle(s, t);
      DeferredGoesOn(s, p, t);
      step := TakeDeferred(t);
    }
  }

  /** In every run, as long as not every popen is open or freed, or the lock is held, or the
      queue has work, some thread can go on. */
  lemma NeverStuck(run: seq<State>, i: nat)
    requires Run(run) && i < |run| && !AtRest(run[i])
    ensures exists step :: GoesOn(run[i], step)
  {
    ProgressOnRun(run, i);
    KernelOnRun(run, i);
    var step := NextStep(run[i], 0);
  }

  // ---------------------------------------------------------------------------
  // The rank
  // ---------------------------------------------------------------------------

  function PhaseLoad(ph: Phase, lock: Option<Locker>): nat {
    match ph
    case Open => 0
    case Deferred => 60
    case Closing(t) => if lock == Some(Thread(t)) then 53 else 55
    case Closed(_) => 50
    case Flushing(_) => 5
    case Freed => 0
  }

  function PopenLoad(s: State, p: Pid): nat {
    if p in s.popens then PhaseLoad(s.popens[p].phase, s.lock) else 0
  }

  function Sum(s: State, m: nat): nat {
    if m == 0 then 0 else Sum(s, m - 1) + PopenLoad(s, m - 1)
  }

  function Load(s: State, n: nat, m: nat): nat {
    P.Load(s.q, n) + One(s.lock.Some?) + Sum(s, m)
  }

  lemma {:induction false} SumSame(s: State, s': State, m: nat)
    requires forall p: nat :: p < m ==> PopenLoad(s', p) == PopenLoad(s, p)
    ensures Sum(s', m) == Sum(s, m)
  {
    if m > 0 { SumSame(s, s', m - 1); }
  }

  lemma {:induction false} SumUpdate(s: State, s': State, m: nat, p: Pid)
    requires p < m && forall x: nat :: x != p ==> PopenLoad(s', x) == PopenLoad(s, x)
    ensures Sum(s', m) + PopenLoad(s, p) == Sum(s, m) + PopenLoad(s', p)
  {
    if p < m - 1 { SumUpdate(s, s', m - 1, p); } else { SumSame(s, s', m - 1); }
  }

  /** Threads are below n and popens below m. */
  ghost predicate Bounded(s: State, n: nat, m: nat) {
    && P.Below(s.q, n)
    && forall p :: p in s.popens ==> p < m && (CloserOf(s.popens[p].phase).Some? ==> CloserOf(s.popens[p].phase).value < n)
  }

  lemma QueueFalls(s: State, qstep: Q.Step, n: nat, m: nat)
    requires ProgressInv(s) && Bounded(s, n, m) && GoesOn(s, Queue(qstep))
    ensures Load(Do(s, Queue(qstep)), n, m) < Load(s, n, m)
    ensures Bounded(Do(s, Queue(qstep)), n, m)
  {
    P.StaysBelow(s.q, qstep, n);
    P.RankFalls(s.q, qstep, n);
    SumSame(s, Do(s, Queue(qstep)), m);
  }

  lemma LockFalls(s: State, t: Q.Tid, n: nat, m: nat)
    requires ProgressInv(s) && Bounded(s, n, m) && GoesOn(s, LockBy(Thread(t)))
    ensures Load(Do(s, LockBy(Thread(t))), n, m) < Load(s, n, m)
  {
    var s' := Do(s, LockBy(Thread(t)));
    var p :| p in s.popens && s.popens[p].phase == Closing(t);
    forall x: nat | x != p ensures PopenLoad(s', x) == PopenLoad(s, x) {
      if x in s.popens { assert CloserOf(s.popens[p].phase) != CloserOf(s.popens[x].phase); }
    }
    SumUpdate(s, s', m, p);
  }

  lemma UnlockFalls(s: State, n: nat, m: nat)
    requires GoesOn(s, Unlock)
    ensures Load(Do(s, Unlock), n, m) < Load(s, n, m)
  {
    var s' := Do(s, Unlock);
    forall x: nat | x < m ensures PopenLoad(s', x) == PopenLoad(s, x) {
      if x in s.popens && s.popens[x].phase.Closing? { assert s.lock != Some(Thread(s.popens[x].phase.t)); }
    }
    SumSame(s, s', m);
  }

  /** The queue's share when a closing thread starts or ends its flush. */
  lemma FlushLoad(q: Q.State, t: Q.Tid, n: nat)
    requires t < n && LiveInv(q)
    ensures Q.Enabled(q, Q.FlushStart(t, false)) ==> P.Load(Q.Do(q, Q.FlushStart(t, false)), n) == P.Load(q, n) + 38
    ensures Q.Enabled(q, Q.FlushReturn(t)) ==> P.Load(Q.Do(q, Q.FlushReturn(t)), n) + 6 == P.Load(q, n)
  {
    if Q.Enabled(q, Q.FlushStart(t, false)) {
      var q' := Q.Do(q, Q.FlushStart(t, false));
      Q.ActorOnly(q, Q.FlushStart(t, false));
      P.SumUpdate(q, q', n, t);
    }
    if Q.Enabled(q, Q.FlushReturn(t)) {
      var q' := Q.Do(q, Q.FlushReturn(t));
      assert t in q.clients;
      Q.ActorOnly(q, Q.FlushReturn(t));
      P.SumUpdate(q, q', n, t);
    }
  }

  /** The popen that a step of the close moves on. */
  function Mover(s: State, step: Step): Option<Pid> {
    match step
    case TakeDeferred(_) => if s.deferred == [] then None else Some(s.deferred[0])
    case KmsClose(p) => Some(p)
    case StartFlush(p) => Some(p)
    case FreePopen(p) => Some(p)
    case _ => None
  }

  lemma MovesOne(s: State, step: Step, p: Pid)
    requires Enabled(s, step) && Mover(s, step) == Some(p)
    ensures Do(s, step).lock == s.lock && p in s.popens
    ensures Do(s, step).popens == s.popens[p := s.popens[p].(phase := Do(s, step).popens[p].phase)]
  {
  }

  lemma StartLoads(s: State, p: Pid, n: nat)
    requires LiveInv(s.q) && Enabled(s, StartFlush(p)) && s.popens[p].phase.t < n
    ensures var s' := Do(s, StartFlush(p));
            P.Load(s'.q, n) + PopenLoad(s', p) < P.Load(s.q, n) + PopenLoad(s, p)
  {
    FlushLoad(s.q, s.popens[p].phase.t, n);
  }

  lemma FreeLoads(s: State, p: Pid, n: nat)
    requires LiveInv(s.q) && Enabled(s, FreePopen(p)) && s.popens[p].phase.t < n
    ensures var s' := Do(s, FreePopen(p));
            P.Load(s'.q, n) + PopenLoad(s', p) < P.Load(s.q, n) + PopenLoad(s, p)
  {
    if s.popens[p].kernel { FlushLoad(s.q, s.popens[p].phase.t, n); }
  }

  lemma StageLoads(s: State, step: Step, p: Pid)
    requires Enabled(s, step) && Mover(s, step) == Some(p) && (step.TakeDeferred? || step.KmsClose?)
    requires step.TakeDeferred? ==> s.popens[p].phase.Deferred?
    ensures Do(s, step).q == s.q && PopenLoad(Do(s, step), p) < PopenLoad(s, p)
  {
  }

  /** The load of the popen and that of the queue. */
  lemma MoverLoads(s: State, step: Step, n: nat, p: Pid)
    requires LiveInv(s.q) && DeferredInv(s) && Enabled(s, step) && Mover(s, step) == Some(p)
    requires p in s.popens && CloserOf(s.popens[p].phase).Some? ==> CloserOf(s.popens[p].phase).value < n
    ensures P.Load(Do(s, step).q, n) + PopenLoad(Do(s, step), p) < P.Load(s.q, n) + PopenLoad(s, p)
  {
    match step
    case TakeDeferred(_) =>
      assert s.deferred[0] in s.deferred;
      StageLoads(s, step, p);
    case KmsClose(_) => StageLoads(s, step, p);
    case StartFlush(_) => StartLoads(s, p, n);
    case FreePopen(_) => FreeLoads(s, p, n);
  }

  lemma MoverFalls(s: State, step: Step, n: nat, m: nat, p: Pid)
    requires ProgressInv(s) && KernelInv(s) && Bounded(s, n, m) && GoesOn(s, step) && Mover(s, step) == Some(p)
    ensures Load(Do(s, step), n, m) < Load(s, n, m)
  {
    MovesOne(s, step, p);
    MoverLoads(s, step, n, p);
    SumUpdate(s, Do(s, step), m, p);
  }

  /** Every step that goes on with something lowers the rank, counted over any number of
      threads and popens that includes all there are. */
  lemma RankFalls(s: State, step: Step, n: nat, m: nat)
    requires ProgressInv(s) && KernelInv(s) && Bounded(s, n, m) && GoesOn(s, step)
    ensures Load(Do(s, step), n, m) < Load(s, n, m)
  {
    match step
    case Queue(qstep) => QueueFalls(s, qstep, n, m);
    case LockBy(l) => LockFalls(s, l.t, n, m);
    case Unlock => UnlockFalls(s, n, m);
    case TakeDeferred(_) => MoverFalls(s, step, n, m, s.deferred[0]);
    case KmsClose(p) => MoverFalls(s, step, n, m, p);
    case StartFlush(p) => MoverFalls(s, step, n, m, p);
    case FreePopen(p) => MoverFalls(s, step, n, m, p);
  }

  lemma StaysBounded(s: State, step: Step, n: nat, m: nat)
    requires ProgressInv(s) && Bounded(s, n, m) && GoesOn(s, step) && (step.TakeDeferred? ==> step.t < n)
    ensures Bounded(Do(s, step), n, m)
  {
    match step
    case Queue(qstep) => QueueFalls(s, qstep, n, m);
    case StartFlush(p) => Q.ActorOnly(s.q, Q.FlushStart(s.popens[p].phase.t, false));
    case FreePopen(p) => if s.popens[p].kernel { Q.ActorOnly(s.q, Q.FlushReturn(s.popens[p].phase.t)); }
    case _ =>
  }

  lemma Extend(run: seq<State>, step: Step) returns (run': seq<State>)
    requires Run(run) && Enabled(run[|run| - 1], step)
    ensures Run(run') && run' == run + [Do(run[|run| - 1], step)]
  {
    run' := run + [Do(run[|run| - 1], step)];
    assert Next(run[|run| - 1], run'[|run|]);
  }

  lemma {:induction false} SettleWithin(run: seq<State>, n: nat, m: nat) returns (run': seq<State>)
    requires Run(run) && Bounded(run[|run| - 1], n, m) && n > 0
    ensures Run(run') && run <= run' && AtRest(run'[|run'| - 1])
    decreases Load(run[|run| - 1], n, m)
  {
    var s := run[|run| - 1];
    if AtRest(s) {
      run' := run;
    } else {
      ProgressOnRun(run, |run| - 1);
      KernelOnRun(run, |run| - 1);
      var step := NextStep(s, 0);
      StaysBounded(s, step, n, m);
      RankFalls(s, step, n, m);
      run' := Extend(run, step);
      run' := SettleWithin(run', n, m);
    }
  }

  lemma SomeBounds(s: State) returns (n: nat, m: nat)
    ensures Bounded(s, n, m) && n > 0
  {
    var closers := set p | p in s.popens && CloserOf(s.popens[p].phase).Some? :: CloserOf(s.popens[p].phase).value;
    n := P.SomeBound(s.q.clients.Keys + closers);
    m := P.SomeBound(s.popens.Keys);
    forall p | p in s.popens && CloserOf(s.popens[p].phase).Some? ensures CloserOf(s.popens[p].phase).value < n {
      assert CloserOf(s.popens[p].phase).value in closers;
    }
    n := n + 1;
  }

  /** Every close that was asked for can be completed: any run can be continued, without
      new calls, to one at whose end the popen has been freed. */
  lemma CanClose(run: seq<State>, p: Pid) returns (run': seq<State>)
    requires Run(run) && p in run[|run| - 1].popens && !run[|run| - 1].popens[p].phase.Open?
    ensures Run(run') && run <= run'
    ensures p in run'[|run'| - 1].popens && run'[|run'| - 1].popens[p].phase.Freed?
  {
    var n, m := SomeBounds(run[|run| - 1]);
    run' := SettleWithin(run, n, m);
    ReachedOnRun(run', |run| - 1, |run'| - 1, p, 1);
  }

  /** A popen with an event on its way, whose close has been deferred. */
  ghost predicate EventOnItsWay(s: State, p: Pid) {
    p in s.popens && s.popens[p].kernel && s.popens[p].phase.Deferred? && Pending(s.q, EventItem(p))
  }

  const EMPTY_QUEUE := Q.State([], 0, false, Q.AtDown, map[], [], [], {}, [], 0, false)

  /** Thread 5 holds the lock, with a popen open. */
  const LOCKED := State(EMPTY_QUEUE, map[0 := Popen(true, Open)], [], Some(Thread(5)), [], [])

  lemma LockedIsReachable() returns (run: seq<State>)
    ensures Run(run) && run[|run| - 1] == LOCKED
  {
    run := [State(EMPTY_QUEUE, map[], [], None, [], [])];
    run := Extend(run, OpenPopen(0, true));
    run := Extend(run, LockBy(Thread(5)));
  }

  const EVENT_QUEUE := Q.State([Q.Work(1)], 1, false, Q.AtDown, map[5 := Q.Idle], [Q.Work(1)], [], {}, [], 0, false)

  /** Scheduling an item on the empty queue. */
  lemma ScheduleEvent()
    ensures Q.Enabled(EMPTY_QUEUE, Q.ClientCheck(5, Q.Work(1)))
    ensures var q1 := Q.Do(EMPTY_QUEUE, Q.ClientCheck(5, Q.Work(1)));
            && Q.Enabled(q1, Q.ClientLock(5))
            && var q2 := Q.Do(q1, Q.ClientLock(5));
               Q.Enabled(q2, Q.ClientPost(5)) && Q.Do(q2, Q.ClientPost(5)) == EVENT_QUEUE
  {
    var q1 := Q.Do(EMPTY_QUEUE, Q.ClientCheck(5, Q.Work(1)));
    var q2 := Q.Do(q1, Q.ClientLock(5));
    assert Q.Do(q2, Q.ClientPost(5)).clients == EVENT_QUEUE.clients;
  }

  lemma ScheduledIsReachable() returns (run: seq<State>)
    ensures Run(run) && run[|run| - 1] == LOCKED.(q := EVENT_QUEUE)
  {
    run := LockedIsReachable();
    ScheduleEvent();
    run := Extend(run, Queue(Q.ClientCheck(5, Q.Work(1))));
    run := Extend(run, Queue(Q.ClientLock(5)));
    run := Extend(run, Queue(Q.ClientPost(5)));
  }

  lemma DeferredIsReachable() returns (run: seq<State>)
    ensures Run(run) && EventOnItsWay(run[|run| - 1], 0)
  {
    run := ScheduledIsReachable();
    run := Extend(run, Unlock);
    run := Extend(run, Request(0, 5, false));
  }

  /** For instance: a run in which a popen is opened, an event for it is scheduled, its
      close is deferred, and in the end it has been freed, after the event has run. */
  lemma DeferredCloseRun() returns (run: seq<State>, i: nat)
    ensures Run(run) && i < |run| && EventOnItsWay(run[i], 0)
    ensures multiset(run[|run| - 1].closes)[0] == 1 && multiset(run[|run| - 1].frees)[0] == 1
    ensures !Pending(run[|run| - 1].q, EventItem(0))
  {
    var start := DeferredIsReachable();
    i := |start| - 1;
    run := CanClose(start, 0);
    CloseSafety(run, |run| - 1, 0);
  }
}
