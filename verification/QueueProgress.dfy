/**
 * No wakeup of the work queue is lost: while the queue is not stopped and something is
 * left to do, some thread can go on, each such step lowers a rank, and at rest every
 * accepted item has run and every flush has returned.  A flush beside a stop, on the
 * other hand, can hang.
 */
module QueueProgress {
  import opened Common
  import opened KthreadQueue

  /** Steps by which a call begins. */
  predicate Begins(step: Step) {
    step.ClientCheck? || step.NestedCheck? || step.FlushStart?
  }

  /** A flush item completes once; the model lets the step be repeated. */
  predicate Repeats(s: State, step: Step) {
    step.Complete? && |s.dequeued| - 1 in s.completions
  }

  /** A step that goes on with what has begun and does not stop the queue. */
  predicate GoesOn(s: State, step: Step) {
    Enabled(s, step) && !Begins(step) && !Repeats(s, step) && !step.StopSet?
  }

  // ---------------------------------------------------------------------------
  // The rank
  // ---------------------------------------------------------------------------

  function CallLoad(call: Call): nat {
    match call
    case NoCall => 0
    case Checked(_) => 12
    case Appended => 1
  }

  function RoundsLeft(rec: FlushRec): nat {
    if |rec.marks| <= 2 then 2 - |rec.marks| else 0
  }

  function ClientLoad(c: Client): nat {
    match c
    case Idle => 0
    case InCall(call) => CallLoad(call)
    case Flushing(rec, phase, _) =>
      15 * RoundsLeft(rec) + (match phase case Append => 8 case Post => 11 case Wait => 10)
    case Flushed(_, _) => 6
    case StopMustSet => 4
    case StopMustPost => 3
    case StopMustJoin => 2
  }

  /** The consumer is in a flush item that has not completed yet. */
  predicate InMark(s: State) {
    && s.consumer.Running? && |s.dequeued| > 0
    && s.dequeued[|s.dequeued| - 1].FlushMark? && |s.dequeued| - 1 !in s.completions
  }

  function ConsumerLoad(s: State): nat {
    match s.consumer
    case AtDown => 3
    case HaveToken => 2
    case PassedCheck => 1
    case Running(call) => 5 + CallLoad(call) + One(InMark(s))
    case Exited => 0
  }

  /** The loads of the threads below n. */
  function Sum(s: State, n: nat): nat {
    if n == 0 then 0 else Sum(s, n - 1) + ClientLoad(Pc(s, n - 1))
  }

  function Load(s: State, n: nat): nat {
    10 * |s.list| + ConsumerLoad(s) + Sum(s, n)
  }

  lemma {:induction false} SumSame(s: State, s': State, n: nat)
    requires forall t: nat :: t < n ==> Pc(s', t) == Pc(s, t)
    ensures Sum(s', n) == Sum(s, n)
  {
    if n > 0 { SumSame(s, s', n - 1); }
  }

  lemma {:induction false} SumUpdate(s: State, s': State, n: nat, t: Tid)
    requires t < n && forall x: nat :: x != t ==> Pc(s', x) == Pc(s, x)
    ensures Sum(s', n) + ClientLoad(Pc(s, t)) == Sum(s, n) + ClientLoad(Pc(s', t))
  {
    if t < n - 1 { SumUpdate(s, s', n - 1, t); } else { SumSame(s, s', n - 1); }
  }

  lemma ConsumerFalls(s: State, step: Step)
    requires Inv(s) && GoesOn(s, step) && Actor(step).None?
    ensures 10 * |Do(s, step).list| + ConsumerLoad(Do(s, step)) < 10 * |s.list| + ConsumerLoad(s)
  {
  }

  lemma ClientFalls(s: State, step: Step, t: Tid)
    requires Inv(s) && GoesOn(s, step) && Actor(step) == Some(t)
    ensures var s' := Do(s, step);
            && ConsumerLoad(s') == ConsumerLoad(s)
            && 10 * |s'.list| + ClientLoad(Pc(s', t)) < 10 * |s.list| + ClientLoad(Pc(s, t))
  {
    if t in s.clients { assert ClientOk(s.clients[t], |s.accepted|, s.completions, s.requests); }
  }

  /** Every step that goes on with something lowers the rank, counted over any number of
      threads that includes the one that takes it. */
  lemma RankFalls(s: State, step: Step, n: nat)
    requires Inv(s) && GoesOn(s, step) && (Actor(step).Some? ==> Actor(step).value < n)
    ensures Load(Do(s, step), n) < Load(s, n)
  {
    var s' := Do(s, step);
    ActorOnly(s, step);
    if Actor(step).None? {
      ConsumerFalls(s, step);
      SumSame(s, s', n);
    } else {
      var t := Actor(step).value;
      ClientFalls(s, step, t);
      SumUpdate(s, s', n, t);
    }
  }

  // ---------------------------------------------------------------------------
  // Flush items complete when they run
  // ---------------------------------------------------------------------------

  ghost predicate MarksOf(c: Client, accepted: seq<Item>) {
    InFlush(c) ==> forall k :: 0 <= k < |c.rec.marks| ==>
      c.rec.marks[k] < |accepted| && accepted[c.rec.marks[k]].FlushMark?
  }

  ghost predicate MarkInv(s: State) {
    && (forall e: nat :: e < |s.dequeued| && Finished(s, e) && s.dequeued[e].FlushMark? ==> e in s.completions)
    && (forall t :: t in s.clients ==> MarksOf(s.clients[t], s.accepted))
    && (forall t :: t in s.clients && s.clients[t].StopMustJoin? ==> s.shouldExit)
  }

  lemma MarksGrow(c: Client, a: seq<Item>, b: seq<Item>)
    requires MarksOf(c, a) && a <= b
    ensures MarksOf(c, b)
  {
  }

  lemma MarksActor(s: State, step: Step, t: Tid)
    requires Inv(s) && MarkInv(s) && Enabled(s, step) && Actor(step) == Some(t)
    ensures MarksOf(Pc(Do(s, step), t), Do(s, step).accepted)
    ensures Pc(Do(s, step), t).StopMustJoin? ==> Do(s, step).shouldExit
  {
    if t in s.clients { assert MarksOf(s.clients[t], s.accepted); }
    if step.FlushLock? { MarkIsNew(s); }
  }

  lemma MarkDone(s: State, step: Step, e: nat)
    requires Inv(s) && MarkInv(s) && Enabled(s, step)
    requires var s' := Do(s, step); e < |s'.dequeued| && Finished(s', e) && s'.dequeued[e].FlushMark?
    ensures e in Do(s, step).completions
  {
  }

  lemma MarkStep(s: State, step: Step)
    requires Inv(s) && MarkInv(s) && Enabled(s, step)
    ensures MarkInv(Do(s, step))
  {
    var s' := Do(s, step);
    ActorOnly(s, step);
    GrowsStep(s, step);
    forall e: nat | e < |s'.dequeued| && Finished(s', e) && s'.dequeued[e].FlushMark? ensures e in s'.completions {
      MarkDone(s, step, e);
    }
    forall t | t in s'.clients
      ensures MarksOf(s'.clients[t], s'.accepted) && (s'.clients[t].StopMustJoin? ==> s'.shouldExit)
    {
      if Actor(step) == Some(t) {
        MarksActor(s, step, t);
      } else {
        MarksGrow(s.clients[t], s.accepted, s'.accepted);
        ExitStays(s, step);
      }
    }
  }

  lemma ExitStays(s: State, step: Step)
    requires Enabled(s, step)
    ensures s.shouldExit ==> Do(s, step).shouldExit
    ensures Do(s, step).shouldExit ==> s.shouldExit || step.StopSet?
  {
  }

  ghost predicate ProgressInv(s: State) {
    Inv(s) && MarkInv(s)
  }

  lemma ProgressNext(s: State, s': State)
    requires ProgressInv(s) && Next(s, s')
    ensures ProgressInv(s')
  {
    var step :| Enabled(s, step) && s' == Do(s, step);
    InvStep(s, s');
    MarkStep(s, step);
  }

  lemma ProgressOnRun(run: seq<State>, i: nat)
    requires Run(run) && i < |run|
    ensures ProgressInv(run[i])
  {
    forall s, s' | ProgressInv(s) && Next(s, s') ensures ProgressInv(s') { ProgressNext(s, s'); }
    Always(run, Init, Next, ProgressInv, i);
  }

  // ---------------------------------------------------------------------------
  // Nobody is stuck
  // ---------------------------------------------------------------------------

  /** Nothing is listed, the thread waits for work, and nobody is in a call; a caller of
      stop may be about to stop the queue. */
  ghost predicate AtRest(s: State) {
    && s.list == [] && s.consumer.AtDown?
    && forall t :: t in s.clients ==> s.clients[t].Idle? || s.clients[t].StopMustSet?
  }

  function ConsumerStep(s: State): Step {
    match s.consumer
    case AtDown => Down
    case HaveToken => CheckExit
    case PassedCheck => Dequeue
    case Running(NoCall) => if InMark(s) then Complete else Finish
    case Running(Checked(_)) => NestedLock
    case Running(Appended) => NestedPost
    case Exited => Down
  }

  lemma ConsumerGoesOn(s: State)
    requires ProgressInv(s) && !s.consumer.Exited? && (s.consumer.AtDown? ==> s.sem > 0)
    ensures GoesOn(s, ConsumerStep(s))
  {
  }

  /** A thread that has appended and not posted can post. */
  lemma OwingGoesOn(s: State)
    requires InFlight(s) > 0 && !s.consumer.Running?
    ensures exists step :: GoesOn(s, step)
  {
    assert Owing(s.clients) != {};
    var t :| t in Owing(s.clients);
    if s.clients[t].InCall? { assert GoesOn(s, ClientPost(t)); } else { assert GoesOn(s, FlushPost(t)); }
  }

  function ClientStep(c: Client, t: Tid): Step {
    match c
    case Idle => ClientPost(t)
    case InCall(_) => ClientLock(t)
    case Flushing(_, phase, _) => (match phase case Append => FlushLock(t) case Post => FlushPost(t) case Wait => FlushWake(t))
    case Flushed(_, _) => FlushReturn(t)
    case StopMustSet => StopSet(t)
    case StopMustPost => StopPost(t)
    case StopMustJoin => StopJoin(t)
  }

  /** A call in progress has checked or appended its item. */
  ghost predicate CallsInv(s: State) {
    forall t :: t in s.clients && s.clients[t].InCall? ==> !s.clients[t].call.NoCall?
  }

  lemma CallsStep(s: State, step: Step)
    requires CallsInv(s) && Enabled(s, step)
    ensures CallsInv(Do(s, step))
  {
    ActorOnly(s, step);
  }

  lemma CallsOnRun(run: seq<State>, i: nat)
    requires Run(run) && i < |run|
    ensures CallsInv(run[i])
  {
    forall s, s' | CallsInv(s) && Next(s, s') ensures CallsInv(s') {
      var step :| Enabled(s, step) && s' == Do(s, step);
      CallsStep(s, step);
    }
    Always(run, Init, Next, CallsInv, i);
  }

  /** On an empty queue whose thread waits, a flush that waits for its item finds it
      completed. */
  lemma WaiterGoesOn(s: State, t: Tid)
    requires ProgressInv(s) && s.list == [] && s.consumer.AtDown?
    requires t in s.clients && s.clients[t].Flushing? && s.clients[t].phase.Wait?
    ensures Enabled(s, FlushWake(t))
  {
    var c := s.clients[t];
    assert ClientOk(c, |s.accepted|, s.completions, s.requests) && MarksOf(c, s.accepted);
    var e := c.rec.marks[|c.rec.marks| - 1];
    assert s.dequeued == s.accepted;
    assert Finished(s, e);
  }

  lemma ClientGoesOn(s: State, t: Tid)
    requires ProgressInv(s) && CallsInv(s) && !s.shouldExit && s.list == [] && s.consumer.AtDown? && InFlight(s) == 0
    requires t in s.clients && !s.clients[t].Idle? && !s.clients[t].StopMustSet?
    ensures GoesOn(s, ClientStep(s.clients[t], t))
  {
    var c := s.clients[t];
    assert t !in Owing(s.clients);
    if c.Flushing? && c.phase.Wait? { WaiterGoesOn(s, t); }
  }

  lemma NextStep(s: State) returns (step: Step)
    requires ProgressInv(s) && CallsInv(s) && !s.shouldExit && !AtRest(s)
    ensures GoesOn(s, step)
  {
    if !s.consumer.AtDown? || s.sem > 0 {
      ConsumerGoesOn(s);
      step := ConsumerStep(s);
    } else if InFlight(s) > 0 {
      OwingGoesOn(s);
      step :| GoesOn(s, step);
    } else {
      var t :| t in s.clients && !s.clients[t].Idle? && !s.clients[t].StopMustSet?;
      ClientGoesOn(s, t);
      step := ClientStep(s.clients[t], t);
    }
  }

  /** In every run, while the queue is not stopped and not at rest, some thread can go on
      with what it has begun: no wakeup is lost, and no flush waits in vain. */
  lemma NeverStuck(run: seq<State>, i: nat)
    requires Run(run) && i < |run| && !run[i].shouldExit && !AtRest(run[i])
    ensures exists step :: GoesOn(run[i], step)
  {
    ProgressOnRun(run, i);
    CallsOnRun(run, i);
    var step := NextStep(run[i]);
  }

  /** At rest every accepted entry has run to completion. */
  lemma RestMeansRun(run: seq<State>, i: nat, e: nat)
    requires Run(run) && i < |run| && AtRest(run[i])
    ensures e < |run[i].accepted| ==> Finished(run[i], e)
    ensures run[i].dequeued == run[i].accepted
  {
    InvOnRun(run, i);
  }

  /** All threads that have ever called are below n. */
  ghost predicate Below(s: State, n: nat) {
    forall t :: t in s.clients ==> t < n
  }

  lemma StaysBelow(s: State, step: Step, n: nat)
    requires Below(s, n) && GoesOn(s, step)
    ensures Actor(step).Some? ==> Actor(step).value < n
    ensures Below(Do(s, step), n) && (Do(s, step).shouldExit ==> s.shouldExit)
  {
    ActorOnly(s, step);
    ExitStays(s, step);
  }

  lemma {:induction false} SomeBound(s: set<Tid>) returns (n: nat)
    ensures forall t :: t in s ==> t < n
    decreases |s|
  {
    if s == {} {
      n := 0;
    } else {
      var t :| t in s;
      var m := SomeBound(s - {t});
      n := if m <= t then t + 1 else m;
      assert forall x :: x in s ==> x == t || x in s - {t};
    }
  }

  lemma {:induction false} SettleWithin(run: seq<State>, n: nat) returns (run': seq<State>)
    requires Run(run) && !run[|run| - 1].shouldExit && Below(run[|run| - 1], n)
    ensures Run(run') && run <= run' && AtRest(run'[|run'| - 1])
    decreases Load(run[|run| - 1], n)
  {
    var s := run[|run| - 1];
    if AtRest(s) {
      run' := run;
    } else {
      NeverStuck(run, |run| - 1);
      var step :| GoesOn(s, step);
      StaysBelow(s, step, n);
      InvOnRun(run, |run| - 1);
      RankFalls(s, step, n);
      run' := Extend(run, step);
      run' := SettleWithin(run', n);
    }
  }

  /** Every run that has not stopped the queue can be continued, without new calls, until
      everything accepted has run and every flush has returned. */
  lemma CanSettle(run: seq<State>) returns (run': seq<State>)
    requires Run(run) && !run[|run| - 1].shouldExit
    ensures Run(run') && run <= run' && AtRest(run'[|run'| - 1])
  {
    var n := SomeBound(run[|run| - 1].clients.Keys);
    run' := SettleWithin(run, n);
  }

  // ---------------------------------------------------------------------------
  // A flush beside a stop
  // ---------------------------------------------------------------------------

  /** t waits for a flush item that has not completed, and the thread has exited. */
  ghost predicate Hangs(s: State, t: Tid) {
    && s.consumer.Exited? && Pc(s, t).Flushing? && Pc(s, t).phase.Wait?
    && |Pc(s, t).rec.marks| > 0 && Pc(s, t).rec.marks[|Pc(s, t).rec.marks| - 1] !in s.completions
  }

  lemma HangsNext(s: State, s': State, t: Tid)
    requires Hangs(s, t) && Next(s, s')
    ensures Hangs(s', t)
  {
    var step :| Enabled(s, step) && s' == Do(s, step);
    ActorOnly(s, step);
    if Actor(step) != Some(t) { assert Pc(s', t) == Pc(s, t); }
  }

  /** Such a flush never returns. */
  lemma HangsForever(run: seq<State>, i: nat, j: nat, t: Tid)
    requires Run(run) && i <= j < |run| && Hangs(run[i], t)
    ensures Hangs(run[j], t)
  {
    var kept := (s: State) => Hangs(s, t);
    forall s, s' | kept(s) && Next(s, s') ensures kept(s') { HangsNext(s, s', t); }
    KeptFrom(run, Init, Next, kept, i, j);
  }

  const BESIDE := State([], 0, true, AtDown,
    map[0 := StopMustPost, 1 := Flushing(FlushRec(2, []), Append, false)],
    [FlushMark(0), FlushMark(1)], [FlushMark(0), FlushMark(1)], {0, 1}, [], 0, false)

  lemma BesideIsReachable() returns (run: seq<State>)
    ensures Run(run) && run[|run| - 1] == BESIDE
  {
    run := TwoRoundsIsReachable();
    run := Extend(run, FlushStart(1, false));
    run := Extend(run, FlushReturn(0));
    run := Extend(run, StopSet(0));
    assert run[|run| - 1].clients == BESIDE.clients;
  }

  const APPENDED_LATE := State([FlushMark(2)], 1, true, AtDown,
    map[0 := StopMustPost, 1 := Flushing(FlushRec(2, [2]), Wait, false)],
    [FlushMark(0), FlushMark(1), FlushMark(2)], [FlushMark(0), FlushMark(1)], {0, 1}, [], 0, false)

  lemma AppendedLateIsReachable() returns (run: seq<State>)
    ensures Run(run) && run[|run| - 1] == APPENDED_LATE
  {
    run := BesideIsReachable();
    run := Extend(run, FlushLock(1));
    run := Extend(run, FlushPost(1));
    var s := run[|run| - 1];
    assert [] + [2] == [2] && s.clients == APPENDED_LATE.clients && s.accepted == APPENDED_LATE.accepted;
  }

  /** A flush that has read the exit flag before stop sets it, and appends its item after
      that, hangs. */
  lemma FlushBesideStop() returns (run: seq<State>)
    ensures Run(run) && Hangs(run[|run| - 1], 1) && Pc(run[|run| - 1], 0).Idle?
  {
    run := AppendedLateIsReachable();
    run := Extend(run, StopPost(0));
    run := Extend(run, Down);
    run := Extend(run, CheckExit);
    run := Extend(run, StopJoin(0));
  }

  /** Exactly when: a flush that waits when the thread has exited hangs if and only if,
      when the exit flag was set, its item was behind the one item of a consumer past its
      check, or not accepted yet. */
  lemma HangsIff(run: seq<State>, m: nat, j: nat, t: Tid)
    requires Run(run) && m <= j < |run| && run[m].shouldExit && run[j].consumer.Exited?
    requires Pc(run[j], t).Flushing? && Pc(run[j], t).phase.Wait?
    ensures |Pc(run[j], t).rec.marks| > 0
    ensures Hangs(run[j], t) <==>
              Pc(run[j], t).rec.marks[|Pc(run[j], t).rec.marks| - 1] >= |run[m].dequeued| + One(run[m].consumer.PassedCheck?)
  {
    ProgressOnRun(run, j);
    WindingOnRun(run, m, j);
    var s := run[j];
    assert t in s.clients;
    var c := s.clients[t];
    assert ClientOk(c, |s.accepted|, s.completions, s.requests) && MarksOf(c, s.accepted);
    var e := c.rec.marks[|c.rec.marks| - 1];
    if e < |s.dequeued| { assert Finished(s, e) && s.dequeued[e] == s.accepted[e]; }
  }
}
