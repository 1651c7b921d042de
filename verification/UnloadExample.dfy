/**
 * A complete run of the timers on the work queue, from the allocation of a timer to the
 * return of nv_kthread_q_stop.
 */
module UnloadExample {
  import opened Common
  import opened UnloadStop
  import Q = KthreadQueue
  import T = NvkmsTimers

  lemma Extend(run: seq<State>, step: Step) returns (run': seq<State>)
    requires Run(run) && Enabled(run[|run| - 1], step)
    ensures Run(run') && run' == run + [Do(run[|run| - 1], step)]
  {
    run' := run + [Do(run[|run| - 1], step)];
    assert Next(run[|run| - 1], run'[|run|]);
  }

  const NO_TIMERS := T.INITIAL

  const ONE_TIMER := NO_TIMERS.(heap := map[0 := T.Timer(None, false, false, false, T.Off)], listed := [0], queue := [0],
    owned := {0}, nextTimer := 1)

  const CHECKED := Q.State([], 0, false, Q.AtDown, map[1 := Q.InCall(Q.Checked(Q.Work(0)))], [], [], {}, [], 0, false)

  lemma CheckedIsReachable() returns (run: seq<State>)
    ensures Run(run) && run[|run| - 1] == State(CHECKED, NO_TIMERS, NotCalled)
  {
    run := [State(Q.State([], 0, false, Q.AtDown, map[], [], [], {}, [], 0, false), NO_TIMERS, NotCalled)];
    run := Extend(run, Queue(Q.ClientCheck(1, Q.Work(0))));
  }

  const QUEUED := Q.State([Q.Work(0)], 1, false, Q.AtDown, map[1 := Q.Idle], [Q.Work(0)], [], {}, [], 0, false)

  const LISTED := QUEUED.(sem := 0, clients := map[1 := Q.InCall(Q.Appended)])

  lemma ListItem()
    ensures Q.Enabled(CHECKED, Q.ClientLock(1)) && Q.Do(CHECKED, Q.ClientLock(1)) == LISTED
    ensures Q.Enabled(LISTED, Q.ClientPost(1)) && Q.Do(LISTED, Q.ClientPost(1)) == QUEUED
  {
    assert Q.Do(CHECKED, Q.ClientLock(1)).clients == LISTED.clients;
    assert Q.Do(LISTED, Q.ClientPost(1)).clients == QUEUED.clients;
  }

  lemma AllocateTimer()
    ensures T.ApiEnabled(NO_TIMERS, T.AllocTimer(None, false))
    ensures T.ApiDo(NO_TIMERS, T.AllocTimer(None, false)) == ONE_TIMER
  {
    assert T.ApiDo(NO_TIMERS, T.AllocTimer(None, false)).heap == ONE_TIMER.heap;
  }

  /** A timer is allocated and put on the queue. */
  lemma QueuedIsReachable() returns (run: seq<State>)
    ensures Run(run) && run[|run| - 1] == State(QUEUED, ONE_TIMER, NotCalled)
  {
    run := CheckedIsReachable();
    ListItem();
    AllocateTimer();
    run := Extend(run, Schedule(Q.ClientLock(1), T.AllocTimer(None, false)));
    run := Extend(run, Queue(Q.ClientPost(1)));
  }

  const TAKEN := QUEUED.(list := [], sem := 0, consumer := Q.Running(Q.NoCall), dequeued := [Q.Work(0)])

  lemma TakenIsReachable() returns (run: seq<State>)
    ensures Run(run)
    ensures run[|run| - 1] == State(TAKEN, ONE_TIMER.(queue := [], worker := T.WUnlist(0)), NotCalled)
  {
    run := QueuedIsReachable();
    run := Extend(run, Queue(Q.Down));
    run := Extend(run, Queue(Q.CheckExit));
    run := Extend(run, TakeItem);
  }

  const LET_GO := ONE_TIMER.(queue := [], worker := T.WUnlist(0), owned := {},
    heap := map[0 := T.Timer(None, true, false, false, T.Off)])

  /** The owner frees the timer while its callback begins. */
  lemma LetGoIsReachable() returns (run: seq<State>)
    ensures Run(run) && run[|run| - 1] == State(TAKEN, LET_GO, NotCalled)
  {
    run := TakenIsReachable();
    run := Extend(run, Timer(T.ByApi(T.OwnerLock)));
    run := Extend(run, Timer(T.ByApi(T.FreeTimer(0))));
    run := Extend(run, Timer(T.ByApi(T.OwnerUnlock)));
    var s := run[|run| - 1];
    assert s.t.owned == {} && s.t.heap == LET_GO.heap;
  }

  const SYNCED := LET_GO.(listed := [], worker := T.WLock(0))

  lemma SyncedIsReachable() returns (run: seq<State>)
    ensures Run(run) && run[|run| - 1] == State(TAKEN, SYNCED, NotCalled)
  {
    run := LetGoIsReachable();
    run := Extend(run, Timer(T.ByThread(T.Unlist)));
    run := Extend(run, Timer(T.ByThread(T.Sync)));
    assert run[|run| - 1].t.heap == LET_GO.heap;
  }

  const BEFORE_FREE := SYNCED.(worker := T.WFree(0), lock := Some(T.ByWorker))

  lemma BeforeFreeIsReachable() returns (run: seq<State>)
    ensures Run(run) && run[|run| - 1] == State(TAKEN, BEFORE_FREE, NotCalled)
  {
    run := SyncedIsReachable();
    run := Extend(run, Timer(T.ByThread(T.Acquire)));
    run := Extend(run, Timer(T.ByThread(T.Deref)));
    run := Extend(run, Timer(T.ByThread(T.Decide)));
  }

  const FREED := NO_TIMERS.(nextTimer := 1, freed := [0])

  const DRAINED_QUEUE := TAKEN.(consumer := Q.AtDown)

  lemma FreeTimer()
    ensures T.WorkerDo(BEFORE_FREE, T.Free) == FREED.(worker := T.WUnlock, lock := Some(T.ByWorker))
  {
    assert T.WorkerDo(BEFORE_FREE, T.Free).heap == map[];
  }

  lemma FreedIsReachable() returns (run: seq<State>)
    ensures Run(run) && run[|run| - 1] == State(DRAINED_QUEUE, FREED, NotCalled)
  {
    run := BeforeFreeIsReachable();
    FreeTimer();
    run := Extend(run, Timer(T.ByThread(T.Free)));
    run := Extend(run, Timer(T.ByThread(T.Release)));
    run := Extend(run, Queue(Q.Finish));
  }

  /** The drain finds nothing, and stop is called. */
  lemma CalledIsReachable() returns (run: seq<State>)
    ensures Run(run)
    ensures run[|run| - 1] == State(Q.Goto(DRAINED_QUEUE, 0, Q.Flushing(Q.FlushRec(1, []), Q.Append, true)),
                                    FREED.(exit := T.EStop), Called)
  {
    run := FreedIsReachable();
    run := Extend(run, Timer(T.ByExit(T.Start)));
    run := Extend(run, Timer(T.ByExit(T.Scan)));
    run := Extend(run, CallStop);
  }

  /** What a flush round of the unloading thread finds. */
  ghost predicate RoundBegins(q: Q.State) {
    && q.list == [] && q.sem == 0 && !q.shouldExit && q.consumer.AtDown? && q.accepted == q.dequeued
    && Q.Pc(q, UNLOADER).Flushing? && Q.Pc(q, UNLOADER).phase.Append?
  }

  /** Its flush item is queued, and the consumer is about to dequeue it. */
  function Marked(q: Q.State): Q.State
    requires Q.Pc(q, UNLOADER).Flushing?
  {
    var n, pc := |q.accepted|, Q.Pc(q, UNLOADER);
    Q.Goto(q, UNLOADER, Q.Flushing(pc.rec.(marks := pc.rec.marks + [n]), Q.Wait, pc.stopping)).(
      list := [Q.FlushMark(n)], accepted := q.accepted + [Q.FlushMark(n)], consumer := Q.PassedCheck)
  }

  lemma MarkRound(run: seq<State>) returns (run': seq<State>)
    requires Run(run) && RoundBegins(run[|run| - 1].q) && run[|run| - 1].t.worker.WIdle?
    ensures Run(run') && run'[|run'| - 1] == run[|run| - 1].(q := Marked(run[|run| - 1].q))
  {
    run' := Extend(run, Queue(Q.FlushLock(UNLOADER)));
    run' := Extend(run', Queue(Q.FlushPost(UNLOADER)));
    run' := Extend(run', Queue(Q.Down));
    run' := Extend(run', Queue(Q.CheckExit));
    assert run'[|run'| - 1].q.clients == Marked(run[|run| - 1].q).clients;
  }

  /** The flush item has run. */
  function MarkRun(q: Q.State): Q.State
    requires Q.Pc(q, UNLOADER).Flushing?
  {
    var n := |q.accepted|;
    Marked(q).(list := [], dequeued := q.dequeued + [Q.FlushMark(n)], completions := q.completions + {n}, consumer := Q.AtDown)
  }

  lemma RunMark(run: seq<State>) returns (run': seq<State>)
    requires Run(run) && RoundBegins(run[|run| - 1].q) && run[|run| - 1].t.worker.WIdle?
    ensures Run(run') && run'[|run'| - 1] == run[|run| - 1].(q := MarkRun(run[|run| - 1].q))
  {
    run' := MarkRound(run);
    run' := Extend(run', Queue(Q.Dequeue));
    run' := Extend(run', Queue(Q.Complete));
    run' := Extend(run', Queue(Q.Finish));
  }

  /** Its waiter goes on. */
  function RoundOver(q: Q.State): Q.State
    requires Q.Pc(q, UNLOADER).Flushing?
  {
    var pc := Q.Pc(q, UNLOADER);
    var rec := pc.rec.(marks := pc.rec.marks + [|q.accepted|]);
    Q.Goto(MarkRun(q), UNLOADER, if |rec.marks| < 2 then Q.Flushing(rec, Q.Append, pc.stopping) else Q.Flushed(rec, pc.stopping))
  }

  lemma Round(run: seq<State>) returns (run': seq<State>)
    requires Run(run) && RoundBegins(run[|run| - 1].q) && run[|run| - 1].t.worker.WIdle?
    ensures Run(run') && run'[|run'| - 1] == run[|run| - 1].(q := RoundOver(run[|run| - 1].q))
  {
    run' := RunMark(run);
    run' := Extend(run', Queue(Q.FlushWake(UNLOADER)));
  }

  /** The flush of stop is over. */
  lemma FlushedIsReachable() returns (run: seq<State>)
    ensures Run(run)
    ensures var s := run[|run| - 1];
            && s.q.list == [] && s.q.sem == 0 && !s.q.shouldExit && s.q.consumer.AtDown?
            && Q.Pc(s.q, UNLOADER).Flushed? && Q.Pc(s.q, UNLOADER).stopping
            && s.t == FREED.(exit := T.EStop) && s.stop.Called?
  {
    run := CalledIsReachable();
    run := Round(run);
    run := Round(run);
  }

  /** The exit flag is set and posted. */
  lemma PostedIsReachable() returns (run: seq<State>)
    ensures Run(run)
    ensures var s := run[|run| - 1];
            && s.q.sem == 1 && s.q.shouldExit && s.q.consumer.AtDown? && Q.Pc(s.q, UNLOADER).StopMustJoin?
            && s.t == FREED.(exit := T.EStop) && s.stop.Called?
  {
    run := FlushedIsReachable();
    run := Extend(run, Queue(Q.FlushReturn(UNLOADER)));
    run := Extend(run, Queue(Q.StopSet(UNLOADER)));
    run := Extend(run, Queue(Q.StopPost(UNLOADER)));
  }

  /** For instance: a timer is allocated, queued and freed by its owner while its callback
      begins; the module is unloaded, and stop has returned with the timer freed. */
  lemma UnloadRun() returns (run: seq<State>)
    ensures Run(run) && run[|run| - 1].stop.Returned? && run[|run| - 1].t.freed == [0] && run[|run| - 1].t.nextTimer == 1
  {
    run := PostedIsReachable();
    run := Extend(run, Queue(Q.Down));
    run := Extend(run, Queue(Q.CheckExit));
    run := Extend(run, StopReturns);
  }
}
