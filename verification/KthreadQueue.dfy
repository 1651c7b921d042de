/**
 * The nv_kthread_q work queue as a state machine.
 *
 * One consumer thread runs the main loop.  Any number of client threads
 * schedule items, flush the queue or stop it, and the item that the consumer is
 * running may itself schedule items.  A step is one access to shared state: a
 * semaphore operation, a read or write of main_loop_should_exit, or one
 * critical section of q_lock.  Appending an item and posting the semaphore for
 * it are therefore two steps, and any other thread can run between them.
 */
module KthreadQueue {
  import opened Common

  type Tid = nat

  /** A flush item lives on its caller's stack; serial makes each one distinct. */
  datatype Item = Work(id: nat) | FlushMark(serial: nat)

  /** Progress of one nv_kthread_q_schedule_q_item call. */
  datatype Call = NoCall | Checked(item: Item) | Appended

  datatype Consumer =
    | AtDown                // waiting for, or about to take, the semaphore
    | HaveToken             // took the semaphore, exit flag not read yet
    | PassedCheck           // read the exit flag as clear, list not locked yet
    | Running(call: Call)   // inside function_to_run of the last dequeued item
    | Exited

  /** What a flush remembers: how much was accepted when it was called, and the
      positions of the flush items it has queued so far. */
  datatype FlushRec = FlushRec(start: nat, marks: seq<nat>)

  datatype Phase = Append | Post | Wait

  datatype Client =
    | Idle
    | InCall(call: Call)
    | Flushing(rec: FlushRec, phase: Phase, stopping: bool)
    | Flushed(rec: FlushRec, stopping: bool)
    | StopMustSet
    | StopMustPost
    | StopMustJoin   // in kthread_stop

  /** The running item number asker asked for item to run; served is the position,
      in the order of acceptance, of the entry that will do so. */
  datatype Request = Request(asker: nat, item: Item, served: nat)

  datatype State = State(
    list: seq<Item>,
    sem: nat,
    shouldExit: bool,
    consumer: Consumer,
    clients: map<Tid, Client>,
    // History, never read by a step to decide what to do.
    accepted: seq<Item>,     // every item appended, in order
    dequeued: seq<Item>,     // every item taken, in order
    completions: set<nat>,   // positions of flush items that have completed
    requests: seq<Request>,  // what running items asked for
    stopPosts: nat,          // semaphore posts made by stop
    emptyHit: bool)          // the "Empty queue" branch was taken

  predicate Init(s: State) {
    s == State([], 0, false, AtDown, map[], [], [], {}, [], 0, false)
  }

  function Pc(s: State, t: Tid): Client {
    if t in s.clients then s.clients[t] else Idle
  }

  function Goto(s: State, t: Tid, pc: Client): State {
    s.(clients := s.clients[t := pc])
  }

  /** Position of an item that occurs in the list. */
  function Find(list: seq<Item>, item: Item): (i: nat)
    requires item in list
    ensures i < |list| && list[i] == item
  {
    if list[0] == item then 0 else 1 + Find(list[1..], item)
  }

  /** The q_lock section of _raw_q_schedule. */
  function RawSchedule(s: State, item: Item): State {
    if item in s.list then s
    else s.(list := s.list + [item], accepted := s.accepted + [item])
  }

  datatype Step =
    | Down
    | CheckExit
    | Dequeue
    | Complete
    | Finish
    | NestedCheck(item: Item)
    | NestedLock
    | NestedPost
    | ClientCheck(t: Tid, item: Item)
    | ClientLock(t: Tid)
    | ClientPost(t: Tid)
    | FlushStart(t: Tid, stopping: bool)
    | FlushLock(t: Tid)
    | FlushPost(t: Tid)
    | FlushWake(t: Tid)
    | FlushReturn(t: Tid)
    | StopSet(t: Tid)
    | StopPost(t: Tid)
    | StopJoin(t: Tid)

  predicate Enabled(s: State, step: Step) {
    match step
    case Down => s.consumer.AtDown? && s.sem > 0
    case CheckExit => s.consumer.HaveToken?
    case Dequeue => s.consumer.PassedCheck?
    case Complete =>
      s.consumer.Running? && |s.dequeued| > 0 && s.dequeued[|s.dequeued| - 1].FlushMark?
    case Finish =>
      && s.consumer == Running(NoCall) && |s.dequeued| > 0
      && (s.dequeued[|s.dequeued| - 1].FlushMark? ==> |s.dequeued| - 1 in s.completions)
    case NestedCheck(item) =>
      && s.consumer == Running(NoCall) && item.Work?
      && |s.dequeued| > 0 && s.dequeued[|s.dequeued| - 1].Work?
    case NestedLock => s.consumer.Running? && s.consumer.call.Checked? && |s.dequeued| > 0
    case NestedPost => s.consumer == Running(Appended)
    case ClientCheck(t, item) => Pc(s, t).Idle? && item.Work?
    case ClientLock(t) => Pc(s, t).InCall? && Pc(s, t).call.Checked?
    case ClientPost(t) => Pc(s, t) == InCall(Appended)
    case FlushStart(t, _) => Pc(s, t).Idle?
    case FlushLock(t) => Pc(s, t).Flushing? && Pc(s, t).phase.Append?
    case FlushPost(t) => Pc(s, t).Flushing? && Pc(s, t).phase.Post?
    case FlushWake(t) =>
      && Pc(s, t).Flushing? && Pc(s, t).phase.Wait?
      && |Pc(s, t).rec.marks| > 0
      && Pc(s, t).rec.marks[|Pc(s, t).rec.marks| - 1] in s.completions
    case FlushReturn(t) => Pc(s, t).Flushed?
    case StopSet(t) => Pc(s, t).StopMustSet?
    case StopPost(t) => Pc(s, t).StopMustPost?
    case StopJoin(t) => Pc(s, t).StopMustJoin? && s.consumer.Exited?
  }

  function Do(s: State, step: Step): State
    requires Enabled(s, step)
  {
    match step
    case Down => s.(sem := s.sem - 1, consumer := HaveToken)
    case CheckExit => s.(consumer := if s.shouldExit then Exited else PassedCheck)
    case Dequeue =>
      if s.list == [] then s.(emptyHit := true, consumer := AtDown)
      else s.(list := s.list[1..], dequeued := s.dequeued + [s.list[0]],
              consumer := Running(NoCall))
    case Complete => s.(completions := s.completions + {|s.dequeued| - 1})
    case Finish => s.(consumer := AtDown)
    case NestedCheck(item) =>
      s.(consumer := Running(if s.shouldExit then NoCall else Checked(item)))
    case NestedLock =>
      var item := s.consumer.call.item;
      var isNew := item !in s.list;
      RawSchedule(s, item).(
        consumer := Running(if isNew then Appended else NoCall),
        requests := s.requests + [Request(|s.dequeued| - 1, item,
          if isNew then |s.accepted| else |s.dequeued| + Find(s.list, item))])
    case NestedPost => s.(sem := s.sem + 1, consumer := Running(NoCall))
    case ClientCheck(t, item) =>
      Goto(s, t, if s.shouldExit then Idle else InCall(Checked(item)))
    case ClientLock(t) =>
      var item := Pc(s, t).call.item;
      Goto(RawSchedule(s, item), t, if item in s.list then Idle else InCall(Appended))
    case ClientPost(t) => Goto(s.(sem := s.sem + 1), t, Idle)
    case FlushStart(t, stopping) =>
      Goto(s, t, if s.shouldExit then Idle
                 else Flushing(FlushRec(|s.accepted|, []), Append, stopping))
    case FlushLock(t) =>
      var pc := Pc(s, t);
      Goto(RawSchedule(s, FlushMark(|s.accepted|)), t,
           pc.(phase := Post, rec := pc.rec.(marks := pc.rec.marks + [|s.accepted|])))
    case FlushPost(t) => Goto(s.(sem := s.sem + 1), t, Pc(s, t).(phase := Wait))
    case FlushWake(t) =>
      var pc := Pc(s, t);
      Goto(s, t, if |pc.rec.marks| < 2 then pc.(phase := Append)
                 else Flushed(pc.rec, pc.stopping))
    case FlushReturn(t) =>
      Goto(s, t, if Pc(s, t).stopping && !s.shouldExit then StopMustSet else Idle)
    case StopSet(t) => Goto(s.(shouldExit := true), t, StopMustPost)
    case StopPost(t) => Goto(s.(sem := s.sem + 1, stopPosts := s.stopPosts + 1), t, StopMustJoin)
    case StopJoin(t) => Goto(s, t, Idle)
  }

  ghost predicate Next(s: State, s': State) {
    exists step :: Enabled(s, step) && s' == Do(s, step)
  }

  ghost predicate Run(run: seq<State>) {
    IsRun(run, Init, Next)
  }

  /** Entry i has been run to completion by the consumer. */
  predicate Finished(s: State, i: nat) {
    i < |s.dequeued| && (s.consumer.Running? ==> i < |s.dequeued| - 1)
  }

  // ---------------------------------------------------------------------------
  // Invariants
  // ---------------------------------------------------------------------------

  /** Appended an item and still owes the semaphore post for it. */
  predicate OwesPost(c: Client) {
    c == InCall(Appended) || (c.Flushing? && c.phase.Post?)
  }

  ghost function Owing(clients: map<Tid, Client>): set<Tid> {
    set t | t in clients && OwesPost(clients[t])
  }

  function ConsumerOwes(c: Consumer): nat {
    if c == Running(Appended) then 1 else 0
  }

  /** The consumer took a post that it has not yet matched by a dequeue. */
  function TokenHeld(c: Consumer): nat {
    if c.HaveToken? || c.PassedCheck? || c.Exited? then 1 else 0
  }

  /** Schedulers that are between appending an item and posting for it. */
  ghost function InFlight(s: State): nat {
    |Owing(s.clients)| + ConsumerOwes(s.consumer)
  }

  /** The list holds exactly what was accepted and not yet taken, in order. */
  ghost predicate FifoCore(accepted: seq<Item>, dequeued: seq<Item>, list: seq<Item>) {
    && accepted == dequeued + list
    && NoDup(list)
    && forall i :: 0 <= i < |accepted| && accepted[i].FlushMark? ==> accepted[i].serial == i
  }

  predicate CallOk(call: Call) {
    call.Checked? ==> call.item.Work?
  }

  ghost predicate CallInv(s: State) {
    && (s.consumer.Running? ==> |s.dequeued| > 0 && CallOk(s.consumer.call))
    && forall t :: t in s.clients && s.clients[t].InCall? ==> CallOk(s.clients[t].call)
  }

  /** Every listed item is matched by a post that is in the semaphore, still owed,
      or held by the consumer; the posts made by stop come on top. */
  ghost predicate Balance(s: State) {
    |s.list| + s.stopPosts == s.sem + InFlight(s) + TokenHeld(s.consumer)
  }

  ghost predicate ExitInv(s: State) {
    && (s.stopPosts > 0 ==> s.shouldExit)
    && (forall t :: t in s.clients && s.clients[t].StopMustPost? ==> s.shouldExit)
    && (s.consumer.AtDown? || s.consumer.PassedCheck? || s.consumer.Running? ==> s.sem >= s.stopPosts)
    && (s.consumer.Exited? ==> s.shouldExit)
    && !s.emptyHit
  }

  /** A flush queued behind start entries.  Its first mark is behind all of them;
      once it has queued the second mark the first has completed; and whatever an
      entry before the first mark asked for is served before the second. */
  ghost predicate FlushOk(rec: FlushRec, acc: nat, completions: set<nat>, requests: seq<Request>) {
    && rec.start <= acc
    && |rec.marks| <= 2
    && (|rec.marks| >= 1 ==> rec.start <= rec.marks[0] < acc)
    && (|rec.marks| == 2 ==>
          && rec.marks[0] in completions
          && rec.marks[0] < rec.marks[1] < acc
          && forall r :: r in requests && r.asker < rec.marks[0] ==> r.served < rec.marks[1])
  }

  ghost predicate ClientOk(c: Client, acc: nat, completions: set<nat>, requests: seq<Request>) {
    match c
    case Flushing(rec, phase, _) =>
      && FlushOk(rec, acc, completions, requests)
      && (phase.Append? ==> |rec.marks| <= 1 && (|rec.marks| == 1 ==> rec.marks[0] in completions))
      && (!phase.Append? ==> |rec.marks| >= 1)
    case Flushed(rec, _) =>
      && FlushOk(rec, acc, completions, requests)
      && |rec.marks| == 2 && rec.marks[1] in completions
    case _ => true
  }

  ghost predicate LogsOk(deq: nat, acc: nat, completions: set<nat>, requests: seq<Request>) {
    && (forall k :: k in completions ==> k < deq)
    && (forall r :: r in requests ==> r.asker < deq && r.served < acc)
  }

  ghost predicate FlushInv(s: State) {
    && LogsOk(|s.dequeued|, |s.accepted|, s.completions, s.requests)
    && forall t :: t in s.clients ==> ClientOk(s.clients[t], |s.accepted|, s.completions, s.requests)
  }

  ghost predicate Inv(s: State) {
    && FifoCore(s.accepted, s.dequeued, s.list)
    && CallInv(s)
    && Balance(s)
    && ExitInv(s)
    && FlushInv(s)
  }

  lemma OwingUpdate(clients: map<Tid, Client>, t: Tid, pc: Client)
    ensures Owing(clients[t := pc]) ==
            if OwesPost(pc) then Owing(clients) + {t} else Owing(clients) - {t}
  {
  }

  /** A flush item is never refused: its stack slot is in no list yet. */
  lemma MarkIsNew(s: State)
    requires FifoCore(s.accepted, s.dequeued, s.list)
    ensures FlushMark(|s.accepted|) !in s.list
  {
    forall i | 0 <= i < |s.list|
      ensures s.list[i] != FlushMark(|s.accepted|)
    {
      assert s.list[i] == s.accepted[|s.dequeued| + i];
    }
  }

  lemma FifoAppend(s: State, item: Item)
    requires FifoCore(s.accepted, s.dequeued, s.list)
    requires item.FlushMark? ==> item.serial == |s.accepted|
    ensures var s' := RawSchedule(s, item); FifoCore(s'.accepted, s'.dequeued, s'.list)
  {
  }

  lemma FifoStep(s: State, step: Step)
    requires Inv(s) && Enabled(s, step)
    ensures var s' := Do(s, step); FifoCore(s'.accepted, s'.dequeued, s'.list)
  {
    match step
    case Dequeue =>
      if s.list != [] {
        assert s.dequeued + s.list == s.dequeued + [s.list[0]] + s.list[1..];
      }
    case NestedLock => FifoAppend(s, s.consumer.call.item);
    case ClientLock(t) => FifoAppend(s, Pc(s, t).call.item);
    case FlushLock(t) => FifoAppend(s, FlushMark(|s.accepted|));
    case _ =>
  }

  lemma CallStep(s: State, step: Step)
    requires Inv(s) && Enabled(s, step)
    ensures CallInv(Do(s, step))
  {
  }

  function Actor(step: Step): Option<Tid> {
    match step
    case ClientCheck(t, _) => Some(t)
    case ClientLock(t) => Some(t)
    case ClientPost(t) => Some(t)
    case FlushStart(t, _) => Some(t)
    case FlushLock(t) => Some(t)
    case FlushPost(t) => Some(t)
    case FlushWake(t) => Some(t)
    case FlushReturn(t) => Some(t)
    case StopSet(t) => Some(t)
    case StopPost(t) => Some(t)
    case StopJoin(t) => Some(t)
    case _ => None
  }

  /** A step changes the program counter of its own thread only. */
  lemma ActorOnly(s: State, step: Step)
    requires Enabled(s, step)
    ensures Do(s, step).clients ==
            if Actor(step).None? then s.clients
            else s.clients[Actor(step).value := Pc(Do(s, step), Actor(step).value)]
  {
  }

  lemma BalanceConsumer(s: State, step: Step)
    requires Inv(s) && Enabled(s, step) && Actor(step).None?
    ensures Balance(Do(s, step))
  {
    assert Do(s, step).clients == s.clients;
  }

  lemma BalanceClient(s: State, step: Step, t: Tid)
    requires Inv(s) && Enabled(s, step) && Actor(step) == Some(t)
    ensures Balance(Do(s, step))
  {
    var s' := Do(s, step);
    ActorOnly(s, step);
    OwingUpdate(s.clients, t, Pc(s', t));
    assert OwesPost(Pc(s, t)) <==> t in Owing(s.clients);
    if step.FlushLock? { MarkIsNew(s); }
  }

  lemma ExitStep(s: State, step: Step)
    requires Inv(s) && Enabled(s, step)
    ensures ExitInv(Do(s, step))
  {
  }

  lemma ClientOkGrows(c: Client, s: State, s': State)
    requires ClientOk(c, |s.accepted|, s.completions, s.requests)
    requires LogsOk(|s.dequeued|, |s.accepted|, s.completions, s.requests)
    requires |s.accepted| <= |s'.accepted| && s.completions <= s'.completions
    requires forall r :: r in s'.requests && r !in s.requests ==> r.asker == |s.dequeued| - 1
    ensures ClientOk(c, |s'.accepted|, s'.completions, s'.requests)
  {
  }

  lemma LogsStep(s: State, step: Step)
    requires Inv(s) && Enabled(s, step)
    ensures var s' := Do(s, step);
            && (forall r :: r in s'.requests && r !in s.requests ==> r.asker == |s.dequeued| - 1)
            && LogsOk(|s'.dequeued|, |s'.accepted|, s'.completions, s'.requests)
            && |s.accepted| <= |s'.accepted| && s.completions <= s'.completions
  {
  }

  lemma ActorOk(s: State, step: Step, t: Tid)
    requires Inv(s) && Enabled(s, step) && Actor(step) == Some(t)
    ensures var s' := Do(s, step); ClientOk(Pc(s', t), |s'.accepted|, s'.completions, s'.requests)
  {
    if t in s.clients {
      assert ClientOk(s.clients[t], |s.accepted|, s.completions, s.requests);
    }
    MarkIsNew(s);
  }

  lemma FlushStep(s: State, step: Step)
    requires Inv(s) && Enabled(s, step)
    ensures FlushInv(Do(s, step))
  {
    var s' := Do(s, step);
    ActorOnly(s, step);
    LogsStep(s, step);
    forall t | t in s'.clients
      ensures ClientOk(s'.clients[t], |s'.accepted|, s'.completions, s'.requests)
    {
      if Actor(step) == Some(t) {
        ActorOk(s, step, t);
      } else {
        ClientOkGrows(s.clients[t], s, s');
      }
    }
  }

  lemma InvStep(s: State, s': State)
    requires Inv(s) && Next(s, s')
    ensures Inv(s')
  {
    var step :| Enabled(s, step) && s' == Do(s, step);
    FifoStep(s, step);
    CallStep(s, step);
    if Actor(step).None? {
      BalanceConsumer(s, step);
    } else {
      BalanceClient(s, step, Actor(step).value);
    }
    ExitStep(s, step);
    FlushStep(s, step);
  }

  lemma InvOnRun(run: seq<State>, i: nat)
    requires Run(run) && i < |run|
    ensures Inv(run[i])
  {
    forall s, s' | Inv(s) && Next(s, s') ensures Inv(s') { InvStep(s, s'); }
    Always(run, Init, Next, Inv, i);
  }

  // ---------------------------------------------------------------------------
  // Theorems over every run
  // ---------------------------------------------------------------------------

  /** The semaphore counts list entries.  Before stop posts, the list is exactly
      as long as the posts in the semaphore, the schedulers between append and
      post, and the token of a consumer between down and dequeue.  The consumer
      that is about to dequeue finds an item, even while stop posts. */
  lemma SemaphoreInvariant(run: seq<State>, i: nat)
    requires Run(run) && i < |run|
    ensures run[i].stopPosts == 0 ==>
              |run[i].list| == run[i].sem + InFlight(run[i]) + TokenHeld(run[i].consumer)
    ensures run[i].consumer.PassedCheck? ==> run[i].list != []
    ensures !run[i].emptyHit
  {
    InvOnRun(run, i);
  }

  ghost predicate Grows(s: State, s': State) {
    s.accepted <= s'.accepted && s.dequeued <= s'.dequeued
  }

  lemma GrowsStep(s: State, step: Step)
    requires Enabled(s, step)
    ensures Grows(s, Do(s, step))
  {
    var s' := Do(s, step);
    if s'.accepted != s.accepted {
      assert s'.dequeued == s.dequeued;
      assert |s'.accepted| > 0 && s'.accepted == s.accepted + [s'.accepted[|s'.accepted| - 1]];
    } else if s'.dequeued != s.dequeued {
      assert s.list != [] && s'.dequeued == s.dequeued + [s.list[0]];
    }
  }

  lemma GrowsNext(s: State, s': State)
    requires Next(s, s')
    ensures Grows(s, s')
  {
    var step :| Enabled(s, step) && s' == Do(s, step);
    GrowsStep(s, step);
  }

  lemma GrowsOnRun(run: seq<State>, i: nat, j: nat)
    requires Run(run) && i <= j < |run|
    ensures Grows(run[i], run[j])
  {
    var since := (s: State) => Grows(run[i], s);
    forall s, s' | since(s) && Next(s, s') ensures since(s') { GrowsNext(s, s'); }
    KeptFrom(run, Init, Next, since, i, j);
  }

  /** First in, first out, and exactly once: what was taken, followed by what is
      listed, is at every moment what was accepted, in the same order; and an item
      is never listed twice. */
  lemma FifoExactlyOnce(run: seq<State>, i: nat, j: nat)
    requires Run(run) && i <= j < |run|
    ensures run[j].accepted == run[j].dequeued + run[j].list
    ensures NoDup(run[j].list)
    ensures run[i].accepted <= run[j].accepted && run[i].dequeued <= run[j].dequeued
  {
    InvOnRun(run, j);
    GrowsOnRun(run, i, j);
  }

  predicate InFlush(c: Client) {
    c.Flushing? || c.Flushed?
  }

  lemma StartStep(s: State, step: Step, t: Tid)
    requires Enabled(s, step) && InFlush(Pc(Do(s, step), t))
    ensures Pc(s, t).Idle? ==> Pc(Do(s, step), t).rec.start == |s.accepted|
    ensures InFlush(Pc(s, t)) ==> Pc(Do(s, step), t).rec.start == Pc(s, t).rec.start
  {
    ActorOnly(s, step);
    if Actor(step) != Some(t) {
      assert Pc(Do(s, step), t) == Pc(s, t);
    }
  }

  /** A flush notes the number of accepted items when it starts, and keeps it. */
  predicate KeepsStart(s: State, s': State, t: Tid) {
    InFlush(Pc(s', t)) ==>
      && (Pc(s, t).Idle? ==> Pc(s', t).rec.start == |s.accepted|)
      && (InFlush(Pc(s, t)) ==> Pc(s', t).rec.start == Pc(s, t).rec.start)
  }

  lemma KeepsStartOnRun(run: seq<State>, i: nat, t: Tid)
    requires Run(run) && i + 1 < |run|
    ensures KeepsStart(run[i], run[i + 1], t)
  {
    NextAt(run, Init, Next, i);
    var step :| Enabled(run[i], step) && run[i + 1] == Do(run[i], step);
    if InFlush(Pc(run[i + 1], t)) {
      StartStep(run[i], step, t);
    }
  }

  lemma {:induction false} StartKept(run: seq<State>, i: nat, j: nat, t: Tid)
    requires i < j < |run|
    requires forall m :: i <= m < j ==> KeepsStart(run[m], run[m + 1], t)
    requires Pc(run[i], t).Idle?
    requires forall m :: i < m <= j ==> InFlush(Pc(run[m], t))
    ensures InFlush(Pc(run[j], t)) && Pc(run[j], t).rec.start == |run[i].accepted|
    decreases j
  {
    assert KeepsStart(run[j - 1], run[j - 1 + 1], t);
    if j > i + 1 {
      StartKept(run, i, j - 1, t);
    }
  }

  /** When nv_kthread_q_flush returns, every item accepted before the call has run
      to completion, and so has every entry that one of those items asked for
      while it was running, itself included. */
  lemma DoubleFlush(run: seq<State>, i: nat, j: nat, t: Tid)
    requires Run(run) && i < j < |run|
    requires Pc(run[i], t).Idle? && Pc(run[j], t).Flushed?
    requires forall m :: i < m <= j ==> InFlush(Pc(run[m], t))
    ensures forall e: nat :: e < |run[i].accepted| ==> Finished(run[j], e)
    ensures forall r :: r in run[j].requests && r.asker < |run[i].accepted| ==>
              Finished(run[j], r.served)
  {
    InvOnRun(run, j);
    forall m | i <= m < j ensures KeepsStart(run[m], run[m + 1], t) {
      KeepsStartOnRun(run, m, t);
    }
    StartKept(run, i, j, t);
    assert ClientOk(Pc(run[j], t), |run[j].accepted|, run[j].completions, run[j].requests);
  }

  /** Whenever a running item has asked for an item, the request is on record, with an
      entry of that item that is still to be dequeued: a new one, or the one listed. */
  lemma RequestIsRecorded(s: State)
    requires Inv(s) && Enabled(s, NestedLock)
    ensures var s' := Do(s, NestedLock);
            && |s'.requests| == |s.requests| + 1 && s'.requests[..|s.requests|] == s.requests
            && var r := s'.requests[|s.requests|];
               && r.asker == |s.dequeued| - 1 && r.item == s.consumer.call.item
               && |s.dequeued| <= r.served < |s'.accepted| && s'.accepted[r.served] == r.item
  {
  }

  lemma Extend(run: seq<State>, step: Step) returns (run': seq<State>)
    requires Run(run) && Enabled(run[|run| - 1], step)
    ensures Run(run') && run' == run + [Do(run[|run| - 1], step)]
  {
    run' := run + [Do(run[|run| - 1], step)];
    assert Next(run[|run| - 1], run'[|run|]);
  }

  const STARTED := State([], 0, false, Running(NoCall), map[0 := Idle],
    [Work(7)], [Work(7)], {}, [], 0, false)

  const MARKED := State([FlushMark(1)], 0, false, Running(NoCall),
    map[0 := Idle, 1 := Flushing(FlushRec(1, [1]), Post, false)],
    [Work(7), FlushMark(1)], [Work(7)], {}, [], 0, false)

  const RESCHEDULED := State([FlushMark(1), Work(7)], 1, false, Running(NoCall),
    map[0 := Idle, 1 := Flushing(FlushRec(1, [1]), Post, false)],
    [Work(7), FlushMark(1), Work(7)], [Work(7)], {}, [Request(0, Work(7), 2)], 0, false)

  lemma StartedIsReachable() returns (run: seq<State>)
    ensures Run(run) && run[|run| - 1] == STARTED
  {
    run := [State([], 0, false, AtDown, map[], [], [], {}, [], 0, false)];
    run := Extend(run, ClientCheck(0, Work(7)));
    run := Extend(run, ClientLock(0));
    run := Extend(run, ClientPost(0));
    run := Extend(run, Down);
    run := Extend(run, CheckExit);
    run := Extend(run, Dequeue);
  }

  lemma MarkedIsReachable() returns (run: seq<State>)
    ensures Run(run) && run[|run| - 1] == MARKED
  {
    run := StartedIsReachable();
    run := Extend(run, FlushStart(1, false));
    run := Extend(run, FlushLock(1));
    var s := run[|run| - 1];
    assert Pc(s, 1).rec.marks == [1];
    assert s.clients == MARKED.clients;
  }

  lemma RescheduledIsReachable() returns (run: seq<State>)
    ensures Run(run) && run[|run| - 1] == RESCHEDULED
  {
    run := MarkedIsReachable();
    run := Extend(run, NestedCheck(Work(7)));
    run := Extend(run, NestedLock);
    run := Extend(run, NestedPost);
    var s := run[|run| - 1];
    assert s.list == RESCHEDULED.list && s.accepted == RESCHEDULED.accepted;
    assert s.requests == RESCHEDULED.requests;
  }

  /** One round would not do: here the first flush item has completed, and the
      entry that an earlier item asked for has not even started. */
  lemma OneRoundIsNotEnough() returns (run: seq<State>)
    ensures Run(run)
    ensures var s := run[|run| - 1];
            && Pc(s, 1).Flushing? && Pc(s, 1).rec.start == 1
            && |Pc(s, 1).rec.marks| == 1 && Pc(s, 1).rec.marks[0] in s.completions
            && Request(0, Work(7), 2) in s.requests && !Finished(s, 2)
  {
    run := RescheduledIsReachable();
    run := Extend(run, Finish);
    run := Extend(run, FlushPost(1));
    run := Extend(run, Down);
    run := Extend(run, CheckExit);
    run := Extend(run, Dequeue);
    run := Extend(run, Complete);
    run := Extend(run, FlushWake(1));
    var s := run[|run| - 1];
    assert s.requests[0] == Request(0, Work(7), 2);
  }

  // ---------------------------------------------------------------------------
  // Stopping
  // ---------------------------------------------------------------------------

  function One(b: bool): nat {
    if b then 1 else 0
  }

  /** Since s0, when the exit flag was set, the consumer has dequeued what it was about
      to dequeue then, and nothing else. */
  ghost predicate Winding(s0: State, s: State) {
    && s.shouldExit
    && (s.consumer.PassedCheck? ==> s0.consumer.PassedCheck? && |s.dequeued| == |s0.dequeued|)
    && (!s.consumer.PassedCheck? ==> |s.dequeued| == |s0.dequeued| + One(s0.consumer.PassedCheck?))
  }

  lemma WindingStep(s0: State, s: State, step: Step)
    requires Inv(s) && Enabled(s, step) && Winding(s0, s)
    ensures Winding(s0, Do(s, step))
  {
  }

  lemma WindingNext(s0: State, s: State, s': State)
    requires Inv(s) && Winding(s0, s) && Next(s, s')
    ensures Inv(s') && Winding(s0, s')
  {
    var step :| Enabled(s, step) && s' == Do(s, step);
    InvStep(s, s');
    WindingStep(s0, s, step);
  }

  lemma WindingOnRun(run: seq<State>, m: nat, j: nat)
    requires Run(run) && m <= j < |run| && run[m].shouldExit
    ensures Winding(run[m], run[j])
  {
    InvOnRun(run, m);
    var kept := (s: State) => Inv(s) && Winding(run[m], s);
    forall s, s' | kept(s) && Next(s, s') ensures kept(s') { WindingNext(run[m], s, s'); }
    KeptFrom(run, Init, Next, kept, m, j);
  }

  /** The exact effect of the exit flag.  Once it is set, a consumer that has passed its
      check runs one more item and no other item runs; so when the thread has exited,
      the queue is empty, with every accepted item run, if and only if no more than
      that one item was listed when the flag was set and none was accepted since. */
  lemma StopIff(run: seq<State>, m: nat, j: nat)
    requires Run(run) && m <= j < |run| && run[m].shouldExit && run[j].consumer.Exited?
    ensures run[j].list == [] <==>
              |run[m].list| == One(run[m].consumer.PassedCheck?) && run[j].accepted == run[m].accepted
    ensures run[j].list == [] <==> forall e: nat :: e < |run[j].accepted| ==> Finished(run[j], e)
  {
    InvOnRun(run, m);
    InvOnRun(run, j);
    WindingOnRun(run, m, j);
    GrowsOnRun(run, m, j);
    var n := |run[j].accepted|;
    if run[j].list != [] { assert !Finished(run[j], n - 1); }
  }

  /** What the caller of stop has to see to: if nothing but flush items was accepted
      since the call, every item has run to completion when the flush returns, and
      hence when stop does. */
  lemma StopRunsAll(run: seq<State>, i: nat, j: nat, n: nat, t: Tid, e: nat)
    requires Run(run) && i < j <= n < |run|
    requires Pc(run[i], t).Idle? && Pc(run[j], t).Flushed?
    requires forall m :: i < m <= j ==> InFlush(Pc(run[m], t))
    requires forall x: nat :: |run[i].accepted| <= x < |run[n].accepted| ==> run[n].accepted[x].FlushMark?
    requires e < |run[n].accepted| && run[n].accepted[e].Work?
    ensures Finished(run[n], e)
  {
    DoubleFlush(run, i, j, t);
    FinishedForever(run, j, n, e);
  }

  lemma FinishedNext(s: State, s': State, e: nat)
    requires Inv(s) && Finished(s, e) && Next(s, s')
    ensures Inv(s') && Finished(s', e)
  {
    var step :| Enabled(s, step) && s' == Do(s, step);
    InvStep(s, s');
    FinishedStep(s, step, e);
  }

  lemma FinishedStep(s: State, step: Step, e: nat)
    requires Inv(s) && Enabled(s, step) && Finished(s, e)
    ensures Finished(Do(s, step), e)
  {
  }

  lemma FinishedForever(run: seq<State>, i: nat, j: nat, e: nat)
    requires Run(run) && i <= j < |run| && Finished(run[i], e)
    ensures Finished(run[j], e)
  {
    InvOnRun(run, i);
    var kept := (s: State) => Inv(s) && Finished(s, e);
    forall s, s' | kept(s) && Next(s, s') ensures kept(s') { FinishedNext(s, s', e); }
    KeptFrom(run, Init, Next, kept, i, j);
  }

  const ONE_ROUND := State([], 0, false, AtDown, map[0 := Flushing(FlushRec(0, [0]), Append, true)],
    [FlushMark(0)], [FlushMark(0)], {0}, [], 0, false)

  const TWO_ROUNDS := State([], 0, false, AtDown, map[0 := Flushed(FlushRec(0, [0, 1]), true)],
    [FlushMark(0), FlushMark(1)], [FlushMark(0), FlushMark(1)], {0, 1}, [], 0, false)

  /** Thread 0 queues a flush item, and the consumer is about to dequeue it. */
  lemma Mark(run: seq<State>) returns (run': seq<State>)
    requires Run(run)
    requires var s := run[|run| - 1];
             && s.list == [] && s.sem == 0 && !s.shouldExit && s.consumer.AtDown?
             && Pc(s, 0).Flushing? && Pc(s, 0).phase.Append?
    ensures Run(run')
    ensures var s := run[|run| - 1];
            var n, pc := |s.accepted|, Pc(s, 0);
            run'[|run'| - 1] == Goto(s, 0, Flushing(pc.rec.(marks := pc.rec.marks + [n]), Wait, pc.stopping)).(
              list := [FlushMark(n)], accepted := s.accepted + [FlushMark(n)], consumer := PassedCheck)
  {
    run' := Extend(run, FlushLock(0));
    run' := Extend(run', FlushPost(0));
    run' := Extend(run', Down);
    run' := Extend(run', CheckExit);
    assert run'[|run'| - 1].clients == Goto(run[|run| - 1], 0, Pc(run'[|run'| - 1], 0)).clients;
  }

  /** One flush round of thread 0, undisturbed. */
  lemma Round(run: seq<State>) returns (run': seq<State>)
    requires Run(run)
    requires var s := run[|run| - 1];
             && s.list == [] && s.sem == 0 && !s.shouldExit && s.consumer.AtDown?
             && s.accepted == s.dequeued && Pc(s, 0).Flushing? && Pc(s, 0).phase.Append?
    ensures Run(run')
    ensures var s, s' := run[|run| - 1], run'[|run'| - 1];
            var n, pc := |s.accepted|, Pc(s, 0);
            var rec := pc.rec.(marks := pc.rec.marks + [n]);
            && s'.list == [] && s'.sem == 0 && s'.consumer.AtDown? && s'.accepted == s.accepted + [FlushMark(n)]
            && s'.dequeued == s.dequeued + [FlushMark(n)] && s'.completions == s.completions + {n}
            && s'.clients == s.clients[0 := if |rec.marks| < 2 then Flushing(rec, Append, pc.stopping) else Flushed(rec, pc.stopping)]
            && s'.requests == s.requests && s'.stopPosts == s.stopPosts && s'.emptyHit == s.emptyHit && !s'.shouldExit
  {
    run' := Mark(run);
    run' := Extend(run', Dequeue);
    run' := Extend(run', Complete);
    run' := Extend(run', Finish);
    run' := Extend(run', FlushWake(0));
  }

  lemma TwoRoundsIsReachable() returns (run: seq<State>)
    ensures Run(run) && run[|run| - 1] == TWO_ROUNDS
  {
    run := [State([], 0, false, AtDown, map[], [], [], {}, [], 0, false)];
    run := Extend(run, FlushStart(0, true));
    run := Round(run);
    assert [] + [0] == [0] && run[|run| - 1] == ONE_ROUND;
    run := Round(run);
    assert [0] + [1] == [0, 1];
  }

  /** Another thread has scheduled an item after the second round. */
  const LATE := State([Work(7)], 1, false, AtDown, map[0 := Flushed(FlushRec(0, [0, 1]), true), 1 := Idle],
    [FlushMark(0), FlushMark(1), Work(7)], [FlushMark(0), FlushMark(1)], {0, 1}, [], 0, false)

  lemma LateIsReachable() returns (run: seq<State>)
    ensures Run(run) && run[|run| - 1] == LATE
  {
    run := TwoRoundsIsReachable();
    run := Extend(run, ClientCheck(1, Work(7)));
    run := Extend(run, ClientLock(1));
    run := Extend(run, ClientPost(1));
    var s := run[|run| - 1];
    assert s.accepted == LATE.accepted && s.clients == LATE.clients;
  }

  /** An item that is accepted after the second flush round is left behind: stop has
      returned, the thread has exited, and the item has not run. */
  lemma StopLeavesWork() returns (run: seq<State>)
    ensures Run(run)
    ensures var s := run[|run| - 1];
            s.stopPosts == 1 && Pc(s, 0).Idle? && s.consumer.Exited? && s.list == [Work(7)]
  {
    run := LateIsReachable();
    run := Extend(run, FlushReturn(0));
    run := Extend(run, StopSet(0));
    run := Extend(run, StopPost(0));
    run := Extend(run, Down);
    run := Extend(run, CheckExit);
    run := Extend(run, StopJoin(0));
  }

  // ---------------------------------------------------------------------------
  // The queue object, with calls that do not overlap
  // ---------------------------------------------------------------------------

  /** The list after trying to schedule items in turn; a pending item is refused. */
  function ScheduleAll(list: seq<Item>, items: seq<Item>): seq<Item>
    decreases items
  {
    if items == [] then list
    else ScheduleAll(if items[0] in list then list else list + [items[0]], items[1..])
  }

  lemma ScheduleAllKeeps(list: seq<Item>, items: seq<Item>)
    requires NoDup(list)
    ensures list <= ScheduleAll(list, items)
    ensures NoDup(ScheduleAll(list, items))
    ensures forall x :: x in items ==> x in ScheduleAll(list, items)
    decreases items
  {
    if items != [] {
      var list' := if items[0] in list then list else list + [items[0]];
      ScheduleAllKeeps(list', items[1..]);
      assert items[0] in list' && list' <= ScheduleAll(list, items);
    }
  }

  /** The order in which the main loop runs items, when script[n] are the items that
      are scheduled in its n-th turn: while it runs an item, by the item's function or by
      other threads, or while it waits for one. */
  function Execute(list: seq<Item>, script: seq<seq<Item>>): seq<Item>
    decreases |script|, |list|
  {
    if script == [] then list
    else if list == [] then Execute(ScheduleAll([], script[0]), script[1..])
    else [list[0]] + Execute(ScheduleAll(list[1..], script[0]), script[1..])
  }

  /** What is listed before the next turn. */
  function Left(list: seq<Item>): seq<Item> {
    if list == [] then [] else list[1..]
  }

  /** Items queued when the loop starts run first, in order, whatever is scheduled
      meanwhile; what is scheduled in a turn runs after that turn. */
  lemma {:induction false} ExecuteIsFifo(list: seq<Item>, script: seq<seq<Item>>)
    requires NoDup(list)
    ensures list <= Execute(list, script)
    ensures forall n, x :: 0 <= n < |script| && x in script[n] ==> x in Execute(list, script)
    ensures list != [] && script != [] ==> forall x :: x in script[0] ==> x in Execute(list, script)[1..]
    decreases |script|, |list|
  {
    if script != [] {
      var rest := ScheduleAll(Left(list), script[0]);
      ScheduleAllKeeps(Left(list), script[0]);
      ExecuteIsFifo(rest, script[1..]);
      if list != [] {
        assert list == [list[0]] + list[1..];
        assert Execute(list, script)[1..] == Execute(rest, script[1..]);
      }
      forall n, x | 0 <= n < |script| && x in script[n] ensures x in Execute(list, script) {
        if n > 0 { assert x in script[1..][n - 1]; }
      }
    }
  }

  class WorkQueue {
    var list: seq<Item>
    var sem: nat
    var shouldExit: bool
    ghost var accepted: seq<Item>
    ghost var ran: seq<Item>

    ghost predicate Valid()
      reads this
    {
      accepted == ran + list && NoDup(list) && sem == |list|
    }

    constructor ()
      ensures Valid() && list == [] && !shouldExit && ran == []
    {
      list, sem, shouldExit := [], 0, false;
      accepted, ran := [], [];
    }

    /** Refused exactly when the item is already pending. */
    method RawSchedule(item: Item) returns (ret: bool)
      requires Valid()
      modifies this`list, this`sem, this`accepted
      ensures Valid()
      ensures ret <==> item !in old(list)
      ensures list == if ret then old(list) + [item] else old(list)
    {
      ret := true;
      if item !in list {
        list := list + [item];
        accepted := accepted + [item];
      } else {
        ret := false;
      }
      if ret {
        sem := sem + 1;
      }
    }

    /** Refused exactly when the item is pending or the queue was stopped. */
    method ScheduleItem(item: Item) returns (ret: bool)
      requires Valid()
      modifies this`list, this`sem, this`accepted
      ensures Valid()
      ensures ret <==> !shouldExit && item !in old(list)
      ensures list == if ret then old(list) + [item] else old(list)
    {
      if shouldExit {
        return false;
      }
      ret := RawSchedule(item);
    }

    /** The function_to_run of one item, which schedules items in turn; once the queue
        was stopped they are refused. */
    method RunItem(items: seq<Item>)
      requires Valid()
      modifies this`list, this`sem, this`accepted
      ensures Valid()
      ensures list == if shouldExit then old(list) else ScheduleAll(old(list), items)
    {
      var i := 0;
      while i < |items|
        invariant 0 <= i <= |items| && Valid()
        invariant shouldExit ==> list == old(list)
        invariant !shouldExit ==> ScheduleAll(list, items[i..]) == ScheduleAll(old(list), items)
      {
        var ret := ScheduleItem(items[i]);
        assert items[i..][1..] == items[i + 1..];
        i := i + 1;
      }
    }

    /** One turn of the loop after the exit check: dequeue an item and run it. */
    method Consume(items: seq<Item>)
      requires accepted == ran + list && NoDup(list) && sem + 1 == |list|
      modifies this`list, this`sem, this`accepted, this`ran
      ensures Valid()
      ensures ran == old(ran) + [old(list)[0]]
      ensures list == if shouldExit then old(list)[1..] else ScheduleAll(old(list)[1..], items)
    {
      var item := list[0];
      list, ran := list[1..], ran + [item];
      RunItem(items);
    }

    /** _main_loop, until it would block for good or sees the exit flag.  The semaphore is
        at zero while the thread waits; what others schedule then wakes it up. */
    method MainLoop(script: seq<seq<Item>>)
      requires Valid()
      modifies this`list, this`sem, this`accepted, this`ran
      ensures !shouldExit ==> Valid() && list == []
      ensures !shouldExit ==> ran == old(ran) + Execute(old(list), script)
      ensures shouldExit ==> list == old(list) && ran == old(ran)
    {
      var todo := script;
      ghost var order := ran + Execute(list, script);
      while sem > 0 || todo != []
        invariant Valid()
        invariant shouldExit ==> list == old(list) && ran == old(ran)
        invariant !shouldExit ==> ran + Execute(list, todo) == order
        decreases |todo|, |list|
      {
        var items := if todo == [] then [] else todo[0];
        OneTurn(ran, list, todo);
        if sem == 0 {
          RunItem(items);
        } else {
          sem := sem - 1;
          if shouldExit {
            break;
          }
          Consume(items);
        }
        todo := if todo == [] then [] else todo[1..];
      }
    }
  }

  /** One turn of the loop moves the first item, if there is one, from the list to the
      log. */
  lemma OneTurn(ran: seq<Item>, list: seq<Item>, script: seq<seq<Item>>)
    requires list != [] || script != []
    ensures var items, rest := if script == [] then [] else script[0], if script == [] then [] else script[1..];
            ran + Execute(list, script) ==
              (if list == [] then ran else ran + [list[0]]) + Execute(ScheduleAll(Left(list), items), rest)
  {
    if script == [] {
      assert list == [list[0]] + list[1..];
    }
  }
}
