/**
 * Delivery of flip events: the commit path and the flip event handler of one DRM
 * device as small steps over the shared flip lists.
 *
 * Each CRTC has a commit path, which the CRTC lock makes exclusive, and a flip
 * event handler.  Both run concurrently with each other and with every other
 * CRTC.  The device-wide event_lock has an explicit owner; a critical section of
 * the per-CRTC flip_list_lock is one step.
 */
module FlipQueue {
  import opened Common

  type Id = nat
  type CrtcId = nat

  /** A flip object whose commit has stored the event (or its absence) in it. */
  datatype Flip = Flip(id: Id, event: bool)

  /** An element of flip_list; index 0 of a list is its head. */
  datatype Entry = Entry(flip: Flip, pending: nat, deferred: seq<Flip>)

  datatype Commit =
    | NoCommit
    | Admitted(id: Id, nonblock: bool)       // past the -EBUSY check
    | Queued(n: nat, nonblock: bool)         // flip listed, hardware not told yet
    | MustDefer(flip: Flip, nonblock: bool)  // no hardware event, list not looked at yet
    | MustSend(flip: Flip, nonblock: bool)   // saw an empty list
    | Sending(flip: Flip, nonblock: bool)    // holds event_lock
    | SentLocked(flip: Flip, nonblock: bool) // holds event_lock, event sent
    | MustFree(flip: Flip, nonblock: bool)
    | Waiting(nonblock: bool)

  datatype Handler =
    | HIdle
    | HLocked                              // holds event_lock, nothing dequeued yet
    | HOwn(flip: Flip, rest: seq<Flip>)    // dequeued flip, its event comes next
    | HRest(flip: Flip, rest: seq<Flip>)   // its deferred flips come next
    | HNone                                // this event retired no flip

  datatype Crtc = Crtc(
    nextId: Id,
    states: set<Id>,       // flips of duplicated CRTC states that are not committed
    flips: seq<Entry>,
    commit: Commit,
    handler: Handler,
    zombies: set<Id>,      // flips whose handler has unlocked and not yet freed them
    hw: nat,               // flip events the hardware has still to raise
    // History.
    committed: seq<Flip>,
    sent: seq<Flip>,
    freed: seq<Id>,
    badDequeue: bool)      // dequeue met an empty list or a zero counter

  datatype Step =
    | Duplicate
    | Destroy(id: Id)
    | Begin(id: Id, nonblock: bool)
    | Apply(event: bool, n: nat)
    | Submit
    | Defer
    | LockSend
    | Send
    | UnlockSend
    | SkipSend
    | FreeSent
    | Finish
    | Timeout
    | LockEvent
    | Dequeue
    | SendOwn
    | SendDeferred
    | UnlockEvent
    | FreeZombie(id: Id)

  const FRESH_CRTC := Crtc(0, {}, [], NoCommit, HIdle, {}, 0, [], [], [], false)

  /** list_add to the deferred list of the last entry. */
  function DeferTo(flips: seq<Entry>, f: Flip): seq<Entry>
    requires flips != []
  {
    var last := flips[|flips| - 1];
    flips[..|flips| - 1] + [last.(deferred := [f] + last.deferred)]
  }

  /** nv_drm_crtc_dequeue_flip: count one event off the head, in 32 bits, and take
      the head off the list when its counter reaches zero. */
  function TakeFirst(flips: seq<Entry>): (r: (seq<Entry>, Option<Entry>)) {
    if flips == [] then ([], None)
    else
      var left := (flips[0].pending - 1) % 0x1_0000_0000;
      if left == 0 then (flips[1..], Some(flips[0]))
      else ([flips[0].(pending := left)] + flips[1..], None)
  }

  predicate Enabled(c: Crtc, step: Step, lockFree: bool) {
    match step
    case Duplicate => true
    case Destroy(id) => id in c.states
    case Begin(id, _) => c.commit.NoCommit? && id in c.states
    case Apply(_, n) => c.commit.Admitted? && n < 0x1_0000_0000  // a uint32_t counter
    case Submit => c.commit.Queued?
    case Defer => c.commit.MustDefer?
    case LockSend => c.commit.MustSend? && c.commit.flip.event && lockFree
    case Send => c.commit.Sending?
    case UnlockSend => c.commit.SentLocked?
    case SkipSend => c.commit.MustSend? && !c.commit.flip.event
    case FreeSent => c.commit.MustFree?
    case Finish => c.commit.Waiting? && (c.commit.nonblock || c.flips == [])
    case Timeout => c.commit.Waiting? && !c.commit.nonblock
    case LockEvent => c.handler.HIdle? && c.hw > 0 && lockFree
    case Dequeue => c.handler.HLocked? && c.hw > 0
    case SendOwn => c.handler.HOwn?
    case SendDeferred => c.handler.HRest? && c.handler.rest != []
    case UnlockEvent => c.handler.HNone? || (c.handler.HRest? && c.handler.rest == [])
    case FreeZombie(id) => id in c.zombies
  }

  /** What is delivered for f: its event, if it has one. */
  function Event(f: Flip): seq<Flip> {
    if f.event then [f] else []
  }

  function Ev(s: seq<Flip>): seq<Flip> {
    if s == [] then [] else Event(s[0]) + Ev(s[1..])
  }

  function Do(c: Crtc, step: Step): Crtc
    requires Enabled(c, step, true)
  {
    match step
    case Duplicate => c.(nextId := c.nextId + 1, states := c.states + {c.nextId})
    case Destroy(id) => c.(states := c.states - {id}, freed := c.freed + [id])
    case Begin(id, nonblock) =>
      if nonblock && c.flips != [] then c  // -EBUSY
      else c.(states := c.states - {id}, commit := Admitted(id, nonblock))
    case Apply(event, n) =>
      var f := Flip(c.commit.id, event);
      if n > 0 then
        c.(committed := c.committed + [f], flips := [Entry(f, n, [])] + c.flips,
           commit := Queued(n, c.commit.nonblock))
      else
        c.(committed := c.committed + [f], commit := MustDefer(f, c.commit.nonblock))
    case Submit => c.(hw := c.hw + c.commit.n, commit := Waiting(c.commit.nonblock))
    case Defer =>
      if c.flips != [] then
        c.(flips := DeferTo(c.flips, c.commit.flip), commit := Waiting(c.commit.nonblock))
      else c.(commit := MustSend(c.commit.flip, c.commit.nonblock))
    case LockSend => c.(commit := Sending(c.commit.flip, c.commit.nonblock))
    case Send =>
      c.(sent := c.sent + [c.commit.flip], commit := SentLocked(c.commit.flip, c.commit.nonblock))
    case UnlockSend => c.(commit := MustFree(c.commit.flip, c.commit.nonblock))
    case SkipSend => c.(commit := MustFree(c.commit.flip, c.commit.nonblock))
    case FreeSent =>
      c.(freed := c.freed + [c.commit.flip.id], commit := Waiting(c.commit.nonblock))
    case Finish => c.(commit := NoCommit)
    case Timeout => c.(commit := NoCommit)
    case LockEvent => c.(handler := HLocked)
    case Dequeue =>
      var (rest, out) := TakeFirst(c.flips);
      c.(hw := c.hw - 1, flips := rest,
         handler := if out.None? then HNone else HOwn(out.value.flip, out.value.deferred),
         badDequeue := c.badDequeue || c.flips == [] || c.flips[0].pending == 0)
    case SendOwn =>
      c.(sent := c.sent + Event(c.handler.flip), handler := HRest(c.handler.flip, c.handler.rest))
    case SendDeferred =>
      var d := c.handler.rest[0];
      c.(sent := c.sent + Event(d), freed := c.freed + [d.id],
         handler := HRest(c.handler.flip, c.handler.rest[1..]))
    case UnlockEvent =>
      if c.handler.HNone? then c.(handler := HIdle)
      else c.(handler := HIdle, zombies := c.zombies + {c.handler.flip.id})
    case FreeZombie(id) => c.(zombies := c.zombies - {id}, freed := c.freed + [id])
  }

  // ---------------------------------------------------------------------------
  // The device: many CRTCs and one event_lock
  // ---------------------------------------------------------------------------

  datatype Owner = HandlerOf(c: CrtcId) | CommitOf(c: CrtcId)

  datatype Device = Device(crtcs: map<CrtcId, Crtc>, eventLock: Option<Owner>)

  predicate Init(d: Device) {
    && d.eventLock == None
    && forall k :: k in d.crtcs ==> d.crtcs[k] == FRESH_CRTC
  }

  function LockAfter(d: Device, k: CrtcId, step: Step): Option<Owner> {
    match step
    case LockEvent => Some(HandlerOf(k))
    case LockSend => Some(CommitOf(k))
    case UnlockEvent => None
    case UnlockSend => None
    case _ => d.eventLock
  }

  predicate DeviceStep(d: Device, k: CrtcId, step: Step, d': Device) {
    && k in d.crtcs
    && Enabled(d.crtcs[k], step, d.eventLock.None?)
    && d' == Device(d.crtcs[k := Do(d.crtcs[k], step)], LockAfter(d, k, step))
  }

  ghost predicate Next(d: Device, d': Device) {
    exists k, step :: DeviceStep(d, k, step, d')
  }

  ghost predicate Run(run: seq<Device>) {
    IsRun(run, Init, Next)
  }

  // ---------------------------------------------------------------------------
  // Where flips and events are
  // ---------------------------------------------------------------------------

  function Bundle(e: Entry): seq<Flip> {
    [e.flip] + e.deferred
  }

  /** The flips of a list in the order in which the handler will reach them. */
  function Listed(flips: seq<Entry>): seq<Flip> {
    if flips == [] then [] else Bundle(flips[0]) + Listed(flips[1..])
  }

  function HandlerUnsent(h: Handler): seq<Flip> {
    match h
    case HOwn(f, rest) => [f] + rest
    case HRest(_, rest) => rest
    case _ => []
  }

  /** Flips in the order in which their events will be delivered. */
  function Service(c: Crtc): seq<Flip> {
    HandlerUnsent(c.handler) + Listed(c.flips)
  }

  function CommitUnsent(m: Commit): seq<Flip> {
    match m
    case MustDefer(f, _) => [f]
    case MustSend(f, _) => [f]
    case Sending(f, _) => [f]
    case _ => []
  }

  function One(b: bool): nat {
    if b then 1 else 0
  }

  /** How often flip object x occurs in s; with ev, only flips with an event count. */
  function Occurs(s: seq<Flip>, x: Id, ev: bool): nat {
    if s == [] then 0 else Hit(s[0], x, ev) + Occurs(s[1..], x, ev)
  }

  function Hit(f: Flip, x: Id, ev: bool): nat {
    One(f.id == x && (ev ==> f.event))
  }

  function CommitHolds(m: Commit, x: Id): bool {
    match m
    case NoCommit => false
    case Admitted(id, _) => id == x
    case Queued(_, _) => false
    case Waiting(_) => false
    case MustDefer(f, _) => f.id == x
    case MustSend(f, _) => f.id == x
    case Sending(f, _) => f.id == x
    case SentLocked(f, _) => f.id == x
    case MustFree(f, _) => f.id == x
  }

  function HandlerHolds(h: Handler, x: Id): nat {
    match h
    case HOwn(f, rest) => One(f.id == x) + Occurs(rest, x, false)
    case HRest(f, rest) => One(f.id == x) + Occurs(rest, x, false)
    case _ => 0
  }

  /** How often flip object x occurs over all the places that can hold one. */
  ghost function Places(c: Crtc, x: Id): nat {
    One(x in c.states) + One(CommitHolds(c.commit, x)) + Occurs(Listed(c.flips), x, false)
    + HandlerHolds(c.handler, x) + One(x in c.zombies) + multiset(c.freed)[x]
  }

  lemma OccursConcat(a: seq<Flip>, b: seq<Flip>, x: Id, ev: bool)
    ensures Occurs(a + b, x, ev) == Occurs(a, x, ev) + Occurs(b, x, ev)
  {
    if a == [] {
      assert a + b == b;
    } else {
      assert (a + b)[1..] == a[1..] + b;
    }
  }

  lemma EvConcat(a: seq<Flip>, b: seq<Flip>)
    ensures Ev(a + b) == Ev(a) + Ev(b)
  {
    if a == [] {
      assert a + b == b;
    } else {
      assert (a + b)[1..] == a[1..] + b;
    }
  }

  lemma ListedSnoc(a: seq<Entry>, e: Entry)
    ensures Listed(a + [e]) == Listed(a) + Bundle(e)
  {
    if a == [] {
      assert a + [e] == [e];
    } else {
      assert (a + [e])[1..] == a[1..] + [e];
      ListedSnoc(a[1..], e);
    }
  }

  /** Deferring puts the flip right behind the last listed flip. */
  lemma ListedDefer(a: seq<Entry>, last: Entry, f: Flip)
    ensures Listed(a + [last]) == (Listed(a) + [last.flip]) + last.deferred
    ensures Listed(DeferTo(a + [last], f)) == ((Listed(a) + [last.flip]) + [f]) + last.deferred
  {
    ListedSnoc(a, last);
    var last' := last.(deferred := [f] + last.deferred);
    assert DeferTo(a + [last], f) == a + [last'];
    ListedSnoc(a, last');
  }

  // ---------------------------------------------------------------------------
  // Ownership
  // ---------------------------------------------------------------------------

  lemma OccursDefer(flips: seq<Entry>, f: Flip, x: Id, ev: bool)
    requires flips != []
    ensures Occurs(Listed(DeferTo(flips, f)), x, ev) == Occurs(Listed(flips), x, ev) + Hit(f, x, ev)
  {
    var a, last := flips[..|flips| - 1], flips[|flips| - 1];
    assert flips == a + [last];
    ListedDefer(a, last, f);
    var front := Listed(a) + [last.flip];
    OccursConcat(front, last.deferred, x, ev);
    OccursConcat(front, [f], x, ev);
    OccursConcat(front + [f], last.deferred, x, ev);
  }

  lemma OccursHead(flips: seq<Entry>, x: Id, ev: bool)
    requires flips != []
    ensures Occurs(Listed(flips), x, ev) ==
            Hit(flips[0].flip, x, ev) + Occurs(flips[0].deferred, x, ev) + Occurs(Listed(flips[1..]), x, ev)
  {
    OccursConcat(Bundle(flips[0]), Listed(flips[1..]), x, ev);
    assert Bundle(flips[0])[1..] == flips[0].deferred;
  }

  predicate IsHandlerStep(step: Step) {
    step.LockEvent? || step.Dequeue? || step.SendOwn? || step.SendDeferred? || step.UnlockEvent?
  }

  predicate IsStoreStep(step: Step) {
    step.Duplicate? || step.Destroy? || step.Begin? || step.FreeZombie?
  }

  lemma PlacesDequeue(c: Crtc, x: Id)
    requires Enabled(c, Dequeue, true)
    ensures Places(Do(c, Dequeue), x) == Places(c, x)
  {
    var c' := Do(c, Dequeue);
    if c.flips != [] {
      OccursHead(c.flips, x, false);
      if c'.handler.HNone? { OccursHead(c'.flips, x, false); }
    }
  }

  lemma PlacesHandler(c: Crtc, step: Step, x: Id)
    requires Enabled(c, step, true) && IsHandlerStep(step)
    requires c.handler.HRest? && c.handler.rest == [] ==> c.handler.flip.id !in c.zombies
    ensures Places(Do(c, step), x) == Places(c, x)
  {
    if step.Dequeue? { PlacesDequeue(c, x); }
  }

  lemma PlacesStore(c: Crtc, step: Step, x: Id)
    requires Enabled(c, step, true) && IsStoreStep(step) && c.nextId !in c.states
    ensures Places(Do(c, step), x) == Places(c, x) + One(step.Duplicate? && x == c.nextId)
  {
  }

  lemma PlacesCommit(c: Crtc, step: Step, x: Id)
    requires Enabled(c, step, true) && !IsHandlerStep(step) && !IsStoreStep(step)
    ensures Places(Do(c, step), x) == Places(c, x)
  {
    var c' := Do(c, step);
    if step.Apply? && step.n > 0 {
      OccursHead(c'.flips, x, false);
      assert c'.flips[1..] == c.flips;
    }
    if step.Defer? && c.flips != [] { OccursDefer(c.flips, c.commit.flip, x, false); }
  }

  /** Every step moves flip objects between places; none is lost or duplicated. */
  lemma PlacesStep(c: Crtc, step: Step, x: Id)
    requires Enabled(c, step, true)
    requires c.nextId !in c.states
    requires c.handler.HRest? && c.handler.rest == [] ==> c.handler.flip.id !in c.zombies
    ensures Places(Do(c, step), x) == Places(c, x) + One(step.Duplicate? && x == c.nextId)
  {
    if IsHandlerStep(step) {
      PlacesHandler(c, step, x);
    } else if IsStoreStep(step) {
      PlacesStore(c, step, x);
    } else {
      PlacesCommit(c, step, x);
    }
  }

  // ---------------------------------------------------------------------------
  // Events
  // ---------------------------------------------------------------------------

  function HandlerEvents(h: Handler, x: Id): nat {
    match h
    case HOwn(f, rest) => Hit(f, x, true) + Occurs(rest, x, true)
    case HRest(_, rest) => Occurs(rest, x, true)
    case _ => 0
  }

  function CommitEvents(m: Commit, x: Id): nat {
    match m
    case MustDefer(f, _) => Hit(f, x, true)
    case MustSend(f, _) => Hit(f, x, true)
    case Sending(f, _) => Hit(f, x, true)
    case _ => 0
  }

  /** Sent events and events still in a place make up the committed events. */
  ghost predicate EventsLaw(c: Crtc, x: Id) {
    Occurs(c.sent, x, true) + HandlerEvents(c.handler, x)
    + Occurs(Listed(c.flips), x, true) + CommitEvents(c.commit, x)
    == Occurs(c.committed, x, true)
  }

  lemma OccursEvent(s: seq<Flip>, f: Flip, x: Id)
    ensures Occurs(s + Event(f), x, true) == Occurs(s, x, true) + Hit(f, x, true)
    ensures Occurs(s + [f], x, true) == Occurs(s, x, true) + Hit(f, x, true)
  {
    OccursConcat(s, [f], x, true);
    if !f.event { assert s + Event(f) == s; }
  }

  lemma EventsDequeue(c: Crtc, x: Id)
    requires Enabled(c, Dequeue, true) && EventsLaw(c, x)
    ensures EventsLaw(Do(c, Dequeue), x)
  {
    var c' := Do(c, Dequeue);
    if c.flips != [] {
      OccursHead(c.flips, x, true);
      if c'.handler.HNone? { OccursHead(c'.flips, x, true); }
    }
  }

  lemma EventsSend(c: Crtc, step: Step, x: Id)
    requires Enabled(c, step, true) && EventsLaw(c, x)
    requires step.SendOwn? || step.SendDeferred? || step.Send?
    ensures EventsLaw(Do(c, step), x)
  {
    var f := if step.Send? then c.commit.flip
             else if step.SendOwn? then c.handler.flip else c.handler.rest[0];
    OccursEvent(c.sent, f, x);
  }

  lemma EventsApply(c: Crtc, step: Step, x: Id)
    requires Enabled(c, step, true) && EventsLaw(c, x) && step.Apply?
    ensures EventsLaw(Do(c, step), x)
  {
    OccursEvent(c.committed, Flip(c.commit.id, step.event), x);
    if step.n > 0 {
      var c' := Do(c, step);
      OccursHead(c'.flips, x, true);
      assert c'.flips[1..] == c.flips;
    }
  }

  lemma EventsDefer(c: Crtc, x: Id)
    requires Enabled(c, Defer, true) && EventsLaw(c, x)
    ensures EventsLaw(Do(c, Defer), x)
  {
    if c.flips != [] {
      OccursDefer(c.flips, c.commit.flip, x, true);
    }
  }

  lemma EventsStep(c: Crtc, step: Step, x: Id)
    requires Enabled(c, step, true) && EventsLaw(c, x)
    ensures EventsLaw(Do(c, step), x)
  {
    match step
    case Dequeue => EventsDequeue(c, x);
    case SendOwn => EventsSend(c, step, x);
    case SendDeferred => EventsSend(c, step, x);
    case Send => EventsSend(c, step, x);
    case Apply(_, _) => EventsApply(c, step, x);
    case Defer => EventsDefer(c, x);
    case _ =>
  }

  /** A committed flip was committed once, and is in no uncommitted place. */
  ghost predicate CommittedOnce(c: Crtc, x: Id) {
    && Occurs(c.committed, x, false) <= 1
    && (Occurs(c.committed, x, false) == 1 ==>
          x < c.nextId && x !in c.states && c.commit != Admitted(x, true) && c.commit != Admitted(x, false))
  }

  ghost predicate OwnedOnce(c: Crtc) {
    forall x: Id :: Places(c, x) == One(x < c.nextId)
  }

  lemma CommittedStep(c: Crtc, step: Step, x: Id)
    requires Enabled(c, step, true) && OwnedOnce(c) && CommittedOnce(c, x)
    ensures CommittedOnce(Do(c, step), x)
  {
    assert Places(c, x) == One(x < c.nextId);
    if step.Apply? {
      OccursConcat(c.committed, [Flip(c.commit.id, step.event)], x, false);
    }
  }

  // ---------------------------------------------------------------------------
  // Pending hardware events
  // ---------------------------------------------------------------------------

  function PendingSum(flips: seq<Entry>): nat {
    if flips == [] then 0 else flips[0].pending + PendingSum(flips[1..])
  }

  function Unsubmitted(m: Commit): nat {
    if m.Queued? then m.n else 0
  }

  /** The counters of the listed flips add up to the events still to come, and
      every listed flip waits for at least one of them. */
  ghost predicate PendingLaw(c: Crtc) {
    && PendingSum(c.flips) == c.hw + Unsubmitted(c.commit)
    && Counting(c.flips)
    && (c.handler.HLocked? ==> c.hw > 0)
    && !c.badDequeue
  }

  lemma PendingDefer(flips: seq<Entry>, f: Flip)
    requires flips != []
    ensures PendingSum(DeferTo(flips, f)) == PendingSum(flips)
    ensures Counting(flips) ==> Counting(DeferTo(flips, f))
  {
    if |flips| > 1 {
      PendingDefer(flips[1..], f);
      assert DeferTo(flips, f) == [flips[0]] + DeferTo(flips[1..], f);
    }
  }

  predicate Counting(flips: seq<Entry>) {
    forall e :: e in flips ==> 0 < e.pending < 0x1_0000_0000
  }

  lemma PendingTake(flips: seq<Entry>)
    requires flips != [] && Counting(flips)
    ensures var rest := TakeFirst(flips).0;
            PendingSum(rest) == PendingSum(flips) - 1 && Counting(rest)
  {
    var rest := TakeFirst(flips).0;
    assert forall e :: e in flips[1..] ==> e in flips;
    if flips[0].pending > 1 {
      assert rest[1..] == flips[1..];
    }
  }

  lemma PendingStep(c: Crtc, step: Step)
    requires Enabled(c, step, true) && PendingLaw(c)
    ensures PendingLaw(Do(c, step))
  {
    match step
    case Apply(_, n) =>
      if n > 0 { assert Do(c, step).flips[1..] == c.flips; }
    case Defer =>
      if c.flips != [] { PendingDefer(c.flips, c.commit.flip); }
    case Dequeue =>
      assert c.flips != [];
      PendingTake(c.flips);
    case _ => assert Do(c, step).flips == c.flips;
  }

  // ---------------------------------------------------------------------------
  // Delivery order
  // ---------------------------------------------------------------------------

  /** Events sent so far, then those in the lists in the order they will be sent. */
  function Delivery(c: Crtc): seq<Flip> {
    c.sent + Ev(Service(c))
  }

  predicate HandlerLocks(c: Crtc) {
    !c.handler.HIdle?
  }

  predicate CommitLocks(c: Crtc) {
    c.commit.Sending? || c.commit.SentLocked?
  }

  /** The step puts an event in front of one that is already in line: a hardware flip
      with an event while an event is listed, or an event deferred behind a flip that
      already has one deferred behind it. */
  predicate Overtakes(c: Crtc, step: Step) {
    || (step.Apply? && step.n > 0 && step.event && Ev(Listed(c.flips)) != [])
    || (step.Defer? && c.commit.MustDefer? && c.commit.flip.event && c.flips != []
        && Ev(c.flips[|c.flips| - 1].deferred) != [])
  }

  /** Events sent, in line, and held by the commit are the committed events, in the
      order of their commits. */
  ghost predicate OrderLaw(c: Crtc) {
    Delivery(c) + Ev(CommitUnsent(c.commit)) == Ev(c.committed)
  }

  /** Whoever delivers at once saw an empty list, which only a commit can fill; and
      what the commit holds was committed last. */
  ghost predicate HeldLaw(c: Crtc) {
    && (c.commit.MustSend? || c.commit.Sending? ==> c.flips == [])
    && (c.commit.Sending? ==> c.commit.flip.event)
    && (CommitUnsent(c.commit) != [] ==> c.committed != [] && c.committed[|c.committed| - 1] == c.commit.flip)
  }

  lemma HeldStep(c: Crtc, step: Step)
    requires Enabled(c, step, true) && HeldLaw(c)
    ensures HeldLaw(Do(c, step))
  {
  }

  lemma EvSnoc(s: seq<Flip>, f: Flip)
    ensures Ev(s + [f]) == Ev(s) + Event(f)
  {
    EvConcat(s, [f]);
  }

  lemma EvCons(f: Flip, s: seq<Flip>)
    ensures Ev([f] + s) == Event(f) + Ev(s)
  {
    assert ([f] + s)[1..] == s;
  }

  lemma EvOne(f: Flip)
    ensures Ev([f]) == Event(f)
  {
    EvSnoc([], f);
    assert [] + [f] == [f];
  }

  /** A flip put in front of flips without events delivers last. */
  lemma LastInLine(sent: seq<Flip>, a: seq<Flip>, f: Flip, b: seq<Flip>)
    requires f.event ==> Ev(b) == []
    ensures sent + Ev(a + [f] + b) == sent + Ev(a + b) + Event(f)
  {
    EvInsert(a, f, b);
  }

  lemma ServiceApply(c: Crtc, step: Step)
    requires Enabled(c, step, true) && step.Apply? && step.n > 0
    ensures Service(Do(c, step)) == HandlerUnsent(c.handler) + [Flip(c.commit.id, step.event)] + Listed(c.flips)
  {
    assert Do(c, step).flips[1..] == c.flips;
  }

  /** A listed flip comes last in line if no event is listed. */
  lemma DeliveryListed(c: Crtc, step: Step)
    requires Enabled(c, step, true) && step.Apply? && step.n > 0 && !Overtakes(c, step)
    ensures Delivery(Do(c, step)) == Delivery(c) + Event(Flip(c.commit.id, step.event))
  {
    ServiceApply(c, step);
    LastInLine(c.sent, HandlerUnsent(c.handler), Flip(c.commit.id, step.event), Listed(c.flips));
  }

  lemma OrderApplyListed(c: Crtc, step: Step)
    requires Enabled(c, step, true) && OrderLaw(c) && step.Apply? && step.n > 0 && !Overtakes(c, step)
    ensures OrderLaw(Do(c, step))
  {
    var c', f := Do(c, step), Flip(c.commit.id, step.event);
    DeliveryListed(c, step);
    assert CommitUnsent(c.commit) == [] && CommitUnsent(c'.commit) == [] && c'.committed == c.committed + [f];
    EvSnoc(c.committed, f);
  }

  lemma OrderApplyHeld(c: Crtc, step: Step)
    requires Enabled(c, step, true) && OrderLaw(c) && step.Apply? && step.n == 0
    ensures OrderLaw(Do(c, step))
  {
    var c', f := Do(c, step), Flip(c.commit.id, step.event);
    assert c'.handler == c.handler && c'.flips == c.flips && c'.sent == c.sent;
    assert CommitUnsent(c'.commit) == [f] && CommitUnsent(c.commit) == [] && c'.committed == c.committed + [f];
    EvSnoc(c.committed, f);
    EvOne(f);
  }

  lemma ServiceDefer(c: Crtc)
    requires Enabled(c, Defer, true) && c.flips != []
    ensures var last := c.flips[|c.flips| - 1];
            var front := HandlerUnsent(c.handler) + (Listed(c.flips[..|c.flips| - 1]) + [last.flip]);
            && Service(c) == front + last.deferred
            && Service(Do(c, Defer)) == front + [c.commit.flip] + last.deferred
  {
    var a, last := c.flips[..|c.flips| - 1], c.flips[|c.flips| - 1];
    assert c.flips == a + [last];
    ListedDefer(a, last, c.commit.flip);
  }

  /** A deferred flip comes last in line if no event is deferred behind the same flip. */
  lemma DeliveryDeferred(c: Crtc)
    requires Enabled(c, Defer, true) && c.flips != [] && !Overtakes(c, Defer)
    ensures Delivery(Do(c, Defer)) == Delivery(c) + Event(c.commit.flip)
  {
    var f, last := c.commit.flip, c.flips[|c.flips| - 1];
    var front := HandlerUnsent(c.handler) + (Listed(c.flips[..|c.flips| - 1]) + [last.flip]);
    ServiceDefer(c);
    LastInLine(c.sent, front, f, last.deferred);
  }

  lemma OrderDefer(c: Crtc)
    requires Enabled(c, Defer, true) && OrderLaw(c) && !Overtakes(c, Defer)
    ensures OrderLaw(Do(c, Defer))
  {
    var c', f := Do(c, Defer), c.commit.flip;
    EvOne(f);
    assert c'.committed == c.committed;
    if c.flips != [] {
      DeliveryDeferred(c);
      assert CommitUnsent(c'.commit) == [];
    } else {
      assert Delivery(c') == Delivery(c) && CommitUnsent(c'.commit) == [f];
    }
  }

  lemma OrderSend(c: Crtc)
    requires Enabled(c, Send, true) && HeldLaw(c) && OrderLaw(c) && c.handler.HIdle?
    ensures OrderLaw(Do(c, Send))
  {
    var c', f := Do(c, Send), c.commit.flip;
    assert Service(c) == [] && Service(c') == [];
    assert Delivery(c) == c.sent && Delivery(c') == c.sent + [f];
    EvOne(f);
  }

  /** Taking a flip off the list changes nothing in the order of delivery. */
  lemma ServiceDequeue(c: Crtc)
    requires Enabled(c, Dequeue, true)
    ensures Service(Do(c, Dequeue)) == Service(c)
  {
    var c' := Do(c, Dequeue);
    if c'.handler.HOwn? {
      assert Service(c') == ([c.flips[0].flip] + c.flips[0].deferred) + Listed(c.flips[1..]);
    }
  }

  lemma DeliverFirst(sent: seq<Flip>, f: Flip, rest: seq<Flip>, flips: seq<Entry>)
    ensures sent + Ev(([f] + rest) + Listed(flips)) == sent + Event(f) + Ev(rest + Listed(flips))
  {
    assert ([f] + rest) + Listed(flips) == [f] + (rest + Listed(flips));
    EvCons(f, rest + Listed(flips));
  }

  /** Sending from the handler delivers the first flip in line. */
  lemma DeliverySend(c: Crtc, step: Step)
    requires Enabled(c, step, true) && (step.SendOwn? || step.SendDeferred?)
    ensures Delivery(Do(c, step)) == Delivery(c)
  {
    if step.SendOwn? {
      DeliverFirst(c.sent, c.handler.flip, c.handler.rest, c.flips);
    } else {
      var rest := c.handler.rest;
      assert rest == [rest[0]] + rest[1..];
      DeliverFirst(c.sent, rest[0], rest[1..], c.flips);
    }
  }

  /** Every step that does not overtake keeps the order, timeouts included. */
  lemma OrderStep(c: Crtc, step: Step)
    requires Enabled(c, step, true) && !Overtakes(c, step) && HeldLaw(c) && OrderLaw(c)
    requires !(HandlerLocks(c) && CommitLocks(c))
    ensures OrderLaw(Do(c, step))
  {
    match step
    case Apply(_, n) =>
      if n > 0 {
        OrderApplyListed(c, step);
      } else {
        OrderApplyHeld(c, step);
      }
    case Defer => OrderDefer(c);
    case Dequeue => ServiceDequeue(c);
    case SendOwn => DeliverySend(c, step);
    case SendDeferred => DeliverySend(c, step);
    case Send => OrderSend(c);
    case SkipSend => EvOne(c.commit.flip);
    case _ => OrderOther(c, step);
  }

  lemma OrderOther(c: Crtc, step: Step)
    requires Enabled(c, step, true) && OrderLaw(c)
    requires !step.Apply? && !step.Defer? && !step.Dequeue? && !step.SendOwn? && !step.SendDeferred? && !step.Send?
    requires !step.SkipSend?
    ensures OrderLaw(Do(c, step))
  {
    assert Service(Do(c, step)) == Service(c);
    assert CommitUnsent(Do(c, step).commit) == CommitUnsent(c.commit);
  }

  /** b is a, or a with one element put in somewhere. */
  ghost predicate Inserted(a: seq<Flip>, b: seq<Flip>) {
    a == b || exists k, f :: 0 <= k <= |a| && b == a[..k] + [f] + a[k..]
  }

  /** x comes somewhere before y in s. */
  ghost predicate OrderedIn(s: seq<Flip>, x: Flip, y: Flip) {
    exists i, j :: 0 <= i < j < |s| && s[i] == x && s[j] == y
  }

  lemma InsertKeepsOrder(a: seq<Flip>, b: seq<Flip>, x: Flip, y: Flip)
    requires Inserted(a, b) && OrderedIn(a, x, y)
    ensures OrderedIn(b, x, y)
  {
    if a != b {
      var k, f :| 0 <= k <= |a| && b == a[..k] + [f] + a[k..];
      var i, j :| 0 <= i < j < |a| && a[i] == x && a[j] == y;
      var i', j' := if i < k then i else i + 1, if j < k then j else j + 1;
      assert b[i'] == x && b[j'] == y;
    }
  }

  lemma EvInsert(a: seq<Flip>, f: Flip, b: seq<Flip>)
    ensures Ev(a + [f] + b) == Ev(a) + Event(f) + Ev(b)
    ensures Ev(a + b) == Ev(a) + Ev(b)
  {
    EvConcat(a + [f], b);
    EvSnoc(a, f);
    EvConcat(a, b);
  }

  lemma InsertAt(s: seq<Flip>, a: seq<Flip>, f: Flip, b: seq<Flip>)
    ensures Inserted(s + (a + b), s + (a + Event(f) + b))
  {
    if f.event {
      var k := |s + a|;
      var whole := s + (a + b);
      assert whole[..k] == s + a && whole[k..] == b;
      assert s + (a + [f] + b) == whole[..k] + [f] + whole[k..];
    } else {
      assert a + Event(f) + b == a + b;
    }
  }

  lemma DeliveryApply(c: Crtc, step: Step)
    requires Enabled(c, step, true) && step.Apply?
    ensures Inserted(Delivery(c), Delivery(Do(c, step)))
  {
    if step.n > 0 {
      var f, h := Flip(c.commit.id, step.event), HandlerUnsent(c.handler);
      ServiceApply(c, step);
      EvInsert(h, f, Listed(c.flips));
      InsertAt(c.sent, Ev(h), f, Ev(Listed(c.flips)));
    }
  }

  lemma DeliveryDefer(c: Crtc)
    requires Enabled(c, Defer, true)
    ensures Inserted(Delivery(c), Delivery(Do(c, Defer)))
  {
    if c.flips != [] {
      var f, last := c.commit.flip, c.flips[|c.flips| - 1];
      var front := HandlerUnsent(c.handler) + (Listed(c.flips[..|c.flips| - 1]) + [last.flip]);
      ServiceDefer(c);
      EvInsert(front, f, last.deferred);
      InsertAt(c.sent, Ev(front), f, Ev(last.deferred));
    }
  }

  /** Whatever the commits do, the order of events already in line never changes:
      a step at most puts one more event in. */
  lemma DeliveryStep(c: Crtc, step: Step)
    requires Enabled(c, step, true)
    ensures Inserted(Delivery(c), Delivery(Do(c, step)))
  {
    match step
    case Apply(_, _) => DeliveryApply(c, step);
    case Defer => DeliveryDefer(c);
    case Dequeue => ServiceDequeue(c);
    case SendOwn => DeliverySend(c, step);
    case SendDeferred => DeliverySend(c, step);
    case Send =>
      var d := Delivery(c);
      assert d[..|c.sent|] == c.sent && d[|c.sent|..] == Ev(Service(c));
      assert Delivery(Do(c, step)) == d[..|c.sent|] + [c.commit.flip] + d[|c.sent|..];
    case _ => assert Delivery(Do(c, step)) == Delivery(c);
  }

  // ---------------------------------------------------------------------------
  // Invariants of every run
  // ---------------------------------------------------------------------------

  ghost predicate Inv(c: Crtc) {
    && OwnedOnce(c)
    && (forall x: Id :: EventsLaw(c, x))
    && (forall x: Id :: CommittedOnce(c, x))
    && PendingLaw(c)
  }

  lemma InvStep(c: Crtc, step: Step)
    requires Inv(c) && Enabled(c, step, true)
    ensures Inv(Do(c, step))
  {
    var c' := Do(c, step);
    assert Places(c, c.nextId) == One(c.nextId < c.nextId);
    if c.handler.HRest? {
      var z := c.handler.flip.id;
      assert Places(c, z) == One(z < c.nextId);
    }
    forall x: Id ensures Places(c', x) == One(x < c'.nextId) {
      assert Places(c, x) == One(x < c.nextId);
      PlacesStep(c, step, x);
      assert c'.nextId == if step.Duplicate? then c.nextId + 1 else c.nextId;
    }
    forall x: Id ensures EventsLaw(c', x) && CommittedOnce(c', x) {
      EventsStep(c, step, x);
      CommittedStep(c, step, x);
    }
    PendingStep(c, step);
  }

  /** event_lock is owned by exactly the thread whose program counter says so. */
  ghost predicate LockInv(d: Device) {
    forall k :: k in d.crtcs ==>
      && (HandlerLocks(d.crtcs[k]) <==> d.eventLock == Some(HandlerOf(k)))
      && (CommitLocks(d.crtcs[k]) <==> d.eventLock == Some(CommitOf(k)))
  }

  ghost predicate DeviceInv(d: Device) {
    LockInv(d) && forall k :: k in d.crtcs ==> Inv(d.crtcs[k])
  }

  lemma LockStep(d: Device, k: CrtcId, step: Step, d': Device)
    requires LockInv(d) && DeviceStep(d, k, step, d')
    ensures LockInv(d')
  {
  }

  lemma InvNext(d: Device, d': Device)
    requires DeviceInv(d) && Next(d, d')
    ensures DeviceInv(d')
  {
    var k, step :| DeviceStep(d, k, step, d');
    LockStep(d, k, step, d');
    InvStep(d.crtcs[k], step);
  }

  lemma FreshInv(c: Crtc)
    requires c == FRESH_CRTC
    ensures Inv(c)
  {
  }

  lemma LockInit(d: Device)
    requires Init(d)
    ensures LockInv(d)
  {
  }

  lemma InvInit(d: Device)
    requires Init(d)
    ensures DeviceInv(d)
  {
    LockInit(d);
    forall k | k in d.crtcs ensures Inv(d.crtcs[k]) { FreshInv(d.crtcs[k]); }
  }

  lemma InvOnRun(run: seq<Device>, i: nat)
    requires Run(run) && i < |run|
    ensures DeviceInv(run[i])
  {
    forall d | Init(d) ensures DeviceInv(d) { InvInit(d); }
    forall d, d' | DeviceInv(d) && Next(d, d') ensures DeviceInv(d') { InvNext(d, d'); }
    Always(run, Init, Next, DeviceInv, i);
  }

  // ---------------------------------------------------------------------------
  // Theorems
  // ---------------------------------------------------------------------------

  lemma OccursLe(s: seq<Flip>, x: Id)
    ensures Occurs(s, x, true) <= Occurs(s, x, false)
  {
  }

  /** Every flip object is in exactly one place; it is freed at most once; its
      event is sent at most once, and exactly once when the flip is retired. */
  lemma FlipOwnership(run: seq<Device>, i: nat, k: CrtcId, x: Id)
    requires Run(run) && i < |run| && k in run[i].crtcs
    ensures var c := run[i].crtcs[k];
            && Places(c, x) == One(x < c.nextId)
            && multiset(c.freed)[x] <= 1
            && Occurs(c.sent, x, true) <= Occurs(c.committed, x, true) <= 1
            && (x in c.freed || x in c.zombies ==>
                  Occurs(c.sent, x, true) == Occurs(c.committed, x, true))
  {
    InvOnRun(run, i);
    var c := run[i].crtcs[k];
    assert Places(c, x) == One(x < c.nextId) && EventsLaw(c, x) && CommittedOnce(c, x);
    OccursLe(c.committed, x);
    OccursLe(Listed(c.flips), x);
    if HandlerUnsent(c.handler) != [] { OccursLe(c.handler.rest, x); }
  }

  /** The counters of the listed flips always add up to the events the hardware
      still owes, each is positive, and an event never finds the list empty or a
      counter at zero. */
  lemma PendingConservation(run: seq<Device>, i: nat, k: CrtcId)
    requires Run(run) && i < |run| && k in run[i].crtcs
    ensures var c := run[i].crtcs[k];
            && PendingSum(c.flips) == c.hw + Unsubmitted(c.commit)
            && Counting(c.flips)
            && (c.handler.HLocked? ==> c.flips != [])
            && !c.badDequeue
  {
    InvOnRun(run, i);
  }

  ghost predicate HeldInv(d: Device) {
    forall k :: k in d.crtcs ==> HeldLaw(d.crtcs[k])
  }

  lemma HeldNext(d: Device, d': Device)
    requires HeldInv(d) && Next(d, d')
    ensures HeldInv(d')
  {
    var k, step :| DeviceStep(d, k, step, d');
    HeldStep(d.crtcs[k], step);
  }

  lemma HeldOnRun(run: seq<Device>, i: nat)
    requires Run(run) && i < |run|
    ensures HeldInv(run[i])
  {
    forall d, d' | HeldInv(d) && Next(d, d') ensures HeldInv(d') { HeldNext(d, d'); }
    Always(run, Init, Next, HeldInv, i);
  }

  /** From d to d', CRTC k takes a step that overtakes. */
  ghost predicate Overtaken(d: Device, d': Device, k: CrtcId) {
    exists step :: DeviceStep(d, k, step, d') && Overtakes(d.crtcs[k], step)
  }

  ghost predicate OvertakenAt(run: seq<Device>, m: nat, k: CrtcId) {
    m + 1 < |run| && Overtaken(run[m], run[m + 1], k)
  }

  /** Up to index j, CRTC k takes no step that overtakes. */
  ghost predicate Clean(run: seq<Device>, j: nat, k: CrtcId) {
    forall m: nat :: m < j ==> !OvertakenAt(run, m, k)
  }

  lemma OrderNext(d: Device, d': Device, k: CrtcId)
    requires LockInv(d) && HeldInv(d) && Next(d, d') && k in d'.crtcs && !Overtaken(d, d', k)
    requires k in d.crtcs ==> OrderLaw(d.crtcs[k])
    ensures OrderLaw(d'.crtcs[k])
  {
    var k', step :| DeviceStep(d, k', step, d');
    if k' == k { OrderStep(d.crtcs[k], step); }
  }

  lemma FreshInOrder(c: Crtc)
    requires c == FRESH_CRTC
    ensures OrderLaw(c)
  {
  }

  lemma {:induction false} CleanMeansOrdered(run: seq<Device>, j: nat, k: CrtcId)
    requires Run(run) && j < |run| && k in run[j].crtcs && Clean(run, j, k)
    ensures OrderLaw(run[j].crtcs[k])
    decreases j
  {
    if j == 0 {
      FreshInOrder(run[0].crtcs[k]);
    } else {
      CleanPrefix(run, j - 1, k);
      if k in run[j - 1].crtcs { CleanMeansOrdered(run, j - 1, k); }
      OrderAt(run, j - 1, k);
    }
  }

  lemma CleanPrefix(run: seq<Device>, j: nat, k: CrtcId)
    requires j + 1 < |run| && Clean(run, j + 1, k)
    ensures Clean(run, j, k) && !Overtaken(run[j], run[j + 1], k)
  {
    assert !OvertakenAt(run, j, k);
  }

  lemma OrderAt(run: seq<Device>, i: nat, k: CrtcId)
    requires Run(run) && i + 1 < |run| && k in run[i + 1].crtcs && !Overtaken(run[i], run[i + 1], k)
    requires k in run[i].crtcs ==> OrderLaw(run[i].crtcs[k])
    ensures OrderLaw(run[i + 1].crtcs[k])
  {
    InvOnRun(run, i);
    HeldOnRun(run, i);
    NextAt(run, Init, Next, i);
    OrderNext(run[i], run[i + 1], k);
  }

  /** f is in line before e, although e was committed first. */
  ghost predicate Reversed(c: Crtc, f: Flip, e: Flip) {
    f.event && e.event && OrderedIn(Delivery(c), f, e) && OrderedIn(Ev(c.committed), e, f)
  }

  lemma OrderedAppend(s: seq<Flip>, t: seq<Flip>, x: Flip, y: Flip)
    requires OrderedIn(s, x, y)
    ensures OrderedIn(s + t, x, y)
  {
    var i, j :| 0 <= i < j < |s| && s[i] == x && s[j] == y;
    assert (s + t)[i] == x && (s + t)[j] == y;
  }

  lemma ReversedStep(c: Crtc, step: Step, f: Flip, e: Flip)
    requires Enabled(c, step, true) && Reversed(c, f, e)
    ensures Reversed(Do(c, step), f, e)
  {
    DeliveryStep(c, step);
    InsertKeepsOrder(Delivery(c), Delivery(Do(c, step)), f, e);
    if step.Apply? {
      EvSnoc(c.committed, Flip(c.commit.id, step.event));
      OrderedAppend(Ev(c.committed), Event(Flip(c.commit.id, step.event)), e, f);
    }
  }

  lemma ReversedForever(run: seq<Device>, i: nat, j: nat, k: CrtcId, f: Flip, e: Flip)
    requires Run(run) && i <= j < |run| && k in run[i].crtcs && Reversed(run[i].crtcs[k], f, e)
    ensures k in run[j].crtcs && Reversed(run[j].crtcs[k], f, e)
  {
    var kept := (d: Device) => k in d.crtcs && Reversed(d.crtcs[k], f, e);
    forall d, d' | kept(d) && Next(d, d') ensures kept(d') {
      var k', step :| DeviceStep(d, k', step, d');
      if k' == k { ReversedStep(d.crtcs[k], step, f, e); }
    }
    KeptFrom(run, Init, Next, kept, i, j);
  }

  lemma {:induction false} EventsDistinct(s: seq<Flip>)
    requires forall x: Id :: Occurs(s, x, false) <= 1
    ensures NoDup(Ev(s))
  {
    if s != [] {
      forall x: Id ensures Occurs(s[1..], x, false) <= 1 { assert Occurs(s, x, false) <= 1; }
      EventsDistinct(s[1..]);
      assert Occurs(s, s[0].id, false) <= 1;
      OccursLe(s[1..], s[0].id);
      if s[0] in Ev(s[1..]) {
        EvFrom(s[1..], s[0]);
        EvHas(s[1..], s[0]);
      }
    }
  }

  /** Two events have one order in the log of commits. */
  lemma OneOrder(s: seq<Flip>, x: Flip, y: Flip)
    requires NoDup(s) && OrderedIn(s, x, y)
    ensures !OrderedIn(s, y, x)
  {
  }

  lemma ReversedBreaks(c: Crtc, f: Flip, e: Flip)
    requires Inv(c) && Reversed(c, f, e)
    ensures !OrderLaw(c)
  {
    forall x: Id ensures Occurs(c.committed, x, false) <= 1 { assert CommittedOnce(c, x); }
    EventsDistinct(c.committed);
    OneOrder(Ev(c.committed), e, f);
    OrderedAppend(Delivery(c), Ev(CommitUnsent(c.commit)), f, e);
  }

  ghost predicate NonblockAlone(d: Device) {
    forall k :: k in d.crtcs && d.crtcs[k].commit.Admitted? && d.crtcs[k].commit.nonblock ==> d.crtcs[k].flips == []
  }

  lemma NonblockNext(d: Device, d': Device)
    requires NonblockAlone(d) && Next(d, d')
    ensures NonblockAlone(d')
  {
    var k, step :| DeviceStep(d, k, step, d');
  }

  /** The -EBUSY check enforces the discipline for nonblocking commits: in every run,
      with or without timeouts, one that was admitted finds no flip listed. */
  lemma NonblockingIsDisciplined(run: seq<Device>, i: nat, k: CrtcId, event: bool, n: nat)
    requires Run(run) && i < |run| && k in run[i].crtcs
    requires run[i].crtcs[k].commit.Admitted? && run[i].crtcs[k].commit.nonblock
    ensures !Overtakes(run[i].crtcs[k], Apply(event, n))
  {
    forall d, d' | NonblockAlone(d) && Next(d, d') ensures NonblockAlone(d') { NonblockNext(d, d'); }
    Always(run, Init, Next, NonblockAlone, i);
  }

  /** Once x is in line before y it stays so, and is delivered first. */
  lemma OrderIsForever(run: seq<Device>, i: nat, j: nat, k: CrtcId, x: Flip, y: Flip)
    requires Run(run) && i <= j < |run| && k in run[i].crtcs
    requires OrderedIn(Delivery(run[i].crtcs[k]), x, y)
    ensures k in run[j].crtcs && OrderedIn(Delivery(run[j].crtcs[k]), x, y)
  {
    var kept := (d: Device) => k in d.crtcs && OrderedIn(Delivery(d.crtcs[k]), x, y);
    forall d, d' | kept(d) && Next(d, d') ensures kept(d') {
      OrderedNext(d, d', k, x, y);
    }
    KeptFrom(run, Init, Next, kept, i, j);
  }

  lemma OrderedNext(d: Device, d': Device, k: CrtcId, x: Flip, y: Flip)
    requires k in d.crtcs && OrderedIn(Delivery(d.crtcs[k]), x, y) && Next(d, d')
    ensures k in d'.crtcs && OrderedIn(Delivery(d'.crtcs[k]), x, y)
  {
    var k', step :| DeviceStep(d, k', step, d');
    if k' == k {
      DeliveryStep(d.crtcs[k], step);
      InsertKeepsOrder(Delivery(d.crtcs[k]), Delivery(d'.crtcs[k]), x, y);
    }
  }

  lemma EvHas(s: seq<Flip>, e: Flip)
    requires e in s && e.event
    ensures e in Ev(s) && Occurs(s, e.id, true) >= 1
  {
    if s[0] != e {
      assert e in s[1..];
      EvHas(s[1..], e);
    }
  }

  lemma OccursHas(s: seq<Flip>, x: Id)
    requires Occurs(s, x, true) >= 1
    ensures Flip(x, true) in s
  {
  }

  lemma ListedIsCommitted(c: Crtc, e: Flip)
    requires Inv(c) && e in Listed(c.flips) && e.event
    ensures e in c.committed
  {
    EvHas(Listed(c.flips), e);
    assert EventsLaw(c, e.id);
    OccursHas(c.committed, e.id);
  }

  lemma InsertedIsFirst(sent: seq<Flip>, a: seq<Flip>, f: Flip, b: seq<Flip>, e: Flip)
    requires f.event && e.event && e in b
    ensures OrderedIn(sent + Ev(a + [f] + b), f, e)
  {
    EvInsert(a, f, b);
    EvHas(b, e);
    var q :| 0 <= q < |Ev(b)| && Ev(b)[q] == e;
    var d, i := sent + Ev(a + [f] + b), |sent| + |Ev(a)|;
    assert d[i] == f && d[i + 1 + q] == e;
  }

  lemma PushedIsFirst(c: Crtc, step: Step, e: Flip)
    requires Enabled(c, step, true) && step.Apply? && step.n > 0 && step.event
    requires e in Listed(c.flips) && e.event
    ensures OrderedIn(Delivery(Do(c, step)), Flip(c.commit.id, true), e)
  {
    ServiceApply(c, step);
    InsertedIsFirst(c.sent, HandlerUnsent(c.handler), Flip(c.commit.id, true), Listed(c.flips), e);
  }

  lemma EvFrom(s: seq<Flip>, e: Flip)
    requires e in Ev(s)
    ensures e in s && e.event
  {
  }

  lemma HandlerEventsOccur(h: Handler, x: Id)
    ensures HandlerEvents(h, x) == Occurs(HandlerUnsent(h), x, true)
  {
    if h.HOwn? { OccursConcat([h.flip], h.rest, x, true); }
  }

  /** A sent event is not in line any more. */
  lemma SentIsGone(c: Crtc, e: Flip)
    requires Inv(c) && e in c.sent && e.event
    ensures e !in Ev(Service(c))
  {
    EvHas(c.sent, e);
    OccursConcat(HandlerUnsent(c.handler), Listed(c.flips), e.id, true);
    HandlerEventsOccur(c.handler, e.id);
    OccursLe(c.committed, e.id);
    assert EventsLaw(c, e.id) && CommittedOnce(c, e.id);
    assert Occurs(Service(c), e.id, true) == 0;
    if e in Ev(Service(c)) {
      EvFrom(Service(c), e);
      EvHas(Service(c), e);
    }
  }

  /** An event that was sent was sent after everything that was in line before it. */
  lemma SentAfter(c: Crtc, f: Flip, e: Flip)
    requires Inv(c) && OrderedIn(Delivery(c), f, e) && e in c.sent && e.event
    ensures OrderedIn(c.sent, f, e)
  {
    var d := Delivery(c);
    var i, j :| 0 <= i < j < |d| && d[i] == f && d[j] == e;
    SentIsGone(c, e);
    assert j < |c.sent| by {
      assert forall m :: |c.sent| <= m < |d| ==> d[m] == Ev(Service(c))[m - |c.sent|];
    }
    assert c.sent[i] == f && c.sent[j] == e;
  }

  lemma DeliveredAfter(run: seq<Device>, j: nat, k: CrtcId, f: Flip, e: Flip)
    requires Run(run) && j < |run| && k in run[j].crtcs && e.event
    requires OrderedIn(Delivery(run[j].crtcs[k]), f, e)
    ensures e in run[j].crtcs[k].sent ==> OrderedIn(run[j].crtcs[k].sent, f, e)
  {
    InvOnRun(run, j);
    if e in run[j].crtcs[k].sent { SentAfter(run[j].crtcs[k], f, e); }
  }

  /** The discipline is needed: a hardware flip committed while an earlier flip is
      listed goes in front of it.  From then on, in every continuation, the newer
      event is delivered before the older one. */
  lemma StackedCommitReorders(run: seq<Device>, i: nat, j: nat, k: CrtcId, n: nat, e: Flip)
    requires Run(run) && i + 1 <= j < |run| && n > 0
    requires DeviceStep(run[i], k, Apply(true, n), run[i + 1])
    requires e in Listed(run[i].crtcs[k].flips) && e.event
    ensures var f := Flip(run[i].crtcs[k].commit.id, true);
            && e in run[i].crtcs[k].committed
            && run[i + 1].crtcs[k].committed == run[i].crtcs[k].committed + [f]
            && k in run[j].crtcs && OrderedIn(Delivery(run[j].crtcs[k]), f, e)
            && (e in run[j].crtcs[k].sent ==> OrderedIn(run[j].crtcs[k].sent, f, e))
  {
    InvOnRun(run, i);
    var c := run[i].crtcs[k];
    ListedIsCommitted(c, e);
    PushedIsFirst(c, Apply(true, n), e);
    OrderIsForever(run, i + 1, j, k, Flip(c.commit.id, true), e);
    DeliveredAfter(run, j, k, Flip(c.commit.id, true), e);
  }

  lemma DeferredIsFirst(c: Crtc, e: Flip)
    requires Enabled(c, Defer, true) && c.commit.flip.event && e.event
    requires c.flips != [] && e in c.flips[|c.flips| - 1].deferred
    ensures OrderedIn(Delivery(Do(c, Defer)), c.commit.flip, e)
  {
    var last := c.flips[|c.flips| - 1];
    var front := HandlerUnsent(c.handler) + (Listed(c.flips[..|c.flips| - 1]) + [last.flip]);
    ServiceDefer(c);
    InsertedIsFirst(c.sent, front, c.commit.flip, last.deferred, e);
  }

  /** Nor may waits time out: a second flip deferred behind the same listed flip is
      put in front of the first, and is delivered before it. */
  lemma SecondDeferralReorders(run: seq<Device>, i: nat, j: nat, k: CrtcId, e: Flip)
    requires Run(run) && i + 1 <= j < |run|
    requires DeviceStep(run[i], k, Defer, run[i + 1])
    requires var c := run[i].crtcs[k];
             c.flips != [] && e in c.flips[|c.flips| - 1].deferred && e.event && c.commit.flip.event
    ensures k in run[j].crtcs && OrderedIn(Delivery(run[j].crtcs[k]), run[i].crtcs[k].commit.flip, e)
    ensures e in run[j].crtcs[k].sent ==>
              OrderedIn(run[j].crtcs[k].sent, run[i].crtcs[k].commit.flip, e)
  {
    DeferredIsFirst(run[i].crtcs[k], e);
    OrderIsForever(run, i + 1, j, k, run[i].crtcs[k].commit.flip, e);
    DeliveredAfter(run, j, k, run[i].crtcs[k].commit.flip, e);
  }

  /** An event that is in line was committed before a flip that is committed last. */
  lemma CommittedBefore(c: Crtc, committed: seq<Flip>, f: Flip, e: Flip)
    requires committed == c.committed + [f] && f.event && e.event && e in c.committed
    ensures OrderedIn(Ev(committed), e, f)
  {
    EvSnoc(c.committed, f);
    EvHas(c.committed, e);
    var i :| 0 <= i < |Ev(c.committed)| && Ev(c.committed)[i] == e;
    assert Ev(committed)[i] == e && Ev(committed)[|Ev(c.committed)|] == f;
  }

  lemma StackedReverses(c: Crtc, step: Step) returns (e: Flip)
    requires Inv(c) && Enabled(c, step, true) && step.Apply? && Overtakes(c, step)
    ensures Reversed(Do(c, step), Flip(c.commit.id, true), e)
  {
    e := Ev(Listed(c.flips))[0];
    EvFrom(Listed(c.flips), e);
    ListedIsCommitted(c, e);
    CommittedBefore(c, Do(c, step).committed, Flip(c.commit.id, true), e);
    PushedIsFirst(c, step, e);
  }

  lemma {:induction false} DeferredIsListed(flips: seq<Entry>, e: Flip)
    requires flips != [] && e in flips[|flips| - 1].deferred
    ensures e in Listed(flips)
  {
    var a, last := flips[..|flips| - 1], flips[|flips| - 1];
    assert flips == a + [last];
    ListedSnoc(a, last);
    assert e in Bundle(last);
  }

  /** The flip that the commit holds is listed nowhere. */
  lemma HeldIsNotListed(c: Crtc, e: Flip)
    requires Inv(c) && c.commit.MustDefer? && e in Listed(c.flips) && e.event
    ensures e.id != c.commit.flip.id
  {
    EvHas(Listed(c.flips), e);
    OccursLe(Listed(c.flips), e.id);
    assert Places(c, e.id) == One(e.id < c.nextId);
  }

  lemma DeferralReverses(c: Crtc) returns (e: Flip)
    requires Inv(c) && HeldLaw(c) && Enabled(c, Defer, true) && Overtakes(c, Defer)
    ensures Reversed(Do(c, Defer), c.commit.flip, e)
  {
    var last, n := c.flips[|c.flips| - 1], |c.committed| - 1;
    e := Ev(last.deferred)[0];
    EvFrom(last.deferred, e);
    DeferredIsListed(c.flips, e);
    ListedIsCommitted(c, e);
    HeldIsNotListed(c, e);
    assert c.committed == c.committed[..n] + [c.commit.flip];
    CommittedBefore(c.(committed := c.committed[..n]), c.committed, c.commit.flip, e);
    DeferredIsFirst(c, e);
  }

  lemma OvertakingReverses(c: Crtc, step: Step) returns (f: Flip, e: Flip)
    requires Inv(c) && HeldLaw(c) && Enabled(c, step, true) && Overtakes(c, step)
    ensures Reversed(Do(c, step), f, e)
  {
    if step.Apply? {
      e := StackedReverses(c, step);
      f := Flip(c.commit.id, true);
    } else {
      e := DeferralReverses(c);
      f := c.commit.flip;
    }
  }

  /** One overtaking step breaks the order in every continuation. */
  lemma OvertakenMeansBroken(run: seq<Device>, m: nat, j: nat, k: CrtcId)
    requires Run(run) && m + 1 <= j < |run| && Overtaken(run[m], run[m + 1], k)
    ensures k in run[j].crtcs && !OrderLaw(run[j].crtcs[k])
  {
    InvOnRun(run, m);
    HeldOnRun(run, m);
    var step :| DeviceStep(run[m], k, step, run[m + 1]) && Overtakes(run[m].crtcs[k], step);
    var f, e := OvertakingReverses(run[m].crtcs[k], step);
    ReversedForever(run, m + 1, j, k, f, e);
    InvOnRun(run, j);
    ReversedBreaks(run[j].crtcs[k], f, e);
  }

  /** In every run, waits that time out included, the events of a CRTC are sent or in
      line in the order of their commits if and only if no step has put an event in
      front of another. */
  lemma OrderIff(run: seq<Device>, j: nat, k: CrtcId)
    requires Run(run) && j < |run| && k in run[j].crtcs
    ensures OrderLaw(run[j].crtcs[k]) <==> Clean(run, j, k)
  {
    if Clean(run, j, k) {
      CleanMeansOrdered(run, j, k);
    } else {
      var m := FindOvertaking(run, j, k);
      OvertakenMeansBroken(run, m, j, k);
    }
  }

  lemma FindOvertaking(run: seq<Device>, j: nat, k: CrtcId) returns (m: nat)
    requires j < |run| && !Clean(run, j, k)
    ensures m + 1 <= j && Overtaken(run[m], run[m + 1], k)
  {
    m :| m < j && OvertakenAt(run, m, k);
  }

  lemma OrderLawMeans(c: Crtc)
    requires OrderLaw(c)
    ensures c.sent + (Ev(Service(c)) + Ev(CommitUnsent(c.commit))) == Ev(c.committed)
    ensures c.sent <= Ev(c.committed)
  {
    assert Delivery(c) + Ev(CommitUnsent(c.commit))
        == c.sent + (Ev(Service(c)) + Ev(CommitUnsent(c.commit)));
  }

  /** While no step has overtaken, a CRTC has delivered its events in commit order and
      left none out: what was sent is a prefix of the committed events, and what is
      still in line is the rest. */
  lemma FlipOrder(run: seq<Device>, j: nat, k: CrtcId)
    requires Run(run) && j < |run| && k in run[j].crtcs && Clean(run, j, k)
    ensures var c := run[j].crtcs[k];
            && c.sent + (Ev(Service(c)) + Ev(CommitUnsent(c.commit))) == Ev(c.committed)
            && c.sent <= Ev(c.committed)
  {
    OrderIff(run, j, k);
    OrderLawMeans(run[j].crtcs[k]);
  }

  // ---------------------------------------------------------------------------
  // What keeps steps from overtaking, and runs in which they do
  // ---------------------------------------------------------------------------

  /** The steps of a device on which waits do not time out and which is asked for
      a hardware flip only while no earlier flip is listed. */
  predicate Disciplined(c: Crtc, step: Step) {
    && !step.Timeout?
    && (step.Apply? && step.n > 0 ==> c.flips == [])
  }

  ghost predicate NextDisciplined(d: Device, d': Device) {
    exists k, step :: DeviceStep(d, k, step, d') && Disciplined(d.crtcs[k], step)
  }

  /** At most one flip is listed, and one waits behind it only while the commit that
      deferred it is waiting too. */
  ghost predicate Narrow(c: Crtc) {
    && |c.flips| <= 1
    && (c.flips != [] && !(c.commit.Waiting? && !c.commit.nonblock) ==> c.flips[0].deferred == [])
    && (CommitUnsent(c.commit) != [] && !c.commit.MustDefer? ==> c.flips == [])
    && (c.commit.Admitted? && c.commit.nonblock ==> c.flips == [])
    && (c.commit.MustDefer? && c.commit.nonblock ==> c.flips == [])
    && (c.commit.SentLocked? || c.commit.MustFree? ==> c.flips == [])
  }

  lemma NarrowStep(c: Crtc, step: Step)
    requires Enabled(c, step, true) && Disciplined(c, step) && Narrow(c)
    ensures Narrow(Do(c, step))
  {
  }

  ghost predicate AllNarrow(d: Device) {
    forall k :: k in d.crtcs ==> Narrow(d.crtcs[k])
  }

  lemma NarrowNext(d: Device, d': Device)
    requires AllNarrow(d) && NextDisciplined(d, d')
    ensures AllNarrow(d')
  {
    var k, step :| DeviceStep(d, k, step, d') && Disciplined(d.crtcs[k], step);
    NarrowStep(d.crtcs[k], step);
  }

  lemma NarrowOnRun(run: seq<Device>, i: nat)
    requires IsRun(run, Init, NextDisciplined) && i < |run|
    ensures AllNarrow(run[i])
  {
    forall d, d' | AllNarrow(d) && NextDisciplined(d, d') ensures AllNarrow(d') { NarrowNext(d, d'); }
    Always(run, Init, NextDisciplined, AllNarrow, i);
  }

  lemma DisciplinedIsRun(run: seq<Device>)
    requires IsRun(run, Init, NextDisciplined)
    ensures Run(run)
  {
    forall i, j | 0 <= i < j < |run| && j == i + 1 ensures Next(run[i], run[j]) {
      assert NextDisciplined(run[i], run[j]);
    }
  }

  lemma NarrowIsClean(d: Device, d': Device, k: CrtcId)
    requires AllNarrow(d) && AllNarrow(d')
    ensures !Overtaken(d, d', k)
  {
    forall step | DeviceStep(d, k, step, d') ensures !Overtakes(d.crtcs[k], step) {
      assert Narrow(d'.crtcs[k]);
    }
  }

  /** If no wait times out and hardware flips are asked for on an empty list only, no
      step overtakes, so all events are delivered in commit order. */
  lemma DisciplineSuffices(run: seq<Device>, j: nat, k: CrtcId)
    requires IsRun(run, Init, NextDisciplined) && j < |run| && k in run[j].crtcs
    ensures Run(run) && Clean(run, j, k) && run[j].crtcs[k].sent <= Ev(run[j].crtcs[k].committed)
  {
    DisciplinedIsRun(run);
    forall m: nat | m < j ensures !OvertakenAt(run, m, k) {
      NarrowOnRun(run, m);
      NarrowOnRun(run, m + 1);
      NarrowIsClean(run[m], run[m + 1], k);
    }
    FlipOrder(run, j, k);
  }

  /** A device with one CRTC. */
  function Single(c: Crtc, lock: Option<Owner>): Device {
    Device(map[0 := c], lock)
  }

  function LockOf(lock: Option<Owner>, step: Step): Option<Owner> {
    LockAfter(Device(map[], lock), 0, step)
  }

  lemma Extend(run: seq<Device>, c: Crtc, lock: Option<Owner>, step: Step) returns (run': seq<Device>)
    requires Run(run) && run[|run| - 1] == Single(c, lock) && Enabled(c, step, lock.None?)
    ensures Run(run') && run' == run + [Single(Do(c, step), LockOf(lock, step))]
  {
    var d, d' := run[|run| - 1], Single(Do(c, step), LockOf(lock, step));
    run' := run + [d'];
    assert d'.crtcs == d.crtcs[0 := Do(c, step)];
    assert DeviceStep(d, 0, step, d');
  }

  /** One nonblocking hardware flip is listed and its commit has returned. */
  const LISTED := Crtc(1, {}, [Entry(Flip(0, true), 1, [])], NoCommit, HIdle, {}, 1, [Flip(0, true)], [], [], false)

  lemma ListedIsReachable() returns (run: seq<Device>)
    ensures Run(run) && run[|run| - 1] == Single(LISTED, None)
  {
    run := [Single(FRESH_CRTC, None)];
    var c := FRESH_CRTC;
    run := Extend(run, c, None, Duplicate);
    c := Do(c, Duplicate);
    run := Extend(run, c, None, Begin(0, true));
    c := Do(c, Begin(0, true));
    run := Extend(run, c, None, Apply(true, 1));
    c := Do(c, Apply(true, 1));
    run := Extend(run, c, None, Submit);
    c := Do(c, Submit);
    run := Extend(run, c, None, Finish);
    assert Do(c, Finish) == LISTED;
  }

  /** A blocking hardware flip has been listed in front of the first. */
  const STACKED := Crtc(2, {}, [Entry(Flip(1, true), 1, []), Entry(Flip(0, true), 1, [])], Waiting(false), HIdle, {}, 2,
    [Flip(0, true), Flip(1, true)], [], [], false)

  lemma StackedIsReachable() returns (run: seq<Device>)
    ensures Run(run) && run[|run| - 1] == Single(STACKED, None)
  {
    run := ListedIsReachable();
    var c := LISTED;
    run := Extend(run, c, None, Duplicate);
    c := Do(c, Duplicate);
    run := Extend(run, c, None, Begin(1, false));
    c := Do(c, Begin(1, false));
    run := Extend(run, c, None, Apply(true, 1));
    c := Do(c, Apply(true, 1));
    run := Extend(run, c, None, Submit);
    assert Do(c, Submit) == STACKED;
  }

  /** The handler takes one flip off the list and sends its event. */
  lemma Handle(run: seq<Device>, c: Crtc) returns (run': seq<Device>)
    requires Run(run) && run[|run| - 1] == Single(c, None)
    requires c.handler.HIdle? && c.hw > 0 && c.flips != [] && c.flips[0].pending == 1
    ensures var e := c.flips[0];
            var c' := c.(hw := c.hw - 1, flips := c.flips[1..], sent := c.sent + Event(e.flip),
                         handler := HRest(e.flip, e.deferred));
            Run(run') && run <= run' && run'[|run'| - 1] == Single(c', Some(HandlerOf(0)))
  {
    run' := Extend(run, c, None, LockEvent);
    var c1 := Do(c, LockEvent);
    run' := Extend(run', c1, Some(HandlerOf(0)), Dequeue);
    var c2 := Do(c1, Dequeue);
    run' := Extend(run', c2, Some(HandlerOf(0)), SendOwn);
  }

  /** A run in which a hardware flip overtakes another: event 1 is delivered before
      event 0, although it was committed after it. */
  lemma StackedRun() returns (run: seq<Device>)
    ensures Run(run) && 0 in run[|run| - 1].crtcs
    ensures var c := run[|run| - 1].crtcs[0];
            c.committed == [Flip(0, true), Flip(1, true)] && c.sent == [Flip(1, true), Flip(0, true)]
  {
    run := StackedIsReachable();
    run := Handle(run, STACKED);
    var c := run[|run| - 1].crtcs[0];
    run := Extend(run, c, Some(HandlerOf(0)), UnlockEvent);
    run := Handle(run, Do(c, UnlockEvent));
  }

  /** A flip without hardware event is deferred, and its wait timed out. */
  const TIMED_OUT := Crtc(2, {}, [Entry(Flip(0, true), 1, [Flip(1, true)])], NoCommit, HIdle, {}, 1,
    [Flip(0, true), Flip(1, true)], [], [], false)

  /** A blocking commit without hardware event, up to its wait. */
  lemma CommitDeferred(run: seq<Device>, c: Crtc) returns (run': seq<Device>)
    requires Run(run) && run[|run| - 1] == Single(c, None) && c.commit.NoCommit? && c.flips != [] && c.states == {}
    ensures var f := Flip(c.nextId, true);
            var c' := c.(nextId := c.nextId + 1, committed := c.committed + [f], flips := DeferTo(c.flips, f),
                         commit := Waiting(false));
            Run(run') && run <= run' && run'[|run'| - 1] == Single(c', None)
  {
    run' := Extend(run, c, None, Duplicate);
    var c1 := Do(c, Duplicate);
    run' := Extend(run', c1, None, Begin(c.nextId, false));
    var c2 := Do(c1, Begin(c.nextId, false));
    assert c2.states == {};
    run' := Extend(run', c2, None, Apply(true, 0));
    var c3 := Do(c2, Apply(true, 0));
    run' := Extend(run', c3, None, Defer);
  }

  lemma DeferSingle(e: Entry, f: Flip)
    ensures DeferTo([e], f) == [e.(deferred := [f] + e.deferred)]
  {
  }

  lemma TimedOutIsReachable() returns (run: seq<Device>)
    ensures Run(run) && run[|run| - 1] == Single(TIMED_OUT, None)
  {
    run := ListedIsReachable();
    run := CommitDeferred(run, LISTED);
    var c := run[|run| - 1].crtcs[0];
    DeferSingle(LISTED.flips[0], Flip(1, true));
    assert [Flip(1, true)] + [] == [Flip(1, true)];
    run := Extend(run, c, None, Timeout);
    assert Do(c, Timeout) == TIMED_OUT;
  }

  const TWICE_DEFERRED := Crtc(3, {}, [Entry(Flip(0, true), 1, [Flip(2, true), Flip(1, true)])], Waiting(false), HIdle,
    {}, 1, [Flip(0, true), Flip(1, true), Flip(2, true)], [], [], false)

  lemma TwiceDeferredIsReachable() returns (run: seq<Device>)
    ensures Run(run) && run[|run| - 1] == Single(TWICE_DEFERRED, None)
  {
    run := TimedOutIsReachable();
    run := CommitDeferred(run, TIMED_OUT);
    DeferSingle(TIMED_OUT.flips[0], Flip(2, true));
    assert [Flip(2, true)] + [Flip(1, true)] == [Flip(2, true), Flip(1, true)];
    assert TIMED_OUT.committed + [Flip(2, true)] == TWICE_DEFERRED.committed;
  }

  /** A run in which a timed-out wait lets a second deferred flip overtake the first. */
  lemma DeferredRun() returns (run: seq<Device>)
    ensures Run(run) && 0 in run[|run| - 1].crtcs
    ensures var c := run[|run| - 1].crtcs[0];
            && c.committed == [Flip(0, true), Flip(1, true), Flip(2, true)]
            && c.sent == [Flip(0, true), Flip(2, true), Flip(1, true)]
  {
    run := TwiceDeferredIsReachable();
    run := Handle(run, TWICE_DEFERRED);
    var c := run[|run| - 1].crtcs[0];
    run := Extend(run, c, Some(HandlerOf(0)), SendDeferred);
    c := Do(c, SendDeferred);
    run := Extend(run, c, Some(HandlerOf(0)), SendDeferred);
  }

  // ---------------------------------------------------------------------------
  // The CRTC object
  // ---------------------------------------------------------------------------

  datatype PlaneKind = Primary | Overlay | Cursor

  /** The old state of a plane that takes part in an atomic update. */
  datatype OldPlane = OldPlane(kind: PlaneKind, crtc: Option<CrtcId>, hasFb: bool)

  /** The planes up to n for which the hardware raises an event. */
  ghost function Raising(planes: seq<OldPlane>, n: nat, crtc: CrtcId): set<nat>
    requires n <= |planes|
  {
    set i: nat | i < n && planes[i].crtc == Some(crtc) && !planes[i].kind.Cursor? && planes[i].hasFb
  }

  lemma RaisingNext(planes: seq<OldPlane>, n: nat, crtc: CrtcId)
    requires n < |planes|
    ensures var raises := planes[n].crtc == Some(crtc) && !planes[n].kind.Cursor? && planes[n].hasFb;
            |Raising(planes, n + 1, crtc)| == |Raising(planes, n, crtc)| + One(raises)
  {
    var a, b := Raising(planes, n, crtc), Raising(planes, n + 1, crtc);
    if planes[n].crtc == Some(crtc) && !planes[n].kind.Cursor? && planes[n].hasFb {
      assert b == a + {n};
    } else {
      assert b == a;
    }
  }

  /** __will_generate_flip_event: the hardware answers a flip with an event exactly
      when the CRTC was active and some plane of it, cursor apart, showed a buffer;
      pending is the number of such planes. */
  method WillGenerateFlipEvent(crtc: CrtcId, oldActive: bool, newActive: bool, planes: seq<OldPlane>)
    returns (will: bool, pending: nat)
    ensures pending == |set i: nat | i < |planes| && oldActive && planes[i].crtc == Some(crtc) &&
                                     !planes[i].kind.Cursor? && planes[i].hasFb|
    ensures will <==> pending > 0
    ensures will <==> oldActive && exists p :: p in planes && p.crtc == Some(crtc) && !p.kind.Cursor? && p.hasFb
  {
    ghost var counted := set i: nat | i < |planes| && oldActive && planes[i].crtc == Some(crtc) &&
                                      !planes[i].kind.Cursor? && planes[i].hasFb;
    pending := 0;
    if !oldActive && !newActive {
      assert counted == {};
      return false, 0;
    }
    var i := 0;
    while i < |planes|
      invariant 0 <= i <= |planes|
      invariant pending == if oldActive then |Raising(planes, i, crtc)| else 0
    {
      RaisingNext(planes, i, crtc);
      if planes[i].crtc == Some(crtc) && !planes[i].kind.Cursor? {
        if oldActive && planes[i].hasFb {
          pending := pending + 1;
        }
      }
      i := i + 1;
    }
    will := pending != 0;
    assert counted == if oldActive then Raising(planes, |planes|, crtc) else {};
    if k :| k in counted {
      assert planes[k] in planes;
      assert |counted| != 0;
    }
    assert (exists p :: p in planes && p.crtc == Some(crtc) && !p.kind.Cursor? && p.hasFb) && oldActive ==> counted != {} by {
      if oldActive && exists p :: p in planes && p.crtc == Some(crtc) && !p.kind.Cursor? && p.hasFb {
        var k: nat :| k < |planes| && planes[k].crtc == Some(crtc) && !planes[k].kind.Cursor? && planes[k].hasFb;
        assert k in counted;
      }
    }
  }

  const EBUSY := 16

  function IdsOf(s: seq<Flip>): (ids: seq<Id>)
    ensures |ids| == |s| && forall i :: 0 <= i < |s| ==> ids[i] == s[i].id
  {
    seq(|s|, i requires 0 <= i < |s| => s[i].id)
  }

  lemma NextSent(s: seq<Flip>, i: nat)
    requires i < |s|
    ensures Ev(s[..i + 1]) == Ev(s[..i]) + Event(s[i]) && IdsOf(s[..i + 1]) == IdsOf(s[..i]) + [s[i].id]
  {
    assert s[..i + 1] == s[..i] + [s[i]];
    EvSnoc(s[..i], s[i]);
  }

  class NvCrtc {
    var flipList: seq<Entry>
    var sent: seq<Flip>
    var freed: seq<Id>

    method EnqueueFlip(f: Flip, n: nat)
      modifies this`flipList
      ensures flipList == [Entry(f, n, [])] + old(flipList)
    {
      flipList := [Entry(f, n, [])] + flipList;
    }

    method DequeueFlip() returns (flip: Option<Entry>)
      modifies this`flipList
      ensures (flipList, flip) == TakeFirst(old(flipList))
      ensures old(flipList) == [] ==> flipList == [] && flip.None?
      ensures old(flipList) != [] && old(flipList)[0].pending == 1 ==>
                flip == Some(old(flipList)[0]) && flipList == old(flipList)[1..]
      ensures old(flipList) != [] && old(flipList)[0].pending != 1 && old(flipList)[0].pending < 0x1_0000_0000 ==>
                && flip.None? && |flipList| == |old(flipList)| && flipList[1..] == old(flipList)[1..]
                && flipList[0] == old(flipList)[0].(pending := if old(flipList)[0].pending == 0 then 0xFFFF_FFFF
                                                               else old(flipList)[0].pending - 1)
    {
      flip := None;
      if flipList != [] {
        var first := flipList[0];
        var pending := (first.pending - 1) % 0x1_0000_0000;
        flipList := [first.(pending := pending)] + flipList[1..];
        if pending == 0 {
          flipList := flipList[1..];
          flip := Some(first);
        }
      }
    }

    /** Delivers the events of flips in turn and frees the flips. */
    method DeliverAll(flips: seq<Flip>)
      modifies this`sent, this`freed
      ensures sent == old(sent) + Ev(flips) && freed == old(freed) + IdsOf(flips)
    {
      var i := 0;
      while i < |flips|
        invariant 0 <= i <= |flips|
        invariant sent == old(sent) + Ev(flips[..i])
        invariant freed == old(freed) + IdsOf(flips[..i])
      {
        NextSent(flips, i);
        sent := sent + Event(flips[i]);
        freed := freed + [flips[i].id];
        i := i + 1;
      }
      assert flips[..i] == flips;
    }

    /** __nv_drm_handle_flip_event, undisturbed: a retired flip delivers its own
        event and then those deferred behind it, and all of them are freed. */
    method HandleFlipEvent()
      modifies this
      ensures flipList == TakeFirst(old(flipList)).0
      ensures match TakeFirst(old(flipList)).1
              case None => sent == old(sent) && freed == old(freed)
              case Some(e) =>
                && sent == old(sent) + Ev([e.flip] + e.deferred)
                && |freed| == |old(freed)| + |e.deferred| + 1 && freed[..|old(freed)|] == old(freed)
                && (forall i :: 0 <= i < |e.deferred| ==> freed[|old(freed)| + i] == e.deferred[i].id)
                && freed[|freed| - 1] == e.flip.id
    {
      var flip := DequeueFlip();
      if flip.Some? {
        var e := flip.value;
        EvCons(e.flip, e.deferred);
        sent := sent + Event(e.flip);
        DeliverAll(e.deferred);
        freed := freed + [e.flip.id];
      }
    }

    /** nv_drm_atomic_commit on one CRTC, up to the blocking wait: refused when
        nonblocking and a flip is listed; otherwise the flip is listed when the
        hardware will answer, deferred when others are listed, else done at once. */
    method AtomicCommit(f: Flip, n: nat, nonblock: bool) returns (ret: int)
      modifies this
      ensures ret == -EBUSY <==> nonblock && old(flipList) != []
      ensures ret != 0 ==> flipList == old(flipList) && sent == old(sent) && freed == old(freed)
      ensures ret == 0 && n > 0 ==> flipList == [Entry(f, n, [])] + old(flipList)
      ensures ret == 0 && n == 0 && old(flipList) != [] ==> flipList == DeferTo(old(flipList), f)
      ensures ret == 0 && (n > 0 || old(flipList) != []) ==> sent == old(sent) && freed == old(freed)
      ensures ret == 0 && n == 0 && old(flipList) == [] ==>
                flipList == [] && sent == old(sent) + Event(f) && freed == old(freed) + [f.id]
    {
      if nonblock && flipList != [] {
        return -EBUSY;
      }
      var held := true;
      if n != 0 {
        EnqueueFlip(f, n);
        held := false;
      }
      if held && flipList != [] {
        flipList := DeferTo(flipList, f);
        held := false;
      }
      if held {
        if f.event {
          sent := sent + [f];
        }
        freed := freed + [f.id];
      }
      ret := 0;
    }
  }
}
