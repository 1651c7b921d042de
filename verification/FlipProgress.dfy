/**
 * Every flip that was begun comes to its end: on a device that is not at rest some
 * thread can always go on, each such step lowers a rank, and on a device at rest
 * everything that was committed has been delivered and freed.
 */
module FlipProgress {
  import opened Common
  import opened FlipQueue

  /** Steps by which something new begins. */
  predicate Begins(step: Step) {
    step.Duplicate? || step.Begin?
  }

  // ---------------------------------------------------------------------------
  // The rank
  // ---------------------------------------------------------------------------

  /** Flips deferred behind listed ones. */
  function Behind(flips: seq<Entry>): nat {
    if flips == [] then 0 else |flips[0].deferred| + Behind(flips[1..])
  }

  function CommitLoad(m: Commit): nat {
    match m
    case NoCommit => 0
    case Admitted(_, _) => 0
    case Queued(n, _) => 8 * n + 2
    case MustDefer(_, _) => 12
    case MustSend(_, _) => 8
    case Sending(_, _) => 7
    case SentLocked(_, _) => 6
    case MustFree(_, _) => 5
    case Waiting(_) => 1
  }

  function HandlerLoad(h: Handler): nat {
    match h
    case HIdle => 1
    case HLocked => 0
    case HNone => 2
    case HOwn(_, rest) => 6 + 2 * |rest|
    case HRest(_, rest) => 5 + 2 * |rest|
  }

  /** What is still to do on a CRTC once the commit, if there is one, has been applied. */
  function Load(c: Crtc): nat {
    CommitLoad(c.commit) + 8 * c.hw + HandlerLoad(c.handler) + |c.zombies| + 2 * Behind(c.flips) + |c.states|
  }

  /** How many events a commit will wait for is known only once it is applied. */
  predicate Less(c': Crtc, c: Crtc) {
    || (c.commit.Admitted? && !c'.commit.Admitted?)
    || (c.commit.Admitted? == c'.commit.Admitted? && Load(c') < Load(c))
  }

  lemma {:induction false} BehindDefer(flips: seq<Entry>, f: Flip)
    requires flips != []
    ensures Behind(DeferTo(flips, f)) == Behind(flips) + 1
    decreases |flips|
  {
    if |flips| == 1 {
      assert DeferTo(flips, f) == [flips[0].(deferred := [f] + flips[0].deferred)];
    } else {
      BehindDefer(flips[1..], f);
      assert DeferTo(flips, f) == [flips[0]] + DeferTo(flips[1..], f);
    }
  }

  lemma BehindTake(flips: seq<Entry>)
    ensures var (rest, out) := TakeFirst(flips);
            Behind(rest) + (if out.Some? then |out.value.deferred| else 0) == Behind(flips)
  {
  }

  lemma UnlockRank(c: Crtc)
    requires Enabled(c, UnlockEvent, true)
    ensures Load(Do(c, UnlockEvent)) < Load(c)
  {
    if c.handler.HRest? {
      var z := c.handler.flip.id;
      assert |c.zombies + {z}| <= |c.zombies| + 1 by {
        if z in c.zombies { assert c.zombies + {z} == c.zombies; }
      }
    }
  }

  /** Every step other than those that begin something lowers the rank, except that of a
      commit that applies its state: a commit is applied once. */
  lemma RankFalls(c: Crtc, step: Step)
    requires Enabled(c, step, true) && !Begins(step)
    ensures Less(Do(c, step), c)
  {
    match step
    case Defer => if c.flips != [] { BehindDefer(c.flips, c.commit.flip); }
    case Dequeue => BehindTake(c.flips);
    case UnlockEvent => UnlockRank(c);
    case _ =>
  }

  // ---------------------------------------------------------------------------
  // Nobody is stuck
  // ---------------------------------------------------------------------------

  /** No commit, no event to come, nothing listed, nothing to free and no state that could
      be committed. */
  predicate AtRest(c: Crtc) {
    && c.commit.NoCommit? && c.handler.HIdle? && c.hw == 0 && c.zombies == {} && c.flips == []
    && c.states == {}
  }

  /** The thread that owns event_lock belongs to a CRTC of the device. */
  ghost predicate OwnerInv(d: Device) {
    d.eventLock.Some? ==> d.eventLock.value.c in d.crtcs
  }

  ghost predicate ProgressInv(d: Device) {
    DeviceInv(d) && OwnerInv(d)
  }

  lemma ProgressNext(d: Device, d': Device)
    requires ProgressInv(d) && Next(d, d')
    ensures ProgressInv(d')
  {
    InvNext(d, d');
  }

  lemma ProgressOnRun(run: seq<Device>, i: nat)
    requires Run(run) && i < |run|
    ensures ProgressInv(run[i])
  {
    forall d | Init(d) ensures ProgressInv(d) { InvInit(d); }
    forall d, d' | ProgressInv(d) && Next(d, d') ensures ProgressInv(d') { ProgressNext(d, d'); }
    Always(run, Init, Next, ProgressInv, i);
  }

  /** What the handler of a CRTC does next, if it is at work. */
  function HandlerStep(c: Crtc): Step {
    match c.handler
    case HIdle => LockEvent
    case HLocked => Dequeue
    case HNone => UnlockEvent
    case HOwn(_, _) => SendOwn
    case HRest(_, rest) => if rest == [] then UnlockEvent else SendDeferred
  }

  lemma HandlerGoesOn(c: Crtc)
    requires PendingLaw(c) && !c.handler.HIdle?
    ensures Enabled(c, HandlerStep(c), false)
  {
  }

  function CommitStep(c: Crtc): Step {
    match c.commit
    case NoCommit => Finish
    case Admitted(_, _) => Apply(false, 0)
    case Queued(_, _) => Submit
    case MustDefer(_, _) => Defer
    case MustSend(f, _) => if f.event then LockSend else SkipSend
    case Sending(_, _) => Send
    case SentLocked(_, _) => UnlockSend
    case MustFree(_, _) => FreeSent
    case Waiting(_) => Finish
  }

  /** A commit goes on, unless it needs the lock or waits for listed flips. */
  lemma CommitGoesOn(c: Crtc, lockFree: bool)
    requires !c.commit.NoCommit? && (c.commit.Waiting? ==> c.flips == []) && (c.commit.MustSend? ==> lockFree)
    ensures Enabled(c, CommitStep(c), lockFree)
  {
  }

  /** CRTC k can take a step that begins nothing and is not a timeout. */
  ghost predicate CanStep(d: Device, k: CrtcId) {
    k in d.crtcs && exists step :: Enabled(d.crtcs[k], step, d.eventLock.None?) && !Begins(step) && !step.Timeout?
  }

  lemma CanTake(d: Device, k: CrtcId, step: Step)
    requires k in d.crtcs && Enabled(d.crtcs[k], step, d.eventLock.None?) && !Begins(step) && !step.Timeout?
    ensures CanStep(d, k)
  {
  }

  lemma OwnerGoesOn(d: Device)
    requires ProgressInv(d) && d.eventLock.Some?
    ensures CanStep(d, d.eventLock.value.c)
  {
    var k := d.eventLock.value.c;
    var c := d.crtcs[k];
    match d.eventLock.value
    case HandlerOf(_) =>
      HandlerGoesOn(c);
      CanTake(d, k, HandlerStep(c));
    case CommitOf(_) =>
      CommitGoesOn(c, false);
      CanTake(d, k, CommitStep(c));
  }

  lemma ListedMeansEvents(c: Crtc)
    requires PendingLaw(c) && c.flips != []
    ensures c.hw > 0 || c.commit.Queued?
  {
    assert c.flips[0] in c.flips;
  }

  /** With event_lock free, a CRTC that is not at rest can go on by itself. */
  lemma FreeGoesOn(d: Device, k: CrtcId)
    requires ProgressInv(d) && d.eventLock.None? && k in d.crtcs && !AtRest(d.crtcs[k])
    ensures CanStep(d, k)
  {
    var c := d.crtcs[k];
    if c.states != {} {
      var id :| id in c.states;
      CanTake(d, k, Destroy(id));
    } else if c.zombies != {} {
      var id :| id in c.zombies;
      CanTake(d, k, FreeZombie(id));
    } else if c.hw > 0 {
      CanTake(d, k, LockEvent);
    } else {
      if c.flips != [] { ListedMeansEvents(c); }
      CommitGoesOn(c, true);
      CanTake(d, k, CommitStep(c));
    }
  }

  /** In every run, as long as a CRTC is not at rest, some thread of the device can go on
      without a new commit and without a wait timing out. */
  lemma NeverStuck(run: seq<Device>, i: nat, k: CrtcId)
    requires Run(run) && i < |run| && k in run[i].crtcs && !AtRest(run[i].crtcs[k])
    ensures exists j :: CanStep(run[i], j)
  {
    ProgressOnRun(run, i);
    if run[i].eventLock.Some? {
      OwnerGoesOn(run[i]);
    } else {
      FreeGoesOn(run[i], k);
    }
  }

  /** On a CRTC at rest every flip object there ever was has been freed exactly once, and
      every committed event has been sent exactly once. */
  lemma RestMeansDelivered(run: seq<Device>, i: nat, k: CrtcId, x: Id)
    requires Run(run) && i < |run| && k in run[i].crtcs && AtRest(run[i].crtcs[k])
    ensures var c := run[i].crtcs[k];
            && multiset(c.freed)[x] == One(x < c.nextId)
            && Occurs(c.sent, x, true) == Occurs(c.committed, x, true)
  {
    InvOnRun(run, i);
    var c := run[i].crtcs[k];
    assert Places(c, x) == One(x < c.nextId) && EventsLaw(c, x);
  }

  // ---------------------------------------------------------------------------
  // Everything can be brought to its end
  // ---------------------------------------------------------------------------

  /** The load with the rest of a commit that is yet to be applied, when the hardware will
      not answer it. */
  function FullLoad(c: Crtc): nat {
    Load(c) + if c.commit.Admitted? then 13 else 0
  }

  ghost function Total(m: map<CrtcId, Crtc>): nat
    decreases |m|
  {
    if m == map[] then 0 else var k :| k in m; FullLoad(m[k]) + Total(m - {k})
  }

  lemma {:induction false} TotalWithout(m: map<CrtcId, Crtc>, k: CrtcId)
    requires k in m
    ensures Total(m) == FullLoad(m[k]) + Total(m - {k})
    decreases |m|
  {
    var j :| j in m && Total(m) == FullLoad(m[j]) + Total(m - {j});
    if j != k {
      TotalWithout(m - {j}, k);
      TotalWithout(m - {k}, j);
      assert m - {j} - {k} == m - {k} - {j};
    }
  }

  lemma TotalUpdate(m: map<CrtcId, Crtc>, k: CrtcId, c: Crtc)
    requires k in m
    ensures Total(m[k := c]) + FullLoad(m[k]) == Total(m) + FullLoad(c)
  {
    TotalWithout(m, k);
    TotalWithout(m[k := c], k);
    assert m[k := c] - {k} == m - {k};
  }

  /** A step as in CanStep that applies no commit, or applies one without hardware event. */
  ghost predicate Settling(c: Crtc, step: Step, lockFree: bool) {
    Enabled(c, step, lockFree) && !Begins(step) && !step.Timeout? && (step.Apply? ==> step.n == 0)
  }

  lemma SettlingStep(d: Device, k: CrtcId) returns (step: Step)
    requires CanStep(d, k)
    ensures Settling(d.crtcs[k], step, d.eventLock.None?)
  {
    step :| Enabled(d.crtcs[k], step, d.eventLock.None?) && !Begins(step) && !step.Timeout?;
    if step.Apply? { step := Apply(false, 0); }
  }

  lemma SettlingFalls(c: Crtc, step: Step)
    requires Settling(c, step, true)
    ensures FullLoad(Do(c, step)) < FullLoad(c)
  {
    RankFalls(c, step);
  }

  ghost predicate AllAtRest(d: Device) {
    forall k :: k in d.crtcs ==> AtRest(d.crtcs[k])
  }

  /** The same CRTCs with the same flip objects: none has been made since. */
  ghost predicate SameFlips(d: Device, d': Device) {
    d'.crtcs.Keys == d.crtcs.Keys && forall k :: k in d.crtcs ==> d'.crtcs[k].nextId == d.crtcs[k].nextId
  }

  lemma SettlingKeeps(c: Crtc, step: Step)
    requires Settling(c, step, true)
    ensures Do(c, step).nextId == c.nextId
  {
  }

  function After(d: Device, k: CrtcId, step: Step): Device
    requires k in d.crtcs && Enabled(d.crtcs[k], step, true)
  {
    Device(d.crtcs[k := Do(d.crtcs[k], step)], LockAfter(d, k, step))
  }

  lemma AfterSettling(d: Device, k: CrtcId, step: Step)
    requires k in d.crtcs && Settling(d.crtcs[k], step, true)
    ensures SameFlips(d, After(d, k, step)) && Total(After(d, k, step).crtcs) < Total(d.crtcs)
  {
    SettlingKeeps(d.crtcs[k], step);
    SettlingFalls(d.crtcs[k], step);
    TotalUpdate(d.crtcs, k, Do(d.crtcs[k], step));
  }

  lemma ExtendBy(run: seq<Device>, k: CrtcId, step: Step)
    requires Run(run) && k in run[|run| - 1].crtcs
    requires Enabled(run[|run| - 1].crtcs[k], step, run[|run| - 1].eventLock.None?)
    ensures Run(run + [After(run[|run| - 1], k, step)])
  {
    assert DeviceStep(run[|run| - 1], k, step, After(run[|run| - 1], k, step));
  }

  lemma SettleOnce(run: seq<Device>) returns (d': Device)
    requires Run(run) && !AllAtRest(run[|run| - 1])
    ensures Run(run + [d']) && SameFlips(run[|run| - 1], d') && Total(d'.crtcs) < Total(run[|run| - 1].crtcs)
  {
    var d := run[|run| - 1];
    var k :| k in d.crtcs && !AtRest(d.crtcs[k]);
    NeverStuck(run, |run| - 1, k);
    var j :| CanStep(d, j);
    var step := SettlingStep(d, j);
    AfterSettling(d, j, step);
    ExtendBy(run, j, step);
    d' := After(d, j, step);
  }

  /** Every run can be continued, without a new commit and without a timeout, to one at
      whose end the whole device is at rest. */
  lemma {:induction false} CanSettle(run: seq<Device>) returns (run': seq<Device>)
    requires Run(run)
    ensures Run(run') && run <= run' && AllAtRest(run'[|run'| - 1]) && SameFlips(run[|run| - 1], run'[|run'| - 1])
    decreases Total(run[|run| - 1].crtcs)
  {
    if AllAtRest(run[|run| - 1]) {
      run' := run;
    } else {
      var d' := SettleOnce(run);
      run' := CanSettle(run + [d']);
    }
  }
}
