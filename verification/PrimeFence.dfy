/**
 * PRIME fences: the pending list of a fence context, the event handler that
 * signals from its front, and the reference counts of the fences.
 *
 * Everything done under the context's spinlock is one step.  The attach ioctl is
 * several steps, so handlers, other ioctls and reservation objects run between
 * the creation of a fence and the release of the ioctl's own reference to it.
 */
module PrimeFence {
  import opened Common

  /** Fences are numbered in the order of their creation. */
  type Fid = nat

  datatype Cause =
    | ByEvent(value: nat)      // the handler read this value from the semaphore
    | ByWrap(created: Fid)     // this fence was created with a smaller number
    | ByDestroy

  datatype Signal = Signal(f: Fid, cause: Cause)

  /** Progress of the attach ioctl after it has created a fence. */
  datatype Attach = Reserving | MustPut

  datatype State = State(
    pending: seq<Fid>,            // front first
    lastSeqno: nat,
    refs: map<Fid, nat>,          // reference counts of the allocated fences
    attaching: map<Fid, Attach>,  // ioctls in progress, by the fence they created
    resv: multiset<Fid>,          // references held through reservation objects
    alive: bool,                  // the context has not been destroyed
    // History.
    seqnos: seq<nat>,             // sequence numbers of all fences created
    signals: seq<Signal>,
    released: seq<Fid>,
    fault: bool)                  // a released fence was used, or a pending one released

  ghost predicate Init(s: State) {
    s == State([], 0, map[], map[], multiset{}, true, [], [], [], false)
  }

  // ---------------------------------------------------------------------------
  // Operations
  // ---------------------------------------------------------------------------

  /** dma_fence_put */
  function Put(s: State, f: Fid): State {
    if f !in s.refs || s.refs[f] == 0 then s.(fault := true)
    else if s.refs[f] == 1 then
      s.(refs := s.refs - {f}, released := s.released + [f], fault := s.fault || f in s.pending)
    else s.(refs := s.refs[f := s.refs[f] - 1])
  }

  /** dma_fence_get */
  function Get(s: State, f: Fid): State {
    if f !in s.refs then s.(fault := true) else s.(refs := s.refs[f := s.refs[f] + 1])
  }

  /** __nv_drm_prime_fence_signal, on the first fence of the list. */
  function SignalFirst(s: State, cause: Cause): State
    requires s.pending != []
  {
    var f := s.pending[0];
    Put(s.(pending := s.pending[1..],
           signals := s.signals + [Signal(f, cause)],
           fault := s.fault || f !in s.refs), f)
  }

  /** nv_drm_gem_prime_force_fence_signal */
  function ForceSignal(s: State, cause: Cause): State
    decreases |s.pending|
  {
    if s.pending == [] then s else ForceSignal(SignalFirst(s, cause), cause)
  }

  /** The sequence number stored in a fence. */
  function Number(s: State, f: Fid): nat {
    if f < |s.seqnos| then s.seqnos[f] else 0
  }

  function Rest(values: seq<nat>): (r: seq<nat>)
    requires values != []
    ensures r != []
  {
    if |values| == 1 then values else values[1..]
  }

  /** nv_drm_gem_prime_fence_event.  The semaphore is read again in every iteration;
      values are the numbers read, the last one standing for all later reads. */
  function HandleEvent(s: State, values: seq<nat>): State
    requires values != []
    decreases |s.pending|
  {
    if s.pending == [] || Number(s, s.pending[0]) > values[0] then s
    else HandleEvent(SignalFirst(s, ByEvent(values[0])), Rest(values))
  }

  /** __nv_drm_prime_fence_context_create_fence, once the allocation succeeded. */
  function CreateFence(s: State, seqno: nat): State {
    var f := |s.seqnos|;
    var s1 := if seqno < s.lastSeqno then ForceSignal(s, ByWrap(f)) else s;
    s1.(refs := s1.refs[f := 2], pending := s1.pending + [f], lastSeqno := seqno,
        seqnos := s1.seqnos + [seqno], attaching := s1.attaching[f := Reserving])
  }

  datatype Step =
    | Create(seqno: nat)
    | Reserve(f: Fid, ok: bool)   // reserve a slot; if that works, add the exclusive fence
    | PutCaller(f: Fid)
    | ResvGet(f: Fid)
    | ResvPut(f: Fid)
    | Event(values: seq<nat>)
    | Destroy

  predicate Enabled(s: State, step: Step) {
    match step
    case Create(seqno) => s.alive && seqno < 0x1_0000_0000
    case Reserve(f, _) => f in s.attaching && s.attaching[f].Reserving?
    case PutCaller(f) => f in s.attaching && s.attaching[f].MustPut?
    case ResvGet(f) => s.resv[f] > 0
    case ResvPut(f) => s.resv[f] > 0
    case Event(values) => s.alive && values != []
    case Destroy => s.alive && s.attaching == map[]  // an ioctl holds a reference to the context
  }

  function Do(s: State, step: Step): State
    requires Enabled(s, step)
  {
    match step
    case Create(seqno) => CreateFence(s, seqno)
    case Reserve(f, ok) =>
      var s1 := s.(attaching := s.attaching[f := MustPut]);
      if ok then Get(s1, f).(resv := s.resv + multiset{f}) else s1
    case PutCaller(f) => Put(s.(attaching := s.attaching - {f}), f)
    case ResvGet(f) => Get(s, f).(resv := s.resv + multiset{f})
    case ResvPut(f) => Put(s.(resv := s.resv - multiset{f}), f)
    case Event(values) => HandleEvent(s, values)
    case Destroy => ForceSignal(s, ByDestroy).(alive := false)
  }

  ghost predicate Next(s: State, s': State) {
    exists step :: Enabled(s, step) && s' == Do(s, step)
  }

  ghost predicate Run(run: seq<State>) {
    IsRun(run, Init, Next)
  }

  // ---------------------------------------------------------------------------
  // Invariants
  // ---------------------------------------------------------------------------

  function One(b: bool): nat {
    if b then 1 else 0
  }

  /** A fence is allocated exactly while the pending list, its creator or a
      reservation object refers to it, and its count is the number of references. */
  ghost predicate FenceInv(s: State, f: Fid) {
    var holders := One(f in s.pending) + One(f in s.attaching) + s.resv[f];
    && (f in s.refs <==> holders > 0)
    && (f in s.refs ==> s.refs[f] == holders && f < |s.seqnos|)
    && multiset(s.released)[f] == One(f < |s.seqnos| && f !in s.refs)
  }

  /** Fences are signalled in the order of their creation, each once; the pending
      ones are those created but not signalled. */
  ghost predicate FifoInv(s: State) {
    && |s.signals| + |s.pending| == |s.seqnos|
    && (forall k :: 0 <= k < |s.signals| ==> s.signals[k].f == k)
    && (forall k :: 0 <= k < |s.pending| ==> s.pending[k] == |s.signals| + k)
  }

  /** Pending fences are sorted by number, up to the number created last. */
  ghost predicate SortedInv(s: State) {
    && (forall f, g :: |s.signals| <= f <= g < |s.seqnos| ==> s.seqnos[f] <= s.seqnos[g])
    && s.lastSeqno == (if s.seqnos == [] then 0 else s.seqnos[|s.seqnos| - 1])
  }

  ghost predicate Justified(s: State, g: Signal) {
    && g.f < |s.seqnos|
    && match g.cause
       case ByEvent(value) => s.seqnos[g.f] <= value
       case ByWrap(f) => g.f < f < |s.seqnos| && s.seqnos[f] < s.seqnos[f - 1]
       case ByDestroy => !s.alive
  }

  ghost predicate CauseInv(s: State) {
    && (forall k :: 0 <= k < |s.signals| ==> Justified(s, s.signals[k]))
    && (!s.alive ==> s.pending == [])
  }

  ghost predicate RefInv(s: State) {
    !s.fault && forall f: Fid :: FenceInv(s, f)
  }

  ghost predicate Inv(s: State) {
    FifoInv(s) && SortedInv(s) && CauseInv(s) && RefInv(s)
  }

  // ---------------------------------------------------------------------------
  // What signalling does to the list
  // ---------------------------------------------------------------------------

  /** The first n pending fences have been signalled, for the given reasons. */
  ghost predicate Popped(s: State, s': State, causes: seq<Cause>) {
    && |causes| <= |s.pending|
    && s'.pending == s.pending[|causes|..]
    && |s'.signals| == |s.signals| + |causes|
    && s'.signals[..|s.signals|] == s.signals
    && (forall k :: 0 <= k < |causes| ==> s'.signals[|s.signals| + k] == Signal(s.pending[k], causes[k]))
    && s'.seqnos == s.seqnos && s'.lastSeqno == s.lastSeqno && s'.alive == s.alive
    && s'.attaching == s.attaching && s'.resv == s.resv
  }

  lemma PoppedOne(s: State, cause: Cause)
    requires s.pending != []
    ensures Popped(s, SignalFirst(s, cause), [cause])
  {
  }

  lemma PoppedTrans(a: State, b: State, c: State, cause: Cause, causes: seq<Cause>)
    requires Popped(a, b, [cause]) && Popped(b, c, causes)
    ensures Popped(a, c, [cause] + causes)
  {
    var all := [cause] + causes;
    forall k | 0 <= k < |all| ensures c.signals[|a.signals| + k] == Signal(a.pending[k], all[k]) {
      if k == 0 {
        assert c.signals[|a.signals|] == c.signals[..|b.signals|][|a.signals|];
      } else {
        assert c.signals[|b.signals| + (k - 1)] == Signal(b.pending[k - 1], causes[k - 1]);
      }
    }
    assert c.signals[..|a.signals|] == c.signals[..|b.signals|][..|a.signals|];
  }

  function Same(cause: Cause, n: nat): seq<Cause> {
    seq(n, _ => cause)
  }

  /** Force signalling empties the list, from the front, for one reason. */
  lemma {:induction false} ForcePops(s: State, cause: Cause)
    ensures Popped(s, ForceSignal(s, cause), Same(cause, |s.pending|))
    decreases |s.pending|
  {
    if s.pending != [] {
      PoppedOne(s, cause);
      ForcePops(SignalFirst(s, cause), cause);
      PoppedTrans(s, SignalFirst(s, cause), ForceSignal(s, cause), cause, Same(cause, |s.pending| - 1));
      assert [cause] + Same(cause, |s.pending| - 1) == Same(cause, |s.pending|);
    }
  }

  /** The value read in iteration k of the handler. */
  function ValueAt(values: seq<nat>, k: nat): nat
    requires values != []
  {
    if k < |values| then values[k] else values[|values| - 1]
  }

  function EventCauses(values: seq<nat>, n: nat): seq<Cause>
    requires values != []
  {
    seq(n, k requires k >= 0 => ByEvent(ValueAt(values, k)))
  }

  /** The handler signals the n fences at the front whose numbers had been reached
      when they were looked at, and stops at the first that had not. */
  ghost predicate Scanned(s: State, s': State, values: seq<nat>, n: nat)
    requires values != []
  {
    && n <= |s.pending|
    && Popped(s, s', EventCauses(values, n))
    && (forall k :: 0 <= k < n ==> Number(s, s.pending[k]) <= ValueAt(values, k))
    && (n < |s.pending| ==> Number(s, s.pending[n]) > ValueAt(values, n))
  }

  lemma EventCausesCons(values: seq<nat>, m: nat)
    requires values != []
    ensures [ByEvent(values[0])] + EventCauses(Rest(values), m) == EventCauses(values, m + 1)
  {
  }

  lemma ScannedPops(s: State, s1: State, s': State, values: seq<nat>, m: nat)
    requires values != [] && Popped(s, s1, [ByEvent(values[0])]) && Popped(s1, s', EventCauses(Rest(values), m))
    ensures Popped(s, s', EventCauses(values, m + 1))
  {
    PoppedTrans(s, s1, s', ByEvent(values[0]), EventCauses(Rest(values), m));
    EventCausesCons(values, m);
  }

  lemma NextValue(values: seq<nat>, k: nat)
    requires values != []
    ensures ValueAt(Rest(values), k) == ValueAt(values, k + 1)
  {
  }

  lemma ScannedCons(s: State, s1: State, s': State, values: seq<nat>, m: nat)
    requires values != [] && s.pending != [] && Number(s, s.pending[0]) <= values[0]
    requires Popped(s, s1, [ByEvent(values[0])]) && Scanned(s1, s', Rest(values), m)
    ensures Scanned(s, s', values, m + 1)
  {
    ScannedPops(s, s1, s', values, m);
    forall k | 0 < k < m + 1 ensures Number(s, s.pending[k]) <= ValueAt(values, k) {
      assert s1.pending[k - 1] == s.pending[k];
      NextValue(values, k - 1);
    }
    NextValue(values, m);
  }

  lemma {:induction false} EventScans(s: State, values: seq<nat>) returns (n: nat)
    requires values != []
    ensures Scanned(s, HandleEvent(s, values), values, n)
    decreases |s.pending|
  {
    if s.pending == [] || Number(s, s.pending[0]) > values[0] {
      n := 0;
    } else {
      var s1 := SignalFirst(s, ByEvent(values[0]));
      PoppedOne(s, ByEvent(values[0]));
      n := EventScans(s1, Rest(values));
      ScannedCons(s, s1, HandleEvent(s, values), values, n);
      n := n + 1;
    }
  }

  /** The pending fences whose number is at most value, in list order. */
  function Reached(s: State, pending: seq<Fid>, value: nat): seq<Fid> {
    if pending == [] then []
    else (if Number(s, pending[0]) <= value then [pending[0]] else []) + Reached(s, pending[1..], value)
  }

  function Unreached(s: State, pending: seq<Fid>, value: nat): seq<Fid> {
    if pending == [] then []
    else (if Number(s, pending[0]) <= value then [] else [pending[0]]) + Unreached(s, pending[1..], value)
  }

  lemma {:induction false} SplitByValue(s: State, pending: seq<Fid>, value: nat, n: nat)
    requires n <= |pending|
    requires forall k :: 0 <= k < n ==> Number(s, pending[k]) <= value
    requires forall k :: n <= k < |pending| ==> Number(s, pending[k]) > value
    ensures Reached(s, pending, value) == pending[..n] && Unreached(s, pending, value) == pending[n..]
    decreases |pending|
  {
    if pending != [] {
      SplitByValue(s, pending[1..], value, if n == 0 then 0 else n - 1);
      assert pending == [pending[0]] + pending[1..];
      if n > 0 {
        assert pending[..n] == [pending[0]] + pending[1..][..n - 1];
      }
    }
  }

  /** The fences a step signalled. */
  function NewlySignalled(s: State, s': State): seq<Fid>
    requires |s.signals| <= |s'.signals|
  {
    seq<Fid>(|s'.signals| - |s.signals|, k requires 0 <= k < |s'.signals| - |s.signals| => s'.signals[|s.signals| + k].f)
  }

  lemma PoppedSignals(s: State, s': State, causes: seq<Cause>)
    requires Popped(s, s', causes)
    ensures NewlySignalled(s, s') == s.pending[..|causes|]
  {
  }

  /** Behind a fence that is late, all fences are. */
  lemma LateFromHere(s: State, value: nat, n: nat)
    requires FifoInv(s) && SortedInv(s)
    requires n < |s.pending| ==> Number(s, s.pending[n]) > value
    ensures forall k :: n <= k < |s.pending| ==> Number(s, s.pending[k]) > value
  {
  }

  lemma ScanIsFilter(s: State, s': State, value: nat, n: nat)
    requires FifoInv(s) && SortedInv(s) && Scanned(s, s', [value], n)
    ensures |s.signals| <= |s'.signals|
    ensures NewlySignalled(s, s') == Reached(s, s.pending, value)
    ensures s'.pending == Unreached(s, s.pending, value)
  {
    PoppedSignals(s, s', EventCauses([value], n));
    assert forall k: nat :: ValueAt([value], k) == value;
    LateFromHere(s, value, n);
    SplitByValue(s, s.pending, value, n);
  }

  /** Breaking off at the first late fence loses nothing: with the semaphore at
      value, the handler signals all pending fences up to value and no other. */
  lemma HandlerIsFilter(s: State, value: nat)
    requires FifoInv(s) && SortedInv(s)
    ensures var s' := HandleEvent(s, [value]);
            && |s.signals| <= |s'.signals|
            && NewlySignalled(s, s') == Reached(s, s.pending, value)
            && s'.pending == Unreached(s, s.pending, value)
  {
    var n := EventScans(s, [value]);
    ScanIsFilter(s, HandleEvent(s, [value]), value, n);
  }

  /** With a semaphore that moves between lo and hi while the handler runs, every
      pending fence up to lo is signalled and no fence above hi. */
  lemma HandlerBounds(s: State, values: seq<nat>, lo: nat, hi: nat, f: Fid)
    requires FifoInv(s) && SortedInv(s) && values != [] && f in s.pending
    requires forall v :: v in values ==> lo <= v <= hi
    ensures Number(s, f) <= lo ==> f !in HandleEvent(s, values).pending
    ensures Number(s, f) > hi ==> f in HandleEvent(s, values).pending
  {
    var n := EventScans(s, values);
    assert forall k: nat :: ValueAt(values, k) in values;
    var i :| 0 <= i < |s.pending| && s.pending[i] == f;
    if i < n {
      assert Number(s, s.pending[i]) <= ValueAt(values, i);
    } else {
      assert s.pending[n..][i - n] == f;
      assert Number(s, s.pending[n]) > ValueAt(values, n);
    }
  }

  // ---------------------------------------------------------------------------
  // Every step keeps the invariants
  // ---------------------------------------------------------------------------

  lemma FifoPopped(s: State, s': State, causes: seq<Cause>)
    requires FifoInv(s) && SortedInv(s) && Popped(s, s', causes)
    ensures FifoInv(s') && SortedInv(s')
  {
    forall k | 0 <= k < |s'.signals| ensures s'.signals[k].f == k {
      if k < |s.signals| {
        assert s'.signals[k] == s'.signals[..|s.signals|][k];
      } else {
        assert s'.signals[|s.signals| + (k - |s.signals|)].f == s.pending[k - |s.signals|];
      }
    }
  }

  lemma CausePopped(s: State, s': State, causes: seq<Cause>)
    requires FifoInv(s) && CauseInv(s) && s.alive && Popped(s, s', causes)
    requires forall k :: 0 <= k < |causes| ==> Justified(s, Signal(s.pending[k], causes[k]))
    ensures CauseInv(s')
  {
    forall k | 0 <= k < |s'.signals| ensures Justified(s', s'.signals[k]) {
      if k < |s.signals| {
        assert s'.signals[k] == s'.signals[..|s.signals|][k];
      } else {
        assert s'.signals[|s.signals| + (k - |s.signals|)] ==
               Signal(s.pending[k - |s.signals|], causes[k - |s.signals|]);
      }
    }
  }

  /** f has one reference more than holders. */
  ghost predicate Surplus(s: State, f: Fid) {
    && f in s.refs && s.refs[f] == One(f in s.pending) + One(f in s.attaching) + s.resv[f] + 1
    && f < |s.seqnos| && multiset(s.released)[f] == 0
  }

  lemma PutSelf(s: State, f: Fid)
    requires Surplus(s, f)
    ensures FenceInv(Put(s, f), f) && Put(s, f).fault == s.fault
  {
  }

  lemma PutOther(s: State, f: Fid, g: Fid)
    requires g != f && f in s.refs && s.refs[f] > 0 && FenceInv(s, g)
    ensures FenceInv(Put(s, f), g)
  {
  }

  lemma PutKeeps(s: State, f: Fid, g: Fid)
    requires Surplus(s, f) && (g != f ==> FenceInv(s, g))
    ensures FenceInv(Put(s, f), g) && Put(s, f).fault == s.fault
  {
    PutSelf(s, f);
    if g != f { PutOther(s, f, g); }
  }

  lemma SignalRefs(s: State, cause: Cause)
    requires FifoInv(s) && RefInv(s) && s.pending != []
    ensures RefInv(SignalFirst(s, cause))
  {
    var x := s.pending[0];
    assert FenceInv(s, x);
    assert s.pending == [x] + s.pending[1..];
    assert x !in s.pending[1..];
    var s1 := s.(pending := s.pending[1..], signals := s.signals + [Signal(x, cause)]);
    forall f: Fid ensures FenceInv(SignalFirst(s, cause), f) && !SignalFirst(s, cause).fault {
      assert FenceInv(s, f);
      PutKeeps(s1, x, f);
    }
  }

  lemma SignalKeeps(s: State, cause: Cause)
    requires FifoInv(s) && SortedInv(s) && RefInv(s) && s.pending != []
    ensures var s' := SignalFirst(s, cause); FifoInv(s') && SortedInv(s') && RefInv(s')
  {
    PoppedOne(s, cause);
    FifoPopped(s, SignalFirst(s, cause), [cause]);
    SignalRefs(s, cause);
  }

  lemma {:induction false} ForceKeeps(s: State, cause: Cause)
    requires FifoInv(s) && SortedInv(s) && RefInv(s)
    ensures var s' := ForceSignal(s, cause); FifoInv(s') && SortedInv(s') && RefInv(s')
    decreases |s.pending|
  {
    if s.pending != [] {
      SignalKeeps(s, cause);
      ForceKeeps(SignalFirst(s, cause), cause);
    }
  }

  lemma {:induction false} EventKeeps(s: State, values: seq<nat>)
    requires FifoInv(s) && SortedInv(s) && RefInv(s) && values != []
    ensures var s' := HandleEvent(s, values); FifoInv(s') && SortedInv(s') && RefInv(s')
    decreases |s.pending|
  {
    if s.pending != [] && Number(s, s.pending[0]) <= values[0] {
      SignalKeeps(s, ByEvent(values[0]));
      EventKeeps(SignalFirst(s, ByEvent(values[0])), Rest(values));
    }
  }

  lemma EventStep(s: State, values: seq<nat>)
    requires Inv(s) && values != [] && s.alive
    ensures Inv(HandleEvent(s, values))
  {
    var n := EventScans(s, values);
    EventKeeps(s, values);
    CausePopped(s, HandleEvent(s, values), EventCauses(values, n));
  }

  /** Appending a new fence to a list that its number does not fall below. */
  function Append(s: State, seqno: nat): State {
    var f := |s.seqnos|;
    s.(refs := s.refs[f := 2], pending := s.pending + [f], lastSeqno := seqno,
       seqnos := s.seqnos + [seqno], attaching := s.attaching[f := Reserving])
  }

  lemma AppendRefs(s: State, seqno: nat, f: Fid)
    requires FenceInv(s, f) && FenceInv(s, |s.seqnos|)
    ensures FenceInv(Append(s, seqno), f)
  {
  }

  lemma AppendKeeps(s: State, seqno: nat)
    requires FifoInv(s) && SortedInv(s) && RefInv(s)
    requires s.pending == [] || s.lastSeqno <= seqno
    ensures var s' := Append(s, seqno); FifoInv(s') && SortedInv(s') && RefInv(s')
  {
    forall f: Fid ensures FenceInv(Append(s, seqno), f) {
      assert FenceInv(s, f) && FenceInv(s, |s.seqnos|);
      AppendRefs(s, seqno, f);
    }
  }

  lemma WrapCauses(s: State, seqno: nat)
    requires FifoInv(s) && SortedInv(s) && CauseInv(s) && s.alive && seqno < s.lastSeqno
    ensures CauseInv(Append(ForceSignal(s, ByWrap(|s.seqnos|)), seqno))
  {
    var cause := ByWrap(|s.seqnos|);
    ForcePops(s, cause);
    var s' := Append(ForceSignal(s, cause), seqno);
    forall k | 0 <= k < |s'.signals| ensures Justified(s', s'.signals[k]) {
      if k < |s.signals| {
        assert s'.signals[k] == s'.signals[..|s.signals|][k];
        assert Justified(s, s.signals[k]);
      } else {
        assert s'.signals[|s.signals| + (k - |s.signals|)] == Signal(s.pending[k - |s.signals|], cause);
      }
    }
  }

  lemma CreateStep(s: State, seqno: nat)
    requires Inv(s) && s.alive
    ensures Inv(CreateFence(s, seqno))
  {
    if seqno < s.lastSeqno {
      var cause := ByWrap(|s.seqnos|);
      ForcePops(s, cause);
      ForceKeeps(s, cause);
      AppendKeeps(ForceSignal(s, cause), seqno);
      WrapCauses(s, seqno);
    } else {
      AppendKeeps(s, seqno);
      assert forall k :: 0 <= k < |s.signals| ==> Justified(s, s.signals[k]);
    }
  }

  lemma DestroyCauses(s: State)
    requires FifoInv(s) && CauseInv(s)
    ensures CauseInv(ForceSignal(s, ByDestroy).(alive := false))
  {
    ForcePops(s, ByDestroy);
    var s' := ForceSignal(s, ByDestroy).(alive := false);
    forall k | 0 <= k < |s'.signals| ensures Justified(s', s'.signals[k]) {
      if k < |s.signals| {
        assert s'.signals[k] == s'.signals[..|s.signals|][k];
        assert Justified(s, s.signals[k]);
      } else {
        assert s'.signals[|s.signals| + (k - |s.signals|)] == Signal(s.pending[k - |s.signals|], ByDestroy);
      }
    }
  }

  lemma DestroyStep(s: State)
    requires Inv(s)
    ensures Inv(ForceSignal(s, ByDestroy).(alive := false))
  {
    DestroyCauses(s);
    ForceKeeps(s, ByDestroy);
    var f := ForceSignal(s, ByDestroy);
    forall g: Fid ensures FenceInv(f.(alive := false), g) { assert FenceInv(f, g); }
  }

  lemma ReserveRefs(s: State, f: Fid, ok: bool, g: Fid)
    requires FenceInv(s, f) && FenceInv(s, g) && Enabled(s, Reserve(f, ok))
    ensures FenceInv(Do(s, Reserve(f, ok)), g) && Do(s, Reserve(f, ok)).fault == s.fault
  {
  }

  lemma ResvGetRefs(s: State, f: Fid, g: Fid)
    requires FenceInv(s, f) && FenceInv(s, g) && Enabled(s, ResvGet(f))
    ensures FenceInv(Do(s, ResvGet(f)), g) && Do(s, ResvGet(f)).fault == s.fault
  {
  }

  lemma PutCallerRefs(s: State, f: Fid, g: Fid)
    requires FenceInv(s, f) && FenceInv(s, g) && Enabled(s, PutCaller(f))
    ensures FenceInv(Do(s, PutCaller(f)), g) && Do(s, PutCaller(f)).fault == s.fault
  {
    PutKeeps(s.(attaching := s.attaching - {f}), f, g);
  }

  lemma ResvPutRefs(s: State, f: Fid, g: Fid)
    requires FenceInv(s, f) && FenceInv(s, g) && Enabled(s, ResvPut(f))
    ensures FenceInv(Do(s, ResvPut(f)), g) && Do(s, ResvPut(f)).fault == s.fault
  {
    PutKeeps(s.(resv := s.resv - multiset{f}), f, g);
  }

  predicate TouchesRefs(step: Step) {
    step.Reserve? || step.PutCaller? || step.ResvGet? || step.ResvPut?
  }

  lemma ReferenceRefs(s: State, step: Step, g: Fid)
    requires RefInv(s) && Enabled(s, step) && TouchesRefs(step)
    ensures FenceInv(Do(s, step), g) && !Do(s, step).fault
  {
    assert FenceInv(s, g) && FenceInv(s, step.f);
    match step
    case Reserve(f, ok) => ReserveRefs(s, f, ok, g);
    case PutCaller(f) => PutCallerRefs(s, f, g);
    case ResvGet(f) => ResvGetRefs(s, f, g);
    case ResvPut(f) => ResvPutRefs(s, f, g);
  }

  ghost predicate SameList(s: State, s': State) {
    && s'.pending == s.pending && s'.signals == s.signals && s'.seqnos == s.seqnos
    && s'.lastSeqno == s.lastSeqno && s'.alive == s.alive
  }

  lemma ReferenceFrame(s: State, step: Step)
    requires Enabled(s, step) && TouchesRefs(step)
    ensures SameList(s, Do(s, step))
  {
  }

  lemma SameListKeeps(s: State, s': State)
    requires FifoInv(s) && SortedInv(s) && CauseInv(s) && SameList(s, s')
    ensures FifoInv(s') && SortedInv(s') && CauseInv(s')
  {
    assert forall k :: 0 <= k < |s.signals| ==> Justified(s, s.signals[k]);
  }

  /** Steps that only take or drop references. */
  lemma ReferenceStep(s: State, step: Step)
    requires Inv(s) && Enabled(s, step) && TouchesRefs(step)
    ensures Inv(Do(s, step))
  {
    ReferenceFrame(s, step);
    SameListKeeps(s, Do(s, step));
    forall g: Fid ensures FenceInv(Do(s, step), g) && !Do(s, step).fault { ReferenceRefs(s, step, g); }
    ReferenceRefs(s, step, 0);
  }

  lemma InvStep(s: State, s': State)
    requires Inv(s) && Next(s, s')
    ensures Inv(s')
  {
    var step :| Enabled(s, step) && s' == Do(s, step);
    match step
    case Create(seqno) => CreateStep(s, seqno);
    case Event(values) => EventStep(s, values);
    case Destroy => DestroyStep(s);
    case _ => ReferenceStep(s, step);
  }

  lemma InvOnRun(run: seq<State>, i: nat)
    requires Run(run) && i < |run|
    ensures Inv(run[i])
  {
    forall s, s' | Inv(s) && Next(s, s') ensures Inv(s') { InvStep(s, s'); }
    forall s | Init(s) ensures Inv(s) { InitIsFine(s); }
    Always(run, Init, Next, Inv, i);
  }

  lemma InitIsFine(s: State)
    requires Init(s)
    ensures Inv(s)
  {
    assert forall f: Fid :: FenceInv(s, f);
  }

  // ---------------------------------------------------------------------------
  // Theorems about all runs
  // ---------------------------------------------------------------------------

  /** Fences are signalled in creation order, each exactly once; what is pending is
      sorted by sequence number, which is what the handler's early exit relies on. */
  lemma SignalOrder(run: seq<State>, i: nat)
    requires Run(run) && i < |run|
    ensures var s := run[i];
            && |s.signals| + |s.pending| == |s.seqnos|
            && (forall k :: 0 <= k < |s.signals| ==> s.signals[k].f == k)
            && (forall j, k :: 0 <= j <= k < |s.pending| ==>
                  Number(s, s.pending[j]) <= Number(s, s.pending[k]) <= s.lastSeqno)
            && (!s.alive ==> |s.signals| == |s.seqnos|)
  {
    InvOnRun(run, i);
  }

  /** A fence is signalled before its number is reached only because a number went
      backwards afterwards, or because the context was destroyed. */
  lemma NoEarlySignal(run: seq<State>, i: nat, k: nat)
    requires Run(run) && i < |run| && k < |run[i].signals|
    ensures var s := run[i];
            var f := s.signals[k].f;
            && f < |s.seqnos|
            && match s.signals[k].cause
               case ByEvent(value) => s.seqnos[f] <= value
               case ByWrap(g) => f < g < |s.seqnos| && s.seqnos[g] < s.seqnos[g - 1]
               case ByDestroy => !s.alive
  {
    InvOnRun(run, i);
    assert Justified(run[i], run[i].signals[k]);
  }

  /** With numbers that never decrease, a live context signals only reached fences. */
  lemma MonotoneMeansReached(run: seq<State>, i: nat, k: nat)
    requires Run(run) && i < |run| && k < |run[i].signals| && run[i].alive
    requires forall g :: 0 < g < |run[i].seqnos| ==> run[i].seqnos[g - 1] <= run[i].seqnos[g]
    ensures run[i].signals[k].cause.ByEvent?
    ensures Number(run[i], run[i].signals[k].f) <= run[i].signals[k].cause.value
  {
    NoEarlySignal(run, i, k);
  }

  /** Reference counts equal the number of references, no fence is used after it
      was released or released while listed, and none is released twice. */
  lemma FenceLifetime(run: seq<State>, i: nat, f: Fid)
    requires Run(run) && i < |run|
    ensures var s := run[i];
            var holders := One(f in s.pending) + One(f in s.attaching) + s.resv[f];
            && !s.fault
            && (f in s.refs <==> holders > 0)
            && (f in s.refs ==> s.refs[f] == holders)
            && multiset(s.released)[f] == One(f < |s.seqnos| && holders == 0)
  {
    InvOnRun(run, i);
    assert FenceInv(run[i], f);
  }

  // ---------------------------------------------------------------------------
  // Attaching
  // ---------------------------------------------------------------------------

  /** References through reservation objects come from successful reservations and from
      those who look the fence up there, and go one at a time. */
  lemma ResvStep(s: State, step: Step, f: Fid)
    requires Enabled(s, step)
    ensures Do(s, step).resv[f] ==
              s.resv[f] + One(step == Reserve(f, true) || step == ResvGet(f)) - One(step == ResvPut(f))
  {
    match step
    case Create(seqno) => ForcePops(s, ByWrap(|s.seqnos|));
    case Event(values) => var n := EventScans(s, values);
    case Destroy => ForcePops(s, ByDestroy);
    case _ =>
  }

  /** Between i and j no reservation object gives up a reference to f. */
  ghost predicate Kept(run: seq<State>, i: nat, j: nat, f: Fid)
    requires j < |run|
  {
    forall m: nat :: i <= m < j ==> !(Enabled(run[m], ResvPut(f)) && run[m + 1] == Do(run[m], ResvPut(f)))
  }

  lemma {:induction false} ResvGrows(run: seq<State>, i: nat, j: nat, f: Fid)
    requires Run(run) && i <= j < |run| && Kept(run, i, j, f)
    ensures run[i].resv[f] <= run[j].resv[f]
    decreases j
  {
    if i < j {
      ResvGrows(run, i, j - 1, f);
      NextAt(run, Init, Next, j - 1);
      var step :| Enabled(run[j - 1], step) && run[j] == Do(run[j - 1], step);
      ResvStep(run[j - 1], step, f);
    }
  }

  /** The attach ioctl attaches: from the moment the reservation succeeded, whatever else
      happens (signalling, the release of the ioctl's own reference, the destruction of
      the context), the fence stays allocated until a reservation object gives it up. */
  lemma AttachedStays(run: seq<State>, i: nat, j: nat, f: Fid)
    requires Run(run) && i < j < |run|
    requires Enabled(run[i], Reserve(f, true)) && run[i + 1] == Do(run[i], Reserve(f, true))
    requires Kept(run, i + 1, j, f)
    ensures run[j].resv[f] >= 1 && f in run[j].refs && f !in run[j].released
  {
    ResvStep(run[i], Reserve(f, true), f);
    ResvGrows(run, i + 1, j, f);
    InvOnRun(run, j);
    assert FenceInv(run[j], f);
  }

  lemma Extend(run: seq<State>, step: Step) returns (run': seq<State>)
    requires Run(run) && Enabled(run[|run| - 1], step)
    ensures Run(run') && run' == run + [Do(run[|run| - 1], step)]
  {
    run' := run + [Do(run[|run| - 1], step)];
    assert Next(run[|run| - 1], run'[|run|]);
  }

  const ATTACHED := State([0], 1, map[0 := 2], map[], multiset{0}, true, [1], [], [], false)

  lemma AttachedIsReachable() returns (run: seq<State>)
    ensures Run(run) && run[|run| - 1] == ATTACHED
  {
    run := [State([], 0, map[], map[], multiset{}, true, [], [], [], false)];
    run := Extend(run, Create(1));
    run := Extend(run, Reserve(0, true));
    run := Extend(run, PutCaller(0));
    var s := run[|run| - 1];
    assert s.refs == ATTACHED.refs && s.attaching == map[];
  }

  const SIGNALLED := State([], 1, map[0 := 1], map[], multiset{0}, true, [1], [Signal(0, ByEvent(1))], [], false)

  lemma SignalAttached()
    ensures HandleEvent(ATTACHED, [1]) == SIGNALLED
  {
    var s := SignalFirst(ATTACHED, ByEvent(1));
    assert s.refs == SIGNALLED.refs && s.pending == [];
    assert HandleEvent(s, Rest([1])) == s;
  }

  /** For instance: a fence that was attached, and signalled after the ioctl was over, is
      kept by the reservation object alone, and released when that gives it up. */
  lemma AttachedRun() returns (run: seq<State>)
    ensures Run(run) && |run| >= 2
    ensures run[|run| - 2] == SIGNALLED && SIGNALLED.refs == map[0 := 1]
    ensures run[|run| - 1].refs == map[] && run[|run| - 1].released == [0]
  {
    run := AttachedIsReachable();
    SignalAttached();
    run := Extend(run, Event([1]));
    run := Extend(run, ResvPut(0));
    assert run[|run| - 1].refs == map[];
  }

  // ---------------------------------------------------------------------------
  // The order of releases
  // ---------------------------------------------------------------------------

  /** The GPU writes the numbers of the fences to the semaphore in the order of their
      creation; done of them have been written.  early are the fences that were signalled,
      by whatever path, before their own number was written. */
  datatype Gpu = Gpu(s: State, initial: nat, done: nat, early: set<Fid>)

  datatype GpuStep =
    | Host(step: Step)
    | Release
    | Interrupt(counts: seq<nat>)   // how many numbers had been written at each read

  /** What the semaphore holds after r releases. */
  function SemAt(initial: nat, seqnos: seq<nat>, r: nat): nat
    requires r <= |seqnos|
  {
    if r == 0 then initial else seqnos[r - 1]
  }

  ghost predicate GpuInit(g: Gpu) {
    Init(g.s) && g.done == 0 && g.early == {}
  }

  predicate GpuEnabled(g: Gpu, step: GpuStep) {
    match step
    case Host(step) => !step.Event? && Enabled(g.s, step)
    case Release => g.done < |g.s.seqnos|
    case Interrupt(counts) =>
      && g.s.alive && counts != [] && g.done <= counts[0]
      && (forall i, j :: 0 <= i < j < |counts| ==> counts[i] <= counts[j])
      && (forall i :: 0 <= i < |counts| ==> counts[i] <= |g.s.seqnos|)
  }

  function ReadValues(initial: nat, seqnos: seq<nat>, counts: seq<nat>): (values: seq<nat>)
    requires forall i :: 0 <= i < |counts| ==> counts[i] <= |seqnos|
    ensures |values| == |counts|
    ensures forall i :: 0 <= i < |counts| ==> values[i] == SemAt(initial, seqnos, counts[i])
  {
    if counts == [] then [] else [SemAt(initial, seqnos, counts[0])] + ReadValues(initial, seqnos, counts[1..])
  }

  /** The fences signalled between s and s' before they were released. */
  function EarlyIn(s: State, s': State, counts: seq<nat>): set<Fid>
    requires counts != []
  {
    set f | |s.signals| <= f < |s'.signals| && Unreleased(s, counts, f)
  }

  /** When f was looked at, its number had not been written. */
  predicate Unreleased(s: State, counts: seq<nat>, f: Fid)
    requires counts != []
  {
    |s.signals| <= f && ValueAt(counts, f - |s.signals|) <= f
  }

  function GpuDo(g: Gpu, step: GpuStep): Gpu
    requires GpuEnabled(g, step)
  {
    match step
    case Host(step) =>
      var s' := Do(g.s, step);
      g.(s := s', early := g.early + EarlyIn(g.s, s', [g.done]))
    case Release => g.(done := g.done + 1)
    case Interrupt(counts) =>
      var s' := HandleEvent(g.s, ReadValues(g.initial, g.s.seqnos, counts));
      Gpu(s', g.initial, counts[|counts| - 1], g.early + EarlyIn(g.s, s', counts))
  }

  ghost predicate GpuNext(g: Gpu, g': Gpu) {
    exists step :: GpuEnabled(g, step) && g' == GpuDo(g, step)
  }

  ghost predicate GpuRun(run: seq<Gpu>) {
    IsRun(run, GpuInit, GpuNext)
  }

  /** The number of f is not above that of an earlier release. */
  ghost predicate NotAbove(initial: nat, seqnos: seq<nat>, f: Fid, r: nat) {
    r <= f < |seqnos| && seqnos[f] <= SemAt(initial, seqnos, r)
  }

  /** A number after that of f goes backwards. */
  ghost predicate Falls(seqnos: seq<nat>, f: Fid, h: Fid) {
    f < h < |seqnos| && seqnos[h] < seqnos[h - 1]
  }

  /** What the numbers say about f: its own is not above that of an earlier release, or
      a later one goes backwards. */
  ghost predicate CanBeEarly(initial: nat, seqnos: seq<nat>, f: Fid) {
    (exists r: nat :: NotAbove(initial, seqnos, f, r)) || (exists h: Fid :: Falls(seqnos, f, h))
  }

  /** f was signalled, and if by the handler, then with a number not above one written. */
  ghost predicate Explained(initial: nat, s: State, f: Fid) {
    && f < |s.signals|
    && (s.signals[f].cause.ByEvent? ==> exists r: nat :: NotAbove(initial, s.seqnos, f, r))
  }

  ghost predicate GpuInv(g: Gpu) {
    && Inv(g.s) && g.done <= |g.s.seqnos|
    && forall f :: f in g.early ==> Explained(g.initial, g.s, f)
  }

  /** What has been recorded stays as it is. */
  lemma HistoryGrows(s: State, step: Step)
    requires Enabled(s, step)
    ensures s.seqnos <= Do(s, step).seqnos && s.signals <= Do(s, step).signals
  {
    match step
    case Create(seqno) => ForcePops(s, ByWrap(|s.seqnos|));
    case Event(values) => var n := EventScans(s, values);
    case Destroy => ForcePops(s, ByDestroy);
    case _ => ReferenceFrame(s, step);
  }

  lemma ExplainedGrows(initial: nat, s: State, s': State, f: Fid)
    requires Explained(initial, s, f) && s.seqnos <= s'.seqnos && s.signals <= s'.signals
    ensures Explained(initial, s', f)
  {
    assert s'.signals[f] == s.signals[f];
    if s.signals[f].cause.ByEvent? {
      var r: nat :| NotAbove(initial, s.seqnos, f, r);
      assert NotAbove(initial, s'.seqnos, f, r);
    }
  }

  /** The step empties the list. */
  predicate Forces(s: State, step: Step) {
    step.Destroy? || (step.Create? && step.seqno < s.lastSeqno)
  }

  lemma ForcedSignals(s: State, step: Step)
    requires FifoInv(s) && Enabled(s, step) && !step.Event?
    ensures var s' := Do(s, step);
            && |s'.signals| == (if Forces(s, step) then |s.seqnos| else |s.signals|)
            && forall k :: |s.signals| <= k < |s'.signals| ==> !s'.signals[k].cause.ByEvent?
  {
    match step
    case Create(seqno) =>
      var cause := ByWrap(|s.seqnos|);
      ForcePops(s, cause);
      if Forces(s, step) { ForcedCause(s, cause); }
    case Destroy =>
      ForcePops(s, ByDestroy);
      ForcedCause(s, ByDestroy);
    case _ => ReferenceFrame(s, step);
  }

  lemma ForcedCause(s: State, cause: Cause)
    ensures var s' := ForceSignal(s, cause);
            |s.signals| <= |s'.signals| && forall k :: |s.signals| <= k < |s'.signals| ==> s'.signals[k].cause == cause
  {
    ForcePops(s, cause);
    var s' := ForceSignal(s, cause);
    forall k | |s.signals| <= k < |s'.signals| ensures s'.signals[k].cause == cause {
      var i := k - |s.signals|;
      assert s'.signals[|s.signals| + i] == Signal(s.pending[i], Same(cause, |s.pending|)[i]);
    }
  }

  /** A number that goes backwards and the destruction of the context signal exactly the
      pending fences, and those among them early whose number is not written yet; no
      other step outside the handler signals anything. */
  lemma ForcedEarly(g: Gpu, step: Step, f: Fid)
    requires GpuInv(g) && GpuEnabled(g, Host(step))
    ensures f in EarlyIn(g.s, Do(g.s, step), [g.done]) <==>
              Forces(g.s, step) && f in g.s.pending && g.done <= f
  {
    ForcedSignals(g.s, step);
    if |g.s.signals| <= f < |g.s.seqnos| { assert g.s.pending[f - |g.s.signals|] == f; }
  }

  lemma HostKeeps(g: Gpu, step: Step)
    requires GpuInv(g) && GpuEnabled(g, Host(step))
    ensures GpuInv(GpuDo(g, Host(step)))
  {
    var s' := Do(g.s, step);
    InvStep(g.s, s');
    HistoryGrows(g.s, step);
    ForcedSignals(g.s, step);
    forall f | f in GpuDo(g, Host(step)).early ensures Explained(g.initial, s', f) {
      if f in g.early { ExplainedGrows(g.initial, g.s, s', f); }
    }
  }

  /** A fence signalled early had a number not above one already written. */
  lemma EarlyMeansNotAbove(s: State, initial: nat, counts: seq<nat>, f: Fid)
    requires Inv(s) && counts != [] && forall i :: 0 <= i < |counts| ==> counts[i] <= |s.seqnos|
    requires f in EarlyIn(s, HandleEvent(s, ReadValues(initial, s.seqnos, counts)), counts)
    ensures exists r: nat :: NotAbove(initial, s.seqnos, f, r)
  {
    var values := ReadValues(initial, s.seqnos, counts);
    var n := EventScans(s, values);
    var k := f - |s.signals|;
    assert Number(s, s.pending[k]) <= ValueAt(values, k);
    assert NotAbove(initial, s.seqnos, f, ValueAt(counts, k));
  }

  lemma InterruptKeeps(g: Gpu, counts: seq<nat>)
    requires GpuInv(g) && GpuEnabled(g, Interrupt(counts))
    ensures GpuInv(GpuDo(g, Interrupt(counts)))
  {
    var values := ReadValues(g.initial, g.s.seqnos, counts);
    EventStep(g.s, values);
    HistoryGrows(g.s, Event(values));
    var g' := GpuDo(g, Interrupt(counts));
    var n := EventScans(g.s, values);
    forall f | f in g'.early ensures Explained(g.initial, g'.s, f) {
      if f in g.early {
        ExplainedGrows(g.initial, g.s, g'.s, f);
      } else {
        EarlyMeansNotAbove(g.s, g.initial, counts, f);
      }
    }
  }

  lemma GpuInvNext(g: Gpu, g': Gpu)
    requires GpuInv(g) && GpuNext(g, g')
    ensures GpuInv(g')
  {
    var step :| GpuEnabled(g, step) && g' == GpuDo(g, step);
    match step
    case Host(step) => HostKeeps(g, step);
    case Release =>
    case Interrupt(counts) => InterruptKeeps(g, counts);
  }

  lemma GpuInvOnRun(run: seq<Gpu>, i: nat)
    requires GpuRun(run) && i < |run|
    ensures GpuInv(run[i])
  {
    forall g | GpuInit(g) ensures GpuInv(g) { InitIsFine(g.s); }
    forall g, g' | GpuInv(g) && GpuNext(g, g') ensures GpuInv(g') { GpuInvNext(g, g'); }
    Always(run, GpuInit, GpuNext, GpuInv, i);
  }

  /** Every number is above the initial value and above all earlier numbers. */
  predicate Rising(initial: nat, seqnos: seq<nat>) {
    && (forall i :: 0 <= i < |seqnos| ==> initial < seqnos[i])
    && (forall i, j :: 0 <= i < j < |seqnos| ==> seqnos[i] < seqnos[j])
  }

  lemma RisingExcludes(initial: nat, seqnos: seq<nat>, f: Fid)
    requires Rising(initial, seqnos)
    ensures !CanBeEarly(initial, seqnos, f)
  {
  }

  /** In every run, a fence that is signalled before its release is signalled because the
      context is destroyed, or has a number not above that of an earlier release, or is
      followed by a number that goes backwards. */
  lemma EarlyIsExplained(run: seq<Gpu>, i: nat, f: Fid)
    requires GpuRun(run) && i < |run| && f in run[i].early
    ensures var g := run[i];
            && f < |g.s.signals|
            && (g.s.signals[f].cause.ByDestroy? || CanBeEarly(g.initial, g.s.seqnos, f))
            && (g.s.alive ==> CanBeEarly(g.initial, g.s.seqnos, f))
  {
    GpuInvOnRun(run, i);
    var g := run[i];
    assert Explained(g.initial, g.s, f) && Justified(g.s, g.s.signals[f]);
    match g.s.signals[f].cause
    case ByWrap(h) => assert Falls(g.s.seqnos, f, h);
    case _ =>
  }

  /** With rising numbers only the destruction of the context signals a fence before its
      release; while the context lives, none is. */
  lemma RisingIsNeverEarly(run: seq<Gpu>, i: nat)
    requires GpuRun(run) && i < |run| && Rising(run[i].initial, run[i].s.seqnos)
    ensures run[i].s.alive ==> run[i].early == {}
    ensures forall f :: f in run[i].early ==> f < |run[i].s.signals| && run[i].s.signals[f].cause.ByDestroy?
  {
    forall f | f in run[i].early
      ensures f < |run[i].s.signals| && run[i].s.signals[f].cause.ByDestroy? && !run[i].s.alive
    {
      EarlyIsExplained(run, i, f);
      RisingExcludes(run[i].initial, run[i].s.seqnos, f);
    }
  }

  /** With a steady semaphore the handler signals a fence early if and only if the number
      of the oldest fence that is neither signalled nor released is not above the number
      that was written last. */
  lemma EarlyIff(g: Gpu, r: nat)
    requires GpuInv(g) && GpuEnabled(g, Interrupt([r]))
    ensures var s := g.s;
            var oldest := if r < |s.signals| then |s.signals| else r;
            EarlyIn(s, HandleEvent(s, ReadValues(g.initial, s.seqnos, [r])), [r]) != {} <==>
              oldest < |s.seqnos| && s.seqnos[oldest] <= SemAt(g.initial, s.seqnos, r)
  {
    var s, v := g.s, SemAt(g.initial, g.s.seqnos, r);
    var s' := HandleEvent(s, ReadValues(g.initial, s.seqnos, [r]));
    var u := if r < |s.signals| then |s.signals| else r;
    if u < |s.seqnos| && s.seqnos[u] <= v {
      OldestIsSignalled(g, r, u);
    }
    if f :| f in EarlyIn(s, s', [r]) {
      SignalledIsReached(g, r, f);
    }
  }

  lemma OldestIsSignalled(g: Gpu, r: nat, u: nat)
    requires GpuInv(g) && GpuEnabled(g, Interrupt([r])) && r <= u && |g.s.signals| <= u < |g.s.seqnos|
    requires g.s.seqnos[u] <= SemAt(g.initial, g.s.seqnos, r)
    ensures var g' := GpuDo(g, Interrupt([r])); g'.s.seqnos == g.s.seqnos && u in EarlyIn(g.s, g'.s, [r])
  {
    var s, v := g.s, SemAt(g.initial, g.s.seqnos, r);
    var values := ReadValues(g.initial, s.seqnos, [r]);
    assert values == [v];
    assert s.pending[u - |s.signals|] == u;
    HandlerBounds(s, values, v, v, u);
    EventKeeps(s, values);
    var n := EventScans(s, values);
    SignalledIs(HandleEvent(s, values), u);
    assert Unreleased(s, [r], u);
  }

  lemma SignalledIsReached(g: Gpu, r: nat, f: Fid)
    requires GpuInv(g) && GpuEnabled(g, Interrupt([r]))
    requires f in EarlyIn(g.s, GpuDo(g, Interrupt([r])).s, [r])
    ensures f < |g.s.seqnos| && g.s.seqnos[f] <= SemAt(g.initial, g.s.seqnos, r)
  {
    var s := g.s;
    var values := ReadValues(g.initial, s.seqnos, [r]);
    var n := EventScans(s, values);
    assert Number(s, s.pending[f - |s.signals|]) <= ValueAt(values, f - |s.signals|);
  }

  lemma SignalledIs(s: State, f: Fid)
    requires FifoInv(s) && f < |s.seqnos|
    ensures f < |s.signals| <==> f !in s.pending
  {
    if f >= |s.signals| { assert s.pending[f - |s.signals|] == f; }
  }

  lemma GpuExtend(run: seq<Gpu>, step: GpuStep) returns (run': seq<Gpu>)
    requires GpuRun(run) && GpuEnabled(run[|run| - 1], step)
    ensures GpuRun(run') && run' == run + [GpuDo(run[|run| - 1], step)]
  {
    run' := run + [GpuDo(run[|run| - 1], step)];
    assert GpuNext(run[|run| - 1], run'[|run|]);
  }

  lemma GpuStart(initial: nat) returns (run: seq<Gpu>)
    ensures GpuRun(run)
    ensures var g := run[|run| - 1]; g.initial == initial && Init(g.s) && g.done == 0 && g.early == {}
  {
    run := [Gpu(State([], 0, map[], map[], multiset{}, true, [], [], [], false), initial, 0, {})];
  }

  /** g' comes from g by attaching fences with the numbers xs, without a release: what is
      signalled meanwhile and not written yet is signalled early. */
  ghost predicate Attached(g: Gpu, g': Gpu, xs: seq<nat>) {
    && g'.initial == g.initial && g'.done == g.done && g.early <= g'.early
    && g'.s.seqnos == g.s.seqnos + xs && g'.s.alive && g'.s.attaching == map[]
    && |g.s.signals| <= |g'.s.signals| && (xs != [] ==> |g'.s.signals| < |g'.s.seqnos|)
    && forall f :: |g.s.signals| <= f < |g'.s.signals| && g.done <= f ==> f in g'.early
  }

  lemma CreateSignals(s: State, seqno: nat)
    requires FifoInv(s)
    ensures var s' := CreateFence(s, seqno);
            s'.seqnos == s.seqnos + [seqno] && |s.signals| <= |s'.signals| <= |s.seqnos|
            && s'.alive == s.alive && s'.attaching == s.attaching[|s.seqnos| := Reserving]
  {
    ForcePops(s, ByWrap(|s.seqnos|));
  }

  /** The attach ioctl from beginning to end. */
  lemma AttachOne(run: seq<Gpu>, x: nat) returns (run': seq<Gpu>)
    requires GpuRun(run) && run[|run| - 1].s.alive && run[|run| - 1].s.attaching == map[] && x < 0x1_0000_0000
    ensures GpuRun(run') && Attached(run[|run| - 1], run'[|run'| - 1], [x])
  {
    GpuInvOnRun(run, |run| - 1);
    var g := run[|run| - 1];
    var f := |g.s.seqnos|;
    CreateSignals(g.s, x);
    run' := GpuExtend(run, Host(Create(x)));
    var g1 := run'[|run'| - 1];
    assert forall k :: |g.s.signals| <= k < |g1.s.signals| && g.done <= k ==> Unreleased(g.s, [g.done], k);
    ReferenceFrame(g1.s, Reserve(f, false));
    run' := GpuExtend(run', Host(Reserve(f, false)));
    var g2 := run'[|run'| - 1];
    ReferenceFrame(g2.s, PutCaller(f));
    run' := GpuExtend(run', Host(PutCaller(f)));
    var g3 := run'[|run'| - 1];
    PutCallerFrame(g2.s, f);
    assert g3.s.attaching == map[];
  }

  lemma PutCallerFrame(s: State, f: Fid)
    requires Enabled(s, PutCaller(f))
    ensures Do(s, PutCaller(f)).attaching == s.attaching - {f}
  {
  }

  lemma AttachedTrans(a: Gpu, b: Gpu, c: Gpu, xs: seq<nat>, x: nat)
    requires Attached(a, b, xs) && Attached(b, c, [x])
    ensures Attached(a, c, xs + [x])
  {
    forall f | |a.s.signals| <= f < |c.s.signals| && a.done <= f ensures f in c.early {
      if f < |b.s.signals| { assert f in b.early; }
    }
  }

  lemma {:induction false} AttachAll(run: seq<Gpu>, xs: seq<nat>) returns (run': seq<Gpu>)
    requires GpuRun(run) && run[|run| - 1].s.alive && run[|run| - 1].s.attaching == map[]
    requires forall i :: 0 <= i < |xs| ==> xs[i] < 0x1_0000_0000
    ensures GpuRun(run') && Attached(run[|run| - 1], run'[|run'| - 1], xs)
    decreases |xs|
  {
    if xs == [] {
      run' := run;
    } else {
      var n := |xs| - 1;
      var mid := AttachAll(run, xs[..n]);
      run' := AttachOne(mid, xs[n]);
      AttachedTrans(run[|run| - 1], mid[|mid| - 1], run'[|run'| - 1], xs[..n], xs[n]);
      assert xs == xs[..n] + [xs[n]];
    }
  }

  lemma {:induction false} ReleaseMany(run: seq<Gpu>, r: nat) returns (run': seq<Gpu>)
    requires GpuRun(run) && run[|run| - 1].done == 0 && r <= |run[|run| - 1].s.seqnos|
    ensures GpuRun(run') && run'[|run'| - 1] == run[|run| - 1].(done := r)
    decreases r
  {
    if r == 0 {
      run' := run;
    } else {
      run' := ReleaseMany(run, r - 1);
      run' := GpuExtend(run', Release);
    }
  }

  /** A run that attaches fences with the numbers xs to a context that stays alive, in
      which f is signalled before its release. */
  ghost predicate EndsEarly(run: seq<Gpu>, initial: nat, xs: seq<nat>, f: Fid) {
    && GpuRun(run)
    && var g := run[|run| - 1]; g.initial == initial && g.s.seqnos == xs && g.s.alive && f in g.early
  }

  lemma InterruptEarly(run: seq<Gpu>, r: nat, f: Fid) returns (run': seq<Gpu>)
    requires GpuRun(run) && GpuEnabled(run[|run| - 1], Interrupt([r]))
    requires var s := run[|run| - 1].s; |s.signals| <= f && NotAbove(run[|run| - 1].initial, s.seqnos, f, r)
    ensures GpuRun(run')
    ensures var g, g' := run[|run| - 1], run'[|run'| - 1];
            && g'.initial == g.initial && g'.s.seqnos == g.s.seqnos && g'.s.alive
            && g'.s.attaching == g.s.attaching && g'.done == r && f in g'.early
  {
    var g := run[|run| - 1];
    GpuInvOnRun(run, |run| - 1);
    OldestIsSignalled(g, r, f);
    var n := EventScans(g.s, ReadValues(g.initial, g.s.seqnos, [r]));
    run' := GpuExtend(run, Interrupt([r]));
  }

  /** If the number of a fence is not above that of an earlier release, there is a run in
      which the handler signals the fence although the semaphore still waits for it. */
  lemma NotRisingCanBeEarly(initial: nat, xs: seq<nat>, f: Fid, r: nat) returns (run: seq<Gpu>)
    requires NotAbove(initial, xs, f, r) && forall i :: 0 <= i < |xs| ==> xs[i] < 0x1_0000_0000
    ensures EndsEarly(run, initial, xs, f) && run[|run| - 1].done == r
  {
    run := GpuStart(initial);
    run := AttachAll(run, xs[..f + 1]);
    run := ReleaseMany(run, r);
    assert run[|run| - 1].s.seqnos == xs[..f + 1];
    run := InterruptEarly(run, r, f);
    run := AttachAll(run, xs[f + 1..]);
    assert xs[..f + 1] + xs[f + 1..] == xs;
  }

  /** Attaching everything before the first release: whatever is signalled is early. */
  lemma AttachFirst(initial: nat, xs: seq<nat>) returns (run: seq<Gpu>)
    requires forall i :: 0 <= i < |xs| ==> xs[i] < 0x1_0000_0000
    ensures GpuRun(run)
    ensures var g := run[|run| - 1];
            && g.initial == initial && g.s.seqnos == xs && g.s.alive && g.s.attaching == map[] && g.done == 0
            && forall f: Fid :: f < |g.s.signals| ==> f in g.early
  {
    run := GpuStart(initial);
    run := AttachAll(run, xs);
  }

  lemma FallIsSignalled(s: State, f: Fid, h: Fid)
    requires SortedInv(s) && Falls(s.seqnos, f, h)
    ensures f < |s.signals|
  {
  }

  /** If a later number goes backwards, there is a run in which the fence is signalled by
      that although nothing has been written. */
  lemma FallCanBeEarly(initial: nat, xs: seq<nat>, f: Fid, h: Fid) returns (run: seq<Gpu>)
    requires Falls(xs, f, h) && forall i :: 0 <= i < |xs| ==> xs[i] < 0x1_0000_0000
    ensures EndsEarly(run, initial, xs, f) && run[|run| - 1].done == 0
  {
    run := AttachFirst(initial, xs);
    GpuInvOnRun(run, |run| - 1);
    FallIsSignalled(run[|run| - 1].s, f, h);
  }

  /** Which fences of a live context can be signalled before their release: exactly those
      with a number not above the initial value or an earlier number, and those followed
      by a number that goes backwards. */
  lemma EarlyExactly(initial: nat, xs: seq<nat>, f: Fid)
    requires forall i :: 0 <= i < |xs| ==> xs[i] < 0x1_0000_0000
    ensures (exists run :: EndsEarly(run, initial, xs, f)) <==> CanBeEarly(initial, xs, f)
  {
    if run :| EndsEarly(run, initial, xs, f) {
      EarlyIsExplained(run, |run| - 1, f);
    }
    if r: nat :| NotAbove(initial, xs, f, r) {
      var run := NotRisingCanBeEarly(initial, xs, f, r);
    } else if h: Fid :| Falls(xs, f, h) {
      var run := FallCanBeEarly(initial, xs, f, h);
    }
  }

  /** Numbers are safe on a live context, whatever the GPU and the interrupts do, if and
      only if they rise from the initial value. */
  lemma SafeIffRising(initial: nat, xs: seq<nat>)
    requires forall i :: 0 <= i < |xs| ==> xs[i] < 0x1_0000_0000
    ensures Rising(initial, xs) <==> forall run, f :: !EndsEarly(run, initial, xs, f)
  {
    var f, r := RisingOrNot(initial, xs);
    if Rising(initial, xs) {
      forall run, f ensures !EndsEarly(run, initial, xs, f) {
        if EndsEarly(run, initial, xs, f) { RisingIsNeverEarly(run, |run| - 1); }
      }
    } else {
      var run := NotRisingCanBeEarly(initial, xs, f, r);
    }
  }

  lemma DestroyFrame(s: State)
    requires Enabled(s, Destroy)
    ensures Do(s, Destroy).seqnos == s.seqnos
  {
    ForcePops(s, ByDestroy);
  }

  lemma DestroySignals(g: Gpu, f: Fid)
    requires GpuInv(g) && g.done == 0 && GpuEnabled(g, Host(Destroy))
    requires forall k: Fid :: k < |g.s.signals| ==> k in g.early
    ensures f in GpuDo(g, Host(Destroy)).early <==> f < |g.s.seqnos|
  {
    ForcedEarly(g, Destroy, f);
    if f in g.early { assert Explained(g.initial, g.s, f); }
    if |g.s.signals| <= f < |g.s.seqnos| { assert g.s.pending[f - |g.s.signals|] == f; }
  }

  /** Destruction does not wait for the GPU: for any numbers there is a run in which all
      fences are signalled and none has been released. */
  lemma DestroyIsEarly(initial: nat, xs: seq<nat>) returns (run: seq<Gpu>)
    requires forall i :: 0 <= i < |xs| ==> xs[i] < 0x1_0000_0000
    ensures GpuRun(run)
    ensures var g := run[|run| - 1];
            && g.initial == initial && g.s.seqnos == xs && g.done == 0
            && forall f: Fid :: f in g.early <==> f < |xs|
  {
    run := AttachFirst(initial, xs);
    var g := run[|run| - 1];
    GpuInvOnRun(run, |run| - 1);
    forall f: Fid ensures f in GpuDo(g, Host(Destroy)).early <==> f < |xs| { DestroySignals(g, f); }
    DestroyFrame(g.s);
    run := GpuExtend(run, Host(Destroy));
  }

  /** Numbers either rise or have a fence whose number is not above an earlier one. */
  lemma RisingOrNot(initial: nat, xs: seq<nat>) returns (f: Fid, r: nat)
    ensures Rising(initial, xs) || NotAbove(initial, xs, f, r)
  {
    f, r := 0, 0;
    if i :| 0 <= i < |xs| && initial >= xs[i] {
      f, r := i, 0;
      assert NotAbove(initial, xs, f, r);
    } else if i, j :| 0 <= i < j < |xs| && xs[i] >= xs[j] {
      f, r := j, i + 1;
      assert NotAbove(initial, xs, f, r);
    }
  }

  /** For instance: a wrapped number while the semaphore still holds one from before the
      wrap. */
  lemma WrapIsEarly() returns (run: seq<Gpu>)
    ensures EndsEarly(run, 0, [0xFFFF_FFE0, 0xFFFF_FFF0, 5], 2) && run[|run| - 1].done == 1
  {
    var xs := [0xFFFF_FFE0, 0xFFFF_FFF0, 5];
    assert NotAbove(0, xs, 2, 1);
    run := NotRisingCanBeEarly(0, xs, 2, 1);
  }

  // ---------------------------------------------------------------------------
  // The context as an object
  // ---------------------------------------------------------------------------

  /** struct nv_drm_prime_fence_context and the fences it has created.  Every method
      is one critical section under the context's lock. */
  class FenceContext {
    var pending: seq<Fid>
    var lastSeqno: nat
    var refs: map<Fid, nat>
    var attaching: map<Fid, Attach>
    var resv: multiset<Fid>
    var alive: bool
    var seqnos: seq<nat>
    var signals: seq<Signal>
    var released: seq<Fid>
    var fault: bool

    function Value(): State
      reads this
    {
      State(pending, lastSeqno, refs, attaching, resv, alive, seqnos, signals, released, fault)
    }

    constructor ()
      ensures Init(Value())
    {
      pending, lastSeqno, refs, attaching, resv, alive := [], 0, map[], map[], multiset{}, true;
      seqnos, signals, released, fault := [], [], [], false;
    }

    method PutFence(f: Fid)
      modifies this
      ensures Value() == Put(old(Value()), f)
    {
      if f !in refs || refs[f] == 0 {
        fault := true;
      } else if refs[f] > 1 {
        refs := refs[f := refs[f] - 1];
      } else {
        refs, released := refs - {f}, released + [f];
        fault := fault || f in pending;
      }
    }

    /** __nv_drm_prime_fence_signal */
    method SignalFence(cause: Cause)
      requires pending != []
      modifies this
      ensures Value() == SignalFirst(old(Value()), cause)
    {
      var f := pending[0];
      pending := pending[1..];
      signals := signals + [Signal(f, cause)];
      fault := fault || f !in refs;
      PutFence(f);
    }

    /** nv_drm_gem_prime_force_fence_signal: all fences leave the list, in order. */
    method ForceFenceSignal(cause: Cause)
      modifies this
      ensures Popped(old(Value()), Value(), Same(cause, |old(pending)|))
      ensures Value() == ForceSignal(old(Value()), cause)
    {
      while pending != []
        invariant ForceSignal(Value(), cause) == ForceSignal(old(Value()), cause)
        decreases |pending|
      {
        SignalFence(cause);
      }
      ForcePops(old(Value()), cause);
    }

    /** nv_drm_gem_prime_fence_event, reading the semaphore in every iteration. */
    method FenceEvent(values: seq<nat>)
      requires Inv(Value()) && alive && values != []
      modifies this
      ensures Value() == HandleEvent(old(Value()), values) && Inv(Value())
      ensures exists n :: Scanned(old(Value()), Value(), values, n)
    {
      ghost var before := Value();
      var left := values;
      while pending != []
        invariant left != [] && HandleEvent(Value(), left) == HandleEvent(before, values)
        decreases |pending|
      {
        var seqno := left[0];
        if Number(Value(), pending[0]) > seqno {
          break;
        }
        SignalFence(ByEvent(seqno));
        left := Rest(left);
      }
      EventStep(before, values);
      var n := EventScans(before, values);
    }

    /** __nv_drm_prime_fence_context_create_fence; None stands for -ENOMEM. */
    method Create(seqno: nat, haveMemory: bool) returns (r: Option<Fid>)
      requires Inv(Value()) && alive
      modifies this
      ensures Inv(Value())
      ensures r.None? <==> !haveMemory
      ensures r.None? ==> Value() == old(Value())
      ensures r.Some? ==> r.value == old(|seqnos|) && Value() == CreateFence(old(Value()), seqno)
      ensures r.Some? ==> refs[r.value] == 2 && pending[|pending| - 1] == r.value
    {
      if !haveMemory {
        return None;
      }
      CreateStep(Value(), seqno);
      var f := |seqnos|;
      if seqno < lastSeqno {
        ForceFenceSignal(ByWrap(f));
      }
      AddFence(f, seqno);
      return Some(f);
    }

    /** Initialises a fence, takes the list's reference and appends it. */
    method AddFence(f: Fid, seqno: nat)
      modifies this
      ensures Value() == old(Value()).(refs := old(refs)[f := 2], attaching := old(attaching)[f := Reserving],
                                       pending := old(pending) + [f], seqnos := old(seqnos) + [seqno], lastSeqno := seqno)
    {
      refs := refs[f := 2];
      attaching := attaching[f := Reserving];
      pending := pending + [f];
      seqnos := seqnos + [seqno];
      lastSeqno := seqno;
    }
  }
}
