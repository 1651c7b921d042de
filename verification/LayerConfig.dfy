/**
 * Incremental layer configuration: the requested configuration of each head,
 * the "changed" flags computed against a duplicated old state, and a display
 * engine that copies only what is flagged.
 */
module LayerConfig {
  import opened Common

  type CrtcId = nat
  type PlaneId = nat
  /** A surface; 0 is NULL. */
  type Surface = nat

  datatype Config = Config(
    surface: Surface,
    srcX: nat, srcY: nat, srcWidth: nat, srcHeight: nat,
    dstX: int, dstY: int, dstWidth: nat, dstHeight: nat)

  datatype Flags = Flags(surface: bool, srcXY: bool, srcWH: bool, dstXY: bool, dstWH: bool)

  datatype Layer = Layer(config: Config, flags: Flags)

  const NO_FLAGS := Flags(false, false, false, false, false)
  const ALL_FLAGS := Flags(true, true, true, true, true)
  const CLEARED := Config(0, 0, 0, 0, 0, 0, 0, 0, 0)

  /** drm_plane_state.  fb is the surface of the framebuffer; source coordinates
      are 16.16 fixed point; accepted is whether the parts of the state that carry
      no flags (fences, HDR metadata) pass their own checks. */
  datatype PlaneState = PlaneState(
    crtc: Option<CrtcId>,
    fb: Option<Surface>,
    srcX: nat, srcY: nat, srcW: nat, srcH: nat,
    crtcX: int, crtcY: int, crtcW: nat, crtcH: nat,
    accepted: bool)

  function Requested(ps: PlaneState): Config
    requires ps.fb.Some?
  {
    Config(ps.fb.value,
           ps.srcX / 0x10000, ps.srcY / 0x10000, ps.srcW / 0x10000, ps.srcH / 0x10000,
           ps.crtcX, ps.crtcY, ps.crtcW, ps.crtcH)
  }

  /** plane_req_config_disable */
  function Disable(l: Layer): Layer {
    Layer(CLEARED, ALL_FLAGS)
  }

  /** The flags of going from configuration a to b; the surface is always flagged,
      so that there always is a flip event. */
  function Delta(a: Config, b: Config): Flags {
    if a.surface == 0 && a.surface != b.surface then ALL_FLAGS
    else Flags(true,
               a.srcX != b.srcX || a.srcY != b.srcY,
               a.srcWidth != b.srcWidth || a.srcHeight != b.srcHeight,
               a.dstX != b.dstX || a.dstY != b.dstY,
               a.dstWidth != b.dstWidth || a.dstHeight != b.dstHeight)
  }

  /** plane_req_config_update; None when the check fails. */
  function Update(l: Layer, ps: PlaneState): Option<Layer> {
    if ps.fb.None? then Some(Disable(l))
    else if !ps.accepted then None
    else Some(Layer(Requested(ps), Delta(l.config, Requested(ps))))
  }

  /** nv_drm_crtc_duplicate_req_head_modeset_config, for one layer. */
  function Duplicate(l: Layer): Layer {
    Layer(l.config, NO_FLAGS)
  }

  /** A configuration that shows a plane state: its framebuffer, at the integer parts of
      the source rectangle, on the destination rectangle. */
  predicate Shows(c: Config, ps: PlaneState) {
    && ps.fb == Some(c.surface)
    && c.srcX * 0x10000 <= ps.srcX < (c.srcX + 1) * 0x10000
    && c.srcY * 0x10000 <= ps.srcY < (c.srcY + 1) * 0x10000
    && c.srcWidth * 0x10000 <= ps.srcW < (c.srcWidth + 1) * 0x10000
    && c.srcHeight * 0x10000 <= ps.srcH < (c.srcHeight + 1) * 0x10000
    && c.dstX == ps.crtcX && c.dstY == ps.crtcY && c.dstWidth == ps.crtcW && c.dstHeight == ps.crtcH
  }

  predicate ShowsNothing(c: Config) {
    c == Config(0, 0, 0, 0, 0, 0, 0, 0, 0)
  }

  lemma FixedPoint(x: nat)
    ensures x / 0x10000 * 0x10000 <= x < (x / 0x10000 + 1) * 0x10000
  {
  }

  lemma RequestedShows(ps: PlaneState)
    requires ps.fb.Some?
    ensures Shows(Requested(ps), ps)
  {
    FixedPoint(ps.srcX);
    FixedPoint(ps.srcY);
    FixedPoint(ps.srcW);
    FixedPoint(ps.srcH);
  }

  /** What a display engine that copies only flagged groups holds afterwards. */
  function ApplyFlagged(hw: Config, l: Layer): Config {
    Config(
      if l.flags.surface then l.config.surface else hw.surface,
      if l.flags.srcXY then l.config.srcX else hw.srcX,
      if l.flags.srcXY then l.config.srcY else hw.srcY,
      if l.flags.srcWH then l.config.srcWidth else hw.srcWidth,
      if l.flags.srcWH then l.config.srcHeight else hw.srcHeight,
      if l.flags.dstXY then l.config.dstX else hw.dstX,
      if l.flags.dstXY then l.config.dstY else hw.dstY,
      if l.flags.dstWH then l.config.dstWidth else hw.dstWidth,
      if l.flags.dstWH then l.config.dstHeight else hw.dstHeight)
  }

  // ---------------------------------------------------------------------------
  // Atomic updates
  // ---------------------------------------------------------------------------

  type Head = seq<Layer>

  /** A plane of an update: its layer, the CRTC it is on now, and its new state. */
  datatype PlaneCheck = PlaneCheck(layer: nat, oldCrtc: Option<CrtcId>, state: PlaneState)

  /** What checking the plane does to its layer on CRTC k: clear it, update it (which
      may fail), or leave it. */
  function CheckLayer(l: Layer, k: CrtcId, pc: PlaneCheck): Option<Layer> {
    if pc.oldCrtc == Some(k) && pc.oldCrtc != pc.state.crtc then Some(Disable(l))
    else if pc.state.crtc == Some(k) then Update(l, pc.state)
    else Some(l)
  }

  /** The check of the plane may write this layer of CRTC k. */
  predicate Touches(pc: PlaneCheck, k: CrtcId, layer: nat) {
    pc.layer == layer && (pc.oldCrtc == Some(k) || pc.state.crtc == Some(k))
  }

  function CheckHead(head: Head, k: CrtcId, pc: PlaneCheck): Option<Head> {
    if pc.layer >= |head| then Some(head)
    else match CheckLayer(head[pc.layer], k, pc)
      case None => None
      case Some(l) => Some(head[pc.layer := l])
  }

  /** All plane checks of an update, in turn, as CRTC k sees them. */
  function CheckAll(head: Head, k: CrtcId, checks: seq<PlaneCheck>): (r: Option<Head>)
    ensures r.Some? ==> |r.value| == |head|
  {
    if checks == [] then Some(head)
    else match CheckAll(head, k, checks[..|checks| - 1])
      case None => None
      case Some(h) => CheckHead(h, k, checks[|checks| - 1])
  }

  /** A check fails on CRTC k exactly if it puts a plane with a framebuffer on one of its
      layers and the plane state is not accepted. */
  predicate Rejected(head: Head, k: CrtcId, pc: PlaneCheck) {
    pc.layer < |head| && pc.state.crtc == Some(k) && pc.state.fb.Some? && !pc.state.accepted
  }

  lemma CheckFails(head: Head, k: CrtcId, pc: PlaneCheck)
    ensures CheckHead(head, k, pc).None? <==> Rejected(head, k, pc)
  {
  }

  lemma {:induction false} CheckAllFails(head: Head, k: CrtcId, checks: seq<PlaneCheck>)
    ensures CheckAll(head, k, checks).None? <==> exists c :: c in checks && Rejected(head, k, c)
  {
    if checks != [] {
      var n := |checks| - 1;
      CheckAllFails(head, k, checks[..n]);
      assert forall c :: c in checks <==> c in checks[..n] || c == checks[n];
      if CheckAll(head, k, checks[..n]).Some? {
        var h := CheckAll(head, k, checks[..n]).value;
        CheckFails(h, k, checks[n]);
        assert Rejected(h, k, checks[n]) <==> Rejected(head, k, checks[n]);
      }
    }
  }

  function DuplicateHead(head: Head): (r: Head)
    ensures |r| == |head|
  {
    seq(|head|, i requires 0 <= i < |head| => Duplicate(head[i]))
  }

  function Configs(head: Head): seq<Config> {
    seq(|head|, i requires 0 <= i < |head| => head[i].config)
  }

  function ApplyHead(hw: seq<Config>, head: Head): seq<Config>
    requires |hw| == |head|
  {
    seq(|head|, i requires 0 <= i < |head| => ApplyFlagged(hw[i], head[i]))
  }

  /** No layer of any CRTC is written by two of the checks: each plane is checked
      once, and the planes of a CRTC have layers of their own. */
  ghost predicate OncePerLayer(checks: seq<PlaneCheck>) {
    forall i, j, k, layer :: 0 <= i < j < |checks| && Touches(checks[i], k, layer) ==>
      !Touches(checks[j], k, layer)
  }

  /** Going from base, the head has been checked by checks and no layer twice: each
      layer is an unflagged copy of the base, or carries flags that turn the base
      into the new configuration. */
  ghost predicate Incremental(base: Head, head: Head, k: CrtcId, checks: seq<PlaneCheck>) {
    && |head| == |base|
    && (forall i :: 0 <= i < |base| ==> ApplyFlagged(base[i].config, head[i]) == head[i].config)
    && (forall i :: 0 <= i < |base| && (forall c :: c in checks ==> !Touches(c, k, i)) ==>
          head[i] == Duplicate(base[i]))
  }

  /** One check of an untouched layer: flags relative to the base suffice. */
  lemma CheckIsDelta(base: Layer, k: CrtcId, pc: PlaneCheck)
    requires CheckLayer(Duplicate(base), k, pc).Some?
    ensures var l := CheckLayer(Duplicate(base), k, pc).value;
            ApplyFlagged(base.config, l) == l.config
  {
  }

  lemma IncrementalCheck(base: Head, head: Head, k: CrtcId, checks: seq<PlaneCheck>, pc: PlaneCheck)
    requires Incremental(base, head, k, checks) && CheckHead(head, k, pc).Some?
    requires forall c, layer :: c in checks && Touches(pc, k, layer) ==> !Touches(c, k, layer)
    ensures Incremental(base, CheckHead(head, k, pc).value, k, checks + [pc])
  {
    var head' := CheckHead(head, k, pc).value;
    forall i | 0 <= i < |base|
      ensures ApplyFlagged(base[i].config, head'[i]) == head'[i].config
      ensures (forall c :: c in checks + [pc] ==> !Touches(c, k, i)) ==> head'[i] == Duplicate(base[i])
    {
      assert pc in checks + [pc] && forall c :: c in checks ==> c in checks + [pc];
      if i == pc.layer && Touches(pc, k, i) {
        assert head[i] == Duplicate(base[i]);
        CheckIsDelta(base[i], k, pc);
      }
    }
  }

  lemma {:induction false} IncrementalAll(base: Head, k: CrtcId, checks: seq<PlaneCheck>)
    requires OncePerLayer(checks) && CheckAll(DuplicateHead(base), k, checks).Some?
    ensures Incremental(base, CheckAll(DuplicateHead(base), k, checks).value, k, checks)
  {
    if checks != [] {
      var n := |checks| - 1;
      IncrementalAll(base, k, checks[..n]);
      var head := CheckAll(DuplicateHead(base), k, checks[..n]).value;
      IncrementalCheck(base, head, k, checks[..n], checks[n]);
      assert checks[..n] + [checks[n]] == checks;
    }
  }

  // ---------------------------------------------------------------------------
  // Every sequence of updates
  // ---------------------------------------------------------------------------

  /** One atomic update: the CRTCs it covers, the planes it checks, and whether a
      successful check is followed by a commit. */
  datatype Txn = Txn(crtcs: set<CrtcId>, checks: seq<PlaneCheck>, commit: bool)

  /** cur are the committed CRTC states; flagged is a display engine that copies
      flagged groups only, full one that copies the whole requested configuration.
      asked is the history: the plane state that was last committed for each layer, or
      None where the plane left or has no framebuffer. */
  datatype World = World(
    cur: map<CrtcId, Head>,
    flagged: map<CrtcId, seq<Config>>,
    full: map<CrtcId, seq<Config>>,
    asked: map<CrtcId, seq<Option<PlaneState>>>)

  /** What is asked of a layer of CRTC k after the check of a plane. */
  function AskedBy(asked: Option<PlaneState>, k: CrtcId, layer: nat, pc: PlaneCheck): Option<PlaneState> {
    if pc.layer != layer then asked
    else if pc.state.crtc == Some(k) then (if pc.state.fb.Some? then Some(pc.state) else None)
    else if pc.oldCrtc == Some(k) then None
    else asked
  }

  function AskedByAll(asked: Option<PlaneState>, k: CrtcId, layer: nat, checks: seq<PlaneCheck>): Option<PlaneState> {
    if checks == [] then asked
    else AskedBy(AskedByAll(asked, k, layer, checks[..|checks| - 1]), k, layer, checks[|checks| - 1])
  }

  /** The requested configuration an update builds for CRTC k. */
  function Built(w: World, txn: Txn, k: CrtcId): Option<Head>
    requires k in w.cur
  {
    CheckAll(DuplicateHead(w.cur[k]), k, txn.checks)
  }

  predicate Succeeds(w: World, txn: Txn) {
    txn.crtcs <= w.cur.Keys && forall k :: k in txn.crtcs ==> Built(w, txn, k).Some?
  }

  ghost predicate Shaped(w: World) {
    && w.flagged.Keys == w.cur.Keys && w.full.Keys == w.cur.Keys && w.asked.Keys == w.cur.Keys
    && forall k :: k in w.cur ==> |w.flagged[k]| == |w.cur[k]| && |w.asked[k]| == |w.cur[k]|
  }

  function AskedOf(w: World, txn: Txn, k: CrtcId): seq<Option<PlaneState>>
    requires k in w.asked
  {
    seq(|w.asked[k]|, i requires 0 <= i < |w.asked[k]| => AskedByAll(w.asked[k][i], k, i, txn.checks))
  }

  /** An update succeeds exactly if no plane with a framebuffer that it puts on one of its
      CRTCs is rejected. */
  lemma SucceedsIff(w: World, txn: Txn)
    ensures Succeeds(w, txn) <==>
              && txn.crtcs <= w.cur.Keys
              && forall k, c :: k in txn.crtcs && c in txn.checks ==>
                   (c.layer < |w.cur[k]| && c.state.crtc == Some(k) && c.state.fb.Some? ==> c.state.accepted)
  {
    if txn.crtcs <= w.cur.Keys {
      forall k | k in txn.crtcs
        ensures Built(w, txn, k).None? <==> exists c :: c in txn.checks && Rejected(w.cur[k], k, c)
      {
        var head := DuplicateHead(w.cur[k]);
        CheckAllFails(head, k, txn.checks);
        assert forall c :: Rejected(head, k, c) <==> Rejected(w.cur[k], k, c);
      }
    }
  }

  /** A failed check, or a check only, changes nothing: the new state is dropped. */
  ghost function Apply(w: World, txn: Txn): World
    requires Shaped(w)
  {
    if !txn.commit || !Succeeds(w, txn) then w
    else World(
      map k | k in w.cur :: if k in txn.crtcs then Built(w, txn, k).value else w.cur[k],
      map k | k in w.cur ::
        if k in txn.crtcs then ApplyHead(w.flagged[k], Built(w, txn, k).value) else w.flagged[k],
      map k | k in w.cur :: if k in txn.crtcs then Configs(Built(w, txn, k).value) else w.full[k],
      map k | k in w.cur :: if k in txn.crtcs then AskedOf(w, txn, k) else w.asked[k])
  }

  ghost predicate Init(w: World) {
    && Shaped(w)
    && forall k :: k in w.cur ==>
         (forall i :: 0 <= i < |w.cur[k]| ==> w.cur[k][i] == Layer(CLEARED, NO_FLAGS))
         && w.flagged[k] == Configs(w.cur[k]) && w.full[k] == Configs(w.cur[k])
         && forall i :: 0 <= i < |w.asked[k]| ==> w.asked[k][i].None?
  }

  ghost predicate Next(w: World, w': World) {
    Shaped(w) && exists txn: Txn :: OncePerLayer(txn.checks) && w' == Apply(w, txn)
  }

  /** Both engines hold the configurations of the committed states. */
  ghost predicate Agrees(w: World) {
    && Shaped(w)
    && forall k :: k in w.cur ==> w.flagged[k] == Configs(w.cur[k]) && w.full[k] == Configs(w.cur[k])
  }

  lemma CommitAgrees(base: Head, k: CrtcId, checks: seq<PlaneCheck>)
    requires OncePerLayer(checks) && CheckAll(DuplicateHead(base), k, checks).Some?
    ensures var head := CheckAll(DuplicateHead(base), k, checks).value;
            |head| == |base| && ApplyHead(Configs(base), head) == Configs(head)
  {
    IncrementalAll(base, k, checks);
  }

  lemma AgreesNext(w: World, w': World)
    requires Agrees(w) && Next(w, w')
    ensures Agrees(w')
  {
    var txn: Txn :| OncePerLayer(txn.checks) && w' == Apply(w, txn);
    if txn.commit && Succeeds(w, txn) {
      forall k | k in w'.cur
        ensures w'.flagged[k] == Configs(w'.cur[k]) && w'.full[k] == Configs(w'.cur[k])
      {
        if k in txn.crtcs { CommitAgrees(w.cur[k], k, txn.checks); }
      }
    }
  }

  /** For every sequence of checks and commits in which no layer is checked twice,
      the engine that copies flagged groups only holds, on every layer of every
      CRTC, what the engine that copies everything holds. */
  lemma DeltaRefinesFull(run: seq<World>, i: nat, k: CrtcId)
    requires IsRun(run, Init, Next) && i < |run| && k in run[i].cur
    ensures k in run[i].flagged && k in run[i].full
    ensures run[i].flagged[k] == run[i].full[k] == Configs(run[i].cur[k])
  {
    forall w, w' | Agrees(w) && Next(w, w') ensures Agrees(w') { AgreesNext(w, w'); }
    Always(run, Init, Next, Agrees, i);
  }

  // ---------------------------------------------------------------------------
  // What is on the screen
  // ---------------------------------------------------------------------------

  /** The configuration is what was asked for. */
  ghost predicate Meets(c: Config, asked: Option<PlaneState>) {
    match asked
    case None => ShowsNothing(c)
    case Some(ps) => Shows(c, ps)
  }

  lemma CheckMeets(l: Layer, asked: Option<PlaneState>, k: CrtcId, pc: PlaneCheck)
    requires Meets(l.config, asked) && CheckLayer(l, k, pc).Some?
    ensures Meets(CheckLayer(l, k, pc).value.config, AskedBy(asked, k, pc.layer, pc))
  {
    if pc.state.fb.Some? { RequestedShows(pc.state); }
  }

  lemma {:induction false} CheckAllMeets(head: Head, k: CrtcId, checks: seq<PlaneCheck>, layer: nat, asked: Option<PlaneState>)
    requires layer < |head| && Meets(head[layer].config, asked) && CheckAll(head, k, checks).Some?
    ensures Meets(CheckAll(head, k, checks).value[layer].config, AskedByAll(asked, k, layer, checks))
  {
    if checks != [] {
      var n := |checks| - 1;
      CheckAllMeets(head, k, checks[..n], layer, asked);
      var h := CheckAll(head, k, checks[..n]).value;
      if checks[n].layer == layer {
        CheckMeets(h[layer], AskedByAll(asked, k, layer, checks[..n]), k, checks[n]);
      }
    }
  }

  ghost predicate AllMet(w: World) {
    Agrees(w) && forall k, i :: k in w.cur && 0 <= i < |w.cur[k]| ==> Meets(w.cur[k][i].config, w.asked[k][i])
  }

  lemma AllMetNext(w: World, w': World)
    requires AllMet(w) && Next(w, w')
    ensures AllMet(w')
  {
    AgreesNext(w, w');
    var txn: Txn :| OncePerLayer(txn.checks) && w' == Apply(w, txn);
    if txn.commit && Succeeds(w, txn) {
      forall k, i | k in w'.cur && 0 <= i < |w'.cur[k]| ensures Meets(w'.cur[k][i].config, w'.asked[k][i]) {
        if k in txn.crtcs {
          CheckAllMeets(DuplicateHead(w.cur[k]), k, txn.checks, i, w.asked[k][i]);
        }
      }
    }
  }

  /** Over every sequence of updates each layer shows the plane state that was last
      committed for it, and nothing where the plane has left or has no framebuffer. */
  lemma LayersFollowRequests(run: seq<World>, i: nat, k: CrtcId, layer: nat)
    requires IsRun(run, Init, Next) && i < |run| && k in run[i].cur && layer < |run[i].cur[k]|
    ensures k in run[i].flagged && layer < |run[i].flagged[k]| && k in run[i].asked && layer < |run[i].asked[k]|
    ensures match run[i].asked[k][layer]
            case None => ShowsNothing(run[i].flagged[k][layer])
            case Some(ps) => Shows(run[i].flagged[k][layer], ps)
  {
    forall w, w' | AllMet(w) && Next(w, w') ensures AllMet(w') { AllMetNext(w, w'); }
    Always(run, Init, Next, AllMet, i);
    assert Meets(run[i].cur[k][layer].config, run[i].asked[k][layer]);
  }

  // ---------------------------------------------------------------------------
  // Checking a layer twice
  // ---------------------------------------------------------------------------

  /** a and b agree, group by group, at most where c agrees with b too. */
  predicate AgreeOnlyWhere(a: Config, b: Config, c: Config) {
    && (a.srcX == b.srcX && a.srcY == b.srcY ==> c.srcX == b.srcX && c.srcY == b.srcY)
    && (a.srcWidth == b.srcWidth && a.srcHeight == b.srcHeight ==>
          c.srcWidth == b.srcWidth && c.srcHeight == b.srcHeight)
    && (a.dstX == b.dstX && a.dstY == b.dstY ==> c.dstX == b.dstX && c.dstY == b.dstY)
    && (a.dstWidth == b.dstWidth && a.dstHeight == b.dstHeight ==>
          c.dstWidth == b.dstWidth && c.dstHeight == b.dstHeight)
  }

  /** Applying the flags of a check turns what is shown into the new configuration. */
  predicate FlagsSuffice(shown: Config, l: Layer) {
    ApplyFlagged(shown, l) == l.config
  }

  /** The checks of one plane, in turn. */
  function UpdateAll(l: Layer, states: seq<PlaneState>): Option<Layer> {
    if states == [] then Some(l)
    else match UpdateAll(l, states[..|states| - 1])
      case None => None
      case Some(l1) => Update(l1, states[|states| - 1])
  }

  /** A check compares with what the check before it left, not with what the hardware
      shows.  So after any number of checks the flags suffice exactly when the last one
      takes the surface away, enables a layer that had been left without surface, or
      repeats what had been left only in groups in which that equals what is shown. */
  lemma CheckedManyTimes(base: Layer, states: seq<PlaneState>)
    requires states != [] && UpdateAll(Duplicate(base), states).Some?
    ensures UpdateAll(Duplicate(base), states[..|states| - 1]).Some?
    ensures var left, last := UpdateAll(Duplicate(base), states[..|states| - 1]).value.config, states[|states| - 1];
            FlagsSuffice(base.config, UpdateAll(Duplicate(base), states).value) <==>
              || last.fb.None?
              || (left.surface == 0 && last.fb.value != 0)
              || AgreeOnlyWhere(left, Requested(last), base.config)
  {
  }

  /** The case of two checks. */
  lemma CheckedTwice(base: Layer, first: PlaneState, second: PlaneState)
    requires Update(Duplicate(base), first).Some?
    requires Update(Update(Duplicate(base), first).value, second).Some?
    ensures var l := Update(Duplicate(base), first).value;
            FlagsSuffice(base.config, Update(l, second).value) <==>
              || second.fb.None?
              || (l.config.surface == 0 && second.fb.value != 0)
              || AgreeOnlyWhere(l.config, Requested(second), base.config)
  {
    assert [first, second][..1] == [first] && [first][..0] == [];
    assert UpdateAll(Duplicate(base), []) == Some(Duplicate(base));
    assert UpdateAll(Duplicate(base), [first]) == Update(Duplicate(base), first);
    CheckedManyTimes(base, [first, second]);
  }

  /** So checking the same request twice loses a move: the engine keeps showing the
      old position. */
  lemma RepeatedCheckLosesMove()
    returns (base: Layer, ps: PlaneState)
    ensures ps.fb.Some? && ps.accepted
    ensures var l := Update(Update(Duplicate(base), ps).value, ps).value;
            l.config.dstX == 7 && ApplyFlagged(base.config, l).dstX == 0
  {
    base := Layer(CLEARED.(surface := 5), NO_FLAGS);
    ps := PlaneState(Some(0), Some(5), 0, 0, 0, 0, 7, 0, 0, 0, true);
  }

  // ---------------------------------------------------------------------------
  // The cursor
  // ---------------------------------------------------------------------------

  datatype Cursor = Cursor(surface: Surface, dstX: int, dstY: int)

  datatype CursorLayer = CursorLayer(config: Cursor, surfaceChanged: bool, dstXYChanged: bool)

  /** Unlike a layer, the cursor is not copied when a CRTC state is duplicated. */
  const NO_CURSOR := CursorLayer(Cursor(0, 0, 0), false, false)

  /** cursor_req_config_disable */
  function CursorDisable(c: CursorLayer): CursorLayer {
    c.(config := c.config.(surface := 0), surfaceChanged := true)
  }

  /** cursor_plane_req_config_update */
  function CursorUpdate(c: CursorLayer, ps: PlaneState): CursorLayer {
    if ps.fb.None? then CursorDisable(c)
    else
      var config := Cursor(ps.fb.value, ps.crtcX, ps.crtcY);
      CursorLayer(config, true,
        if c.config.surface == 0 && c.config.surface != config.surface then true
        else c.config.dstX != config.dstX || c.config.dstY != config.dstY)
  }

  function ApplyCursor(hw: Cursor, c: CursorLayer): Cursor {
    Cursor(if c.surfaceChanged then c.config.surface else hw.surface,
           if c.dstXYChanged then c.config.dstX else hw.dstX,
           if c.dstXYChanged then c.config.dstY else hw.dstY)
  }

  /** What one update asks of the cursor of a CRTC. */
  datatype CursorRequest = Untouched | Leave | Show(ps: PlaneState)

  function CursorCheck(r: CursorRequest): CursorLayer {
    match r
    case Untouched => NO_CURSOR
    case Leave => CursorDisable(NO_CURSOR)
    case Show(ps) => CursorUpdate(NO_CURSOR, ps)
  }

  /** The cursor on screen: nothing without a surface. */
  function Shown(hw: Cursor): Option<Cursor> {
    if hw.surface == 0 then None else Some(hw)
  }

  function Wanted(shown: Option<Cursor>, r: CursorRequest): Option<Cursor> {
    match r
    case Untouched => shown
    case Leave => None
    case Show(ps) => if ps.fb.None? then None else Shown(Cursor(ps.fb.value, ps.crtcX, ps.crtcY))
  }

  function WantedAll(rs: seq<CursorRequest>): Option<Cursor> {
    if rs == [] then None else Wanted(WantedAll(rs[..|rs| - 1]), rs[|rs| - 1])
  }

  function CursorAfter(rs: seq<CursorRequest>): Cursor {
    if rs == [] then Cursor(0, 0, 0)
    else ApplyCursor(CursorAfter(rs[..|rs| - 1]), CursorCheck(rs[|rs| - 1]))
  }

  /** Over any sequence of updates the screen shows the cursor last asked for,
      although the state the flags are computed against was never copied. */
  lemma {:induction false} CursorFollowsRequests(rs: seq<CursorRequest>)
    ensures Shown(CursorAfter(rs)) == WantedAll(rs)
  {
    if rs != [] {
      CursorFollowsRequests(rs[..|rs| - 1]);
    }
  }

  /** In particular, what the last update shows is its framebuffer at its position. */
  lemma CursorShowsLast(rs: seq<CursorRequest>, ps: PlaneState)
    ensures var hw := CursorAfter(rs + [Show(ps)]);
            if ps.fb.Some? && ps.fb.value != 0
            then hw.surface == ps.fb.value && hw.dstX == ps.crtcX && hw.dstY == ps.crtcY
            else hw.surface == 0
    ensures CursorAfter(rs + [Leave]).surface == 0
    ensures CursorAfter(rs + [Untouched]) == CursorAfter(rs)
  {
    CursorFollowsRequests(rs + [Show(ps)]);
    assert (rs + [Show(ps)])[..|rs|] == rs && (rs + [Leave])[..|rs|] == rs && (rs + [Untouched])[..|rs|] == rs;
  }

  /** Checking the cursor again in the same update compares with what the first check left,
      c.  What is shown then is what was asked for exactly if nothing is to be shown, the
      cursor was without surface, its position differs from the one left, or the position
      left is the one on screen already. */
  lemma CursorCheckedTwice(hw: Cursor, c: CursorLayer, ps: PlaneState)
    requires ps.fb.Some?
    ensures Shown(ApplyCursor(hw, CursorUpdate(c, ps))) == Shown(Cursor(ps.fb.value, ps.crtcX, ps.crtcY)) <==>
              || ps.fb.value == 0
              || c.config.surface == 0
              || c.config.dstX != ps.crtcX || c.config.dstY != ps.crtcY
              || (hw.dstX == ps.crtcX && hw.dstY == ps.crtcY)
  {
  }

  /** Taking the cursor away in a further check does take it away. */
  lemma CursorTakenAway(hw: Cursor, c: CursorLayer, ps: PlaneState)
    ensures Shown(ApplyCursor(hw, CursorDisable(c))).None?
    ensures ps.fb.None? ==> Shown(ApplyCursor(hw, CursorUpdate(c, ps))).None?
  {
  }

  /** But for the cursor the flags are not optional: copying the whole requested
      configuration agrees with copying the flagged groups exactly when the update
      touches the cursor or none is shown; an update of something else would hide it. */
  lemma FullCursorCopy(hw: Cursor, r: CursorRequest)
    ensures Shown(CursorCheck(r).config) == Shown(ApplyCursor(hw, CursorCheck(r))) <==>
              !r.Untouched? || hw.surface == 0
  {
  }

  // ---------------------------------------------------------------------------
  // The state object that the check callbacks write in place
  // ---------------------------------------------------------------------------

  /** What the check of a plane leaves of a head: the layer of the plane shows its new
      state, or nothing, or is left alone; the other layers are. */
  ghost predicate Checked(head: Head, head': Head, k: CrtcId, pc: PlaneCheck)
    requires pc.layer < |head|
  {
    && |head'| == |head|
    && (forall i :: 0 <= i < |head| && i != pc.layer ==> head'[i] == head[i])
    && (if pc.state.crtc == Some(k) && pc.state.fb.Some? then Shows(head'[pc.layer].config, pc.state)
        else if pc.state.crtc == Some(k) || pc.oldCrtc == Some(k) then ShowsNothing(head'[pc.layer].config)
        else head'[pc.layer] == head[pc.layer])
  }

  lemma CheckedMeans(head: Head, k: CrtcId, pc: PlaneCheck)
    requires pc.layer < |head| && CheckHead(head, k, pc).Some?
    ensures Checked(head, CheckHead(head, k, pc).value, k, pc)
  {
    if pc.state.fb.Some? { RequestedShows(pc.state); }
  }

  class CrtcStates {
    var heads: map<CrtcId, Head>

    /** The body of the loop in nv_drm_plane_atomic_check. */
    static method CheckCrtc(head: Head, k: CrtcId, pc: PlaneCheck) returns (r: Option<Head>)
      requires pc.layer < |head|
      ensures r == CheckHead(head, k, pc)
    {
      if pc.oldCrtc == Some(k) && pc.oldCrtc != pc.state.crtc {
        return Some(head[pc.layer := Disable(head[pc.layer])]);
      }
      if pc.state.crtc == Some(k) {
        var l := Update(head[pc.layer], pc.state);
        if l.None? {
          return None;
        }
        return Some(head[pc.layer := l.value]);
      }
      assert head[pc.layer := head[pc.layer]] == head;
      return Some(head);
    }

    /** nv_drm_plane_atomic_check: a loop over the CRTCs of the update. */
    method PlaneAtomicCheck(crtcs: seq<CrtcId>, pc: PlaneCheck) returns (ok: bool)
      requires NoDup(crtcs) && forall k :: k in crtcs ==> k in heads && pc.layer < |heads[k]|
      modifies this
      ensures heads.Keys == old(heads.Keys)
      ensures ok <==> forall k :: k in crtcs ==> CheckHead(old(heads)[k], k, pc).Some?
      ensures ok ==> forall k :: k in heads ==>
                heads[k] == if k in crtcs then CheckHead(old(heads)[k], k, pc).value else old(heads)[k]
      ensures ok <==> (pc.state.crtc.Some? && pc.state.crtc.value in crtcs && pc.state.fb.Some? ==> pc.state.accepted)
      ensures ok ==> forall k :: k in crtcs ==> Checked(old(heads)[k], heads[k], k, pc)
    {
      var i := 0;
      while i < |crtcs|
        invariant 0 <= i <= |crtcs| && heads.Keys == old(heads.Keys)
        invariant forall k :: k in crtcs[..i] ==> CheckHead(old(heads)[k], k, pc).Some?
        invariant forall k :: k in crtcs[..i] ==> !Rejected(old(heads)[k], k, pc)
        invariant forall k :: k in heads ==>
          heads[k] == if k in crtcs[..i] then CheckHead(old(heads)[k], k, pc).value else old(heads)[k]
      {
        var k := crtcs[i];
        assert k !in crtcs[..i];
        assert crtcs[..i + 1] == crtcs[..i] + [k];
        var r := CheckCrtc(heads[k], k, pc);
        CheckFails(heads[k], k, pc);
        if r.None? {
          return false;
        }
        heads := heads[k := r.value];
        i := i + 1;
      }
      assert crtcs[..i] == crtcs;
      ok := true;
      forall k | k in crtcs ensures Checked(old(heads)[k], heads[k], k, pc) { CheckedMeans(old(heads)[k], k, pc); }
    }
  }
}
