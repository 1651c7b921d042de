/**
 * Modeset permissions: the partial matching of connectors and CRTCs that the grant
 * ioctl extends, choosing a head by bitmask scans, and that revocation, file close,
 * disconnection and lease revocation take apart.
 *
 * The four paths run under the modeset locks, so each is one step.
 */
module Permissions {
  import opened Common
  import opened Masks

  type File = nat
  type Oid = nat     // DRM object identifier

  // ---------------------------------------------------------------------------
  // The device
  // ---------------------------------------------------------------------------

  /** index is the position that drm_crtc_mask uses; head is the hardware head. */
  datatype Crtc = Crtc(id: Oid, index: Bit, head: Bit, filep: Option<File>)

  /** possible is the mask computed from headMask when the encoder was made; crtc is
      the legacy pointer to the CRTC that the encoder drives. */
  datatype Encoder = Encoder(dpyId: nat, headMask: nat, possible: nat, crtc: Option<nat>)

  /** driving is the CRTC of the atomic state; crtc and filep are the permission. */
  datatype Connector = Connector(id: Oid, encoder: Option<Encoder>, driving: Option<nat>,
                                 crtc: Option<nat>, filep: Option<File>)

  datatype Dev = Dev(crtcs: seq<Crtc>, connectors: seq<Connector>)

  predicate IsDpyId(c: Connector, dpyId: nat) {
    c.encoder.Some? && c.encoder.value.dpyId == dpyId
  }

  /** get_crtc_mask turns a mask of heads into a mask of CRTC indices. */
  ghost predicate IsCrtcMask(crtcs: seq<Crtc>, headMask: nat, mask: nat) {
    forall k :: 0 <= k < |crtcs| ==> (Has(mask, crtcs[k].index) <==> Has(headMask, crtcs[k].head))
  }

  ghost predicate RefersTo(crtcs: seq<Crtc>, c: Connector) {
    && (c.driving.Some? ==> c.driving.value < |crtcs|)
    && (c.encoder.Some? ==>
          && IsCrtcMask(crtcs, c.encoder.value.headMask, c.encoder.value.possible)
          && (c.encoder.value.crtc.Some? ==> c.encoder.value.crtc.value < |crtcs|))
  }

  ghost predicate Distinct(crtcs: seq<Crtc>) {
    forall j, k :: 0 <= j < k < |crtcs| ==> crtcs[j].head != crtcs[k].head && crtcs[j].index != crtcs[k].index
  }

  /** Heads and indices are distinct, and pointers to CRTCs lead somewhere. */
  ghost predicate Wired(d: Dev) {
    Distinct(d.crtcs) && forall i :: 0 <= i < |d.connectors| ==> RefersTo(d.crtcs, d.connectors[i])
  }

  method GetCrtcMask(crtcs: seq<Crtc>, headMask: nat) returns (mask: nat)
    requires Distinct(crtcs)
    ensures IsCrtcMask(crtcs, headMask, mask)
    ensures forall h: nat :: Has(mask, h) ==> exists k :: 0 <= k < |crtcs| && crtcs[k].index == h
  {
    mask := 0;
    forall h: nat ensures !Has(mask, h) { ZeroHasNone(h); }
    for n := 0 to |crtcs|
      invariant forall h: nat :: Has(mask, h) <==>
                  exists k :: 0 <= k < n && crtcs[k].index == h && Has(headMask, crtcs[k].head)
    {
      TestBit(headMask, crtcs[n].head);
      if And(headMask, NvBit(crtcs[n].head)) != 0 {
        AddBit(mask, crtcs[n].index);
        mask := Or(mask, NvBit(crtcs[n].index));
      }
    }
  }

  lemma AddBit(m: nat, g: nat)
    ensures forall h: nat :: Has(Or(m, NvBit(g)), h) <==> Has(m, h) || h == g
  {
    forall h: nat ensures Has(Or(m, NvBit(g)), h) <==> Has(m, h) || h == g {
      HasOr(m, NvBit(g), h);
      HasBit(g, h);
    }
  }

  // ---------------------------------------------------------------------------
  // Choosing a head
  // ---------------------------------------------------------------------------

  /** The CRTC that a connector is driven by, if any. */
  function Drives(c: Connector): Option<nat> {
    if c.driving.Some? then c.driving else if c.encoder.Some? then c.encoder.value.crtc else None
  }

  /** nv_drm_get_head_bit_from_connector */
  function HeadBit(crtcs: seq<Crtc>, c: Connector): nat
    requires RefersTo(crtcs, c)
  {
    if Drives(c).Some? then NvBit(crtcs[Drives(c).value].head) else 0
  }

  /** CRTC k is visible to the caller, not granted, and usable by the display with
      the given head mask. */
  predicate Free(crtcs: seq<Crtc>, seen: set<Oid>, headMask: nat, k: nat) {
    k < |crtcs| && crtcs[k].id in seen && crtcs[k].filep.None? && Has(headMask, crtcs[k].head)
  }

  predicate Idle(d: Dev, k: nat) {
    forall i :: 0 <= i < |d.connectors| ==> Drives(d.connectors[i]) != Some(k)
  }

  function FirstIdle(d: Dev, seen: set<Oid>, headMask: nat, k: nat): Option<nat>
    requires k <= |d.crtcs|
    decreases |d.crtcs| - k
  {
    if k == |d.crtcs| then None
    else if Free(d.crtcs, seen, headMask, k) && Idle(d, k) then Some(k)
    else FirstIdle(d, seen, headMask, k + 1)
  }

  /** The choice without masks: the CRTC that the connector already uses, if that is
      free, and else the first free CRTC that no connector uses. */
  function Pick(d: Dev, seen: set<Oid>, c: Connector): Option<nat>
    requires c.encoder.Some?
  {
    var t := Drives(c);
    var headMask := c.encoder.value.headMask;
    if t.Some? && Free(d.crtcs, seen, headMask, t.value) then t else FirstIdle(d, seen, headMask, 0)
  }

  lemma {:induction false} FirstIdleSpec(d: Dev, seen: set<Oid>, headMask: nat, k: nat)
    requires k <= |d.crtcs|
    ensures var r := FirstIdle(d, seen, headMask, k);
            && (r.Some? ==> k <= r.value && Free(d.crtcs, seen, headMask, r.value) && Idle(d, r.value))
            && (forall j :: k <= j < (if r.Some? then r.value else |d.crtcs|) ==>
                  !(Free(d.crtcs, seen, headMask, j) && Idle(d, j)))
    decreases |d.crtcs| - k
  {
    if k < |d.crtcs| {
      FirstIdleSpec(d, seen, headMask, k + 1);
    }
  }

  /** The connector is driven by CRTC k: through its atomic state if that has a CRTC, and
      else through its detected encoder. */
  predicate UsesCrtc(c: Connector, k: nat) {
    || c.driving == Some(k)
    || (c.driving.None? && c.encoder.Some? && c.encoder.value.crtc == Some(k))
  }

  /** A CRTC that the connector can be given: visible, not granted, with a head that the
      display can use, and driving this connector or none. */
  predicate Eligible(d: Dev, seen: set<Oid>, c: Connector, k: nat)
    requires c.encoder.Some?
  {
    && k < |d.crtcs| && d.crtcs[k].id in seen && d.crtcs[k].filep.None?
    && Has(c.encoder.value.headMask, d.crtcs[k].head)
    && (UsesCrtc(c, k) || forall i :: 0 <= i < |d.connectors| ==> !UsesCrtc(d.connectors[i], k))
  }

  lemma DrivesIsUse(c: Connector, k: nat)
    ensures Drives(c) == Some(k) <==> UsesCrtc(c, k)
  {
  }

  lemma EligibleIff(d: Dev, seen: set<Oid>, c: Connector, k: nat)
    requires c.encoder.Some?
    ensures Eligible(d, seen, c, k) <==>
              Free(d.crtcs, seen, c.encoder.value.headMask, k) && (Drives(c) == Some(k) || Idle(d, k))
  {
    DrivesIsUse(c, k);
    forall i | 0 <= i < |d.connectors| ensures Drives(d.connectors[i]) == Some(k) <==> UsesCrtc(d.connectors[i], k) {
      DrivesIsUse(d.connectors[i], k);
    }
  }

  /** A CRTC is found exactly if one is eligible, and it is eligible; the one that the
      connector uses already is preferred, and otherwise it is the first. */
  lemma PickIff(d: Dev, seen: set<Oid>, c: Connector)
    requires c.encoder.Some?
    ensures Pick(d, seen, c).Some? <==> exists k :: Eligible(d, seen, c, k)
    ensures Pick(d, seen, c).Some? ==> Eligible(d, seen, c, Pick(d, seen, c).value)
    ensures forall k: nat :: UsesCrtc(c, k) && Eligible(d, seen, c, k) ==> Pick(d, seen, c) == Some(k)
    ensures Pick(d, seen, c).Some? && !UsesCrtc(c, Pick(d, seen, c).value) ==>
              forall k :: 0 <= k < Pick(d, seen, c).value ==> !Eligible(d, seen, c, k)
  {
    var headMask := c.encoder.value.headMask;
    FirstIdleSpec(d, seen, headMask, 0);
    forall k: nat
      ensures Eligible(d, seen, c, k) <==> Free(d.crtcs, seen, headMask, k) && (Drives(c) == Some(k) || Idle(d, k))
      ensures Drives(c) == Some(k) <==> UsesCrtc(c, k)
    {
      EligibleIff(d, seen, c, k);
      DrivesIsUse(c, k);
    }
  }

  /** First scan: the heads of all CRTCs that are visible, not granted and possible. */
  method FreeHeadBits(d: Dev, seen: set<Oid>, c: Connector) returns (bits: nat)
    requires Wired(d) && RefersTo(d.crtcs, c) && c.encoder.Some?
    ensures forall h: nat :: Has(bits, h) <==>
              exists k: nat :: Free(d.crtcs, seen, c.encoder.value.headMask, k) && d.crtcs[k].head == h
    ensures forall h: nat :: Has(bits, h) <==>
              && Has(c.encoder.value.headMask, h)
              && exists k: nat :: k < |d.crtcs| && d.crtcs[k].head == h && d.crtcs[k].id in seen && d.crtcs[k].filep.None?
  {
    var headMask := c.encoder.value.headMask;
    bits := 0;
    forall h: nat ensures !Has(bits, h) { ZeroHasNone(h); }
    for n := 0 to |d.crtcs|
      invariant forall h: nat :: Has(bits, h) <==>
                  exists k: nat :: k < n && Free(d.crtcs, seen, headMask, k) && d.crtcs[k].head == h
    {
      var crtc := d.crtcs[n];
      TestBit(c.encoder.value.possible, crtc.index);
      if crtc.id in seen && crtc.filep.None? && And(NvBit(crtc.index), c.encoder.value.possible) != 0 {
        AddBit(bits, crtc.head);
        assert Free(d.crtcs, seen, headMask, n);
        bits := Or(bits, NvBit(crtc.head));
      } else {
        assert !Free(d.crtcs, seen, headMask, n);
      }
    }
  }

  /** Some connector is driven by a CRTC with head h. */
  ghost predicate HeadUsed(d: Dev, n: nat, h: nat)
    requires Wired(d) && n <= |d.connectors|
  {
    exists i :: 0 <= i < n && Drives(d.connectors[i]).Some? && d.crtcs[Drives(d.connectors[i]).value].head == h
  }

  /** Second scan: without the heads that connectors use. */
  method RemoveUsedHeads(d: Dev, free: nat) returns (bits: nat)
    requires Wired(d)
    ensures forall h: nat :: Has(bits, h) <==> Has(free, h) && !HeadUsed(d, |d.connectors|, h)
  {
    bits := free;
    for n := 0 to |d.connectors|
      invariant forall h: nat :: Has(bits, h) <==> Has(free, h) && !HeadUsed(d, n, h)
    {
      var c := d.connectors[n];
      forall h: nat ensures Has(AndNot(bits, HeadBit(d.crtcs, c)), h) <==>
                              Has(bits, h) && !(Drives(c).Some? && d.crtcs[Drives(c).value].head == h)
      {
        HasAndNot(bits, HeadBit(d.crtcs, c), h);
        HeadBitHas(d.crtcs, c, h);
      }
      bits := AndNot(bits, HeadBit(d.crtcs, c));
    }
  }

  lemma HeadBitHas(crtcs: seq<Crtc>, c: Connector, h: nat)
    requires RefersTo(crtcs, c)
    ensures Has(HeadBit(crtcs, c), h) <==> Drives(c).Some? && crtcs[Drives(c).value].head == h
    ensures Has(HeadBit(crtcs, c), h) <==>
              if c.driving.Some? then crtcs[c.driving.value].head == h
              else c.encoder.Some? && c.encoder.value.crtc.Some? && crtcs[c.encoder.value.crtc.value].head == h
  {
    if Drives(c).Some? {
      HasBit(crtcs[Drives(c).value].head, h);
    } else {
      ZeroHasNone(h);
    }
  }

  lemma HeadUsedIff(d: Dev, k: nat)
    requires Wired(d) && k < |d.crtcs|
    ensures HeadUsed(d, |d.connectors|, d.crtcs[k].head) <==> !Idle(d, k)
  {
    forall i | 0 <= i < |d.connectors| && Drives(d.connectors[i]).Some?
      ensures d.crtcs[Drives(d.connectors[i]).value].head == d.crtcs[k].head <==> Drives(d.connectors[i]) == Some(k)
    {
      assert RefersTo(d.crtcs, d.connectors[i]);
      var j := Drives(d.connectors[i]).value;
      if j < k { } else if k < j { }
    }
  }

  /** Third scan: the first CRTC whose head is in the mask. */
  method FindCrtc(crtcs: seq<Crtc>, bits: nat) returns (r: Option<nat>)
    ensures r.Some? ==> r.value < |crtcs| && Has(bits, crtcs[r.value].head)
    ensures forall j :: 0 <= j < (if r.Some? then r.value else |crtcs|) ==> !Has(bits, crtcs[j].head)
  {
    for n := 0 to |crtcs|
      invariant forall j :: 0 <= j < n ==> !Has(bits, crtcs[j].head)
    {
      TestBit(bits, crtcs[n].head);
      if And(bits, NvBit(crtcs[n].head)) != 0 {
        return Some(n);
      }
    }
    return None;
  }

  lemma TargetTest(crtcs: seq<Crtc>, c: Connector, bits: nat)
    requires RefersTo(crtcs, c)
    ensures And(HeadBit(crtcs, c), bits) != 0 <==> Drives(c).Some? && Has(bits, crtcs[Drives(c).value].head)
  {
    if Drives(c).Some? { TestBit(bits, crtcs[Drives(c).value].head); }
  }

  /** Heads are distinct, so a mask of heads is a set of CRTCs. */
  lemma FreeBit(d: Dev, seen: set<Oid>, headMask: nat, bits: nat, k: nat)
    requires Wired(d) && k < |d.crtcs|
    requires forall h: nat :: Has(bits, h) <==>
               exists j: nat :: Free(d.crtcs, seen, headMask, j) && d.crtcs[j].head == h
    ensures Has(bits, d.crtcs[k].head) <==> Free(d.crtcs, seen, headMask, k)
  {
    if Has(bits, d.crtcs[k].head) {
      var j: nat :| Free(d.crtcs, seen, headMask, j) && d.crtcs[j].head == d.crtcs[k].head;
      assert j == k by { if j < k { } else if k < j { } }
    }
  }

  /** The head selection of the grant ioctl, by masks: it makes the set-level choice,
      and a mask that is not empty always leads to a CRTC. */
  method SelectCrtc(d: Dev, seen: set<Oid>, c: Connector) returns (r: Option<nat>, bits: nat)
    requires Wired(d) && c in d.connectors && c.encoder.Some?
    ensures r == Pick(d, seen, c)
    ensures bits != 0 <==> r.Some?
  {
    var headMask := c.encoder.value.headMask;
    bits := FreeHeadBits(d, seen, c);
    forall k: nat | k < |d.crtcs|
      ensures Has(bits, d.crtcs[k].head) <==> Free(d.crtcs, seen, headMask, k)
    {
      FreeBit(d, seen, headMask, bits, k);
    }
    var target := HeadBit(d.crtcs, c);
    TargetTest(d.crtcs, c, bits);
    if And(target, bits) != 0 {
      bits := target;
      forall h: nat ensures Has(bits, h) <==> Drives(c).Some? && d.crtcs[Drives(c).value].head == h {
        HeadBitHas(d.crtcs, c, h);
      }
    } else {
      bits := RemoveUsedHeads(d, bits);
      forall k: nat | k < |d.crtcs|
        ensures Has(bits, d.crtcs[k].head) <==> Free(d.crtcs, seen, headMask, k) && Idle(d, k)
      {
        HeadUsedIff(d, k);
      }
    }
    FirstIdleSpec(d, seen, headMask, 0);
    if bits == 0 {
      forall h: nat ensures !Has(bits, h) { ZeroHasNone(h); }
      r := None;
    } else {
      var h := SomeBit(bits);
      r := FindCrtc(d.crtcs, bits);
    }
  }

  // ---------------------------------------------------------------------------
  // Granting and revoking
  // ---------------------------------------------------------------------------

  /** The first connector whose detected encoder has the display identifier. */
  function FindDpy(connectors: seq<Connector>, dpyId: nat, i: nat): (r: Option<nat>)
    requires i <= |connectors|
    ensures r.Some? ==> i <= r.value < |connectors| && IsDpyId(connectors[r.value], dpyId)
    decreases |connectors| - i
  {
    if i == |connectors| then None
    else if IsDpyId(connectors[i], dpyId) then Some(i)
    else FindDpy(connectors, dpyId, i + 1)
  }

  /** The connector and CRTC that a grant pairs, if it gets as far as asking NVKMS. */
  function Target(d: Dev, dpyId: nat, seen: set<Oid>): Option<(nat, nat)> {
    var t := FindDpy(d.connectors, dpyId, 0);
    if t.None? then None
    else
      var c := d.connectors[t.value];
      if c.id !in seen || c.filep.Some? then None
      else if Pick(d, seen, c).None? then None
      else Some((t.value, Pick(d, seen, c).value))
  }

  function Pair(d: Dev, i: nat, k: nat, file: File): Dev
    requires i < |d.connectors| && k < |d.crtcs|
  {
    Dev(d.crtcs[k := d.crtcs[k].(filep := Some(file))],
        d.connectors[i := d.connectors[i].(crtc := Some(k), filep := Some(file))])
  }

  /** Connector i is the first whose detected encoder has the display identifier. */
  predicate IsFirst(d: Dev, dpyId: nat, i: nat) {
    && i < |d.connectors| && d.connectors[i].encoder.Some? && d.connectors[i].encoder.value.dpyId == dpyId
    && forall j :: 0 <= j < i ==> d.connectors[j].encoder.Some? ==> d.connectors[j].encoder.value.dpyId != dpyId
  }

  lemma {:induction false} FindDpyIsFirst(d: Dev, dpyId: nat, n: nat)
    requires n <= |d.connectors| && forall j :: 0 <= j < n ==> !IsDpyId(d.connectors[j], dpyId)
    ensures FindDpy(d.connectors, dpyId, n).Some? ==> IsFirst(d, dpyId, FindDpy(d.connectors, dpyId, n).value)
    ensures forall i: nat :: IsFirst(d, dpyId, i) ==> FindDpy(d.connectors, dpyId, n) == Some(i)
    decreases |d.connectors| - n
  {
    if n < |d.connectors| && !IsDpyId(d.connectors[n], dpyId) {
      FindDpyIsFirst(d, dpyId, n + 1);
    }
    forall i: nat | IsFirst(d, dpyId, i) ensures FindDpy(d.connectors, dpyId, n) == Some(i) {
      assert IsDpyId(d.connectors[i], dpyId);
    }
  }

  /** A grant pairs connector i with CRTC k. */
  ghost predicate CanPair(d: Dev, dpyId: nat, seen: set<Oid>, i: nat, k: nat) {
    && IsFirst(d, dpyId, i) && d.connectors[i].id in seen && d.connectors[i].filep.None?
    && Eligible(d, seen, d.connectors[i], k)
  }

  /** The grant gets as far as asking NVKMS exactly if the first connector with the
      display is visible and not granted, and some CRTC is eligible for it. */
  lemma TargetIff(d: Dev, dpyId: nat, seen: set<Oid>)
    ensures Target(d, dpyId, seen).Some? <==> exists i: nat, k: nat :: CanPair(d, dpyId, seen, i, k)
    ensures Target(d, dpyId, seen).Some? ==>
              CanPair(d, dpyId, seen, Target(d, dpyId, seen).value.0, Target(d, dpyId, seen).value.1)
  {
    FindDpyIsFirst(d, dpyId, 0);
    var t := FindDpy(d.connectors, dpyId, 0);
    if t.Some? { PickIff(d, seen, d.connectors[t.value]); }
    var r := Target(d, dpyId, seen);
    if r.Some? { assert CanPair(d, dpyId, seen, r.value.0, r.value.1); }
    if i: nat, k: nat :| CanPair(d, dpyId, seen, i, k) {
      assert t == Some(i);
      assert Eligible(d, seen, d.connectors[i], k);
    }
  }

  lemma TargetSpec(d: Dev, dpyId: nat, seen: set<Oid>)
    requires Target(d, dpyId, seen).Some?
    ensures var (i, k) := Target(d, dpyId, seen).value;
            && i < |d.connectors| && k < |d.crtcs|
            && d.connectors[i].filep.None? && d.crtcs[k].filep.None?
  {
    var t := FindDpy(d.connectors, dpyId, 0);
    PickIff(d, seen, d.connectors[t.value]);
  }

  /** nv_drm_grant_permission_ioctl */
  function Grant(d: Dev, file: File, dpyId: nat, seen: set<Oid>, kmsOk: bool): Dev {
    var t := Target(d, dpyId, seen);
    if t.None? || !kmsOk then d else TargetSpec(d, dpyId, seen); Pair(d, t.value.0, t.value.1, file)
  }

  predicate PairedIn(d: Dev, S: set<nat>, k: nat) {
    exists i :: i in S && i < |d.connectors| && d.connectors[i].crtc == Some(k)
  }

  /** The permissions of the connectors in S are gone, and so are those of the CRTCs
      paired with them (nv_drm_connector_revoke_permissions on each). */
  function RevokeAll(d: Dev, S: set<nat>): (d': Dev)
    ensures |d'.crtcs| == |d.crtcs| && |d'.connectors| == |d.connectors|
  {
    Dev(seq(|d.crtcs|, k requires 0 <= k < |d.crtcs| =>
          if PairedIn(d, S, k) then d.crtcs[k].(filep := None) else d.crtcs[k]),
        seq(|d.connectors|, i requires 0 <= i < |d.connectors| =>
          if i in S then d.connectors[i].(crtc := None, filep := None) else d.connectors[i]))
  }

  function ClearCrtcs(d: Dev, K: set<nat>): (d': Dev)
    ensures |d'.crtcs| == |d.crtcs| && d'.connectors == d.connectors
  {
    d.(crtcs := seq(|d.crtcs|, k requires 0 <= k < |d.crtcs| =>
                 if k in K then d.crtcs[k].(filep := None) else d.crtcs[k]))
  }

  function OfFile(d: Dev, file: File, dpyId: nat): set<nat> {
    set i | 0 <= i < |d.connectors| && d.connectors[i].filep == Some(file) &&
            (dpyId == 0 || IsDpyId(d.connectors[i], dpyId))
  }

  function CrtcsOfFile(d: Dev, file: File): set<nat> {
    set k | 0 <= k < |d.crtcs| && d.crtcs[k].filep == Some(file)
  }

  function ConnectorsIn(d: Dev, objects: set<Oid>): set<nat> {
    set i | 0 <= i < |d.connectors| && d.connectors[i].filep.Some? && d.connectors[i].id in objects
  }

  function CrtcsIn(d: Dev, objects: set<Oid>): set<nat> {
    set k | 0 <= k < |d.crtcs| && d.crtcs[k].filep.Some? && d.crtcs[k].id in objects
  }

  /** nv_drm_revoke_permission; dpyId 0 stands for everything the file holds. */
  function Revoke(d: Dev, file: File, dpyId: nat): Dev {
    var d1 := RevokeAll(d, OfFile(d, file, dpyId));
    if dpyId == 0 then ClearCrtcs(d1, CrtcsOfFile(d1, file)) else d1
  }

  /** nv_drm_postclose */
  function Close(d: Dev, file: File): Dev {
    if d.crtcs != [] && d.connectors != [] then Revoke(d, file, 0) else d
  }

  /** nv_drm_finish_revoking_objects */
  function FinishLease(d: Dev, objects: set<Oid>): Dev {
    var d1 := RevokeAll(d, ConnectorsIn(d, objects));
    ClearCrtcs(d1, CrtcsIn(d1, objects))
  }

  /** The end of connector detection: a connected display updates the encoder, a
      disconnected one loses its permission. */
  function Detect(d: Dev, i: nat, encoder: Option<Encoder>): Dev
    requires i < |d.connectors|
  {
    if encoder.Some? then d.(connectors := d.connectors[i := d.connectors[i].(encoder := encoder)])
    else if d.connectors[i].filep.Some? then RevokeAll(d, {i})
    else d
  }

  // ---------------------------------------------------------------------------
  // What revocation takes away
  // ---------------------------------------------------------------------------

  /** Exactly the connectors for which lost holds have lost their permission, and exactly
      the CRTCs that one of them pointed to or for which gone holds. */
  ghost predicate TakenAway(d: Dev, d': Dev, lost: Connector -> bool, gone: Crtc -> bool) {
    && |d'.crtcs| == |d.crtcs| && |d'.connectors| == |d.connectors|
    && (forall i :: 0 <= i < |d.connectors| ==>
          d'.connectors[i] == if lost(d.connectors[i]) then d.connectors[i].(crtc := None, filep := None)
                              else d.connectors[i])
    && (forall k :: 0 <= k < |d.crtcs| ==>
          d'.crtcs[k] == if gone(d.crtcs[k]) || exists c :: c in d.connectors && lost(c) && c.crtc == Some(k)
                         then d.crtcs[k].(filep := None) else d.crtcs[k])
  }

  lemma PairedIs(d: Dev, S: set<nat>, lost: Connector -> bool, k: nat)
    requires forall i: nat :: i in S <==> i < |d.connectors| && lost(d.connectors[i])
    ensures PairedIn(d, S, k) <==> exists c :: c in d.connectors && lost(c) && c.crtc == Some(k)
  {
    if PairedIn(d, S, k) {
      var i :| i in S && i < |d.connectors| && d.connectors[i].crtc == Some(k);
      assert d.connectors[i] in d.connectors;
    }
  }

  lemma TakesAway(d: Dev, S: set<nat>, K: set<nat>, lost: Connector -> bool, gone: Crtc -> bool)
    requires forall i: nat :: i in S <==> i < |d.connectors| && lost(d.connectors[i])
    requires forall k: nat :: k < |d.crtcs| ==>
               (k in K || PairedIn(d, S, k) <==> gone(d.crtcs[k]) || PairedIn(d, S, k))
    ensures TakenAway(d, ClearCrtcs(RevokeAll(d, S), K), lost, gone)
  {
    forall k | 0 <= k < |d.crtcs|
      ensures PairedIn(d, S, k) <==> exists c :: c in d.connectors && lost(c) && c.crtc == Some(k)
    {
      PairedIs(d, S, lost, k);
    }
  }

  /** Revoking takes away exactly what the file holds on the display, or, with display 0,
      everything it holds. */
  lemma RevokeExactly(d: Dev, file: File, dpyId: nat)
    ensures TakenAway(d, Revoke(d, file, dpyId),
                      (c: Connector) => c.filep == Some(file) &&
                        (dpyId == 0 || (c.encoder.Some? && c.encoder.value.dpyId == dpyId)),
                      (c: Crtc) => c.filep == Some(file) && dpyId == 0)
  {
    var S := OfFile(d, file, dpyId);
    var d1 := RevokeAll(d, S);
    var K := if dpyId == 0 then CrtcsOfFile(d1, file) else {};
    RevokeNone(d1);
    TakesAway(d, S, K,
              (c: Connector) => c.filep == Some(file) &&
                (dpyId == 0 || (c.encoder.Some? && c.encoder.value.dpyId == dpyId)),
              (c: Crtc) => c.filep == Some(file) && dpyId == 0);
  }

  /** Revoking a lease takes away exactly the permissions on its objects. */
  lemma LeaseExactly(d: Dev, objects: set<Oid>)
    ensures TakenAway(d, FinishLease(d, objects),
                      (c: Connector) => c.filep.Some? && c.id in objects,
                      (c: Crtc) => c.filep.Some? && c.id in objects)
  {
    var S := ConnectorsIn(d, objects);
    TakesAway(d, S, CrtcsIn(RevokeAll(d, S), objects),
              (c: Connector) => c.filep.Some? && c.id in objects,
              (c: Crtc) => c.filep.Some? && c.id in objects);
  }

  /** A connector that is found disconnected has lost its permission, and so has the CRTC
      it pointed to; nothing else changes.  One that is found connected keeps it. */
  lemma DetectExactly(d: Dev, i: nat, encoder: Option<Encoder>)
    requires i < |d.connectors| && (d.connectors[i].crtc.Some? <==> d.connectors[i].filep.Some?)
    ensures var d', c := Detect(d, i, encoder), d.connectors[i];
            && |d'.connectors| == |d.connectors| && |d'.crtcs| == |d.crtcs|
            && (forall j :: 0 <= j < |d.connectors| && j != i ==> d'.connectors[j] == d.connectors[j])
            && d'.connectors[i] == (if encoder.None? then c.(crtc := None, filep := None) else c.(encoder := encoder))
            && (forall k :: 0 <= k < |d.crtcs| ==>
                  d'.crtcs[k] == if encoder.None? && c.crtc == Some(k) then d.crtcs[k].(filep := None) else d.crtcs[k])
  {
  }

  // ---------------------------------------------------------------------------
  // The matching
  // ---------------------------------------------------------------------------

  /** A connector has a file exactly if it has a CRTC, which has the same file. */
  ghost predicate PairOk(d: Dev, i: nat)
    requires i < |d.connectors|
  {
    var c := d.connectors[i];
    && (c.crtc.Some? <==> c.filep.Some?)
    && (c.crtc.Some? ==> c.crtc.value < |d.crtcs| && d.crtcs[c.crtc.value].filep == c.filep)
  }

  ghost predicate Apart(d: Dev) {
    forall i, j :: 0 <= i < j < |d.connectors| && d.connectors[i].crtc.Some? ==>
      d.connectors[i].crtc != d.connectors[j].crtc
  }

  /** A CRTC that has a file is paired with a connector. */
  ghost predicate Backed(d: Dev, k: nat)
    requires k < |d.crtcs|
  {
    d.crtcs[k].filep.Some? ==> exists i :: 0 <= i < |d.connectors| && d.connectors[i].crtc == Some(k)
  }

  ghost predicate Matched(d: Dev) {
    && (forall i: nat :: i < |d.connectors| ==> PairOk(d, i))
    && Apart(d)
    && (forall k: nat :: k < |d.crtcs| ==> Backed(d, k))
  }

  ghost predicate Unused(d: Dev, file: File) {
    && (forall i :: 0 <= i < |d.connectors| ==> d.connectors[i].filep != Some(file))
    && (forall k :: 0 <= k < |d.crtcs| ==> d.crtcs[k].filep != Some(file))
  }

  lemma PairKeeps(d: Dev, i: nat, k: nat, file: File)
    requires Matched(d) && i < |d.connectors| && k < |d.crtcs|
    requires d.connectors[i].filep.None? && d.crtcs[k].filep.None?
    ensures Matched(Pair(d, i, k, file))
  {
    var d' := Pair(d, i, k, file);
    forall j: nat | j < |d.connectors| ensures PairOk(d', j) && (j != i ==> d.connectors[j].crtc != Some(k)) {
      assert PairOk(d, j);
    }
    forall x: nat | x < |d.crtcs| ensures Backed(d', x) {
      if x == k {
        assert d'.connectors[i].crtc == Some(k);
      } else if d'.crtcs[x].filep.Some? {
        assert Backed(d, x);
        var j :| 0 <= j < |d.connectors| && d.connectors[j].crtc == Some(x);
        assert PairOk(d, j) && PairOk(d, i);
        assert d'.connectors[j].crtc == Some(x);
      }
    }
  }

  lemma RevokePairs(d: Dev, S: set<nat>, i: nat)
    requires Matched(d) && i < |d.connectors|
    ensures PairOk(RevokeAll(d, S), i)
  {
    assert PairOk(d, i);
    var c := d.connectors[i];
    if i !in S && c.crtc.Some? {
      forall j | j in S && j < |d.connectors| ensures d.connectors[j].crtc != c.crtc { }
    }
  }

  lemma RevokeKeeps(d: Dev, S: set<nat>)
    requires Matched(d)
    ensures Matched(RevokeAll(d, S))
  {
    var d' := RevokeAll(d, S);
    forall i: nat | i < |d.connectors| ensures PairOk(d', i) { RevokePairs(d, S, i); }
    forall k: nat | k < |d.crtcs| ensures Backed(d', k) {
      assert Backed(d, k);
      if d'.crtcs[k].filep.Some? {
        var i :| 0 <= i < |d.connectors| && d.connectors[i].crtc == Some(k);
        assert i !in S;
        assert d'.connectors[i].crtc == Some(k);
      }
    }
  }

  /** Revoking on behalf of a close leaves no trace of the file, on any device. */
  lemma RevokeClears(d: Dev, file: File)
    ensures Unused(Revoke(d, file, 0), file)
    ensures d.crtcs != [] && d.connectors != [] ==> Unused(Close(d, file), file)
  {
  }

  lemma RevokeNone(d: Dev)
    ensures RevokeAll(d, {}) == d && ClearCrtcs(d, {}) == d
  {
    assert RevokeAll(d, {}).crtcs == d.crtcs && RevokeAll(d, {}).connectors == d.connectors;
    assert ClearCrtcs(d, {}).crtcs == d.crtcs;
  }

  /** What holds even where leases have torn pairs apart: a connector has a file exactly
      if it points to a CRTC. */
  ghost predicate PointsOk(d: Dev, i: nat)
    requires i < |d.connectors|
  {
    var c := d.connectors[i];
    (c.crtc.Some? <==> c.filep.Some?) && (c.crtc.Some? ==> c.crtc.value < |d.crtcs|)
  }

  ghost predicate Holds(d: Dev, i: nat, k: nat, file: Option<File>) {
    i < |d.connectors| && d.connectors[i].crtc == Some(k) && d.connectors[i].filep == file
  }

  /** A CRTC that has a file is pointed to by a connector with the same file. */
  ghost predicate HeldOk(d: Dev, k: nat)
    requires k < |d.crtcs|
  {
    d.crtcs[k].filep.Some? ==> exists i: nat :: Holds(d, i, k, d.crtcs[k].filep)
  }

  ghost predicate Loose(d: Dev) {
    && (forall i: nat :: i < |d.connectors| ==> PointsOk(d, i))
    && (forall k: nat :: k < |d.crtcs| ==> HeldOk(d, k))
  }

  lemma MatchedIsLoose(d: Dev)
    requires Matched(d)
    ensures Loose(d)
  {
    forall i: nat | i < |d.connectors| ensures PointsOk(d, i) { assert PairOk(d, i); }
    forall k: nat | k < |d.crtcs| ensures HeldOk(d, k) {
      assert Backed(d, k);
      if d.crtcs[k].filep.Some? {
        var i :| 0 <= i < |d.connectors| && d.connectors[i].crtc == Some(k);
        assert PairOk(d, i);
        assert Holds(d, i, k, d.crtcs[k].filep);
      }
    }
  }

  lemma PairLoose(d: Dev, i: nat, k: nat, file: File)
    requires Loose(d) && i < |d.connectors| && k < |d.crtcs| && d.connectors[i].filep.None?
    ensures Loose(Pair(d, i, k, file))
  {
    var d' := Pair(d, i, k, file);
    forall j: nat | j < |d.connectors| ensures PointsOk(d', j) { assert PointsOk(d, j); }
    forall x: nat | x < |d.crtcs| ensures HeldOk(d', x) {
      assert HeldOk(d, x);
      if x == k {
        assert Holds(d', i, k, Some(file));
      } else if d.crtcs[x].filep.Some? {
        var j: nat :| Holds(d, j, x, d.crtcs[x].filep);
        assert Holds(d', j, x, d'.crtcs[x].filep);
      }
    }
  }

  lemma RevokeLoose(d: Dev, S: set<nat>)
    requires Loose(d)
    ensures Loose(RevokeAll(d, S))
  {
    var d' := RevokeAll(d, S);
    forall i: nat | i < |d.connectors| ensures PointsOk(d', i) { assert PointsOk(d, i); }
    forall k: nat | k < |d.crtcs| ensures HeldOk(d', k) {
      assert HeldOk(d, k);
      if d'.crtcs[k].filep.Some? {
        var i: nat :| Holds(d, i, k, d.crtcs[k].filep);
        assert i !in S;
        assert Holds(d', i, k, d'.crtcs[k].filep);
      }
    }
  }

  lemma ClearLoose(d: Dev, K: set<nat>)
    requires Loose(d)
    ensures Loose(ClearCrtcs(d, K))
  {
    var d' := ClearCrtcs(d, K);
    forall i: nat | i < |d.connectors| ensures PointsOk(d', i) { assert PointsOk(d, i); }
    forall k: nat | k < |d.crtcs| ensures HeldOk(d', k) {
      assert HeldOk(d, k);
      if d'.crtcs[k].filep.Some? {
        var i: nat :| Holds(d, i, k, d.crtcs[k].filep);
        assert Holds(d', i, k, d'.crtcs[k].filep);
      }
    }
  }

  /** A file that no connector has is left on no CRTC. */
  lemma FileIsGone(d: Dev, file: File)
    requires Loose(d) && forall i :: 0 <= i < |d.connectors| ==> d.connectors[i].filep != Some(file)
    ensures CrtcsOfFile(d, file) == {}
  {
    forall k | 0 <= k < |d.crtcs| ensures d.crtcs[k].filep != Some(file) { assert HeldOk(d, k); }
  }

  /** Closing leaves no trace of the file, also where a lease has torn pairs apart; the
      second pass over the CRTCs finds nothing to do there either. */
  lemma CloseClears(d: Dev, file: File)
    requires Loose(d)
    ensures Unused(Close(d, file), file)
    ensures Close(d, file) == RevokeAll(d, OfFile(d, file, 0))
  {
    var d1 := RevokeAll(d, OfFile(d, file, 0));
    RevokeClears(d, file);
    RevokeLoose(d, OfFile(d, file, 0));
    FileIsGone(d1, file);
    RevokeNone(d1);
    if d.crtcs == [] || d.connectors == [] {
      forall i | 0 <= i < |d.connectors| ensures d.connectors[i].filep.None? { assert PointsOk(d, i); }
      assert OfFile(d, file, 0) == {};
      RevokeNone(d);
    }
  }

  /** A lease's objects respect the pairing if they hold no CRTC without the connector
      that it is paired with. */
  ghost predicate RespectsPairs(d: Dev, objects: set<Oid>) {
    forall i :: 0 <= i < |d.connectors| && d.connectors[i].crtc.Some? && d.connectors[i].crtc.value < |d.crtcs| ==>
      (d.crtcs[d.connectors[i].crtc.value].id in objects ==> d.connectors[i].id in objects)
  }

  lemma LeaseSecondPass(d: Dev, objects: set<Oid>)
    requires Matched(d) && RespectsPairs(d, objects)
    ensures FinishLease(d, objects) == RevokeAll(d, ConnectorsIn(d, objects))
  {
    var d1 := RevokeAll(d, ConnectorsIn(d, objects));
    RevokeKeeps(d, ConnectorsIn(d, objects));
    forall k | 0 <= k < |d1.crtcs| && d1.crtcs[k].filep.Some? ensures d1.crtcs[k].id !in objects {
      assert Backed(d1, k);
      var i :| 0 <= i < |d1.connectors| && d1.connectors[i].crtc == Some(k);
      assert PairOk(d, i);
      assert i !in ConnectorsIn(d, objects);
    }
    assert CrtcsIn(d1, objects) == {};
    assert ClearCrtcs(d1, {}) == d1;
  }

  lemma LeaseBreaks(d: Dev, objects: set<Oid>, i: nat)
    requires Matched(d) && i < |d.connectors| && d.connectors[i].crtc.Some?
    requires PairOk(d, i) && d.crtcs[d.connectors[i].crtc.value].id in objects && d.connectors[i].id !in objects
    ensures !PairOk(FinishLease(d, objects), i)
  {
    var k := d.connectors[i].crtc.value;
    var d1 := RevokeAll(d, ConnectorsIn(d, objects));
    assert i !in ConnectorsIn(d, objects);
    assert d1.connectors[i] == d.connectors[i];
    var d2 := FinishLease(d, objects);
    assert d2.crtcs[k].filep.None?;
  }

  /** Lease revocation keeps the matching exactly if the objects respect it. */
  lemma LeaseIff(d: Dev, objects: set<Oid>)
    requires Matched(d)
    ensures Matched(FinishLease(d, objects)) <==> RespectsPairs(d, objects)
  {
    if RespectsPairs(d, objects) {
      LeaseSecondPass(d, objects);
      RevokeKeeps(d, ConnectorsIn(d, objects));
    } else {
      var i :| 0 <= i < |d.connectors| && d.connectors[i].crtc.Some? && d.connectors[i].crtc.value < |d.crtcs|
               && d.crtcs[d.connectors[i].crtc.value].id in objects && d.connectors[i].id !in objects;
      assert PairOk(d, i);
      LeaseBreaks(d, objects, i);
    }
  }

  // ---------------------------------------------------------------------------
  // Runs
  // ---------------------------------------------------------------------------

  datatype State = State(dev: Dev, closed: set<File>)

  datatype Step =
    | GrantStep(file: File, dpyId: nat, seen: set<Oid>, kmsOk: bool)
    | RevokeStep(file: File, dpyId: nat)
    | CloseStep(file: File)
    | DetectStep(i: nat, encoder: Option<Encoder>)
    | DriveStep(i: nat, driving: Option<nat>)      // a commit changes the connector's CRTC
    | AddConnector(id: Oid)
    | LeaseStep(objects: set<Oid>)

  /** The device comes up with its CRTCs, and without permissions. */
  ghost predicate Init(s: State) {
    && s.dev.connectors == [] && s.closed == {} && Distinct(s.dev.crtcs)
    && forall k :: 0 <= k < |s.dev.crtcs| ==> s.dev.crtcs[k].filep.None?
  }

  ghost predicate Enabled(s: State, step: Step) {
    match step
    case GrantStep(file, _, _, _) => file !in s.closed
    case RevokeStep(file, dpyId) => file !in s.closed
    case CloseStep(file) => true
    case DetectStep(i, encoder) =>
      && i < |s.dev.connectors|
      && RefersTo(s.dev.crtcs, s.dev.connectors[i].(encoder := encoder))
    case DriveStep(i, driving) =>
      i < |s.dev.connectors| && (driving.Some? ==> driving.value < |s.dev.crtcs|)
    case AddConnector(_) => true
    case LeaseStep(_) => true
  }

  ghost function Do(s: State, step: Step): State
    requires Enabled(s, step)
  {
    match step
    case GrantStep(file, dpyId, seen, kmsOk) => s.(dev := Grant(s.dev, file, dpyId, seen, kmsOk))
    case RevokeStep(file, dpyId) => if dpyId == 0 then s else s.(dev := Revoke(s.dev, file, dpyId))
    case CloseStep(file) => State(Close(s.dev, file), s.closed + {file})
    case DetectStep(i, encoder) => s.(dev := Detect(s.dev, i, encoder))
    case DriveStep(i, driving) =>
      s.(dev := s.dev.(connectors := s.dev.connectors[i := s.dev.connectors[i].(driving := driving)]))
    case AddConnector(id) =>
      s.(dev := s.dev.(connectors := s.dev.connectors + [Connector(id, None, None, None, None)]))
    case LeaseStep(objects) => s.(dev := FinishLease(s.dev, objects))
  }

  ghost predicate Next(s: State, s': State) {
    exists step :: Enabled(s, step) && s' == Do(s, step)
  }

  ghost predicate Run(run: seq<State>) {
    IsRun(run, Init, Next)
  }

  ghost predicate Inv(s: State) {
    Wired(s.dev) && Loose(s.dev) && forall file :: file in s.closed ==> Unused(s.dev, file)
  }

  /** Steps that revoke no lease, or one whose objects respect the pairs. */
  ghost predicate Respecting(s: State, step: Step) {
    step.LeaseStep? ==> RespectsPairs(s.dev, step.objects)
  }

  ghost predicate NextRespecting(s: State, s': State) {
    exists step :: Enabled(s, step) && Respecting(s, step) && s' == Do(s, step)
  }

  /** Same hardware, other permissions. */
  ghost predicate SameWiring(d: Dev, d': Dev) {
    && |d'.crtcs| == |d.crtcs| && |d'.connectors| == |d.connectors|
    && (forall k :: 0 <= k < |d.crtcs| ==> d'.crtcs[k].(filep := None) == d.crtcs[k].(filep := None))
    && (forall i :: 0 <= i < |d.connectors| ==>
          d'.connectors[i].(crtc := None, filep := None) == d.connectors[i].(crtc := None, filep := None))
  }

  lemma SameWiringKeeps(d: Dev, d': Dev)
    requires Wired(d) && SameWiring(d, d')
    ensures Wired(d')
  {
    assert forall k :: 0 <= k < |d.crtcs| ==> d'.crtcs[k].head == d.crtcs[k].head && d'.crtcs[k].index == d.crtcs[k].index
    by {
      forall k | 0 <= k < |d.crtcs|
        ensures d'.crtcs[k].head == d.crtcs[k].head && d'.crtcs[k].index == d.crtcs[k].index
      {
        assert d'.crtcs[k].(filep := None) == d.crtcs[k].(filep := None);
      }
    }
    forall i | 0 <= i < |d.connectors| ensures RefersTo(d'.crtcs, d'.connectors[i]) {
      assert RefersTo(d.crtcs, d.connectors[i]);
      assert d'.connectors[i].(crtc := None, filep := None) == d.connectors[i].(crtc := None, filep := None);
    }
  }

  /** Revoking takes files away and adds none. */
  lemma RevokeUnused(d: Dev, S: set<nat>, K: set<nat>, file: File)
    requires Unused(d, file)
    ensures Unused(RevokeAll(d, S), file) && Unused(ClearCrtcs(d, K), file)
  {
  }

  lemma RevokeInv(s: State, S: set<nat>)
    requires Inv(s)
    ensures Inv(s.(dev := RevokeAll(s.dev, S)))
  {
    RevokeLoose(s.dev, S);
    SameWiringKeeps(s.dev, RevokeAll(s.dev, S));
    forall file | file in s.closed ensures Unused(RevokeAll(s.dev, S), file) { RevokeUnused(s.dev, S, {}, file); }
  }

  lemma ClearInv(s: State, K: set<nat>)
    requires Inv(s)
    ensures Inv(s.(dev := ClearCrtcs(s.dev, K)))
  {
    ClearLoose(s.dev, K);
    SameWiringKeeps(s.dev, ClearCrtcs(s.dev, K));
    forall file | file in s.closed ensures Unused(ClearCrtcs(s.dev, K), file) { RevokeUnused(s.dev, {}, K, file); }
  }

  lemma GrantInv(s: State, file: File, dpyId: nat, seen: set<Oid>, kmsOk: bool)
    requires Inv(s) && file !in s.closed
    ensures Inv(s.(dev := Grant(s.dev, file, dpyId, seen, kmsOk)))
  {
    var t := Target(s.dev, dpyId, seen);
    if t.Some? && kmsOk {
      TargetSpec(s.dev, dpyId, seen);
      PairLoose(s.dev, t.value.0, t.value.1, file);
      SameWiringKeeps(s.dev, Pair(s.dev, t.value.0, t.value.1, file));
    }
  }

  lemma GrantMatched(d: Dev, file: File, dpyId: nat, seen: set<Oid>, kmsOk: bool)
    requires Matched(d)
    ensures Matched(Grant(d, file, dpyId, seen, kmsOk))
  {
    var t := Target(d, dpyId, seen);
    if t.Some? && kmsOk {
      TargetSpec(d, dpyId, seen);
      PairKeeps(d, t.value.0, t.value.1, file);
    }
  }

  /** Connectors that change something other than their permission. */
  ghost predicate SamePermissions(d: Dev, connectors: seq<Connector>) {
    && |d.connectors| <= |connectors|
    && (forall i :: 0 <= i < |connectors| ==> RefersTo(d.crtcs, connectors[i]))
    && (forall i :: 0 <= i < |d.connectors| ==>
          connectors[i].crtc == d.connectors[i].crtc && connectors[i].filep == d.connectors[i].filep)
    && (forall i :: |d.connectors| <= i < |connectors| ==> connectors[i].crtc.None? && connectors[i].filep.None?)
  }

  lemma ConnectorsInv(s: State, connectors: seq<Connector>)
    requires Inv(s) && SamePermissions(s.dev, connectors)
    ensures Inv(s.(dev := s.dev.(connectors := connectors)))
  {
    var d, d' := s.dev, s.dev.(connectors := connectors);
    forall i: nat | i < |connectors| ensures PointsOk(d', i) {
      if i < |d.connectors| { assert PointsOk(d, i); }
    }
    forall k: nat | k < |d.crtcs| ensures HeldOk(d', k) {
      assert HeldOk(d, k);
      if d.crtcs[k].filep.Some? {
        var i: nat :| Holds(d, i, k, d.crtcs[k].filep);
        assert Holds(d', i, k, d.crtcs[k].filep);
      }
    }
    forall file | file in s.closed ensures Unused(d', file) { assert Unused(d, file); }
  }

  lemma ConnectorsMatched(d: Dev, connectors: seq<Connector>)
    requires Matched(d) && SamePermissions(d, connectors)
    ensures Matched(d.(connectors := connectors))
  {
    var d' := d.(connectors := connectors);
    forall i: nat | i < |connectors| ensures PairOk(d', i) {
      if i < |d.connectors| { assert PairOk(d, i); }
    }
    forall k: nat | k < |d.crtcs| ensures Backed(d', k) {
      assert Backed(d, k);
      if d.crtcs[k].filep.Some? {
        var i :| 0 <= i < |d.connectors| && d.connectors[i].crtc == Some(k);
        assert d'.connectors[i].crtc == Some(k);
      }
    }
  }

  /** Detection that finds a display, commits, and new connectors leave permissions alone. */
  lemma Unrelated(s: State, step: Step)
    requires Wired(s.dev) && Enabled(s, step)
    requires (step.DetectStep? && step.encoder.Some?) || step.DriveStep? || step.AddConnector?
    ensures Do(s, step) == s.(dev := s.dev.(connectors := Do(s, step).dev.connectors))
    ensures SamePermissions(s.dev, Do(s, step).dev.connectors)
  {
    if step.DriveStep? { assert RefersTo(s.dev.crtcs, s.dev.connectors[step.i]); }
  }

  lemma CloseInv(s: State, file: File)
    requires Inv(s)
    ensures Inv(State(Close(s.dev, file), s.closed + {file}))
  {
    CloseClears(s.dev, file);
    RevokeInv(s, OfFile(s.dev, file, 0));
  }

  lemma LeaseInv(s: State, objects: set<Oid>)
    requires Inv(s)
    ensures Inv(s.(dev := FinishLease(s.dev, objects)))
  {
    var d1 := RevokeAll(s.dev, ConnectorsIn(s.dev, objects));
    RevokeInv(s, ConnectorsIn(s.dev, objects));
    ClearInv(s.(dev := d1), CrtcsIn(d1, objects));
  }

  lemma InvStep(s: State, step: Step)
    requires Inv(s) && Enabled(s, step)
    ensures Inv(Do(s, step))
  {
    match step
    case GrantStep(file, dpyId, seen, kmsOk) => GrantInv(s, file, dpyId, seen, kmsOk);
    case RevokeStep(file, dpyId) => RevokeInv(s, OfFile(s.dev, file, dpyId));
    case CloseStep(file) => CloseInv(s, file);
    case LeaseStep(objects) => LeaseInv(s, objects);
    case DetectStep(i, encoder) =>
      if encoder.None? {
        RevokeInv(s, {i});
      } else {
        Unrelated(s, step);
        ConnectorsInv(s, Do(s, step).dev.connectors);
      }
    case _ =>
      Unrelated(s, step);
      ConnectorsInv(s, Do(s, step).dev.connectors);
  }

  lemma InvNext(s: State, s': State)
    requires Inv(s) && Next(s, s')
    ensures Inv(s')
  {
    var step :| Enabled(s, step) && s' == Do(s, step);
    InvStep(s, step);
  }

  lemma InvOnRun(run: seq<State>, i: nat)
    requires Run(run) && i < |run|
    ensures Inv(run[i])
  {
    forall s, s' | Inv(s) && Next(s, s') ensures Inv(s') { InvNext(s, s'); }
    Always(run, Init, Next, Inv, i);
  }

  /** In every run, whatever leases are revoked, nothing refers to a closed file; a
      connector has a file exactly if it points to a CRTC; and a CRTC with a file is
      pointed to by a connector with that file. */
  lemma ClosedFilesAreGone(run: seq<State>, n: nat)
    requires Run(run) && n < |run|
    ensures forall file :: file in run[n].closed ==> Unused(run[n].dev, file)
    ensures Loose(run[n].dev)
  {
    InvOnRun(run, n);
  }

  lemma ClosedStays(s: State, step: Step, file: File)
    requires Enabled(s, step) && file in s.closed
    ensures file in Do(s, step).closed
  {
  }

  /** Once a file is closed nothing ever refers to it again. */
  lemma CloseIsForever(run: seq<State>, i: nat, j: nat, file: File)
    requires Run(run) && i < j < |run| && run[i + 1] == Do(run[i], CloseStep(file))
    ensures Unused(run[j].dev, file)
  {
    var kept := (s: State) => file in s.closed;
    forall s, s' | kept(s) && Next(s, s') ensures kept(s') {
      var step :| Enabled(s, step) && s' == Do(s, step);
      ClosedStays(s, step, file);
    }
    KeptFrom(run, Init, Next, kept, i + 1, j);
    ClosedFilesAreGone(run, j);
  }

  /** The revoke ioctl takes away what the file holds on the display; without a display it
      is refused. */
  lemma IoctlRevokes(s: State, file: File, dpyId: nat)
    requires Enabled(s, RevokeStep(file, dpyId))
    ensures var d' := Do(s, RevokeStep(file, dpyId)).dev;
            if dpyId == 0 then d' == s.dev
            else TakenAway(s.dev, d', (c: Connector) => c.filep == Some(file) && c.encoder.Some? && c.encoder.value.dpyId == dpyId,
                           (c: Crtc) => false)
  {
    if dpyId != 0 {
      var S := OfFile(s.dev, file, dpyId);
      RevokeNone(RevokeAll(s.dev, S));
      TakesAway(s.dev, S, {}, (c: Connector) => c.filep == Some(file) && c.encoder.Some? && c.encoder.value.dpyId == dpyId,
                (c: Crtc) => false);
    }
  }

  /** After a commit that drives a connector by a CRTC its head bit is that CRTC's. */
  lemma CommitMovesHead(s: State, i: nat, k: nat, h: nat)
    requires Inv(s) && Enabled(s, DriveStep(i, Some(k)))
    ensures var d := Do(s, DriveStep(i, Some(k))).dev;
            && i < |d.connectors| && RefersTo(d.crtcs, d.connectors[i])
            && (Has(HeadBit(d.crtcs, d.connectors[i]), h) <==> h == s.dev.crtcs[k].head)
  {
    InvStep(s, DriveStep(i, Some(k)));
    var d := Do(s, DriveStep(i, Some(k))).dev;
    HeadBitHas(d.crtcs, d.connectors[i], h);
  }

  // ---------------------------------------------------------------------------
  // Runs whose leases respect the pairs
  // ---------------------------------------------------------------------------

  lemma MatchedStep(s: State, step: Step)
    requires Wired(s.dev) && Matched(s.dev) && Enabled(s, step) && Respecting(s, step)
    ensures Matched(Do(s, step).dev)
  {
    match step
    case GrantStep(file, dpyId, seen, kmsOk) => GrantMatched(s.dev, file, dpyId, seen, kmsOk);
    case RevokeStep(file, dpyId) => RevokeKeeps(s.dev, OfFile(s.dev, file, dpyId));
    case CloseStep(file) =>
      MatchedIsLoose(s.dev);
      CloseClears(s.dev, file);
      RevokeKeeps(s.dev, OfFile(s.dev, file, 0));
    case LeaseStep(objects) => LeaseIff(s.dev, objects);
    case DetectStep(i, encoder) =>
      if encoder.None? {
        RevokeKeeps(s.dev, {i});
      } else {
        Unrelated(s, step);
        ConnectorsMatched(s.dev, Do(s, step).dev.connectors);
      }
    case _ =>
      Unrelated(s, step);
      ConnectorsMatched(s.dev, Do(s, step).dev.connectors);
  }

  ghost predicate MatchedInv(s: State) {
    Inv(s) && Matched(s.dev)
  }

  lemma MatchedNext(s: State, s': State)
    requires MatchedInv(s) && NextRespecting(s, s')
    ensures MatchedInv(s')
  {
    var step :| Enabled(s, step) && Respecting(s, step) && s' == Do(s, step);
    InvStep(s, step);
    MatchedStep(s, step);
  }

  lemma MatchedOnRun(run: seq<State>, i: nat)
    requires IsRun(run, Init, NextRespecting) && i < |run|
    ensures MatchedInv(run[i])
  {
    forall s, s' | MatchedInv(s) && NextRespecting(s, s') ensures MatchedInv(s') { MatchedNext(s, s'); }
    Always(run, Init, NextRespecting, MatchedInv, i);
  }

  /** In every run of grants, revocations, closes, hotplug events and lease
      revocations that respect the pairing, permissions form a matching between
      connectors and CRTCs, and no closed file is left in it. */
  lemma PermissionMatching(run: seq<State>, n: nat)
    requires IsRun(run, Init, NextRespecting) && n < |run|
    ensures var d := run[n].dev;
            && (forall i :: 0 <= i < |d.connectors| ==>
                  var c := d.connectors[i];
                  && (c.filep.Some? <==> c.crtc.Some?)
                  && (c.crtc.Some? ==> c.crtc.value < |d.crtcs| && d.crtcs[c.crtc.value].filep == c.filep))
            && (forall i, j :: 0 <= i < j < |d.connectors| && d.connectors[i].crtc.Some? ==>
                  d.connectors[i].crtc != d.connectors[j].crtc)
            && (forall k :: 0 <= k < |d.crtcs| && d.crtcs[k].filep.Some? ==>
                  exists i :: 0 <= i < |d.connectors| && d.connectors[i].crtc == Some(k))
    ensures forall file :: file in run[n].closed ==> Unused(run[n].dev, file)
  {
    MatchedOnRun(run, n);
    var d := run[n].dev;
    forall i | 0 <= i < |d.connectors|
      ensures var c := d.connectors[i];
              && (c.filep.Some? <==> c.crtc.Some?)
              && (c.crtc.Some? ==> c.crtc.value < |d.crtcs| && d.crtcs[c.crtc.value].filep == c.filep)
    {
      assert PairOk(d, i);
    }
    forall k | 0 <= k < |d.crtcs| && d.crtcs[k].filep.Some?
      ensures exists i :: 0 <= i < |d.connectors| && d.connectors[i].crtc == Some(k)
    {
      assert Backed(d, k);
    }
  }

  lemma Extend(run: seq<State>, step: Step) returns (run': seq<State>)
    requires Run(run) && Enabled(run[|run| - 1], step)
    ensures Run(run') && run' == run + [Do(run[|run| - 1], step)]
  {
    run' := run + [Do(run[|run| - 1], step)];
    assert Next(run[|run| - 1], run'[|run|]);
  }

  /** One CRTC and two connectors that can use it, each with a display. */
  const EMPTY_CRTC := Crtc(10, 0, 0, None)
  const FIRST := Connector(20, Some(Encoder(1, 1, 1, None)), None, None, None)
  const SECOND := Connector(21, Some(Encoder(2, 1, 1, None)), None, None, None)

  lemma PairIsReachable() returns (run: seq<State>)
    ensures Run(run) && run[|run| - 1] == State(Dev([EMPTY_CRTC], [FIRST, SECOND]), {})
  {
    run := [State(Dev([EMPTY_CRTC], []), {})];
    assert Has(1, 0);
    run := Extend(run, AddConnector(20));
    run := Extend(run, AddConnector(21));
    run := Extend(run, DetectStep(0, FIRST.encoder));
    run := Extend(run, DetectStep(1, SECOND.encoder));
    assert run[|run| - 1].dev.connectors == [FIRST, SECOND];
  }

  lemma GrantFirst(d: Dev, file: File)
    requires d == Dev([EMPTY_CRTC], [FIRST, SECOND])
    ensures Grant(d, file, 1, {10, 20}, true) ==
              Dev([EMPTY_CRTC.(filep := Some(file))], [FIRST.(crtc := Some(0), filep := Some(file)), SECOND])
  {
    assert Has(1, 0);
    assert FindDpy(d.connectors, 1, 0) == Some(0);
    assert Free(d.crtcs, {10, 20}, 1, 0) && Idle(d, 0);
    assert Target(d, 1, {10, 20}) == Some((0, 0));
  }

  lemma LeaseCrtc(d: Dev, file: File)
    requires d == Dev([EMPTY_CRTC.(filep := Some(file))], [FIRST.(crtc := Some(0), filep := Some(file)), SECOND])
    ensures !RespectsPairs(d, {10})
    ensures FinishLease(d, {10}) == Dev([EMPTY_CRTC], [FIRST.(crtc := Some(0), filep := Some(file)), SECOND])
  {
    assert d.connectors[0].crtc.Some?;
    assert ConnectorsIn(d, {10}) == {};
    RevokeNone(d);
    assert CrtcsIn(d, {10}) == {0};
    assert FinishLease(d, {10}).crtcs == [EMPTY_CRTC];
  }

  lemma GrantSecond(d: Dev, file: File)
    requires d == Dev([EMPTY_CRTC], [FIRST.(crtc := Some(0), filep := Some(file)), SECOND])
    ensures !Apart(Grant(d, file, 2, {10, 21}, true))
  {
    assert Has(1, 0);
    assert FindDpy(d.connectors, 2, 0) == Some(1);
    assert Free(d.crtcs, {10, 21}, 1, 0) && Idle(d, 0);
    assert Target(d, 2, {10, 21}) == Some((1, 0));
    var d' := Grant(d, file, 2, {10, 21}, true);
    assert d'.connectors[0].crtc == Some(0) && d'.connectors[1].crtc == Some(0);
  }

  /** A run in which a lease holds a CRTC but not the connector paired with it: the next
      grant gives the same CRTC to a second connector. */
  lemma LeaseWithoutConnector(file: File) returns (run: seq<State>)
    ensures Run(run) && |run| >= 3
    ensures !RespectsPairs(run[|run| - 3].dev, {10})
    ensures run[|run| - 2] == run[|run| - 3].(dev := FinishLease(run[|run| - 3].dev, {10}))
    ensures !Apart(run[|run| - 1].dev)
  {
    run := PairIsReachable();
    GrantFirst(run[|run| - 1].dev, file);
    run := Extend(run, GrantStep(file, 1, {10, 20}, true));
    LeaseCrtc(run[|run| - 1].dev, file);
    run := Extend(run, LeaseStep({10}));
    GrantSecond(run[|run| - 1].dev, file);
    run := Extend(run, GrantStep(file, 2, {10, 21}, true));
  }

  // ---------------------------------------------------------------------------
  // The device as an object
  // ---------------------------------------------------------------------------

  lemma RevokeOneMore(d: Dev, S: set<nat>, i: nat)
    requires i !in S && i < |d.connectors|
    ensures RevokeAll(RevokeAll(d, S), {i}) == RevokeAll(d, S + {i})
  {
    var d1 := RevokeAll(d, S);
    assert d1.connectors[i] == d.connectors[i];
    forall k | 0 <= k < |d.crtcs| ensures PairedIn(d, S + {i}, k) <==> PairedIn(d, S, k) || PairedIn(d1, {i}, k) {
    }
    assert RevokeAll(d1, {i}).crtcs == RevokeAll(d, S + {i}).crtcs;
    assert RevokeAll(d1, {i}).connectors == RevokeAll(d, S + {i}).connectors;
  }

  function Below(S: set<nat>, n: nat): set<nat> {
    set i | i in S && i < n
  }

  /** What the loops over the connectors do with connector n. */
  lemma NextConnector(d: Dev, S: set<nat>, n: nat)
    requires n < |d.connectors| && PointsOk(d, n)
    ensures RevokeAll(d, Below(S, n)).connectors[n] == d.connectors[n]
    ensures PointsOk(RevokeAll(d, Below(S, n)), n)
    ensures RevokeAll(d, Below(S, n + 1)) ==
              if n in S then RevokeAll(RevokeAll(d, Below(S, n)), {n}) else RevokeAll(d, Below(S, n))
  {
    if n in S {
      RevokeOneMore(d, Below(S, n), n);
      assert Below(S, n + 1) == Below(S, n) + {n};
    } else {
      assert Below(S, n + 1) == Below(S, n);
    }
  }

  /** NVKMS revokes the permission of every connector in S, as far as it is asked. */
  ghost predicate AllRevoked(d: Dev, S: set<nat>, kmsOk: set<nat>) {
    forall i :: i in S && i < |d.connectors| && d.connectors[i].crtc.Some? && d.connectors[i].encoder.Some? ==> i in kmsOk
  }

  lemma NextRevoked(d: Dev, S: set<nat>, kmsOk: set<nat>, n: nat)
    requires n < |d.connectors|
    ensures AllRevoked(d, Below(S, n + 1), kmsOk) <==>
              && AllRevoked(d, Below(S, n), kmsOk)
              && (n in S && d.connectors[n].crtc.Some? && d.connectors[n].encoder.Some? ==> n in kmsOk)
  {
    if n in S { assert Below(S, n + 1) == Below(S, n) + {n}; } else { assert Below(S, n + 1) == Below(S, n); }
  }

  /** Revoking for the file asks NVKMS about the connector: it has the display, if one is
      given, and its permission is on record with a CRTC and an encoder. */
  predicate Asked(c: Connector, file: File, dpyId: nat) {
    && c.filep == Some(file) && c.crtc.Some? && c.encoder.Some?
    && (dpyId == 0 || c.encoder.value.dpyId == dpyId)
  }

  class Device {
    var crtcs: seq<Crtc>
    var connectors: seq<Connector>

    function Value(): Dev
      reads this
    {
      Dev(crtcs, connectors)
    }

    constructor (d: Dev)
      ensures Value() == d
    {
      crtcs, connectors := d.crtcs, d.connectors;
    }

    /** nv_drm_connector_revoke_permissions.  The driver forgets the permission also
        when NVKMS fails to revoke it. */
    method RevokeConnector(i: nat, kmsOk: bool) returns (ok: bool)
      requires i < |connectors| && PointsOk(Value(), i)
      modifies this
      ensures Value() == RevokeAll(old(Value()), {i})
      ensures !ok <==> !kmsOk && old(connectors)[i].crtc.Some? && old(connectors)[i].encoder.Some?
    {
      var c := connectors[i];
      ok := true;
      if c.crtc.Some? {
        if c.encoder.Some? {
          ok := kmsOk;
        }
        crtcs := crtcs[c.crtc.value := crtcs[c.crtc.value].(filep := None)];
      }
      connectors := connectors[i := c.(crtc := None, filep := None)];
      ghost var d' := RevokeAll(old(Value()), {i});
      assert crtcs == d'.crtcs && connectors == d'.connectors;
    }

    /** The loop of nv_drm_revoke_permission over the connectors; kmsOk are the
        connectors for which NVKMS succeeds.  A failure does not end the loop. */
    method RevokeConnectorsOf(file: File, dpyId: nat, kmsOk: set<nat>) returns (ok: bool)
      requires Loose(Value())
      modifies this
      ensures Value() == RevokeAll(old(Value()), OfFile(old(Value()), file, dpyId))
      ensures ok <==> AllRevoked(old(Value()), OfFile(old(Value()), file, dpyId), kmsOk)
      ensures TakenAway(old(Value()), Value(),
                        (c: Connector) => c.filep == Some(file) &&
                          (dpyId == 0 || (c.encoder.Some? && c.encoder.value.dpyId == dpyId)),
                        (c: Crtc) => false)
      ensures ok <==> forall i :: 0 <= i < |old(connectors)| ==> Asked(old(connectors)[i], file, dpyId) ==> i in kmsOk
    {
      ghost var d, S := Value(), OfFile(Value(), file, dpyId);
      ok := true;
      RevokeNone(d);
      assert Below(S, 0) == {};
      for n := 0 to |connectors|
        invariant |connectors| == |d.connectors|
        invariant Value() == RevokeAll(d, Below(S, n))
        invariant ok <==> AllRevoked(d, Below(S, n), kmsOk)
      {
        assert PointsOk(d, n);
        NextConnector(d, S, n);
        NextRevoked(d, S, kmsOk, n);
        if connectors[n].filep == Some(file) && (dpyId == 0 || IsDpyId(connectors[n], dpyId)) {
          var r := RevokeConnector(n, n in kmsOk);
          ok := ok && r;
        }
      }
      assert Below(S, |connectors|) == S;
      RevokeNone(Value());
      TakesAway(d, S, {},
                (c: Connector) => c.filep == Some(file) &&
                  (dpyId == 0 || (c.encoder.Some? && c.encoder.value.dpyId == dpyId)),
                (c: Crtc) => false);
    }

    /** The loop of nv_drm_finish_revoking_objects over the connectors. */
    method RevokeConnectorsIn(objects: set<Oid>, kmsOk: set<nat>)
      requires Loose(Value())
      modifies this
      ensures Value() == RevokeAll(old(Value()), ConnectorsIn(old(Value()), objects))
    {
      ghost var d, S := Value(), ConnectorsIn(Value(), objects);
      RevokeNone(d);
      assert Below(S, 0) == {};
      for n := 0 to |connectors|
        invariant |connectors| == |d.connectors|
        invariant Value() == RevokeAll(d, Below(S, n))
      {
        assert PointsOk(d, n);
        NextConnector(d, S, n);
        if connectors[n].filep.Some? && connectors[n].id in objects {
          var _ := RevokeConnector(n, n in kmsOk);
        }
      }
      assert Below(S, |connectors|) == S;
    }

    /** The loop of nv_drm_revoke_permission over the CRTCs. */
    method ClearCrtcsOf(file: File)
      modifies this`crtcs
      ensures Value() == ClearCrtcs(old(Value()), CrtcsOfFile(old(Value()), file))
    {
      ghost var d, K := Value(), CrtcsOfFile(Value(), file);
      for n := 0 to |crtcs|
        invariant |crtcs| == |d.crtcs|
        invariant forall k :: 0 <= k < |crtcs| ==>
                    crtcs[k] == if k < n && k in K then d.crtcs[k].(filep := None) else d.crtcs[k]
      {
        if crtcs[n].filep == Some(file) {
          crtcs := crtcs[n := crtcs[n].(filep := None)];
        }
      }
      assert crtcs == ClearCrtcs(d, K).crtcs;
    }

    /** The loop of nv_drm_finish_revoking_objects over the CRTCs. */
    method ClearCrtcsIn(objects: set<Oid>)
      modifies this`crtcs
      ensures Value() == ClearCrtcs(old(Value()), CrtcsIn(old(Value()), objects))
    {
      ghost var d, K := Value(), CrtcsIn(Value(), objects);
      for n := 0 to |crtcs|
        invariant |crtcs| == |d.crtcs|
        invariant forall k :: 0 <= k < |crtcs| ==>
                    crtcs[k] == if k < n && k in K then d.crtcs[k].(filep := None) else d.crtcs[k]
      {
        if crtcs[n].filep.Some? && crtcs[n].id in objects {
          crtcs := crtcs[n := crtcs[n].(filep := None)];
        }
      }
      assert crtcs == ClearCrtcs(d, K).crtcs;
    }

    /** nv_drm_revoke_permission, on behalf of the ioctl or of a close. */
    method RevokePermission(file: File, dpyId: nat, kmsOk: set<nat>) returns (ok: bool)
      requires Loose(Value())
      modifies this
      ensures Value() == Revoke(old(Value()), file, dpyId) && Loose(Value())
      ensures Matched(old(Value())) ==> Matched(Value())
      ensures dpyId == 0 ==> Unused(Value(), file)
      ensures TakenAway(old(Value()), Value(),
                        (c: Connector) => c.filep == Some(file) &&
                          (dpyId == 0 || (c.encoder.Some? && c.encoder.value.dpyId == dpyId)),
                        (c: Crtc) => c.filep == Some(file) && dpyId == 0)
      ensures ok <==> forall i :: 0 <= i < |old(connectors)| ==> Asked(old(connectors)[i], file, dpyId) ==> i in kmsOk
    {
      RevokeExactly(Value(), file, dpyId);
      RevokeLoose(Value(), OfFile(Value(), file, dpyId));
      if dpyId == 0 {
        RevokeClears(Value(), file);
      }
      if Matched(Value()) {
        RevokeKeeps(Value(), OfFile(Value(), file, dpyId));
      }
      ok := RevokeConnectorsOf(file, dpyId, kmsOk);
      if dpyId == 0 {
        FileIsGone(Value(), file);
        RevokeNone(Value());
        ClearCrtcsOf(file);
      }
    }

    /** nv_drm_finish_revoking_objects */
    method FinishRevokingObjects(objects: set<Oid>, kmsOk: set<nat>)
      requires Loose(Value())
      modifies this
      ensures Value() == FinishLease(old(Value()), objects) && Loose(Value())
      ensures Matched(old(Value())) ==> (Matched(Value()) <==> RespectsPairs(old(Value()), objects))
      ensures TakenAway(old(Value()), Value(),
                        (c: Connector) => c.filep.Some? && c.id in objects,
                        (c: Crtc) => c.filep.Some? && c.id in objects)
    {
      LeaseExactly(Value(), objects);
      if Matched(Value()) {
        LeaseIff(Value(), objects);
      }
      RevokeLoose(Value(), ConnectorsIn(Value(), objects));
      RevokeConnectorsIn(objects, kmsOk);
      ClearLoose(Value(), CrtcsIn(Value(), objects));
      ClearCrtcsIn(objects);
    }

    /** nv_drm_grant_permission_ioctl; false stands for -EINVAL, which changes nothing. */
    method GrantPermission(file: File, dpyId: nat, seen: set<Oid>, kmsOk: bool) returns (ok: bool)
      requires Wired(Value()) && Loose(Value())
      modifies this
      ensures Value() == Grant(old(Value()), file, dpyId, seen, kmsOk)
      ensures Wired(Value()) && Loose(Value()) && (Matched(old(Value())) ==> Matched(Value()))
      ensures ok <==> kmsOk && Target(old(Value()), dpyId, seen).Some?
      ensures ok <==> kmsOk && exists i, k :: CanPair(old(Value()), dpyId, seen, i, k)
      ensures !ok ==> Value() == old(Value())
      ensures ok ==> exists i, k :: CanPair(old(Value()), dpyId, seen, i, k) && Value() == Pair(old(Value()), i, k, file)
    {
      TargetIff(Value(), dpyId, seen);
      ghost var d := Value();
      GrantInv(State(Value(), {}), file, dpyId, seen, kmsOk);
      if Matched(Value()) {
        GrantMatched(Value(), file, dpyId, seen, kmsOk);
      }
      var i := 0;
      while i < |connectors| && !IsDpyId(connectors[i], dpyId)
        invariant i <= |connectors| && FindDpy(connectors, dpyId, 0) == FindDpy(connectors, dpyId, i)
      {
        i := i + 1;
      }
      if i == |connectors| || connectors[i].id !in seen || connectors[i].filep.Some? {
        return false;
      }
      var k, bits := SelectCrtc(Value(), seen, connectors[i]);
      if bits == 0 || !kmsOk {
        return false;
      }
      PickIff(Value(), seen, connectors[i]);
      connectors := connectors[i := connectors[i].(crtc := k, filep := Some(file))];
      crtcs := crtcs[k.value := crtcs[k.value].(filep := Some(file))];
      assert CanPair(d, dpyId, seen, i, k.value) && Value() == Pair(d, i, k.value, file);
      return true;
    }
  }
}
