/**
 * Start-up of a metal (KMS) device in the older video path: which CRTCs an
 * encoder can drive and which planes a CRTC can use, whether the
 * configuration the kernel already has can be kept, the reuse of primary
 * planes, the assignment of CRTCs and primary planes to connectors, and
 * the rotation of the two scan-out buffers on every page flip.
 *
 * The device's hash maps become Dafny maps; the order in which the source
 * iterates over them is given by the id sequences of the device.
 */
module MetalVideo {
  import opened Wrappers
  import opened MetalDrmState
  import MT = MetalTransaction
  import Drm

  /** `XRGB8888.drm`: the format of the scan-out buffers. */
  const XRGB8888: nat := 0x3432_5258

  datatype VideoError =
    | NoCrtcForConnector
    | NoModeForConnector
    | CreateModeBlob
    | NoPrimaryPlaneForConnector
    | ScanoutBuffer
    | Modeset

  /** The pair of scan-out buffers of a connector, by framebuffer id. */
  datatype Buffers = Buffers(fb0: nat, fb1: nat)

  /**
   * A connector: its static description (connection, possible CRTCs in
   * iteration order, desired mode) and the cells the video path updates.
   */
  datatype Connector = Connector(
    connected: bool,
    crtcs: seq<nat>,
    mode: Option<Drm.DrmModeInfo>,
    active: bool,
    buffers: Option<Buffers>,
    nextBuffer: nat,
    primaryPlane: Option<nat>,
    crtcId: nat,
    crtc: Option<nat>)

  /** A CRTC: its index, its possible planes in iteration order, and its cells. */
  datatype Crtc = Crtc(
    idx: nat,
    possiblePlanes: seq<nat>,
    connector: Option<nat>,
    active: bool,
    modeId: nat)

  /** The geometry properties of a plane. */
  datatype Geometry = Geometry(srcX: int, srcY: int, srcW: int, srcH: int,
                               crtcX: int, crtcY: int, crtcW: int, crtcH: int)

  /** A plane: type, `possible_crtcs` mask, formats, and its CRTC_ID and geometry cells. */
  datatype Plane = Plane(
    ty: MT.PlaneType,
    possibleCrtcs: bv32,
    formats: set<nat>,
    crtcId: nat,
    geometry: Geometry)

  // ---------------------------------------------------------------------
  // Possible CRTCs and planes
  // ---------------------------------------------------------------------

  /** `BitflagsExt::contains`: every bit of `bits` is set in `mask`. */
  predicate Contains(mask: bv32, bits: bv32)
  {
    mask & bits == bits
  }

  /** `1 << idx` as a 32-bit mask. */
  function Bit(idx: nat): bv32
    requires idx < 32
  {
    (1 as bv32) << idx
  }

  /**
   * `create_encoder`: the encoder's possible CRTCs are exactly the CRTCs
   * whose bit `1 << idx` is set in its `possible_crtcs` mask. `ids` is the
   * iteration order of the device's CRTCs.
   */
  method CreateEncoder(mask: bv32, crtcs: map<nat, Crtc>, ids: seq<nat>) returns (possible: set<nat>)
    requires forall c :: c in crtcs <==> c in ids
    requires forall c :: c in crtcs ==> crtcs[c].idx < 32
    ensures possible == set c | c in crtcs && Contains(mask, Bit(crtcs[c].idx))
  {
    possible := {};
    var i := 0;
    while i < |ids|
      invariant 0 <= i <= |ids|
      invariant possible == set c | c in ids[..i] && Contains(mask, Bit(crtcs[c].idx))
    {
      var c := ids[i];
      assert ids[..i + 1] == ids[..i] + [c];
      if Contains(mask, Bit(crtcs[c].idx)) {
        possible := possible + {c};
      }
      i := i + 1;
    }
    assert ids[..|ids|] == ids;
  }

  /**
   * `create_crtc`: the CRTC with index `idx` can use exactly the planes
   * whose `possible_crtcs` mask contains `1 << idx`.
   */
  method CreateCrtc(idx: nat, planes: map<nat, Plane>, ids: seq<nat>) returns (possible: set<nat>)
    requires idx < 32
    requires forall p :: p in planes <==> p in ids
    ensures possible == set p | p in planes && Contains(planes[p].possibleCrtcs, Bit(idx))
  {
    possible := {};
    var i := 0;
    while i < |ids|
      invariant 0 <= i <= |ids|
      invariant possible == set p | p in ids[..i] && Contains(planes[p].possibleCrtcs, Bit(idx))
    {
      var p := ids[i];
      assert ids[..i + 1] == ids[..i] + [p];
      if Contains(planes[p].possibleCrtcs, Bit(idx)) {
        possible := possible + {p};
      }
      i := i + 1;
    }
    assert ids[..|ids|] == ids;
  }

  /** A single bit is contained in a mask exactly when that bit of the mask is set. */
  lemma ContainsBit(mask: bv32, idx: nat)
    requires idx < 32
    ensures Contains(mask, Bit(idx)) <==> (mask >> idx) & 1 == 1
  {
  }

  // ---------------------------------------------------------------------
  // First element of a sequence with a property
  // ---------------------------------------------------------------------

  /** The first element of `s` from position `from` on that satisfies `f`. */
  function FirstWhere(s: seq<nat>, f: nat -> bool, from: nat): (r: Option<nat>)
    ensures r.None? <==> forall i :: from <= i < |s| ==> !f(s[i])
    ensures r.Some? ==> exists i :: from <= i < |s| && s[i] == r.value && f(s[i]) && forall j :: from <= j < i ==> !f(s[j])
    decreases |s| - from
  {
    if from >= |s| then None
    else if f(s[from]) then Some(s[from])
    else FirstWhere(s, f, from + 1)
  }

  /** The first CRTC of `cs` that no connector drives (the `'crtc` block). */
  function FirstFreeCrtc(cs: seq<nat>, crtcs: map<nat, Crtc>): (r: Option<nat>)
    ensures r.Some? ==> r.value in cs && r.value in crtcs && crtcs[r.value].connector.None?
    ensures r.None? <==> forall c :: c in cs && c in crtcs ==> crtcs[c].connector.Some?
  {
    FirstWhere(cs, FreeIn(crtcs), 0)
  }

  /** The CRTCs that no connector drives. */
  function FreeIn(crtcs: map<nat, Crtc>): nat -> bool
  {
    c => c in crtcs && crtcs[c].connector.None?
  }

  /** A plane that `assign_connector_plane` may choose: primary, attached to nothing, and able to show XRGB8888. */
  predicate PrimaryCandidate(p: Plane)
  {
    p.ty == MT.Primary && p.crtcId == NONE && XRGB8888 in p.formats
  }

  /** The first of `possible` that may become a new primary plane. */
  function FirstPrimaryCandidate(possible: seq<nat>, planes: map<nat, Plane>): (r: Option<nat>)
    ensures r.Some? ==> r.value in possible && r.value in planes && PrimaryCandidate(planes[r.value])
    ensures r.None? <==> forall p :: p in possible && p in planes ==> !PrimaryCandidate(planes[p])
  {
    FirstWhere(possible, CandidateIn(planes), 0)
  }

  function CandidateIn(planes: map<nat, Plane>): nat -> bool
  {
    p => p in planes && PrimaryCandidate(planes[p])
  }

  /** The first primary plane of `possible` not in `used` (`used_planes.insert` succeeds). */
  function FirstUnusedPrimary(possible: seq<nat>, planes: map<nat, Plane>, used: set<nat>): (r: Option<nat>)
    ensures r.Some? ==> r.value in possible && r.value in planes && planes[r.value].ty == MT.Primary && r.value !in used
    ensures r.None? <==> forall p :: p in possible && p in planes && planes[p].ty == MT.Primary ==> p in used
  {
    FirstWhere(possible, UnusedPrimaryIn(planes, used), 0)
  }

  function UnusedPrimaryIn(planes: map<nat, Plane>, used: set<nat>): nat -> bool
  {
    p => p in planes && planes[p].ty == MT.Primary && p !in used
  }

  /** Skipping an element that fails `f` does not change the first element satisfying `f`. */
  lemma FirstWhereSkip(s: seq<nat>, f: nat -> bool, i: nat)
    requires i < |s| && !f(s[i])
    ensures FirstWhere(s, f, i) == FirstWhere(s, f, i + 1)
  {
  }

  // ---------------------------------------------------------------------
  // Links between connectors, CRTCs and planes
  // ---------------------------------------------------------------------

  predicate Distinct(s: seq<nat>)
  {
    forall i, j :: 0 <= i < j < |s| ==> s[i] != s[j]
  }

  /** A connector links to a CRTC exactly when that CRTC links back to it. */
  ghost predicate LinksAgree(connectors: map<nat, Connector>, crtcs: map<nat, Crtc>)
  {
    && (forall k :: k in connectors && connectors[k].crtc.Some? ==>
          connectors[k].crtc.value in crtcs && crtcs[connectors[k].crtc.value].connector == Some(k))
    && (forall c :: c in crtcs && crtcs[c].connector.Some? ==>
          crtcs[c].connector.value in connectors && connectors[crtcs[c].connector.value].crtc == Some(c))
  }

  /** The `CRTC_ID` cell of a connector names the CRTC it is linked to, or `NONE`. */
  ghost predicate CrtcIdsAgree(connectors: map<nat, Connector>)
  {
    forall k :: k in connectors ==>
      (connectors[k].crtc.Some? <==> connectors[k].crtcId != NONE)
      && (connectors[k].crtc.Some? ==> connectors[k].crtc.value == connectors[k].crtcId)
  }

  /** Every primary plane of a connector is a primary plane attached to the connector's CRTC. */
  ghost predicate PrimariesOwned(connectors: map<nat, Connector>, planes: map<nat, Plane>)
  {
    forall k :: k in connectors && connectors[k].primaryPlane.Some? ==>
      var p := connectors[k].primaryPlane.value;
      && p in planes && planes[p].ty == MT.Primary
      && connectors[k].crtc.Some? && planes[p].crtcId == connectors[k].crtc.value
  }

  /** With agreeing links, no two connectors share a CRTC. */
  lemma CrtcsExclusive(connectors: map<nat, Connector>, crtcs: map<nat, Crtc>, k1: nat, k2: nat)
    requires LinksAgree(connectors, crtcs)
    requires k1 in connectors && k2 in connectors && k1 != k2
    requires connectors[k1].crtc.Some? && connectors[k2].crtc.Some?
    ensures connectors[k1].crtc != connectors[k2].crtc
  {
  }

  /** With agreeing links and owned primary planes, no two connectors share a primary plane. */
  lemma PrimariesExclusive(connectors: map<nat, Connector>, crtcs: map<nat, Crtc>, planes: map<nat, Plane>, k1: nat, k2: nat)
    requires LinksAgree(connectors, crtcs) && PrimariesOwned(connectors, planes)
    requires k1 in connectors && k2 in connectors && k1 != k2
    requires connectors[k1].primaryPlane.Some? && connectors[k2].primaryPlane.Some?
    ensures connectors[k1].primaryPlane != connectors[k2].primaryPlane
  {
    CrtcsExclusive(connectors, crtcs, k1, k2);
  }

  /** A connector with its links, primary plane and CRTC_ID cleared. */
  function Unlinked(c: Connector): Connector
  {
    c.(primaryPlane := None, crtc := None, crtcId := NONE)
  }

  /** A CRTC that drives nothing, inactive and without a mode. */
  function Deactivated(c: Crtc): Crtc
  {
    c.(connector := None, active := false, modeId := NONE)
  }

  // ---------------------------------------------------------------------
  // The device
  // ---------------------------------------------------------------------

  class MetalDrmDevice {
    var connectors: map<nat, Connector>
    var crtcs: map<nat, Crtc>
    var planes: map<nat, Plane>
    /** The iteration order of the device's hash maps. */
    const connectorIds: seq<nat>
    const crtcIds: seq<nat>
    const planeIds: seq<nat>

    /** The ids enumerate the maps, and every reference names an object of the device. */
    ghost predicate Valid()
      reads this
    {
      WellFormed(State(), connectorIds, crtcIds, planeIds)
    }

    constructor (connectors: map<nat, Connector>, crtcs: map<nat, Crtc>, planes: map<nat, Plane>,
                 connectorIds: seq<nat>, crtcIds: seq<nat>, planeIds: seq<nat>)
      ensures this.connectors == connectors && this.crtcs == crtcs && this.planes == planes
      ensures this.connectorIds == connectorIds && this.crtcIds == crtcIds && this.planeIds == planeIds
    {
      this.connectors := connectors;
      this.crtcs := crtcs;
      this.planes := planes;
      this.connectorIds := connectorIds;
      this.crtcIds := crtcIds;
      this.planeIds := planeIds;
    }

    /**
     * `reset_connectors_and_crtcs`: every connector loses its CRTC and
     * primary plane, and every CRTC is deactivated and drives nothing.
     */
    method ResetConnectorsAndCrtcs()
      requires forall k :: k in connectors <==> k in connectorIds
      requires forall c :: c in crtcs <==> c in crtcIds
      modifies this`connectors, this`crtcs
      ensures State() == ResetLinks(old(State()))
    {
      UnlinkConnectors();
      DeactivateCrtcs();
    }

    /** The connector loop of `reset_connectors_and_crtcs`. */
    method UnlinkConnectors()
      requires forall k :: k in connectors <==> k in connectorIds
      modifies this`connectors
      ensures connectors == ResetLinks(old(State())).connectors
    {
      var i := 0;
      while i < |connectorIds|
        invariant 0 <= i <= |connectorIds|
        invariant connectors.Keys == old(connectors).Keys
        invariant forall k :: k in connectors ==>
          connectors[k] == (if k in connectorIds[..i] then Unlinked(old(connectors)[k]) else old(connectors)[k])
      {
        var k := connectorIds[i];
        assert connectorIds[..i + 1] == connectorIds[..i] + [k];
        connectors := connectors[k := Unlinked(connectors[k])];
        i := i + 1;
      }
      assert connectorIds[..i] == connectorIds;
    }

    /** The CRTC loop of `reset_connectors_and_crtcs`. */
    method DeactivateCrtcs()
      requires forall c :: c in crtcs <==> c in crtcIds
      modifies this`crtcs
      ensures crtcs == ResetLinks(old(State())).crtcs
    {
      var i := 0;
      while i < |crtcIds|
        invariant 0 <= i <= |crtcIds|
        invariant crtcs.Keys == old(crtcs).Keys
        invariant forall c :: c in crtcs ==>
          crtcs[c] == (if c in crtcIds[..i] then Deactivated(old(crtcs)[c]) else old(crtcs)[c])
      {
        var c := crtcIds[i];
        assert crtcIds[..i + 1] == crtcIds[..i] + [c];
        crtcs := crtcs[c := Deactivated(crtcs[c])];
        i := i + 1;
      }
      assert crtcIds[..i] == crtcIds;
    }

    /** The device state as a value. */
    function State(): DeviceState
      reads this
    {
      DeviceState(connectors, crtcs, planes)
    }

    /**
     * `assign_connector_crtc` with the kernel's answer `blob` to the
     * creation of the mode blob.
     */
    method AssignConnectorCrtc(k: nat, blob: Option<nat>) returns (r: Result<(), VideoError>)
      requires k in connectors
      modifies this`connectors, this`crtcs
      ensures (r, State()) == AssignCrtc(old(State()), k, blob)
    {
      var c := connectors[k];
      if !c.connected {
        return Ok(());
      }
      var free := FindFreeCrtc(c.crtcs);
      if free.None? {
        return Err(NoCrtcForConnector);
      }
      var crtc := free.value;
      if c.mode.None? {
        return Err(NoModeForConnector);
      }
      if blob.None? {
        return Err(CreateModeBlob);
      }
      connectors := connectors[k := c.(crtc := Some(crtc), crtcId := crtc)];
      crtcs := crtcs[crtc := crtcs[crtc].(connector := Some(k), active := true, modeId := blob.value)];
      r := Ok(());
    }

    /** The `'crtc` loop: the first of `cs` that drives nothing. */
    method FindFreeCrtc(cs: seq<nat>) returns (r: Option<nat>)
      ensures r == FirstFreeCrtc(cs, crtcs)
    {
      var i := 0;
      while i < |cs| && !(cs[i] in crtcs && crtcs[cs[i]].connector.None?)
        invariant 0 <= i <= |cs|
        invariant FirstWhere(cs, FreeIn(crtcs), i) == FirstFreeCrtc(cs, crtcs)
      {
        FirstWhereSkip(cs, FreeIn(crtcs), i);
        i := i + 1;
      }
      if i == |cs| {
        return None;
      }
      return Some(cs[i]);
    }

    /**
     * `assign_connector_plane` with the result `alloc` of allocating a
     * pair of scanout buffers.
     */
    method AssignConnectorPlane(k: nat, alloc: Option<Buffers>) returns (r: Result<(), VideoError>)
      requires PlaneReady(State(), k)
      modifies this`connectors, this`planes
      ensures (r, State()) == AssignPlane(old(State()), k, alloc)
    {
      var c := connectors[k];
      if c.crtc.None? || c.mode.None? {
        return Ok(());
      }
      var crtc := c.crtc.value;
      var primary := c.primaryPlane;
      if primary.None? {
        primary := FindPrimaryCandidate(crtcs[crtc].possiblePlanes);
      }
      if primary.None? {
        return Err(NoPrimaryPlaneForConnector);
      }
      var buffers := c.buffers;
      if buffers.None? {
        buffers := alloc;
      }
      if buffers.None? {
        return Err(ScanoutBuffer);
      }
      var p := primary.value;
      var mode := c.mode.value;
      planes := planes[p := planes[p].(crtcId := crtc, geometry := FullScreen(mode.hdisplay, mode.vdisplay))];
      connectors := connectors[k := c.(buffers := buffers, primaryPlane := Some(p), active := true)];
      r := Ok(());
    }

    /** The plane loop of `assign_connector_plane`: the first of `possible` that may become a primary plane. */
    method FindPrimaryCandidate(possible: seq<nat>) returns (r: Option<nat>)
      ensures r == FirstPrimaryCandidate(possible, planes)
    {
      var i := 0;
      while i < |possible| && !(possible[i] in planes && PrimaryCandidate(planes[possible[i]]))
        invariant 0 <= i <= |possible|
        invariant FirstWhere(possible, CandidateIn(planes), i) == FirstPrimaryCandidate(possible, planes)
      {
        FirstWhereSkip(possible, CandidateIn(planes), i);
        i := i + 1;
      }
      if i == |possible| {
        return None;
      }
      return Some(possible[i]);
    }

    /** `reuse_primary_planes` */
    method ReusePrimaryPlanes() returns (preserve: set<nat>)
      requires Valid()
      modifies this`connectors
      ensures (preserve, State()) == ReusePrimaries(old(State()), planeIds)
    {
      ghost var s := State();
      var lists, order := DeactivateConnectors();
      lists := CollectPrimaries(lists);
      ListsAre(s, planeIds, lists);
      var ok := CheckReuse(lists, order);
      if !ok {
        ConnectorsAre(s.connectors, lists, false, connectors);
        ReuseAssembled(s, planeIds, lists, ok, connectors, {});
        return {};
      }
      ghost var mid := connectors;
      preserve := TakeBack(lists);
      TakeBackAssembled(s, planeIds, connectorIds, lists, mid, connectors, preserve);
    }

    /**
     * The connector loop of `reuse_primary_planes`: every connector becomes
     * inactive and loses its primary plane, and every CRTC a connector
     * links to gets an empty plane list. `order` enumerates the lists.
     */
    method DeactivateConnectors() returns (lists: map<nat, seq<nat>>, order: seq<nat>)
      requires forall k :: k in connectors <==> k in connectorIds
      modifies this`connectors
      ensures connectors.Keys == old(connectors).Keys
      ensures forall k :: k in connectors ==> connectors[k] == old(connectors)[k].(active := false, primaryPlane := None)
      ensures lists.Keys == LinkedCrtcs(old(connectors)) && forall c :: c in lists ==> lists[c] == []
      ensures forall c :: c in order <==> c in lists
    {
      lists, order := EmptyLists();
      Deactivate();
    }

    /** The `active` and `primary_plane` half of the connector loop of `reuse_primary_planes`. */
    method Deactivate()
      requires forall k :: k in connectors <==> k in connectorIds
      modifies this`connectors
      ensures connectors.Keys == old(connectors).Keys
      ensures forall k :: k in connectors ==> connectors[k] == old(connectors)[k].(active := false, primaryPlane := None)
    {
      var i := 0;
      while i < |connectorIds|
        invariant 0 <= i <= |connectorIds|
        invariant connectors.Keys == old(connectors).Keys
        invariant forall k :: k in connectors ==>
          connectors[k] == if k in connectorIds[..i] then old(connectors)[k].(active := false, primaryPlane := None) else old(connectors)[k]
      {
        var k := connectorIds[i];
        assert connectorIds[..i + 1] == connectorIds[..i] + [k];
        connectors := connectors[k := connectors[k].(active := false, primaryPlane := None)];
        i := i + 1;
      }
      assert connectorIds[..i] == connectorIds;
    }

    /** The `crtc_primary_planes` half of the connector loop of `reuse_primary_planes`. */
    method EmptyLists() returns (lists: map<nat, seq<nat>>, order: seq<nat>)
      requires forall k :: k in connectors <==> k in connectorIds
      ensures lists.Keys == LinkedCrtcs(connectors) && forall c :: c in lists ==> lists[c] == []
      ensures forall c :: c in order <==> c in lists
    {
      lists := map[];
      order := [];
      var i := 0;
      while i < |connectorIds|
        invariant 0 <= i <= |connectorIds|
        invariant lists.Keys == CrtcsOf(connectors, connectorIds[..i])
        invariant forall c :: c in lists ==> lists[c] == []
        invariant forall c :: c in order <==> c in lists
      {
        var k := connectorIds[i];
        assert connectorIds[..i + 1][..i] == connectorIds[..i];
        var c := connectors[k];
        if c.crtc.Some? {
          if c.crtc.value !in lists {
            order := order + [c.crtc.value];
          }
          lists := lists[c.crtc.value := []];
        }
        i := i + 1;
      }
      assert connectorIds[..i] == connectorIds;
      CrtcsOfAll(connectors, connectorIds);
    }

    /** The plane loop of `reuse_primary_planes`: each primary plane joins the list of the CRTC it is shown on. */
    method CollectPrimaries(lists: map<nat, seq<nat>>) returns (r: map<nat, seq<nat>>)
      requires forall c :: c in lists ==> lists[c] == []
      ensures r.Keys == lists.Keys
      ensures forall c :: c in r ==> r[c] == PrimariesOn(planeIds, planes, c)
    {
      r := lists;
      var i := 0;
      while i < |planeIds|
        invariant 0 <= i <= |planeIds|
        invariant r.Keys == lists.Keys
        invariant Collected(r, planeIds[..i], planes)
      {
        var p := planeIds[i];
        ghost var r0 := r;
        if p in planes && planes[p].ty == MT.Primary && planes[p].crtcId in r {
          r := r[planes[p].crtcId := r[planes[p].crtcId] + [p]];
        }
        CollectStep(r0, r, planeIds, i, planes);
        i := i + 1;
      }
      assert planeIds[..i] == planeIds;
      assert Collected(r, planeIds, planes);
    }

    /** The check loop of `reuse_primary_planes`, over the lists in the order `order`. */
    method CheckReuse(lists: map<nat, seq<nat>>, order: seq<nat>) returns (ok: bool)
      requires forall c :: c in order <==> c in lists
      ensures ok == ReuseOk(lists, planes)
    {
      var i := 0;
      while i < |order|
        invariant 0 <= i <= |order|
        invariant forall j :: 0 <= j < i ==> ReusableList(lists[order[j]], planes)
      {
        var ps := lists[order[i]];
        if |ps| > 1 {
          return false;
        }
        if |ps| == 1 && !(ps[0] in planes && XRGB8888 in planes[ps[0]].formats) {
          return false;
        }
        i := i + 1;
      }
      forall c | c in lists
        ensures ReusableList(lists[c], planes)
      {
        var j :| 0 <= j < |order| && order[j] == c;
      }
      return true;
    }

    /** The last loop of `reuse_primary_planes`: each connector takes back the plane shown on its `CRTC_ID`. */
    method TakeBack(lists: map<nat, seq<nat>>) returns (preserve: set<nat>)
      modifies this`connectors
      ensures (connectors, preserve) == TakeBackOver(old(connectors), connectorIds, lists)
    {
      ghost var cs0 := connectors;
      preserve := {};
      var i := 0;
      while i < |connectorIds|
        invariant 0 <= i <= |connectorIds|
        invariant (connectors, preserve) == TakeBackOver(cs0, connectorIds[..i], lists)
      {
        var k := connectorIds[i];
        assert connectorIds[..i + 1][..i] == connectorIds[..i];
        if k in connectors {
          var r := ReusedPrimary(connectors[k], lists, true);
          if r.Some? {
            connectors := connectors[k := connectors[k].(primaryPlane := r)];
            preserve := preserve + {r.value};
          }
        }
        i := i + 1;
      }
      assert connectorIds[..i] == connectorIds;
    }

    /** `reset_planes` */
    method ResetPlanes(preserve: set<nat>)
      requires forall p :: p in planes <==> p in planeIds
      modifies this`planes
      ensures planes == ClearPlanes(old(planes), preserve)
    {
      ghost var ps0 := planes;
      var i := 0;
      while i < |planeIds|
        invariant 0 <= i <= |planeIds|
        invariant planes == ClearOver(ps0, planeIds[..i], preserve)
      {
        var p := planeIds[i];
        assert planeIds[..i + 1][..i] == planeIds[..i];
        if p !in preserve && p in planes {
          planes := planes[p := planes[p].(crtcId := NONE)];
        }
        i := i + 1;
      }
      assert planeIds[..i] == planeIds;
      ClearOverAll(ps0, planeIds, preserve);
    }

    /** The last connector loop of `init_drm_device`: inactive connectors lose their primary plane. */
    method DropInactivePrimaries()
      requires forall k :: k in connectors <==> k in connectorIds
      modifies this`connectors
      ensures connectors == DropInactive(old(connectors))
    {
      ghost var cs0 := connectors;
      var i := 0;
      while i < |connectorIds|
        invariant 0 <= i <= |connectorIds|
        invariant connectors == DropOver(cs0, connectorIds[..i])
      {
        var k := connectorIds[i];
        assert connectorIds[..i + 1][..i] == connectorIds[..i];
        if k in connectors && !connectors[k].active {
          connectors := connectors[k := connectors[k].(primaryPlane := None)];
        }
        i := i + 1;
      }
      assert connectorIds[..i] == connectorIds;
      DropOverAll(cs0, connectorIds);
    }

    /** The plane loop of `can_use_current_drm_mode`: the first primary plane of `possible` not yet used. */
    method FindUnusedPrimary(possible: seq<nat>, used: set<nat>) returns (r: Option<nat>)
      ensures r == FirstUnusedPrimary(possible, planes, used)
    {
      var i := 0;
      while i < |possible| && !(possible[i] in planes && planes[possible[i]].ty == MT.Primary && possible[i] !in used)
        invariant 0 <= i <= |possible|
        invariant FirstWhere(possible, UnusedPrimaryIn(planes, used), i) == FirstUnusedPrimary(possible, planes, used)
      {
        FirstWhereSkip(possible, UnusedPrimaryIn(planes, used), i);
        i := i + 1;
      }
      if i == |possible| {
        return None;
      }
      return Some(possible[i]);
    }

    /** One pass of the connector loop of `can_use_current_drm_mode`; `picks` records the plane each connector got. */
    method CheckConnector(k: nat, currentMode: nat -> Option<Drm.DrmModeInfo>,
                          usedCrtcs: set<nat>, usedPlanes: set<nat>, ghost picks: map<nat, nat>)
      returns (ok: bool, usedCrtcs': set<nat>, usedPlanes': set<nat>, ghost picks': map<nat, nat>)
      requires k in connectors && Refs(State())
      modifies this`connectors, this`crtcs
      ensures (ok, Scan(State(), usedCrtcs', usedPlanes', picks')) ==
        ScanConnector(Scan(old(State()), usedCrtcs, usedPlanes, picks), k, currentMode)
    {
      usedCrtcs', usedPlanes', picks' := usedCrtcs, usedPlanes, picks;
      var c := connectors[k];
      if !c.connected {
        ok := c.crtcId == NONE;
        return;
      }
      if c.crtcId == NONE {
        ok := false;
        return;
      }
      var id := c.crtcId;
      usedCrtcs' := usedCrtcs + {id};
      var crtc := crtcs[id];
      ghost var s0 := State();
      connectors := connectors[k := c.(crtc := Some(id))];
      crtcs := crtcs[id := crtc.(connector := Some(k))];
      assert State() == Link(s0, k, id);
      if !crtc.active || c.mode.None? {
        ok := false;
        return;
      }
      var current := currentMode(crtc.modeId);
      if current.None? || !MT.ModesEqual(c.mode.value, current.value) {
        ok := false;
        return;
      }
      var pick := FindUnusedPrimary(crtc.possiblePlanes, usedPlanes);
      if pick.None? {
        ok := false;
        return;
      }
      usedPlanes' := usedPlanes + {pick.value};
      picks' := picks[k := pick.value];
      ok := true;
    }

    /** The CRTC loop of `can_use_current_drm_mode`: unused CRTCs are switched off, and the flags say whether one was on. */
    method SwitchOffCrtcs(used: set<nat>) returns (flags: nat)
      requires (forall c :: c in crtcs <==> c in crtcIds) && Distinct(crtcIds)
      modifies this`crtcs
      ensures crtcs == SwitchOffUnused(old(crtcs), used)
      ensures flags == SwitchOffFlags(old(crtcs), used)
    {
      ghost var rs0 := crtcs;
      flags := 0;
      var i := 0;
      while i < |crtcIds|
        invariant 0 <= i <= |crtcIds|
        invariant flags == 0 || flags == MT.ALLOW_MODESET
        invariant (crtcs, flags == MT.ALLOW_MODESET) == SwitchOffOver(rs0, crtcIds[..i], used)
      {
        var c := crtcIds[i];
        assert crtcIds[..i + 1][..i] == crtcIds[..i];
        if c !in used && c in crtcs {
          if crtcs[c].active {
            flags := MT.ALLOW_MODESET;
          }
          crtcs := crtcs[c := crtcs[c].(active := false)];
        }
        i := i + 1;
      }
      assert crtcIds[..i] == crtcIds;
      SwitchOffAll(rs0, crtcIds, used);
    }

    /** `can_use_current_drm_mode` with the kernel's mode blobs `currentMode` and its answer `probe` to the commit. */
    method CanUseCurrentDrmMode(currentMode: nat -> Option<Drm.DrmModeInfo>, probe: nat -> bool) returns (ok: bool)
      requires Valid()
      modifies this`connectors, this`crtcs
      ensures (ok, State()) == CanUse(old(State()), connectorIds, currentMode, probe)
    {
      var usedCrtcs;
      ghost var sc;
      ok, usedCrtcs, sc := ScanConnectors(currentMode);
      assert crtcs.Keys == old(crtcs).Keys;
      if !ok {
        CanUseFails(old(State()), connectorIds, currentMode, probe, sc);
        return;
      }
      CanUsePasses(old(State()), connectorIds, currentMode, probe, sc);
      var flags := SwitchOffCrtcs(usedCrtcs);
      ok := probe(flags);
    }

    /** The connector loop of `can_use_current_drm_mode`, with the scan `sc` it performs. */
    method ScanConnectors(currentMode: nat -> Option<Drm.DrmModeInfo>) returns (ok: bool, usedCrtcs: set<nat>, ghost sc: Scan)
      requires Refs(State()) && forall k :: k in connectorIds ==> k in connectors
      modifies this`connectors, this`crtcs
      ensures ScanFrom(Scan(old(State()), {}, {}, map[]), connectorIds, currentMode) == (ok, sc)
      ensures sc.s == State() && sc.usedCrtcs == usedCrtcs
      ensures crtcs.Keys == old(crtcs).Keys
    {
      ghost var target := ScanFrom(Scan(State(), {}, {}, map[]), connectorIds, currentMode);
      usedCrtcs := {};
      var usedPlanes: set<nat> := {};
      ghost var picks: map<nat, nat> := map[];
      var i := 0;
      while i < |connectorIds|
        invariant 0 <= i <= |connectorIds|
        invariant Refs(State()) && connectors.Keys == old(connectors).Keys && crtcs.Keys == old(crtcs).Keys
        invariant ScanFrom(Scan(State(), usedCrtcs, usedPlanes, picks), connectorIds[i..], currentMode) == target
      {
        ghost var before := Scan(State(), usedCrtcs, usedPlanes, picks);
        var step;
        step, usedCrtcs, usedPlanes, picks := CheckConnector(connectorIds[i], currentMode, usedCrtcs, usedPlanes, picks);
        ScanAdvance(before, Scan(State(), usedCrtcs, usedPlanes, picks), step, connectorIds, i, currentMode, target);
        if !step {
          return false, usedCrtcs, Scan(State(), usedCrtcs, usedPlanes, picks);
        }
        i := i + 1;
      }
      return true, usedCrtcs, Scan(State(), usedCrtcs, usedPlanes, picks);
    }

    /** The CRTC loop of `init_drm_device`. */
    method AssignAllCrtcs(blob: nat -> Option<nat>)
      requires Refs(State()) && forall k :: k in connectorIds ==> k in connectors
      modifies this`connectors, this`crtcs
      ensures State() == AssignCrtcs(old(State()), connectorIds, blob)
    {
      ghost var s0 := State();
      var i := 0;
      while i < |connectorIds|
        invariant 0 <= i <= |connectorIds|
        invariant Refs(State()) && forall k :: k in connectorIds ==> k in connectors
        invariant AssignCrtcs(State(), connectorIds[i..], blob) == AssignCrtcs(s0, connectorIds, blob)
      {
        var k := connectorIds[i];
        assert connectorIds[i..][1..] == connectorIds[i + 1..];
        AssignCrtcKeepsRefs(State(), k, blob(k));
        var _ := AssignConnectorCrtc(k, blob(k));
        i := i + 1;
      }
    }

    /** The plane loop of `init_drm_device`, over the connectors in the order `order`. */
    method AssignAllPlanes(order: seq<nat>, alloc: nat -> Option<Buffers>)
      requires Refs(State()) && forall k :: k in order ==> k in connectors
      modifies this`connectors, this`planes
      ensures State() == AssignPlanes(old(State()), order, alloc)
    {
      ghost var s0 := State();
      var i := 0;
      while i < |order|
        invariant 0 <= i <= |order|
        invariant Refs(State()) && forall k :: k in order ==> k in connectors
        invariant AssignPlanes(State(), order[i..], alloc) == AssignPlanes(s0, order, alloc)
      {
        var k := order[i];
        assert order[i..][1..] == order[i + 1..];
        AssignPlaneKeepsRefs(State(), k, alloc(k));
        var _ := AssignConnectorPlane(k, alloc(k));
        i := i + 1;
      }
    }

    /**
     * `init_drm_device`: keep the kernel's configuration or reset it and
     * assign CRTCs, then set up the primary planes and commit, with
     * `ALLOW_MODESET` only after a reset.
     */
    method InitDrmDevice(currentMode: nat -> Option<Drm.DrmModeInfo>, probe: nat -> bool,
                         blob: nat -> Option<nat>, alloc: nat -> Option<Buffers>, commit: nat -> bool)
      returns (r: Result<(), VideoError>)
      requires Valid()
      modifies this`connectors, this`crtcs, this`planes
      ensures Valid()
      ensures (r, State()) == Init(old(State()), connectorIds, planeIds, currentMode, probe, blob, alloc, commit)
    {
      var keep := KeepOrResetConfig(currentMode, probe, blob);
      var flags := if keep then 0 else MT.ALLOW_MODESET;
      SetUpPrimaryPlanes(alloc);
      if !commit(flags) {
        return Err(Modeset);
      }
      return Ok(());
    }

    /** The first part of `init_drm_device`. */
    method KeepOrResetConfig(currentMode: nat -> Option<Drm.DrmModeInfo>, probe: nat -> bool, blob: nat -> Option<nat>)
      returns (keep: bool)
      requires Valid()
      modifies this`connectors, this`crtcs
      ensures Valid()
      ensures (keep, State()) == KeepOrReset(old(State()), connectorIds, currentMode, probe, blob)
    {
      keep := CanUseCurrentDrmMode(currentMode, probe);
      if !keep {
        ResetIsLinked(State());
        ResetConnectorsAndCrtcs();
        AssignAllCrtcs(blob);
      }
    }

    /** The second part of `init_drm_device`. */
    method SetUpPrimaryPlanes(alloc: nat -> Option<Buffers>)
      requires Valid()
      modifies this`connectors, this`planes
      ensures Valid()
      ensures State() == SetUpPlanes(old(State()), connectorIds, planeIds, alloc)
    {
      ghost var s := State();
      ReuseKeepsRefs(s, planeIds);
      var preserve := ReusePrimaryPlanes();
      ghost var s3 := State();
      ResetPlanes(preserve);
      ghost var s4 := State();
      assert s4 == s3.(planes := ClearPlanes(s3.planes, preserve));
      ClearKeepsRefs(s3, preserve);
      var order := PrimaryFirst(connectorIds, connectors);
      assert forall k :: k in order ==> k in connectorIds;
      AssignAllPlanes(order, alloc);
      ghost var s5 := State();
      DropInactivePrimaries();
      SetUpIs(s, connectorIds, planeIds, alloc, preserve, s3, s4, s5, State());
    }

    /** `present` for connector `k`: the plane and framebuffer of the flip. */
    method PresentConnector(k: nat) returns (flip: Option<(nat, nat)>)
      requires k in connectors
      modifies this`connectors
      ensures (flip, connectors) == (Present(old(connectors)[k]).0, old(connectors)[k := Present(old(connectors)[k]).1])
    {
      var c := connectors[k];
      if c.buffers.None? || c.primaryPlane.None? {
        assert connectors[k := c] == connectors;
        return None;
      }
      var b := c.buffers.value;
      var fb := if c.nextBuffer % 2 == 0 then b.fb0 else b.fb1;
      connectors := connectors[k := c.(nextBuffer := c.nextBuffer + 1)];
      flip := Some((c.primaryPlane.value, fb));
    }

    /** `handle_drm_flip_event` */
    method HandleFlip(crtcId: nat) returns (flip: Option<(nat, nat)>)
      requires forall c :: c in crtcs && crtcs[c].connector.Some? ==> crtcs[c].connector.value in connectors
      modifies this`connectors
      ensures (flip, State()) == Flip(old(State()), crtcId)
    {
      if crtcId !in crtcs || crtcs[crtcId].connector.None? {
        return None;
      }
      flip := PresentConnector(crtcs[crtcId].connector.value);
    }
  }

  /** The connectors, CRTCs and planes of a device. */
  datatype DeviceState = DeviceState(connectors: map<nat, Connector>, crtcs: map<nat, Crtc>, planes: map<nat, Plane>)

  /** The ids enumerate the maps and every reference names an object of the device. */
  ghost predicate WellFormed(s: DeviceState, connectorIds: seq<nat>, crtcIds: seq<nat>, planeIds: seq<nat>)
  {
    && (forall k :: k in s.connectors <==> k in connectorIds) && Distinct(connectorIds)
    && (forall c :: c in s.crtcs <==> c in crtcIds) && Distinct(crtcIds)
    && (forall p :: p in s.planes <==> p in planeIds) && Distinct(planeIds)
    && Refs(s)
  }

  /**
   * Every reference names an object of the device (in the source they are
   * `Rc`s or ids the kernel reports), and no CRTC has id `NONE`.
   */
  ghost predicate Refs(s: DeviceState)
  {
    && NONE !in s.crtcs
    && (forall k :: k in s.connectors ==>
          && (forall c :: c in s.connectors[k].crtcs ==> c in s.crtcs)
          && (s.connectors[k].crtcId == NONE || s.connectors[k].crtcId in s.crtcs)
          && (s.connectors[k].crtc.Some? ==> s.connectors[k].crtc.value in s.crtcs)
          && (s.connectors[k].primaryPlane.Some? ==> s.connectors[k].primaryPlane.value in s.planes))
    && (forall c :: c in s.crtcs ==>
          && (forall p :: p in s.crtcs[c].possiblePlanes ==> p in s.planes)
          && (s.crtcs[c].connector.Some? ==> s.crtcs[c].connector.value in s.connectors))
  }

  /** The link invariant of the video path. */
  ghost predicate Linked(s: DeviceState)
  {
    LinksAgree(s.connectors, s.crtcs) && CrtcIdsAgree(s.connectors) && PrimariesOwned(s.connectors, s.planes)
  }

  /**
   * `assign_connector_crtc`: a connected connector takes the first of its
   * CRTCs that drives nothing, activates it with a new blob of its mode
   * and links to it. A disconnected connector is left alone. A connected
   * connector fails exactly when all its CRTCs drive something, it has no
   * mode, or the blob cannot be created, and then nothing changes.
   */
  function AssignCrtc(s: DeviceState, k: nat, blob: Option<nat>): (res: (Result<(), VideoError>, DeviceState))
    requires k in s.connectors
    ensures var (r, s') := res;
      var c := s.connectors[k];
      var free := FirstFreeCrtc(c.crtcs, s.crtcs);
      && (!c.connected ==> r.Ok? && s' == s)
      && (c.connected ==>
            && (r.Ok? <==> free.Some? && c.mode.Some? && blob.Some?)
            && (r.Err? ==> s' == s)
            && (free.None? ==> r == Err(NoCrtcForConnector))
            && (r.Ok? ==>
                  && s'.connectors.Keys == s.connectors.Keys && s'.crtcs.Keys == s.crtcs.Keys
                  && s'.connectors[k].crtc == free && s'.connectors[k].crtcId == free.value
                  && s'.crtcs[free.value].connector == Some(k) && s'.crtcs[free.value].active
                  && s'.crtcs[free.value].modeId == blob.value
                  && s'.planes == s.planes
                  && (forall j :: j in s.connectors && j != k ==> s'.connectors[j] == s.connectors[j])
                  && (forall x :: x in s.crtcs && x != free.value ==> s'.crtcs[x] == s.crtcs[x])))
  {
    var c := s.connectors[k];
    if !c.connected then (Ok(()), s)
    else
      var free := FirstFreeCrtc(c.crtcs, s.crtcs);
      if free.None? then (Err(NoCrtcForConnector), s)
      else if c.mode.None? then (Err(NoModeForConnector), s)
      else if blob.None? then (Err(CreateModeBlob), s)
      else
        var crtc := free.value;
        (Ok(()), s.(connectors := s.connectors[k := c.(crtc := Some(crtc), crtcId := crtc)],
                    crtcs := s.crtcs[crtc := s.crtcs[crtc].(connector := Some(k), active := true, modeId := blob.value)]))
  }

  /**
   * Assigning a CRTC to a connector that has none keeps the links
   * consistent, so no CRTC ever drives two connectors.
   */
  lemma AssignCrtcKeepsLinks(s: DeviceState, k: nat, blob: Option<nat>)
    requires k in s.connectors && Refs(s) && Linked(s) && s.connectors[k].crtc.None?
    ensures Refs(AssignCrtc(s, k, blob).1) && Linked(AssignCrtc(s, k, blob).1)
  {
    var c := s.connectors[k];
    var free := FirstFreeCrtc(c.crtcs, s.crtcs);
    if c.connected && free.Some? && c.mode.Some? && blob.Some? {
      LinkKeepsInvariants(s, k, free.value, blob.value);
    }
  }

  /** Linking an unlinked connector to a CRTC that drives nothing. */
  lemma LinkKeepsInvariants(s: DeviceState, k: nat, crtc: nat, blob: nat)
    requires k in s.connectors && crtc in s.crtcs && s.crtcs[crtc].connector.None?
    requires Refs(s) && Linked(s) && s.connectors[k].crtc.None?
    ensures var c := s.connectors[k];
      var s' := s.(connectors := s.connectors[k := c.(crtc := Some(crtc), crtcId := crtc)],
                   crtcs := s.crtcs[crtc := s.crtcs[crtc].(connector := Some(k), active := true, modeId := blob)]);
      Refs(s') && Linked(s')
  {
    var c := s.connectors[k];
    var cs' := s.connectors[k := c.(crtc := Some(crtc), crtcId := crtc)];
    var rs' := s.crtcs[crtc := s.crtcs[crtc].(connector := Some(k), active := true, modeId := blob)];
    assert LinksAgree(cs', rs') by {
      forall j | j in cs' && cs'[j].crtc.Some?
        ensures cs'[j].crtc.value in rs' && rs'[cs'[j].crtc.value].connector == Some(j)
      {
        if j != k {
          assert cs'[j] == s.connectors[j];
          assert s.crtcs[s.connectors[j].crtc.value].connector == Some(j);
        }
      }
    }
    assert CrtcIdsAgree(cs');
    assert PrimariesOwned(cs', s.planes) by {
      forall j | j in cs' && cs'[j].primaryPlane.Some?
        ensures cs'[j].crtc.Some? && s.planes[cs'[j].primaryPlane.value].crtcId == cs'[j].crtc.value
      {
        assert j != k;
      }
    }
  }

  /** `reset_connectors_and_crtcs` on the state. */
  function ResetLinks(s: DeviceState): (r: DeviceState)
    ensures r.connectors.Keys == s.connectors.Keys && r.crtcs.Keys == s.crtcs.Keys && r.planes == s.planes
  {
    DeviceState(map k | k in s.connectors :: Unlinked(s.connectors[k]),
                map c | c in s.crtcs :: Deactivated(s.crtcs[c]),
                s.planes)
  }

  /** After the reset nothing is linked and nothing is shown, so the link invariant holds trivially. */
  lemma ResetIsLinked(s: DeviceState)
    requires Refs(s)
    ensures var r := ResetLinks(s);
      && Refs(r) && Linked(r)
      && (forall k :: k in r.connectors ==> r.connectors[k].crtc.None? && r.connectors[k].primaryPlane.None?)
      && (forall c :: c in r.crtcs ==> !r.crtcs[c].active && r.crtcs[c].connector.None?)
  {
    var r := ResetLinks(s);
    forall k | k in r.connectors
      ensures r.connectors[k] == Unlinked(s.connectors[k])
    {
    }
    forall c | c in r.crtcs
      ensures r.crtcs[c] == Deactivated(s.crtcs[c])
    {
    }
    assert LinksAgree(r.connectors, r.crtcs);
    assert Refs(r);
  }

  // ---------------------------------------------------------------------
  // Primary planes
  // ---------------------------------------------------------------------

  /** The geometry of a primary plane that shows a `width`×`height` mode at the origin. */
  function FullScreen(width: nat, height: nat): Geometry
  {
    Geometry(0, 0, FixedSize(width), FixedSize(height), 0, 0, width, height)
  }

  /** The facts `assign_connector_plane` unwraps: the connector's CRTC and primary plane exist. */
  ghost predicate PlaneReady(s: DeviceState, k: nat)
  {
    && k in s.connectors
    && (s.connectors[k].crtc.Some? ==> s.connectors[k].crtc.value in s.crtcs)
    && (s.connectors[k].primaryPlane.Some? ==> s.connectors[k].primaryPlane.value in s.planes)
    && (forall c :: c in s.crtcs ==> forall p :: p in s.crtcs[c].possiblePlanes ==> p in s.planes)
  }

  /**
   * `assign_connector_plane`: a connector with a CRTC and a mode keeps its
   * primary plane or takes the first possible plane of its CRTC that is a
   * free primary plane showing XRGB8888; it keeps its buffers or gets the
   * new pair `alloc`; the plane is attached to the CRTC covering the mode,
   * with `SRC_W`/`SRC_H` in 16.16 fixed point; the connector becomes
   * active. A connector without CRTC or mode is left alone, and a failure
   * changes nothing.
   */
  function AssignPlane(s: DeviceState, k: nat, alloc: Option<Buffers>): (res: (Result<(), VideoError>, DeviceState))
    requires PlaneReady(s, k)
    ensures var (r, s') := res;
      var c := s.connectors[k];
      && (c.crtc.None? || c.mode.None? ==> r.Ok? && s' == s)
      && (r.Err? ==> s' == s)
      && (c.crtc.Some? && c.mode.Some? && c.primaryPlane.None? ==>
            (r == Err(NoPrimaryPlaneForConnector) <==>
               forall p :: p in s.crtcs[c.crtc.value].possiblePlanes && p in s.planes ==> !PrimaryCandidate(s.planes[p])))
      && (c.crtc.Some? && c.mode.Some? && c.primaryPlane.Some? ==> r != Err(NoPrimaryPlaneForConnector))
      && (c.crtc.Some? && c.mode.Some? && r.Ok? ==>
            && s'.connectors.Keys == s.connectors.Keys && s'.planes.Keys == s.planes.Keys
            && s'.connectors[k].primaryPlane.Some? && s'.connectors[k].active && s'.connectors[k].buffers.Some?
            && s'.connectors[k].crtc == c.crtc && s'.connectors[k].mode == c.mode
            && var p := s'.connectors[k].primaryPlane.value;
               && p in s.planes
               && (c.primaryPlane.Some? ==> p == c.primaryPlane.value)
               && (c.primaryPlane.None? ==> p in s.crtcs[c.crtc.value].possiblePlanes && PrimaryCandidate(s.planes[p]))
               && s'.planes[p] == s.planes[p].(crtcId := c.crtc.value, geometry := FullScreen(c.mode.value.hdisplay, c.mode.value.vdisplay))
               && (c.mode.value.hdisplay < 0x1_0000 ==> s'.planes[p].geometry.srcW == c.mode.value.hdisplay * 0x1_0000))
  {
    var c := s.connectors[k];
    if c.crtc.None? || c.mode.None? then (Ok(()), s)
    else
      var crtc := c.crtc.value;
      var primary := if c.primaryPlane.Some? then c.primaryPlane
                     else FirstPrimaryCandidate(s.crtcs[crtc].possiblePlanes, s.planes);
      if primary.None? then (Err(NoPrimaryPlaneForConnector), s)
      else
        var buffers := if c.buffers.Some? then c.buffers else alloc;
        if buffers.None? then (Err(ScanoutBuffer), s)
        else
          var p := primary.value;
          var mode := c.mode.value;
          (Ok(()), s.(planes := s.planes[p := s.planes[p].(crtcId := crtc, geometry := FullScreen(mode.hdisplay, mode.vdisplay))],
                      connectors := s.connectors[k := c.(buffers := buffers, primaryPlane := Some(p), active := true)]))
  }


  /** Assigning a primary plane changes only that plane and the connector. */
  lemma AssignPlaneFrame(s: DeviceState, k: nat, alloc: Option<Buffers>)
    requires PlaneReady(s, k)
    ensures var (r, s') := AssignPlane(s, k, alloc);
      && s'.crtcs == s.crtcs && s'.connectors.Keys == s.connectors.Keys && s'.planes.Keys == s.planes.Keys
      && (forall j :: j in s.connectors && j != k ==> s'.connectors[j] == s.connectors[j])
      && s'.connectors[k] == s.connectors[k].(buffers := s'.connectors[k].buffers, primaryPlane := s'.connectors[k].primaryPlane,
                                              active := s'.connectors[k].active)
      && (forall q :: q in s.planes && (s'.connectors[k].primaryPlane.None? || q != s'.connectors[k].primaryPlane.value) ==>
            s'.planes[q] == s.planes[q])
  {
  }

  /**
   * Assigning a primary plane keeps the link invariant: a new plane is
   * attached to nothing, so it is no other connector's primary plane.
   */
  lemma AssignPlaneKeepsLinks(s: DeviceState, k: nat, alloc: Option<Buffers>)
    requires PlaneReady(s, k) && Refs(s) && Linked(s)
    ensures Refs(AssignPlane(s, k, alloc).1) && Linked(AssignPlane(s, k, alloc).1)
  {
    var (r, s') := AssignPlane(s, k, alloc);
    var c := s.connectors[k];
    if r.Ok? && c.crtc.Some? && c.mode.Some? {
      var p := s'.connectors[k].primaryPlane.value;
      forall j | j in s.connectors && j != k && s.connectors[j].primaryPlane.Some?
        ensures s.connectors[j].primaryPlane.value != p
      {
        if c.primaryPlane.Some? {
          PrimariesExclusive(s.connectors, s.crtcs, s.planes, j, k);
        } else {
          assert s.planes[s.connectors[j].primaryPlane.value].crtcId != NONE;
        }
      }
      AssignPlaneFrame(s, k, alloc);
      OwnedAfterAttach(s, s', k, p);
    }
  }

  /** Attaching the primary plane `p` of connector `k` to its CRTC keeps the invariant when `p` is no other connector's. */
  lemma OwnedAfterAttach(s: DeviceState, s': DeviceState, k: nat, p: nat)
    requires Refs(s) && Linked(s) && k in s.connectors && s.connectors[k].crtc.Some? && p in s.planes
    requires s.planes[p].ty == MT.Primary
    requires s'.crtcs == s.crtcs && s'.connectors.Keys == s.connectors.Keys && s'.planes.Keys == s.planes.Keys
    requires s'.connectors[k] == s.connectors[k].(buffers := s'.connectors[k].buffers, primaryPlane := Some(p), active := true)
    requires s'.planes[p] == s.planes[p].(crtcId := s.connectors[k].crtc.value, geometry := s'.planes[p].geometry)
    requires forall q :: q in s.planes && q != p ==> s'.planes[q] == s.planes[q]
    requires forall j :: j in s.connectors && j != k ==> s'.connectors[j] == s.connectors[j]
    requires forall j :: j in s.connectors && j != k && s.connectors[j].primaryPlane.Some? ==> s.connectors[j].primaryPlane.value != p
    ensures Refs(s') && Linked(s')
  {
    assert LinksAgree(s'.connectors, s'.crtcs) by {
      forall j | j in s'.connectors && s'.connectors[j].crtc.Some?
        ensures s'.connectors[j].crtc.value in s'.crtcs && s'.crtcs[s'.connectors[j].crtc.value].connector == Some(j)
      {
        assert s'.connectors[j].crtc == s.connectors[j].crtc;
      }
    }
    assert PrimariesOwned(s'.connectors, s'.planes) by {
      forall j | j in s'.connectors && s'.connectors[j].primaryPlane.Some?
        ensures var q := s'.connectors[j].primaryPlane.value;
          q in s'.planes && s'.planes[q].ty == MT.Primary && s'.connectors[j].crtc.Some? && s'.planes[q].crtcId == s'.connectors[j].crtc.value
      {
        if j != k {
          assert s'.connectors[j] == s.connectors[j];
        }
      }
    }
  }

  // ---------------------------------------------------------------------
  // Reusing the primary planes the kernel already shows
  // ---------------------------------------------------------------------

  /** The CRTCs some connector links to: the keys of `crtc_primary_planes`. */
  function LinkedCrtcs(connectors: map<nat, Connector>): (r: set<nat>)
    ensures forall k :: k in connectors && connectors[k].crtc.Some? ==> connectors[k].crtc.value in r
    ensures forall c :: c in r ==> exists k :: k in connectors && connectors[k].crtc == Some(c)
  {
    set k | k in connectors && connectors[k].crtc.Some? :: connectors[k].crtc.value
  }

  /** A primary plane that the kernel shows on CRTC `c`. */
  predicate ShownOn(planes: map<nat, Plane>, p: nat, c: nat)
  {
    p in planes && planes[p].ty == MT.Primary && planes[p].crtcId == c
  }

  /** The primary planes among `ids` shown on CRTC `c`, in the order of `ids`. */
  function PrimariesOn(ids: seq<nat>, planes: map<nat, Plane>, c: nat): (r: seq<nat>)
    ensures forall p :: p in r <==> p in ids && ShownOn(planes, p, c)
    ensures Distinct(ids) ==> Distinct(r)
    decreases |ids|
  {
    if ids == [] then []
    else
      var p := ids[|ids| - 1];
      var front := ids[..|ids| - 1];
      assert ids == front + [p];
      PrimariesOn(front, planes, c) + (if ShownOn(planes, p, c) then [p] else [])
  }

  /** `crtc_primary_planes` once the plane loop has run. */
  function PrimaryLists(s: DeviceState, planeIds: seq<nat>): map<nat, seq<nat>>
  {
    map c | c in LinkedCrtcs(s.connectors) :: PrimariesOn(planeIds, s.planes, c)
  }

  /** The plane list of one CRTC allows reuse: at most one plane, and that one can show XRGB8888. */
  predicate ReusableList(ps: seq<nat>, planes: map<nat, Plane>)
  {
    |ps| <= 1 && (|ps| == 1 ==> ps[0] in planes && XRGB8888 in planes[ps[0]].formats)
  }

  /** `reuse_possible` */
  predicate ReuseOk(lists: map<nat, seq<nat>>, planes: map<nat, Plane>)
  {
    forall c :: c in lists ==> ReusableList(lists[c], planes)
  }

  /** The primary plane `reuse_primary_planes` gives a connector, looked up by its `CRTC_ID` cell. */
  function ReusedPrimary(c: Connector, lists: map<nat, seq<nat>>, ok: bool): Option<nat>
  {
    if ok && c.crtcId in lists && |lists[c.crtcId]| > 0 then Some(lists[c.crtcId][0]) else None
  }

  /**
   * `reuse_primary_planes`: every connector becomes inactive and loses its
   * primary plane. If no CRTC a connector links to shows more than one
   * primary plane or one that cannot show XRGB8888, each connector whose
   * CRTC shows a primary plane takes that plane back, and the result is
   * the set of planes taken back; otherwise nothing is taken back.
   */
  function ReusePrimaries(s: DeviceState, planeIds: seq<nat>): (res: (set<nat>, DeviceState))
    ensures var (preserve, s') := res;
      && s'.connectors.Keys == s.connectors.Keys
      && (!ReuseOk(PrimaryLists(s, planeIds), s.planes) ==>
            preserve == {} && forall k :: k in s.connectors ==> s'.connectors[k].primaryPlane.None?)
      && (forall k :: k in s.connectors && s'.connectors[k].primaryPlane.Some? ==>
            var p := s'.connectors[k].primaryPlane.value;
            && ShownOn(s.planes, p, s.connectors[k].crtcId) && p in planeIds && XRGB8888 in s.planes[p].formats
            && s.connectors[k].crtcId in LinkedCrtcs(s.connectors))
  {
    var lists := PrimaryLists(s, planeIds);
    var cs := Reused(s.connectors, lists, ReuseOk(lists, s.planes));
    ReusedShown(s, planeIds);
    var preserve := set k | k in cs && cs[k].primaryPlane.Some? :: cs[k].primaryPlane.value;
    (preserve, s.(connectors := cs))
  }

  /** A plane taken back is a primary plane shown on the connector's CRTC that can show XRGB8888. */
  lemma ReusedShown(s: DeviceState, planeIds: seq<nat>)
    ensures var lists := PrimaryLists(s, planeIds);
      var cs := Reused(s.connectors, lists, ReuseOk(lists, s.planes));
      forall k :: k in s.connectors && cs[k].primaryPlane.Some? ==>
        var p := cs[k].primaryPlane.value;
        && ShownOn(s.planes, p, s.connectors[k].crtcId) && p in planeIds && XRGB8888 in s.planes[p].formats
        && s.connectors[k].crtcId in LinkedCrtcs(s.connectors)
  {
    var lists := PrimaryLists(s, planeIds);
    var ok := ReuseOk(lists, s.planes);
    var cs := Reused(s.connectors, lists, ok);
    forall k | k in s.connectors && cs[k].primaryPlane.Some?
      ensures var p := cs[k].primaryPlane.value;
        && ShownOn(s.planes, p, s.connectors[k].crtcId) && p in planeIds && XRGB8888 in s.planes[p].formats
        && s.connectors[k].crtcId in LinkedCrtcs(s.connectors)
    {
      var c := s.connectors[k].crtcId;
      assert cs[k].primaryPlane == ReusedPrimary(s.connectors[k], lists, ok);
      assert ok && c in lists && |lists[c]| > 0;
      assert ReusableList(lists[c], s.planes);
      assert lists[c] == PrimariesOn(planeIds, s.planes, c);
      assert lists[c][0] in lists[c];
    }
  }

  /** The connectors after reuse: all inactive, each with the plane `ReusedPrimary` gives it. */
  function Reused(connectors: map<nat, Connector>, lists: map<nat, seq<nat>>, ok: bool): (r: map<nat, Connector>)
    ensures r.Keys == connectors.Keys
    ensures forall k :: k in r ==> r[k] == connectors[k].(active := false, primaryPlane := ReusedPrimary(connectors[k], lists, ok))
  {
    map k | k in connectors :: connectors[k].(active := false, primaryPlane := ReusedPrimary(connectors[k], lists, ok))
  }

  /** The preserved planes are exactly the planes taken back. */
  lemma ReusePreserves(s: DeviceState, planeIds: seq<nat>)
    ensures var (preserve, s') := ReusePrimaries(s, planeIds);
      forall p :: p in preserve <==> exists k :: k in s.connectors && s'.connectors[k].primaryPlane == Some(p)
  {
  }

  /** Reuse touches only the connectors' `active` and primary plane. */
  lemma ReuseFrame(s: DeviceState, planeIds: seq<nat>)
    ensures var (preserve, s') := ReusePrimaries(s, planeIds);
      && s'.crtcs == s.crtcs && s'.planes == s.planes && s'.connectors.Keys == s.connectors.Keys
      && forall k :: k in s.connectors ==>
           && !s'.connectors[k].active
           && s'.connectors[k] == s.connectors[k].(active := false, primaryPlane := s'.connectors[k].primaryPlane)
  {
  }

  /** When reuse is possible, a connector takes a plane back exactly when its CRTC shows a primary plane. */
  lemma ReuseTakesBack(s: DeviceState, planeIds: seq<nat>, k: nat)
    requires ReuseOk(PrimaryLists(s, planeIds), s.planes)
    requires k in s.connectors && s.connectors[k].crtcId in LinkedCrtcs(s.connectors)
    ensures ReusePrimaries(s, planeIds).1.connectors[k].primaryPlane.Some? <==>
      exists p :: p in planeIds && ShownOn(s.planes, p, s.connectors[k].crtcId)
  {
    var lists := PrimaryLists(s, planeIds);
    var ps := lists[s.connectors[k].crtcId];
    if |ps| > 0 {
      assert ps[0] in ps;
    }
  }

  /**
   * Reused primary planes are owned: a connector's reused plane is shown
   * on the CRTC it is linked to, so with agreeing links no two connectors
   * share a reused plane.
   */
  lemma ReuseKeepsLinks(s: DeviceState, planeIds: seq<nat>)
    requires Refs(s) && LinksAgree(s.connectors, s.crtcs) && CrtcIdsAgree(s.connectors)
    ensures var (preserve, s') := ReusePrimaries(s, planeIds);
      && Refs(s') && Linked(s')
      && forall k :: k in s'.connectors && s'.connectors[k].primaryPlane.Some? ==> s'.connectors[k].primaryPlane.value in preserve
  {
    var (preserve, s') := ReusePrimaries(s, planeIds);
    ReuseFrame(s, planeIds);
    ReusePreserves(s, planeIds);
    forall k | k in s'.connectors && s'.connectors[k].primaryPlane.Some?
      ensures var p := s'.connectors[k].primaryPlane.value;
        s.connectors[k].crtc.Some? && s.planes[p].crtcId == s.connectors[k].crtc.value
    {
      var id := s.connectors[k].crtcId;
      assert id in LinkedCrtcs(s.connectors);
      var j :| j in s.connectors && s.connectors[j].crtc == Some(id);
      assert id in s.crtcs;
    }
    RelinkedPrimaries(s, s');
  }

  /**
   * Changing only the connectors' `active` flags and primary planes keeps
   * the references and links when each new primary plane is shown on the
   * connector's CRTC.
   */
  lemma RelinkedPrimaries(s: DeviceState, s': DeviceState)
    requires Refs(s) && LinksAgree(s.connectors, s.crtcs) && CrtcIdsAgree(s.connectors)
    requires s'.crtcs == s.crtcs && s'.planes == s.planes && s'.connectors.Keys == s.connectors.Keys
    requires forall k :: k in s.connectors ==>
      s'.connectors[k] == s.connectors[k].(active := s'.connectors[k].active, primaryPlane := s'.connectors[k].primaryPlane)
    requires forall k :: k in s'.connectors && s'.connectors[k].primaryPlane.Some? ==>
      var p := s'.connectors[k].primaryPlane.value;
      && p in s.planes && s.planes[p].ty == MT.Primary
      && s.connectors[k].crtc.Some? && s.planes[p].crtcId == s.connectors[k].crtc.value
    ensures Refs(s') && Linked(s')
  {
    assert LinksAgree(s'.connectors, s'.crtcs) by {
      forall c | c in s.crtcs && s.crtcs[c].connector.Some?
        ensures s'.connectors[s.crtcs[c].connector.value].crtc == Some(c)
      {
      }
    }
  }

  /** A linked CRTC that lets reuse through shows at most one primary plane, and that one can show XRGB8888. */
  lemma ReuseOkSound(s: DeviceState, planeIds: seq<nat>, c: nat, p: nat, q: nat)
    requires ReuseOk(PrimaryLists(s, planeIds), s.planes)
    requires c in LinkedCrtcs(s.connectors) && p in planeIds && q in planeIds && ShownOn(s.planes, p, c) && ShownOn(s.planes, q, c)
    ensures p == q && XRGB8888 in s.planes[p].formats
  {
    var ps := PrimaryLists(s, planeIds)[c];
    assert ps == PrimariesOn(planeIds, s.planes, c);
    assert ReusableList(ps, s.planes);
    assert p in ps && q in ps;
  }

  /** A linked CRTC that stops reuse shows two primary planes or one without XRGB8888. */
  lemma ReuseOkComplete(s: DeviceState, planeIds: seq<nat>)
    requires Distinct(planeIds) && !ReuseOk(PrimaryLists(s, planeIds), s.planes)
    ensures exists c, p, q ::
      && c in LinkedCrtcs(s.connectors) && p in planeIds && q in planeIds && ShownOn(s.planes, p, c) && ShownOn(s.planes, q, c)
      && !(p == q && XRGB8888 in s.planes[p].formats)
  {
    var lists := PrimaryLists(s, planeIds);
    var c :| c in lists && !ReusableList(lists[c], s.planes);
    var ps := lists[c];
    assert ps == PrimariesOn(planeIds, s.planes, c) && Distinct(ps);
    if |ps| > 1 {
      assert ps[0] != ps[1];
      assert ps[0] in ps && ps[1] in ps;
    } else {
      assert ps[0] in ps;
    }
  }

  /** With distinct plane ids, reuse is possible exactly when no linked CRTC shows two primary planes or one without XRGB8888. */
  lemma ReuseOkMeans(s: DeviceState, planeIds: seq<nat>)
    requires Distinct(planeIds)
    ensures ReuseOk(PrimaryLists(s, planeIds), s.planes) <==>
      forall c, p, q :: c in LinkedCrtcs(s.connectors) && p in planeIds && q in planeIds && ShownOn(s.planes, p, c) && ShownOn(s.planes, q, c) ==>
        p == q && XRGB8888 in s.planes[p].formats
  {
    if ReuseOk(PrimaryLists(s, planeIds), s.planes) {
      forall c, p, q | c in LinkedCrtcs(s.connectors) && p in planeIds && q in planeIds && ShownOn(s.planes, p, c) && ShownOn(s.planes, q, c)
        ensures p == q && XRGB8888 in s.planes[p].formats
      {
        ReuseOkSound(s, planeIds, c, p, q);
      }
    } else {
      ReuseOkComplete(s, planeIds);
    }
  }

  // ---------------------------------------------------------------------
  // Releasing the planes that are not reused
  // ---------------------------------------------------------------------

  /** `reset_planes`: every plane outside `preserve` is detached from its CRTC. */
  function ClearPlanes(planes: map<nat, Plane>, preserve: set<nat>): (r: map<nat, Plane>)
    ensures r.Keys == planes.Keys
    ensures forall p :: p in r ==> r[p] == planes[p].(crtcId := r[p].crtcId)
    ensures forall p :: p in r && p in preserve ==> r[p] == planes[p]
    ensures forall p :: p in r ==> (r[p].crtcId == NONE <==> p !in preserve || planes[p].crtcId == NONE)
  {
    map p | p in planes :: if p in preserve then planes[p] else planes[p].(crtcId := NONE)
  }

  /** Releasing the planes no connector uses keeps the link invariant. */
  lemma ClearKeepsLinks(s: DeviceState, preserve: set<nat>)
    requires Refs(s) && Linked(s)
    requires forall k :: k in s.connectors && s.connectors[k].primaryPlane.Some? ==> s.connectors[k].primaryPlane.value in preserve
    ensures Refs(s.(planes := ClearPlanes(s.planes, preserve))) && Linked(s.(planes := ClearPlanes(s.planes, preserve)))
  {
  }

  // ---------------------------------------------------------------------
  // The order in which connectors get their planes
  // ---------------------------------------------------------------------

  /** The connectors of `ids` with (`want`) or without a primary plane, in order. */
  function WithPrimary(ids: seq<nat>, connectors: map<nat, Connector>, want: bool): (r: seq<nat>)
    ensures forall k :: k in r <==> k in ids && (k in connectors && connectors[k].primaryPlane.Some?) == want
    decreases |ids|
  {
    if ids == [] then []
    else (if (ids[0] in connectors && connectors[ids[0]].primaryPlane.Some?) == want then [ids[0]] else [])
         + WithPrimary(ids[1..], connectors, want)
  }

  /** The stable `sort_by_key` that puts connectors with a primary plane first. */
  function PrimaryFirst(ids: seq<nat>, connectors: map<nat, Connector>): (r: seq<nat>)
    ensures forall k :: k in r ==> k in ids
  {
    WithPrimary(ids, connectors, true) + WithPrimary(ids, connectors, false)
  }

  /** Splitting by primary plane loses and duplicates no connector. */
  lemma {:induction false} SplitPermutes(ids: seq<nat>, connectors: map<nat, Connector>)
    ensures multiset(WithPrimary(ids, connectors, true)) + multiset(WithPrimary(ids, connectors, false)) == multiset(ids)
    decreases |ids|
  {
    if ids != [] {
      SplitPermutes(ids[1..], connectors);
      assert ids == [ids[0]] + ids[1..];
      assert multiset(ids) == multiset{ids[0]} + multiset(ids[1..]);
    }
  }

  /** The sorted order is a permutation of the connectors. */
  lemma PrimaryFirstPermutes(ids: seq<nat>, connectors: map<nat, Connector>)
    ensures multiset(PrimaryFirst(ids, connectors)) == multiset(ids)
  {
    SplitPermutes(ids, connectors);
  }

  /** In the sorted order every connector with a primary plane comes before every one without. */
  lemma PrimaryFirstSorted(ids: seq<nat>, connectors: map<nat, Connector>)
    ensures var r := PrimaryFirst(ids, connectors);
      forall i, j :: 0 <= i < j < |r| && r[j] in connectors && connectors[r[j]].primaryPlane.Some? ==>
        r[i] in connectors && connectors[r[i]].primaryPlane.Some?
  {
    var r := PrimaryFirst(ids, connectors);
    var a := WithPrimary(ids, connectors, true);
    var b := WithPrimary(ids, connectors, false);
    forall i, j | 0 <= i < j < |r| && r[j] in connectors && connectors[r[j]].primaryPlane.Some?
      ensures r[i] in connectors && connectors[r[i]].primaryPlane.Some?
    {
      if j < |a| {
        assert r[i] == a[i] && r[i] in a;
      }
    }
  }

  // ---------------------------------------------------------------------
  // Dropping the primary planes of inactive connectors
  // ---------------------------------------------------------------------

  /** The last loop of `init_drm_device`: an inactive connector loses its primary plane. */
  function DropInactive(connectors: map<nat, Connector>): (r: map<nat, Connector>)
    ensures r.Keys == connectors.Keys
    ensures forall k :: k in r ==> r[k] == connectors[k].(primaryPlane := r[k].primaryPlane)
    ensures forall k :: k in r ==> (r[k].primaryPlane.Some? <==> connectors[k].active && connectors[k].primaryPlane.Some?)
    ensures forall k :: k in r && r[k].primaryPlane.Some? ==> r[k].primaryPlane == connectors[k].primaryPlane
  {
    map k | k in connectors :: if connectors[k].active then connectors[k] else connectors[k].(primaryPlane := None)
  }

  /** Dropping primary planes keeps the link invariant. */
  lemma DropKeepsLinks(s: DeviceState)
    requires Refs(s) && Linked(s)
    ensures Refs(s.(connectors := DropInactive(s.connectors))) && Linked(s.(connectors := DropInactive(s.connectors)))
  {
    var cs := DropInactive(s.connectors);
    assert LinksAgree(cs, s.crtcs) by {
      forall c | c in s.crtcs && s.crtcs[c].connector.Some?
        ensures s.crtcs[c].connector.value in cs && cs[s.crtcs[c].connector.value].crtc == Some(c)
      {
        assert s.connectors[s.crtcs[c].connector.value].crtc == Some(c);
      }
    }
  }

  // ---------------------------------------------------------------------
  // Keeping the configuration the kernel already has
  // ---------------------------------------------------------------------

  /** What the connector loop of `can_use_current_drm_mode` has gathered so far. */
  datatype Scan = Scan(s: DeviceState, usedCrtcs: set<nat>, usedPlanes: set<nat>, picks: map<nat, nat>)

  /**
   * Connector `k` is usable as the kernel configured it: a disconnected
   * connector has no CRTC, a connected one has an active CRTC whose
   * current mode (`currentMode`, the kernel's mode blobs) equals its own.
   */
  ghost predicate Usable(s: DeviceState, k: nat, currentMode: nat -> Option<Drm.DrmModeInfo>)
    requires k in s.connectors
  {
    var c := s.connectors[k];
    if !c.connected then c.crtcId == NONE
    else
      && c.crtcId != NONE && c.crtcId in s.crtcs && s.crtcs[c.crtcId].active && c.mode.Some?
      && currentMode(s.crtcs[c.crtcId].modeId).Some?
      && MT.ModesEqual(c.mode.value, currentMode(s.crtcs[c.crtcId].modeId).value)
  }

  /** `b` differs from `a` only in the links between connectors and CRTCs. */
  ghost predicate SameConfig(a: DeviceState, b: DeviceState)
  {
    && a.planes == b.planes && a.connectors.Keys == b.connectors.Keys && a.crtcs.Keys == b.crtcs.Keys
    && (forall k :: k in a.connectors ==> b.connectors[k] == a.connectors[k].(crtc := b.connectors[k].crtc))
    && (forall c :: c in a.crtcs ==> b.crtcs[c] == a.crtcs[c].(connector := b.crtcs[c].connector))
  }

  /** `connector.crtc.set(..)` and `crtc.connector.set(..)`: connector `k` and CRTC `id` link to each other. */
  function Link(s: DeviceState, k: nat, id: nat): (r: DeviceState)
    requires k in s.connectors && id in s.crtcs
    ensures SameConfig(s, r)
    ensures Refs(s) ==> Refs(r)
    ensures r.connectors[k].crtc == Some(id) && r.crtcs[id].connector == Some(k)
    ensures forall j :: j in s.connectors && j != k ==> r.connectors[j] == s.connectors[j]
    ensures forall c :: c in s.crtcs && c != id ==> r.crtcs[c] == s.crtcs[c]
  {
    s.(connectors := s.connectors[k := s.connectors[k].(crtc := Some(id))],
       crtcs := s.crtcs[id := s.crtcs[id].(connector := Some(k))])
  }

  /**
   * One pass of the connector loop. A connected connector with a CRTC is
   * linked to it before anything else is checked, and the links stay when
   * a later check fails; nothing else about the device changes.
   */
  function ScanConnector(sc: Scan, k: nat, currentMode: nat -> Option<Drm.DrmModeInfo>): (res: (bool, Scan))
    requires k in sc.s.connectors && Refs(sc.s)
    ensures var c := sc.s.connectors[k];
      || res.1.s == sc.s
      || (c.connected && c.crtcId in sc.s.crtcs && res.1.s == Link(sc.s, k, c.crtcId))
  {
    var c := sc.s.connectors[k];
    if !c.connected then (c.crtcId == NONE, sc)
    else if c.crtcId == NONE then (false, sc)
    else
      var id := c.crtcId;
      var crtc := sc.s.crtcs[id];
      var sc1 := sc.(s := Link(sc.s, k, id), usedCrtcs := sc.usedCrtcs + {id});
      if !crtc.active || c.mode.None? then (false, sc1)
      else if currentMode(crtc.modeId).None? then (false, sc1)
      else if !MT.ModesEqual(c.mode.value, currentMode(crtc.modeId).value) then (false, sc1)
      else
        var pick := FirstUnusedPrimary(crtc.possiblePlanes, sc.s.planes, sc.usedPlanes);
        if pick.None? then (false, sc1)
        else (true, sc1.(usedPlanes := sc.usedPlanes + {pick.value}, picks := sc.picks[k := pick.value]))
  }

  /**
   * A pass succeeds exactly when the connector is usable and, if it is
   * connected, its CRTC has a primary plane no earlier connector took;
   * that plane becomes the connector's pick.
   */
  lemma ScanConnectorOk(sc: Scan, k: nat, currentMode: nat -> Option<Drm.DrmModeInfo>)
    requires k in sc.s.connectors && Refs(sc.s)
    ensures var (ok, sc') := ScanConnector(sc, k, currentMode);
      var c := sc.s.connectors[k];
      && (ok <==> (Usable(sc.s, k, currentMode) &&
                   (c.connected ==> FirstUnusedPrimary(sc.s.crtcs[c.crtcId].possiblePlanes, sc.s.planes, sc.usedPlanes).Some?)))
      && (ok && c.connected ==>
            var pick := FirstUnusedPrimary(sc.s.crtcs[c.crtcId].possiblePlanes, sc.s.planes, sc.usedPlanes).value;
            sc'.picks == sc.picks[k := pick] && sc'.usedPlanes == sc.usedPlanes + {pick})
      && (ok && !c.connected ==> sc' == sc)
  {
    var c := sc.s.connectors[k];
    if c.connected && c.crtcId != NONE {
      var crtc := sc.s.crtcs[c.crtcId];
      var pick := FirstUnusedPrimary(crtc.possiblePlanes, sc.s.planes, sc.usedPlanes);
      var (ok, sc') := ScanConnector(sc, k, currentMode);
      assert ok <==> (crtc.active && c.mode.Some? && currentMode(crtc.modeId).Some?
                      && MT.ModesEqual(c.mode.value, currentMode(crtc.modeId).value) && pick.Some?);
    }
  }

  /** The connector loop over `ids`, stopping at the first connector that is not usable. */
  function ScanFrom(sc: Scan, ids: seq<nat>, currentMode: nat -> Option<Drm.DrmModeInfo>): (res: (bool, Scan))
    requires Refs(sc.s) && forall k :: k in ids ==> k in sc.s.connectors
    ensures res.1.s.connectors.Keys == sc.s.connectors.Keys && Refs(res.1.s)
    decreases |ids|
  {
    if ids == [] then (true, sc)
    else
      var (ok, sc') := ScanConnector(sc, ids[0], currentMode);
      if !ok then (false, sc')
      else ScanFrom(sc', ids[1..], currentMode)
  }

  /** The picks are distinct planes, all of them used. */
  ghost predicate PicksDistinct(sc: Scan)
  {
    && (forall k :: k in sc.picks ==> sc.picks[k] in sc.usedPlanes)
    && (forall k1, k2 :: k1 in sc.picks && k2 in sc.picks && k1 != k2 ==> sc.picks[k1] != sc.picks[k2])
  }

  /** A pass of the connector loop changes only links. */
  lemma ScanConnectorConfig(sc: Scan, k: nat, currentMode: nat -> Option<Drm.DrmModeInfo>)
    requires k in sc.s.connectors && Refs(sc.s)
    ensures SameConfig(sc.s, ScanConnector(sc, k, currentMode).1.s)
    ensures Refs(ScanConnector(sc, k, currentMode).1.s)
  {
    var s' := ScanConnector(sc, k, currentMode).1.s;
    if s' == sc.s {
      SameConfigRefl(sc.s);
    }
  }

  lemma SameConfigRefl(a: DeviceState)
    ensures SameConfig(a, a)
  {
  }

  lemma SameConfigTrans(a: DeviceState, b: DeviceState, c: DeviceState)
    requires SameConfig(a, b) && SameConfig(b, c)
    ensures SameConfig(a, c)
  {
  }

  /** Usability depends on the configuration only, not on the links. */
  lemma UsableSameConfig(a: DeviceState, b: DeviceState, k: nat, currentMode: nat -> Option<Drm.DrmModeInfo>)
    requires SameConfig(a, b) && k in a.connectors
    ensures Usable(a, k, currentMode) == Usable(b, k, currentMode)
    ensures a.connectors[k].crtcId in a.crtcs ==>
      a.crtcs[a.connectors[k].crtcId].possiblePlanes == b.crtcs[b.connectors[k].crtcId].possiblePlanes
  {
    assert a.connectors[k].crtcId == b.connectors[k].crtcId;
  }

  /** The connector loop changes only links. */
  lemma {:induction false} ScanConfig(sc: Scan, ids: seq<nat>, currentMode: nat -> Option<Drm.DrmModeInfo>)
    requires Refs(sc.s) && forall k :: k in ids ==> k in sc.s.connectors
    ensures SameConfig(sc.s, ScanFrom(sc, ids, currentMode).1.s)
    decreases |ids|
  {
    if ids == [] {
      SameConfigRefl(sc.s);
    } else {
      var (ok1, sc1) := ScanConnector(sc, ids[0], currentMode);
      ScanConnectorConfig(sc, ids[0], currentMode);
      if ok1 {
        ScanConfig(sc1, ids[1..], currentMode);
        SameConfigTrans(sc.s, sc1.s, ScanFrom(sc1, ids[1..], currentMode).1.s);
      }
    }
  }

  /** The connector loop keeps earlier picks, and its picks stay distinct. */
  lemma {:induction false} ScanKeeps(sc: Scan, ids: seq<nat>, currentMode: nat -> Option<Drm.DrmModeInfo>)
    requires Refs(sc.s) && (forall k :: k in ids ==> k in sc.s.connectors) && Distinct(ids)
    requires PicksDistinct(sc) && forall k :: k in ids ==> k !in sc.picks
    ensures var sc' := ScanFrom(sc, ids, currentMode).1;
      && PicksDistinct(sc')
      && (forall k :: k in sc.picks ==> k in sc'.picks && sc'.picks[k] == sc.picks[k])
    decreases |ids|
  {
    if ids == [] {
      return;
    }
    var k := ids[0];
    var (ok1, sc1) := ScanConnector(sc, k, currentMode);
    ScanKeepsStep(sc, k, currentMode);
    if !ok1 {
      return;
    }
    forall j | j in ids[1..]
      ensures j in sc1.s.connectors && j !in sc1.picks
    {
      assert j in ids && j != k;
    }
    assert Distinct(ids[1..]);
    ScanKeeps(sc1, ids[1..], currentMode);
  }

  /** One successful pass keeps the picks distinct, keeps the earlier picks and adds at most a pick for `k`. */
  lemma ScanKeepsStep(sc: Scan, k: nat, currentMode: nat -> Option<Drm.DrmModeInfo>)
    requires Refs(sc.s) && k in sc.s.connectors && PicksDistinct(sc) && k !in sc.picks
    ensures var (ok, sc1) := ScanConnector(sc, k, currentMode);
      ok ==>
        && PicksDistinct(sc1) && sc1.s.connectors.Keys == sc.s.connectors.Keys
        && (forall j :: j in sc.picks ==> j in sc1.picks && sc1.picks[j] == sc.picks[j])
        && (forall j :: j in sc1.picks ==> j in sc.picks || j == k)
  {
    var (ok1, sc1) := ScanConnector(sc, k, currentMode);
    ScanConnectorOk(sc, k, currentMode);
    ScanConnectorConfig(sc, k, currentMode);
    var c := sc.s.connectors[k];
    if ok1 && c.connected {
      var pick := FirstUnusedPrimary(sc.s.crtcs[c.crtcId].possiblePlanes, sc.s.planes, sc.usedPlanes).value;
      PickKeepsDistinct(sc, k, pick, sc1);
    }
  }

  /** Picking a plane no connector has used keeps the picks distinct. */
  lemma PickKeepsDistinct(sc: Scan, k: nat, pick: nat, sc1: Scan)
    requires PicksDistinct(sc) && k !in sc.picks && pick !in sc.usedPlanes
    requires sc1.picks == sc.picks[k := pick] && sc1.usedPlanes == sc.usedPlanes + {pick}
    ensures PicksDistinct(sc1)
  {
  }

  /**
   * A successful connector loop leaves every connector usable and gives
   * each connected one a primary plane among the possible planes of its
   * CRTC; by `ScanKeeps` no two connectors get the same plane.
   */
  lemma {:induction false} ScanSound(sc: Scan, ids: seq<nat>, currentMode: nat -> Option<Drm.DrmModeInfo>)
    requires Refs(sc.s) && (forall k :: k in ids ==> k in sc.s.connectors) && Distinct(ids)
    requires PicksDistinct(sc) && forall k :: k in ids ==> k !in sc.picks
    ensures var (ok, sc') := ScanFrom(sc, ids, currentMode);
      ok ==> forall k :: k in ids ==> PickedFor(sc.s, sc', k, currentMode)
    decreases |ids|
  {
    if ids == [] {
      return;
    }
    var k := ids[0];
    var (ok1, sc1) := ScanConnector(sc, k, currentMode);
    ScanConnectorConfig(sc, k, currentMode);
    ScanConnectorOk(sc, k, currentMode);
    if !ok1 {
      return;
    }
    var c := sc.s.connectors[k];
    if c.connected {
      var pick := FirstUnusedPrimary(sc.s.crtcs[c.crtcId].possiblePlanes, sc.s.planes, sc.usedPlanes).value;
      PickKeepsDistinct(sc, k, pick, sc1);
    }
    forall j | j in ids[1..]
      ensures j in sc1.s.connectors && j !in sc1.picks
    {
      assert j in ids && j != k;
    }
    assert Distinct(ids[1..]);
    ScanSound(sc1, ids[1..], currentMode);
    ScanKeeps(sc1, ids[1..], currentMode);
    var (ok', sc') := ScanFrom(sc1, ids[1..], currentMode);
    if ok' {
      forall j | j in ids
        ensures PickedFor(sc.s, sc', j, currentMode)
      {
        if j == k {
          assert c.connected ==> k in sc1.picks;
        } else {
          assert j in ids[1..];
          assert PickedFor(sc1.s, sc', j, currentMode);
          UsableSameConfig(sc.s, sc1.s, j, currentMode);
        }
      }
    }
  }

  /** Connector `k` is usable in `s` and, if connected, the scan `sc` picked it a primary plane of its CRTC. */
  ghost predicate PickedFor(s: DeviceState, sc: Scan, k: nat, currentMode: nat -> Option<Drm.DrmModeInfo>)
    requires k in s.connectors
  {
    && Usable(s, k, currentMode)
    && (s.connectors[k].connected ==>
          && k in sc.picks && sc.picks[k] in s.crtcs[s.connectors[k].crtcId].possiblePlanes
          && sc.picks[k] in s.planes && s.planes[sc.picks[k]].ty == MT.Primary)
  }

  /** The CRTCs that the connected connectors of `ids` name. */
  function ConnectedCrtcs(s: DeviceState, ids: seq<nat>): (r: set<nat>)
    ensures forall c :: c in r <==> exists k :: k in ids && k in s.connectors && s.connectors[k].connected && s.connectors[k].crtcId == c
  {
    set k | k in ids && k in s.connectors && s.connectors[k].connected :: s.connectors[k].crtcId
  }

  /** The CRTCs named by connected connectors depend on the configuration only, and split at the first connector. */
  lemma ConnectedCrtcsStep(a: DeviceState, b: DeviceState, ids: seq<nat>)
    requires SameConfig(a, b) && ids != [] && ids[0] in a.connectors
    ensures ConnectedCrtcs(a, ids) ==
      (if a.connectors[ids[0]].connected then {a.connectors[ids[0]].crtcId} else {}) + ConnectedCrtcs(b, ids[1..])
  {
    forall k | k in b.connectors
      ensures b.connectors[k].connected == a.connectors[k].connected && b.connectors[k].crtcId == a.connectors[k].crtcId
    {
      assert b.connectors[k] == a.connectors[k].(crtc := b.connectors[k].crtc);
    }
    assert forall k :: k in ids <==> k == ids[0] || k in ids[1..];
  }

  /** A successful pass adds the CRTC of a connected connector to the used ones. */
  lemma ScanConnectorCrtcs(sc: Scan, k: nat, currentMode: nat -> Option<Drm.DrmModeInfo>)
    requires k in sc.s.connectors && Refs(sc.s)
    ensures var (ok, sc') := ScanConnector(sc, k, currentMode);
      ok ==> sc'.usedCrtcs == sc.usedCrtcs + (if sc.s.connectors[k].connected then {sc.s.connectors[k].crtcId} else {})
  {
  }

  /** A successful connector loop uses exactly the CRTCs of the connected connectors. */
  lemma {:induction false} ScanCrtcs(sc: Scan, ids: seq<nat>, currentMode: nat -> Option<Drm.DrmModeInfo>)
    requires Refs(sc.s) && forall k :: k in ids ==> k in sc.s.connectors
    ensures var (ok, sc') := ScanFrom(sc, ids, currentMode);
      ok ==> sc'.usedCrtcs == sc.usedCrtcs + ConnectedCrtcs(sc.s, ids)
    decreases |ids|
  {
    if ids == [] {
      return;
    }
    var k := ids[0];
    var (ok1, sc1) := ScanConnector(sc, k, currentMode);
    if !ok1 {
      return;
    }
    ScanFromStep(sc, ids, currentMode);
    ScanConnectorConfig(sc, k, currentMode);
    ScanConnectorCrtcs(sc, k, currentMode);
    ConnectedCrtcsStep(sc.s, sc1.s, ids);
    assert forall j :: j in ids[1..] ==> j in ids;
    ScanCrtcs(sc1, ids[1..], currentMode);
  }

  /** The CRTC loop of `can_use_current_drm_mode`: every CRTC no connector uses is switched off. */
  function SwitchOffUnused(crtcs: map<nat, Crtc>, used: set<nat>): (r: map<nat, Crtc>)
    ensures r.Keys == crtcs.Keys
    ensures forall c :: c in r ==> r[c] == crtcs[c].(active := r[c].active)
    ensures forall c :: c in r ==> (r[c].active <==> crtcs[c].active && c in used)
  {
    map c | c in crtcs :: if c in used then crtcs[c] else crtcs[c].(active := false)
  }

  /** The CRTC loop of `can_use_current_drm_mode` over `ids`: the CRTCs, and whether it switched one off. */
  function SwitchOffOver(crtcs: map<nat, Crtc>, ids: seq<nat>, used: set<nat>): (map<nat, Crtc>, bool)
    decreases |ids|
  {
    if ids == [] then (crtcs, false)
    else
      var (m, any) := SwitchOffOver(crtcs, ids[..|ids| - 1], used);
      var c := ids[|ids| - 1];
      if c !in used && c in m then (m[c := m[c].(active := false)], any || m[c].active) else (m, any)
  }

  lemma {:induction false} SwitchOffOverMap(crtcs: map<nat, Crtc>, ids: seq<nat>, used: set<nat>)
    ensures var m := SwitchOffOver(crtcs, ids, used).0;
      && m.Keys == crtcs.Keys
      && (forall c :: c in m ==> m[c] == if c in ids && c !in used then crtcs[c].(active := false) else crtcs[c])
    decreases |ids|
  {
    if ids != [] {
      var front := ids[..|ids| - 1];
      assert ids == front + [ids[|ids| - 1]];
      SwitchOffOverMap(crtcs, front, used);
    }
  }

  lemma {:induction false} SwitchOffOverAny(crtcs: map<nat, Crtc>, ids: seq<nat>, used: set<nat>)
    requires Distinct(ids)
    ensures SwitchOffOver(crtcs, ids, used).1 <==> exists c :: c in ids && c in crtcs && c !in used && crtcs[c].active
    decreases |ids|
  {
    if ids != [] {
      var front := ids[..|ids| - 1];
      var c := ids[|ids| - 1];
      assert ids == front + [c];
      assert Distinct(front);
      assert c !in front;
      SwitchOffOverAny(crtcs, front, used);
      SwitchOffOverMap(crtcs, front, used);
      var m := SwitchOffOver(crtcs, front, used).0;
      assert c in m ==> m[c] == crtcs[c];
      forall x
        ensures x in ids <==> x in front || x == c
      {
      }
    }
  }

  /** Over all CRTCs the loop gives `SwitchOffUnused` and `SwitchOffFlags`. */
  lemma SwitchOffAll(crtcs: map<nat, Crtc>, ids: seq<nat>, used: set<nat>)
    requires (forall c :: c in crtcs <==> c in ids) && Distinct(ids)
    ensures SwitchOffOver(crtcs, ids, used).0 == SwitchOffUnused(crtcs, used)
    ensures SwitchOffOver(crtcs, ids, used).1 <==> SwitchOffFlags(crtcs, used) == MT.ALLOW_MODESET
  {
    SwitchOffOverMap(crtcs, ids, used);
    SwitchOffOverAny(crtcs, ids, used);
  }

  /** `reset_planes` over the planes `ids`. */
  function ClearOver(planes: map<nat, Plane>, ids: seq<nat>, preserve: set<nat>): map<nat, Plane>
    decreases |ids|
  {
    if ids == [] then planes
    else
      var m := ClearOver(planes, ids[..|ids| - 1], preserve);
      var p := ids[|ids| - 1];
      if p !in preserve && p in m then m[p := m[p].(crtcId := NONE)] else m
  }

  lemma {:induction false} ClearOverMeans(planes: map<nat, Plane>, ids: seq<nat>, preserve: set<nat>)
    ensures var m := ClearOver(planes, ids, preserve);
      && m.Keys == planes.Keys
      && forall p :: p in m ==> m[p] == if p in ids && p !in preserve then planes[p].(crtcId := NONE) else planes[p]
    decreases |ids|
  {
    if ids != [] {
      var front := ids[..|ids| - 1];
      assert ids == front + [ids[|ids| - 1]];
      ClearOverMeans(planes, front, preserve);
    }
  }

  lemma ClearOverAll(planes: map<nat, Plane>, ids: seq<nat>, preserve: set<nat>)
    requires forall p :: p in planes <==> p in ids
    ensures ClearOver(planes, ids, preserve) == ClearPlanes(planes, preserve)
  {
    ClearOverMeans(planes, ids, preserve);
  }

  /** The last connector loop of `init_drm_device` over the connectors `ids`. */
  function DropOver(cs: map<nat, Connector>, ids: seq<nat>): map<nat, Connector>
    decreases |ids|
  {
    if ids == [] then cs
    else
      var m := DropOver(cs, ids[..|ids| - 1]);
      var k := ids[|ids| - 1];
      if k in m && !m[k].active then m[k := m[k].(primaryPlane := None)] else m
  }

  lemma {:induction false} DropOverMeans(cs: map<nat, Connector>, ids: seq<nat>)
    ensures var m := DropOver(cs, ids);
      && m.Keys == cs.Keys
      && forall k :: k in m ==> m[k] == if k in ids && !cs[k].active then cs[k].(primaryPlane := None) else cs[k]
    decreases |ids|
  {
    if ids != [] {
      var front := ids[..|ids| - 1];
      assert ids == front + [ids[|ids| - 1]];
      DropOverMeans(cs, front);
    }
  }

  lemma DropOverAll(cs: map<nat, Connector>, ids: seq<nat>)
    requires forall k :: k in cs <==> k in ids
    ensures DropOver(cs, ids) == DropInactive(cs)
  {
    DropOverMeans(cs, ids);
  }

  /** The commit flags of the CRTC loop: `ALLOW_MODESET` exactly when it switched a CRTC off. */
  function SwitchOffFlags(crtcs: map<nat, Crtc>, used: set<nat>): (r: nat)
    ensures r == MT.ALLOW_MODESET <==> exists c :: c in crtcs && c !in used && crtcs[c].active
    ensures r == 0 || r == MT.ALLOW_MODESET
  {
    if exists c :: c in crtcs && c !in used && crtcs[c].active then MT.ALLOW_MODESET else 0
  }

  /**
   * `can_use_current_drm_mode`, with the kernel's mode blobs `currentMode`
   * and its answer `probe` to the commit that switches the unused CRTCs
   * off: the result and the device state afterwards.
   */
  function CanUse(s: DeviceState, ids: seq<nat>, currentMode: nat -> Option<Drm.DrmModeInfo>, probe: nat -> bool): (res: (bool, DeviceState))
    requires Refs(s) && forall k :: k in ids ==> k in s.connectors
    ensures Refs(res.1) && res.1.connectors.Keys == s.connectors.Keys && res.1.crtcs.Keys == s.crtcs.Keys && res.1.planes == s.planes
  {
    ScanConfig(Scan(s, {}, {}, map[]), ids, currentMode);
    var (ok, sc) := ScanFrom(Scan(s, {}, {}, map[]), ids, currentMode);
    if !ok then (false, sc.s)
    else (probe(SwitchOffFlags(sc.s.crtcs, sc.usedCrtcs)), sc.s.(crtcs := SwitchOffUnused(sc.s.crtcs, sc.usedCrtcs)))
  }

  /** One step of the connector loop. */
  lemma ScanFromStep(sc: Scan, ids: seq<nat>, currentMode: nat -> Option<Drm.DrmModeInfo>)
    requires ids != [] && Refs(sc.s) && forall k :: k in ids ==> k in sc.s.connectors
    ensures var (ok, sc') := ScanConnector(sc, ids[0], currentMode);
      ScanFrom(sc, ids, currentMode) == if ok then ScanFrom(sc', ids[1..], currentMode) else (false, sc')
  {
  }

  /** One step of the connector loop from position `i` of `ids` towards its outcome `target`. */
  lemma ScanAdvance(before: Scan, after: Scan, step: bool, ids: seq<nat>, i: nat,
                    currentMode: nat -> Option<Drm.DrmModeInfo>, target: (bool, Scan))
    requires i < |ids| && Refs(before.s) && forall k :: k in ids ==> k in before.s.connectors
    requires ScanFrom(before, ids[i..], currentMode) == target
    requires ScanConnector(before, ids[i], currentMode) == (step, after)
    ensures step ==> ScanFrom(after, ids[i + 1..], currentMode) == target
    ensures !step ==> target == (false, after)
    ensures Refs(after.s) && after.s.connectors.Keys == before.s.connectors.Keys && after.s.crtcs.Keys == before.s.crtcs.Keys
  {
    ScanConnectorConfig(before, ids[i], currentMode);
    assert ids[i..][0] == ids[i] && ids[i..][1..] == ids[i + 1..];
    ScanFromStep(before, ids[i..], currentMode);
  }

  /** A connector loop that stops early leaves the state it reached. */
  lemma CanUseFails(s: DeviceState, ids: seq<nat>, currentMode: nat -> Option<Drm.DrmModeInfo>, probe: nat -> bool, sc: Scan)
    requires Refs(s) && (forall k :: k in ids ==> k in s.connectors)
    requires ScanFrom(Scan(s, {}, {}, map[]), ids, currentMode) == (false, sc)
    ensures CanUse(s, ids, currentMode, probe) == (false, sc.s)
  {
  }

  /** A connector loop that runs through is followed by the CRTC loop and the test commit. */
  lemma CanUsePasses(s: DeviceState, ids: seq<nat>, currentMode: nat -> Option<Drm.DrmModeInfo>, probe: nat -> bool, sc: Scan)
    requires Refs(s) && (forall k :: k in ids ==> k in s.connectors)
    requires ScanFrom(Scan(s, {}, {}, map[]), ids, currentMode) == (true, sc)
    ensures CanUse(s, ids, currentMode, probe) ==
      (probe(SwitchOffFlags(sc.s.crtcs, sc.usedCrtcs)), sc.s.(crtcs := SwitchOffUnused(sc.s.crtcs, sc.usedCrtcs)))
  {
  }

  /**
   * The current configuration is kept only if every connector is usable,
   * each connected connector has its own primary plane among the possible
   * planes of its CRTC, and afterwards only CRTCs of connected connectors
   * are active.
   */
  lemma CanUseSound(s: DeviceState, ids: seq<nat>, currentMode: nat -> Option<Drm.DrmModeInfo>, probe: nat -> bool)
    requires Refs(s) && (forall k :: k in ids ==> k in s.connectors) && Distinct(ids)
    ensures var (ok, s') := CanUse(s, ids, currentMode, probe);
      var sc := ScanFrom(Scan(s, {}, {}, map[]), ids, currentMode).1;
      ok ==>
        && (forall k :: k in ids ==> PickedFor(s, sc, k, currentMode))
        && PicksDistinct(sc)
        && (forall c :: c in s'.crtcs && s'.crtcs[c].active ==> c in ConnectedCrtcs(s, ids))
  {
    var sc0 := Scan(s, {}, {}, map[]);
    ScanSound(sc0, ids, currentMode);
    ScanKeeps(sc0, ids, currentMode);
    ScanCrtcs(sc0, ids, currentMode);
  }

  // ---------------------------------------------------------------------
  // Links made by keeping the configuration
  // ---------------------------------------------------------------------

  /** A freshly created device: nothing linked, no primary plane chosen. */
  ghost predicate Pristine(s: DeviceState)
  {
    && (forall k :: k in s.connectors ==> s.connectors[k].crtc.None? && s.connectors[k].primaryPlane.None?)
    && (forall c :: c in s.crtcs ==> s.crtcs[c].connector.None?)
  }

  /** No two connectors name the same CRTC in their `CRTC_ID` cells. */
  ghost predicate DistinctCrtcIds(s: DeviceState)
  {
    forall k1, k2 :: k1 in s.connectors && k2 in s.connectors && k1 != k2 && s.connectors[k1].crtcId != NONE ==>
      s.connectors[k1].crtcId != s.connectors[k2].crtcId
  }

  /** The links while the connector loop runs, with the connectors of `rest` still to come. */
  ghost predicate ScanLinked(t: DeviceState, rest: seq<nat>)
  {
    && LinksAgree(t.connectors, t.crtcs) && DistinctCrtcIds(t)
    && (forall k :: k in t.connectors && k !in rest ==>
          (t.connectors[k].crtc.Some? <==> t.connectors[k].crtcId != NONE)
          && (t.connectors[k].crtc.Some? ==> t.connectors[k].crtc.value == t.connectors[k].crtcId))
    && (forall k :: k in rest && k in t.connectors ==>
          && t.connectors[k].crtc.None?
          && (t.connectors[k].crtcId in t.crtcs ==> t.crtcs[t.connectors[k].crtcId].connector.None?))
  }

  /** Linking a connector and a CRTC that are both unlinked keeps the links agreeing. */
  lemma LinkAgrees(t: DeviceState, k: nat, id: nat)
    requires k in t.connectors && id in t.crtcs && LinksAgree(t.connectors, t.crtcs)
    requires t.connectors[k].crtc.None? && t.crtcs[id].connector.None?
    ensures LinksAgree(Link(t, k, id).connectors, Link(t, k, id).crtcs)
  {
    var t' := Link(t, k, id);
    forall j | j in t'.connectors && t'.connectors[j].crtc.Some?
      ensures t'.connectors[j].crtc.value in t'.crtcs && t'.crtcs[t'.connectors[j].crtc.value].connector == Some(j)
    {
      if j != k {
        assert t.crtcs[t.connectors[j].crtc.value].connector == Some(j);
      }
    }
    forall x | x in t'.crtcs && t'.crtcs[x].connector.Some?
      ensures t'.crtcs[x].connector.value in t'.connectors && t'.connectors[t'.crtcs[x].connector.value].crtc == Some(x)
    {
      if x != id {
        assert t.crtcs[x].connector.value != k;
      }
    }
  }

  /** One successful pass keeps the links of the loop consistent. */
  lemma ScanLinkStep(sc: Scan, rest: seq<nat>, currentMode: nat -> Option<Drm.DrmModeInfo>)
    requires rest != [] && rest[0] in sc.s.connectors && Refs(sc.s) && Distinct(rest)
    requires ScanLinked(sc.s, rest)
    requires ScanConnector(sc, rest[0], currentMode).0
    ensures ScanLinked(ScanConnector(sc, rest[0], currentMode).1.s, rest[1..])
  {
    var k := rest[0];
    ScanConnectorOk(sc, k, currentMode);
    assert k !in rest[1..];
    if sc.s.connectors[k].connected {
      LinkedStep(sc.s, rest, k, sc.s.connectors[k].crtcId);
    } else {
      forall j | j in rest[1..] && j in sc.s.connectors
        ensures sc.s.connectors[j].crtc.None?
      {
        assert j in rest;
      }
    }
  }

  /** Linking the next connector of the loop to the CRTC it names. */
  lemma LinkedStep(t: DeviceState, rest: seq<nat>, k: nat, id: nat)
    requires rest != [] && k == rest[0] && k in t.connectors && id in t.crtcs && Distinct(rest)
    requires ScanLinked(t, rest) && t.connectors[k].crtcId == id && id != NONE
    ensures ScanLinked(Link(t, k, id), rest[1..])
  {
    var t' := Link(t, k, id);
    LinkAgrees(t, k, id);
    assert k !in rest[1..];
    assert DistinctCrtcIds(t');
    forall j | j in rest[1..] && j in t'.connectors
      ensures t'.connectors[j].crtc.None?
      ensures t'.connectors[j].crtcId in t'.crtcs ==> t'.crtcs[t'.connectors[j].crtcId].connector.None?
    {
      assert j in rest && j != k;
      assert t'.connectors[j] == t.connectors[j];
    }
  }

  /** A successful connector loop over a fresh device leaves its links consistent. */
  lemma {:induction false} ScanLinks(sc: Scan, rest: seq<nat>, currentMode: nat -> Option<Drm.DrmModeInfo>)
    requires Refs(sc.s) && (forall k :: k in rest ==> k in sc.s.connectors) && Distinct(rest)
    requires ScanLinked(sc.s, rest)
    ensures ScanFrom(sc, rest, currentMode).0 ==> ScanLinked(ScanFrom(sc, rest, currentMode).1.s, [])
    decreases |rest|
  {
    if rest != [] {
      var (ok1, sc1) := ScanConnector(sc, rest[0], currentMode);
      if ok1 {
        ScanLinkStep(sc, rest, currentMode);
        assert Distinct(rest[1..]);
        ScanLinks(sc1, rest[1..], currentMode);
      }
    }
  }

  /**
   * Keeping the configuration of a fresh device in which no two connectors
   * name the same CRTC leaves the links consistent.
   */
  lemma CanUseLinks(s: DeviceState, ids: seq<nat>, currentMode: nat -> Option<Drm.DrmModeInfo>, probe: nat -> bool)
    requires Refs(s) && (forall k :: k in s.connectors <==> k in ids) && Distinct(ids)
    requires Pristine(s) && DistinctCrtcIds(s)
    ensures var (ok, s') := CanUse(s, ids, currentMode, probe);
      ok ==>
        && Refs(s') && LinksAgree(s'.connectors, s'.crtcs) && CrtcIdsAgree(s'.connectors)
        && (forall k :: k in s'.connectors ==> s'.connectors[k].primaryPlane.None?)
  {
    var sc0 := Scan(s, {}, {}, map[]);
    assert ScanLinked(s, ids);
    ScanLinks(sc0, ids, currentMode);
    ScanConfig(sc0, ids, currentMode);
  }

  // ---------------------------------------------------------------------
  // Helpers for the loops of `reuse_primary_planes`
  // ---------------------------------------------------------------------

  /** The CRTCs the connectors of `ids` link to. */
  function CrtcsOf(connectors: map<nat, Connector>, ids: seq<nat>): set<nat>
    decreases |ids|
  {
    if ids == [] then {}
    else
      var j := ids[|ids| - 1];
      CrtcsOf(connectors, ids[..|ids| - 1]) + (if j in connectors && connectors[j].crtc.Some? then {connectors[j].crtc.value} else {})
  }

  lemma {:induction false} CrtcsOfMembers(connectors: map<nat, Connector>, ids: seq<nat>)
    ensures forall c :: c in CrtcsOf(connectors, ids) <==> exists j :: j in ids && j in connectors && connectors[j].crtc == Some(c)
    decreases |ids|
  {
    if ids != [] {
      var j := ids[|ids| - 1];
      assert ids == ids[..|ids| - 1] + [j];
      CrtcsOfMembers(connectors, ids[..|ids| - 1]);
    }
  }

  lemma CrtcsOfAll(connectors: map<nat, Connector>, ids: seq<nat>)
    requires forall k :: k in connectors <==> k in ids
    ensures CrtcsOf(connectors, ids) == LinkedCrtcs(connectors)
  {
    CrtcsOfMembers(connectors, ids);
  }

  /** One step of the plane loop of `reuse_primary_planes` extends the list of the CRTC that shows the plane. */
  ghost predicate Collected(r: map<nat, seq<nat>>, ids: seq<nat>, planes: map<nat, Plane>)
  {
    forall c :: c in r ==> r[c] == PrimariesOn(ids, planes, c)
  }

  lemma CollectStep(r: map<nat, seq<nat>>, r': map<nat, seq<nat>>, ids: seq<nat>, i: nat, planes: map<nat, Plane>)
    requires i < |ids|
    requires Collected(r, ids[..i], planes)
    requires var p := ids[i];
      r' == if p in planes && planes[p].ty == MT.Primary && planes[p].crtcId in r then r[planes[p].crtcId := r[planes[p].crtcId] + [p]] else r
    ensures r'.Keys == r.Keys
    ensures Collected(r', ids[..i + 1], planes)
  {
    var p := ids[i];
    assert ids[..i + 1][..i] == ids[..i];
    forall c | c in r'
      ensures r'[c] == PrimariesOn(ids[..i + 1], planes, c)
    {
      assert PrimariesOn(ids[..i + 1], planes, c) == PrimariesOn(ids[..i], planes, c) + (if ShownOn(planes, p, c) then [p] else []);
    }
  }

  lemma ListsAre(s: DeviceState, planeIds: seq<nat>, lists: map<nat, seq<nat>>)
    requires lists.Keys == LinkedCrtcs(s.connectors)
    requires forall c :: c in lists ==> lists[c] == PrimariesOn(planeIds, s.planes, c)
    ensures lists == PrimaryLists(s, planeIds)
  {
  }

  lemma ConnectorsAre(cs: map<nat, Connector>, lists: map<nat, seq<nat>>, ok: bool, cs': map<nat, Connector>)
    requires cs'.Keys == cs.Keys
    requires forall k :: k in cs' ==> cs'[k] == cs[k].(active := false, primaryPlane := ReusedPrimary(cs[k], lists, ok))
    ensures cs' == Reused(cs, lists, ok)
  {
  }

  lemma TakeBackIsReused(cs: map<nat, Connector>, mid: map<nat, Connector>, cs': map<nat, Connector>, lists: map<nat, seq<nat>>)
    requires mid.Keys == cs.Keys && cs'.Keys == cs.Keys
    requires forall k :: k in mid ==> mid[k] == cs[k].(active := false, primaryPlane := None)
    requires forall k :: k in cs' ==> cs'[k] == mid[k].(primaryPlane := ReusedPrimary(mid[k], lists, true))
    ensures cs' == Reused(cs, lists, true)
  {
    forall k | k in cs'
      ensures cs'[k] == cs[k].(active := false, primaryPlane := ReusedPrimary(cs[k], lists, true))
    {
      assert mid[k].crtcId == cs[k].crtcId;
    }
    ConnectorsAre(cs, lists, true, cs');
  }

  lemma ReuseAssembled(s: DeviceState, planeIds: seq<nat>, lists: map<nat, seq<nat>>, ok: bool,
                       cs': map<nat, Connector>, preserve: set<nat>)
    requires lists == PrimaryLists(s, planeIds) && ok == ReuseOk(lists, s.planes)
    requires cs' == Reused(s.connectors, lists, ok)
    requires ok ==> preserve == set k | k in cs' && cs'[k].primaryPlane.Some? :: cs'[k].primaryPlane.value
    requires !ok ==> preserve == {}
    ensures (preserve, s.(connectors := cs')) == ReusePrimaries(s, planeIds)
  {
    if !ok {
      assert forall k :: k in cs' ==> cs'[k].primaryPlane.None?;
    }
  }

  /** The last loop of `reuse_primary_planes` over the connectors `ids`: the connectors and the planes taken back. */
  function TakeBackOver(cs: map<nat, Connector>, ids: seq<nat>, lists: map<nat, seq<nat>>): (map<nat, Connector>, set<nat>)
    decreases |ids|
  {
    if ids == [] then (cs, {})
    else
      var (m, preserve) := TakeBackOver(cs, ids[..|ids| - 1], lists);
      var k := ids[|ids| - 1];
      if k in m && ReusedPrimary(m[k], lists, true).Some? then
        var r := ReusedPrimary(m[k], lists, true);
        (m[k := m[k].(primaryPlane := r)], preserve + {r.value})
      else (m, preserve)
  }

  /**
   * The loop gives each connector of `ids` the plane shown on its
   * `CRTC_ID` and collects exactly those planes.
   */
  lemma {:induction false} TakeBackMeans(cs: map<nat, Connector>, ids: seq<nat>, lists: map<nat, seq<nat>>)
    requires forall k :: k in cs ==> cs[k].primaryPlane.None?
    ensures var (m, preserve) := TakeBackOver(cs, ids, lists);
      && m.Keys == cs.Keys
      && (forall k :: k in m ==> m[k] == if k in ids then cs[k].(primaryPlane := ReusedPrimary(cs[k], lists, true)) else cs[k])
      && (forall p :: p in preserve <==> exists j :: j in ids && j in cs && ReusedPrimary(cs[j], lists, true) == Some(p))
    decreases |ids|
  {
    if ids != [] {
      var front := ids[..|ids| - 1];
      var k := ids[|ids| - 1];
      assert ids == front + [k];
      TakeBackMeans(cs, front, lists);
      var (m, preserve) := TakeBackOver(cs, front, lists);
      if k in m {
        assert m[k].crtcId == cs[k].crtcId;
      }
    }
  }

  /** Over all connectors, the loop gives `Reused` and the planes it assigns. */
  lemma TakeBackAll(cs: map<nat, Connector>, ids: seq<nat>, lists: map<nat, seq<nat>>)
    requires (forall k :: k in cs <==> k in ids) && forall k :: k in cs ==> cs[k].primaryPlane.None?
    ensures var (m, preserve) := TakeBackOver(cs, ids, lists);
      var r := Reused(cs, lists, true);
      && m.Keys == cs.Keys
      && (forall k :: k in m ==> m[k] == cs[k].(primaryPlane := ReusedPrimary(cs[k], lists, true)))
      && preserve == set k | k in r && r[k].primaryPlane.Some? :: r[k].primaryPlane.value
  {
    TakeBackMeans(cs, ids, lists);
  }

  /** The last loop of `reuse_primary_planes`, run on the deactivated connectors, completes the reuse. */
  lemma TakeBackAssembled(s: DeviceState, planeIds: seq<nat>, ids: seq<nat>, lists: map<nat, seq<nat>>,
                          mid: map<nat, Connector>, cs': map<nat, Connector>, preserve: set<nat>)
    requires forall k :: k in s.connectors <==> k in ids
    requires lists == PrimaryLists(s, planeIds) && ReuseOk(lists, s.planes)
    requires mid.Keys == s.connectors.Keys
    requires forall k :: k in mid ==> mid[k] == s.connectors[k].(active := false, primaryPlane := None)
    requires (cs', preserve) == TakeBackOver(mid, ids, lists)
    ensures (preserve, s.(connectors := cs')) == ReusePrimaries(s, planeIds)
  {
    TakeBackAll(mid, ids, lists);
    TakeBackIsReused(s.connectors, mid, cs', lists);
    ReusedIgnoresPrimaries(s.connectors, mid, lists);
    ReuseAssembled(s, planeIds, lists, true, cs', preserve);
  }

  lemma ReusedIgnoresPrimaries(cs: map<nat, Connector>, mid: map<nat, Connector>, lists: map<nat, seq<nat>>)
    requires mid.Keys == cs.Keys
    requires forall k :: k in mid ==> mid[k] == cs[k].(active := false, primaryPlane := None)
    ensures Reused(mid, lists, true) == Reused(cs, lists, true)
  {
  }

  // ---------------------------------------------------------------------
  // Device start-up
  // ---------------------------------------------------------------------

  /** Every reference of a device in which all references resolve is ready for `assign_connector_plane`. */
  lemma RefsReady(s: DeviceState, k: nat)
    requires Refs(s) && k in s.connectors
    ensures PlaneReady(s, k)
  {
  }

  /** Assigning a CRTC keeps every reference resolving and every id of the device. */
  lemma AssignCrtcKeepsRefs(s: DeviceState, k: nat, blob: Option<nat>)
    requires k in s.connectors && Refs(s)
    ensures var s' := AssignCrtc(s, k, blob).1;
      && Refs(s') && s'.connectors.Keys == s.connectors.Keys && s'.crtcs.Keys == s.crtcs.Keys && s'.planes == s.planes
  {
    var c := s.connectors[k];
    var free := FirstFreeCrtc(c.crtcs, s.crtcs);
    if c.connected && free.Some? && c.mode.Some? && blob.Some? {
      AttachKeepsRefs(s, k, free.value, blob.value);
    }
  }

  /** Linking connector `k` to a CRTC of the device keeps every reference resolving. */
  lemma AttachKeepsRefs(s: DeviceState, k: nat, crtc: nat, blob: nat)
    requires k in s.connectors && crtc in s.crtcs && Refs(s)
    ensures Refs(s.(connectors := s.connectors[k := s.connectors[k].(crtc := Some(crtc), crtcId := crtc)],
                    crtcs := s.crtcs[crtc := s.crtcs[crtc].(connector := Some(k), active := true, modeId := blob)]))
  {
  }

  /** Assigning a primary plane keeps every reference resolving and every id of the device. */
  lemma AssignPlaneKeepsRefs(s: DeviceState, k: nat, alloc: Option<Buffers>)
    requires k in s.connectors && Refs(s)
    ensures PlaneReady(s, k)
      && var s' := AssignPlane(s, k, alloc).1;
         && Refs(s') && s'.connectors.Keys == s.connectors.Keys && s'.crtcs == s.crtcs && s'.planes.Keys == s.planes.Keys
  {
    AssignPlaneFrame(s, k, alloc);
    var (r, s') := AssignPlane(s, k, alloc);
    if r.Ok? && s.connectors[k].crtc.Some? && s.connectors[k].mode.Some? {
      forall j | j in s.connectors
        ensures s'.connectors[j].crtcs == s.connectors[j].crtcs && s'.connectors[j].crtcId == s.connectors[j].crtcId
        ensures s'.connectors[j].crtc == s.connectors[j].crtc
      {
      }
      RefsKept(s, s');
    }
  }

  /** Changing connectors only outside their CRTC references, with primary planes of the device, keeps every reference resolving. */
  lemma RefsKept(s: DeviceState, s': DeviceState)
    requires Refs(s) && s'.crtcs == s.crtcs && s'.connectors.Keys == s.connectors.Keys && s'.planes.Keys == s.planes.Keys
    requires forall k :: k in s.connectors ==>
      && s'.connectors[k].crtcs == s.connectors[k].crtcs
      && s'.connectors[k].crtcId == s.connectors[k].crtcId
      && s'.connectors[k].crtc == s.connectors[k].crtc
    requires forall k :: k in s'.connectors && s'.connectors[k].primaryPlane.Some? ==> s'.connectors[k].primaryPlane.value in s.planes
    ensures Refs(s')
  {
  }

  /** The CRTC loop of `init_drm_device`: `assign_connector_crtc` for the connectors `ids` in turn, errors ignored. */
  function AssignCrtcs(s: DeviceState, ids: seq<nat>, blob: nat -> Option<nat>): (r: DeviceState)
    requires Refs(s) && forall k :: k in ids ==> k in s.connectors
    ensures Refs(r) && r.connectors.Keys == s.connectors.Keys && r.crtcs.Keys == s.crtcs.Keys && r.planes == s.planes
    decreases |ids|
  {
    if ids == [] then s
    else
      AssignCrtcKeepsRefs(s, ids[0], blob(ids[0]));
      AssignCrtcs(AssignCrtc(s, ids[0], blob(ids[0])).1, ids[1..], blob)
  }

  /** The plane loop of `init_drm_device`: `assign_connector_plane` for the connectors `order` in turn, errors ignored. */
  function AssignPlanes(s: DeviceState, order: seq<nat>, alloc: nat -> Option<Buffers>): (r: DeviceState)
    requires Refs(s) && forall k :: k in order ==> k in s.connectors
    ensures Refs(r) && r.connectors.Keys == s.connectors.Keys && r.crtcs == s.crtcs && r.planes.Keys == s.planes.Keys
    decreases |order|
  {
    if order == [] then s
    else
      AssignPlaneKeepsRefs(s, order[0], alloc(order[0]));
      AssignPlanes(AssignPlane(s, order[0], alloc(order[0])).1, order[1..], alloc)
  }

  /** Reuse keeps every reference resolving. */
  lemma ReuseKeepsRefs(s: DeviceState, planeIds: seq<nat>)
    requires Refs(s)
    ensures var s' := ReusePrimaries(s, planeIds).1;
      Refs(s') && s'.connectors.Keys == s.connectors.Keys && s'.crtcs == s.crtcs && s'.planes == s.planes
  {
    ReuseFrame(s, planeIds);
  }

  /** The commit flags of `init_drm_device`: `ALLOW_MODESET` only when the configuration is not kept. */
  function InitFlags(keep: bool): (r: nat)
    ensures r == 0 <==> keep
  {
    if keep then 0 else MT.ALLOW_MODESET
  }

  /**
   * The first part of `init_drm_device`: keep the kernel's configuration
   * if `can_use_current_drm_mode` allows, otherwise reset the connectors
   * and CRTCs and assign CRTCs afresh.
   */
  function KeepOrReset(s: DeviceState, connectorIds: seq<nat>, currentMode: nat -> Option<Drm.DrmModeInfo>,
                       probe: nat -> bool, blob: nat -> Option<nat>): (res: (bool, DeviceState))
    requires Refs(s) && forall k :: k in s.connectors <==> k in connectorIds
    ensures Refs(res.1) && res.1.connectors.Keys == s.connectors.Keys && res.1.crtcs.Keys == s.crtcs.Keys && res.1.planes == s.planes
    ensures res.0 == CanUse(s, connectorIds, currentMode, probe).0
  {
    var (keep, s1) := CanUse(s, connectorIds, currentMode, probe);
    if keep then (true, s1)
    else
      ResetIsLinked(s1);
      (false, AssignCrtcs(ResetLinks(s1), connectorIds, blob))
  }

  /**
   * The second part of `init_drm_device`: reuse primary planes, release
   * the others, assign primary planes with the connectors that kept one
   * first, and drop the planes of inactive connectors.
   */
  function SetUpPlanes(s: DeviceState, connectorIds: seq<nat>, planeIds: seq<nat>, alloc: nat -> Option<Buffers>): (r: DeviceState)
    requires Refs(s) && forall k :: k in s.connectors <==> k in connectorIds
    ensures Refs(r) && r.connectors.Keys == s.connectors.Keys && r.crtcs == s.crtcs && r.planes.Keys == s.planes.Keys
  {
    ReuseKeepsRefs(s, planeIds);
    var (preserve, s3) := ReusePrimaries(s, planeIds);
    var s4 := s3.(planes := ClearPlanes(s3.planes, preserve));
    var s5 := AssignPlanes(s4, PrimaryFirst(connectorIds, s4.connectors), alloc);
    s5.(connectors := DropInactive(s5.connectors))
  }

  /** Releasing planes keeps every reference resolving. */
  lemma ClearKeepsRefs(s: DeviceState, preserve: set<nat>)
    requires Refs(s)
    ensures Refs(s.(planes := ClearPlanes(s.planes, preserve)))
  {
  }

  /** The plane part of `init_drm_device`, one step after another. */
  lemma SetUpIs(s: DeviceState, connectorIds: seq<nat>, planeIds: seq<nat>, alloc: nat -> Option<Buffers>,
                preserve: set<nat>, s3: DeviceState, s4: DeviceState, s5: DeviceState, s6: DeviceState)
    requires Refs(s) && forall k :: k in s.connectors <==> k in connectorIds
    requires (preserve, s3) == ReusePrimaries(s, planeIds)
    requires s4 == s3.(planes := ClearPlanes(s3.planes, preserve))
    requires Refs(s4) && forall k :: k in s4.connectors <==> k in connectorIds
    requires s5 == AssignPlanes(s4, PrimaryFirst(connectorIds, s4.connectors), alloc)
    requires s6 == s5.(connectors := DropInactive(s5.connectors))
    ensures SetUpPlanes(s, connectorIds, planeIds, alloc) == s6
  {
  }

  /**
   * `init_drm_device` on the state, with the kernel's answers: the mode
   * blobs `currentMode`, the test commit `probe`, the mode blobs `blob`
   * created for each connector, the scanout buffers `alloc` allocated for
   * each connector, and the final commit `commit` of the start-up change.
   * Start-up fails exactly when that commit fails.
   */
  function Init(s: DeviceState, connectorIds: seq<nat>, planeIds: seq<nat>,
                currentMode: nat -> Option<Drm.DrmModeInfo>, probe: nat -> bool,
                blob: nat -> Option<nat>, alloc: nat -> Option<Buffers>, commit: nat -> bool): (res: (Result<(), VideoError>, DeviceState))
    requires Refs(s) && forall k :: k in s.connectors <==> k in connectorIds
    ensures Refs(res.1) && res.1.connectors.Keys == s.connectors.Keys && res.1.crtcs.Keys == s.crtcs.Keys && res.1.planes.Keys == s.planes.Keys
    ensures res.0.Ok? <==> commit(InitFlags(CanUse(s, connectorIds, currentMode, probe).0))
  {
    var (keep, s2) := KeepOrReset(s, connectorIds, currentMode, probe, blob);
    (if commit(InitFlags(keep)) then Ok(()) else Err(Modeset), SetUpPlanes(s2, connectorIds, planeIds, alloc))
  }

  /** Connectors that are active show something: they have a primary plane, buffers and a CRTC. */
  ghost predicate ActiveShown(cs: map<nat, Connector>)
  {
    forall k :: k in cs && cs[k].active ==> cs[k].primaryPlane.Some? && cs[k].buffers.Some? && cs[k].crtc.Some?
  }

  lemma AssignPlaneActive(s: DeviceState, k: nat, alloc: Option<Buffers>)
    requires Refs(s) && k in s.connectors && ActiveShown(s.connectors)
    ensures PlaneReady(s, k) && ActiveShown(AssignPlane(s, k, alloc).1.connectors)
  {
    AssignPlaneFrame(s, k, alloc);
    var (r, s') := AssignPlane(s, k, alloc);
    var c := s.connectors[k];
    if r.Ok? && c.crtc.Some? && c.mode.Some? {
      forall j | j in s'.connectors && s'.connectors[j].active
        ensures s'.connectors[j].primaryPlane.Some? && s'.connectors[j].buffers.Some? && s'.connectors[j].crtc.Some?
      {
        if j != k {
          assert s'.connectors[j] == s.connectors[j];
        }
      }
    } else {
      assert s' == s;
    }
  }

  /** `assign_connector_plane` activates a connector only together with its plane, buffers and CRTC. */
  lemma {:induction false} AssignPlanesActive(s: DeviceState, order: seq<nat>, alloc: nat -> Option<Buffers>)
    requires Refs(s) && (forall k :: k in order ==> k in s.connectors) && ActiveShown(s.connectors)
    ensures ActiveShown(AssignPlanes(s, order, alloc).connectors)
    decreases |order|
  {
    if order != [] {
      var k := order[0];
      AssignPlaneKeepsRefs(s, k, alloc(k));
      AssignPlaneFrame(s, k, alloc(k));
      AssignPlaneActive(s, k, alloc(k));
      AssignPlanesActive(AssignPlane(s, k, alloc(k)).1, order[1..], alloc);
    }
  }

  /** After the plane part a connector is active exactly when it has a primary plane, and then it has buffers and a CRTC. */
  lemma SetUpActive(s: DeviceState, connectorIds: seq<nat>, planeIds: seq<nat>, alloc: nat -> Option<Buffers>)
    requires Refs(s) && forall k :: k in s.connectors <==> k in connectorIds
    ensures var s' := SetUpPlanes(s, connectorIds, planeIds, alloc);
      forall k :: k in s'.connectors ==>
        && (s'.connectors[k].active <==> s'.connectors[k].primaryPlane.Some?)
        && (s'.connectors[k].active ==> s'.connectors[k].buffers.Some? && s'.connectors[k].crtc.Some?)
  {
    ReuseKeepsRefs(s, planeIds);
    ReuseFrame(s, planeIds);
    var (preserve, s3) := ReusePrimaries(s, planeIds);
    var s4 := s3.(planes := ClearPlanes(s3.planes, preserve));
    AssignPlanesActive(s4, PrimaryFirst(connectorIds, s4.connectors), alloc);
  }

  /**
   * After start-up a connector is active exactly when it has a primary
   * plane, and an active connector also has its scanout buffers and a CRTC.
   */
  lemma InitActive(s: DeviceState, connectorIds: seq<nat>, planeIds: seq<nat>,
                   currentMode: nat -> Option<Drm.DrmModeInfo>, probe: nat -> bool,
                   blob: nat -> Option<nat>, alloc: nat -> Option<Buffers>, commit: nat -> bool)
    requires Refs(s) && forall k :: k in s.connectors <==> k in connectorIds
    ensures var s' := Init(s, connectorIds, planeIds, currentMode, probe, blob, alloc, commit).1;
      forall k :: k in s'.connectors ==>
        && (s'.connectors[k].active <==> s'.connectors[k].primaryPlane.Some?)
        && (s'.connectors[k].active ==> s'.connectors[k].buffers.Some? && s'.connectors[k].crtc.Some?)
  {
    SetUpActive(KeepOrReset(s, connectorIds, currentMode, probe, blob).1, connectorIds, planeIds, alloc);
  }

  /** With agreeing links, assigning CRTCs to connectors that have none keeps the link invariant. */
  lemma {:induction false} AssignCrtcsLinks(s: DeviceState, ids: seq<nat>, blob: nat -> Option<nat>)
    requires Refs(s) && Linked(s) && Distinct(ids)
    requires forall k :: k in ids ==> k in s.connectors && s.connectors[k].crtc.None?
    ensures Linked(AssignCrtcs(s, ids, blob))
    decreases |ids|
  {
    if ids != [] {
      var k := ids[0];
      AssignCrtcKeepsLinks(s, k, blob(k));
      AssignCrtcKeepsRefs(s, k, blob(k));
      var s' := AssignCrtc(s, k, blob(k)).1;
      forall j | j in ids[1..]
        ensures j in s'.connectors && s'.connectors[j].crtc.None?
      {
        assert j in ids && j != ids[0];
      }
      AssignCrtcsLinks(s', ids[1..], blob);
    }
  }

  /** Assigning primary planes one connector after another keeps the link invariant. */
  lemma {:induction false} AssignPlanesLinks(s: DeviceState, order: seq<nat>, alloc: nat -> Option<Buffers>)
    requires Refs(s) && Linked(s) && forall k :: k in order ==> k in s.connectors
    ensures Linked(AssignPlanes(s, order, alloc))
    decreases |order|
  {
    if order != [] {
      var k := order[0];
      AssignPlaneKeepsRefs(s, k, alloc(k));
      AssignPlaneKeepsLinks(s, k, alloc(k));
      AssignPlanesLinks(AssignPlane(s, k, alloc(k)).1, order[1..], alloc);
    }
  }

  /**
   * The first part leaves connectors and CRTCs linked consistently; when
   * the kernel's configuration is kept this needs a fresh device in which
   * no two connectors name the same CRTC.
   */
  lemma KeepOrResetLinks(s: DeviceState, connectorIds: seq<nat>, currentMode: nat -> Option<Drm.DrmModeInfo>,
                         probe: nat -> bool, blob: nat -> Option<nat>)
    requires Refs(s) && (forall k :: k in s.connectors <==> k in connectorIds) && Distinct(connectorIds)
    requires CanUse(s, connectorIds, currentMode, probe).0 ==> Pristine(s) && DistinctCrtcIds(s)
    ensures var s' := KeepOrReset(s, connectorIds, currentMode, probe, blob).1;
      LinksAgree(s'.connectors, s'.crtcs) && CrtcIdsAgree(s'.connectors)
  {
    var (keep, s1) := CanUse(s, connectorIds, currentMode, probe);
    if keep {
      CanUseLinks(s, connectorIds, currentMode, probe);
    } else {
      ResetIsLinked(s1);
      AssignCrtcsLinks(ResetLinks(s1), connectorIds, blob);
    }
  }

  /** The plane part turns agreeing links into the full link invariant. */
  lemma SetUpLinks(s: DeviceState, connectorIds: seq<nat>, planeIds: seq<nat>, alloc: nat -> Option<Buffers>)
    requires Refs(s) && (forall k :: k in s.connectors <==> k in connectorIds)
    requires LinksAgree(s.connectors, s.crtcs) && CrtcIdsAgree(s.connectors)
    ensures Linked(SetUpPlanes(s, connectorIds, planeIds, alloc))
  {
    ReuseKeepsRefs(s, planeIds);
    ReuseKeepsLinks(s, planeIds);
    var (preserve, s3) := ReusePrimaries(s, planeIds);
    ClearKeepsLinks(s3, preserve);
    var s4 := s3.(planes := ClearPlanes(s3.planes, preserve));
    AssignPlanesLinks(s4, PrimaryFirst(connectorIds, s4.connectors), alloc);
    DropKeepsLinks(AssignPlanes(s4, PrimaryFirst(connectorIds, s4.connectors), alloc));
  }

  /**
   * Start-up leaves the links consistent: connectors and CRTCs link to
   * each other, and every primary plane is a primary plane attached to
   * its connector's CRTC, so no two connectors share a CRTC or a primary
   * plane (`CrtcsExclusive`, `PrimariesExclusive`). When the kernel's
   * configuration is kept this needs a fresh device in which no two
   * connectors name the same CRTC.
   */
  lemma InitLinked(s: DeviceState, connectorIds: seq<nat>, planeIds: seq<nat>,
                   currentMode: nat -> Option<Drm.DrmModeInfo>, probe: nat -> bool,
                   blob: nat -> Option<nat>, alloc: nat -> Option<Buffers>, commit: nat -> bool)
    requires Refs(s) && (forall k :: k in s.connectors <==> k in connectorIds) && Distinct(connectorIds)
    requires CanUse(s, connectorIds, currentMode, probe).0 ==> Pristine(s) && DistinctCrtcIds(s)
    ensures Linked(Init(s, connectorIds, planeIds, currentMode, probe, blob, alloc, commit).1)
  {
    KeepOrResetLinks(s, connectorIds, currentMode, probe, blob);
    SetUpLinks(KeepOrReset(s, connectorIds, currentMode, probe, blob).1, connectorIds, planeIds, alloc);
  }

  // ---------------------------------------------------------------------
  // Presentation
  // ---------------------------------------------------------------------

  /**
   * `present`: a connector with buffers and a primary plane flips the
   * plane to the buffer `next_buffer % 2` and advances `next_buffer`; any
   * other connector is left alone. The result is the plane and the
   * framebuffer of the flip.
   */
  function Present(c: Connector): (Option<(nat, nat)>, Connector)
  {
    if c.buffers.None? || c.primaryPlane.None? then (None, c)
    else
      var b := c.buffers.value;
      (Some((c.primaryPlane.value, if c.nextBuffer % 2 == 0 then b.fb0 else b.fb1)), c.(nextBuffer := c.nextBuffer + 1))
  }

  /** The flips of `n` presents in a row. */
  function Presents(c: Connector, n: nat): (r: seq<Option<(nat, nat)>>)
    ensures |r| == n
    decreases n
  {
    if n == 0 then [] else [Present(c).0] + Presents(Present(c).1, n - 1)
  }

  /**
   * Successive presents of a connector with buffers and a primary plane
   * flip that plane to the two buffers in turn, starting with the buffer
   * `next_buffer` points at.
   */
  lemma {:induction false} PresentsAlternate(c: Connector, n: nat)
    requires c.buffers.Some? && c.primaryPlane.Some?
    ensures forall i :: 0 <= i < n ==>
      Presents(c, n)[i] == Some((c.primaryPlane.value, if (c.nextBuffer + i) % 2 == 0 then c.buffers.value.fb0 else c.buffers.value.fb1))
    decreases n
  {
    if n > 0 {
      var c' := Present(c).1;
      PresentsAlternate(c', n - 1);
      forall i | 0 <= i < n
        ensures Presents(c, n)[i] == Some((c.primaryPlane.value, if (c.nextBuffer + i) % 2 == 0 then c.buffers.value.fb0 else c.buffers.value.fb1))
      {
        if i > 0 {
          assert Presents(c, n)[i] == Presents(c', n - 1)[i - 1];
          assert c'.nextBuffer + (i - 1) == c.nextBuffer + i;
        }
      }
    }
  }

  /** With two distinct buffers, consecutive presents never flip to the same framebuffer. */
  lemma PresentsNeverRepeat(c: Connector, n: nat)
    requires c.buffers.Some? && c.primaryPlane.Some? && c.buffers.value.fb0 != c.buffers.value.fb1
    ensures forall i :: 0 <= i < n - 1 ==> Presents(c, n)[i] != Presents(c, n)[i + 1]
  {
    PresentsAlternate(c, n);
    forall i | 0 <= i < n - 1
      ensures Presents(c, n)[i] != Presents(c, n)[i + 1]
    {
      assert (c.nextBuffer + i) % 2 != (c.nextBuffer + i + 1) % 2;
    }
  }

  /** `handle_drm_flip_event`: a completed flip on a CRTC that drives a connector presents that connector's next frame. */
  function Flip(s: DeviceState, crtcId: nat): (Option<(nat, nat)>, DeviceState)
    requires forall c :: c in s.crtcs && s.crtcs[c].connector.Some? ==> s.crtcs[c].connector.value in s.connectors
  {
    if crtcId !in s.crtcs || s.crtcs[crtcId].connector.None? then (None, s)
    else
      var k := s.crtcs[crtcId].connector.value;
      var (flip, c') := Present(s.connectors[k]);
      (flip, s.(connectors := s.connectors[k := c']))
  }

  /**
   * With consistent links, a completed flip on the CRTC of a connector
   * presents exactly that connector and changes no other, and a flip
   * event for a CRTC the device does not know changes nothing.
   */
  lemma FlipPresentsOwner(s: DeviceState, k: nat, crtcId: nat)
    requires Refs(s) && Linked(s) && k in s.connectors
    ensures s.connectors[k].crtc == Some(crtcId) ==>
      Flip(s, crtcId) == (Present(s.connectors[k]).0, s.(connectors := s.connectors[k := Present(s.connectors[k]).1]))
    ensures crtcId !in s.crtcs ==> Flip(s, crtcId) == (None, s)
  {
  }
}
