/**
 * Connector transactions of the metal backend: a requested state per
 * connector is turned into new DRM states for every CRTC, plane and
 * connector of the device (`calculate_drm_state`) and then committed
 * (`apply`).
 *
 * Objects are named by their DRM ids. A `BinarySearchMap` keyed by id is
 * modelled as a map together with the ids in ascending order, which is the
 * order the source iterates in.
 */
module MetalTransaction {
  import opened Wrappers
  import opened MachineInt
  import opened Drm
  import opened MetalDrmState

  /** `ARGB8888` (fourcc `AR24`), the format of cursor planes. */
  const CURSOR_FORMAT: nat := 0x3432_5241

  /** `DRM_MODE_ATOMIC_ALLOW_MODESET` */
  const ALLOW_MODESET: nat := 0x400

  datatype PlaneType = Overlay | Primary | Cursor

  /**
   * A `RenderBuffer` as far as the transaction looks at it: its framebuffer,
   * size and format, the render and device contexts it was made for, the
   * modifier of its buffer object and whether it is blanked for the lock screen.
   */
  datatype BufferInfo = BufferInfo(
    fb: int, width: int, height: int, format: nat,
    renderCtx: nat, devCtx: nat, modifier: nat, locked: bool)

  const NoBuffer := BufferInfo(NONE, 0, 0, 0, 0, 0, 0, false)

  /** `Rc<[RenderBuffer; 2]>` */
  type BufferPair = b: seq<BufferInfo> | |b| == 2 witness [NoBuffer, NoBuffer]

  /** A plane: its type and, per supported format, the supported modifiers. */
  datatype PlaneObject = PlaneObject(ty: PlaneType, formats: map<nat, set<nat>>)

  /** `PlaneConfig`: a plane and its new state, including the buffers it scans out from. */
  datatype PlaneConfig = PlaneConfig(obj: PlaneObject, drm: PlaneDrmState, buffers: Option<BufferPair>)

  /** `DrmCrtcState` without the reference-counted blob handle. */
  datatype CrtcState = CrtcState(
    active: bool, mode: Option<DrmModeInfo>, modeBlobId: int,
    vrrEnabled: bool, assignedConnector: int)

  const DefaultCrtc := CrtcState(false, None, NONE, false, NONE)

  /**
   * `CrtcConfig`: a CRTC, the planes it can drive and its new state.  The
   * source keeps the possible planes in a hash map, whose order is
   * unspecified; the model fixes one order.
   */
  datatype CrtcConfig = CrtcConfig(possiblePlanes: seq<int>, drm: CrtcState)

  datatype ColorSpace = DefaultColorSpace | Bt2020

  datatype TransferFunction = DefaultTransfer | Pq

  /** `BackendConnectorState`: what the compositor asks of a connector. */
  datatype BackendConnectorState = BackendConnectorState(
    enabled: bool, active: bool, mode: BackendMode, format: nat,
    vrr: bool, tearing: bool, colorSpace: ColorSpace,
    transferFunction: TransferFunction, nonDesktopOverride: Option<bool>)

  /** The parts of a connector's `ConnectorDisplayData` the transaction reads. */
  datatype DisplayData = DisplayData(
    connected: bool, nonDesktop: bool, crtcs: seq<int>, modes: seq<DrmModeInfo>,
    vrrCapable: bool, supportsBt2020: bool, supportsPq: bool)

  /** The parts of a `MetalConnector` the transaction reads. */
  datatype ConnectorObject = ConnectorObject(
    display: DisplayData, buffers: Option<BufferPair>, cursorBuffers: Option<BufferPair>,
    directScanoutActive: bool)

  /** `ConnectorConfig`; the color space is kept as the backend value. */
  datatype ConnectorConfig = ConnectorConfig(
    obj: ConnectorObject, drm: ConnectorDrmState, colorSpace: Option<ColorSpace>,
    state: BackendConnectorState, requested: bool, changed: bool)

  /** `TransactionCommon`: the device's unleased planes, CRTCs and connectors. */
  datatype TransactionCommon = TransactionCommon(
    planeIds: seq<int>, planes: map<int, PlaneConfig>,
    crtcIds: seq<int>, crtcs: map<int, CrtcConfig>,
    connectorIds: seq<int>, connectors: map<int, ConnectorConfig>)

  datatype TransactionError =
    | LeasedConnector(connector: int)
    | UnknownConnector(connector: int)
    | NoCrtcForConnector(connector: int)
    | NoPrimaryPlaneForConnector(connector: int)
    | UnsupportedMode(connector: int, mode: BackendMode)
    | CreateModeBlob
    | AllocateScanoutBuffers(connector: int)
    | NotVrrCapable(connector: int)
    | TearingNotSupported(connector: int)
    | ColorSpaceNotSupported(connector: int, colorSpace: ColorSpace)
    | TransferFunctionNotSupported(connector: int, transferFunction: TransferFunction)
    | AtomicCommitFailed(errno: nat)

  ghost predicate Distinct(s: seq<int>)
  {
    forall i, j :: 0 <= i < j < |s| ==> s[i] != s[j]
  }

  /**
   * The shape every transaction has: ids are unique, non-zero and exactly
   * the keys of their map, a CRTC only lists planes of the transaction, a
   * connector's CRTC is one of the transaction's, and every mode a
   * connector reports has non-zero totals.
   */
  ghost predicate Wf(t: TransactionCommon)
  {
    && Distinct(t.planeIds) && Distinct(t.crtcIds) && Distinct(t.connectorIds)
    && (forall i :: 0 <= i < |t.planeIds| ==> t.planeIds[i] in t.planes)
    && (forall p :: p in t.planes ==> p in t.planeIds)
    && (forall i :: 0 <= i < |t.crtcIds| ==> t.crtcIds[i] in t.crtcs)
    && (forall c :: c in t.crtcs ==> c in t.crtcIds)
    && (forall i :: 0 <= i < |t.connectorIds| ==> t.connectorIds[i] in t.connectors)
    && (forall k :: k in t.connectors ==> k in t.connectorIds)
    && NONE !in t.planes && NONE !in t.crtcs
    && (forall c :: c in t.crtcs ==> forall p :: p in t.crtcs[c].possiblePlanes ==> p in t.planes)
    && (forall k :: k in t.connectors ==>
          t.connectors[k].drm.crtcId == NONE || t.connectors[k].drm.crtcId in t.crtcs)
    && (forall k :: k in t.connectors ==>
          forall m :: m in t.connectors[k].obj.display.modes ==> m.htotal > 0 && m.vtotal > 0)
  }

  /** No two connectors drive the same CRTC. */
  ghost predicate CrtcsExclusive(connectors: map<int, ConnectorConfig>)
  {
    forall a, b :: a in connectors && b in connectors && a != b && connectors[a].drm.crtcId != NONE
                   ==> connectors[a].drm.crtcId != connectors[b].drm.crtcId
  }

  // ---------------------------------------------------------------------
  // add
  // ---------------------------------------------------------------------

  /** `MetalDeviceTransaction`: the transaction being built. */
  class MetalDeviceTransaction {
    var common: TransactionCommon
    var allowDirectScanout: bool
    /** The connectors of the device, including leased ones. */
    const deviceConnectors: set<int>

    constructor (common: TransactionCommon, deviceConnectors: set<int>)
      ensures this.common == common && this.deviceConnectors == deviceConnectors
      ensures allowDirectScanout
    {
      this.common := common;
      this.deviceConnectors := deviceConnectors;
      allowDirectScanout := true;
    }

    /**
     * `add`: request `state` for a connector of the transaction. A leased
     * connector of the device and a connector of another device are refused.
     */
    method Add(connector: int, state: BackendConnectorState) returns (r: Result<(), TransactionError>)
      modifies this`common
      ensures connector !in old(common).connectors ==>
        common == old(common)
        && r == Err(if connector in deviceConnectors then LeasedConnector(connector) else UnknownConnector(connector))
      ensures connector in old(common).connectors ==>
        r.Ok?
        && common == old(common).(connectors := old(common).connectors[connector :=
             old(common).connectors[connector].(state := state, requested := true)])
    {
      if connector !in common.connectors {
        if connector in deviceConnectors {
          return Err(LeasedConnector(connector));
        }
        return Err(UnknownConnector(connector));
      }
      var config := common.connectors[connector];
      common := common.(connectors := common.connectors[connector := config.(state := state, requested := true)]);
      return Ok(());
    }

    /** `disable_direct_scanout` */
    method DisableDirectScanout()
      modifies this`allowDirectScanout
      ensures !allowDirectScanout
    {
      allowDirectScanout := false;
    }
  }

  /** Adding keeps the shape of the transaction and keeps connectors on distinct CRTCs. */
  lemma AddKeepsShape(t: TransactionCommon, connector: int, state: BackendConnectorState)
    requires Wf(t) && connector in t.connectors
    ensures var t' := t.(connectors := t.connectors[connector := t.connectors[connector].(state := state, requested := true)]);
            Wf(t') && (CrtcsExclusive(t.connectors) ==> CrtcsExclusive(t'.connectors))
  {
  }

  // ---------------------------------------------------------------------
  // modes_equal
  // ---------------------------------------------------------------------

  /**
   * `modes_equal`: two modes are the same timing when they agree on every
   * field except the type and the name; the backend then sees the same mode.
   */
  function ModesEqual(a: DrmModeInfo, b: DrmModeInfo): (r: bool)
    ensures r <==> a.(ty := b.ty, name := b.name) == b
    ensures r && a.htotal > 0 && a.vtotal > 0 ==> ToBackend(a) == ToBackend(b)
  {
    && a.clock == b.clock
    && a.hdisplay == b.hdisplay
    && a.hsyncStart == b.hsyncStart
    && a.hsyncEnd == b.hsyncEnd
    && a.htotal == b.htotal
    && a.hskew == b.hskew
    && a.vdisplay == b.vdisplay
    && a.vsyncStart == b.vsyncStart
    && a.vsyncEnd == b.vsyncEnd
    && a.vtotal == b.vtotal
    && a.vscan == b.vscan
    && a.vrefresh == b.vrefresh
    && a.flags == b.flags
  }

  /** Equality of timings is an equivalence. */
  lemma ModesEqualIsEquivalence(a: DrmModeInfo, b: DrmModeInfo, c: DrmModeInfo)
    ensures ModesEqual(a, a)
    ensures ModesEqual(a, b) ==> ModesEqual(b, a)
    ensures ModesEqual(a, b) && ModesEqual(b, c) ==> ModesEqual(a, c)
  {
  }

  // ---------------------------------------------------------------------
  // calculate_drm_state, first passes: unused CRTCs and existing planes
  // ---------------------------------------------------------------------

  /** `CrtcPlanes`: the primary and cursor plane of a CRTC, `NONE` when it has none. */
  datatype CrtcPlanes = CrtcPlanes(primary: int, cursor: int)

  const NoPlanes := CrtcPlanes(NONE, NONE)

  function Slot(cp: CrtcPlanes, ty: PlaneType): int
  {
    match ty
    case Primary => cp.primary
    case Cursor => cp.cursor
    case Overlay => NONE
  }

  function SetSlot(cp: CrtcPlanes, ty: PlaneType, id: int): (r: CrtcPlanes)
    ensures ty != Overlay ==> Slot(r, ty) == id
    ensures forall other :: other != ty ==> Slot(r, other) == Slot(cp, other)
  {
    match ty
    case Primary => cp.(primary := id)
    case Cursor => cp.(cursor := id)
    case Overlay => cp
  }

  /** The local state of `calculate_drm_state`. */
  datatype Work = Work(
    t: TransactionCommon, unusedCrtcs: set<int>, unusedPlanes: set<int>,
    crtcPlanes: map<int, CrtcPlanes>)

  /** No connector of `connectors` drives CRTC `c`. */
  ghost predicate Undriven(connectors: map<int, ConnectorConfig>, c: int)
  {
    forall k :: k in connectors ==> connectors[k].drm.crtcId != c
  }

  /**
   * The first pass: every CRTC starts with no planes, and the unused CRTCs
   * are those no connector drives.
   */
  method CollectCrtcs(t: TransactionCommon) returns (unused: set<int>, crtcPlanes: map<int, CrtcPlanes>)
    requires Wf(t)
    ensures forall c :: c in unused <==> c in t.crtcs && Undriven(t.connectors, c)
    ensures crtcPlanes.Keys == t.crtcs.Keys
    ensures forall c :: c in crtcPlanes ==> crtcPlanes[c] == NoPlanes
  {
    var all: set<int> := {};
    crtcPlanes := map[];
    var i := 0;
    while i < |t.crtcIds|
      invariant 0 <= i <= |t.crtcIds|
      invariant forall c :: c in all <==> c in t.crtcIds[..i]
      invariant crtcPlanes.Keys == all
      invariant forall c :: c in crtcPlanes ==> crtcPlanes[c] == NoPlanes
    {
      assert t.crtcIds[..i + 1] == t.crtcIds[..i] + [t.crtcIds[i]];
      crtcPlanes := crtcPlanes[t.crtcIds[i] := NoPlanes];
      all := all + {t.crtcIds[i]};
      i := i + 1;
    }
    assert t.crtcIds[..i] == t.crtcIds;
    assert forall c :: c in crtcPlanes.Keys <==> c in t.crtcs.Keys;
    unused := all;
    var j := 0;
    while j < |t.connectorIds|
      invariant 0 <= j <= |t.connectorIds|
      invariant forall c :: c in unused <==>
        c in all && forall i :: 0 <= i < j ==> t.connectors[t.connectorIds[i]].drm.crtcId != c
    {
      unused := unused - {t.connectors[t.connectorIds[j]].drm.crtcId};
      j := j + 1;
    }
    forall c | c in t.crtcs && Undriven(t.connectors, c)
      ensures c in unused
    {
      assert c in t.crtcIds && c in all;
      forall i | 0 <= i < j
        ensures t.connectors[t.connectorIds[i]].drm.crtcId != c
      {
        assert t.connectorIds[i] in t.connectors;
      }
    }
    forall c | c in unused
      ensures Undriven(t.connectors, c)
    {
      forall k | k in t.connectors
        ensures t.connectors[k].drm.crtcId != c
      {
        var i :| 0 <= i < |t.connectorIds| && t.connectorIds[i] == k;
      }
    }
  }

  /** Why `SortPlane` takes a plane off its CRTC, if it does. */
  predicate Discards(p: PlaneConfig, target: int, unusedCrtcs: set<int>, crtcPlanes: map<int, CrtcPlanes>)
  {
    || target == NONE
    || target in unusedCrtcs
    || target !in crtcPlanes
    || p.obj.ty == Overlay
    || Slot(crtcPlanes[target], p.obj.ty) != NONE
  }

  /**
   * One iteration of the plane pass: a plane follows its CRTC; it is
   * discarded (no CRTC, marked unused) when it has none, its CRTC is unused
   * or not in the transaction, it is an overlay, or its CRTC already has a
   * plane of its type; otherwise it becomes that plane.
   */
  function SortPlane(w: Work, id: int): (r: Work)
    requires id in w.t.planes
    ensures r.t.planeIds == w.t.planeIds && r.t.planes.Keys == w.t.planes.Keys
    ensures r.t.crtcs == w.t.crtcs && r.t.connectors == w.t.connectors
    ensures r.unusedCrtcs == w.unusedCrtcs
    ensures r.t.crtcIds == w.t.crtcIds && r.t.connectorIds == w.t.connectorIds
  {
    var p := w.t.planes[id];
    var target := if p.drm.crtcId != NONE then p.drm.crtcId else p.drm.assignedCrtc;
    if Discards(p, target, w.unusedCrtcs, w.crtcPlanes) then
      var p' := p.(drm := p.drm.(crtcId := NONE, assignedCrtc := NONE));
      w.(t := w.t.(planes := w.t.planes[id := p']), unusedPlanes := w.unusedPlanes + {id})
    else
      var p' := p.(drm := p.drm.(assignedCrtc := target));
      w.(t := w.t.(planes := w.t.planes[id := p']),
         crtcPlanes := w.crtcPlanes[target := SetSlot(w.crtcPlanes[target], p.obj.ty, id)])
  }

  /**
   * What the plane pass establishes for the planes in `done`: a discarded
   * plane has no CRTC; a kept plane is the (only) plane of its type of the
   * CRTC it is target to; the plane of a CRTC's slot is a kept plane of
   * that type target to that CRTC.
   */
  ghost predicate PlanesSorted(w: Work, done: set<int>)
  {
    && w.unusedPlanes <= done
    && (forall p :: p in done ==> p in w.t.planes)
    && (forall p :: p in w.unusedPlanes ==>
          w.t.planes[p].drm.crtcId == NONE && w.t.planes[p].drm.assignedCrtc == NONE)
    && (forall p :: p in done && p !in w.unusedPlanes ==>
          && w.t.planes[p].obj.ty != Overlay
          && w.t.planes[p].drm.assignedCrtc in w.crtcPlanes
          && w.t.planes[p].drm.assignedCrtc !in w.unusedCrtcs
          && Slot(w.crtcPlanes[w.t.planes[p].drm.assignedCrtc], w.t.planes[p].obj.ty) == p)
    && (forall c, ty :: c in w.crtcPlanes && Slot(w.crtcPlanes[c], ty) != NONE ==>
          && Slot(w.crtcPlanes[c], ty) in done
          && Slot(w.crtcPlanes[c], ty) !in w.unusedPlanes
          && w.t.planes[Slot(w.crtcPlanes[c], ty)].obj.ty == ty
          && w.t.planes[Slot(w.crtcPlanes[c], ty)].drm.assignedCrtc == c)
  }

  lemma SortPlaneKeepsSorted(w: Work, id: int, done: set<int>)
    requires id in w.t.planes && id !in done && PlanesSorted(w, done)
    requires NONE !in w.t.planes
    ensures PlanesSorted(SortPlane(w, id), done + {id})
  {
    var r := SortPlane(w, id);
    var p := w.t.planes[id];
    var target := if p.drm.crtcId != NONE then p.drm.crtcId else p.drm.assignedCrtc;
    if !Discards(p, target, w.unusedCrtcs, w.crtcPlanes) {
      forall c, ty | c in r.crtcPlanes && Slot(r.crtcPlanes[c], ty) != NONE
        ensures Slot(r.crtcPlanes[c], ty) in done + {id}
        ensures Slot(r.crtcPlanes[c], ty) !in r.unusedPlanes
        ensures r.t.planes[Slot(r.crtcPlanes[c], ty)].obj.ty == ty
        ensures r.t.planes[Slot(r.crtcPlanes[c], ty)].drm.assignedCrtc == c
      {
        if c == target && ty == p.obj.ty {
        } else {
          assert Slot(r.crtcPlanes[c], ty) == Slot(w.crtcPlanes[c], ty);
        }
      }
    }
  }

  /** Rewriting the states of planes keeps the shape of a transaction. */
  lemma WfAfterSort(t0: TransactionCommon, t: TransactionCommon)
    requires Wf(t0) && t.planes.Keys == t0.planes.Keys && t.planeIds == t0.planeIds
    requires t.crtcs == t0.crtcs && t.crtcIds == t0.crtcIds
    requires t.connectors == t0.connectors && t.connectorIds == t0.connectorIds
    ensures Wf(t)
  {
  }

  /**
   * The plane pass (`for (_, plane) in &mut slf.planes`), in ascending id
   * order: afterwards every plane is either discarded or the one plane of
   * its type of its CRTC, so overlays and second planes of a type are
   * discarded.
   */
  method SortPlanes(w0: Work) returns (w: Work)
    requires Wf(w0.t) && w0.unusedPlanes == {}
    requires w0.crtcPlanes.Keys == w0.t.crtcs.Keys
    requires forall c :: c in w0.crtcPlanes ==> w0.crtcPlanes[c] == NoPlanes
    ensures Wf(w.t) && w.t.crtcs == w0.t.crtcs && w.t.connectors == w0.t.connectors
    ensures w.t.planeIds == w0.t.planeIds && w.t.crtcIds == w0.t.crtcIds && w.t.connectorIds == w0.t.connectorIds
    ensures w.unusedCrtcs == w0.unusedCrtcs && w.crtcPlanes.Keys == w0.crtcPlanes.Keys
    ensures w.t.planes.Keys == w0.t.planes.Keys
    ensures PlanesSorted(w, w.t.planes.Keys)
    ensures forall p :: p in w.t.planes ==> w.t.planes[p].obj == w0.t.planes[p].obj
    ensures forall p :: p in w.t.planes && w0.t.planes[p].obj.ty == Overlay ==> p in w.unusedPlanes
  {
    w := w0;
    var i := 0;
    ghost var done: set<int> := {};
    while i < |w0.t.planeIds|
      invariant 0 <= i <= |w0.t.planeIds|
      invariant SortFrame(w0, w)
      invariant forall p :: p in done <==> p in w0.t.planeIds[..i]
      invariant PlanesSorted(w, done)
    {
      var id := w0.t.planeIds[i];
      assert id !in done;
      assert w0.t.planeIds[..i + 1] == w0.t.planeIds[..i] + [id];
      SortPlaneKeepsSorted(w, id, done);
      SortPlaneFrame(w0, w, id);
      w := SortPlane(w, id);
      done := done + {id};
      i := i + 1;
    }
    assert w0.t.planeIds[..i] == w0.t.planeIds;
    assert forall p :: p in done <==> p in w0.t.planes;
    WfAfterSort(w0.t, w.t);
  }

  /** What the plane pass leaves alone: everything but the plane states and slots. */
  ghost predicate SortFrame(w0: Work, w: Work)
  {
    && w.t.planeIds == w0.t.planeIds && w.t.planes.Keys == w0.t.planes.Keys
    && w.t.crtcs == w0.t.crtcs && w.t.connectors == w0.t.connectors
    && w.t.crtcIds == w0.t.crtcIds && w.t.connectorIds == w0.t.connectorIds
    && w.unusedCrtcs == w0.unusedCrtcs && w.crtcPlanes.Keys == w0.crtcPlanes.Keys
    && (forall p :: p in w.t.planes ==> w.t.planes[p].obj == w0.t.planes[p].obj)
  }

  lemma SortPlaneFrame(w0: Work, w: Work, id: int)
    requires SortFrame(w0, w) && id in w.t.planes
    ensures SortFrame(w0, SortPlane(w, id))
  {
  }

  // ---------------------------------------------------------------------
  // calculate_drm_state, the connector pass
  // ---------------------------------------------------------------------

  /**
   * What the device and the session contribute to the connector pass: the
   * render and device contexts, the cursor size, async-commit support,
   * whether the session is locked, and the outcomes of allocating scanout
   * buffers (by format, size and whether they are for a cursor), of
   * creating a mode blob and of clearing a buffer.
   */
  datatype Env = Env(
    renderCtx: Option<nat>, devCtx: nat, cursorWidth: nat, cursorHeight: nat,
    supportsAsyncCommit: bool, sessionLocked: bool,
    allocate: (nat, int, int, bool) -> Option<BufferPair>,
    createBlob: DrmModeInfo -> Option<nat>,
    clearOk: bool)

  /** `x as i32` on a u64: the low 32 bits, reinterpreted as signed. */
  function U64AsI32(x: nat): (r: int)
    ensures IsI32(r)
    ensures x <= I32_MAX ==> r == x
  {
    U32AsI32(x % 0x1_0000_0000)
  }

  /**
   * A connector the compositor wants lit: enabled, connected, and not a
   * non-desktop display unless the compositor overrides that.
   */
  predicate Lit(c: ConnectorConfig)
  {
    c.state.enabled && c.obj.display.connected
    && !c.state.nonDesktopOverride.GetOr(c.obj.display.nonDesktop)
  }

  /** The format a plane of type `ty` scans out for a connector using `format`. */
  function PlaneFormat(ty: PlaneType, format: nat): nat
  {
    if ty == Cursor then CURSOR_FORMAT else format
  }

  /** `!plane_not_supports_format` */
  predicate Supports(p: PlaneObject, format: nat)
  {
    PlaneFormat(p.ty, format) in p.formats
  }

  /** `p` is the primary or cursor plane of some CRTC. */
  ghost predicate InSlot(w: Work, p: int)
  {
    exists c :: c in w.crtcPlanes && (w.crtcPlanes[c].primary == p || w.crtcPlanes[c].cursor == p)
  }

  /** The unused CRTCs are exactly the CRTCs no connector drives. */
  ghost predicate UnusedCrtcsExact(w: Work)
  {
    forall c :: c in w.unusedCrtcs <==> c in w.t.crtcs && Undriven(w.t.connectors, c)
  }

  /** Unused CRTCs have no planes. */
  ghost predicate UnusedCrtcsBare(w: Work)
  {
    forall c :: c in w.unusedCrtcs && c in w.crtcPlanes ==> w.crtcPlanes[c] == NoPlanes
  }

  /** A CRTC's primary and cursor planes are planes of that type and in use. */
  ghost predicate SlotsValid(w: Work)
  {
    forall c, ty :: c in w.crtcPlanes && Slot(w.crtcPlanes[c], ty) != NONE ==>
      && Slot(w.crtcPlanes[c], ty) in w.t.planes
      && Slot(w.crtcPlanes[c], ty) !in w.unusedPlanes
      && w.t.planes[Slot(w.crtcPlanes[c], ty)].obj.ty == ty
  }

  /** No plane serves two CRTCs. */
  ghost predicate SlotsUnique(w: Work)
  {
    forall c1, c2, ty :: c1 in w.crtcPlanes && c2 in w.crtcPlanes
      && Slot(w.crtcPlanes[c1], ty) != NONE && Slot(w.crtcPlanes[c1], ty) == Slot(w.crtcPlanes[c2], ty)
      ==> c1 == c2
  }

  /** Every plane is unused or some CRTC's plane. */
  ghost predicate Covered(w: Work)
  {
    forall p :: p in w.t.planes ==> p in w.unusedPlanes || InSlot(w, p)
  }

  /**
   * The invariant of the connector pass:
   * the unused CRTCs are exactly the CRTCs no connector drives, and they
   * have no planes; a CRTC's primary and cursor planes are planes of that
   * type, in use and of no other CRTC; no two connectors share a CRTC; and
   * every plane is either unused or some CRTC's plane.
   */
  ghost predicate Consistent(w: Work)
  {
    && Wf(w.t)
    && w.crtcPlanes.Keys == w.t.crtcs.Keys
    && UnusedCrtcsExact(w)
    && UnusedCrtcsBare(w)
    && SlotsValid(w)
    && SlotsUnique(w)
    && CrtcsExclusive(w.t.connectors)
    && Covered(w)
  }

  /**
   * One step of the connector pass for connector `k`, centred on CRTC
   * `crtc`, leaves everything else alone: the other connectors, the other
   * CRTCs with their planes and the planes of the other CRTCs.
   */
  ghost predicate StepFrame(w: Work, r: Work, k: int, crtc: int)
  {
    && r.t.planeIds == w.t.planeIds && r.t.crtcIds == w.t.crtcIds && r.t.connectorIds == w.t.connectorIds
    && r.t.planes.Keys == w.t.planes.Keys && r.t.crtcs.Keys == w.t.crtcs.Keys
    && r.t.connectors.Keys == w.t.connectors.Keys && r.crtcPlanes.Keys == w.crtcPlanes.Keys
    && (forall p :: p in w.t.planes ==> r.t.planes[p].obj == w.t.planes[p].obj)
    && (forall c :: c in w.t.crtcs ==> r.t.crtcs[c].possiblePlanes == w.t.crtcs[c].possiblePlanes)
    && (forall j :: j in w.t.connectors ==>
          r.t.connectors[j].obj == w.t.connectors[j].obj && r.t.connectors[j].state == w.t.connectors[j].state)
    && (forall j :: j in w.t.connectors && j != k ==> r.t.connectors[j] == w.t.connectors[j])
    && (forall c :: c in w.t.crtcs && c != crtc ==> r.t.crtcs[c] == w.t.crtcs[c])
    && (forall c :: c in w.crtcPlanes && c != crtc ==> r.crtcPlanes[c] == w.crtcPlanes[c])
    && (forall c :: c != crtc ==> (c in r.unusedCrtcs <==> c in w.unusedCrtcs))
    && (forall c, ty :: c in w.crtcPlanes && c != crtc && Slot(w.crtcPlanes[c], ty) in w.t.planes ==>
          r.t.planes[Slot(w.crtcPlanes[c], ty)] == w.t.planes[Slot(w.crtcPlanes[c], ty)])
  }

  lemma StepFrameTrans(w1: Work, w2: Work, w3: Work, k: int, crtc: int)
    requires StepFrame(w1, w2, k, crtc) && StepFrame(w2, w3, k, crtc)
    ensures StepFrame(w1, w3, k, crtc)
  {
  }

  lemma StepFrameRefl(w: Work, k: int, crtc: int)
    ensures StepFrame(w, w, k, crtc)
  {
  }

  /** Connector `k` and the CRTC it drives share the geometry of the primary plane. */
  predicate SameGeometry(c: ConnectorDrmState, p: PlaneDrmState)
  {
    c.srcW == p.srcW && c.srcH == p.srcH && c.crtcX == p.crtcX && c.crtcY == p.crtcY
    && c.crtcW == p.crtcW && c.crtcH == p.crtcH
  }

  /**
   * What the connector pass guarantees for a connector it has handled: an
   * unlit connector has the default state; a lit one drives a CRTC that is
   * assigned to it, active as requested, runs a mode of the requested size
   * and refresh rate with VRR as requested, and has a primary plane that is
   * attached to it and whose geometry the connector records; each of the
   * CRTC's planes is assigned to it.
   */
  ghost predicate Configured(w: Work, k: int)
  {
    && k in w.t.connectors
    && var c := w.t.connectors[k];
       if !Lit(c) then c.drm == DefaultConnector
       else
         && c.drm.crtcId in w.t.crtcs && c.drm.crtcId in w.crtcPlanes
         && var crtc := w.t.crtcs[c.drm.crtcId].drm;
            var cp := w.crtcPlanes[c.drm.crtcId];
            && crtc.assignedConnector == k && crtc.active == c.state.active
            && crtc.vrrEnabled == c.state.vrr
            && crtc.mode.Some? && crtc.mode.value.htotal > 0 && crtc.mode.value.vtotal > 0
            && ToBackend(crtc.mode.value) == c.state.mode
            && PlanesReady(w, k, c.drm.crtcId)
  }

  /**
   * The planes of CRTC `crtc` are ready for connector `k`: the primary
   * plane exists, is attached to the CRTC and has the geometry the
   * connector records, and each of the CRTC's planes is assigned to it.
   */
  ghost predicate PlanesReady(w: Work, k: int, crtc: int)
  {
    && k in w.t.connectors && crtc in w.crtcPlanes
    && var cp := w.crtcPlanes[crtc];
       && cp.primary != NONE && cp.primary in w.t.planes
       && w.t.planes[cp.primary].drm.crtcId == crtc
       && w.t.planes[cp.primary].drm.assignedCrtc == crtc
       && SameGeometry(w.t.connectors[k].drm, w.t.planes[cp.primary].drm)
       && (cp.cursor in w.t.planes ==> w.t.planes[cp.cursor].drm.assignedCrtc == crtc)
  }

  /** A step for connector `k` keeps every other handled connector handled. */
  lemma ConfiguredFrame(w: Work, r: Work, k: int, crtc: int, j: int)
    requires Consistent(w) && Configured(w, j) && j != k && k in w.t.connectors
    requires StepFrame(w, r, k, crtc)
    requires crtc == w.t.connectors[k].drm.crtcId || crtc in w.unusedCrtcs
    ensures Configured(r, j)
  {
    var c := w.t.connectors[j];
    assert r.t.connectors[j] == c;
    if Lit(c) {
      var cc := c.drm.crtcId;
      assert cc != crtc by {
        assert !Undriven(w.t.connectors, cc);
      }
      var cp := w.crtcPlanes[cc];
      assert r.crtcPlanes[cc] == cp;
      assert r.t.planes[Slot(cp, Primary)] == w.t.planes[Slot(cp, Primary)];
      if cp.cursor in w.t.planes {
        assert r.t.planes[Slot(cp, Cursor)] == w.t.planes[Slot(cp, Cursor)];
      }
    }
  }

  /** Take plane `p` off its CRTC and mark it unused. */
  function FreePlane(w: Work, p: int): (r: Work)
    requires p == NONE || p in w.t.planes
    ensures r.t.planes.Keys == w.t.planes.Keys
    ensures r.t.(planes := w.t.planes) == w.t
    ensures r.unusedCrtcs == w.unusedCrtcs && r.crtcPlanes == w.crtcPlanes
    ensures r.unusedPlanes == w.unusedPlanes + (if p == NONE then {} else {p})
    ensures forall q :: q in w.t.planes && q != p ==> r.t.planes[q] == w.t.planes[q]
    ensures p != NONE ==>
      && r.t.planes[p].obj == w.t.planes[p].obj
      && r.t.planes[p].drm.crtcId == NONE && r.t.planes[p].drm.assignedCrtc == NONE
  {
    if p == NONE then w
    else
      var q := w.t.planes[p];
      w.(unusedPlanes := w.unusedPlanes + {p},
         t := w.t.(planes := w.t.planes[p := q.(drm := q.drm.(crtcId := NONE, assignedCrtc := NONE))]))
  }

  /** The CRTC `crtc` becomes unused, its planes unused and off every CRTC. */
  function FreeCrtc(w: Work, crtc: int): (r: Work)
    requires SlotsValid(w) && crtc in w.crtcPlanes
    ensures r.t.planes.Keys == w.t.planes.Keys
    ensures r.t.(planes := w.t.planes) == w.t
    ensures r.unusedCrtcs == w.unusedCrtcs + {crtc} && r.crtcPlanes == w.crtcPlanes[crtc := NoPlanes]
    ensures r.unusedPlanes == w.unusedPlanes + ({w.crtcPlanes[crtc].primary, w.crtcPlanes[crtc].cursor} - {NONE})
    ensures forall q :: q in w.t.planes && q != w.crtcPlanes[crtc].primary && q != w.crtcPlanes[crtc].cursor ==>
      r.t.planes[q] == w.t.planes[q]
    ensures forall ty :: Slot(w.crtcPlanes[crtc], ty) != NONE ==>
      var p := Slot(w.crtcPlanes[crtc], ty);
      && r.t.planes[p].obj == w.t.planes[p].obj
      && r.t.planes[p].drm.crtcId == NONE && r.t.planes[p].drm.assignedCrtc == NONE
  {
    var cp := w.crtcPlanes[crtc];
    assert Slot(cp, Primary) == cp.primary && Slot(cp, Cursor) == cp.cursor;
    var w' := FreePlane(FreePlane(w, cp.primary), cp.cursor);
    w'.(unusedCrtcs := w.unusedCrtcs + {crtc}, crtcPlanes := w.crtcPlanes[crtc := NoPlanes])
  }

  /** The connector gets the default state. */
  function ResetConnector(w: Work, k: int): (r: Work)
    requires k in w.t.connectors
    ensures r.t.connectors.Keys == w.t.connectors.Keys
    ensures r.t.connectors[k] == w.t.connectors[k].(drm := DefaultConnector)
    ensures forall j :: j in w.t.connectors && j != k ==> r.t.connectors[j] == w.t.connectors[j]
    ensures r.t.(connectors := w.t.connectors) == w.t && r.(t := w.t) == w
  {
    w.(t := w.t.(connectors := w.t.connectors[k := w.t.connectors[k].(drm := DefaultConnector)]))
  }

  /**
   * The disabled-connector path: the connector's CRTC becomes unused and
   * loses its planes, which become unused and are taken off every CRTC;
   * the connector gets the default state.
   */
  function ReleaseConnector(w: Work, k: int): (r: Work)
    requires Consistent(w) && k in w.t.connectors
    ensures var crtc := w.t.connectors[k].drm.crtcId;
      && Consistent(r) && StepFrame(w, r, k, crtc)
      && r.t.connectors[k].drm == DefaultConnector
      && (crtc != NONE ==>
            && crtc in r.unusedCrtcs && r.crtcPlanes[crtc] == NoPlanes
            && (forall ty :: Slot(w.crtcPlanes[crtc], ty) != NONE ==>
                  var p := Slot(w.crtcPlanes[crtc], ty);
                  p in r.unusedPlanes && r.t.planes[p].drm.crtcId == NONE && r.t.planes[p].drm.assignedCrtc == NONE))
  {
    var crtc := w.t.connectors[k].drm.crtcId;
    if crtc == NONE then
      var r := ResetConnector(w, k);
      ReleaseWithoutCrtc(w, k, r);
      r
    else
      var w1 := FreeCrtc(w, crtc);
      var r := ResetConnector(w1, k);
      ReleaseWithCrtc(w, k, w1, r);
      r
  }

  lemma DrivenAfterReset(w: Work, k: int, r: Work, x: int)
    requires k in w.t.connectors && r.t.connectors.Keys == w.t.connectors.Keys
    requires forall j :: j in w.t.connectors && j != k ==> r.t.connectors[j] == w.t.connectors[j]
    requires r.t.connectors[k].drm.crtcId == NONE
    requires x != NONE && x != w.t.connectors[k].drm.crtcId
    ensures Undriven(r.t.connectors, x) <==> Undriven(w.t.connectors, x)
  {
    if !Undriven(w.t.connectors, x) {
      var j :| j in w.t.connectors && w.t.connectors[j].drm.crtcId == x;
      assert r.t.connectors[j].drm.crtcId == x;
    }
  }

  lemma ReleaseWithoutCrtc(w: Work, k: int, r: Work)
    requires Consistent(w) && k in w.t.connectors && w.t.connectors[k].drm.crtcId == NONE
    requires r == ResetConnector(w, k)
    ensures Consistent(r) && StepFrame(w, r, k, NONE)
  {
    forall x | x in w.t.crtcs ensures Undriven(r.t.connectors, x) <==> Undriven(w.t.connectors, x) {
      DrivenAfterReset(w, k, r, x);
    }
    assert forall p :: InSlot(w, p) ==> InSlot(r, p);
  }

  lemma ReleaseWithCrtc(w: Work, k: int, w1: Work, r: Work)
    requires Consistent(w) && k in w.t.connectors && w.t.connectors[k].drm.crtcId != NONE
    requires w1 == FreeCrtc(w, w.t.connectors[k].drm.crtcId) && r == ResetConnector(w1, k)
    ensures var crtc := w.t.connectors[k].drm.crtcId;
      && Consistent(r) && StepFrame(w, r, k, crtc)
      && crtc in r.unusedCrtcs && r.crtcPlanes[crtc] == NoPlanes
      && (forall ty :: Slot(w.crtcPlanes[crtc], ty) != NONE ==>
            var p := Slot(w.crtcPlanes[crtc], ty);
            p in r.unusedPlanes && r.t.planes[p].drm.crtcId == NONE && r.t.planes[p].drm.assignedCrtc == NONE)
  {
    var crtc := w.t.connectors[k].drm.crtcId;
    assert Wf(r.t);
    ReleaseExact(w, k, w1, r);
    ReleaseSlots(w, k, w1, r);
    ReleaseFrame(w, k, w1, r);
  }

  lemma ReleaseExact(w: Work, k: int, w1: Work, r: Work)
    requires Consistent(w) && k in w.t.connectors && w.t.connectors[k].drm.crtcId != NONE
    requires w1 == FreeCrtc(w, w.t.connectors[k].drm.crtcId) && r == ResetConnector(w1, k)
    ensures UnusedCrtcsExact(r) && UnusedCrtcsBare(r) && CrtcsExclusive(r.t.connectors)
  {
    var crtc := w.t.connectors[k].drm.crtcId;
    forall x ensures x in r.unusedCrtcs <==> x in r.t.crtcs && Undriven(r.t.connectors, x) {
      if x == crtc {
        forall j | j in r.t.connectors ensures r.t.connectors[j].drm.crtcId != crtc {
          if j != k {
            assert w.t.connectors[j].drm.crtcId != crtc;
          }
        }
      } else if x != NONE {
        DrivenAfterReset(w, k, r, x);
      }
    }
  }

  lemma ReleaseSlots(w: Work, k: int, w1: Work, r: Work)
    requires Consistent(w) && k in w.t.connectors && w.t.connectors[k].drm.crtcId != NONE
    requires w1 == FreeCrtc(w, w.t.connectors[k].drm.crtcId) && r == ResetConnector(w1, k)
    ensures SlotsValid(r) && SlotsUnique(r) && Covered(r)
  {
    var crtc := w.t.connectors[k].drm.crtcId;
    var cp := w.crtcPlanes[crtc];
    assert Slot(cp, Primary) == cp.primary && Slot(cp, Cursor) == cp.cursor;
    forall c, ty | c in r.crtcPlanes && Slot(r.crtcPlanes[c], ty) != NONE
      ensures Slot(r.crtcPlanes[c], ty) !in r.unusedPlanes
    {
      assert c != crtc;
      var p := Slot(w.crtcPlanes[c], ty);
      assert p != Slot(cp, Primary) && p != Slot(cp, Cursor);
    }
    forall p | p in r.t.planes ensures p in r.unusedPlanes || InSlot(r, p) {
      if p !in w.unusedPlanes && p != cp.primary && p != cp.cursor {
        var x :| x in w.crtcPlanes && (w.crtcPlanes[x].primary == p || w.crtcPlanes[x].cursor == p);
        assert x != crtc;
        assert r.crtcPlanes[x] == w.crtcPlanes[x];
      }
    }
  }

  lemma ReleaseFrame(w: Work, k: int, w1: Work, r: Work)
    requires SlotsValid(w) && SlotsUnique(w) && NONE !in w.t.planes && k in w.t.connectors
    requires w.t.connectors[k].drm.crtcId in w.crtcPlanes
    requires w1 == FreeCrtc(w, w.t.connectors[k].drm.crtcId) && r == ResetConnector(w1, k)
    ensures StepFrame(w, r, k, w.t.connectors[k].drm.crtcId)
  {
    var crtc := w.t.connectors[k].drm.crtcId;
    forall c, ty | c in w.crtcPlanes && c != crtc && Slot(w.crtcPlanes[c], ty) in w.t.planes
      ensures r.t.planes[Slot(w.crtcPlanes[c], ty)] == w.t.planes[Slot(w.crtcPlanes[c], ty)]
    {
      OtherSlotDistinct(w, crtc, c, ty);
    }
  }

  /** A plane in a slot of CRTC `c` is in no slot of another CRTC. */
  lemma OtherSlotDistinct(w: Work, crtc: int, c: int, ty: PlaneType)
    requires SlotsValid(w) && SlotsUnique(w) && NONE !in w.t.planes
    requires crtc in w.crtcPlanes && c in w.crtcPlanes && c != crtc
    requires Slot(w.crtcPlanes[c], ty) in w.t.planes
    ensures Slot(w.crtcPlanes[c], ty) != w.crtcPlanes[crtc].primary
    ensures Slot(w.crtcPlanes[c], ty) != w.crtcPlanes[crtc].cursor
  {
    var cp := w.crtcPlanes[crtc];
    assert Slot(cp, Primary) == cp.primary && Slot(cp, Cursor) == cp.cursor;

  }

  lemma DrivenAfterRetarget(w: Work, k: int, r: Work, x: int)
    requires k in w.t.connectors && r.t.connectors.Keys == w.t.connectors.Keys
    requires forall j :: j in w.t.connectors && j != k ==> r.t.connectors[j] == w.t.connectors[j]
    requires x != w.t.connectors[k].drm.crtcId && x != r.t.connectors[k].drm.crtcId
    ensures Undriven(r.t.connectors, x) <==> Undriven(w.t.connectors, x)
  {
    if !Undriven(w.t.connectors, x) {
      var j :| j in w.t.connectors && w.t.connectors[j].drm.crtcId == x;
      assert r.t.connectors[j].drm.crtcId == x;
    }
  }

  /**
   * The first CRTC of `crtcs`, in order, that is unused (`'crtc_id` block):
   * `None` exactly when none of them is.
   */
  method FirstUnusedCrtc(crtcs: seq<int>, unused: set<int>) returns (r: Option<int>)
    ensures r.None? <==> forall i :: 0 <= i < |crtcs| ==> crtcs[i] !in unused
    ensures r.Some? ==> (r.value in unused &&
      exists i :: 0 <= i < |crtcs| && crtcs[i] == r.value && forall j :: 0 <= j < i ==> crtcs[j] !in unused)
  {
    var i := 0;
    while i < |crtcs|
      invariant 0 <= i <= |crtcs|
      invariant forall j :: 0 <= j < i ==> crtcs[j] !in unused
    {
      if crtcs[i] in unused {
        return Some(crtcs[i]);
      }
      i := i + 1;
    }
    return None;
  }

  /** A connector without a CRTC takes the unused CRTC `crtc`. */
  function TakeCrtc(w: Work, k: int, crtc: int): (r: Work)
    requires Consistent(w) && k in w.t.connectors && w.t.connectors[k].drm.crtcId == NONE
    requires crtc in w.unusedCrtcs
    ensures Consistent(r) && StepFrame(w, r, k, crtc)
    ensures r.t.connectors[k].drm == w.t.connectors[k].drm.(crtcId := crtc)
    ensures crtc !in r.unusedCrtcs && r.unusedCrtcs == w.unusedCrtcs - {crtc}
    ensures r.t.planes == w.t.planes && r.t.crtcs == w.t.crtcs && r.crtcPlanes == w.crtcPlanes
    ensures r.unusedPlanes == w.unusedPlanes
  {
    var c := w.t.connectors[k];
    var r := w.(unusedCrtcs := w.unusedCrtcs - {crtc},
                t := w.t.(connectors := w.t.connectors[k := c.(drm := c.drm.(crtcId := crtc))]));
    TakeCrtcKeeps(w, k, crtc, r);
    r
  }

  /** `r` is `w` with connector `k` retargeted to the unused CRTC `crtc`. */
  ghost predicate Retargeted(w: Work, k: int, crtc: int, r: Work)
    requires k in w.t.connectors
  {
    var c := w.t.connectors[k];
    r == w.(unusedCrtcs := w.unusedCrtcs - {crtc},
            t := w.t.(connectors := w.t.connectors[k := c.(drm := c.drm.(crtcId := crtc))]))
  }

  /** Retargeting a connector to an unused CRTC keeps the work record consistent. */
  lemma TakeCrtcKeeps(w: Work, k: int, crtc: int, r: Work)
    requires Consistent(w) && k in w.t.connectors && w.t.connectors[k].drm.crtcId == NONE
    requires crtc in w.unusedCrtcs && Retargeted(w, k, crtc, r)
    ensures Consistent(r) && StepFrame(w, r, k, crtc)
  {
    TakeCrtcExact(w, k, crtc, r);
    TakeCrtcExclusive(w, k, crtc, r);
    TakeCrtcWf(w, k, crtc, r);
    TakeCrtcFrame(w, k, crtc, r);
    TakeCrtcSlots(w, k, crtc, r);
  }

  lemma TakeCrtcWf(w: Work, k: int, crtc: int, r: Work)
    requires Consistent(w) && k in w.t.connectors && w.t.connectors[k].drm.crtcId == NONE
    requires crtc in w.unusedCrtcs && Retargeted(w, k, crtc, r)
    ensures Wf(r.t)
  {
  }

  lemma TakeCrtcFrame(w: Work, k: int, crtc: int, r: Work)
    requires k in w.t.connectors && Retargeted(w, k, crtc, r)
    ensures StepFrame(w, r, k, crtc)
  {
  }

  lemma TakeCrtcSlots(w: Work, k: int, crtc: int, r: Work)
    requires Consistent(w) && k in w.t.connectors && w.t.connectors[k].drm.crtcId == NONE
    requires crtc in w.unusedCrtcs && Retargeted(w, k, crtc, r)
    ensures r.crtcPlanes.Keys == r.t.crtcs.Keys && UnusedCrtcsBare(r) && SlotsValid(r) && SlotsUnique(r)
    ensures Covered(r)
  {
    assert forall p :: InSlot(w, p) ==> InSlot(r, p);
  }

  lemma TakeCrtcExact(w: Work, k: int, crtc: int, r: Work)
    requires Consistent(w) && k in w.t.connectors && w.t.connectors[k].drm.crtcId == NONE
    requires crtc in w.unusedCrtcs && Retargeted(w, k, crtc, r)
    ensures UnusedCrtcsExact(r)
  {
    forall x ensures x in r.unusedCrtcs <==> x in r.t.crtcs && Undriven(r.t.connectors, x) {
      if x != crtc && x != NONE {
        DrivenAfterRetarget(w, k, r, x);
      } else if x == crtc {
        assert r.t.connectors[k].drm.crtcId == crtc;
      }
    }
  }

  lemma TakeCrtcExclusive(w: Work, k: int, crtc: int, r: Work)
    requires Consistent(w) && k in w.t.connectors && w.t.connectors[k].drm.crtcId == NONE
    requires crtc in w.unusedCrtcs && Retargeted(w, k, crtc, r)
    ensures CrtcsExclusive(r.t.connectors)
  {
    assert Undriven(w.t.connectors, crtc);
  }

  /** `crtc.new.active` and `crtc.new.assigned_connector` follow the connector. */
  function ActivateCrtc(w: Work, k: int): (r: Work)
    requires Consistent(w) && k in w.t.connectors && w.t.connectors[k].drm.crtcId in w.t.crtcs
    ensures var crtc := w.t.connectors[k].drm.crtcId;
      && Consistent(r) && StepFrame(w, r, k, crtc)
      && r.t.crtcs[crtc].drm == w.t.crtcs[crtc].drm.(active := w.t.connectors[k].state.active, assignedConnector := k)
      && r.t.crtcs[crtc].possiblePlanes == w.t.crtcs[crtc].possiblePlanes
      && r.t.connectors == w.t.connectors && r.t.planes == w.t.planes
      && r.crtcPlanes == w.crtcPlanes && r.unusedCrtcs == w.unusedCrtcs && r.unusedPlanes == w.unusedPlanes
  {
    var c := w.t.connectors[k];
    var cfg := w.t.crtcs[c.drm.crtcId];
    var r := w.(t := w.t.(crtcs := w.t.crtcs[c.drm.crtcId := cfg.(drm := cfg.drm.(active := c.state.active, assignedConnector := k))]));
    assert forall p :: InSlot(w, p) ==> InSlot(r, p);
    r
  }

  /**
   * Keep the CRTC's plane of type `ty` only if it supports the format: an
   * empty slot or a plane without the format is put into the unused set
   * (an empty slot puts `NONE` there) and the slot is emptied.
   */
  function ValidateSlot(w: Work, crtc: int, ty: PlaneType, format: nat): (r: Work)
    requires Consistent(w) && crtc in w.crtcPlanes && ty != Overlay
    ensures Consistent(r)
    ensures forall k :: StepFrame(w, r, k, crtc)
    ensures r.t == w.t && r.unusedCrtcs == w.unusedCrtcs
    ensures var id := Slot(r.crtcPlanes[crtc], ty);
      id == NONE || (id == Slot(w.crtcPlanes[crtc], ty) && Supports(w.t.planes[id].obj, format))
    ensures forall other :: other != ty ==> Slot(r.crtcPlanes[crtc], other) == Slot(w.crtcPlanes[crtc], other)
    ensures Slot(r.crtcPlanes[crtc], ty) == NONE ==> Slot(w.crtcPlanes[crtc], ty) in r.unusedPlanes
  {
    var cp := w.crtcPlanes[crtc];
    var id := Slot(cp, ty);
    if id == NONE then
      var r := w.(unusedPlanes := w.unusedPlanes + {NONE});
      assert forall p :: InSlot(w, p) ==> InSlot(r, p);
      r
    else if !Supports(w.t.planes[id].obj, format) then
      var r := w.(unusedPlanes := w.unusedPlanes + {id}, crtcPlanes := w.crtcPlanes[crtc := SetSlot(cp, ty, NONE)]);
      ValidateSlotDrop(w, crtc, ty, r);
      r
    else
      w
  }

  lemma ValidateSlotDrop(w: Work, crtc: int, ty: PlaneType, r: Work)
    requires Consistent(w) && crtc in w.crtcPlanes && ty != Overlay
    requires Slot(w.crtcPlanes[crtc], ty) != NONE
    requires r == w.(unusedPlanes := w.unusedPlanes + {Slot(w.crtcPlanes[crtc], ty)},
                     crtcPlanes := w.crtcPlanes[crtc := SetSlot(w.crtcPlanes[crtc], ty, NONE)])
    ensures Consistent(r) && forall k :: StepFrame(w, r, k, crtc)
  {
    var id := Slot(w.crtcPlanes[crtc], ty);
    assert SlotsValid(r) by {
      forall c, ty' | c in r.crtcPlanes && Slot(r.crtcPlanes[c], ty') != NONE
        ensures Slot(r.crtcPlanes[c], ty') != id
      {
        if c == crtc {
          assert ty' != ty;
        } else {
          assert Slot(r.crtcPlanes[c], ty') == Slot(w.crtcPlanes[c], ty');
        }
      }
    }
    assert SlotsUnique(r) by {
      forall c1, c2, ty' | c1 in r.crtcPlanes && c2 in r.crtcPlanes
        && Slot(r.crtcPlanes[c1], ty') != NONE && Slot(r.crtcPlanes[c1], ty') == Slot(r.crtcPlanes[c2], ty')
        ensures c1 == c2
      {
        assert Slot(r.crtcPlanes[c1], ty') == Slot(w.crtcPlanes[c1], ty');
        assert Slot(r.crtcPlanes[c2], ty') == Slot(w.crtcPlanes[c2], ty');
      }
    }
    assert Covered(r) by {
      forall p | p in r.t.planes && p !in r.unusedPlanes ensures InSlot(r, p) {
        var x :| x in w.crtcPlanes && (w.crtcPlanes[x].primary == p || w.crtcPlanes[x].cursor == p);
        if x == crtc {
          assert ty == Primary ==> r.crtcPlanes[x].cursor == w.crtcPlanes[x].cursor;
          assert ty == Cursor ==> r.crtcPlanes[x].primary == w.crtcPlanes[x].primary;
        }
        assert r.crtcPlanes[x].primary == p || r.crtcPlanes[x].cursor == p;
      }
    }
  }

  /** Plane `id` can fill an empty slot of type `ty` for a connector using `format`. */
  predicate Fits(planes: map<int, PlaneConfig>, unused: set<int>, id: int, ty: PlaneType, format: nat)
  {
    id in planes && planes[id].obj.ty == ty && id in unused && Supports(planes[id].obj, format)
  }

  /**
   * Filling an empty slot, as intended: the first of the CRTC's possible
   * planes (in the model's fixed order) that has the type, is unused and supports the
   * format; `None` exactly when there is no such plane.
   */
  method PickPlane(possible: seq<int>, planes: map<int, PlaneConfig>, unused: set<int>, ty: PlaneType, format: nat)
    returns (r: Option<int>)
    ensures r.None? <==> forall i :: 0 <= i < |possible| ==> !Fits(planes, unused, possible[i], ty, format)
    ensures r.Some? ==> Fits(planes, unused, r.value, ty, format)
    ensures r.Some? ==>
      exists i :: 0 <= i < |possible| && possible[i] == r.value
        && forall j :: 0 <= j < i ==> !Fits(planes, unused, possible[j], ty, format)
  {
    var i := 0;
    while i < |possible|
      invariant 0 <= i <= |possible|
      invariant forall j :: 0 <= j < i ==> !Fits(planes, unused, possible[j], ty, format)
    {
      var p := possible[i];
      if p in planes && planes[p].obj.ty == ty && p in unused && Supports(planes[p].obj, format) {
        return Some(p);
      }
      i := i + 1;
    }
    return None;
  }

  /**
   * The slot-filling loop as the source writes it, without a `break`: every
   * fitting plane is taken in turn, so the last one ends up in the slot and
   * every one of them leaves the unused set.
   */
  function FillAsWritten(possible: seq<int>, planes: map<int, PlaneConfig>, unused: set<int>,
                         ty: PlaneType, format: nat, slot: int): (r: (int, set<int>))
    ensures r.1 <= unused
    ensures r.0 == slot || (r.0 in possible && Fits(planes, unused, r.0, ty, format))
    decreases |possible|
  {
    if possible == [] then (slot, unused)
    else if Fits(planes, unused, possible[0], ty, format) then
      FillAsWritten(possible[1..], planes, unused - {possible[0]}, ty, format, possible[0])
    else
      FillAsWritten(possible[1..], planes, unused, ty, format, slot)
  }

  /** Two primary planes of one CRTC that both support `XRGB8888`, neither in use. */
  function TwoPrimaryPlanes(): map<int, PlaneConfig>
  {
    var obj := PlaneObject(Primary, map[0x3432_5258 := {}]);
    map[1 := PlaneConfig(obj, DefaultPlane.(fbId := 5), None), 2 := PlaneConfig(obj, DefaultPlane, None)]
  }

  /**
   * With two fitting primary planes the loop as written puts the second
   * into the slot and takes both out of the unused set: plane 1 is then
   * neither some CRTC's plane nor reset with the unused planes, and keeps
   * its framebuffer while attached to no CRTC. Picking the first fit keeps
   * plane 2 unused instead.
   */
  lemma FillAsWrittenStrandsAPlane()
    ensures FillAsWritten([1, 2], TwoPrimaryPlanes(), {1, 2}, Primary, 0x3432_5258, NONE) == (2, {})
    ensures TwoPrimaryPlanes()[1].drm.fbId != NONE && TwoPrimaryPlanes()[1].drm.crtcId == NONE
  {
    var planes := TwoPrimaryPlanes();
    assert Fits(planes, {1, 2}, 1, Primary, 0x3432_5258);
    assert [1, 2][1..] == [2];
    assert {1, 2} - {1} == {2};
    assert Fits(planes, {2}, 2, Primary, 0x3432_5258);
    assert [2][1..] == [];
    assert {2} - {2} == {};
  }

  /**
   * Fill the CRTC's slot of type `ty` if it is empty, with the first
   * fitting plane, which leaves the unused set.
   */
  method FillSlot(w: Work, crtc: int, ty: PlaneType, format: nat) returns (r: Work)
    requires Consistent(w) && crtc in w.t.crtcs && crtc !in w.unusedCrtcs && ty != Overlay
    ensures Consistent(r) && r.t == w.t && r.unusedCrtcs == w.unusedCrtcs
    ensures forall k :: StepFrame(w, r, k, crtc)
    ensures Slot(w.crtcPlanes[crtc], ty) != NONE ==> r == w
    ensures forall other :: other != ty ==> Slot(r.crtcPlanes[crtc], other) == Slot(w.crtcPlanes[crtc], other)
    ensures Slot(w.crtcPlanes[crtc], ty) == NONE ==>
      var possible := w.t.crtcs[crtc].possiblePlanes;
      if forall i :: 0 <= i < |possible| ==> !Fits(w.t.planes, w.unusedPlanes, possible[i], ty, format) then r == w
      else
        var id := Slot(r.crtcPlanes[crtc], ty);
        && Fits(w.t.planes, w.unusedPlanes, id, ty, format)
        && r.unusedPlanes == w.unusedPlanes - {id}
        && exists i :: 0 <= i < |possible| && possible[i] == id
             && forall j :: 0 <= j < i ==> !Fits(w.t.planes, w.unusedPlanes, possible[j], ty, format)
  {
    if Slot(w.crtcPlanes[crtc], ty) != NONE {
      return w;
    }
    var pick := PickPlane(w.t.crtcs[crtc].possiblePlanes, w.t.planes, w.unusedPlanes, ty, format);
    if pick.None? {
      return w;
    }
    var id := pick.value;
    r := w.(unusedPlanes := w.unusedPlanes - {id}, crtcPlanes := w.crtcPlanes[crtc := SetSlot(w.crtcPlanes[crtc], ty, id)]);
    FillSlotKeepsConsistent(w, crtc, ty, id, r);
  }

  lemma FillSlotKeepsConsistent(w: Work, crtc: int, ty: PlaneType, id: int, r: Work)
    requires Consistent(w) && crtc in w.t.crtcs && crtc !in w.unusedCrtcs && ty != Overlay
    requires Slot(w.crtcPlanes[crtc], ty) == NONE
    requires id in w.t.planes && w.t.planes[id].obj.ty == ty && id in w.unusedPlanes
    requires r == w.(unusedPlanes := w.unusedPlanes - {id}, crtcPlanes := w.crtcPlanes[crtc := SetSlot(w.crtcPlanes[crtc], ty, id)])
    ensures Consistent(r) && forall k :: StepFrame(w, r, k, crtc)
  {
    assert id != NONE;
    assert SlotsValid(r) by {
      forall c, ty' | c in r.crtcPlanes && Slot(r.crtcPlanes[c], ty') != NONE
        ensures Slot(r.crtcPlanes[c], ty') in r.t.planes && Slot(r.crtcPlanes[c], ty') !in r.unusedPlanes
        ensures r.t.planes[Slot(r.crtcPlanes[c], ty')].obj.ty == ty'
      {
        if c != crtc || ty' != ty {
          assert Slot(r.crtcPlanes[c], ty') == Slot(w.crtcPlanes[c], ty');
        }
      }
    }
    assert SlotsUnique(r) by {
      forall c1, c2, ty' | c1 in r.crtcPlanes && c2 in r.crtcPlanes
        && Slot(r.crtcPlanes[c1], ty') != NONE && Slot(r.crtcPlanes[c1], ty') == Slot(r.crtcPlanes[c2], ty')
        ensures c1 == c2
      {
        assert c1 != crtc || ty' != ty ==> Slot(r.crtcPlanes[c1], ty') == Slot(w.crtcPlanes[c1], ty');
        assert c2 != crtc || ty' != ty ==> Slot(r.crtcPlanes[c2], ty') == Slot(w.crtcPlanes[c2], ty');
      }
    }
    assert Covered(r) by {
      forall p | p in r.t.planes && p !in r.unusedPlanes ensures InSlot(r, p) {
        if p == id {
          assert r.crtcPlanes[crtc].primary == id || r.crtcPlanes[crtc].cursor == id;
        } else {
          var x :| x in w.crtcPlanes && (w.crtcPlanes[x].primary == p || w.crtcPlanes[x].cursor == p);
          if x == crtc {
            assert ty == Primary ==> r.crtcPlanes[x].cursor == w.crtcPlanes[x].cursor && w.crtcPlanes[x].primary == NONE;
            assert ty == Cursor ==> r.crtcPlanes[x].primary == w.crtcPlanes[x].primary && w.crtcPlanes[x].cursor == NONE;
          }
          assert r.crtcPlanes[x].primary == p || r.crtcPlanes[x].cursor == p;
        }
      }
    }
  }

  /**
   * A rewrite of object states that keeps every plane's type, every
   * connector's CRTC, the CRTCs' planes and the unused sets keeps the
   * connector pass's invariant.
   */
  lemma ConsistentUnderRewrite(w: Work, r: Work)
    requires Consistent(w)
    requires r.t.planeIds == w.t.planeIds && r.t.crtcIds == w.t.crtcIds && r.t.connectorIds == w.t.connectorIds
    requires r.t.planes.Keys == w.t.planes.Keys && r.t.crtcs.Keys == w.t.crtcs.Keys
    requires r.t.connectors.Keys == w.t.connectors.Keys
    requires forall p :: p in w.t.planes ==> r.t.planes[p].obj == w.t.planes[p].obj
    requires forall c :: c in w.t.crtcs ==> r.t.crtcs[c].possiblePlanes == w.t.crtcs[c].possiblePlanes
    requires forall j :: j in w.t.connectors ==>
      r.t.connectors[j].obj == w.t.connectors[j].obj && r.t.connectors[j].drm.crtcId == w.t.connectors[j].drm.crtcId
    requires r.crtcPlanes == w.crtcPlanes && r.unusedCrtcs == w.unusedCrtcs && r.unusedPlanes == w.unusedPlanes
    ensures Consistent(r)
  {
    forall x ensures Undriven(r.t.connectors, x) <==> Undriven(w.t.connectors, x) {
      if !Undriven(w.t.connectors, x) {
        var j :| j in w.t.connectors && w.t.connectors[j].drm.crtcId == x;
        assert r.t.connectors[j].drm.crtcId == x;
      }
      if !Undriven(r.t.connectors, x) {
        var j :| j in r.t.connectors && r.t.connectors[j].drm.crtcId == x;
        assert w.t.connectors[j].drm.crtcId == x;
      }
    }
    assert forall p :: InSlot(w, p) ==> InSlot(r, p);
  }

  /**
   * The first of `modes` whose backend form is `want` (`iter().find`);
   * `None` exactly when no mode has that form.
   */
  function FindMode(modes: seq<DrmModeInfo>, want: BackendMode): (r: Option<DrmModeInfo>)
    requires forall m :: m in modes ==> m.htotal > 0 && m.vtotal > 0
    ensures r.None? <==> forall m :: m in modes ==> ToBackend(m) != want
    ensures r.Some? ==> (r.value in modes && ToBackend(r.value) == want &&
      exists i :: 0 <= i < |modes| && modes[i] == r.value && forall j :: 0 <= j < i ==> ToBackend(modes[j]) != want)
  {
    match FindModeFrom(modes, want, 0)
    case None =>
      assert forall m :: m in modes ==> exists i :: 0 <= i < |modes| && modes[i] == m;
      None
    case Some(i) => Some(modes[i])
  }

  /** The index of the first mode at or after `from` whose backend form is `want`. */
  function FindModeFrom(modes: seq<DrmModeInfo>, want: BackendMode, from: nat): (r: Option<nat>)
    requires from <= |modes| && forall m :: m in modes ==> m.htotal > 0 && m.vtotal > 0
    ensures r.None? <==> forall i :: from <= i < |modes| ==> ToBackend(modes[i]) != want
    ensures r.Some? ==> (from <= r.value < |modes| && ToBackend(modes[r.value]) == want
      && forall j :: from <= j < r.value ==> ToBackend(modes[j]) != want)
    decreases |modes| - from
  {
    if from == |modes| then None
    else if ToBackend(modes[from]) == want then Some(from)
    else FindModeFrom(modes, want, from + 1)
  }

  /**
   * The CRTC's mode: kept, with its blob, when it has the same timing
   * (`modes_equal`) as `mode`; otherwise `mode` with a freshly created blob.
   */
  function ChooseMode(w: Work, k: int, crtc: int, mode: DrmModeInfo, env: Env): (r: Result<Work, TransactionError>)
    requires Consistent(w) && crtc in w.t.crtcs && mode.htotal > 0 && mode.vtotal > 0
    ensures var prev := w.t.crtcs[crtc].drm;
      var reuse := prev.mode.Some? && ModesEqual(prev.mode.value, mode);
      && (r.Err? <==> !reuse && env.createBlob(mode).None?)
      && (r.Err? ==> r.error == CreateModeBlob)
      && (r.Ok? ==> ModeInstalled(w, r.value, k, crtc, mode))
      && (r.Ok? && reuse ==> r.value.t.crtcs[crtc].drm == prev)
      && (r.Ok? && !reuse ==> r.value.t.crtcs[crtc].drm == prev.(mode := Some(mode), modeBlobId := env.createBlob(mode).value))
  {
    var cfg := w.t.crtcs[crtc];
    if cfg.drm.mode.Some? && ModesEqual(cfg.drm.mode.value, mode) then
      ModesEqualIsEquivalence(cfg.drm.mode.value, mode, mode);
      Ok(w)
    else
      match env.createBlob(mode)
      case None => Err(CreateModeBlob)
      case Some(blob) =>
        var r := w.(t := w.t.(crtcs := w.t.crtcs[crtc := cfg.(drm := cfg.drm.(mode := Some(mode), modeBlobId := blob))]));
        ChooseModeBlob(w, k, crtc, mode, blob, r);
        Ok(r)
  }

  /**
   * The work record after `crtc` got a mode of the same timing as `mode`:
   * consistent, with only that CRTC's DRM state changed.
   */
  ghost predicate ModeInstalled(w: Work, r: Work, k: int, crtc: int, mode: DrmModeInfo)
  {
    && crtc in w.t.crtcs && crtc in r.t.crtcs
    && Consistent(r) && StepFrame(w, r, k, crtc)
    && r.t.connectors == w.t.connectors && r.t.planes == w.t.planes
    && r.crtcPlanes == w.crtcPlanes
    && r.unusedCrtcs == w.unusedCrtcs && r.unusedPlanes == w.unusedPlanes
    && r.t.crtcs[crtc].possiblePlanes == w.t.crtcs[crtc].possiblePlanes
    && r.t.crtcs[crtc].drm.mode.Some? && ModesEqual(r.t.crtcs[crtc].drm.mode.value, mode)
    && r.t.crtcs[crtc].drm.mode.value.htotal > 0 && r.t.crtcs[crtc].drm.mode.value.vtotal > 0
    && ToBackend(r.t.crtcs[crtc].drm.mode.value) == ToBackend(mode)
  }

  /** Installing `mode` with a new blob on `crtc` keeps the work record consistent and changes only that CRTC. */
  lemma ChooseModeBlob(w: Work, k: int, crtc: int, mode: DrmModeInfo, blob: int, r: Work)
    requires Consistent(w) && crtc in w.t.crtcs && mode.htotal > 0 && mode.vtotal > 0
    requires var cfg := w.t.crtcs[crtc];
      r == w.(t := w.t.(crtcs := w.t.crtcs[crtc := cfg.(drm := cfg.drm.(mode := Some(mode), modeBlobId := blob))]))
    ensures ModeInstalled(w, r, k, crtc, mode)
  {
    ModesEqualIsEquivalence(mode, mode, mode);
    ConsistentUnderRewrite(w, r);
  }

  /** What `calculate_drm_state` decides for a plane's framebuffer. */
  datatype FbChoice = FbChoice(plane: PlaneDrmState, fbIdx: nat, buffers: BufferPair)

  /**
   * The framebuffer of a plane with new geometry `g`. A cursor plane whose
   * connector shows no cursor is detached. Otherwise the plane is attached
   * to `crtc` and shows the first that applies of: the connector's
   * direct-scanout framebuffer `fb` with the connector's geometry (primary
   * plane); `fb` if it is one of the plane's buffers; the first of freshly
   * allocated buffers; the buffer at the current index; and, when the
   * current image may not be shown, the other buffer, which is blanked and
   * marked locked unless it already is.
   */
  function ChooseFb(g: PlaneDrmState, primary: bool, crtc: int, fb: int, fbIdx: nat,
                    current: BufferPair, allocatedNow: bool, mayShow: bool, directScanout: bool,
                    conn: ConnectorDrmState, clearOk: bool): (r: FbChoice)
    requires crtc != NONE
    ensures r.plane.assignedCrtc == g.assignedCrtc
    ensures r.plane.crtcId == (if primary || fb != NONE then crtc else NONE)
    ensures r.plane.crtcId == NONE ==> r.plane.fbId == NONE && r.plane == g.(crtcId := NONE, fbId := NONE)
    ensures primary || fb != NONE ==>
      r.plane.fbId == fb || r.plane.fbId == r.buffers[0].fb || r.plane.fbId == r.buffers[1].fb
    ensures forall i :: 0 <= i < 2 ==> r.buffers[i] == current[i] || r.buffers[i] == current[i].(locked := true)
    ensures (primary || fb != NONE) && mayShow && (current[0].fb == fb || current[1].fb == fb) ==> r.plane.fbId == fb
    ensures (primary || fb != NONE) && !mayShow && allocatedNow ==> r.plane.fbId == current[0].fb && r.fbIdx == 0
    ensures (primary || fb != NONE) && !mayShow && !allocatedNow ==>
      && r.fbIdx == (fbIdx + 1) % 2
      && r.plane.fbId == r.buffers[r.fbIdx].fb
      && (clearOk ==> r.buffers[r.fbIdx].locked)
    ensures !(primary && directScanout && mayShow) ==> r.plane.(crtcId := g.crtcId, fbId := g.fbId) == g
    ensures primary && directScanout && mayShow ==> SameGeometry(conn, r.plane) && r.plane.fbId == fb
  {
    if !(primary || fb != NONE) then FbChoice(g.(crtcId := NONE, fbId := NONE), fbIdx, current)
    else
      var a := g.(crtcId := crtc);
      if primary && directScanout && mayShow then
        FbChoice(a.(fbId := fb, srcW := conn.srcW, srcH := conn.srcH, crtcX := conn.crtcX, crtcY := conn.crtcY,
                    crtcW := conn.crtcW, crtcH := conn.crtcH), fbIdx, current)
      else if (current[0].fb == fb || current[1].fb == fb) && mayShow then FbChoice(a.(fbId := fb), fbIdx, current)
      else if allocatedNow then FbChoice(a.(fbId := current[0].fb), 0, current)
      else if mayShow then FbChoice(a.(fbId := current[fbIdx % 2].fb), fbIdx, current)
      else
        var idx := (fbIdx + 1) % 2;
        var blanked := if !current[idx].locked && clearOk then current[idx := current[idx].(locked := true)] else current;
        FbChoice(a.(fbId := current[idx].fb), idx, blanked)
  }

  /** Old buffers are reused when they match the plane's size and format, both contexts and the plane's modifiers. */
  predicate Reusable(b: BufferPair, width: int, height: int, format: nat, modifiers: set<nat>, env: Env)
  {
    && b[0].width == width && b[0].height == height && b[0].format == format
    && env.renderCtx.Some? && b[0].renderCtx == env.renderCtx.value
    && b[0].devCtx == env.devCtx
    && b[0].modifier in modifiers && b[1].modifier in modifiers
  }

  /**
   * The new state of one of the CRTC's planes: its geometry (the mode's
   * size at the origin for the primary plane, the cursor size at the
   * cursor position for the cursor plane, with `SRC_W`/`SRC_H` in 16.16
   * fixed point), its buffers (the connector's old ones when reusable,
   * otherwise freshly allocated) and its framebuffer. Also says whether
   * the old buffers were kept.
   */
  function PlanePlan(w: Work, k: int, crtc: int, id: int, mode: DrmModeInfo, env: Env, allowDirectScanout: bool)
    : (r: Result<(FbChoice, bool), TransactionError>)
    requires k in w.t.connectors && crtc in w.t.crtcs && crtc != NONE
    requires id in w.t.planes && w.t.planes[id].obj.ty != Overlay
    requires Supports(w.t.planes[id].obj, w.t.connectors[k].state.format)
    ensures r.Err? ==> r.error == AllocateScanoutBuffers(k)
    ensures r.Ok? ==> (
      var c := w.t.connectors[k];
      var d := r.value.0.plane;
      && d.assignedCrtc == crtc
      && (w.t.planes[id].obj.ty == Primary ==> d.crtcId == crtc)
      && (w.t.planes[id].obj.ty == Cursor ==> d.crtcId == (if c.drm.cursorFb != NONE then crtc else NONE))
      && (w.t.planes[id].obj.ty == Primary && !(c.obj.directScanoutActive && allowDirectScanout) ==>
            && d.srcX == 0 && d.srcY == 0 && d.crtcX == 0 && d.crtcY == 0
            && d.srcW == FixedSize(mode.hdisplay) && d.srcH == FixedSize(mode.vdisplay)
            && d.crtcW == mode.hdisplay && d.crtcH == mode.vdisplay))
  {
    var c := w.t.connectors[k];
    var p := w.t.planes[id];
    var primary := p.obj.ty == Primary;
    var width := if primary then mode.hdisplay else U64AsI32(env.cursorWidth);
    var height := if primary then mode.vdisplay else U64AsI32(env.cursorHeight);
    var format := PlaneFormat(p.obj.ty, c.state.format);
    var prev := if primary then c.obj.buffers else c.obj.cursorBuffers;
    var g := p.drm.(assignedCrtc := crtc, srcX := 0, srcY := 0, srcW := FixedSize(width), srcH := FixedSize(height),
                    crtcX := if primary then 0 else c.drm.cursorX, crtcY := if primary then 0 else c.drm.cursorY,
                    crtcW := width, crtcH := height);
    var keep := prev.Some? && Reusable(prev.value, width, height, format, p.obj.formats[format], env);
    var alloc := if keep then None else env.allocate(format, width, height, !primary);
    if !keep && alloc.None? then Err(AllocateScanoutBuffers(k))
    else
      var current := if keep then prev.value else alloc.value;
      var fb := if primary then c.drm.fb else c.drm.cursorFb;
      var fbIdx := if primary then c.drm.fbIdx else c.drm.cursorFbIdx;
      var mayShow := !w.t.crtcs[crtc].drm.active || c.drm.locked || !env.sessionLocked || !primary;
      Ok((ChooseFb(g, primary, crtc, fb, fbIdx, current, !keep, mayShow,
                   c.obj.directScanoutActive && allowDirectScanout, c.drm, env.clearOk), keep))
  }

  /**
   * Store the plan for plane `id`: the plane gets its state and buffers;
   * the connector its framebuffer index, the primary plane's geometry and,
   * when buffers were allocated, the changed mark.
   */
  function InstallPlane(w: Work, k: int, crtc: int, id: int, choice: FbChoice, kept: bool): (r: Work)
    requires Consistent(w) && k in w.t.connectors && crtc in w.t.crtcs
    requires w.t.connectors[k].drm.crtcId == crtc
    requires id in w.t.planes && Slot(w.crtcPlanes[crtc], w.t.planes[id].obj.ty) == id
    ensures Consistent(r) && StepFrame(w, r, k, crtc)
    ensures r.t.crtcs == w.t.crtcs && r.crtcPlanes == w.crtcPlanes
    ensures r.unusedCrtcs == w.unusedCrtcs && r.unusedPlanes == w.unusedPlanes
    ensures forall q :: q in w.t.planes && q != id ==> r.t.planes[q] == w.t.planes[q]
    ensures r.t.planes[id] == w.t.planes[id].(drm := choice.plane, buffers := Some(choice.buffers))
    ensures var c := w.t.connectors[k];
      var d := choice.plane;
      r.t.connectors[k] == c.(changed := c.changed || !kept, drm :=
        if w.t.planes[id].obj.ty == Primary then
          c.drm.(fbIdx := choice.fbIdx, srcW := d.srcW, srcH := d.srcH, crtcX := d.crtcX, crtcY := d.crtcY,
                 crtcW := d.crtcW, crtcH := d.crtcH)
        else c.drm.(cursorFbIdx := choice.fbIdx))
  {
    var c := w.t.connectors[k];
    var p := w.t.planes[id];
    var d := choice.plane;
    var drm' :=
      if p.obj.ty == Primary then
        c.drm.(fbIdx := choice.fbIdx, srcW := d.srcW, srcH := d.srcH, crtcX := d.crtcX, crtcY := d.crtcY,
               crtcW := d.crtcW, crtcH := d.crtcH)
      else c.drm.(cursorFbIdx := choice.fbIdx);
    var r := w.(t := w.t.(planes := w.t.planes[id := p.(drm := d, buffers := Some(choice.buffers))],
                          connectors := w.t.connectors[k := c.(drm := drm', changed := c.changed || !kept)]));
    SetupPlaneFrame(w, k, crtc, id, r);
    r
  }

  /**
   * Set up one of the CRTC's planes (the loop body over the primary and
   * cursor plane): plan it, then store the plan.
   */
  function SetupPlane(w: Work, k: int, crtc: int, id: int, mode: DrmModeInfo, env: Env, allowDirectScanout: bool)
    : (r: Result<Work, TransactionError>)
    requires Consistent(w) && k in w.t.connectors && crtc in w.t.crtcs
    requires w.t.connectors[k].drm.crtcId == crtc
    requires id in w.t.planes && w.t.planes[id].obj.ty != Overlay
    requires Slot(w.crtcPlanes[crtc], w.t.planes[id].obj.ty) == id
    requires Supports(w.t.planes[id].obj, w.t.connectors[k].state.format)
    ensures r.Err? ==> r.error == AllocateScanoutBuffers(k)
    ensures r.Ok? ==> (
      && k in r.value.t.connectors && id in r.value.t.planes
      && var c := w.t.connectors[k];
      var c' := r.value.t.connectors[k];
      var p := r.value.t.planes[id];
      && Consistent(r.value) && StepFrame(w, r.value, k, crtc)
      && r.value.t.crtcs == w.t.crtcs && r.value.crtcPlanes == w.crtcPlanes
      && r.value.unusedCrtcs == w.unusedCrtcs && r.value.unusedPlanes == w.unusedPlanes
      && (forall q :: q in w.t.planes && q != id ==> r.value.t.planes[q] == w.t.planes[q])
      && p.obj == w.t.planes[id].obj && p.drm.assignedCrtc == crtc && p.buffers.Some?
      && c'.obj == c.obj && c'.state == c.state && c'.colorSpace == c.colorSpace && c'.requested == c.requested
      && (p.obj.ty == Primary ==>
            && p.drm.crtcId == crtc && SameGeometry(c'.drm, p.drm)
            && c'.drm == c.drm.(fbIdx := c'.drm.fbIdx, srcW := p.drm.srcW, srcH := p.drm.srcH,
                                crtcX := p.drm.crtcX, crtcY := p.drm.crtcY, crtcW := p.drm.crtcW, crtcH := p.drm.crtcH))
      && (p.obj.ty == Primary && !(c.obj.directScanoutActive && allowDirectScanout) ==>
            && p.drm.srcX == 0 && p.drm.srcY == 0 && p.drm.crtcX == 0 && p.drm.crtcY == 0
            && p.drm.srcW == FixedSize(mode.hdisplay) && p.drm.srcH == FixedSize(mode.vdisplay)
            && p.drm.crtcW == mode.hdisplay && p.drm.crtcH == mode.vdisplay)
      && (p.obj.ty == Cursor ==>
            && c'.drm == c.drm.(cursorFbIdx := c'.drm.cursorFbIdx)
            && p.drm.crtcId == (if c.drm.cursorFb != NONE then crtc else NONE)))
  {
    assert crtc != NONE;
    match PlanePlan(w, k, crtc, id, mode, env, allowDirectScanout)
    case Err(e) => Err(e)
    case Ok(plan) => Ok(InstallPlane(w, k, crtc, id, plan.0, plan.1))
  }

  lemma SetupPlaneFrame(w: Work, k: int, crtc: int, id: int, r: Work)
    requires Consistent(w) && k in w.t.connectors && crtc in w.t.crtcs
    requires w.t.connectors[k].drm.crtcId == crtc
    requires id in w.t.planes && Slot(w.crtcPlanes[crtc], w.t.planes[id].obj.ty) == id
    requires r.crtcPlanes == w.crtcPlanes && r.unusedCrtcs == w.unusedCrtcs && r.unusedPlanes == w.unusedPlanes
    requires r.t.planeIds == w.t.planeIds && r.t.crtcIds == w.t.crtcIds && r.t.connectorIds == w.t.connectorIds
    requires r.t.crtcs == w.t.crtcs && r.t.planes.Keys == w.t.planes.Keys && r.t.connectors.Keys == w.t.connectors.Keys
    requires forall q :: q in w.t.planes && q != id ==> r.t.planes[q] == w.t.planes[q]
    requires r.t.planes[id].obj == w.t.planes[id].obj
    requires forall j :: j in w.t.connectors && j != k ==> r.t.connectors[j] == w.t.connectors[j]
    requires r.t.connectors[k].obj == w.t.connectors[k].obj && r.t.connectors[k].state == w.t.connectors[k].state
    requires r.t.connectors[k].drm.crtcId == crtc
    ensures Consistent(r) && StepFrame(w, r, k, crtc)
  {
    ConsistentUnderRewrite(w, r);
    forall c, ty | c in w.crtcPlanes && c != crtc && Slot(w.crtcPlanes[c], ty) in w.t.planes
      ensures r.t.planes[Slot(w.crtcPlanes[c], ty)] == w.t.planes[Slot(w.crtcPlanes[c], ty)]
    {
      assert Slot(w.crtcPlanes[c], ty) != id;
    }
  }

  /**
   * The connector's capability checks, in order: VRR needs a VRR-capable
   * display, tearing needs async commits, BT.2020 and PQ need the display's
   * support. The first check that fails gives the error.
   */
  function CapabilityError(k: int, c: ConnectorConfig, env: Env): (r: Option<TransactionError>)
    ensures r.None? <==>
      && (c.state.vrr ==> c.obj.display.vrrCapable)
      && (c.state.tearing ==> env.supportsAsyncCommit)
      && (c.state.colorSpace == Bt2020 ==> c.obj.display.supportsBt2020)
      && (c.state.transferFunction == Pq ==> c.obj.display.supportsPq)
    ensures c.state.vrr && !c.obj.display.vrrCapable ==> r == Some(NotVrrCapable(k))
  {
    var s := c.state;
    var dd := c.obj.display;
    if s.vrr && !dd.vrrCapable then Some(NotVrrCapable(k))
    else if s.tearing && !env.supportsAsyncCommit then Some(TearingNotSupported(k))
    else if s.colorSpace == Bt2020 && !dd.supportsBt2020 then Some(ColorSpaceNotSupported(k, s.colorSpace))
    else if s.transferFunction == Pq && !dd.supportsPq then Some(TransferFunctionNotSupported(k, s.transferFunction))
    else None
  }

  /**
   * After the capability checks pass, VRR as requested is recorded in the
   * CRTC and a color space the connector has is set to the requested one.
   */
  function CheckCapabilities(w: Work, k: int, crtc: int, env: Env): (r: Result<Work, TransactionError>)
    requires Consistent(w) && k in w.t.connectors && crtc in w.t.crtcs
    ensures var e := CapabilityError(k, w.t.connectors[k], env);
      && (r.Err? <==> e.Some?)
      && (r.Err? ==> r.error == e.value)
    ensures r.Ok? ==> (
      var c := w.t.connectors[k];
      && Consistent(r.value) && StepFrame(w, r.value, k, crtc)
      && r.value.t.planes == w.t.planes && r.value.crtcPlanes == w.crtcPlanes
      && r.value.unusedCrtcs == w.unusedCrtcs && r.value.unusedPlanes == w.unusedPlanes
      && r.value.t.crtcs == w.t.crtcs[crtc := w.t.crtcs[crtc].(drm := w.t.crtcs[crtc].drm.(vrrEnabled := c.state.vrr))]
      && r.value.t.connectors == w.t.connectors[k := c.(colorSpace := if c.colorSpace.Some? then Some(c.state.colorSpace) else None)])
  {
    var c := w.t.connectors[k];
    var e := CapabilityError(k, c, env);
    if e.Some? then Err(e.value)
    else
      var cfg := w.t.crtcs[crtc];
      var c' := c.(colorSpace := if c.colorSpace.Some? then Some(c.state.colorSpace) else None);
      var r := w.(t := w.t.(crtcs := w.t.crtcs[crtc := cfg.(drm := cfg.drm.(vrrEnabled := c.state.vrr))],
                            connectors := w.t.connectors[k := c']));
      CapabilitiesFrame(w, k, crtc, r);
      Ok(r)
  }

  lemma CapabilitiesFrame(w: Work, k: int, crtc: int, r: Work)
    requires Consistent(w) && k in w.t.connectors && crtc in w.t.crtcs
    requires var c := w.t.connectors[k];
      var cfg := w.t.crtcs[crtc];
      r == w.(t := w.t.(crtcs := w.t.crtcs[crtc := cfg.(drm := cfg.drm.(vrrEnabled := c.state.vrr))],
                        connectors := w.t.connectors[k := c.(colorSpace := if c.colorSpace.Some? then Some(c.state.colorSpace) else None)]))
    ensures Consistent(r) && StepFrame(w, r, k, crtc)
  {
    ConsistentUnderRewrite(w, r);
    CapabilitiesStep(w, k, crtc, r);
  }

  lemma CapabilitiesStep(w: Work, k: int, crtc: int, r: Work)
    requires k in w.t.connectors && crtc in w.t.crtcs
    requires var c := w.t.connectors[k];
      var cfg := w.t.crtcs[crtc];
      r == w.(t := w.t.(crtcs := w.t.crtcs[crtc := cfg.(drm := cfg.drm.(vrrEnabled := c.state.vrr))],
                        connectors := w.t.connectors[k := c.(colorSpace := if c.colorSpace.Some? then Some(c.state.colorSpace) else None)]))
    ensures StepFrame(w, r, k, crtc)
  {
  }

  /**
   * Keep the CRTC's planes that support the format (`plane_not_supports_format`)
   * and fill its empty primary and cursor slots.
   */
  method PrepareSlots(w: Work, crtc: int, format: nat) returns (r: Work)
    requires Consistent(w) && crtc in w.t.crtcs && crtc !in w.unusedCrtcs
    ensures Consistent(r) && r.t == w.t && r.unusedCrtcs == w.unusedCrtcs
    ensures forall k :: StepFrame(w, r, k, crtc)
    ensures forall ty :: Slot(r.crtcPlanes[crtc], ty) != NONE ==> Supports(r.t.planes[Slot(r.crtcPlanes[crtc], ty)].obj, format)
  {
    var w4 := ValidateSlots(w, crtc, format);
    r := FillSlots(w4, crtc, format);
    forall k ensures StepFrame(w, r, k, crtc) {
      StepFrameTrans(w, w4, r, k, crtc);
    }
  }

  /** The primary, then the cursor slot drop a plane that does not support the format. */
  function ValidateSlots(w: Work, crtc: int, format: nat): (r: Work)
    requires Consistent(w) && crtc in w.crtcPlanes
    ensures Consistent(r) && r.t == w.t && r.unusedCrtcs == w.unusedCrtcs
    ensures forall k :: StepFrame(w, r, k, crtc)
    ensures forall ty :: Slot(r.crtcPlanes[crtc], ty) != NONE ==> Supports(r.t.planes[Slot(r.crtcPlanes[crtc], ty)].obj, format)
  {
    var w3 := ValidateSlot(w, crtc, Primary, format);
    var w4 := ValidateSlot(w3, crtc, Cursor, format);
    assert forall k :: StepFrame(w, w4, k, crtc) by {
      forall k ensures StepFrame(w, w4, k, crtc) {
        StepFrameTrans(w, w3, w4, k, crtc);
      }
    }
    assert Slot(w4.crtcPlanes[crtc], Overlay) == NONE;
    w4
  }

  /** The empty primary, then the empty cursor slot take the first fitting plane. */
  method FillSlots(w: Work, crtc: int, format: nat) returns (r: Work)
    requires Consistent(w) && crtc in w.t.crtcs && crtc !in w.unusedCrtcs
    requires forall ty :: Slot(w.crtcPlanes[crtc], ty) != NONE ==> Supports(w.t.planes[Slot(w.crtcPlanes[crtc], ty)].obj, format)
    ensures Consistent(r) && r.t == w.t && r.unusedCrtcs == w.unusedCrtcs
    ensures forall k :: StepFrame(w, r, k, crtc)
    ensures forall ty :: Slot(r.crtcPlanes[crtc], ty) != NONE ==> Supports(r.t.planes[Slot(r.crtcPlanes[crtc], ty)].obj, format)
  {
    var w5 := FillSlot(w, crtc, Primary, format);
    r := FillSlot(w5, crtc, Cursor, format);
    forall k ensures StepFrame(w, r, k, crtc) {
      StepFrameTrans(w, w5, r, k, crtc);
    }
    assert Slot(w5.crtcPlanes[crtc], Primary) == Slot(r.crtcPlanes[crtc], Primary);
    assert Slot(w.crtcPlanes[crtc], Cursor) == Slot(w5.crtcPlanes[crtc], Cursor);
  }

  /**
   * A lit connector's CRTC: the one it has, or else the first unused one
   * it can drive (`NoCrtcForConnector` when there is none); the CRTC then
   * becomes active as requested and assigned to the connector, and must end
   * up with a primary plane (`NoPrimaryPlaneForConnector`).
   */
  method AttachCrtc(w: Work, k: int) returns (r: Result<Work, TransactionError>, crtc: int)
    requires Consistent(w) && k in w.t.connectors
    ensures crtc == w.t.connectors[k].drm.crtcId || crtc in w.unusedCrtcs
    ensures var c := w.t.connectors[k];
      r == Err(NoCrtcForConnector(k)) <==>
        c.drm.crtcId == NONE && forall i :: 0 <= i < |c.obj.display.crtcs| ==> c.obj.display.crtcs[i] !in w.unusedCrtcs
    ensures r.Err? ==> r.error.NoCrtcForConnector? || r.error.NoPrimaryPlaneForConnector?
    ensures r.Ok? ==> (
      var c := w.t.connectors[k];
      && Consistent(r.value) && StepFrame(w, r.value, k, crtc)
      && crtc in r.value.t.crtcs && crtc != NONE
      && r.value.t.connectors[k] == c.(drm := c.drm.(crtcId := crtc))
      && r.value.t.crtcs[crtc].drm.assignedConnector == k && r.value.t.crtcs[crtc].drm.active == c.state.active
      && r.value.crtcPlanes[crtc].primary != NONE
      && forall ty :: Slot(r.value.crtcPlanes[crtc], ty) != NONE ==>
           Supports(r.value.t.planes[Slot(r.value.crtcPlanes[crtc], ty)].obj, c.state.format))
  {
    var c := w.t.connectors[k];
    crtc := c.drm.crtcId;
    var w1 := w;
    if c.drm.crtcId == NONE {
      var pick := FirstUnusedCrtc(c.obj.display.crtcs, w.unusedCrtcs);
      if pick.None? {
        return Err(NoCrtcForConnector(k)), crtc;
      }
      crtc := pick.value;
      w1 := TakeCrtc(w, k, pick.value);
    } else {
      StepFrameRefl(w, k, crtc);
      assert !Undriven(w.t.connectors, crtc);
    }
    assert crtc in w1.t.crtcs && crtc !in w1.unusedCrtcs;
    var w2 := ActivateCrtc(w1, k);
    StepFrameTrans(w, w1, w2, k, crtc);
    var w3 := PrepareSlots(w2, crtc, c.state.format);
    StepFrameTrans(w, w2, w3, k, crtc);
    if w3.crtcPlanes[crtc].primary == NONE {
      return Err(NoPrimaryPlaneForConnector(k)), crtc;
    }
    return Ok(w3), crtc;
  }

  /** What a step on connector `k` and CRTC `crtc` keeps of the connector and the CRTC's planes. */
  ghost predicate KeepsConnector(w: Work, r: Work, k: int, crtc: int)
    requires k in w.t.connectors
  {
    && Consistent(r) && StepFrame(w, r, k, crtc)
    && r.crtcPlanes == w.crtcPlanes && r.t.crtcs == w.t.crtcs
    && k in r.t.connectors
    && r.t.connectors[k].obj == w.t.connectors[k].obj && r.t.connectors[k].state == w.t.connectors[k].state
    && r.t.connectors[k].drm.crtcId == crtc
  }

  lemma KeepsConnectorTrans(w1: Work, w2: Work, w3: Work, k: int, crtc: int)
    requires k in w1.t.connectors && KeepsConnector(w1, w2, k, crtc) && KeepsConnector(w2, w3, k, crtc)
    ensures KeepsConnector(w1, w3, k, crtc)
  {
    StepFrameTrans(w1, w2, w3, k, crtc);
  }

  /** The primary plane of the CRTC is set up. */
  function SetupPrimary(w: Work, k: int, crtc: int, mode: DrmModeInfo, env: Env, allowDirectScanout: bool)
    : (r: Result<Work, TransactionError>)
    requires Consistent(w) && k in w.t.connectors && crtc in w.t.crtcs
    requires w.t.connectors[k].drm.crtcId == crtc && w.crtcPlanes[crtc].primary != NONE
    requires w.crtcPlanes[crtc].primary in w.t.planes
    requires Supports(w.t.planes[w.crtcPlanes[crtc].primary].obj, w.t.connectors[k].state.format)
    ensures r.Err? ==> r.error == AllocateScanoutBuffers(k)
    ensures r.Ok? ==> KeepsConnector(w, r.value, k, crtc)
    ensures r.Ok? ==> (
      && var cp := w.crtcPlanes[crtc];
      && cp.primary in r.value.t.planes && k in r.value.t.connectors
      && r.value.t.planes[cp.primary].drm.crtcId == crtc
      && r.value.t.planes[cp.primary].drm.assignedCrtc == crtc
      && SameGeometry(r.value.t.connectors[k].drm, r.value.t.planes[cp.primary].drm))
  {
    var cp := w.crtcPlanes[crtc];
    assert Slot(cp, Primary) == cp.primary;
    SetupPlane(w, k, crtc, cp.primary, mode, env, allowDirectScanout)
  }

  /** The cursor plane of the CRTC, when it has one, is set up; the primary plane stays ready. */
  function SetupCursor(w: Work, k: int, crtc: int, mode: DrmModeInfo, env: Env, allowDirectScanout: bool)
    : (r: Result<Work, TransactionError>)
    requires Consistent(w) && k in w.t.connectors && crtc in w.t.crtcs
    requires w.t.connectors[k].drm.crtcId == crtc
    requires var cp := w.crtcPlanes[crtc];
      && cp.primary in w.t.planes
      && w.t.planes[cp.primary].drm.crtcId == crtc
      && w.t.planes[cp.primary].drm.assignedCrtc == crtc
      && SameGeometry(w.t.connectors[k].drm, w.t.planes[cp.primary].drm)
    requires w.crtcPlanes[crtc].cursor != NONE ==>
      w.crtcPlanes[crtc].cursor in w.t.planes &&
      Supports(w.t.planes[w.crtcPlanes[crtc].cursor].obj, w.t.connectors[k].state.format)
    ensures r.Err? ==> r.error == AllocateScanoutBuffers(k)
    ensures r.Ok? ==> KeepsConnector(w, r.value, k, crtc) && PlanesReady(r.value, k, crtc)
  {
    var cp := w.crtcPlanes[crtc];
    if cp.cursor == NONE then
      StepFrameRefl(w, k, crtc);
      Ok(w)
    else
      assert Slot(cp, Cursor) == cp.cursor && Slot(cp, Primary) == cp.primary;
      match SetupPlane(w, k, crtc, cp.cursor, mode, env, allowDirectScanout)
      case Err(e) => Err(e)
      case Ok(r) =>
        assert r.t.planes[cp.primary] == w.t.planes[cp.primary];
        Ok(r)
  }

  /** The CRTC's primary and, when it has one, cursor plane are set up in turn. */
  function SetupPlanes(w: Work, k: int, crtc: int, mode: DrmModeInfo, env: Env, allowDirectScanout: bool)
    : (r: Result<Work, TransactionError>)
    requires Consistent(w) && k in w.t.connectors && crtc in w.t.crtcs
    requires w.t.connectors[k].drm.crtcId == crtc && w.crtcPlanes[crtc].primary != NONE
    requires forall ty :: Slot(w.crtcPlanes[crtc], ty) != NONE ==>
      Supports(w.t.planes[Slot(w.crtcPlanes[crtc], ty)].obj, w.t.connectors[k].state.format)
    ensures r.Err? ==> r.error == AllocateScanoutBuffers(k)
    ensures r.Ok? ==> KeepsConnector(w, r.value, k, crtc) && PlanesReady(r.value, k, crtc)
  {
    var cp := w.crtcPlanes[crtc];
    assert Slot(cp, Primary) == cp.primary && Slot(cp, Cursor) == cp.cursor;
    assert cp.cursor != NONE ==> cp.cursor in w.t.planes;
    match SetupPrimary(w, k, crtc, mode, env, allowDirectScanout)
    case Err(e) => Err(e)
    case Ok(w8) =>
      assert cp.cursor != NONE ==> w8.t.planes[cp.cursor].obj == w.t.planes[cp.cursor].obj;
      match SetupCursor(w8, k, crtc, mode, env, allowDirectScanout)
      case Err(e) => Err(e)
      case Ok(w9) =>
        KeepsConnectorTrans(w, w8, w9, k, crtc);
        Ok(w9)
  }

  /**
   * The CRTC's mode, then its planes. A mode of the requested size and
   * refresh rate must exist (`UnsupportedMode`).
   */
  function ConfigurePlanes(w: Work, k: int, crtc: int, env: Env, allowDirectScanout: bool)
    : (r: Result<Work, TransactionError>)
    requires Consistent(w) && k in w.t.connectors && crtc in w.t.crtcs
    requires w.t.connectors[k].drm.crtcId == crtc && w.crtcPlanes[crtc].primary != NONE
    requires forall ty :: Slot(w.crtcPlanes[crtc], ty) != NONE ==>
      Supports(w.t.planes[Slot(w.crtcPlanes[crtc], ty)].obj, w.t.connectors[k].state.format)
    ensures var c := w.t.connectors[k];
      r.Err? && r.error.UnsupportedMode? ==> forall m :: m in c.obj.display.modes ==> ToBackend(m) != c.state.mode
    ensures r.Err? ==> r.error.UnsupportedMode? || r.error == CreateModeBlob || r.error == AllocateScanoutBuffers(k)
    ensures r.Ok? ==> ModeSet(w, r.value, k, crtc) && PlanesReady(r.value, k, crtc)
  {
    var c := w.t.connectors[k];
    match FindMode(c.obj.display.modes, c.state.mode)
    case None => Err(UnsupportedMode(k, c.state.mode))
    case Some(mode) =>
      match ChooseMode(w, k, crtc, mode, env)
      case Err(e) => Err(e)
      case Ok(w7) =>
        match SetupPlanes(w7, k, crtc, mode, env, allowDirectScanout)
        case Err(e) => Err(e)
        case Ok(w9) =>
          ModeSetAfter(w, w7, w9, k, crtc);
          Ok(w9)
  }

  /**
   * Connector `k` keeps its configuration and drives `crtc`, whose state
   * differs from before only in a mode of the connector's requested form
   * and its blob.
   */
  ghost predicate ModeSet(w: Work, r: Work, k: int, crtc: int)
    requires k in w.t.connectors && crtc in w.t.crtcs
  {
    && k in r.t.connectors && crtc in r.t.crtcs
    && var c := w.t.connectors[k];
    var c' := r.t.connectors[k];
    var now := r.t.crtcs[crtc].drm;
    && Consistent(r) && StepFrame(w, r, k, crtc)
    && r.crtcPlanes == w.crtcPlanes
    && c'.obj == c.obj && c'.state == c.state && c'.drm.crtcId == crtc
    && now == w.t.crtcs[crtc].drm.(mode := now.mode, modeBlobId := now.modeBlobId)
    && now.mode.Some? && now.mode.value.htotal > 0 && now.mode.value.vtotal > 0
    && ToBackend(now.mode.value) == c.state.mode
  }

  lemma ModeSetAfter(w: Work, w7: Work, w9: Work, k: int, crtc: int)
    requires k in w.t.connectors && crtc in w.t.crtcs && w.t.connectors[k].drm.crtcId == crtc
    requires crtc in w7.t.crtcs && StepFrame(w, w7, k, crtc)
    requires w7.t.connectors == w.t.connectors && w7.crtcPlanes == w.crtcPlanes
    requires var now := w7.t.crtcs[crtc].drm;
      && now == w.t.crtcs[crtc].drm.(mode := now.mode, modeBlobId := now.modeBlobId)
      && now.mode.Some? && now.mode.value.htotal > 0 && now.mode.value.vtotal > 0
      && ToBackend(now.mode.value) == w.t.connectors[k].state.mode
    requires KeepsConnector(w7, w9, k, crtc)
    ensures ModeSet(w, w9, k, crtc)
  {
    StepFrameTrans(w, w7, w9, k, crtc);
  }

  /** The connector pass for a lit connector. */
  method ConfigureLit(w: Work, k: int, env: Env, allowDirectScanout: bool)
    returns (r: Result<Work, TransactionError>, crtc: int)
    requires Consistent(w) && k in w.t.connectors && Lit(w.t.connectors[k])
    ensures r.Ok? ==> Consistent(r.value) && Configured(r.value, k) && StepFrame(w, r.value, k, crtc)
    ensures crtc == w.t.connectors[k].drm.crtcId || crtc in w.unusedCrtcs
    ensures var c := w.t.connectors[k];
      r == Err(NoCrtcForConnector(k)) <==>
        c.drm.crtcId == NONE && forall i :: 0 <= i < |c.obj.display.crtcs| ==> c.obj.display.crtcs[i] !in w.unusedCrtcs
    ensures var c := w.t.connectors[k];
      r.Err? && r.error.UnsupportedMode? ==> forall m :: m in c.obj.display.modes ==> ToBackend(m) != c.state.mode
    ensures var c := w.t.connectors[k];
      r.Err? && r.error.NotVrrCapable? ==> c.state.vrr && !c.obj.display.vrrCapable
  {
    var a;
    a, crtc := AttachCrtc(w, k);
    if a.Err? {
      return Err(a.error), crtc;
    }
    r := ConfigureAttached(a.value, k, crtc, env, allowDirectScanout);
    if r.Ok? {
      StepFrameTrans(w, a.value, r.value, k, crtc);
    }
  }

  /** The connector pass for a lit connector once it has its CRTC and planes. */
  function ConfigureAttached(w: Work, k: int, crtc: int, env: Env, allowDirectScanout: bool)
    : (r: Result<Work, TransactionError>)
    requires Consistent(w) && k in w.t.connectors && Lit(w.t.connectors[k])
    requires crtc in w.t.crtcs && crtc != NONE && w.t.connectors[k].drm.crtcId == crtc
    requires w.t.crtcs[crtc].drm.assignedConnector == k
    requires w.t.crtcs[crtc].drm.active == w.t.connectors[k].state.active
    requires w.crtcPlanes[crtc].primary != NONE
    requires forall ty :: Slot(w.crtcPlanes[crtc], ty) != NONE ==>
      Supports(w.t.planes[Slot(w.crtcPlanes[crtc], ty)].obj, w.t.connectors[k].state.format)
    ensures r.Ok? ==> Consistent(r.value) && Configured(r.value, k) && StepFrame(w, r.value, k, crtc)
    ensures r.Err? ==> !r.error.NoCrtcForConnector?
    ensures var c := w.t.connectors[k];
      r.Err? && r.error.UnsupportedMode? ==> forall m :: m in c.obj.display.modes ==> ToBackend(m) != c.state.mode
    ensures var c := w.t.connectors[k];
      r.Err? && r.error.NotVrrCapable? ==> c.state.vrr && !c.obj.display.vrrCapable
  {
    match ConfigurePlanes(w, k, crtc, env, allowDirectScanout)
    case Err(e) => Err(e)
    case Ok(p) =>
      match FinishConnector(p, k, crtc, env)
      case Err(e) => Err(e)
      case Ok(r) =>
        StepFrameTrans(w, p, r, k, crtc);
        Ok(r)
  }

  /** The capability checks that end the connector pass for a lit connector. */
  function FinishConnector(p: Work, k: int, crtc: int, env: Env): (r: Result<Work, TransactionError>)
    requires Consistent(p) && k in p.t.connectors && crtc in p.t.crtcs && crtc in p.crtcPlanes
    requires Lit(p.t.connectors[k])
    requires var c := p.t.connectors[k];
      var now := p.t.crtcs[crtc].drm;
      && c.drm.crtcId == crtc
      && now.assignedConnector == k && now.active == c.state.active
      && now.mode.Some? && now.mode.value.htotal > 0 && now.mode.value.vtotal > 0
      && ToBackend(now.mode.value) == c.state.mode
      && PlanesReady(p, k, crtc)
    ensures r.Ok? ==> Consistent(r.value) && Configured(r.value, k) && StepFrame(p, r.value, k, crtc)
    ensures r.Err? ==> CapabilityError(k, p.t.connectors[k], env) == Some(r.error)
    ensures r.Err? ==> !r.error.NoCrtcForConnector? && !r.error.UnsupportedMode?
    ensures var c := p.t.connectors[k];
      r.Err? && r.error.NotVrrCapable? ==> c.state.vrr && !c.obj.display.vrrCapable
  {
    match CheckCapabilities(p, k, crtc, env)
    case Err(e) => Err(e)
    case Ok(r) =>
      ConfiguredAfterSteps(p, r, k, crtc);
      Ok(r)
  }

  /**
   * The connector pass for one connector (the body of
   * `for connector in slf.connectors.values_mut()`): an unlit connector is
   * released; a lit one gets its CRTC and planes, its mode and plane
   * states, and its capabilities checked. The returned `crtc` is the CRTC
   * the step is about.
   */
  method ConfigureConnector(w: Work, k: int, env: Env, allowDirectScanout: bool)
    returns (r: Result<Work, TransactionError>, crtc: int)
    requires Consistent(w) && k in w.t.connectors
    ensures r.Ok? ==> Consistent(r.value) && Configured(r.value, k) && StepFrame(w, r.value, k, crtc)
    ensures crtc == w.t.connectors[k].drm.crtcId || crtc in w.unusedCrtcs
    ensures r.Err? ==> Lit(w.t.connectors[k])
    ensures var c := w.t.connectors[k];
      r == Err(NoCrtcForConnector(k)) <==>
        Lit(c) && c.drm.crtcId == NONE && forall i :: 0 <= i < |c.obj.display.crtcs| ==> c.obj.display.crtcs[i] !in w.unusedCrtcs
    ensures var c := w.t.connectors[k];
      r.Err? && r.error.UnsupportedMode? ==> forall m :: m in c.obj.display.modes ==> ToBackend(m) != c.state.mode
    ensures var c := w.t.connectors[k];
      r.Err? && r.error.NotVrrCapable? ==> c.state.vrr && !c.obj.display.vrrCapable
  {
    if !Lit(w.t.connectors[k]) {
      crtc := w.t.connectors[k].drm.crtcId;
      r := Ok(ReleaseConnector(w, k));
    } else {
      r, crtc := ConfigureLit(w, k, env, allowDirectScanout);
    }
  }

  lemma ConfiguredAfterSteps(p: Work, r: Work, k: int, crtc: int)
    requires Consistent(p) && k in p.t.connectors && crtc in p.t.crtcs && crtc in p.crtcPlanes
    requires Lit(p.t.connectors[k])
    requires var c := p.t.connectors[k];
      var cp := p.crtcPlanes[crtc];
      var now := p.t.crtcs[crtc].drm;
      && c.drm.crtcId == crtc
      && now.assignedConnector == k && now.active == c.state.active
      && now.mode.Some? && now.mode.value.htotal > 0 && now.mode.value.vtotal > 0
      && ToBackend(now.mode.value) == c.state.mode
      && PlanesReady(p, k, crtc)
    requires var c := p.t.connectors[k];
      && r.t.planes == p.t.planes && r.crtcPlanes == p.crtcPlanes
      && r.t.crtcs == p.t.crtcs[crtc := p.t.crtcs[crtc].(drm := p.t.crtcs[crtc].drm.(vrrEnabled := c.state.vrr))]
      && r.t.connectors == p.t.connectors[k := c.(colorSpace := if c.colorSpace.Some? then Some(c.state.colorSpace) else None)]
    ensures Configured(r, k)
  {
  }

  /** After the first two passes the connector pass may start. */
  lemma ConsistentAfterPasses(w: Work)
    requires Wf(w.t) && CrtcsExclusive(w.t.connectors)
    requires w.crtcPlanes.Keys == w.t.crtcs.Keys
    requires forall c :: c in w.unusedCrtcs <==> c in w.t.crtcs && Undriven(w.t.connectors, c)
    requires PlanesSorted(w, w.t.planes.Keys)
    ensures Consistent(w)
  {
    forall c | c in w.unusedCrtcs && c in w.crtcPlanes
      ensures w.crtcPlanes[c] == NoPlanes
    {
      var cp := w.crtcPlanes[c];
      if Slot(cp, Primary) != NONE || Slot(cp, Cursor) != NONE {
        assert false;
      }
    }
    forall p | p in w.t.planes
      ensures p in w.unusedPlanes || InSlot(w, p)
    {
      if p !in w.unusedPlanes {
        var c := w.t.planes[p].drm.assignedCrtc;
        if w.t.planes[p].obj.ty == Primary {
          assert Slot(w.crtcPlanes[c], Primary) == w.crtcPlanes[c].primary;
        } else {
          assert Slot(w.crtcPlanes[c], Cursor) == w.crtcPlanes[c].cursor;
        }
      }
    }
  }

  /** What the connector pass keeps of the transaction's shape. */
  ghost predicate SameShape(w: Work, r: Work)
  {
    && r.t.planeIds == w.t.planeIds && r.t.crtcIds == w.t.crtcIds && r.t.connectorIds == w.t.connectorIds
    && r.t.planes.Keys == w.t.planes.Keys && r.t.crtcs.Keys == w.t.crtcs.Keys
    && r.t.connectors.Keys == w.t.connectors.Keys
    && (forall p :: p in w.t.planes ==> r.t.planes[p].obj == w.t.planes[p].obj)
    && (forall j :: j in w.t.connectors ==>
          r.t.connectors[j].obj == w.t.connectors[j].obj && r.t.connectors[j].state == w.t.connectors[j].state)
  }

  /**
   * The connector pass over all connectors in ascending id order; the
   * first error ends the transaction. Afterwards every connector is
   * handled.
   */
  method ConfigureConnectors(w0: Work, env: Env, allowDirectScanout: bool)
    returns (r: Result<Work, TransactionError>)
    requires Consistent(w0)
    ensures r.Ok? ==> Consistent(r.value) && SameShape(w0, r.value)
    ensures r.Ok? ==> forall k :: k in r.value.t.connectors ==> Configured(r.value, k)
    ensures r.Err? ==> exists k :: k in w0.t.connectors && Lit(w0.t.connectors[k])
  {
    var w := w0;
    var i := 0;
    while i < |w0.t.connectorIds|
      invariant 0 <= i <= |w0.t.connectorIds|
      invariant Consistent(w) && SameShape(w0, w)
      invariant forall n :: 0 <= n < i ==> Configured(w, w0.t.connectorIds[n])
    {
      var k := w0.t.connectorIds[i];
      var next, crtc := ConfigureConnector(w, k, env, allowDirectScanout);
      if next.Err? {
        return Err(next.error);
      }
      ConfiguredStep(w0, w, next.value, i, crtc);
      w := next.value;
      i := i + 1;
    }
    forall k | k in w.t.connectors
      ensures Configured(w, k)
    {
      var n :| 0 <= n < |w0.t.connectorIds| && w0.t.connectorIds[n] == k;
    }
    return Ok(w);
  }

  /** One more connector of the pass is handled and the earlier ones stay handled. */
  lemma ConfiguredStep(w0: Work, w: Work, next: Work, i: nat, crtc: int)
    requires Consistent(w0) && i < |w0.t.connectorIds|
    requires Consistent(w) && SameShape(w0, w)
    requires forall n :: 0 <= n < i ==> Configured(w, w0.t.connectorIds[n])
    requires var k := w0.t.connectorIds[i];
      && Consistent(next) && Configured(next, k) && StepFrame(w, next, k, crtc)
      && (crtc == w.t.connectors[k].drm.crtcId || crtc in w.unusedCrtcs)
    ensures Consistent(next) && SameShape(w0, next)
    ensures forall n :: 0 <= n < i + 1 ==> Configured(next, w0.t.connectorIds[n])
  {
    var k := w0.t.connectorIds[i];
    forall n | 0 <= n < i
      ensures Configured(next, w0.t.connectorIds[n])
    {
      assert w0.t.connectorIds[n] != k;
      ConfiguredFrame(w, next, k, crtc, w0.t.connectorIds[n]);
    }
  }

  // ---------------------------------------------------------------------
  // calculate_drm_state, the reset of unused CRTCs and planes
  // ---------------------------------------------------------------------

  /** `t` is `w`'s transaction with the unused CRTCs and planes reset to their defaults. */
  ghost predicate ResetOf(w: Work, t: TransactionCommon)
  {
    && t.planeIds == w.t.planeIds && t.crtcIds == w.t.crtcIds && t.connectorIds == w.t.connectorIds
    && t.connectors == w.t.connectors
    && t.crtcs.Keys == w.t.crtcs.Keys && t.planes.Keys == w.t.planes.Keys
    && (forall c :: c in t.crtcs ==>
          t.crtcs[c] == if c in w.unusedCrtcs then w.t.crtcs[c].(drm := DefaultCrtc) else w.t.crtcs[c])
    && (forall p :: p in t.planes ==>
          t.planes[p] == if p in w.unusedPlanes then w.t.planes[p].(drm := DefaultPlane, buffers := None) else w.t.planes[p])
  }

  /**
   * `crtc.new = DrmCrtcState::default()` for every unused CRTC of the
   * transaction, visited in ascending id order (`ids`).
   */
  method ResetCrtcs(crtcs: map<int, CrtcConfig>, ids: seq<int>, unused: set<int>) returns (r: map<int, CrtcConfig>)
    requires forall c :: c in crtcs ==> c in ids
    ensures r.Keys == crtcs.Keys
    ensures forall c :: c in r ==> r[c] == if c in unused then crtcs[c].(drm := DefaultCrtc) else crtcs[c]
  {
    r := crtcs;
    var i := 0;
    while i < |ids|
      invariant 0 <= i <= |ids| && r.Keys == crtcs.Keys
      invariant forall c :: c in r ==>
        r[c] == if c in unused && c in ids[..i] then crtcs[c].(drm := DefaultCrtc) else crtcs[c]
    {
      assert ids[..i + 1] == ids[..i] + [ids[i]];
      var c := ids[i];
      if c in unused && c in r {
        r := r[c := crtcs[c].(drm := DefaultCrtc)];
      }
      i := i + 1;
    }
    assert ids[..i] == ids;
  }

  /**
   * `plane.new = DrmPlaneState::default()` for every unused plane of the
   * transaction, visited in ascending id order (`ids`).
   */
  method ResetPlanes(planes: map<int, PlaneConfig>, ids: seq<int>, unused: set<int>) returns (r: map<int, PlaneConfig>)
    requires forall p :: p in planes ==> p in ids
    ensures r.Keys == planes.Keys
    ensures forall p :: p in r ==>
      r[p] == if p in unused then planes[p].(drm := DefaultPlane, buffers := None) else planes[p]
  {
    r := planes;
    var i := 0;
    while i < |ids|
      invariant 0 <= i <= |ids| && r.Keys == planes.Keys
      invariant forall p :: p in r ==>
        r[p] == if p in unused && p in ids[..i] then planes[p].(drm := DefaultPlane, buffers := None) else planes[p]
    {
      assert ids[..i + 1] == ids[..i] + [ids[i]];
      var p := ids[i];
      if p in unused && p in r {
        r := r[p := planes[p].(drm := DefaultPlane, buffers := None)];
      }
      i := i + 1;
    }
    assert ids[..i] == ids;
  }

  // ---------------------------------------------------------------------
  // calculate_drm_state, the result
  // ---------------------------------------------------------------------

  /** Connector `k` is lit and drives CRTC `c`. */
  ghost predicate DrivenBy(t: TransactionCommon, c: int, k: int)
  {
    k in t.connectors && Lit(t.connectors[k]) && t.connectors[k].drm.crtcId == c
  }

  /**
   * An unlit connector has the default state; a lit one drives a CRTC that
   * is assigned to it, active and with VRR as requested, running a mode of
   * the requested size and refresh rate, and a primary plane is attached to
   * that CRTC with the geometry the connector records.
   */
  ghost predicate ConnectorSettled(t: TransactionCommon, k: int)
    requires k in t.connectors
  {
    var c := t.connectors[k];
    if !Lit(c) then c.drm == DefaultConnector
    else
      && c.drm.crtcId in t.crtcs
      && var s := t.crtcs[c.drm.crtcId].drm;
         && s.assignedConnector == k && s.active == c.state.active && s.vrrEnabled == c.state.vrr
         && s.mode.Some? && s.mode.value.htotal > 0 && s.mode.value.vtotal > 0
         && ToBackend(s.mode.value) == c.state.mode
         && exists p :: p in t.planes && t.planes[p].obj.ty == Primary
              && t.planes[p].drm.crtcId == c.drm.crtcId && t.planes[p].drm.assignedCrtc == c.drm.crtcId
              && SameGeometry(c.drm, t.planes[p].drm)
  }

  /** A CRTC is reset or driven by the lit connector it is assigned to. */
  ghost predicate CrtcSettled(t: TransactionCommon, c: int)
    requires c in t.crtcs
  {
    t.crtcs[c].drm == DefaultCrtc || DrivenBy(t, c, t.crtcs[c].drm.assignedConnector)
  }

  /** A plane is reset, or a primary or cursor plane of a CRTC that a lit connector drives. */
  ghost predicate PlaneSettled(t: TransactionCommon, p: int)
    requires p in t.planes
  {
    var d := t.planes[p].drm;
    || (d == DefaultPlane && t.planes[p].buffers.None?)
    || (&& t.planes[p].obj.ty != Overlay && d.assignedCrtc in t.crtcs
        && DrivenBy(t, d.assignedCrtc, t.crtcs[d.assignedCrtc].drm.assignedConnector))
  }

  /** No two planes of one type are assigned to the same CRTC. */
  ghost predicate PlanesUnique(t: TransactionCommon)
  {
    forall p, q :: p in t.planes && q in t.planes && t.planes[p].drm.assignedCrtc != NONE
      && t.planes[p].drm.assignedCrtc == t.planes[q].drm.assignedCrtc && t.planes[p].obj.ty == t.planes[q].obj.ty
      ==> p == q
  }

  /** The state `calculate_drm_state` computes. */
  ghost predicate Settled(t: TransactionCommon)
  {
    && Wf(t) && CrtcsExclusive(t.connectors)
    && (forall k :: k in t.connectors ==> ConnectorSettled(t, k))
    && (forall c :: c in t.crtcs ==> CrtcSettled(t, c))
    && (forall p :: p in t.planes ==> PlaneSettled(t, p))
    && PlanesUnique(t)
  }

  /** The state at the end of the connector pass. */
  ghost predicate PassDone(w: Work)
  {
    Consistent(w) && forall k :: k in w.t.connectors ==> Configured(w, k)
  }

  /** A used CRTC is driven by a lit connector, the one it is assigned to. */
  lemma DriverOf(w: Work, c: int) returns (k: int)
    requires PassDone(w) && c in w.t.crtcs && c !in w.unusedCrtcs
    ensures DrivenBy(w.t, c, k) && w.t.crtcs[c].drm.assignedConnector == k
  {
    assert !Undriven(w.t.connectors, c);
    k :| k in w.t.connectors && w.t.connectors[k].drm.crtcId == c;
    assert Configured(w, k);
  }

  /**
   * A plane in use is the primary or cursor plane of a used CRTC, which
   * a lit connector drives, and the plane is assigned to that CRTC.
   */
  lemma SlotOf(w: Work, p: int) returns (c: int, k: int)
    requires PassDone(w) && p in w.t.planes && p !in w.unusedPlanes
    ensures c in w.t.crtcs && c in w.crtcPlanes && c !in w.unusedCrtcs
    ensures w.t.planes[p].obj.ty != Overlay && Slot(w.crtcPlanes[c], w.t.planes[p].obj.ty) == p
    ensures w.t.planes[p].drm.assignedCrtc == c
    ensures DrivenBy(w.t, c, k) && w.t.crtcs[c].drm.assignedConnector == k
  {
    assert InSlot(w, p);
    c :| c in w.crtcPlanes && (w.crtcPlanes[c].primary == p || w.crtcPlanes[c].cursor == p);
    var ty := if w.crtcPlanes[c].primary == p then Primary else Cursor;
    assert Slot(w.crtcPlanes[c], ty) == p;
    if c in w.unusedCrtcs {
      assert false;
    }
    k := DriverOf(w, c);
    assert Configured(w, k);
    assert PlanesReady(w, k, c);
  }

  lemma SettledConnectors(w: Work, t: TransactionCommon)
    requires PassDone(w) && ResetOf(w, t)
    ensures forall k :: k in t.connectors ==> ConnectorSettled(t, k)
  {
    forall k | k in t.connectors
      ensures ConnectorSettled(t, k)
    {
      assert Configured(w, k);
      var c := w.t.connectors[k];
      if Lit(c) {
        var crtc := c.drm.crtcId;
        assert !Undriven(w.t.connectors, crtc);
        var p := w.crtcPlanes[crtc].primary;
        assert PlanesReady(w, k, crtc);
        assert Slot(w.crtcPlanes[crtc], Primary) == p;
        assert t.planes[p] == w.t.planes[p];
      }
    }
  }

  lemma SettledCrtcs(w: Work, t: TransactionCommon)
    requires PassDone(w) && ResetOf(w, t)
    ensures forall c :: c in t.crtcs ==> CrtcSettled(t, c)
  {
    forall c | c in t.crtcs
      ensures CrtcSettled(t, c)
    {
      if c !in w.unusedCrtcs {
        var k := DriverOf(w, c);
      }
    }
  }

  lemma SettledPlanes(w: Work, t: TransactionCommon)
    requires PassDone(w) && ResetOf(w, t)
    ensures forall p :: p in t.planes ==> PlaneSettled(t, p)
  {
    forall p | p in t.planes
      ensures PlaneSettled(t, p)
    {
      if p !in w.unusedPlanes {
        var c, k := SlotOf(w, p);
      }
    }
  }

  lemma SettledUnique(w: Work, t: TransactionCommon)
    requires PassDone(w) && ResetOf(w, t)
    ensures PlanesUnique(t)
  {
    forall p, q | p in t.planes && q in t.planes && t.planes[p].drm.assignedCrtc != NONE
      && t.planes[p].drm.assignedCrtc == t.planes[q].drm.assignedCrtc && t.planes[p].obj.ty == t.planes[q].obj.ty
      ensures p == q
    {
      var cp, kp := SlotOf(w, p);
      var cq, kq := SlotOf(w, q);
    }
  }

  /** Resetting the unused CRTCs and planes after the connector pass gives the settled state. */
  lemma SettledAfterReset(w: Work, t: TransactionCommon)
    requires PassDone(w) && ResetOf(w, t)
    ensures Settled(t)
  {
    SettledConnectors(w, t);
    SettledCrtcs(w, t);
    SettledPlanes(w, t);
    SettledUnique(w, t);
  }

  /**
   * `calculate_drm_state`: the plane pass, the connector pass, then the
   * reset of everything left unused. On success every lit connector
   * drives a CRTC assigned to it with the requested mode and a primary
   * plane, every unlit connector is reset, and every CRTC and plane is
   * either reset or used by a lit connector. The first failing connector
   * ends the computation with its error.
   */
  method CalculateDrmState(t: TransactionCommon, env: Env, allowDirectScanout: bool)
    returns (r: Result<TransactionCommon, TransactionError>)
    requires Wf(t) && CrtcsExclusive(t.connectors)
    ensures r.Ok? ==> Settled(r.value)
    ensures r.Ok? ==> SameShape(Work(t, {}, {}, map[]), Work(r.value, {}, {}, map[]))
    ensures r.Err? ==> exists k :: k in t.connectors && Lit(t.connectors[k])
  {
    var w := FirstPasses(t);
    var done := ConfigureConnectors(w, env, allowDirectScanout);
    if done.Err? {
      return Err(done.error);
    }
    var d := done.value;
    var settled := ResetUnused(d);
    r := Ok(settled);
    assert SameShape(Work(t, {}, {}, map[]), w);
    assert SameShape(Work(t, {}, {}, map[]), d);
  }

  /** The CRTC pass and the plane pass. */
  method FirstPasses(t: TransactionCommon) returns (w: Work)
    requires Wf(t) && CrtcsExclusive(t.connectors)
    ensures Consistent(w) && w.t.connectors == t.connectors
    ensures SameShape(Work(t, {}, {}, map[]), w)
  {
    var unused, crtcPlanes := CollectCrtcs(t);
    w := SortPlanes(Work(t, unused, {}, crtcPlanes));
    ConsistentAfterPasses(w);
  }

  /** The last pass: reset the unused CRTCs and planes. */
  method ResetUnused(d: Work) returns (t: TransactionCommon)
    requires PassDone(d)
    ensures Settled(t) && SameShape(d, Work(t, {}, {}, map[]))
  {
    var crtcs := ResetCrtcs(d.t.crtcs, d.t.crtcIds, d.unusedCrtcs);
    var planes := ResetPlanes(d.t.planes, d.t.planeIds, d.unusedPlanes);
    t := d.t.(crtcs := crtcs, planes := planes);
    SettledAfterReset(d, t);
  }

  // ---------------------------------------------------------------------
  // apply
  // ---------------------------------------------------------------------

  /**
   * The atomic commit of `apply`: a non-empty change is first committed
   * without a modeset and, when the kernel refuses that, once more with
   * `DRM_MODE_ATOMIC_ALLOW_MODESET`; a failure of the second commit is
   * `AtomicCommitFailed` with its errno. `commit(flags)` is the kernel's
   * answer to a commit with `flags` (`None` for success).
   */
  function CommitChange(changeEmpty: bool, commit: nat -> Option<nat>): (r: Result<(), TransactionError>)
    ensures r.Ok? <==> changeEmpty || commit(0).None? || commit(ALLOW_MODESET).None?
    ensures r.Err? ==> commit(ALLOW_MODESET).Some? && r.error == AtomicCommitFailed(commit(ALLOW_MODESET).value)
  {
    if changeEmpty then Ok(())
    else match commit(0)
      case None => Ok(())
      case Some(_) =>
        match commit(ALLOW_MODESET)
        case None => Ok(())
        case Some(errno) => Err(AtomicCommitFailed(errno))
  }

  /** The commit with a modeset is only tried after the commit without one failed. */
  function CommitFlags(changeEmpty: bool, commit: nat -> Option<nat>): (flags: seq<nat>)
    ensures |flags| <= 2 && (changeEmpty <==> flags == [])
    ensures forall i :: 0 <= i < |flags| ==> (flags[i] == ALLOW_MODESET <==> i == 1)
    ensures |flags| == 2 ==> commit(0).Some?
    ensures CommitChange(changeEmpty, commit).Err? ==> |flags| == 2
  {
    if changeEmpty then [] else if commit(0).None? then [0] else [0, ALLOW_MODESET]
  }

  /**
   * What `apply` may unwrap: a plane assigned to a CRTC is a primary or
   * cursor plane, and its CRTC is in the transaction and assigned to one
   * of the transaction's connectors; a connector with a CRTC has one
   * assigned to it.
   */
  ghost predicate ApplyReady(t: TransactionCommon)
  {
    && Wf(t)
    && (forall p :: p in t.planes && t.planes[p].drm.assignedCrtc != NONE ==>
          && t.planes[p].obj.ty != Overlay
          && t.planes[p].drm.assignedCrtc in t.crtcs
          && t.crtcs[t.planes[p].drm.assignedCrtc].drm.assignedConnector != NONE)
    && (forall c :: c in t.crtcs && t.crtcs[c].drm.assignedConnector != NONE ==>
          t.crtcs[c].drm.assignedConnector in t.connectors)
    && (forall k :: k in t.connectors && t.connectors[k].drm.crtcId != NONE ==>
          t.connectors[k].drm.crtcId in t.crtcs && t.crtcs[t.connectors[k].drm.crtcId].drm.assignedConnector != NONE)
  }

  /** The state `calculate_drm_state` computes is one `apply` can take. */
  lemma SettledIsApplyReady(t: TransactionCommon)
    requires Settled(t) && NONE !in t.connectors
    ensures ApplyReady(t)
  {
    forall k | k in t.connectors && t.connectors[k].drm.crtcId != NONE
      ensures t.connectors[k].drm.crtcId in t.crtcs && t.crtcs[t.connectors[k].drm.crtcId].drm.assignedConnector != NONE
    {
      assert ConnectorSettled(t, k);
    }
  }

  /** The last plane in `ids` of type `ty` assigned to CRTC `c`, or `NONE`. */
  function LastAssigned(ids: seq<int>, planes: map<int, PlaneConfig>, c: int, ty: PlaneType): (r: int)
    ensures r == NONE || (r in planes && planes[r].drm.assignedCrtc == c && planes[r].obj.ty == ty)
    ensures r != NONE ==> r in ids
    ensures r == NONE && NONE !in planes ==>
      forall i :: 0 <= i < |ids| && ids[i] in planes ==> planes[ids[i]].drm.assignedCrtc != c || planes[ids[i]].obj.ty != ty
    decreases |ids|
  {
    if ids == [] then NONE
    else
      var last := ids[|ids| - 1];
      if last != NONE && last in planes && planes[last].drm.assignedCrtc == c && planes[last].obj.ty == ty then last
      else LastAssigned(ids[..|ids| - 1], planes, c, ty)
  }

  /** When one plane of a type is assigned to a CRTC, it is the last one. */
  lemma {:induction false} LastAssignedUnique(ids: seq<int>, planes: map<int, PlaneConfig>, c: int, ty: PlaneType, p: int)
    requires p in ids && p != NONE && p in planes && planes[p].drm.assignedCrtc == c && planes[p].obj.ty == ty
    requires forall q :: q in planes && planes[q].drm.assignedCrtc == c && planes[q].obj.ty == ty ==> q == p
    ensures LastAssigned(ids, planes, c, ty) == p
    decreases |ids|
  {
    var last := ids[|ids| - 1];
    if last == p {
    } else {
      assert ids == ids[..|ids| - 1] + [last];
      assert p in ids[..|ids| - 1];
      LastAssignedUnique(ids[..|ids| - 1], planes, c, ty, p);
    }
  }

  /**
   * The primary and cursor plane of each CRTC with a connector: the last
   * plane of that type assigned to it.
   */
  ghost function PlanesMap(t: TransactionCommon): map<int, CrtcPlanes>
  {
    map c | c in t.crtcs && t.crtcs[c].drm.assignedConnector != NONE ::
      CrtcPlanes(LastAssigned(t.planeIds, t.planes, c, Primary), LastAssigned(t.planeIds, t.planes, c, Cursor))
  }

  /**
   * The first two loops of `apply`: every CRTC with a connector gets an
   * entry, and each plane assigned to a CRTC becomes its primary or cursor
   * plane, the later plane in id order winning.
   */
  method PlanesByCrtc(t: TransactionCommon) returns (m: map<int, CrtcPlanes>)
    requires ApplyReady(t)
    ensures forall c :: c in m <==> c in t.crtcs && t.crtcs[c].drm.assignedConnector != NONE
    ensures forall c, ty :: c in m && ty != Overlay ==> Slot(m[c], ty) == LastAssigned(t.planeIds, t.planes, c, ty)
    ensures m == PlanesMap(t)
  {
    m := ConnectedCrtcs(t);
    m := AssignPlanes(t, m);
    forall c | c in m
      ensures m[c] == PlanesMap(t)[c]
    {
      assert Slot(m[c], Primary) == m[c].primary && Slot(m[c], Cursor) == m[c].cursor;
    }
  }

  /** The first loop of `apply`: an empty entry for every CRTC with a connector. */
  method ConnectedCrtcs(t: TransactionCommon) returns (m: map<int, CrtcPlanes>)
    requires Wf(t)
    ensures forall c :: c in m <==> c in t.crtcs && t.crtcs[c].drm.assignedConnector != NONE
    ensures forall c :: c in m ==> m[c] == NoPlanes
  {
    m := map[];
    var i := 0;
    while i < |t.crtcIds|
      invariant 0 <= i <= |t.crtcIds|
      invariant forall c :: c in m <==> c in t.crtcIds[..i] && t.crtcs[c].drm.assignedConnector != NONE
      invariant forall c :: c in m ==> m[c] == NoPlanes
    {
      assert t.crtcIds[..i + 1] == t.crtcIds[..i] + [t.crtcIds[i]];
      var c := t.crtcIds[i];
      if t.crtcs[c].drm.assignedConnector != NONE {
        m := m[c := NoPlanes];
      }
      i := i + 1;
    }
    assert t.crtcIds[..i] == t.crtcIds;
  }

  /** The second loop of `apply`: each assigned plane fills its CRTC's slot of its type. */
  method AssignPlanes(t: TransactionCommon, m0: map<int, CrtcPlanes>) returns (m: map<int, CrtcPlanes>)
    requires ApplyReady(t)
    requires forall c :: c in m0 <==> c in t.crtcs && t.crtcs[c].drm.assignedConnector != NONE
    requires forall c :: c in m0 ==> m0[c] == NoPlanes
    ensures m.Keys == m0.Keys
    ensures forall c, ty :: c in m && ty != Overlay ==> Slot(m[c], ty) == LastAssigned(t.planeIds, t.planes, c, ty)
  {
    m := m0;
    var j := 0;
    while j < |t.planeIds|
      invariant 0 <= j <= |t.planeIds|
      invariant m.Keys == m0.Keys
      invariant forall c, ty :: c in m && ty != Overlay ==> Slot(m[c], ty) == LastAssigned(t.planeIds[..j], t.planes, c, ty)
    {
      var p := t.planeIds[j];
      forall c, ty {
        LastAssignedStep(t.planeIds, j, t.planes, c, ty);
      }
      var a := t.planes[p].drm.assignedCrtc;
      if a != NONE {
        m := m[a := SetSlot(m[a], t.planes[p].obj.ty, p)];
      }
      j := j + 1;
    }
    assert t.planeIds[..j] == t.planeIds;
  }

  /** Extending the ids by one plane: that plane wins where it matches. */
  lemma LastAssignedStep(ids: seq<int>, j: nat, planes: map<int, PlaneConfig>, c: int, ty: PlaneType)
    requires j < |ids|
    ensures LastAssigned(ids[..j + 1], planes, c, ty) ==
      if ids[j] != NONE && ids[j] in planes && planes[ids[j]].drm.assignedCrtc == c && planes[ids[j]].obj.ty == ty
      then ids[j] else LastAssigned(ids[..j], planes, c, ty)
  {
    assert ids[..j + 1][..j] == ids[..j];
  }

  /** The planes of `m` are planes of the transaction. */
  ghost predicate PlanesKnown(t: TransactionCommon, m: map<int, CrtcPlanes>)
  {
    forall x :: x in m ==>
      (m[x].primary != NONE ==> m[x].primary in t.planes) && (m[x].cursor != NONE ==> m[x].cursor in t.planes)
  }

  /** The objects a connector links to after `apply`: its CRTC and its primary and cursor planes. */
  datatype Links = Links(crtc: int, primaryPlane: int, cursorPlane: int)

  const NoLinks := Links(NONE, NONE, NONE)

  /**
   * The third loop of `apply` for one connector: a changed connector
   * without a CRTC loses its links and buffers; a changed connector with a
   * CRTC links to it and to its planes, takes their buffers and shows their
   * framebuffers; a missing plane clears the corresponding link, buffers
   * and framebuffer. An unchanged connector keeps everything.
   */
  function LinkConnector(t: TransactionCommon, m: map<int, CrtcPlanes>, c: ConnectorConfig, links: Links)
    : (r: (ConnectorConfig, Links))
    requires c.drm.crtcId != NONE ==> c.drm.crtcId in m
    requires PlanesKnown(t, m)
    ensures !c.changed ==> r == (c, links)
    ensures r.0.state == c.state && r.0.requested == c.requested && r.0.changed == c.changed
    ensures r.0.drm == c.drm.(fb := r.0.drm.fb, cursorFb := r.0.drm.cursorFb)
    ensures c.changed && c.drm.crtcId == NONE ==>
      r.1 == NoLinks && r.0.obj.buffers.None? && r.0.obj.cursorBuffers.None? && r.0.drm == c.drm
    ensures c.changed && c.drm.crtcId != NONE ==> (
      var cp := m[c.drm.crtcId];
      && r.1 == Links(c.drm.crtcId, cp.primary, cp.cursor)
      && (cp.primary == NONE ==> r.0.obj.buffers.None? && r.0.drm.fb == NONE)
      && (cp.primary != NONE ==>
            r.0.obj.buffers == t.planes[cp.primary].buffers && r.0.drm.fb == t.planes[cp.primary].drm.fbId)
      && (cp.cursor == NONE ==> r.0.obj.cursorBuffers.None? && r.0.drm.cursorFb == NONE)
      && (cp.cursor != NONE ==>
            r.0.obj.cursorBuffers == t.planes[cp.cursor].buffers && r.0.drm.cursorFb == t.planes[cp.cursor].drm.fbId))
  {
    if !c.changed then (c, links)
    else if c.drm.crtcId == NONE then
      (c.(obj := c.obj.(buffers := None, cursorBuffers := None)), NoLinks)
    else
      var cp := m[c.drm.crtcId];
      var buffers := if cp.primary == NONE then None else t.planes[cp.primary].buffers;
      var fb := if cp.primary == NONE then NONE else t.planes[cp.primary].drm.fbId;
      var cursorBuffers := if cp.cursor == NONE then None else t.planes[cp.cursor].buffers;
      var cursorFb := if cp.cursor == NONE then NONE else t.planes[cp.cursor].drm.fbId;
      (c.(obj := c.obj.(buffers := buffers, cursorBuffers := cursorBuffers),
          drm := c.drm.(fb := fb, cursorFb := cursorFb)),
       Links(c.drm.crtcId, cp.primary, cp.cursor))
  }

  /** What `apply` leaves behind: the new transaction state and the links of CRTCs and connectors. */
  datatype Applied = Applied(t: TransactionCommon, crtcConnector: map<int, int>, links: map<int, Links>)

  /**
   * `apply`: commit the change, then link every CRTC to the connector
   * assigned to it and every changed connector to its CRTC and planes.
   * `links` holds the connectors' links before the transaction.
   */
  method Apply(t: TransactionCommon, links: map<int, Links>, changeEmpty: bool, commit: nat -> Option<nat>)
    returns (r: Result<Applied, TransactionError>)
    requires ApplyReady(t) && t.connectors.Keys <= links.Keys
    ensures r.Err? <==> CommitChange(changeEmpty, commit).Err?
    ensures r.Err? ==> r.error == CommitChange(changeEmpty, commit).error
    ensures r.Ok? ==> (
      var a := r.value;
      && a.t.planes == t.planes && a.t.crtcs == t.crtcs
      && a.t.planeIds == t.planeIds && a.t.crtcIds == t.crtcIds && a.t.connectorIds == t.connectorIds
      && a.crtcConnector.Keys == t.crtcs.Keys && a.links.Keys == links.Keys
      && (forall c :: c in t.crtcs ==> a.crtcConnector[c] == t.crtcs[c].drm.assignedConnector)
      && a.t.connectors.Keys == t.connectors.Keys
      && (forall k :: k in links && k !in t.connectors ==> a.links[k] == links[k])
      && PlanesKnown(t, PlanesMap(t))
      && (forall k :: k in t.connectors ==>
            && (t.connectors[k].drm.crtcId != NONE ==> t.connectors[k].drm.crtcId in PlanesMap(t))
            && (a.t.connectors[k], a.links[k]) == LinkConnector(t, PlanesMap(t), t.connectors[k], links[k])))
  {
    var committed := CommitChange(changeEmpty, commit);
    if committed.Err? {
      return Err(committed.error);
    }
    var crtcConnector := CrtcConnectors(t);
    var m := PlanesByCrtc(t);
    PlanesInTransaction(t, m);
    ConnectorCrtcsMapped(t);
    var connectors, newLinks := LinkConnectors(t, m, links);
    return Ok(Applied(t.(connectors := connectors), crtcConnector, newLinks));
  }

  /** The first loop of `apply`: each CRTC links to the connector assigned to it. */
  method CrtcConnectors(t: TransactionCommon) returns (crtcConnector: map<int, int>)
    requires Wf(t)
    ensures crtcConnector.Keys == t.crtcs.Keys
    ensures forall c :: c in t.crtcs ==> crtcConnector[c] == t.crtcs[c].drm.assignedConnector
  {
    crtcConnector := map[];
    var i := 0;
    while i < |t.crtcIds|
      invariant 0 <= i <= |t.crtcIds|
      invariant forall c :: c in crtcConnector <==> c in t.crtcIds[..i]
      invariant forall c :: c in crtcConnector ==> crtcConnector[c] == t.crtcs[c].drm.assignedConnector
    {
      assert t.crtcIds[..i + 1] == t.crtcIds[..i] + [t.crtcIds[i]];
      var c := t.crtcIds[i];
      crtcConnector := crtcConnector[c := t.crtcs[c].drm.assignedConnector];
      i := i + 1;
    }
    assert t.crtcIds[..i] == t.crtcIds;
    assert forall c :: c in crtcConnector <==> c in t.crtcs;
  }

  /** The third loop of `apply`, over the connectors in ascending id order. */
  method LinkConnectors(t: TransactionCommon, m: map<int, CrtcPlanes>, links: map<int, Links>)
    returns (connectors: map<int, ConnectorConfig>, newLinks: map<int, Links>)
    requires Wf(t) && CrtcsMapped(t, m) && PlanesKnown(t, m) && t.connectors.Keys <= links.Keys
    ensures connectors.Keys == t.connectors.Keys && newLinks.Keys == links.Keys
    ensures forall k :: k in links && k !in t.connectors ==> newLinks[k] == links[k]
    ensures forall k :: k in t.connectors ==>
      (connectors[k], newLinks[k]) == LinkConnector(t, m, t.connectors[k], links[k])
  {
    connectors := t.connectors;
    newLinks := links;
    var j := 0;
    while j < |t.connectorIds|
      invariant 0 <= j <= |t.connectorIds|
      invariant LinkedPrefix(t, m, links, connectors, newLinks, t.connectorIds[..j])
    {
      var k := t.connectorIds[j];
      var linked := LinkConnector(t, m, t.connectors[k], links[k]);
      LinkStep(t, m, links, connectors, newLinks, t.connectorIds[..j], k);
      assert t.connectorIds[..j + 1] == t.connectorIds[..j] + [k];
      connectors := connectors[k := linked.0];
      newLinks := newLinks[k := linked.1];
      j := j + 1;
    }
    assert t.connectorIds[..j] == t.connectorIds;
  }

  /** The loop of `LinkConnectors` has linked exactly the connectors in `done`. */
  ghost predicate LinkedPrefix(t: TransactionCommon, m: map<int, CrtcPlanes>, links: map<int, Links>,
                               connectors: map<int, ConnectorConfig>, newLinks: map<int, Links>, done: seq<int>)
    requires CrtcsMapped(t, m) && PlanesKnown(t, m) && t.connectors.Keys <= links.Keys
  {
    && connectors.Keys == t.connectors.Keys && newLinks.Keys == links.Keys
    && (forall k :: k in links && k !in done ==> newLinks[k] == links[k])
    && (forall k :: k in t.connectors && k in done ==>
          (connectors[k], newLinks[k]) == LinkConnector(t, m, t.connectors[k], links[k]))
  }

  /** Linking one more connector `k` extends the linked prefix by `k`. */
  lemma LinkStep(t: TransactionCommon, m: map<int, CrtcPlanes>, links: map<int, Links>,
                 connectors: map<int, ConnectorConfig>, newLinks: map<int, Links>, done: seq<int>, k: int)
    requires CrtcsMapped(t, m) && PlanesKnown(t, m) && t.connectors.Keys <= links.Keys
    requires LinkedPrefix(t, m, links, connectors, newLinks, done) && k in t.connectors
    ensures var linked := LinkConnector(t, m, t.connectors[k], links[k]);
      LinkedPrefix(t, m, links, connectors[k := linked.0], newLinks[k := linked.1], done + [k])
  {
  }

  /** Every connector's CRTC has an entry in `m`. */
  ghost predicate CrtcsMapped(t: TransactionCommon, m: map<int, CrtcPlanes>)
  {
    forall k :: k in t.connectors && t.connectors[k].drm.crtcId != NONE ==> t.connectors[k].drm.crtcId in m
  }

  /** `PlanesByCrtc` records every CRTC a connector drives. */
  lemma ConnectorCrtcsMapped(t: TransactionCommon)
    requires ApplyReady(t)
    ensures CrtcsMapped(t, PlanesMap(t))
  {
  }

  /** The planes `PlanesByCrtc` records are planes of the transaction. */
  lemma PlanesInTransaction(t: TransactionCommon, m: map<int, CrtcPlanes>)
    requires m == PlanesMap(t)
    ensures PlanesKnown(t, m)
  {
  }

  /**
   * After `apply` on the state `calculate_drm_state` computed, a changed lit
   * connector links to its CRTC and to the primary plane attached to it,
   * takes that plane's buffers and shows its framebuffer.
   */
  lemma AppliedConnectorShowsPrimary(t: TransactionCommon, k: int, p: int, links: Links)
    requires Settled(t) && NONE !in t.connectors
    requires k in t.connectors && Lit(t.connectors[k]) && t.connectors[k].changed
    requires p in t.planes && t.planes[p].obj.ty == Primary
    requires t.planes[p].drm.assignedCrtc == t.connectors[k].drm.crtcId
    ensures var m := PlanesMap(t);
      && t.connectors[k].drm.crtcId in m && PlanesKnown(t, m)
      && var r := LinkConnector(t, m, t.connectors[k], links);
         && r.1.crtc == t.connectors[k].drm.crtcId && r.1.primaryPlane == p
         && r.0.obj.buffers == t.planes[p].buffers && r.0.drm.fb == t.planes[p].drm.fbId
  {
    var c := t.connectors[k].drm.crtcId;
    assert ConnectorSettled(t, k);
    PlanesInTransaction(t, PlanesMap(t));
    assert c != NONE;
    forall q | q in t.planes && t.planes[q].drm.assignedCrtc == c && t.planes[q].obj.ty == Primary
      ensures q == p
    {
    }
    LastAssignedUnique(t.planeIds, t.planes, c, Primary, p);
  }
}
