/**
 * The DRM property values the metal backend remembers for each connector
 * and plane (`DrmConnectorState`, `DrmPlaneState`), together with the
 * property writes of an atomic commit and their effect on a plane.
 */
module MetalDrmState {
  import opened MachineInt

  /** `DrmFb::NONE` and `DrmCrtc::NONE`: the id 0 names no object. */
  const NONE: nat := 0

  /** The properties of `DrmPlaneState` a present writes (`src_x` … `crtc_h`). */
  datatype PlaneDrmState = PlaneDrmState(
    fbId: int, srcX: int, srcY: int, srcW: int, srcH: int,
    assignedCrtc: int, crtcId: int,
    crtcX: int, crtcY: int, crtcW: int, crtcH: int)

  /** A plane that is attached to nothing and shows nothing. */
  const DefaultPlane := PlaneDrmState(NONE, 0, 0, 0, 0, NONE, NONE, 0, 0, 0, 0)

  /**
   * The part of `DrmConnectorState` that presentation changes: the
   * framebuffers shown on the primary and cursor planes, their rotation
   * counters, the cursor position and the primary plane geometry.
   */
  datatype ConnectorDrmState = ConnectorDrmState(
    crtcId: int, locked: bool,
    fb: int, fbIdx: nat,
    cursorFb: int, cursorFbIdx: nat, cursorX: int, cursorY: int,
    outFence: bool,
    srcW: int, srcH: int, crtcX: int, crtcY: int, crtcW: int, crtcH: int)

  /** `DrmConnectorState::default()`: no CRTC, nothing shown. */
  const DefaultConnector := ConnectorDrmState(NONE, false, NONE, 0, NONE, 0, 0, 0, false, 0, 0, 0, 0, 0, 0)

  /** Plane properties an atomic change can write. */
  datatype PlaneProp =
    FbIdProp | CrtcIdProp | SrcXProp | SrcYProp | SrcWProp | SrcHProp
    | CrtcXProp | CrtcYProp | CrtcWProp | CrtcHProp | InFenceFdProp
    | OutFencePtrProp

  /** One property write `c.change(prop, value)` on one DRM object. */
  datatype Change = Change(obj: nat, prop: PlaneProp, value: int)

  /** The value a plane property write leaves in the remembered plane state. */
  function SetProp(p: PlaneDrmState, prop: PlaneProp, value: int): (r: PlaneDrmState)
  {
    match prop
    case FbIdProp => p.(fbId := value)
    case CrtcIdProp => p.(crtcId := value)
    case SrcXProp => p.(srcX := value)
    case SrcYProp => p.(srcY := value)
    case SrcWProp => p.(srcW := value)
    case SrcHProp => p.(srcH := value)
    case CrtcXProp => p.(crtcX := value)
    case CrtcYProp => p.(crtcY := value)
    case CrtcWProp => p.(crtcW := value)
    case CrtcHProp => p.(crtcH := value)
    // fences are one-shot and not part of the remembered state
    case InFenceFdProp => p
    case OutFencePtrProp => p
  }

  /** The plane state after the writes `cs`, performed in order. */
  function ApplyChanges(p: PlaneDrmState, cs: seq<Change>): PlaneDrmState
    decreases |cs|
  {
    if cs == [] then p else ApplyChanges(SetProp(p, cs[0].prop, cs[0].value), cs[1..])
  }

  lemma {:induction false} ApplyChangesAppend(p: PlaneDrmState, a: seq<Change>, b: seq<Change>)
    ensures ApplyChanges(p, a + b) == ApplyChanges(ApplyChanges(p, a), b)
    decreases |a|
  {
    if a == [] {
      assert a + b == b;
    } else {
      assert (a + b)[1..] == a[1..] + b;
      ApplyChangesAppend(SetProp(p, a[0].prop, a[0].value), a[1..], b);
    }
  }

  /** The writes of `cs` addressed to object `obj`, in order. */
  function On(obj: nat, cs: seq<Change>): (r: seq<Change>)
    ensures |r| <= |cs|
    ensures forall c :: c in r ==> c in cs && c.obj == obj
    ensures forall c :: c in cs && c.obj == obj ==> c in r
    decreases |cs|
  {
    if cs == [] then []
    else (if cs[0].obj == obj then [cs[0]] else []) + On(obj, cs[1..])
  }

  /**
   * `(size as u32) << 16`: an i32 pixel size reinterpreted as u32 and
   * shifted into the 16.16 fixed-point format of the `SRC_*` properties,
   * with the bits shifted out of 32 lost.
   */
  function FixedSize(size: int): (r: nat)
    ensures IsU32(r)
    ensures 0 <= size < 0x1_0000 ==> r == size * 0x1_0000 && r / 0x1_0000 == size
  {
    ((size % 0x1_0000_0000) * 0x1_0000) % 0x1_0000_0000
  }
}
