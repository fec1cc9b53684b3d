/**
 * The present path of a metal (KMS) connector: when a frame is committed,
 * which of the connector's render buffers it goes to, how the cursor
 * plane is programmed, the atomic change built for the primary and
 * cursor planes, the choice between an asynchronous and a synchronous
 * page flip, and the bookkeeping after the commit succeeded or failed.
 */
module MetalPresent {
  import opened Wrappers
  import opened MachineInt
  import opened Rects
  import opened MetalDrmState

  /** Nanoseconds before the vblank a frame starts being prepared. */
  const DEFAULT_PRE_COMMIT_MARGIN: nat := 16_000_000
  /** Nanoseconds the commit itself is given before the vblank. */
  const DEFAULT_POST_COMMIT_MARGIN: nat := 1_500_000
  /** Step by which the post-commit margin is adjusted. */
  const POST_COMMIT_MARGIN_DELTA: nat := 500_000

  /** `c::EACCES`: the commit was refused because we are not DRM master. */
  const EACCES: nat := 13

  datatype MetalError =
    | OutOfDate             // the connector changed while the frame was prepared
    | Commit(errno: nat)    // the atomic commit failed
    | RenderFrame           // rendering into the render buffer failed
    | CopyToDevice          // copying a buffer to the scanout device failed

  // ---------------------------------------------------------------------
  // Frame scheduling (`present_loop`)
  // ---------------------------------------------------------------------

  /**
   * The instant by which a frame-scheduled present must be started:
   * the next vblank less both margins, each subtraction saturating at 0.
   */
  function CommitDeadline(nextVblank: nat, pre: nat, post: nat): (r: nat)
    ensures r <= nextVblank
    ensures pre + post <= nextVblank ==> r + pre + post == nextVblank
    ensures nextVblank < pre + post ==> r == 0
  {
    SatSub(SatSub(nextVblank, pre), post)
  }

  /**
   * When the loop waits (`wait`) and which vblank sequence it expects the
   * flip to complete on.
   */
  datatype Schedule = Schedule(wait: Option<nat>, expectedSequence: nat)

  /**
   * Frame scheduling for a CRTC at vblank `sequence`, starting at `now`.
   * An asynchronous flip is never scheduled.  Otherwise the loop sleeps
   * until the deadline when it is still ahead, and when the deadline has
   * already passed the frame can only make the vblank after the next.
   */
  function PlanPresent(sequence: nat, now: nat, nextVblank: nat, pre: nat, post: nat,
                       asyncFlip: bool): (s: Schedule)
    ensures asyncFlip ==> s == Schedule(None, sequence + 1)
    ensures !asyncFlip ==>
      (s.wait.Some? <==> now < CommitDeadline(nextVblank, pre, post))
    ensures s.wait.Some? ==> now < s.wait.value <= nextVblank
    ensures sequence + 1 <= s.expectedSequence <= sequence + 2
    ensures s.expectedSequence == sequence + 2 <==>
      !asyncFlip && CommitDeadline(nextVblank, pre, post) <= now
  {
    if asyncFlip then Schedule(None, sequence + 1)
    else
      var deadline := CommitDeadline(nextVblank, pre, post);
      if now < deadline then Schedule(Some(deadline), sequence + 1)
      else Schedule(None, sequence + 2)
  }

  /** `try_async_flip`: tearing is wanted and the device supports it. */
  predicate TryAsyncFlip(tearing: bool, supportsAsyncCommit: bool) {
    tearing && supportsAsyncCommit
  }

  // ---------------------------------------------------------------------
  // Buffers
  // ---------------------------------------------------------------------

  /** The render buffer after the one shown by the framebuffer counter `fbIdx`. */
  function NextBufferIndex(fbIdx: nat, len: nat): (r: nat)
    requires len > 0
    ensures r < len
    ensures fbIdx + 1 < len ==> r == fbIdx + 1
    ensures fbIdx + 1 == len ==> r == 0
  {
    (fbIdx + 1) % len
  }

  /**
   * `RenderBuffer`: its framebuffer, its size, the damage it still has to
   * redraw before it can be shown again (its entry of the damage queue) and
   * whether it was last rendered for a locked session.
   */
  datatype RenderBuffer = RenderBuffer(fb: nat, width: nat, height: nat,
                                       damage: seq<Rect>, locked: bool)

  /** `damage_queue.damage`: damage of the output is owed by every buffer. */
  function DamageAll(bufs: seq<RenderBuffer>, d: seq<Rect>): (r: seq<RenderBuffer>)
    ensures |r| == |bufs|
    ensures forall i :: 0 <= i < |r| ==> r[i] == bufs[i].(damage := bufs[i].damage + d)
  {
    seq(|bufs|, i requires 0 <= i < |bufs| => bufs[i].(damage := bufs[i].damage + d))
  }

  /** `damage_queue.clear` of one buffer: it has been redrawn in full. */
  function ClearDamage(bufs: seq<RenderBuffer>, i: nat): (r: seq<RenderBuffer>)
    requires i < |bufs|
    ensures |r| == |bufs| && r[i].damage == []
    ensures forall j :: 0 <= j < |r| && j != i ==> r[j] == bufs[j]
  {
    bufs[i := bufs[i].(damage := [])]
  }

  /** `damage_queue.clear_all`: no buffer owes any damage. */
  function ClearAll(bufs: seq<RenderBuffer>): (r: seq<RenderBuffer>)
    ensures |r| == |bufs|
    ensures forall i :: 0 <= i < |r| ==> r[i] == bufs[i].(damage := [])
  {
    seq(|bufs|, i requires 0 <= i < |bufs| => bufs[i].(damage := []))
  }

  /**
   * `RenderBuffer::damage_full` of buffer `i`: the queue group is emptied
   * and then damaged with the whole of buffer `i`, which every buffer of
   * the group now owes.
   */
  function DamageFull(bufs: seq<RenderBuffer>, i: nat): (r: seq<RenderBuffer>)
    requires i < |bufs|
    ensures |r| == |bufs|
    ensures forall j :: 0 <= j < |r| ==>
      r[j] == bufs[j].(damage := [AtOrigin(bufs[i].width, bufs[i].height)])
  {
    DamageAll(ClearAll(bufs), [AtOrigin(bufs[i].width, bufs[i].height)])
  }

  /**
   * `reset_damage`: every damage queue is cleared and then the first
   * buffer is fully damaged, so every buffer is redrawn from scratch.
   */
  function ResetDamage(bufs: seq<RenderBuffer>): (r: seq<RenderBuffer>)
    requires |bufs| > 0
    ensures |r| == |bufs|
    ensures forall i :: 0 <= i < |r| ==> r[i].damage == [AtOrigin(bufs[0].width, bufs[0].height)]
    ensures forall i :: 0 <= i < |r| ==> r[i] == bufs[i].(damage := r[i].damage)
  {
    var cleared := seq(|bufs|, i requires 0 <= i < |bufs| => bufs[i].(damage := []));
    DamageFull(cleared, 0)
  }

  /**
   * The render buffers after `next` was flipped with `fb`: a rendered
   * frame clears that buffer's damage and leaves the others owing theirs;
   * a directly scanned-out buffer resets all damage, because the render
   * buffer's content no longer matches the screen.  The buffer remembers
   * the lock state it was shown for.
   */
  function PresentedBuffers(bufs: seq<RenderBuffer>, next: nat, fb: PresentFb)
    : (r: seq<RenderBuffer>)
    requires next < |bufs|
    ensures |r| == |bufs| && r[next].locked == fb.locked
    ensures forall j :: 0 <= j < |r| ==>
      r[j].fb == bufs[j].fb && r[j].width == bufs[j].width && r[j].height == bufs[j].height
    ensures forall j :: 0 <= j < |r| && j != next ==> r[j].locked == bufs[j].locked
    ensures fb.direct.None? ==>
      r[next].damage == [] && forall j :: 0 <= j < |r| && j != next ==> r[j] == bufs[j]
    ensures fb.direct.Some? ==>
      forall j :: 0 <= j < |r| ==> r[j].damage == ResetDamage(bufs)[j].damage
  {
    var d := if fb.direct.None? then ClearDamage(bufs, next) else ResetDamage(bufs);
    d[next := d[next].(locked := fb.locked)]
  }

  /** `Latched`: the number of damage events a frame covers and the lock state. */
  datatype Latched = Latched(damageCount: nat, locked: bool)

  /** `latch`: a frame is rendered exactly when some damage is pending. */
  function Latch(hasDamage: nat, locked: bool): (r: Option<Latched>)
    ensures r.None? <==> hasDamage == 0
    ensures r.Some? ==> r.value.damageCount == hasDamage && r.value.locked == locked
  {
    if hasDamage == 0 then None else Some(Latched(hasDamage, locked))
  }

  // ---------------------------------------------------------------------
  // The hardware cursor
  // ---------------------------------------------------------------------

  /** A cursor buffer: its framebuffer and its physical size. */
  datatype CursorBuffer = CursorBuffer(fb: nat, width: int, height: int)

  /** A DRM plane of the connector: object id, mode size and remembered state. */
  datatype Plane = Plane(id: nat, modeW: int, modeH: int, state: PlaneDrmState)

  datatype CursorProgrammingType =
    | Enable(fb: nat, x: int, y: int, width: int, height: int, swap: bool)
    | Disable

  /** `CursorProgramming`: the cursor plane and what to put on it. */
  datatype CursorProgramming = CursorProgramming(plane: Plane, ty: CursorProgrammingType)

  /** The cursor buffer `latch_cursor` draws a new cursor image into. */
  function CursorBackBuffer(cursorFbIdx: nat, len: nat): (r: nat)
    requires len > 0
    ensures r < len
  {
    (cursorFbIdx + 1) % len
  }

  /**
   * `compute_cursor_programming`: nothing unless the cursor changed and
   * there is a cursor plane; a disabled cursor is taken off the plane; an
   * enabled one shows the front buffer, or the buffer after it when a new
   * image was drawn (`swap`).
   */
  function ComputeCursorProgramming(changed: bool, cursorPlane: Option<Plane>,
                                    enabled: bool, swap: bool, x: int, y: int,
                                    cursorFbIdx: nat, buffers: seq<CursorBuffer>)
    : (r: Option<CursorProgramming>)
    requires cursorPlane.Some? && enabled ==> |buffers| > 0
    ensures r.Some? <==> changed && cursorPlane.Some?
    ensures r.Some? ==> r.value.plane == cursorPlane.value
    ensures r.Some? ==> (r.value.ty.Disable? <==> !enabled)
    ensures r.Some? && enabled ==>
      var i := (cursorFbIdx + (if swap then 1 else 0)) % |buffers|;
      r.value.ty == Enable(buffers[i].fb, x, y, buffers[i].width, buffers[i].height, swap)
  {
    if !changed || cursorPlane.None? then None
    else if !enabled then Some(CursorProgramming(cursorPlane.value, Disable))
    else
      var front := cursorFbIdx + (if swap then 1 else 0);
      var b := buffers[front % |buffers|];
      Some(CursorProgramming(cursorPlane.value, Enable(b.fb, x, y, b.width, b.height, swap)))
  }

  /**
   * A swapped cursor shows exactly the buffer `latch_cursor` just drew
   * into; an unswapped one keeps showing the current front buffer.
   */
  lemma {:induction false} CursorShowsDrawnBuffer(cursorPlane: Option<Plane>, swap: bool,
                                                 x: int, y: int, cursorFbIdx: nat,
                                                 buffers: seq<CursorBuffer>)
    requires cursorPlane.Some? && |buffers| > 0
    ensures var r := ComputeCursorProgramming(true, cursorPlane, true, swap, x, y,
                                              cursorFbIdx, buffers);
            r.Some? && r.value.ty.Enable? &&
            r.value.ty.fb == (if swap then buffers[CursorBackBuffer(cursorFbIdx, |buffers|)].fb
                              else buffers[cursorFbIdx % |buffers|].fb)
  {
  }

  /**
   * What `present_hardware_cursor` decided: whether the cursor is shown,
   * whether a new image was drawn into the back buffer, and its position.
   */
  datatype HardwareCursorChange = HardwareCursorChange(enabled: bool, swapBuffer: bool,
                                                       x: int, y: int)

  // ---------------------------------------------------------------------
  // The atomic change (`program_connector`)
  // ---------------------------------------------------------------------

  /** `DirectScanoutPosition`: where a client buffer is scanned out directly. */
  datatype ScanoutPosition = ScanoutPosition(srcWidth: int, srcHeight: int,
                                             crtcX: int, crtcY: int,
                                             crtcWidth: int, crtcHeight: int)

  /** `PresentFb`: the framebuffer to show, direct-scanout data, lock state. */
  datatype PresentFb = PresentFb(fb: nat, direct: Option<ScanoutPosition>, locked: bool)

  /** The geometry properties of the primary plane. */
  datatype Geometry = Geometry(srcW: int, srcH: int, crtcX: int, crtcY: int,
                               crtcW: int, crtcH: int)

  function PlaneGeometry(p: PlaneDrmState): Geometry {
    Geometry(p.srcW, p.srcH, p.crtcX, p.crtcY, p.crtcW, p.crtcH)
  }

  /**
   * The geometry a framebuffer is shown with: a rendered frame fills the
   * mode, a directly scanned-out buffer goes where its position says.
   */
  function TargetGeometry(fb: PresentFb, modeW: int, modeH: int): (g: Geometry)
    ensures fb.direct.None? ==>
      g == Geometry(FixedSize(modeW), FixedSize(modeH), 0, 0, modeW, modeH)
    ensures fb.direct.Some? ==>
      var p := fb.direct.value;
      g == Geometry(FixedSize(p.srcWidth), FixedSize(p.srcHeight),
                    p.crtcX, p.crtcY, p.crtcWidth, p.crtcHeight)
  {
    match fb.direct
    case None => Geometry(FixedSize(modeW), FixedSize(modeH), 0, 0, modeW, modeH)
    case Some(p) => Geometry(FixedSize(p.srcWidth), FixedSize(p.srcHeight),
                             p.crtcX, p.crtcY, p.crtcWidth, p.crtcHeight)
  }

  /** The writes planned for one plane and the states they lead to. */
  datatype PlaneProgram = PlaneProgram(state: PlaneDrmState, connector: ConnectorDrmState,
                                       changes: seq<Change>, geometryChanged: bool)

  /** The `change!` macro of the primary plane: write a property only if it differs. */
  function ChangeIfDiffers(obj: nat, prop: PlaneProp, current: int, target: int): seq<Change> {
    if current != target then [Change(obj, prop, target)] else []
  }

  /**
   * The geometry writes of the primary plane, in the order `src_w`,
   * `src_h`, `crtc_x`, `crtc_y`, `crtc_w`, `crtc_h`: exactly the
   * properties whose remembered value differs from the target.
   */
  function GeometryChanges(id: nat, p: PlaneDrmState, g: Geometry): (cs: seq<Change>)
    ensures cs == [] <==> PlaneGeometry(p) == g
    ensures forall i :: 0 <= i < |cs| ==> cs[i].obj == id
  {
    ChangeIfDiffers(id, SrcWProp, p.srcW, g.srcW)
    + ChangeIfDiffers(id, SrcHProp, p.srcH, g.srcH)
    + ChangeIfDiffers(id, CrtcXProp, p.crtcX, g.crtcX)
    + ChangeIfDiffers(id, CrtcYProp, p.crtcY, g.crtcY)
    + ChangeIfDiffers(id, CrtcWProp, p.crtcW, g.crtcW)
    + ChangeIfDiffers(id, CrtcHProp, p.crtcH, g.crtcH)
  }

  /** Performing the geometry writes gives the plane the target geometry. */
  lemma GeometryChangesApply(id: nat, p: PlaneDrmState, q: PlaneDrmState, g: Geometry)
    requires PlaneGeometry(q) == PlaneGeometry(p)
    ensures ApplyChanges(q, GeometryChanges(id, p, g))
            == q.(srcW := g.srcW, srcH := g.srcH, crtcX := g.crtcX,
                  crtcY := g.crtcY, crtcW := g.crtcW, crtcH := g.crtcH)
  {
    var a := ChangeIfDiffers(id, SrcWProp, p.srcW, g.srcW);
    var b := ChangeIfDiffers(id, SrcHProp, p.srcH, g.srcH);
    var c := ChangeIfDiffers(id, CrtcXProp, p.crtcX, g.crtcX);
    var d := ChangeIfDiffers(id, CrtcYProp, p.crtcY, g.crtcY);
    var e := ChangeIfDiffers(id, CrtcWProp, p.crtcW, g.crtcW);
    var f := ChangeIfDiffers(id, CrtcHProp, p.crtcH, g.crtcH);
    var p1 := q.(srcW := g.srcW);
    var p2 := p1.(srcH := g.srcH);
    var p3 := p2.(crtcX := g.crtcX);
    var p4 := p3.(crtcY := g.crtcY);
    var p5 := p4.(crtcW := g.crtcW);
    var p6 := p5.(crtcH := g.crtcH);
    ApplyChangesAppend(q, a + b + c + d + e, f);
    ApplyChangesAppend(q, a + b + c + d, e);
    ApplyChangesAppend(q, a + b + c, d);
    ApplyChangesAppend(q, a + b, c);
    ApplyChangesAppend(q, a, b);
    assert ApplyChanges(q, a) == p1;
    assert ApplyChanges(p1, b) == p2;
    assert ApplyChanges(p2, c) == p3;
    assert ApplyChanges(p3, d) == p4;
    assert ApplyChanges(p4, e) == p5;
    assert ApplyChanges(p5, f) == p6;
  }

  /**
   * The primary-plane part of `program_connector`.  The framebuffer is
   * always written, each geometry property only when it differs; the
   * connector remembers the framebuffer, its lock state and the geometry,
   * and its buffer counter advances only for a rendered frame.
   */
  function ProgramPrimary(plane: Plane, c: ConnectorDrmState, fb: PresentFb): (r: PlaneProgram)
    ensures ApplyChanges(plane.state, r.changes) == r.state
    ensures r.state == plane.state.(fbId := fb.fb, srcW := r.state.srcW, srcH := r.state.srcH,
                                    crtcX := r.state.crtcX, crtcY := r.state.crtcY,
                                    crtcW := r.state.crtcW, crtcH := r.state.crtcH)
    ensures PlaneGeometry(r.state) == TargetGeometry(fb, plane.modeW, plane.modeH)
    ensures r.geometryChanged <==>
      PlaneGeometry(plane.state) != TargetGeometry(fb, plane.modeW, plane.modeH)
    ensures !r.geometryChanged <==> r.changes == [Change(plane.id, FbIdProp, fb.fb)]
    ensures forall i :: 0 <= i < |r.changes| ==> r.changes[i].obj == plane.id
    ensures r.connector == c.(fb := fb.fb, locked := fb.locked,
                              fbIdx := if fb.direct.None? then c.fbIdx + 1 else c.fbIdx,
                              srcW := r.state.srcW, srcH := r.state.srcH,
                              crtcX := r.state.crtcX, crtcY := r.state.crtcY,
                              crtcW := r.state.crtcW, crtcH := r.state.crtcH)
  {
    var g := TargetGeometry(fb, plane.modeW, plane.modeH);
    var p := plane.state;
    var fbChange := Change(plane.id, FbIdProp, fb.fb);
    var geometry := GeometryChanges(plane.id, p, g);
    ApplyStep(p, [fbChange] + geometry, 0);
    assert ([fbChange] + geometry)[0..] == [fbChange] + geometry;
    assert ([fbChange] + geometry)[1..] == geometry;
    GeometryChangesApply(plane.id, p, p.(fbId := fb.fb), g);
    PlaneProgram(p.(fbId := fb.fb, srcW := g.srcW, srcH := g.srcH, crtcX := g.crtcX,
                    crtcY := g.crtcY, crtcW := g.crtcW, crtcH := g.crtcH),
                 c.(fb := fb.fb, locked := fb.locked,
                    fbIdx := if fb.direct.None? then c.fbIdx + 1 else c.fbIdx,
                    srcW := g.srcW, srcH := g.srcH, crtcX := g.crtcX, crtcY := g.crtcY,
                    crtcW := g.crtcW, crtcH := g.crtcH),
                 [fbChange] + geometry,
                 PlaneGeometry(p) != g)
  }

  /**
   * The cursor-plane part of `program_connector`.  An enabled cursor
   * writes every property of the plane (plus an in-fence when one is
   * available); a disabled one detaches framebuffer and CRTC.  The
   * connector remembers the cursor framebuffer, and on a swap its cursor
   * buffer counter advances.
   */
  function ProgramCursor(cursor: CursorProgramming, c: ConnectorDrmState, crtcId: nat,
                         inFence: Option<int>): (r: PlaneProgram)
    ensures ApplyChanges(cursor.plane.state, r.changes) == r.state
    ensures forall i :: 0 <= i < |r.changes| ==> r.changes[i].obj == cursor.plane.id
    ensures r.geometryChanged
    ensures cursor.ty.Disable? ==>
      r.state == cursor.plane.state.(fbId := NONE, crtcId := NONE)
      && r.connector == c.(cursorFb := NONE)
    ensures cursor.ty.Enable? ==>
      var e := cursor.ty;
      r.state == cursor.plane.state.(fbId := e.fb, crtcId := crtcId,
                                     crtcX := e.x, crtcY := e.y,
                                     crtcW := e.width, crtcH := e.height,
                                     srcX := 0, srcY := 0,
                                     srcW := FixedSize(e.width), srcH := FixedSize(e.height))
      && r.connector == c.(cursorFb := e.fb, cursorX := e.x, cursorY := e.y,
                           cursorFbIdx := c.cursorFbIdx + (if e.swap then 1 else 0))
  {
    var id := cursor.plane.id;
    match cursor.ty
    case Disable =>
      var cs := [Change(id, FbIdProp, NONE), Change(id, CrtcIdProp, NONE)];
      assert cs[0..] == cs && cs[2..] == [];
      ApplyStep(cursor.plane.state, cs, 0);
      ApplyStep(cursor.plane.state.(fbId := NONE), cs, 1);
      PlaneProgram(cursor.plane.state.(fbId := NONE, crtcId := NONE),
                   c.(cursorFb := NONE), cs, true)
    case Enable(fb, x, y, w, h, swap) =>
      EnableCursor(cursor.plane, c, fb, x, y, w, h, swap, crtcId, inFence)
  }

  /** The `Enable` case of `ProgramCursor`. */
  function EnableCursor(plane: Plane, c: ConnectorDrmState, fb: nat, x: int, y: int,
                        w: int, h: int, swap: bool, crtcId: nat, inFence: Option<int>)
    : (r: PlaneProgram)
    ensures ApplyChanges(plane.state, r.changes) == r.state
    ensures forall i :: 0 <= i < |r.changes| ==> r.changes[i].obj == plane.id
    ensures r.geometryChanged
    ensures r.state == plane.state.(fbId := fb, crtcId := crtcId, crtcX := x, crtcY := y,
                                    crtcW := w, crtcH := h, srcX := 0, srcY := 0,
                                    srcW := FixedSize(w), srcH := FixedSize(h))
    ensures r.connector == c.(cursorFb := fb, cursorX := x, cursorY := y,
                              cursorFbIdx := c.cursorFbIdx + (if swap then 1 else 0))
  {
    var id := plane.id;
    var fence := if inFence.Some? then [Change(id, InFenceFdProp, inFence.value)] else [];
    var cs := [Change(id, FbIdProp, fb), Change(id, CrtcIdProp, crtcId),
               Change(id, CrtcXProp, x), Change(id, CrtcYProp, y),
               Change(id, CrtcWProp, w), Change(id, CrtcHProp, h),
               Change(id, SrcXProp, 0), Change(id, SrcYProp, 0),
               Change(id, SrcWProp, FixedSize(w)), Change(id, SrcHProp, FixedSize(h))];
    var s := plane.state.(fbId := fb, crtcId := crtcId, crtcX := x, crtcY := y,
                          crtcW := w, crtcH := h, srcX := 0, srcY := 0,
                          srcW := FixedSize(w), srcH := FixedSize(h));
    CursorChangesApply(plane.state, cs, fence, s);
    PlaneProgram(s,
                 c.(cursorFb := fb, cursorX := x, cursorY := y,
                    cursorFbIdx := c.cursorFbIdx + (if swap then 1 else 0)),
                 cs + fence, true)
  }

  /** Performing the writes from index `k` on is performing write `k`, then the rest. */
  lemma ApplyStep(p: PlaneDrmState, cs: seq<Change>, k: nat)
    requires k < |cs|
    ensures ApplyChanges(p, cs[k..]) == ApplyChanges(SetProp(p, cs[k].prop, cs[k].value), cs[k + 1..])
  {
    assert cs[k..][1..] == cs[k + 1..];
  }

  lemma CursorChangesApply(p: PlaneDrmState, cs: seq<Change>, fence: seq<Change>,
                           s: PlaneDrmState)
    requires |cs| == 10 && |fence| <= 1
    requires forall i :: 0 <= i < |fence| ==> fence[i].prop == InFenceFdProp
    requires cs[0].prop == FbIdProp && cs[1].prop == CrtcIdProp
    requires cs[2].prop == CrtcXProp && cs[3].prop == CrtcYProp
    requires cs[4].prop == CrtcWProp && cs[5].prop == CrtcHProp
    requires cs[6].prop == SrcXProp && cs[7].prop == SrcYProp
    requires cs[8].prop == SrcWProp && cs[9].prop == SrcHProp
    requires s == p.(fbId := cs[0].value, crtcId := cs[1].value,
                     crtcX := cs[2].value, crtcY := cs[3].value,
                     crtcW := cs[4].value, crtcH := cs[5].value,
                     srcX := cs[6].value, srcY := cs[7].value,
                     srcW := cs[8].value, srcH := cs[9].value)
    ensures ApplyChanges(p, cs + fence) == s
  {
    ApplyChangesAppend(p, cs, fence);
    assert cs[0..] == cs;
    var q1 := p.(fbId := cs[0].value);
    ApplyStep(p, cs, 0);
    var q2 := q1.(crtcId := cs[1].value);
    ApplyStep(q1, cs, 1);
    var q3 := q2.(crtcX := cs[2].value);
    ApplyStep(q2, cs, 2);
    var q4 := q3.(crtcY := cs[3].value);
    ApplyStep(q3, cs, 3);
    var q5 := q4.(crtcW := cs[4].value);
    ApplyStep(q4, cs, 4);
    var q6 := q5.(crtcH := cs[5].value);
    ApplyStep(q5, cs, 5);
    var q7 := q6.(srcX := cs[6].value);
    ApplyStep(q6, cs, 6);
    var q8 := q7.(srcY := cs[7].value);
    ApplyStep(q7, cs, 7);
    var q9 := q8.(srcW := cs[8].value);
    ApplyStep(q8, cs, 8);
    var q10 := q9.(srcH := cs[9].value);
    ApplyStep(q9, cs, 9);
    assert cs[10..] == [];
    assert q10 == s;
    if |fence| == 1 {
      ApplyStep(s, fence, 0);
      assert fence[1..] == [];
    }
  }

  /** Everything `program_connector` plans before it commits. */
  datatype Plan = Plan(changes: seq<Change>, asyncFlip: bool,
                       connector: ConnectorDrmState,
                       primary: Option<PlaneDrmState>, cursor: Option<PlaneDrmState>)

  /**
   * The change of `program_connector` up to the commit.  An asynchronous
   * flip is tried only when tearing is wanted and supported, the cursor is
   * not reprogrammed and the primary plane keeps its geometry.
   */
  function PlanProgram(asyncWanted: bool, crtcId: nat, primary: Plane,
                       cursor: Option<CursorProgramming>, newFb: Option<PresentFb>,
                       c: ConnectorDrmState, cursorFence: Option<int>): (r: Plan)
    ensures r.asyncFlip <==>
      asyncWanted && cursor.None?
      && (newFb.Some? ==> PlaneGeometry(primary.state)
                          == TargetGeometry(newFb.value, primary.modeW, primary.modeH))
    ensures r.primary.Some? <==> newFb.Some?
    ensures r.cursor.Some? <==> cursor.Some?
    ensures newFb.Some? ==> r.primary.value.fbId == newFb.value.fb
                            && r.connector.fb == newFb.value.fb
    ensures newFb.None? && cursor.None? ==> r.changes == [] && r.connector == c
  {
    var p := if newFb.Some? then Some(ProgramPrimary(primary, c, newFb.value)) else None;
    var c1 := if p.Some? then p.value.connector else c;
    var q := if cursor.Some? then Some(ProgramCursor(cursor.value, c1, crtcId, cursorFence))
             else None;
    var c2 := if q.Some? then q.value.connector else c1;
    Plan((if p.Some? then p.value.changes else []) + (if q.Some? then q.value.changes else []),
         asyncWanted && (p.None? || !p.value.geometryChanged) && q.None?,
         c2,
         if p.Some? then Some(p.value.state) else None,
         if q.Some? then Some(q.value.state) else None)
  }

  /**
   * The connector state a plan leaves: the framebuffer shown, the render
   * buffer counter advanced for a rendered frame only, and the cursor
   * buffer counter advanced when an enabled cursor swaps its buffer.
   */
  lemma PlanConnector(asyncWanted: bool, crtcId: nat, primary: Plane, cursor: Option<CursorProgramming>,
                      newFb: Option<PresentFb>, c: ConnectorDrmState, cursorFence: Option<int>)
    ensures var r := PlanProgram(asyncWanted, crtcId, primary, cursor, newFb, c, cursorFence).connector;
            r.fb == (if newFb.Some? then newFb.value.fb else c.fb)
            && r.fbIdx == (if newFb.Some? && newFb.value.direct.None? then c.fbIdx + 1 else c.fbIdx)
            && r.cursorFbIdx == (if cursor.Some? && cursor.value.ty.Enable? && cursor.value.ty.swap
                                 then c.cursorFbIdx + 1 else c.cursorFbIdx)
  {
    if newFb.Some? {
      var p := ProgramPrimary(primary, c, newFb.value);
      if cursor.Some? {
        var q := ProgramCursor(cursor.value, p.connector, crtcId, cursorFence);
      }
    } else if cursor.Some? {
      var q := ProgramCursor(cursor.value, c, crtcId, cursorFence);
    }
  }

  /** An asynchronous flip only ever exchanges the primary framebuffer. */
  lemma {:induction false} AsyncFlipOnlySwapsFramebuffer(asyncWanted: bool, crtcId: nat,
                                                        primary: Plane,
                                                        cursor: Option<CursorProgramming>,
                                                        newFb: Option<PresentFb>,
                                                        c: ConnectorDrmState,
                                                        cursorFence: Option<int>)
    requires PlanProgram(asyncWanted, crtcId, primary, cursor, newFb, c, cursorFence).asyncFlip
    ensures var r := PlanProgram(asyncWanted, crtcId, primary, cursor, newFb, c, cursorFence);
            r.changes == (if newFb.Some? then [Change(primary.id, FbIdProp, newFb.value.fb)]
                          else [])
  {
    if newFb.Some? {
      var p := ProgramPrimary(primary, c, newFb.value);
      assert !p.geometryChanged;
      assert p.changes + [] == p.changes;
    }
  }

  /**
   * The request of the synchronous attempt: the planned change plus, on
   * non-NVIDIA devices, the primary plane's in-fence (when a frame is
   * flipped and a signalled sync file exists) and the CRTC's out-fence.
   */
  function SyncChanges(plan: Plan, isNvidia: bool, primaryId: nat, crtcId: nat,
                       hasFb: bool, syncFile: Option<int>): (r: seq<Change>)
    ensures isNvidia ==> r == plan.changes
    ensures !isNvidia ==>
      (|r| == |plan.changes| + (if hasFb && syncFile.Some? then 2 else 1)
       && r[..|plan.changes|] == plan.changes
       && r[|r| - 1] == Change(crtcId, OutFencePtrProp, 0))
  {
    if isNvidia then plan.changes
    else
      plan.changes
      + (if hasFb && syncFile.Some? then [Change(primaryId, InFenceFdProp, syncFile.value)]
         else [])
      + [Change(crtcId, OutFencePtrProp, 0)]
  }

  /** An atomic commit request: its writes and whether it is an async page flip. */
  datatype CommitRequest = CommitRequest(changes: seq<Change>, async: bool)

  /** The kernel's answer: success with or without an out-fence, or an errno. */
  datatype CommitAnswer = Committed(outFence: bool) | Refused(errno: nat)

  /** The state `program_connector` hands back for a successful commit. */
  datatype Programmed = Programmed(connector: ConnectorDrmState,
                                   primary: Option<PlaneDrmState>,
                                   cursor: Option<PlaneDrmState>)

  function SyncRequest(plan: Plan, isNvidia: bool, primaryId: nat, crtcId: nat,
                       hasFb: bool, syncFile: Option<int>): CommitRequest
  {
    CommitRequest(SyncChanges(plan, isNvidia, primaryId, crtcId, hasFb, syncFile), false)
  }

  /**
   * How `program_connector` ends, given whether the connector version is
   * still the one the frame was started with and the kernel's answers to
   * the asynchronous and the synchronous request; the second component is
   * the new `presentation_is_sync`, `None` where it is left alone.  A stale
   * version is refused before anything is committed.  A successful
   * asynchronous flip needs no synchronous one; otherwise the synchronous
   * commit decides, and the presentation counts as synchronous from then on.
   */
  function CommitOutcome(plan: Plan, sameVersion: bool, asyncAnswer: CommitAnswer,
                         syncAnswer: CommitAnswer)
    : (r: (Result<Programmed, MetalError>, Option<bool>))
    ensures !sameVersion ==> r == (Err(OutOfDate), None)
    ensures sameVersion && plan.asyncFlip && asyncAnswer.Committed? ==>
      r == (Ok(Programmed(plan.connector.(outFence := false), plan.primary, plan.cursor)),
            Some(false))
    ensures sameVersion && !(plan.asyncFlip && asyncAnswer.Committed?) ==>
      r.1 == Some(true)
      && (syncAnswer.Refused? ==> r.0 == Err(Commit(syncAnswer.errno)))
      && (syncAnswer.Committed? ==>
            r.0 == Ok(Programmed(plan.connector.(outFence := syncAnswer.outFence),
                                 plan.primary, plan.cursor)))
  {
    if !sameVersion then (Err(OutOfDate), None)
    else if plan.asyncFlip && asyncAnswer.Committed? then
      (Ok(Programmed(plan.connector.(outFence := false), plan.primary, plan.cursor)), Some(false))
    else if syncAnswer.Refused? then (Err(Commit(syncAnswer.errno)), Some(true))
    else (Ok(Programmed(plan.connector.(outFence := syncAnswer.outFence),
                        plan.primary, plan.cursor)), Some(true))
  }

  /**
   * A commit that succeeds was made with the current connector version and
   * leaves the connector state its plan computed, with the counters of
   * `PlanConnector`; a failed one is refused by the version check or the
   * kernel, never by rendering.
   */
  lemma CommittedConnector(plan: Plan, asyncWanted: bool, crtcId: nat, primary: Plane,
                           cursor: Option<CursorProgramming>, newFb: Option<PresentFb>, c: ConnectorDrmState,
                           cursorFence: Option<int>, sameVersion: bool, asyncAnswer: CommitAnswer,
                           syncAnswer: CommitAnswer)
    requires plan == PlanProgram(asyncWanted, crtcId, primary, cursor, newFb, c, cursorFence)
    ensures var o := CommitOutcome(plan, sameVersion, asyncAnswer, syncAnswer).0;
            (o.Err? ==> o.error != RenderFrame)
            && (o.Ok? ==>
                  sameVersion
                  && o.value.connector.fb == (if newFb.Some? then newFb.value.fb else c.fb)
                  && o.value.connector.fbIdx
                     == (if newFb.Some? && newFb.value.direct.None? then c.fbIdx + 1 else c.fbIdx)
                  && o.value.connector.cursorFbIdx
                     == c.cursorFbIdx
                        + (if cursor.Some? && cursor.value.ty.Enable? && cursor.value.ty.swap then 1 else 0))
  {
    PlanConnector(asyncWanted, crtcId, primary, cursor, newFb, c, cursorFence);
  }

  /** What a present needs from outside this connector. */
  datatype PresentEnv = PresentEnv(
    renderContextOk: bool,          // `check_render_context`
    crtcActive: bool,               // the CRTC's `active` property
    crtcId: nat,
    locked: bool,                   // the session lock at latch time
    outputDamage: seq<Rect>,        // damage the output accumulated
    cursorCopyOk: bool,             // copying a redrawn cursor to the device works
    direct: Option<PresentFb>,      // what direct scanout would show, if possible
    renderOk: bool,                 // rendering and copying the frame works
    damageDuringWait: nat,          // damage events arriving while sync files are awaited
    versionAtCommit: nat,           // the connector version when the first commit is made
    versionAtRetry: nat,            // and when the retry without direct scanout is made
    syncFile: Option<int>,          // the backend's signalled sync file
    isNvidia: bool)

  /** The result of one wake-up of `present_loop`. */
  datatype LoopOutcome =
    | Skipped                                   // not idle, no CRTC or no output
    | Retriggered(flip: nat)                    // the connector changed during latching
    | PresentFailed(flip: nat, error: MetalError)
    | Presented(flip: nat)

  /** `MetalConnector`: the per-connector state of the present path. */
  class MetalConnector {
    var buffersIdle: bool
    var crtcIdle: bool
    var version: nat
    var hasDamage: nat
    var cursorDamage: bool
    var cursorChanged: bool
    var cursorEnabled: bool
    var cursorSwapBuffer: bool
    var cursorX: int
    var cursorY: int
    var drmState: ConnectorDrmState
    var primaryPlane: Option<Plane>
    var cursorPlane: Option<Plane>
    var cursorBuffers: seq<CursorBuffer>
    var buffers: Option<seq<RenderBuffer>>
    var tearing: bool
    var supportsAsyncCommit: bool
    var presentationIsSync: bool
    var presentationIsZeroCopy: bool
    var pendingFlip: bool
    var nextFramebuffer: Option<PresentFb>
    var expectedSequence: Option<nat>
    var triggered: bool
    var nextVblankNsec: nat
    var preCommitMargin: nat
    var postCommitMargin: nat

    /** Buffer lists that exist are non-empty; cursor buffers exist with a cursor plane. */
    ghost predicate Valid()
      reads this
    {
      (buffers.Some? ==> |buffers.value| > 0)
      && (cursorPlane.Some? ==> |cursorBuffers| > 0)
    }

    constructor (tearing: bool, supportsAsyncCommit: bool)
      ensures Valid()
      ensures buffersIdle && crtcIdle && !pendingFlip && hasDamage == 0
      ensures this.tearing == tearing && this.supportsAsyncCommit == supportsAsyncCommit
      ensures preCommitMargin == DEFAULT_PRE_COMMIT_MARGIN
      ensures postCommitMargin == DEFAULT_POST_COMMIT_MARGIN
    {
      buffersIdle := true;
      crtcIdle := true;
      version := 0;
      hasDamage := 0;
      cursorDamage := false;
      cursorChanged := false;
      cursorEnabled := false;
      cursorSwapBuffer := false;
      cursorX := 0;
      cursorY := 0;
      drmState := DefaultConnector;
      primaryPlane := None;
      cursorPlane := None;
      cursorBuffers := [];
      buffers := None;
      this.tearing := tearing;
      this.supportsAsyncCommit := supportsAsyncCommit;
      presentationIsSync := true;
      presentationIsZeroCopy := false;
      pendingFlip := false;
      nextFramebuffer := None;
      expectedSequence := None;
      triggered := false;
      nextVblankNsec := 0;
      preCommitMargin := DEFAULT_PRE_COMMIT_MARGIN;
      postCommitMargin := DEFAULT_POST_COMMIT_MARGIN;
    }

    /**
     * `latch_cursor`: when the cursor is damaged and there is a cursor
     * plane, adopt what `present_hardware_cursor` decided and note whether
     * anything the plane shows changed.
     */
    method LatchCursor(hw: HardwareCursorChange, copyOk: bool) returns (res: Result<(), MetalError>)
      modifies this`cursorDamage, this`cursorEnabled, this`cursorSwapBuffer,
               this`cursorX, this`cursorY, this`cursorChanged
      ensures !cursorDamage
      ensures !old(cursorDamage) || cursorPlane.None? ==>
        res.Ok? && cursorEnabled == old(cursorEnabled) && cursorSwapBuffer == old(cursorSwapBuffer)
        && cursorX == old(cursorX) && cursorY == old(cursorY) && cursorChanged == old(cursorChanged)
      ensures old(cursorDamage) && cursorPlane.Some? && hw.swapBuffer && !copyOk ==>
        res == Err(CopyToDevice)
      ensures old(cursorDamage) && cursorPlane.Some? && (!hw.swapBuffer || copyOk) ==>
        res.Ok? && cursorEnabled == hw.enabled && cursorSwapBuffer == hw.swapBuffer
        && cursorX == hw.x && cursorY == hw.y
        && cursorChanged == (old(cursorChanged) || old(cursorEnabled) != hw.enabled
                             || hw.swapBuffer || old(cursorX) != hw.x || old(cursorY) != hw.y)
    {
      var damaged := cursorDamage;
      cursorDamage := false;
      if !damaged || cursorPlane.None? {
        return Ok(());
      }
      if hw.swapBuffer && !copyOk {
        return Err(CopyToDevice);
      }
      cursorSwapBuffer := hw.swapBuffer;
      var changed := cursorEnabled != hw.enabled || hw.swapBuffer
                     || cursorX != hw.x || cursorY != hw.y;
      cursorEnabled := hw.enabled;
      cursorX := hw.x;
      cursorY := hw.y;
      if changed {
        cursorChanged := true;
      }
      return Ok(());
    }

    /** The change this connector plans, with its current tearing setting. */
    function PlannedChange(crtcId: nat, primary: Plane, cursor: Option<CursorProgramming>,
                  newFb: Option<PresentFb>, c: ConnectorDrmState, isNvidia: bool,
                  syncFile: Option<int>): Plan
      reads this`tearing, this`supportsAsyncCommit
    {
      PlanProgram(TryAsyncFlip(tearing, supportsAsyncCommit), crtcId, primary, cursor, newFb, c,
                  if isNvidia then None else syncFile)
    }

    /**
     * `program_connector`: build the change, refuse it when the connector
     * changed since the frame was started, try an asynchronous flip when
     * allowed and otherwise (or when that fails) a synchronous one.
     */
    method ProgramConnector(version: nat, versionNow: nat, crtcId: nat, primary: Plane,
                            cursor: Option<CursorProgramming>, newFb: Option<PresentFb>,
                            c: ConnectorDrmState, syncFile: Option<int>, isNvidia: bool,
                            kernel: CommitRequest -> CommitAnswer)
      returns (res: Result<Programmed, MetalError>)
      modifies this`presentationIsSync
      ensures var plan := PlannedChange(crtcId, primary, cursor, newFb, c, isNvidia, syncFile);
              var o := CommitOutcome(plan, version == versionNow,
                                     kernel(CommitRequest(plan.changes, true)),
                                     kernel(SyncRequest(plan, isNvidia, primary.id, crtcId,
                                                        newFb.Some?, syncFile)));
              res == o.0 && presentationIsSync == o.1.GetOr(old(presentationIsSync))
    {
      var plan := PlannedChange(crtcId, primary, cursor, newFb, c, isNvidia, syncFile);
      if version != versionNow {
        return Err(OutOfDate);
      }
      if plan.asyncFlip {
        var answer := kernel(CommitRequest(plan.changes, true));
        if answer.Committed? {
          presentationIsSync := false;
          return Ok(Programmed(plan.connector.(outFence := false), plan.primary, plan.cursor));
        }
      }
      presentationIsSync := true;
      var answer := kernel(SyncRequest(plan, isNvidia, primary.id, crtcId, newFb.Some?, syncFile));
      if answer.Refused? {
        return Err(Commit(answer.errno));
      }
      return Ok(Programmed(plan.connector.(outFence := answer.outFence),
                           plan.primary, plan.cursor));
    }

    /**
     * `prepare_present_fb`: a direct-scanout buffer when one is allowed and
     * available, otherwise the frame rendered into `buffer`.
     */
    static function PreparePresentFb(buffer: RenderBuffer, latched: Latched, env: PresentEnv,
                                     tryDirect: bool): (r: Result<PresentFb, MetalError>)
      ensures tryDirect && env.direct.Some? ==>
        r == Ok(env.direct.value.(locked := latched.locked))
      ensures !(tryDirect && env.direct.Some?) ==>
        (r.Ok? <==> env.renderOk)
        && (r.Ok? ==> r.value == PresentFb(buffer.fb, None, latched.locked))
    {
      if tryDirect && env.direct.Some? then Ok(env.direct.value.(locked := latched.locked))
      else if !env.renderOk then Err(RenderFrame)
      else Ok(PresentFb(buffer.fb, None, latched.locked))
    }

    /**
     * `present_once`: skip when a flip is outstanding or nothing can be
     * shown, latch cursor and damage, return when neither changed, and
     * otherwise prepare the frame and program the connector.
     */
    method PresentOnce(env: PresentEnv, hw: HardwareCursorChange,
                       kernel: CommitRequest -> CommitAnswer)
      returns (res: Result<(), MetalError>)
      requires Valid()
      modifies this
      ensures Valid()
      ensures !old(buffersIdle) || !old(crtcIdle) || !env.renderContextOk || !env.crtcActive
              || old(primaryPlane).None? || old(buffers).None? ==>
        res.Ok? && unchanged(this)
      ensures old(crtcIdle) && !crtcIdle ==>
        old(buffersIdle) && pendingFlip && !buffersIdle && !cursorChanged
        && (env.versionAtCommit == old(version) || env.versionAtRetry == old(version))
      ensures old(crtcIdle) && !crtcIdle && old(hasDamage) > 0 ==>
        hasDamage == env.damageDuringWait
      ensures crtcIdle ==> hasDamage >= old(hasDamage) && drmState == old(drmState)
      ensures old(crtcIdle) && !crtcIdle ==>
        var bufs := old(buffers).value;
        (old(hasDamage) > 0 ==>
           nextFramebuffer.Some? && nextFramebuffer.value.locked == env.locked
           && buffers == Some(PresentedBuffers(DamageAll(bufs, env.outputDamage),
                                               NextBufferIndex(old(drmState).fbIdx, |bufs|),
                                               nextFramebuffer.value))
           && drmState.fb == nextFramebuffer.value.fb
           && drmState.fbIdx == old(drmState).fbIdx + (if nextFramebuffer.value.direct.None? then 1 else 0))
        && (old(hasDamage) == 0 ==>
              buffers == old(buffers) && drmState.fb == old(drmState).fb && drmState.fbIdx == old(drmState).fbIdx)
      ensures old(crtcIdle) && !crtcIdle ==>
        var latchedCursor := old(cursorDamage) && old(cursorPlane).Some?;
        var enabled := if latchedCursor then hw.enabled else old(cursorEnabled);
        var swap := if latchedCursor then hw.swapBuffer else old(cursorSwapBuffer);
        var changed := old(cursorChanged)
                       || (latchedCursor && (old(cursorEnabled) != hw.enabled || hw.swapBuffer
                                             || old(cursorX) != hw.x || old(cursorY) != hw.y));
        drmState.cursorFbIdx
        == old(drmState).cursorFbIdx + (if changed && old(cursorPlane).Some? && enabled && swap then 1 else 0)
      ensures old(buffersIdle) && old(crtcIdle) && env.renderContextOk && env.crtcActive
              && old(primaryPlane).Some? && old(buffers).Some? ==>
        var latchedCursor := old(cursorDamage) && old(cursorPlane).Some?;
        var cursorFails := latchedCursor && hw.swapBuffer && !env.cursorCopyOk;
        var changed := old(cursorChanged)
                       || (latchedCursor && (old(cursorEnabled) != hw.enabled || hw.swapBuffer
                                             || old(cursorX) != hw.x || old(cursorY) != hw.y));
        var bufs := old(buffers).value;
        var damaged := if old(hasDamage) > 0 then DamageAll(bufs, env.outputDamage) else bufs;
        (cursorFails ==> res == Err(CopyToDevice) && crtcIdle && buffers == old(buffers))
        && (!cursorFails && old(hasDamage) == 0 && !(changed && old(cursorPlane).Some?) ==>
              res.Ok? && crtcIdle && buffers == old(buffers))
        && (!cursorFails && crtcIdle && (old(hasDamage) > 0 || (changed && old(cursorPlane).Some?)) ==>
              buffers == Some(if res == Err(RenderFrame) then damaged else ResetDamage(damaged)))
    {
      var version := this.version;
      if !buffersIdle || !crtcIdle || !env.renderContextOk || !env.crtcActive
         || primaryPlane.None? || buffers.None? {
        return Ok(());
      }
      var lc := LatchCursor(hw, env.cursorCopyOk);
      if lc.Err? {
        return Err(lc.error);
      }
      res := PresentLatched(version, env, kernel);
    }

    /**
     * `present_once` after the cursor was latched: latch the damage, return
     * when neither cursor nor damage changed, and otherwise present the frame.
     */
    method PresentLatched(version: nat, env: PresentEnv, kernel: CommitRequest -> CommitAnswer)
      returns (res: Result<(), MetalError>)
      requires Valid() && buffersIdle && crtcIdle && primaryPlane.Some? && buffers.Some? && version == this.version
      modifies this
      ensures Valid()
      ensures old(hasDamage) == 0 && !(old(cursorChanged) && old(cursorPlane).Some?) ==> res.Ok? && unchanged(this)
      ensures !crtcIdle ==>
        pendingFlip && !buffersIdle && !cursorChanged
        && (env.versionAtCommit == version || env.versionAtRetry == version)
      ensures !crtcIdle && old(hasDamage) > 0 ==> hasDamage == env.damageDuringWait
      ensures crtcIdle ==> hasDamage >= old(hasDamage) && drmState == old(drmState)
      ensures !crtcIdle ==>
        var bufs := old(buffers).value;
        (old(hasDamage) > 0 ==>
           nextFramebuffer.Some? && nextFramebuffer.value.locked == env.locked
           && buffers == Some(PresentedBuffers(DamageAll(bufs, env.outputDamage),
                                               NextBufferIndex(old(drmState).fbIdx, |bufs|),
                                               nextFramebuffer.value))
           && drmState.fb == nextFramebuffer.value.fb
           && drmState.fbIdx == old(drmState).fbIdx + (if nextFramebuffer.value.direct.None? then 1 else 0))
        && (old(hasDamage) == 0 ==>
              buffers == old(buffers) && drmState.fb == old(drmState).fb && drmState.fbIdx == old(drmState).fbIdx)
      ensures !crtcIdle ==>
        drmState.cursorFbIdx
        == old(drmState).cursorFbIdx
           + (if old(cursorChanged) && old(cursorPlane).Some? && old(cursorEnabled) && old(cursorSwapBuffer) then 1 else 0)
      ensures crtcIdle && (old(hasDamage) > 0 || (old(cursorChanged) && old(cursorPlane).Some?)) ==>
        var bufs := old(buffers).value;
        var damaged := if old(hasDamage) > 0 then DamageAll(bufs, env.outputDamage) else bufs;
        buffers == Some(if res == Err(RenderFrame) then damaged else ResetDamage(damaged))
    {
      var bufs := buffers.value;
      var state := drmState;
      var next := NextBufferIndex(state.fbIdx, |bufs|);
      var programming := ComputeCursorProgramming(cursorChanged, cursorPlane, cursorEnabled,
                                                   cursorSwapBuffer, cursorX, cursorY,
                                                   state.cursorFbIdx, cursorBuffers);
      var latched := Latch(hasDamage, env.locked);
      if latched.Some? {
        bufs := DamageAll(bufs, env.outputDamage);
        buffers := Some(bufs);
      }
      if programming.None? && latched.None? {
        return Ok(());
      }
      res := PresentFrame(version, env, next, programming, latched, state, kernel);
    }

    /** The frame of `present_once`: prepare the framebuffer when damage was latched, then commit. */
    method PresentFrame(version: nat, env: PresentEnv, next: nat, programming: Option<CursorProgramming>,
                        latched: Option<Latched>, state: ConnectorDrmState,
                        kernel: CommitRequest -> CommitAnswer)
      returns (res: Result<(), MetalError>)
      requires Valid() && buffers.Some? && primaryPlane.Some? && next < |buffers.value|
      requires latched.Some? ==> hasDamage >= latched.value.damageCount
      requires programming.Some? || latched.Some?
      requires crtcIdle && buffersIdle
      modifies this
      ensures Valid()
      ensures !crtcIdle ==>
        pendingFlip && !buffersIdle && !cursorChanged
        && (env.versionAtCommit == version || env.versionAtRetry == version)
      ensures !crtcIdle && latched.Some? ==>
        hasDamage == old(hasDamage) + env.damageDuringWait - latched.value.damageCount
      ensures crtcIdle ==> hasDamage >= old(hasDamage) && drmState == old(drmState)
      ensures crtcIdle ==>
        buffers == (if res == Err(RenderFrame) then old(buffers) else Some(ResetDamage(old(buffers).value)))
      ensures !crtcIdle ==>
        (latched.Some? ==>
           nextFramebuffer.Some? && nextFramebuffer.value.locked == latched.value.locked
           && buffers == Some(PresentedBuffers(old(buffers).value, next, nextFramebuffer.value))
           && drmState.fb == nextFramebuffer.value.fb
           && drmState.fbIdx == state.fbIdx + (if nextFramebuffer.value.direct.None? then 1 else 0))
        && (latched.None? ==> buffers == old(buffers) && drmState.fb == state.fb && drmState.fbIdx == state.fbIdx)
        && drmState.cursorFbIdx
           == state.cursorFbIdx
              + (if programming.Some? && programming.value.ty.Enable? && programming.value.ty.swap then 1 else 0)
    {
      var fb: Option<PresentFb> := None;
      if latched.Some? {
        var prepared := PreparePresentFb(buffers.value[next], latched.value, env, true);
        if prepared.Err? {
          return Err(prepared.error);
        }
        fb := Some(prepared.value);
      }
      hasDamage := hasDamage + env.damageDuringWait;
      res := CommitFrame(version, env, next, programming, latched, fb, state, kernel);
    }

    /**
     * The second half of `present_once`: program the connector, retry once
     * without direct scanout, and update the connector after the outcome.
     */
    method CommitFrame(version: nat, env: PresentEnv, next: nat,
                       programming: Option<CursorProgramming>, latched: Option<Latched>,
                       fb0: Option<PresentFb>, state: ConnectorDrmState,
                       kernel: CommitRequest -> CommitAnswer)
      returns (res: Result<(), MetalError>)
      requires Valid() && buffers.Some? && primaryPlane.Some? && next < |buffers.value|
      requires latched.Some? ==> hasDamage >= latched.value.damageCount
      requires latched.Some? <==> fb0.Some?
      requires fb0.Some? ==> fb0.value.locked == latched.value.locked
      requires programming.Some? || latched.Some?
      requires crtcIdle && buffersIdle
      modifies this
      ensures Valid()
      ensures !crtcIdle ==>
        pendingFlip && !buffersIdle && !cursorChanged
        && (env.versionAtCommit == version || env.versionAtRetry == version)
      ensures !crtcIdle && latched.Some? ==>
        hasDamage == old(hasDamage) - latched.value.damageCount
      ensures crtcIdle ==> hasDamage == old(hasDamage)
      ensures !crtcIdle ==>
        (latched.Some? ==>
           nextFramebuffer.Some? && nextFramebuffer.value.locked == latched.value.locked
           && buffers == Some(PresentedBuffers(old(buffers).value, next, nextFramebuffer.value))
           && drmState.fb == nextFramebuffer.value.fb
           && drmState.fbIdx == state.fbIdx + (if nextFramebuffer.value.direct.None? then 1 else 0))
        && (latched.None? ==> buffers == old(buffers) && drmState.fb == state.fb && drmState.fbIdx == state.fbIdx)
        && drmState.cursorFbIdx
           == state.cursorFbIdx
              + (if programming.Some? && programming.value.ty.Enable? && programming.value.ty.swap then 1 else 0)
      ensures crtcIdle ==>
        buffers == (if res == Err(RenderFrame) then old(buffers) else Some(ResetDamage(old(buffers).value)))
        && drmState == old(drmState)
    {
      var fb, pr, prepareFailed := AttemptCommit(version, env, next, programming, latched, fb0, state, kernel);
      if prepareFailed {
        return Err(pr.error);
      }
      if pr.Err? {
        buffers := Some(ResetDamage(buffers.value));
        if pr.error == Commit(EACCES) {
          return Ok(());
        }
        return Err(pr.error);
      }
      FinishPresent(next, programming, latched, fb, pr.value);
      return Ok(());
    }

    /**
     * The commit of `present_once` with its retry: program the connector,
     * and when that fails for a direct-scanout frame, render the frame and
     * program it again (`prepareFailed` when that rendering fails).
     */
    method AttemptCommit(version: nat, env: PresentEnv, next: nat,
                         programming: Option<CursorProgramming>, latched: Option<Latched>,
                         fb0: Option<PresentFb>, state: ConnectorDrmState,
                         kernel: CommitRequest -> CommitAnswer)
      returns (fb: Option<PresentFb>, pr: Result<Programmed, MetalError>, prepareFailed: bool)
      requires buffers.Some? && primaryPlane.Some? && next < |buffers.value|
      requires latched.Some? <==> fb0.Some?
      requires fb0.Some? ==> fb0.value.locked == latched.value.locked
      modifies this`presentationIsSync
      ensures fb.Some? <==> latched.Some?
      ensures fb.Some? ==> fb.value.locked == latched.value.locked
      ensures prepareFailed ==> pr == Err(RenderFrame)
      ensures !prepareFailed && pr.Err? ==> pr.error != RenderFrame
      ensures pr.Ok? ==>
        (version == env.versionAtCommit || version == env.versionAtRetry)
        && pr.value.connector.fb == (if fb.Some? then fb.value.fb else state.fb)
        && pr.value.connector.fbIdx == (if fb.Some? && fb.value.direct.None? then state.fbIdx + 1 else state.fbIdx)
        && pr.value.connector.cursorFbIdx
           == state.cursorFbIdx
              + (if programming.Some? && programming.value.ty.Enable? && programming.value.ty.swap then 1 else 0)
    {
      fb, prepareFailed := fb0, false;
      var primary := primaryPlane.value;
      pr := CommitPlanned(version, env.versionAtCommit, env, primary, programming, fb, state, kernel);
      if pr.Err? && fb.Some? && fb.value.direct.Some? {
        var prepared := PreparePresentFb(buffers.value[next], latched.value, env, false);
        if prepared.Err? {
          return fb, Err(prepared.error), true;
        }
        fb := Some(prepared.value);
        pr := CommitPlanned(version, env.versionAtRetry, env, primary, programming, fb, state, kernel);
      }
    }

    /** `program_connector` for a frame, with what its success says about the connector state. */
    method CommitPlanned(version: nat, versionNow: nat, env: PresentEnv, primary: Plane,
                         programming: Option<CursorProgramming>, fb: Option<PresentFb>, state: ConnectorDrmState,
                         kernel: CommitRequest -> CommitAnswer)
      returns (pr: Result<Programmed, MetalError>)
      modifies this`presentationIsSync
      ensures pr.Err? ==> pr.error != RenderFrame
      ensures pr.Ok? ==>
        version == versionNow
        && pr.value.connector.fb == (if fb.Some? then fb.value.fb else state.fb)
        && pr.value.connector.fbIdx == (if fb.Some? && fb.value.direct.None? then state.fbIdx + 1 else state.fbIdx)
        && pr.value.connector.cursorFbIdx
           == state.cursorFbIdx
              + (if programming.Some? && programming.value.ty.Enable? && programming.value.ty.swap then 1 else 0)
    {
      ghost var plan := PlannedChange(env.crtcId, primary, programming, fb, state, env.isNvidia, env.syncFile);
      pr := ProgramConnector(version, versionNow, env.crtcId, primary, programming, fb, state, env.syncFile,
                             env.isNvidia, kernel);
      CommittedConnector(plan, TryAsyncFlip(tearing, supportsAsyncCommit), env.crtcId, primary, programming, fb,
                         state, if env.isNvidia then None else env.syncFile, version == versionNow,
                         kernel(CommitRequest(plan.changes, true)),
                         kernel(SyncRequest(plan, env.isNvidia, primary.id, env.crtcId, fb.Some?, env.syncFile)));
    }

    /** The success branch of `present_once`. */
    method FinishPresent(next: nat, programming: Option<CursorProgramming>,
                         latched: Option<Latched>, fb: Option<PresentFb>, p: Programmed)
      requires Valid() && buffers.Some? && primaryPlane.Some? && next < |buffers.value|
      requires latched.Some? ==> hasDamage >= latched.value.damageCount
      modifies this`pendingFlip, this`crtcIdle, this`drmState, this`primaryPlane,
               this`cursorPlane, this`presentationIsZeroCopy, this`buffers,
               this`nextFramebuffer, this`cursorSwapBuffer, this`buffersIdle,
               this`hasDamage, this`cursorChanged
      ensures Valid()
      ensures pendingFlip && !crtcIdle && !buffersIdle && !cursorChanged
      ensures drmState == p.connector
      ensures p.primary.Some? ==>
        primaryPlane == Some(old(primaryPlane).value.(state := p.primary.value))
      ensures p.primary.None? ==> primaryPlane == old(primaryPlane)
      ensures old(cursorPlane).Some? && p.cursor.Some? ==>
        cursorPlane == Some(old(cursorPlane).value.(state := p.cursor.value))
      ensures fb.Some? ==>
        nextFramebuffer == fb && presentationIsZeroCopy == fb.value.direct.Some?
        && buffers == Some(PresentedBuffers(old(buffers).value, next, fb.value))
      ensures fb.None? ==> buffers == old(buffers) && nextFramebuffer == old(nextFramebuffer)
      ensures programming.Some? && programming.value.ty.Enable? && programming.value.ty.swap ==>
        !cursorSwapBuffer
      ensures !(programming.Some? && programming.value.ty.Enable? && programming.value.ty.swap) ==>
        cursorSwapBuffer == old(cursorSwapBuffer)
      ensures latched.Some? ==> hasDamage == old(hasDamage) - latched.value.damageCount
      ensures latched.None? ==> hasDamage == old(hasDamage)
    {
      StorePlanes(p);
      StoreFrame(next, programming, latched, fb);
    }

    /** The CRTC now has a flip pending; connector and planes take the committed state. */
    method StorePlanes(p: Programmed)
      requires primaryPlane.Some?
      modifies this`pendingFlip, this`crtcIdle, this`drmState, this`primaryPlane,
               this`cursorPlane
      ensures pendingFlip && !crtcIdle && drmState == p.connector
      ensures primaryPlane.Some? && cursorPlane.Some? == old(cursorPlane).Some?
      ensures p.primary.Some? ==>
        primaryPlane == Some(old(primaryPlane).value.(state := p.primary.value))
      ensures p.primary.None? ==> primaryPlane == old(primaryPlane)
      ensures old(cursorPlane).Some? && p.cursor.Some? ==>
        cursorPlane == Some(old(cursorPlane).value.(state := p.cursor.value))
      ensures !(old(cursorPlane).Some? && p.cursor.Some?) ==> cursorPlane == old(cursorPlane)
    {
      pendingFlip := true;
      crtcIdle := false;
      drmState := p.connector;
      primaryPlane := if p.primary.Some? then Some(primaryPlane.value.(state := p.primary.value))
                      else primaryPlane;
      cursorPlane := if cursorPlane.Some? && p.cursor.Some?
                     then Some(cursorPlane.value.(state := p.cursor.value)) else cursorPlane;
    }

    /** The buffers, cursor and damage bookkeeping after a successful commit. */
    method StoreFrame(next: nat, programming: Option<CursorProgramming>,
                      latched: Option<Latched>, fb: Option<PresentFb>)
      requires buffers.Some? && |buffers.value| > 0 && next < |buffers.value|
      requires latched.Some? ==> hasDamage >= latched.value.damageCount
      modifies this`presentationIsZeroCopy, this`buffers, this`nextFramebuffer,
               this`cursorSwapBuffer, this`buffersIdle, this`hasDamage, this`cursorChanged
      ensures !buffersIdle && !cursorChanged
      ensures buffers.Some? && |buffers.value| == |old(buffers).value|
      ensures fb.Some? ==>
        nextFramebuffer == fb && presentationIsZeroCopy == fb.value.direct.Some?
        && buffers == Some(PresentedBuffers(old(buffers).value, next, fb.value))
      ensures fb.None? ==> buffers == old(buffers) && nextFramebuffer == old(nextFramebuffer)
      ensures programming.Some? && programming.value.ty.Enable? && programming.value.ty.swap ==>
        !cursorSwapBuffer
      ensures !(programming.Some? && programming.value.ty.Enable? && programming.value.ty.swap) ==>
        cursorSwapBuffer == old(cursorSwapBuffer)
      ensures latched.Some? ==> hasDamage == old(hasDamage) - latched.value.damageCount
      ensures latched.None? ==> hasDamage == old(hasDamage)
    {
      if fb.Some? {
        presentationIsZeroCopy := fb.value.direct.Some?;
        buffers := Some(PresentedBuffers(buffers.value, next, fb.value));
        nextFramebuffer := fb;
      }
      var swapped := programming.Some? && programming.value.ty.Enable? && programming.value.ty.swap;
      cursorSwapBuffer := if swapped then false else cursorSwapBuffer;
      buffersIdle := false;
      hasDamage := if latched.Some? then hasDamage - latched.value.damageCount else hasDamage;
      cursorChanged := false;
    }

    /**
     * One wake-up of `present_loop`: skip while a flip is outstanding, plan
     * the frame, retrigger when the connector changed during latching, and
     * remember the expected vblank sequence after a scheduled present.
     */
    method PresentLoopStep(crtcSequence: Option<nat>, hasOutput: bool, start: nat, woke: nat,
                           versionAtLatch: nat, env: PresentEnv, hw: HardwareCursorChange,
                           kernel: CommitRequest -> CommitAnswer)
      returns (o: LoopOutcome)
      requires Valid()
      modifies this
      ensures Valid()
      ensures !old(buffersIdle) || !old(crtcIdle) || crtcSequence.None? || !hasOutput ==>
        o == Skipped && !triggered
      ensures o.Retriggered? <==>
        old(buffersIdle) && old(crtcIdle) && crtcSequence.Some? && hasOutput
        && versionAtLatch != old(version)
      ensures o.Retriggered? ==> triggered
      ensures !o.Skipped? ==>
        var asyncFlip := TryAsyncFlip(old(tearing), old(supportsAsyncCommit));
        var s := PlanPresent(crtcSequence.value, start, old(nextVblankNsec),
                             old(preCommitMargin), old(postCommitMargin), asyncFlip);
        o.flip == (if asyncFlip then start
                   else old(nextVblankNsec))
        && (o.Presented? && !asyncFlip ==> expectedSequence == Some(s.expectedSequence))
    {
      triggered := false;
      if !buffersIdle || !crtcIdle || crtcSequence.None? || !hasOutput {
        return Skipped;
      }
      var v := version;
      var asyncFlip := TryAsyncFlip(tearing, supportsAsyncCommit);
      var s := PlanPresent(crtcSequence.value, start, nextVblankNsec, preCommitMargin,
                           postCommitMargin, asyncFlip);
      var now := if s.wait.Some? then woke else start;
      var flip := if asyncFlip then now else nextVblankNsec;
      version := versionAtLatch;
      if v != version {
        triggered := true;
        return Retriggered(flip);
      }
      var r := PresentOnce(env, hw, kernel);
      if r.Err? {
        return PresentFailed(flip, r.error);
      }
      if !asyncFlip {
        expectedSequence := Some(s.expectedSequence);
      }
      return Presented(flip);
    }
  }
}
