/**
 * wl_surface: the double-buffered pending state of a surface and the merge
 * of a newer pending state into a cached one, damage accumulation with its
 * collapse to full damage, role assignment, the explicit-sync check made at
 * commit time, `apply_state` (transform, viewport, buffer, size,
 * attributes, the hand-over of frame requests and the reset of the pending
 * damage), the surface extents (own rectangle united with the extents of
 * the sub-surfaces) and the tree-transaction barriers of a surface.
 */
module WlSurface {
  import opened Wrappers
  import opened Rects
  import opened Transforms

  /** A damage list longer than this collapses the pending state to full damage. */
  const MAX_DAMAGE: nat := 32
  /** From this protocol version on, `attach` must not carry an offset. */
  const OFFSET_SINCE: nat := 5

  datatype SurfaceRole = NoRole | Subsurface | XdgSurface | Cursor | DndIcon
                       | ZwlrLayerSurface | XSurface | ExtSessionLockSurface
                       | InputPopup | TrayItem

  datatype SurfaceError =
    | IncompatibleRole(oldRole: SurfaceRole, newRole: SurfaceRole)
    | InvalidRect
    | MissingSyncPoints
    | UnexpectedSyncPoints
    | OffsetInAttach
    | NonPositiveBufferScale
    | NonIntegerViewportSize

  // ---------------------------------------------------------------------
  // Roles

  /** `set_role`: the role a surface has after asking for `role`. */
  function RoleChange(current: SurfaceRole, role: SurfaceRole): (r: Result<SurfaceRole, SurfaceError>)
    ensures r.Ok? <==> current == NoRole || current == role
    ensures r.Ok? ==> r.value == role
    ensures r.Err? ==> r.error == IncompatibleRole(current, role)
  {
    if current == NoRole || current == role then Ok(role)
    else Err(IncompatibleRole(current, role))
  }

  // ---------------------------------------------------------------------
  // Damage

  /** The damage part of a pending state. */
  datatype Damage = Damage(full: bool, buffer: seq<Rect>, surface: seq<Rect>)

  const NoDamage := Damage(false, [], [])
  /** The state `PendingState::damage_full` leaves behind. */
  const FullDamage := Damage(true, [], [])

  /** Neither list exceeds the collapse bound. */
  predicate Bounded(d: Damage) {
    |d.buffer| <= MAX_DAMAGE && |d.surface| <= MAX_DAMAGE
  }

  /** `PendingState::has_damage` */
  predicate HasDamage(d: Damage) {
    d.full || |d.buffer| > 0 || |d.surface| > 0
  }

  /** All rectangles of a damage list are well formed. */
  ghost predicate AllValid(rs: seq<Rect>) {
    forall i :: 0 <= i < |rs| ==> rs[i].Valid()
  }

  /** The damage part of `PendingState::merge(self = a, next = b)`. */
  function MergeDamage(a: Damage, b: Damage): (r: Damage)
    ensures r.full <==> a.full || b.full || |a.buffer| + |b.buffer| > MAX_DAMAGE
                        || |a.surface| + |b.surface| > MAX_DAMAGE
    ensures !r.full ==> r.buffer == a.buffer + b.buffer && r.surface == a.surface + b.surface
    ensures r.full && !a.full && !b.full ==> r.buffer == [] && r.surface == []
    ensures a.full || b.full ==> r.buffer == a.buffer && r.surface == a.surface
    ensures Bounded(a) ==> Bounded(r)
    ensures HasDamage(a) || HasDamage(b) ==> HasDamage(r)
  {
    if a.full || b.full then Damage(true, a.buffer, a.surface)
    else if |a.buffer| + |b.buffer| > MAX_DAMAGE then FullDamage
    else if |a.surface| + |b.surface| > MAX_DAMAGE then FullDamage
    else Damage(false, a.buffer + b.buffer, a.surface + b.surface)
  }

  datatype DamageList = BufferDamage | SurfaceDamage

  function ListOf(d: Damage, which: DamageList): seq<Rect> {
    if which == BufferDamage then d.buffer else d.surface
  }

  /** `do_damage`: one `damage` or `damage_buffer` request. */
  function AddDamage(d: Damage, which: DamageList, x: int, y: int, width: int, height: int)
    : (r: Result<Damage, SurfaceError>)
    ensures r.Err? <==> !d.full && |ListOf(d, which)| < MAX_DAMAGE && (width < 0 || height < 0)
    ensures r.Err? ==> r.error == InvalidRect
    ensures d.full ==> r == Ok(d)
    ensures !d.full && |ListOf(d, which)| >= MAX_DAMAGE ==> r == Ok(FullDamage)
    ensures r.Ok? && !r.value.full ==>
              ListOf(r.value, which) == ListOf(d, which) + [Rect(x, y, x + width, y + height)]
              && (which == BufferDamage ==> r.value.surface == d.surface)
              && (which == SurfaceDamage ==> r.value.buffer == d.buffer)
    ensures r.Ok? && Bounded(d) ==> Bounded(r.value) && HasDamage(r.value)
  {
    if d.full then Ok(d)
    else if |ListOf(d, which)| >= MAX_DAMAGE then Ok(FullDamage)
    else match NewSized(x, y, width, height)
      case None => Err(InvalidRect)
      case Some(rect) =>
        if which == BufferDamage then Ok(Damage(false, d.buffer + [rect], d.surface))
        else Ok(Damage(false, d.buffer, d.surface + [rect]))
  }

  /** A damage request of the client: origin and size. */
  datatype DamageRequest = DamageRequest(x: int, y: int, width: int, height: int)

  /** Several damage requests on one list, stopping at the first error. */
  function AddAllDamage(d: Damage, which: DamageList, reqs: seq<DamageRequest>)
    : Result<Damage, SurfaceError>
    decreases |reqs|
  {
    if reqs == [] then Ok(d)
    else match AddDamage(d, which, reqs[0].x, reqs[0].y, reqs[0].width, reqs[0].height)
      case Err(e) => Err(e)
      case Ok(d') => AddAllDamage(d', which, reqs[1..])
  }

  /**
   * More than MAX_DAMAGE well-formed requests on one list always end in full
   * damage: the collapse the integration test of surface damage relies on.
   */
  lemma {:induction false} ManyRequestsCollapse(d: Damage, which: DamageList, reqs: seq<DamageRequest>)
    requires Bounded(d)
    requires forall i :: 0 <= i < |reqs| ==> reqs[i].width >= 0 && reqs[i].height >= 0
    requires |ListOf(d, which)| + |reqs| > MAX_DAMAGE
    ensures AddAllDamage(d, which, reqs).Ok?
    ensures AddAllDamage(d, which, reqs).value.full
    decreases |reqs|
  {
    var r := reqs[0];
    var d' := AddDamage(d, which, r.x, r.y, r.width, r.height).value;
    if d'.full {
      FullStaysFull(d', which, reqs[1..]);
    } else {
      ManyRequestsCollapse(d', which, reqs[1..]);
    }
  }

  /** Once full damage is set, further well-formed or malformed requests add nothing. */
  lemma {:induction false} FullStaysFull(d: Damage, which: DamageList, reqs: seq<DamageRequest>)
    requires d.full
    ensures AddAllDamage(d, which, reqs) == Ok(d)
    decreases |reqs|
  {
    if reqs != [] {
      FullStaysFull(d, which, reqs[1..]);
    }
  }

  // ---------------------------------------------------------------------
  // Explicit synchronisation

  /**
   * `verify_explicit_sync`: with explicit sync, a new buffer needs both an
   * acquire and a release point and no new buffer admits neither.
   */
  function ExplicitSyncCheck(explicitSync: bool, hasRelease: bool, hasAcquire: bool, newBuffer: bool)
    : (r: Result<(), SurfaceError>)
    ensures !explicitSync ==> r.Ok?
    ensures r.Ok? <==> !explicitSync || (newBuffer && hasRelease && hasAcquire)
                        || (!newBuffer && !hasRelease && !hasAcquire)
    ensures r == Err(MissingSyncPoints) <==> explicitSync && newBuffer && !(hasRelease && hasAcquire)
    ensures r == Err(UnexpectedSyncPoints) <==> explicitSync && !newBuffer && (hasRelease || hasAcquire)
  {
    if !explicitSync then Ok(())
    else if hasRelease && hasAcquire && newBuffer then Ok(())
    else if !hasRelease && !hasAcquire && !newBuffer then Ok(())
    else if newBuffer then Err(MissingSyncPoints)
    else Err(UnexpectedSyncPoints)
  }

  // ---------------------------------------------------------------------
  // Sizes and extents

  /** `(a + s - 1) / s` is the ceiling of a / s. */
  lemma CeilDiv(a: nat, s: int)
    requires s >= 1
    ensures (a + s - 1) / s * s >= a
    ensures ((a + s - 1) / s - 1) * s < a || a == 0
    ensures (a + s - 1) / s >= 0
  {
    var q := (a + s - 1) / s;
    var m := (a + s - 1) % s;
    assert a + s - 1 == q * s + m;
    assert 0 <= m < s;
    assert q * s == a + s - 1 - m;
    assert (q - 1) * s == q * s - s;
  }

  /**
   * Surface size derived from the buffer when no viewport is set: the
   * transformed buffer size divided by the scale, rounded up.
   */
  function BufferSurfaceSize(bufWidth: nat, bufHeight: nat, t: Transform, scale: int): (r: (int, int))
    requires scale >= 1
    ensures var (tw, th) := MaybeSwap(t, bufWidth, bufHeight);
            r.0 >= 0 && r.1 >= 0
            && r.0 * scale >= tw && (tw == 0 || (r.0 - 1) * scale < tw)
            && r.1 * scale >= th && (th == 0 || (r.1 - 1) * scale < th)
    ensures scale == 1 ==> r == MaybeSwap(t, bufWidth, bufHeight)
  {
    var (w, h) := MaybeSwap(t, bufWidth, bufHeight);
    CeilDiv(w, scale);
    CeilDiv(h, scale);
    if scale != 1 then ((w + scale - 1) / scale, (h + scale - 1) / scale) else (w, h)
  }

  /** A sub-surface's extents and its position relative to the parent. */
  datatype ChildExtents = ChildExtents(extents: Rect, x: int, y: int)

  ghost predicate ChildrenValid(cs: seq<ChildExtents>) {
    forall i :: 0 <= i < |cs| ==> cs[i].extents.Valid()
  }

  /** The child's extents in the parent's coordinates. */
  function Placed(c: ChildExtents): Rect {
    Move(c.extents, c.x, c.y)
  }

  /** One iteration of the loop in `calculate_extents`. */
  function ExtentsStep(acc: Rect, c: ChildExtents): (r: Rect)
    requires acc.Valid() && c.extents.Valid()
    ensures r.Valid()
  {
    if c.extents.IsEmpty() then acc
    else if acc.IsEmpty() then Placed(c)
    else Union(acc, Placed(c))
  }

  /** The extents accumulated from `acc` over the remaining children. */
  function ExtentsFold(acc: Rect, cs: seq<ChildExtents>): (r: Rect)
    requires acc.Valid() && ChildrenValid(cs)
    ensures r.Valid()
    decreases |cs|
  {
    if cs == [] then acc else ExtentsFold(ExtentsStep(acc, cs[0]), cs[1..])
  }

  /** A non-empty accumulator is contained in everything accumulated from it. */
  lemma {:induction false} FoldContainsAcc(acc: Rect, cs: seq<ChildExtents>)
    requires acc.Valid() && ChildrenValid(cs) && !acc.IsEmpty()
    ensures Contains(ExtentsFold(acc, cs), acc)
    ensures !ExtentsFold(acc, cs).IsEmpty()
    decreases |cs|
  {
    if cs != [] {
      var s := ExtentsStep(acc, cs[0]);
      assert Contains(s, acc) && !s.IsEmpty();
      FoldContainsAcc(s, cs[1..]);
    }
  }

  /** Every non-empty child, moved to its position, lies inside the extents. */
  lemma {:induction false} FoldContainsChildren(acc: Rect, cs: seq<ChildExtents>, k: nat)
    requires acc.Valid() && ChildrenValid(cs) && k < |cs|
    requires !cs[k].extents.IsEmpty()
    ensures Contains(ExtentsFold(acc, cs), Placed(cs[k]))
    decreases |cs|
  {
    var s := ExtentsStep(acc, cs[0]);
    if k == 0 {
      assert Contains(s, Placed(cs[0])) && !s.IsEmpty();
      FoldContainsAcc(s, cs[1..]);
    } else {
      FoldContainsChildren(s, cs[1..], k - 1);
    }
  }

  /** Without non-empty children the extents are the own rectangle. */
  lemma {:induction false} FoldOfEmptyChildren(acc: Rect, cs: seq<ChildExtents>)
    requires acc.Valid() && ChildrenValid(cs)
    requires forall i :: 0 <= i < |cs| ==> cs[i].extents.IsEmpty()
    ensures ExtentsFold(acc, cs) == acc
    decreases |cs|
  {
    if cs != [] {
      FoldOfEmptyChildren(acc, cs[1..]);
    }
  }

  // ---------------------------------------------------------------------
  // The pending state

  datatype SyncPoint = SyncPoint(syncObj: nat, point: nat)
  /** A client buffer as far as the surface is concerned. */
  datatype BufferRef = BufferRef(id: nat, width: nat, height: nat)

  /** What merging a pending state with a newer one releases of the older one. */
  datatype Released = NothingReleased | SignalReleasePoint(point: SyncPoint) | ReleaseBuffer(id: nat)

  /**
   * A wire fixed-point number by its raw 24.8 value.  `Fixed` lives in a
   * file that is not part of this model; `is_integer` is read as "no
   * fractional bits" and `to_int` as the arithmetic shift by 8.
   */
  datatype Fixed = Fixed(raw: int)

  predicate IsInteger(f: Fixed) {
    f.raw % 256 == 0
  }

  function ToInt(f: Fixed): int {
    f.raw / 256
  }

  /** A viewport source rectangle `[x, y, width, height]`. */
  datatype SrcRect = SrcRect(x: Fixed, y: Fixed, width: Fixed, height: Fixed)

  /** `PendingXdgSurfaceData`: the pending window geometry. */
  datatype XdgPending = XdgPending(geometry: Option<Rect>)

  /** Stands for `PendingLayerSurfaceData`, whose fields are not part of this model. */
  datatype LayerPending = LayerPending(state: nat)

  /**
   * `AttachedSubsurfaceState`: a sub-surface and its pending sub-surface
   * data, the latter by a stand-in (its type is not part of this model).
   */
  datatype AttachedSubsurface = AttachedSubsurface(subsurface: nat, pending: nat)

  /** `opt!` of `merge`: a value set in the newer state overwrites the older one. */
  function Newer<T>(older: Option<T>, newer: Option<T>): (r: Option<T>)
    ensures r.None? <==> older.None? && newer.None?
    ensures newer.Some? ==> r == newer
    ensures newer.None? ==> r == older
  {
    if newer.Some? then newer else older
  }

  /** The thirteen fields `merge` treats with `opt!`, in the order of the source. */
  datatype Optionals = Optionals(
    opaqueRegion: Option<Option<nat>>,
    inputRegion: Option<Option<nat>>,
    srcRect: Option<Option<SrcRect>>,
    dstSize: Option<Option<(int, int)>>,
    scale: Option<int>,
    transform: Option<Transform>,
    xwaylandSerial: Option<nat>,
    tearing: Option<bool>,
    contentType: Option<Option<nat>>,
    alphaMultiplier: Option<Option<real>>,
    commitTime: Option<nat>,
    colorDescription: Option<Option<nat>>,
    serial: Option<nat>)

  const NoOptionals := Optionals(None, None, None, None, None, None, None, None, None, None, None, None, None)

  /** Field by field, the newer value where it is set and the older one otherwise. */
  function MergeOptionalsOf(a: Optionals, b: Optionals): Optionals {
    Optionals(
      Newer(a.opaqueRegion, b.opaqueRegion), Newer(a.inputRegion, b.inputRegion),
      Newer(a.srcRect, b.srcRect), Newer(a.dstSize, b.dstSize), Newer(a.scale, b.scale),
      Newer(a.transform, b.transform), Newer(a.xwaylandSerial, b.xwaylandSerial),
      Newer(a.tearing, b.tearing), Newer(a.contentType, b.contentType),
      Newer(a.alphaMultiplier, b.alphaMultiplier), Newer(a.commitTime, b.commitTime),
      Newer(a.colorDescription, b.colorDescription), Newer(a.serial, b.serial))
  }

  /**
   * Merging the optional fields is associative and has the empty state as
   * its unit, so a surface that caches several commits (a synchronized
   * sub-surface) ends with the same values however they were grouped.
   */
  lemma OptionalsMergeMonoid(a: Optionals, b: Optionals, c: Optionals)
    ensures MergeOptionalsOf(MergeOptionalsOf(a, b), c) == MergeOptionalsOf(a, MergeOptionalsOf(b, c))
    ensures MergeOptionalsOf(NoOptionals, a) == a && MergeOptionalsOf(a, NoOptionals) == a
  {
  }

  /**
   * `merge_ext!`: an older role state absorbs the newer one (`merge`
   * yields the merged state and what is left of the newer one); without an
   * older state the newer one moves over.
   */
  function MergeExt<X>(older: Option<X>, newer: Option<X>, merge: (X, X) -> (X, X)): (r: (Option<X>, Option<X>))
    ensures r.0.None? <==> older.None? && newer.None?
    ensures older.None? ==> r == (newer, None)
    ensures older.Some? && newer.None? ==> r == (older, None)
    ensures older.Some? && newer.Some? ==>
              r == (Some(merge(older.value, newer.value).0), Some(merge(older.value, newer.value).1))
  {
    if older.None? then (newer, None)
    else if newer.None? then (older, None)
    else
      var (m, rest) := merge(older.value, newer.value);
      (Some(m), Some(rest))
  }

  /**
   * The sub-surface states after `merge`: a sub-surface pending in both
   * keeps its older entry with the pending data merged (`merge` stands for
   * `PendingSubsurfaceData::merge`), one pending only in the newer state
   * is moved over, the others stay.
   */
  function MergeSubsurfaceMaps(older: map<nat, AttachedSubsurface>, newer: map<nat, AttachedSubsurface>,
                               merge: (nat, nat) -> nat)
    : (r: map<nat, AttachedSubsurface>)
    ensures r.Keys == older.Keys + newer.Keys
    ensures forall id | id in older && id !in newer :: r[id] == older[id]
    ensures forall id | id in newer && id !in older :: r[id] == newer[id]
    ensures forall id | id in older && id in newer ::
              r[id] == AttachedSubsurface(older[id].subsurface, merge(older[id].pending, newer[id].pending))
  {
    map id | id in older.Keys + newer.Keys ::
      if id in older && id in newer
      then AttachedSubsurface(older[id].subsurface, merge(older[id].pending, newer[id].pending))
      else if id in newer then newer[id]
      else older[id]
  }

  /** One entry of the newer map drained into the older one. */
  function MergeEntry(older: map<nat, AttachedSubsurface>, id: nat, s: AttachedSubsurface,
                      merge: (nat, nat) -> nat)
    : map<nat, AttachedSubsurface>
  {
    if id in older then older[id := AttachedSubsurface(older[id].subsurface, merge(older[id].pending, s.pending))]
    else older[id := s]
  }

  /** Draining one entry does not change the result of the whole merge. */
  lemma MergeEntryStep(older: map<nat, AttachedSubsurface>, newer: map<nat, AttachedSubsurface>, id: nat,
                       merge: (nat, nat) -> nat)
    requires id in newer
    ensures MergeSubsurfaceMaps(MergeEntry(older, id, newer[id], merge), newer - {id}, merge)
            == MergeSubsurfaceMaps(older, newer, merge)
  {
    var a := MergeSubsurfaceMaps(MergeEntry(older, id, newer[id], merge), newer - {id}, merge);
    var b := MergeSubsurfaceMaps(older, newer, merge);
    assert a.Keys == b.Keys;
    forall k | k in a.Keys
      ensures a[k] == b[k]
    {
    }
  }

  /** Merging with no newer sub-surface states changes nothing. */
  lemma MergeWithNothing(older: map<nat, AttachedSubsurface>, merge: (nat, nat) -> nat)
    ensures MergeSubsurfaceMaps(older, map[], merge) == older
  {
    var r := MergeSubsurfaceMaps(older, map[], merge);
    assert r.Keys == older.Keys;
    forall k | k in r.Keys
      ensures r[k] == older[k]
    {
    }
  }

  class PendingState {
    var buffer: Option<Option<BufferRef>>
    var offset: (int, int)
    var frameRequests: seq<nat>
    var damageFull: bool
    var bufferDamage: seq<Rect>
    var surfaceDamage: seq<Rect>
    /** the thirteen `opt!` fields */
    var opts: Optionals
    var xdgSurface: Option<XdgPending>
    var layerSurface: Option<LayerPending>
    var subsurfaces: map<nat, AttachedSubsurface>
    var acquirePoint: Option<SyncPoint>
    var releasePoint: Option<SyncPoint>
    var explicitSync: bool
    var fifoBarrierSet: bool
    var fifoBarrierWait: bool

    function DamageOf(): Damage
      reads this`damageFull, this`bufferDamage, this`surfaceDamage
    {
      Damage(damageFull, bufferDamage, surfaceDamage)
    }

    ghost predicate Valid()
      reads this`damageFull, this`bufferDamage, this`surfaceDamage
    {
      Bounded(DamageOf())
    }

    /** true iff nothing was requested since the last commit */
    ghost predicate IsEmpty()
      reads this
    {
      buffer == None && offset == (0, 0) && frameRequests == [] && DamageOf() == NoDamage
      && opts == NoOptionals && xdgSurface == None && layerSurface == None
      && subsurfaces == map[] && acquirePoint == None && releasePoint == None && !explicitSync
      && !fifoBarrierSet && !fifoBarrierWait
    }

    constructor ()
      ensures Valid() && IsEmpty()
    {
      buffer, offset, frameRequests := None, (0, 0), [];
      damageFull, bufferDamage, surfaceDamage := false, [], [];
      opts := NoOptionals;
      xdgSurface, layerSurface, subsurfaces := None, None, map[];
      acquirePoint, releasePoint, explicitSync := None, None, false;
      fifoBarrierSet, fifoBarrierWait := false, false;
    }

    /** `PendingState::damage_full` */
    method SetDamageFull()
      modifies this`damageFull, this`bufferDamage, this`surfaceDamage
      ensures DamageOf() == FullDamage && Valid()
    {
      damageFull := true;
      bufferDamage := [];
      surfaceDamage := [];
    }

    /** `do_damage` on this pending state. */
    method DoDamage(which: DamageList, x: int, y: int, width: int, height: int)
      returns (res: Result<(), SurfaceError>)
      requires Valid()
      modifies this`damageFull, this`bufferDamage, this`surfaceDamage
      ensures Valid()
      ensures var r := AddDamage(old(DamageOf()), which, x, y, width, height);
              (res.Ok? <==> r.Ok?) && (r.Ok? ==> DamageOf() == r.value)
              && (r.Err? ==> res == Err(r.error) && DamageOf() == old(DamageOf()))
    {
      if !damageFull {
        var len := if which == BufferDamage then |bufferDamage| else |surfaceDamage|;
        if len >= MAX_DAMAGE {
          SetDamageFull();
        } else {
          var rect := NewSized(x, y, width, height);
          if rect.None? {
            return Err(InvalidRect);
          }
          if which == BufferDamage {
            bufferDamage := bufferDamage + [rect.value];
          } else {
            surfaceDamage := surfaceDamage + [rect.value];
          }
        }
      }
      res := Ok(());
    }

    /** The end of `apply_state`: frame requests and the fifo barrier flag are handed over and the damage is reset. */
    method TakeCommitted() returns (fifoBarrier: bool, frames: seq<nat>)
      modifies this`frameRequests, this`damageFull, this`bufferDamage, this`surfaceDamage,
               this`fifoBarrierSet, this`fifoBarrierWait
      ensures frames == old(frameRequests) && frameRequests == []
      ensures fifoBarrier == old(fifoBarrierSet) && !fifoBarrierSet
      ensures DamageOf() == NoDamage && !fifoBarrierWait && Valid()
    {
      fifoBarrier := fifoBarrierSet;
      fifoBarrierSet := false;
      frames := frameRequests;
      frameRequests := [];
      bufferDamage := [];
      surfaceDamage := [];
      damageFull := false;
      fifoBarrierWait := false;
    }

    /**
     * The buffer part of `merge`: a newer attach first releases what the
     * older state held (its release point, else its live buffer), then
     * replaces buffer, sync points and the explicit-sync flag.
     */
    method MergeBuffer(next: PendingState, destroyed: set<nat>) returns (released: Released)
      requires next != this
      modifies this`buffer, this`acquirePoint, this`releasePoint, this`explicitSync
      modifies next`buffer, next`acquirePoint, next`releasePoint, next`explicitSync
      ensures old(next.buffer).Some? ==>
                buffer == old(next.buffer) && acquirePoint == old(next.acquirePoint)
                && releasePoint == old(next.releasePoint) && explicitSync == old(next.explicitSync)
                && next.acquirePoint == None && next.releasePoint == None && !next.explicitSync
      ensures old(next.buffer).None? ==>
                buffer == old(buffer) && acquirePoint == old(acquirePoint)
                && releasePoint == old(releasePoint) && explicitSync == old(explicitSync)
                && next.acquirePoint == old(next.acquirePoint)
                && next.releasePoint == old(next.releasePoint)
                && next.explicitSync == old(next.explicitSync)
      ensures next.buffer == None
      ensures released ==
                if old(next.buffer).None? then NothingReleased
                else if old(releasePoint).Some? then SignalReleasePoint(old(releasePoint).value)
                else if old(buffer).Some? && old(buffer).value.Some?
                        && old(buffer).value.value.id !in destroyed
                then ReleaseBuffer(old(buffer).value.value.id)
                else NothingReleased
    {
      released := NothingReleased;
      if next.buffer.Some? {
        if releasePoint.Some? {
          released := SignalReleasePoint(releasePoint.value);
          releasePoint := None;
        } else if buffer.Some? && buffer.value.Some? {
          var prev := buffer.value.value;
          buffer := None;
          if prev.id !in destroyed {
            released := ReleaseBuffer(prev.id);
          }
        }
        buffer := next.buffer;
        next.buffer := None;
        acquirePoint, releasePoint := next.acquirePoint, next.releasePoint;
        next.acquirePoint, next.releasePoint := None, None;
        explicitSync := next.explicitSync;
        next.explicitSync := false;
      }
    }


    /** The thirteen `opt!` fields of `merge`: set in `next`, they overwrite and are taken. */
    method MergeOptionals(next: PendingState)
      requires next != this
      modifies this`opts, next`opts
      ensures opts == MergeOptionalsOf(old(opts), old(next.opts))
      ensures next.opts == NoOptionals
    {
      opts := MergeOptionalsOf(opts, next.opts);
      next.opts := NoOptionals;
    }

    /** The offset, the frame requests and the fifo flags of `merge`. */
    method MergeFields(next: PendingState)
      requires next != this
      modifies this`offset, this`frameRequests, this`fifoBarrierSet, this`fifoBarrierWait
      modifies next`offset, next`frameRequests, next`fifoBarrierSet, next`fifoBarrierWait
      ensures offset == (old(offset.0) + old(next.offset.0), old(offset.1) + old(next.offset.1))
      ensures frameRequests == old(frameRequests) + old(next.frameRequests)
      ensures fifoBarrierSet == (old(fifoBarrierSet) || old(next.fifoBarrierSet))
      ensures fifoBarrierWait == (old(fifoBarrierWait) || old(next.fifoBarrierWait))
      ensures next.offset == (0, 0) && next.frameRequests == []
      ensures !next.fifoBarrierSet && !next.fifoBarrierWait
    {
      offset := (offset.0 + next.offset.0, offset.1 + next.offset.1);
      next.offset := (0, 0);
      frameRequests := frameRequests + next.frameRequests;
      next.frameRequests := [];
      fifoBarrierSet := fifoBarrierSet || next.fifoBarrierSet;
      next.fifoBarrierSet := false;
      fifoBarrierWait := fifoBarrierWait || next.fifoBarrierWait;
      next.fifoBarrierWait := false;
    }

    /** The damage part of `merge`. */
    method MergeDamageFrom(next: PendingState)
      requires next != this && Valid() && next.Valid()
      modifies this`damageFull, this`bufferDamage, this`surfaceDamage
      modifies next`damageFull, next`bufferDamage, next`surfaceDamage
      ensures Valid() && next.Valid()
      ensures DamageOf() == MergeDamage(old(DamageOf()), old(next.DamageOf()))
      ensures next.DamageOf() == NoDamage
    {
      damageFull := damageFull || next.damageFull;
      next.damageFull := false;
      if !damageFull {
        if |bufferDamage| + |next.bufferDamage| > MAX_DAMAGE {
          SetDamageFull();
        } else {
          bufferDamage := bufferDamage + next.bufferDamage;
        }
      }
      if !damageFull {
        if |surfaceDamage| + |next.surfaceDamage| > MAX_DAMAGE {
          SetDamageFull();
        } else {
          surfaceDamage := surfaceDamage + next.surfaceDamage;
        }
      }
      next.surfaceDamage := [];
      next.bufferDamage := [];
    }

    /** `merge_ext!` for the xdg-surface and the layer-surface state. */
    method MergeRoles(next: PendingState, mergeXdg: (XdgPending, XdgPending) -> (XdgPending, XdgPending),
                      mergeLayer: (LayerPending, LayerPending) -> (LayerPending, LayerPending))
      requires next != this
      modifies this`xdgSurface, this`layerSurface, next`xdgSurface, next`layerSurface
      ensures (xdgSurface, next.xdgSurface) == MergeExt(old(xdgSurface), old(next.xdgSurface), mergeXdg)
      ensures (layerSurface, next.layerSurface)
              == MergeExt(old(layerSurface), old(next.layerSurface), mergeLayer)
    {
      if xdgSurface.Some? {
        if next.xdgSurface.Some? {
          var (m, rest) := mergeXdg(xdgSurface.value, next.xdgSurface.value);
          xdgSurface, next.xdgSurface := Some(m), Some(rest);
        }
      } else {
        xdgSurface := next.xdgSurface;
        next.xdgSurface := None;
      }
      if layerSurface.Some? {
        if next.layerSurface.Some? {
          var (m, rest) := mergeLayer(layerSurface.value, next.layerSurface.value);
          layerSurface, next.layerSurface := Some(m), Some(rest);
        }
      } else {
        layerSurface := next.layerSurface;
        next.layerSurface := None;
      }
    }

    /** The sub-surface states of `next` drained into this state, one entry at a time. */
    method MergeSubsurfaces(next: PendingState, mergeSub: (nat, nat) -> nat)
      requires next != this
      modifies this`subsurfaces, next`subsurfaces
      ensures subsurfaces == MergeSubsurfaceMaps(old(subsurfaces), old(next.subsurfaces), mergeSub)
      ensures next.subsurfaces == map[]
    {
      var rest := next.subsurfaces;
      next.subsurfaces := map[];
      while rest != map[]
        invariant MergeSubsurfaceMaps(subsurfaces, rest, mergeSub)
                  == MergeSubsurfaceMaps(old(subsurfaces), old(next.subsurfaces), mergeSub)
        invariant next.subsurfaces == map[]
        decreases |rest.Keys|
      {
        var id :| id in rest;
        MergeEntryStep(subsurfaces, rest, id, mergeSub);
        subsurfaces := MergeEntry(subsurfaces, id, rest[id], mergeSub);
        rest := rest - {id};
      }
      MergeWithNothing(subsurfaces, mergeSub);
    }

    /** The buffer, the optional fields, the offset, the frame requests and the fifo flags of `merge`. */
    method MergeFlat(next: PendingState, destroyed: set<nat>) returns (released: Released)
      requires next != this
      modifies this`buffer, this`acquirePoint, this`releasePoint, this`explicitSync, this`opts,
               this`offset, this`frameRequests, this`fifoBarrierSet, this`fifoBarrierWait
      modifies next`buffer, next`acquirePoint, next`releasePoint, next`explicitSync, next`opts,
               next`offset, next`frameRequests, next`fifoBarrierSet, next`fifoBarrierWait
      ensures opts == MergeOptionalsOf(old(opts), old(next.opts))
      ensures next.opts == NoOptionals
      ensures offset == (old(offset.0) + old(next.offset.0), old(offset.1) + old(next.offset.1))
      ensures frameRequests == old(frameRequests) + old(next.frameRequests)
      ensures old(next.buffer).Some? ==>
                buffer == old(next.buffer) && acquirePoint == old(next.acquirePoint)
                && releasePoint == old(next.releasePoint) && explicitSync == old(next.explicitSync)
                && next.acquirePoint == None && next.releasePoint == None && !next.explicitSync
      ensures old(next.buffer).None? ==>
                buffer == old(buffer) && acquirePoint == old(acquirePoint)
                && releasePoint == old(releasePoint) && explicitSync == old(explicitSync)
                && next.acquirePoint == old(next.acquirePoint)
                && next.releasePoint == old(next.releasePoint)
                && next.explicitSync == old(next.explicitSync)
      ensures released ==
                if old(next.buffer).None? then NothingReleased
                else if old(releasePoint).Some? then SignalReleasePoint(old(releasePoint).value)
                else if old(buffer).Some? && old(buffer).value.Some?
                        && old(buffer).value.value.id !in destroyed
                then ReleaseBuffer(old(buffer).value.value.id)
                else NothingReleased
      ensures fifoBarrierSet == (old(fifoBarrierSet) || old(next.fifoBarrierSet))
      ensures fifoBarrierWait == (old(fifoBarrierWait) || old(next.fifoBarrierWait))
      ensures next.buffer == None && next.offset == (0, 0) && next.frameRequests == []
      ensures !next.fifoBarrierSet && !next.fifoBarrierWait
    {
      released := MergeBuffer(next, destroyed);
      MergeOptionals(next);
      MergeFields(next);
    }

    /** The damage, the role states and the sub-surface states of `merge`. */
    method MergeNested(next: PendingState,
                       mergeXdg: (XdgPending, XdgPending) -> (XdgPending, XdgPending),
                       mergeLayer: (LayerPending, LayerPending) -> (LayerPending, LayerPending),
                       mergeSub: (nat, nat) -> nat)
      requires next != this && Valid() && next.Valid()
      modifies this`damageFull, this`bufferDamage, this`surfaceDamage, this`xdgSurface,
               this`layerSurface, this`subsurfaces
      modifies next`damageFull, next`bufferDamage, next`surfaceDamage, next`xdgSurface,
               next`layerSurface, next`subsurfaces
      ensures Valid() && next.Valid()
      ensures DamageOf() == MergeDamage(old(DamageOf()), old(next.DamageOf()))
      ensures next.DamageOf() == NoDamage
      ensures (xdgSurface, next.xdgSurface) == MergeExt(old(xdgSurface), old(next.xdgSurface), mergeXdg)
      ensures (layerSurface, next.layerSurface)
              == MergeExt(old(layerSurface), old(next.layerSurface), mergeLayer)
      ensures subsurfaces == MergeSubsurfaceMaps(old(subsurfaces), old(next.subsurfaces), mergeSub)
      ensures next.subsurfaces == map[]
    {
      MergeDamageFrom(next);
      MergeRoles(next, mergeXdg, mergeLayer);
      MergeSubsurfaces(next, mergeSub);
    }

    /**
     * `PendingState::merge(self, next)`: `next` is the newer state; see the
     * parts above.  Afterwards `next` is empty except for the sync points of
     * a request without a buffer and the leftovers of a role-state merge.
     */
    method Merge(next: PendingState, destroyed: set<nat>,
                 mergeXdg: (XdgPending, XdgPending) -> (XdgPending, XdgPending),
                 mergeLayer: (LayerPending, LayerPending) -> (LayerPending, LayerPending),
                 mergeSub: (nat, nat) -> nat)
      returns (released: Released)
      requires next != this && Valid() && next.Valid()
      modifies this, next
      ensures Valid() && next.Valid()
      ensures DamageOf() == MergeDamage(old(DamageOf()), old(next.DamageOf()))
      ensures next.DamageOf() == NoDamage
      ensures opts == MergeOptionalsOf(old(opts), old(next.opts))
      ensures next.opts == NoOptionals
      ensures offset == (old(offset.0) + old(next.offset.0), old(offset.1) + old(next.offset.1))
      ensures frameRequests == old(frameRequests) + old(next.frameRequests)
      ensures old(next.buffer).Some? ==>
                buffer == old(next.buffer) && acquirePoint == old(next.acquirePoint)
                && releasePoint == old(next.releasePoint) && explicitSync == old(next.explicitSync)
                && next.acquirePoint == None && next.releasePoint == None && !next.explicitSync
      ensures old(next.buffer).None? ==>
                buffer == old(buffer) && acquirePoint == old(acquirePoint)
                && releasePoint == old(releasePoint) && explicitSync == old(explicitSync)
                && next.acquirePoint == old(next.acquirePoint)
                && next.releasePoint == old(next.releasePoint)
                && next.explicitSync == old(next.explicitSync)
      ensures released ==
                if old(next.buffer).None? then NothingReleased
                else if old(releasePoint).Some? then SignalReleasePoint(old(releasePoint).value)
                else if old(buffer).Some? && old(buffer).value.Some?
                        && old(buffer).value.value.id !in destroyed
                then ReleaseBuffer(old(buffer).value.value.id)
                else NothingReleased
      ensures fifoBarrierSet == (old(fifoBarrierSet) || old(next.fifoBarrierSet))
      ensures fifoBarrierWait == (old(fifoBarrierWait) || old(next.fifoBarrierWait))
      ensures (xdgSurface, next.xdgSurface) == MergeExt(old(xdgSurface), old(next.xdgSurface), mergeXdg)
      ensures (layerSurface, next.layerSurface)
              == MergeExt(old(layerSurface), old(next.layerSurface), mergeLayer)
      ensures subsurfaces == MergeSubsurfaceMaps(old(subsurfaces), old(next.subsurfaces), mergeSub)
      ensures next.buffer == None && next.offset == (0, 0) && next.frameRequests == []
      ensures !next.fifoBarrierSet && !next.fifoBarrierWait && next.subsurfaces == map[]
    {
      released := MergeFlat(next, destroyed);
      MergeNested(next, mergeXdg, mergeLayer, mergeSub);
    }
  }

  // ---------------------------------------------------------------------
  // The surface

  /** The current value after applying a pending value, if there is one. */
  function Updated<T>(current: T, p: Option<T>): (r: T)
    ensures p.Some? ==> r == p.value
    ensures p.None? ==> r == current
  {
    if p.Some? then p.value else current
  }

  /**
   * The buffer position after a commit: attaching no buffer resets it, and
   * the offset moves it only while a buffer is attached.
   */
  function BufferPosition(attached: Option<Option<BufferRef>>, current: Option<BufferRef>,
                          x: int, y: int, offset: (int, int)): (int, int)
  {
    var (baseX, baseY) := if attached == Some(None) then (0, 0) else (x, y);
    if current.Some? then (baseX + offset.0, baseY + offset.1) else (baseX, baseY)
  }

  /**
   * The committed state of a surface that the geometry half of
   * `apply_state` rewrites; `width` and `height` are the size of
   * `buffer_abs_pos`.
   */
  datatype SurfaceGeometry = SurfaceGeometry(
    bufferScale: int, bufferTransform: Transform, srcRect: Option<SrcRect>, dstSize: Option<(int, int)>,
    colorDescription: Option<nat>, alpha: Option<real>, buffer: Option<BufferRef>,
    bufX: int, bufY: int, width: int, height: int)

  /** A viewport without destination size whose source size is fractional. */
  predicate NonIntegerViewport(srcRect: Option<SrcRect>, dstSize: Option<(int, int)>) {
    srcRect.Some? && dstSize.None? && (!IsInteger(srcRect.value.width) || !IsInteger(srcRect.value.height))
  }

  /**
   * The size `apply_state` gives the surface: the destination size, else
   * the integer part of the source rectangle's size, else the buffer's,
   * else zero.
   */
  function SizeOf(g: SurfaceGeometry): (int, int)
    requires g.bufferScale >= 1
  {
    if g.dstSize.Some? then g.dstSize.value
    else if g.srcRect.Some? then (ToInt(g.srcRect.value.width), ToInt(g.srcRect.value.height))
    else if g.buffer.Some?
    then BufferSurfaceSize(g.buffer.value.width, g.buffer.value.height, g.bufferTransform, g.bufferScale)
    else (0, 0)
  }

  /** true iff the pending state changes scale, transform or viewport */
  predicate TransformPending(p: Optionals) {
    p.scale.Some? || p.transform.Some? || p.dstSize.Some? || p.srcRect.Some?
  }

  predicate ViewportPending(p: Optionals) {
    p.dstSize.Some? || p.srcRect.Some?
  }

  /** true iff the pending state changes colour description or alpha */
  predicate LookPending(p: Optionals) {
    p.colorDescription.Some? || p.alphaMultiplier.Some?
  }

  /** The geometry after taking the pending scale, transform and viewport. */
  function WithTransform(g: SurfaceGeometry, p: Optionals): SurfaceGeometry {
    g.(bufferScale := Updated(g.bufferScale, p.scale), bufferTransform := Updated(g.bufferTransform, p.transform),
       dstSize := Updated(g.dstSize, p.dstSize), srcRect := Updated(g.srcRect, p.srcRect))
  }

  /** What the geometry half of `apply_state` reports. */
  datatype Geometry = Geometry(damageFull: bool, sizeChanged: bool)

  /**
   * The geometry half of `apply_state` on values: the new geometry and the
   * outcome.  A fractional viewport size is refused after the transform
   * state was taken; otherwise colour description, alpha, buffer and
   * offset are taken and the size recomputed when the buffer or the
   * transform changed.  Any change of transform, viewport, colour
   * description, alpha or size damages the surface in full, and a commit
   * that carries none of these changes nothing.
   */
  function CommitGeometry(g: SurfaceGeometry, p: Optionals, attached: Option<Option<BufferRef>>,
                          offset: (int, int)): (r: (SurfaceGeometry, Result<Geometry, SurfaceError>))
    requires g.bufferScale >= 1 && (p.scale.Some? ==> p.scale.value >= 1)
    ensures r.0.bufferScale >= 1
  {
    var t := WithTransform(g, p);
    if ViewportPending(p) && NonIntegerViewport(t.srcRect, t.dstSize) then (t, Err(NonIntegerViewportSize))
    else
      var buffer := Updated(t.buffer, attached);
      var (x, y) := BufferPosition(attached, buffer, t.bufX, t.bufY, offset);
      var b := t.(colorDescription := Updated(t.colorDescription, p.colorDescription),
                  alpha := Updated(t.alpha, p.alphaMultiplier), buffer := buffer, bufX := x, bufY := y);
      var (w, h) := if attached.Some? || TransformPending(p) then SizeOf(b) else (g.width, g.height);
      var sizeChanged := (w, h) != (g.width, g.height);
      (b.(width := w, height := h), Ok(Geometry(TransformPending(p) || LookPending(p) || sizeChanged, sizeChanged)))
  }

  /** A fractional viewport size is refused, after the transform state was taken, and only then. */
  lemma CommitRefusesFractionalViewport(g: SurfaceGeometry, p: Optionals, attached: Option<Option<BufferRef>>,
                                        offset: (int, int))
    requires g.bufferScale >= 1 && (p.scale.Some? ==> p.scale.value >= 1)
    ensures var r := CommitGeometry(g, p, attached, offset);
            (r.1.Err? <==> ViewportPending(p) && NonIntegerViewport(r.0.srcRect, r.0.dstSize))
            && (r.1.Err? ==> r.1.error == NonIntegerViewportSize && r.0 == WithTransform(g, p))
  {
  }

  /**
   * After a commit that changed buffer or transform the size is the one
   * the new geometry calls for; otherwise it is kept.
   */
  lemma CommitSize(g: SurfaceGeometry, p: Optionals, attached: Option<Option<BufferRef>>, offset: (int, int))
    requires g.bufferScale >= 1 && (p.scale.Some? ==> p.scale.value >= 1)
    ensures var r := CommitGeometry(g, p, attached, offset);
            r.1.Ok? ==>
              (attached.Some? || TransformPending(p) ==> (r.0.width, r.0.height) == SizeOf(r.0))
              && (attached.None? && !TransformPending(p) ==> (r.0.width, r.0.height) == (g.width, g.height))
              && (r.1.value.sizeChanged <==> (r.0.width, r.0.height) != (g.width, g.height))
  {
  }

  /** Full damage iff transform, viewport, colour description, alpha or size changed. */
  lemma CommitDamage(g: SurfaceGeometry, p: Optionals, attached: Option<Option<BufferRef>>, offset: (int, int))
    requires g.bufferScale >= 1 && (p.scale.Some? ==> p.scale.value >= 1)
    ensures var r := CommitGeometry(g, p, attached, offset);
            r.1.Ok? ==> (r.1.value.damageFull <==> TransformPending(p) || LookPending(p) || r.1.value.sizeChanged)
  {
  }

  /** A commit that carries no geometry changes leaves the geometry as it was and damages nothing. */
  lemma CommitNothing(g: SurfaceGeometry, p: Optionals)
    requires g.bufferScale >= 1
    requires !TransformPending(p) && !LookPending(p)
    ensures CommitGeometry(g, p, None, (0, 0)) == (g, Ok(Geometry(false, false)))
  {
  }

  /** The committed state that the rest of `apply_state` rewrites. */
  datatype Attributes = Attributes(inputRegion: Option<nat>, opaqueRegion: Option<nat>, isOpaque: bool,
                                   tearing: bool, contentType: Option<nat>, xwaylandSerial: Option<nat>)

  /**
   * Takes input and opaque region, tearing hint, content type and
   * xwayland serial.  The surface is opaque iff its opaque region covers
   * its whole rectangle (`covers` stands for `Region::contains_rect`),
   * recomputed when the region or the size changed.
   */
  function CommitAttributes(a: Attributes, p: Optionals, sizeChanged: bool, width: int, height: int,
                            covers: (nat, int, int) -> bool): (r: Attributes)
    ensures r.isOpaque == if p.opaqueRegion.Some? || sizeChanged
                          then r.opaqueRegion.Some? && covers(r.opaqueRegion.value, width, height)
                          else a.isOpaque
    ensures (p.inputRegion.None? && p.opaqueRegion.None? && p.tearing.None? && p.contentType.None?
             && p.xwaylandSerial.None? && !sizeChanged) ==> r == a
  {
    var opaqueRegion := Updated(a.opaqueRegion, p.opaqueRegion);
    Attributes(Updated(a.inputRegion, p.inputRegion), opaqueRegion,
               if p.opaqueRegion.Some? || sizeChanged
               then opaqueRegion.Some? && covers(opaqueRegion.value, width, height)
               else a.isOpaque,
               Updated(a.tearing, p.tearing), Updated(a.contentType, p.contentType),
               Newer(a.xwaylandSerial, p.xwaylandSerial))
  }

  /**
   * What `apply_state` reports to the rest of the compositor: full damage,
   * a changed input region (`tree_changed`), a changed tearing hint, a
   * fifo barrier to set, and an xwayland serial to register.
   */
  datatype Applied = Applied(damageFull: bool, treeChanged: bool, tearingChanged: bool,
                             fifoBarrierSet: bool, xwaylandSerial: Option<nat>)

  /** What `apply_state` reads and writes of a surface and of its pending state. */
  datatype CommitView = CommitView(geometry: SurfaceGeometry, attributes: Attributes, frameRequests: seq<nat>,
                                   opts: Optionals, buffer: Option<Option<BufferRef>>, offset: (int, int),
                                   pendingFrames: seq<nat>, damage: Damage, fifoBarrierSet: bool,
                                   fifoBarrierWait: bool)

  /** The pending state `apply_state` leaves behind: commit time and tree serial are consumed elsewhere. */
  function Drained(v: CommitView): Optionals
  {
    NoOptionals.(commitTime := v.opts.commitTime, serial := v.opts.serial)
  }

  /**
   * The geometry half of `apply_state` on a view: the transform state is
   * always taken; on success the colour description, alpha multiplier,
   * buffer and offset are taken as well.
   */
  function GeometryStepOf(v: CommitView): (CommitView, Result<Geometry, SurfaceError>)
    requires v.geometry.bufferScale >= 1 && (v.opts.scale.Some? ==> v.opts.scale.value >= 1)
  {
    var c := CommitGeometry(v.geometry, v.opts, v.buffer, v.offset);
    var taken := v.opts.(scale := None, transform := None, dstSize := None, srcRect := None);
    if c.1.Err? then (v.(geometry := c.0, opts := taken), c.1)
    else (v.(geometry := c.0, opts := taken.(colorDescription := None, alphaMultiplier := None), buffer := None,
             offset := (0, 0)), c.1)
  }

  /**
   * The rest of `apply_state` on a view: the attributes are applied, the
   * frame requests move to the surface and the pending damage and fifo
   * flags are reset.
   */
  function FinishStepOf(v: CommitView, g: Geometry, covers: (nat, int, int) -> bool): (CommitView, Applied)
  {
    var a := CommitAttributes(v.attributes, v.opts, g.sizeChanged, v.geometry.width, v.geometry.height, covers);
    (v.(attributes := a, frameRequests := v.frameRequests + v.pendingFrames,
        opts := v.opts.(inputRegion := None, opaqueRegion := None, tearing := None, contentType := None,
                        xwaylandSerial := None),
        pendingFrames := [], damage := NoDamage, fifoBarrierSet := false, fifoBarrierWait := false),
     Applied(g.damageFull, v.opts.inputRegion.Some?, a.tearing != v.attributes.tearing, v.fifoBarrierSet,
             v.opts.xwaylandSerial))
  }

  /** `apply_state` on a view: the geometry half, then, unless it failed, the rest. */
  function ApplyStateOf(v: CommitView, covers: (nat, int, int) -> bool): (CommitView, Result<Applied, SurfaceError>)
    requires v.geometry.bufferScale >= 1 && (v.opts.scale.Some? ==> v.opts.scale.value >= 1)
  {
    var (v1, g) := GeometryStepOf(v);
    if g.Err? then (v1, Err(g.error))
    else var (v2, applied) := FinishStepOf(v1, g.value, covers); (v2, Ok(applied))
  }

  /**
   * A commit is refused exactly when a viewport change leaves a
   * fractional size; it then takes only the transform state and keeps the
   * buffer, frame requests, damage and attributes pending or as they were.
   */
  lemma ApplyStateRefusesFractionalViewport(v: CommitView, covers: (nat, int, int) -> bool)
    requires v.geometry.bufferScale >= 1 && (v.opts.scale.Some? ==> v.opts.scale.value >= 1)
    ensures var t := WithTransform(v.geometry, v.opts);
            var r := ApplyStateOf(v, covers);
            (r.1.Err? <==> ViewportPending(v.opts) && NonIntegerViewport(t.srcRect, t.dstSize))
            && (r.1.Err? ==>
                  r.1.error == NonIntegerViewportSize
                  && r.0 == v.(geometry := t,
                               opts := v.opts.(scale := None, transform := None, dstSize := None, srcRect := None)))
  {
    CommitRefusesFractionalViewport(v.geometry, v.opts, v.buffer, v.offset);
  }

  /**
   * An accepted commit empties the pending state but for commit time and
   * tree serial, hands the frame requests over in order, and reports the
   * input-region change, the fifo barrier and the xwayland serial it
   * carried; full damage iff transform, viewport, look or size changed.
   */
  lemma ApplyStateDrainsPending(v: CommitView, covers: (nat, int, int) -> bool)
    requires v.geometry.bufferScale >= 1 && (v.opts.scale.Some? ==> v.opts.scale.value >= 1)
    ensures var r := ApplyStateOf(v, covers);
            r.1.Ok? ==>
              r.0.opts == Drained(v) && r.0.buffer == None && r.0.offset == (0, 0) && r.0.pendingFrames == []
              && r.0.damage == NoDamage && !r.0.fifoBarrierSet && !r.0.fifoBarrierWait
              && r.0.frameRequests == v.frameRequests + v.pendingFrames
              && r.1.value.fifoBarrierSet == v.fifoBarrierSet && r.1.value.xwaylandSerial == v.opts.xwaylandSerial
              && (r.1.value.treeChanged <==> v.opts.inputRegion.Some?)
              && (r.1.value.damageFull <==> TransformPending(v.opts) || LookPending(v.opts)
                                            || (r.0.geometry.width, r.0.geometry.height)
                                               != (v.geometry.width, v.geometry.height))
  {
    CommitDamage(v.geometry, v.opts, v.buffer, v.offset);
    CommitSize(v.geometry, v.opts, v.buffer, v.offset);
  }

  /** Committing again with nothing new pending changes nothing and reports nothing. */
  lemma ApplyStateSettles(v: CommitView, covers: (nat, int, int) -> bool)
    requires v.geometry.bufferScale >= 1 && (v.opts.scale.Some? ==> v.opts.scale.value >= 1)
    requires ApplyStateOf(v, covers).1.Ok?
    ensures var w := ApplyStateOf(v, covers).0;
            w.geometry.bufferScale >= 1
            && ApplyStateOf(w, covers) == (w, Ok(Applied(false, false, false, false, None)))
  {
    var w := ApplyStateOf(v, covers).0;
    CommitNothing(w.geometry, w.opts);
    assert w.frameRequests + [] == w.frameRequests;
  }

  /** A tree-transaction barrier queued for a tree serial; `weak` when queued while tardy. */
  datatype TreeBarrier = TreeBarrier(serial: nat, barrier: nat, weak: bool)

  /** `pop_tree_barriers`: drops barriers from the front while `cond` holds. */
  function DropWhile(bs: seq<TreeBarrier>, cond: TreeBarrier -> bool): (r: seq<TreeBarrier>)
    ensures |r| <= |bs| && r == bs[|bs| - |r|..]
    ensures r != [] ==> !cond(r[0])
    ensures forall i | 0 <= i < |bs| - |r| :: cond(bs[i])
  {
    if bs != [] && cond(bs[0]) then DropWhile(bs[1..], cond) else bs
  }

  /**
   * The queue walk of `handle_acked_serial`: while the surface is tardy a
   * timed-out barrier is dropped; a barrier for an acked serial is dropped
   * and ends tardiness; the first other barrier stops the walk.  Yields the
   * remaining queue and whether the surface is no longer tardy.
   */
  function AckBarriers(bs: seq<TreeBarrier>, serial: nat, nonTardy: bool, timedOut: TreeBarrier -> bool)
    : (seq<TreeBarrier>, bool)
    decreases |bs|
  {
    if bs == [] then (bs, nonTardy)
    else if !nonTardy && timedOut(bs[0]) then AckBarriers(bs[1..], serial, false, timedOut)
    else if bs[0].serial <= serial then AckBarriers(bs[1..], serial, true, timedOut)
    else (bs, nonTardy)
  }

  /**
   * The walk keeps a suffix of the queue: every dropped barrier is acked or
   * timed out, the first kept one is neither acked nor (while tardy) timed
   * out, and a surface that was not tardy stays so.
   */
  lemma {:induction false} AckBarriersDrops(bs: seq<TreeBarrier>, serial: nat, nonTardy: bool,
                                            timedOut: TreeBarrier -> bool)
    ensures var r := AckBarriers(bs, serial, nonTardy, timedOut);
            |r.0| <= |bs| && r.0 == bs[|bs| - |r.0|..]
            && (r.0 != [] ==> r.0[0].serial > serial && (r.1 || !timedOut(r.0[0])))
            && (forall i | 0 <= i < |bs| - |r.0| :: bs[i].serial <= serial || timedOut(bs[i]))
            && (nonTardy ==> r.1)
    decreases |bs|
  {
    if bs == [] {
    } else if !nonTardy && timedOut(bs[0]) {
      AckBarriersDrops(bs[1..], serial, false, timedOut);
    } else if bs[0].serial <= serial {
      AckBarriersDrops(bs[1..], serial, true, timedOut);
    }
  }

  /** A tardy surface stops being tardy iff the walk drops a barrier that had not timed out. */
  lemma {:induction false} AckEndsTardiness(bs: seq<TreeBarrier>, serial: nat, timedOut: TreeBarrier -> bool)
    ensures var r := AckBarriers(bs, serial, false, timedOut);
            r.1 <==> exists i | 0 <= i < |bs| - |r.0| :: !timedOut(bs[i])
    decreases |bs|
  {
    if bs != [] && timedOut(bs[0]) {
      var tail := bs[1..];
      var r := AckBarriers(tail, serial, false, timedOut);
      assert AckBarriers(bs, serial, false, timedOut) == r;
      AckEndsTardiness(tail, serial, timedOut);
      AckBarriersDrops(tail, serial, false, timedOut);
      if r.1 {
        var j :| 0 <= j < |tail| - |r.0| && !timedOut(tail[j]);
        assert bs[j + 1] == tail[j];
      } else {
        forall i | 0 <= i < |bs| - |r.0|
          ensures timedOut(bs[i])
        {
          if i > 0 {
            assert bs[i] == tail[i - 1];
          }
        }
      }
    } else if bs != [] && bs[0].serial <= serial {
      AckBarriersDrops(bs[1..], serial, true, timedOut);
    }
  }

  /** A surface that is not tardy drops exactly the barriers of acked serials at the front. */
  lemma {:induction false} AckWhenNotTardy(bs: seq<TreeBarrier>, serial: nat, timedOut: TreeBarrier -> bool)
    ensures AckBarriers(bs, serial, true, timedOut)
            == (DropWhile(bs, (b: TreeBarrier) => b.serial <= serial), true)
    decreases |bs|
  {
    if bs != [] && bs[0].serial <= serial {
      AckWhenNotTardy(bs[1..], serial, timedOut);
    }
  }

  class Surface {
    const version: nat
    const pending: PendingState
    var role: SurfaceRole
    /** whether a `wp_linux_drm_syncobj_surface` exists for this surface */
    var syncObjSurface: bool
    /** scale, transform, viewport, colour description, alpha, buffer, its position and the size */
    var geometry: SurfaceGeometry
    var extents: Rect
    var frameRequests: seq<nat>
    /** regions, opacity, tearing hint, content type and xwayland serial */
    var attributes: Attributes
    /** the barrier queue, oldest first */
    var treeBarriers: seq<TreeBarrier>
    var ackedSerial: nat
    var unblockedSerial: nat
    var scheduledSerial: nat
    var tardy: bool

    ghost predicate Valid()
      reads this`geometry, this`extents, pending`damageFull, pending`bufferDamage, pending`surfaceDamage
    {
      pending.Valid() && geometry.bufferScale >= 1 && extents.Valid()
    }

    constructor (version: nat)
      ensures Valid() && this.version == version && role == NoRole && geometry.buffer == None
      ensures fresh(pending) && pending.IsEmpty() && geometry.bufferScale == 1
      ensures treeBarriers == [] && !tardy
    {
      this.version := version;
      pending := new PendingState();
      role := NoRole;
      syncObjSurface := false;
      geometry := SurfaceGeometry(1, Normal, None, None, None, None, None, 0, 0, 0, 0);
      extents := Rect(0, 0, 0, 0);
      frameRequests := [];
      attributes := Attributes(None, None, false, false, None, None);
      treeBarriers := [];
      ackedSerial, unblockedSerial, scheduledSerial, tardy := 0, 0, 0, false;
    }

    /** `set_role` */
    method SetRole(r: SurfaceRole) returns (res: Result<(), SurfaceError>)
      modifies this`role
      ensures var c := RoleChange(old(role), r);
              (c.Ok? ==> res.Ok? && role == r)
              && (c.Err? ==> res == Err(c.error) && role == old(role))
    {
      if role != NoRole && role != r {
        return Err(IncompatibleRole(role, r));
      }
      role := r;
      res := Ok(());
    }

    /** `attach`: from version 5 on the offset must be zero; before, it is stored. */
    method Attach(x: int, y: int, buf: Option<BufferRef>) returns (res: Result<(), SurfaceError>)
      modifies pending`offset, pending`buffer
      ensures version >= OFFSET_SINCE && (x != 0 || y != 0) <==> res == Err(OffsetInAttach)
      ensures res.Err? ==> pending.offset == old(pending.offset) && pending.buffer == old(pending.buffer)
      ensures res.Ok? ==> pending.buffer == Some(buf)
                          && pending.offset == (if version >= OFFSET_SINCE then old(pending.offset) else (x, y))
    {
      if version >= OFFSET_SINCE {
        if x != 0 || y != 0 {
          return Err(OffsetInAttach);
        }
      } else {
        pending.offset := (x, y);
      }
      pending.buffer := Some(buf);
      res := Ok(());
    }

    /** `set_buffer_scale`: scales below 1 are refused. */
    method SetBufferScale(s: int) returns (res: Result<(), SurfaceError>)
      modifies pending`opts
      ensures res.Err? <==> s < 1
      ensures res.Err? ==> res.error == NonPositiveBufferScale && pending.opts == old(pending.opts)
      ensures res.Ok? ==> pending.opts == old(pending.opts).(scale := Some(s))
    {
      if s < 1 {
        return Err(NonPositiveBufferScale);
      }
      pending.opts := pending.opts.(scale := Some(s));
      res := Ok(());
    }

    /** `offset` */
    method Offset(x: int, y: int)
      modifies pending`offset
      ensures pending.offset == (x, y)
    {
      pending.offset := (x, y);
    }

    /** `verify_explicit_sync`, run at the start of every commit. */
    method VerifyExplicitSync() returns (res: Result<(), SurfaceError>)
      modifies pending`explicitSync
      ensures pending.explicitSync == syncObjSurface
      ensures res == ExplicitSyncCheck(syncObjSurface, pending.releasePoint.Some?,
                                       pending.acquirePoint.Some?,
                                       pending.buffer.Some? && pending.buffer.value.Some?)
    {
      pending.explicitSync := syncObjSurface;
      if !pending.explicitSync {
        return Ok(());
      }
      var haveNewBuffer := pending.buffer.Some? && pending.buffer.value.Some?;
      var rel, acq := pending.releasePoint.Some?, pending.acquirePoint.Some?;
      if rel && acq && haveNewBuffer {
        res := Ok(());
      } else if !rel && !acq && !haveNewBuffer {
        res := Ok(());
      } else if haveNewBuffer {
        res := Err(MissingSyncPoints);
      } else {
        res := Err(UnexpectedSyncPoints);
      }
    }

    /** `serial_is_unblocked` */
    predicate SerialIsUnblocked(treeSerial: nat)
      reads this
    {
      treeSerial <= unblockedSerial || treeSerial > scheduledSerial
    }

    /** `pop_tree_barriers`; reports whether any barrier was dropped. */
    method PopTreeBarriers(cond: TreeBarrier -> bool) returns (poppedAny: bool)
      modifies this`treeBarriers
      ensures treeBarriers == DropWhile(old(treeBarriers), cond)
      ensures poppedAny <==> |treeBarriers| < |old(treeBarriers)|
    {
      poppedAny := false;
      while treeBarriers != [] && cond(treeBarriers[0])
        invariant DropWhile(treeBarriers, cond) == DropWhile(old(treeBarriers), cond)
        invariant |treeBarriers| <= |old(treeBarriers)|
        invariant poppedAny <==> |treeBarriers| < |old(treeBarriers)|
        decreases |treeBarriers|
      {
        treeBarriers := treeBarriers[1..];
        poppedAny := true;
      }
    }

    /**
     * `handle_acked_serial`: the client acked `serial`; `timedOut` stands
     * for `TreeBarrier::timed_out` at the current time.  Reports whether
     * tardiness ended and must be disabled on the configurable role.
     */
    method HandleAckedSerial(serial: nat, timedOut: TreeBarrier -> bool) returns (disableTardy: bool)
      modifies this`treeBarriers, this`ackedSerial, this`tardy
      ensures var (rest, nonTardy) := AckBarriers(old(treeBarriers), serial, !old(tardy), timedOut);
              treeBarriers == rest && tardy == (old(tardy) && !nonTardy)
              && disableTardy == (old(tardy) && nonTardy)
      ensures ackedSerial == serial
    {
      var nonTardy := !tardy;
      while treeBarriers != []
        invariant AckBarriers(treeBarriers, serial, nonTardy, timedOut)
                  == AckBarriers(old(treeBarriers), serial, !old(tardy), timedOut)
        invariant tardy == old(tardy)
        decreases |treeBarriers|
      {
        var b := treeBarriers[0];
        if !nonTardy && timedOut(b) {
          treeBarriers := treeBarriers[1..];
        } else if b.serial <= serial {
          nonTardy := true;
          treeBarriers := treeBarriers[1..];
        } else {
          break;
        }
      }
      ackedSerial := serial;
      disableTardy := nonTardy && tardy;
      tardy := tardy && !nonTardy;
    }

    /**
     * `push_tree_blocker`: queues a barrier for the transaction serial, or
     * for the last scheduled serial unless that one is already unblocked.
     * A tardy surface queues a weak barrier.
     */
    method PushTreeBlocker(useLastSerial: bool, transactionSerial: nat, barrier: nat) returns (pushed: bool)
      modifies this`treeBarriers
      ensures pushed <==> !useLastSerial || unblockedSerial < scheduledSerial
      ensures pushed ==> treeBarriers == old(treeBarriers)
                           + [TreeBarrier(if useLastSerial then scheduledSerial else transactionSerial,
                                          barrier, tardy)]
      ensures !pushed ==> treeBarriers == old(treeBarriers)
    {
      var serial := transactionSerial;
      if useLastSerial {
        serial := scheduledSerial;
        if SerialIsUnblocked(serial) {
          return false;
        }
      }
      treeBarriers := treeBarriers + [TreeBarrier(serial, barrier, tardy)];
      pushed := true;
    }

    /**
     * `WlSurfaceTreeOp::unblocked`: the transaction for `serial` was
     * unblocked, by `timeout` or not.  A timeout the client is guilty of
     * (it has not acked the serial) makes the surface tardy and clears its
     * barriers.  Afterwards every serial up to `serial` is unblocked.
     */
    method Unblocked(serial: nat, timeout: bool, isUnblocked: TreeBarrier -> bool,
                     timedOut: TreeBarrier -> bool)
      returns (enableTardy: bool, timelineUnblocked: bool)
      modifies this`tardy, this`treeBarriers, this`unblockedSerial
      ensures enableTardy <==> timeout && ackedSerial < serial
      ensures tardy == (old(tardy) || enableTardy)
      ensures treeBarriers == (if enableTardy then []
                               else if timeout then DropWhile(old(treeBarriers), isUnblocked)
                               else if old(tardy) then DropWhile(old(treeBarriers), timedOut)
                               else old(treeBarriers))
      ensures timelineUnblocked <==> serial > old(unblockedSerial)
      ensures unblockedSerial == (if timelineUnblocked then serial else old(unblockedSerial))
      ensures forall s: nat | s <= serial :: SerialIsUnblocked(s)
    {
      enableTardy := false;
      if timeout {
        if ackedSerial < serial {
          tardy := true;
          treeBarriers := [];
          enableTardy := true;
        } else {
          var _ := PopTreeBarriers(isUnblocked);
        }
      } else if tardy {
        var _ := PopTreeBarriers(timedOut);
      }
      timelineUnblocked := serial > unblockedSerial;
      if timelineUnblocked {
        unblockedSerial := serial;
      }
    }

    /** `calculate_extents`: the own rectangle united with the placed non-empty child extents. */
    method CalculateExtents(children: seq<ChildExtents>) returns (changed: bool)
      requires geometry.width >= 0 && geometry.height >= 0 && ChildrenValid(children)
      modifies this`extents
      ensures extents == ExtentsFold(AtOrigin(geometry.width, geometry.height), children)
      ensures changed <==> extents != old(extents)
    {
      var old_extents := extents;
      var e := AtOrigin(geometry.width, geometry.height);
      var i := 0;
      while i < |children|
        invariant 0 <= i <= |children| && e.Valid()
        invariant ExtentsFold(e, children[i..]) == ExtentsFold(AtOrigin(geometry.width, geometry.height), children)
      {
        assert children[i..][1..] == children[i + 1..];
        var c := children[i];
        if !c.extents.IsEmpty() {
          var ce := Move(c.extents, c.x, c.y);
          e := if e.IsEmpty() then ce else Union(e, ce);
        }
        i := i + 1;
      }
      extents := e;
      changed := old_extents != e;
    }


    /** Takes the pending scale, transform, destination size and source rectangle. */
    method TakeTransformState() returns (transformChanged: bool, viewportChanged: bool)
      requires pending.opts.scale.Some? ==> pending.opts.scale.value >= 1
      modifies this`geometry, pending`opts
      ensures geometry == WithTransform(old(geometry), old(pending.opts))
      ensures transformChanged == TransformPending(old(pending.opts))
      ensures viewportChanged == ViewportPending(old(pending.opts))
      ensures pending.opts == old(pending.opts).(scale := None, transform := None, dstSize := None, srcRect := None)
    {
      var p := pending.opts;
      transformChanged, viewportChanged := false, false;
      if p.scale.Some? {
        transformChanged := true;
        geometry := geometry.(bufferScale := p.scale.value);
      }
      if p.transform.Some? {
        transformChanged := true;
        geometry := geometry.(bufferTransform := p.transform.value);
      }
      if p.dstSize.Some? {
        transformChanged, viewportChanged := true, true;
        geometry := geometry.(dstSize := p.dstSize.value);
      }
      if p.srcRect.Some? {
        transformChanged, viewportChanged := true, true;
        geometry := geometry.(srcRect := p.srcRect.value);
      }
      pending.opts := p.(scale := None, transform := None, dstSize := None, srcRect := None);
    }

    /** Takes the pending colour description and alpha multiplier. */
    method TakeLook()
      modifies this`geometry, pending`opts
      ensures geometry == old(geometry).(colorDescription := Updated(old(geometry.colorDescription),
                                                                     old(pending.opts.colorDescription)),
                                         alpha := Updated(old(geometry.alpha), old(pending.opts.alphaMultiplier)))
      ensures pending.opts == old(pending.opts).(colorDescription := None, alphaMultiplier := None)
    {
      var p := pending.opts;
      if p.colorDescription.Some? {
        geometry := geometry.(colorDescription := p.colorDescription.value);
      }
      if p.alphaMultiplier.Some? {
        geometry := geometry.(alpha := p.alphaMultiplier.value);
      }
      pending.opts := p.(colorDescription := None, alphaMultiplier := None);
    }

    /** Takes the pending buffer and offset. */
    method TakeBuffer()
      modifies this`geometry, pending`buffer, pending`offset
      ensures var b := Updated(old(geometry.buffer), old(pending.buffer));
              var (x, y) := BufferPosition(old(pending.buffer), b, old(geometry.bufX), old(geometry.bufY),
                                           old(pending.offset));
              geometry == old(geometry).(buffer := b, bufX := x, bufY := y)
      ensures pending.buffer == None && pending.offset == (0, 0)
    {
      var (dx, dy) := pending.offset;
      pending.offset := (0, 0);
      if pending.buffer.Some? {
        geometry := geometry.(buffer := pending.buffer.value);
        if geometry.buffer.None? {
          geometry := geometry.(bufX := 0, bufY := 0);
        }
        pending.buffer := None;
      }
      if geometry.buffer.Some? && (dx, dy) != (0, 0) {
        geometry := geometry.(bufX := geometry.bufX + dx, bufY := geometry.bufY + dy);
      }
    }

    /** Recomputes the surface size when buffer or transform changed. */
    method UpdateSize(recompute: bool)
      requires geometry.bufferScale >= 1
      modifies this`geometry
      ensures var (w, h) := if recompute then SizeOf(old(geometry)) else (old(geometry.width), old(geometry.height));
              geometry == old(geometry).(width := w, height := h)
    {
      if recompute {
        var (w, h) := SizeOf(geometry);
        if (w, h) != (geometry.width, geometry.height) {
          geometry := geometry.(width := w, height := h);
        }
      }
    }

    /** The geometry half of `apply_state`, as `CommitGeometry` states it. */
    method ApplyGeometry() returns (res: Result<Geometry, SurfaceError>)
      requires geometry.bufferScale >= 1
      requires pending.opts.scale.Some? ==> pending.opts.scale.value >= 1
      modifies this`geometry, pending`opts, pending`buffer, pending`offset
      ensures (ViewOf(), res) == GeometryStepOf(old(ViewOf()))
    {
      var oldWidth, oldHeight, p, attached := geometry.width, geometry.height, pending.opts, pending.buffer;
      var transformChanged, viewportChanged := TakeTransformState();
      if viewportChanged && NonIntegerViewport(geometry.srcRect, geometry.dstSize) {
        return Err(NonIntegerViewportSize);
      }
      TakeLook();
      TakeBuffer();
      UpdateSize(attached.Some? || transformChanged);
      var sizeChanged := (geometry.width, geometry.height) != (oldWidth, oldHeight);
      res := Ok(Geometry(transformChanged || LookPending(p) || sizeChanged, sizeChanged));
    }

    /** The attribute part of `apply_state`, as `CommitAttributes` states it. */
    method TakeAttributes(sizeChanged: bool, covers: (nat, int, int) -> bool)
      returns (treeChanged: bool, tearingChanged: bool, newSerial: Option<nat>)
      modifies this`attributes, pending`opts
      ensures attributes == CommitAttributes(old(attributes), old(pending.opts), sizeChanged, geometry.width,
                                             geometry.height, covers)
      ensures treeChanged <==> old(pending.opts.inputRegion).Some?
      ensures tearingChanged <==> attributes.tearing != old(attributes.tearing)
      ensures newSerial == old(pending.opts.xwaylandSerial)
      ensures pending.opts == old(pending.opts).(inputRegion := None, opaqueRegion := None, tearing := None,
                                                 contentType := None, xwaylandSerial := None)
    {
      var p, a := pending.opts, attributes;
      treeChanged := p.inputRegion.Some?;
      var opaqueRegion := Updated(a.opaqueRegion, p.opaqueRegion);
      var isOpaque := a.isOpaque;
      if p.opaqueRegion.Some? || sizeChanged {
        isOpaque := opaqueRegion.Some? && covers(opaqueRegion.value, geometry.width, geometry.height);
      }
      tearingChanged := p.tearing.Some? && p.tearing.value != a.tearing;
      newSerial := p.xwaylandSerial;
      attributes := Attributes(Updated(a.inputRegion, p.inputRegion), opaqueRegion, isOpaque,
                               Updated(a.tearing, p.tearing), Updated(a.contentType, p.contentType),
                               Newer(a.xwaylandSerial, p.xwaylandSerial));
      pending.opts := p.(inputRegion := None, opaqueRegion := None, tearing := None, contentType := None,
                         xwaylandSerial := None);
    }

    /** The rest of `apply_state` after the geometry: attributes, frame requests, fifo flag and damage. */
    method FinishApply(g: Geometry, covers: (nat, int, int) -> bool) returns (applied: Applied)
      modifies this`frameRequests, this`attributes
      modifies pending`opts, pending`frameRequests, pending`damageFull, pending`bufferDamage,
               pending`surfaceDamage, pending`fifoBarrierSet, pending`fifoBarrierWait
      ensures (ViewOf(), applied) == FinishStepOf(old(ViewOf()), g, covers)
    {
      var treeChanged, tearingChanged, newSerial := TakeAttributes(g.sizeChanged, covers);
      var fifoBarrierSet, frames := pending.TakeCommitted();
      frameRequests := frameRequests + frames;
      applied := Applied(g.damageFull, treeChanged, tearingChanged, fifoBarrierSet, newSerial);
    }

    /** The part of this surface and its pending state that `apply_state` concerns. */
    function ViewOf(): CommitView
      reads this`geometry, this`attributes, this`frameRequests
      reads pending`opts, pending`buffer, pending`offset, pending`frameRequests, pending`damageFull,
            pending`bufferDamage, pending`surfaceDamage, pending`fifoBarrierSet, pending`fifoBarrierWait
    {
      CommitView(geometry, attributes, frameRequests, pending.opts, pending.buffer, pending.offset,
                 pending.frameRequests, pending.DamageOf(), pending.fifoBarrierSet, pending.fifoBarrierWait)
    }

    /**
     * `apply_state` for this surface: the geometry half, the attributes,
     * then the frame requests and the fifo barrier flag are handed over and
     * the pending damage is reset.  Commit time and tree serial stay
     * pending; they are consumed before the state is applied.
     */
    method ApplyState(covers: (nat, int, int) -> bool) returns (res: Result<Applied, SurfaceError>)
      requires Valid()
      requires pending.opts.scale.Some? ==> pending.opts.scale.value >= 1
      modifies this`geometry, this`frameRequests, this`attributes
      modifies pending`opts, pending`buffer, pending`offset, pending`frameRequests, pending`damageFull,
               pending`bufferDamage, pending`surfaceDamage, pending`fifoBarrierSet, pending`fifoBarrierWait
      ensures Valid()
      ensures (ViewOf(), res) == ApplyStateOf(old(ViewOf()), covers)
    {
      var g := ApplyGeometry();
      if g.Err? {
        return Err(g.error);
      }
      var applied := FinishApply(g.value, covers);
      res := Ok(applied);
    }
  }
}
