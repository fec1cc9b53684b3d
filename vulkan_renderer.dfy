/**
 * The state `VulkanRenderer` keeps between frames: timeline points, the
 * defunct flag, pending frames and submissions, the cached command
 * buffers; and the per-frame computations of `try_execute` that decide
 * what is painted where: region tagging, the split into blend-buffer and
 * framebuffer passes, the clamping to the framebuffer, the choice of a
 * load-op clear and the collection of the sampled textures.
 */
module VulkanRenderer {
  import opened Wrappers
  import opened MachineInt
  import opened Rects
  import opened Seqs
  import opened VulkanCommon
  import opened VulkanImage

  predicate InRect(x: int, y: int, r: Rect) {
    r.x1 <= x < r.x2 && r.y1 <= y < r.y2
  }

  /**
   * `constrain_to_fb`: the part of a rectangle inside a `width` by `height`
   * framebuffer, or `None` when the rectangle ends left of or above the
   * framebuffer or starts right of or below it.  Each `u32` size is cast
   * to `i32` for the upper clamp.
   */
  function ConstrainToFb(r: Rect, width: nat, height: nat): (b: Option<Rect>)
    requires r.Valid() && IsU32(width) && IsU32(height)
    ensures b.Some? <==> r.x2 > 0 && r.y2 > 0 && Max(r.x1, 0) <= width && Max(r.y1, 0) <= height
    ensures width <= I32_MAX && height <= I32_MAX && b.Some? ==>
              b.value.Valid() && Contains(AtOrigin(width, height), b.value) && Contains(r, b.value)
              && forall x, y :: InRect(x, y, b.value) <==> InRect(x, y, r) && InRect(x, y, AtOrigin(width, height))
    ensures b.None? ==> forall x, y :: !(InRect(x, y, r) && InRect(x, y, AtOrigin(width, height)))
  {
    var x1 := Max(r.x1, 0);
    var y1 := Max(r.y1, 0);
    if x1 > width || y1 > height || r.x2 <= 0 || r.y2 <= 0 then None
    else Some(Rect(x1, y1, Min(r.x2, U32AsI32(width)), Min(r.y2, U32AsI32(height))))
  }

  /**
   * `CachedCommandBuffers`: a stack of finished command buffers, reused
   * before the pool allocates a new one, and the count of allocations.
   * Buffers are numbered by the pool in allocation order; `handedOut`
   * holds those currently owned by a frame or a submission.
   */
  class CachedCommandBuffers {
    var buffers: seq<nat>
    var totalBuffers: nat
    var created: nat
    ghost var handedOut: set<nat>

    /** The stack holds created buffers, each once, none of them handed out. */
    ghost predicate Valid()
      reads this
    {
      && (forall i, j :: 0 <= i < j < |buffers| ==> buffers[i] != buffers[j])
      && (forall i :: 0 <= i < |buffers| ==> buffers[i] < created && buffers[i] !in handedOut)
      && (forall b :: b in handedOut ==> b < created)
      && created <= totalBuffers
    }

    constructor()
      ensures Valid() && buffers == [] && totalBuffers == 0 && created == 0 && handedOut == {}
    {
      buffers := [];
      totalBuffers := 0;
      created := 0;
      handedOut := {};
    }

    /**
     * `allocate`: the buffer on top of the stack, or, when the stack is
     * empty, a new one from the pool (`poolOk` says whether the pool
     * call succeeds; the count goes up either way).
     */
    method Allocate(poolOk: bool) returns (r: Result<nat, VulkanError>)
      requires Valid()
      modifies this
      ensures Valid()
      ensures old(buffers) != [] ==>
                && r == Ok(old(buffers)[|old(buffers)| - 1])
                && buffers == old(buffers)[..|old(buffers)| - 1]
                && totalBuffers == old(totalBuffers) && created == old(created)
      ensures old(buffers) == [] ==>
                && buffers == [] && totalBuffers == old(totalBuffers) + 1
                && (poolOk ==> r == Ok(old(created)) && created == old(created) + 1)
                && (!poolOk ==> r == Err(DeviceCall) && created == old(created))
      ensures r.Ok? ==> r.value !in old(handedOut) && handedOut == old(handedOut) + {r.value}
      ensures r.Err? ==> handedOut == old(handedOut)
    {
      if |buffers| > 0 {
        var b := buffers[|buffers| - 1];
        buffers := buffers[..|buffers| - 1];
        handedOut := handedOut + {b};
        return Ok(b);
      }
      totalBuffers := totalBuffers + 1;
      if !poolOk {
        return Err(DeviceCall);
      }
      var b := created;
      created := created + 1;
      handedOut := handedOut + {b};
      return Ok(b);
    }

    /** `buffers.push`: a finished buffer goes back on the stack. */
    method Push(b: nat)
      requires Valid() && b in handedOut
      modifies this
      ensures Valid()
      ensures buffers == old(buffers) + [b] && handedOut == old(handedOut) - {b}
      ensures totalBuffers == old(totalBuffers) && created == old(created)
    {
      buffers := buffers + [b];
      handedOut := handedOut - {b};
    }
  }

  /**
   * The textures `collect_memory` keeps from the sampled textures `s` (the
   * texture ops of both passes, in order): the first occurrence of each
   * image, unless the graphics queue cannot acquire it.
   */
  ghost function Collected(s: seq<VulkanImage>): seq<VulkanImage>
    reads set t | t in s
  {
    if s == [] then []
    else
      var p := s[..|s| - 1];
      var t := s[|s| - 1];
      if t in p || Acquire(t.queueState, Gfx) == Impossible then Collected(p) else Collected(p) + [t]
  }

  /** The collected textures that first need a queue-family transfer. */
  ghost function QueueTransfers(s: seq<VulkanImage>): seq<VulkanImage>
    reads set t | t in s
  {
    if s == [] then []
    else
      var p := s[..|s| - 1];
      var t := s[|s| - 1];
      if t !in p && Acquire(t.queueState, Gfx) == Possible then QueueTransfers(p) + [t] else QueueTransfers(p)
  }

  /** The collected textures that are dmabuf imports. */
  ghost function DmabufSampled(s: seq<VulkanImage>): seq<VulkanImage>
    reads set t | t in s
  {
    if s == [] then []
    else
      var p := s[..|s| - 1];
      var t := s[|s| - 1];
      if t !in p && Acquire(t.queueState, Gfx) != Impossible && t.isDmabuf then DmabufSampled(p) + [t]
      else DmabufSampled(p)
  }

  /**
   * Each image is collected at most once, and exactly the sampled images
   * the graphics queue can acquire are; the transfers are those released
   * to it, the dmabuf samples those that are imports.
   */
  lemma {:induction false} CollectedMeans(s: seq<VulkanImage>)
    ensures Distinct(Collected(s))
    ensures forall t :: t in Collected(s) <==> t in s && Acquire(t.queueState, Gfx) != Impossible
    ensures forall t :: t in QueueTransfers(s) <==> t in s && Acquire(t.queueState, Gfx) == Possible
    ensures forall t :: t in DmabufSampled(s) <==>
              t in s && Acquire(t.queueState, Gfx) != Impossible && t.isDmabuf
    decreases |s|
  {
    if s != [] {
      var p := s[..|s| - 1];
      CollectedMeans(p);
      assert s == p + [s[|s| - 1]];
      forall t ensures t in s <==> t in p || t == s[|s| - 1] {
      }
    }
  }

  /** The renderer's own cells. */
  class Renderer {
    const gfxBuffers: CachedCommandBuffers
    const transferBuffers: Option<CachedCommandBuffers>
    /** `distinct_transfer_queue_family_idx` */
    const distinctTransferFamily: Option<nat>
    /** `transfer_granularity_mask` */
    const widthMask: nat
    const heightMask: nat
    var lastPoint: nat
    var defunct: bool
    /** `pending_frames`: the command buffer of each frame, by timeline point. */
    var pendingFrames: map<nat, nat>
    var pendingSubmits: set<nat>
    var pendingCpuJobs: set<nat>

    ghost predicate Valid()
      reads this, gfxBuffers
    {
      && gfxBuffers.Valid()
      && (forall p :: p in pendingFrames ==> p <= lastPoint && pendingFrames[p] in gfxBuffers.handedOut)
      && (forall p, q :: p in pendingFrames && q in pendingFrames && p != q ==> pendingFrames[p] != pendingFrames[q])
      && (forall p :: p in pendingSubmits ==> p <= lastPoint)
      && (forall p :: p in pendingCpuJobs ==> p <= lastPoint)
    }

    constructor(hasTransferPool: bool, distinctTransferFamily: Option<nat>, widthMask: nat, heightMask: nat)
      ensures Valid() && fresh(gfxBuffers)
      ensures transferBuffers.Some? == hasTransferPool
      ensures transferBuffers.Some? ==> fresh(transferBuffers.value) && transferBuffers.value.Valid()
      ensures this.distinctTransferFamily == distinctTransferFamily
      ensures this.widthMask == widthMask && this.heightMask == heightMask
      ensures lastPoint == 0 && !defunct && pendingFrames == map[] && pendingSubmits == {} && pendingCpuJobs == {}
    {
      gfxBuffers := new CachedCommandBuffers();
      if hasTransferPool {
        var t := new CachedCommandBuffers();
        transferBuffers := Some(t);
      } else {
        transferBuffers := None;
      }
      this.distinctTransferFamily := distinctTransferFamily;
      this.widthMask := widthMask;
      this.heightMask := heightMask;
      lastPoint := 0;
      defunct := false;
      pendingFrames := map[];
      pendingSubmits := {};
      pendingCpuJobs := {};
    }

    /** `allocate_point`: a point above every point handed out before. */
    method AllocatePoint() returns (p: nat)
      requires Valid()
      modifies this`lastPoint
      ensures Valid()
      ensures p == old(lastPoint) + 1 && lastPoint == p
    {
      lastPoint := lastPoint + 1;
      p := lastPoint;
    }

    /** `check_defunct` */
    method CheckDefunct() returns (r: Result<(), VulkanError>)
      ensures r.Err? <==> defunct
      ensures r.Err? ==> r.error == Defunct
    {
      if defunct {
        return Err(Defunct);
      }
      return Ok(());
    }

    /**
     * `on_drop`: the renderer becomes defunct and forgets its pending
     * frames and submissions; their waiters never run.  Blocking on the
     * device is left out.
     */
    method OnDrop()
      requires Valid()
      modifies this
      ensures Valid()
      ensures defunct && pendingFrames == map[] && pendingSubmits == {}
      ensures lastPoint == old(lastPoint) && pendingCpuJobs == old(pendingCpuJobs)
    {
      defunct := true;
      pendingFrames := map[];
      pendingSubmits := {};
    }

    /** `create_pending_frame`: the frame's command buffer is kept under a fresh point. */
    method CreatePendingFrame(buf: nat) returns (p: nat)
      requires Valid() && buf in gfxBuffers.handedOut
      requires forall q :: q in pendingFrames ==> pendingFrames[q] != buf
      modifies this
      ensures Valid()
      ensures p == old(lastPoint) + 1 && lastPoint == p && p !in old(pendingFrames)
      ensures pendingFrames == old(pendingFrames)[p := buf]
      ensures defunct == old(defunct) && pendingSubmits == old(pendingSubmits)
      ensures pendingCpuJobs == old(pendingCpuJobs)
    {
      p := AllocatePoint();
      pendingFrames := pendingFrames[p := buf];
    }

    /** `await_release`, once the frame is released: its buffer goes back on the stack. */
    method AwaitRelease(p: nat)
      requires Valid() && p in pendingFrames
      modifies this, gfxBuffers
      ensures Valid()
      ensures gfxBuffers.buffers == old(gfxBuffers.buffers) + [old(pendingFrames)[p]]
      ensures pendingFrames == old(pendingFrames) - {p}
      ensures lastPoint == old(lastPoint) && defunct == old(defunct)
      ensures pendingSubmits == old(pendingSubmits) && pendingCpuJobs == old(pendingCpuJobs)
    {
      var buf := pendingFrames[p];
      gfxBuffers.Push(buf);
      pendingFrames := pendingFrames - {p};
    }

    /**
     * `collect_memory`: a fresh execution point marks every sampled
     * image; an image already marked is skipped, so each is collected
     * once.
     */
    method CollectMemory(texs: seq<VulkanImage>)
      returns (textures: seq<VulkanImage>, queueTransfer: seq<VulkanImage>, dmabufSample: seq<VulkanImage>)
      requires Valid()
      requires forall t :: t in texs ==> t.executionVersion <= lastPoint
      modifies this`lastPoint, set t | t in texs
      ensures Valid() && lastPoint == old(lastPoint) + 1
      ensures forall t :: t in texs ==> t.queueState == old(t.queueState) && t.executionVersion == lastPoint
      ensures textures == old(Collected(texs))
      ensures queueTransfer == old(QueueTransfers(texs))
      ensures dmabufSample == old(DmabufSampled(texs))
      ensures forall t :: t in queueTransfer ==> t in texs
    {
      var execution := AllocatePoint();
      textures, queueTransfer, dmabufSample := [], [], [];
      var i := 0;
      while i < |texs|
        invariant 0 <= i <= |texs| && lastPoint == execution
        invariant forall t :: t in texs ==> t.queueState == old(t.queueState)
        invariant forall t :: t in texs ==> (t.executionVersion == execution <==> t in texs[..i])
        invariant textures == old(Collected(texs[..i]))
        invariant queueTransfer == old(QueueTransfers(texs[..i]))
        invariant dmabufSample == old(DmabufSampled(texs[..i]))
        invariant forall t :: t in queueTransfer ==> t in texs
      {
        var t := texs[i];
        assert texs[..i + 1][..i] == texs[..i];
        if t.executionVersion != execution {
          t.executionVersion := execution;
          var qt := Acquire(t.queueState, Gfx);
          if qt != Impossible {
            if qt == Possible {
              queueTransfer := queueTransfer + [t];
            }
            if t.isDmabuf {
              dmabufSample := dmabufSample + [t];
            }
            textures := textures + [t];
          }
        }
        i := i + 1;
      }
      assert texs[..i] == texs;
    }

    /**
     * The renderer-state part of `try_execute`: refused when defunct;
     * otherwise a command buffer, the collected textures, the submission
     * (`gpuOk` stands for every driver call of the frame) and, on
     * success, the layouts of the targets and a pending frame.  The blend
     * buffer `bb` is the one left after `elide_blend_buffer`.
     */
    method TryExecute(fb: VulkanImage, bb: Option<VulkanImage>, texs: seq<VulkanImage>,
                      poolOk: bool, opsOk: bool, gpuOk: bool)
      returns (r: Result<(), VulkanError>, transferred: seq<VulkanImage>)
      requires Valid()
      requires forall t :: t in texs ==> t.executionVersion <= lastPoint
      modifies this, gfxBuffers, fb, (if bb.Some? then {bb.value} else {}), set t | t in texs
      ensures Valid()
      ensures old(defunct) ==> r == Err(Defunct) && transferred == []
                               && lastPoint == old(lastPoint) && pendingFrames == old(pendingFrames)
                               && gfxBuffers.buffers == old(gfxBuffers.buffers)
      ensures r.Ok? <==> !old(defunct) && (old(gfxBuffers.buffers) != [] || poolOk) && opsOk && gpuOk
      ensures r.Err? ==> pendingFrames == old(pendingFrames)
      ensures !(!old(defunct) && (old(gfxBuffers.buffers) != [] || poolOk) && opsOk) ==> lastPoint == old(lastPoint)
      ensures !old(defunct) && (old(gfxBuffers.buffers) != [] || poolOk) && opsOk ==>
                forall t :: t in texs ==> t.executionVersion == old(lastPoint) + 1
      ensures r.Ok? ==> transferred == old(QueueTransfers(texs))
                        && (forall t :: t in transferred ==> t.queueState == Acquired(Gfx))
                        && fb.queueState == Acquired(Gfx) && !fb.isUndefined && !fb.contentsAreUndefined
                        && (bb.Some? ==> !bb.value.isUndefined)
      ensures r.Ok? ==> lastPoint == old(lastPoint) + 2 && lastPoint !in old(pendingFrames) && lastPoint in pendingFrames
                        && pendingFrames == old(pendingFrames)[lastPoint := pendingFrames[lastPoint]]
                        && pendingFrames[lastPoint]
                           == (if old(gfxBuffers.buffers) != [] then old(gfxBuffers.buffers)[|old(gfxBuffers.buffers)| - 1]
                               else old(gfxBuffers.created))
      ensures pendingSubmits == old(pendingSubmits)
    {
      transferred := [];
      r := CheckDefunct();
      if r.Err? {
        return;
      }
      var buf := gfxBuffers.Allocate(poolOk);
      if buf.Err? {
        return Err(buf.error), [];
      }
      r, transferred := RecordFrame(buf.value, fb, bb, texs, opsOk, gpuOk);
    }

    /**
     * The part of `try_execute` after the command buffer `buf` was
     * allocated: the ops are converted (`opsOk`), the textures collected,
     * the frame recorded and submitted (`gpuOk`), and the frame kept.
     */
    method RecordFrame(buf: nat, fb: VulkanImage, bb: Option<VulkanImage>, texs: seq<VulkanImage>,
                       opsOk: bool, gpuOk: bool)
      returns (r: Result<(), VulkanError>, transferred: seq<VulkanImage>)
      requires Valid() && buf in gfxBuffers.handedOut
      requires forall q :: q in pendingFrames ==> pendingFrames[q] != buf
      requires forall t :: t in texs ==> t.executionVersion <= lastPoint
      modifies this, fb, (if bb.Some? then {bb.value} else {}), set t | t in texs
      ensures Valid()
      ensures r.Ok? <==> opsOk && gpuOk
      ensures r.Err? ==> r.error == DeviceCall && transferred == [] && pendingFrames == old(pendingFrames)
      ensures !opsOk ==> lastPoint == old(lastPoint)
      ensures opsOk ==> forall t :: t in texs ==> t.executionVersion == old(lastPoint) + 1
      ensures r.Ok? ==> transferred == old(QueueTransfers(texs))
                        && (forall t :: t in transferred ==> t.queueState == Acquired(Gfx))
                        && fb.queueState == Acquired(Gfx) && !fb.isUndefined && !fb.contentsAreUndefined
                        && (bb.Some? ==> !bb.value.isUndefined)
      ensures r.Ok? ==> lastPoint == old(lastPoint) + 2 && lastPoint !in old(pendingFrames)
                        && pendingFrames == old(pendingFrames)[lastPoint := buf]
      ensures pendingSubmits == old(pendingSubmits)
    {
      if !opsOk {
        return Err(DeviceCall), [];
      }
      var textures, queueTransfer, dmabufSample := CollectMemory(texs);
      if !gpuOk {
        return Err(DeviceCall), [];
      }
      StoreLayouts(fb, bb, queueTransfer);
      var p := CreatePendingFrame(buf);
      return Ok(()), queueTransfer;
    }
  }

  /**
   * `store_layouts`: the targets now hold defined contents in their
   * graphics layouts, and every image of a queue transfer belongs to the
   * graphics queue.
   */
  method StoreLayouts(fb: VulkanImage, bb: Option<VulkanImage>, queueTransfer: seq<VulkanImage>)
    modifies fb`isUndefined, fb`contentsAreUndefined, fb`queueState
    modifies (if bb.Some? then {bb.value} else {})`isUndefined, (set t | t in queueTransfer)`queueState
    ensures fb.queueState == Acquired(Gfx) && !fb.isUndefined && !fb.contentsAreUndefined
    ensures bb.Some? ==> !bb.value.isUndefined
    ensures forall t :: t in queueTransfer ==> t.queueState == Acquired(Gfx)
  {
    if bb.Some? {
      bb.value.isUndefined := false;
    }
    fb.isUndefined := false;
    fb.contentsAreUndefined := false;
    fb.queueState := Acquired(Gfx);
    var i := 0;
    while i < |queueTransfer|
      invariant 0 <= i <= |queueTransfer|
      invariant fb.queueState == Acquired(Gfx) && !fb.isUndefined && !fb.contentsAreUndefined
      invariant bb.Some? ==> !bb.value.isUndefined
      invariant forall j :: 0 <= j < i ==> queueTransfer[j].queueState == Acquired(Gfx)
    {
      queueTransfer[i].queueState := Acquired(Gfx);
      i := i + 1;
    }
  }

  /** Once the renderer has been dropped, every execution is refused. */
  method DroppedRendererRefuses(rd: Renderer, fb: VulkanImage, texs: seq<VulkanImage>, poolOk: bool, opsOk: bool, gpuOk: bool)
    returns (r: Result<(), VulkanError>)
    requires rd.Valid()
    requires forall t :: t in texs ==> t.executionVersion <= rd.lastPoint
    modifies rd, rd.gfxBuffers, fb, set t | t in texs
    ensures r == Err(Defunct)
    ensures rd.pendingFrames == map[]
  {
    rd.OnDrop();
    var transferred;
    r, transferred := rd.TryExecute(fb, None, texs, poolOk, opsOk, gpuOk);
  }

  /** A paint operation of the frame, with its framebuffer rectangle; `Sync` paints nothing. */
  datatype Op = Sync | Paint(isOpaque: bool, rect: Rect)

  /**
   * Whether a texture copy is opaque: no alpha factor below one, and the
   * copy is declared opaque or its texture has no alpha channel.
   */
  function CopyIsOpaque(alpha: Option<real>, isOpaque: bool, texHasAlpha: bool): (r: bool)
    ensures r <==> (alpha.None? || alpha.value >= 1.0) && (isOpaque || !texHasAlpha)
  {
    if alpha.Some? && alpha.value < 1.0 then false
    else if !isOpaque && texHasAlpha then false
    else true
  }

  /**
   * The tag after visiting `ops[k..]` from the last (topmost) operation
   * down: an opaque operation, or any operation without blend buffer,
   * sets the low bit (`tag |= 1`); any other operation carries a set low
   * bit into the next (`tag += tag & 1`).
   */
  function TagFrom(ops: seq<Op>, hasBb: bool, k: nat): nat
    requires k <= |ops|
    decreases |ops| - k
  {
    if k == |ops| then 0
    else
      var t := TagFrom(ops, hasBb, k + 1);
      match ops[k]
      case Sync => t
      case Paint(isOpaque, _) =>
        if isOpaque || !hasBb then (if t % 2 == 1 then t else t + 1) else t + t % 2
  }

  /** The tagged rectangles `create_regions` pushes for `ops[k..]`, topmost first. */
  function TaggedFrom(ops: seq<Op>, hasBb: bool, k: nat): (r: seq<(Rect, nat)>)
    requires k <= |ops|
    ensures (forall j :: k <= j < |ops| && ops[j].Paint? ==> ops[j].rect.Valid()) ==>
              forall i :: 0 <= i < |r| ==> r[i].0.Valid()
    decreases |ops| - k
  {
    if k == |ops| then []
    else if ops[k].Sync? then TaggedFrom(ops, hasBb, k + 1)
    else TaggedFrom(ops, hasBb, k + 1) + [(ops[k].rect, TagFrom(ops, hasBb, k))]
  }

  /** The opaque rectangles pushed for `ops[k..]` when there is a clear colour. */
  function OpaqueFrom(ops: seq<Op>, clear: bool, k: nat): seq<Rect>
    requires k <= |ops|
    decreases |ops| - k
  {
    if k == |ops| then []
    else if ops[k].Paint? && ops[k].isOpaque && clear then OpaqueFrom(ops, clear, k + 1) + [ops[k].rect]
    else OpaqueFrom(ops, clear, k + 1)
  }

  /** The first loop of `create_regions`, over the operations in reverse. */
  method TagRegions(ops: seq<Op>, hasBb: bool, clear: bool)
    returns (opaqueRects: seq<Rect>, tagged: seq<(Rect, nat)>)
    ensures opaqueRects == OpaqueFrom(ops, clear, 0)
    ensures tagged == TaggedFrom(ops, hasBb, 0)
  {
    opaqueRects, tagged := [], [];
    var tag := 0;
    var k := |ops|;
    while k > 0
      invariant 0 <= k <= |ops|
      invariant tag == TagFrom(ops, hasBb, k)
      invariant tagged == TaggedFrom(ops, hasBb, k)
      invariant opaqueRects == OpaqueFrom(ops, clear, k)
    {
      k := k - 1;
      match ops[k]
      case Sync =>
      case Paint(isOpaque, rect) =>
        if isOpaque || !hasBb {
          if tag % 2 == 0 {
            tag := tag + 1;
          }
        } else {
          tag := tag + tag % 2;
        }
        if isOpaque && clear {
          opaqueRects := opaqueRects + [rect];
        }
        tagged := tagged + [(rect, tag)];
    }
  }

  /** Tags only grow towards the bottom of the stack of operations. */
  lemma {:induction false} TagMonotone(ops: seq<Op>, hasBb: bool, k: nat)
    requires k < |ops|
    ensures TagFrom(ops, hasBb, k) >= TagFrom(ops, hasBb, k + 1)
  {
  }

  /**
   * The tag of `ops[k..]` is zero exactly when there is a blend buffer
   * and no painting operation from `k` up is opaque.
   */
  lemma {:induction false} TagZeroFrom(ops: seq<Op>, hasBb: bool, k: nat)
    requires k <= |ops|
    ensures TagFrom(ops, hasBb, k) == 0 <==>
              forall j :: k <= j < |ops| && ops[j].Paint? ==> hasBb && !ops[j].isOpaque
    decreases |ops| - k
  {
    if k < |ops| {
      TagZeroFrom(ops, hasBb, k + 1);
    }
  }

  /**
   * The tag of a painting operation is odd exactly when it is opaque or
   * there is no blend buffer, and zero (the blend-buffer pass) exactly
   * when it and every operation painted above it are translucent.
   */
  lemma TagMeaning(ops: seq<Op>, hasBb: bool, k: nat)
    requires k < |ops| && ops[k].Paint?
    ensures TagFrom(ops, hasBb, k) % 2 == 1 <==> ops[k].isOpaque || !hasBb
    ensures TagFrom(ops, hasBb, k) == 0 <==>
              hasBb && forall j :: k <= j < |ops| && ops[j].Paint? ==> !ops[j].isOpaque
  {
    TagZeroFrom(ops, hasBb, k);
    TagZeroFrom(ops, hasBb, k + 1);
  }

  /**
   * The second loop of `create_regions` over the tagged region, for
   * `tagged[..n]`: the blend-buffer paint regions (tag 0), the
   * framebuffer paint regions (other tags), each clamped to the
   * framebuffer and dropped when outside, and the rectangles of tag 0
   * for the clear.
   */
  function PassesOf(tagged: seq<(Rect, nat)>, clear: bool, width: nat, height: nat, n: nat)
    : (seq<Rect>, seq<Rect>, seq<Rect>)
    requires n <= |tagged| && IsU32(width) && IsU32(height)
    requires forall i :: 0 <= i < |tagged| ==> tagged[i].0.Valid()
  {
    if n == 0 then ([], [], [])
    else
      var (blend, frame, blendClear) := PassesOf(tagged, clear, width, height, n - 1);
      var (rect, tag) := tagged[n - 1];
      var blendClear' := if tag == 0 && clear then blendClear + [rect] else blendClear;
      var b := ConstrainToFb(rect, width, height);
      if b.None? then (blend, frame, blendClear')
      else if tag == 0 then (blend + [b.value], frame, blendClear')
      else (blend, frame + [b.value], blendClear')
  }

  method AssignPasses(tagged: seq<(Rect, nat)>, clear: bool, width: nat, height: nat)
    returns (blend: seq<Rect>, frame: seq<Rect>, blendClear: seq<Rect>)
    requires IsU32(width) && IsU32(height)
    requires forall i :: 0 <= i < |tagged| ==> tagged[i].0.Valid()
    ensures (blend, frame, blendClear) == PassesOf(tagged, clear, width, height, |tagged|)
  {
    blend, frame, blendClear := [], [], [];
    var i := 0;
    while i < |tagged|
      invariant 0 <= i <= |tagged|
      invariant (blend, frame, blendClear) == PassesOf(tagged, clear, width, height, i)
    {
      var (rect, tag) := tagged[i];
      if tag == 0 && clear {
        blendClear := blendClear + [rect];
      }
      var b := ConstrainToFb(rect, width, height);
      if b.Some? {
        if tag == 0 {
          blend := blend + [b.value];
        } else {
          frame := frame + [b.value];
        }
      }
      i := i + 1;
    }
  }

  /**
   * The blend-buffer pass paints nothing exactly when no rectangle of
   * tag 0 reaches into the framebuffer.
   */
  lemma {:induction false} BlendPassEmpty(tagged: seq<(Rect, nat)>, clear: bool, width: nat, height: nat, n: nat)
    requires n <= |tagged| && IsU32(width) && IsU32(height)
    requires forall i :: 0 <= i < |tagged| ==> tagged[i].0.Valid()
    ensures PassesOf(tagged, clear, width, height, n).0 == [] <==>
              forall i :: 0 <= i < n && tagged[i].1 == 0 ==> ConstrainToFb(tagged[i].0, width, height).None?
    ensures forall r :: r in PassesOf(tagged, clear, width, height, n).0 + PassesOf(tagged, clear, width, height, n).1
              ==> r.x1 >= 0 && r.y1 >= 0
  {
    if n > 0 {
      BlendPassEmpty(tagged, clear, width, height, n - 1);
    }
  }

  /** `elide_blend_buffer`: a blend buffer is kept only if its pass paints something. */
  function ElideBlendBuffer(hasBb: bool, blendRegions: seq<Rect>): (keep: bool)
    ensures keep <==> hasBb && blendRegions != []
  {
    if !hasBb then false else blendRegions != []
  }

  /** The rectangles of `ops[k..]` are tagged in `TaggedFrom`, each with its own tag. */
  lemma {:induction false} TaggedFromMembers(ops: seq<Op>, hasBb: bool, k: nat)
    requires k <= |ops|
    ensures forall e :: e in TaggedFrom(ops, hasBb, k) <==>
              exists j :: k <= j < |ops| && ops[j].Paint? && e == (ops[j].rect, TagFrom(ops, hasBb, j))
    decreases |ops| - k
  {
    if k < |ops| {
      TaggedFromMembers(ops, hasBb, k + 1);
    }
  }

  /**
   * `create_regions` followed by `elide_blend_buffer`: the blend buffer is
   * kept exactly when there is one and some painting operation that is
   * translucent, with every operation painted above it translucent too,
   * reaches into the framebuffer.
   */
  lemma BlendBufferKept(ops: seq<Op>, hasBb: bool, clear: bool, width: nat, height: nat)
    requires IsU32(width) && IsU32(height)
    requires forall j :: 0 <= j < |ops| && ops[j].Paint? ==> ops[j].rect.Valid()
    ensures var tagged := TaggedFrom(ops, hasBb, 0);
            ElideBlendBuffer(hasBb, PassesOf(tagged, clear, width, height, |tagged|).0) <==>
              hasBb && exists k :: 0 <= k < |ops| && ops[k].Paint? && ConstrainToFb(ops[k].rect, width, height).Some?
                                   && forall j :: k <= j < |ops| && ops[j].Paint? ==> !ops[j].isOpaque
  {
    var tagged := TaggedFrom(ops, hasBb, 0);
    TaggedFromMembers(ops, hasBb, 0);
    BlendPassEmpty(tagged, clear, width, height, |tagged|);
    if ElideBlendBuffer(hasBb, PassesOf(tagged, clear, width, height, |tagged|).0) {
      var i :| 0 <= i < |tagged| && tagged[i].1 == 0 && ConstrainToFb(tagged[i].0, width, height).Some?;
      assert tagged[i] in tagged;
      var k :| 0 <= k < |ops| && ops[k].Paint? && tagged[i] == (ops[k].rect, TagFrom(ops, hasBb, k));
      TagZeroFrom(ops, hasBb, k);
    }
    if hasBb && exists k :: 0 <= k < |ops| && ops[k].Paint? && ConstrainToFb(ops[k].rect, width, height).Some?
                            && forall j :: k <= j < |ops| && ops[j].Paint? ==> !ops[j].isOpaque {
      var k :| 0 <= k < |ops| && ops[k].Paint? && ConstrainToFb(ops[k].rect, width, height).Some?
               && forall j :: k <= j < |ops| && ops[j].Paint? ==> !ops[j].isOpaque;
      TagZeroFrom(ops, hasBb, k);
      var e := (ops[k].rect, TagFrom(ops, hasBb, k));
      assert e in tagged;
      var i :| 0 <= i < |tagged| && tagged[i] == e;
    }
  }

  /** A `GfxApiOpt` as `create_regions` sees it. */
  datatype GfxOp =
    | GfxSync
    | FillRect(colorIsOpaque: bool, rect: Rect)
    | CopyTexture(alpha: Option<real>, declaredOpaque: bool, texHasAlpha: bool, target: Rect)

  /** The paint operation of an option: its opacity and its framebuffer rectangle. */
  function PaintOf(o: GfxOp): Op {
    match o
    case GfxSync => Sync
    case FillRect(c, r) => Paint(c, r)
    case CopyTexture(a, d, h, t) => Paint(CopyIsOpaque(a, d, h), t)
  }

  /**
   * A blended option: a fill with a translucent colour, or a copy with an
   * alpha factor below one or of a texture with alpha not declared opaque.
   */
  predicate Blended(o: GfxOp) {
    match o
    case GfxSync => false
    case FillRect(c, _) => !c
    case CopyTexture(a, d, h, _) => (a.Some? && a.value < 1.0) || (!d && h)
  }

  /**
   * `elide_blend_buffer` after `create_regions` over the options of a
   * frame: the blend buffer is kept exactly when there is one and some
   * option that is blended, with every option painted above it blended
   * too, reaches into the framebuffer.
   */
  lemma BlendBufferKeptForOptions(opts: seq<GfxOp>, hasBb: bool, clear: bool, width: nat, height: nat)
    requires IsU32(width) && IsU32(height)
    requires forall j :: 0 <= j < |opts| && !opts[j].GfxSync? ==> PaintOf(opts[j]).rect.Valid()
    ensures var ops := seq(|opts|, j requires 0 <= j < |opts| => PaintOf(opts[j]));
            var tagged := TaggedFrom(ops, hasBb, 0);
            ElideBlendBuffer(hasBb, PassesOf(tagged, clear, width, height, |tagged|).0) <==>
              hasBb && exists k :: 0 <= k < |opts| && !opts[k].GfxSync?
                                   && ConstrainToFb(PaintOf(opts[k]).rect, width, height).Some?
                                   && forall j :: k <= j < |opts| && !opts[j].GfxSync? ==> Blended(opts[j])
  {
    var ops := seq(|opts|, j requires 0 <= j < |opts| => PaintOf(opts[j]));
    forall j | 0 <= j < |opts|
      ensures ops[j].Paint? <==> !opts[j].GfxSync?
      ensures ops[j].Paint? ==> (!ops[j].isOpaque <==> Blended(opts[j]))
    {
    }
    BlendBufferKept(ops, hasBb, clear, width, height);
  }

  /**
   * The alpha swizzle of `create_image_view` and the opacity of
   * `create_regions` agree: a copy of a texture whose format has no alpha
   * counts as opaque, and sampling its view reads alpha one whatever the
   * padding bits hold.
   */
  lemma AlphaLessTextureIsOpaque(format: Format, stored: real)
    requires !format.hasAlpha
    ensures forall declared :: CopyIsOpaque(None, declared, format.hasAlpha)
    ensures SampledAlpha(AlphaSwizzle(format, false), stored) == 1.0
  {
  }

  datatype ClearOp = NoClear | LoadClear | ManualClear

  /**
   * The clear of one pass in `begin_rendering`: none without a clear
   * colour or clear rectangles; the load operation when the single clear
   * rectangle is the whole target; otherwise explicit clear rectangles.
   */
  function ChooseClear(clear: bool, clearRects: seq<Rect>, width: nat, height: nat): (r: ClearOp)
    ensures r == NoClear <==> !clear || clearRects == []
    ensures r == LoadClear <==> clear && |clearRects| == 1 && clearRects[0] == AtOrigin(width, height)
    ensures r == ManualClear <==>
              clear && clearRects != [] && !(|clearRects| == 1 && clearRects[0] == AtOrigin(width, height))
  {
    if !clear || clearRects == [] then NoClear
    else if |clearRects| == 1 && clearRects[0].x1 == 0 && clearRects[0].y1 == 0
            && clearRects[0].Width() == width && clearRects[0].Height() == height then LoadClear
    else ManualClear
  }
}
