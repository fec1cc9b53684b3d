/**
 * Asynchronous transfers between client shm memory and a Vulkan shm image:
 * the copy regions derived from the damage, the CPU-side host copy, the
 * queue-family ownership handshake between the graphics and the transfer
 * queue, and the completion that hands the result to the callback.
 */
module VulkanTransfer {
  import opened Wrappers
  import opened MachineInt
  import opened Rects
  import opened VulkanCommon
  import opened VulkanImage
  import opened VulkanRenderer

  datatype TransferType = Upload | Download

  // ---------------------------------------------------------------------
  // Copy regions
  // ---------------------------------------------------------------------

  /**
   * `x & !mask` for a non-negative `x`, where `mask + 1 == g` is the
   * transfer granularity (a power of two in Vulkan): rounding down to a
   * multiple of `g`.
   */
  function AlignDown(x: nat, g: nat): (r: nat)
    requires g > 0
    ensures r <= x < r + g && r % g == 0
  {
    MultipleMod(x / g, g);
    (x / g) * g
  }

  /** A multiple of `g` leaves no remainder. */
  lemma MultipleMod(q: nat, g: nat)
    requires g > 0
    ensures (q * g) % g == 0
  {
    var n := q * g;
    var m, r := n / g, n % g;
    assert n == m * g + r && 0 <= r < g;
    var d := q - m;
    assert d * g == r by {
      assert q * g - m * g == (q - m) * g;
    }
    if d >= 1 {
      MulAtLeast(d, g);
    } else if d <= -1 {
      MulAtMost(d, g);
    }
  }

  lemma MulAtLeast(d: int, g: nat)
    requires d >= 1
    ensures d * g >= g
  {
  }

  lemma MulAtMost(d: int, g: nat)
    requires d <= -1
    ensures d * g + g <= 0
  {
  }

  /** `(x + mask) & !mask`: rounding up to a multiple of the granularity. */
  function AlignUp(x: nat, g: nat): (r: nat)
    requires g > 0
    ensures x <= r < x + g && r % g == 0
  {
    AlignDown(x + g - 1, g)
  }

  /**
   * The layout of a shm image that `create_shm_texture` guarantees: every
   * row fits into the stride and the whole buffer is addressable by a u32.
   */
  predicate ShmLayout(img: VulkanImage) {
    img.width * img.bpp <= img.stride && IsU32(img.stride * img.height)
  }

  /**
   * One damage rectangle of `try_async_transfer`, widened to the transfer
   * granularity and clipped to the image; `None` when nothing of it is
   * left (the rectangle lies left of or above the image, or is empty
   * after clipping).
   */
  function AlignedDamage(d: Rect, width: nat, height: nat, gw: nat, gh: nat): (r: Option<Rect>)
    requires gw > 0 && gh > 0
  {
    if d.x2 < 0 || d.y2 < 0 then None
    else
      var x1 := AlignDown(Max(d.x1, 0), gw);
      var y1 := AlignDown(Max(d.y1, 0), gh);
      var x2 := Min(AlignUp(d.x2, gw), width);
      var y2 := Min(AlignUp(d.y2, gh), height);
      if x1 >= x2 || y1 >= y2 then None else Some(Rect(x1, y1, x2, y2))
  }

  predicate InRect(r: Rect, x: int, y: int) {
    r.x1 <= x < r.x2 && r.y1 <= y < r.y2
  }

  /**
   * The widened rectangle lies inside the image, starts on the granularity
   * grid, ends on it or at the image edge, and covers every pixel of the
   * damage inside the image; when no rectangle is left, no pixel of the
   * damage lies inside the image.
   */
  lemma AlignedDamageMeans(d: Rect, width: nat, height: nat, gw: nat, gh: nat)
    requires gw > 0 && gh > 0
    ensures var r := AlignedDamage(d, width, height, gw, gh);
            r.Some? ==>
              && 0 <= r.value.x1 < r.value.x2 <= width && 0 <= r.value.y1 < r.value.y2 <= height
              && r.value.x1 % gw == 0 && r.value.y1 % gh == 0
              && (r.value.x2 % gw == 0 || r.value.x2 == width)
              && (r.value.y2 % gh == 0 || r.value.y2 == height)
    ensures forall x: int, y: int :: InRect(d, x, y) && 0 <= x < width && 0 <= y < height ==>
              var r := AlignedDamage(d, width, height, gw, gh);
              r.Some? && InRect(r.value, x, y)
  {
    forall x: int, y: int | InRect(d, x, y) && 0 <= x < width && 0 <= y < height
      ensures AlignedDamage(d, width, height, gw, gh).Some?
      ensures InRect(AlignedDamage(d, width, height, gw, gh).value, x, y)
    {
      assert d.x2 > x >= 0 && d.y2 > y >= 0;
      assert AlignDown(Max(d.x1, 0), gw) <= Max(d.x1, 0) <= x;
      assert AlignDown(Max(d.y1, 0), gh) <= Max(d.y1, 0) <= y;
      assert x < d.x2 <= AlignUp(d.x2, gw);
      assert y < d.y2 <= AlignUp(d.y2, gh);
    }
  }

  /** `copy(x, y, width, height)`: the buffer offset of a row-major image at pixel `(x, y)`. */
  function CopyOf(r: Rect, stride: nat, bpp: nat): (c: Copy)
    requires 0 <= r.x1 <= r.x2 && 0 <= r.y1 <= r.y2
    ensures c.x == r.x1 && c.y == r.y1 && c.width == r.Width() && c.height == r.Height()
  {
    Copy(r.y1 * stride + r.x1 * bpp, r.x1, r.y1, r.x2 - r.x1, r.y2 - r.y1)
  }

  /** The copies `try_async_transfer` records for the first `n` damage rectangles. */
  function RegionsOf(damage: seq<Rect>, n: nat, width: nat, height: nat, stride: nat, bpp: nat,
                     gw: nat, gh: nat): seq<Copy>
    requires n <= |damage| && gw > 0 && gh > 0
  {
    if n == 0 then []
    else
      var rest := RegionsOf(damage, n - 1, width, height, stride, bpp, gw, gh);
      var a := AlignedDamage(damage[n - 1], width, height, gw, gh);
      AlignedDamageMeans(damage[n - 1], width, height, gw, gh);
      if a.None? then rest else rest + [CopyOf(a.value, stride, bpp)]
  }

  /** The bytes a copy spans in the staging buffer: `stride * (height - 1) + width * bpp`. */
  function CopyLen(c: Copy, stride: nat, bpp: nat): nat
    requires c.height >= 1
  {
    stride * (c.height - 1) + c.width * bpp
  }

  /** A copy lies inside the image and spans at least one pixel. */
  predicate CopyInImage(c: Copy, img: VulkanImage) {
    c.width >= 1 && c.height >= 1 && c.x + c.width <= img.width && c.y + c.height <= img.height
    && c.bufferOffset == c.y * img.stride + c.x * img.bpp
  }

  /**
   * The bytes of a copy inside the image lie within the staging buffer of
   * `stride * height` bytes, so neither the u32 offset nor the u32 length
   * wraps.
   */
  lemma {:induction false} CopyFits(c: Copy, img: VulkanImage)
    requires ShmLayout(img) && CopyInImage(c, img)
    ensures c.bufferOffset + CopyLen(c, img.stride, img.bpp) <= img.Size()
    ensures IsU32(c.bufferOffset) && IsU32(CopyLen(c, img.stride, img.bpp))
  {
    var s, b := img.stride, img.bpp;
    calc {
      c.bufferOffset + CopyLen(c, s, b);
      c.y * s + c.x * b + s * (c.height - 1) + c.width * b;
      { assert c.y * s + s * (c.height - 1) == (c.y + c.height - 1) * s; }
      (c.y + c.height - 1) * s + (c.x + c.width) * b;
    <= { assert (c.x + c.width) * b <= img.width * b; }
      (c.y + c.height - 1) * s + s;
      (c.y + c.height) * s;
    <= { assert (c.y + c.height) * s <= img.height * s; }
      img.height * s;
    }
  }

  /**
   * Every recorded copy lies inside the image, and every pixel of the
   * damage inside the image is covered by the copy of its own rectangle.
   */
  lemma {:induction false} RegionsOfMeans(img: VulkanImage, damage: seq<Rect>, n: nat, gw: nat, gh: nat)
    requires n <= |damage| && gw > 0 && gh > 0
    ensures var cs := RegionsOf(damage, n, img.width, img.height, img.stride, img.bpp, gw, gh);
            && |cs| <= n
            && (forall i :: 0 <= i < |cs| ==>
                  (CopyInImage(cs[i], img) && cs[i].x % gw == 0 && cs[i].y % gh == 0))
            && (forall k, x: int, y: int ::
                  (0 <= k < n && InRect(damage[k], x, y) && 0 <= x < img.width && 0 <= y < img.height) ==>
                  (exists i :: 0 <= i < |cs| && cs[i].x <= x < cs[i].x + cs[i].width
                               && cs[i].y <= y < cs[i].y + cs[i].height))
  {
    if n > 0 {
      var rest := RegionsOf(damage, n - 1, img.width, img.height, img.stride, img.bpp, gw, gh);
      var cs := RegionsOf(damage, n, img.width, img.height, img.stride, img.bpp, gw, gh);
      RegionsOfMeans(img, damage, n - 1, gw, gh);
      AlignedDamageMeans(damage[n - 1], img.width, img.height, gw, gh);
      assert rest <= cs;
      forall k, x: int, y: int | 0 <= k < n && InRect(damage[k], x, y)
          && 0 <= x < img.width && 0 <= y < img.height
        ensures exists i :: 0 <= i < |cs| && cs[i].x <= x < cs[i].x + cs[i].width
                            && cs[i].y <= y < cs[i].y + cs[i].height
      {
        if k < n - 1 {
          var i :| 0 <= i < |rest| && rest[i].x <= x < rest[i].x + rest[i].width
                   && rest[i].y <= y < rest[i].y + rest[i].height;
          assert cs[i] == rest[i];
        } else {
          assert cs[|cs| - 1] == CopyOf(AlignedDamage(damage[n - 1], img.width, img.height, gw, gh).value,
                                        img.stride, img.bpp);
        }
      }
    }
  }

  /** The damage loop of `try_async_transfer`: one copy per rectangle that survives alignment. */
  method BuildRegions(img: VulkanImage, damage: seq<Rect>, gw: nat, gh: nat) returns (copies: seq<Copy>)
    requires gw > 0 && gh > 0
    ensures copies == RegionsOf(damage, |damage|, img.width, img.height, img.stride, img.bpp, gw, gh)
  {
    copies := [];
    for i := 0 to |damage|
      invariant copies == RegionsOf(damage, i, img.width, img.height, img.stride, img.bpp, gw, gh)
    {
      // skipped: left of or above the image, or empty once aligned and clipped
      var aligned := AlignedDamage(damage[i], img.width, img.height, gw, gh);
      if aligned.Some? {
        var d := aligned.value;
        assert 0 <= d.x1 <= d.x2 && 0 <= d.y1 <= d.y2;
        copies := copies + [CopyOf(d, img.stride, img.bpp)];
      }
    }
  }

  // ---------------------------------------------------------------------
  // The host copy job
  // ---------------------------------------------------------------------

  /** `ShmMemoryBacking`: client memory mapped into the process, or a file at an offset. */
  datatype Backing = Ptr | Fd(offset: nat)

  /**
   * The CPU job of `async_transfer_initiate_host_copy`: a rectangle copy
   * between mapped memory and the staging buffer, or one read/write of a
   * byte range of the file (`write` for a download).
   */
  datatype HostJob = CopyJob(rects: seq<Rect>, toStaging: bool)
                   | IoJob(fileOffset: nat, stagingOffset: nat, len: nat, write: bool)

  /**
   * The `Fd` branch: the smallest buffer offset (starting from the client
   * memory length) and the largest end of all copies (starting from 0).
   * The range covers every copy, and its ends belong to copies unless
   * there are none.
   */
  method IoRange(copies: seq<Copy>, stride: nat, bpp: nat, clientLen: nat) returns (lo: nat, hi: nat)
    requires forall i :: 0 <= i < |copies| ==> copies[i].height >= 1
    ensures forall i :: 0 <= i < |copies| ==>
              lo <= copies[i].bufferOffset && copies[i].bufferOffset + CopyLen(copies[i], stride, bpp) <= hi
    ensures lo == clientLen || exists i :: 0 <= i < |copies| && lo == copies[i].bufferOffset
    ensures lo <= clientLen
    ensures hi == 0 || exists i :: 0 <= i < |copies| && hi == copies[i].bufferOffset + CopyLen(copies[i], stride, bpp)
  {
    lo, hi := clientLen, 0;
    for k := 0 to |copies|
      invariant forall i :: 0 <= i < k ==>
                  lo <= copies[i].bufferOffset && copies[i].bufferOffset + CopyLen(copies[i], stride, bpp) <= hi
      invariant lo == clientLen || exists i :: 0 <= i < k && lo == copies[i].bufferOffset
      invariant lo <= clientLen
      invariant hi == 0 || exists i :: 0 <= i < k && hi == copies[i].bufferOffset + CopyLen(copies[i], stride, bpp)
    {
      lo := Min(lo, copies[k].bufferOffset);
      var len := stride * (copies[k].height - 1) + copies[k].width * bpp;
      hi := Max(hi, copies[k].bufferOffset + len);
    }
  }

  /**
   * The byte range of the `Fd` branch lies within the image's buffer and
   * hence within client memory at least as large as the image.
   */
  lemma IoRangeInImage(img: VulkanImage, copies: seq<Copy>, hi: nat)
    requires ShmLayout(img)
    requires forall i :: 0 <= i < |copies| ==> CopyInImage(copies[i], img)
    requires hi == 0 || exists i :: 0 <= i < |copies| && copies[i].height >= 1
                                  && hi == copies[i].bufferOffset + CopyLen(copies[i], img.stride, img.bpp)
    ensures hi <= img.Size()
  {
    if hi != 0 {
      var i :| 0 <= i < |copies| && copies[i].height >= 1 && hi == copies[i].bufferOffset + CopyLen(copies[i], img.stride, img.bpp);
      CopyFits(copies[i], img);
    }
  }

  // ---------------------------------------------------------------------
  // Completion
  // ---------------------------------------------------------------------

  /** The staging shell an image holds, as a frame. */
  function ShellOf(img: VulkanImage): set<object>
    reads img
  {
    if img.staging.Some? then {img.staging.value} else {}
  }

  /** The command-buffer caches of a renderer. */
  function Pools(rd: Renderer): set<object> {
    {rd.gfxBuffers} + (if rd.transferBuffers.Some? then {rd.transferBuffers.value} else {})
  }

  /** The renderer is consistent and its two caches are distinct and consistent. */
  ghost predicate PoolsValid(rd: Renderer)
    reads rd, Pools(rd)
  {
    && rd.Valid()
    && (rd.transferBuffers.Some? ==>
          rd.transferBuffers.value != rd.gfxBuffers && rd.transferBuffers.value.Valid())
  }

  /** The part of an image a completion leaves alone. */
  datatype Progress = Progress(
    queueState: QueueState, regions: seq<Copy>, callbackId: nat, isUndefined: bool,
    contentsAreUndefined: bool, executionVersion: nat, lastGfxUse: Option<nat>, uploadStaging: bool)

  ghost function ProgressOf(img: VulkanImage): Progress
    reads img
  {
    Progress(img.queueState, img.regions, img.callbackId, img.isUndefined, img.contentsAreUndefined,
             img.executionVersion, img.lastGfxUse, img.uploadStaging)
  }

  /** What invoking the callback, if there is one, adds to the deliveries. */
  function Delivery(cb: Option<Callback>, result: Result<(), VulkanError>): (d: seq<(Callback, Result<(), VulkanError>)>)
    ensures cb.None? <==> d == []
    ensures cb.Some? ==> d == [(cb.value, result)]
  {
    if cb.Some? then [(cb.value, result)] else []
  }

  /**
   * `complete`: the image is no longer busy, its staging shell is released
   * and forgotten together with the client memory, and the callback, if
   * still present, is taken and invoked once with the result.  Completing
   * without a staging shell panics (`unwrap`) once the busy flag is clear.
   */
  method Complete(img: VulkanImage, result: Result<(), VulkanError>) returns (panicked: bool)
    modifies img, ShellOf(img)
    ensures panicked <==> old(img.staging).None?
    ensures !img.busy && img.dataCopied == old(img.dataCopied) && ProgressOf(img) == old(ProgressOf(img))
    ensures !panicked ==>
              && !old(img.staging).value.busy && img.staging.None? && img.clientMem.None? && img.callback.None?
              && img.delivered == old(img.delivered) + Delivery(old(img.callback), result)
    ensures panicked ==>
              && img.staging == old(img.staging) && img.clientMem == old(img.clientMem)
              && img.callback == old(img.callback) && img.delivered == old(img.delivered)
    ensures old(img.staging).Some? ==> old(img.staging).value.filled == old(img.staging.value.filled)
  {
    img.busy := false;
    if img.staging.None? {
      return true;
    }
    img.staging.value.busy := false;
    img.staging := None;
    img.clientMem := None;
    var cb := img.callback;
    img.callback := None;
    img.delivered := img.delivered + Delivery(cb, result);
    return false;
  }

  /** A second completion of the same transfer delivers nothing more. */
  method CompleteTwice(img: VulkanImage, first: Result<(), VulkanError>, second: Result<(), VulkanError>)
    returns (panicked: bool)
    requires img.staging.Some? && img.callback.Some?
    modifies img, ShellOf(img)
    ensures panicked
    ensures |img.delivered| == |old(img.delivered)| + 1 && img.delivered[|img.delivered| - 1].1 == first
  {
    var p := Complete(img, first);
    panicked := Complete(img, second);
  }

  // ---------------------------------------------------------------------
  // Accepting a transfer
  // ---------------------------------------------------------------------

  /**
   * The refusals of `try_async_transfer`, in the order it checks them:
   * the image is busy, the staging shell is busy or cannot be used in this
   * direction, the client memory is shorter than the image, or a download
   * is asked of an image whose contents were never defined.
   */
  function Refusal(busy: bool, shellBusy: bool, shellUpload: bool, shellDownload: bool, size: nat,
                   clientLen: nat, undefined: bool, tt: TransferType): (e: Option<VulkanError>)
    ensures e == Some(AsyncCopyBusy) <==> busy
    ensures e == Some(StagingBufferBusy) <==> !busy && shellBusy
    ensures e == Some(StagingBufferNoUpload) <==> !busy && !shellBusy && tt == Upload && !shellUpload
    ensures e == Some(StagingBufferNoDownload) <==> !busy && !shellBusy && tt == Download && !shellDownload
    ensures e == Some(InvalidBufferSize) <==>
              !busy && !shellBusy && (tt == Upload ==> shellUpload) && (tt == Download ==> shellDownload) && size > clientLen
    ensures e == Some(UndefinedContents) <==>
              !busy && !shellBusy && (tt == Upload ==> shellUpload) && (tt == Download ==> shellDownload) && size <= clientLen
              && tt == Download && undefined
    ensures e.None? <==>
              !busy && !shellBusy && (tt == Upload ==> shellUpload) && (tt == Download ==> shellDownload) && size <= clientLen
              && !(tt == Download && undefined)
  {
    if busy then Some(AsyncCopyBusy)
    else if shellBusy then Some(StagingBufferBusy)
    else if tt == Upload && !shellUpload then Some(StagingBufferNoUpload)
    else if tt == Download && !shellDownload then Some(StagingBufferNoDownload)
    else if size > clientLen then Some(InvalidBufferSize)
    else if tt == Download && undefined then Some(UndefinedContents)
    else None
  }

  ghost function RefusalOf(img: VulkanImage, shell: StagingShell, clientLen: nat, tt: TransferType): Option<VulkanError>
    reads img, shell
  {
    Refusal(img.busy, shell.busy, shell.upload, shell.download, img.Size(), clientLen, img.contentsAreUndefined, tt)
  }

  /** The marks an accepted transfer leaves on the image and its staging shell. */
  ghost predicate Marked(img: VulkanImage, shell: StagingShell, clientLen: nat)
    reads img, shell
  {
    img.busy && !img.dataCopied && shell.busy && img.staging == Some(shell) && img.clientMem == Some(clientLen)
  }

  /**
   * The prologue of `try_async_transfer` as written: the image and the
   * shell are marked busy before the download of undefined contents is
   * refused, and that refusal does not undo the marks.
   */
  method AcceptTransferAsWritten(img: VulkanImage, shell: StagingShell, clientLen: nat, tt: TransferType)
    returns (r: Result<(), VulkanError>)
    modifies img, shell
    ensures r.Err? <==> old(RefusalOf(img, shell, clientLen, tt)).Some?
    ensures r.Err? ==> Some(r.error) == old(RefusalOf(img, shell, clientLen, tt))
    ensures r.Ok? || r == Err(UndefinedContents) ==> Marked(img, shell, clientLen)
    ensures r.Err? && r != Err(UndefinedContents) ==> unchanged(img, shell)
    ensures old(ProgressOf(img)) == ProgressOf(img) && img.callback == old(img.callback)
    ensures img.delivered == old(img.delivered) && shell.filled == old(shell.filled)
  {
    if img.busy {
      return Err(AsyncCopyBusy);
    }
    if shell.busy {
      return Err(StagingBufferBusy);
    }
    if tt == Upload && !shell.upload {
      return Err(StagingBufferNoUpload);
    }
    if tt == Download && !shell.download {
      return Err(StagingBufferNoDownload);
    }
    if img.Size() > clientLen {
      return Err(InvalidBufferSize);
    }
    img.busy := true;
    img.dataCopied := false;
    shell.busy := true;
    img.staging := Some(shell);
    img.clientMem := Some(clientLen);
    if img.contentsAreUndefined && tt == Download {
      return Err(UndefinedContents);
    }
    return Ok(());
  }

  /**
   * The prologue of `try_async_transfer` with the download of undefined
   * contents refused before anything is marked: a refused transfer leaves
   * the image and the shell as they were.
   */
  method AcceptTransfer(img: VulkanImage, shell: StagingShell, clientLen: nat, tt: TransferType)
    returns (r: Result<(), VulkanError>)
    modifies img, shell
    ensures r.Err? <==> old(RefusalOf(img, shell, clientLen, tt)).Some?
    ensures r.Err? ==> Some(r.error) == old(RefusalOf(img, shell, clientLen, tt)) && unchanged(img, shell)
    ensures r.Ok? ==> Marked(img, shell, clientLen)
    ensures old(ProgressOf(img)) == ProgressOf(img) && img.callback == old(img.callback)
    ensures img.delivered == old(img.delivered) && shell.filled == old(shell.filled)
  {
    if img.busy {
      return Err(AsyncCopyBusy);
    }
    if shell.busy {
      return Err(StagingBufferBusy);
    }
    if tt == Upload && !shell.upload {
      return Err(StagingBufferNoUpload);
    }
    if tt == Download && !shell.download {
      return Err(StagingBufferNoDownload);
    }
    if img.Size() > clientLen {
      return Err(InvalidBufferSize);
    }
    if img.contentsAreUndefined && tt == Download {
      return Err(UndefinedContents);
    }
    img.busy := true;
    img.dataCopied := false;
    shell.busy := true;
    img.staging := Some(shell);
    img.clientMem := Some(clientLen);
    return Ok(());
  }

  /**
   * As written, a download refused for undefined contents leaves the image
   * busy: the upload that would define its contents is then refused too.
   */
  method UndefinedDownloadWedgesImage(img: VulkanImage, down: StagingShell, up: StagingShell, clientLen: nat)
    returns (first: Result<(), VulkanError>, second: Result<(), VulkanError>)
    requires !img.busy && img.contentsAreUndefined && img.Size() <= clientLen
    requires down != up && !down.busy && down.download && !up.busy && up.upload
    modifies img, down, up
    ensures first == Err(UndefinedContents)
    ensures second == Err(AsyncCopyBusy)
  {
    first := AcceptTransferAsWritten(img, down, clientLen, Download);
    second := AcceptTransferAsWritten(img, up, clientLen, Upload);
  }

  /** With the check moved first, the same upload is accepted. */
  method UndefinedDownloadLeavesImageFree(img: VulkanImage, down: StagingShell, up: StagingShell, clientLen: nat)
    returns (first: Result<(), VulkanError>, second: Result<(), VulkanError>)
    requires !img.busy && img.contentsAreUndefined && img.Size() <= clientLen
    requires down != up && !down.busy && down.download && !up.busy && up.upload
    modifies img, down, up
    ensures first == Err(UndefinedContents)
    ensures second.Ok? && !down.busy && up.busy && img.busy
  {
    first := AcceptTransfer(img, down, clientLen, Download);
    second := AcceptTransfer(img, up, clientLen, Upload);
  }

  // ---------------------------------------------------------------------
  // Queue-family ownership and the GPU copies
  // ---------------------------------------------------------------------

  /**
   * The outcomes of the driver calls a transfer step makes: the release
   * fence, a new command buffer from the pool, a submission (begin, end,
   * submit, sync-file export), the flush or invalidation of the staging
   * memory, and the allocation of staging memory; and the kind of client
   * memory.
   */
  datatype Driver = Driver(fenceOk: bool, poolOk: bool, submitOk: bool, syncOk: bool, fillOk: bool,
                           backing: Backing)

  /** A spawned `await_gfx_queue_release`: its timeline point and its command buffer, if any. */
  datatype Waiter = Waiter(point: nat, buf: Option<nat>)

  /** No pending frame owns the buffer. */
  ghost predicate NotAFrame(rd: Renderer, b: nat)
    reads rd
  {
    forall p :: p in rd.pendingFrames ==> rd.pendingFrames[p] != b
  }

  /**
   * `async_release_from_gfx_queue`.  Without a distinct transfer family
   * the image changes hands at once unless a graphics job still uses it,
   * in which case its sync file is awaited.  With a distinct family a
   * release barrier is submitted on the graphics queue and awaited; the
   * source asserts that the graphics queue then owns the image or has it
   * released to itself.  A submission that fails loses its command buffer.
   */
  method AsyncReleaseFromGfxQueue(rd: Renderer, img: VulkanImage, drv: Driver)
    returns (r: Result<(), VulkanError>, waiter: Option<Waiter>)
    requires rd.Valid()
    requires rd.distinctTransferFamily.Some? ==>
               img.queueState == Acquired(Gfx) || img.queueState == Released(Gfx)
    modifies rd, rd.gfxBuffers, img`queueState, img`lastGfxUse
    ensures rd.Valid() && old(rd.gfxBuffers.handedOut) <= rd.gfxBuffers.handedOut
    ensures rd.defunct == old(rd.defunct) && rd.pendingFrames == old(rd.pendingFrames)
    ensures rd.pendingCpuJobs == old(rd.pendingCpuJobs)
    ensures old(rd.defunct) ==> r == Err(Defunct)
    ensures rd.distinctTransferFamily.None? ==> (r.Ok? <==> !old(rd.defunct))
    ensures rd.distinctTransferFamily.Some? ==>
              (r.Ok? <==> !old(rd.defunct) && drv.fenceOk && (old(rd.gfxBuffers.buffers) != [] || drv.poolOk)
                          && drv.submitOk)
    ensures r.Err? ==>
              && waiter.None? && img.queueState == old(img.queueState) && img.lastGfxUse == old(img.lastGfxUse)
              && rd.pendingSubmits == old(rd.pendingSubmits) && rd.lastPoint == old(rd.lastPoint)
    ensures r.Err? && !old(rd.defunct) ==> r.error == DeviceCall
    ensures r.Ok? && waiter.None? ==>
              && rd.distinctTransferFamily.None? && old(img.lastGfxUse).None?
              && img.queueState == Released(Transfer)
              && rd.pendingSubmits == old(rd.pendingSubmits) && rd.lastPoint == old(rd.lastPoint)
    ensures r.Ok? && rd.distinctTransferFamily.None? ==>
              img.lastGfxUse.None? && (waiter.Some? <==> old(img.lastGfxUse).Some?)
    ensures rd.distinctTransferFamily.Some? ==> img.lastGfxUse == old(img.lastGfxUse)
    ensures waiter.Some? ==>
              && r.Ok? && waiter.value.point == old(rd.lastPoint) + 1 && rd.lastPoint == waiter.value.point
              && rd.pendingSubmits == old(rd.pendingSubmits) + {waiter.value.point}
              && img.queueState == Releasing
              && (waiter.value.buf.Some? <==> rd.distinctTransferFamily.Some?)
    ensures waiter.Some? && waiter.value.buf.Some? ==>
              && waiter.value.buf.value !in old(rd.gfxBuffers.handedOut)
              && waiter.value.buf.value in rd.gfxBuffers.handedOut
              && NotAFrame(rd, waiter.value.buf.value)
    ensures old(rd.lastPoint) <= rd.lastPoint
  {
    if rd.defunct {
      return Err(Defunct), None;
    }
    if rd.distinctTransferFamily.None? {
      if img.lastGfxUse.None? {
        img.queueState := Released(Transfer);
        return Ok(()), None;
      }
      img.lastGfxUse := None;
      var id := rd.AllocatePoint();
      rd.pendingSubmits := rd.pendingSubmits + {id};
      img.queueState := Releasing;
      return Ok(()), Some(Waiter(id, None));
    }
    if !drv.fenceOk {
      return Err(DeviceCall), None;
    }
    var cmd := rd.gfxBuffers.Allocate(drv.poolOk);
    if cmd.Err? {
      return Err(cmd.error), None;
    }
    if !drv.submitOk {
      return Err(DeviceCall), None;
    }
    var id := rd.AllocatePoint();
    rd.pendingSubmits := rd.pendingSubmits + {id};
    img.queueState := Releasing;
    return Ok(()), Some(Waiter(id, Some(cmd.value)));
  }

  /**
   * `async_download_copy_image_to_buffer`: nothing happens while the
   * transfer queue cannot use the image; otherwise the copy into the
   * staging buffer is submitted and awaited, and the image is being
   * released back.  `submit_buffer_image_copy` is not part of this model:
   * its success is `submitOk` and it yields a fresh timeline point.
   */
  method AsyncDownloadCopyImageToBuffer(rd: Renderer, img: VulkanImage, drv: Driver)
    returns (r: Result<(), VulkanError>, point: Option<nat>)
    requires rd.Valid()
    modifies rd, img`queueState
    ensures rd.Valid() && rd.defunct == old(rd.defunct) && rd.pendingFrames == old(rd.pendingFrames)
    ensures rd.pendingCpuJobs == old(rd.pendingCpuJobs)
    ensures point.Some? <==> Acquire(old(img.queueState), Transfer) != Impossible && !old(rd.defunct) && drv.submitOk
    ensures r.Err? <==> Acquire(old(img.queueState), Transfer) != Impossible && (old(rd.defunct) || !drv.submitOk)
    ensures r.Err? ==> r.error == (if old(rd.defunct) then Defunct else DeviceCall)
    ensures point.Some? ==>
              && point.value == old(rd.lastPoint) + 1 && rd.lastPoint == point.value
              && rd.pendingSubmits == old(rd.pendingSubmits) + {point.value} && img.queueState == Releasing
    ensures point.None? ==>
              && rd.lastPoint == old(rd.lastPoint) && rd.pendingSubmits == old(rd.pendingSubmits)
              && img.queueState == old(img.queueState)
    ensures old(rd.lastPoint) <= rd.lastPoint
  {
    if Acquire(img.queueState, Transfer) == Impossible {
      return Ok(()), None;
    }
    if rd.defunct {
      return Err(Defunct), None;
    }
    if !drv.submitOk {
      return Err(DeviceCall), None;
    }
    var p := rd.AllocatePoint();
    img.queueState := Releasing;
    rd.pendingSubmits := rd.pendingSubmits + {p};
    return Ok(()), Some(p);
  }

  /**
   * `async_upload_copy_buffer_to_image`: the copy from the staging buffer
   * into the image waits for both the host copy (`dataCopied`) and the
   * release to the transfer queue; whichever comes second submits it.
   * The staging buffer is unwrapped, so a missing or unfilled shell panics.
   */
  method AsyncUploadCopyBufferToImage(rd: Renderer, img: VulkanImage, drv: Driver)
    returns (r: Result<(), VulkanError>, panicked: bool, point: Option<nat>)
    requires rd.Valid()
    modifies rd, img`queueState
    ensures rd.Valid() && rd.defunct == old(rd.defunct) && rd.pendingFrames == old(rd.pendingFrames)
    ensures rd.pendingCpuJobs == old(rd.pendingCpuJobs)
    ensures var ready := old(img.dataCopied) && Acquire(old(img.queueState), Transfer) != Impossible;
            && (panicked <==> ready && !old(rd.defunct) && (img.staging.None? || !img.staging.value.filled))
            && (point.Some? <==> ready && !old(rd.defunct) && !panicked && drv.syncOk && drv.submitOk)
            && (r.Err? <==> ready && (old(rd.defunct) || (!panicked && !(drv.syncOk && drv.submitOk))))
    ensures r.Err? ==> r.error == (if old(rd.defunct) then Defunct else DeviceCall)
    ensures point.Some? ==>
              && point.value == old(rd.lastPoint) + 1 && rd.lastPoint == point.value
              && rd.pendingSubmits == old(rd.pendingSubmits) + {point.value} && img.queueState == Releasing
    ensures point.None? ==>
              && rd.lastPoint == old(rd.lastPoint) && rd.pendingSubmits == old(rd.pendingSubmits)
              && img.queueState == old(img.queueState)
  {
    if !img.dataCopied || Acquire(img.queueState, Transfer) == Impossible {
      return Ok(()), false, None;
    }
    if rd.defunct {
      return Err(Defunct), false, None;
    }
    if img.staging.None? || !img.staging.value.filled {
      return Ok(()), true, None;
    }
    if !drv.syncOk || !drv.submitOk {
      return Err(DeviceCall), false, None;
    }
    var p := rd.AllocatePoint();
    img.queueState := Releasing;
    rd.pendingSubmits := rd.pendingSubmits + {p};
    return Ok(()), false, Some(p);
  }

  // ---------------------------------------------------------------------
  // The host copy
  // ---------------------------------------------------------------------

  /** Every recorded copy lies inside the image. */
  ghost predicate RegionsInImage(img: VulkanImage)
    reads img
  {
    forall i :: 0 <= i < |img.regions| ==> CopyInImage(img.regions[i], img)
  }

  /** The rectangles of the `Ptr` job: one per copy, at the copy's position and of its size. */
  method CopyRects(copies: seq<Copy>) returns (rects: seq<Rect>)
    ensures |rects| == |copies|
    ensures forall i :: 0 <= i < |copies| ==>
              rects[i] == Rect(copies[i].x, copies[i].y, copies[i].x + copies[i].width, copies[i].y + copies[i].height)
  {
    rects := [];
    for i := 0 to |copies|
      invariant |rects| == i
      invariant forall k :: 0 <= k < i ==>
                  rects[k] == Rect(copies[k].x, copies[k].y, copies[k].x + copies[k].width, copies[k].y + copies[k].height)
    {
      var c := copies[i];
      var r := NewSized(c.x, c.y, c.width, c.height);
      rects := rects + [r.value];
    }
  }

  /**
   * `async_transfer_initiate_host_copy`: a download first invalidates the
   * staging memory; then a CPU job copying between client memory and the
   * staging buffer is registered under a fresh point.  For mapped memory
   * the job copies the rectangles of the copies; for a file it reads or
   * writes one byte range that covers every copy and stays within the
   * client memory.
   */
  method InitiateHostCopy(rd: Renderer, img: VulkanImage, clientLen: nat, tt: TransferType, drv: Driver)
    returns (r: Result<(), VulkanError>, job: Option<(nat, HostJob)>)
    requires rd.Valid() && ShmLayout(img) && RegionsInImage(img) && img.Size() <= clientLen
    modifies rd
    ensures rd.Valid() && rd.defunct == old(rd.defunct) && rd.pendingFrames == old(rd.pendingFrames)
    ensures rd.pendingSubmits == old(rd.pendingSubmits)
    ensures r.Ok? <==> !old(rd.defunct) && (tt == Download ==> drv.syncOk)
    ensures r.Err? ==>
              && r.error == (if old(rd.defunct) then Defunct else DeviceCall) && job.None?
              && rd.lastPoint == old(rd.lastPoint) && rd.pendingCpuJobs == old(rd.pendingCpuJobs)
    ensures r.Ok? ==>
              && job.Some? && job.value.0 == old(rd.lastPoint) + 1 && rd.lastPoint == job.value.0
              && rd.pendingCpuJobs == old(rd.pendingCpuJobs) + {job.value.0}
    ensures r.Ok? && drv.backing.Ptr? ==>
              && job.value.1.CopyJob? && job.value.1.toStaging == (tt == Upload)
              && |job.value.1.rects| == |img.regions|
              && forall i :: 0 <= i < |img.regions| ==>
                   var c := img.regions[i];
                   job.value.1.rects[i] == Rect(c.x, c.y, c.x + c.width, c.y + c.height)
    ensures r.Ok? && drv.backing.Fd? ==>
              && job.value.1.IoJob? && job.value.1.write == (tt == Download)
              && job.value.1.fileOffset == drv.backing.offset + job.value.1.stagingOffset
              && job.value.1.stagingOffset + job.value.1.len <= clientLen
              && forall i :: 0 <= i < |img.regions| ==>
                   var c := img.regions[i];
                   job.value.1.stagingOffset <= c.bufferOffset
                   && c.bufferOffset + CopyLen(c, img.stride, img.bpp) <= job.value.1.stagingOffset + job.value.1.len
    ensures old(rd.lastPoint) <= rd.lastPoint
  {
    if rd.defunct {
      return Err(Defunct), None;
    }
    if tt == Download && !drv.syncOk {
      return Err(DeviceCall), None;
    }
    var id := rd.AllocatePoint();
    var work: HostJob;
    match drv.backing {
      case Ptr =>
        var rects := CopyRects(img.regions);
        work := CopyJob(rects, tt == Upload);
      case Fd(offset) =>
        var lo, hi := IoRange(img.regions, img.stride, img.bpp, clientLen);
        IoRangeInImage(img, img.regions, hi);
        work := IoJob(offset + lo, lo, SatSub(hi, lo), tt == Download);
    }
    rd.pendingCpuJobs := rd.pendingCpuJobs + {id};
    return Ok(()), Some((id, work));
  }

  // ---------------------------------------------------------------------
  // Completion events
  // ---------------------------------------------------------------------

  /** The image holds a staging shell whose memory exists. */
  ghost predicate StagingReady(img: VulkanImage)
    reads img, ShellOf(img)
  {
    img.staging.Some? && img.staging.value.filled
  }

  /**
   * The first half of `await_gfx_queue_release`: the command buffer of the
   * release returns to the graphics cache, the waiter is no longer
   * pending and the image belongs to the transfer queue.
   */
  method ReleasedToTransfer(rd: Renderer, img: VulkanImage, w: Waiter)
    requires PoolsValid(rd) && w.point in rd.pendingSubmits
    requires w.buf.Some? ==> w.buf.value in rd.gfxBuffers.handedOut && NotAFrame(rd, w.buf.value)
    modifies rd`pendingSubmits, rd.gfxBuffers, img`queueState
    ensures PoolsValid(rd)
    ensures rd.gfxBuffers.buffers == old(rd.gfxBuffers.buffers) + (if w.buf.Some? then [w.buf.value] else [])
    ensures rd.pendingSubmits == old(rd.pendingSubmits) - {w.point} && rd.lastPoint == old(rd.lastPoint)
    ensures rd.defunct == old(rd.defunct) && rd.pendingFrames == old(rd.pendingFrames)
    ensures rd.pendingCpuJobs == old(rd.pendingCpuJobs)
    ensures img.queueState == Released(Transfer)
  {
    if w.buf.Some? {
      rd.gfxBuffers.Push(w.buf.value);
    }
    rd.pendingSubmits := rd.pendingSubmits - {w.point};
    img.queueState := Released(Transfer);
  }

  /** A step that failed completes the transfer with its error. */
  method CompleteOnError(img: VulkanImage, r: Result<(), VulkanError>) returns (panicked: bool)
    modifies img, ShellOf(img)
    ensures r.Ok? ==> !panicked && unchanged(img)
    ensures r.Err? ==> (panicked <==> old(img.staging).None?) && !img.busy
    ensures r.Err? && !panicked ==>
              img.staging.None? && img.delivered == old(img.delivered) + Delivery(old(img.callback), r)
    ensures img.queueState == old(img.queueState) && img.regions == old(img.regions)
    ensures img.dataCopied == old(img.dataCopied)
    ensures old(img.staging).Some? ==> old(img.staging).value.filled == old(img.staging.value.filled)
  {
    panicked := false;
    if r.Err? {
      panicked := Complete(img, r);
    }
  }

  /**
   * The second half of `await_gfx_queue_release`, with the image now on
   * the transfer queue: an upload submits the buffer-to-image copy if the
   * host copy is done; a download submits the image-to-buffer copy if the
   * staging memory exists (otherwise its allocation continues later).
   */
  method ContinueOnTransferQueue(rd: Renderer, img: VulkanImage, tt: TransferType, drv: Driver)
    returns (r: Result<(), VulkanError>, panicked: bool, copyPoint: Option<nat>)
    requires rd.Valid() && img.queueState == Released(Transfer)
    modifies rd, img, ShellOf(img)
    ensures rd.Valid() && rd.defunct == old(rd.defunct) && rd.pendingFrames == old(rd.pendingFrames)
    ensures rd.pendingCpuJobs == old(rd.pendingCpuJobs)
    ensures img.regions == old(img.regions) && img.dataCopied == old(img.dataCopied)
    ensures copyPoint.None? ==>
              && img.queueState == Released(Transfer)
              && rd.pendingSubmits == old(rd.pendingSubmits) && rd.lastPoint == old(rd.lastPoint)
    ensures copyPoint.Some? ==>
              && img.queueState == Releasing && copyPoint.value == rd.lastPoint
              && copyPoint.value == old(rd.lastPoint) + 1
              && rd.pendingSubmits == old(rd.pendingSubmits) + {copyPoint.value}
    ensures tt == Upload ==>
              (copyPoint.Some? <==> old(img.dataCopied) && !old(rd.defunct) && old(StagingReady(img))
                                    && drv.syncOk && drv.submitOk)
    ensures tt == Upload && !old(img.dataCopied) ==> r.Ok? && !panicked
    ensures tt == Download ==>
              (copyPoint.Some? <==> !old(rd.defunct) && old(StagingReady(img)) && drv.submitOk)
    ensures old(StagingReady(img)) ==> !panicked
    ensures r.Ok? ==>
              && img.busy == old(img.busy) && img.staging == old(img.staging) && img.clientMem == old(img.clientMem)
              && img.callback == old(img.callback) && img.delivered == old(img.delivered)
    ensures r.Err? && !panicked ==>
              !img.busy && img.staging.None? && img.delivered == old(img.delivered) + Delivery(old(img.callback), r)
  {
    match tt {
      case Upload =>
        r, panicked, copyPoint := AsyncUploadCopyBufferToImage(rd, img, drv);
        if panicked {
          return;
        }
      case Download =>
        if img.staging.None? {
          return Ok(()), true, None;
        }
        if img.staging.value.filled {
          r, copyPoint := AsyncDownloadCopyImageToBuffer(rd, img, drv);
        } else {
          r, copyPoint := Ok(()), None;
        }
    }
    panicked := CompleteOnError(img, r);
  }

  /**
   * `await_gfx_queue_release`, once the graphics queue has released the
   * image: the image moves to the transfer queue and the transfer
   * continues there; an error completes it.  Failing to wait on the sync
   * file (which blocks the renderer) is left out.
   */
  method AwaitGfxQueueRelease(rd: Renderer, img: VulkanImage, w: Waiter, tt: TransferType, drv: Driver)
    returns (r: Result<(), VulkanError>, panicked: bool, copyPoint: Option<nat>)
    requires PoolsValid(rd) && w.point in rd.pendingSubmits
    requires w.buf.Some? ==> w.buf.value in rd.gfxBuffers.handedOut && NotAFrame(rd, w.buf.value)
    modifies rd, rd.gfxBuffers, img, ShellOf(img)
    ensures PoolsValid(rd) && rd.defunct == old(rd.defunct) && rd.pendingFrames == old(rd.pendingFrames)
    ensures rd.pendingCpuJobs == old(rd.pendingCpuJobs)
    ensures rd.gfxBuffers.buffers == old(rd.gfxBuffers.buffers) + (if w.buf.Some? then [w.buf.value] else [])
    ensures w.point !in rd.pendingSubmits
    ensures copyPoint.None? && !panicked ==>
              img.queueState == Released(Transfer) && rd.pendingSubmits == old(rd.pendingSubmits) - {w.point}
    ensures copyPoint.Some? ==>
              && img.queueState == Releasing && copyPoint.value == rd.lastPoint
              && rd.pendingSubmits == old(rd.pendingSubmits) - {w.point} + {copyPoint.value}
    ensures tt == Upload ==>
              (copyPoint.Some? <==> old(img.dataCopied) && !old(rd.defunct) && old(StagingReady(img))
                                    && drv.syncOk && drv.submitOk)
    ensures tt == Download ==>
              (copyPoint.Some? <==> !old(rd.defunct) && old(StagingReady(img)) && drv.submitOk)
    ensures old(StagingReady(img)) ==> !panicked
    ensures r.Ok? ==> img.busy == old(img.busy) && img.delivered == old(img.delivered)
    ensures r.Err? && !panicked ==>
              !img.busy && img.delivered == old(img.delivered) + Delivery(old(img.callback), r)
  {
    assert w.point <= rd.lastPoint;
    ReleasedToTransfer(rd, img, w);
    r, panicked, copyPoint := ContinueOnTransferQueue(rd, img, tt, drv);
  }

  /**
   * The first half of `await_async_transfer_release_to_gfx`: the command
   * buffer returns to the transfer cache (the graphics cache without
   * one), the copy is no longer pending and the graphics queue may
   * acquire the image.
   */
  method ReleasedToGfx(rd: Renderer, img: VulkanImage, point: nat, buf: nat)
    requires PoolsValid(rd)
    requires rd.transferBuffers.Some? ==> buf in rd.transferBuffers.value.handedOut
    requires rd.transferBuffers.None? ==> buf in rd.gfxBuffers.handedOut && NotAFrame(rd, buf)
    modifies rd`pendingSubmits, Pools(rd), img`queueState
    ensures PoolsValid(rd)
    ensures rd.transferBuffers.Some? ==>
              && rd.transferBuffers.value.buffers == old(rd.transferBuffers.value.buffers) + [buf]
              && rd.gfxBuffers.buffers == old(rd.gfxBuffers.buffers)
    ensures rd.transferBuffers.None? ==> rd.gfxBuffers.buffers == old(rd.gfxBuffers.buffers) + [buf]
    ensures img.queueState == Released(Gfx) && rd.pendingSubmits == old(rd.pendingSubmits) - {point}
    ensures rd.lastPoint == old(rd.lastPoint) && rd.defunct == old(rd.defunct)
    ensures rd.pendingFrames == old(rd.pendingFrames) && rd.pendingCpuJobs == old(rd.pendingCpuJobs)
  {
    match rd.transferBuffers {
      case Some(pool) => pool.Push(buf);
      case None => rd.gfxBuffers.Push(buf);
    }
    img.queueState := Released(Gfx);
    rd.pendingSubmits := rd.pendingSubmits - {point};
  }

  /**
   * The second half of `await_async_transfer_release_to_gfx`: an upload
   * is complete; a download starts the host copy out of the staging
   * buffer (unwrapping the staging memory and the client memory), and an
   * error completes it.
   */
  method FinishOnGfxQueue(rd: Renderer, img: VulkanImage, tt: TransferType, drv: Driver)
    returns (r: Result<(), VulkanError>, panicked: bool, job: Option<(nat, HostJob)>)
    requires rd.Valid() && ShmLayout(img) && RegionsInImage(img)
    requires img.clientMem.Some? ==> img.Size() <= img.clientMem.value
    modifies rd, img, ShellOf(img)
    ensures rd.Valid() && rd.defunct == old(rd.defunct) && rd.pendingFrames == old(rd.pendingFrames)
    ensures rd.pendingSubmits == old(rd.pendingSubmits) && img.queueState == old(img.queueState)
    ensures tt == Upload ==>
              && job.None? && r.Ok? && (panicked <==> old(img.staging).None?) && !img.busy
              && (!panicked ==> img.delivered == old(img.delivered) + Delivery(old(img.callback), Ok(())))
    ensures tt == Download ==>
              && (panicked <==> !old(StagingReady(img)) || old(img.clientMem).None?)
              && (!panicked ==> (job.Some? <==> !old(rd.defunct) && drv.syncOk) && (r.Ok? <==> job.Some?))
    ensures job.Some? ==>
              && img.busy == old(img.busy) && img.delivered == old(img.delivered)
              && rd.pendingCpuJobs == old(rd.pendingCpuJobs) + {job.value.0}
    ensures r.Err? && !panicked ==>
              !img.busy && img.staging.None? && img.delivered == old(img.delivered) + Delivery(old(img.callback), r)
  {
    job := None;
    match tt {
      case Upload =>
        r := Ok(());
        panicked := Complete(img, Ok(()));
      case Download =>
        if img.staging.None? || !img.staging.value.filled || img.clientMem.None? {
          return Ok(()), true, None;
        }
        r, job := InitiateHostCopy(rd, img, img.clientMem.value, Download, drv);
        panicked := CompleteOnError(img, r);
    }
  }

  /** `await_async_transfer_release_to_gfx`, once the transfer queue has released the image back. */
  method AwaitAsyncTransferReleaseToGfx(rd: Renderer, img: VulkanImage, point: nat, buf: nat,
                                        tt: TransferType, drv: Driver)
    returns (r: Result<(), VulkanError>, panicked: bool, job: Option<(nat, HostJob)>)
    requires PoolsValid(rd)
    requires ShmLayout(img) && RegionsInImage(img)
    requires img.clientMem.Some? ==> img.Size() <= img.clientMem.value
    requires rd.transferBuffers.Some? ==> buf in rd.transferBuffers.value.handedOut
    requires rd.transferBuffers.None? ==> buf in rd.gfxBuffers.handedOut && NotAFrame(rd, buf)
    modifies rd, Pools(rd), img, ShellOf(img)
    ensures PoolsValid(rd) && rd.defunct == old(rd.defunct) && rd.pendingFrames == old(rd.pendingFrames)
    ensures rd.transferBuffers.Some? ==>
              && rd.transferBuffers.value.buffers == old(rd.transferBuffers.value.buffers) + [buf]
              && rd.gfxBuffers.buffers == old(rd.gfxBuffers.buffers)
    ensures rd.transferBuffers.None? ==> rd.gfxBuffers.buffers == old(rd.gfxBuffers.buffers) + [buf]
    ensures img.queueState == Released(Gfx) && rd.pendingSubmits == old(rd.pendingSubmits) - {point}
    ensures tt == Upload ==>
              && job.None? && r.Ok? && (panicked <==> old(img.staging).None?) && !img.busy
              && (!panicked ==> img.delivered == old(img.delivered) + Delivery(old(img.callback), Ok(())))
    ensures tt == Download ==>
              && (panicked <==> !old(StagingReady(img)) || old(img.clientMem).None?)
              && (!panicked ==> (job.Some? <==> !old(rd.defunct) && drv.syncOk) && (r.Ok? <==> job.Some?))
    ensures job.Some? ==>
              && img.busy == old(img.busy) && img.delivered == old(img.delivered)
              && rd.pendingCpuJobs == old(rd.pendingCpuJobs) + {job.value.0}
    ensures r.Err? && !panicked ==>
              !img.busy && img.delivered == old(img.delivered) + Delivery(old(img.callback), r)
  {
    ReleasedToGfx(rd, img, point, buf);
    r, panicked, job := FinishOnGfxQueue(rd, img, tt, drv);
  }

  /**
   * The part of `complete_async_host_copy` after a successful host copy:
   * the data is copied; a download is complete; an upload submits the
   * buffer-to-image copy once the image belongs to the transfer queue,
   * and completes with the error if that fails.
   */
  method AfterHostCopy(rd: Renderer, img: VulkanImage, tt: TransferType, drv: Driver)
    returns (panicked: bool, copyPoint: Option<nat>)
    requires rd.Valid()
    modifies rd, img, ShellOf(img)
    ensures rd.Valid() && rd.pendingCpuJobs == old(rd.pendingCpuJobs)
    ensures rd.defunct == old(rd.defunct) && rd.pendingFrames == old(rd.pendingFrames)
    ensures img.regions == old(img.regions) && img.dataCopied
    ensures tt == Download ==>
              && copyPoint.None? && (panicked <==> old(img.staging).None?) && !img.busy
              && (!panicked ==> img.delivered == old(img.delivered) + Delivery(old(img.callback), Ok(())))
              && (panicked ==> img.delivered == old(img.delivered))
    ensures tt == Upload ==>
              (copyPoint.Some? <==> Acquire(old(img.queueState), Transfer) != Impossible && !old(rd.defunct)
                                    && old(StagingReady(img)) && drv.syncOk && drv.submitOk)
    ensures tt == Upload && (old(StagingReady(img)) || Acquire(old(img.queueState), Transfer) == Impossible) ==>
              !panicked
    ensures (tt == Upload && old(img.staging).None? && Acquire(old(img.queueState), Transfer) != Impossible
             && !old(rd.defunct)) ==> panicked
    ensures tt == Upload && Acquire(old(img.queueState), Transfer) == Impossible ==>
              && copyPoint.None? && img.busy == old(img.busy) && img.delivered == old(img.delivered)
              && img.queueState == old(img.queueState)
    ensures tt == Upload && copyPoint.Some? ==>
              && img.busy == old(img.busy) && img.delivered == old(img.delivered) && img.queueState == Releasing
              && rd.pendingSubmits == old(rd.pendingSubmits) + {copyPoint.value}
  {
    img.dataCopied := true;
    match tt {
      case Upload =>
        var r;
        r, panicked, copyPoint := AsyncUploadCopyBufferToImage(rd, img, drv);
        if !panicked {
          panicked := CompleteOnError(img, r);
        }
      case Download =>
        copyPoint := None;
        panicked := Complete(img, Ok(()));
    }
  }

  /**
   * `complete_async_host_copy` as written: a failed host copy completes
   * the transfer with the error but then carries on as if it had
   * succeeded, so a download is completed a second time and an upload
   * unwraps the staging shell that the first completion took -- both
   * panic once the copy could proceed.
   */
  method CompleteAsyncHostCopyAsWritten(rd: Renderer, img: VulkanImage, id: nat, ok: bool, tt: TransferType,
                                        drv: Driver)
    returns (panicked: bool, copyPoint: Option<nat>)
    requires rd.Valid()
    modifies rd, img, ShellOf(img)
    ensures rd.Valid() && rd.pendingCpuJobs == old(rd.pendingCpuJobs) - {id}
    ensures (!ok && tt == Download && old(img.staging).Some?) ==>
              panicked && img.delivered == old(img.delivered) + Delivery(old(img.callback), Err(AsyncCopyToStaging))
    ensures (!ok && tt == Upload && old(img.staging).Some? && Acquire(old(img.queueState), Transfer) != Impossible
             && !old(rd.defunct)) ==> panicked
    ensures (!ok && old(img.staging).Some?) ==> img.dataCopied
  {
    rd.pendingCpuJobs := rd.pendingCpuJobs - {id};
    if !ok {
      panicked := Complete(img, Err(AsyncCopyToStaging));
      if panicked {
        return panicked, None;
      }
    }
    panicked, copyPoint := AfterHostCopy(rd, img, tt, drv);
  }

  /**
   * `complete_async_host_copy` with a return after the failure is
   * reported: the job is no longer pending; a failed copy completes the
   * transfer with its error and nothing else.
   */
  method CompleteAsyncHostCopy(rd: Renderer, img: VulkanImage, id: nat, ok: bool, tt: TransferType, drv: Driver)
    returns (panicked: bool, copyPoint: Option<nat>)
    requires rd.Valid()
    modifies rd, img, ShellOf(img)
    ensures rd.Valid() && rd.pendingCpuJobs == old(rd.pendingCpuJobs) - {id}
    ensures rd.defunct == old(rd.defunct) && rd.pendingFrames == old(rd.pendingFrames)
    ensures img.regions == old(img.regions)
    ensures !ok ==>
              && copyPoint.None? && (panicked <==> old(img.staging).None?) && !img.busy
              && img.dataCopied == old(img.dataCopied) && img.queueState == old(img.queueState)
              && rd.pendingSubmits == old(rd.pendingSubmits)
              && (!panicked ==> img.delivered == old(img.delivered) + Delivery(old(img.callback), Err(AsyncCopyToStaging)))
    ensures ok ==> img.dataCopied
    ensures ok && tt == Download ==>
              && copyPoint.None? && (panicked <==> old(img.staging).None?) && !img.busy
              && (!panicked ==> img.delivered == old(img.delivered) + Delivery(old(img.callback), Ok(())))
    ensures ok && tt == Upload ==>
              (copyPoint.Some? <==> Acquire(old(img.queueState), Transfer) != Impossible && !old(rd.defunct)
                                    && old(StagingReady(img)) && drv.syncOk && drv.submitOk)
    ensures ok && tt == Upload && old(StagingReady(img)) ==> !panicked
    ensures ok && tt == Upload && Acquire(old(img.queueState), Transfer) == Impossible ==>
              && copyPoint.None? && !panicked && img.busy == old(img.busy) && img.delivered == old(img.delivered)
    ensures ok && tt == Upload && copyPoint.Some? ==>
              && img.busy == old(img.busy) && img.delivered == old(img.delivered) && img.queueState == Releasing
              && rd.pendingSubmits == old(rd.pendingSubmits) + {copyPoint.value}
  {
    rd.pendingCpuJobs := rd.pendingCpuJobs - {id};
    if !ok {
      panicked := Complete(img, Err(AsyncCopyToStaging));
      return panicked, None;
    }
    panicked, copyPoint := AfterHostCopy(rd, img, tt, drv);
  }

  /** As written, a failed host copy of a download panics after reporting the failure. */
  method HostCopyFailurePanicsAsWritten(rd: Renderer, img: VulkanImage, id: nat, drv: Driver)
    returns (panicked: bool)
    requires rd.Valid() && img.staging.Some?
    modifies rd, img, ShellOf(img)
    ensures panicked
  {
    var copyPoint;
    panicked, copyPoint := CompleteAsyncHostCopyAsWritten(rd, img, id, false, Download, drv);
  }

  /** With the return, the failure reaches the callback exactly once and nothing panics. */
  method HostCopyFailureReportedOnce(rd: Renderer, img: VulkanImage, id: nat, cb: Callback, drv: Driver)
    returns (panicked: bool)
    requires rd.Valid() && img.staging.Some? && img.callback == Some(cb) && img.delivered == []
    modifies rd, img, ShellOf(img)
    ensures !panicked && !img.busy && img.delivered == [(cb, Err(AsyncCopyToStaging))]
  {
    var copyPoint;
    panicked, copyPoint := CompleteAsyncHostCopy(rd, img, id, false, Download, drv);
  }

  // ---------------------------------------------------------------------
  // Starting a transfer
  // ---------------------------------------------------------------------

  /** The damage a transfer copies: all of the image for an upload of undefined contents. */
  function TransferDamage(damage: seq<Rect>, tt: TransferType, undefined: bool, width: nat, height: nat)
    : (d: seq<Rect>)
    ensures tt == Upload && undefined ==> d == [AtOrigin(width, height)]
    ensures !(tt == Upload && undefined) ==> d == damage
  {
    if tt == Upload && undefined then [AtOrigin(width, height)] else damage
  }

  /** The whole-image damage becomes exactly one copy of the whole image. */
  lemma WholeImageCopy(img: VulkanImage, gw: nat, gh: nat)
    requires gw > 0 && gh > 0 && img.width > 0 && img.height > 0
    ensures RegionsOf([AtOrigin(img.width, img.height)], 1, img.width, img.height, img.stride, img.bpp, gw, gh)
            == [Copy(0, 0, 0, img.width, img.height)]
  {
    var a := AlignedDamage(AtOrigin(img.width, img.height), img.width, img.height, gw, gh);
    assert AlignDown(0, gw) == 0 && AlignDown(0, gh) == 0;
    assert a == Some(Rect(0, 0, img.width, img.height));
  }

  /** The image records the copies of the damage a transfer copies. */
  ghost predicate RecordedRegions(img: VulkanImage, damage: seq<Rect>, tt: TransferType, undefined: bool, gw: nat, gh: nat)
    reads img
    requires gw > 0 && gh > 0
  {
    var d := TransferDamage(damage, tt, undefined, img.width, img.height);
    img.regions == RegionsOf(d, |d|, img.width, img.height, img.stride, img.bpp, gw, gh)
  }

  /**
   * The first half of `try_async_transfer`: the checks and marks, then
   * the copy regions of the damage.
   */
  method PrepareTransfer(rd: Renderer, img: VulkanImage, shell: StagingShell, clientLen: nat,
                         damage: seq<Rect>, tt: TransferType)
    returns (r: Result<(), VulkanError>)
    modifies img, shell
    ensures old(RefusalOf(img, shell, clientLen, tt)).Some? ==>
              r.Err? && Some(r.error) == old(RefusalOf(img, shell, clientLen, tt)) && unchanged(img, shell)
    ensures r.Ok? <==> old(RefusalOf(img, shell, clientLen, tt)).None?
    ensures r.Ok? ==>
              && Marked(img, shell, clientLen) && RegionsInImage(img) && img.Size() <= clientLen
              && RecordedRegions(img, damage, tt, old(img.contentsAreUndefined), rd.widthMask + 1, rd.heightMask + 1)
              && img.queueState == old(img.queueState) && img.lastGfxUse == old(img.lastGfxUse)
              && img.callback == old(img.callback) && img.delivered == old(img.delivered)
              && shell.filled == old(shell.filled)
  {
    r := AcceptTransfer(img, shell, clientLen, tt);
    if r.Err? {
      return;
    }
    var d := TransferDamage(damage, tt, img.contentsAreUndefined, img.width, img.height);
    var copies := BuildRegions(img, d, rd.widthMask + 1, rd.heightMask + 1);
    RegionsOfMeans(img, d, |d|, rd.widthMask + 1, rd.heightMask + 1);
    img.regions := copies;
  }

  /**
   * The second half of `try_async_transfer`: the image is released from
   * the graphics queue; then, if the staging memory exists, an upload
   * starts its host copy and a download its image-to-buffer copy (which
   * waits for the release if there is one); otherwise the staging memory
   * is allocated first (`fillOk` is whether that request is accepted).
   */
  method StartTransfer(rd: Renderer, img: VulkanImage, shell: StagingShell, clientLen: nat,
                       tt: TransferType, drv: Driver)
    returns (r: Result<(), VulkanError>, waiter: Option<Waiter>, job: Option<(nat, HostJob)>,
             copyPoint: Option<nat>)
    requires PoolsValid(rd) && ShmLayout(img) && RegionsInImage(img) && img.Size() <= clientLen
    requires rd.distinctTransferFamily.Some? ==>
               img.queueState == Acquired(Gfx) || img.queueState == Released(Gfx)
    modifies rd, rd.gfxBuffers, img`queueState, img`lastGfxUse
    ensures PoolsValid(rd) && rd.defunct == old(rd.defunct) && rd.pendingFrames == old(rd.pendingFrames)
    ensures old(rd.defunct) ==> r == Err(Defunct)
    ensures waiter.Some? ==>
              && waiter.value.point in rd.pendingSubmits && waiter.value.point !in old(rd.pendingSubmits)
              && (waiter.value.buf.Some? ==>
                    waiter.value.buf.value in rd.gfxBuffers.handedOut && NotAFrame(rd, waiter.value.buf.value))
    ensures r.Ok? && waiter.None? ==> rd.distinctTransferFamily.None? && old(img.lastGfxUse).None?
    ensures r.Ok? && shell.filled && tt == Upload ==>
              job.Some? && job.value.0 in rd.pendingCpuJobs && job.value.0 !in old(rd.pendingCpuJobs)
    ensures r.Ok? && shell.filled && tt == Download && waiter.None? ==>
              copyPoint.Some? && copyPoint.value in rd.pendingSubmits && img.queueState == Releasing
    ensures r.Ok? && waiter.Some? ==> img.queueState == Releasing
    ensures r.Ok? && !shell.filled ==> drv.fillOk
    ensures !shell.filled || tt == Download ==> job.None?
    ensures !shell.filled || tt == Upload ==> copyPoint.None?
    ensures old(rd.lastPoint) <= rd.lastPoint
  {
    job, copyPoint := None, None;
    r, waiter := AsyncReleaseFromGfxQueue(rd, img, drv);
    if r.Err? {
      return;
    }
    if shell.filled {
      match tt {
        case Upload =>
          r, job := InitiateHostCopy(rd, img, clientLen, Upload, drv);
        case Download =>
          r, copyPoint := AsyncDownloadCopyImageToBuffer(rd, img, drv);
      }
    } else if !drv.fillOk {
      r := Err(DeviceCall);
    }
  }

  /**
   * `try_async_transfer` with the download of undefined contents refused
   * before the image is marked.  A refused transfer changes nothing; an
   * accepted one marks the image and the shell, records the copies of the
   * damage and starts the transfer.  A later failure (a defunct renderer
   * or a driver call) leaves the marks in place.
   */
  method TryAsyncTransfer(rd: Renderer, img: VulkanImage, shell: StagingShell, clientLen: nat,
                          damage: seq<Rect>, tt: TransferType, drv: Driver)
    returns (r: Result<(), VulkanError>, waiter: Option<Waiter>, job: Option<(nat, HostJob)>,
             copyPoint: Option<nat>)
    requires PoolsValid(rd) && ShmLayout(img)
    requires rd.distinctTransferFamily.Some? ==>
               img.queueState == Acquired(Gfx) || img.queueState == Released(Gfx)
    modifies rd, rd.gfxBuffers, img, shell
    ensures PoolsValid(rd) && rd.defunct == old(rd.defunct) && rd.pendingFrames == old(rd.pendingFrames)
    ensures old(RefusalOf(img, shell, clientLen, tt)).Some? ==>
              && r.Err? && Some(r.error) == old(RefusalOf(img, shell, clientLen, tt)) && unchanged(img, shell)
              && unchanged(rd) && waiter.None? && job.None? && copyPoint.None?
    ensures old(RefusalOf(img, shell, clientLen, tt)).None? ==>
              && Marked(img, shell, clientLen) && RegionsInImage(img)
              && RecordedRegions(img, damage, tt, old(img.contentsAreUndefined), rd.widthMask + 1, rd.heightMask + 1)
              && img.callback == old(img.callback) && img.delivered == old(img.delivered)
    ensures old(RefusalOf(img, shell, clientLen, tt)).None? && old(rd.defunct) ==> r == Err(Defunct)
    ensures waiter.Some? ==> waiter.value.point in rd.pendingSubmits
    ensures r.Ok? && waiter.None? ==> rd.distinctTransferFamily.None? && old(img.lastGfxUse).None?
    ensures r.Ok? && old(shell.filled) && tt == Upload ==> job.Some? && job.value.0 in rd.pendingCpuJobs
    ensures r.Ok? && old(shell.filled) && tt == Download && waiter.None? ==>
              copyPoint.Some? && img.queueState == Releasing
    ensures r.Ok? && waiter.Some? ==> img.queueState == Releasing
    ensures old(rd.lastPoint) <= rd.lastPoint
  {
    waiter, job, copyPoint := None, None, None;
    r := PrepareTransfer(rd, img, shell, clientLen, damage, tt);
    if r.Err? {
      return;
    }
    r, waiter, job, copyPoint := StartTransfer(rd, img, shell, clientLen, tt, drv);
  }

  /**
   * `async_transfer`: an empty damage transfers nothing; otherwise a
   * successful start registers the callback under a fresh point, which
   * identifies the pending transfer.
   */
  method AsyncTransfer(rd: Renderer, img: VulkanImage, shell: StagingShell, clientLen: nat,
                       damage: seq<Rect>, cb: Callback, tt: TransferType, drv: Driver)
    returns (r: Result<Option<nat>, VulkanError>)
    requires PoolsValid(rd) && ShmLayout(img)
    requires rd.distinctTransferFamily.Some? ==>
               img.queueState == Acquired(Gfx) || img.queueState == Released(Gfx)
    modifies rd, rd.gfxBuffers, img, shell
    ensures PoolsValid(rd)
    ensures damage == [] ==> r == Ok(None) && unchanged(img, shell) && unchanged(rd)
    ensures damage != [] && old(RefusalOf(img, shell, clientLen, tt)).Some? ==>
              r.Err? && Some(r.error) == old(RefusalOf(img, shell, clientLen, tt)) && unchanged(img, shell)
    ensures damage != [] && r.Ok? ==>
              && r.value == Some(rd.lastPoint) && rd.lastPoint > old(rd.lastPoint)
              && img.callbackId == rd.lastPoint && img.callback == Some(cb)
              && Marked(img, shell, clientLen) && img.delivered == old(img.delivered)
  {
    if damage == [] {
      return Ok(None);
    }
    var res, waiter, job, copyPoint := TryAsyncTransfer(rd, img, shell, clientLen, damage, tt, drv);
    if res.Err? {
      return Err(res.error);
    }
    var id := RegisterCallback(rd, img, cb);
    return Ok(Some(id));
  }

  /** The end of `async_transfer`: the callback waits under a fresh point. */
  method RegisterCallback(rd: Renderer, img: VulkanImage, cb: Callback) returns (id: nat)
    requires rd.Valid()
    modifies rd`lastPoint, img`callbackId, img`callback
    ensures rd.Valid() && id == old(rd.lastPoint) + 1 && rd.lastPoint == id
    ensures img.callbackId == id && img.callback == Some(cb)
  {
    id := rd.AllocatePoint();
    img.callbackId := id;
    img.callback := Some(cb);
  }

  /**
   * The continuation of `fill_staging_shell` (`async_transfer_after_allocation`
   * and the closure around it): with the staging memory allocated, an
   * upload starts its host copy and a download its image-to-buffer copy;
   * a failed allocation or start completes the transfer with the error.
   * That the shell now holds the memory is taken from `fill_staging_shell`,
   * which is not part of this model.
   */
  method AfterAllocation(rd: Renderer, img: VulkanImage, shell: StagingShell, clientLen: nat, allocOk: bool,
                         tt: TransferType, drv: Driver)
    returns (panicked: bool, job: Option<(nat, HostJob)>, copyPoint: Option<nat>)
    requires rd.Valid() && ShmLayout(img) && RegionsInImage(img) && img.Size() <= clientLen
    requires img.staging == Some(shell)
    modifies rd, img, shell
    ensures rd.Valid() && rd.defunct == old(rd.defunct) && rd.pendingFrames == old(rd.pendingFrames)
    ensures !panicked
    ensures shell.filled == (old(shell.filled) || allocOk)
    ensures !allocOk ==>
              && job.None? && copyPoint.None? && !img.busy && img.staging.None?
              && img.delivered == old(img.delivered) + Delivery(old(img.callback), Err(DeviceCall))
    ensures allocOk && tt == Upload ==>
              (job.Some? <==> !old(rd.defunct)) && copyPoint.None?
    ensures allocOk && tt == Download ==>
              job.None? && (copyPoint.Some? <==> Acquire(old(img.queueState), Transfer) != Impossible
                                                 && !old(rd.defunct) && drv.submitOk)
    ensures job.Some? || copyPoint.Some? ==> img.busy == old(img.busy) && img.delivered == old(img.delivered)
  {
    job, copyPoint := None, None;
    var r: Result<(), VulkanError>;
    if !allocOk {
      r := Err(DeviceCall);
    } else {
      shell.filled := true;
      match tt {
        case Upload =>
          r, job := InitiateHostCopy(rd, img, clientLen, Upload, drv);
        case Download =>
          r, copyPoint := AsyncDownloadCopyImageToBuffer(rd, img, drv);
      }
    }
    panicked := CompleteOnError(img, r);
  }
}
