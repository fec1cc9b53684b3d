/**
 * Shm textures of the Vulkan renderer (the older revision of the
 * asynchronous upload path): the validation of `create_shm_texture`, the
 * staging layout of a synchronous upload, and the asynchronous upload
 * through a CPU job and a staging buffer, whose completion hands the
 * result to the callback.
 */
module VulkanShmImage {
  import opened Wrappers
  import opened MachineInt
  import opened Rects
  import opened VulkanCommon
  import opened VulkanImage
  import opened VulkanRenderer
  import T = VulkanTransfer
  import G = GfxApi

  // ---------------------------------------------------------------------
  // Creating a shm texture
  // ---------------------------------------------------------------------

  /** The layout a shm texture is created with; `size` is `stride * height`. */
  datatype ShmTexture = ShmTexture(width: nat, height: nat, stride: nat, bpp: Bpp, size: nat)

  predicate ShmFormat(format: Format) {
    format.shmBpp.Some?
  }

  predicate PositiveSize(format: Format, width: int, height: int, stride: int) {
    ShmFormat(format) && width > 0 && height > 0 && stride > 0
  }

  /** The stride is a whole number of pixels, and at least a row of them. */
  predicate StrideOk(format: Format, width: int, height: int, stride: int) {
    && PositiveSize(format, width, height, stride)
    && stride % format.shmBpp.value == 0 && stride / format.shmBpp.value >= width
  }

  predicate DeviceHasShm(formats: map<G.FormatCode, VkFormat>, format: Format, width: int, height: int,
                         stride: int) {
    StrideOk(format, width, height, stride) && format.drm in formats && formats[format.drm].shm.Some?
  }

  /**
   * `create_shm_texture`: the checks, in order, that a shm texture has to
   * pass before the image is created.  All three dimensions arrive as
   * `i32` and are compared as `u32` once known to be positive.
   */
  function CreateShmTexture(formats: map<G.FormatCode, VkFormat>, format: Format,
                            width: int, height: int, stride: int): (r: Result<ShmTexture, VulkanError>)
    ensures r == Err(UnsupportedShmFormat) <==> !ShmFormat(format)
    ensures r == Err(NonPositiveImageSize) <==> ShmFormat(format) && !PositiveSize(format, width, height, stride)
    ensures r == Err(InvalidStride) <==>
              PositiveSize(format, width, height, stride) && !StrideOk(format, width, height, stride)
    ensures r == Err(FormatNotSupported) <==> StrideOk(format, width, height, stride) && format.drm !in formats
    ensures r == Err(ShmNotSupported) <==>
              StrideOk(format, width, height, stride) && format.drm in formats && formats[format.drm].shm.None?
    ensures r == Err(ImageTooLarge) <==>
              DeviceHasShm(formats, format, width, height, stride) && !Fits(formats[format.drm].shm, width, height)
    ensures r == Err(ShmOverflow) <==>
              DeviceHasShm(formats, format, width, height, stride) && Fits(formats[format.drm].shm, width, height)
              && !IsU32(stride * height)
    ensures r.Ok? ==>
              && DeviceHasShm(formats, format, width, height, stride) && Fits(formats[format.drm].shm, width, height)
              && r.value == ShmTexture(width, height, stride, format.shmBpp.value, stride * height)
              && width * format.shmBpp.value <= stride && IsU32(r.value.size)
  {
    if format.shmBpp.None? then Err(UnsupportedShmFormat)
    else
      var bpp := format.shmBpp.value;
      if width <= 0 || height <= 0 || stride <= 0 then Err(NonPositiveImageSize)
      else if stride % bpp != 0 || stride / bpp < width then Err(InvalidStride)
      else if format.drm !in formats then Err(FormatNotSupported)
      else if formats[format.drm].shm.None? then Err(ShmNotSupported)
      else
        var limits := formats[format.drm].shm.value;
        if width > limits.maxWidth || height > limits.maxHeight then Err(ImageTooLarge)
        else if stride * height > U32_MAX then Err(ShmOverflow)
        else
          StrideCoversRow(stride, bpp, width);
          Ok(ShmTexture(width, height, stride, bpp, stride * height))
  }

  /** A stride of at least `width` whole pixels holds a row of `width` pixels. */
  lemma StrideCoversRow(stride: nat, bpp: Bpp, width: nat)
    requires stride % bpp == 0 && stride / bpp >= width
    ensures width * bpp <= stride
  {
    var q := stride / bpp;
    assert stride == q * bpp;
    assert width * bpp <= q * bpp;
  }

  /**
   * The layout of a shm image: rows of `width` pixels within the stride,
   * the stride a whole number of pixels, the buffer addressable by a u32.
   */
  predicate ShmImage(img: VulkanImage) {
    T.ShmLayout(img) && img.stride % img.bpp == 0 && !img.isDmabuf
  }

  /**
   * The image `create_shm_texture` builds from an accepted layout (`deviceOk`
   * says whether the driver calls creating and binding it succeed); a new
   * image is undefined, and non-empty initial data is uploaded in full,
   * which defines it.  The caller hands in data covering the whole image.
   */
  method CreateShmImage(rd: Renderer, formats: map<G.FormatCode, VkFormat>, format: Format,
                        width: int, height: int, stride: int, data: seq<Byte>, deviceOk: bool, dev: Device)
    returns (r: Result<VulkanImage, VulkanError>)
    requires rd.Valid()
    requires data != [] ==> |data| >= stride * height
    modifies rd, rd.gfxBuffers
    ensures rd.Valid()
    ensures r.Ok? <==> CreateShmTexture(formats, format, width, height, stride).Ok? && deviceOk
                       && (data != [] ==> UploadSucceeds(old(rd.defunct), old(rd.gfxBuffers.buffers), dev))
    ensures r.Err? && CreateShmTexture(formats, format, width, height, stride).Err? ==>
              r.error == CreateShmTexture(formats, format, width, height, stride).error
    ensures r.Ok? ==>
              && var t := CreateShmTexture(formats, format, width, height, stride).value;
              && fresh(r.value) && ShmImage(r.value) && r.value.format == format
              && r.value.width == t.width && r.value.height == t.height && r.value.stride == t.stride
              && r.value.bpp == t.bpp && r.value.Size() == t.size
              && r.value.queueState == Acquired(Gfx) && !r.value.busy && r.value.callback.None?
              && r.value.isUndefined == (data == []) && r.value.contentsAreUndefined == (data == [])
  {
    var t := CreateShmTexture(formats, format, width, height, stride);
    if t.Err? {
      return Err(t.error);
    }
    if !deviceOk {
      return Err(DeviceCall);
    }
    var img := new VulkanImage(format, t.value.width, t.value.height, t.value.stride, t.value.bpp, false, true);
    if data != [] {
      var u, plan, staging, waiter := Upload(rd, img, data, None, dev);
      if u.Err? {
        return Err(u.error);
      }
    }
    return Ok(img);
  }

  // ---------------------------------------------------------------------
  // The staging layout of a synchronous upload
  // ---------------------------------------------------------------------

  /**
   * One damage rectangle of `upload` and `try_async_upload`, clipped to the
   * image; `None` when `Rect::new` refuses the clipped corners or the
   * result is empty.
   */
  function Clamp(d: Rect, width: nat, height: nat): (r: Option<Rect>)
    ensures r.Some? ==> 0 <= r.value.x1 < r.value.x2 <= width && 0 <= r.value.y1 < r.value.y2 <= height
  {
    var c := Rect(Max(d.x1, 0), Max(d.y1, 0), Min(d.x2, width), Min(d.y2, height));
    if c.x1 > c.x2 || c.y1 > c.y2 then None
    else if c.IsEmpty() then None
    else Some(c)
  }

  /**
   * The clipping of the older revision is the widening and clipping of the
   * newer transfer path at a granularity of one pixel.
   */
  lemma ClampIsUnitAlignment(d: Rect, width: nat, height: nat)
    ensures Clamp(d, width, height) == T.AlignedDamage(d, width, height, 1, 1)
  {
    if d.x2 >= 0 && d.y2 >= 0 {
      assert T.AlignDown(Max(d.x1, 0), 1) == Max(d.x1, 0);
      assert T.AlignDown(Max(d.y1, 0), 1) == Max(d.y1, 0);
      assert T.AlignUp(d.x2, 1) == d.x2;
      assert T.AlignUp(d.y2, 1) == d.y2;
    }
  }

  /** The bytes of one row of a copy. */
  function RowLen(c: Copy, bpp: nat): nat {
    c.width * bpp
  }

  /** The bytes a copy occupies when its rows are packed: `width * height * bpp`. */
  function CopySize(c: Copy, bpp: nat): nat {
    c.height * RowLen(c, bpp)
  }

  /** The packed size of the first `n` copies. */
  function SizeBefore(copies: seq<Copy>, n: nat, bpp: nat): nat
    requires n <= |copies|
  {
    if n == 0 then 0 else SizeBefore(copies, n - 1, bpp) + CopySize(copies[n - 1], bpp)
  }

  lemma {:induction false} SizeBeforeGrows(copies: seq<Copy>, i: nat, n: nat, bpp: nat)
    requires i <= n <= |copies|
    ensures SizeBefore(copies, i, bpp) <= SizeBefore(copies, n, bpp)
    decreases n
  {
    if i < n {
      SizeBeforeGrows(copies, i, n - 1, bpp);
    }
  }

  /**
   * The copies `upload` builds for the first `n` damage rectangles, each at
   * the staging offset where the previous ones end, and that offset.
   */
  function PackedOf(damage: seq<Rect>, n: nat, width: nat, height: nat, bpp: nat): (seq<Copy>, nat)
    requires n <= |damage|
  {
    if n == 0 then ([], 0)
    else
      var (copies, total) := PackedOf(damage, n - 1, width, height, bpp);
      var c := Clamp(damage[n - 1], width, height);
      if c.None? then (copies, total)
      else
        var cp := Copy(total, c.value.x1, c.value.y1, c.value.Width(), c.value.Height());
        (copies + [cp], total + CopySize(cp, bpp))
  }

  /**
   * Each packed copy starts where the copies before it end, and the
   * staging size is the size of all of them.
   */
  lemma {:induction false} PackedOfLayout(damage: seq<Rect>, n: nat, width: nat, height: nat, bpp: nat)
    requires n <= |damage|
    ensures PackedLayout(PackedOf(damage, n, width, height, bpp), bpp)
  {
    if n > 0 {
      PackedOfLayout(damage, n - 1, width, height, bpp);
      var c := Clamp(damage[n - 1], width, height);
      if c.Some? {
        var (prev, pt) := PackedOf(damage, n - 1, width, height, bpp);
        var cp := Copy(pt, c.value.x1, c.value.y1, c.value.Width(), c.value.Height());
        assert PackedOf(damage, n, width, height, bpp) == (prev + [cp], pt + CopySize(cp, bpp));
        PackedLayoutGrows(prev, pt, cp, bpp);
      } else {
        assert PackedOf(damage, n, width, height, bpp) == PackedOf(damage, n - 1, width, height, bpp);
      }
    }
  }

  /**
   * `PackedOf` with the `u32` arithmetic of the source: `total_size`
   * wraps modulo 2^32, and so do the offsets taken from it.
   */
  function PackedOfAsWritten(damage: seq<Rect>, n: nat, width: nat, height: nat, bpp: nat): (seq<Copy>, nat)
    requires n <= |damage|
  {
    if n == 0 then ([], 0)
    else
      var (copies, total) := PackedOfAsWritten(damage, n - 1, width, height, bpp);
      var c := Clamp(damage[n - 1], width, height);
      if c.None? then (copies, total)
      else
        var cp := Copy(total, c.value.x1, c.value.y1, c.value.Width(), c.value.Height());
        (copies + [cp], U32Add(total, U32Of(CopySize(cp, bpp))))
  }

  /** A value truncated to `u32`. */
  function U32Of(x: nat): nat {
    x % 0x1_0000_0000
  }

  /** `u32` addition of two `u32` values, wrapping around. */
  function U32Add(a: nat, b: nat): nat {
    U32Of(a + b)
  }

  /**
   * Two damage rectangles covering a 32768 x 24576 image of four bytes per
   * pixel (3 * 2^30 bytes, within `u32`): as written the staging buffer
   * gets 2^31 bytes, yet the second copy starts at offset 3 * 2^30 and the
   * host copy writes 6 * 2^30 bytes; packed without wrap-around the
   * staging size is the size of both copies.
   */
  lemma PackedSizeWrapsAsWritten()
    ensures var r := Rect(0, 0, 32768, 24576);
            var (copies, total) := PackedOfAsWritten([r, r], 2, 32768, 24576, 4);
            && |copies| == 2 && total == 0x8000_0000 && copies[1].bufferOffset == 0xC000_0000
            && SizeBefore(copies, 2, 4) == 0x1_8000_0000
            && PackedOf([r, r], 2, 32768, 24576, 4).1 == 0x1_8000_0000
  {
    var r := Rect(0, 0, 32768, 24576);
    var d := [r, r];
    assert Clamp(r, 32768, 24576) == Some(r);
    var c0, c1 := Copy(0, 0, 0, 32768, 24576), Copy(0xC000_0000, 0, 0, 32768, 24576);
    assert CopySize(c0, 4) == 0xC000_0000 && CopySize(c1, 4) == 0xC000_0000;
    assert U32Of(0xC000_0000) == 0xC000_0000 && U32Add(0, 0xC000_0000) == 0xC000_0000;
    assert U32Add(0xC000_0000, 0xC000_0000) == 0x8000_0000;
    assert PackedOfAsWritten(d, 0, 32768, 24576, 4) == ([], 0);
    assert d[0] == r;
    var cc := Clamp(d[0], 32768, 24576);
    assert cc == Some(r);
    assert Copy(0, cc.value.x1, cc.value.y1, cc.value.Width(), cc.value.Height()) == c0;
    var p1 := PackedOfAsWritten(d, 1, 32768, 24576, 4);
    assert p1 == ([] + [c0], U32Add(0, U32Of(CopySize(c0, 4))));
    assert [] + [c0] == [c0];
    assert p1 == ([c0], 0xC000_0000);
    var cc1 := Clamp(d[1], 32768, 24576);
    assert cc1 == Some(r);
    assert Copy(0xC000_0000, cc1.value.x1, cc1.value.y1, cc1.value.Width(), cc1.value.Height()) == c1;
    var p2 := PackedOfAsWritten(d, 2, 32768, 24576, 4);
    assert p2 == ([c0] + [c1], U32Add(0xC000_0000, U32Of(CopySize(c1, 4))));
    assert [c0] + [c1] == [c0, c1];
    assert p2 == ([c0, c1], 0x8000_0000);
    assert SizeBefore(p2.0, 1, 4) == 0xC000_0000;
    assert PackedOf(d, 1, 32768, 24576, 4) == ([c0], 0xC000_0000);
    assert PackedOf(d, 2, 32768, 24576, 4) == ([c0, c1], 0x1_8000_0000);
  }

  /** Each copy starts where the copies before it end, and `total` is where the last one ends. */
  ghost predicate PackedLayout(packed: (seq<Copy>, nat), bpp: nat) {
    var (copies, total) := packed;
    && total == SizeBefore(copies, |copies|, bpp)
    && forall i :: 0 <= i < |copies| ==> copies[i].bufferOffset == SizeBefore(copies, i, bpp)
  }

  lemma PackedLayoutGrows(prev: seq<Copy>, pt: nat, cp: Copy, bpp: nat)
    requires PackedLayout((prev, pt), bpp) && cp.bufferOffset == pt
    ensures PackedLayout((prev + [cp], pt + CopySize(cp, bpp)), bpp)
  {
    var copies := prev + [cp];
    forall i | 0 <= i < |copies|
      ensures copies[i].bufferOffset == SizeBefore(copies, i, bpp)
    {
      SizeBeforePrefix(prev, copies, i, bpp);
      if i < |prev| {
        assert copies[i] == prev[i];
      }
    }
    SizeBeforePrefix(prev, copies, |prev|, bpp);
  }

  lemma {:induction false} SizeBeforePrefix(p: seq<Copy>, q: seq<Copy>, i: nat, bpp: nat)
    requires p <= q && i <= |p|
    ensures SizeBefore(p, i, bpp) == SizeBefore(q, i, bpp)
  {
    if i > 0 {
      SizeBeforePrefix(p, q, i - 1, bpp);
    }
  }

  /**
   * The packed copies of `upload` cover the same rectangles as the copies
   * of the transfer path at unit granularity; only their offsets differ.
   */
  lemma {:induction false} PackedMatchesRegions(damage: seq<Rect>, n: nat, width: nat, height: nat, stride: nat,
                                                bpp: nat)
    requires n <= |damage|
    ensures var copies := PackedOf(damage, n, width, height, bpp).0;
            var regions := T.RegionsOf(damage, n, width, height, stride, bpp, 1, 1);
            && |copies| == |regions|
            && forall i :: 0 <= i < |copies| ==>
                 && copies[i].x == regions[i].x && copies[i].y == regions[i].y
                 && copies[i].width == regions[i].width && copies[i].height == regions[i].height
  {
    if n > 0 {
      PackedMatchesRegions(damage, n - 1, width, height, stride, bpp);
      ClampIsUnitAlignment(damage[n - 1], width, height);
    }
  }

  /** The damage loop of `upload`: the packed copies and the staging size. */
  method PackDamage(img: VulkanImage, damage: seq<Rect>) returns (copies: seq<Copy>, total: nat)
    ensures (copies, total) == PackedOf(damage, |damage|, img.width, img.height, img.bpp)
  {
    copies, total := [], 0;
    for i := 0 to |damage|
      invariant (copies, total) == PackedOf(damage, i, img.width, img.height, img.bpp)
    {
      // skipped: refused by `Rect::new` or empty once clipped
      var c := Clamp(damage[i], img.width, img.height);
      if c.Some? {
        var r := c.value;
        var cp := Copy(total, r.x1, r.y1, r.Width(), r.Height());
        copies := copies + [cp];
        total := total + r.Width() * r.Height() * img.bpp;
        MulSwap(r.Width(), r.Height(), img.bpp);
      }
    }
  }

  // ---------------------------------------------------------------------
  // The staging bytes of a synchronous upload
  // ---------------------------------------------------------------------

  /** The geometry of a shm image. */
  datatype Layout = Layout(width: nat, height: nat, stride: nat, bpp: Bpp)

  function LayoutOf(img: VulkanImage): Layout {
    Layout(img.width, img.height, img.stride, img.bpp)
  }

  /** Rows of `width` pixels fit into the stride, and `height` rows into `len` bytes. */
  predicate Holds(l: Layout, len: nat) {
    l.width * l.bpp <= l.stride && l.stride * l.height <= len
  }

  /** A copy of at least one pixel inside the image. */
  predicate Inside(c: Copy, l: Layout) {
    c.width >= 1 && c.height >= 1 && c.x + c.width <= l.width && c.y + c.height <= l.height
  }

  predicate AllInside(copies: seq<Copy>, l: Layout) {
    forall i :: 0 <= i < |copies| ==> Inside(copies[i], l)
  }

  /** Where row `dy` of a copy starts in the client buffer. */
  function RowStart(c: Copy, dy: nat, l: Layout): nat {
    (c.y + dy) * l.stride + c.x * l.bpp
  }

  /** Every row of a copy inside the image lies within the client buffer. */
  lemma RowFits(c: Copy, dy: nat, l: Layout, len: nat)
    requires Inside(c, l) && Holds(l, len) && dy < c.height
    ensures RowStart(c, dy, l) + c.width * l.bpp <= len
  {
    var y, xe := c.y + dy, c.x + c.width;
    MulAdd(c.x, c.width, l.bpp);
    MulMono(xe, l.width, l.bpp);
    MulAdd(y, 1, l.stride);
    MulMono(y + 1, l.height, l.stride);
  }

  lemma MulAdd(a: nat, b: nat, m: nat)
    ensures a * m + b * m == (a + b) * m
  {
  }

  lemma MulMono(a: nat, b: nat, m: nat)
    requires a <= b
    ensures a * m <= b * m
  {
  }

  /** The first `n` rows of a copy, packed one after the other. */
  function RowsOf(buffer: seq<Byte>, c: Copy, n: nat, l: Layout): seq<Byte>
    requires Inside(c, l) && Holds(l, |buffer|) && n <= c.height
  {
    if n == 0 then []
    else
      RowFits(c, n - 1, l, |buffer|);
      var lo := RowStart(c, n - 1, l);
      RowsOf(buffer, c, n - 1, l) + buffer[lo..lo + RowLen(c, l.bpp)]
  }

  /** Byte `k` of chunk `dy` of `n` chunks of `len` bytes lies before the end of the chunks. */
  lemma ChunkIndex(dy: nat, n: nat, len: nat, k: nat)
    requires dy < n && k < len
    ensures 0 <= dy * len && dy * len + k < n * len
  {
    assert (dy + 1) * len <= n * len;
  }

  lemma MulSucc(n: nat, len: nat)
    requires n > 0
    ensures (n - 1) * len + len == n * len
  {
  }

  lemma MulSwap(w: nat, h: nat, b: nat)
    ensures w * h * b == h * (w * b)
  {
  }

  lemma {:induction false} RowsOfLength(buffer: seq<Byte>, c: Copy, n: nat, l: Layout)
    requires Inside(c, l) && Holds(l, |buffer|) && n <= c.height
    ensures |RowsOf(buffer, c, n, l)| == n * RowLen(c, l.bpp)
  {
    if n > 0 {
      RowsOfLength(buffer, c, n - 1, l);
      RowFits(c, n - 1, l, |buffer|);
      MulSucc(n, RowLen(c, l.bpp));
    }
  }

  /** Byte `k` of row `dy` of the packed rows is byte `k` of that row of the image. */
  lemma {:induction false} RowsOfAt(buffer: seq<Byte>, c: Copy, n: nat, l: Layout, dy: nat, k: nat)
    requires Inside(c, l) && Holds(l, |buffer|) && n <= c.height
    requires dy < n && k < RowLen(c, l.bpp)
    ensures dy * RowLen(c, l.bpp) + k < |RowsOf(buffer, c, n, l)|
    ensures RowStart(c, dy, l) + k < |buffer|
    ensures RowsOf(buffer, c, n, l)[dy * RowLen(c, l.bpp) + k] == buffer[RowStart(c, dy, l) + k]
  {
    var len := RowLen(c, l.bpp);
    RowsOfLength(buffer, c, n, l);
    RowsOfLength(buffer, c, n - 1, l);
    ChunkIndex(dy, n, len, k);
    RowFits(c, dy, l, |buffer|);
    if dy < n - 1 {
      RowsOfAt(buffer, c, n - 1, l, dy, k);
    }
  }

  /** The staging bytes of the first `m` packed copies. */
  function PackedBytes(buffer: seq<Byte>, copies: seq<Copy>, m: nat, l: Layout): seq<Byte>
    requires AllInside(copies, l) && Holds(l, |buffer|) && m <= |copies|
  {
    if m == 0 then []
    else PackedBytes(buffer, copies, m - 1, l) + RowsOf(buffer, copies[m - 1], copies[m - 1].height, l)
  }

  lemma {:induction false} PackedBytesLength(buffer: seq<Byte>, copies: seq<Copy>, m: nat, l: Layout)
    requires AllInside(copies, l) && Holds(l, |buffer|) && m <= |copies|
    ensures |PackedBytes(buffer, copies, m, l)| == SizeBefore(copies, m, l.bpp)
  {
    if m > 0 {
      PackedBytesLength(buffer, copies, m - 1, l);
      RowsOfLength(buffer, copies[m - 1], copies[m - 1].height, l);
    }
  }

  /** The rows of copy `i` start at the packed size of the copies before it. */
  lemma {:induction false} PackedBytesAt(buffer: seq<Byte>, copies: seq<Copy>, m: nat, l: Layout, i: nat, j: nat)
    requires AllInside(copies, l) && Holds(l, |buffer|) && m <= |copies|
    requires i < m && j < CopySize(copies[i], l.bpp)
    ensures j < |RowsOf(buffer, copies[i], copies[i].height, l)|
    ensures SizeBefore(copies, i, l.bpp) + j < |PackedBytes(buffer, copies, m, l)|
    ensures PackedBytes(buffer, copies, m, l)[SizeBefore(copies, i, l.bpp) + j]
            == RowsOf(buffer, copies[i], copies[i].height, l)[j]
  {
    PackedBytesLength(buffer, copies, m, l);
    PackedBytesLength(buffer, copies, m - 1, l);
    RowsOfLength(buffer, copies[i], copies[i].height, l);
    if i < m - 1 {
      PackedBytesAt(buffer, copies, m - 1, l, i, j);
    }
  }

  /**
   * The rows of every copy, packed copy after copy: the nested loops of the
   * `staging.upload` closure.
   */
  method WriteRows(buffer: seq<Byte>, copies: seq<Copy>, l: Layout) returns (mem: seq<Byte>)
    requires AllInside(copies, l) && Holds(l, |buffer|)
    ensures mem == PackedBytes(buffer, copies, |copies|, l)
  {
    mem := [];
    for i := 0 to |copies|
      invariant mem == PackedBytes(buffer, copies, i, l)
    {
      var c := copies[i];
      var rowsDone := mem;
      for dy := 0 to c.height
        invariant mem == rowsDone + RowsOf(buffer, c, dy, l)
      {
        RowFits(c, dy, l, |buffer|);
        var lo := (c.y + dy) * l.stride + c.x * l.bpp;
        var len := c.width * l.bpp;
        mem := mem + buffer[lo..lo + len];
      }
    }
  }

  /**
   * The copies of an upload with their common `buffer_row_length` (0 when
   * rows are packed tightly) and the size of the staging buffer.
   */
  datatype Plan = Plan(copies: seq<Copy>, rowLength: nat, size: nat)

  /** The distance between two rows of a copy in the staging buffer, as the GPU reads it. */
  function Pitch(p: Plan, c: Copy, bpp: nat): nat {
    if p.rowLength == 0 then c.width * bpp else p.rowLength * bpp
  }

  /**
   * Byte `k` of row `dy` of copy `i`, read by the GPU from the staging
   * buffer, is that byte of the client buffer.
   */
  predicate ByteStaged(staging: seq<Byte>, p: Plan, buffer: seq<Byte>, l: Layout, i: nat, dy: nat, k: nat)
    requires i < |p.copies|
  {
    var c := p.copies[i];
    var dst := c.bufferOffset + dy * Pitch(p, c, l.bpp) + k;
    var src := RowStart(c, dy, l) + k;
    dst < |staging| && src < |buffer| && staging[dst] == buffer[src]
  }

  /** The staging buffer holds every byte every copy of the plan reads. */
  ghost predicate Staged(staging: seq<Byte>, p: Plan, buffer: seq<Byte>, l: Layout) {
    forall i: nat, dy: nat, k: nat | i < |p.copies| && dy < p.copies[i].height && k < p.copies[i].width * l.bpp
      :: ByteStaged(staging, p, buffer, l, i, dy, k)
  }

  /**
   * The plan of `upload`: for no damage one copy of the whole image with
   * rows `stride / bpp` pixels apart and a staging buffer of `height *
   * stride` bytes; for damage the packed copies of its clipped rectangles.
   */
  function PlanOf(damage: Option<seq<Rect>>, l: Layout): Plan {
    if damage.None? then Plan([Copy(0, 0, 0, l.width, l.height)], l.stride / l.bpp, l.height * l.stride)
    else
      var (copies, total) := PackedOf(damage.value, |damage.value|, l.width, l.height, l.bpp);
      Plan(copies, 0, total)
  }

  /**
   * The staging bytes `upload` writes hold, for every copy of its plan,
   * the image bytes the GPU copies from there: the packed rows of the
   * damage, or the client buffer in full.
   */
  lemma PackedBytesStaged(buffer: seq<Byte>, damage: seq<Rect>, l: Layout)
    requires Holds(l, |buffer|)
    ensures var p := PlanOf(Some(damage), l);
            && AllInside(p.copies, l)
            && |PackedBytes(buffer, p.copies, |p.copies|, l)| == p.size
            && Staged(PackedBytes(buffer, p.copies, |p.copies|, l), p, buffer, l)
  {
    var p := PlanOf(Some(damage), l);
    PackedCovers(damage, |damage|, l);
    PackedOfLayout(damage, |damage|, l.width, l.height, l.bpp);
    assert PackedLayout((p.copies, p.size), l.bpp);
    PackedBytesLength(buffer, p.copies, |p.copies|, l);
    var mem := PackedBytes(buffer, p.copies, |p.copies|, l);
    forall i: nat, dy: nat, k: nat | i < |p.copies| && dy < p.copies[i].height && k < p.copies[i].width * l.bpp
      ensures ByteStaged(mem, p, buffer, l, i, dy, k)
    {
      PackedByteStaged(buffer, p, l, i, dy, k);
    }
  }

  /** One byte of one row of one packed copy is staged. */
  lemma PackedByteStaged(buffer: seq<Byte>, p: Plan, l: Layout, i: nat, dy: nat, k: nat)
    requires Holds(l, |buffer|) && AllInside(p.copies, l) && PackedLayout((p.copies, p.size), l.bpp)
    requires p.rowLength == 0
    requires i < |p.copies| && dy < p.copies[i].height && k < p.copies[i].width * l.bpp
    ensures ByteStaged(PackedBytes(buffer, p.copies, |p.copies|, l), p, buffer, l, i, dy, k)
  {
    var c := p.copies[i];
    var len := RowLen(c, l.bpp);
    assert Pitch(p, c, l.bpp) == len;
    RowsOfAt(buffer, c, c.height, l, dy, k);
    ChunkIndex(dy, c.height, len, k);
    assert dy * len + k < CopySize(c, l.bpp);
    PackedBytesAt(buffer, p.copies, |p.copies|, l, i, dy * len + k);
  }

  /** A copy covers pixel `(x, y)` of the image. */
  predicate CopyCovers(c: Copy, x: int, y: int) {
    c.x <= x < c.x + c.width && c.y <= y < c.y + c.height
  }

  /** Clipping keeps every pixel of the damage that lies inside the image. */
  lemma ClampKeeps(d: Rect, width: nat, height: nat, x: int, y: int)
    requires T.InRect(d, x, y) && 0 <= x < width && 0 <= y < height
    ensures Clamp(d, width, height).Some? && T.InRect(Clamp(d, width, height).value, x, y)
  {
  }

  /**
   * The packed copies lie inside the image, and every pixel of the damage
   * inside the image is covered by one of them.
   */
  lemma {:induction false} PackedCovers(damage: seq<Rect>, n: nat, l: Layout)
    requires n <= |damage|
    ensures var copies := PackedOf(damage, n, l.width, l.height, l.bpp).0;
            && AllInside(copies, l)
            && forall k, x: int, y: int ::
                 (0 <= k < n && T.InRect(damage[k], x, y) && 0 <= x < l.width && 0 <= y < l.height) ==>
                 exists i :: 0 <= i < |copies| && CopyCovers(copies[i], x, y)
  {
    if n > 0 {
      PackedCovers(damage, n - 1, l);
      var prev := PackedOf(damage, n - 1, l.width, l.height, l.bpp).0;
      var copies := PackedOf(damage, n, l.width, l.height, l.bpp).0;
      assert prev <= copies;
      forall k, x: int, y: int | 0 <= k < n && T.InRect(damage[k], x, y) && 0 <= x < l.width && 0 <= y < l.height
        ensures exists i :: 0 <= i < |copies| && CopyCovers(copies[i], x, y)
      {
        if k < n - 1 {
          var i :| 0 <= i < |prev| && CopyCovers(prev[i], x, y);
          assert copies[i] == prev[i];
        } else {
          ClampKeeps(damage[k], l.width, l.height, x, y);
          assert CopyCovers(copies[|copies| - 1], x, y);
        }
      }
    }
  }

  /** The whole-image plan reads the client buffer row by row at its stride. */
  lemma FullStaged(buffer: seq<Byte>, l: Layout)
    requires Holds(l, |buffer|) && l.stride % l.bpp == 0
    ensures var p := PlanOf(None, l);
            && p.size <= |buffer| && Staged(buffer[..p.size], p, buffer, l)
  {
    var p := PlanOf(None, l);
    assert l.height * l.stride == l.stride * l.height;
    var q := l.stride / l.bpp;
    assert q * l.bpp == l.stride;
    forall i: nat, dy: nat, k: nat | i < |p.copies| && dy < p.copies[i].height && k < p.copies[i].width * l.bpp
      ensures ByteStaged(buffer[..p.size], p, buffer, l, i, dy, k)
    {
      var c := p.copies[i];
      assert c == Copy(0, 0, 0, l.width, l.height);
      assert Pitch(p, c, l.bpp) == l.stride;
      RowFits(c, dy, l, p.size);
    }
  }

  // ---------------------------------------------------------------------
  // The synchronous upload
  // ---------------------------------------------------------------------

  /**
   * The outcomes of the driver calls of an upload: creating the staging
   * buffer, flushing the bytes written to it, a new command buffer from the
   * pool, the release fence, recording and submitting the copy, and
   * exporting the fence as a sync file; and the kind of client memory.
   */
  datatype Device = Device(stagingOk: bool, flushOk: bool, poolOk: bool, fenceOk: bool, submitOk: bool,
                           exportOk: bool, backing: T.Backing)

  /** A copy can be submitted: a command buffer is cached or the pool makes one, and the driver accepts it. */
  predicate CanSubmit(buffers: seq<nat>, dev: Device) {
    (buffers != [] || dev.poolOk) && dev.fenceOk && dev.submitOk
  }

  /** An upload that copies something succeeds. */
  predicate UploadSucceeds(defunct: bool, buffers: seq<nat>, dev: Device) {
    !defunct && dev.stagingOk && dev.flushOk && CanSubmit(buffers, dev)
  }

  /** A submitted copy: the command buffer it runs in and the point it is pending under. */
  datatype Submission = Submission(buf: nat, point: nat)

  /**
   * `submit_buffer_to_image_copy`: a command buffer from the graphics cache
   * and a fence; once the copy is submitted the image is no longer
   * undefined.  When the sync file cannot be exported the renderer blocks
   * on the device instead (left out), so nothing is left to wait for.  A
   * submission that fails loses its command buffer.
   */
  method SubmitBufferToImageCopy(rd: Renderer, img: VulkanImage, dev: Device)
    returns (r: Result<Option<Submission>, VulkanError>)
    requires rd.Valid()
    modifies rd`lastPoint, rd.gfxBuffers, img`isUndefined, img`contentsAreUndefined
    ensures rd.Valid() && old(rd.gfxBuffers.handedOut) <= rd.gfxBuffers.handedOut
    ensures r.Ok? <==> CanSubmit(old(rd.gfxBuffers.buffers), dev)
    ensures r.Err? ==> r.error == DeviceCall
    ensures r.Ok? ==> !img.isUndefined && !img.contentsAreUndefined
    ensures r.Err? ==>
              img.isUndefined == old(img.isUndefined) && img.contentsAreUndefined == old(img.contentsAreUndefined)
    ensures r.Ok? ==> (r.value.Some? <==> dev.exportOk)
    ensures r.Ok? && r.value.Some? ==>
              && r.value.value.point == old(rd.lastPoint) + 1 && rd.lastPoint == r.value.value.point
              && r.value.value.buf in rd.gfxBuffers.handedOut && T.NotAFrame(rd, r.value.value.buf)
    ensures r.Err? || r.value.None? ==> rd.lastPoint == old(rd.lastPoint)
  {
    var cmd := rd.gfxBuffers.Allocate(dev.poolOk);
    if cmd.Err? || !dev.fenceOk || !dev.submitOk {
      return Err(DeviceCall);
    }
    img.isUndefined := false;
    img.contentsAreUndefined := false;
    if !dev.exportOk {
      return Ok(None);
    }
    var point := rd.AllocatePoint();
    return Ok(Some(Submission(cmd.value, point)));
  }

  /** The copies and the staging size of `upload`: the packed damage, or the whole client buffer. */
  method PlanUpload(img: VulkanImage, damage: Option<seq<Rect>>) returns (plan: Plan)
    requires ShmImage(img)
    ensures plan == PlanOf(damage, LayoutOf(img))
  {
    if damage.Some? {
      var copies, total := PackDamage(img, damage.value);
      plan := Plan(copies, 0, total);
    } else {
      plan := Plan([Copy(0, 0, 0, img.width, img.height)], img.stride / img.bpp, img.height * img.stride);
    }
  }

  /**
   * The fill of the staging buffer in `upload`: the packed rows of the
   * copies, or the client buffer as it is; each copy then reads from the
   * staging buffer exactly the client pixels it copies.
   */
  method FillStaging(img: VulkanImage, buffer: seq<Byte>, damage: Option<seq<Rect>>, plan: Plan)
    returns (staging: seq<Byte>)
    requires ShmImage(img) && |buffer| >= img.Size() && plan == PlanOf(damage, LayoutOf(img))
    ensures |staging| == plan.size && Staged(staging, plan, buffer, LayoutOf(img))
  {
    var l := LayoutOf(img);
    assert Holds(l, |buffer|);
    if damage.Some? {
      PackedBytesStaged(buffer, damage.value, l);
      staging := WriteRows(buffer, plan.copies, l);
    } else {
      FullStaged(buffer, l);
      staging := buffer[..plan.size];
    }
  }

  /**
   * `upload`: a defunct renderer refuses; an empty damage list copies
   * nothing; otherwise the staging buffer receives the bytes of the plan
   * (the packed rows of the clipped damage, or the whole client buffer)
   * and the copy into the image is submitted and kept pending under its
   * point.  The caller hands in a buffer covering the whole image.
   */
  method Upload(rd: Renderer, img: VulkanImage, buffer: seq<Byte>, damage: Option<seq<Rect>>, dev: Device)
    returns (r: Result<(), VulkanError>, plan: Plan, staging: seq<Byte>, sub: Option<Submission>)
    requires rd.Valid() && ShmImage(img) && |buffer| >= img.Size()
    modifies rd, rd.gfxBuffers, img`isUndefined, img`contentsAreUndefined
    ensures rd.Valid() && rd.defunct == old(rd.defunct) && rd.pendingFrames == old(rd.pendingFrames)
    ensures rd.pendingCpuJobs == old(rd.pendingCpuJobs)
    ensures r.Ok? <==>
              !old(rd.defunct) && (damage == Some([]) || UploadSucceeds(false, old(rd.gfxBuffers.buffers), dev))
    ensures r.Err? ==> r.error == (if old(rd.defunct) then Defunct else DeviceCall)
    ensures !old(rd.defunct) && damage != Some([]) && dev.stagingOk ==>
              && plan == PlanOf(damage, LayoutOf(img)) && |staging| == plan.size
              && Staged(staging, plan, buffer, LayoutOf(img))
    ensures var submitted := r.Ok? && damage != Some([]);
            && (submitted ==> !img.isUndefined && !img.contentsAreUndefined)
            && (!submitted ==>
                  img.isUndefined == old(img.isUndefined) && img.contentsAreUndefined == old(img.contentsAreUndefined))
            && (sub.Some? <==> submitted && dev.exportOk)
    ensures sub.Some? ==>
              && sub.value.point == old(rd.lastPoint) + 1 && rd.lastPoint == sub.value.point
              && rd.pendingSubmits == old(rd.pendingSubmits) + {sub.value.point}
              && sub.value.buf in rd.gfxBuffers.handedOut && T.NotAFrame(rd, sub.value.buf)
    ensures sub.None? ==> rd.lastPoint == old(rd.lastPoint) && rd.pendingSubmits == old(rd.pendingSubmits)
  {
    plan, staging, sub := Plan([], 0, 0), [], None;
    var alive := rd.CheckDefunct();
    if alive.Err? {
      return Err(Defunct), plan, staging, sub;
    }
    if damage == Some([]) {
      return Ok(()), plan, staging, sub;
    }
    plan := PlanUpload(img, damage);
    if !dev.stagingOk {
      return Err(DeviceCall), plan, staging, sub;
    }
    staging := FillStaging(img, buffer, damage, plan);
    if !dev.flushOk {
      return Err(DeviceCall), plan, staging, sub;
    }
    var submitted := SubmitBufferToImageCopy(rd, img, dev);
    if submitted.Err? {
      return Err(submitted.error), plan, staging, sub;
    }
    sub := submitted.value;
    if sub.Some? {
      rd.pendingSubmits := rd.pendingSubmits + {sub.value.point};
    }
    return Ok(()), plan, staging, sub;
  }

  /**
   * `await_upload`, once the copy has finished: its command buffer returns
   * to the graphics cache and the upload is no longer pending.
   */
  method AwaitUpload(rd: Renderer, sub: Submission)
    requires rd.Valid() && sub.buf in rd.gfxBuffers.handedOut && T.NotAFrame(rd, sub.buf)
    modifies rd`pendingSubmits, rd.gfxBuffers
    ensures rd.Valid()
    ensures rd.gfxBuffers.buffers == old(rd.gfxBuffers.buffers) + [sub.buf]
    ensures rd.pendingSubmits == old(rd.pendingSubmits) - {sub.point}
  {
    rd.gfxBuffers.Push(sub.buf);
    rd.pendingSubmits := rd.pendingSubmits - {sub.point};
  }

  // ---------------------------------------------------------------------
  // The asynchronous upload
  // ---------------------------------------------------------------------

  /**
   * `VulkanShmImageAsyncData::complete`: the image is no longer busy and
   * the callback, if still present, is taken and invoked once with the
   * result.
   */
  method Complete(img: VulkanImage, result: Result<(), VulkanError>)
    modifies img`busy, img`callback, img`delivered
    ensures !img.busy && img.callback.None?
    ensures img.delivered == old(img.delivered) + T.Delivery(old(img.callback), result)
  {
    img.busy := false;
    var cb := img.callback;
    img.callback := None;
    img.delivered := img.delivered + T.Delivery(cb, result);
  }

  /** A second completion finds the callback taken: the callback runs at most once. */
  method CompleteTwice(img: VulkanImage, first: Result<(), VulkanError>, second: Result<(), VulkanError>)
    modifies img`busy, img`callback, img`delivered
    ensures !img.busy && img.callback.None?
    ensures img.delivered == old(img.delivered) + T.Delivery(old(img.callback), first)
    ensures |img.delivered| <= |old(img.delivered)| + 1
  {
    Complete(img, first);
    Complete(img, second);
  }

  /**
   * The refusals of `try_async_upload`, in the order it checks them: the
   * image is busy, or the client memory is shorter than the image.
   */
  function UploadRefusal(busy: bool, size: nat, clientLen: nat): (e: Option<VulkanError>)
    ensures e == Some(AsyncCopyBusy) <==> busy
    ensures e == Some(InvalidBufferSize) <==> !busy && clientLen < size
    ensures e.None? <==> !busy && size <= clientLen
  {
    if busy then Some(AsyncCopyBusy)
    else if size > clientLen then Some(InvalidBufferSize)
    else None
  }

  /** The driver outcomes of an upload as the host-copy step of the transfer path reads them. */
  function DriverOf(dev: Device): T.Driver {
    T.Driver(dev.fenceOk, dev.poolOk, dev.submitOk, dev.flushOk, dev.stagingOk, dev.backing)
  }

  /**
   * `async_upload_initiate_copy`: a CPU job copying the recorded copies
   * from client memory into the staging buffer is registered under a
   * fresh point.  For mapped memory it copies the rectangles of the copies;
   * for a file it reads one byte range that covers every copy and stays
   * within the client memory.  This is the upload case of the host copy of
   * the transfer path.
   */
  method AsyncUploadInitiateCopy(rd: Renderer, img: VulkanImage, clientLen: nat, dev: Device)
    returns (r: Result<(), VulkanError>, job: Option<(nat, T.HostJob)>)
    requires rd.Valid() && ShmImage(img) && T.RegionsInImage(img) && img.Size() <= clientLen
    modifies rd
    ensures rd.Valid() && rd.defunct == old(rd.defunct) && rd.pendingFrames == old(rd.pendingFrames)
    ensures rd.pendingSubmits == old(rd.pendingSubmits)
    ensures r.Ok? <==> !old(rd.defunct)
    ensures r.Err? ==>
              && r.error == Defunct && job.None? && rd.lastPoint == old(rd.lastPoint)
              && rd.pendingCpuJobs == old(rd.pendingCpuJobs)
    ensures r.Ok? ==>
              && job.Some? && job.value.0 == old(rd.lastPoint) + 1 && rd.lastPoint == job.value.0
              && rd.pendingCpuJobs == old(rd.pendingCpuJobs) + {job.value.0}
    ensures r.Ok? && dev.backing.Ptr? ==>
              && job.value.1.CopyJob? && job.value.1.toStaging && |job.value.1.rects| == |img.regions|
              && forall i :: 0 <= i < |img.regions| ==>
                   var c := img.regions[i];
                   job.value.1.rects[i] == Rect(c.x, c.y, c.x + c.width, c.y + c.height)
    ensures r.Ok? && dev.backing.Fd? ==>
              && job.value.1.IoJob? && !job.value.1.write
              && job.value.1.fileOffset == dev.backing.offset + job.value.1.stagingOffset
              && job.value.1.stagingOffset + job.value.1.len <= clientLen
              && forall i :: 0 <= i < |img.regions| ==>
                   var c := img.regions[i];
                   job.value.1.stagingOffset <= c.bufferOffset
                   && c.bufferOffset + T.CopyLen(c, img.stride, img.bpp) <= job.value.1.stagingOffset + job.value.1.len
    ensures old(rd.lastPoint) <= rd.lastPoint
  {
    r, job := T.InitiateHostCopy(rd, img, clientLen, T.Upload, DriverOf(dev));
  }

  /** The image records the copies of the damage at unit granularity, all of it while undefined. */
  ghost predicate UploadRegions(img: VulkanImage, damage: seq<Rect>, undefined: bool)
    reads img
  {
    T.RecordedRegions(img, damage, T.Upload, undefined, 1, 1)
  }

  /**
   * `try_async_upload`: the refusals leave the image alone; otherwise the
   * image becomes busy, records the copies of the damage (the whole image
   * while its contents are undefined), and either starts the host copy
   * into the existing staging buffer or requests the staging buffer
   * (`stagingOk` says whether that request is accepted), whose allocation
   * continues the upload later.
   */
  method TryAsyncUpload(rd: Renderer, img: VulkanImage, clientLen: nat, damage: seq<Rect>, dev: Device)
    returns (r: Result<(), VulkanError>, job: Option<(nat, T.HostJob)>, allocating: bool)
    requires rd.Valid() && ShmImage(img)
    modifies rd, img`busy, img`regions
    ensures rd.Valid() && rd.defunct == old(rd.defunct) && rd.pendingFrames == old(rd.pendingFrames)
    ensures rd.pendingSubmits == old(rd.pendingSubmits) && old(rd.lastPoint) <= rd.lastPoint
    ensures var refusal := UploadRefusal(old(img.busy), img.Size(), clientLen);
            && (refusal.Some? ==>
                  && r == Err(refusal.value) && img.busy == old(img.busy) && img.regions == old(img.regions)
                  && job.None? && !allocating && rd.lastPoint == old(rd.lastPoint))
            && (refusal.None? ==>
                  && img.busy && UploadRegions(img, damage, img.contentsAreUndefined) && T.RegionsInImage(img))
            && (refusal.None? && img.uploadStaging ==>
                  && !allocating && (r.Ok? <==> !old(rd.defunct)) && (r.Ok? <==> job.Some?)
                  && (r.Err? ==> r.error == Defunct))
            && (refusal.None? && !img.uploadStaging ==>
                  && job.None? && (r.Ok? <==> dev.stagingOk) && allocating == r.Ok?
                  && (r.Err? ==> r.error == DeviceCall))
    ensures job.Some? ==>
              && job.value.0 == old(rd.lastPoint) + 1 && rd.lastPoint == job.value.0
              && rd.pendingCpuJobs == old(rd.pendingCpuJobs) + {job.value.0}
    ensures job.None? ==> rd.lastPoint == old(rd.lastPoint) && rd.pendingCpuJobs == old(rd.pendingCpuJobs)
  {
    job, allocating := None, false;
    var refusal := UploadRefusal(img.busy, img.Size(), clientLen);
    if refusal.Some? {
      return Err(refusal.value), job, allocating;
    }
    img.busy := true;
    var d := T.TransferDamage(damage, T.Upload, img.contentsAreUndefined, img.width, img.height);
    var copies := T.BuildRegions(img, d, 1, 1);
    T.RegionsOfMeans(img, d, |d|, 1, 1);
    img.regions := copies;
    if img.uploadStaging {
      r, job := AsyncUploadInitiateCopy(rd, img, clientLen, dev);
      return r, job, allocating;
    }
    if !dev.stagingOk {
      return Err(DeviceCall), job, allocating;
    }
    return Ok(()), job, true;
  }

  /** While its contents are undefined, an upload copies the whole image in one copy. */
  lemma UndefinedUploadCopiesWholeImage(img: VulkanImage, damage: seq<Rect>)
    requires img.width > 0 && img.height > 0 && UploadRegions(img, damage, true)
    ensures img.regions == [Copy(0, 0, 0, img.width, img.height)]
  {
    T.WholeImageCopy(img, 1, 1);
  }

  /**
   * `async_upload`: the asynchronous upload starts, and its callback waits
   * under a fresh point that identifies the pending upload.
   */
  method AsyncUpload(rd: Renderer, img: VulkanImage, clientLen: nat, damage: seq<Rect>, cb: Callback, dev: Device)
    returns (r: Result<nat, VulkanError>, job: Option<(nat, T.HostJob)>, allocating: bool)
    requires rd.Valid() && ShmImage(img)
    modifies rd, img`busy, img`regions, img`callbackId, img`callback
    ensures rd.Valid() && rd.defunct == old(rd.defunct) && rd.pendingFrames == old(rd.pendingFrames)
    ensures rd.pendingSubmits == old(rd.pendingSubmits)
    ensures UploadRefusal(old(img.busy), img.Size(), clientLen).Some? ==>
              r.Err? && Some(r.error) == UploadRefusal(old(img.busy), img.Size(), clientLen)
              && img.busy == old(img.busy) && img.callback == old(img.callback)
    ensures r.Ok? ==>
              && r.value == rd.lastPoint && rd.lastPoint > old(rd.lastPoint)
              && img.busy && img.callbackId == r.value && img.callback == Some(cb)
              && UploadRegions(img, damage, img.contentsAreUndefined) && T.RegionsInImage(img)
              && (job.Some? || allocating)
    ensures UploadRefusal(old(img.busy), img.Size(), clientLen).None? && img.uploadStaging ==>
              && (r.Ok? <==> !old(rd.defunct)) && !allocating && (r.Ok? ==> job.Some?)
    ensures job.Some? ==>
              && job.value.0 == old(rd.lastPoint) + 1
              && rd.pendingCpuJobs == old(rd.pendingCpuJobs) + {job.value.0}
    ensures job.None? ==> rd.pendingCpuJobs == old(rd.pendingCpuJobs)
    ensures r.Err? ==> img.callback == old(img.callback) && job.None?
  {
    var res;
    res, job, allocating := TryAsyncUpload(rd, img, clientLen, damage, dev);
    if res.Err? {
      return Err(res.error), job, allocating;
    }
    var id := T.RegisterCallback(rd, img, cb);
    return Ok(id), job, allocating;
  }

  /**
   * The closure of `create_shm_staging` and `async_upload_after_allocation`:
   * with the staging buffer allocated the image keeps it and starts the
   * host copy; a failed allocation or start completes the upload with the
   * error.
   */
  method AsyncUploadAfterAllocation(rd: Renderer, img: VulkanImage, clientLen: nat, allocOk: bool, dev: Device)
    returns (job: Option<(nat, T.HostJob)>)
    requires rd.Valid() && ShmImage(img) && T.RegionsInImage(img) && img.Size() <= clientLen
    modifies rd, img`uploadStaging, img`busy, img`callback, img`delivered
    ensures rd.Valid() && rd.defunct == old(rd.defunct) && rd.pendingFrames == old(rd.pendingFrames)
    ensures rd.pendingSubmits == old(rd.pendingSubmits)
    ensures img.uploadStaging == (old(img.uploadStaging) || allocOk)
    ensures job.Some? <==> allocOk && !old(rd.defunct)
    ensures job.Some? ==>
              && img.busy == old(img.busy) && img.callback == old(img.callback) && img.delivered == old(img.delivered)
              && rd.pendingCpuJobs == old(rd.pendingCpuJobs) + {job.value.0}
    ensures job.None? ==>
              && !img.busy && img.callback.None?
              && img.delivered == old(img.delivered)
                                  + T.Delivery(old(img.callback), Err(if allocOk then Defunct else DeviceCall))
  {
    if !allocOk {
      Complete(img, Err(DeviceCall));
      return None;
    }
    img.uploadStaging := true;
    var r;
    r, job := AsyncUploadInitiateCopy(rd, img, clientLen, dev);
    if r.Err? {
      Complete(img, r);
    }
  }

  /**
   * `async_upload_copy_buffer_to_image`: a failed host copy is reported as
   * such; otherwise the staging buffer (unwrapped: its absence panics) is
   * flushed and the copy into the image submitted and kept pending.
   */
  method AsyncUploadCopyBufferToImage(rd: Renderer, img: VulkanImage, copied: bool, dev: Device)
    returns (r: Result<(), VulkanError>, panicked: bool, sub: Option<Submission>)
    requires rd.Valid()
    modifies rd, rd.gfxBuffers, img`isUndefined, img`contentsAreUndefined
    ensures rd.Valid() && rd.defunct == old(rd.defunct) && rd.pendingFrames == old(rd.pendingFrames)
    ensures rd.pendingCpuJobs == old(rd.pendingCpuJobs)
    ensures panicked <==> copied && !old(rd.defunct) && !img.uploadStaging
    ensures !copied ==> r == Err(AsyncCopyToStaging)
    ensures copied && old(rd.defunct) ==> r == Err(Defunct)
    ensures copied && !old(rd.defunct) && !panicked ==>
              && (r.Ok? <==> dev.flushOk && CanSubmit(old(rd.gfxBuffers.buffers), dev))
              && (r.Err? ==> r.error == DeviceCall)
    ensures r.Ok? && !panicked ==> !img.isUndefined && !img.contentsAreUndefined
    ensures sub.Some? <==> copied && !old(rd.defunct) && !panicked && r.Ok? && dev.exportOk
    ensures sub.Some? ==>
              && sub.value.point == old(rd.lastPoint) + 1 && rd.lastPoint == sub.value.point
              && rd.pendingSubmits == old(rd.pendingSubmits) + {sub.value.point}
              && sub.value.buf in rd.gfxBuffers.handedOut && T.NotAFrame(rd, sub.value.buf)
    ensures sub.None? ==> rd.lastPoint == old(rd.lastPoint) && rd.pendingSubmits == old(rd.pendingSubmits)
  {
    sub := None;
    if !copied {
      return Err(AsyncCopyToStaging), false, sub;
    }
    var alive := rd.CheckDefunct();
    if alive.Err? {
      return Err(Defunct), false, sub;
    }
    if !img.uploadStaging {
      return Ok(()), true, sub;
    }
    if !dev.flushOk {
      return Err(DeviceCall), false, sub;
    }
    var submitted := SubmitBufferToImageCopy(rd, img, dev);
    if submitted.Err? {
      return Err(submitted.error), false, sub;
    }
    sub := submitted.value;
    if sub.Some? {
      rd.pendingSubmits := rd.pendingSubmits + {sub.value.point};
    }
    return Ok(()), false, sub;
  }

  /**
   * `complete_async_upload`, when the CPU job `id` has finished (`copied`
   * says whether it succeeded): the job is no longer pending, and a failure
   * of the next step completes the upload with its error.
   */
  method CompleteAsyncUpload(rd: Renderer, img: VulkanImage, id: nat, copied: bool, dev: Device)
    returns (panicked: bool, sub: Option<Submission>)
    requires rd.Valid()
    modifies rd, rd.gfxBuffers, img`isUndefined, img`contentsAreUndefined, img`busy, img`callback, img`delivered
    ensures rd.Valid() && rd.pendingCpuJobs == old(rd.pendingCpuJobs) - {id}
    ensures rd.defunct == old(rd.defunct) && rd.pendingFrames == old(rd.pendingFrames)
    ensures panicked <==> copied && !old(rd.defunct) && !img.uploadStaging
    ensures !copied ==>
              && sub.None? && !img.busy
              && img.delivered == old(img.delivered) + T.Delivery(old(img.callback), Err(AsyncCopyToStaging))
    ensures sub.Some? ==>
              && img.busy == old(img.busy) && img.callback == old(img.callback) && img.delivered == old(img.delivered)
              && !img.isUndefined && !img.contentsAreUndefined
              && sub.value.point == old(rd.lastPoint) + 1 && rd.lastPoint == sub.value.point
              && rd.pendingSubmits == old(rd.pendingSubmits) + {sub.value.point}
              && sub.value.buf in rd.gfxBuffers.handedOut && T.NotAFrame(rd, sub.value.buf)
    ensures sub.Some? <==>
              copied && !old(rd.defunct) && !panicked && dev.flushOk && CanSubmit(old(rd.gfxBuffers.buffers), dev)
              && dev.exportOk
  {
    rd.pendingCpuJobs := rd.pendingCpuJobs - {id};
    var r;
    r, panicked, sub := AsyncUploadCopyBufferToImage(rd, img, copied, dev);
    if r.Err? {
      Complete(img, r);
    }
  }

  /**
   * `await_async_upload`, once the copy into the image has finished: its
   * command buffer returns to the graphics cache, the upload is no longer
   * pending, and it completes successfully.
   */
  method AwaitAsyncUpload(rd: Renderer, img: VulkanImage, sub: Submission)
    requires rd.Valid() && sub.buf in rd.gfxBuffers.handedOut && T.NotAFrame(rd, sub.buf)
    modifies rd`pendingSubmits, rd.gfxBuffers, img`busy, img`callback, img`delivered
    ensures rd.Valid()
    ensures rd.gfxBuffers.buffers == old(rd.gfxBuffers.buffers) + [sub.buf]
    ensures rd.pendingSubmits == old(rd.pendingSubmits) - {sub.point}
    ensures !img.busy && img.callback.None?
    ensures img.delivered == old(img.delivered) + T.Delivery(old(img.callback), Ok(()))
  {
    AwaitUpload(rd, sub);
    Complete(img, Ok(()));
  }

  /**
   * An upload into an image that already holds its staging buffer, with
   * every driver call succeeding: the host copy, the copy into the image
   * and its completion deliver `Ok` to the callback exactly once, and the
   * image ends up defined and free for the next upload.
   */
  method UploadRoundTrip(rd: Renderer, img: VulkanImage, clientLen: nat, damage: seq<Rect>, cb: Callback,
                         dev: Device)
    requires rd.Valid() && ShmImage(img) && !rd.defunct && img.uploadStaging && !img.busy
    requires img.Size() <= clientLen && img.delivered == []
    requires dev.flushOk && dev.poolOk && dev.fenceOk && dev.submitOk && dev.exportOk
    modifies rd, rd.gfxBuffers, img
    ensures img.delivered == [(cb, Ok(()))]
    ensures !img.busy && !img.isUndefined && !img.contentsAreUndefined
    ensures rd.pendingCpuJobs == old(rd.pendingCpuJobs) && rd.pendingSubmits == old(rd.pendingSubmits)
  {
    var r, job, allocating := AsyncUpload(rd, img, clientLen, damage, cb, dev);
    var panicked, sub := CompleteAsyncUpload(rd, img, job.value.0, true, dev);
    AwaitAsyncUpload(rd, img, sub.value);
  }
}
