/**
 * The device tables and error values the Vulkan modules read.  The format
 * table itself (`vulkan/format.rs`) and the error enum (`vulkan/mod.rs`)
 * are not part of this model: they appear here as plain values.
 */
module VulkanCommon {
  import opened Wrappers
  import G = GfxApi

  /** `VulkanModifierLimits`: the largest image of one use and whether it can be exported. */
  datatype Limits = Limits(maxWidth: nat, maxHeight: nat, exportable: bool)

  /** What the device supports for one modifier of one format. */
  datatype VkModifier = VkModifier(
    planes: nat,
    disjointFeature: bool,
    transferLimits: Option<Limits>,
    renderLimits: Option<Limits>,
    textureLimits: Option<Limits>,
    renderNeedsBridge: bool)

  /** `VulkanFormat`: the modifiers of one format, and its shm limits if shm is supported. */
  datatype VkFormat = VkFormat(modifiers: map<G.Modifier, VkModifier>, shm: Option<Limits>)

  /** Bytes per pixel of a shm format, never zero. */
  type Bpp = x: nat | x > 0 witness 4

  /** `Format`: its fourcc code, whether it has alpha, and its shm layout. */
  datatype Format = Format(drm: G.FormatCode, hasAlpha: bool, shmBpp: Option<Bpp>)

  /** The `VulkanError` variants the modelled code returns. */
  datatype VulkanError =
    | FormatNotSupported | ModifierNotSupported | NonPositiveImageSize
    | ModifierUseNotSupported | ImageTooLarge | BadPlaneCount | DisjointNotSupported
    | UnsupportedShmFormat | InvalidStride | ShmNotSupported | ShmOverflow
    | UnsupportedBufferUsage | NoSupportedModifiers
    | AsyncCopyBusy | StagingBufferBusy | StagingBufferNoUpload | StagingBufferNoDownload
    | InvalidBufferSize | UndefinedContents | AsyncCopyToStaging | Defunct
    | DeviceCall   // any failed call into the driver

  /** `width <= max_width && height <= max_height` for an existing limit. */
  predicate Fits(l: Option<Limits>, width: int, height: int) {
    l.Some? && width <= l.value.maxWidth && height <= l.value.maxHeight
  }
}

/**
 * Vulkan images: their queue-family ownership, the validation of an
 * imported dmabuf, the creation of an image from the import, the swizzle
 * of its views, the compatibility test of shm textures and the
 * cancellation of a pending shm transfer.
 */
module VulkanImage {
  import opened MachineInt
  import opened VulkanCommon
  import opened Wrappers
  import G = GfxApi

  datatype QueueFamily = Gfx | Transfer

  /** Which queue family owns an image, or that ownership is being released. */
  datatype QueueState = Acquired(family: QueueFamily) | Releasing | Released(to: QueueFamily)

  datatype QueueTransfer = Unnecessary | Possible | Impossible

  /**
   * `QueueState::acquire`: whether `target` may use the image as is, after an
   * acquire barrier, or not at all.
   */
  function Acquire(s: QueueState, target: QueueFamily): (r: QueueTransfer)
    ensures r == Unnecessary <==> s == Acquired(target)
    ensures r == Possible <==> s == Released(target)
    ensures r == Impossible <==> s != Acquired(target) && s != Released(target)
  {
    match s
    case Acquired(f) => if f == target then Unnecessary else Impossible
    case Released(to) => if to == target then Possible else Impossible
    case Releasing => Impossible
  }

  /** The state after a possible queue transfer has been carried out. */
  function AfterAcquire(s: QueueState, target: QueueFamily): QueueState {
    if Acquire(s, target) == Possible then Acquired(target) else s
  }

  /**
   * A family that has acquired the image needs no further transfer, an
   * image still being released cannot be acquired by anyone, and the other
   * family cannot use an acquired image until it is released to it.
   */
  lemma AcquireIsStable(s: QueueState, target: QueueFamily, other: QueueFamily)
    requires Acquire(s, target) != Impossible && other != target
    ensures Acquire(AfterAcquire(s, target), target) == Unnecessary
    ensures Acquire(AfterAcquire(s, target), other) == Impossible
    ensures Acquire(Releasing, target) == Impossible
  {
  }

  /** The parts of a `DmaBuf` the import looks at; `is_disjoint` is given. */
  datatype DmaBuf = DmaBuf(
    format: Format, modifier: G.Modifier, width: int, height: int,
    planes: nat, disjoint: bool)

  /** `VulkanDmaBufImageTemplate` */
  datatype Template = Template(
    width: nat, height: nat, disjoint: bool, dmabuf: DmaBuf,
    renderLimits: Option<Limits>, textureLimits: Option<Limits>,
    renderNeedsBridge: bool)

  predicate KnownFormat(formats: map<G.FormatCode, VkFormat>, d: DmaBuf) {
    d.format.drm in formats
  }

  predicate KnownModifier(formats: map<G.FormatCode, VkFormat>, d: DmaBuf) {
    KnownFormat(formats, d) && d.modifier in formats[d.format.drm].modifiers
  }

  function ModifierOf(formats: map<G.FormatCode, VkFormat>, d: DmaBuf): VkModifier
    requires KnownModifier(formats, d)
  {
    formats[d.format.drm].modifiers[d.modifier]
  }

  /** The image can be rendered to or sampled within the limits of its modifier. */
  predicate Usable(m: VkModifier, d: DmaBuf) {
    Fits(m.renderLimits, d.width, d.height) || Fits(m.textureLimits, d.width, d.height)
  }

  /**
   * `VulkanRenderer::import_dmabuf`: the checks, in order, that a dmabuf
   * must pass before an image template is made from it.
   */
  function ImportDmabuf(formats: map<G.FormatCode, VkFormat>, d: DmaBuf): (r: Result<Template, VulkanError>)
    ensures r == Err(FormatNotSupported) <==> !KnownFormat(formats, d)
    ensures r == Err(ModifierNotSupported) <==> KnownFormat(formats, d) && !KnownModifier(formats, d)
    ensures r == Err(NonPositiveImageSize) <==> KnownModifier(formats, d) && (d.width <= 0 || d.height <= 0)
    ensures r == Err(ModifierUseNotSupported) <==>
              KnownModifier(formats, d) && d.width > 0 && d.height > 0
              && ModifierOf(formats, d).renderLimits.None? && ModifierOf(formats, d).textureLimits.None?
    ensures r == Err(ImageTooLarge) <==>
              KnownModifier(formats, d) && d.width > 0 && d.height > 0 && !Usable(ModifierOf(formats, d), d)
              && (ModifierOf(formats, d).renderLimits.Some? || ModifierOf(formats, d).textureLimits.Some?)
    ensures r == Err(BadPlaneCount) <==>
              KnownModifier(formats, d) && d.width > 0 && d.height > 0 && Usable(ModifierOf(formats, d), d)
              && ModifierOf(formats, d).planes != d.planes
    ensures r == Err(DisjointNotSupported) <==>
              KnownModifier(formats, d) && d.width > 0 && d.height > 0 && Usable(ModifierOf(formats, d), d)
              && ModifierOf(formats, d).planes == d.planes
              && d.disjoint && !ModifierOf(formats, d).disjointFeature
    ensures r.Ok? ==>
              KnownModifier(formats, d) && d.width > 0 && d.height > 0 && Usable(ModifierOf(formats, d), d)
              && ModifierOf(formats, d).planes == d.planes
              && (d.disjoint ==> ModifierOf(formats, d).disjointFeature)
              && r.value.width == d.width && r.value.height == d.height
              && r.value.disjoint == d.disjoint && r.value.dmabuf == d
              && r.value.renderLimits == ModifierOf(formats, d).renderLimits
              && r.value.textureLimits == ModifierOf(formats, d).textureLimits
  {
    if d.format.drm !in formats then Err(FormatNotSupported)
    else
      var format := formats[d.format.drm];
      if d.modifier !in format.modifiers then Err(ModifierNotSupported)
      else
        var m := format.modifiers[d.modifier];
        if d.width <= 0 || d.height <= 0 then Err(NonPositiveImageSize)
        else if !Fits(m.renderLimits, d.width, d.height) && !Fits(m.textureLimits, d.width, d.height) then
          if m.renderLimits.None? && m.textureLimits.None? then Err(ModifierUseNotSupported)
          else Err(ImageTooLarge)
        else if m.planes != d.planes then Err(BadPlaneCount)
        else if d.disjoint && !m.disjointFeature then Err(DisjointNotSupported)
        else Ok(Template(d.width, d.height, d.disjoint, d, m.renderLimits, m.textureLimits,
                           m.renderNeedsBridge))
  }

  /** The import fails with exactly one of the errors above, or succeeds. */
  lemma ImportDmabufErrors(formats: map<G.FormatCode, VkFormat>, d: DmaBuf)
    ensures ImportDmabuf(formats, d).Err? ==>
              ImportDmabuf(formats, d).error in
                {FormatNotSupported, ModifierNotSupported, NonPositiveImageSize,
                 ModifierUseNotSupported, ImageTooLarge, BadPlaneCount, DisjointNotSupported}
  {
  }

  /** The image state right after creation. */
  datatype ImageInfo = ImageInfo(
    format: Format, width: nat, height: nat, stride: nat,
    isUndefined: bool, contentsAreUndefined: bool, queueState: QueueState,
    hasRenderView: bool, bridged: bool)

  /**
   * `VulkanDmaBufImageTemplate::create_image`: the limits of the requested
   * use must exist and cover the size; `deviceOk` says whether the
   * driver calls that follow succeed.
   */
  function CreateImage(t: Template, forRendering: bool, deviceOk: bool)
    : (r: Result<ImageInfo, VulkanError>)
    ensures var limits := if forRendering then t.renderLimits else t.textureLimits;
            && (r == Err(ModifierUseNotSupported) <==> limits.None?)
            && (limits.Some? && !Fits(limits, t.width, t.height) ==> r == Err(ImageTooLarge))
            && (r.Ok? <==> Fits(limits, t.width, t.height) && deviceOk)
            && (r.Err? && Fits(limits, t.width, t.height) ==> r.error == DeviceCall)
    ensures r.Ok? ==>
              r.value.width == t.width && r.value.height == t.height && r.value.stride == 0
              && r.value.format == t.dmabuf.format
              && r.value.isUndefined && !r.value.contentsAreUndefined
              && r.value.queueState == Acquired(Gfx) && r.value.hasRenderView
              && r.value.bridged == (forRendering && t.renderNeedsBridge)
  {
    var limits := if forRendering then t.renderLimits else t.textureLimits;
    if limits.None? then Err(ModifierUseNotSupported)
    else if t.width > limits.value.maxWidth || t.height > limits.value.maxHeight then Err(ImageTooLarge)
    else if !deviceOk then Err(DeviceCall)
    else Ok(ImageInfo(t.dmabuf.format, t.width, t.height, 0, true, false, Acquired(Gfx), true,
                        forRendering && t.renderNeedsBridge))
  }

  /**
   * A template the import accepted can be turned into a framebuffer or
   * into a texture: the import checks that one of the two limits holds.
   */
  lemma ImportedCanBeCreated(formats: map<G.FormatCode, VkFormat>, d: DmaBuf)
    requires ImportDmabuf(formats, d).Ok?
    ensures var t := ImportDmabuf(formats, d).value;
            CreateImage(t, true, true).Ok? || CreateImage(t, false, true).Ok?
  {
  }

  datatype Swizzle = Identity | One

  /**
   * The alpha component of `create_image_view`: the constant one for a
   * format without alpha, unless the view is rendered to.
   */
  function AlphaSwizzle(format: Format, forRendering: bool): (r: Swizzle)
    ensures r == One <==> !format.hasAlpha && !forRendering
  {
    if format.hasAlpha || forRendering then Identity else One
  }

  /** The alpha a shader reads through a view with swizzle `s` from a texel whose alpha is `stored`. */
  function SampledAlpha(s: Swizzle, stored: real): real {
    match s
    case One => 1.0
    case Identity => stored
  }

  /**
   * Views of formats without alpha read alpha one; views of formats with
   * alpha, and every view that is rendered to, read and write the stored
   * alpha.
   */
  lemma AlphaSwizzleSamples(format: Format, forRendering: bool, stored: real)
    ensures !format.hasAlpha && !forRendering ==> SampledAlpha(AlphaSwizzle(format, forRendering), stored) == 1.0
    ensures format.hasAlpha || forRendering ==> SampledAlpha(AlphaSwizzle(format, forRendering), stored) == stored
  {
  }

  /** `as u32` on an `i32`: the two's-complement bit pattern. */
  function I32AsU32(x: int): (r: nat)
    requires IsI32(x)
    ensures IsU32(r)
    ensures x >= 0 ==> r == x
    ensures x < 0 ==> r > I32_MAX
  {
    if x >= 0 then x else x + 0x1_0000_0000
  }

  /**
   * `compatible_with`: whether an existing shm texture can take new
   * contents of the given format and layout.  Each signed dimension is
   * reinterpreted as unsigned before the comparison.
   */
  function CompatibleWith(info: ImageInfo, format: Format, width: int, height: int, stride: int): (r: bool)
    requires IsI32(width) && IsI32(height) && IsI32(stride)
    ensures info.width <= I32_MAX && info.height <= I32_MAX && info.stride <= I32_MAX ==>
              (r <==> info.format == format && info.width == width && info.height == height
                      && info.stride == stride)
  {
    info.format == format && info.width == I32AsU32(width) && info.height == I32AsU32(height)
    && info.stride == I32AsU32(stride)
  }

  /** A callback waiting for the end of an asynchronous shm transfer. */
  type Callback = nat

  /** One `BufferImageCopy2`: where a rectangle of the image lives in the staging buffer. */
  datatype Copy = Copy(bufferOffset: nat, x: nat, y: nat, width: nat, height: nat)

  /**
   * `VulkanStagingShell`: a staging buffer a transfer reserves; `filled`
   * says whether its memory has been allocated yet.
   */
  class StagingShell {
    const upload: bool
    const download: bool
    var busy: bool
    var filled: bool

    constructor (upload: bool, download: bool, filled: bool)
      ensures this.upload == upload && this.download == download
      ensures !busy && this.filled == filled
    {
      this.upload := upload;
      this.download := download;
      busy := false;
      this.filled := filled;
    }
  }

  /**
   * The mutable cells of a `VulkanImage` and of the asynchronous-transfer
   * data of a shm image (`VulkanShmImageAsyncData`).  Two revisions of
   * that data exist side by side: `staging`, `clientMem`, `dataCopied` and
   * `lastGfxUse` belong to the transfer path, `uploadStaging` to the upload
   * path.  `delivered` records every invocation of a completion callback.
   */
  class VulkanImage {
    const format: Format
    const width: nat
    const height: nat
    const stride: nat
    const bpp: Bpp
    const isDmabuf: bool
    var isUndefined: bool
    var contentsAreUndefined: bool
    var queueState: QueueState
    var executionVersion: nat
    var busy: bool
    var callback: Option<Callback>
    var callbackId: nat
    var delivered: seq<(Callback, Result<(), VulkanError>)>
    var regions: seq<Copy>
    var staging: Option<StagingShell>
    var clientMem: Option<nat>
    var dataCopied: bool
    var lastGfxUse: Option<G.SyncFile>
    var uploadStaging: bool

    /** A new image as `create_image` or `create_shm_texture` build it. */
    constructor (format: Format, width: nat, height: nat, stride: nat, bpp: Bpp, isDmabuf: bool,
                 contentsAreUndefined: bool)
      ensures this.format == format && this.width == width && this.height == height && this.stride == stride
      ensures this.bpp == bpp && this.isDmabuf == isDmabuf
      ensures isUndefined && this.contentsAreUndefined == contentsAreUndefined
      ensures queueState == Acquired(Gfx) && executionVersion == 0
      ensures !busy && callback.None? && callbackId == 0 && delivered == [] && regions == []
      ensures staging.None? && clientMem.None? && !dataCopied && lastGfxUse.None? && !uploadStaging
    {
      this.format := format;
      this.width := width;
      this.height := height;
      this.stride := stride;
      this.bpp := bpp;
      this.isDmabuf := isDmabuf;
      isUndefined := true;
      this.contentsAreUndefined := contentsAreUndefined;
      queueState := Acquired(Gfx);
      executionVersion := 0;
      busy := false;
      callback := None;
      callbackId := 0;
      delivered := [];
      regions := [];
      staging := None;
      clientMem := None;
      dataCopied := false;
      lastGfxUse := None;
      uploadStaging := false;
    }

    /** `VulkanShmImage::size`: the bytes of the image in client memory. */
    function Size(): nat {
      stride * height
    }

    /** `cancel`: forget the callback, but only if it belongs to transfer `id`. */
    method Cancel(id: nat)
      modifies this`callback
      ensures callback == (if old(callbackId) == id then None else old(callback))
    {
      if callbackId == id {
        callback := None;
      }
    }
  }

  /** `PendingShmUpload`: the image a transfer runs on and the transfer's id. */
  datatype PendingShmUpload = PendingShmUpload(img: VulkanImage, id: nat)

  /** Dropping a pending upload cancels its transfer and no other. */
  method DropPendingShmUpload(p: PendingShmUpload)
    modifies p.img`callback
    ensures p.img.callback == (if p.img.callbackId == p.id then None else old(p.img.callback))
  {
    p.img.Cancel(p.id);
  }
}
