/**
 * The Vulkan buffer-object allocator: the usage flags it accepts, the
 * Vulkan image usage they map to, the validation of a modifier against
 * the device limits, the modifier filter of `create_bo` and the checks of
 * `import_dmabuf`, and the layout of a CPU mapping.
 *
 * `BufferUsage` is a 32-bit flag set.  Its constants (in `allocator.rs`,
 * which is not part of this model) are taken to be those of GBM's
 * `GBM_BO_USE_*`, which the metal allocator passes through unchanged.
 */
module VulkanBoAllocator {
  import opened Wrappers
  import opened VulkanCommon
  import opened Seqs
  import G = GfxApi

  type BufferUsage = bv32

  const BO_USE_SCANOUT: BufferUsage := 1
  const BO_USE_CURSOR: BufferUsage := 2
  const BO_USE_RENDERING: BufferUsage := 4
  const BO_USE_WRITE: BufferUsage := 8
  const BO_USE_LINEAR: BufferUsage := 16

  /** `contains` of a flag set: every flag of `other` is set in `flags`. */
  predicate Has(flags: BufferUsage, other: BufferUsage) {
    flags & other == other
  }

  /**
   * `validate_usage` as written: the usage is refused only if it holds
   * every flag of `!(BO_USE_WRITE | BO_USE_RENDERING)` at once.
   */
  function ValidateUsageAsWritten(usage: BufferUsage): (r: Result<(), VulkanError>)
    ensures r.Err? <==> Has(usage, !(BO_USE_WRITE | BO_USE_RENDERING))
    ensures r.Err? ==> r.error == UnsupportedBufferUsage
  {
    if Has(usage, !(BO_USE_WRITE | BO_USE_RENDERING)) then Err(UnsupportedBufferUsage) else Ok(())
  }

  /** A linear write buffer asks for a flag the allocator cannot honour, yet passes. */
  lemma ValidateUsageAsWrittenAcceptsLinear()
    ensures ValidateUsageAsWritten(BO_USE_WRITE | BO_USE_LINEAR).Ok?
    ensures ValidateUsage(BO_USE_WRITE | BO_USE_LINEAR).Err?
  {
  }

  /**
   * `validate_usage` as intended: any flag outside `BO_USE_WRITE` and
   * `BO_USE_RENDERING` refuses the usage.
   */
  function ValidateUsage(usage: BufferUsage): (r: Result<(), VulkanError>)
    ensures r.Ok? <==> usage in {0, BO_USE_WRITE, BO_USE_RENDERING, BO_USE_WRITE | BO_USE_RENDERING}
    ensures r.Err? ==> r.error == UnsupportedBufferUsage
  {
    if usage & !(BO_USE_WRITE | BO_USE_RENDERING) != 0 then Err(UnsupportedBufferUsage) else Ok(())
  }

  /** Vulkan's `VkImageUsageFlagBits` that `map_usage` produces. */
  type ImageUsage = bv32

  const TRANSFER_SRC: ImageUsage := 0x1
  const TRANSFER_DST: ImageUsage := 0x2
  const COLOR_ATTACHMENT: ImageUsage := 0x10

  /**
   * `map_usage`: both transfer directions always, and colour attachment
   * exactly for rendering.
   */
  function MapUsage(usage: BufferUsage): (r: ImageUsage)
    ensures r & (TRANSFER_SRC | TRANSFER_DST) == TRANSFER_SRC | TRANSFER_DST
    ensures (r & COLOR_ATTACHMENT != 0) <==> Has(usage, BO_USE_RENDERING)
    ensures r & !(TRANSFER_SRC | TRANSFER_DST | COLOR_ATTACHMENT) == 0
  {
    var vkUsage := TRANSFER_SRC | TRANSFER_DST;
    if Has(usage, BO_USE_RENDERING) then vkUsage | COLOR_ATTACHMENT else vkUsage
  }

  /**
   * The limits that apply to a buffer of this usage: the transfer limits,
   * narrowed by the render limits when rendering.
   */
  function EffectiveLimits(m: VkModifier, usage: BufferUsage): (r: Option<Limits>)
    ensures r.Some? <==> m.transferLimits.Some? && (Has(usage, BO_USE_RENDERING) ==> m.renderLimits.Some?)
    ensures r.Some? ==> var rendering := Has(usage, BO_USE_RENDERING);
              && r.value.maxWidth <= m.transferLimits.value.maxWidth
              && r.value.maxHeight <= m.transferLimits.value.maxHeight
              && (rendering ==> r.value.maxWidth <= m.renderLimits.value.maxWidth
                                && r.value.maxHeight <= m.renderLimits.value.maxHeight)
              && (r.value.maxWidth == m.transferLimits.value.maxWidth
                  || (rendering && r.value.maxWidth == m.renderLimits.value.maxWidth))
              && (r.value.maxHeight == m.transferLimits.value.maxHeight
                  || (rendering && r.value.maxHeight == m.renderLimits.value.maxHeight))
              && (r.value.exportable <==> m.transferLimits.value.exportable && (rendering ==> m.renderLimits.value.exportable))
  {
    if m.transferLimits.None? then None
    else
      var t := m.transferLimits.value;
      if !Has(usage, BO_USE_RENDERING) then Some(t)
      else if m.renderLimits.None? then None
      else
        var l := m.renderLimits.value;
        Some(Limits(if t.maxWidth <= l.maxWidth then t.maxWidth else l.maxWidth,
                    if t.maxHeight <= l.maxHeight then t.maxHeight else l.maxHeight,
                    t.exportable && l.exportable))
  }

  /** `validate_modifier` */
  function ValidateModifier(width: nat, height: nat, usage: BufferUsage, disjoint: bool,
                            planeCount: Option<nat>, format: VkFormat, modifier: G.Modifier): (r: bool)
    ensures r ==> modifier in format.modifiers
    ensures r ==> var m := format.modifiers[modifier];
            && (disjoint ==> m.disjointFeature)
            && (planeCount.Some? ==> planeCount.value == m.planes)
    ensures r <==> modifier in format.modifiers
                   && (disjoint ==> format.modifiers[modifier].disjointFeature)
                   && (planeCount.Some? ==> planeCount.value == format.modifiers[modifier].planes)
                   && var l := EffectiveLimits(format.modifiers[modifier], usage);
                      l.Some? && l.value.exportable && width <= l.value.maxWidth && height <= l.value.maxHeight
  {
    if modifier !in format.modifiers then false
    else
      var m := format.modifiers[modifier];
      if disjoint && !m.disjointFeature then false
      else if planeCount.Some? && planeCount.value != m.planes then false
      else
        var l := EffectiveLimits(m, usage);
        l.Some? && l.value.exportable && width <= l.value.maxWidth && height <= l.value.maxHeight
  }

  /**
   * A modifier is valid exactly when the format has it with the requested
   * disjointness and plane count and the size fits its transfer limits,
   * and also its render limits when the buffer is rendered to, all of
   * them exportable.
   */
  lemma ValidModifierFitsEveryLimit(width: nat, height: nat, usage: BufferUsage, disjoint: bool,
                                    planeCount: Option<nat>, format: VkFormat, modifier: G.Modifier)
    ensures ValidateModifier(width, height, usage, disjoint, planeCount, format, modifier) <==>
            && modifier in format.modifiers
            && var m := format.modifiers[modifier];
               && (disjoint ==> m.disjointFeature)
               && (planeCount.Some? ==> planeCount.value == m.planes)
               && Fits(m.transferLimits, width, height) && m.transferLimits.value.exportable
               && (Has(usage, BO_USE_RENDERING) ==>
                     Fits(m.renderLimits, width, height) && m.renderLimits.value.exportable)
  {
    if modifier in format.modifiers {
      var m := format.modifiers[modifier];
      var l := EffectiveLimits(m, usage);
      if l.Some? {
        assert (width <= l.value.maxWidth) <==>
               (width <= m.transferLimits.value.maxWidth
                && (Has(usage, BO_USE_RENDERING) ==> width <= m.renderLimits.value.maxWidth));
        assert (height <= l.value.maxHeight) <==>
               (height <= m.transferLimits.value.maxHeight
                && (Has(usage, BO_USE_RENDERING) ==> height <= m.renderLimits.value.maxHeight));
      }
    }
  }

  /** The modifiers of `create_bo` that survive validation, in the caller's order. */
  function ValidModifiers(width: nat, height: nat, usage: BufferUsage, format: VkFormat,
                          modifiers: seq<G.Modifier>): (r: seq<G.Modifier>)
    ensures forall m :: m in r <==>
              m in modifiers && ValidateModifier(width, height, usage, false, None, format, m)
    ensures IsSubsequence(r, modifiers)
  {
    FilterIsSubsequence(modifiers, m => ValidateModifier(width, height, usage, false, None, format, m));
    Filter(modifiers, m => ValidateModifier(width, height, usage, false, None, format, m))
  }

  /**
   * `create_bo` up to the creation of the image: the usage, the format and
   * the size are checked, then the requested modifiers are filtered in a
   * loop.  On success the result is the modifier list handed to Vulkan;
   * `deviceOk` says whether the driver calls that follow succeed.
   */
  method CreateBo(formats: map<G.FormatCode, VkFormat>, width: int, height: int, format: Format,
                  modifiers: seq<G.Modifier>, usage: BufferUsage, deviceOk: bool)
    returns (r: Result<seq<G.Modifier>, VulkanError>)
    ensures ValidateUsage(usage).Err? ==> r == Err(UnsupportedBufferUsage)
    ensures ValidateUsage(usage).Ok? && format.drm !in formats ==> r == Err(FormatNotSupported)
    ensures ValidateUsage(usage).Ok? && format.drm in formats && (width < 0 || height < 0)
            ==> r == Err(NonPositiveImageSize)
    ensures ValidateUsage(usage).Ok? && format.drm in formats && width >= 0 && height >= 0 ==>
              var valid := ValidModifiers(width, height, usage, formats[format.drm], modifiers);
              && (valid == [] ==> r == Err(NoSupportedModifiers))
              && (valid != [] && !deviceOk ==> r == Err(DeviceCall))
              && (valid != [] && deviceOk ==> r == Ok(valid))
  {
    var ok := ValidateUsage(usage);
    if ok.Err? {
      return Err(UnsupportedBufferUsage);
    }
    if format.drm !in formats {
      return Err(FormatNotSupported);
    }
    var vkFormat := formats[format.drm];
    if width < 0 || height < 0 {
      return Err(NonPositiveImageSize);
    }
    var mods: seq<G.Modifier> := [];
    var i := 0;
    while i < |modifiers|
      invariant 0 <= i <= |modifiers|
      invariant mods == ValidModifiers(width, height, usage, vkFormat, modifiers[..i])
    {
      ValidModifiersSnoc(width, height, usage, vkFormat, modifiers[..i], modifiers[i]);
      assert modifiers[..i + 1] == modifiers[..i] + [modifiers[i]];
      if ValidateModifier(width, height, usage, false, None, vkFormat, modifiers[i]) {
        mods := mods + [modifiers[i]];
      }
      i := i + 1;
    }
    assert modifiers[..i] == modifiers;
    if mods == [] {
      return Err(NoSupportedModifiers);
    }
    if !deviceOk {
      return Err(DeviceCall);
    }
    return Ok(mods);
  }

  lemma {:induction false} ValidModifiersSnoc(width: nat, height: nat, usage: BufferUsage, format: VkFormat,
                                              s: seq<G.Modifier>, m: G.Modifier)
    ensures ValidModifiers(width, height, usage, format, s + [m]) ==
            ValidModifiers(width, height, usage, format, s)
            + (if ValidateModifier(width, height, usage, false, None, format, m) then [m] else [])
    decreases |s|
  {
    if s == [] {
      assert [m][1..] == [];
    } else {
      assert (s + [m])[1..] == s[1..] + [m];
      ValidModifiersSnoc(width, height, usage, format, s[1..], m);
    }
  }

  /** The dmabuf fields `import_dmabuf` checks; `is_disjoint` is given. */
  datatype DmaBuf = DmaBuf(format: Format, modifier: G.Modifier, width: int, height: int,
                           planes: nat, disjoint: bool)

  /**
   * `import_dmabuf` up to the import of the memory: usage, format, size,
   * then the single modifier with the dmabuf's disjointness and plane count.
   */
  function ImportDmabuf(formats: map<G.FormatCode, VkFormat>, d: DmaBuf, usage: BufferUsage)
    : (r: Result<(), VulkanError>)
    ensures r.Ok? <==>
              ValidateUsage(usage).Ok? && d.format.drm in formats && d.width >= 0 && d.height >= 0
              && ValidateModifier(d.width, d.height, usage, d.disjoint, Some(d.planes),
                                  formats[d.format.drm], d.modifier)
    ensures r.Ok? ==> d.modifier in formats[d.format.drm].modifiers
                      && formats[d.format.drm].modifiers[d.modifier].planes == d.planes
    ensures r == Err(ModifierNotSupported) ==>
              ValidateUsage(usage).Ok? && d.format.drm in formats && d.width >= 0 && d.height >= 0
  {
    if ValidateUsage(usage).Err? then Err(UnsupportedBufferUsage)
    else if d.format.drm !in formats then Err(FormatNotSupported)
    else if d.width < 0 || d.height < 0 then Err(NonPositiveImageSize)
    else if !ValidateModifier(d.width, d.height, usage, d.disjoint, Some(d.planes),
                              formats[d.format.drm], d.modifier) then Err(ModifierNotSupported)
    else Ok(())
  }

  /** `VulkanBoMapping`: the layout of the staging copy and whether dropping it uploads. */
  datatype Mapping = Mapping(stride: nat, size: nat, uploadOnDrop: bool)

  /**
   * `VulkanBo::map`: a shm format is needed; the stride is `width * bpp`
   * and the size `height * stride`, both as wrapping `u32` products.
   */
  function Map(width: nat, height: nat, format: Format, write: bool): (r: Result<Mapping, VulkanError>)
    requires width <= 0xffff_ffff && height <= 0xffff_ffff
    ensures r.Err? <==> format.shmBpp.None?
    ensures r.Err? ==> r.error == ShmNotSupported
    ensures r.Ok? ==> r.value.uploadOnDrop == write && r.value.stride < 0x1_0000_0000
                      && r.value.size < 0x1_0000_0000
    ensures r.Ok? && width * format.shmBpp.value < 0x1_0000_0000 ==>
              r.value.stride == width * format.shmBpp.value
    ensures r.Ok? && width * format.shmBpp.value < 0x1_0000_0000
            && height * (width * format.shmBpp.value) < 0x1_0000_0000 ==>
              r.value.size == height * (width * format.shmBpp.value)
  {
    if format.shmBpp.None? then Err(ShmNotSupported)
    else
      var bpp := format.shmBpp.value;
      var stride := (width * bpp) % 0x1_0000_0000;
      Ok(Mapping(stride, (height * stride) % 0x1_0000_0000, write))
  }
}
