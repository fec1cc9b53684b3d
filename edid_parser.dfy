/**
 * The `EdidParser` of `src/edid.rs`: a cursor over the bytes of an EDID
 * blob.  It reads the 128-byte base block field by field (VESA E-EDID
 * Standard, Release A, Revision 2, section 3), then 128-byte extension
 * blocks until the input is exhausted, each decoded by a nested parser of
 * its own; only CTA-861 extensions of revision 3 are looked into.  A read
 * either takes the next N bytes or fails with `UnexpectedEof` and leaves
 * the cursor where it was.
 */
module EdidParser {
  import opened Wrappers
  import opened EdidFields
  import opened EdidDescriptors

  datatype EdidError = UnexpectedEof | InvalidMagic(magic: seq<Byte>)

  /** The fixed header pattern of section 3.3. */
  const MAGIC: seq<Byte> := [0x00, 0xff, 0xff, 0xff, 0xff, 0xff, 0xff, 0x00]

  const BLOCK_SIZE: nat := 128

  // ---------------------------------------------------------------------
  // Display descriptors (section 3.10.3)

  /** `b[5..]` up to the first line feed; the source then maps each byte through code page 437. */
  function UntilNewline(s: seq<Byte>): (r: seq<Byte>)
    ensures r <= s && 0x0a !in r
    ensures |r| < |s| ==> s[|r|] == 0x0a
  {
    if s == [] || s[0] == 0x0a then [] else [s[0]] + UntilNewline(s[1..])
  }

  /** The eight flags of a byte, most significant bit first. */
  function FlagsOf(x: Byte): (r: seq<bool>)
    ensures |r| == 8
  {
    [Has(x, 0x80), Has(x, 0x40), Has(x, 0x20), Has(x, 0x10),
     Has(x, 0x08), Has(x, 0x04), Has(x, 0x02), Has(x, 0x01)]
  }

  /** The byte that holds eight flags, most significant bit first. */
  function PackFlags(f: seq<bool>): Byte
    requires |f| == 8
  {
    Bit(f[0], 0x80) | Bit(f[1], 0x40) | Bit(f[2], 0x20) | Bit(f[3], 0x10)
      | Bit(f[4], 0x08) | Bit(f[5], 0x04) | Bit(f[6], 0x02) | Bit(f[7], 0x01)
  }

  lemma PackFlagsOf(x: Byte)
    ensures PackFlags(FlagsOf(x)) == x
  {
  }

  /** Clearing the low half of a byte clears its last four flags. */
  lemma FlagsOfHighHalf(x: Byte)
    ensures FlagsOf(x)[..4] + [false, false, false, false] == FlagsOf(x & 0xf0)
  {
    var y := x & 0xf0;
    assert Has(y, 0x80) == Has(x, 0x80) && Has(y, 0x40) == Has(x, 0x40);
    assert Has(y, 0x20) == Has(x, 0x20) && Has(y, 0x10) == Has(x, 0x10);
    assert !Has(y, 0x08) && !Has(y, 0x04) && !Has(y, 0x02) && !Has(y, 0x01);
  }

  /**
   * The 44 flags of an established timings III descriptor (section
   * 3.10.3.4), from 640x350 at 85 Hz to 1920x1440 at 75 Hz: eight to a byte
   * in bytes 6 to 10 and four in the top half of byte 11.
   */
  function EstablishedTimings3Of(b: seq<Byte>): (r: seq<bool>)
    requires |b| == 18
    ensures |r| == 44
  {
    FlagsOf(b[6]) + FlagsOf(b[7]) + FlagsOf(b[8]) + FlagsOf(b[9]) + FlagsOf(b[10]) + FlagsOf(b[11])[..4]
  }

  /** The six bytes that store 44 flags, the low half of the last one clear. */
  function EncodeEstablishedTimings3(f: seq<bool>): (r: seq<Byte>)
    requires |f| == 44
    ensures |r| == 6
  {
    [PackFlags(f[0..8]), PackFlags(f[8..16]), PackFlags(f[16..24]), PackFlags(f[24..32]),
     PackFlags(f[32..40]), PackFlags(f[40..44] + [false, false, false, false])]
  }

  /** Eight consecutive flags decoded from `x` pack back into `x`. */
  lemma PacksInto(f: seq<bool>, i: nat, x: Byte)
    requires i + 8 <= |f| && f[i..i + 8] == FlagsOf(x)
    ensures PackFlags(f[i..i + 8]) == x
  {
    PackFlagsOf(x);
  }

  /** Where in the flags each byte's eight flags sit. */
  lemma EstablishedTimings3Slices(b: seq<Byte>)
    requires |b| == 18
    ensures var f := EstablishedTimings3Of(b);
            && f[0..8] == FlagsOf(b[6]) && f[8..16] == FlagsOf(b[7]) && f[16..24] == FlagsOf(b[8])
            && f[24..32] == FlagsOf(b[9]) && f[32..40] == FlagsOf(b[10]) && f[40..44] == FlagsOf(b[11])[..4]
  {
    ConcatSlices(FlagsOf(b[6]), FlagsOf(b[7]), FlagsOf(b[8]), FlagsOf(b[9]), FlagsOf(b[10]), FlagsOf(b[11])[..4]);
  }

  lemma ConcatSlices(a: seq<bool>, c: seq<bool>, d: seq<bool>, e: seq<bool>, g: seq<bool>, h: seq<bool>)
    requires |a| == 8 && |c| == 8 && |d| == 8 && |e| == 8 && |g| == 8
    ensures var f := a + c + d + e + g + h;
            && f[0..8] == a && f[8..16] == c && f[16..24] == d && f[24..32] == e
            && f[32..40] == g && f[40..] == h
  {
    var f := a + c + d + e + g + h;
    assert f[0..8] == a;
    assert f[8..16] == c;
    assert f[16..24] == d;
    assert f[24..32] == e;
    assert f[32..40] == g;
  }

  /** Decoding the flags loses nothing but the unused low half of byte 11. */
  lemma EstablishedTimings3Lossless(b: seq<Byte>)
    requires |b| == 18
    ensures EncodeEstablishedTimings3(EstablishedTimings3Of(b)) == b[6..11] + [b[11] & 0xf0]
  {
    var f := EstablishedTimings3Of(b);
    EstablishedTimings3Slices(b);
    PackFlagsOf(b[6]);
    PackFlagsOf(b[7]);
    PackFlagsOf(b[8]);
    PackFlagsOf(b[9]);
    PackFlagsOf(b[10]);
    FlagsOfHighHalf(b[11]);
    PackFlagsOf(b[11] & 0xf0);
  }

  datatype Descriptor =
    | DisplayProductSerialNumber(text: seq<Byte>)
    | AlphanumericDataString(text: seq<Byte>)
    | RangeLimits(limits: DisplayRangeLimits)
    | DisplayProductName(text: seq<Byte>)
    | WhitePoints(first: ColorPoint, second: Option<ColorPoint>)
    | StandardTimingIdentifier(timings: seq<Option<StandardTiming>>)
    | ColorManagement(management: ColorManagementData)
    | Cvt3ByteCodes(codes: seq<Cvt3ByteCode>)
    | EstablishedTimings3(flags: seq<bool>)
    | UnknownDescriptor(tag: Byte)
    | DetailedTimingDescriptor(timing: DetailedTiming)

  /**
   * One 18-byte descriptor: a display descriptor chosen by its tag (byte 3)
   * when bytes 0 and 1 are zero, the dummy tag 0x10 giving nothing, and a
   * detailed timing descriptor otherwise.
   */
  function DescriptorOf(revision: Byte, b: seq<Byte>): (r: Option<Descriptor>)
    requires |b| == 18
    ensures r.None? <==> b[0] == 0 && b[1] == 0 && b[3] == 0x10
    ensures r.Some? ==> (r.value.DetailedTimingDescriptor? <==> b[0] != 0 || b[1] != 0)
    ensures r.Some? && r.value.DetailedTimingDescriptor? ==> r.value.timing == DetailedTimingOf(b)
    ensures r.Some? && r.value.UnknownDescriptor? ==> r.value.tag == b[3] && b[3] !in {0xff, 0xfe, 0xfd, 0xfc, 0xfb, 0xfa, 0xf9, 0xf8, 0xf7, 0x10}
  {
    if b[0] == 0 && b[1] == 0 then
      match b[3]
      case 0xff => Some(DisplayProductSerialNumber(UntilNewline(b[5..])))
      case 0xfe => Some(AlphanumericDataString(UntilNewline(b[5..])))
      case 0xfd => Some(RangeLimits(DisplayRangeLimitsOf(b)))
      case 0xfc => Some(DisplayProductName(UntilNewline(b[5..])))
      case 0xfb => var (first, second) := ColorPointsOf(b); Some(WhitePoints(first, second))
      case 0xfa => Some(StandardTimingIdentifier(StandardTimings2Of(revision, b)))
      case 0xf9 => Some(ColorManagement(ColorManagementDataOf(b)))
      case 0xf8 => Some(Cvt3ByteCodes(Cvt3ByteCodesOf(b)))
      case 0xf7 => Some(EstablishedTimings3(EstablishedTimings3Of(b)))
      case 0x10 => None
      case n => Some(UnknownDescriptor(n))
    else
      Some(DetailedTimingDescriptor(DetailedTimingOf(b)))
  }

  /** The four descriptors of the base block's 72 bytes at offset 0x36. */
  function DescriptorsOf(revision: Byte, b: seq<Byte>): (r: seq<Option<Descriptor>>)
    requires |b| == 72
    ensures |r| == 4
  {
    seq(4, i requires 0 <= i < 4 => DescriptorOf(revision, b[18 * i..18 * i + 18]))
  }

  // ---------------------------------------------------------------------
  // The base block (section 3)

  datatype BaseBlock = BaseBlock(
    idManufacturerName: seq<Byte>,
    idProductCode: bv16,
    idSerialNumber: bv32,
    manufactureDate: ManufactureDate,
    edidVersion: Byte,
    edidRevision: Byte,
    videoInputDefinition: VideoInputDefinition,
    screenDimensions: ScreenDimensions,
    gamma: Option<Byte>,
    featureSupport: FeatureSupport,
    chromaticityCoordinates: ChromaticityCoordinates,
    establishedTimings: set<EstablishedTiming>,
    standardTimings: seq<Option<StandardTiming>>,
    descriptors: seq<Option<Descriptor>>,
    numExtensions: Byte)

  /** Vendor and product identification and the structure version, bytes 0x08 to 0x13. */
  datatype Identification = Identification(
    name: seq<Byte>, productCode: bv16, serialNumber: bv32, date: ManufactureDate,
    version: Byte, revision: Byte)

  /** Basic display parameters and features, bytes 0x14 to 0x18. */
  datatype BasicDisplay = BasicDisplay(
    video: VideoInputDefinition, dimensions: ScreenDimensions, gamma: Option<Byte>, features: FeatureSupport)

  /** Colour characteristics, established and standard timings, bytes 0x19 to 0x35. */
  datatype ColorAndTimings = ColorAndTimings(
    chromaticity: ChromaticityCoordinates, established: set<EstablishedTiming>,
    standard: seq<Option<StandardTiming>>)

  /** The 12 bytes at `p`: name, product code, serial number, week and year, version and revision. */
  function IdentificationAt(data: seq<Byte>, p: nat): Identification
    requires p + 12 <= |data|
  {
    Identification(
      ManufacturerName(data[p], data[p + 1]), LeU16(data[p + 2], data[p + 3]),
      LeU32(data[p + 4], data[p + 5], data[p + 6], data[p + 7]),
      ManufactureDateOf(data[p + 8], data[p + 9]), data[p + 10], data[p + 11])
  }

  /** The 5 bytes at `p`: video input, screen size, gamma, then feature support read as the video input says. */
  function BasicDisplayAt(data: seq<Byte>, p: nat): BasicDisplay
    requires p + 5 <= |data|
  {
    var video := VideoInputDefinitionOf(data[p]);
    BasicDisplay(
      video, ScreenDimensionsOf(data[p + 1], data[p + 2]), GammaCode(data[p + 3]),
      FeatureSupportOf(data[p + 4], video.Digital?))
  }

  /** The 29 bytes at `p`: ten chromaticity bytes, three established timing bytes and sixteen standard timing bytes. */
  function ColorAndTimingsAt(revision: Byte, data: seq<Byte>, p: nat): ColorAndTimings
    requires p + 29 <= |data|
  {
    ColorAndTimings(
      ChromaticityOf(data[p..p + 10]), EstablishedTimingsOf(data[p + 10..p + 13]),
      StandardTimingsOf(revision, data[p + 13..p + 29]))
  }

  /**
   * The base block at offset `p`, read at the standard's fixed offsets:
   * identification at 0x08, display parameters at 0x14, descriptors at
   * 0x36 and the extension count at 0x7e; the checksum at 0x7f is not
   * checked.
   */
  function BaseBlockAt(data: seq<Byte>, p: nat): (r: BaseBlock)
    requires p + BLOCK_SIZE <= |data|
  {
    var id := IdentificationAt(data, p + 0x08);
    var bd := BasicDisplayAt(data, p + 0x14);
    var ct := ColorAndTimingsAt(id.revision, data, p + 0x19);
    BaseBlock(
      id.name, id.productCode, id.serialNumber, id.date, id.version, id.revision,
      bd.video, bd.dimensions, bd.gamma, bd.features, ct.chromaticity, ct.established, ct.standard,
      DescriptorsOf(id.revision, data[p + 0x36..p + 0x7e]),
      data[p + 0x7e])
  }

  /** What parsing the base block at offset `p` gives: the header is checked before the length. */
  function BaseBlockResultAt(data: seq<Byte>, p: nat): (r: Result<BaseBlock, EdidError>)
    requires p <= |data|
    ensures r.Ok? <==> |data| - p >= BLOCK_SIZE && data[p..p + 8] == MAGIC
    ensures r.Err? && r.error.InvalidMagic? <==> |data| - p >= 8 && data[p..p + 8] != MAGIC
    ensures r.Ok? ==> r.value.numExtensions == data[p + 0x7e] && r.value.edidRevision == data[p + 0x13]
  {
    if |data| - p < 8 then Err(UnexpectedEof)
    else if data[p..p + 8] != MAGIC then Err(InvalidMagic(data[p..p + 8]))
    else if |data| - p < BLOCK_SIZE then Err(UnexpectedEof)
    else Ok(BaseBlockAt(data, p))
  }

  // ---------------------------------------------------------------------
  // CTA-861 extension blocks

  datatype CtaDataBlock =
    | UnknownDataBlock
    | VendorAmd(minimumRefreshHz: Byte, maximumRefreshHz: Byte)
    | Colorimetry(
        bt2020Rgb: bool, bt2020Ycc: bool, bt2020Cycc: bool, opRgb: bool, opYcc601: bool,
        sYcc601: bool, xvYcc709: bool, xvYcc601: bool, dciP3: bool)
    | StaticHdrMetadata(
        traditionalGammaSdrLuminance: bool, traditionalGammaHdrLuminance: bool,
        smpteSt2084: bool, hlg: bool,
        maxLuminance: Option<Byte>, maxFrameAverageLuminance: Option<Byte>,
        minLuminance: Option<Byte>)

  datatype EdidExtension = UnknownExtension | CtaV3(dataBlocks: seq<CtaDataBlock>)

  datatype EdidFile = EdidFile(baseBlock: BaseBlock, extensionBlocks: seq<EdidExtension>)

  /** The IEEE OUI 0x00001a of AMD in a vendor-specific data block, least significant byte first. */
  const AMD_OUI: seq<Byte> := [0x1a, 0x00, 0x00]

  /**
   * A luminance byte of a static HDR metadata block: a missing byte reads as
   * 0 and 0 means absent; the source turns the stored code into candelas.
   */
  function Luminance(p: seq<Byte>, i: nat): (r: Option<Byte>)
    ensures r.Some? <==> i < |p| && p[i] != 0
    ensures r.Some? ==> r.value == p[i]
  {
    if i < |p| && p[i] != 0 then Some(p[i]) else None
  }

  /**
   * One CTA data block from its tag and payload.  The source decodes the
   * payload with a nested parser of its own, which it drops after the
   * block; reading past the payload is the block's only failure.
   */
  function CtaDataBlockOf(tag: Byte, p: seq<Byte>): (r: Result<CtaDataBlock, EdidError>)
    ensures r.Err? ==> r.error == UnexpectedEof
    ensures r.Err? <==>
              || (tag == 3 && (|p| < 3 || (p[..3] == AMD_OUI && |p| < 7)))
              || (tag == 7 && (|p| < 1 || (p[0] in {5, 6} && |p| < 3)))
    ensures r.Ok? && r.value.VendorAmd? <==> tag == 3 && |p| >= 7 && p[..3] == AMD_OUI
    ensures r.Ok? && r.value.VendorAmd? ==> r.value.minimumRefreshHz == p[5] && r.value.maximumRefreshHz == p[6]
  {
    if tag == 3 then
      if |p| < 3 then Err(UnexpectedEof)
      else if p[..3] != AMD_OUI then Ok(UnknownDataBlock)
      else if |p| < 7 then Err(UnexpectedEof)
      else Ok(VendorAmd(p[5], p[6]))
    else if tag == 7 then
      if |p| < 1 then Err(UnexpectedEof)
      else if p[0] == 5 then
        if |p| < 3 then Err(UnexpectedEof)
        else
          var lo, hi := p[1], p[2];
          Ok(Colorimetry(Has(lo, 0x80), Has(lo, 0x40), Has(lo, 0x20), Has(lo, 0x10), Has(lo, 0x08),
                         Has(lo, 0x04), Has(lo, 0x02), Has(lo, 0x01), Has(hi, 0x80)))
      else if p[0] == 6 then
        if |p| < 3 then Err(UnexpectedEof)
        else
          var et := p[1];
          Ok(StaticHdrMetadata(Has(et, 0x01), Has(et, 0x02), Has(et, 0x04), Has(et, 0x08),
                               Luminance(p, 3), Luminance(p, 4), Luminance(p, 5)))
      else Ok(UnknownDataBlock)
    else Ok(UnknownDataBlock)
  }

  /**
   * The data blocks of a CTA extension from offset `pos` while `pos` is
   * below `end` (the offset of its detailed timing descriptors): each one a
   * header byte (tag in the top three bits, payload length in the low five)
   * and its payload.  A block that fails to decode is set aside as an error
   * and the walk goes on; running out of bytes fails the whole extension.
   * The second component holds the errors set aside.
   */
  function CtaBlocksFrom(block: seq<Byte>, pos: nat, end: nat): (r: (Result<seq<CtaDataBlock>, EdidError>, seq<EdidError>))
    requires pos <= |block|
    decreases |block| - pos
  {
    if pos >= end then (Ok([]), [])
    else if pos == |block| then (Err(UnexpectedEof), [])
    else
      var len := (block[pos] & 0x1f) as nat;
      if |block| - (pos + 1) < len then (Err(UnexpectedEof), [])
      else
        var d := CtaDataBlockOf(block[pos] >> 5, block[pos + 1..pos + 1 + len]);
        ConsBlock(d, CtaBlocksFrom(block, pos + 1 + len, end))
  }

  /** One step of the data block walk: a decoded block goes in front of the rest, a failed one in front of the errors. */
  function ConsBlock(d: Result<CtaDataBlock, EdidError>, rest: (Result<seq<CtaDataBlock>, EdidError>, seq<EdidError>))
    : (r: (Result<seq<CtaDataBlock>, EdidError>, seq<EdidError>))
    ensures d.Ok? ==> r.1 == rest.1 && (r.0.Ok? <==> rest.0.Ok?) && (rest.0.Ok? ==> r.0.value == [d.value] + rest.0.value)
    ensures d.Err? ==> r == (rest.0, [d.error] + rest.1)
  {
    match d
    case Ok(v) => (if rest.0.Ok? then Ok([v] + rest.0.value) else rest.0, rest.1)
    case Err(e) => (rest.0, [e] + rest.1)
  }

  /** What a walk yields when `blocks` and `kept` were gathered before it: their concatenation with its own result. */
  function Resume(blocks: seq<CtaDataBlock>, kept: seq<EdidError>, t: (Result<seq<CtaDataBlock>, EdidError>, seq<EdidError>))
    : (r: (Result<seq<CtaDataBlock>, EdidError>, seq<EdidError>))
    ensures r.1 == kept + t.1 && (r.0.Ok? <==> t.0.Ok?)
  {
    (if t.0.Ok? then Ok(blocks + t.0.value) else t.0, kept + t.1)
  }

  /** Taking one step of the walk into what was gathered before leaves the overall result unchanged. */
  lemma ResumeConsBlock(blocks: seq<CtaDataBlock>, kept: seq<EdidError>, d: Result<CtaDataBlock, EdidError>,
                        rest: (Result<seq<CtaDataBlock>, EdidError>, seq<EdidError>))
    ensures Resume(blocks, kept, ConsBlock(d, rest))
         == Resume(blocks + (if d.Ok? then [d.value] else []), kept + (if d.Ok? then [] else [d.error]), rest)
  {
    if d.Ok? {
      assert kept + [] == kept;
      if rest.0.Ok? {
        assert blocks + ([d.value] + rest.0.value) == (blocks + [d.value]) + rest.0.value;
      }
    } else {
      assert blocks + [] == blocks;
      assert kept + ([d.error] + rest.1) == (kept + [d.error]) + rest.1;
    }
  }

  /** One step of the data block walk, for a header and payload that fit before the end of the bytes. */
  lemma CtaBlocksFromStep(block: seq<Byte>, pos: nat, end: nat, header: Byte, payload: seq<Byte>)
    requires pos < end && pos < |block| && header == block[pos]
    requires pos + 1 + (header & 0x1f) as nat <= |block|
    requires payload == block[pos + 1..pos + 1 + (header & 0x1f) as nat]
    ensures CtaBlocksFrom(block, pos, end)
         == ConsBlock(CtaDataBlockOf(header >> 5, payload), CtaBlocksFrom(block, pos + 1 + (header & 0x1f) as nat, end))
  {
  }

  /** The walk over a CTA extension's data blocks fails only by running out of bytes, and so do the blocks it sets aside. */
  lemma {:induction false} CtaBlocksFromErrors(block: seq<Byte>, pos: nat, end: nat)
    requires pos <= |block|
    ensures CtaBlocksFrom(block, pos, end).0.Err? ==> CtaBlocksFrom(block, pos, end).0.error == UnexpectedEof
    ensures forall e | e in CtaBlocksFrom(block, pos, end).1 :: e == UnexpectedEof
    ensures end <= pos ==> CtaBlocksFrom(block, pos, end) == (Ok([]), [])
    decreases |block| - pos
  {
    if pos < end && pos < |block| {
      var len := (block[pos] & 0x1f) as nat;
      if |block| - (pos + 1) >= len {
        CtaBlocksFromErrors(block, pos + 1 + len, end);
      }
    }
  }

  /**
   * A CTA extension of revision 3 read from offset `p` (just after the tag
   * and revision bytes): the offset `d` of its detailed timing descriptors,
   * a byte the source skips, then data blocks up to `d`.  The second
   * component holds the errors set aside on the way.
   */
  function CtaV3Of(block: seq<Byte>, p: nat): (r: (Result<EdidExtension, EdidError>, seq<EdidError>))
    requires p <= |block|
    ensures r.0.Ok? ==> r.0.value.CtaV3? && |block| >= p + 2
    ensures |block| >= p + 2 ==> (r.0.Err? <==> CtaBlocksFrom(block, p + 2, block[p] as nat).0.Err?)
  {
    if |block| - p < 2 then (Err(UnexpectedEof), [])
    else
      var walk := CtaBlocksFrom(block, p + 2, block[p] as nat);
      (match walk.0 case Ok(blocks) => Ok(CtaV3(blocks)) case Err(e) => Err(e), walk.1)
  }

  /**
   * An extension block decoded by a nested parser from its first byte: tag
   * 2 (CTA) of revision 3 is read as `CtaV3Of` says from byte 2; any other
   * tag or revision is an unknown extension.
   */
  function ExtensionOf(block: seq<Byte>): (r: Result<EdidExtension, EdidError>)
    ensures r.Ok? && r.value.CtaV3? <==> |block| >= 4 && block[0] == 2 && block[1] == 3 && CtaV3Of(block, 2).0.Ok?
    ensures r.Err? ==> r.error == UnexpectedEof
  {
    if |block| < 1 then Err(UnexpectedEof)
    else if block[0] != 2 then Ok(UnknownExtension)
    else if |block| < 2 then Err(UnexpectedEof)
    else if block[1] != 3 then Ok(UnknownExtension)
    else if |block| < 4 then CtaV3Of(block, 2).0
    else
      CtaBlocksFromErrors(block, 4, block[2] as nat);
      CtaV3Of(block, 2).0
  }

  /** The errors the nested parser of an extension block sets aside; the source drops them with it. */
  function ExtensionErrorsOf(block: seq<Byte>): seq<EdidError> {
    if |block| >= 2 && block[0] == 2 && block[1] == 3 then CtaV3Of(block, 2).1 else []
  }

  /**
   * The extension blocks from offset `p` on and the errors kept while
   * walking them: one extension or one error per 128-byte block, and one
   * error for a shorter remainder, which ends the walk.
   */
  function ExtensionsAt(data: seq<Byte>, p: nat): (r: (seq<EdidExtension>, seq<EdidError>))
    requires p <= |data|
    decreases |data| - p
  {
    if p == |data| then ([], [])
    else if |data| - p < BLOCK_SIZE then ([], [UnexpectedEof])
    else
      ConsExtension(ExtensionOf(data[p..p + BLOCK_SIZE]), ExtensionsAt(data, p + BLOCK_SIZE))
  }

  /** One step of the extension walk: a decoded extension goes in front of the rest, a failed one in front of the errors. */
  function ConsExtension(x: Result<EdidExtension, EdidError>, tail: (seq<EdidExtension>, seq<EdidError>))
    : (r: (seq<EdidExtension>, seq<EdidError>))
    ensures x.Ok? ==> r == ([x.value] + tail.0, tail.1)
    ensures x.Err? ==> r == (tail.0, [x.error] + tail.1)
  {
    match x
    case Ok(e) => ([e] + tail.0, tail.1)
    case Err(e) => (tail.0, [e] + tail.1)
  }

  /** Taking one step of the extension walk into what was gathered before leaves the overall result unchanged. */
  lemma AppendConsExtension(exts: seq<EdidExtension>, kept: seq<EdidError>, x: Result<EdidExtension, EdidError>,
                            tail: (seq<EdidExtension>, seq<EdidError>))
    ensures (exts + ConsExtension(x, tail).0, kept + ConsExtension(x, tail).1)
         == ((exts + if x.Ok? then [x.value] else []) + tail.0, (kept + if x.Ok? then [] else [x.error]) + tail.1)
  {
    if x.Ok? {
      assert kept + [] == kept;
      assert exts + ([x.value] + tail.0) == (exts + [x.value]) + tail.0;
    } else {
      assert exts + [] == exts;
      assert kept + ([x.error] + tail.1) == (kept + [x.error]) + tail.1;
    }
  }

  /** Every 128-byte block, and a shorter remainder, accounts for exactly one extension or one kept error. */
  lemma {:induction false} ExtensionsAtAccounts(data: seq<Byte>, p: nat)
    requires p <= |data|
    ensures |ExtensionsAt(data, p).0| + |ExtensionsAt(data, p).1| == (|data| - p + BLOCK_SIZE - 1) / BLOCK_SIZE
    decreases |data| - p
  {
    if |data| - p >= BLOCK_SIZE {
      ExtensionsAtAccounts(data, p + BLOCK_SIZE);
      assert (|data| - p + BLOCK_SIZE - 1) / BLOCK_SIZE == (|data| - (p + BLOCK_SIZE) + BLOCK_SIZE - 1) / BLOCK_SIZE + 1;
    }
  }

  // ---------------------------------------------------------------------
  // The cursor

  class Parser {
    const data: seq<Byte>
    var pos: nat
    /** Errors set aside; the source keeps them and never reads them back. */
    var errors: seq<EdidError>

    ghost predicate Valid()
      reads this
    {
      pos <= |data|
    }

    function Remaining(): nat
      reads this
      requires Valid()
    {
      |data| - pos
    }

    /** `parse`'s parser, and `nest`'s: a cursor at the start of `data` with no errors. */
    constructor (data: seq<Byte>)
      ensures this.data == data && pos == 0 && errors == [] && Valid()
    {
      this.data := data;
      pos := 0;
      errors := [];
    }

    function IsEmpty(): (r: bool)
      reads this
      ensures r <==> pos >= |data|
    {
      pos >= |data|
    }

    method StoreError(e: EdidError)
      modifies this`errors
      ensures errors == old(errors) + [e]
    {
      errors := errors + [e];
    }

    /** `read_n` and `read_var_n`: the next `n` bytes, or `UnexpectedEof` with the cursor unmoved. */
    method ReadN(n: nat) returns (r: Result<seq<Byte>, EdidError>)
      requires Valid()
      modifies this`pos
      ensures Valid()
      ensures old(Remaining()) < n ==> r == Err(UnexpectedEof) && pos == old(pos)
      ensures old(Remaining()) >= n ==> r == Ok(data[old(pos)..old(pos) + n]) && pos == old(pos) + n
    {
      if |data| - pos < n {
        return Err(UnexpectedEof);
      }
      r := Ok(data[pos..pos + n]);
      pos := pos + n;
    }

    method ReadU8() returns (r: Result<Byte, EdidError>)
      requires Valid()
      modifies this`pos
      ensures Valid()
      ensures old(Remaining()) < 1 ==> r == Err(UnexpectedEof) && pos == old(pos)
      ensures old(Remaining()) >= 1 ==> r == Ok(data[old(pos)]) && pos == old(pos) + 1
    {
      var b :- ReadN(1);
      return Ok(b[0]);
    }

    /** `read_u16`: two bytes, little-endian. */
    method ReadU16() returns (r: Result<bv16, EdidError>)
      requires Valid()
      modifies this`pos
      ensures Valid()
      ensures old(Remaining()) < 2 ==> r == Err(UnexpectedEof) && pos == old(pos)
      ensures old(Remaining()) >= 2 ==> r == Ok(LeU16(data[old(pos)], data[old(pos) + 1])) && pos == old(pos) + 2
    {
      var b :- ReadN(2);
      return Ok(LeU16(b[0], b[1]));
    }

    /** `read_u32`: four bytes, little-endian. */
    method ReadU32() returns (r: Result<bv32, EdidError>)
      requires Valid()
      modifies this`pos
      ensures Valid()
      ensures old(Remaining()) < 4 ==> r == Err(UnexpectedEof) && pos == old(pos)
      ensures old(Remaining()) >= 4 ==>
                r == Ok(LeU32(data[old(pos)], data[old(pos) + 1], data[old(pos) + 2], data[old(pos) + 3]))
                && pos == old(pos) + 4
    {
      var b :- ReadN(4);
      return Ok(LeU32(b[0], b[1], b[2], b[3]));
    }

    /** `parse_magic`: eight bytes that must be the header pattern. */
    method ParseMagic() returns (r: Result<(), EdidError>)
      requires Valid()
      modifies this`pos
      ensures Valid()
      ensures old(Remaining()) < 8 ==> r == Err(UnexpectedEof) && pos == old(pos)
      ensures old(Remaining()) >= 8 ==> pos == old(pos) + 8
      ensures old(Remaining()) >= 8 ==>
                (r.Ok? <==> data[old(pos)..old(pos) + 8] == MAGIC)
                && (r.Err? ==> r.error == InvalidMagic(data[old(pos)..old(pos) + 8]))
    {
      var magic :- ReadN(8);
      if magic != MAGIC {
        return Err(InvalidMagic(magic));
      }
      return Ok(());
    }

    method ParseIdManufacturerName() returns (r: Result<seq<Byte>, EdidError>)
      requires Valid()
      modifies this`pos
      ensures Valid()
      ensures old(Remaining()) < 2 ==> r == Err(UnexpectedEof) && pos == old(pos)
      ensures old(Remaining()) >= 2 ==>
                r == Ok(ManufacturerName(data[old(pos)], data[old(pos) + 1])) && pos == old(pos) + 2
    {
      var name :- ReadN(2);
      return Ok(ManufacturerName(name[0], name[1]));
    }

    method ParseVideoInputDefinition() returns (r: Result<VideoInputDefinition, EdidError>)
      requires Valid()
      modifies this`pos
      ensures Valid()
      ensures old(Remaining()) < 1 ==> r == Err(UnexpectedEof) && pos == old(pos)
      ensures old(Remaining()) >= 1 ==> r == Ok(VideoInputDefinitionOf(data[old(pos)])) && pos == old(pos) + 1
    {
      var v :- ReadU8();
      return Ok(VideoInputDefinitionOf(v));
    }

    method ParseScreenDimensions() returns (r: Result<ScreenDimensions, EdidError>)
      requires Valid()
      modifies this`pos
      ensures Valid()
      ensures old(Remaining()) < 2 ==> r == Err(UnexpectedEof) && pos == old(pos)
      ensures old(Remaining()) >= 2 ==>
                r == Ok(ScreenDimensionsOf(data[old(pos)], data[old(pos) + 1])) && pos == old(pos) + 2
    {
      var b :- ReadN(2);
      return Ok(ScreenDimensionsOf(b[0], b[1]));
    }

    method ParseGamma() returns (r: Result<Option<Byte>, EdidError>)
      requires Valid()
      modifies this`pos
      ensures Valid()
      ensures old(Remaining()) < 1 ==> r == Err(UnexpectedEof) && pos == old(pos)
      ensures old(Remaining()) >= 1 ==> r == Ok(GammaCode(data[old(pos)])) && pos == old(pos) + 1
    {
      var v :- ReadU8();
      return Ok(GammaCode(v));
    }

    method ParseFeatureSupport(digital: bool) returns (r: Result<FeatureSupport, EdidError>)
      requires Valid()
      modifies this`pos
      ensures Valid()
      ensures old(Remaining()) < 1 ==> r == Err(UnexpectedEof) && pos == old(pos)
      ensures old(Remaining()) >= 1 ==> r == Ok(FeatureSupportOf(data[old(pos)], digital)) && pos == old(pos) + 1
    {
      var v :- ReadU8();
      return Ok(FeatureSupportOf(v, digital));
    }

    method ParseChromaticityCoordinates() returns (r: Result<ChromaticityCoordinates, EdidError>)
      requires Valid()
      modifies this`pos
      ensures Valid()
      ensures old(Remaining()) < 10 ==> r == Err(UnexpectedEof) && pos == old(pos)
      ensures old(Remaining()) >= 10 ==>
                r == Ok(ChromaticityOf(data[old(pos)..old(pos) + 10])) && pos == old(pos) + 10
    {
      var b :- ReadN(10);
      return Ok(ChromaticityOf(b));
    }

    /** `parse_established_timings`, each flag tested on its own byte (see `EstablishedTimingsAsWritten`). */
    method ParseEstablishedTimings() returns (r: Result<set<EstablishedTiming>, EdidError>)
      requires Valid()
      modifies this`pos
      ensures Valid()
      ensures old(Remaining()) < 3 ==> r == Err(UnexpectedEof) && pos == old(pos)
      ensures old(Remaining()) >= 3 ==>
                r == Ok(EstablishedTimingsOf(data[old(pos)..old(pos) + 3])) && pos == old(pos) + 3
    {
      var b :- ReadN(3);
      return Ok(EstablishedTimingsOf(b));
    }

    /** `parse_standard_timings`: eight two-byte slots, the pair (1, 1) left empty. */
    method ParseStandardTimings(revision: Byte) returns (r: Result<seq<Option<StandardTiming>>, EdidError>)
      requires Valid()
      modifies this`pos
      ensures Valid()
      ensures old(Remaining()) < 16 ==> r == Err(UnexpectedEof) && pos == old(pos)
      ensures old(Remaining()) >= 16 ==>
                r == Ok(StandardTimingsOf(revision, data[old(pos)..old(pos) + 16])) && pos == old(pos) + 16
    {
      var bytes :- ReadN(16);
      var res: seq<Option<StandardTiming>> := [];
      for i := 0 to 8
        invariant res == StandardTimingsOf(revision, bytes)[..i]
      {
        var a, b := bytes[2 * i], bytes[2 * i + 1];
        var t := if (a, b) != (1, 1) then StandardTimingOf(revision, a, b) else None;
        assert t == StandardTimingsOf(revision, bytes)[i];
        assert StandardTimingsOf(revision, bytes)[..i + 1] == StandardTimingsOf(revision, bytes)[..i] + [t];
        res := res + [t];
      }
      assert res == StandardTimingsOf(revision, bytes);
      return Ok(res);
    }

    /** `parse_descriptor`: one 18-byte descriptor, dispatched as `DescriptorOf` says. */
    method ParseDescriptor(revision: Byte) returns (r: Result<Option<Descriptor>, EdidError>)
      requires Valid()
      modifies this`pos
      ensures Valid()
      ensures old(Remaining()) < 18 ==> r == Err(UnexpectedEof) && pos == old(pos)
      ensures old(Remaining()) >= 18 ==>
                r == Ok(DescriptorOf(revision, data[old(pos)..old(pos) + 18])) && pos == old(pos) + 18
    {
      var b :- ReadN(18);
      if b[0] == 0 && b[1] == 0 {
        if b[3] == 0xfb {
          var first, second := ParseColorPoint(b);
          return Ok(Some(WhitePoints(first, second)));
        } else if b[3] == 0xfa {
          var timings := ParseStandardTimings2(revision, b);
          return Ok(Some(StandardTimingIdentifier(timings)));
        }
      }
      return Ok(DescriptorOf(revision, b));
    }

    /** `parse_descriptors`: four descriptors in a row; the first read that fails ends it. */
    method ParseDescriptors(revision: Byte) returns (r: Result<seq<Option<Descriptor>>, EdidError>)
      requires Valid()
      modifies this`pos
      ensures Valid() && old(pos) <= pos
      ensures r.Err? <==> old(Remaining()) < 72
      ensures r.Err? ==> r.error == UnexpectedEof && pos < old(pos) + 72
      ensures r.Ok? ==> r.value == DescriptorsOf(revision, data[old(pos)..old(pos) + 72]) && pos == old(pos) + 72
    {
      ghost var p0 := pos;
      var res: seq<Option<Descriptor>> := [];
      for k := 0 to 4
        invariant Valid() && pos == p0 + 18 * k
        invariant |res| == k
        invariant forall i | 0 <= i < k :: res[i] == DescriptorOf(revision, data[p0 + 18 * i..p0 + 18 * i + 18])
      {
        var d :- ParseDescriptor(revision);
        res := res + [d];
      }
      ghost var b := data[p0..p0 + 72];
      forall i | 0 <= i < 4
        ensures res[i] == DescriptorsOf(revision, b)[i]
      {
        assert b[18 * i..18 * i + 18] == data[p0 + 18 * i..p0 + 18 * i + 18];
      }
      return Ok(res);
    }

    /** The identification fields of `parse_base_block`, read one after the other. */
    method ParseIdentification() returns (r: Result<Identification, EdidError>)
      requires Valid()
      modifies this`pos
      ensures Valid() && old(pos) <= pos
      ensures r.Err? <==> old(Remaining()) < 12
      ensures r.Err? ==> r.error == UnexpectedEof
      ensures r.Ok? ==> r.value == IdentificationAt(data, old(pos)) && pos == old(pos) + 12
    {
      var name :- ParseIdManufacturerName();
      var productCode :- ReadU16();
      var serial :- ReadU32();
      var date :- ReadN(2);
      var version :- ReadN(2);
      return Ok(Identification(name, productCode, serial, ManufactureDateOf(date[0], date[1]), version[0], version[1]));
    }

    /** The basic display parameter fields of `parse_base_block`, read one after the other. */
    method ParseBasicDisplay() returns (r: Result<BasicDisplay, EdidError>)
      requires Valid()
      modifies this`pos
      ensures Valid() && old(pos) <= pos
      ensures r.Err? <==> old(Remaining()) < 5
      ensures r.Err? ==> r.error == UnexpectedEof
      ensures r.Ok? ==> r.value == BasicDisplayAt(data, old(pos)) && pos == old(pos) + 5
    {
      var video :- ParseVideoInputDefinition();
      var isDigital := video.Digital?;
      var dimensions :- ParseScreenDimensions();
      var gamma :- ParseGamma();
      var features :- ParseFeatureSupport(isDigital);
      return Ok(BasicDisplay(video, dimensions, gamma, features));
    }

    /** The colour and timing fields of `parse_base_block`, read one after the other. */
    method ParseColorAndTimings(revision: Byte) returns (r: Result<ColorAndTimings, EdidError>)
      requires Valid()
      modifies this`pos
      ensures Valid() && old(pos) <= pos
      ensures r.Err? <==> old(Remaining()) < 29
      ensures r.Err? ==> r.error == UnexpectedEof
      ensures r.Ok? ==> r.value == ColorAndTimingsAt(revision, data, old(pos)) && pos == old(pos) + 29
    {
      var chromaticity :- ParseChromaticityCoordinates();
      var established :- ParseEstablishedTimings();
      var standard :- ParseStandardTimings(revision);
      return Ok(ColorAndTimings(chromaticity, established, standard));
    }

    /** `parse_base_block`: the header, then every field in the order the block stores them. */
    method ParseBaseBlock() returns (r: Result<BaseBlock, EdidError>)
      requires Valid()
      modifies this`pos
      ensures Valid() && old(pos) <= pos
      ensures r == BaseBlockResultAt(data, old(pos))
      ensures r.Ok? ==> pos == old(pos) + BLOCK_SIZE
    {
      var magicOk :- ParseMagic();
      var id :- ParseIdentification();
      var bd :- ParseBasicDisplay();
      var ct :- ParseColorAndTimings(id.revision);
      var descriptors :- ParseDescriptors(id.revision);
      var numExtensions :- ReadU8();
      var checksum :- ReadU8();
      return Ok(BaseBlock(
        id.name, id.productCode, id.serialNumber, id.date, id.version, id.revision,
        bd.video, bd.dimensions, bd.gamma, bd.features, ct.chromaticity, ct.established, ct.standard,
        descriptors, numExtensions));
    }

    /** The data block loop of `parse_cta_extension_v3`: blocks are read while the cursor is before `end`. */
    method ParseCtaDataBlocks(end: nat) returns (r: Result<seq<CtaDataBlock>, EdidError>)
      requires Valid()
      modifies this`pos, this`errors
      ensures Valid()
      ensures r == CtaBlocksFrom(data, old(pos), end).0 && errors == old(errors) + CtaBlocksFrom(data, old(pos), end).1
    {
      var blocks: seq<CtaDataBlock> := [];
      ghost var kept: seq<EdidError> := [];
      ghost var goal := CtaBlocksFrom(data, pos, end);
      ghost var e0 := errors;
      assert goal.0.Ok? ==> [] + goal.0.value == goal.0.value;
      assert [] + goal.1 == goal.1;
      assert goal == Resume(blocks, kept, goal);
      while pos < end
        invariant Valid()
        invariant errors == e0 + kept
        invariant goal == Resume(blocks, kept, CtaBlocksFrom(data, pos, end))
        decreases |data| - pos
      {
        ghost var p := pos;
        var block :- ReadCtaDataBlock(end);
        ResumeConsBlock(blocks, kept, block, CtaBlocksFrom(data, pos, end));
        if block.Ok? {
          blocks := blocks + [block.value];
        } else {
          StoreError(block.error);
          kept := kept + [block.error];
        }
      }
      CtaBlocksFromErrors(data, pos, end);
      assert blocks + [] == blocks && kept + [] == kept;
      return Ok(blocks);
    }

    /**
     * One pass of that loop: a header byte and the payload it announces,
     * decoded as `CtaDataBlockOf` says; the walk from the old cursor is this
     * block in front of the walk from the new one.
     */
    method ReadCtaDataBlock(ghost end: nat) returns (r: Result<Result<CtaDataBlock, EdidError>, EdidError>)
      requires Valid() && pos < end
      modifies this`pos
      ensures Valid() && old(pos) <= pos
      ensures r.Err? ==> r.error == UnexpectedEof && CtaBlocksFrom(data, old(pos), end) == (Err(UnexpectedEof), [])
      ensures r.Ok? ==> old(pos) < pos && CtaBlocksFrom(data, old(pos), end) == ConsBlock(r.value, CtaBlocksFrom(data, pos, end))
    {
      ghost var p := pos;
      var header :- ReadU8();
      var payload :- ReadN((header & 0x1f) as nat);
      CtaBlocksFromStep(data, p, end, header, payload);
      return Ok(CtaDataBlockOf(header >> 5, payload));
    }

    /** `parse_cta_extension_v3`: the descriptor offset, a skipped byte, then the data blocks before that offset. */
    method ParseCtaExtensionV3() returns (r: Result<EdidExtension, EdidError>)
      requires Valid()
      modifies this`pos, this`errors
      ensures Valid()
      ensures r == CtaV3Of(data, old(pos)).0 && errors == old(errors) + CtaV3Of(data, old(pos)).1
    {
      var d :- ReadU8();
      var skipped :- ReadU8();
      var blocks :- ParseCtaDataBlocks(d as nat);
      return Ok(CtaV3(blocks));
    }

    /** `parse_extension_impl` and `parse_cta_extension`: the tag byte, then the CTA revision byte. */
    method ParseExtensionImpl() returns (r: Result<EdidExtension, EdidError>)
      requires Valid() && pos == 0
      modifies this`pos, this`errors
      ensures Valid()
      ensures r == ExtensionOf(data) && errors == old(errors) + ExtensionErrorsOf(data)
    {
      var tag :- ReadU8();
      if tag != 2 {
        return Ok(UnknownExtension);
      }
      var revision :- ReadU8();
      if revision != 3 {
        return Ok(UnknownExtension);
      }
      r := ParseCtaExtensionV3();
    }

    /** `parse_extension`: the next 128 bytes, decoded by a nested parser that is dropped afterwards. */
    method ParseExtension() returns (r: Result<EdidExtension, EdidError>)
      requires Valid()
      modifies this`pos
      ensures Valid()
      ensures old(Remaining()) < BLOCK_SIZE ==> r == Err(UnexpectedEof) && pos == old(pos)
      ensures old(Remaining()) >= BLOCK_SIZE ==>
                r == ExtensionOf(data[old(pos)..old(pos) + BLOCK_SIZE]) && pos == old(pos) + BLOCK_SIZE
    {
      var block :- ReadN(BLOCK_SIZE);
      var nested := new Parser(block);
      r := nested.ParseExtensionImpl();
    }

    /** The extension loop of `parse`, from the cursor to the end of the input. */
    method ParseExtensions() returns (exts: seq<EdidExtension>)
      requires Valid()
      modifies this`pos, this`errors
      ensures Valid()
      ensures exts == ExtensionsAt(data, old(pos)).0 && errors == old(errors) + ExtensionsAt(data, old(pos)).1
    {
      ghost var goal := ExtensionsAt(data, pos);
      exts := [];
      ghost var kept: seq<EdidError> := [];
      ghost var e0 := errors;
      assert exts + goal.0 == goal.0 && kept + goal.1 == goal.1;
      while !IsEmpty()
        invariant Valid()
        invariant errors == e0 + kept
        invariant goal == (exts + ExtensionsAt(data, pos).0, kept + ExtensionsAt(data, pos).1)
        decreases |data| - pos
      {
        var before := pos;
        var ext := ParseExtension();
        if pos == before {
          assert ExtensionsAt(data, pos) == ([], [UnexpectedEof]) && ext.error == UnexpectedEof;
          assert exts + [] == exts;
          StoreError(ext.error);
          kept := kept + [ext.error];
          assert goal == (exts, kept);
          break;
        }
        AppendConsExtension(exts, kept, ext, ExtensionsAt(data, pos));
        if ext.Ok? {
          exts := exts + [ext.value];
        } else {
          StoreError(ext.error);
          kept := kept + [ext.error];
        }
      }
    }

    /**
     * `parse`: the base block, then extension blocks until the input is
     * exhausted, an extension that fails being set aside as an error.  A
     * remainder shorter than a block fails to be read and ends the walk; as
     * written the loop retries it for ever (`ShortTailNeverEmptiesAsWritten`).
     */
    method Parse() returns (r: Result<EdidFile, EdidError>)
      requires Valid()
      modifies this`pos, this`errors
      ensures Valid()
      ensures var bb := BaseBlockResultAt(data, old(pos));
              && (bb.Err? ==> r == Err(bb.error) && errors == old(errors))
              && (bb.Ok? ==>
                    var exts := ExtensionsAt(data, old(pos) + BLOCK_SIZE);
                    r == Ok(EdidFile(bb.value, exts.0)) && errors == old(errors) + exts.1)
    {
      var bb :- ParseBaseBlock();
      var exts := ParseExtensions();
      return Ok(EdidFile(bb, exts));
    }
  }

  /** `edid::parse`: a fresh cursor over the whole blob. */
  method ParseEdid(data: seq<Byte>) returns (r: Result<EdidFile, EdidError>)
    ensures var bb := BaseBlockResultAt(data, 0);
            && (bb.Err? ==> r == Err(bb.error))
            && (bb.Ok? ==> r == Ok(EdidFile(bb.value, ExtensionsAt(data, BLOCK_SIZE).0)))
  {
    var parser := new Parser(data);
    r := parser.Parse();
  }

  // ---------------------------------------------------------------------
  // The extension loop as written

  /**
   * Where one iteration of `parse`'s extension loop leaves the cursor of a
   * blob of `len` bytes, by `ParseExtension`'s contract: a failed read of
   * the next block leaves it where it was.
   */
  function ExtensionStepAsWritten(len: nat, pos: nat): (r: nat)
    requires pos <= len
    ensures pos <= r <= len
  {
    if len - pos < BLOCK_SIZE then pos else pos + BLOCK_SIZE
  }

  /** The cursor after `k` iterations of `while !self.is_empty()` as written, which stores the error and carries on. */
  function ExtensionWalkAsWritten(len: nat, pos: nat, k: nat): (r: nat)
    requires pos <= len
    ensures pos <= r <= len
    decreases k
  {
    if k == 0 || pos >= len then pos else ExtensionWalkAsWritten(len, ExtensionStepAsWritten(len, pos), k - 1)
  }

  /**
   * With 1 to 127 bytes left after the last whole block, no number of
   * iterations moves the cursor, so the loop's guard holds for ever.
   */
  lemma {:induction false} ShortTailNeverEmptiesAsWritten(len: nat, pos: nat, k: nat)
    requires pos < len < pos + BLOCK_SIZE
    ensures ExtensionWalkAsWritten(len, pos, k) == pos && pos < len
  {
    if k > 0 {
      ShortTailNeverEmptiesAsWritten(len, pos, k - 1);
    }
  }
}
