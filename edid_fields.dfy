/**
 * The fixed-layout fields of an EDID base block (VESA E-EDID Standard,
 * Release A, Revision 2) decoded from bytes as `src/edid.rs` does.  Bytes
 * and the source's `u16`/`u32` results are bit-vectors, so shifts and masks
 * read as in the source.  Every decoder is paired with the encoder of the
 * layout it reads and a round-trip lemma; floating-point results (gamma,
 * screen aspect ratio) keep the stored byte instead.
 */
module EdidFields {
  import opened Wrappers

  type Byte = bv8

  /** `x.contains(mask)`: every bit of `mask` is set in `x`. */
  predicate Has(x: Byte, mask: Byte) {
    x & mask == mask
  }

  /** The bits `mask` when `b` holds, for the encoders. */
  function Bit(b: bool, mask: Byte): Byte {
    if b then mask else 0
  }

  // ---------------------------------------------------------------------
  // Little-endian integers (`read_u16`, `read_u32`, `u16::from_le_bytes`)

  function LeU16(lo: Byte, hi: Byte): bv16 {
    ((hi as bv16) << 8) + lo as bv16
  }

  function U16Bytes(v: bv16): (Byte, Byte) {
    ((v & 0xff) as Byte, (v >> 8) as Byte)
  }

  /** Reading two bytes least significant first inverts `to_le_bytes`, both ways. */
  lemma LeU16RoundTrip(v: bv16, lo: Byte, hi: Byte)
    ensures var (a, b) := U16Bytes(v); LeU16(a, b) == v
    ensures U16Bytes(LeU16(lo, hi)) == (lo, hi)
  {
  }

  function LeU32(a: Byte, b: Byte, c: Byte, d: Byte): bv32 {
    ((d as bv32) << 24) + ((c as bv32) << 16) + ((b as bv32) << 8) + a as bv32
  }

  function U32Bytes(v: bv32): (Byte, Byte, Byte, Byte) {
    ((v & 0xff) as Byte, ((v >> 8) & 0xff) as Byte, ((v >> 16) & 0xff) as Byte, (v >> 24) as Byte)
  }

  lemma LeU32RoundTrip(v: bv32, a: Byte, b: Byte, c: Byte, d: Byte)
    ensures var (x, y, z, w) := U32Bytes(v); LeU32(x, y, z, w) == v
    ensures U32Bytes(LeU32(a, b, c, d)) == (a, b, c, d)
  {
  }

  // ---------------------------------------------------------------------
  // ID manufacturer name (section 3.4.1): three 5-bit letters, 1 is 'A'

  function ManufacturerCodes(n0: Byte, n1: Byte): (Byte, Byte, Byte) {
    ((n0 >> 2) & 0x1f, ((n0 & 0x3) << 3) | (n1 >> 5), n1 & 0x1f)
  }

  /** The codes are five bits wide. */
  lemma FiveBitCodes(n0: Byte, n1: Byte)
    ensures var (a, b, c) := ManufacturerCodes(n0, n1); a < 32 && b < 32 && c < 32
  {
  }

  /** A five-bit code offset from '@' lands between '@' and '_'. */
  lemma FiveBitLetter(a: Byte)
    requires a < 32
    ensures 0x40 <= a + 0x40 < 0x60
  {
  }

  /** The name, each 5-bit code offset from '@'. */
  function ManufacturerName(n0: Byte, n1: Byte): (r: seq<Byte>)
    ensures |r| == 3
    ensures forall i | 0 <= i < 3 :: 0x40 <= r[i] < 0x60
  {
    FiveBitCodes(n0, n1);
    var (a, b, c) := ManufacturerCodes(n0, n1);
    FiveBitLetter(a);
    FiveBitLetter(b);
    FiveBitLetter(c);
    [a + 0x40, b + 0x40, c + 0x40]
  }

  /** How three letter codes are packed into the name bytes, top bit clear. */
  function EncodeManufacturer(a: Byte, b: Byte, c: Byte): (r: (Byte, Byte))
    requires a < 32 && b < 32 && c < 32
  {
    ((a << 2) | (b >> 3), ((b & 0x7) << 5) | c)
  }

  /** Decoding recovers the three letters that were packed. */
  lemma ManufacturerRoundTrip(a: Byte, b: Byte, c: Byte)
    requires a < 32 && b < 32 && c < 32
    ensures var (n0, n1) := EncodeManufacturer(a, b, c);
            ManufacturerCodes(n0, n1) == (a, b, c) && n0 < 0x80
    ensures var (n0, n1) := EncodeManufacturer(a, b, c);
            ManufacturerName(n0, n1) == [a + 0x40, b + 0x40, c + 0x40]
  {
  }

  /** Decoding loses nothing but the reserved top bit of the first byte. */
  lemma ManufacturerLossless(n0: Byte, n1: Byte)
    ensures var (a, b, c) := ManufacturerCodes(n0, n1);
            EncodeManufacturer(a, b, c) == (n0 & 0x7f, n1)
  {
  }

  // ---------------------------------------------------------------------
  // Week and year of manufacture or model year (section 3.4.4)

  datatype ManufactureDate = ManufactureDate(
    week: Option<Byte>,
    modelYear: Option<bv16>,
    yearOfManufacture: Option<bv16>)

  /** Bytes 0x10 and 0x11 of the base block. */
  function ManufactureDateOf(a: Byte, b: Byte): (r: ManufactureDate)
    ensures r.week.Some? <==> 1 <= a <= 0x36
    ensures r.week.Some? ==> r.week.value == a
    ensures r.modelYear.Some? <==> a == 0xff
    ensures r.modelYear.Some? != r.yearOfManufacture.Some?
    ensures r.modelYear.Some? ==> r.modelYear.value == b as bv16 + 1990
    ensures r.yearOfManufacture.Some? ==> r.yearOfManufacture.value == b as bv16 + 1990
  {
    var week := if 1 <= a <= 0x36 then Some(a) else None;
    var year := b as bv16 + 1990;
    if a == 0xff then ManufactureDate(week, Some(year), None)
    else ManufactureDate(week, None, Some(year))
  }

  /** The bytes a date is stored as; an unspecified week is stored as 0. */
  function EncodeManufactureDate(d: ManufactureDate): (r: (Byte, Byte))
    requires d.modelYear.Some? != d.yearOfManufacture.Some?
    requires d.modelYear.Some? ==> d.week.None? && 1990 <= d.modelYear.value <= 1990 + 255
    requires d.yearOfManufacture.Some? ==>
               1990 <= d.yearOfManufacture.value <= 1990 + 255
  {
    if d.modelYear.Some? then (0xff, (d.modelYear.value - 1990) as Byte)
    else (d.week.GetOr(0), (d.yearOfManufacture.value - 1990) as Byte)
  }

  /** A date stored with a week byte of 0, 1..0x36 or 0xff is read back as stored. */
  lemma ManufactureDateRoundTrip(a: Byte, b: Byte)
    requires a <= 0x36 || a == 0xff
    ensures EncodeManufactureDate(ManufactureDateOf(a, b)) == (a, b)
  {
  }

  // ---------------------------------------------------------------------
  // Video input definition (section 3.6.1)

  datatype ColorBitDepth =
    | Undefined | Bits6 | Bits8 | Bits10 | Bits12 | Bits14 | Bits16 | Reserved

  datatype DigitalVideoInterfaceStandard =
    | Undefined | Dvi | HdmiA | HdmiB | Mddi | DisplayPort | Unknown(code: Byte)

  datatype VideoInputDefinition =
    | Analog(
        signalLevelStandard: Byte,
        blankToBlackSetupOrPedestal: bool,
        separateHVSyncSupported: bool,
        compositeSyncOnHorizontalSupported: bool,
        compositeSyncOnGreenSupported: bool,
        serrationOnVerticalSyncSupported: bool)
    | Digital(bitDepth: ColorBitDepth, videoInterface: DigitalVideoInterfaceStandard)

  function BitDepthOf(code: Byte): ColorBitDepth {
    match code
    case 0 => ColorBitDepth.Undefined
    case 1 => Bits6
    case 2 => Bits8
    case 3 => Bits10
    case 4 => Bits12
    case 5 => Bits14
    case 6 => Bits16
    case _ => Reserved
  }

  function BitDepthCode(d: ColorBitDepth): Byte {
    match d
    case Undefined => 0
    case Bits6 => 1
    case Bits8 => 2
    case Bits10 => 3
    case Bits12 => 4
    case Bits14 => 5
    case Bits16 => 6
    case Reserved => 7
  }

  function InterfaceOf(code: Byte): DigitalVideoInterfaceStandard {
    match code
    case 0 => DigitalVideoInterfaceStandard.Undefined
    case 1 => Dvi
    case 2 => HdmiA
    case 3 => HdmiB
    case 4 => Mddi
    case 5 => DisplayPort
    case _ => Unknown(code)
  }

  function InterfaceCode(i: DigitalVideoInterfaceStandard): Byte {
    match i
    case Undefined => 0
    case Dvi => 1
    case HdmiA => 2
    case HdmiB => 3
    case Mddi => 4
    case DisplayPort => 5
    case Unknown(n) => n
  }

  /** A definition some byte decodes to. */
  predicate ValidVideoInput(d: VideoInputDefinition) {
    match d
    case Analog(level, _, _, _, _, _) => level < 4
    case Digital(_, i) => i.Unknown? ==> 6 <= i.code < 16
  }

  /** Bit 7 selects a digital input; the remaining bits mean different things for each kind. */
  function VideoInputDefinitionOf(v: Byte): (r: VideoInputDefinition)
    ensures r.Digital? <==> Has(v, 0x80)
    ensures ValidVideoInput(r)
  {
    if Has(v, 0x80) then
      Digital(BitDepthOf((v >> 4) & 0x7), InterfaceOf(v & 0xf))
    else
      Analog((v >> 5) & 0x3, Has(v >> 4, 1), Has(v >> 3, 1), Has(v >> 2, 1), Has(v >> 1, 1),
             Has(v, 1))
  }

  /** The byte a video input definition is stored as. */
  function EncodeVideoInput(d: VideoInputDefinition): Byte {
    match d
    case Analog(level, a, b, c, e, f) =>
      (level << 5) | Bit(a, 0x10) | Bit(b, 0x08) | Bit(c, 0x04) | Bit(e, 0x02) | Bit(f, 0x01)
    case Digital(depth, i) => 0x80 | (BitDepthCode(depth) << 4) | InterfaceCode(i)
  }

  lemma BitDepthCodeOf(code: Byte)
    requires code < 8
    ensures BitDepthCode(BitDepthOf(code)) == code
  {
  }

  lemma InterfaceCodeOf(code: Byte)
    requires code < 16
    ensures InterfaceCode(InterfaceOf(code)) == code
  {
  }

  /** The definition byte is decoded without loss: every bit means something. */
  lemma VideoInputLossless(v: Byte)
    ensures EncodeVideoInput(VideoInputDefinitionOf(v)) == v
  {
    if Has(v, 0x80) {
      BitDepthCodeOf((v >> 4) & 0x7);
      InterfaceCodeOf(v & 0xf);
    }
  }

  /** Every definition some byte decodes to is read back as stored. */
  lemma VideoInputRoundTrip(d: VideoInputDefinition)
    requires ValidVideoInput(d)
    ensures VideoInputDefinitionOf(EncodeVideoInput(d)) == d
  {
    if d.Digital? {
      var code := BitDepthCode(d.bitDepth);
      var i := InterfaceCode(d.videoInterface);
      var v := EncodeVideoInput(d);
      assert (v >> 4) & 0x7 == code && v & 0xf == i && Has(v, 0x80);
      assert BitDepthOf(code) == d.bitDepth;
      assert InterfaceOf(i) == d.videoInterface;
    }
  }

  // ---------------------------------------------------------------------
  // Screen size or aspect ratio (section 3.6.2)

  /**
   * `landscape`/`portrait` hold the stored byte of an aspect ratio; the
   * source turns it into `(hor + 99) / 100` or `100 / (vert + 99)`.
   */
  datatype ScreenDimensions = ScreenDimensions(
    horizontalCm: Option<Byte>,
    verticalCm: Option<Byte>,
    landscape: Option<Byte>,
    portrait: Option<Byte>)

  function ScreenDimensionsOf(hor: Byte, vert: Byte): (r: ScreenDimensions)
    ensures r.horizontalCm.Some? <==> hor != 0 && vert != 0
    ensures r.horizontalCm.Some? == r.verticalCm.Some?
    ensures r.horizontalCm.Some? ==> r.horizontalCm.value == hor && r.verticalCm.value == vert
    ensures r.portrait.Some? <==> hor == 0 && vert != 0
    ensures r.portrait.Some? ==> r.portrait.value == vert
    ensures r.landscape.Some? <==> hor != 0 && vert == 0
    ensures r.landscape.Some? ==> r.landscape.value == hor
  {
    if hor != 0 && vert != 0 then ScreenDimensions(Some(hor), Some(vert), None, None)
    else if vert != 0 then ScreenDimensions(None, None, None, Some(vert))
    else if hor != 0 then ScreenDimensions(None, None, Some(hor), None)
    else ScreenDimensions(None, None, None, None)
  }

  /** At most one of a size, a landscape ratio and a portrait ratio is decoded. */
  lemma ScreenDimensionsExclusive(hor: Byte, vert: Byte)
    ensures var r := ScreenDimensionsOf(hor, vert);
            (if r.horizontalCm.Some? then 1 else 0) + (if r.landscape.Some? then 1 else 0)
              + (if r.portrait.Some? then 1 else 0) == (if hor == 0 && vert == 0 then 0 else 1)
  {
  }

  /** The stored gamma byte, `(g + 100) / 100` in the source; 0xff means none. */
  function GammaCode(v: Byte): (r: Option<Byte>)
    ensures r.None? <==> v == 0xff
    ensures r.Some? ==> r.value == v
  {
    if v == 0xff then None else Some(v)
  }

  // ---------------------------------------------------------------------
  // Feature support (section 3.6.4)

  datatype DisplayColorType = Monochrome | Rgb | NonRgb | Undefined

  datatype ColorFeatures =
    | AnalogColor(displayColorType: DisplayColorType)
    | DigitalColor(rgb444Supported: bool, ycrcb444Supported: bool, ycrcb422Supported: bool)

  datatype FeatureSupport = FeatureSupport(
    standbySupported: bool,
    suspendSupported: bool,
    activeOffSupported: bool,
    features: ColorFeatures,
    srgbIsDefaultColorSpace: bool,
    preferredModeIsNative: bool,
    displayIsContinuousFrequency: bool)

  function DisplayColorTypeOf(code: Byte): DisplayColorType {
    match code
    case 0 => Monochrome
    case 1 => Rgb
    case 2 => NonRgb
    case _ => DisplayColorType.Undefined
  }

  function DisplayColorTypeCode(t: DisplayColorType): Byte {
    match t
    case Monochrome => 0
    case Rgb => 1
    case NonRgb => 2
    case Undefined => 3
  }

  /** Bits 4 and 3 are colour encodings for a digital input and a colour type for an analog one. */
  function FeatureSupportOf(v: Byte, digital: bool): (r: FeatureSupport)
    ensures r.features.DigitalColor? <==> digital
    ensures digital ==> r.features.rgb444Supported
  {
    FeatureSupport(
      Has(v, 0x80), Has(v, 0x40), Has(v, 0x20),
      if digital then DigitalColor(true, Has(v, 0x08), Has(v, 0x10))
      else AnalogColor(DisplayColorTypeOf((v >> 3) & 0x3)),
      Has(v, 0x04), Has(v, 0x02), Has(v, 0x01))
  }

  function EncodeFeatureSupport(f: FeatureSupport): Byte {
    var colour := match f.features
      case DigitalColor(_, ycrcb444, ycrcb422) => Bit(ycrcb422, 0x10) | Bit(ycrcb444, 0x08)
      case AnalogColor(t) => DisplayColorTypeCode(t) << 3;
    Bit(f.standbySupported, 0x80) | Bit(f.suspendSupported, 0x40) | Bit(f.activeOffSupported, 0x20)
      | colour | Bit(f.srgbIsDefaultColorSpace, 0x04) | Bit(f.preferredModeIsNative, 0x02)
      | Bit(f.displayIsContinuousFrequency, 0x01)
  }

  lemma DisplayColorTypeCodeOf(code: Byte)
    requires code < 4
    ensures DisplayColorTypeCode(DisplayColorTypeOf(code)) == code
  {
  }

  /** The feature byte is decoded without loss for either kind of input. */
  lemma FeatureSupportLossless(v: Byte, digital: bool)
    ensures EncodeFeatureSupport(FeatureSupportOf(v, digital)) == v
  {
    if !digital {
      DisplayColorTypeCodeOf((v >> 3) & 0x3);
    }
  }

  // ---------------------------------------------------------------------
  // Chromaticity coordinates (section 3.7): ten-bit values

  datatype ChromaticityCoordinates = ChromaticityCoordinates(
    redX: bv16, redY: bv16, greenX: bv16, greenY: bv16,
    blueX: bv16, blueY: bv16, whiteX: bv16, whiteY: bv16)

  /** The high eight bits of a coordinate and its two low bits taken from `low` at `shift`. */
  function Coordinate(low: Byte, shift: bv16, high: Byte): bv16
    requires shift <= 6
  {
    (((low as bv16) >> shift) & 0x3) + ((high as bv16) << 2)
  }

  function ChromaticityOf(b: seq<Byte>): (r: ChromaticityCoordinates)
    requires |b| == 10
  {
    ChromaticityCoordinates(
      Coordinate(b[0], 6, b[2]), Coordinate(b[0], 4, b[3]),
      Coordinate(b[0], 2, b[4]), Coordinate(b[0], 0, b[5]),
      Coordinate(b[1], 6, b[6]), Coordinate(b[1], 4, b[7]),
      Coordinate(b[1], 2, b[8]), Coordinate(b[1], 0, b[9]))
  }

  /** Each coordinate is a ten-bit value. */
  lemma ChromaticityTenBits(b: seq<Byte>)
    requires |b| == 10
    ensures var c := ChromaticityOf(b);
            c.redX < 1024 && c.redY < 1024 && c.greenX < 1024 && c.greenY < 1024
            && c.blueX < 1024 && c.blueY < 1024 && c.whiteX < 1024 && c.whiteY < 1024
  {
  }

  predicate TenBit(c: ChromaticityCoordinates) {
    c.redX < 1024 && c.redY < 1024 && c.greenX < 1024 && c.greenY < 1024
    && c.blueX < 1024 && c.blueY < 1024 && c.whiteX < 1024 && c.whiteY < 1024
  }

  function LowPair(a: bv16, b: bv16, e: bv16, f: bv16): Byte {
    (((a & 0x3) << 6) | ((b & 0x3) << 4) | ((e & 0x3) << 2) | (f & 0x3)) as Byte
  }

  function High(v: bv16): Byte
    requires v < 1024
  {
    (v >> 2) as Byte
  }

  /** The ten bytes a set of coordinates is stored as. */
  function EncodeChromaticity(c: ChromaticityCoordinates): (r: seq<Byte>)
    requires TenBit(c)
    ensures |r| == 10
  {
    [LowPair(c.redX, c.redY, c.greenX, c.greenY), LowPair(c.blueX, c.blueY, c.whiteX, c.whiteY),
     High(c.redX), High(c.redY), High(c.greenX), High(c.greenY),
     High(c.blueX), High(c.blueY), High(c.whiteX), High(c.whiteY)]
  }

  lemma CoordinateOfEncoded(a: bv16, b: bv16, e: bv16, f: bv16)
    requires a < 1024 && b < 1024 && e < 1024 && f < 1024
    ensures Coordinate(LowPair(a, b, e, f), 6, High(a)) == a
    ensures Coordinate(LowPair(a, b, e, f), 4, High(b)) == b
    ensures Coordinate(LowPair(a, b, e, f), 2, High(e)) == e
    ensures Coordinate(LowPair(a, b, e, f), 0, High(f)) == f
  {
  }

  /** Stored coordinates are read back as stored. */
  lemma ChromaticityRoundTrip(c: ChromaticityCoordinates)
    requires TenBit(c)
    ensures ChromaticityOf(EncodeChromaticity(c)) == c
  {
    CoordinateOfEncoded(c.redX, c.redY, c.greenX, c.greenY);
    CoordinateOfEncoded(c.blueX, c.blueY, c.whiteX, c.whiteY);
  }

  lemma HighLowOfCoordinates(l0: Byte, h0: Byte, h1: Byte, h2: Byte, h3: Byte)
    ensures LowPair(Coordinate(l0, 6, h0), Coordinate(l0, 4, h1), Coordinate(l0, 2, h2),
                    Coordinate(l0, 0, h3)) == l0
    ensures High(Coordinate(l0, 6, h0)) == h0 && High(Coordinate(l0, 4, h1)) == h1
    ensures High(Coordinate(l0, 2, h2)) == h2 && High(Coordinate(l0, 0, h3)) == h3
  {
  }

  /** All eighty bits of the block are used: decoding loses nothing. */
  lemma ChromaticityLossless(b: seq<Byte>)
    requires |b| == 10
    ensures TenBit(ChromaticityOf(b))
    ensures EncodeChromaticity(ChromaticityOf(b)) == b
  {
    ChromaticityTenBits(b);
    HighLowOfCoordinates(b[0], b[2], b[3], b[4], b[5]);
    HighLowOfCoordinates(b[1], b[6], b[7], b[8], b[9]);
  }

  // ---------------------------------------------------------------------
  // Established timings I and II (section 3.8)

  datatype EstablishedTiming =
    | S720x400At70 | S720x400At88 | S640x480At60 | S640x480At67
    | S640x480At72 | S640x480At75 | S800x600At56 | S800x600At60
    | S800x600At72 | S800x600At75 | S832x624At75 | S1024x768At87
    | S1024x768At60 | S1024x768At70 | S1024x768At75 | S1280x1024At75
    | S1152x870At75

  const ALL_ESTABLISHED: set<EstablishedTiming> :=
    {S720x400At70, S720x400At88, S640x480At60, S640x480At67, S640x480At72, S640x480At75, S800x600At56, S800x600At60, S800x600At72, S800x600At75, S832x624At75, S1024x768At87, S1024x768At60, S1024x768At70, S1024x768At75, S1280x1024At75, S1152x870At75}

  /** The bit of its byte that announces a timing; the masks are the source's. */
  function EstablishedMask(t: EstablishedTiming): Byte {
    match t
    case S720x400At70 => 0x80
    case S720x400At88 => 0x40
    case S640x480At60 => 0x20
    case S640x480At67 => 0x10
    case S640x480At72 => 0x08
    case S640x480At75 => 0x04
    case S800x600At56 => 0x02
    case S800x600At60 => 0x01
    case S800x600At72 => 0x80
    case S800x600At75 => 0x40
    case S832x624At75 => 0x20
    case S1024x768At87 => 0x10
    case S1024x768At60 => 0x08
    case S1024x768At70 => 0x04
    case S1024x768At75 => 0x02
    case S1280x1024At75 => 0x01
    case S1152x870At75 => 0x80
  }

  /** The byte of the three-byte block that holds a timing's bit, by the standard's table. */
  function EstablishedByte(t: EstablishedTiming): nat {
    match t
    case S720x400At70 => 0
    case S720x400At88 => 0
    case S640x480At60 => 0
    case S640x480At67 => 0
    case S640x480At72 => 0
    case S640x480At75 => 0
    case S800x600At56 => 0
    case S800x600At60 => 0
    case S800x600At72 => 1
    case S800x600At75 => 1
    case S832x624At75 => 1
    case S1024x768At87 => 1
    case S1024x768At60 => 1
    case S1024x768At70 => 1
    case S1024x768At75 => 1
    case S1280x1024At75 => 1
    case S1152x870At75 => 2
  }

  /** The timing announced by one bit of the block, if any. */
  function EstablishedAt(byte: nat, mask: Byte): Option<EstablishedTiming> {
    if byte == 0 then
      if mask == 0x80 then Some(S720x400At70) else if mask == 0x40 then Some(S720x400At88) else if mask == 0x20 then Some(S640x480At60) else if mask == 0x10 then Some(S640x480At67) else if mask == 0x08 then Some(S640x480At72) else if mask == 0x04 then Some(S640x480At75) else if mask == 0x02 then Some(S800x600At56) else if mask == 0x01 then Some(S800x600At60) else None
    else
    if byte == 1 then
      if mask == 0x80 then Some(S800x600At72) else if mask == 0x40 then Some(S800x600At75) else if mask == 0x20 then Some(S832x624At75) else if mask == 0x10 then Some(S1024x768At87) else if mask == 0x08 then Some(S1024x768At60) else if mask == 0x04 then Some(S1024x768At70) else if mask == 0x02 then Some(S1024x768At75) else if mask == 0x01 then Some(S1280x1024At75) else None
    else
    if byte == 2 then
      if mask == 0x80 then Some(S1152x870At75) else None
    else
      None
  }

  /** Each timing has a bit of its own: the bit positions identify the timings. */
  lemma EstablishedPositionsDistinct(t: EstablishedTiming)
    ensures EstablishedAt(EstablishedByte(t), EstablishedMask(t)) == Some(t)
    ensures EstablishedByte(t) < 3
  {
  }

  /**
   * `parse_established_timings` as written: every flag is tested on the
   * first byte, so the second and third bytes are never read.
   */
  function EstablishedTimingsAsWritten(b: seq<Byte>): (r: set<EstablishedTiming>)
    requires |b| == 3
    ensures forall t | t in r :: Has(b[0], EstablishedMask(t))
  {
    set t | t in ALL_ESTABLISHED && Has(b[0], EstablishedMask(t))
  }

  /** A first byte of 0x80 also announces two timings the block does not hold. */
  lemma EstablishedTimingsAsWrittenConflates()
    ensures EstablishedTimingsAsWritten([0x80, 0, 0]) == {S720x400At70, S800x600At72, S1152x870At75}
    ensures EstablishedTimingsAsWritten([0, 0x80, 0x80]) == {}
  {
    var r := EstablishedTimingsAsWritten([0x80, 0, 0]);
    assert S720x400At70 in r && S800x600At72 in r && S1152x870At75 in r;
  }

  /** The established timings the block announces: each one tested on its own byte. */
  function EstablishedTimingsOf(b: seq<Byte>): (r: set<EstablishedTiming>)
    requires |b| == 3
    ensures forall t | t in r :: Has(b[EstablishedByte(t)], EstablishedMask(t))
  {
    set t | t in ALL_ESTABLISHED && Has(b[EstablishedByte(t)], EstablishedMask(t))
  }

  /** The block in which exactly the bit of `t` is set. */
  function OnlyEstablished(t: EstablishedTiming): (r: seq<Byte>)
    ensures |r| == 3
  {
    seq(3, i => if i == EstablishedByte(t) then EstablishedMask(t) else 0)
  }

  /** Every mask is a single bit, so one mask contains another only when they are equal. */
  lemma EstablishedMaskSingleBit(t: EstablishedTiming, u: EstablishedTiming)
    ensures Has(EstablishedMask(t), EstablishedMask(u)) <==> EstablishedMask(t) == EstablishedMask(u)
  {
    var m, n := EstablishedMask(t), EstablishedMask(u);
    assert m in {0x80, 0x40, 0x20, 0x10, 0x08, 0x04, 0x02, 0x01};
    assert n in {0x80, 0x40, 0x20, 0x10, 0x08, 0x04, 0x02, 0x01};
  }

  /** In the block of `t` alone, the bit of `u` is set exactly when `u` is `t`. */
  lemma OnlyEstablishedBit(t: EstablishedTiming, u: EstablishedTiming)
    ensures EstablishedByte(u) < 3
    ensures Has(OnlyEstablished(t)[EstablishedByte(u)], EstablishedMask(u)) <==> u == t
  {
    EstablishedPositionsDistinct(t);
    EstablishedPositionsDistinct(u);
    var b := OnlyEstablished(t);
    if EstablishedByte(u) == EstablishedByte(t) {
      assert b[EstablishedByte(u)] == EstablishedMask(t);
      EstablishedMaskSingleBit(t, u);
    } else {
      assert b[EstablishedByte(u)] == 0;
    }
  }

  /** Each timing can be announced on its own, and then no other one is. */
  lemma EstablishedTimingsSeparate(t: EstablishedTiming)
    ensures EstablishedTimingsOf(OnlyEstablished(t)) == {t}
  {
    var b := OnlyEstablished(t);
    forall u | u in ALL_ESTABLISHED
      ensures u in EstablishedTimingsOf(b) <==> u == t
    {
      OnlyEstablishedBit(t, u);
    }
    assert t in ALL_ESTABLISHED;
  }

  // ---------------------------------------------------------------------
  // Standard timings (section 3.9)

  datatype AspectRatio = A1x1 | A16x10 | A4x3 | A5x4 | A16x9

  datatype StandardTiming = StandardTiming(
    xResolution: bv16,
    aspectRatio: AspectRatio,
    verticalFrequency: Byte)

  /**
   * One two-byte standard timing: `a` is the width in units of 8 pixels
   * less 31, `b` holds the aspect ratio in its top two bits and the refresh
   * rate less 60 below them.  Aspect code 0 is 1:1 before revision 1.3.
   */
  function StandardTimingOf(revision: Byte, a: Byte, b: Byte): (r: Option<StandardTiming>)
    ensures r.None? <==> a == 0
    ensures r.Some? ==> 256 <= r.value.xResolution <= 2288 && r.value.xResolution % 8 == 0
    ensures r.Some? ==> 60 <= r.value.verticalFrequency <= 123
    ensures r.Some? ==> (r.value.aspectRatio == A1x1 <==> b >> 6 == 0 && revision < 3)
  {
    if a == 0 then None
    else
      Some(StandardTiming(
        (a as bv16 + 31) * 8,
        match b >> 6
        case 0 => if revision < 3 then A1x1 else A16x10
        case 1 => A4x3
        case 2 => A5x4
        case _ => A16x9,
        60 + (b & 0x3f)))
  }

  function AspectCode(r: AspectRatio): Byte {
    match r
    case A1x1 => 0
    case A16x10 => 0
    case A4x3 => 1
    case A5x4 => 2
    case A16x9 => 3
  }

  /** The two bytes a standard timing is stored as. */
  function EncodeStandardTiming(t: StandardTiming): (Byte, Byte)
    requires 256 <= t.xResolution <= 2288 && 60 <= t.verticalFrequency <= 123
  {
    ((t.xResolution / 8 - 31) as Byte, (AspectCode(t.aspectRatio) << 6) | (t.verticalFrequency - 60))
  }

  /** Decoding a used timing loses nothing. */
  lemma StandardTimingLossless(revision: Byte, a: Byte, b: Byte)
    requires a != 0
    ensures EncodeStandardTiming(StandardTimingOf(revision, a, b).value) == (a, b)
  {
  }

  /** Two different used timings never decode alike. */
  lemma StandardTimingInjective(revision: Byte, a: Byte, b: Byte, a2: Byte, b2: Byte)
    requires a != 0 && a2 != 0
    requires StandardTimingOf(revision, a, b) == StandardTimingOf(revision, a2, b2)
    ensures a == a2 && b == b2
  {
    StandardTimingLossless(revision, a, b);
    StandardTimingLossless(revision, a2, b2);
  }

  /** A slot of the base block's standard timings; the pair (1, 1) marks it unused. */
  function StandardTimingSlot(revision: Byte, a: Byte, b: Byte): (r: Option<StandardTiming>)
    ensures r.None? <==> a == 0 || (a == 1 && b == 1)
    ensures r.Some? ==> r == StandardTimingOf(revision, a, b)
  {
    if a == 1 && b == 1 then None else StandardTimingOf(revision, a, b)
  }

  /** The eight standard timings of the base block's sixteen bytes. */
  function StandardTimingsOf(revision: Byte, bytes: seq<Byte>): (r: seq<Option<StandardTiming>>)
    requires |bytes| == 16
    ensures |r| == 8
  {
    seq(8, i requires 0 <= i < 8 => StandardTimingSlot(revision, bytes[2 * i], bytes[2 * i + 1]))
  }
}
