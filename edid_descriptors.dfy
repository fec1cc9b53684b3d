/**
 * The 18-byte descriptors of an EDID base block (section 3.10 of the VESA
 * E-EDID Standard, Release A, Revision 2), decoded as `parse_descriptor`
 * in `src/edid.rs` does, with the encoders and round trips that show what
 * each decoder keeps.
 */
module EdidDescriptors {
  import opened Wrappers
  import opened EdidFields

  // ---------------------------------------------------------------------
  // Detailed timing descriptor (section 3.10.2)

  datatype StereoViewingSupport =
    | NoStereo
    | FieldSequentialRightDuringStereoSync
    | FieldSequentialLeftDuringStereoSync
    | TwoWayInterleavedRightImageOnEvenLines
    | TwoWayInterleavedLeftImageOnEvenLines
    | FourWayInterleaved
    | SideBySideInterleaved

  datatype AnalogSyncType = AnalogComposite | BipolarAnalogComposite

  datatype SyncSignal =
    | AnalogSync(ty: AnalogSyncType, withSerrations: bool, syncOnAllSignals: bool)
    | DigitalComposite(withSerration: bool, horizontalSyncIsPositive: bool)
    | DigitalSeparate(verticalSyncIsPositive: bool, horizontalSyncIsPositive: bool)

  datatype DetailedTiming = DetailedTiming(
    pixelClockKhz: nat,
    horizontalAddressablePixels: bv16,
    horizontalBlankingPixels: bv16,
    verticalAddressableLines: bv16,
    verticalBlankingLines: bv16,
    horizontalFrontPorchPixels: bv16,
    horizontalSyncPulsePixels: bv16,
    verticalFrontPorchLines: Byte,
    verticalSyncPulseLines: Byte,
    horizontalAddressableMm: bv16,
    verticalAddressableMm: bv16,
    horizontalLeftBorderPixels: Byte,
    verticalTopBorderPixels: Byte,
    interlaced: bool,
    stereoViewingSupport: StereoViewingSupport,
    sync: SyncSignal)

  /** Bits 6, 5 and 0 of the flags byte, as one three-bit code. */
  function StereoOf(l: Byte): StereoViewingSupport {
    match ((l >> 4) & 0x6) | (l & 0x1)
    case 2 => FieldSequentialRightDuringStereoSync
    case 4 => FieldSequentialLeftDuringStereoSync
    case 3 => TwoWayInterleavedRightImageOnEvenLines
    case 5 => TwoWayInterleavedLeftImageOnEvenLines
    case 6 => FourWayInterleaved
    case 7 => SideBySideInterleaved
    case _ => NoStereo
  }

  /** Bits 4 to 1 of the flags byte. */
  function SyncOf(l: Byte): SyncSignal {
    if Has(l, 0x10) then
      if Has(l, 0x08) then DigitalSeparate(Has(l, 0x04), Has(l, 0x02))
      else DigitalComposite(Has(l, 0x04), Has(l, 0x02))
    else
      AnalogSync(if Has(l, 0x08) then BipolarAnalogComposite else AnalogComposite,
                 Has(l, 0x04), Has(l, 0x02))
  }

  /** A detailed timing whose fields fit the widths the descriptor stores. */
  predicate Storable(t: DetailedTiming) {
    && t.pixelClockKhz % 10_000 == 0 && t.pixelClockKhz <= 0xffff * 10_000
    && t.horizontalAddressablePixels < 4096 && t.horizontalBlankingPixels < 4096
    && t.verticalAddressableLines < 4096 && t.verticalBlankingLines < 4096
    && t.horizontalFrontPorchPixels < 1024 && t.horizontalSyncPulsePixels < 1024
    && t.verticalFrontPorchLines < 64 && t.verticalSyncPulseLines < 64
    && t.horizontalAddressableMm < 4096 && t.verticalAddressableMm < 4096
  }

  /** The pixel clock, stored in units of 10 kHz, as `u32`. */
  function PixelClock(lo: Byte, hi: Byte): (r: nat)
    ensures r == LeU16(lo, hi) as nat * 10_000 && r <= 0xffff * 10_000
  {
    LeU16(lo, hi) as nat * 10_000
  }

  /**
   * The pixel clock is stored in units of 10 kHz; the source multiplies it
   * by 10 000, so the field named `pixel_clock_khz` holds hertz.
   */
  function DetailedTimingOf(b: seq<Byte>): (r: DetailedTiming)
    requires |b| == 18
    ensures Storable(r)
  {
    var l := b[17];
    DetailedTiming(
      PixelClock(b[0], b[1]),
      LeU16(b[2], b[4] >> 4),
      LeU16(b[3], b[4] & 0xf),
      LeU16(b[5], b[7] >> 4),
      LeU16(b[6], b[7] & 0xf),
      LeU16(b[8], b[11] >> 6),
      LeU16(b[9], (b[11] >> 4) & 0x3),
      (b[10] >> 4) | ((b[11] & 0xc) << 2),
      (b[10] & 0xf) | ((b[11] & 0x3) << 4),
      LeU16(b[12], b[14] >> 4),
      LeU16(b[13], b[14] & 0xf),
      b[15],
      b[16],
      Has(l, 0x80),
      StereoOf(l),
      SyncOf(l))
  }

  function StereoCode(s: StereoViewingSupport): Byte {
    match s
    case NoStereo => 0
    case FieldSequentialRightDuringStereoSync => 2
    case FieldSequentialLeftDuringStereoSync => 4
    case TwoWayInterleavedRightImageOnEvenLines => 3
    case TwoWayInterleavedLeftImageOnEvenLines => 5
    case FourWayInterleaved => 6
    case SideBySideInterleaved => 7
  }

  function SyncBits(s: SyncSignal): Byte {
    match s
    case AnalogSync(ty, serrations, all) =>
      Bit(ty == BipolarAnalogComposite, 0x08) | Bit(serrations, 0x04) | Bit(all, 0x02)
    case DigitalComposite(serration, h) => 0x10 | Bit(serration, 0x04) | Bit(h, 0x02)
    case DigitalSeparate(v, h) => 0x18 | Bit(v, 0x04) | Bit(h, 0x02)
  }

  /** The flags byte (byte 17) of a detailed timing. */
  function DetailedFlags(t: DetailedTiming): Byte {
    var stereo := StereoCode(t.stereoViewingSupport);
    Bit(t.interlaced, 0x80) | ((stereo & 0x6) << 4) | (stereo & 0x1) | SyncBits(t.sync)
  }

  function Lo(v: bv16): Byte {
    (v & 0xff) as Byte
  }

  function Hi(v: bv16): Byte {
    (v >> 8) as Byte
  }

  /** The eighteen bytes a detailed timing whose pixel clock is `clock` units of 10 kHz is stored as. */
  function EncodeDetailedTiming(t: DetailedTiming, clock: bv16): (r: seq<Byte>)
    requires Storable(t) && t.pixelClockKhz == clock as nat * 10_000
    ensures |r| == 18
  {
    [Lo(clock), Hi(clock),
     Lo(t.horizontalAddressablePixels), Lo(t.horizontalBlankingPixels),
     (Hi(t.horizontalAddressablePixels) << 4) | Hi(t.horizontalBlankingPixels),
     Lo(t.verticalAddressableLines), Lo(t.verticalBlankingLines),
     (Hi(t.verticalAddressableLines) << 4) | Hi(t.verticalBlankingLines),
     Lo(t.horizontalFrontPorchPixels), Lo(t.horizontalSyncPulsePixels),
     ((t.verticalFrontPorchLines & 0xf) << 4) | (t.verticalSyncPulseLines & 0xf),
     (Hi(t.horizontalFrontPorchPixels) << 6) | (Hi(t.horizontalSyncPulsePixels) << 4)
       | ((t.verticalFrontPorchLines >> 4) << 2) | (t.verticalSyncPulseLines >> 4),
     Lo(t.horizontalAddressableMm), Lo(t.verticalAddressableMm),
     (Hi(t.horizontalAddressableMm) << 4) | Hi(t.verticalAddressableMm),
     t.horizontalLeftBorderPixels, t.verticalTopBorderPixels,
     DetailedFlags(t)]
  }

  lemma FlagsLossless(l: Byte)
    requires l & 0x61 != 0x01
    ensures Bit(Has(l, 0x80), 0x80) | ((StereoCode(StereoOf(l)) & 0x6) << 4)
              | (StereoCode(StereoOf(l)) & 0x1) | SyncBits(SyncOf(l)) == l
  {
  }

  lemma FlagsRoundTrip(t: DetailedTiming)
    ensures Has(DetailedFlags(t), 0x80) == t.interlaced
    ensures StereoOf(DetailedFlags(t)) == t.stereoViewingSupport
    ensures SyncOf(DetailedFlags(t)) == t.sync
  {
  }

  lemma HorizontalLossless(b2: Byte, b3: Byte, b4: Byte)
    ensures Lo(LeU16(b2, b4 >> 4)) == b2 && Lo(LeU16(b3, b4 & 0xf)) == b3
    ensures (Hi(LeU16(b2, b4 >> 4)) << 4) | Hi(LeU16(b3, b4 & 0xf)) == b4
  {
  }

  lemma PorchLossless(b8: Byte, b9: Byte, b10: Byte, b11: Byte)
    ensures Lo(LeU16(b8, b11 >> 6)) == b8 && Lo(LeU16(b9, (b11 >> 4) & 0x3)) == b9
    ensures var front := (b10 >> 4) | ((b11 & 0xc) << 2);
            var pulse := (b10 & 0xf) | ((b11 & 0x3) << 4);
            ((front & 0xf) << 4) | (pulse & 0xf) == b10
            && (Hi(LeU16(b8, b11 >> 6)) << 6) | (Hi(LeU16(b9, (b11 >> 4) & 0x3)) << 4)
                 | ((front >> 4) << 2) | (pulse >> 4) == b11
  {
  }

  lemma LosslessClock(b: seq<Byte>)
    requires |b| == 18
    ensures var r := EncodeDetailedTiming(DetailedTimingOf(b), LeU16(b[0], b[1]));
            r[0] == b[0] && r[1] == b[1]
  {
    LeU16RoundTrip(0, b[0], b[1]);
  }

  lemma LosslessHorizontal(b: seq<Byte>)
    requires |b| == 18
    ensures var r := EncodeDetailedTiming(DetailedTimingOf(b), LeU16(b[0], b[1]));
            r[2] == b[2] && r[3] == b[3] && r[4] == b[4]
  {
    HorizontalLossless(b[2], b[3], b[4]);
  }

  lemma LosslessVertical(b: seq<Byte>)
    requires |b| == 18
    ensures var r := EncodeDetailedTiming(DetailedTimingOf(b), LeU16(b[0], b[1]));
            r[5] == b[5] && r[6] == b[6] && r[7] == b[7]
  {
    HorizontalLossless(b[5], b[6], b[7]);
  }

  lemma LosslessPorch(b: seq<Byte>)
    requires |b| == 18
    ensures var r := EncodeDetailedTiming(DetailedTimingOf(b), LeU16(b[0], b[1]));
            r[8] == b[8] && r[9] == b[9] && r[10] == b[10] && r[11] == b[11]
  {
    PorchLossless(b[8], b[9], b[10], b[11]);
  }

  lemma LosslessImageSize(b: seq<Byte>)
    requires |b| == 18
    ensures var r := EncodeDetailedTiming(DetailedTimingOf(b), LeU16(b[0], b[1]));
            r[12] == b[12] && r[13] == b[13] && r[14] == b[14]
  {
    HorizontalLossless(b[12], b[13], b[14]);
  }

  lemma LosslessFlags(b: seq<Byte>)
    requires |b| == 18 && b[17] & 0x61 != 0x01
    ensures var r := EncodeDetailedTiming(DetailedTimingOf(b), LeU16(b[0], b[1]));
            r[15] == b[15] && r[16] == b[16] && r[17] == b[17]
  {
    FlagsLossless(b[17]);
  }

  /**
   * Decoding keeps every bit but one: stereo codes 000 and 001 both mean
   * "no stereo", so that flag byte is the only one not read back as stored.
   */
  lemma DetailedTimingLossless(b: seq<Byte>)
    requires |b| == 18 && b[17] & 0x61 != 0x01
    ensures EncodeDetailedTiming(DetailedTimingOf(b), LeU16(b[0], b[1])) == b
  {
    var r := EncodeDetailedTiming(DetailedTimingOf(b), LeU16(b[0], b[1]));
    LosslessClock(b);
    LosslessHorizontal(b);
    LosslessVertical(b);
    LosslessPorch(b);
    LosslessImageSize(b);
    LosslessFlags(b);
    assert forall k | 0 <= k < 18 :: r[k] == b[k];
  }

  /** Two 12-bit values stored as two low bytes and a shared byte of high nibbles are read back as stored. */
  lemma TwelveBitPairRoundTrip(x: bv16, y: bv16)
    requires x < 4096 && y < 4096
    ensures LeU16(Lo(x), ((Hi(x) << 4) | Hi(y)) >> 4) == x
    ensures LeU16(Lo(y), ((Hi(x) << 4) | Hi(y)) & 0xf) == y
  {
  }

  /** The front porch and sync pulse widths spread over bytes 8 to 11 are read back as stored. */
  lemma PorchRoundTrip(t: DetailedTiming, clock: bv16)
    requires Storable(t) && t.pixelClockKhz == clock as nat * 10_000
    ensures var r := DetailedTimingOf(EncodeDetailedTiming(t, clock));
            && r.horizontalFrontPorchPixels == t.horizontalFrontPorchPixels
            && r.horizontalSyncPulsePixels == t.horizontalSyncPulsePixels
            && r.verticalFrontPorchLines == t.verticalFrontPorchLines
            && r.verticalSyncPulseLines == t.verticalSyncPulseLines
  {
  }

  /** The pixel clock and the 12-bit sizes are read back as stored. */
  lemma SizesRoundTrip(t: DetailedTiming, clock: bv16)
    requires Storable(t) && t.pixelClockKhz == clock as nat * 10_000
    ensures var r := DetailedTimingOf(EncodeDetailedTiming(t, clock));
            && r.pixelClockKhz == t.pixelClockKhz
            && r.horizontalAddressablePixels == t.horizontalAddressablePixels
            && r.horizontalBlankingPixels == t.horizontalBlankingPixels
            && r.verticalAddressableLines == t.verticalAddressableLines
            && r.verticalBlankingLines == t.verticalBlankingLines
            && r.horizontalAddressableMm == t.horizontalAddressableMm
            && r.verticalAddressableMm == t.verticalAddressableMm
  {
    LeU16RoundTrip(clock, 0, 0);
    TwelveBitPairRoundTrip(t.horizontalAddressablePixels, t.horizontalBlankingPixels);
    TwelveBitPairRoundTrip(t.verticalAddressableLines, t.verticalBlankingLines);
    TwelveBitPairRoundTrip(t.horizontalAddressableMm, t.verticalAddressableMm);
  }

  /** Every storable timing is read back as stored. */
  lemma DetailedTimingRoundTrip(t: DetailedTiming, clock: bv16)
    requires Storable(t) && t.pixelClockKhz == clock as nat * 10_000
    ensures DetailedTimingOf(EncodeDetailedTiming(t, clock)) == t
  {
    FlagsRoundTrip(t);
    SizesRoundTrip(t, clock);
    PorchRoundTrip(t, clock);
  }

  // ---------------------------------------------------------------------
  // Display range limits and additional timing (section 3.10.3.3)

  datatype AspectRatioPreference = P4x3 | P16x9 | P16x10 | P5x4 | P15x9 | Unknown(code: Byte)

  datatype ExtendedTimingInformation =
    | DefaultGtf
    | NoTimingInformation
    | SecondaryGtf(startFrequency: bv16, cValue: bv16, mValue: bv16, kValue: Byte, jValue: bv16)
    | Cvt(
        cvtMajorVersion: Byte,
        cvtMinorVersion: Byte,
        additionalClockPrecision: Byte,
        maximumActivePixelsPerLine: Option<bv16>,
        ar4x3: bool, ar16x9: bool, ar16x10: bool, ar5x4: bool, ar15x9: bool,
        arPreference: AspectRatioPreference,
        cvtRbReducedBlankingPreferred: bool,
        cvtStandardBlanking: bool,
        scalingSupportHorizontalShrink: bool,
        scalingSupportHorizontalStretch: bool,
        scalingSupportVerticalShrink: bool,
        scalingSupportVerticalStretch: bool,
        preferredVerticalRefreshRateHz: Byte)
    | UnknownTiming(code: Byte)

  /** The rates and the clock are held as numbers: none of them can exceed 16 bits. */
  datatype DisplayRangeLimits = DisplayRangeLimits(
    verticalFieldRateMin: nat,
    verticalFieldRateMax: nat,
    horizontalFieldRateMin: nat,
    horizontalFieldRateMax: nat,
    maximumPixelClockMhz: nat,
    extendedTimingInformation: ExtendedTimingInformation)

  /** A rate byte, 255 higher when its offset flag is set. */
  function Rate(v: Byte, offset: bool): (r: nat)
    ensures r <= 510
    ensures offset <==> r >= 255 + v as nat
  {
    v as nat + if offset then 255 else 0
  }

  function AspectRatioPreferenceOf(code: Byte): AspectRatioPreference {
    match code
    case 0 => P4x3
    case 1 => P16x9
    case 2 => P16x10
    case 3 => P5x4
    case 4 => P15x9
    case _ => AspectRatioPreference.Unknown(code)
  }

  function ExtendedTimingOf(b: seq<Byte>): (r: ExtendedTimingInformation)
    requires |b| == 18
    ensures r.UnknownTiming? <==> b[10] !in {0, 1, 2, 4}
    ensures r.Cvt? && r.maximumActivePixelsPerLine.Some? ==>
              r.maximumActivePixelsPerLine.value % 8 == 0
              && r.maximumActivePixelsPerLine.value <= 1023 * 8
  {
    match b[10]
    case 0 => DefaultGtf
    case 1 => NoTimingInformation
    case 2 => SecondaryGtf(b[12] as bv16, b[13] as bv16, LeU16(b[14], b[15]), b[16], b[17] as bv16)
    case 4 =>
      Cvt(b[11] >> 4, b[11] & 0xf, b[12] >> 2,
          if b[13] == 0 then None else Some(((((b[12] as bv16) & 0x3) << 8) | (b[13] as bv16)) * 8),
          Has(b[14], 0x80), Has(b[14], 0x40), Has(b[14], 0x20), Has(b[14], 0x10), Has(b[14], 0x08),
          AspectRatioPreferenceOf(b[15] >> 5),
          Has(b[15], 0x10), Has(b[15], 0x08),
          Has(b[16], 0x80), Has(b[16], 0x40), Has(b[16], 0x20), Has(b[16], 0x10),
          b[17])
    case n => UnknownTiming(n)
  }

  /**
   * Byte 4 holds the "+255" offsets: bit 0 for the minimum and bit 1 for the
   * maximum vertical rate, bits 2 and 3 for the horizontal ones; an offset
   * minimum implies an offset maximum.
   */
  function DisplayRangeLimitsOf(b: seq<Byte>): (r: DisplayRangeLimits)
    requires |b| == 18
    ensures r.verticalFieldRateMin <= 510 && r.verticalFieldRateMax <= 510
    ensures r.horizontalFieldRateMin <= 510 && r.horizontalFieldRateMax <= 510
    ensures r.maximumPixelClockMhz == b[9] as nat * 10 && r.maximumPixelClockMhz <= 0xffff
    ensures r.verticalFieldRateMin == b[5] as nat + if Has(b[4], 0x01) then 255 else 0
    ensures r.verticalFieldRateMax == b[6] as nat + if Has(b[4], 0x01) || Has(b[4], 0x02) then 255 else 0
    ensures r.horizontalFieldRateMin == b[7] as nat + if Has(b[4], 0x04) then 255 else 0
    ensures r.horizontalFieldRateMax == b[8] as nat + if Has(b[4], 0x04) || Has(b[4], 0x08) then 255 else 0
    ensures r.extendedTimingInformation == ExtendedTimingOf(b)
  {
    var minVertOff := Has(b[4], 0x01);
    var maxVertOff := minVertOff || Has(b[4], 0x02);
    var minHorzOff := Has(b[4], 0x04);
    var maxHorzOff := minHorzOff || Has(b[4], 0x08);
    DisplayRangeLimits(
      Rate(b[5], minVertOff), Rate(b[6], maxVertOff),
      Rate(b[7], minHorzOff), Rate(b[8], maxHorzOff),
      b[9] as nat * 10,
      ExtendedTimingOf(b))
  }

  /** Limits stored in order are decoded in order: an offset minimum always offsets the maximum too. */
  lemma DisplayRangeLimitsOrdered(b: seq<Byte>)
    requires |b| == 18
    ensures b[5] <= b[6] ==> DisplayRangeLimitsOf(b).verticalFieldRateMin <= DisplayRangeLimitsOf(b).verticalFieldRateMax
    ensures b[7] <= b[8] ==> DisplayRangeLimitsOf(b).horizontalFieldRateMin <= DisplayRangeLimitsOf(b).horizontalFieldRateMax
    ensures Has(b[4], 0x01) ==> DisplayRangeLimitsOf(b).verticalFieldRateMax >= 255
    ensures Has(b[4], 0x04) ==> DisplayRangeLimitsOf(b).horizontalFieldRateMax >= 255
  {
    var r := DisplayRangeLimitsOf(b);
    var v0, v1, h0, h1 := b[5] as nat, b[6] as nat, b[7] as nat, b[8] as nat;
    ByteOrder(b[5], b[6]);
    ByteOrder(b[7], b[8]);
    assert r.verticalFieldRateMin == v0 + (if Has(b[4], 0x01) then 255 else 0);
    assert r.verticalFieldRateMax == v1 + (if Has(b[4], 0x01) || Has(b[4], 0x02) then 255 else 0);
    assert r.horizontalFieldRateMin == h0 + (if Has(b[4], 0x04) then 255 else 0);
    assert r.horizontalFieldRateMax == h1 + (if Has(b[4], 0x04) || Has(b[4], 0x08) then 255 else 0);
  }

  /** Byte order is number order. */
  lemma ByteOrder(x: Byte, y: Byte)
    ensures x <= y ==> x as nat <= y as nat
  {
  }

  // ---------------------------------------------------------------------
  // Colour point data (section 3.10.3.5)

  /** `gamma` holds the stored byte; the source turns it into `(g + 100) / 100`. */
  datatype ColorPoint = ColorPoint(
    whitePointIndex: Byte,
    whitePointX: bv16,
    whitePointY: bv16,
    gamma: Option<Byte>)

  /**
   * The `n`-th white point (`n` is 0 or 1), five bytes from offset 5 + 5 n,
   * as written: the gamma is tested for 0xff on its own byte but its value
   * is taken from the byte after it.
   */
  function ColorPointAsWritten(b: seq<Byte>, n: nat): (r: ColorPoint)
    requires |b| == 18 && n < 2
    ensures r.gamma.Some? ==> r.gamma.value == b[5 * (n + 1) + 5]
  {
    var p := 5 * (n + 1);
    ColorPoint(
      b[p],
      ((b[p + 2] as bv16) << 2) | ((b[p + 1] as bv16) >> 2),
      ((b[p + 3] as bv16) << 2) | ((b[p + 1] as bv16) & 0x3),
      if b[p + 4] == 0xff then None else Some(b[p + 5]))
  }

  /** The stored gamma is 2.2 (0x78), yet the source reads the next white point's index. */
  lemma ColorPointGammaAsWrittenMisread()
    ensures var b := [0, 0, 0, 0xfb, 0, 1, 0, 0x50, 0x54, 0x78, 0, 0, 0, 0, 0, 0x0a, 0x20, 0x20];
            ColorPointAsWritten(b, 0).gamma == Some(0)
            && ColorPointOf(b, 0).gamma == Some(0x78)
  {
  }

  /** The `n`-th white point, its gamma read from its own fifth byte. */
  function ColorPointOf(b: seq<Byte>, n: nat): (r: ColorPoint)
    requires |b| == 18 && n < 2
    ensures r.whitePointIndex == b[5 * (n + 1)]
    ensures r.gamma.None? <==> b[5 * (n + 1) + 4] == 0xff
    ensures r.gamma.Some? ==> r.gamma.value == b[5 * (n + 1) + 4]
    ensures r.whitePointY >> 2 == b[5 * (n + 1) + 3] as bv16
    ensures r.whitePointY & 0x3 == (b[5 * (n + 1) + 1] & 0x3) as bv16
    ensures r.whitePointX & 0x3 == ((b[5 * (n + 1) + 1] >> 2) & 0x3) as bv16
    ensures b[5 * (n + 1) + 1] < 0x10 ==> r.whitePointX >> 2 == b[5 * (n + 1) + 2] as bv16
  {
    var p := 5 * (n + 1);
    ColorPoint(
      b[p],
      ((b[p + 2] as bv16) << 2) | ((b[p + 1] as bv16) >> 2),
      ((b[p + 3] as bv16) << 2) | ((b[p + 1] as bv16) & 0x3),
      if b[p + 4] == 0xff then None else Some(b[p + 4]))
  }

  /** The first white point, and the second when its index is not 0. */
  function ColorPointsOf(b: seq<Byte>): (r: (ColorPoint, Option<ColorPoint>))
    requires |b| == 18
    ensures r.0 == ColorPointOf(b, 0)
    ensures r.1.Some? <==> b[10] != 0
    ensures r.1.Some? ==> r.1.value == ColorPointOf(b, 1)
  {
    var second := ColorPointOf(b, 1);
    (ColorPointOf(b, 0), if second.whitePointIndex != 0 then Some(second) else None)
  }

  /** `parse_color_point`: the loop over the two white points. */
  method ParseColorPoint(b: seq<Byte>) returns (first: ColorPoint, second: Option<ColorPoint>)
    requires |b| == 18
    ensures (first, second) == ColorPointsOf(b)
  {
    var res: seq<ColorPoint> := [];
    for n := 0 to 2
      invariant |res| == n
      invariant forall k | 0 <= k < n :: res[k] == ColorPointOf(b, k)
    {
      res := res + [ColorPointOf(b, n)];
    }
    first := res[0];
    second := if res[1].whitePointIndex != 0 then Some(res[1]) else None;
  }

  // ---------------------------------------------------------------------
  // Standard timing identifiers (section 3.10.3.8)

  /** The six timings of a 0xfa descriptor as written: no slot is treated as unused. */
  function StandardTimings2AsWritten(revision: Byte, b: seq<Byte>): (r: seq<Option<StandardTiming>>)
    requires |b| == 18
    ensures |r| == 6
  {
    seq(6, i requires 0 <= i < 6 => StandardTimingOf(revision, b[5 + 2 * i], b[5 + 2 * i + 1]))
  }

  /** The unused pair (1, 1) reads as a 256-pixel timing as written. */
  lemma StandardTimings2AsWrittenReadsUnused(revision: Byte, b: seq<Byte>)
    requires |b| == 18 && b[5] == 1 && b[6] == 1
    ensures StandardTimings2AsWritten(revision, b)[0].Some?
    ensures StandardTimings2AsWritten(revision, b)[0].value.xResolution == 256
    ensures StandardTimings2Of(revision, b)[0].None?
  {
  }

  /** The six timings of a 0xfa descriptor; (1, 1) marks a slot unused, as in the base block. */
  function StandardTimings2Of(revision: Byte, b: seq<Byte>): (r: seq<Option<StandardTiming>>)
    requires |b| == 18
    ensures |r| == 6
  {
    seq(6, i requires 0 <= i < 6 => StandardTimingSlot(revision, b[5 + 2 * i], b[5 + 2 * i + 1]))
  }

  /** `parse_standard_timings2`: the loop over the six slots. */
  method ParseStandardTimings2(revision: Byte, b: seq<Byte>) returns (res: seq<Option<StandardTiming>>)
    requires |b| == 18
    ensures res == StandardTimings2Of(revision, b)
  {
    res := [];
    for i := 0 to 6
      invariant res == StandardTimings2Of(revision, b)[..i]
    {
      res := res + [StandardTimingSlot(revision, b[5 + 2 * i], b[5 + 2 * i + 1])];
    }
  }

  /** A slot is empty exactly when it is unused or its first byte is 0. */
  lemma StandardTimings2Empty(revision: Byte, b: seq<Byte>, i: nat)
    requires |b| == 18 && i < 6
    ensures StandardTimings2Of(revision, b)[i].None? <==>
              b[5 + 2 * i] == 0 || (b[5 + 2 * i] == 1 && b[6 + 2 * i] == 1)
  {
  }

  // ---------------------------------------------------------------------
  // Colour management data (section 3.10.3.7)

  datatype ColorManagementData = ColorManagementData(
    redA3: bv16, redA2: bv16, greenA3: bv16, greenA2: bv16, blueA3: bv16, blueA2: bv16)

  function ColorManagementDataOf(b: seq<Byte>): (r: ColorManagementData)
    requires |b| == 18
    ensures U16Bytes(r.redA3) == (b[6], b[7]) && U16Bytes(r.redA2) == (b[8], b[9])
    ensures U16Bytes(r.greenA3) == (b[10], b[11]) && U16Bytes(r.greenA2) == (b[12], b[13])
    ensures U16Bytes(r.blueA3) == (b[14], b[15]) && U16Bytes(r.blueA2) == (b[16], b[17])
  {
    LeU16RoundTrip(0, b[6], b[7]);
    LeU16RoundTrip(0, b[8], b[9]);
    LeU16RoundTrip(0, b[10], b[11]);
    LeU16RoundTrip(0, b[12], b[13]);
    LeU16RoundTrip(0, b[14], b[15]);
    LeU16RoundTrip(0, b[16], b[17]);
    ColorManagementData(
      LeU16(b[6], b[7]), LeU16(b[8], b[9]), LeU16(b[10], b[11]),
      LeU16(b[12], b[13]), LeU16(b[14], b[15]), LeU16(b[16], b[17]))
  }

  // ---------------------------------------------------------------------
  // CVT 3-byte timing codes (section 3.10.3.9)

  datatype CvtAspectRatio = C4x3 | C16x9 | C16x10 | C15x9

  datatype CvtPreferredVerticalRate = R50 | R60 | R75 | R85

  datatype Cvt3ByteCode = Cvt3ByteCode(
    addressableLinesPerField: bv16,
    aspectRatio: CvtAspectRatio,
    preferredVerticalRate: CvtPreferredVerticalRate,
    r50: bool, r60: bool, r75: bool, r85: bool, r60ReducedBlanking: bool)

  /** The `n`-th three-byte code, from offset 6 + 3 n. */
  function Cvt3ByteCodeOf(b: seq<Byte>, n: nat): (r: Cvt3ByteCode)
    requires |b| == 18 && n < 4
    ensures r.addressableLinesPerField < 4096
    ensures Lo(r.addressableLinesPerField) == b[6 + 3 * n]
  {
    var c := b[6 + 3 * n..];
    Cvt3ByteCode(
      LeU16(c[0], c[1] >> 4),
      match (c[1] >> 2) & 0x3
      case 0 => C4x3
      case 1 => C16x9
      case 2 => C16x10
      case _ => C15x9,
      match (c[2] >> 5) & 0x3
      case 0 => R50
      case 1 => R60
      case 2 => R75
      case _ => R85,
      Has(c[2], 0x10), Has(c[2], 0x08), Has(c[2], 0x04), Has(c[2], 0x02), Has(c[2], 0x01))
  }

  function Cvt3ByteCodesOf(b: seq<Byte>): (r: seq<Cvt3ByteCode>)
    requires |b| == 18
    ensures |r| == 4 && forall n | 0 <= n < 4 :: r[n] == Cvt3ByteCodeOf(b, n)
  {
    [Cvt3ByteCodeOf(b, 0), Cvt3ByteCodeOf(b, 1), Cvt3ByteCodeOf(b, 2), Cvt3ByteCodeOf(b, 3)]
  }
}
