/**
 * The DRM device layer: display modes, the atomic property change list,
 * connector codes, the IN_FORMATS blob, the event stream, leases and the
 * GEM handle cache of a DRM master.
 */
module Drm {
  import opened Wrappers
  import opened MachineInt

  // ---------------------------------------------------------------------
  // Object ids
  // ---------------------------------------------------------------------

  /** Every DRM object id type (`DrmCrtc`, `DrmPlane`, …) reserves 0 for "none". */
  predicate IsSome(id: nat) { id != 0 }

  predicate IsNone(id: nat) { id == 0 }

  // ---------------------------------------------------------------------
  // Errors
  // ---------------------------------------------------------------------

  datatype DrmError =
    | InFormats
    | InvalidRead
    | ReadEvents(errno: nat)
    | GemHandleError(errno: nat)

  // ---------------------------------------------------------------------
  // Little-endian decoding of kernel structures
  // ---------------------------------------------------------------------

  function LeU32(b: seq<Byte>, at: nat): (r: nat)
    requires at + 4 <= |b|
    ensures IsU32(r)
  {
    (b[at] as int) + 0x100 * (b[at + 1] as int) + 0x1_0000 * (b[at + 2] as int)
    + 0x100_0000 * (b[at + 3] as int)
  }

  function LeU64(b: seq<Byte>, at: nat): (r: nat)
    requires at + 8 <= |b|
    ensures IsU64(r)
  {
    LeU32(b, at) + 0x1_0000_0000 * LeU32(b, at + 4)
  }

  /** `x as i64` for a 64-bit pattern. */
  function U64AsI64(x: nat): (r: int)
    requires IsU64(x)
    ensures -0x8000_0000_0000_0000 <= r < 0x8000_0000_0000_0000
    ensures r % 0x1_0000_0000_0000_0000 == x
  {
    if x < 0x8000_0000_0000_0000 then x else x - 0x1_0000_0000_0000_0000
  }

  // ---------------------------------------------------------------------
  // Display modes
  // ---------------------------------------------------------------------

  /** Length of the fixed name field of `drm_mode_modeinfo`. */
  const DRM_DISPLAY_MODE_LEN: nat := 32

  /** `DrmModeInfo`: a display timing as the kernel reports it; the name is its bytes. */
  datatype DrmModeInfo = DrmModeInfo(
    clock: nat,
    hdisplay: nat, hsyncStart: nat, hsyncEnd: nat, htotal: nat, hskew: nat,
    vdisplay: nat, vsyncStart: nat, vsyncEnd: nat, vtotal: nat, vscan: nat,
    vrefresh: nat, flags: nat, ty: nat,
    name: seq<Byte>)

  /** `backend::Mode`: the size of a mode and its refresh rate in mHz. */
  datatype BackendMode = BackendMode(width: int, height: int, refreshRateMillihz: nat)

  /**
   * `to_raw`: the structure handed to the kernel. Its name field holds the
   * first 32 bytes of the name, padded with zeros; nothing else changes.
   */
  function ToRaw(m: DrmModeInfo): (r: DrmModeInfo)
    ensures |r.name| == DRM_DISPLAY_MODE_LEN
    ensures r.(name := m.name) == m
    ensures forall i :: 0 <= i < |m.name| && i < DRM_DISPLAY_MODE_LEN ==> r.name[i] == m.name[i]
    ensures forall i :: |m.name| <= i < DRM_DISPLAY_MODE_LEN ==> r.name[i] == 0
  {
    var len := Min(DRM_DISPLAY_MODE_LEN, |m.name|);
    m.(name := m.name[..len] + seq(DRM_DISPLAY_MODE_LEN - len, _ => 0))
  }

  /** A name that fits is passed whole: it is the raw name up to its length. */
  lemma RawNameKeepsShortName(m: DrmModeInfo)
    requires |m.name| <= DRM_DISPLAY_MODE_LEN
    ensures ToRaw(m).name[..|m.name|] == m.name
  {
    var r := ToRaw(m).name;
    assert forall i :: 0 <= i < |m.name| ==> r[..|m.name|][i] == m.name[i];
  }

  /**
   * `refresh_rate_millihz`: the pixel clock (kHz) in mHz divided by the
   * pixels per line, then by the lines per frame rounding half up, and
   * truncated to u32. A zero `htotal` or `vtotal` is a division by zero.
   */
  function RefreshRateMillihz(m: DrmModeInfo): (r: nat)
    requires m.htotal > 0 && m.vtotal > 0
    ensures IsU32(r)
  {
    ((m.clock * 1_000_000 / m.htotal + m.vtotal / 2) / m.vtotal) % 0x1_0000_0000
  }

  /** `to_backend` */
  function ToBackend(m: DrmModeInfo): BackendMode
    requires m.htotal > 0 && m.vtotal > 0
  {
    BackendMode(m.hdisplay, m.vdisplay, RefreshRateMillihz(m))
  }

  lemma DivUnique(a: int, d: int, q: int, r: int)
    requires d > 0 && 0 <= r < d && a == d * q + r
    ensures a / d == q && a % d == r
  {
    var q0, r0 := a / d, a % d;
    assert a == d * q0 + r0;
    Distribute(d, q - q0, q0);
    MulZero(d, q - q0);
  }

  lemma MulZero(d: int, k: int)
    requires d > 0 && -d < d * k < d
    ensures k == 0
  {
    if k >= 1 {
      Distribute(d, k - 1, 1);
      MulLeft(d, 0, k - 1);
    } else if k <= -1 {
      Distribute(d, -k - 1, 1);
      MulLeft(d, 0, -k - 1);
    }
  }

  lemma Distribute(h: int, x: int, y: int)
    ensures h * (x + y) == h * x + h * y
  {
  }

  lemma MulLeft(h: nat, x: nat, y: nat)
    requires x <= y
    ensures h * x <= h * y
  {
  }

  lemma DivAddMultiple(a: nat, h: nat, k: nat)
    requires h > 0
    ensures (a + h * k) / h == a / h + k
  {
    DivUnique(a + h * k, h, a / h + k, a % h);
  }

  lemma NestedDiv(a: nat, h: nat, v: nat)
    requires h > 0 && v > 0
    ensures a / h / v == a / (h * v)
  {
    var q1, r1 := a / h, a % h;
    var q2, r2 := q1 / v, q1 % v;
    assert a == h * q1 + r1;
    assert q1 == v * q2 + r2;
    Distribute(h, v * q2, r2);
    assert h * (v * q2) == (h * v) * q2;
    assert a == (h * v) * q2 + (h * r2 + r1);
    MulLeft(h, r2, v - 1);
    Distribute(h, v - 1, 1);
    DivUnique(a, h * v, q2, h * r2 + r1);
  }

  /**
   * For an even number of lines per frame the rate, before the u32
   * truncation, is the clock in mHz divided by the pixels per frame,
   * rounded to the nearest integer with halves rounded up.
   */
  lemma RefreshRateRoundsToNearest(m: DrmModeInfo)
    requires m.htotal > 0 && m.vtotal > 0 && m.vtotal % 2 == 0
    ensures var frame := m.htotal * m.vtotal;
            var exact := (m.clock * 1_000_000 + frame / 2) / frame;
            IsU32(exact) ==> RefreshRateMillihz(m) == exact
  {
    var a, h, v := m.clock * 1_000_000, m.htotal, m.vtotal;
    DivAddMultiple(a, h, v / 2);
    NestedDiv(a + h * (v / 2), h, v);
    assert h * v / 2 == h * (v / 2);
  }

  // ---------------------------------------------------------------------
  // Connector codes
  // ---------------------------------------------------------------------

  datatype ConnectorType =
    | UnknownType(code: nat)
    | VGA | DVII | DVID | DVIA | Composite | SVIDEO | LVDS | Component
    | NinePinDIN | DisplayPort | HDMIA | HDMIB | TV | EDP | VIRTUAL | DSI
    | DPI | WRITEBACK | SPI | USB | EmbeddedWindow

  /** `ConnectorType::to_drm`; the embedded window has no code of its own. */
  function ConnectorTypeToDrm(t: ConnectorType): nat
  {
    match t
    case UnknownType(n) => n
    case VGA => 1
    case DVII => 2
    case DVID => 3
    case DVIA => 4
    case Composite => 5
    case SVIDEO => 6
    case LVDS => 7
    case Component => 8
    case NinePinDIN => 9
    case DisplayPort => 10
    case HDMIA => 11
    case HDMIB => 12
    case TV => 13
    case EDP => 14
    case VIRTUAL => 15
    case DSI => 16
    case DPI => 17
    case WRITEBACK => 18
    case SPI => 19
    case USB => 20
    case EmbeddedWindow => 0
  }

  /**
   * `ConnectorType::from_drm`: the codes 1 to 20 name connector kinds; any
   * other code is kept as `Unknown`. Converting back gives the code.
   */
  function ConnectorTypeFromDrm(v: nat): (r: ConnectorType)
    ensures ConnectorTypeToDrm(r) == v
    ensures r.UnknownType? <==> v == 0 || v > 20
    ensures !r.EmbeddedWindow?
  {
    match v
    case 1 => VGA
    case 2 => DVII
    case 3 => DVID
    case 4 => DVIA
    case 5 => Composite
    case 6 => SVIDEO
    case 7 => LVDS
    case 8 => Component
    case 9 => NinePinDIN
    case 10 => DisplayPort
    case 11 => HDMIA
    case 12 => HDMIB
    case 13 => TV
    case 14 => EDP
    case 15 => VIRTUAL
    case 16 => DSI
    case 17 => DPI
    case 18 => WRITEBACK
    case 19 => SPI
    case 20 => USB
    case _ => UnknownType(v)
  }

  /**
   * Every connector kind with a code of its own survives the trip to the
   * kernel's code and back; an `Unknown` code is kept unless it names a
   * known kind, and the embedded window comes back as `Unknown(0)`.
   */
  lemma ConnectorTypeRoundTrip(t: ConnectorType)
    ensures !t.EmbeddedWindow? && !(t.UnknownType? && 1 <= t.code <= 20)
            ==> ConnectorTypeFromDrm(ConnectorTypeToDrm(t)) == t
    ensures t.EmbeddedWindow? ==> ConnectorTypeFromDrm(ConnectorTypeToDrm(t)) == UnknownType(0)
  {
  }

  datatype ConnectorStatus = Connected | Disconnected | UnknownStatus | OtherStatus(code: nat)

  /** `ConnectorStatus::from_drm`: 1, 2 and 3 are the kernel's statuses; others are kept. */
  function ConnectorStatusFromDrm(v: nat): (r: ConnectorStatus)
    ensures r.OtherStatus? <==> !(1 <= v <= 3)
    ensures r.OtherStatus? ==> r.code == v
    ensures r == Connected <==> v == 1
  {
    if v == 1 then Connected
    else if v == 2 then Disconnected
    else if v == 3 then UnknownStatus
    else OtherStatus(v)
  }

  // ---------------------------------------------------------------------
  // Atomic property change list
  // ---------------------------------------------------------------------

  /** One `ObjectChange::change(property, value)` call. */
  datatype PropWrite = PropWrite(prop: nat, value: nat)

  function Sum(s: seq<nat>): nat
  {
    if s == [] then 0 else Sum(s[..|s| - 1]) + s[|s| - 1]
  }

  function Repeat(x: nat, n: nat): (r: seq<nat>)
    ensures |r| == n && forall i :: 0 <= i < n ==> r[i] == x
  {
    seq(n, _ => x)
  }

  /** The object each property write of the flattened lists belongs to. */
  function Owners(objects: seq<nat>, lengths: seq<nat>): (r: seq<nat>)
    requires |objects| == |lengths|
    ensures |r| == Sum(lengths)
    decreases |objects|
  {
    if objects == [] then []
    else Owners(objects[..|objects| - 1], lengths[..|lengths| - 1])
         + Repeat(objects[|objects| - 1], lengths[|lengths| - 1])
  }

  function PropsOf(ws: seq<PropWrite>): (r: seq<nat>)
    ensures |r| == |ws| && forall i :: 0 <= i < |ws| ==> r[i] == ws[i].prop
  {
    seq(|ws|, i requires 0 <= i < |ws| => ws[i].prop)
  }

  function ValuesOf(ws: seq<PropWrite>): (r: seq<nat>)
    ensures |r| == |ws| && forall i :: 0 <= i < |ws| ==> r[i] == ws[i].value
  {
    seq(|ws|, i requires 0 <= i < |ws| => ws[i].value)
  }

  /** Appending a new object with `n` writes appends `n` owners. */
  lemma OwnersPush(objects: seq<nat>, lengths: seq<nat>, obj: nat, n: nat)
    requires |objects| == |lengths|
    ensures Owners(objects + [obj], lengths + [n]) == Owners(objects, lengths) + Repeat(obj, n)
  {
    assert (objects + [obj])[..|objects|] == objects;
    assert (lengths + [n])[..|lengths|] == lengths;
  }

  /** Growing the last object's count by `n` appends `n` owners, all that object. */
  lemma OwnersGrowLast(objects: seq<nat>, lengths: seq<nat>, n: nat)
    requires |objects| == |lengths| > 0
    ensures var k := |lengths| - 1;
            Owners(objects, lengths[k := lengths[k] + n])
            == Owners(objects, lengths) + Repeat(objects[k], n)
  {
    var k := |lengths| - 1;
    var grown := lengths[k := lengths[k] + n];
    assert grown[..k] == lengths[..k];
    assert Repeat(objects[k], lengths[k] + n) == Repeat(objects[k], lengths[k]) + Repeat(objects[k], n);
  }

  lemma SumGrowLast(lengths: seq<nat>, n: nat)
    requires |lengths| > 0
    ensures Sum(lengths[|lengths| - 1 := lengths[|lengths| - 1] + n]) == Sum(lengths) + n
  {
    var k := |lengths| - 1;
    assert lengths[k := lengths[k] + n][..k] == lengths[..k];
  }

  lemma SumPush(lengths: seq<nat>, n: nat)
    ensures Sum(lengths + [n]) == Sum(lengths) + n
  {
    assert (lengths + [n])[..|lengths|] == lengths;
  }

  /**
   * The shape `mode_atomic` asserts of a change list: one count per object,
   * one value per property, the counts adding up to the properties; in
   * addition no object appears with a count of zero or twice in a row.
   */
  ghost predicate WellFormedChange(objects: seq<nat>, lengths: seq<nat>, props: seq<nat>, values: seq<nat>)
  {
    && |objects| == |lengths|
    && |props| == |values|
    && Sum(lengths) == |props|
    && (forall i :: 0 <= i < |lengths| ==> lengths[i] > 0)
    && (forall i :: 0 <= i < |objects| - 1 ==> objects[i] != objects[i + 1])
  }

  /** `Change`: the property writes of one atomic commit, grouped by object. */
  class Change {
    var objects: seq<nat>
    var objectLengths: seq<nat>
    var props: seq<nat>
    var values: seq<nat>

    ghost predicate Valid()
      reads this
    {
      WellFormedChange(objects, objectLengths, props, values)
    }

    /** The object of each recorded property write. */
    ghost function Targets(): seq<nat>
      reads this
      requires Valid()
    {
      Owners(objects, objectLengths)
    }

    constructor ()
      ensures Valid()
      ensures objects == [] && objectLengths == [] && props == [] && values == []
    {
      objects, objectLengths, props, values := [], [], [], [];
    }

    /** `ObjectChange::change`: record one property write. */
    method Write(w: PropWrite)
      modifies this`props, this`values
      ensures props == old(props) + [w.prop] && values == old(values) + [w.value]
    {
      props := props + [w.prop];
      values := values + [w.value];
    }

    /**
     * `change_object(obj, f)` where `f` performs the writes `ws`: the writes
     * are appended; they are counted for `obj`, joining the last group when
     * it belongs to `obj`; an object without writes is not recorded.
     */
    method ChangeObject(obj: nat, ws: seq<PropWrite>)
      requires Valid()
      modifies this`objects, this`objectLengths, this`props, this`values
      ensures Valid()
      ensures props == old(props) + PropsOf(ws) && values == old(values) + ValuesOf(ws)
      ensures Targets() == old(Targets()) + Repeat(obj, |ws|)
      ensures ws == [] ==> objects == old(objects) && objectLengths == old(objectLengths)
      ensures ws != [] && old(objects) != [] && old(objects)[|old(objects)| - 1] == obj
              ==> objects == old(objects)
      ensures ws != [] && (old(objects) == [] || old(objects)[|old(objects)| - 1] != obj)
              ==> objects == old(objects) + [obj] && objectLengths == old(objectLengths) + [|ws|]
    {
      var oldLen := |props|;
      WriteAll(ws);
      if |props| > oldLen {
        Record(obj, |props| - oldLen);
      }
    }

    /** The closure passed to `change_object`: perform the writes in order. */
    method WriteAll(ws: seq<PropWrite>)
      modifies this`props, this`values
      ensures props == old(props) + PropsOf(ws) && values == old(values) + ValuesOf(ws)
    {
      var i := 0;
      while i < |ws|
        invariant 0 <= i <= |ws|
        invariant props == old(props) + PropsOf(ws)[..i]
        invariant values == old(values) + ValuesOf(ws)[..i]
      {
        assert PropsOf(ws)[..i + 1] == PropsOf(ws)[..i] + [ws[i].prop];
        assert ValuesOf(ws)[..i + 1] == ValuesOf(ws)[..i] + [ws[i].value];
        Write(ws[i]);
        i := i + 1;
      }
      assert PropsOf(ws)[..|ws|] == PropsOf(ws);
      assert ValuesOf(ws)[..|ws|] == ValuesOf(ws);
    }

    /** Count `added` new writes for `obj`, joining the last group when it is `obj`'s. */
    method Record(obj: nat, added: nat)
      requires added > 0 && |props| >= added && |values| >= added
      requires WellFormedChange(objects, objectLengths, props[..|props| - added], values[..|values| - added])
      modifies this`objects, this`objectLengths
      ensures Valid()
      ensures Owners(objects, objectLengths) == Owners(old(objects), old(objectLengths)) + Repeat(obj, added)
      ensures old(objects) != [] && old(objects)[|old(objects)| - 1] == obj ==> objects == old(objects)
      ensures (old(objects) == [] || old(objects)[|old(objects)| - 1] != obj)
              ==> objects == old(objects) + [obj] && objectLengths == old(objectLengths) + [added]
    {
      if objects != [] && objects[|objects| - 1] == obj {
        var k := |objectLengths| - 1;
        OwnersGrowLast(objects, objectLengths, added);
        SumGrowLast(objectLengths, added);
        objectLengths := objectLengths[k := objectLengths[k] + added];
      } else {
        OwnersPush(objects, objectLengths, obj, added);
        SumPush(objectLengths, added);
        objects := objects + [obj];
        objectLengths := objectLengths + [added];
      }
    }
  }

  // ---------------------------------------------------------------------
  // IN_FORMATS blob
  // ---------------------------------------------------------------------

  /** `FORMAT_BLOB_CURRENT` */
  const FORMAT_BLOB_CURRENT: nat := 1
  /** `size_of::<drm_format_modifier_blob>()` */
  const HEADER_SIZE: nat := 24
  /** `size_of::<drm_format_modifier>()` */
  const MODIFIER_SIZE: nat := 24
  /** usize is 64 bits wide. */
  const USIZE_MOD: nat := 0x1_0000_0000_0000_0000

  /** `InFormat`: a format and the modifiers it supports, in insertion order, without repeats. */
  datatype InFormat = InFormat(format: nat, modifiers: seq<nat>)

  /** `drm_format_modifier`: a modifier for 64 formats starting at `offset`. */
  datatype FormatModifier = FormatModifier(formats: nat, offset: nat, modifier: nat)

  datatype BlobHeader = BlobHeader(
    version: nat, countFormats: nat, formatsOffset: nat,
    countModifiers: nat, modifiersOffset: nat)

  function ReadHeader(blob: seq<Byte>): BlobHeader
    requires |blob| >= HEADER_SIZE
  {
    BlobHeader(LeU32(blob, 0), LeU32(blob, 8), LeU32(blob, 12), LeU32(blob, 16), LeU32(blob, 20))
  }

  /** The end of a range: `start.wrapping_add(count.wrapping_mul(size))` on usize. */
  function RangeEnd(start: nat, count: nat, size: nat): nat
  {
    (start + (count * size) % USIZE_MOD) % USIZE_MOD
  }

  /** Whether a range lies inside the blob and did not wrap around. */
  predicate RangeFits(blobLen: nat, start: nat, count: nat, size: nat)
  {
    var end := RangeEnd(start, count, size);
    !(blobLen < end || end < start)
  }

  /** With u32 starts and counts, 64-bit ranges never wrap: only the blob length can reject them. */
  lemma RangeNeverWraps(start: nat, count: nat, size: nat)
    requires IsU32(start) && IsU32(count) && 0 < size <= 24
    ensures RangeEnd(start, count, size) == start + count * size
  {
    assert count * size <= U32_MAX * 24;
  }

  function ReadFormatCodes(blob: seq<Byte>, start: nat, count: nat): (r: seq<InFormat>)
    requires start + count * 4 <= |blob|
    ensures |r| == count && forall i :: 0 <= i < count ==> r[i].modifiers == []
  {
    seq(count, i requires 0 <= i < count => InFormat(LeU32(blob, start + i * 4), []))
  }

  function ReadModifiers(blob: seq<Byte>, start: nat, count: nat): (r: seq<FormatModifier>)
    requires start + count * MODIFIER_SIZE <= |blob|
    ensures |r| == count
  {
    seq(count, j requires 0 <= j < count =>
      FormatModifier(LeU64(blob, start + j * 24), LeU32(blob, start + j * 24 + 8),
                     LeU64(blob, start + j * 24 + 16)))
  }

  /** The positions of the set bits of `n`, lowest first, counted from `base`. */
  function BitsFrom(n: nat, base: nat): seq<nat>
    decreases n
  {
    if n == 0 then []
    else (if n % 2 == 1 then [base] else []) + BitsFrom(n / 2, base + 1)
  }

  function Bits(n: nat): seq<nat> { BitsFrom(n, 0) }

  function Pow2(k: nat): (r: nat)
    ensures r >= 1
  {
    if k == 0 then 1 else 2 * Pow2(k - 1)
  }

  /** `trailing_zeros` of a non-zero integer. */
  function TrailingZeros(n: nat): (r: nat)
    requires n > 0
    ensures Pow2(r) <= n
    decreases n
  {
    if n % 2 == 1 then 0 else 1 + TrailingZeros(n / 2)
  }

  /** `TrailingZeros(n)` counts the low zero bits of `n`: `2^r` divides `n` and the quotient is odd. */
  lemma {:induction false} TrailingZerosMeaning(n: nat)
    requires n > 0
    ensures var r := TrailingZeros(n); n % Pow2(r) == 0 && (n / Pow2(r)) % 2 == 1
    decreases n
  {
    if n % 2 == 0 {
      var t := TrailingZeros(n / 2);
      TrailingZerosMeaning(n / 2);
      assert n == 2 * (n / 2);
      DivByDouble(n / 2, Pow2(t));
    }
  }

  lemma DivByDouble(m: nat, p: nat)
    requires p >= 1 && m % p == 0
    ensures (2 * m) % (2 * p) == 0 && (2 * m) / (2 * p) == m / p
  {
    var q := m / p;
    assert m == p * q;
    assert 2 * m == (2 * p) * q;
    DivUnique(2 * m, 2 * p, q, 0);
  }

  /**
   * Clearing the lowest set bit (`indices &= !(1 << idx)`) removes the
   * first position from the list of set bits.
   */
  lemma {:induction false} ClearLowestBit(n: nat, base: nat)
    requires n > 0
    ensures BitsFrom(n, base) == [base + TrailingZeros(n)] + BitsFrom(n - Pow2(TrailingZeros(n)), base)
    decreases n
  {
    if n % 2 == 1 {
      assert (n - 1) / 2 == n / 2;
      if n - 1 != 0 {
        assert BitsFrom(n - 1, base) == [] + BitsFrom((n - 1) / 2, base + 1);
      }
    } else {
      var h := n / 2;
      var t := TrailingZeros(h);
      assert TrailingZeros(n) == 1 + t;
      ClearLowestBit(h, base + 1);
      var k := h - Pow2(t);
      assert n - Pow2(1 + t) == 2 * k;
      if k != 0 {
        assert BitsFrom(2 * k, base) == [] + BitsFrom(k, base + 1);
      }
    }
  }

  /** `IndexSet::insert`: add at the end unless present. */
  function Insert(s: seq<nat>, x: nat): (r: seq<nat>)
    ensures forall y :: y in r <==> y in s || y == x
  {
    if x in s then s else s + [x]
  }

  /** Add `modifier` to the formats at `offset` plus each bit position, failing at the first out of range. */
  function ApplyBits(fs: seq<InFormat>, bits: seq<nat>, offset: nat, modifier: nat): Result<seq<InFormat>, DrmError>
    decreases |bits|
  {
    if bits == [] then Ok(fs)
    else
      var idx := bits[0] + offset;
      if idx >= |fs| then Err(InFormats)
      else ApplyBits(fs[idx := fs[idx].(modifiers := Insert(fs[idx].modifiers, modifier))],
                     bits[1..], offset, modifier)
  }

  function ApplyModifiers(fs: seq<InFormat>, mods: seq<FormatModifier>): Result<seq<InFormat>, DrmError>
    decreases |mods|
  {
    if mods == [] then Ok(fs)
    else
      match ApplyBits(fs, Bits(mods[0].formats), mods[0].offset, mods[0].modifier)
      case Err(e) => Err(e)
      case Ok(fs') => ApplyModifiers(fs', mods[1..])
  }

  /** `get_in_formats` on the bytes of the property blob. */
  function InFormatsOf(blob: seq<Byte>): Result<seq<InFormat>, DrmError>
  {
    if |blob| < HEADER_SIZE then Err(InFormats)
    else
      var h := ReadHeader(blob);
      if h.version != FORMAT_BLOB_CURRENT then Err(InFormats)
      else if !RangeFits(|blob|, h.formatsOffset, h.countFormats, 4) then Err(InFormats)
      else if !RangeFits(|blob|, h.modifiersOffset, h.countModifiers, MODIFIER_SIZE) then Err(InFormats)
      else
        RangeNeverWraps(h.formatsOffset, h.countFormats, 4);
        RangeNeverWraps(h.modifiersOffset, h.countModifiers, MODIFIER_SIZE);
        ApplyModifiers(ReadFormatCodes(blob, h.formatsOffset, h.countFormats),
                       ReadModifiers(blob, h.modifiersOffset, h.countModifiers))
  }

  /** Some set bit of some modifier, plus its offset, names format `i` for modifier `m`. */
  ghost predicate Names(mods: seq<FormatModifier>, i: nat, m: nat)
  {
    exists j, b :: 0 <= j < |mods| && b in Bits(mods[j].formats)
                   && b + mods[j].offset == i && mods[j].modifier == m
  }

  /** Every set bit of every modifier, plus its offset, names an existing format. */
  ghost predicate InRange(mods: seq<FormatModifier>, count: nat)
  {
    forall j, b :: 0 <= j < |mods| && b in Bits(mods[j].formats) ==> b + mods[j].offset < count
  }

  lemma {:induction false} ApplyBitsMeaning(fs: seq<InFormat>, bits: seq<nat>, offset: nat, modifier: nat)
    ensures ApplyBits(fs, bits, offset, modifier).Ok? <==> forall b :: b in bits ==> b + offset < |fs|
    ensures ApplyBits(fs, bits, offset, modifier).Ok? ==>
      var r := ApplyBits(fs, bits, offset, modifier).value;
      && |r| == |fs|
      && (forall i :: 0 <= i < |fs| ==> r[i].format == fs[i].format)
      && (forall i, m :: 0 <= i < |fs| ==>
            (m in r[i].modifiers <==> m in fs[i].modifiers || (m == modifier && i - offset in bits)))
    decreases |bits|
  {
    if bits != [] {
      var idx := bits[0] + offset;
      assert bits[0] in bits;
      if idx < |fs| {
        var fs' := fs[idx := fs[idx].(modifiers := Insert(fs[idx].modifiers, modifier))];
        assert |fs'| == |fs|;
        ApplyBitsMeaning(fs', bits[1..], offset, modifier);
        assert forall b :: b in bits <==> b == bits[0] || b in bits[1..];
      }
    }
  }

  lemma {:induction false} ApplyModifiersOk(fs: seq<InFormat>, mods: seq<FormatModifier>)
    ensures ApplyModifiers(fs, mods).Ok? <==> InRange(mods, |fs|)
    ensures ApplyModifiers(fs, mods).Ok? ==>
      var r := ApplyModifiers(fs, mods).value;
      && |r| == |fs|
      && (forall i :: 0 <= i < |fs| ==> r[i].format == fs[i].format)
    decreases |mods|
  {
    if mods != [] {
      var m0 := mods[0];
      ApplyBitsMeaning(fs, Bits(m0.formats), m0.offset, m0.modifier);
      var step := ApplyBits(fs, Bits(m0.formats), m0.offset, m0.modifier);
      InRangeSplit(mods, |fs|);
      if step.Ok? {
        ApplyModifiersOk(step.value, mods[1..]);
      }
    }
  }

  lemma {:induction false} ApplyModifiersMembers(fs: seq<InFormat>, mods: seq<FormatModifier>)
    requires ApplyModifiers(fs, mods).Ok?
    ensures |ApplyModifiers(fs, mods).value| == |fs|
    ensures forall i, m :: 0 <= i < |fs| ==>
      (m in ApplyModifiers(fs, mods).value[i].modifiers <==> m in fs[i].modifiers || Names(mods, i, m))
    decreases |mods|
  {
    ApplyModifiersOk(fs, mods);
    if mods != [] {
      var m0 := mods[0];
      ApplyBitsMeaning(fs, Bits(m0.formats), m0.offset, m0.modifier);
      var fs' := ApplyBits(fs, Bits(m0.formats), m0.offset, m0.modifier).value;
      ApplyModifiersMembers(fs', mods[1..]);
      var r := ApplyModifiers(fs, mods).value;
      assert r == ApplyModifiers(fs', mods[1..]).value;
      forall i, m | 0 <= i < |fs|
        ensures m in r[i].modifiers <==> m in fs[i].modifiers || Names(mods, i, m)
      {
        assert m in r[i].modifiers <==> m in fs'[i].modifiers || Names(mods[1..], i, m);
        assert m in fs'[i].modifiers <==> m in fs[i].modifiers || (m == m0.modifier && i - m0.offset in Bits(m0.formats));
        NamesSplit(mods, i, m);
      }
    }
  }

  lemma InRangeSplit(mods: seq<FormatModifier>, count: nat)
    requires mods != []
    ensures InRange(mods, count) <==>
      (forall b :: b in Bits(mods[0].formats) ==> b + mods[0].offset < count) && InRange(mods[1..], count)
  {
    if (forall b :: b in Bits(mods[0].formats) ==> b + mods[0].offset < count) && InRange(mods[1..], count) {
      forall j, b | 0 <= j < |mods| && b in Bits(mods[j].formats)
        ensures b + mods[j].offset < count
      {
        if j > 0 {
          assert mods[1..][j - 1] == mods[j];
        }
      }
    }
  }

  lemma NamesSplit(mods: seq<FormatModifier>, i: nat, m: nat)
    requires mods != []
    ensures Names(mods, i, m) <==>
      (m == mods[0].modifier && i - mods[0].offset in Bits(mods[0].formats)) || Names(mods[1..], i, m)
  {
    if Names(mods, i, m) {
      var j, b :| 0 <= j < |mods| && b in Bits(mods[j].formats) && b + mods[j].offset == i && mods[j].modifier == m;
      if j > 0 {
        assert mods[1..][j - 1] == mods[j];
      }
    }
    if m == mods[0].modifier && i - mods[0].offset in Bits(mods[0].formats) {
      var b := i - mods[0].offset;
      assert b >= 0 ==> (0 < |mods| && b in Bits(mods[0].formats) && b + mods[0].offset == i);
      BitsNonNegative(mods[0].formats, 0);
    }
    if Names(mods[1..], i, m) {
      var j, b :| 0 <= j < |mods[1..]| && b in Bits(mods[1..][j].formats) && b + mods[1..][j].offset == i && mods[1..][j].modifier == m;
      assert mods[j + 1] == mods[1..][j];
    }
  }

  lemma {:induction false} BitsNonNegative(n: nat, base: nat)
    ensures forall b :: b in BitsFrom(n, base) ==> b >= base
    decreases n
  {
    if n != 0 {
      BitsNonNegative(n / 2, base + 1);
    }
  }

  /**
   * `get_in_formats` accepts a blob exactly when its header fits and has the
   * current version, both ranges fit inside the blob and every set bit of
   * every modifier, plus its offset, names one of the formats. Then there is
   * one entry per format code, in order, and a format supports exactly the
   * modifiers whose bits name it.
   */
  lemma InFormatsMeaning(blob: seq<Byte>)
    ensures InFormatsOf(blob).Ok? <==>
      && |blob| >= HEADER_SIZE
      && ReadHeader(blob).version == FORMAT_BLOB_CURRENT
      && ReadHeader(blob).formatsOffset + ReadHeader(blob).countFormats * 4 <= |blob|
      && ReadHeader(blob).modifiersOffset + ReadHeader(blob).countModifiers * MODIFIER_SIZE <= |blob|
      && InRange(ReadModifiers(blob, ReadHeader(blob).modifiersOffset, ReadHeader(blob).countModifiers),
                 ReadHeader(blob).countFormats)
    ensures InFormatsOf(blob).Ok? ==>
      var h := ReadHeader(blob);
      var r := InFormatsOf(blob).value;
      var mods := ReadModifiers(blob, h.modifiersOffset, h.countModifiers);
      && |r| == h.countFormats
      && (forall i :: 0 <= i < |r| ==> r[i].format == LeU32(blob, h.formatsOffset + i * 4))
      && (forall i, m :: 0 <= i < |r| ==> (m in r[i].modifiers <==> Names(mods, i, m)))
  {
    if |blob| >= HEADER_SIZE {
      var h := ReadHeader(blob);
      RangeNeverWraps(h.formatsOffset, h.countFormats, 4);
      RangeNeverWraps(h.modifiersOffset, h.countModifiers, MODIFIER_SIZE);
      if h.version == FORMAT_BLOB_CURRENT
         && h.formatsOffset + h.countFormats * 4 <= |blob|
         && h.modifiersOffset + h.countModifiers * MODIFIER_SIZE <= |blob| {
        var fs := ReadFormatCodes(blob, h.formatsOffset, h.countFormats);
        var mods := ReadModifiers(blob, h.modifiersOffset, h.countModifiers);
        ApplyModifiersOk(fs, mods);
        if ApplyModifiers(fs, mods).Ok? {
          ApplyModifiersMembers(fs, mods);
        }
      }
    }
  }

  /**
   * `get_in_formats`: validate the header and ranges, then for every
   * modifier walk the set bits of its format mask, lowest first, clearing
   * each one, and add the modifier to the format it names.
   */
  method GetInFormats(blob: seq<Byte>) returns (r: Result<seq<InFormat>, DrmError>)
    ensures r == InFormatsOf(blob)
  {
    if |blob| < HEADER_SIZE {
      return Err(InFormats);
    }
    var h := ReadHeader(blob);
    if h.version != FORMAT_BLOB_CURRENT {
      return Err(InFormats);
    }
    var formatsEnd := RangeEnd(h.formatsOffset, h.countFormats, 4);
    if |blob| < formatsEnd || formatsEnd < h.formatsOffset {
      return Err(InFormats);
    }
    var modifiersEnd := RangeEnd(h.modifiersOffset, h.countModifiers, MODIFIER_SIZE);
    if |blob| < modifiersEnd || modifiersEnd < h.modifiersOffset {
      return Err(InFormats);
    }
    RangeNeverWraps(h.formatsOffset, h.countFormats, 4);
    RangeNeverWraps(h.modifiersOffset, h.countModifiers, MODIFIER_SIZE);
    r := AddModifiers(ReadFormatCodes(blob, h.formatsOffset, h.countFormats),
                      ReadModifiers(blob, h.modifiersOffset, h.countModifiers));
  }

  /** The loop over the modifiers of the blob. */
  method AddModifiers(formats0: seq<InFormat>, mods: seq<FormatModifier>) returns (r: Result<seq<InFormat>, DrmError>)
    ensures r == ApplyModifiers(formats0, mods)
  {
    var formats := formats0;
    var j := 0;
    while j < |mods|
      invariant 0 <= j <= |mods|
      invariant ApplyModifiers(formats0, mods) == ApplyModifiers(formats, mods[j..])
    {
      assert mods[j..][1..] == mods[j + 1..];
      var step := AddModifier(formats, mods[j]);
      if step.Err? {
        return step;
      }
      formats := step.value;
      j := j + 1;
    }
    assert mods[j..] == [];
    return Ok(formats);
  }

  /** The set bits of `n`: its lowest one first, then those of `n` with the lowest one cleared. */
  lemma NextBit(n: nat)
    requires n > 0
    ensures var b := Bits(n); |b| > 0 && b[0] == TrailingZeros(n) && b[1..] == Bits(n - Pow2(TrailingZeros(n)))
  {
    ClearLowestBit(n, 0);
  }

  /** One iteration of the loop of `AddModifier`, on the lowest set bit of `n`. */
  lemma AddModifierStep(fs: seq<InFormat>, n: nat, offset: nat, modifier: nat)
    requires n > 0
    ensures var i := TrailingZeros(n) + offset;
      ApplyBits(fs, Bits(n), offset, modifier)
      == if i >= |fs| then Err(InFormats)
         else ApplyBits(fs[i := fs[i].(modifiers := Insert(fs[i].modifiers, modifier))],
                        Bits(n - Pow2(TrailingZeros(n))), offset, modifier)
  {
    NextBit(n);
  }

  /** The loop over the set bits of one modifier's format mask, clearing the lowest each time. */
  method AddModifier(formats0: seq<InFormat>, m: FormatModifier) returns (r: Result<seq<InFormat>, DrmError>)
    ensures r == ApplyBits(formats0, Bits(m.formats), m.offset, m.modifier)
  {
    var formats := formats0;
    var indices: nat := m.formats;
    while indices != 0
      invariant ApplyBits(formats0, Bits(m.formats), m.offset, m.modifier)
                == ApplyBits(formats, Bits(indices), m.offset, m.modifier)
      decreases indices
    {
      var idx := TrailingZeros(indices);
      var rest := indices - Pow2(idx);
      var i := idx + m.offset;
      AddModifierStep(formats, indices, m.offset, m.modifier);
      if i >= |formats| {
        return Err(InFormats);
      }
      formats := formats[i := formats[i].(modifiers := Insert(formats[i].modifiers, m.modifier))];
      indices := rest;
    }
    return Ok(formats);
  }

  // ---------------------------------------------------------------------
  // Events
  // ---------------------------------------------------------------------

  const DRM_EVENT_FLIP_COMPLETE: nat := 2
  const DRM_EVENT_CRTC_SEQUENCE: nat := 3
  /** `size_of::<drm_event>()` */
  const EVENT_HEADER_SIZE: nat := 8
  /** `size_of::<drm_event_vblank>()` and `size_of::<drm_event_crtc_sequence>()` */
  const EVENT_BODY_SIZE: nat := 32

  datatype DrmEvent =
    | FlipComplete(tvSec: nat, tvUsec: nat, sequence: nat, crtcId: nat)
    | Sequence(timeNs: int, sequence: nat, crtcId: nat)

  /**
   * The event encoded at the front of `buf`, if its type is one the
   * backend listens to; other types are skipped. The structure is read
   * from the front of the remaining bytes whatever the header's length.
   */
  function DecodeEvent(buf: seq<Byte>): Result<Option<DrmEvent>, DrmError>
    requires |buf| >= EVENT_HEADER_SIZE
  {
    var ty := LeU32(buf, 0);
    if ty == DRM_EVENT_FLIP_COMPLETE then
      if |buf| < EVENT_BODY_SIZE then Err(InvalidRead)
      else Ok(Some(FlipComplete(LeU32(buf, 16), LeU32(buf, 20), LeU32(buf, 24), LeU32(buf, 28))))
    else if ty == DRM_EVENT_CRTC_SEQUENCE then
      if |buf| < EVENT_BODY_SIZE then Err(InvalidRead)
      else Ok(Some(Sequence(U64AsI64(LeU64(buf, 16)), LeU64(buf, 24), LeU64(buf, 8) % 0x1_0000_0000)))
    else Ok(None)
  }

  /** What one iteration of the read loop of `event` does with the remaining bytes. */
  datatype EventStep = StepFailed(error: DrmError) | Stepped(event: Option<DrmEvent>, rest: seq<Byte>)

  /**
   * One iteration of the read loop as the source writes it: a header of
   * length 0 is accepted and leaves the remaining bytes as they were.
   */
  function EventStepAsWritten(buf: seq<Byte>): EventStep
    requires |buf| > 0
  {
    if |buf| < EVENT_HEADER_SIZE then StepFailed(InvalidRead)
    else
      var len := LeU32(buf, 4);
      if len > |buf| then StepFailed(InvalidRead)
      else match DecodeEvent(buf)
        case Err(e) => StepFailed(e)
        case Ok(ev) => Stepped(ev, buf[len..])
  }

  /**
   * A single event header of an unknown type with length 0 makes no
   * progress, so `while buf.len() > 0` never ends.
   */
  lemma ZeroLengthEventLoopsForever()
    ensures var buf: seq<Byte> := [0, 0, 0, 0, 0, 0, 0, 0];
            EventStepAsWritten(buf) == Stepped(None, buf)
  {
    var buf: seq<Byte> := [0, 0, 0, 0, 0, 0, 0, 0];
    assert buf[0..] == buf;
  }

  /** One iteration of the read loop, rejecting a header of length 0 like an overlong one. */
  function EventStepOf(buf: seq<Byte>): (r: EventStep)
    requires |buf| > 0
    ensures r.Stepped? ==> |r.rest| < |buf|
    ensures r.Stepped? ==> r == EventStepAsWritten(buf)
  {
    if |buf| < EVENT_HEADER_SIZE then StepFailed(InvalidRead)
    else
      var len := LeU32(buf, 4);
      if len == 0 || len > |buf| then StepFailed(InvalidRead)
      else match DecodeEvent(buf)
        case Err(e) => StepFailed(e)
        case Ok(ev) => Stepped(ev, buf[len..])
  }

  /** The events decoded from a read, in order, and the error that stopped decoding, if any. */
  function ParseEvents(buf: seq<Byte>): (seq<DrmEvent>, Option<DrmError>)
    decreases |buf|
  {
    if buf == [] then ([], None)
    else match EventStepOf(buf)
      case StepFailed(e) => ([], Some(e))
      case Stepped(ev, rest) =>
        var tail := ParseEvents(rest);
        ((if ev.Some? then [ev.value] else []) + tail.0, tail.1)
  }

  /** Every decoding failure of the event buffer is `InvalidRead`. */
  lemma {:induction false} ParseEventsFailsOnlyOnBadRead(buf: seq<Byte>)
    ensures ParseEvents(buf).1.Some? ==> ParseEvents(buf).1 == Some(InvalidRead)
    decreases |buf|
  {
    if buf != [] {
      match EventStepOf(buf)
      case StepFailed(e) =>
      case Stepped(ev, rest) => ParseEventsFailsOnlyOnBadRead(rest);
    }
  }

  /** The device's queue of decoded events (`Drm::events`). */
  class EventQueue {
    var events: seq<DrmEvent>

    constructor ()
      ensures events == []
    {
      events := [];
    }

    /**
     * `event`: with no queued event, read the device (`read` is the result
     * of that read) and queue every event decoded from it; then hand out the
     * oldest queued event, first in first out. A decoding error is reported,
     * keeping the events decoded before it.
     */
    method Event(read: Result<seq<Byte>, nat>) returns (r: Result<Option<DrmEvent>, DrmError>)
      modifies this
      ensures old(events) != [] ==> r == Ok(Some(old(events)[0])) && events == old(events)[1..]
      ensures old(events) == [] && read.Err? ==> r == Err(ReadEvents(read.error)) && events == []
      ensures old(events) == [] && read.Ok? ==>
        var (parsed, err) := ParseEvents(read.value);
        if err.Some? then r == Err(err.value) && events == parsed
        else if parsed == [] then r == Ok(None) && events == []
        else r == Ok(Some(parsed[0])) && events == parsed[1..]
      ensures r.Ok? && r.value.Some? ==> [r.value.value] + events == (if old(events) != [] then old(events) else ParseEvents(read.value).0)
    {
      if events == [] {
        if read.Err? {
          return Err(ReadEvents(read.error));
        }
        var buf := read.value;
        ghost var goal := ParseEvents(buf);
        assert events + ParseEvents(buf).0 == ParseEvents(buf).0;
        while |buf| > 0
          invariant goal == (events + ParseEvents(buf).0, ParseEvents(buf).1)
          decreases |buf|
        {
          var step := EventStepOf(buf);
          if step.StepFailed? {
            assert ParseEvents(buf) == ([], Some(step.error));
            assert events + [] == events;
            return Err(step.error);
          }
          var tail := ParseEvents(step.rest);
          var found := if step.event.Some? then [step.event.value] else [];
          assert ParseEvents(buf) == (found + tail.0, tail.1);
          assert events + (found + tail.0) == (events + found) + tail.0;
          events := events + found;
          buf := step.rest;
        }
        assert ParseEvents(buf) == ([], None);
        assert events + [] == events;
      }
      if events == [] {
        return Ok(None);
      }
      var first := events[0];
      events := events[1..];
      return Ok(Some(first));
    }
  }

  // ---------------------------------------------------------------------
  // Leases and GEM handles
  // ---------------------------------------------------------------------

  /** `DrmLease`: a lease handed to a client, revoked at most once. */
  class DrmLease {
    var revoked: bool

    constructor ()
      ensures !revoked
    {
      revoked := false;
    }

    /**
     * `try_revoke`, where `revokeOk` is whether the kernel accepts the
     * revocation: once revoked, every later call reports success without
     * asking the kernel again.
     */
    method TryRevoke(revokeOk: bool) returns (r: bool)
      modifies this`revoked
      ensures old(revoked) ==> r && revoked
      ensures !old(revoked) ==> r == revokeOk && revoked == revokeOk
    {
      if revoked {
        return true;
      }
      if revokeOk {
        revoked := true;
        return true;
      }
      return false;
    }
  }

  /**
   * The GEM handle cache of a `DrmMaster`: kernel handle to the weakly held
   * `GemHandle` object, objects named by allocation number.
   */
  class GemHandles {
    var handles: map<nat, nat>
    var nextObject: nat

    ghost predicate Valid()
      reads this
    {
      forall h :: h in handles ==> handles[h] < nextObject
    }

    constructor ()
      ensures Valid() && handles == map[]
    {
      handles := map[];
      nextObject := 0;
    }

    /**
     * `gem_handle`: `prime` is the kernel's answer to importing the buffer
     * (a handle, or an errno) and `live` the objects still referenced. A
     * known handle whose object is live is returned as it is; otherwise a
     * new object, distinct from every object the cache ever named, is
     * created and remembered.
     */
    method GemHandle(prime: Result<nat, nat>, live: set<nat>) returns (r: Result<nat, DrmError>)
      requires Valid()
      modifies this
      ensures Valid()
      ensures prime.Err? ==> (r == Err(GemHandleError(prime.error))
                              && handles == old(handles) && nextObject == old(nextObject))
      ensures prime.Ok? && prime.value in old(handles) && old(handles)[prime.value] in live
              ==> r == Ok(old(handles)[prime.value]) && handles == old(handles) && nextObject == old(nextObject)
      ensures prime.Ok? && !(prime.value in old(handles) && old(handles)[prime.value] in live)
              ==> r == Ok(old(nextObject)) && handles == old(handles)[prime.value := old(nextObject)]
                  && nextObject == old(nextObject) + 1
      ensures prime.Ok? ==> r.Ok? && prime.value in handles && handles[prime.value] == r.value
    {
      if prime.Err? {
        return Err(GemHandleError(prime.error));
      }
      var h := prime.value;
      if h in handles && handles[h] in live {
        return Ok(handles[h]);
      }
      var obj := nextObject;
      nextObject := nextObject + 1;
      handles := handles[h := obj];
      return Ok(obj);
    }
  }
}
