/**
 * Choices `VulkanDevice` makes from the physical-device properties: the
 * memory type for an allocation, the graphics and transfer queue
 * families, the transfer granularity and offset masks, the queue index of
 * the transfer queue, and the device-lost flag.
 */
module VulkanDevice {
  import opened Wrappers
  import opened MachineInt

  /** `VkMemoryPropertyFlags` and `VkQueueFlags` as bit sets. */
  type Flags = bv32

  const GRAPHICS: Flags := 0x1
  const COMPUTE: Flags := 0x2
  const TRANSFER: Flags := 0x4

  /** `contains`: every flag of `wanted` is set in `flags`. */
  predicate Has(flags: Flags, wanted: Flags) {
    flags & wanted == wanted
  }

  predicate Intersects(flags: Flags, other: Flags) {
    flags & other != 0
  }

  /** Bit `idx` of a 32-bit mask. */
  predicate BitSet(bits: bv32, idx: nat)
    requires idx < 32
  {
    bits & (1 << idx) != 0
  }

  /** Memory type `idx` is allowed by `bits` and has every requested property. */
  predicate Suitable(memoryTypes: seq<Flags>, flags: Flags, bits: bv32, idx: nat)
    requires idx < |memoryTypes| <= 32
  {
    BitSet(bits, idx) && Has(memoryTypes[idx], flags)
  }

  /**
   * `find_memory_type`: the first memory type allowed by `bits` whose
   * properties contain `flags`.  A device has at most 32 memory types.
   */
  method FindMemoryType(memoryTypes: seq<Flags>, flags: Flags, bits: bv32) returns (r: Option<nat>)
    requires |memoryTypes| <= 32
    ensures r.Some? ==> r.value < |memoryTypes| && Suitable(memoryTypes, flags, bits, r.value)
    ensures r.Some? ==> forall j :: 0 <= j < r.value ==> !Suitable(memoryTypes, flags, bits, j)
    ensures r.None? ==> forall j :: 0 <= j < |memoryTypes| ==> !Suitable(memoryTypes, flags, bits, j)
  {
    var idx := 0;
    while idx < |memoryTypes|
      invariant 0 <= idx <= |memoryTypes|
      invariant forall j :: 0 <= j < idx ==> !Suitable(memoryTypes, flags, bits, j)
    {
      if bits & (1 << idx) != 0 {
        if memoryTypes[idx] & flags == flags {
          return Some(idx);
        }
      }
      idx := idx + 1;
    }
    return None;
  }

  datatype VkResult = Success | ErrorDeviceLost | OtherError(code: int)

  /** The `lost` cell of `VulkanDevice`. */
  class DeviceState {
    var lost: bool

    constructor()
      ensures !lost
    {
      lost := false;
    }

    /** The error observer `idl`: a lost device stays lost. */
    method Observe(res: VkResult)
      modifies this
      ensures lost == (old(lost) || res == ErrorDeviceLost)
    {
      if res == ErrorDeviceLost {
        lost := true;
      }
    }
  }

  /** The queue-family properties the queue choice reads. */
  datatype QueueFamilyProps = QueueFamilyProps(
    queueFlags: Flags, queueCount: nat, granularityWidth: nat, granularityHeight: nat)

  /** The first family with graphics support. */
  function FirstGraphics(props: seq<QueueFamilyProps>): (r: Option<nat>)
    ensures r.Some? ==> r.value < |props| && Intersects(props[r.value].queueFlags, GRAPHICS)
                        && Has(props[r.value].queueFlags, GRAPHICS)
    ensures r.Some? ==> forall j :: 0 <= j < r.value ==> !Has(props[j].queueFlags, GRAPHICS)
    ensures r.None? ==> forall j :: 0 <= j < |props| ==> !Has(props[j].queueFlags, GRAPHICS)
    decreases |props|
  {
    if props == [] then None
    else if Has(props[0].queueFlags, GRAPHICS) then Some(0)
    else
      var rest := FirstGraphics(props[1..]);
      if rest.None? then None else Some(rest.value + 1)
  }

  datatype Kind = TransferOnly | ComputeOnly | SeparateGfx | Unsuited

  /** How a family other than the graphics one could serve as transfer queue. */
  function KindOf(f: Flags): Kind {
    if !Intersects(f, GRAPHICS | COMPUTE) && Intersects(f, TRANSFER) then TransferOnly
    else if !Intersects(f, GRAPHICS) && Intersects(f, COMPUTE) then ComputeOnly
    else if Intersects(f, GRAPHICS) then SeparateGfx
    else Unsuited
  }

  /** Family `idx` is a candidate of kind `k`: not the graphics family and with a non-zero granularity. */
  predicate Candidate(props: seq<QueueFamilyProps>, gfx: nat, idx: nat, k: Kind)
    requires idx < |props|
  {
    idx != gfx && props[idx].granularityWidth != 0 && props[idx].granularityHeight != 0
    && KindOf(props[idx].queueFlags) == k
  }

  /** The last candidate of kind `k` among the first `n` families. */
  function LastCandidate(props: seq<QueueFamilyProps>, gfx: nat, k: Kind, n: nat): (r: Option<nat>)
    requires n <= |props|
    ensures r.Some? ==> r.value < n && Candidate(props, gfx, r.value, k)
    ensures r.Some? ==> forall j :: r.value < j < n ==> !Candidate(props, gfx, j, k)
    ensures r.None? ==> forall j :: 0 <= j < n ==> !Candidate(props, gfx, j, k)
  {
    if n == 0 then None
    else if Candidate(props, gfx, n - 1, k) then Some(n - 1)
    else LastCandidate(props, gfx, k, n - 1)
  }

  /** The transfer family the candidates and the graphics family's queue count select. */
  function TransferChoice(props: seq<QueueFamilyProps>, gfx: nat): Option<nat>
    requires gfx < |props|
  {
    var t := LastCandidate(props, gfx, TransferOnly, |props|);
    var c := LastCandidate(props, gfx, ComputeOnly, |props|);
    var s := LastCandidate(props, gfx, SeparateGfx, |props|);
    if t.Some? then t else if c.Some? then c else if s.Some? then s
    else if props[gfx].queueCount > 1 then Some(gfx) else None
  }

  /**
   * The loop of `find_queues` that picks the transfer family: each kind
   * remembers the last candidate seen; a transfer-only family beats a
   * compute-only one, which beats another graphics family, and only then
   * is a second queue of the graphics family used.
   */
  method FindTransferQueue(props: seq<QueueFamilyProps>, gfx: nat) returns (r: Option<nat>)
    requires gfx < |props|
    ensures r == TransferChoice(props, gfx)
  {
    var transferOnly: Option<nat> := None;
    var computeOnly: Option<nat> := None;
    var separateGfx: Option<nat> := None;
    var idx := 0;
    while idx < |props|
      invariant 0 <= idx <= |props|
      invariant transferOnly == LastCandidate(props, gfx, TransferOnly, idx)
      invariant computeOnly == LastCandidate(props, gfx, ComputeOnly, idx)
      invariant separateGfx == LastCandidate(props, gfx, SeparateGfx, idx)
    {
      var p := props[idx];
      if idx != gfx && p.granularityWidth != 0 && p.granularityHeight != 0 {
        var f := p.queueFlags;
        if !Intersects(f, GRAPHICS | COMPUTE) && Intersects(f, TRANSFER) {
          transferOnly := Some(idx);
        } else if !Intersects(f, GRAPHICS) && Intersects(f, COMPUTE) {
          computeOnly := Some(idx);
        } else if Intersects(f, GRAPHICS) {
          separateGfx := Some(idx);
        }
      }
      idx := idx + 1;
    }
    if transferOnly.Some? {
      return transferOnly;
    }
    if computeOnly.Some? {
      return computeOnly;
    }
    if separateGfx.Some? {
      return separateGfx;
    }
    if props[gfx].queueCount > 1 {
      return Some(gfx);
    }
    return None;
  }

  /**
   * What the choice guarantees: another family is a candidate with a
   * non-zero granularity and no candidate of a preferred kind exists; the
   * graphics family is chosen only when it has a second queue and no
   * other family qualifies.
   */
  lemma TransferChoiceMeans(props: seq<QueueFamilyProps>, gfx: nat)
    requires gfx < |props|
    ensures var r := TransferChoice(props, gfx);
            r.Some? && r.value != gfx ==>
              r.value < |props| && props[r.value].granularityWidth != 0
              && props[r.value].granularityHeight != 0
              && KindOf(props[r.value].queueFlags) != Unsuited
              && (KindOf(props[r.value].queueFlags) != TransferOnly ==>
                    forall j :: 0 <= j < |props| ==> !Candidate(props, gfx, j, TransferOnly))
              && (KindOf(props[r.value].queueFlags) == SeparateGfx ==>
                    forall j :: 0 <= j < |props| ==> !Candidate(props, gfx, j, ComputeOnly))
    ensures var r := TransferChoice(props, gfx);
            r == Some(gfx) ==>
              props[gfx].queueCount > 1
              && forall j, k :: 0 <= j < |props| && k != Unsuited ==> !Candidate(props, gfx, j, k)
    ensures var r := TransferChoice(props, gfx);
            r.None? ==> props[gfx].queueCount <= 1
  {
    var r := TransferChoice(props, gfx);
    if r == Some(gfx) {
      forall j, k | 0 <= j < |props| && k != Unsuited ensures !Candidate(props, gfx, j, k) {
        assert LastCandidate(props, gfx, k, |props|).None?;
      }
    }
  }

  datatype QueueError = NoGraphicsQueue

  /**
   * The family choice of `find_queues`: the first graphics family, or
   * `NoGraphicsQueue`, together with the transfer family and its
   * granularity masks.
   */
  method FindQueues(props: seq<QueueFamilyProps>) returns (r: Result<(nat, Option<nat>, (nat, nat)), QueueError>)
    requires forall i :: 0 <= i < |props| ==> IsU32(props[i].granularityWidth) && IsU32(props[i].granularityHeight)
    ensures r.Err? <==> forall j :: 0 <= j < |props| ==> !Has(props[j].queueFlags, GRAPHICS)
    ensures r.Ok? ==> FirstGraphics(props) == Some(r.value.0)
                      && r.value.1 == TransferChoice(props, r.value.0)
                      && r.value.2 == GranularityMasks(props, r.value.1)
  {
    var gfx := FirstGraphics(props);
    if gfx.None? {
      return Err(NoGraphicsQueue);
    }
    var transfer := FindTransferQueue(props, gfx.value);
    TransferChoiceMeans(props, gfx.value);
    var masks := GranularityMasks(props, transfer);
    return Ok((gfx.value, transfer, masks));
  }

  /**
   * The queue index of the transfer queue within its family: the second
   * queue when it shares the graphics family, else the first.  The chosen
   * index always exists.
   */
  function TransferQueueIndex(props: seq<QueueFamilyProps>, gfx: nat, family: nat): (r: nat)
    requires gfx < |props| && TransferChoice(props, gfx) == Some(family)
    ensures r == (if family == gfx then 1 else 0)
    ensures family == gfx ==> r < props[family].queueCount
  {
    TransferChoiceMeans(props, gfx);
    if family == gfx then 1 else 0
  }

  /**
   * The transfer granularity masks `width - 1` and `height - 1` (wrapping),
   * zero when there is no transfer queue.  For a power-of-two granularity
   * the mask is its low bits.
   */
  function GranularityMasks(props: seq<QueueFamilyProps>, transfer: Option<nat>): (r: (nat, nat))
    requires transfer.Some? ==> transfer.value < |props|
    requires forall i :: 0 <= i < |props| ==> IsU32(props[i].granularityWidth) && IsU32(props[i].granularityHeight)
    ensures transfer.None? ==> r == (0, 0)
    ensures transfer.Some? && props[transfer.value].granularityWidth > 0 ==>
              r.0 + 1 == props[transfer.value].granularityWidth
    ensures transfer.Some? && props[transfer.value].granularityHeight > 0 ==>
              r.1 + 1 == props[transfer.value].granularityHeight
  {
    if transfer.None? then (0, 0)
    else
      var p := props[transfer.value];
      (WrappingSubU32(p.granularityWidth, 1), WrappingSubU32(p.granularityHeight, 1))
  }

  predicate IsPowerOfTwo(x: nat)
    decreases x
  {
    x == 1 || (x > 1 && x % 2 == 0 && IsPowerOfTwo(x / 2))
  }

  /** `checked_next_power_of_two`: the smallest power of two not below `x` (1 for 0). */
  function NextPowerOfTwo(x: nat): (r: nat)
    ensures IsPowerOfTwo(r) && r >= x && r >= 1
    ensures r == 1 || r / 2 < x
    decreases x
  {
    if x <= 1 then 1 else 2 * NextPowerOfTwo((x + 1) / 2)
  }

  /**
   * The uniform-buffer offset mask `next_power_of_two(align) - 1`; the
   * source unwraps the `u64` overflow check.  Every offset that is a
   * multiple of the rounded alignment has no bit of the mask.
   */
  function OffsetMask(align: nat): (r: nat)
    requires align <= 0x8000_0000_0000_0000
    ensures r + 1 == NextPowerOfTwo(align) && r + 1 >= align
  {
    NextPowerOfTwo(align) - 1
  }

  datatype PhysicalDeviceType = Other | IntegratedGpu | DiscreteGpu | VirtualGpu | Cpu

  /** `fast_ram_access`: the GPU shares memory with the CPU. */
  function FastRamAccess(t: PhysicalDeviceType): (r: bool)
    ensures r <==> t == Cpu || t == IntegratedGpu
  {
    match t
    case Cpu => true
    case IntegratedGpu => true
    case _ => false
  }

  /**
   * One shm buffer of a commit as `schedule_async_upload` sees it: whether
   * the device imports it as a udmabuf texture (tried only on a device with
   * fast RAM access) and whether the back texture's damage, after the
   * commit's damage is added, is non-empty.
   */
  datatype ShmUpload = ShmUpload(imported: bool, damaged: bool)

  /**
   * The number of uploads `schedule_async_uploads` starts for the shm
   * buffers of a commit: a buffer the device imports needs none, and
   * `async_transfer` starts none for a texture without damage.
   */
  function UploadsStarted(t: PhysicalDeviceType, bufs: seq<ShmUpload>): nat {
    if bufs == [] then 0
    else
      var p := bufs[..|bufs| - 1];
      var b := bufs[|bufs| - 1];
      UploadsStarted(t, p) + (if FastRamAccess(t) && b.imported then 0 else if b.damaged then 1 else 0)
  }

  /**
   * At most one upload per shm buffer; on a discrete, virtual or unknown
   * GPU every shm buffer is uploaded exactly when every one has damage; no
   * upload at all is started exactly when each buffer is imported on a
   * device with fast RAM access or has no damage.
   */
  lemma {:induction false} UploadsStartedMeans(t: PhysicalDeviceType, bufs: seq<ShmUpload>)
    ensures UploadsStarted(t, bufs) <= |bufs|
    ensures t == DiscreteGpu || t == VirtualGpu || t == Other ==>
              (UploadsStarted(t, bufs) == |bufs| <==> forall i :: 0 <= i < |bufs| ==> bufs[i].damaged)
    ensures UploadsStarted(t, bufs) == |bufs| ==> forall i :: 0 <= i < |bufs| ==> bufs[i].damaged
    ensures UploadsStarted(t, bufs) == 0 <==>
              forall i :: 0 <= i < |bufs| ==> ((t == Cpu || t == IntegratedGpu) && bufs[i].imported) || !bufs[i].damaged
    decreases |bufs|
  {
    if bufs != [] {
      var p := bufs[..|bufs| - 1];
      var b := bufs[|bufs| - 1];
      UploadsStartedMeans(t, p);
      var fast := t == Cpu || t == IntegratedGpu;
      assert bufs == p + [b];
      assert (forall i :: 0 <= i < |bufs| ==> (fast && bufs[i].imported) || !bufs[i].damaged) <==>
             (forall i :: 0 <= i < |p| ==> (fast && p[i].imported) || !p[i].damaged) && ((fast && b.imported) || !b.damaged);
      assert (forall i :: 0 <= i < |bufs| ==> bufs[i].damaged) <==>
             (forall i :: 0 <= i < |p| ==> p[i].damaged) && b.damaged;
    }
  }
}
