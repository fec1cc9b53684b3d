/**
 * The renderer-independent graphics interface: acquire synchronisation,
 * per-format modifier sets and their intersection between two devices,
 * the logical size of a transformed framebuffer and the ids of buffer
 * reservation users.
 */
module GfxApi {
  import opened Wrappers
  import opened Transforms
  import opened Seqs

  /** A DRM fourcc code, the key of every format table. */
  type FormatCode = nat
  /** A DRM format modifier. */
  type Modifier = nat
  /** A sync file, identified by its descriptor. */
  type SyncFile = nat

  /** `AcquireSync`: what a consumer must wait for before reading a buffer. */
  datatype AcquireSync = NoSync | Implicit | SyncFileSync(syncFile: SyncFile) | Unnecessary

  /** `AcquireSync::from_sync_file` */
  function FromSyncFile(syncFile: Option<SyncFile>): (r: AcquireSync)
    ensures syncFile.None? <==> r == Unnecessary
    ensures syncFile.Some? <==> r.SyncFileSync?
    ensures r.SyncFileSync? ==> r.syncFile == syncFile.value
  {
    match syncFile
    case None => Unnecessary
    case Some(f) => SyncFileSync(f)
  }

  /** The sync file an acquire synchronisation waits on, if any. */
  function WaitedSyncFile(a: AcquireSync): Option<SyncFile> {
    if a.SyncFileSync? then Some(a.syncFile) else None
  }

  /** No sync file is lost or invented by `from_sync_file`. */
  lemma FromSyncFileRoundTrip(syncFile: Option<SyncFile>)
    ensures WaitedSyncFile(FromSyncFile(syncFile)) == syncFile
    ensures FromSyncFile(syncFile) != NoSync && FromSyncFile(syncFile) != Implicit
  {
  }

  /** `GfxWriteModifier` */
  datatype WriteModifier = WriteModifier(needsRenderUsage: bool)

  /**
   * `GfxFormat`: the modifiers a device can read (an `IndexSet`) and write
   * (an `IndexMap` to their write properties), both in insertion order.
   */
  datatype GfxFormat = GfxFormat(
    format: FormatCode,
    readModifiers: seq<Modifier>,
    writeModifiers: seq<(Modifier, WriteModifier)>)

  function Keys(w: seq<(Modifier, WriteModifier)>): (r: seq<Modifier>)
    ensures |r| == |w|
    ensures forall i :: 0 <= i < |w| ==> r[i] == w[i].0
    decreases |w|
  {
    if w == [] then [] else [w[0].0] + Keys(w[1..])
  }

  /** The index set and the index map hold every modifier at most once. */
  predicate WellFormed(f: GfxFormat) {
    Distinct(f.readModifiers) && Distinct(Keys(f.writeModifiers))
  }

  /** `needs_render_usage`: some write modifier needs render usage. */
  function NeedsRenderUsage(mods: seq<WriteModifier>): (r: bool)
    ensures r <==> exists i :: 0 <= i < |mods| && mods[i].needsRenderUsage
    decreases |mods|
  {
    if mods == [] then false
    else if mods[0].needsRenderUsage then true
    else
      var rest := NeedsRenderUsage(mods[1..]);
      assert forall i :: 1 <= i < |mods| ==> mods[i] == mods[1..][i - 1];
      rest
  }

  /**
   * `GfxFormat::cross_intersect`: what this device can read that the other
   * can write, and what this device can write that the other can read.
   * The source asserts that both sides describe the same format.
   */
  function CrossIntersect(local: GfxFormat, remote: GfxFormat): (r: GfxFormat)
    requires local.format == remote.format
    ensures r.format == local.format
    ensures forall m :: m in r.readModifiers <==>
              m in local.readModifiers && m in Keys(remote.writeModifiers)
    ensures forall e :: e in r.writeModifiers <==>
              e in local.writeModifiers && e.0 in remote.readModifiers
  {
    var remoteWrites := Keys(remote.writeModifiers);
    GfxFormat(
      local.format,
      Filter(local.readModifiers, m => m in remoteWrites),
      Filter(local.writeModifiers, (e: (Modifier, WriteModifier)) => e.0 in remote.readModifiers))
  }

  /** The intersection keeps this device's order and its well-formedness. */
  lemma CrossIntersectKeepsOrder(local: GfxFormat, remote: GfxFormat)
    requires local.format == remote.format && WellFormed(local)
    ensures IsSubsequence(CrossIntersect(local, remote).readModifiers, local.readModifiers)
    ensures IsSubsequence(CrossIntersect(local, remote).writeModifiers, local.writeModifiers)
    ensures WellFormed(CrossIntersect(local, remote))
  {
    var remoteWrites := Keys(remote.writeModifiers);
    var r := CrossIntersect(local, remote);
    FilterIsSubsequence(local.readModifiers, m => m in remoteWrites);
    FilterIsSubsequence(local.writeModifiers, (e: (Modifier, WriteModifier)) => e.0 in remote.readModifiers);
    SubsequenceDistinct(r.readModifiers, local.readModifiers);
    KeysOfSubsequence(r.writeModifiers, local.writeModifiers);
    SubsequenceDistinct(Keys(r.writeModifiers), Keys(local.writeModifiers));
  }

  lemma {:induction false} KeysOfSubsequence(xs: seq<(Modifier, WriteModifier)>, ys: seq<(Modifier, WriteModifier)>)
    requires IsSubsequence(xs, ys) && Distinct(Keys(ys))
    ensures IsSubsequence(Keys(xs), Keys(ys))
    decreases |ys|
  {
    if xs != [] {
      assert Keys(ys)[1..] == Keys(ys[1..]);
      assert Distinct(Keys(ys[1..])) by {
        forall i, j | 0 <= i < j < |ys[1..]| ensures Keys(ys[1..])[i] != Keys(ys[1..])[j] {
          assert Keys(ys[1..])[i] == Keys(ys)[i + 1] && Keys(ys[1..])[j] == Keys(ys)[j + 1];
        }
      }
      assert Keys(xs)[1..] == Keys(xs[1..]);
      if xs[0] == ys[0] {
        KeysOfSubsequence(xs[1..], ys[1..]);
      } else {
        KeysOfSubsequence(xs, ys[1..]);
        SubsequenceMembers(xs, ys[1..]);
        assert Keys(xs)[0] != Keys(ys)[0] by {
          // equal keys on different entries would put the key twice into `ys`
          assert xs[0] in xs;
          var k :| 0 <= k < |ys[1..]| && ys[1..][k] == xs[0];
          assert Keys(ys)[k + 1] == Keys(xs)[0];
        }
      }
    }
  }

  lemma {:induction false} SubsequenceMembers<T>(xs: seq<T>, ys: seq<T>)
    requires IsSubsequence(xs, ys)
    ensures forall x :: x in xs ==> x in ys
    decreases |ys|
  {
    if xs != [] {
      if xs[0] == ys[0] {
        SubsequenceMembers(xs[1..], ys[1..]);
        forall x | x in xs ensures x in ys {
          if x != xs[0] {
            assert x in xs[1..];
          }
        }
      } else {
        SubsequenceMembers(xs, ys[1..]);
        forall x | x in xs ensures x in ys {
          assert x in ys[1..];
        }
      }
    }
  }

  /** Every format of a format table is stored under its own fourcc code. */
  predicate KeyedByFormat(m: map<FormatCode, GfxFormat>) {
    forall k :: k in m ==> m[k].format == k
  }

  predicate IsEmptyFormat(f: GfxFormat) {
    f.readModifiers == [] && f.writeModifiers == []
  }

  /**
   * `cross_intersect_formats`: the formats known on both sides whose
   * intersection is not entirely empty, each cross-intersected.
   */
  function CrossIntersectFormats(local: map<FormatCode, GfxFormat>, remote: map<FormatCode, GfxFormat>)
    : (r: map<FormatCode, GfxFormat>)
    requires KeyedByFormat(local) && KeyedByFormat(remote)
    ensures KeyedByFormat(r)
    ensures forall k :: k in r <==>
              k in local && k in remote && !IsEmptyFormat(CrossIntersect(local[k], remote[k]))
    ensures forall k :: k in r ==> r[k] == CrossIntersect(local[k], remote[k])
  {
    map k | k in local && k in remote && !IsEmptyFormat(CrossIntersect(local[k], remote[k]))
      :: CrossIntersect(local[k], remote[k])
  }

  /**
   * A modifier the local device reads in the intersected table is one the
   * remote device writes, and a modifier the local device writes is one
   * the remote device reads.
   */
  lemma CrossIntersectFormatsAgree(local: map<FormatCode, GfxFormat>, remote: map<FormatCode, GfxFormat>,
                                   k: FormatCode, m: Modifier)
    requires KeyedByFormat(local) && KeyedByFormat(remote)
    requires k in CrossIntersectFormats(local, remote)
    ensures m in CrossIntersectFormats(local, remote)[k].readModifiers ==>
              m in local[k].readModifiers && m in Keys(remote[k].writeModifiers)
    ensures m in Keys(CrossIntersectFormats(local, remote)[k].writeModifiers) ==>
              m in Keys(local[k].writeModifiers) && m in remote[k].readModifiers
  {
    var w := CrossIntersectFormats(local, remote)[k].writeModifiers;
    if m in Keys(w) {
      var i :| 0 <= i < |w| && Keys(w)[i] == m;
      assert w[i] in w;
      var j :| 0 <= j < |local[k].writeModifiers| && local[k].writeModifiers[j] == w[i];
      assert Keys(local[k].writeModifiers)[j] == m;
    }
  }

  /** `logical_size`: the framebuffer size as seen through the transform. */
  function LogicalSize(physicalSize: (int, int), t: Transform): (r: (int, int))
    ensures SwapsAxes(t) ==> r == (physicalSize.1, physicalSize.0)
    ensures !SwapsAxes(t) ==> r == physicalSize
  {
    MaybeSwap(t, physicalSize.0, physicalSize.1)
  }

  /** Applying the logical size twice gives back the physical size. */
  lemma LogicalSizeInvolutive(physicalSize: (int, int), t: Transform)
    ensures LogicalSize(LogicalSize(physicalSize, t), t) == physicalSize
  {
  }

  /**
   * The process-wide counter behind `BufferResvUser::default`.  The ghost
   * set records every id handed out so far.
   */
  class ResvUserIds {
    var next: nat
    ghost var issued: set<nat>

    ghost predicate Valid()
      reads this
    {
      next >= 1 && forall u :: u in issued ==> 1 <= u < next
    }

    constructor()
      ensures Valid() && next == 1 && issued == {}
    {
      next := 1;
      issued := {};
    }

    /** `BufferResvUser::default`: a fresh id, different from all earlier ones. */
    method Default() returns (user: nat)
      requires Valid()
      modifies this
      ensures Valid()
      ensures user == old(next) && next == old(next) + 1
      ensures user !in old(issued) && issued == old(issued) + {user}
    {
      user := next;
      next := next + 1;
      issued := issued + {user};
    }
  }
}
