/** Failure-compatible wrappers shared by every module of the model. */
module Wrappers {

  datatype Option<+T> = None | Some(value: T) {
    predicate IsFailure() { None? }

    function PropagateFailure<U>(): Option<U>
      requires None?
    {
      None
    }

    function Extract(): T
      requires Some?
    {
      value
    }

    function GetOr(default: T): T {
      if Some? then value else default
    }
  }

  datatype Result<+R, +E> = Ok(value: R) | Err(error: E) {
    predicate IsFailure() { Err? }

    function PropagateFailure<U>(): Result<U, E>
      requires Err?
    {
      Err(error)
    }

    function Extract(): R
      requires Ok?
    {
      value
    }
  }
}

/** Machine integers of the source: widths, saturating and wrapping arithmetic. */
module MachineInt {

  const U8_MAX: nat := 0xff
  const U16_MAX: nat := 0xffff
  const U32_MAX: nat := 0xffff_ffff
  const U64_MAX: nat := 0xffff_ffff_ffff_ffff
  const I32_MAX: int := 0x7fff_ffff
  const I32_MIN: int := -0x8000_0000

  /** A byte of a buffer read from or written to the kernel. */
  type Byte = x: int | 0 <= x <= U8_MAX

  predicate IsU32(x: int) { 0 <= x <= U32_MAX }
  predicate IsU64(x: int) { 0 <= x <= U64_MAX }
  predicate IsI32(x: int) { I32_MIN <= x <= I32_MAX }

  /** `u64::saturating_add` */
  function SatAddU64(a: nat, b: nat): (r: nat)
    requires IsU64(a) && IsU64(b)
    ensures IsU64(r) && r <= a + b
    ensures r == a + b || r == U64_MAX
  {
    if a + b > U64_MAX then U64_MAX else a + b
  }

  /** `saturating_sub` on unsigned integers */
  function SatSub(a: nat, b: nat): (r: nat)
    ensures r <= a
    ensures r + b >= a
    ensures b <= a ==> r + b == a
  {
    if a >= b then a - b else 0
  }

  /** Two's-complement reinterpretation of a u32 as an i32 (`x as i32`). */
  function U32AsI32(x: nat): (r: int)
    requires IsU32(x)
    ensures IsI32(r)
    ensures r >= 0 <==> x <= I32_MAX
    ensures r % 0x1_0000_0000 == x % 0x1_0000_0000
  {
    if x <= I32_MAX then x else x - 0x1_0000_0000
  }

  /** `wrapping_sub` on u32 */
  function WrappingSubU32(a: nat, b: nat): (r: nat)
    requires IsU32(a) && IsU32(b)
    ensures IsU32(r)
    ensures (r + b) % 0x1_0000_0000 == a
  {
    if a >= b then a - b else a + 0x1_0000_0000 - b
  }

  function Min(a: int, b: int): (r: int)
    ensures r <= a && r <= b && (r == a || r == b)
  {
    if a <= b then a else b
  }

  function Max(a: int, b: int): (r: int)
    ensures r >= a && r >= b && (r == a || r == b)
  {
    if a >= b then a else b
  }
}

/**
 * Axis-aligned rectangles with corners (x1, y1) inclusive and (x2, y2)
 * exclusive.  A rectangle is well formed when x1 <= x2 and y1 <= y2; a
 * rectangle with negative extents cannot be constructed.
 */
module Rects {
  import opened Wrappers

  datatype Rect = Rect(x1: int, y1: int, x2: int, y2: int) {
    ghost predicate Valid() { x1 <= x2 && y1 <= y2 }
    function Width(): int { x2 - x1 }
    function Height(): int { y2 - y1 }
    predicate IsEmpty() { x1 == x2 || y1 == y2 }
  }

  /** Rectangle of the given origin and size; `None` for a negative extent. */
  function NewSized(x: int, y: int, width: int, height: int): (r: Option<Rect>)
    ensures r.Some? <==> width >= 0 && height >= 0
    ensures r.Some? ==> r.value.Valid() && r.value.x1 == x && r.value.y1 == y
                        && r.value.Width() == width && r.value.Height() == height
  {
    if width < 0 || height < 0 then None else Some(Rect(x, y, x + width, y + height))
  }

  /** Rectangle of the given size at the origin. */
  function AtOrigin(width: nat, height: nat): (r: Rect)
    ensures r.Valid() && r.x1 == 0 && r.y1 == 0 && r.Width() == width && r.Height() == height
  {
    Rect(0, 0, width, height)
  }

  function Move(r: Rect, dx: int, dy: int): (m: Rect)
    ensures m.Width() == r.Width() && m.Height() == r.Height()
    ensures m.x1 == r.x1 + dx && m.y1 == r.y1 + dy
    ensures r.Valid() ==> m.Valid()
  {
    Rect(r.x1 + dx, r.y1 + dy, r.x2 + dx, r.y2 + dy)
  }

  /** `b` lies inside `a`. */
  predicate Contains(a: Rect, b: Rect) {
    a.x1 <= b.x1 && a.y1 <= b.y1 && b.x2 <= a.x2 && b.y2 <= a.y2
  }

  /** Smallest rectangle containing both arguments. */
  function Union(a: Rect, b: Rect): (u: Rect)
    requires a.Valid() && b.Valid()
    ensures u.Valid() && Contains(u, a) && Contains(u, b)
    ensures forall c: Rect :: Contains(c, a) && Contains(c, b) ==> Contains(c, u)
  {
    Rect(if a.x1 <= b.x1 then a.x1 else b.x1, if a.y1 <= b.y1 then a.y1 else b.y1,
         if a.x2 >= b.x2 then a.x2 else b.x2, if a.y2 >= b.y2 then a.y2 else b.y2)
  }
}

/** The eight buffer transforms of the Wayland `wl_output.transform` enum. */
module Transforms {

  datatype Transform = Normal | Rotate90 | Rotate180 | Rotate270
                     | Flip | Flip90 | Flip180 | Flip270

  /** The transforms that exchange the horizontal and vertical axes. */
  predicate SwapsAxes(t: Transform) {
    t == Rotate90 || t == Rotate270 || t == Flip90 || t == Flip270
  }

  /** `Transform::maybe_swap`: the size after applying the transform. */
  function MaybeSwap(t: Transform, width: int, height: int): (r: (int, int))
    ensures SwapsAxes(t) ==> r == (height, width)
    ensures !SwapsAxes(t) ==> r == (width, height)
  {
    if SwapsAxes(t) then (height, width) else (width, height)
  }
}

/** Order-preserving facts about sequences used by several modules. */
module Seqs {

  /** No element occurs twice (an `IndexSet`, or the keys of an `IndexMap`). */
  predicate Distinct<T(==)>(s: seq<T>) {
    forall i, j :: 0 <= i < j < |s| ==> s[i] != s[j]
  }

  /** `xs` is obtained from `ys` by deleting elements, keeping the order. */
  predicate IsSubsequence<T(==)>(xs: seq<T>, ys: seq<T>)
    decreases |ys|
  {
    if xs == [] then true
    else if ys == [] then false
    else if xs[0] == ys[0] then IsSubsequence(xs[1..], ys[1..])
    else IsSubsequence(xs, ys[1..])
  }

  lemma {:induction false} SubsequenceDistinct<T>(xs: seq<T>, ys: seq<T>)
    requires IsSubsequence(xs, ys) && Distinct(ys)
    ensures Distinct(xs)
    ensures forall x :: x in xs ==> x in ys
    decreases |ys|
  {
    if xs == [] {
    } else if xs[0] == ys[0] {
      SubsequenceDistinct(xs[1..], ys[1..]);
      assert ys[0] !in ys[1..] by {
        forall k | 0 <= k < |ys[1..]| ensures ys[1..][k] != ys[0] {
          assert ys[1..][k] == ys[k + 1];
        }
      }
      forall x | x in xs ensures x in ys {
        if x != xs[0] {
          assert x in xs[1..];
        }
      }
      forall i, j | 0 <= i < j < |xs| ensures xs[i] != xs[j] {
        assert xs[j] == xs[1..][j - 1];
        if i > 0 {
          assert xs[i] == xs[1..][i - 1];
        }
      }
    } else {
      SubsequenceDistinct(xs, ys[1..]);
      forall x | x in xs ensures x in ys {
        assert x in ys[1..];
      }
    }
  }

  /** The elements of `s`, in order, for which `keep` holds. */
  function Filter<T(==,!new)>(s: seq<T>, keep: T -> bool): (r: seq<T>)
    ensures forall x :: x in r <==> x in s && keep(x)
    ensures |r| <= |s|
    decreases |s|
  {
    if s == [] then []
    else if keep(s[0]) then [s[0]] + Filter(s[1..], keep)
    else Filter(s[1..], keep)
  }

  lemma {:induction false} FilterIsSubsequence<T(!new)>(s: seq<T>, keep: T -> bool)
    ensures IsSubsequence(Filter(s, keep), s)
    decreases |s|
  {
    if s != [] {
      FilterIsSubsequence(s[1..], keep);
      var r := Filter(s, keep);
      if keep(s[0]) {
        assert r[0] == s[0] && r[1..] == Filter(s[1..], keep);
      } else if r != [] {
        // a kept head of `r` cannot equal the dropped head of `s`
        assert r[0] in r;
      }
    }
  }
}
