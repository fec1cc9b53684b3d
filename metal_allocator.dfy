/**
 * Scanout buffers of the metal backend (src/backends/metal/allocator.rs):
 * the order in which the prime methods are tried (`JAY_PRIME_METHODS`),
 * the modifier sets each method allocates with, the GBM usage flags, the
 * fallback over the methods in `create_scanout_buffers`, the damage of new
 * buffers and the copy route of `copy_to_new`.
 *
 * Allocation, framebuffer creation, imports and copies are calls into GBM,
 * DRM and the graphics and copy devices; their outcomes are inputs.
 */
module MetalAllocator {
  import opened Wrappers
  import opened Seqs
  import opened Rects
  import G = GfxApi
  import Bo = VulkanBoAllocator
  import P = MetalPresent

  type Modifier = G.Modifier

  const LINEAR_MODIFIER: Modifier := 0

  // ---------------------------------------------------------------------
  // Prime methods and JAY_PRIME_METHODS
  // ---------------------------------------------------------------------

  /** `PrimeMethod`, in declaration order. */
  datatype PrimeMethod = DirectPull | Sampling | IndirectPull | Udmabuf | DirectPush

  const Variants: seq<PrimeMethod> := [DirectPull, Sampling, IndirectPull, Udmabuf, DirectPush]

  const AllMethods: set<PrimeMethod> := {DirectPull, Sampling, IndirectPull, Udmabuf, DirectPush}

  /** `PrimeMethod::name` */
  function Name(m: PrimeMethod): string {
    match m
    case DirectPull => "direct-pull"
    case IndirectPull => "indirect-pull"
    case DirectPush => "direct-push"
    case Sampling => "direct-sampling"
    case Udmabuf => "udmabuf"
  }

  /** The method with the given name: `variants().find(|m| m.name() == name)`. */
  function MethodNamed(name: string): (r: Option<PrimeMethod>)
    ensures r.Some? ==> Name(r.value) == name
  {
    FindNamed(name, 0)
  }

  /** The first variant from `k` on with the given name. */
  function FindNamed(name: string, k: nat): (r: Option<PrimeMethod>)
    requires k <= |Variants|
    ensures r.Some? ==> Name(r.value) == name
    decreases |Variants| - k
  {
    if k == |Variants| then None
    else if Name(Variants[k]) == name then Some(Variants[k])
    else FindNamed(name, k + 1)
  }

  /** Every method is found by its own name and by no other. */
  lemma NamesIdentifyMethods(m: PrimeMethod)
    ensures MethodNamed(Name(m)) == Some(m)
    ensures forall n :: n != m ==> Name(n) != Name(m)
  {
    assert Name(DirectPull)[1] == 'i' && Name(DirectPush)[1] == 'i' && Name(Sampling)[1] == 'i';
    assert Name(IndirectPull)[0] == 'i' && Name(Udmabuf)[0] == 'u';
    assert Name(DirectPull)[7] == 'p' && Name(DirectPush)[7] == 'p' && Name(Sampling)[7] == 's';
    assert Name(DirectPull)[8] == 'u' && Name(DirectPush)[8] == 'u';
    assert Name(DirectPull)[9] == 'l' && Name(DirectPush)[9] == 's';
  }

  /** `str::split(",")`: the pieces between commas, empty ones included. */
  function SplitComma(s: string): (r: seq<string>)
    ensures |r| >= 1
    ensures forall k :: 0 <= k < |r| ==> ',' !in r[k]
    decreases |s|
  {
    if |s| == 0 then [""]
    else
      var rest := SplitComma(s[1..]);
      if s[0] == ',' then [""] + rest
      else [[s[0]] + rest[0]] + rest[1..]
  }

  /** The pieces joined with commas. */
  function JoinComma(parts: seq<string>): string
    requires |parts| >= 1
    decreases |parts|
  {
    if |parts| == 1 then parts[0] else parts[0] + "," + JoinComma(parts[1..])
  }

  /** Splitting loses no character: joining the pieces gives the string back. */
  lemma {:induction false} SplitJoin(s: string)
    ensures JoinComma(SplitComma(s)) == s
    decreases |s|
  {
    if |s| > 0 {
      SplitJoin(s[1..]);
      var rest := SplitComma(s[1..]);
      if s[0] == ',' {
        assert ([""] + rest)[1..] == rest;
        assert s == "" + "," + s[1..];
      } else {
        var r := SplitComma(s);
        assert r[0] == [s[0]] + rest[0] && r[1..] == rest[1..];
        if |rest| == 1 {
          assert s == [s[0]] + rest[0];
        } else {
          assert JoinComma(rest) == rest[0] + "," + JoinComma(rest[1..]);
          assert s == [s[0]] + (rest[0] + "," + JoinComma(rest[1..]));
        }
      }
    }
  }

  /** `char::is_whitespace`: the Unicode `White_Space` characters. */
  predicate IsWhitespace(c: char) {
    var u := c as int;
    || (0x09 <= u <= 0x0D) || u == 0x20 || u == 0x85 || u == 0xA0 || u == 0x1680
    || (0x2000 <= u <= 0x200A) || u == 0x2028 || u == 0x2029 || u == 0x202F
    || u == 0x205F || u == 0x3000
  }

  function TrimStart(s: string): (r: string)
    ensures |r| <= |s| && r == s[|s| - |r|..]
    ensures r == [] || !IsWhitespace(r[0])
    decreases |s|
  {
    if |s| > 0 && IsWhitespace(s[0]) then TrimStart(s[1..]) else s
  }

  function TrimEnd(s: string): (r: string)
    ensures |r| <= |s| && r == s[..|r|]
    ensures r == [] || !IsWhitespace(r[|r| - 1])
    decreases |s|
  {
    if |s| > 0 && IsWhitespace(s[|s| - 1]) then TrimEnd(s[..|s| - 1]) else s
  }

  /** `str::trim` */
  function Trim(s: string): (r: string)
    ensures r == [] || (!IsWhitespace(r[0]) && !IsWhitespace(r[|r| - 1]))
  {
    TrimEnd(TrimStart(s))
  }

  /** A method named by the variable, allowed or (with a leading `-`) forbidden. */
  datatype Directive = Directive(prime: PrimeMethod, allow: bool)

  /**
   * One comma-separated piece of `JAY_PRIME_METHODS`: trimmed, skipped when
   * empty, a single leading `-` forbids the method, and an unknown name is
   * skipped.
   */
  function ParseDirective(piece: string): (r: Option<Directive>)
    ensures r.Some? ==> var name := Trim(piece);
      && |name| > 0
      && (r.value.allow <==> name[0] != '-')
      && Name(r.value.prime) == (if r.value.allow then name else name[1..])
    ensures Trim(piece) == [] ==> r.None?
  {
    var name := Trim(piece);
    if name == [] then None else DirectiveOf(name)
  }

  /** A trimmed, non-empty piece: an optional `-` and a method's name. */
  function DirectiveOf(name: string): (r: Option<Directive>)
    requires name != []
    ensures r.Some? ==> (r.value.allow <==> name[0] != '-')
    ensures r.Some? ==> Name(r.value.prime) == (if r.value.allow then name else name[1..])
  {
    var allow := name[0] != '-';
    var bare := if allow then name else name[1..];
    match MethodNamed(bare)
    case None => None
    case Some(m) => Some(Directive(m, allow))
  }

  /** A string without surrounding whitespace is its own trim. */
  lemma TrimmedIsTrim(s: string)
    requires s != [] && !IsWhitespace(s[0]) && !IsWhitespace(s[|s| - 1])
    ensures Trim(s) == s
  {
  }

  /**
   * A method's name, possibly with surrounding whitespace removed, allows
   * that method, and the name behind a `-` forbids it.
   */
  lemma ParseDirectiveOfName(m: PrimeMethod)
    ensures ParseDirective(Name(m)) == Some(Directive(m, true))
    ensures ParseDirective("-" + Name(m)) == Some(Directive(m, false))
  {
    NamesIdentifyMethods(m);
    var n := Name(m);
    assert n[0] in "diu" && n[|n| - 1] in "lpfgh";
    ParseBareName(n, m);
  }

  lemma ParseBareName(n: string, m: PrimeMethod)
    requires n != [] && n[0] in "diu" && n[|n| - 1] in "lpfgh" && MethodNamed(n) == Some(m)
    ensures ParseDirective(n) == Some(Directive(m, true))
    ensures ParseDirective("-" + n) == Some(Directive(m, false))
  {
    TrimmedIsTrim(n);
    assert DirectiveOf(n) == Some(Directive(m, true));
    ParseNegatedName(n, m);
  }

  lemma ParseNegatedName(n: string, m: PrimeMethod)
    requires n != [] && n[|n| - 1] in "lpfgh" && MethodNamed(n) == Some(m)
    ensures ParseDirective("-" + n) == Some(Directive(m, false))
  {
    var s := "-" + n;
    TrimmedIsTrim(s);
    assert s[0] == '-' && s[1..] == n;
    assert DirectiveOf(s) == Some(Directive(m, false));
  }

  /** The directives of a list of pieces, in order, each piece read by `parse`. */
  function Directives(parse: string -> Option<Directive>, pieces: seq<string>): seq<Directive>
    decreases |pieces|
  {
    if pieces == [] then []
    else
      var d := parse(pieces[0]);
      (if d.Some? then [d.value] else []) + Directives(parse, pieces[1..])
  }

  /** Deciding the directives of some pieces: the first piece, then the rest. */
  lemma ApplyStep(parse: string -> Option<Directive>, pieces: seq<string>, tail: seq<Directive>, seen: set<PrimeMethod>)
    requires pieces != []
    ensures var d := parse(pieces[0]);
      Decide(Directives(parse, pieces) + tail, seen) ==
        if d.None? || d.value.prime in seen then Decide(Directives(parse, pieces[1..]) + tail, seen)
        else (if d.value.allow then [d.value.prime] else []) + Decide(Directives(parse, pieces[1..]) + tail, seen + {d.value.prime})
  {
    var d := parse(pieces[0]);
    var later := Directives(parse, pieces[1..]) + tail;
    if d.Some? {
      assert Directives(parse, pieces) + tail == [d.value] + later;
      DecideCons(d.value, later, seen);
    } else {
      assert Directives(parse, pieces) + tail == later;
    }
  }

  /** The directives of the variable; none when it is unset. */
  function EnvDirectives(env: Option<string>): seq<Directive> {
    if env.Some? then Directives(ParseDirective, SplitComma(env.value)) else []
  }

  /** `apply(method, true)` for every variant, in declaration order. */
  function Defaults(from: nat): seq<Directive>
    requires from <= |Variants|
    ensures |Defaults(from)| == |Variants| - from
    decreases |Variants| - from
  {
    if from == |Variants| then [] else [Directive(Variants[from], true)] + Defaults(from + 1)
  }

  /**
   * The `apply` closure over a list of directives: a method not yet seen
   * is decided by its first directive and pushed when that allows it.
   */
  function Decide(ds: seq<Directive>, seen: set<PrimeMethod>): seq<PrimeMethod>
    decreases |ds|
  {
    if ds == [] then []
    else if ds[0].prime in seen then Decide(ds[1..], seen)
    else (if ds[0].allow then [ds[0].prime] else []) + Decide(ds[1..], seen + {ds[0].prime})
  }

  /** What `prime_methods` returns for the value of `JAY_PRIME_METHODS`. */
  function PrimeMethodsOf(env: Option<string>): seq<PrimeMethod> {
    Decide(EnvDirectives(env) + Defaults(0), {})
  }

  lemma DecideCons(d: Directive, ds: seq<Directive>, seen: set<PrimeMethod>)
    ensures Decide([d] + ds, seen) ==
      if d.prime in seen then Decide(ds, seen)
      else (if d.allow then [d.prime] else []) + Decide(ds, seen + {d.prime})
  {
    assert ([d] + ds)[1..] == ds;
  }

  /** `prime_methods`: the variable's pieces first, then every variant. */
  method PrimeMethods(env: Option<string>) returns (res: seq<PrimeMethod>)
    ensures res == PrimeMethodsOf(env)
  {
    var seen: set<PrimeMethod> := {};
    res := [];
    if env.Some? {
      res, seen := ApplyPieces(ParseDirective, SplitComma(env.value), Defaults(0));
    } else {
      assert EnvDirectives(env) + Defaults(0) == Defaults(0);
    }
    res := ApplyDefaults(res, seen);
  }

  /**
   * The `apply` loop over the pieces of the variable, ahead of some later
   * directives `tail`.
   */
  method ApplyPieces(parse: string -> Option<Directive>, pieces: seq<string>, ghost tail: seq<Directive>)
    returns (res: seq<PrimeMethod>, seen: set<PrimeMethod>)
    ensures res + Decide(tail, seen) == Decide(Directives(parse, pieces) + tail, {})
  {
    res := [];
    seen := {};
    var i := 0;
    assert pieces[0..] == pieces;
    while i < |pieces|
      invariant 0 <= i <= |pieces|
      invariant res + Decide(Directives(parse, pieces[i..]) + tail, seen) == Decide(Directives(parse, pieces) + tail, {})
    {
      assert pieces[i..][1..] == pieces[i + 1..];
      ApplyStep(parse, pieces[i..], tail, seen);
      var d := parse(pieces[i]);
      if d.Some? && d.value.prime !in seen {
        ghost var rest := Decide(Directives(parse, pieces[i + 1..]) + tail, seen + {d.value.prime});
        seen := seen + {d.value.prime};
        if d.value.allow {
          assert res + ([d.value.prime] + rest) == (res + [d.value.prime]) + rest;
          res := res + [d.value.prime];
        } else {
          assert [] + rest == rest;
        }
      }
      i := i + 1;
    }
    assert Directives(parse, pieces[i..]) + tail == tail;
  }

  /** The `apply(method, true)` loop over every variant. */
  method ApplyDefaults(res0: seq<PrimeMethod>, seen0: set<PrimeMethod>) returns (res: seq<PrimeMethod>)
    ensures res == res0 + Decide(Defaults(0), seen0)
  {
    res := res0;
    var seen := seen0;
    for k := 0 to |Variants|
      invariant res + Decide(Defaults(k), seen) == res0 + Decide(Defaults(0), seen0)
    {
      var m := Variants[k];
      assert Defaults(k) == [Directive(m, true)] + Defaults(k + 1);
      DecideCons(Directive(m, true), Defaults(k + 1), seen);
      if m !in seen {
        assert res + ([m] + Decide(Defaults(k + 1), seen + {m})) == (res + [m]) + Decide(Defaults(k + 1), seen + {m});
        seen := seen + {m};
        res := res + [m];
      }
    }
  }

  /** The directives' methods. */
  function Mentioned(ds: seq<Directive>): set<PrimeMethod>
    decreases |ds|
  {
    if ds == [] then {} else {ds[0].prime} + Mentioned(ds[1..])
  }

  /** The allowance of the first directive naming `m`, if there is one. */
  function Verdict(ds: seq<Directive>, m: PrimeMethod): Option<bool>
    decreases |ds|
  {
    if ds == [] then None
    else if ds[0].prime == m then Some(ds[0].allow)
    else Verdict(ds[1..], m)
  }

  /** A decided method was not seen before, is named by a directive and is pushed once. */
  lemma {:induction false} DecideFresh(ds: seq<Directive>, seen: set<PrimeMethod>)
    ensures Distinct(Decide(ds, seen))
    ensures forall m :: m in Decide(ds, seen) ==> m !in seen && m in Mentioned(ds)
    decreases |ds|
  {
    if ds != [] {
      var d := ds[0];
      if d.prime in seen {
        DecideFresh(ds[1..], seen);
      } else {
        DecideFresh(ds[1..], seen + {d.prime});
        var rest := Decide(ds[1..], seen + {d.prime});
        var head: seq<PrimeMethod> := if d.allow then [d.prime] else [];
        forall i, j | 0 <= i < j < |head + rest| ensures (head + rest)[i] != (head + rest)[j] {
          if i < |head| {
            assert (head + rest)[j] == rest[j - |head|];
            assert rest[j - |head|] in rest;
          } else {
            assert (head + rest)[i] == rest[i - |head|] && (head + rest)[j] == rest[j - |head|];
          }
        }
      }
    }
  }

  /** A method is pushed exactly when it was not seen and its first directive allows it. */
  lemma {:induction false} DecideMembers(ds: seq<Directive>, seen: set<PrimeMethod>, m: PrimeMethod)
    ensures m in Decide(ds, seen) <==> m !in seen && Verdict(ds, m) == Some(true)
    decreases |ds|
  {
    if ds != [] {
      var d := ds[0];
      if d.prime in seen {
        DecideMembers(ds[1..], seen, m);
      } else {
        DecideMembers(ds[1..], seen + {d.prime}, m);
        DecideFresh(ds[1..], seen + {d.prime});
      }
    }
  }

  /** Deciding a concatenation decides the second part with the first part's methods seen. */
  lemma {:induction false} DecideAppend(a: seq<Directive>, b: seq<Directive>, seen: set<PrimeMethod>)
    ensures Decide(a + b, seen) == Decide(a, seen) + Decide(b, seen + Mentioned(a))
    decreases |a|
  {
    if a == [] {
      assert a + b == b && Mentioned(a) == {} && Decide(a, seen) == [];
      assert seen + {} == seen;
    } else {
      assert (a + b)[0] == a[0] && (a + b)[1..] == a[1..] + b;
      if a[0].prime in seen {
        DecideAppend(a[1..], b, seen);
        assert seen + Mentioned(a) == seen + Mentioned(a[1..]);
      } else {
        DecideAppend(a[1..], b, seen + {a[0].prime});
        assert seen + {a[0].prime} + Mentioned(a[1..]) == seen + Mentioned(a);
      }
    }
  }

  /** The defaults push the variants not yet seen, in declaration order. */
  lemma {:induction false} DecideDefaults(k: nat, seen: set<PrimeMethod>)
    requires k <= |Variants|
    ensures Decide(Defaults(k), seen) == Filter(Variants[k..], m => m !in seen)
    decreases |Variants| - k
  {
    if k < |Variants| {
      DecideCons(Directive(Variants[k], true), Defaults(k + 1), seen);
      assert Variants[k..][0] == Variants[k] && Variants[k..][1..] == Variants[k + 1..];
      if Variants[k] in seen {
        DecideDefaults(k + 1, seen);
      } else {
        DecideDefaults(k + 1, seen + {Variants[k]});
        FilterSkipsSeen(k + 1, seen, Variants[k]);
      }
    }
  }

  /** A variant that occurs before `k` does not change the filter of the variants from `k` on. */
  lemma {:induction false} FilterSkipsSeen(k: nat, seen: set<PrimeMethod>, m: PrimeMethod)
    requires 0 < k <= |Variants| && m == Variants[k - 1]
    ensures Filter(Variants[k..], x => x !in seen + {m}) == Filter(Variants[k..], x => x !in seen)
    decreases |Variants| - k
  {
    if k < |Variants| {
      assert Variants[k..][0] == Variants[k] && Variants[k..][1..] == Variants[k + 1..];
      assert Variants[k] != m;
      FilterSkipsSeenFrom(k + 1, k, seen, m);
    }
  }

  lemma {:induction false} FilterSkipsSeenFrom(k: nat, at: nat, seen: set<PrimeMethod>, m: PrimeMethod)
    requires 0 < at < k <= |Variants| && m == Variants[at - 1]
    ensures Filter(Variants[k..], x => x !in seen + {m}) == Filter(Variants[k..], x => x !in seen)
    decreases |Variants| - k
  {
    if k < |Variants| {
      assert Variants[k..][0] == Variants[k] && Variants[k..][1..] == Variants[k + 1..];
      assert Variants[k] != m;
      FilterSkipsSeenFrom(k + 1, at, seen, m);
    }
  }

  /**
   * The order of `prime_methods`: the methods the variable allows, in the
   * order of their first mention, then every variant it does not mention,
   * in declaration order.
   */
  lemma PrimeMethodsOrder(env: Option<string>)
    ensures PrimeMethodsOf(env) ==
      Decide(EnvDirectives(env), {}) + Filter(Variants, m => m !in Mentioned(EnvDirectives(env)))
  {
    var ds := EnvDirectives(env);
    DecideAppend(ds, Defaults(0), {});
    DecideDefaults(0, {} + Mentioned(ds));
    assert {} + Mentioned(ds) == Mentioned(ds);
    assert Variants[0..] == Variants;
  }

  /** Every variant is named by some default directive, which allows it. */
  lemma DefaultsVerdict(k: nat, m: PrimeMethod)
    requires k <= |Variants|
    ensures Verdict(Defaults(k), m) == if m in Variants[k..] then Some(true) else None
    decreases |Variants| - k
  {
    if k < |Variants| {
      DefaultsVerdict(k + 1, m);
      assert Variants[k..] == [Variants[k]] + Variants[k + 1..];
    }
  }

  lemma {:induction false} VerdictAppend(a: seq<Directive>, b: seq<Directive>, m: PrimeMethod)
    ensures Verdict(a + b, m) == if Verdict(a, m).Some? then Verdict(a, m) else Verdict(b, m)
    decreases |a|
  {
    if a == [] {
      assert a + b == b;
    } else {
      assert (a + b)[0] == a[0] && (a + b)[1..] == a[1..] + b;
      VerdictAppend(a[1..], b, m);
    }
  }

  /**
   * A method is tried exactly when the variable does not forbid it before
   * allowing it: the first piece naming it decides, and an unnamed method
   * is tried.
   */
  lemma PrimeMethodsMembers(env: Option<string>, m: PrimeMethod)
    ensures m in PrimeMethodsOf(env) <==> Verdict(EnvDirectives(env), m) != Some(false)
  {
    DefaultsDecideMembers(EnvDirectives(env), m);
  }

  /** A method is decided with the defaults behind unless the first directive naming it forbids it. */
  lemma DefaultsDecideMembers(ds: seq<Directive>, m: PrimeMethod)
    ensures m in Decide(ds + Defaults(0), {}) <==> Verdict(ds, m) != Some(false)
  {
    DecideMembers(ds + Defaults(0), {}, m);
    VerdictAppend(ds, Defaults(0), m);
    DefaultsVerdict(0, m);
    InAllMethods(m);
    assert Variants[0..] == Variants;
    assert Verdict(Defaults(0), m) == Some(true);
    assert m !in {};
    var v := Verdict(ds, m);
    if v.None? {
      assert Verdict(ds + Defaults(0), m) == Verdict(Defaults(0), m);
      assert Verdict(ds + Defaults(0), m) == Some(true);
    } else if v.value {
      assert Verdict(ds + Defaults(0), m) == Some(true);
    }
  }

  /** Every method is a variant. */
  lemma InAllMethods(m: PrimeMethod)
    ensures m in Variants && m in AllMethods
  {
    match m
    case DirectPull => assert Variants[0] == m;
    case Sampling => assert Variants[1] == m;
    case IndirectPull => assert Variants[2] == m;
    case Udmabuf => assert Variants[3] == m;
    case DirectPush => assert Variants[4] == m;
  }

  /** A decision uses up a method of the ones not yet seen. */
  lemma {:induction false} DecideBound(ds: seq<Directive>, seen: set<PrimeMethod>)
    ensures |Decide(ds, seen)| <= |AllMethods - seen|
    decreases |ds|
  {
    if ds != [] {
      var m := ds[0].prime;
      if m in seen {
        DecideBound(ds[1..], seen);
      } else {
        DecideBound(ds[1..], seen + {m});
        InAllMethods(m);
        assert AllMethods - seen == (AllMethods - (seen + {m})) + {m};
      }
    }
  }

  /**
   * `prime_methods` pushes each method at most once, so it never exceeds
   * the capacity `PrimeMethod::LENGTH` of its `ArrayVec`.
   */
  lemma PrimeMethodsFit(env: Option<string>)
    ensures Distinct(PrimeMethodsOf(env)) && |PrimeMethodsOf(env)| <= |Variants|
  {
    var ds := EnvDirectives(env) + Defaults(0);
    assert PrimeMethodsOf(env) == Decide(ds, {});
    DecideFresh(ds, {});
    DecideBound(ds, {});
    assert AllMethods - {} == AllMethods;
    AllMethodsCount();
  }

  /** The five variants are five different methods. */
  lemma AllMethodsCount()
    ensures |AllMethods| == |Variants|
  {
    var s1 := {DirectPull};
    var s2 := s1 + {Sampling};
    var s3 := s2 + {IndirectPull};
    var s4 := s3 + {Udmabuf};
    assert |s4 + {DirectPush}| == 5;
    assert AllMethods == s4 + {DirectPush};
  }

  // ---------------------------------------------------------------------
  // Modifier sets
  // ---------------------------------------------------------------------

  /** `intersect_modifiers`: the elements of `left` that `right` holds, in `left`'s order. */
  function IntersectModifiers(left: seq<Modifier>, right: seq<Modifier>): (r: seq<Modifier>)
    ensures forall m :: m in r <==> m in left && m in right
    ensures forall m :: multiset(r)[m] == if m in right then multiset(left)[m] else 0
    ensures IsSubsequence(r, left)
    decreases |left|
  {
    if left == [] then []
    else
      var rest := IntersectModifiers(left[1..], right);
      assert left == [left[0]] + left[1..];
      if left[0] in right then
        assert ([left[0]] + rest)[1..] == rest;
        [left[0]] + rest
      else
        assert rest == [] || rest[0] != left[0];
        rest
  }

  /** The intersection of a list without repetitions has none either. */
  lemma IntersectDistinct(left: seq<Modifier>, right: seq<Modifier>)
    requires Distinct(left)
    ensures Distinct(IntersectModifiers(left, right))
  {
    SubsequenceDistinct(IntersectModifiers(left, right), left);
  }

  /** `render_modifiers`: the modifiers the device can write, in order. */
  function RenderModifiers(fmt: G.GfxFormat): seq<Modifier> {
    G.Keys(fmt.writeModifiers)
  }

  /**
   * `intersect_render_modifiers`: the modifiers the device can both write
   * and read that `right` holds, in the order of the write map.
   */
  function IntersectRenderModifiers(fmt: G.GfxFormat, right: seq<Modifier>): (r: seq<Modifier>)
    ensures forall m :: m in r <==> m in RenderModifiers(fmt) && m in fmt.readModifiers && m in right
  {
    IntersectModifiers(Filter(RenderModifiers(fmt), m => m in fmt.readModifiers), right)
  }

  /** On a well-formed format the render intersection has no repetitions. */
  lemma IntersectRenderDistinct(fmt: G.GfxFormat, right: seq<Modifier>)
    requires G.WellFormed(fmt)
    ensures Distinct(IntersectRenderModifiers(fmt, right))
  {
    var keep := m => m in fmt.readModifiers;
    FilterIsSubsequence(RenderModifiers(fmt), keep);
    SubsequenceDistinct(Filter(RenderModifiers(fmt), keep), RenderModifiers(fmt));
    IntersectDistinct(Filter(RenderModifiers(fmt), keep), right);
  }

  /** `make_linear_only`: a list that holds `LINEAR` becomes just `LINEAR`. */
  function MakeLinearOnly(ms: seq<Modifier>): (r: seq<Modifier>)
    ensures LINEAR_MODIFIER in ms <==> r == [LINEAR_MODIFIER]
    ensures LINEAR_MODIFIER !in ms ==> r == ms
  {
    if LINEAR_MODIFIER in ms then [LINEAR_MODIFIER] else ms
  }

  /**
   * `make_linear_only` keeps only modifiers of its input and empties no
   * list, so the emptiness check after it sees the intersection itself.
   */
  lemma MakeLinearOnlyKeeps(ms: seq<Modifier>)
    ensures forall m :: m in MakeLinearOnly(ms) ==> m in ms
    ensures MakeLinearOnly(ms) == [] <==> ms == []
    ensures MakeLinearOnly(MakeLinearOnly(ms)) == MakeLinearOnly(ms)
  {
  }

  // ---------------------------------------------------------------------
  // Allocation settings
  // ---------------------------------------------------------------------

  /** `BoAllocationSettings`: the modifiers to choose from and the GBM usage. */
  datatype Settings = Settings(modifiers: seq<Modifier>, usage: Bo.BufferUsage)

  /**
   * The usage of `BoAllocationSettings::new3`: scanout buffers are
   * `SCANOUT`, cursors also `LINEAR`, and `RENDERING` is set when the
   * modifiers need it.
   */
  function AllocationUsage(scanout: bool, cursor: bool, needsRenderUsage: bool): (u: Bo.BufferUsage)
    ensures Bo.Has(u, Bo.BO_USE_SCANOUT) <==> scanout
    ensures Bo.Has(u, Bo.BO_USE_LINEAR) <==> scanout && cursor
    ensures Bo.Has(u, Bo.BO_USE_RENDERING) <==> needsRenderUsage
    ensures u & !(Bo.BO_USE_SCANOUT | Bo.BO_USE_LINEAR | Bo.BO_USE_RENDERING) == 0
  {
    var s: Bo.BufferUsage := if scanout then Bo.BO_USE_SCANOUT else 0;
    var l: Bo.BufferUsage := if scanout && cursor then Bo.BO_USE_LINEAR else 0;
    var rd: Bo.BufferUsage := if needsRenderUsage then Bo.BO_USE_RENDERING else 0;
    s | l | rd
  }

  /** `BoAllocationSettings::new3` */
  function New3(cursor: bool, modifiers: seq<Modifier>, scanout: bool, needsRenderUsage: bool): (r: Settings)
    ensures r.modifiers == modifiers
    ensures r.usage == AllocationUsage(scanout, cursor, needsRenderUsage)
  {
    Settings(modifiers, AllocationUsage(scanout, cursor, needsRenderUsage))
  }

  function Values(w: seq<(Modifier, G.WriteModifier)>): (r: seq<G.WriteModifier>)
    ensures |r| == |w| && forall i :: 0 <= i < |w| ==> r[i] == w[i].1
    decreases |w|
  {
    if w == [] then [] else [w[0].1] + Values(w[1..])
  }

  /** `BoAllocationSettings::new1`: render usage when rendering and some write modifier needs it. */
  function New1(cursor: bool, modifiers: seq<(Modifier, G.WriteModifier)>, scanout: bool, rendering: bool): (r: Settings)
    ensures r.modifiers == G.Keys(modifiers)
    ensures Bo.Has(r.usage, Bo.BO_USE_RENDERING) <==>
      rendering && exists i :: 0 <= i < |modifiers| && modifiers[i].1.needsRenderUsage
  {
    New3(cursor, G.Keys(modifiers), scanout, rendering && G.NeedsRenderUsage(Values(modifiers)))
  }

  /** The write properties of the first entry for `m`, `IndexMap::get`. */
  function WriteOf(w: seq<(Modifier, G.WriteModifier)>, m: Modifier): (r: Option<G.WriteModifier>)
    ensures r.Some? <==> m in G.Keys(w)
    ensures r.Some? ==> (m, r.value) in w
    decreases |w|
  {
    if w == [] then None
    else if w[0].0 == m then Some(w[0].1)
    else
      var rest := WriteOf(w[1..], m);
      assert G.Keys(w) == [w[0].0] + G.Keys(w[1..]);
      rest
  }

  /** `filter_map(|m| fmt.write_modifiers.get(m))` */
  function WritesOf(fmt: G.GfxFormat, ms: seq<Modifier>): seq<G.WriteModifier>
    decreases |ms|
  {
    if ms == [] then []
    else
      var w := WriteOf(fmt.writeModifiers, ms[0]);
      (if w.Some? then [w.value] else []) + WritesOf(fmt, ms[1..])
  }

  /** `BoAllocationSettings::new2`: render usage looked up in the format's write map. */
  function New2(cursor: bool, modifiers: seq<Modifier>, fmt: G.GfxFormat, scanout: bool, rendering: bool): (r: Settings)
    ensures r.modifiers == modifiers
    ensures !rendering ==> !Bo.Has(r.usage, Bo.BO_USE_RENDERING)
  {
    New3(cursor, modifiers, scanout, rendering && G.NeedsRenderUsage(WritesOf(fmt, modifiers)))
  }

  /** Render usage of `new2` is asked for exactly when a listed modifier's write properties need it. */
  lemma {:induction false} New2Usage(cursor: bool, modifiers: seq<Modifier>, fmt: G.GfxFormat, scanout: bool)
    ensures Bo.Has(New2(cursor, modifiers, fmt, scanout, true).usage, Bo.BO_USE_RENDERING) <==>
      exists m, w :: m in modifiers && (m, w) in fmt.writeModifiers && WriteOf(fmt.writeModifiers, m) == Some(w) && w.needsRenderUsage
    decreases |modifiers|
  {
    WritesOfMeans(fmt, modifiers);
  }

  lemma {:induction false} WritesOfMeans(fmt: G.GfxFormat, ms: seq<Modifier>)
    ensures G.NeedsRenderUsage(WritesOf(fmt, ms)) <==>
      exists m, w :: m in ms && (m, w) in fmt.writeModifiers && WriteOf(fmt.writeModifiers, m) == Some(w) && w.needsRenderUsage
    decreases |ms|
  {
    if ms != [] {
      WritesOfMeans(fmt, ms[1..]);
      var w := WriteOf(fmt.writeModifiers, ms[0]);
      var head: seq<G.WriteModifier> := if w.Some? then [w.value] else [];
      var all := head + WritesOf(fmt, ms[1..]);
      if G.NeedsRenderUsage(all) {
        var i :| 0 <= i < |all| && all[i].needsRenderUsage;
        if i < |head| {
          assert ms[0] in ms;
        } else {
          assert all[i] == WritesOf(fmt, ms[1..])[i - |head|];
          var m, x :| m in ms[1..] && (m, x) in fmt.writeModifiers && WriteOf(fmt.writeModifiers, m) == Some(x) && x.needsRenderUsage;
          assert m in ms;
        }
      } else {
        forall m, x | m in ms && (m, x) in fmt.writeModifiers && WriteOf(fmt.writeModifiers, m) == Some(x)
          ensures !x.needsRenderUsage
        {
          if m == ms[0] {
            assert all[0] == x;
          } else {
            assert m in ms[1..];
            forall i | 0 <= i < |WritesOf(fmt, ms[1..])| ensures !WritesOf(fmt, ms[1..])[i].needsRenderUsage {
              assert all[i + |head|] == WritesOf(fmt, ms[1..])[i];
            }
          }
        }
      }
    }
  }

  // ---------------------------------------------------------------------
  // Copy-device modifiers
  // ---------------------------------------------------------------------

  /** `CopyDeviceSupport`: a modifier a copy device can read or write, up to a size. */
  datatype CopySupport = CopySupport(modifier: Modifier, maxWidth: nat, maxHeight: nat)

  /** A copy device's support for the buffer's format, as source and as destination. */
  datatype CopyDevice = CopyDevice(id: nat, src: seq<CopySupport>, dst: seq<CopySupport>)

  /** `copy_modifiers`: the supported modifiers whose maximum size covers the buffer. */
  function CopyModifiers(support: seq<CopySupport>, width: nat, height: nat): (r: seq<Modifier>)
    ensures forall m :: m in r <==>
      exists i :: 0 <= i < |support| && support[i].modifier == m &&
                  support[i].maxWidth >= width && support[i].maxHeight >= height
    decreases |support|
  {
    if support == [] then []
    else
      var rest := CopyModifiers(support[1..], width, height);
      assert forall i :: 1 <= i < |support| ==> support[i] == support[1..][i - 1];
      if support[0].maxWidth >= width && support[0].maxHeight >= height then [support[0].modifier] + rest
      else rest
  }

  /** `copy_supports_linear` */
  predicate CopySupportsLinear(support: seq<CopySupport>, width: nat, height: nat) {
    LINEAR_MODIFIER in CopyModifiers(support, width, height)
  }

  // ---------------------------------------------------------------------
  // Preparing a method
  // ---------------------------------------------------------------------

  /** `ScanoutBufferErrorKind`; the device errors carry no payload here. */
  datatype ErrorKind =
    | SodUnsupportedFormat | SodBufferAllocation | SodAddfb2 | SodImportSodImage | SodImportFb
    | RenderWriteReadSodReadIntersection | SodWriteReadPlaneIntersection | SodWritePlaneIntersection
    | RenderWriteReadCopySrcIntersection | SodPlaneRenderCopyDstIntersection
    | RenderWriteReadSodCopySrcIntersection | SodPlaneCopyDstIntersection
    | RenderBufferAllocation | RenderImportImage | RenderImportFb | RenderClear
    | RenderImportRenderTexture | SodImportRenderImage | SodImportRenderTexture
    | UdmabufNotAvailable | RenderNoCopyDevice | SodNoCopyDevice | RenderNoCopyToLinear
    | SodNoCopyFromLinear | CreateUdmabuf | RenderCreateCopyToUdmabuf | RenderCreateCopyToSecondary
    | SodCreateCopyFromUdmabuf | SodCreateCopyFromSecondary | SodCreateCopyFromRender
    | RenderCreateCopyToSod | RenderCreateCopyBuffer

  /**
   * `Builder`: what every method allocates for. The formats are those of
   * the buffer's format on the render and the scanout device (`devFormat`
   * is `None` when the scanout device's renderer lacks it); the copy
   * devices are those of the two contexts, if any.
   */
  datatype Builder = Builder(
    renderFormat: G.GfxFormat,
    devFormat: Option<G.GfxFormat>,
    planeModifiers: seq<Modifier>,
    width: nat,
    height: nat,
    cursor: bool,
    renderCopy: Option<CopyDevice>,
    devCopy: Option<CopyDevice>,
    udmabuf: bool)

  /**
   * The prepared allocation of a method: the render buffer's settings and,
   * for a method other than no-prime, the scanout buffer's settings and the
   * copy devices it keeps.
   */
  datatype Prepared = Prepared(render: Settings, dev: Option<Settings>)

  /** The write entries of the render format that `keep` accepts and the format can read. */
  function WritableReadable(fmt: G.GfxFormat, keep: Modifier -> bool): seq<(Modifier, G.WriteModifier)> {
    Filter(fmt.writeModifiers, (e: (Modifier, G.WriteModifier)) => e.1 == e.1 && keep(e.0) && e.0 in fmt.readModifiers)
  }

  /**
   * `prepare_prime_none`: the render buffer is scanned out, so it must use
   * a modifier the device can write and read and the plane accepts.
   */
  function PrepareNone(b: Builder): (r: Result<Prepared, ErrorKind>)
    ensures r.Err? <==> (forall m :: !(m in RenderModifiers(b.renderFormat) && m in b.renderFormat.readModifiers && m in b.planeModifiers))
    ensures r.Err? ==> r.error == SodWriteReadPlaneIntersection
    ensures r.Ok? ==> r.value.dev.None? && Bo.Has(r.value.render.usage, Bo.BO_USE_SCANOUT)
    ensures r.Ok? ==> forall m :: m in r.value.render.modifiers <==>
      m in RenderModifiers(b.renderFormat) && m in b.renderFormat.readModifiers && m in b.planeModifiers
  {
    var mods := Filter(b.renderFormat.writeModifiers,
                       (e: (Modifier, G.WriteModifier)) => e.0 in b.planeModifiers && e.0 in b.renderFormat.readModifiers);
    KeysOfFilter(b.renderFormat.writeModifiers, b.planeModifiers, b.renderFormat.readModifiers);
    if mods == [] then Err(SodWriteReadPlaneIntersection)
    else Ok(Prepared(New1(b.cursor, mods, true, true), None))
  }

  /** The keys of the write entries kept for two modifier lists. */
  lemma KeysOfFilter(w: seq<(Modifier, G.WriteModifier)>, a: seq<Modifier>, c: seq<Modifier>)
    ensures var f := Filter(w, (e: (Modifier, G.WriteModifier)) => e.0 in a && e.0 in c);
      && (f == [] <==> forall m :: !(m in G.Keys(w) && m in a && m in c))
      && (forall m :: m in G.Keys(f) <==> m in G.Keys(w) && m in a && m in c)
  {
    var keep := (e: (Modifier, G.WriteModifier)) => e.0 in a && e.0 in c;
    var f := Filter(w, keep);
    forall m ensures m in G.Keys(f) <==> m in G.Keys(w) && m in a && m in c {
      if m in G.Keys(f) {
        var i :| 0 <= i < |f| && G.Keys(f)[i] == m;
        assert f[i] in f;
        var j :| 0 <= j < |w| && w[j] == f[i];
        assert G.Keys(w)[j] == m;
      }
      if m in G.Keys(w) && m in a && m in c {
        var j :| 0 <= j < |w| && G.Keys(w)[j] == m;
        assert w[j] in w && keep(w[j]);
        assert w[j] in f;
        var i :| 0 <= i < |f| && f[i] == w[j];
        assert G.Keys(f)[i] == m;
      }
    }
    if f != [] {
      assert G.Keys(f)[0] in G.Keys(f);
    }
  }

  /**
   * `prepare_prime_sampling`: the scanout device samples the render
   * buffer, so the render buffer needs a modifier the render device writes
   * and reads and the scanout device reads; the scanout buffer is written by
   * the scanout device with a modifier the plane accepts.
   */
  function PrepareSampling(b: Builder): (r: Result<Prepared, ErrorKind>)
    ensures b.devFormat.None? ==> r == Err(SodUnsupportedFormat)
    ensures b.devFormat.Some? ==> var dev := b.devFormat.value;
      && (r == Err(RenderWriteReadSodReadIntersection) <==>
            forall m :: !(m in RenderModifiers(b.renderFormat) && m in b.renderFormat.readModifiers && m in dev.readModifiers))
      && (r == Err(SodWritePlaneIntersection) <==>
            (exists m :: m in RenderModifiers(b.renderFormat) && m in b.renderFormat.readModifiers && m in dev.readModifiers) &&
            forall m :: !(m in RenderModifiers(dev) && m in b.planeModifiers))
      && (r.Err? ==> r.error in {RenderWriteReadSodReadIntersection, SodWritePlaneIntersection})
    ensures r.Ok? ==> r.value.dev.Some? && b.devFormat.Some?
    ensures r.Ok? ==> !Bo.Has(r.value.render.usage, Bo.BO_USE_SCANOUT) && Bo.Has(r.value.dev.value.usage, Bo.BO_USE_SCANOUT)
    ensures r.Ok? ==> forall m :: m in r.value.render.modifiers ==>
      m in RenderModifiers(b.renderFormat) && m in b.renderFormat.readModifiers && m in b.devFormat.value.readModifiers
    ensures r.Ok? ==> forall m :: m in r.value.dev.value.modifiers ==> m in RenderModifiers(b.devFormat.value) && m in b.planeModifiers
  {
    match b.devFormat
    case None => Err(SodUnsupportedFormat)
    case Some(dev) =>
      var renderPossible := Filter(b.renderFormat.writeModifiers,
                                   (e: (Modifier, G.WriteModifier)) => e.0 in b.renderFormat.readModifiers && e.0 in dev.readModifiers);
      KeysOfFilter(b.renderFormat.writeModifiers, b.renderFormat.readModifiers, dev.readModifiers);
      if renderPossible == [] then Err(RenderWriteReadSodReadIntersection)
      else
        var devPossible := Filter(dev.writeModifiers,
                                  (e: (Modifier, G.WriteModifier)) => e.0 in b.planeModifiers && e.0 in b.planeModifiers);
        KeysOfFilter(dev.writeModifiers, b.planeModifiers, b.planeModifiers);
        if devPossible == [] then Err(SodWritePlaneIntersection)
        else Ok(Prepared(New1(b.cursor, renderPossible, false, true), Some(New1(b.cursor, devPossible, true, true))))
  }

  /**
   * The scanout modifiers of a copying method: the plane's modifiers that
   * the copy destination supports at this size, `LINEAR` alone if it is
   * among them.
   */
  function CopyDstModifiers(b: Builder, copy: CopyDevice): (r: seq<Modifier>)
    ensures forall m :: m in r ==> m in b.planeModifiers && m in CopyModifiers(copy.dst, b.width, b.height)
    ensures r == [] <==> forall m :: !(m in b.planeModifiers && m in CopyModifiers(copy.dst, b.width, b.height))
    ensures LINEAR_MODIFIER in b.planeModifiers && LINEAR_MODIFIER in CopyModifiers(copy.dst, b.width, b.height) ==>
      r == [LINEAR_MODIFIER]
  {
    var both := IntersectModifiers(b.planeModifiers, CopyModifiers(copy.dst, b.width, b.height));
    MakeLinearOnlyKeeps(both);
    assert both != [] ==> both[0] in both;
    MakeLinearOnly(both)
  }

  /** The settings of a copying method once its modifier sets are known. */
  function CopySettings(b: Builder, renderPossible: seq<Modifier>, devModifiers: seq<Modifier>): (r: Prepared)
    ensures r.render.modifiers == renderPossible && r.dev.Some? && r.dev.value.modifiers == devModifiers
    ensures !Bo.Has(r.render.usage, Bo.BO_USE_SCANOUT)
    ensures Bo.Has(r.dev.value.usage, Bo.BO_USE_SCANOUT) && !Bo.Has(r.dev.value.usage, Bo.BO_USE_RENDERING)
  {
    Prepared(New2(b.cursor, renderPossible, b.renderFormat, false, true), Some(New3(b.cursor, devModifiers, true, false)))
  }

  /**
   * `prepare_direct_copy_push`: the render device's copy engine writes the
   * scanout buffer; the render buffer must be a copy source of the render
   * copy device and the scanout buffer its destination.
   */
  function PrepareDirectPush(b: Builder): (r: Result<Prepared, ErrorKind>)
    ensures b.renderCopy.None? ==> r == Err(RenderNoCopyDevice)
    ensures b.renderCopy.Some? && b.devCopy.None? ==> r == Err(SodNoCopyDevice)
    ensures b.renderCopy.Some? && b.devCopy.Some? ==> var rc := b.renderCopy.value;
      var rp := IntersectRenderModifiers(b.renderFormat, CopyModifiers(rc.src, b.width, b.height));
      && (rp == [] ==> r == Err(RenderWriteReadCopySrcIntersection))
      && (rp != [] ==> r == if CopyDstModifiers(b, rc) == [] then Err(SodPlaneRenderCopyDstIntersection)
                            else Ok(CopySettings(b, rp, CopyDstModifiers(b, rc))))
  {
    match b.renderCopy
    case None => Err(RenderNoCopyDevice)
    case Some(rc) =>
      if b.devCopy.None? then Err(SodNoCopyDevice)
      else
        var renderPossible := IntersectRenderModifiers(b.renderFormat, CopyModifiers(rc.src, b.width, b.height));
        if renderPossible == [] then Err(RenderWriteReadCopySrcIntersection)
        else
          var devModifiers := CopyDstModifiers(b, rc);
          if devModifiers == [] then Err(SodPlaneRenderCopyDstIntersection)
          else Ok(CopySettings(b, renderPossible, devModifiers))
  }

  /**
   * `prepare_direct_copy_pull`: the scanout device's copy engine reads the
   * render buffer and writes the scanout buffer.
   */
  function PrepareDirectPull(b: Builder): (r: Result<Prepared, ErrorKind>)
    ensures b.devCopy.None? ==> r == Err(SodNoCopyDevice)
    ensures b.devCopy.Some? ==> var dc := b.devCopy.value;
      var rp := IntersectRenderModifiers(b.renderFormat, CopyModifiers(dc.src, b.width, b.height));
      && (rp == [] ==> r == Err(RenderWriteReadSodCopySrcIntersection))
      && (rp != [] ==> r == if CopyDstModifiers(b, dc) == [] then Err(SodPlaneCopyDstIntersection)
                            else Ok(CopySettings(b, rp, CopyDstModifiers(b, dc))))
  {
    match b.devCopy
    case None => Err(SodNoCopyDevice)
    case Some(dc) =>
      var renderPossible := IntersectRenderModifiers(b.renderFormat, CopyModifiers(dc.src, b.width, b.height));
      if renderPossible == [] then Err(RenderWriteReadSodCopySrcIntersection)
      else
        var devModifiers := CopyDstModifiers(b, dc);
        if devModifiers == [] then Err(SodPlaneCopyDstIntersection)
        else Ok(CopySettings(b, renderPossible, devModifiers))
  }

  /**
   * `prepare_indirect_copy_pull`: the render device copies into a linear
   * buffer, which the scanout device copies into the scanout buffer.
   */
  function PrepareIndirectPull(b: Builder): (r: Result<Prepared, ErrorKind>)
    ensures b.renderCopy.None? ==> r == Err(RenderNoCopyDevice)
    ensures b.renderCopy.Some? && b.devCopy.None? ==> r == Err(SodNoCopyDevice)
    ensures b.renderCopy.Some? && b.devCopy.Some? ==> var rc := b.renderCopy.value; var dc := b.devCopy.value;
      var rp := IntersectRenderModifiers(b.renderFormat, CopyModifiers(rc.src, b.width, b.height));
      r == if rp == [] then Err(RenderWriteReadCopySrcIntersection)
           else if !CopySupportsLinear(rc.dst, b.width, b.height) then Err(RenderNoCopyToLinear)
           else if !CopySupportsLinear(dc.src, b.width, b.height) then Err(SodNoCopyFromLinear)
           else if CopyDstModifiers(b, dc) == [] then Err(SodPlaneCopyDstIntersection)
           else Ok(CopySettings(b, rp, CopyDstModifiers(b, dc)))
  {
    match b.renderCopy
    case None => Err(RenderNoCopyDevice)
    case Some(rc) =>
      match b.devCopy
      case None => Err(SodNoCopyDevice)
      case Some(dc) =>
        var renderPossible := IntersectRenderModifiers(b.renderFormat, CopyModifiers(rc.src, b.width, b.height));
        if renderPossible == [] then Err(RenderWriteReadCopySrcIntersection)
        else if !CopySupportsLinear(rc.dst, b.width, b.height) then Err(RenderNoCopyToLinear)
        else if !CopySupportsLinear(dc.src, b.width, b.height) then Err(SodNoCopyFromLinear)
        else
          var devModifiers := CopyDstModifiers(b, dc);
          if devModifiers == [] then Err(SodPlaneCopyDstIntersection)
          else Ok(CopySettings(b, renderPossible, devModifiers))
  }

  /**
   * `prepare_copy_udmabuf`: like the indirect pull, with a udmabuf as the
   * linear buffer in between; the linear checks come before the modifier
   * intersections.
   */
  function PrepareUdmabuf(b: Builder): (r: Result<Prepared, ErrorKind>)
    ensures !b.udmabuf ==> r == Err(UdmabufNotAvailable)
    ensures b.udmabuf && b.renderCopy.None? ==> r == Err(RenderNoCopyDevice)
    ensures b.udmabuf && b.renderCopy.Some? ==> var rc := b.renderCopy.value;
      && (!CopySupportsLinear(rc.dst, b.width, b.height) ==> r == Err(RenderNoCopyToLinear))
      && (CopySupportsLinear(rc.dst, b.width, b.height) && b.devCopy.None? ==> r == Err(SodNoCopyDevice))
    ensures b.udmabuf && b.renderCopy.Some? && b.devCopy.Some? && CopySupportsLinear(b.renderCopy.value.dst, b.width, b.height) ==>
      var rc := b.renderCopy.value; var dc := b.devCopy.value;
      var rp := IntersectRenderModifiers(b.renderFormat, CopyModifiers(rc.src, b.width, b.height));
      r == if !CopySupportsLinear(dc.src, b.width, b.height) then Err(SodNoCopyFromLinear)
           else if rp == [] then Err(RenderWriteReadCopySrcIntersection)
           else if CopyDstModifiers(b, dc) == [] then Err(SodPlaneCopyDstIntersection)
           else Ok(CopySettings(b, rp, CopyDstModifiers(b, dc)))
  {
    if !b.udmabuf then Err(UdmabufNotAvailable)
    else
      match b.renderCopy
      case None => Err(RenderNoCopyDevice)
      case Some(rc) =>
        if !CopySupportsLinear(rc.dst, b.width, b.height) then Err(RenderNoCopyToLinear)
        else
          match b.devCopy
          case None => Err(SodNoCopyDevice)
          case Some(dc) =>
            if !CopySupportsLinear(dc.src, b.width, b.height) then Err(SodNoCopyFromLinear)
            else
              var renderPossible := IntersectRenderModifiers(b.renderFormat, CopyModifiers(rc.src, b.width, b.height));
              if renderPossible == [] then Err(RenderWriteReadCopySrcIntersection)
              else
                var devModifiers := CopyDstModifiers(b, dc);
                if devModifiers == [] then Err(SodPlaneCopyDstIntersection)
                else Ok(CopySettings(b, renderPossible, devModifiers))
  }

  /** The `prepare_*` of a method; `None` is the no-prime path. */
  function Prepare(b: Builder, pm: Option<PrimeMethod>): Result<Prepared, ErrorKind> {
    match pm
    case None => PrepareNone(b)
    case Some(DirectPull) => PrepareDirectPull(b)
    case Some(DirectPush) => PrepareDirectPush(b)
    case Some(Udmabuf) => PrepareUdmabuf(b)
    case Some(Sampling) => PrepareSampling(b)
    case Some(IndirectPull) => PrepareIndirectPull(b)
  }

  /**
   * A copying method allocates the scanout buffer with modifiers the plane
   * accepts and the copy destination can write at this size, and linearly
   * whenever both allow `LINEAR`.
   */
  lemma CopyMethodsScanOutWhatThePlaneTakes(b: Builder, pm: PrimeMethod)
    requires pm != Sampling && Prepare(b, Some(pm)).Ok?
    ensures var p := Prepare(b, Some(pm)).value; var dc := b.devCopy.value;
      && b.devCopy.Some? && p.dev.Some?
      && var copy := if pm == DirectPush then b.renderCopy.value else dc;
         && (forall m :: m in p.dev.value.modifiers ==>
               m in b.planeModifiers && m in CopyModifiers(copy.dst, b.width, b.height))
         && (LINEAR_MODIFIER in b.planeModifiers && LINEAR_MODIFIER in CopyModifiers(copy.dst, b.width, b.height) ==>
               p.dev.value.modifiers == [LINEAR_MODIFIER])
  {
  }

  // ---------------------------------------------------------------------
  // create_scanout_buffers
  // ---------------------------------------------------------------------

  /** `ScanoutBufferError`: the failure of one method (device names and debug data left out). */
  datatype ScanoutBufferError = ScanoutBufferError(kind: ErrorKind, prime: Option<PrimeMethod>)

  /** The errors of `create_scanout_buffers` (`MetalError`). */
  datatype AllocError =
    | RenderUnsupportedFormat
    | AllocateScanoutBuffer(error: ScanoutBufferError)
    | AllocateScanoutBufferPrime(errors: seq<ScanoutBufferError>)

  /** A scanout buffer: the method that produced it and the buffer the present loop uses. */
  datatype ScanoutBuffer = ScanoutBuffer(prime: Option<PrimeMethod>, buffer: P.RenderBuffer, blendBuffer: bool)

  /**
   * The device side of allocating buffer `k` with a method: GBM
   * allocation, imports, the framebuffer and the copies. It answers the
   * new framebuffer's id or the error kind.
   */
  type Allocate = (Option<PrimeMethod>, Prepared, nat) -> Result<nat, ErrorKind>

  /** The buffers `create_scanout_buffers_` builds from the first `n` successful allocations. */
  function Built(b: Builder, pm: Option<PrimeMethod>, prepared: Prepared, blend: bool, alloc: Allocate, n: nat)
    : seq<ScanoutBuffer>
    decreases n
  {
    if n == 0 then []
    else
      var fb := alloc(pm, prepared, n - 1);
      Built(b, pm, prepared, blend, alloc, n - 1)
        + [ScanoutBuffer(pm, P.RenderBuffer(if fb.Ok? then fb.value else 0, b.width, b.height, [], true), blend)]
  }

  /** Allocations `0 .. n-1` all succeed. */
  predicate AllocatesAll(pm: Option<PrimeMethod>, prepared: Prepared, alloc: Allocate, n: nat) {
    forall k :: 0 <= k < n ==> alloc(pm, prepared, k).Ok?
  }

  /** The first failing allocation among `0 .. n-1`. */
  function FirstFailure(pm: Option<PrimeMethod>, prepared: Prepared, alloc: Allocate, n: nat): (r: nat)
    requires !AllocatesAll(pm, prepared, alloc, n)
    ensures r < n && alloc(pm, prepared, r).Err? && AllocatesAll(pm, prepared, alloc, r)
    decreases n
  {
    if AllocatesAll(pm, prepared, alloc, n - 1) then n - 1 else FirstFailure(pm, prepared, alloc, n - 1)
  }

  /** The present loop's view of a list of scanout buffers. */
  function Buffers(s: seq<ScanoutBuffer>): (r: seq<P.RenderBuffer>)
    ensures |r| == |s| && forall i :: 0 <= i < |s| ==> r[i] == s[i].buffer
  {
    seq(|s|, i requires 0 <= i < |s| => s[i].buffer)
  }

  /** `damage_full` of the first buffer, applied to the list. */
  function WithFullDamage(s: seq<ScanoutBuffer>): (r: seq<ScanoutBuffer>)
    ensures |r| == |s|
    ensures |s| > 0 ==> Buffers(r) == P.DamageFull(Buffers(s), 0)
    ensures forall i :: 0 <= i < |s| ==> r[i] == s[i].(buffer := r[i].buffer)
  {
    if |s| == 0 then s
    else
      var d := P.DamageFull(Buffers(s), 0);
      seq(|s|, i requires 0 <= i < |s| => s[i].(buffer := d[i]))
  }

  /**
   * `create_scanout_buffers_`: `n` buffers, each with its own queue of a
   * fresh queue group, are allocated in turn; the first failure is the
   * result. Afterwards the first buffer is fully damaged.
   */
  method CreateBuffers(b: Builder, pm: Option<PrimeMethod>, prepared: Prepared, blend: bool, alloc: Allocate, n: nat)
    returns (r: Result<seq<ScanoutBuffer>, ErrorKind>)
    ensures r.Ok? <==> AllocatesAll(pm, prepared, alloc, n)
    ensures r.Ok? ==> r.value == WithFullDamage(Built(b, pm, prepared, blend, alloc, n))
    ensures r.Err? ==> r.error == alloc(pm, prepared, FirstFailure(pm, prepared, alloc, n)).error
  {
    var bufs: seq<ScanoutBuffer> := [];
    var k := 0;
    while k < n
      invariant 0 <= k <= n
      invariant AllocatesAll(pm, prepared, alloc, k)
      invariant bufs == Built(b, pm, prepared, blend, alloc, k)
    {
      var fb := alloc(pm, prepared, k);
      if fb.Err? {
        assert !AllocatesAll(pm, prepared, alloc, n);
        FirstFailureIs(pm, prepared, alloc, n, k);
        return Err(fb.error);
      }
      bufs := bufs + [ScanoutBuffer(pm, P.RenderBuffer(fb.value, b.width, b.height, [], true), blend)];
      k := k + 1;
    }
    if |bufs| > 0 {
      bufs := WithFullDamage(bufs);
    }
    return Ok(bufs);
  }

  lemma FirstFailureIs(pm: Option<PrimeMethod>, prepared: Prepared, alloc: Allocate, n: nat, k: nat)
    requires k < n && AllocatesAll(pm, prepared, alloc, k) && alloc(pm, prepared, k).Err?
    ensures !AllocatesAll(pm, prepared, alloc, n) && FirstFailure(pm, prepared, alloc, n) == k
    decreases n
  {
    if k < n - 1 {
      assert !AllocatesAll(pm, prepared, alloc, n - 1);
      FirstFailureIs(pm, prepared, alloc, n - 1, k);
    }
  }

  /** The built buffers have the builder's size, are locked and owe no damage yet. */
  lemma {:induction false} BuiltBuffers(b: Builder, pm: Option<PrimeMethod>, prepared: Prepared, blend: bool, alloc: Allocate, n: nat)
    requires AllocatesAll(pm, prepared, alloc, n)
    ensures var s := Built(b, pm, prepared, blend, alloc, n);
      && |s| == n
      && forall i :: 0 <= i < n ==>
           s[i] == ScanoutBuffer(pm, P.RenderBuffer(alloc(pm, prepared, i).value, b.width, b.height, [], true), blend)
    decreases n
  {
    if n > 0 {
      BuiltBuffers(b, pm, prepared, blend, alloc, n - 1);
    }
  }

  /**
   * New scanout buffers are complete, locked, of the builder's size and,
   * through the first buffer's `damage_full`, every one owes a full redraw.
   */
  lemma NewBuffersOweFullRedraw(b: Builder, pm: Option<PrimeMethod>, prepared: Prepared, blend: bool, alloc: Allocate, n: nat)
    requires AllocatesAll(pm, prepared, alloc, n) && n > 0
    ensures var s := WithFullDamage(Built(b, pm, prepared, blend, alloc, n));
      && |s| == n
      && forall i :: 0 <= i < n ==>
           && s[i].prime == pm && s[i].buffer.locked
           && s[i].buffer.width == b.width && s[i].buffer.height == b.height
           && s[i].buffer.fb == alloc(pm, prepared, i).value
           && s[i].buffer.damage == [AtOrigin(b.width, b.height)]
  {
    BuiltBuffers(b, pm, prepared, blend, alloc, n);
  }

  /** The outcome of trying one method: prepare, then allocate all buffers. */
  function TryMethod(b: Builder, pm: Option<PrimeMethod>, blend: bool, alloc: Allocate, n: nat)
    : Result<seq<ScanoutBuffer>, ScanoutBufferError>
  {
    match Prepare(b, pm)
    case Err(kind) => Err(ScanoutBufferError(kind, pm))
    case Ok(p) =>
      if AllocatesAll(pm, p, alloc, n) then Ok(WithFullDamage(Built(b, pm, p, blend, alloc, n)))
      else Err(ScanoutBufferError(alloc(pm, p, FirstFailure(pm, p, alloc, n)).error, pm))
  }

  /** The fallback over the methods: the first success, else every failure in order. */
  function TryMethods(b: Builder, methods: seq<PrimeMethod>, blend: bool, alloc: Allocate, n: nat)
    : Result<seq<ScanoutBuffer>, seq<ScanoutBufferError>>
    decreases |methods|
  {
    if methods == [] then Err([])
    else
      match TryMethod(b, Some(methods[0]), blend, alloc, n)
      case Ok(bufs) => Ok(bufs)
      case Err(e) =>
        match TryMethods(b, methods[1..], blend, alloc, n)
        case Ok(bufs) => Ok(bufs)
        case Err(es) => Err([e] + es)
  }

  /** The scanout and render device's identities and the formats the render device supports. */
  datatype Devices = Devices(devId: nat, renderDevId: nat, renderSupportsFormat: bool, blendBufferOk: bool)

  /** `create_scanout_buffers` as a function of its inputs. */
  function ScanoutBuffersOf(d: Devices, b: Builder, methods: seq<PrimeMethod>, alloc: Allocate, n: nat)
    : Result<seq<ScanoutBuffer>, AllocError>
  {
    if !d.renderSupportsFormat then Err(RenderUnsupportedFormat)
    else
      var blend := !b.cursor && d.blendBufferOk;
      if d.renderDevId == d.devId then
        match TryMethod(b, None, blend, alloc, n)
        case Ok(bufs) => Ok(bufs)
        case Err(e) => Err(AllocateScanoutBuffer(e))
      else
        match TryMethods(b, methods, blend, alloc, n)
        case Ok(bufs) => Ok(bufs)
        case Err(es) => Err(AllocateScanoutBufferPrime(es))
  }

  /** One attempt of `create_scanout_buffers`: prepare the method, then allocate. */
  method TryCreate(b: Builder, pm: Option<PrimeMethod>, blend: bool, alloc: Allocate, n: nat)
    returns (r: Result<seq<ScanoutBuffer>, ScanoutBufferError>)
    ensures r == TryMethod(b, pm, blend, alloc, n)
  {
    var prepared := Prepare(b, pm);
    if prepared.Err? {
      return Err(ScanoutBufferError(prepared.error, pm));
    }
    var bufs := CreateBuffers(b, pm, prepared.value, blend, alloc, n);
    if bufs.Err? {
      return Err(ScanoutBufferError(bufs.error, pm));
    }
    return Ok(bufs.value);
  }

  /**
   * `create_scanout_buffers`: no prime when both devices are the same;
   * otherwise the methods in order, collecting every failure, until one
   * succeeds.
   */
  method CreateScanoutBuffers(d: Devices, b: Builder, methods: seq<PrimeMethod>, alloc: Allocate, n: nat)
    returns (r: Result<seq<ScanoutBuffer>, AllocError>)
    ensures r == ScanoutBuffersOf(d, b, methods, alloc, n)
  {
    if !d.renderSupportsFormat {
      return Err(RenderUnsupportedFormat);
    }
    var blend := !b.cursor && d.blendBufferOk;
    if d.renderDevId == d.devId {
      var res := TryCreate(b, None, blend, alloc, n);
      if res.Err? {
        return Err(AllocateScanoutBuffer(res.error));
      }
      return Ok(res.value);
    }
    var errors: seq<ScanoutBufferError> := [];
    var i := 0;
    assert methods[0..] == methods;
    assert TryMethods(b, methods, blend, alloc, n).Err? ==>
      [] + TryMethods(b, methods, blend, alloc, n).error == TryMethods(b, methods, blend, alloc, n).error;
    while i < |methods|
      invariant 0 <= i <= |methods|
      invariant TryMethods(b, methods, blend, alloc, n) == Retried(errors, TryMethods(b, methods[i..], blend, alloc, n))
    {
      TryMethodsStep(b, methods[i..], blend, alloc, n);
      assert methods[i..][0] == methods[i] && methods[i..][1..] == methods[i + 1..];
      var res := TryCreate(b, Some(methods[i]), blend, alloc, n);
      if res.Ok? {
        return Ok(res.value);
      }
      RetriedAppend(errors, res.error, TryMethods(b, methods[i + 1..], blend, alloc, n));
      errors := errors + [res.error];
      i := i + 1;
    }
    assert methods[i..] == [] && errors + [] == errors;
    return Err(AllocateScanoutBufferPrime(errors));
  }

  /** A later result, with the failures before it put in front of its own. */
  function Retried(errors: seq<ScanoutBufferError>, later: Result<seq<ScanoutBuffer>, seq<ScanoutBufferError>>)
    : Result<seq<ScanoutBuffer>, seq<ScanoutBufferError>>
  {
    match later
    case Ok(bufs) => Ok(bufs)
    case Err(es) => Err(errors + es)
  }

  lemma RetriedAppend(errors: seq<ScanoutBufferError>, e: ScanoutBufferError,
                      later: Result<seq<ScanoutBuffer>, seq<ScanoutBufferError>>)
    ensures Retried(errors, match later case Ok(bufs) => Ok(bufs) case Err(es) => Err([e] + es))
         == Retried(errors + [e], later)
  {
    if later.Err? {
      assert errors + ([e] + later.error) == errors + [e] + later.error;
    }
  }

  lemma TryMethodsStep(b: Builder, methods: seq<PrimeMethod>, blend: bool, alloc: Allocate, n: nat)
    requires methods != []
    ensures TryMethods(b, methods, blend, alloc, n) ==
      match TryMethod(b, Some(methods[0]), blend, alloc, n)
      case Ok(bufs) => Ok(bufs)
      case Err(e) =>
        match TryMethods(b, methods[1..], blend, alloc, n)
        case Ok(bufs) => Ok(bufs)
        case Err(es) => Err([e] + es)
  {
  }

  /**
   * The fallback returns the buffers of the first method that succeeds,
   * and fails with exactly one error per method, in order, tagged with it.
   */
  lemma {:induction false} TryMethodsMeans(b: Builder, methods: seq<PrimeMethod>, blend: bool, alloc: Allocate, n: nat)
    ensures var r := TryMethods(b, methods, blend, alloc, n);
      && (r.Ok? <==> exists i :: 0 <= i < |methods| && TryMethod(b, Some(methods[i]), blend, alloc, n).Ok?)
      && (r.Ok? ==> exists i :: 0 <= i < |methods| && TryMethod(b, Some(methods[i]), blend, alloc, n) == Ok(r.value)
                      && forall j :: 0 <= j < i ==> TryMethod(b, Some(methods[j]), blend, alloc, n).Err?)
      && (r.Err? ==> |r.error| == |methods| && forall j :: 0 <= j < |methods| ==>
                       TryMethod(b, Some(methods[j]), blend, alloc, n) == Err(r.error[j]) && r.error[j].prime == Some(methods[j]))
    decreases |methods|
  {
    if methods != [] {
      TryMethodsMeans(b, methods[1..], blend, alloc, n);
      var head := TryMethod(b, Some(methods[0]), blend, alloc, n);
      var r := TryMethods(b, methods, blend, alloc, n);
      var rest := TryMethods(b, methods[1..], blend, alloc, n);
      assert forall j :: 1 <= j < |methods| ==> methods[j] == methods[1..][j - 1];
      TryMethodTags(b, Some(methods[0]), blend, alloc, n);
      if head.Ok? {
        assert TryMethod(b, Some(methods[0]), blend, alloc, n) == Ok(r.value);
      } else if rest.Ok? {
        var i :| 0 <= i < |methods[1..]| && TryMethod(b, Some(methods[1..][i]), blend, alloc, n) == Ok(rest.value)
                 && forall j :: 0 <= j < i ==> TryMethod(b, Some(methods[1..][j]), blend, alloc, n).Err?;
        assert TryMethod(b, Some(methods[i + 1]), blend, alloc, n) == Ok(r.value);
        forall j | 0 <= j < i + 1 ensures TryMethod(b, Some(methods[j]), blend, alloc, n).Err? {
          if j > 0 {
            assert methods[j] == methods[1..][j - 1];
          }
        }
      } else {
        forall j | 0 <= j < |methods| ensures TryMethod(b, Some(methods[j]), blend, alloc, n) == Err(r.error[j]) && r.error[j].prime == Some(methods[j]) {
          if j > 0 {
            assert r.error[j] == rest.error[j - 1];
          }
        }
        forall i | 0 <= i < |methods| ensures TryMethod(b, Some(methods[i]), blend, alloc, n).Err? {
        }
      }
    }
  }

  /** A method's failure is tagged with that method. */
  lemma TryMethodTags(b: Builder, pm: Option<PrimeMethod>, blend: bool, alloc: Allocate, n: nat)
    ensures TryMethod(b, pm, blend, alloc, n).Err? ==> TryMethod(b, pm, blend, alloc, n).error.prime == pm
  {
  }

  /**
   * With the same device for rendering and scanout no prime method is
   * tried; with different devices the format check comes first and then
   * only the configured methods are tried.
   */
  lemma ScanoutBuffersPath(d: Devices, b: Builder, methods: seq<PrimeMethod>, alloc: Allocate, n: nat)
    requires d.renderSupportsFormat
    ensures var r := ScanoutBuffersOf(d, b, methods, alloc, n);
      && (d.renderDevId == d.devId && r.Ok? ==> forall i :: 0 <= i < |r.value| ==> r.value[i].prime.None?)
      && (d.renderDevId == d.devId && r.Err? ==> r.error.AllocateScanoutBuffer? && r.error.error.prime.None?)
      && (d.renderDevId != d.devId && r.Ok? ==>
            forall i :: 0 <= i < |r.value| ==> r.value[i].prime.Some? && r.value[i].prime.value in methods)
      && (d.renderDevId != d.devId && r.Err? ==> r.error.AllocateScanoutBufferPrime? && |r.error.errors| == |methods|)
  {
    var blend := !b.cursor && d.blendBufferOk;
    if d.renderDevId == d.devId {
      TryMethodPrime(b, None, blend, alloc, n);
    } else {
      TryMethodsMeans(b, methods, blend, alloc, n);
      var r := TryMethods(b, methods, blend, alloc, n);
      if r.Ok? {
        var i :| 0 <= i < |methods| && TryMethod(b, Some(methods[i]), blend, alloc, n) == Ok(r.value)
                 && forall j :: 0 <= j < i ==> TryMethod(b, Some(methods[j]), blend, alloc, n).Err?;
        TryMethodPrime(b, Some(methods[i]), blend, alloc, n);
      }
    }
  }

  /** The buffers of a method are tagged with that method. */
  lemma TryMethodPrime(b: Builder, pm: Option<PrimeMethod>, blend: bool, alloc: Allocate, n: nat)
    ensures var r := TryMethod(b, pm, blend, alloc, n);
      r.Ok? ==> forall i :: 0 <= i < |r.value| ==> r.value[i].prime == pm
  {
    var p := Prepare(b, pm);
    if p.Ok? && AllocatesAll(pm, p.value, alloc, n) {
      BuiltBuffers(b, pm, p.value, blend, alloc, n);
    }
  }

  // ---------------------------------------------------------------------
  // copy_to_new
  // ---------------------------------------------------------------------

  /**
   * `RenderBufferPrime` of a buffer: the copy device of the copying kinds
   * and, for sampling, nothing beyond the dev buffer.
   */
  datatype PrimeKind =
    | NoPrime
    | SamplingPrime
    | CopyUdmabufPrime(devCopyDev: nat)
    | CopyDirectPullPrime(devCopyDev: nat)
    | CopyIndirectPullPrime(devCopyDev: nat)
    | CopyDirectPushPrime(devCopyDev: nat)

  /**
   * A render buffer as `copy_to_new` sees it: its size, the graphics
   * contexts of its render and scanout side, its render and scanout
   * buffer objects and its prime kind.
   */
  datatype Buffer = Buffer(width: int, height: int, renderCtx: nat, devCtx: nat, renderBo: nat, devBo: nat, prime: PrimeKind)

  /** `RenderBuffer::dev_bo`: the scanned-out buffer object. */
  function DevBo(buf: Buffer): (r: nat)
    ensures buf.prime.NoPrime? ==> r == buf.renderBo
    ensures !buf.prime.NoPrime? ==> r == buf.devBo
  {
    if buf.prime.NoPrime? then buf.renderBo else buf.devBo
  }

  /** `RenderBuffer::dev_copy_device`: the scanout side's copy device of a copying kind. */
  function DevCopyDevice(buf: Buffer): (r: Option<nat>)
    ensures r.None? <==> buf.prime.NoPrime? || buf.prime.SamplingPrime?
  {
    match buf.prime
    case NoPrime => None
    case SamplingPrime => None
    case CopyUdmabufPrime(d) => Some(d)
    case CopyDirectPullPrime(d) => Some(d)
    case CopyIndirectPullPrime(d) => Some(d)
    case CopyDirectPushPrime(d) => Some(d)
  }

  /** The context holding the texture a buffer shows: the scanout side's when it is sampled. */
  function SourceCtx(buf: Buffer): nat {
    if buf.prime.SamplingPrime? then buf.devCtx else buf.renderCtx
  }

  /** Where a texture copy reads: a texture it already has, or a buffer object to import. */
  datatype TexSource = Texture(ctx: nat, onDev: bool) | Import(ctx: nat, bo: nat)

  /** How `copy_to_new` copies the old buffer's image into the new one. */
  datatype CopyRoute =
    | DeviceCopy(copyDev: nat, srcBo: nat, dstBo: nat)
    | TextureCopy(targetCtx: nat, targetOnDev: bool, source: TexSource)

  /** `copy_to_new`'s failure on differing sizes. */
  datatype CopyError = NotSameSize

  /**
   * `copy_to_new`: buffers of different size are refused; a copy device of
   * the new or else the old buffer copies scanout object to scanout object;
   * otherwise the new buffer's scanned-out framebuffer draws the old
   * buffer's shown texture, imported when the contexts differ.
   */
  function CopyToNew(prev: Buffer, next: Buffer): (r: Result<CopyRoute, CopyError>)
    ensures (prev.width, prev.height) != (next.width, next.height) <==> r == Err(NotSameSize)
    ensures r.Ok? && (DevCopyDevice(next).Some? || DevCopyDevice(prev).Some?) ==>
      r.value == DeviceCopy(if DevCopyDevice(next).Some? then DevCopyDevice(next).value else DevCopyDevice(prev).value,
                            DevBo(prev), DevBo(next))
    ensures r.Ok? && DevCopyDevice(next).None? && DevCopyDevice(prev).None? ==>
      && r.value.TextureCopy?
      && r.value.targetOnDev == next.prime.SamplingPrime?
      && r.value.targetCtx == (if next.prime.SamplingPrime? then next.devCtx else next.renderCtx)
      && r.value.source == (if SourceCtx(prev) == r.value.targetCtx then Texture(SourceCtx(prev), prev.prime.SamplingPrime?)
                            else Import(r.value.targetCtx, DevBo(prev)))
  {
    if (prev.width, prev.height) != (next.width, next.height) then Err(NotSameSize)
    else
      var dev := if DevCopyDevice(next).Some? then DevCopyDevice(next) else DevCopyDevice(prev);
      if dev.Some? then Ok(DeviceCopy(dev.value, DevBo(prev), DevBo(next)))
      else
        var targetCtx := if next.prime.SamplingPrime? then next.devCtx else next.renderCtx;
        var srcCtx := if prev.prime.SamplingPrime? then prev.devCtx else prev.renderCtx;
        Ok(TextureCopy(targetCtx, next.prime.SamplingPrime?,
                       if srcCtx == targetCtx then Texture(srcCtx, prev.prime.SamplingPrime?) else Import(targetCtx, DevBo(prev))))
  }

  /**
   * The `unreachable!()` arms of `copy_to_new` are unreachable: without a
   * copy device on either side, both buffers are of the no-prime or the
   * sampling kind, which the texture copy handles.
   */
  lemma CopyToNewUnreachable(prev: Buffer, next: Buffer)
    requires DevCopyDevice(next).None? && DevCopyDevice(prev).None?
    ensures (prev.prime.NoPrime? || prev.prime.SamplingPrime?) && (next.prime.NoPrime? || next.prime.SamplingPrime?)
  {
  }
}
