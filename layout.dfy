/**
 * The byte-layout engine behind `BufferSerializable`
 * (Sources/SwiftVulkanRenderer/Data/BufferSerializable.swift): each
 * conforming type's `serializedBaseAlignment` and `serializedSize`, the
 * struct rules derived from its members, and the bytes `serialize` writes.
 *
 * What a serializer writes is described as an image: a sequence with one
 * entry per byte of the value's `serializedSize`, `Some(b)` where the
 * serializer stores `b` and `None` where it leaves the destination alone
 * (the fourth float of an `FVec3`, the padding behind a struct's members).
 * `Decode` is the reader a shader performs; it exists only in the model,
 * to state that serialization loses nothing.
 */
module Layout {
  import opened Common

  // ------------------------------------------------------------------ rounding

  /** Swift's `%` on `Int` truncates toward zero: the remainder takes the sign of `x`. */
  function SwiftRemainder(x: int, m: int): int
    requires m > 0
  {
    if x >= 0 then x % m else -((-x) % m)
  }

  /** `toMultipleOf16`: unchanged when already a multiple of 16, else rounded up past the residual. */
  function ToMultipleOf16(x: int): int {
    var residual := SwiftRemainder(x, 16);
    if residual == 0 then x else x - residual + 16
  }

  /** For sizes (x >= 0) the rounding yields a multiple of 16 that is less than 16 above x ... */
  lemma {:induction false} ToMultipleOf16Bounds(x: int)
    requires x >= 0
    ensures ToMultipleOf16(x) % 16 == 0
    ensures x <= ToMultipleOf16(x) < x + 16
  {
  }

  /** ... and no multiple of 16 that is at least x lies below it. */
  lemma {:induction false} ToMultipleOf16IsLeast(x: int, y: int)
    requires x >= 0 && y % 16 == 0 && x <= y
    ensures ToMultipleOf16(x) <= y
  {
  }

  // ------------------------------------------------------------------ types and values

  /** A Swift `Float`, kept as its IEEE 754 bit pattern: serialization only moves its bytes. */
  datatype Float32 = Float32(bits: uint32)

  /** GfxMath's `FMat4`, as its 16 elements read row by row. */
  type Mat4 = s: seq<Float32> | |s| == 16 witness seq(16, i => Float32(0))

  /**
   * The conforming types, by the layout rule they follow. A struct lists the
   * types of its serializable members in declaration order.
   * `FpRGBColorType(d)` is `FpRGBColor<D>` with `MemoryLayout<D>.size == d`.
   */
  datatype LayoutType =
    | UInt32Type
    | FloatType
    | FVec2Type
    | FVec3Type
    | FpRGBColorType(componentSize: nat)
    | Matrix4Type
    | StructType(members: seq<LayoutType>)

  /** A value of a conforming type; a colour component is kept as its raw bytes. */
  datatype Value =
    | UInt32Value(u: uint32)
    | FloatValue(f: Float32)
    | FVec2Value(x: Float32, y: Float32)
    | FVec3Value(x: Float32, y: Float32, z: Float32)
    | FpRGBColorValue(r: seq<byte>, g: seq<byte>, b: seq<byte>)
    | Matrix4Value(elements: Mat4)
    | StructValue(members: seq<Value>)

  function TypeOf(v: Value): LayoutType {
    match v
    case UInt32Value(_) => UInt32Type
    case FloatValue(_) => FloatType
    case FVec2Value(_, _) => FVec2Type
    case FVec3Value(_, _, _) => FVec3Type
    case FpRGBColorValue(r, _, _) => FpRGBColorType(|r|)
    case Matrix4Value(_) => Matrix4Type
    case StructValue(ms) => StructType(MemberTypes(v, |ms|))
  }

  /** The types of the first `n` members of a struct value. */
  function MemberTypes(v: Value, n: nat): (ts: seq<LayoutType>)
    requires v.StructValue? && n <= |v.members|
    ensures |ts| == n
    decreases v, 0, n
  {
    if n == 0 then [] else MemberTypes(v, n - 1) + [TypeOf(v.members[n - 1])]
  }

  lemma {:induction false} MemberTypesAt(v: Value, n: nat, k: nat)
    requires v.StructValue? && k < n <= |v.members|
    ensures MemberTypes(v, n)[k] == TypeOf(v.members[k])
    decreases n
  {
    if k < n - 1 {
      MemberTypesAt(v, n - 1, k);
    }
  }

  /** The three components of a colour have the same width, all the way down. */
  predicate WellFormed(v: Value) {
    match v
    case FpRGBColorValue(r, g, b) => |g| == |r| && |b| == |r|
    case StructValue(ms) => forall i :: 0 <= i < |ms| ==> WellFormed(ms[i])
    case _ => true
  }

  // ------------------------------------------------------------------ the layout rules

  /** `serializedBaseAlignment`. */
  function BaseAlignment(t: LayoutType): nat
    decreases t, 1
  {
    match t
    case UInt32Type => 4                 // MemoryLayout<UInt32>.size
    case FloatType => 4                  // MemoryLayout<Float>.size
    case FVec2Type => 4                  // MemoryLayout<Float>.size
    case FVec3Type => 4                  // MemoryLayout<Float>.size
    case FpRGBColorType(d) => d          // MemoryLayout<D>.size
    case Matrix4Type => 4                // MemoryLayout<Element>.size, Element == Float
    case StructType(ms) =>
      var largest := LargestMemberSize(t, |ms|);
      ToMultipleOf16Bounds(largest);
      ToMultipleOf16(largest)
  }

  /** `serializedSize`. */
  function Size(t: LayoutType): nat
    decreases t, 2
  {
    match t
    case UInt32Type => BaseAlignment(t)
    case FloatType => BaseAlignment(t)
    case FVec2Type => BaseAlignment(t) * 2
    case FVec3Type => BaseAlignment(t) * 4
    case FpRGBColorType(_) => BaseAlignment(t) * 3
    case Matrix4Type => BaseAlignment(t) * 16
    case StructType(ms) => Times(|ms|, BaseAlignment(t))
  }

  /**
   * `count * alignment`, spelled out as repeated addition so that the solver
   * meets the product only where `TimesIsProduct` is invoked.
   */
  function Times(count: nat, a: nat): nat {
    if count == 0 then 0 else Times(count - 1, a) + a
  }

  lemma {:induction false} TimesIsProduct(count: nat, a: nat)
    ensures Times(count, a) == count * a
  {
    if count > 0 {
      TimesIsProduct(count - 1, a);
    }
  }

  /**
   * The `reduce(0)` over the first `n` members of a struct: the accumulator is
   * kept when it is larger than the member's size, else replaced by it.
   */
  function LargestMemberSize(t: LayoutType, n: nat): nat
    requires t.StructType? && n <= |t.members|
    decreases t, 0, n
  {
    if n == 0 then 0
    else
      var acc := LargestMemberSize(t, n - 1);
      var size := Size(t.members[n - 1]);
      if acc > size then acc else size
  }

  /** Where the struct `serialize` loop's `currentOffset` stands after `n` members (relative to the start). */
  function MembersExtent(t: LayoutType, n: nat): nat
    requires t.StructType? && n <= |t.members|
  {
    if n == 0 then 0 else MembersExtent(t, n - 1) + Size(t.members[n - 1])
  }

  /** The largest member size is an upper bound of every member's size and is one of them (or 0). */
  lemma {:induction false} LargestMemberSizeIsMaximum(t: LayoutType, n: nat)
    requires t.StructType? && n <= |t.members|
    ensures forall j :: 0 <= j < n ==> Size(t.members[j]) <= LargestMemberSize(t, n)
    ensures n == 0 ==> LargestMemberSize(t, n) == 0
    ensures n > 0 ==> exists j :: 0 <= j < n && LargestMemberSize(t, n) == Size(t.members[j])
  {
    if n > 0 {
      LargestMemberSizeIsMaximum(t, n - 1);
    }
  }

  lemma {:induction false} MembersExtentMonotone(t: LayoutType, m: nat, n: nat)
    requires t.StructType? && m <= n <= |t.members|
    ensures MembersExtent(t, m) <= MembersExtent(t, n)
    decreases n - m
  {
    if m < n {
      MembersExtentMonotone(t, m, n - 1);
    }
  }

  lemma {:induction false} MembersExtentBelowLargest(t: LayoutType, n: nat)
    requires t.StructType? && n <= |t.members|
    ensures MembersExtent(t, n) <= Times(n, LargestMemberSize(t, |t.members|))
  {
    if n > 0 {
      MembersExtentBelowLargest(t, n - 1);
      LargestMemberSizeIsMaximum(t, |t.members|);
    }
  }

  /**
   * Members written back to back, each advancing by its own size, never run
   * past the struct's `serializedSize` (member count times the rounded
   * alignment): the struct's padding lies behind its last member.
   */
  lemma {:induction false} MembersExtentFits(t: LayoutType)
    requires t.StructType?
    ensures MembersExtent(t, |t.members|) <= Size(t)
  {
    var n, l := |t.members|, LargestMemberSize(t, |t.members|);
    MembersExtentBelowLargest(t, n);
    ToMultipleOf16Bounds(l);
    TimesMonotone(n, l, ToMultipleOf16(l));
  }

  /** The bytes of a struct's `serializedSize` behind its last member. */
  function Padding(t: LayoutType): nat
    requires t.StructType?
  {
    MembersExtentFits(t);
    Size(t) - MembersExtent(t, |t.members|)
  }

  lemma {:induction false} TimesMonotone(n: nat, a: nat, b: nat)
    requires a <= b
    ensures Times(n, a) <= Times(n, b)
  {
    if n > 0 {
      TimesMonotone(n - 1, a, b);
    }
  }

  // ------------------------------------------------------------------ bytes

  /** The bytes `storeBytes` lays down for a 32-bit word on a little-endian target, least significant first. */
  function Le32(u: uint32): (bs: seq<byte>)
    ensures |bs| == 4
  {
    [u % 0x100, u / 0x100 % 0x100, u / 0x1_0000 % 0x100, u / 0x100_0000]
  }

  function FromLe32(bs: seq<byte>): uint32
    requires |bs| == 4
  {
    bs[0] as int + 0x100 * (bs[1] as int) + 0x1_0000 * (bs[2] as int) + 0x100_0000 * (bs[3] as int)
  }

  lemma {:induction false} Le32RoundTrip(u: uint32)
    ensures FromLe32(Le32(u)) == u
  {
    var q1, q2, q3 := u / 0x100, u / 0x1_0000, u / 0x100_0000;
    assert q2 == q1 / 0x100 && q3 == q2 / 0x100;
    assert u == u % 0x100 + 0x100 * q1;
    assert q1 == q1 % 0x100 + 0x100 * q2;
    assert q2 == q2 % 0x100 + 0x100 * q3;
  }

  /** The bytes of a sequence of floats, one after another (`copyMemory` from `elements`). */
  function FloatsBytes(fs: seq<Float32>): (bs: seq<byte>)
    ensures |bs| == 4 * |fs|
  {
    if fs == [] then [] else Le32(fs[0].bits) + FloatsBytes(fs[1..])
  }

  lemma {:induction false} FloatsBytesAt(fs: seq<Float32>, k: nat)
    requires k < |fs|
    ensures FloatsBytes(fs)[4 * k..4 * k + 4] == Le32(fs[k].bits)
  {
    if k > 0 {
      FloatsBytesAt(fs[1..], k - 1);
      assert FloatsBytes(fs) == Le32(fs[0].bits) + FloatsBytes(fs[1..]);
      assert FloatsBytes(fs)[4 * k..4 * k + 4] == FloatsBytes(fs[1..])[4 * (k - 1)..4 * (k - 1) + 4];
    }
  }

  /** Row `r`, column `c` of a matrix. */
  function Element(m: Mat4, r: nat, c: nat): Float32
    requires r < 4 && c < 4
  {
    m[4 * r + c]
  }

  /** `transposed.elements`: element (r, c) of the result is element (c, r) of the input. */
  function Transposed(e: Mat4): (t: Mat4)
    ensures forall r, c :: 0 <= r < 4 && 0 <= c < 4 ==> Element(t, r, c) == Element(e, c, r)
  {
    [e[0], e[4], e[8], e[12], e[1], e[5], e[9], e[13], e[2], e[6], e[10], e[14], e[3], e[7], e[11], e[15]]
  }

  lemma {:induction false} TransposedTwice(e: Mat4)
    ensures Transposed(Transposed(e)) == e
  {
  }

  /** The image of bytes that are all stored. */
  function Written(bs: seq<byte>): (img: seq<Option<byte>>)
    ensures |img| == |bs|
  {
    if bs == [] then [] else [Some(bs[0])] + Written(bs[1..])
  }

  lemma {:induction false} WrittenAt(bs: seq<byte>, i: nat)
    requires i < |bs|
    ensures Written(bs)[i] == Some(bs[i])
  {
    if i > 0 {
      WrittenAt(bs[1..], i - 1);
    }
  }

  /** The image of `n` bytes left alone. */
  function Untouched(n: nat): (img: seq<Option<byte>>)
    ensures |img| == n
  {
    if n == 0 then [] else [None] + Untouched(n - 1)
  }

  // ------------------------------------------------------------------ what serialize writes

  /**
   * The image `serialize` leaves in a buffer, one entry per byte of the
   * value's `serializedSize`. Scalars, `FVec2`, colours and matrices fill
   * their whole size (a matrix in transposed order); an `FVec3` writes only
   * its three floats; a struct writes its members back to back, each at the
   * running offset advanced by the previous members' own sizes, and leaves
   * the rest of its size alone.
   */
  function Image(v: Value): seq<Option<byte>>
    requires WellFormed(v)
    decreases v, 1
  {
    match v
    case UInt32Value(u) => Written(Le32(u))
    case FloatValue(f) => Written(Le32(f.bits))
    case FVec2Value(x, y) => Written(Le32(x.bits) + Le32(y.bits))
    case FVec3Value(x, y, z) => Written(Le32(x.bits) + Le32(y.bits) + Le32(z.bits)) + Untouched(4)
    case FpRGBColorValue(r, g, b) => Written(r + g + b)
    case Matrix4Value(e) => Written(FloatsBytes(Transposed(e)))
    case StructValue(ms) => MembersImage(v, |ms|) + Untouched(Padding(TypeOf(v)))
  }

  /** The members `0..n` of a struct value, written back to back. */
  function MembersImage(v: Value, n: nat): seq<Option<byte>>
    requires v.StructValue? && WellFormed(v) && n <= |v.members|
    decreases v, 0, n
  {
    if n == 0 then [] else MembersImage(v, n - 1) + Image(v.members[n - 1])
  }

  /** The image of a value covers exactly its `serializedSize`. */
  lemma {:induction false} ImageLength(v: Value)
    requires WellFormed(v)
    ensures |Image(v)| == Size(TypeOf(v))
    decreases v, 1
  {
    if v.StructValue? {
      MembersImageLength(v, |v.members|);
    }
  }

  /** The first `n` members' images reach exactly as far as the loop's running offset. */
  lemma {:induction false} MembersImageLength(v: Value, n: nat)
    requires v.StructValue? && WellFormed(v) && n <= |v.members|
    ensures |MembersImage(v, n)| == MembersExtent(TypeOf(v), n)
    decreases v, 0, n
  {
    if n > 0 {
      MembersImageLength(v, n - 1);
      MembersStep(v, n - 1);
      ImageLength(v.members[n - 1]);
    }
  }

  /** One more member: its type is the struct type's member type, and its image follows the previous members'. */
  lemma {:induction false} MembersStep(v: Value, k: nat)
    requires v.StructValue? && WellFormed(v) && k < |v.members|
    ensures WellFormed(v.members[k]) && TypeOf(v).members[k] == TypeOf(v.members[k])
    ensures MembersImage(v, k + 1) == MembersImage(v, k) + Image(v.members[k])
  {
    MemberTypesAt(v, |v.members|, k);
  }

  /**
   * Member `k` of a struct lands right behind the images of the members
   * before it (at the sum of their sizes, by `MembersImageLength`).
   */
  lemma {:induction false} MembersImageAt(v: Value, n: nat, k: nat)
    requires v.StructValue? && WellFormed(v) && k < n <= |v.members|
    ensures |MembersImage(v, k)| <= |MembersImage(v, k + 1)| <= |MembersImage(v, n)|
    ensures MembersImage(v, n)[|MembersImage(v, k)|..|MembersImage(v, k + 1)|] == Image(v.members[k])
    decreases n
  {
    var before := MembersImage(v, n - 1);
    MembersStep(v, n - 1);
    if k == n - 1 {
      ConcatRight(before, Image(v.members[k]), |MembersImage(v, k)|, |MembersImage(v, k + 1)|);
    } else {
      MembersImageAt(v, n - 1, k);
      ConcatLeft(before, Image(v.members[n - 1]), |MembersImage(v, k)|, |MembersImage(v, k + 1)|);
    }
  }

  /** `buf` after the bytes of `img` are stored from `offset` on; bytes past the end of `buf` are dropped. */
  function Overlay(buf: seq<byte>, offset: nat, img: seq<Option<byte>>): (r: seq<byte>)
    ensures |r| == |buf|
    decreases |img|
  {
    if img == [] then buf
    else Overlay(if img[0].Some? && offset < |buf| then buf[offset := img[0].value] else buf, offset + 1, img[1..])
  }

  /** Byte `i` after the store: the image's byte where it writes one, else the old byte. */
  lemma {:induction false} OverlayAt(buf: seq<byte>, offset: nat, img: seq<Option<byte>>, i: nat)
    requires i < |buf|
    ensures Overlay(buf, offset, img)[i] ==
              if offset <= i < offset + |img| && img[i - offset].Some? then img[i - offset].value else buf[i]
    decreases |img|
  {
    if img != [] {
      var next := if img[0].Some? && offset < |buf| then buf[offset := img[0].value] else buf;
      OverlayAt(next, offset + 1, img[1..], i);
      if offset + 1 <= i < offset + |img| {
        assert img[1..][i - (offset + 1)] == img[i - offset];
      }
    }
  }

  /**
   * Every byte the image writes is present in `buf` from `offset` on, stated
   * byte by byte from the front (`HoldsMeans` gives the indexed reading).
   */
  ghost predicate Holds(buf: seq<byte>, offset: nat, img: seq<Option<byte>>)
    decreases |img|
  {
    && offset + |img| <= |buf|
    && (img == [] || ((img[0].Some? ==> buf[offset] == img[0].value) && Holds(buf, offset + 1, img[1..])))
  }

  ghost predicate Agrees(buf: seq<byte>, offset: nat, img: seq<Option<byte>>) {
    && offset + |img| <= |buf|
    && forall i :: 0 <= i < |img| && img[i].Some? ==> buf[offset + i] == img[i].value
  }

  lemma {:induction false} HoldsMeans(buf: seq<byte>, offset: nat, img: seq<Option<byte>>)
    ensures Holds(buf, offset, img) <==> Agrees(buf, offset, img)
    decreases |img|
  {
    if img != [] {
      HoldsMeans(buf, offset + 1, img[1..]);
      if Agrees(buf, offset, img) {
        forall i | 0 <= i < |img[1..]| && img[1..][i].Some? ensures buf[offset + 1 + i] == img[1..][i].value {
          assert img[1..][i] == img[i + 1];
        }
      }
      if Holds(buf, offset, img) {
        forall i | 0 <= i < |img| && img[i].Some? ensures buf[offset + i] == img[i].value {
          if i > 0 {
            assert img[i] == img[1..][i - 1];
          }
        }
      }
    }
  }

  lemma {:induction false} OverlayHolds(buf: seq<byte>, offset: nat, img: seq<Option<byte>>)
    requires offset + |img| <= |buf|
    ensures Holds(Overlay(buf, offset, img), offset, img)
  {
    HoldsMeans(Overlay(buf, offset, img), offset, img);
    forall i | 0 <= i < |img| && img[i].Some? ensures Overlay(buf, offset, img)[offset + i] == img[i].value {
      OverlayAt(buf, offset, img, offset + i);
    }
  }

  /** A write elsewhere does not disturb bytes an earlier write left. */
  lemma {:induction false} OverlayElsewhere(buf: seq<byte>, offset: nat, img: seq<Option<byte>>, offset2: nat, img2: seq<Option<byte>>)
    requires Holds(buf, offset, img)
    requires offset2 + |img2| <= offset || offset + |img| <= offset2
    ensures Holds(Overlay(buf, offset2, img2), offset, img)
  {
    HoldsMeans(buf, offset, img);
    HoldsMeans(Overlay(buf, offset2, img2), offset, img);
    forall i | 0 <= i < |img| && img[i].Some? ensures Overlay(buf, offset2, img2)[offset + i] == img[i].value {
      OverlayAt(buf, offset2, img2, offset + i);
    }
  }

  /** Writing `a` and then `b` right behind it is writing `a + b`. */
  lemma {:induction false} OverlayConcat(buf: seq<byte>, offset: nat, a: seq<Option<byte>>, next: nat, b: seq<Option<byte>>)
    requires next == offset + |a|
    ensures Overlay(Overlay(buf, offset, a), next, b) == Overlay(buf, offset, a + b)
    decreases |a|
  {
    if a == [] {
      assert a + b == b;
    } else {
      var stored := if a[0].Some? && offset < |buf| then buf[offset := a[0].value] else buf;
      assert (a + b)[0] == a[0] && (a + b)[1..] == a[1..] + b;
      OverlayConcat(stored, offset + 1, a[1..], next, b);
    }
  }

  /** Leaving bytes alone changes nothing. */
  lemma {:induction false} OverlayUntouched(buf: seq<byte>, offset: nat, n: nat)
    ensures Overlay(buf, offset, Untouched(n)) == buf
    decreases n
  {
    if n > 0 {
      assert Untouched(n)[1..] == Untouched(n - 1);
      OverlayUntouched(buf, offset + 1, n - 1);
    }
  }

  lemma {:induction false} OverlayUntouchedTail(buf: seq<byte>, offset: nat, a: seq<Option<byte>>, n: nat)
    ensures Overlay(buf, offset, a + Untouched(n)) == Overlay(buf, offset, a)
  {
    OverlayConcat(buf, offset, a, offset + |a|, Untouched(n));
    OverlayUntouched(Overlay(buf, offset, a), offset + |a|, n);
  }

  lemma {:induction false} HoldsSplit(buf: seq<byte>, offset: nat, a: seq<Option<byte>>, next: nat, b: seq<Option<byte>>)
    requires Holds(buf, offset, a + b) && next == offset + |a|
    ensures Holds(buf, offset, a) && Holds(buf, next, b)
  {
    HoldsMeans(buf, offset, a + b);
    HoldsMeans(buf, offset, a);
    HoldsMeans(buf, next, b);
    forall i | 0 <= i < |a| && a[i].Some? ensures buf[offset + i] == a[i].value {
      assert (a + b)[i] == a[i];
    }
    forall i | 0 <= i < |b| && b[i].Some? ensures buf[offset + |a| + i] == b[i].value {
      assert (a + b)[|a| + i] == b[i];
    }
  }

  lemma {:induction false} HoldsWritten(buf: seq<byte>, offset: nat, bs: seq<byte>)
    requires Holds(buf, offset, Written(bs))
    ensures buf[offset..offset + |bs|] == bs
  {
    HoldsMeans(buf, offset, Written(bs));
    forall i | 0 <= i < |bs| ensures buf[offset + i] == bs[i] {
      WrittenAt(bs, i);
    }
  }

  lemma {:induction false} HoldsSlice(buf: seq<byte>, offset: nat, img: seq<Option<byte>>, i: nat, j: nat)
    requires Holds(buf, offset, img) && i <= j <= |img|
    ensures Holds(buf, offset + i, img[i..j])
  {
    HoldsMeans(buf, offset, img);
    HoldsMeans(buf, offset + i, img[i..j]);
    forall x | 0 <= x < j - i && img[i..j][x].Some? ensures buf[offset + i + x] == img[i..j][x].value {
      assert img[i..j][x] == img[i + x];
    }
  }

  lemma {:induction false} ConcatLeft<T>(a: seq<T>, b: seq<T>, i: nat, j: nat)
    requires i <= j <= |a|
    ensures (a + b)[i..j] == a[i..j]
  {
  }

  lemma {:induction false} ConcatRight<T>(a: seq<T>, b: seq<T>, i: nat, j: nat)
    requires i == |a| && j == |a| + |b|
    ensures (a + b)[i..j] == b
  {
  }

  lemma {:induction false} PrefixStep<T>(s: seq<T>, n: nat)
    requires 0 < n <= |s|
    ensures s[..n] == s[..n - 1] + [s[n - 1]]
  {
  }

  // ------------------------------------------------------------------ reading back

  function WordAt(buf: seq<byte>, offset: nat): uint32
    requires offset + 4 <= |buf|
  {
    FromLe32(buf[offset..offset + 4])
  }

  /** `n` floats read one after another from `offset`. */
  function WordsAt(buf: seq<byte>, offset: nat, n: nat): (fs: seq<Float32>)
    requires offset + 4 * n <= |buf|
    ensures |fs| == n
    decreases n
  {
    if n == 0 then [] else [Float32(WordAt(buf, offset))] + WordsAt(buf, offset + 4, n - 1)
  }

  /** What a reader of type `t` finds at `offset`. */
  function Decode(t: LayoutType, buf: seq<byte>, offset: nat): Value
    requires offset + Size(t) <= |buf|
    decreases t, 1
  {
    match t
    case UInt32Type => UInt32Value(WordAt(buf, offset))
    case FloatType => FloatValue(Float32(WordAt(buf, offset)))
    case FVec2Type => FVec2Value(Float32(WordAt(buf, offset)), Float32(WordAt(buf, offset + 4)))
    case FVec3Type =>
      FVec3Value(Float32(WordAt(buf, offset)), Float32(WordAt(buf, offset + 4)), Float32(WordAt(buf, offset + 8)))
    case FpRGBColorType(d) =>
      assert Size(t) == 3 * d;
      FpRGBColorValue(buf[offset..offset + d], buf[offset + d..offset + 2 * d], buf[offset + 2 * d..offset + 3 * d])
    case Matrix4Type =>
      Matrix4Value(Transposed(WordsAt(buf, offset, 16)))
    case StructType(ms) =>
      MembersExtentFits(t);
      StructValue(DecodeMembers(t, buf, offset, |ms|))
  }

  /** The first `n` members of a struct of type `t`, each read at the running offset. */
  function DecodeMembers(t: LayoutType, buf: seq<byte>, offset: nat, n: nat): (vs: seq<Value>)
    requires t.StructType? && n <= |t.members| && offset + MembersExtent(t, n) <= |buf|
    ensures |vs| == n
    decreases t, 0, n
  {
    if n == 0 then []
    else DecodeMembers(t, buf, offset, n - 1) + [Decode(t.members[n - 1], buf, offset + MembersExtent(t, n - 1))]
  }

  lemma {:induction false} WrittenConcat(a: seq<byte>, b: seq<byte>)
    ensures Written(a + b) == Written(a) + Written(b)
  {
    if a == [] {
      assert a + b == b;
    } else {
      assert (a + b)[0] == a[0] && (a + b)[1..] == a[1..] + b;
      WrittenConcat(a[1..], b);
    }
  }

  lemma {:induction false} DecodeReadsWord(u: uint32, buf: seq<byte>, offset: nat)
    requires Holds(buf, offset, Written(Le32(u)))
    ensures offset + 4 <= |buf| && WordAt(buf, offset) == u
  {
    HoldsWritten(buf, offset, Le32(u));
    Le32RoundTrip(u);
  }

  lemma {:induction false} DecodeReadsPair(a: uint32, b: uint32, buf: seq<byte>, offset: nat)
    requires Holds(buf, offset, Written(Le32(a) + Le32(b)))
    ensures offset + 8 <= |buf|
    ensures WordAt(buf, offset) == a && WordAt(buf, offset + 4) == b
  {
    WrittenConcat(Le32(a), Le32(b));
    HoldsSplit(buf, offset, Written(Le32(a)), offset + 4, Written(Le32(b)));
    DecodeReadsWord(a, buf, offset);
    DecodeReadsWord(b, buf, offset + 4);
  }

  lemma {:induction false} DecodeReadsTriple(a: uint32, b: uint32, c: uint32, buf: seq<byte>, offset: nat)
    requires Holds(buf, offset, Written(Le32(a) + Le32(b) + Le32(c)))
    ensures offset + 12 <= |buf|
    ensures WordAt(buf, offset) == a && WordAt(buf, offset + 4) == b && WordAt(buf, offset + 8) == c
  {
    WrittenConcat(Le32(a) + Le32(b), Le32(c));
    HoldsSplit(buf, offset, Written(Le32(a) + Le32(b)), offset + 8, Written(Le32(c)));
    DecodeReadsPair(a, b, buf, offset);
    DecodeReadsWord(c, buf, offset + 8);
  }

  lemma {:induction false} DecodeReadsBytes(r: seq<byte>, g: seq<byte>, b: seq<byte>, buf: seq<byte>, offset: nat)
    requires |g| == |r| && |b| == |r|
    requires Holds(buf, offset, Written(r + g + b))
    ensures offset + 3 * |r| <= |buf|
    ensures buf[offset..offset + |r|] == r
    ensures buf[offset + |r|..offset + 2 * |r|] == g
    ensures buf[offset + 2 * |r|..offset + 3 * |r|] == b
  {
    WrittenConcat(r + g, b);
    WrittenConcat(r, g);
    HoldsSplit(buf, offset, Written(r + g), offset + 2 * |r|, Written(b));
    HoldsSplit(buf, offset, Written(r), offset + |r|, Written(g));
    HoldsWritten(buf, offset, r);
    HoldsWritten(buf, offset + |r|, g);
    HoldsWritten(buf, offset + 2 * |r|, b);
  }

  /** A written run of floats is read back float by float. */
  lemma {:induction false} DecodeReadsFloats(fs: seq<Float32>, buf: seq<byte>, offset: nat)
    requires Holds(buf, offset, Written(FloatsBytes(fs)))
    ensures offset + 4 * |fs| <= |buf|
    ensures WordsAt(buf, offset, |fs|) == fs
  {
    if fs != [] {
      WrittenConcat(Le32(fs[0].bits), FloatsBytes(fs[1..]));
      HoldsSplit(buf, offset, Written(Le32(fs[0].bits)), offset + 4, Written(FloatsBytes(fs[1..])));
      DecodeReadsWord(fs[0].bits, buf, offset);
      DecodeReadsFloats(fs[1..], buf, offset + 4);
      assert fs == [fs[0]] + fs[1..];
    }
  }

  lemma {:induction false} DecodeReadsElements(e: Mat4, buf: seq<byte>, offset: nat)
    requires Holds(buf, offset, Written(FloatsBytes(Transposed(e))))
    ensures offset + 64 <= |buf|
    ensures Transposed(WordsAt(buf, offset, 16)) == e
  {
    DecodeReadsFloats(Transposed(e), buf, offset);
    TransposedTwice(e);
  }

  /** The `k`-th member is read at the sum of the sizes of the members before it. */
  lemma {:induction false} DecodeMembersAt(t: LayoutType, buf: seq<byte>, offset: nat, n: nat, k: nat, at: nat)
    requires t.StructType? && k < n <= |t.members| && offset + MembersExtent(t, n) <= |buf|
    requires at == offset + MembersExtent(t, k)
    ensures at + Size(t.members[k]) <= |buf|
    ensures DecodeMembers(t, buf, offset, n)[k] == Decode(t.members[k], buf, at)
    decreases n
  {
    MembersExtentMonotone(t, k + 1, n);
    if k < n - 1 {
      DecodeMembersAt(t, buf, offset, n - 1, k, at);
    }
  }

  /** Whatever else the buffer holds, a reader finds the value wherever its image is present. */
  lemma {:induction false} DecodeReadsImage(v: Value, buf: seq<byte>, offset: nat)
    requires WellFormed(v) && offset + Size(TypeOf(v)) <= |buf| && Holds(buf, offset, Image(v))
    ensures Decode(TypeOf(v), buf, offset) == v
    decreases v, 2
  {
    if v.UInt32Value? || v.FloatValue? {
      DecodeReadsScalar(v, buf, offset);
    } else if v.FVec2Value? {
      DecodeReadsFVec2(v, buf, offset);
    } else if v.FVec3Value? {
      DecodeReadsFVec3(v, buf, offset);
    } else if v.FpRGBColorValue? {
      DecodeReadsColor(v, buf, offset);
    } else if v.Matrix4Value? {
      DecodeReadsMatrix(v, buf, offset);
    } else {
      DecodeReadsStruct(v, buf, offset);
    }
  }

  lemma {:induction false} DecodeReadsScalar(v: Value, buf: seq<byte>, offset: nat)
    requires v.UInt32Value? || v.FloatValue?
    requires offset + Size(TypeOf(v)) <= |buf| && Holds(buf, offset, Image(v))
    ensures Decode(TypeOf(v), buf, offset) == v
  {
    DecodeReadsWord(if v.UInt32Value? then v.u else v.f.bits, buf, offset);
  }

  lemma {:induction false} DecodeReadsFVec2(v: Value, buf: seq<byte>, offset: nat)
    requires v.FVec2Value? && offset + Size(TypeOf(v)) <= |buf| && Holds(buf, offset, Image(v))
    ensures Decode(TypeOf(v), buf, offset) == v
  {
    DecodeReadsPair(v.x.bits, v.y.bits, buf, offset);
  }

  lemma {:induction false} DecodeReadsFVec3(v: Value, buf: seq<byte>, offset: nat)
    requires v.FVec3Value? && offset + Size(TypeOf(v)) <= |buf| && Holds(buf, offset, Image(v))
    ensures Decode(TypeOf(v), buf, offset) == v
  {
    var bs := Le32(v.x.bits) + Le32(v.y.bits) + Le32(v.z.bits);
    HoldsSplit(buf, offset, Written(bs), offset + 12, Untouched(4));
    DecodeReadsTriple(v.x.bits, v.y.bits, v.z.bits, buf, offset);
  }

  lemma {:induction false} DecodeReadsColor(v: Value, buf: seq<byte>, offset: nat)
    requires v.FpRGBColorValue? && WellFormed(v)
    requires offset + Size(TypeOf(v)) <= |buf| && Holds(buf, offset, Image(v))
    ensures Decode(TypeOf(v), buf, offset) == v
  {
    DecodeReadsBytes(v.r, v.g, v.b, buf, offset);
  }

  lemma {:induction false} DecodeReadsMatrix(v: Value, buf: seq<byte>, offset: nat)
    requires v.Matrix4Value? && offset + Size(TypeOf(v)) <= |buf| && Holds(buf, offset, Image(v))
    ensures Decode(TypeOf(v), buf, offset) == v
  {
    DecodeReadsElements(v.elements, buf, offset);
  }

  /** The struct case of `DecodeReadsImage`: every member is read back from its own slot. */
  lemma {:induction false} DecodeReadsStruct(v: Value, buf: seq<byte>, offset: nat)
    requires v.StructValue? && WellFormed(v) && offset + Size(TypeOf(v)) <= |buf| && Holds(buf, offset, Image(v))
    ensures Decode(TypeOf(v), buf, offset) == v
    decreases v, 1
  {
    var written := MembersImage(v, |v.members|);
    HoldsSplit(buf, offset, written, offset + |written|, Untouched(Padding(TypeOf(v))));
    forall k | 0 <= k < |v.members|
      ensures DecodeMembers(TypeOf(v), buf, offset, |v.members|)[k] == v.members[k]
    {
      DecodeReadsMember(v, buf, offset, k);
    }
  }

  lemma {:induction false} DecodeReadsMember(v: Value, buf: seq<byte>, offset: nat, k: nat)
    requires v.StructValue? && WellFormed(v) && k < |v.members|
    requires Holds(buf, offset, MembersImage(v, |v.members|))
    ensures offset + MembersExtent(TypeOf(v), |v.members|) <= |buf|
    ensures DecodeMembers(TypeOf(v), buf, offset, |v.members|)[k] == v.members[k]
    decreases v, 0
  {
    var t, n := TypeOf(v), |v.members|;
    var at := offset + MembersExtent(t, k);
    MemberHolds(v, buf, offset, k, at);
    DecodeMembersAt(t, buf, offset, n, k, at);
    DecodeReadsImage(v.members[k], buf, at);
  }

  /** Where a struct's image holds, so does each member's, at the member's offset. */
  lemma {:induction false} MemberHolds(v: Value, buf: seq<byte>, offset: nat, k: nat, at: nat)
    requires v.StructValue? && WellFormed(v) && k < |v.members|
    requires Holds(buf, offset, MembersImage(v, |v.members|))
    requires at == offset + MembersExtent(TypeOf(v), k)
    ensures WellFormed(v.members[k]) && TypeOf(v).members[k] == TypeOf(v.members[k])
    ensures Holds(buf, at, Image(v.members[k]))
    ensures offset + MembersExtent(TypeOf(v), |v.members|) <= |buf|
  {
    var n := |v.members|;
    MembersStep(v, k);
    MembersImageLength(v, k);
    MembersImageLength(v, n);
    MembersImageAt(v, n, k);
    HoldsSlice(buf, offset, MembersImage(v, n), |MembersImage(v, k)|, |MembersImage(v, k + 1)|);
  }

  /**
   * Round trip: whatever the buffer held before, reading a value back from
   * where it was serialized yields the value.
   */
  lemma {:induction false} SerializeRoundTrip(v: Value, buf: seq<byte>, offset: nat)
    requires WellFormed(v) && offset + Size(TypeOf(v)) <= |buf|
    ensures Decode(TypeOf(v), Overlay(buf, offset, Image(v)), offset) == v
  {
    ImageLength(v);
    OverlayHolds(buf, offset, Image(v));
    DecodeReadsImage(v, Overlay(buf, offset, Image(v)), offset);
  }

  // ------------------------------------------------------------------ serialize

  /** `storeBytes` / `copyMemory`: the bytes land at `offset`, nothing else changes. */
  method StoreBytes(buffer: array<byte>, offset: nat, bs: seq<byte>)
    requires offset + |bs| <= buffer.Length
    modifies buffer
    ensures buffer[..] == Overlay(old(buffer[..]), offset, Written(bs))
  {
    forall i | 0 <= i < |bs| {
      buffer[offset + i] := bs[i];
    }
    forall i | 0 <= i < buffer.Length ensures buffer[i] == Overlay(old(buffer[..]), offset, Written(bs))[i] {
      OverlayAt(old(buffer[..]), offset, Written(bs), i);
      if offset <= i < offset + |bs| {
        WrittenAt(bs, i - offset);
      }
    }
  }


  /** `serialize(into:offset:)` of every conforming type. */
  method Serialize(v: Value, buffer: array<byte>, offset: nat)
    requires WellFormed(v) && offset + Size(TypeOf(v)) <= buffer.Length
    modifies buffer
    ensures buffer[..] == Overlay(old(buffer[..]), offset, Image(v))
    decreases v, 2
  {
    match v
    case UInt32Value(u) =>
      StoreBytes(buffer, offset, Le32(u));
    case FloatValue(f) =>
      StoreBytes(buffer, offset, Le32(f.bits));
    case FVec2Value(x, y) =>
      StoreBytes(buffer, offset, Le32(x.bits) + Le32(y.bits));
    case FVec3Value(x, y, z) =>
      var bs := Le32(x.bits) + Le32(y.bits) + Le32(z.bits);
      StoreBytes(buffer, offset, bs);
      OverlayUntouchedTail(old(buffer[..]), offset, Written(bs), 4);
    case FpRGBColorValue(r, g, b) =>
      StoreBytes(buffer, offset, r + g + b);
    case Matrix4Value(e) =>
      StoreBytes(buffer, offset, FloatsBytes(Transposed(e)));
    case StructValue(ms) =>
      SerializeStruct(v, buffer, offset);
  }

  /**
   * `BufferSerializableStruct.serialize`: the members are written one after
   * another and the rest of the struct's size is left alone.
   */
  method SerializeStruct(v: Value, buffer: array<byte>, offset: nat)
    requires v.StructValue? && WellFormed(v) && offset + Size(TypeOf(v)) <= buffer.Length
    modifies buffer
    ensures buffer[..] == Overlay(old(buffer[..]), offset, Image(v))
    decreases v, 1
  {
    MembersExtentFits(TypeOf(v));
    SerializeMembers(v, buffer, offset);
    OverlayUntouchedTail(old(buffer[..]), offset, MembersImage(v, |v.members|), Padding(TypeOf(v)));
  }

  /**
   * The member loop: members in declaration order, `currentOffset` advancing
   * by each member's own `serializedSize`; the computed base alignment plays
   * no part.
   */
  method SerializeMembers(v: Value, buffer: array<byte>, offset: nat)
    requires v.StructValue? && WellFormed(v)
    requires offset + MembersExtent(TypeOf(v), |v.members|) <= buffer.Length
    modifies buffer
    ensures buffer[..] == Overlay(old(buffer[..]), offset, MembersImage(v, |v.members|))
    decreases v, 0
  {
    var ms := v.members;
    var t := TypeOf(v);
    var currentOffset := offset;
    for k := 0 to |ms|
      invariant currentOffset == offset + MembersExtent(t, k)
      invariant MembersExtent(t, k) <= MembersExtent(t, |ms|)
      invariant buffer[..] == Overlay(old(buffer[..]), offset, MembersImage(v, k))
    {
      ghost var before := MembersImage(v, k);
      ghost var member := Image(ms[k]);
      MembersStep(v, k);
      MembersImageLength(v, k);
      MembersExtentMonotone(t, k + 1, |ms|);
      Serialize(ms[k], buffer, currentOffset);
      OverlayConcat(old(buffer[..]), offset, before, currentOffset, member);
      currentOffset := currentOffset + Size(TypeOf(ms[k]));
    }
  }
}
