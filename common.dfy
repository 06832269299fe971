/** Shared vocabulary: the failure-carrying wrappers and Swift's fixed-width integers. */
module Common {

  datatype Option<+T> = None | Some(value: T)

  datatype Result<+T, +E> = Success(value: T) | Failure(error: E)

  /** Swift `UInt8`. */
  type byte = x: int | 0 <= x < 0x100

  /** Swift `UInt32`. */
  type uint32 = x: int | 0 <= x < 0x1_0000_0000

  /** One past the largest `UInt32`. */
  const UINT32_LIMIT: nat := 0x1_0000_0000

  /** One past the largest `UInt64` (`VkDeviceSize`). */
  const UINT64_LIMIT: nat := 0x1_0000_0000_0000_0000

  /** The largest Swift `Int` on a 64-bit target. */
  const INT_MAX: nat := 0x7FFF_FFFF_FFFF_FFFF

  /** An opaque Vulkan handle (`VkBuffer`, `VkImage`, `VkDeviceMemory`, ...). */
  type Handle = nat

  /** A slice of `a + b` that lies inside `a`. */
  lemma {:induction false} SliceOfAppendLeft<T>(a: seq<T>, b: seq<T>, i: nat, j: nat)
    requires i <= j <= |a|
    ensures (a + b)[i..j] == a[i..j]
  {
    assert forall k :: i <= k < j ==> (a + b)[k] == a[k];
  }

  /** A slice of a slice is a slice of the whole. */
  lemma {:induction false} SliceOfSlice<T>(s: seq<T>, i: nat, j: nat, k: nat, l: nat)
    requires i <= j <= |s| && k <= l <= j - i
    ensures s[i..j][k..l] == s[i + k .. i + l]
  {
    forall m | 0 <= m < l - k ensures s[i..j][k..l][m] == s[i + k .. i + l][m] {
      assert s[i..j][k..l][m] == s[i..j][k + m];
    }
  }

  /** A slice of `a + b` that lies inside `b`. */
  lemma {:induction false} SliceOfAppendRight<T>(a: seq<T>, b: seq<T>, i: nat, j: nat)
    requires |a| <= i <= j <= |a| + |b|
    ensures (a + b)[i..j] == b[i - |a| .. j - |a|]
  {
    assert forall k :: i <= k < j ==> (a + b)[k] == b[k - |a|];
  }
}
