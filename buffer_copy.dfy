/**
 * `Array.asUnsafeMutableBufferPointer()`
 * (Sources/SwiftVulkanRenderer/Helpers/Array+asUnsafeMutableBufferPointer.swift):
 * allocate a buffer of `count` elements and initialise it from the array,
 * element by element. A Swift array is a value, so it is a `seq` here; the
 * buffer is a fresh `array` that the caller then owns (nothing frees it).
 */
module BufferPointers {

  /**
   * `allocate(capacity: count)` followed by `initialize(from: self)`. Dafny
   * arrays of a generic element type start out holding a default value,
   * which is why `T` must have one; the copy loop overwrites every slot.
   */
  method AsUnsafeMutableBufferPointer<T(0)>(elements: seq<T>) returns (result: array<T>)
    ensures fresh(result)
    ensures result.Length == |elements|
    ensures forall i :: 0 <= i < |elements| ==> result[i] == elements[i]
  {
    result := new T[|elements|];
    for i := 0 to |elements|
      invariant forall j :: 0 <= j < i ==> result[j] == elements[j]
    {
      result[i] := elements[i];
    }
  }
}
