/**
 * `Deferred<T>` (Sources/SwiftVulkanRenderer/Deferred.swift): a property
 * wrapper around an optional `value` that starts out `nil`. Reading the
 * wrapped value force-unwraps it, so a read before the first write traps;
 * writing stores the new value. The projected value is the wrapper itself,
 * through which `value` can be inspected without trapping.
 */
module Deferreds {
  import opened Common

  /** What a read of `wrappedValue` can end in: the stored value, or the trap of `value!`. */
  datatype Unwrap = UnexpectedlyFoundNil

  class Deferred<T> {
    var value: Option<T>

    /** `init()`: nothing stored yet. */
    constructor()
      ensures value == None
    {
      value := None;
    }

    /** The getter of `wrappedValue`: the stored value, or the trap when there is none. */
    function WrappedValue(): (r: Result<T, Unwrap>)
      reads this
      ensures r.Success? <==> value.Some?
      ensures r.Success? ==> value == Some(r.value)
    {
      match value
      case Some(v) => Success(v)
      case None => Failure(UnexpectedlyFoundNil)
    }

    /** The setter of `wrappedValue`: the new value replaces whatever was stored. */
    method SetWrappedValue(newValue: T)
      modifies this
      ensures value == Some(newValue)
      ensures WrappedValue() == Success(newValue)
    {
      value := Some(newValue);
    }

    /** `projectedValue` (`$name`): the wrapper object itself. */
    function ProjectedValue(): (d: Deferred<T>)
      ensures d == this
    {
      this
    }
  }

  /**
   * A fresh wrapper traps when read; after any sequence of writes a read
   * returns the last value written, and the projected value reaches the
   * same state.
   */
  method ReadAfterWrites<T>(first: T, second: T) returns (before: Result<T, Unwrap>, after: Result<T, Unwrap>)
    ensures before == Failure(UnexpectedlyFoundNil)
    ensures after == Success(second)
  {
    var d := new Deferred<T>();
    before := d.WrappedValue();
    d.SetWrappedValue(first);
    d.SetWrappedValue(second);
    after := d.ProjectedValue().WrappedValue();
  }
}
