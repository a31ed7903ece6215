/** One field of an update body. Pydantic tells a field the caller left out
    (dropped by `model_dump(exclude_unset=True)`) from one sent as JSON `null`
    (kept, and assigned as None). */
module Patches {

  datatype Patch<+T> = Unset | Null | Set(value: T) {

    /** The field appears in `model_dump(exclude_unset=True)`. */
    predicate IsSet() {
      !Unset?
    }

    /** The value after `setattr`: the new one if given, else the current one. */
    function ApplyTo(current: T): T
      requires !Null?
    {
      if Set? then value else current
    }
  }
}
