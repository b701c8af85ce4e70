/**
 * The decompression engine the pool manages (java.util.zip.Inflater), seen as an
 * opaque handle: only its construction flag and its lifecycle are modelled, not
 * what it decompresses.
 */
module Inflaters {

  /** Where a handle is in its life: as built, being used, cleaned for reuse, or freed. */
  datatype Lifecycle = Fresh | InUse | Reset | Ended

  class Inflater {
    /** The header-format flag the engine was built with; it never changes. */
    const nowrap: bool
    var state: Lifecycle

    constructor (nowrap: bool)
      ensures this.nowrap == nowrap && state == Fresh
    {
      this.nowrap := nowrap;
      state := Fresh;
    }

    /** Ready to be handed to a new user: no state left over from an earlier use. */
    predicate Ready()
      reads this
    {
      state == Fresh || state == Lifecycle.Reset
    }

    /** A caller decompresses with the handle; an ended engine cannot be used. */
    method Inflate()
      requires state != Ended
      modifies this
      ensures state == InUse
    {
      state := InUse;
    }

    /** Inflater.reset(): back to a clean state; refused once the engine has been ended. */
    method Reset()
      requires state != Ended
      modifies this
      ensures state == Lifecycle.Reset
    {
      state := Lifecycle.Reset;
    }

    /** Inflater.end(): frees the native resources; ending twice is harmless. */
    method End()
      modifies this
      ensures state == Ended
    {
      state := Ended;
    }
  }
}
