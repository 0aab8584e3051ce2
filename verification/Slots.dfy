/** The backpressure pool shared by all pollers (internal/slots/pool.go). */
module Slots {
  import Lifecycle

  datatype Outcome = Acquired | Cancelled | Blocked

  class Pool {
    const capacity: nat
    /** Number of elements in the buffered channel. */
    var held: nat

    ghost predicate Valid()
      reads this
    {
      held <= capacity
    }

    constructor (capacity: nat)
      ensures Valid() && this.capacity == capacity && held == 0
    {
      this.capacity, held := capacity, 0;
    }

    /** One look at the select of Acquire: a slot while there is room, the context's error once
        it is done, either of the two (`preferSlot`) when both are ready, and otherwise no case
        at all, which leaves the caller waiting. */
    method Acquire(ctxDone: bool, preferSlot: bool) returns (out: Outcome)
      requires Valid()
      modifies this
      ensures Valid()
      ensures out.Acquired? ==> old(held) < capacity && held == old(held) + 1
      ensures out.Cancelled? ==> ctxDone && held == old(held)
      ensures out.Blocked? <==> old(held) == capacity && !ctxDone
      ensures out.Blocked? ==> held == old(held)
      ensures old(held) < capacity && preferSlot ==> out.Acquired?
      ensures ctxDone && !preferSlot ==> out.Cancelled?
    {
      if held < capacity && (preferSlot || !ctxDone) {
        held := held + 1;
        return Acquired;
      }
      return if ctxDone then Cancelled else Blocked;
    }

    /** Gives one slot back; a no-op on an empty pool. */
    method Release()
      requires Valid()
      modifies this
      ensures Valid() && held == Lifecycle.Released(old(held))
      ensures held == if old(held) > 0 then old(held) - 1 else 0
    {
      if held > 0 {
        held := held - 1;
      }
    }
  }
}
