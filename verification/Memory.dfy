/**
 The heap: which objects are allocated, and which have been freed. What is in neither set was never
 on the heap: it belongs to a caller's stack or to a client.
 */
module Memory {
  class Heap {
    var live: set<object>
    var freed: set<object>

    ghost predicate Valid()
      reads this
    {
      live !! freed
    }

    constructor ()
      ensures Valid() && live == {} && freed == {}
    {
      live, freed := {}, {};
    }

    /** A successful allocation. */
    method Allocated(o: object)
      requires Valid() && o !in live && o !in freed
      modifies this
      ensures Valid() && live == old(live) + {o} && freed == old(freed)
    {
      live := live + {o};
    }

    /** Freeing anything that is not live is excluded at every call. */
    method Free(o: object)
      requires Valid() && o in live
      modifies this
      ensures Valid() && live == old(live) - {o} && freed == old(freed) + {o}
    {
      live, freed := live - {o}, freed + {o};
    }
  }
}
