/** Change notification (patterns/observer.py): an ordered, duplicate-free list of observers. */
module Notification {
  import opened Common

  /** A dependent (in the application, a view). The subject only ever compares observers by
      identity and calls their `update`, so an observer here is an identity and nothing more. */
  class Observer {
    constructor ()
    {
    }
  }

  /** The observer list after `attach(o)`: `o` is appended unless it is already there. */
  function Attached(observers: seq<Observer>, o: Observer): (r: seq<Observer>)
    ensures o in r && |r| <= |observers| + 1
    ensures forall p :: p in observers ==> p in r
    ensures IsSubsequence(observers, r)
    ensures NoDuplicates(observers) ==> NoDuplicates(r)
  {
    if o in observers then
      SubsequenceReflexive(observers);
      observers
    else
      PrefixIsSubsequence(observers, [o]);
      observers + [o]
  }

  /** Attaching twice has the effect of attaching once. */
  lemma AttachIdempotent(observers: seq<Observer>, o: Observer)
    ensures Attached(Attached(observers, o), o) == Attached(observers, o)
  {
  }

  /** `detach(o)` removes `o` from a duplicate-free list, keeps the others in order, and is a
      no-op for an observer that is not attached. */
  lemma DetachRemoves(observers: seq<Observer>, o: Observer)
    requires NoDuplicates(observers)
    ensures o !in RemoveFirst(observers, o) && NoDuplicates(RemoveFirst(observers, o))
    ensures forall p :: p in observers && p != o ==> p in RemoveFirst(observers, o)
    ensures IsSubsequence(RemoveFirst(observers, o), observers)
    ensures o !in observers ==> RemoveFirst(observers, o) == observers
  {
    RemoveFirstKeepsNoDuplicates(observers, o);
    RemoveFirstIsSubsequence(observers, o);
    forall p | p in observers && p != o ensures p in RemoveFirst(observers, o) {
      assert multiset(RemoveFirst(observers, o))[p] == multiset(observers)[p];
    }
  }

  /** The subject side. `delivered` records every `update(subject)` call made on an observer,
      in the order the calls happen. */
  class Subject {
    var observers: seq<Observer>
    var delivered: seq<Observer>

    ghost predicate Valid()
      reads this
    {
      NoDuplicates(observers)
    }

    /** A new subject has no observers (and has notified no one). */
    constructor ()
      ensures Valid() && observers == [] && delivered == []
    {
      observers := [];
      delivered := [];
    }

    method Attach(o: Observer)
      requires Valid()
      modifies this
      ensures Valid()
      ensures observers == Attached(old(observers), o) && delivered == old(delivered)
    {
      if o !in observers {
        observers := observers + [o];
      }
    }

    /** Removing an absent observer raises ValueError in `list.remove`, which `detach`
        swallows: the list is left unchanged. */
    method Detach(o: Observer)
      requires Valid()
      modifies this
      ensures Valid() && o !in observers
      ensures observers == RemoveFirst(old(observers), o) && delivered == old(delivered)
    {
      RemoveFirstKeepsNoDuplicates(observers, o);
      observers := RemoveFirst(observers, o);
    }

    /** `notify`: one `update(self)` call per attached observer, in attachment order. */
    method Notify()
      modifies this`delivered
      ensures delivered == old(delivered) + observers
    {
      for i := 0 to |observers|
        invariant delivered == old(delivered) + observers[..i]
      {
        delivered := delivered + [observers[i]];
      }
    }
  }
}
