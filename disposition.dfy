/**
 * DefaultDispositionHandler: the queue of objects whose native resources are freed when the
 * game shuts down. disposeAll walks the queue in registration order and then empties it.
 */
module Disposition {
  import opened ObjectQueues

  /**
   * A disposable object: its identity and the dispatcher its class selects (MAIN unless a
   * @DisposePriority annotation names another).
   */
  datatype Disposable = Disposable(id: nat, dispatcher: Dispatcher)

  function DisposeDispatcher(d: Disposable): Dispatcher
  {
    d.dispatcher
  }

  class DispositionHandler {
    var objects: seq<Disposable>

    ghost predicate Valid()
      reads this
    {
      Distinct(objects)
    }

    constructor()
      ensures objects == [] && Valid()
    {
      objects := [];
    }

    /** register: an object already in the queue is not added again. */
    method Register(d: Disposable)
      requires Valid()
      modifies this
      ensures Valid()
      ensures objects == if d in old(objects) then old(objects) else old(objects) + [d]
    {
      if d in objects {
        return;
      }
      objects := objects + [d];
    }

    /** unregister: removes the object; every other object stays. */
    method Unregister(d: Disposable)
      requires Valid()
      modifies this
      ensures Valid()
      ensures objects == RemoveFirst(old(objects), d)
      ensures d !in objects
      ensures forall y :: y != d ==> (y in objects <==> y in old(objects))
    {
      RemoveFirstDistinct(objects, d);
      forall y | y != d
        ensures y in RemoveFirst(objects, d) <==> y in objects
      {
        RemoveFirstKeepsOthers(objects, d, y);
      }
      objects := RemoveFirst(objects, d);
    }

    /** getObjects: a snapshot of the queue in registration order, each object once. */
    function GetObjects(): (r: seq<Disposable>)
      requires Valid()
      reads this
      ensures Distinct(r)
      ensures |r| == |objects| && forall i :: 0 <= i < |r| ==> r[i] == objects[i]
    {
      objects
    }

    /**
     * disposeAll: every registered object is disposed exactly once, those on MAIN in place in
     * registration order, the others handed to the background executor; the queue is emptied.
     */
    method DisposeAll() returns (inline: seq<Disposable>, submitted: seq<Disposable>)
      modifies this
      ensures objects == []
      ensures inline == Filter(old(objects), DisposeDispatcher, MAIN)
      ensures submitted == Filter(old(objects), DisposeDispatcher, BACKGROUND)
      ensures multiset(inline) + multiset(submitted) == multiset(old(objects))
    {
      inline, submitted := Dispatch(objects, DisposeDispatcher);
      objects := [];
    }
  }

  /** Registering two distinct objects and then disposing runs both, the first registered first when both are on MAIN. */
  method RegisterTwiceThenDispose(a: Disposable, b: Disposable) returns (inline: seq<Disposable>)
    requires a != b && a.dispatcher == MAIN && b.dispatcher == MAIN
    ensures inline == [a, b]
  {
    var h := new DispositionHandler();
    h.Register(a);
    h.Register(b);
    h.Register(a);
    assert h.objects == [a, b];
    var submitted;
    inline, submitted := h.DisposeAll();
    assert [a, b] == [a] + [b];
    FilterSnoc([a], b, DisposeDispatcher, MAIN);
    FilterSnoc([], a, DisposeDispatcher, MAIN);
    assert [] + [a] == [a];
  }
}
