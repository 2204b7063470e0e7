/**
 * Reloadable and DefaultReloadHandler: objects registered for resource reloads are prepared
 * in ascending prepare priority and then reloaded in descending reload priority. A priority
 * comes from an annotation on the object's class; without one the reload priority is
 * DEFAULT_PRIORITY and the prepare priority falls back to the reload priority.
 */
module Reload {
  import opened Wrappers
  import opened JavaLang
  import opened ObjectQueues

  const DEFAULT_PRIORITY: Int32 := 0

  /**
   * A registered object: its identity, the values of the @ReloadPriority and @PreparePriority
   * annotations on its class if present, and the dispatchers its class overrides, if any.
   */
  datatype Reloadable = Reloadable(id: nat,
                                   reloadAnnotation: Option<Int32>,
                                   prepareAnnotation: Option<Int32>,
                                   prepareOverride: Option<Dispatcher>,
                                   reloadOverride: Option<Dispatcher>)

  /** Reloadable.getReloadPriority. */
  function ReloadPriority(r: Reloadable): Int32
  {
    match r.reloadAnnotation
    case None => DEFAULT_PRIORITY
    case Some(p) => p
  }

  /** Reloadable.getPreparePriority. */
  function PreparePriority(r: Reloadable): Int32
  {
    match r.prepareAnnotation
    case None => ReloadPriority(r)
    case Some(p) => p
  }

  /** Reloadable.getPrepareDispatcher and getReloadDispatcher: MAIN unless overridden. */
  function PrepareDispatcher(r: Reloadable): Dispatcher
  {
    r.prepareOverride.GetOr(MAIN)
  }

  function ReloadDispatcher(r: Reloadable): Dispatcher
  {
    r.reloadOverride.GetOr(MAIN)
  }

  /** Without annotations both priorities are DEFAULT_PRIORITY; without a prepare annotation they agree. */
  lemma DefaultPriorities(r: Reloadable)
    ensures r.prepareAnnotation.None? ==> PreparePriority(r) == ReloadPriority(r)
    ensures r.reloadAnnotation.None? && r.prepareAnnotation.None? ==> PreparePriority(r) == DEFAULT_PRIORITY
  {
  }

  /** Integer.compare. */
  function IntegerCompare(x: Int32, y: Int32): (c: int)
    ensures c < 0 <==> x < y
    ensures c == 0 <==> x == y
    ensures -1 <= c <= 1
  {
    if x < y then -1 else if x == y then 0 else 1
  }

  /** Reloadable.COMPARATOR: higher reload priority first. */
  function Compare(a: Reloadable, b: Reloadable): int
  {
    IntegerCompare(ReloadPriority(b), ReloadPriority(a))
  }

  /** Reloadable.PREP_COMPARATOR: lower prepare priority first. */
  function PrepCompare(a: Reloadable, b: Reloadable): int
  {
    IntegerCompare(PreparePriority(a), PreparePriority(b))
  }

  /** The ascending sort keys the two comparators order by. */
  function ReloadKey(r: Reloadable): int
  {
    0 - ReloadPriority(r) as int
  }

  function PrepareKey(r: Reloadable): int
  {
    PreparePriority(r)
  }

  /** Each comparator puts `a` no later than `b` exactly when its key does. */
  lemma ComparatorsMatchKeys(a: Reloadable, b: Reloadable)
    ensures Compare(a, b) <= 0 <==> ReloadKey(a) <= ReloadKey(b)
    ensures Compare(a, b) == 0 <==> ReloadKey(a) == ReloadKey(b)
    ensures PrepCompare(a, b) <= 0 <==> PrepareKey(a) <= PrepareKey(b)
    ensures PrepCompare(a, b) == 0 <==> PrepareKey(a) == PrepareKey(b)
  {
  }

  /** A list sorted by ReloadKey is in COMPARATOR order. */
  lemma ReloadKeyOrder(s: seq<Reloadable>)
    requires SortedBy(s, ReloadKey)
    ensures forall i, j :: 0 <= i < j < |s| ==> Compare(s[i], s[j]) <= 0
  {
    forall i, j | 0 <= i < j < |s|
      ensures Compare(s[i], s[j]) <= 0
    {
      ComparatorsMatchKeys(s[i], s[j]);
    }
  }

  /** A list sorted by PrepareKey is in PREP_COMPARATOR order. */
  lemma PrepareKeyOrder(s: seq<Reloadable>)
    requires SortedBy(s, PrepareKey)
    ensures forall i, j :: 0 <= i < j < |s| ==> PrepCompare(s[i], s[j]) <= 0
  {
    forall i, j | 0 <= i < j < |s|
      ensures PrepCompare(s[i], s[j]) <= 0
    {
      ComparatorsMatchKeys(s[i], s[j]);
    }
  }

  /** Sorting by either comparator: in order, a permutation, and stable. */
  lemma SortedProperties(s: seq<Reloadable>)
    ensures var r := Sort(s, ReloadKey);
            && multiset(r) == multiset(s)
            && (forall i, j :: 0 <= i < j < |r| ==> Compare(r[i], r[j]) <= 0)
            && (forall k :: Filter(r, ReloadKey, k) == Filter(s, ReloadKey, k))
    ensures var r := Sort(s, PrepareKey);
            && multiset(r) == multiset(s)
            && (forall i, j :: 0 <= i < j < |r| ==> PrepCompare(r[i], r[j]) <= 0)
            && (forall k :: Filter(r, PrepareKey, k) == Filter(s, PrepareKey, k))
  {
    SortSorted(s, ReloadKey);
    ReloadKeyOrder(Sort(s, ReloadKey));
    SortSorted(s, PrepareKey);
    PrepareKeyOrder(Sort(s, PrepareKey));
    forall k
      ensures Filter(Sort(s, ReloadKey), ReloadKey, k) == Filter(s, ReloadKey, k)
      ensures Filter(Sort(s, PrepareKey), PrepareKey, k) == Filter(s, PrepareKey, k)
    {
      SortStable(s, ReloadKey, k);
      SortStable(s, PrepareKey, k);
    }
  }

  /** Objects without priority annotations are prepared and reloaded in registration order. */
  lemma UnannotatedKeepOrder(s: seq<Reloadable>)
    requires forall i :: 0 <= i < |s| ==> s[i].reloadAnnotation.None? && s[i].prepareAnnotation.None?
    ensures Sort(s, ReloadKey) == s
    ensures Sort(s, PrepareKey) == s
  {
    SortEqualKeys(s, ReloadKey, 0);
    SortEqualKeys(s, PrepareKey, 0);
  }

  /** What one reload of the handler does with its objects, in order. */
  datatype ReloadRun = ReloadRun(preparedInline: seq<Reloadable>, preparedInBackground: seq<Reloadable>,
                                 reloadedInline: seq<Reloadable>, reloadedInBackground: seq<Reloadable>)

  class ReloadHandler {
    var objects: seq<Reloadable>

    ghost predicate Valid()
      reads this
    {
      Distinct(objects)
    }

    constructor()
      ensures objects == [] && Valid()
    {
      objects := [];
    }

    /** register: an object already in the queue is not added again. */
    method Register(r: Reloadable)
      requires Valid()
      modifies this
      ensures Valid()
      ensures objects == if r in old(objects) then old(objects) else old(objects) + [r]
    {
      if r in objects {
        return;
      }
      objects := objects + [r];
    }

    /** unregister: removes the object; every other object stays. */
    method Unregister(r: Reloadable)
      requires Valid()
      modifies this
      ensures Valid()
      ensures objects == RemoveFirst(old(objects), r)
      ensures r !in objects
      ensures forall y :: y != r ==> (y in objects <==> y in old(objects))
    {
      RemoveFirstDistinct(objects, r);
      forall y | y != r
        ensures y in RemoveFirst(objects, r) <==> y in objects
      {
        RemoveFirstKeepsOthers(objects, r, y);
      }
      objects := RemoveFirst(objects, r);
    }

    /** getObjects: a copy of the queue sorted by COMPARATOR; equal priorities keep registration order. */
    function GetObjects(): (r: seq<Reloadable>)
      reads this
      ensures multiset(r) == multiset(objects)
      ensures forall i, j :: 0 <= i < j < |r| ==> Compare(r[i], r[j]) <= 0
      ensures forall k :: Filter(r, ReloadKey, k) == Filter(objects, ReloadKey, k)
    {
      SortedProperties(objects);
      Sort(objects, ReloadKey)
    }

    /** getPrepSortedObjects: a copy of the queue sorted by PREP_COMPARATOR, stably. */
    function GetPrepSortedObjects(): (r: seq<Reloadable>)
      reads this
      ensures multiset(r) == multiset(objects)
      ensures forall i, j :: 0 <= i < j < |r| ==> PrepCompare(r[i], r[j]) <= 0
      ensures forall k :: Filter(r, PrepareKey, k) == Filter(objects, PrepareKey, k)
    {
      SortedProperties(objects);
      Sort(objects, PrepareKey)
    }

    /**
     * reload: prepareAll over the prepare-sorted objects, then (after the barrier) reloadAll
     * over the reload-sorted objects. Every registered object is prepared once and reloaded once;
     * those dispatched to MAIN run in comparator order.
     */
    method Reload() returns (run: ReloadRun)
      ensures run.preparedInline == Filter(GetPrepSortedObjects(), PrepareDispatcher, MAIN)
      ensures run.preparedInBackground == Filter(GetPrepSortedObjects(), PrepareDispatcher, BACKGROUND)
      ensures run.reloadedInline == Filter(GetObjects(), ReloadDispatcher, MAIN)
      ensures run.reloadedInBackground == Filter(GetObjects(), ReloadDispatcher, BACKGROUND)
      ensures multiset(run.preparedInline) + multiset(run.preparedInBackground) == multiset(objects)
      ensures multiset(run.reloadedInline) + multiset(run.reloadedInBackground) == multiset(objects)
      ensures forall i, j :: 0 <= i < j < |run.preparedInline| ==>
                PrepCompare(run.preparedInline[i], run.preparedInline[j]) <= 0
      ensures forall i, j :: 0 <= i < j < |run.reloadedInline| ==>
                Compare(run.reloadedInline[i], run.reloadedInline[j]) <= 0
    {
      var prepared := GetPrepSortedObjects();
      var pInline, pBackground := Dispatch(prepared, PrepareDispatcher);
      var reloaded := GetObjects();
      var rInline, rBackground := Dispatch(reloaded, ReloadDispatcher);
      run := ReloadRun(pInline, pBackground, rInline, rBackground);
      SortSorted(objects, PrepareKey);
      FilterSorted(prepared, PrepareKey, PrepareDispatcher, MAIN);
      PrepareKeyOrder(pInline);
      SortSorted(objects, ReloadKey);
      FilterSorted(reloaded, ReloadKey, ReloadDispatcher, MAIN);
      ReloadKeyOrder(rInline);
    }
  }

  /** With no annotations and no overridden dispatchers, both phases run every object in place in registration order. */
  lemma PlainObjectsRunInRegistrationOrder(h: ReloadHandler)
    requires forall i :: 0 <= i < |h.objects| ==>
               h.objects[i] == Reloadable(h.objects[i].id, None, None, None, None)
    ensures Filter(h.GetPrepSortedObjects(), PrepareDispatcher, MAIN) == h.objects
    ensures Filter(h.GetObjects(), ReloadDispatcher, MAIN) == h.objects
  {
    UnannotatedKeepOrder(h.objects);
    FilterAll(h.objects, PrepareDispatcher, MAIN);
    FilterAll(h.objects, ReloadDispatcher, MAIN);
  }
}
