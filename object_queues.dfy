/**
 * The collection operations the reload and disposition handlers rely on: the
 * ConcurrentLinkedQueue they register objects in (add, contains, remove of the first equal
 * element, iteration in insertion order) and List.sort, which the Java library guarantees to
 * be stable. Equality of registered objects is Java's identity, modelled by datatype equality.
 */
module ObjectQueues {

  /** No object is registered twice. */
  ghost predicate Distinct<T>(s: seq<T>)
  {
    forall i, j :: 0 <= i < j < |s| ==> s[i] != s[j]
  }

  /** ConcurrentLinkedQueue.remove: drop the first element equal to `x`, if any. */
  function RemoveFirst<T(==)>(s: seq<T>, x: T): (r: seq<T>)
    ensures multiset(r) == multiset(s) - multiset{x}
    ensures x in s ==> |r| == |s| - 1
    ensures x !in s ==> r == s
  {
    if s == [] then []
    else
      assert s == [s[0]] + s[1..];
      if s[0] == x then s[1..] else [s[0]] + RemoveFirst(s[1..], x)
  }

  lemma DistinctTail<T>(s: seq<T>)
    requires Distinct(s) && s != []
    ensures Distinct(s[1..]) && s[0] !in s[1..]
  {
    forall i, j | 0 <= i < j < |s| - 1
      ensures s[1..][i] != s[1..][j]
    {
      assert s[1..][i] == s[i + 1] && s[1..][j] == s[j + 1];
    }
  }

  lemma DistinctCons<T>(a: T, t: seq<T>)
    requires Distinct(t) && a !in t
    ensures Distinct([a] + t)
  {
    var s := [a] + t;
    forall i, j | 0 <= i < j < |s|
      ensures s[i] != s[j]
    {
      assert s[j] == t[j - 1];
      if i > 0 {
        assert s[i] == t[i - 1];
      }
    }
  }

  /** Removal keeps every element other than `x`. */
  lemma RemoveFirstKeepsOthers<T>(s: seq<T>, x: T, y: T)
    requires y != x
    ensures y in RemoveFirst(s, x) <==> y in s
  {
    assert multiset(RemoveFirst(s, x))[y] == multiset(s)[y];
  }

  /** In a queue without repetitions, removal takes `x` out and leaves no repetition. */
  lemma {:induction false} RemoveFirstDistinct<T>(s: seq<T>, x: T)
    requires Distinct(s)
    ensures Distinct(RemoveFirst(s, x))
    ensures x !in RemoveFirst(s, x)
  {
    if s != [] {
      DistinctTail(s);
      if s[0] != x {
        RemoveFirstDistinct(s[1..], x);
        var t := RemoveFirst(s[1..], x);
        assert s[0] !in t by {
          RemoveFirstKeepsOthers(s[1..], x, s[0]);
        }
        DistinctCons(s[0], t);
      }
    }
  }

  /** The elements of `s` whose `f` is `k`, in their order in `s`. */
  function Filter<T, K(==)>(s: seq<T>, f: T -> K, k: K): (r: seq<T>)
    ensures |r| <= |s|
    ensures forall i :: 0 <= i < |r| ==> f(r[i]) == k
  {
    if s == [] then []
    else Filter(s[..|s| - 1], f, k) + (if f(s[|s| - 1]) == k then [s[|s| - 1]] else [])
  }

  lemma FilterSnoc<T, K>(s: seq<T>, x: T, f: T -> K, k: K)
    ensures Filter(s + [x], f, k) == Filter(s, f, k) + (if f(x) == k then [x] else [])
  {
    assert (s + [x])[..|s|] == s;
  }

  lemma {:induction false} FilterAppend<T, K>(a: seq<T>, b: seq<T>, f: T -> K, k: K)
    ensures Filter(a + b, f, k) == Filter(a, f, k) + Filter(b, f, k)
    decreases |b|
  {
    if b != [] {
      var b' := b[..|b| - 1];
      var y := b[|b| - 1];
      assert a + b == (a + b') + [y];
      assert b == b' + [y];
      FilterAppend(a, b', f, k);
      FilterSnoc(a + b', y, f, k);
      FilterSnoc(b', y, f, k);
    } else {
      assert a + b == a;
    }
  }

  /** A two-valued key splits a sequence into two parts that together hold each element once. */
  lemma {:induction false} FilterSplits<T, K>(s: seq<T>, f: T -> K, k1: K, k2: K)
    requires forall x :: f(x) == k1 || f(x) == k2
    requires k1 != k2
    ensures multiset(Filter(s, f, k1)) + multiset(Filter(s, f, k2)) == multiset(s)
  {
    if s != [] {
      var s', x := s[..|s| - 1], s[|s| - 1];
      FilterSplits(s', f, k1, k2);
      assert s == s' + [x];
      var a, b := Filter(s', f, k1), Filter(s', f, k2);
      if f(x) == k1 {
        assert Filter(s, f, k1) == a + [x] && Filter(s, f, k2) == b;
        assert multiset(a + [x]) == multiset(a) + multiset{x};
      } else {
        assert Filter(s, f, k1) == a && Filter(s, f, k2) == b + [x];
        assert multiset(b + [x]) == multiset(b) + multiset{x};
      }
    }
  }

  /** Elements that all share the key `k` are kept entire. */
  lemma {:induction false} FilterAll<T, K>(s: seq<T>, f: T -> K, k: K)
    requires forall i :: 0 <= i < |s| ==> f(s[i]) == k
    ensures Filter(s, f, k) == s
  {
    if s != [] {
      FilterAll(s[..|s| - 1], f, k);
    }
  }

  /** Ascending by `key`. */
  ghost predicate SortedBy<T>(s: seq<T>, key: T -> int)
  {
    forall i, j :: 0 <= i < j < |s| ==> key(s[i]) <= key(s[j])
  }

  /** Filtering keeps a sorted sequence sorted. */
  lemma {:induction false} FilterSorted<T, K>(s: seq<T>, key: T -> int, f: T -> K, k: K)
    requires SortedBy(s, key)
    ensures SortedBy(Filter(s, f, k), key)
  {
    if s != [] {
      var s' := s[..|s| - 1];
      var x := s[|s| - 1];
      FilterSorted(s', key, f, k);
      var r' := Filter(s', f, k);
      if f(x) == k {
        forall i | 0 <= i < |r'|
          ensures key(r'[i]) <= key(x)
        {
          FilterMember(s', f, k, r'[i]);
        }
      }
    }
  }

  lemma {:induction false} FilterMember<T, K>(s: seq<T>, f: T -> K, k: K, y: T)
    requires y in Filter(s, f, k)
    ensures y in s
  {
    if s != [] {
      var s' := s[..|s| - 1];
      if y in Filter(s', f, k) {
        FilterMember(s', f, k, y);
        assert y in s' && s' <= s;
      }
    }
  }

  /** Insertion of `x` behind every element whose key is not greater than its own. */
  function Insert<T>(s: seq<T>, x: T, key: T -> int): (r: seq<T>)
    ensures multiset(r) == multiset(s) + multiset{x}
    ensures |r| == |s| + 1
  {
    if s == [] || key(s[|s| - 1]) <= key(x) then s + [x]
    else
      assert s == s[..|s| - 1] + [s[|s| - 1]];
      Insert(s[..|s| - 1], x, key) + [s[|s| - 1]]
  }

  /** The stable sort List.sort performs, by ascending `key`. */
  function Sort<T>(s: seq<T>, key: T -> int): (r: seq<T>)
    ensures multiset(r) == multiset(s)
  {
    if s == [] then []
    else
      assert s == s[..|s| - 1] + [s[|s| - 1]];
      Insert(Sort(s[..|s| - 1], key), s[|s| - 1], key)
  }

  lemma {:induction false} InsertSorted<T>(s: seq<T>, x: T, key: T -> int)
    requires SortedBy(s, key)
    ensures SortedBy(Insert(s, x, key), key)
    ensures Insert(s, x, key) != [] && key(x) <= key(Insert(s, x, key)[|s|])
  {
    if s != [] && key(s[|s| - 1]) > key(x) {
      var s' := s[..|s| - 1];
      InsertSorted(s', x, key);
      var r' := Insert(s', x, key);
      var last := s[|s| - 1];
      forall i | 0 <= i < |r'|
        ensures key(r'[i]) <= key(last)
      {
        assert r'[i] in multiset(s') + multiset{x};
        if r'[i] in s' {
          var p :| 0 <= p < |s'| && s'[p] == r'[i];
          assert s[p] == r'[i];
        }
      }
    }
  }

  /** The elements with any one key keep their relative order through an insertion. */
  lemma {:induction false} InsertFilter<T>(s: seq<T>, x: T, key: T -> int, k: int)
    ensures Filter(Insert(s, x, key), key, k) == Filter(s, key, k) + (if key(x) == k then [x] else [])
  {
    if s == [] || key(s[|s| - 1]) <= key(x) {
      FilterSnoc(s, x, key, k);
    } else {
      var s' := s[..|s| - 1];
      var last := s[|s| - 1];
      assert s == s' + [last];
      InsertFilter(s', x, key, k);
      FilterSnoc(Insert(s', x, key), last, key, k);
      FilterSnoc(s', last, key, k);
    }
  }

  lemma {:induction false} SortSorted<T>(s: seq<T>, key: T -> int)
    ensures SortedBy(Sort(s, key), key)
  {
    if s != [] {
      SortSorted(s[..|s| - 1], key);
      InsertSorted(Sort(s[..|s| - 1], key), s[|s| - 1], key);
    }
  }

  /** Stability: the elements with any one key come out in their input order. */
  lemma {:induction false} SortStable<T>(s: seq<T>, key: T -> int, k: int)
    ensures Filter(Sort(s, key), key, k) == Filter(s, key, k)
  {
    if s != [] {
      var s' := s[..|s| - 1];
      SortStable(s', key, k);
      InsertFilter(Sort(s', key), s[|s| - 1], key, k);
    }
  }

  /** When every key is the same, sorting keeps the input order. */
  lemma SortEqualKeys<T>(s: seq<T>, key: T -> int, k: int)
    requires forall i :: 0 <= i < |s| ==> key(s[i]) == k
    ensures Sort(s, key) == s
  {
    SortStable(s, key, k);
    FilterAll(s, key, k);
    var r := Sort(s, key);
    assert forall i :: 0 <= i < |r| ==> key(r[i]) == k by {
      forall i | 0 <= i < |r|
        ensures key(r[i]) == k
      {
        assert r[i] in multiset(s);
      }
    }
    FilterAll(r, key, k);
  }

  /** Where an object's callback runs: in place on the calling thread, or on the background executor. */
  datatype Dispatcher = MAIN | BACKGROUND

  /**
   * The loop of prepareAll, reloadAll and disposeAll: an object whose dispatcher is MAIN is run
   * in place, one after the other; any other is submitted to the background executor, in order.
   */
  method Dispatch<T>(objects: seq<T>, dispatcher: T -> Dispatcher) returns (inline: seq<T>, submitted: seq<T>)
    ensures inline == Filter(objects, dispatcher, MAIN)
    ensures submitted == Filter(objects, dispatcher, BACKGROUND)
    ensures multiset(inline) + multiset(submitted) == multiset(objects)
  {
    inline, submitted := [], [];
    for i := 0 to |objects|
      invariant inline == Filter(objects[..i], dispatcher, MAIN)
      invariant submitted == Filter(objects[..i], dispatcher, BACKGROUND)
    {
      var o := objects[i];
      assert objects[..i + 1] == objects[..i] + [o];
      FilterSnoc(objects[..i], o, dispatcher, MAIN);
      FilterSnoc(objects[..i], o, dispatcher, BACKGROUND);
      if dispatcher(o) == BACKGROUND {
        submitted := submitted + [o];
        continue;
      }
      inline := inline + [o];
    }
    assert objects[..|objects|] == objects;
    forall x
      ensures dispatcher(x) == MAIN || dispatcher(x) == BACKGROUND
    {
      if dispatcher(x).MAIN? {}
    }
    FilterSplits(objects, dispatcher, MAIN, BACKGROUND);
  }
}
