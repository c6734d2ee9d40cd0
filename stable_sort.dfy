/** The stable sort `Array.prototype.sort` performs with a numeric
    comparator `(a, b) => key(a) - key(b)`: elements end up in ascending
    order of their key, and elements with equal keys keep their order. It is
    written as an insertion sort over a sequence. */
module StableSorting {

  /** The elements are in ascending order of their key. */
  predicate SortedBy<T>(s: seq<T>, key: T -> real)
  {
    forall i, j :: 0 <= i < j < |s| ==> key(s[i]) <= key(s[j])
  }

  /** The elements whose key is `k`, in their order. */
  function WithKey<T>(s: seq<T>, key: T -> real, k: real): (r: seq<T>)
    ensures |r| <= |s|
    decreases |s|
  {
    if s == [] then []
    else WithKey(s[..|s| - 1], key, k) + (if key(s[|s| - 1]) == k then [s[|s| - 1]] else [])
  }

  /** `x` placed after every element whose key is at most its own. */
  function Insert<T>(s: seq<T>, x: T, key: T -> real): (r: seq<T>)
    ensures multiset(r) == multiset(s) + multiset{x}
    ensures |r| == |s| + 1
    decreases |s|
  {
    if s == [] || key(s[|s| - 1]) <= key(x) then s + [x]
    else
      var init, last := s[..|s| - 1], s[|s| - 1];
      assert s == init + [last];
      Insert(init, x, key) + [last]
  }

  /** Sorting by `key`, each element inserted in turn. */
  function StableSort<T>(s: seq<T>, key: T -> real): (r: seq<T>)
    ensures multiset(r) == multiset(s) && |r| == |s|
    decreases |s|
  {
    if s == [] then []
    else
      var init := s[..|s| - 1];
      assert s == init + [s[|s| - 1]];
      Insert(StableSort(init, key), s[|s| - 1], key)
  }

  /** Sorting one more element inserts it into the sorted prefix. */
  lemma StableSortStep<T>(s: seq<T>, i: nat, key: T -> real)
    requires i < |s|
    ensures StableSort(s[..i + 1], key) == Insert(StableSort(s[..i], key), s[i], key)
  {
    assert s[..i + 1][..i] == s[..i];
  }

  /** Inserting into a sorted sequence keeps it sorted. */
  lemma {:induction false} InsertSorted<T>(s: seq<T>, x: T, key: T -> real)
    requires SortedBy(s, key)
    ensures SortedBy(Insert(s, x, key), key)
    decreases |s|
  {
    if s != [] && key(s[|s| - 1]) > key(x) {
      var init, last := s[..|s| - 1], s[|s| - 1];
      InsertSorted(init, x, key);
      var r := Insert(init, x, key);
      assert forall i :: 0 <= i < |r| ==> key(r[i]) <= key(last) by {
        forall i | 0 <= i < |r| ensures key(r[i]) <= key(last) {
          assert r[i] in multiset(init) + multiset{x};
          if r[i] in init {
            var j :| 0 <= j < |init| && init[j] == r[i];
            assert s[j] == init[j];
          }
        }
      }
    }
  }

  /** Inserting `x` keeps the order among every key, `x` coming after the
      elements that share its key. */
  lemma {:induction false} InsertStable<T>(s: seq<T>, x: T, key: T -> real, k: real)
    ensures WithKey(Insert(s, x, key), key, k) == WithKey(s, key, k) + (if key(x) == k then [x] else [])
    decreases |s|
  {
    if s == [] || key(s[|s| - 1]) <= key(x) {
      WithKeySnoc(s, x, key, k);
    } else {
      var init, last := s[..|s| - 1], s[|s| - 1];
      assert s == init + [last];
      InsertStable(init, x, key, k);
      WithKeySnoc(Insert(init, x, key), last, key, k);
      WithKeySnoc(init, last, key, k);
      if key(x) == k {
        assert key(last) != k;
      }
    }
  }

  /** One more element joins the elements of its key at the end. */
  lemma WithKeySnoc<T>(s: seq<T>, y: T, key: T -> real, k: real)
    ensures WithKey(s + [y], key, k) == WithKey(s, key, k) + (if key(y) == k then [y] else [])
  {
    assert (s + [y])[..|s|] == s;
  }

  /** The sort is sorted. */
  lemma {:induction false} StableSortSorted<T>(s: seq<T>, key: T -> real)
    ensures SortedBy(StableSort(s, key), key)
    decreases |s|
  {
    if s != [] {
      StableSortSorted(s[..|s| - 1], key);
      InsertSorted(StableSort(s[..|s| - 1], key), s[|s| - 1], key);
    }
  }

  /** The sort is stable: elements with equal keys keep their order. */
  lemma {:induction false} StableSortStable<T>(s: seq<T>, key: T -> real, k: real)
    ensures WithKey(StableSort(s, key), key, k) == WithKey(s, key, k)
    decreases |s|
  {
    if s != [] {
      var init := s[..|s| - 1];
      StableSortStable(init, key, k);
      InsertStable(StableSort(init, key), s[|s| - 1], key, k);
    }
  }

  /** A prefix of a sorted sequence is sorted. */
  lemma SortedInit<T>(s: seq<T>, key: T -> real)
    requires s != [] && SortedBy(s, key)
    ensures SortedBy(s[..|s| - 1], key)
  {
    var init := s[..|s| - 1];
    forall i, j | 0 <= i < j < |init| ensures key(init[i]) <= key(init[j]) {
      assert init[i] == s[i] && init[j] == s[j];
    }
  }

  /** A sorted sequence is its own sort. */
  lemma {:induction false} StableSortOfSorted<T>(s: seq<T>, key: T -> real)
    requires SortedBy(s, key)
    ensures StableSort(s, key) == s
    decreases |s|
  {
    if s != [] {
      var init, last := s[..|s| - 1], s[|s| - 1];
      SortedInit(s, key);
      StableSortOfSorted(init, key);
      InsertAfterAll(s, key);
      assert StableSort(s, key) == Insert(StableSort(init, key), last, key);
    }
  }

  /** The last element of a sorted sequence goes last when inserted into
      the others. */
  lemma InsertAfterAll<T>(s: seq<T>, key: T -> real)
    requires s != [] && SortedBy(s, key)
    ensures Insert(s[..|s| - 1], s[|s| - 1], key) == s
  {
    var init, last := s[..|s| - 1], s[|s| - 1];
    if init != [] {
      assert key(init[|init| - 1]) <= key(last) by {
        assert init[|init| - 1] == s[|s| - 2];
      }
    }
    assert s == init + [last];
  }

  /** Sorting twice is sorting once. */
  lemma StableSortIdempotent<T>(s: seq<T>, key: T -> real)
    ensures StableSort(StableSort(s, key), key) == StableSort(s, key)
  {
    StableSortSorted(s, key);
    StableSortOfSorted(StableSort(s, key), key);
  }
}
