/**
 * A stable sort by a two-part key, standing for `Array.prototype.sort` with a
 * consistent comparator. ECMAScript requires that sort to be stable, and a
 * stable sort by a key has exactly one possible result, so an insertion sort
 * gives the same order as the engine's built-in sort.
 */
module StableSort {

  /** Lexicographic order on (primary, secondary). */
  predicate KeyLess(a: (int, int), b: (int, int)) {
    a.0 < b.0 || (a.0 == b.0 && a.1 < b.1)
  }

  predicate KeyAtMost(a: (int, int), b: (int, int)) {
    !KeyLess(b, a)
  }

  predicate Sorted<T>(s: seq<T>, key: T -> (int, int)) {
    forall i, j :: 0 <= i < j < |s| ==> KeyAtMost(key(s[i]), key(s[j]))
  }

  /** Insert `x` in front of the first element whose key is larger. */
  function Insert<T>(x: T, s: seq<T>, key: T -> (int, int)): (r: seq<T>)
    ensures |r| == |s| + 1
  {
    if s == [] then [x]
    else if KeyLess(key(x), key(s[0])) then [x] + s
    else [s[0]] + Insert(x, s[1..], key)
  }

  lemma {:induction false} InsertPermutes<T>(x: T, s: seq<T>, key: T -> (int, int))
    ensures multiset(Insert(x, s, key)) == multiset(s) + multiset{x}
  {
    if s != [] && !KeyLess(key(x), key(s[0])) {
      InsertPermutes(x, s[1..], key);
      assert s == [s[0]] + s[1..];
    }
  }

  /** Insertion sort, taking the elements from first to last. */
  function Sort<T>(s: seq<T>, key: T -> (int, int)): (r: seq<T>)
    ensures |r| == |s|
  {
    if s == [] then []
    else
      Insert(s[|s| - 1], Sort(s[..|s| - 1], key), key)
  }

  lemma {:induction false} InsertSorted<T>(x: T, s: seq<T>, key: T -> (int, int))
    requires Sorted(s, key)
    ensures Sorted(Insert(x, s, key), key)
  {
    if s != [] && !KeyLess(key(x), key(s[0])) {
      InsertSorted(x, s[1..], key);
      InsertPermutes(x, s[1..], key);
      var r := Insert(x, s, key);
      forall j | 0 < j < |r| ensures KeyAtMost(key(r[0]), key(r[j])) {
        assert r[j] in multiset(s[1..]) + multiset{x} by {
          assert r[j] in r[1..];
        }
        if r[j] in multiset(s[1..]) {
          var k :| 0 <= k < |s[1..]| && s[1..][k] == r[j];
          assert s[1 + k] == r[j];
        }
      }
    }
  }

  /** The result is ordered by key. */
  lemma {:induction false} SortSorted<T>(s: seq<T>, key: T -> (int, int))
    ensures Sorted(Sort(s, key), key)
  {
    if s != [] {
      SortSorted(s[..|s| - 1], key);
      InsertSorted(s[|s| - 1], Sort(s[..|s| - 1], key), key);
    }
  }

  /** The result is a permutation of the input. */
  lemma {:induction false} SortPermutes<T>(s: seq<T>, key: T -> (int, int))
    ensures multiset(Sort(s, key)) == multiset(s)
  {
    if s != [] {
      SortPermutes(s[..|s| - 1], key);
      InsertPermutes(s[|s| - 1], Sort(s[..|s| - 1], key), key);
      assert s == s[..|s| - 1] + [s[|s| - 1]];
    }
  }

  /** `s.filter(x => key(x) == k)`: the elements sharing one key, in their order. */
  function WithKey<T>(s: seq<T>, key: T -> (int, int), k: (int, int)): (r: seq<T>)
    ensures |r| <= |s|
  {
    if s == [] then [] else (if key(s[0]) == k then [s[0]] else []) + WithKey(s[1..], key, k)
  }

  lemma {:induction false} WithKeyConcat<T>(a: seq<T>, b: seq<T>, key: T -> (int, int), k: (int, int))
    ensures WithKey(a + b, key, k) == WithKey(a, key, k) + WithKey(b, key, k)
  {
    if a == [] {
      assert a + b == b;
    } else {
      assert (a + b)[1..] == a[1..] + b;
      WithKeyConcat(a[1..], b, key, k);
    }
  }

  lemma {:induction false} WithKeyNone<T>(s: seq<T>, key: T -> (int, int), k: (int, int))
    requires forall i :: 0 <= i < |s| ==> key(s[i]) != k
    ensures WithKey(s, key, k) == []
  {
    if s != [] {
      WithKeyNone(s[1..], key, k);
    }
  }

  /** Inserting into a sorted list puts `x` after every element with the same key. */
  lemma {:induction false} InsertWithKey<T>(x: T, s: seq<T>, key: T -> (int, int), k: (int, int))
    requires Sorted(s, key)
    ensures WithKey(Insert(x, s, key), key, k) == WithKey(s, key, k) + WithKey([x], key, k)
  {
    if s == [] {
      assert Insert(x, s, key) == [x];
    } else if KeyLess(key(x), key(s[0])) {
      if key(x) == k {
        forall i | 0 <= i < |s| ensures key(s[i]) != k {
          assert i == 0 || KeyAtMost(key(s[0]), key(s[i]));
        }
        WithKeyNone(s, key, k);
      }
      assert Insert(x, s, key) == [x] + s;
      WithKeyConcat([x], s, key, k);
    } else {
      var head, tail := s[0], s[1..];
      assert Sorted(tail, key) by {
        forall i, j | 0 <= i < j < |tail| ensures KeyAtMost(key(tail[i]), key(tail[j])) {
          assert tail[i] == s[i + 1] && tail[j] == s[j + 1];
        }
      }
      InsertWithKey(x, tail, key, k);
      var r := Insert(x, s, key);
      assert r == [head] + Insert(x, tail, key);
      WithKeyConcat([head], Insert(x, tail, key), key, k);
      assert s == [head] + tail;
      WithKeyConcat([head], tail, key, k);
    }
  }

  /** Stability: for every key, the elements with that key keep their relative order. */
  lemma {:induction false} SortStable<T>(s: seq<T>, key: T -> (int, int), k: (int, int))
    ensures WithKey(Sort(s, key), key, k) == WithKey(s, key, k)
  {
    if s != [] {
      var init, x := s[..|s| - 1], s[|s| - 1];
      var sorted := Sort(init, key);
      SortStable(init, key, k);
      SortSorted(init, key);
      InsertWithKey(x, sorted, key, k);
      assert Sort(s, key) == Insert(x, sorted, key);
      assert s == init + [x];
      WithKeyConcat(init, [x], key, k);
    }
  }

  /**
   * Two orderings of the same elements that are both sorted and both stable are
   * equal: a stable sort by key has only one result.
   */
  lemma {:induction false} StableSortUnique<T>(t1: seq<T>, t2: seq<T>, key: T -> (int, int))
    requires Sorted(t1, key) && Sorted(t2, key)
    requires forall k :: WithKey(t1, key, k) == WithKey(t2, key, k)
    ensures t1 == t2
  {
    if t1 == [] && t2 == [] {
    } else if t1 == [] || t2 == [] {
      // one list is empty and the other is not: its first key has no partner
      var t := if t1 == [] then t2 else t1;
      WithKeyHead(t, key);
      assert false;
    } else {
      var k1, k2 := key(t1[0]), key(t2[0]);
      HeadKeyIsLeast(t1, t2, key);
      HeadKeyIsLeast(t2, t1, key);
      assert k1 == k2;
      assert WithKey(t1, key, k1)[0] == t1[0];
      assert WithKey(t2, key, k1)[0] == t2[0];
      assert WithKey(t1, key, k1) == WithKey(t2, key, k1);
      assert t1[0] == t2[0];
      forall k ensures WithKey(t1[1..], key, k) == WithKey(t2[1..], key, k) {
        var head := if k == k1 then [t1[0]] else [];
        assert WithKey(t1, key, k) == head + WithKey(t1[1..], key, k);
        assert WithKey(t2, key, k) == head + WithKey(t2[1..], key, k);
        assert WithKey(t1, key, k) == WithKey(t2, key, k);
        assert WithKey(t1[1..], key, k) == WithKey(t1, key, k)[|head|..];
        assert WithKey(t2[1..], key, k) == WithKey(t2, key, k)[|head|..];
      }
      SortedTail(t1, key);
      SortedTail(t2, key);
      StableSortUnique(t1[1..], t2[1..], key);
      assert t1 == [t1[0]] + t1[1..] && t2 == [t2[0]] + t2[1..];
    }
  }

  lemma WithKeyHead<T>(s: seq<T>, key: T -> (int, int))
    requires s != []
    ensures WithKey(s, key, key(s[0])) != []
  {
  }

  lemma SortedTail<T>(s: seq<T>, key: T -> (int, int))
    requires s != [] && Sorted(s, key)
    ensures Sorted(s[1..], key)
  {
    var tail := s[1..];
    forall i, j | 0 <= i < j < |tail| ensures KeyAtMost(key(tail[i]), key(tail[j])) {
      assert tail[i] == s[i + 1] && tail[j] == s[j + 1];
    }
  }

  /** An element of `a`'s key occurs in `b`, so `b`'s first key is no larger. */
  lemma HeadKeyIsLeast<T>(a: seq<T>, b: seq<T>, key: T -> (int, int))
    requires a != [] && b != [] && Sorted(b, key)
    requires WithKey(a, key, key(a[0])) == WithKey(b, key, key(a[0]))
    ensures KeyAtMost(key(b[0]), key(a[0]))
  {
    var k := key(a[0]);
    assert WithKey(a, key, k) != [];
    var j := WithKeyWitness(b, key, k);
    assert j == 0 || KeyAtMost(key(b[0]), key(b[j]));
  }

  /** An index of `s` holding an element with key `k`, when there is one. */
  lemma {:induction false} WithKeyWitness<T>(s: seq<T>, key: T -> (int, int), k: (int, int)) returns (j: nat)
    requires WithKey(s, key, k) != []
    ensures j < |s| && key(s[j]) == k
  {
    if key(s[0]) == k {
      j := 0;
    } else {
      var j' := WithKeyWitness(s[1..], key, k);
      j := j' + 1;
    }
  }
}
