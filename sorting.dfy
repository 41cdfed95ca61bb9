/** The one sort every page and view of the platform uses, in one place.

    JavaScript's `Array.prototype.sort` (stable since ES2019) and Python's
    `list.sort` are both stable comparison sorts. Every comparator in the
    system compares a short list of numbers one after the other (total score,
    then criterion scores, then ...), so each sort is modelled as a stable
    insertion sort on a key `seq<real>` under the lexicographic order; a
    descending criterion is an ascending one on the negated number. */
module Sorting {

  /** Strict lexicographic order; a proper prefix is smaller. */
  predicate LexLt(a: seq<real>, b: seq<real>)
    decreases |a|
  {
    b != [] && (a == [] || a[0] < b[0] || (a[0] == b[0] && LexLt(a[1..], b[1..])))
  }

  /** Lexicographic order compares the first elements, then the rest. */
  lemma LexLtCons(x: real, s: seq<real>, y: real, t: seq<real>)
    ensures LexLt([x] + s, [y] + t) <==> x < y || (x == y && LexLt(s, t))
  {
    assert ([x] + s)[1..] == s;
    assert ([y] + t)[1..] == t;
  }

  lemma {:induction false} LexLtIrreflexive(a: seq<real>)
    ensures !LexLt(a, a)
    decreases |a|
  {
    if a != [] {
      LexLtIrreflexive(a[1..]);
    }
  }

  lemma {:induction false} LexLtTransitive(a: seq<real>, b: seq<real>, c: seq<real>)
    requires LexLt(a, b) && LexLt(b, c)
    ensures LexLt(a, c)
    decreases |a|
  {
    if a != [] && a[0] == b[0] && b[0] == c[0] {
      LexLtTransitive(a[1..], b[1..], c[1..]);
    }
  }

  /** Any two keys are equal or ordered one way: the comparators never say "incomparable". */
  lemma {:induction false} LexLtTotal(a: seq<real>, b: seq<real>)
    ensures a == b || LexLt(a, b) || LexLt(b, a)
    decreases |a|
  {
    if a != [] && b != [] && a[0] == b[0] {
      LexLtTotal(a[1..], b[1..]);
      if a[1..] == b[1..] {
        assert a == [a[0]] + a[1..] && b == [b[0]] + b[1..];
      }
    }
  }

  /** Each element's key is no greater than the next one's. */
  ghost predicate Sorted<T>(s: seq<T>, key: T -> seq<real>) {
    forall i, j :: 0 <= i < j < |s| ==> !LexLt(key(s[j]), key(s[i]))
  }

  /** The elements of `s` whose key is `k`, in the order they appear. */
  function WithKey<T>(s: seq<T>, key: T -> seq<real>, k: seq<real>): (r: seq<T>)
    ensures |r| <= |s|
    ensures forall i :: 0 <= i < |r| ==> key(r[i]) == k
  {
    if s == [] then []
    else (if key(s[0]) == k then [s[0]] else []) + WithKey(s[1..], key, k)
  }

  /** Puts `x` after every element whose key is not greater than its own. */
  function Insert<T>(x: T, s: seq<T>, key: T -> seq<real>): (r: seq<T>)
    ensures |r| == |s| + 1
  {
    if s == [] then [x]
    else if LexLt(key(x), key(s[0])) then [x] + s
    else [s[0]] + Insert(x, s[1..], key)
  }

  /** The stable sort: each element, first to last, goes after its equals. */
  function SortByKey<T>(s: seq<T>, key: T -> seq<real>): (r: seq<T>)
    ensures |r| == |s|
    decreases |s|
  {
    if s == [] then [] else Insert(s[|s| - 1], SortByKey(s[..|s| - 1], key), key)
  }

  lemma {:induction false} InsertPermutes<T>(x: T, s: seq<T>, key: T -> seq<real>)
    ensures multiset(Insert(x, s, key)) == multiset(s) + multiset{x}
  {
    if s != [] && !LexLt(key(x), key(s[0])) {
      InsertPermutes(x, s[1..], key);
      assert s == [s[0]] + s[1..];
    }
  }

  lemma {:induction false} InsertSorted<T>(x: T, s: seq<T>, key: T -> seq<real>)
    requires Sorted(s, key)
    ensures Sorted(Insert(x, s, key), key)
  {
    if s != [] && !LexLt(key(x), key(s[0])) {
      InsertSorted(x, s[1..], key);
      var r := Insert(x, s[1..], key);
      InsertPermutes(x, s[1..], key);
      forall j | 0 <= j < |r|
        ensures !LexLt(key(r[j]), key(s[0]))
      {
        assert r[j] in multiset(s[1..]) + multiset{x};
        if r[j] in multiset(s[1..]) {
          var m :| 0 <= m < |s[1..]| && s[1..][m] == r[j];
          assert s[m + 1] == r[j];
        } else {
          assert r[j] == x;
          LexLtTotal(key(x), key(s[0]));
        }
      }
      assert Insert(x, s, key) == [s[0]] + r;
    } else if s != [] {
      forall j | 0 <= j < |s|
        ensures !LexLt(key(s[j]), key(x))
      {
        if j > 0 {
          LexLtTotal(key(s[0]), key(s[j]));
          if LexLt(key(s[j]), key(x)) {
            LexLtTotal(key(s[j]), key(s[0]));
            if key(s[j]) == key(s[0]) {
              LexLtTransitive(key(x), key(s[0]), key(x));
              LexLtIrreflexive(key(x));
            } else {
              LexLtTransitive(key(s[j]), key(x), key(s[0]));
            }
          }
        } else {
          LexLtTotal(key(x), key(s[0]));
          if LexLt(key(s[0]), key(x)) {
            LexLtTransitive(key(x), key(s[0]), key(x));
            LexLtIrreflexive(key(x));
          }
        }
      }
    }
  }

  /** The sorted result is ordered and holds exactly the input's elements. */
  lemma {:induction false} SortByKeySortedPermutation<T>(s: seq<T>, key: T -> seq<real>)
    ensures Sorted(SortByKey(s, key), key)
    ensures multiset(SortByKey(s, key)) == multiset(s)
    decreases |s|
  {
    if s != [] {
      var init := s[..|s| - 1];
      SortByKeySortedPermutation(init, key);
      InsertSorted(s[|s| - 1], SortByKey(init, key), key);
      InsertPermutes(s[|s| - 1], SortByKey(init, key), key);
      assert s == init + [s[|s| - 1]];
    }
  }

  lemma {:induction false} WithKeyAppend<T>(a: seq<T>, b: seq<T>, key: T -> seq<real>, k: seq<real>)
    ensures WithKey(a + b, key, k) == WithKey(a, key, k) + WithKey(b, key, k)
  {
    if a == [] {
      assert a + b == b;
    } else {
      var h := if key(a[0]) == k then [a[0]] else [];
      assert (a + b)[0] == a[0];
      assert (a + b)[1..] == a[1..] + b;
      assert WithKey(a + b, key, k) == h + WithKey(a[1..] + b, key, k);
      WithKeyAppend(a[1..], b, key, k);
      assert WithKey(a, key, k) == h + WithKey(a[1..], key, k);
    }
  }

  /** In a sorted list nothing with key `k` follows an element with a greater key. */
  lemma {:induction false} WithKeyAboveEmpty<T>(s: seq<T>, key: T -> seq<real>, k: seq<real>)
    requires Sorted(s, key)
    requires s != [] && LexLt(k, key(s[0]))
    ensures WithKey(s, key, k) == []
  {
    if |s| > 1 {
      assert !LexLt(key(s[1]), key(s[0]));
      LexLtTotal(key(s[0]), key(s[1]));
      if key(s[0]) != key(s[1]) {
        LexLtTransitive(k, key(s[0]), key(s[1]));
      }
      WithKeyAboveEmpty(s[1..], key, k);
    }
    if key(s[0]) == k {
      LexLtIrreflexive(k);
    }
  }

  /** The tail of a sorted list is sorted. */
  lemma SortedTail<T>(s: seq<T>, key: T -> seq<real>)
    requires Sorted(s, key) && s != []
    ensures Sorted(s[1..], key)
  {
    forall i, j | 0 <= i < j < |s[1..]| ensures !LexLt(key(s[1..][j]), key(s[1..][i])) {
      assert s[1..][j] == s[j + 1] && s[1..][i] == s[i + 1];
    }
  }

  /** An element placed before a sorted list with greater keys. */
  lemma InsertFrontStable<T>(x: T, s: seq<T>, key: T -> seq<real>, k: seq<real>)
    requires Sorted(s, key)
    requires s != [] && LexLt(key(x), key(s[0]))
    ensures WithKey([x] + s, key, k) == WithKey(s, key, k) + (if key(x) == k then [x] else [])
  {
    if key(x) == k {
      WithKeyAboveEmpty(s, key, k);
    }
    WithKeyAppend([x], s, key, k);
    assert [x][1..] == [];
    assert WithKey([x], key, k) == (if key(x) == k then [x] else []);
  }

  lemma {:induction false} InsertStable<T>(x: T, s: seq<T>, key: T -> seq<real>, k: seq<real>)
    requires Sorted(s, key)
    ensures WithKey(Insert(x, s, key), key, k)
         == WithKey(s, key, k) + (if key(x) == k then [x] else [])
  {
    if s == [] {
    } else if LexLt(key(x), key(s[0])) {
      InsertFrontStable(x, s, key, k);
    } else {
      SortedTail(s, key);
      InsertStable(x, s[1..], key, k);
      InsertAfterStable(x, s, key, k);
    }
  }

  /** An element that goes after the head keeps the head in front. */
  lemma InsertAfterStable<T>(x: T, s: seq<T>, key: T -> seq<real>, k: seq<real>)
    requires s != [] && !LexLt(key(x), key(s[0]))
    requires WithKey(Insert(x, s[1..], key), key, k)
          == WithKey(s[1..], key, k) + (if key(x) == k then [x] else [])
    ensures WithKey(Insert(x, s, key), key, k)
         == WithKey(s, key, k) + (if key(x) == k then [x] else [])
  {
    var r := Insert(x, s[1..], key);
    var h := if key(s[0]) == k then [s[0]] else [];
    var tail := if key(x) == k then [x] else [];
    assert Insert(x, s, key) == [s[0]] + r;
    assert ([s[0]] + r)[1..] == r;
    calc {
      WithKey(Insert(x, s, key), key, k);
      h + WithKey(r, key, k);
      h + (WithKey(s[1..], key, k) + tail);
      (h + WithKey(s[1..], key, k)) + tail;
      WithKey(s, key, k) + tail;
    }
  }

  /** Stability: elements with equal keys come out in the order they went in. */
  lemma {:induction false} SortByKeyStable<T>(s: seq<T>, key: T -> seq<real>, k: seq<real>)
    ensures WithKey(SortByKey(s, key), key, k) == WithKey(s, key, k)
    decreases |s|
  {
    if s != [] {
      var init, x := s[..|s| - 1], s[|s| - 1];
      SortByKeyStable(init, key, k);
      SortByKeySortedPermutation(init, key);
      InsertStable(x, SortByKey(init, key), key, k);
      WithKeyAppend(init, [x], key, k);
      assert s == init + [x];
    }
  }

  /** A list that is already ordered is returned as it is. */
  lemma {:induction false} SortByKeyOfSorted<T>(s: seq<T>, key: T -> seq<real>)
    requires Sorted(s, key)
    ensures SortByKey(s, key) == s
    decreases |s|
  {
    if s != [] {
      var init, x := s[..|s| - 1], s[|s| - 1];
      SortByKeyOfSorted(init, key);
      InsertAtEnd(x, init, key);
      assert s == init + [x];
    }
  }

  lemma {:induction false} InsertAtEnd<T>(x: T, s: seq<T>, key: T -> seq<real>)
    requires forall i :: 0 <= i < |s| ==> !LexLt(key(x), key(s[i]))
    ensures Insert(x, s, key) == s + [x]
  {
    if s != [] {
      InsertAtEnd(x, s[1..], key);
      assert s == [s[0]] + s[1..];
    }
  }
}
