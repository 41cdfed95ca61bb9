/** The list reducers the data stores apply to their arrays: `filter`,
    `map` that rewrites the matching elements, `findIndex` and the
    replace-or-append upsert. */
module ListOps {

  /** `xs.filter(keep)`. */
  function Filter<T(!new)>(xs: seq<T>, keep: T -> bool): (r: seq<T>)
    ensures |r| <= |xs|
    ensures forall x :: x in r <==> x in xs && keep(x)
  {
    if xs == [] then []
    else (if keep(xs[0]) then [xs[0]] else []) + Filter(xs[1..], keep)
  }

  /** Filtering a concatenation filters each part: the kept elements stay
      in their order. */
  lemma {:induction false} FilterAppend<T(!new)>(xs: seq<T>, ys: seq<T>, keep: T -> bool)
    ensures Filter(xs + ys, keep) == Filter(xs, keep) + Filter(ys, keep)
  {
    if xs == [] {
      assert xs + ys == ys;
    } else {
      var head := if keep(xs[0]) then [xs[0]] else [];
      assert (xs + ys)[0] == xs[0];
      assert (xs + ys)[1..] == xs[1..] + ys;
      FilterAppend(xs[1..], ys, keep);
      calc {
        Filter(xs + ys, keep);
        head + Filter(xs[1..] + ys, keep);
        head + (Filter(xs[1..], keep) + Filter(ys, keep));
        (head + Filter(xs[1..], keep)) + Filter(ys, keep);
        Filter(xs, keep) + Filter(ys, keep);
      }
    }
  }

  /** A filter that keeps nothing gives the empty list. */
  lemma {:induction false} FilterKeepsNone<T(!new)>(xs: seq<T>, keep: T -> bool)
    requires forall i :: 0 <= i < |xs| ==> !keep(xs[i])
    ensures Filter(xs, keep) == []
  {
    if xs != [] {
      FilterKeepsNone(xs[1..], keep);
    }
  }

  /** A filter that keeps everything is the identity. */
  lemma {:induction false} FilterKeepsAll<T(!new)>(xs: seq<T>, keep: T -> bool)
    requires forall i :: 0 <= i < |xs| ==> keep(xs[i])
    ensures Filter(xs, keep) == xs
  {
    if xs != [] {
      FilterKeepsAll(xs[1..], keep);
    }
  }

  /** An element is kept or dropped, never both: the two halves add up. */
  lemma {:induction false} FilterSplit<T(!new)>(xs: seq<T>, keep: T -> bool)
    ensures |Filter(xs, keep)| + |Filter(xs, x => !keep(x))| == |xs|
  {
    if xs != [] {
      FilterSplit(xs[1..], keep);
    }
  }

  /** Filtering twice by the same test is filtering once. */
  lemma {:induction false} FilterIdempotent<T(!new)>(xs: seq<T>, keep: T -> bool)
    ensures Filter(Filter(xs, keep), keep) == Filter(xs, keep)
  {
    var r := Filter(xs, keep);
    forall i | 0 <= i < |r| ensures keep(r[i]) {
      assert r[i] in r;
    }
    FilterKeepsAll(r, keep);
  }

  /** The filter keeps every copy of a kept element and no copy of a
      dropped one. */
  lemma {:induction false} FilterCount<T(!new)>(xs: seq<T>, keep: T -> bool, x: T)
    ensures multiset(Filter(xs, keep))[x] == if keep(x) then multiset(xs)[x] else 0
  {
    if xs != [] {
      FilterCount(xs[1..], keep, x);
      assert xs == [xs[0]] + xs[1..];
    }
  }

  /** Filtering two permutations of one list gives permutations of one
      another. */
  lemma FilterPermutation<T(!new)>(xs: seq<T>, ys: seq<T>, keep: T -> bool)
    requires multiset(xs) == multiset(ys)
    ensures multiset(Filter(xs, keep)) == multiset(Filter(ys, keep))
  {
    forall x ensures multiset(Filter(xs, keep))[x] == multiset(Filter(ys, keep))[x] {
      FilterCount(xs, keep, x);
      FilterCount(ys, keep, x);
    }
  }

  /** The filter keeps the order: a relation that holds between every
      element and each one after it in the input holds the same way in
      the output. */
  lemma {:induction false} FilterPairwise<T(!new)>(xs: seq<T>, keep: T -> bool, before: (T, T) -> bool)
    requires forall a, b :: 0 <= a < b < |xs| ==> before(xs[a], xs[b])
    ensures forall i, j :: 0 <= i < j < |Filter(xs, keep)| ==>
              before(Filter(xs, keep)[i], Filter(xs, keep)[j])
  {
    if xs != [] {
      var tail := xs[1..];
      var rest := Filter(tail, keep);
      forall a, b | 0 <= a < b < |tail| ensures before(tail[a], tail[b]) {
        assert tail[a] == xs[a + 1] && tail[b] == xs[b + 1];
      }
      FilterPairwise(tail, keep, before);
      if keep(xs[0]) {
        FilterHeadFirst(xs, keep, before);
      } else {
        assert Filter(xs, keep) == rest;
      }
    }
  }

  /** A kept head, related to everything after it, is related to every
      later kept element. */
  lemma FilterHeadFirst<T(!new)>(xs: seq<T>, keep: T -> bool, before: (T, T) -> bool)
    requires xs != [] && keep(xs[0])
    requires forall a, b :: 0 <= a < b < |xs| ==> before(xs[a], xs[b])
    requires forall i, j :: 0 <= i < j < |Filter(xs[1..], keep)| ==>
               before(Filter(xs[1..], keep)[i], Filter(xs[1..], keep)[j])
    ensures forall i, j :: 0 <= i < j < |Filter(xs, keep)| ==>
              before(Filter(xs, keep)[i], Filter(xs, keep)[j])
  {
    var r := Filter(xs, keep);
    var rest := Filter(xs[1..], keep);
    assert r == [xs[0]] + rest;
    forall i, j | 0 <= i < j < |r| ensures before(r[i], r[j]) {
      if i == 0 {
        assert r[j] == rest[j - 1] && r[j] in rest;
        var b :| 0 <= b < |xs[1..]| && xs[1..][b] == r[j];
        assert r[i] == xs[0] && r[j] == xs[b + 1];
        assert before(xs[0], xs[b + 1]);
      } else {
        var i', j' := i - 1, j - 1;
        assert 0 <= i' < j' < |rest|;
        assert before(rest[i'], rest[j']);
        assert r[i] == rest[i'] && r[j] == rest[j'];
      }
    }
  }

  /** `xs.map(f)`. */
  function Map<A, B>(xs: seq<A>, f: A -> B): (r: seq<B>)
    ensures |r| == |xs|
    ensures forall i :: 0 <= i < |xs| ==> r[i] == f(xs[i])
  {
    if xs == [] then [] else [f(xs[0])] + Map(xs[1..], f)
  }

  /** Mapping a concatenation maps each part. */
  lemma {:induction false} MapAppend<A, B>(xs: seq<A>, ys: seq<A>, f: A -> B)
    ensures Map(xs + ys, f) == Map(xs, f) + Map(ys, f)
    decreases |xs|
  {
    if xs == [] {
      assert xs + ys == ys;
    } else {
      assert (xs + ys)[1..] == xs[1..] + ys;
      MapAppend(xs[1..], ys, f);
    }
  }

  /** `xs.forEach(x => { if (keep(x)) out.push(f(x)) })`: the images of
      the kept elements, in order. */
  method PushKept<A(!new), B>(xs: seq<A>, keep: A -> bool, f: A -> B) returns (out: seq<B>)
    ensures out == Map(Filter(xs, keep), f)
  {
    out := [];
    var i := 0;
    while i < |xs|
      invariant 0 <= i <= |xs|
      invariant out == Map(Filter(xs[..i], keep), f)
    {
      assert xs[..i + 1] == xs[..i] + [xs[i]];
      MapFilterSnoc(xs[..i], xs[i], keep, f);
      if keep(xs[i]) {
        out := out + [f(xs[i])];
      }
      i := i + 1;
    }
    assert xs[..|xs|] == xs;
  }

  /** One more element adds its image when it is kept and nothing otherwise. */
  lemma MapFilterSnoc<A(!new), B>(xs: seq<A>, x: A, keep: A -> bool, f: A -> B)
    ensures Map(Filter(xs + [x], keep), f) == Map(Filter(xs, keep), f) + (if keep(x) then [f(x)] else [])
  {
    FilterAppend(xs, [x], keep);
    assert Filter([x], keep) == (if keep(x) then [x] else []);
    MapAppend(Filter(xs, keep), Filter([x], keep), f);
  }

  /** `xs.map(x => hit(x) ? f(x) : x)`. */
  function MapWhere<T>(xs: seq<T>, hit: T -> bool, f: T -> T): (r: seq<T>)
    ensures |r| == |xs|
    ensures forall i :: 0 <= i < |xs| && !hit(xs[i]) ==> r[i] == xs[i]
    ensures forall i :: 0 <= i < |xs| && hit(xs[i]) ==> r[i] == f(xs[i])
  {
    if xs == [] then []
    else [if hit(xs[0]) then f(xs[0]) else xs[0]] + MapWhere(xs[1..], hit, f)
  }

  /** When the rewrite keeps an element matching (it keeps its id), the
      elements that did not match come out exactly as they were, in order. */
  lemma {:induction false} MapWhereOthers<T(!new)>(xs: seq<T>, hit: T -> bool, f: T -> T)
    requires forall i :: 0 <= i < |xs| && hit(xs[i]) ==> hit(f(xs[i]))
    ensures Filter(MapWhere(xs, hit, f), x => !hit(x)) == Filter(xs, x => !hit(x))
  {
    if xs != [] {
      MapWhereOthers(xs[1..], hit, f);
      assert MapWhere(xs, hit, f) == [MapWhere(xs, hit, f)[0]] + MapWhere(xs[1..], hit, f);
    }
  }

  /** With no match the map changes nothing. */
  lemma MapWhereNoMatch<T>(xs: seq<T>, hit: T -> bool, f: T -> T)
    requires forall i :: 0 <= i < |xs| ==> !hit(xs[i])
    ensures MapWhere(xs, hit, f) == xs
  {
  }

  /** `xs.findIndex(p)`: the first index satisfying `p`, or -1. */
  function FindIndex<T>(xs: seq<T>, p: T -> bool): (r: int)
    ensures -1 <= r < |xs|
    ensures r == -1 <==> forall i :: 0 <= i < |xs| ==> !p(xs[i])
    ensures r >= 0 ==> p(xs[r]) && forall j :: 0 <= j < r ==> !p(xs[j])
  {
    if xs == [] then -1
    else if p(xs[0]) then 0
    else
      var r := FindIndex(xs[1..], p);
      if r == -1 then -1 else r + 1
  }

  /** `index >= 0 ? (copy[index] = v) : [...xs, v]`: replace the first
      element satisfying `p`, or append. */
  function Upsert<T>(xs: seq<T>, p: T -> bool, v: T): (r: seq<T>)
    ensures FindIndex(xs, p) >= 0 ==>
              |r| == |xs| && r[FindIndex(xs, p)] == v
              && forall j :: 0 <= j < |xs| && j != FindIndex(xs, p) ==> r[j] == xs[j]
    ensures FindIndex(xs, p) == -1 ==> r == xs + [v]
  {
    var i := FindIndex(xs, p);
    if i >= 0 then xs[i := v] else xs + [v]
  }
}
