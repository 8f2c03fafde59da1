/** The array operations the pages use, on sequences: `filter` with a
    predicate, `filter((_, i) => i !== index)`, `find`, and a stable
    `sort` with a numeric comparator. */
module Seqs {
  import opened JsValues

  /* ---------- filter ---------- */

  /** `s.filter(p)`: the elements satisfying `p`, in their original order. */
  function Filter<T>(s: seq<T>, p: T -> bool): (r: seq<T>)
    ensures |r| <= |s|
    ensures forall x :: x in r ==> x in s && p(x)
    ensures forall x :: x in s && p(x) ==> x in r
  {
    if |s| == 0 then []
    else if p(s[0]) then [s[0]] + Filter(s[1..], p)
    else Filter(s[1..], p)
  }

  /** `a` is `b` with some elements deleted, the rest kept in order. */
  predicate IsSubsequence<T(==)>(a: seq<T>, b: seq<T>)
    decreases |b|
  {
    if |a| == 0 then true
    else if |b| == 0 then false
    else (a[0] == b[0] && IsSubsequence(a[1..], b[1..])) || IsSubsequence(a, b[1..])
  }

  lemma {:induction false} SubsequenceShorter<T>(a: seq<T>, b: seq<T>)
    requires IsSubsequence(a, b)
    ensures |a| <= |b|
    decreases |b|
  {
    if |a| > 0 {
      if a[0] == b[0] && IsSubsequence(a[1..], b[1..]) {
        SubsequenceShorter(a[1..], b[1..]);
      } else {
        SubsequenceShorter(a, b[1..]);
      }
    }
  }

  /** Filtering keeps the original order: the result is a subsequence. */
  lemma {:induction false} FilterIsSubsequence<T>(s: seq<T>, p: T -> bool)
    ensures IsSubsequence(Filter(s, p), s)
    decreases |s|
  {
    if |s| > 0 {
      FilterIsSubsequence(s[1..], p);
      if p(s[0]) {
        assert Filter(s, p)[1..] == Filter(s[1..], p);
      }
    }
  }

  /** Filtering keeps every occurrence of a matching element and drops every
      occurrence of the others; with `FilterIsSubsequence` this pins the
      result down exactly. */
  lemma {:induction false} FilterMultiplicity<T>(s: seq<T>, p: T -> bool, x: T)
    ensures multiset(Filter(s, p))[x] == if p(x) then multiset(s)[x] else 0
    decreases |s|
  {
    if |s| > 0 {
      FilterMultiplicity(s[1..], p, x);
      assert s == [s[0]] + s[1..];
      assert multiset(s) == multiset{s[0]} + multiset(s[1..]);
      if p(s[0]) {
        assert multiset(Filter(s, p)) == multiset{s[0]} + multiset(Filter(s[1..], p));
      }
    }
  }

  /** A predicate every element satisfies filters nothing out. */
  lemma {:induction false} FilterAll<T>(s: seq<T>, p: T -> bool)
    requires forall i :: 0 <= i < |s| ==> p(s[i])
    ensures Filter(s, p) == s
    decreases |s|
  {
    if |s| > 0 {
      FilterAll(s[1..], p);
    }
  }

  /** The filter is empty exactly when no element satisfies the predicate. */
  lemma FilterEmpty<T>(s: seq<T>, p: T -> bool)
    ensures Filter(s, p) == [] <==> forall x :: x in s ==> !p(x)
  {
    var r := Filter(s, p);
    if r != [] {
      assert r[0] in r;
    }
  }

  /** The filter keeps the whole sequence exactly when every element
      satisfies the predicate. */
  lemma {:induction false} FilterKeepsLength<T>(s: seq<T>, p: T -> bool)
    ensures |Filter(s, p)| == |s| <==> forall i :: 0 <= i < |s| ==> p(s[i])
    decreases |s|
  {
    if |s| > 0 {
      FilterKeepsLength(s[1..], p);
      assert forall i :: 1 <= i < |s| ==> s[i] == s[1..][i - 1];
      if p(s[0]) && forall i :: 0 <= i < |s| - 1 ==> p(s[1..][i]) {
        assert forall i :: 0 <= i < |s| ==> p(s[i]);
      }
    }
  }

  /** Filtering twice is filtering once by the conjunction. */
  lemma {:induction false} FilterFilter<T>(s: seq<T>, p: T -> bool, q: T -> bool)
    ensures Filter(Filter(s, p), q) == Filter(s, x => p(x) && q(x))
    decreases |s|
  {
    if |s| > 0 {
      FilterFilter(s[1..], p, q);
      if p(s[0]) {
        assert Filter(s, p)[1..] == Filter(s[1..], p);
      }
    }
  }

  /* ---------- find ---------- */

  /** `s.find(p)`: the first element satisfying `p`, or undefined. */
  function Find<T(==)>(s: seq<T>, p: T -> bool): (r: Option<T>)
    ensures r.None? <==> forall i :: 0 <= i < |s| ==> !p(s[i])
    ensures r.Some? ==> exists k :: 0 <= k < |s| && s[k] == r.value && p(s[k])
                          && forall i :: 0 <= i < k ==> !p(s[i])
  {
    if |s| == 0 then None
    else if p(s[0]) then Some(s[0])
    else
      var r := Find(s[1..], p);
      if r.Some? then
        var k :| 0 <= k < |s| - 1 && s[1..][k] == r.value && p(s[1..][k])
                 && forall i :: 0 <= i < k ==> !p(s[1..][i]);
        assert s[k + 1] == r.value && forall i :: 0 <= i < k + 1 ==> !p(s[i]);
        r
      else r
  }

  /* ---------- removal by index ---------- */

  /** `s.filter((_, i) => i !== index)`, walking the indices from `from` on. */
  function WithoutIndexFrom<T>(s: seq<T>, index: int, from: int): seq<T>
    decreases |s|
  {
    if |s| == 0 then []
    else if from == index then WithoutIndexFrom(s[1..], index, from + 1)
    else [s[0]] + WithoutIndexFrom(s[1..], index, from + 1)
  }

  /** `s.filter((_, i) => i !== index)`. */
  function WithoutIndex<T>(s: seq<T>, index: int): seq<T>
  {
    WithoutIndexFrom(s, index, 0)
  }

  lemma {:induction false} WithoutIndexFromSlices<T>(s: seq<T>, index: int, from: int)
    ensures from <= index < from + |s| ==>
              WithoutIndexFrom(s, index, from) == s[..index - from] + s[index - from + 1..]
    ensures !(from <= index < from + |s|) ==> WithoutIndexFrom(s, index, from) == s
    decreases |s|
  {
    if |s| > 0 {
      WithoutIndexFromSlices(s[1..], index, from + 1);
      if from != index && from <= index < from + |s| {
        assert s[..index - from] == [s[0]] + s[1..][..index - from - 1];
        assert s[index - from + 1..] == s[1..][index - from..];
      }
    }
  }

  /** Removing index `i` drops exactly the `i`-th element and keeps the rest
      in order; an index outside the sequence removes nothing. */
  lemma WithoutIndexSpec<T>(s: seq<T>, index: int)
    ensures 0 <= index < |s| ==> WithoutIndex(s, index) == s[..index] + s[index + 1..]
    ensures 0 <= index < |s| ==> |WithoutIndex(s, index)| == |s| - 1
    ensures !(0 <= index < |s|) ==> WithoutIndex(s, index) == s
  {
    WithoutIndexFromSlices(s, index, 0);
  }

  /* ---------- stable sort ---------- */

  /** Inserts `x` before the first element it does not compare above, so `x`
      stays ahead of elements it ties with. */
  function Insert<T>(x: T, r: seq<T>, cmp: (T, T) -> int): (out: seq<T>)
    ensures multiset(out) == multiset(r) + multiset{x}
    ensures |out| == |r| + 1
  {
    if |r| == 0 || cmp(x, r[0]) <= 0 then [x] + r
    else
      var rest := Insert(x, r[1..], cmp);
      assert r == [r[0]] + r[1..];
      [r[0]] + rest
  }

  /** `s.sort(cmp)` as a stable insertion sort: ECMAScript requires `sort` to
      be stable, and with a consistent comparator that fixes the result. */
  function Sort<T>(s: seq<T>, cmp: (T, T) -> int): (r: seq<T>)
    ensures multiset(r) == multiset(s)
    ensures |r| == |s|
  {
    if |s| == 0 then []
    else
      assert s == [s[0]] + s[1..];
      Insert(s[0], Sort(s[1..], cmp), cmp)
  }

  /** Neighbours are in comparator order. */
  ghost predicate AdjacentOrdered<T>(s: seq<T>, cmp: (T, T) -> int)
  {
    forall i :: 0 <= i < |s| - 1 ==> cmp(s[i], s[i + 1]) <= 0
  }

  /** The comparator never says both "a after b" and "b after a". */
  ghost predicate NotBothAbove<T(!new)>(cmp: (T, T) -> int)
  {
    forall a, b :: cmp(a, b) > 0 ==> cmp(b, a) <= 0
  }

  lemma {:induction false} InsertOrdered<T(!new)>(x: T, r: seq<T>, cmp: (T, T) -> int)
    requires NotBothAbove(cmp)
    requires AdjacentOrdered(r, cmp)
    ensures AdjacentOrdered(Insert(x, r, cmp), cmp)
    ensures |r| > 0 ==> Insert(x, r, cmp)[0] == x || Insert(x, r, cmp)[0] == r[0]
    decreases |r|
  {
    if |r| > 0 && cmp(x, r[0]) > 0 {
      InsertOrdered(x, r[1..], cmp);
      var out := Insert(x, r, cmp);
      assert out == [r[0]] + Insert(x, r[1..], cmp);
      if |r| > 1 {
        assert cmp(r[0], r[1]) <= 0;
      }
      assert cmp(r[0], x) <= 0;
    }
  }

  /** Sorting puts neighbours in comparator order. */
  lemma {:induction false} SortOrdered<T(!new)>(s: seq<T>, cmp: (T, T) -> int)
    requires NotBothAbove(cmp)
    ensures AdjacentOrdered(Sort(s, cmp), cmp)
    decreases |s|
  {
    if |s| > 0 {
      SortOrdered(s[1..], cmp);
      InsertOrdered(s[0], Sort(s[1..], cmp), cmp);
    }
  }

  /** A comparator that always answers 0 leaves the order unchanged. */
  lemma {:induction false} SortAllTiesIsIdentity<T(!new)>(s: seq<T>, cmp: (T, T) -> int)
    requires forall a, b :: cmp(a, b) == 0
    ensures Sort(s, cmp) == s
    decreases |s|
  {
    if |s| > 0 {
      SortAllTiesIsIdentity(s[1..], cmp);
      assert [s[0]] + s[1..] == s;
    }
  }

  /** Keys that never decrease between neighbours never decrease at all. */
  lemma {:induction false} AdjacentKeysSorted<T>(s: seq<T>, key: T -> int)
    requires forall i :: 0 <= i < |s| - 1 ==> key(s[i]) <= key(s[i + 1])
    ensures forall i, j :: 0 <= i <= j < |s| ==> key(s[i]) <= key(s[j])
    decreases |s|
  {
    if |s| > 1 {
      AdjacentKeysSorted(s[1..], key);
      forall i, j | 0 <= i <= j < |s|
        ensures key(s[i]) <= key(s[j])
      {
        if 0 < i {
          assert s[i] == s[1..][i - 1] && s[j] == s[1..][j - 1];
        } else if 0 < j {
          assert s[1] == s[1..][0] && s[j] == s[1..][j - 1];
        }
      }
    }
  }

  /** `s[from..]` mapped with a function that also receives each element's
      position in `s`. */
  function MapFrom<A, B>(f: (nat, A) -> B, s: seq<A>, from: nat): (r: seq<B>)
    requires from <= |s|
    ensures |r| == |s| - from
    decreases |s| - from
  {
    if from == |s| then [] else [f(from, s[from])] + MapFrom(f, s, from + 1)
  }

  /** Entry `k - from` of the mapped sequence is `f` at position `k`. */
  lemma {:induction false} MapFromAt<A, B>(f: (nat, A) -> B, s: seq<A>, from: nat, k: nat)
    requires from <= k < |s|
    ensures MapFrom(f, s, from)[k - from] == f(k, s[k])
    decreases k - from
  {
    if from < k {
      MapFromAt(f, s, from + 1, k);
    }
  }
}
