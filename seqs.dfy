/** The array combinators the source leans on (`filter`, `findIndex`, `find`, `map`), as functions on sequences. */
module Seqs {
  import opened Wrappers

  /** `s.filter(p)`: the elements of `s` that satisfy `p`, in their original order. */
  function Filter<T>(s: seq<T>, p: T -> bool): (r: seq<T>)
    ensures |r| <= |s|
  {
    if s == [] then [] else (if p(s[0]) then [s[0]] else []) + Filter(s[1..], p)
  }

  /** A filter is empty exactly when no element satisfies the predicate. */
  lemma {:induction false} FilterEmpty<T>(s: seq<T>, p: T -> bool)
    ensures Filter(s, p) == [] <==> forall i :: 0 <= i < |s| ==> !p(s[i])
  {
    if s != [] {
      FilterEmpty(s[1..], p);
      assert forall i :: 1 <= i < |s| ==> s[i] == s[1..][i - 1];
    }
  }

  /** An element is kept by a filter exactly when it is in the input and satisfies the predicate. */
  lemma {:induction false} FilterMembers<T>(s: seq<T>, p: T -> bool)
    ensures forall x :: x in Filter(s, p) <==> x in s && p(x)
  {
    if s != [] {
      FilterMembers(s[1..], p);
      assert s == [s[0]] + s[1..];
    }
  }

  /** `s.findIndex(p)`: the first index whose element satisfies `p`, or -1. */
  function FirstIndex<T>(s: seq<T>, p: T -> bool): (r: int)
    ensures -1 <= r < |s|
    ensures r == -1 <==> forall j :: 0 <= j < |s| ==> !p(s[j])
    ensures 0 <= r ==> p(s[r]) && forall j :: 0 <= j < r ==> !p(s[j])
  {
    if s == [] then -1
    else if p(s[0]) then 0
    else
      var k := FirstIndex(s[1..], p);
      if k == -1 then -1 else k + 1
  }

  /** Position `k` holds the first element of `s` that satisfies `p`. */
  ghost predicate FirstAt<T>(s: seq<T>, p: T -> bool, k: int)
  {
    0 <= k < |s| && p(s[k]) && forall j :: 0 <= j < k ==> !p(s[j])
  }

  /** `s.find(p)`: the first element that satisfies `p`, or `None` for `undefined`. */
  function Find<T>(s: seq<T>, p: T -> bool): (r: Option<T>)
    ensures r.None? <==> forall j :: 0 <= j < |s| ==> !p(s[j])
    ensures r.Some? ==> exists k :: 0 <= k < |s| && s[k] == r.value && p(s[k]) && forall j :: 0 <= j < k ==> !p(s[j])
  {
    var k := FirstIndex(s, p);
    if k == -1 then None else Some(s[k])
  }

  /** `s.map(f)`. */
  function Map<T, U>(s: seq<T>, f: T -> U): (r: seq<U>)
    ensures |r| == |s|
    ensures forall k :: 0 <= k < |s| ==> r[k] == f(s[k])
  {
    if s == [] then [] else [f(s[0])] + Map(s[1..], f)
  }

  /** The positions of `s` whose elements satisfy `p`, in increasing order. */
  function KeptIndices<T>(s: seq<T>, p: T -> bool): seq<nat>
  {
    if s == [] then [] else KeptIndices(s[..|s| - 1], p) + (if p(s[|s| - 1]) then [|s| - 1] else [])
  }

  /** `r` is the subsequence of `s` at the strictly increasing positions `idx`, and those
      positions are exactly the ones whose elements satisfy `p`. */
  ghost predicate OrderedSelection<T>(r: seq<T>, s: seq<T>, idx: seq<nat>, p: T -> bool)
  {
    && |idx| == |r|
    && (forall k :: 0 <= k < |idx| ==> idx[k] < |s| && r[k] == s[idx[k]])
    && (forall k, l :: 0 <= k < l < |idx| ==> idx[k] < idx[l])
    && (forall i :: 0 <= i < |s| ==> (p(s[i]) <==> i in idx))
  }

  lemma {:induction false} FilterConcat<T>(a: seq<T>, b: seq<T>, p: T -> bool)
    ensures Filter(a + b, p) == Filter(a, p) + Filter(b, p)
  {
    if a == [] {
      assert a + b == b;
    } else {
      var head := if p(a[0]) then [a[0]] else [];
      var ab := a + b;
      assert ab[0] == a[0] && ab[1..] == a[1..] + b;
      assert Filter(ab, p) == head + Filter(a[1..] + b, p);
      FilterConcat(a[1..], b, p);
      assert Filter(a, p) == head + Filter(a[1..], p);
      assert head + (Filter(a[1..], p) + Filter(b, p)) == (head + Filter(a[1..], p)) + Filter(b, p);
    }
  }

  /** A filter keeps exactly the elements that satisfy the predicate, in input order. */
  lemma {:induction false} FilterSelects<T>(s: seq<T>, p: T -> bool)
    ensures OrderedSelection(Filter(s, p), s, KeptIndices(s, p), p)
  {
    if s != [] {
      var n := |s| - 1;
      var front := s[..n];
      FilterSelects(front, p);
      assert s == front + [s[n]];
      FilterConcat(front, [s[n]], p);
      assert [s[n]][1..] == [];
      var tail := if p(s[n]) then [s[n]] else [];
      var tailIdx: seq<nat> := if p(s[n]) then [n] else [];
      var r0, idx0 := Filter(front, p), KeptIndices(front, p);
      assert Filter(s, p) == r0 + tail;
      assert KeptIndices(s, p) == idx0 + tailIdx;
      SelectionExtends(r0, front, idx0, p, s[n]);
    }
  }

  lemma SelectionExtends<T>(r0: seq<T>, front: seq<T>, idx0: seq<nat>, p: T -> bool, x: T)
    requires OrderedSelection(r0, front, idx0, p)
    ensures var n := |front|;
      OrderedSelection(r0 + (if p(x) then [x] else []), front + [x], idx0 + (if p(x) then [n] else []), p)
  {
    var n := |front|;
    var s := front + [x];
    var r := r0 + (if p(x) then [x] else []);
    var idx: seq<nat> := idx0 + (if p(x) then [n] else []);
    forall k | 0 <= k < |idx|
      ensures idx[k] < |s| && r[k] == s[idx[k]]
    {
      if k < |idx0| {
        assert idx[k] == idx0[k] && r[k] == r0[k];
      }
    }
    forall i | 0 <= i < |s|
      ensures p(s[i]) <==> i in idx
    {
      if i < n {
        assert s[i] == front[i];
        assert i in idx0 <==> i in idx;
      }
    }
  }

  /** Narrowing a filter: filtering by a stronger predicate yields a subsequence of the wider filter's result. */
  lemma {:induction false} FilterNarrows<T>(s: seq<T>, strong: T -> bool, weak: T -> bool)
    requires forall x :: strong(x) ==> weak(x)
    ensures Filter(Filter(s, weak), strong) == Filter(s, strong)
  {
    if s != [] {
      FilterNarrows(s[1..], strong, weak);
      var head := if weak(s[0]) then [s[0]] else [];
      FilterConcat(head, Filter(s[1..], weak), strong);
      if weak(s[0]) {
        assert [s[0]][1..] == [];
      }
    }
  }

  /** A predicate that holds everywhere filters nothing out. */
  lemma {:induction false} FilterAll<T>(s: seq<T>, p: T -> bool)
    requires forall x :: p(x)
    ensures Filter(s, p) == s
  {
    if s != [] {
      FilterAll(s[1..], p);
    }
  }

  /** The head of a filter is the element `findIndex` finds. */
  lemma {:induction false} FilterHead<T>(s: seq<T>, p: T -> bool)
    requires Filter(s, p) != []
    ensures 0 <= FirstIndex(s, p) && Filter(s, p)[0] == s[FirstIndex(s, p)]
    ensures FirstAt(s, p, FirstIndex(s, p))
  {
    if !p(s[0]) {
      FilterHead(s[1..], p);
    }
  }

  /** `find` returns the element at the first position that satisfies the predicate. */
  lemma FindFirstAt<T>(s: seq<T>, p: T -> bool, k: int)
    requires FirstAt(s, p, k)
    ensures Find(s, p) == Some(s[k])
  {
    var i := FirstIndex(s, p);
    assert !(i < k) && !(k < i);
  }

  /** `findIndex` returns the first position that satisfies the predicate. */
  lemma FirstIndexAt<T>(s: seq<T>, p: T -> bool, k: int)
    requires FirstAt(s, p, k)
    ensures FirstIndex(s, p) == k
  {
    var i := FirstIndex(s, p);
    assert !(i < k) && !(k < i);
  }

  /** `p` read through `f`: holds of `x` when `p` holds of `f(x)`. */
  function Through<T, U>(f: T -> U, p: U -> bool): T -> bool
  {
    (x: T) => p(f(x))
  }

  /** Pairing each element with a key, filtering on the key and dropping the key again is a plain
      filter on the key. */
  lemma {:induction false} MapFilterMap<T, U>(s: seq<T>, pair: T -> U, keep: U -> bool, back: U -> T)
    requires forall x :: back(pair(x)) == x
    ensures Map(Filter(Map(s, pair), keep), back) == Filter(s, Through(pair, keep))
  {
    if s != [] {
      MapFilterMap(s[1..], pair, keep, back);
      assert Map(s, pair)[1..] == Map(s[1..], pair);
      var tail := Filter(Map(s[1..], pair), keep);
      if keep(pair(s[0])) {
        assert ([pair(s[0])] + tail)[1..] == tail;
      }
    }
  }

  /** What a map after a filter can produce: the image of a kept element. */
  lemma MapFilterMembers<T, U>(s: seq<T>, p: T -> bool, f: T -> U, y: U)
    ensures y in Map(Filter(s, p), f) <==> exists x :: x in s && p(x) && f(x) == y
  {
    FilterMembers(s, p);
    var r := Filter(s, p);
    if y in Map(r, f) {
      var k :| 0 <= k < |r| && Map(r, f)[k] == y;
      assert r[k] in r;
    }
    if exists x :: x in s && p(x) && f(x) == y {
      var x :| x in s && p(x) && f(x) == y;
      assert x in r;
      var k :| 0 <= k < |r| && r[k] == x;
      assert Map(r, f)[k] == y;
    }
  }

  /** `find` on a sequence with a known first element. */
  lemma FindCons<T>(x: T, t: seq<T>, q: T -> bool)
    ensures Find([x] + t, q) == if q(x) then Some(x) else Find(t, q)
  {
    assert ([x] + t)[1..] == t;
  }

  /** `s.filter(p).find(q)` is the first element of `s` that satisfies both. */
  lemma {:induction false} FindFiltered<T>(s: seq<T>, p: T -> bool, q: T -> bool, both: T -> bool)
    requires forall x :: both(x) == (p(x) && q(x))
    ensures Find(Filter(s, p), q) == Find(s, both)
  {
    if s != [] {
      var x, t := s[0], s[1..];
      FindFiltered(t, p, q, both);
      assert s == [x] + t;
      FindCons(x, t, both);
      if p(x) {
        assert Filter(s, p) == [x] + Filter(t, p);
        FindCons(x, Filter(t, p), q);
      } else {
        assert Filter(s, p) == Filter(t, p);
      }
    }
  }

  /** `findIndex` only looks at the predicate's value at each position. */
  lemma FirstIndexCongruent<T, U>(s: seq<T>, p: T -> bool, t: seq<U>, q: U -> bool)
    requires |s| == |t| && forall i :: 0 <= i < |s| ==> p(s[i]) == q(t[i])
    ensures FirstIndex(s, p) == FirstIndex(t, q)
  {
  }
}
