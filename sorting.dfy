/** `Array.prototype.sort` with a comparator. JavaScript's sort is stable, so it is modelled as a
    stable insertion sort: `le(a, b)` stands for `compare(a, b) <= 0`. */
module Sorting {
  import opened Seqs

  /** `le` is total and transitive, as every comparator the source passes to `sort` is. */
  ghost predicate TotalPreorder<T(!new)>(le: (T, T) -> bool)
  {
    && (forall a, b :: le(a, b) || le(b, a))
    && (forall a, b, c :: le(a, b) && le(b, c) ==> le(a, c))
  }

  ghost predicate SortedBy<T>(s: seq<T>, le: (T, T) -> bool)
  {
    forall i, j :: 0 <= i < j < |s| ==> le(s[i], s[j])
  }

  /** Inserts `x` in front of the first element it is not greater than (so before its equals). */
  function Insert<T>(x: T, s: seq<T>, le: (T, T) -> bool): (r: seq<T>)
    ensures |r| == |s| + 1
  {
    if s == [] || le(x, s[0]) then [x] + s
    else [s[0]] + Insert(x, s[1..], le)
  }

  /** The stable sort of `s` under `le`. */
  function SortBy<T>(s: seq<T>, le: (T, T) -> bool): (r: seq<T>)
    ensures |r| == |s|
  {
    if s == [] then [] else Insert(s[0], SortBy(s[1..], le), le)
  }

  lemma {:induction false} InsertPermutes<T>(x: T, s: seq<T>, le: (T, T) -> bool)
    ensures multiset(Insert(x, s, le)) == multiset(s) + multiset{x}
  {
    if s != [] && !le(x, s[0]) {
      InsertPermutes(x, s[1..], le);
      assert s == [s[0]] + s[1..];
    }
  }

  /** The sort's result is a permutation of its input. */
  lemma {:induction false} SortPermutes<T>(s: seq<T>, le: (T, T) -> bool)
    ensures multiset(SortBy(s, le)) == multiset(s)
  {
    if s != [] {
      SortPermutes(s[1..], le);
      InsertPermutes(s[0], SortBy(s[1..], le), le);
      assert s == [s[0]] + s[1..];
    }
  }

  lemma {:induction false} InsertKeepsSorted<T(!new)>(x: T, s: seq<T>, le: (T, T) -> bool)
    requires TotalPreorder(le) && SortedBy(s, le)
    ensures SortedBy(Insert(x, s, le), le)
  {
    if s == [] || le(x, s[0]) {
      var r := [x] + s;
      forall i, j | 0 <= i < j < |r| ensures le(r[i], r[j]) {
        if i == 0 && j > 1 {
          assert le(s[0], s[j - 1]);
        }
      }
    } else {
      var t := Insert(x, s[1..], le);
      InsertKeepsSorted(x, s[1..], le);
      InsertPermutes(x, s[1..], le);
      var r := [s[0]] + t;
      forall j | 0 <= j < |t| ensures le(s[0], t[j]) {
        assert t[j] in multiset(t);
        assert t[j] in multiset(s[1..]) || t[j] == x;
        if t[j] != x {
          var k :| 0 <= k < |s[1..]| && s[1..][k] == t[j];
          assert s[k + 1] == t[j];
        }
      }
      assert forall i, j :: 0 <= i < j < |r| ==> le(r[i], r[j]) by {
        forall i, j | 0 <= i < j < |r| ensures le(r[i], r[j]) {
          if i == 0 {
            assert r[j] == t[j - 1];
          } else {
            assert r[i] == t[i - 1] && r[j] == t[j - 1];
          }
        }
      }
    }
  }

  /** The sort's result is ordered by `le`. */
  lemma {:induction false} SortIsSorted<T(!new)>(s: seq<T>, le: (T, T) -> bool)
    requires TotalPreorder(le)
    ensures SortedBy(SortBy(s, le), le)
  {
    if s != [] {
      SortIsSorted(s[1..], le);
      InsertKeepsSorted(s[0], SortBy(s[1..], le), le);
    }
  }

  /** Position `k` holds the first, in input order, of the least elements of `s` that satisfy `p`. */
  ghost predicate FirstLeastWhere<T>(s: seq<T>, p: T -> bool, le: (T, T) -> bool, k: int)
  {
    && 0 <= k < |s| && p(s[k])
    && (forall j :: 0 <= j < |s| && p(s[j]) ==> le(s[k], s[j]))
    && (forall j :: 0 <= j < k && p(s[j]) ==> !le(s[j], s[k]))
  }

  lemma SortedTail<T>(t: seq<T>, le: (T, T) -> bool)
    requires t != [] && SortedBy(t, le)
    ensures SortedBy(t[1..], le)
  {
    forall i, j | 0 <= i < j < |t[1..]| ensures le(t[1..][i], t[1..][j]) {
      assert t[1..][i] == t[i + 1] && t[1..][j] == t[j + 1];
    }
  }

  /** In a sorted sequence the first element is below every element (itself included). */
  lemma SortedHeadLeast<T(!new)>(t: seq<T>, le: (T, T) -> bool, y: T)
    requires TotalPreorder(le) && SortedBy(t, le) && y in t
    ensures le(t[0], y)
  {
    var k :| 0 <= k < |t| && t[k] == y;
    if k == 0 {
      assert le(y, y) || le(y, y);
    }
  }

  /** Filtering commutes with insertion into a sorted sequence. */
  lemma {:induction false} FilterInsert<T(!new)>(x: T, t: seq<T>, le: (T, T) -> bool, p: T -> bool)
    requires TotalPreorder(le) && SortedBy(t, le)
    ensures Filter(Insert(x, t, le), p) == if p(x) then Insert(x, Filter(t, p), le) else Filter(t, p)
  {
    if t == [] {
      assert [x][1..] == [];
    } else if le(x, t[0]) {
      FilterInsertFront(x, t, le, p);
    } else {
      SortedTail(t, le);
      FilterInsert(x, t[1..], le, p);
      FilterInsertBehind(x, t, le, p);
    }
  }

  lemma FilterInsertFront<T(!new)>(x: T, t: seq<T>, le: (T, T) -> bool, p: T -> bool)
    requires TotalPreorder(le) && SortedBy(t, le) && t != [] && le(x, t[0])
    ensures Filter(Insert(x, t, le), p) == if p(x) then Insert(x, Filter(t, p), le) else Filter(t, p)
  {
    assert Insert(x, t, le) == [x] + t;
    assert ([x] + t)[1..] == t;
    var ft := Filter(t, p);
    if p(x) && ft != [] {
      FilterMembers(t, p);
      assert ft[0] in t;
      SortedHeadLeast(t, le, ft[0]);
      assert le(x, ft[0]);
    }
  }

  lemma FilterInsertBehind<T(!new)>(x: T, t: seq<T>, le: (T, T) -> bool, p: T -> bool)
    requires t != [] && !le(x, t[0])
    requires Filter(Insert(x, t[1..], le), p) == if p(x) then Insert(x, Filter(t[1..], p), le) else Filter(t[1..], p)
    ensures Filter(Insert(x, t, le), p) == if p(x) then Insert(x, Filter(t, p), le) else Filter(t, p)
  {
    var rest := Insert(x, t[1..], le);
    var f1 := Filter(t[1..], p);
    var head := if p(t[0]) then [t[0]] else [];
    assert Insert(x, t, le) == [t[0]] + rest;
    FilterConcat([t[0]], rest, p);
    FilterSingleton(t[0], p);
    assert t == [t[0]] + t[1..];
    FilterConcat([t[0]], t[1..], p);
    if p(x) {
      InsertBehindHead(x, head, f1, le);
    }
  }

  /** Inserting behind a head that is strictly below `x` (or no head at all). */
  lemma InsertBehindHead<T>(x: T, head: seq<T>, f: seq<T>, le: (T, T) -> bool)
    requires |head| <= 1 && (head != [] ==> !le(x, head[0]))
    ensures Insert(x, head + f, le) == head + Insert(x, f, le)
  {
    if head != [] {
      var s := head + f;
      assert s[0] == head[0] && s[1..] == f;
    } else {
      assert head + f == f;
    }
  }

  lemma FilterSingleton<T>(x: T, p: T -> bool)
    ensures Filter([x], p) == if p(x) then [x] else []
  {
    assert [x][1..] == [];
  }

  /** Filtering a stable sort picks, as its first element, the first of the least elements that
      satisfy the filter; it is empty exactly when nothing satisfies the filter. */
  lemma {:induction false} SortedFilterHead<T(!new)>(s: seq<T>, le: (T, T) -> bool, p: T -> bool)
    requires TotalPreorder(le)
    ensures Filter(SortBy(s, le), p) == [] <==> forall j :: 0 <= j < |s| ==> !p(s[j])
    ensures Filter(SortBy(s, le), p) != [] ==>
      exists k :: FirstLeastWhere(s, p, le, k) && Filter(SortBy(s, le), p)[0] == s[k]
  {
    if s != [] {
      SortIsSorted(s[1..], le);
      FilterInsert(s[0], SortBy(s[1..], le), le, p);
      SortedFilterHead(s[1..], le, p);
      FilteredHeadStep(s, le, p, Filter(SortBy(s, le), p), Filter(SortBy(s[1..], le), p));
    }
  }

  /** One element in front: how the head of the filtered sort of `s[1..]` becomes that of `s`. */
  lemma FilteredHeadStep<T(!new)>(s: seq<T>, le: (T, T) -> bool, p: T -> bool, f: seq<T>, f1: seq<T>)
    requires TotalPreorder(le) && s != []
    requires f == if p(s[0]) then Insert(s[0], f1, le) else f1
    requires f1 == [] <==> forall j :: 0 <= j < |s[1..]| ==> !p(s[1..][j])
    requires f1 != [] ==> exists k :: FirstLeastWhere(s[1..], p, le, k) && f1[0] == s[1..][k]
    ensures f == [] <==> forall j :: 0 <= j < |s| ==> !p(s[j])
    ensures f != [] ==> exists k :: FirstLeastWhere(s, p, le, k) && f[0] == s[k]
  {
    var s1 := s[1..];
    if f1 == [] {
      NoneInTail(s, p);
      if p(s[0]) {
        LeastAtHead(s, p, le);
      }
    } else {
      var k1 :| FirstLeastWhere(s1, p, le, k1) && f1[0] == s1[k1];
      if p(s[0]) && le(s[0], f1[0]) {
        forall j | 1 <= j < |s| && p(s[j]) ensures le(s[0], s[j]) {
          assert s[j] == s1[j - 1];
        }
        LeastAtHead(s, p, le);
      } else {
        LeastShift(s, p, le, k1);
      }
    }
  }

  lemma NoneInTail<T>(s: seq<T>, p: T -> bool)
    requires s != [] && forall j :: 0 <= j < |s[1..]| ==> !p(s[1..][j])
    ensures forall j :: 1 <= j < |s| ==> !p(s[j])
  {
    forall j | 1 <= j < |s| ensures !p(s[j]) {
      assert s[j] == s[1..][j - 1];
    }
  }

  /** A head satisfying `p` that is below every later element satisfying `p` is the first least one. */
  lemma LeastAtHead<T(!new)>(s: seq<T>, p: T -> bool, le: (T, T) -> bool)
    requires TotalPreorder(le) && s != [] && p(s[0])
    requires forall j :: 1 <= j < |s| && p(s[j]) ==> le(s[0], s[j])
    ensures FirstLeastWhere(s, p, le, 0)
  {
    var x := s[0];
    assert le(x, x) || le(x, x);
  }

  /** The first least element of the tail stays the first least one when the head does not beat it. */
  lemma LeastShift<T(!new)>(s: seq<T>, p: T -> bool, le: (T, T) -> bool, k1: int)
    requires TotalPreorder(le) && s != [] && FirstLeastWhere(s[1..], p, le, k1)
    requires p(s[0]) ==> !le(s[0], s[1..][k1])
    ensures FirstLeastWhere(s, p, le, k1 + 1)
  {
    var s1 := s[1..];
    assert s[k1 + 1] == s1[k1];
    forall j | 0 <= j < |s| && p(s[j]) ensures le(s[k1 + 1], s[j]) {
      if j > 0 { assert s[j] == s1[j - 1]; }
    }
    forall j | 0 <= j < k1 + 1 && p(s[j]) ensures !le(s[j], s[k1 + 1]) {
      if j > 0 { assert s[j] == s1[j - 1]; }
    }
  }

  /** The head of a stable sort is the first, in input order, of the least elements. */
  lemma SortHead<T(!new)>(s: seq<T>, le: (T, T) -> bool, all: T -> bool)
    requires TotalPreorder(le) && s != []
    requires forall x :: all(x)
    ensures exists k :: FirstLeastWhere(s, all, le, k) && SortBy(s, le)[0] == s[k]
  {
    SortedFilterHead(s, le, all);
    FilterAll(SortBy(s, le), all);
  }

  /** Sorting a filtered sequence gives the filter of the sorted one: a stable sort keeps the
      relative order of the elements a filter keeps. */
  lemma {:induction false} SortFilterCommute<T(!new)>(s: seq<T>, le: (T, T) -> bool, p: T -> bool)
    requires TotalPreorder(le)
    ensures SortBy(Filter(s, p), le) == Filter(SortBy(s, le), p)
  {
    if s != [] {
      SortFilterCommute(s[1..], le, p);
      SortIsSorted(s[1..], le);
      FilterInsert(s[0], SortBy(s[1..], le), le, p);
      var f := Filter(s, p);
      if p(s[0]) {
        assert f[0] == s[0] && f[1..] == Filter(s[1..], p);
      } else {
        assert f == Filter(s[1..], p);
      }
    }
  }

  /** A last element that does not beat the first least one of the others leaves it in place. */
  lemma LeastExtendKeep<T>(s: seq<T>, p: T -> bool, le: (T, T) -> bool, k: int)
    requires s != [] && FirstLeastWhere(s[..|s| - 1], p, le, k)
    requires p(s[|s| - 1]) ==> le(s[k], s[|s| - 1])
    ensures FirstLeastWhere(s, p, le, k)
  {
    var front := s[..|s| - 1];
    assert forall j :: 0 <= j < |front| ==> s[j] == front[j];
  }

  /** A last element strictly below all the others that satisfy `p` is the first least one. */
  lemma LeastExtendNew<T>(s: seq<T>, p: T -> bool, le: (T, T) -> bool)
    requires s != [] && p(s[|s| - 1]) && le(s[|s| - 1], s[|s| - 1])
    requires forall j :: 0 <= j < |s| - 1 && p(s[j]) ==> le(s[|s| - 1], s[j]) && !le(s[j], s[|s| - 1])
    ensures FirstLeastWhere(s, p, le, |s| - 1)
  {
  }

  /** Sorting keeps exactly the elements it is given. */
  lemma SortKeepsMembers<T>(s: seq<T>, le: (T, T) -> bool)
    ensures forall x :: x in SortBy(s, le) <==> x in s
  {
    SortPermutes(s, le);
    forall x ensures x in SortBy(s, le) <==> x in s {
      assert x in SortBy(s, le) <==> x in multiset(SortBy(s, le));
    }
  }
}
