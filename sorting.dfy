/**
 * Stable sorting, as Python's `list.sort(key=...)` and SQL's `ORDER BY` with ties kept in table
 * order do it: an insertion sort under a total preorder `le`.
 */
module Sorting {

  /** `le` is total and transitive. */
  ghost predicate TotalPreorder<T(!new)>(le: (T, T) -> bool) {
    (forall a, b :: le(a, b) || le(b, a))
    && (forall a, b, c :: le(a, b) && le(b, c) ==> le(a, c))
  }

  /** Every element is `le` every later one. */
  ghost predicate SortedBy<T>(s: seq<T>, le: (T, T) -> bool) {
    forall i, j :: 0 <= i < j < |s| ==> le(s[i], s[j])
  }

  /** The elements of `s` that satisfy `p`, in order. */
  function Filter<T>(s: seq<T>, p: T -> bool): (r: seq<T>)
    ensures |r| <= |s|
    ensures forall i :: 0 <= i < |r| ==> p(r[i])
    decreases |s|
  {
    if |s| == 0 then []
    else if p(s[0]) then
      assert s == [s[0]] + s[1..];
      [s[0]] + Filter(s[1..], p)
    else
      assert s == [s[0]] + s[1..];
      Filter(s[1..], p)
  }

  /** Filtering keeps exactly the elements that satisfy `p`. */
  lemma {:induction false} FilterMembers<T>(s: seq<T>, p: T -> bool, x: T)
    ensures x in Filter(s, p) <==> x in s && p(x)
    decreases |s|
  {
    if |s| > 0 {
      FilterMembers(s[1..], p, x);
      assert s == [s[0]] + s[1..];
    }
  }

  lemma {:induction false} FilterAppend<T>(a: seq<T>, b: seq<T>, p: T -> bool)
    ensures Filter(a + b, p) == Filter(a, p) + Filter(b, p)
    decreases |a|
  {
    if |a| > 0 {
      assert (a + b)[1..] == a[1..] + b;
      FilterAppend(a[1..], b, p);
    } else {
      assert a + b == b;
    }
  }

  /** Removing the element at `k` removes one copy of it from the multiset. */
  lemma RemoveAt<T>(b: seq<T>, k: nat)
    requires k < |b|
    ensures b == b[..k] + ([b[k]] + b[k + 1..])
    ensures multiset(b[..k] + b[k + 1..]) == multiset(b) - multiset{b[k]}
  {
    assert b == b[..k] + ([b[k]] + b[k + 1..]);
  }

  /** Filtering distributes over the removal of one element. */
  lemma FilterAround<T>(l: seq<T>, y: T, r: seq<T>, p: T -> bool)
    ensures multiset(Filter(l + ([y] + r), p)) == multiset(Filter([y], p)) + multiset(Filter(l + r, p))
  {
    FilterThree(l, [y], r, p);
    FilterAppend(l, r, p);
    MultisetThree(Filter(l, p), Filter([y], p), Filter(r, p));
  }

  lemma FilterThree<T>(l: seq<T>, x: seq<T>, r: seq<T>, p: T -> bool)
    ensures Filter(l + (x + r), p) == Filter(l, p) + (Filter(x, p) + Filter(r, p))
  {
    FilterAppend(l, x + r, p);
    FilterAppend(x, r, p);
  }

  lemma MultisetThree<T>(a: seq<T>, b: seq<T>, c: seq<T>)
    ensures multiset(a + (b + c)) == multiset(b) + multiset(a + c)
  {
  }

  /** Filtering a reordering of a sequence gives a reordering of the filtered sequence. */
  lemma {:induction false} FilterPermutes<T>(a: seq<T>, b: seq<T>, p: T -> bool)
    requires multiset(a) == multiset(b)
    ensures multiset(Filter(a, p)) == multiset(Filter(b, p))
    decreases |a|
  {
    if |a| > 0 {
      var x := a[0];
      assert x in multiset(b);
      var k :| 0 <= k < |b| && b[k] == x;
      RemoveAt(b, k);
      assert a == [x] + a[1..];
      assert multiset(a[1..]) == multiset(a) - multiset{x};
      FilterPermutes(a[1..], b[..k] + b[k + 1..], p);
      FilterAround(b[..k], x, b[k + 1..], p);
      FilterAppend([x], a[1..], p);
    } else {
      assert b == [];
    }
  }

  /** Inserts `x` before the first element it is `le`: after every element strictly below it. */
  function Insert<T>(x: T, s: seq<T>, le: (T, T) -> bool): (r: seq<T>)
    ensures |r| == |s| + 1
    decreases |s|
  {
    if |s| == 0 || le(x, s[0]) then [x] + s
    else [s[0]] + Insert(x, s[1..], le)
  }

  /** Inserting adds `x` and loses nothing. */
  lemma {:induction false} InsertPermutes<T>(x: T, s: seq<T>, le: (T, T) -> bool)
    ensures multiset(Insert(x, s, le)) == multiset(s) + multiset{x}
    decreases |s|
  {
    if |s| > 0 && !le(x, s[0]) {
      InsertPermutes(x, s[1..], le);
      assert s == [s[0]] + s[1..];
    }
  }

  /** Stable insertion sort. */
  function Sort<T>(s: seq<T>, le: (T, T) -> bool): (r: seq<T>)
    ensures |r| == |s|
    ensures multiset(r) == multiset(s)
    decreases |s|
  {
    if |s| == 0 then []
    else
      assert s == [s[0]] + s[1..];
      InsertPermutes(s[0], Sort(s[1..], le), le);
      Insert(s[0], Sort(s[1..], le), le)
  }

  lemma {:induction false} InsertSorted<T(!new)>(x: T, s: seq<T>, le: (T, T) -> bool)
    requires TotalPreorder(le) && SortedBy(s, le)
    ensures SortedBy(Insert(x, s, le), le)
    decreases |s|
  {
    if |s| > 0 && !le(x, s[0]) {
      InsertSorted(x, s[1..], le);
      var r := Insert(x, s, le);
      var t := Insert(x, s[1..], le);
      InsertPermutes(x, s[1..], le);
      assert r == [s[0]] + t;
      assert forall j :: 0 <= j < |t| ==> le(s[0], t[j]) by {
        forall j | 0 <= j < |t| ensures le(s[0], t[j]) {
          assert t[j] in multiset(t);
          assert t[j] == x || t[j] in multiset(s[1..]);
          if t[j] != x {
            var k :| 0 <= k < |s[1..]| && s[1..][k] == t[j];
            assert s[k + 1] == t[j];
          }
        }
      }
    }
  }

  /** The sorted list is in order. */
  lemma {:induction false} SortSorted<T(!new)>(s: seq<T>, le: (T, T) -> bool)
    requires TotalPreorder(le)
    ensures SortedBy(Sort(s, le), le)
    decreases |s|
  {
    if |s| > 0 {
      SortSorted(s[1..], le);
      InsertSorted(s[0], Sort(s[1..], le), le);
    }
  }

  /** The elements equal to `z` under `le`. */
  ghost predicate Tied<T>(le: (T, T) -> bool, z: T, y: T) {
    le(z, y) && le(y, z)
  }

  /** Inserting `x` into `s` puts it before every element of its class `p`, provided it is `le`
      each of them. */
  lemma {:induction false} InsertFilter<T>(x: T, s: seq<T>, le: (T, T) -> bool, p: T -> bool)
    requires forall i :: 0 <= i < |s| && p(x) && p(s[i]) ==> le(x, s[i])
    ensures Filter(Insert(x, s, le), p) == (if p(x) then [x] else []) + Filter(s, p)
    decreases |s|
  {
    if |s| == 0 || le(x, s[0]) {
      FilterCons(x, s, p);
    } else {
      var t := Insert(x, s[1..], le);
      var f := Filter(s[1..], p);
      var xs := if p(x) then [x] else [];
      assert forall i :: 0 <= i < |s[1..]| ==> s[1..][i] == s[i + 1];
      InsertFilter(x, s[1..], le, p);
      assert Filter(t, p) == xs + f;
      assert Insert(x, s, le) == [s[0]] + t;
      FilterCons(s[0], t, p);
      assert s == [s[0]] + s[1..];
      FilterCons(s[0], s[1..], p);
      if p(s[0]) {
        assert !p(x);
        assert Filter(Insert(x, s, le), p) == [s[0]] + f == Filter(s, p);
      } else {
        assert Filter(Insert(x, s, le), p) == xs + f;
        assert Filter(s, p) == f;
      }
    }
  }

  lemma FilterCons<T>(a: T, t: seq<T>, p: T -> bool)
    ensures Filter([a] + t, p) == if p(a) then [a] + Filter(t, p) else Filter(t, p)
  {
    assert ([a] + t)[1..] == t;
  }

  /** Inserting `x` puts it before every element tied with it. */
  lemma InsertStable<T(!new)>(x: T, s: seq<T>, le: (T, T) -> bool, z: T)
    requires TotalPreorder(le)
    ensures Filter(Insert(x, s, le), y => Tied(le, z, y))
            == (if Tied(le, z, x) then [x] else []) + Filter(s, y => Tied(le, z, y))
  {
    var p := (y: T) => Tied(le, z, y);
    assert forall i :: 0 <= i < |s| && p(x) && p(s[i]) ==> le(x, s[i]);
    InsertFilter(x, s, le, p);
  }

  /** The sort is stable: the elements tied with any `z` come out in the order they went in. */
  lemma {:induction false} SortStable<T(!new)>(s: seq<T>, le: (T, T) -> bool, z: T)
    requires TotalPreorder(le)
    ensures Filter(Sort(s, le), y => Tied(le, z, y)) == Filter(s, y => Tied(le, z, y))
    decreases |s|
  {
    if |s| > 0 {
      SortStable(s[1..], le, z);
      InsertStable(s[0], Sort(s[1..], le), le, z);
      assert s == [s[0]] + s[1..];
    }
  }

  /** No two elements share a key under `f`. */
  ghost predicate DistinctBy<T, K>(s: seq<T>, f: T -> K) {
    forall i, j :: 0 <= i < j < |s| ==> f(s[i]) != f(s[j])
  }

  lemma {:induction false} FilterDistinct<T, K>(s: seq<T>, p: T -> bool, f: T -> K)
    requires DistinctBy(s, f)
    ensures DistinctBy(Filter(s, p), f)
    decreases |s|
  {
    if |s| > 0 {
      FilterDistinct(s[1..], p, f);
      var r := Filter(s[1..], p);
      forall j | 0 <= j < |r| ensures f(r[j]) != f(s[0]) {
        FilterMembers(s[1..], p, r[j]);
        var k :| 0 <= k < |s[1..]| && s[1..][k] == r[j];
        assert s[k + 1] == r[j];
      }
      assert s == [s[0]] + s[1..];
    }
  }

  lemma {:induction false} InsertDistinct<T, K>(x: T, s: seq<T>, le: (T, T) -> bool, f: T -> K)
    requires DistinctBy(s, f)
    requires forall i :: 0 <= i < |s| ==> f(s[i]) != f(x)
    ensures DistinctBy(Insert(x, s, le), f)
    decreases |s|
  {
    if |s| > 0 && !le(x, s[0]) {
      InsertDistinct(x, s[1..], le, f);
      var t := Insert(x, s[1..], le);
      InsertPermutes(x, s[1..], le);
      forall j | 0 <= j < |t| ensures f(t[j]) != f(s[0]) {
        assert t[j] in multiset(t);
        if t[j] != x {
          assert t[j] in multiset(s[1..]);
          var k :| 0 <= k < |s[1..]| && s[1..][k] == t[j];
          assert s[k + 1] == t[j];
        }
      }
      assert Insert(x, s, le) == [s[0]] + t;
    }
  }

  /** Sorting keeps the keys distinct. */
  lemma {:induction false} SortDistinct<T, K>(s: seq<T>, le: (T, T) -> bool, f: T -> K)
    requires DistinctBy(s, f)
    ensures DistinctBy(Sort(s, le), f)
    decreases |s|
  {
    if |s| > 0 {
      var t := Sort(s[1..], le);
      SortDistinct(s[1..], le, f);
      forall j | 0 <= j < |t| ensures f(t[j]) != f(s[0]) {
        assert t[j] in multiset(s[1..]);
        var k :| 0 <= k < |s[1..]| && s[1..][k] == t[j];
        assert s[k + 1] == t[j];
      }
      InsertDistinct(s[0], t, le, f);
    }
  }
}
