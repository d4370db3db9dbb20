/**
 * `pick_questions_fast`: a random starting point on the `rand_key` circle. The questions of the
 * band and type whose key is at or above the threshold come first in key order; when there are
 * not enough of them, the selection wraps round to the smallest keys below the threshold. The
 * threshold, `random.random()` in the source, is a parameter, and keys are integers.
 */
module QuestionSelector {
  import opened Sorting
  import opened QuizModel

  /** `ORDER BY rand_key`. SQL leaves the order of equal keys unspecified; the model keeps such
      rows in table order, one of the orders the database may return. */
  function ByKey(a: Question, b: Question): bool {
    a.randKey <= b.randKey
  }

  lemma ByKeyIsPreorder()
    ensures TotalPreorder(ByKey)
  {
  }

  /** `.limit(n)`. */
  function Limit<T>(s: seq<T>, n: nat): (r: seq<T>)
    ensures |r| == if n < |s| then n else |s|
    ensures r == s[..|r|]
  {
    if n < |s| then s[..n] else s
  }

  /** `filter_by(band=band, question_type=qt)`. */
  function Base(qs: seq<Question>, band: string, qt: string): seq<Question> {
    Filter(qs, InBand(band, qt))
  }

  function InBand(band: string, qt: string): Question -> bool {
    (q: Question) => q.band == band && q.questionType == qt
  }

  function AtOrAbove(t: int): Question -> bool {
    (q: Question) => q.randKey >= t
  }

  function Below(t: int): Question -> bool {
    (q: Question) => q.randKey < t
  }

  /** One slice: the rows of `base` that `keep`, ordered by key, at most `n` of them. */
  function Slice(base: seq<Question>, keep: Question -> bool, n: nat): seq<Question> {
    Limit(Sort(Filter(base, keep), ByKey), n)
  }

  /** `pick_questions_fast(band, qt, limit)` with `random.random()` returning `t`. */
  function Pick(qs: seq<Question>, band: string, qt: string, limit: nat, t: int): seq<Question> {
    var base := Base(qs, band, qt);
    var q1 := Slice(base, AtOrAbove(t), limit);
    if |q1| == limit then q1
    else q1 + Slice(base, Below(t), limit - |q1|)
  }

  function Id(q: Question): int {
    q.id
  }

  /** In a sorted list, the first `n` have keys no larger than any of the rest. */
  lemma LimitSmallest(s: seq<Question>, n: nat)
    requires SortedBy(s, ByKey)
    ensures var r := Limit(s, n);
      forall q, i :: q in s && q !in r && 0 <= i < |r| ==> r[i].randKey <= q.randKey
  {
    var r := Limit(s, n);
    forall q, i | q in s && q !in r && 0 <= i < |r| ensures r[i].randKey <= q.randKey {
      var j :| 0 <= j < |s| && s[j] == q;
      assert forall k :: 0 <= k < |r| ==> s[k] == r[k];
      assert j >= |r|;
    }
  }

  /** The facts about one slice: it is in key order, comes from `base` and `keep`s, holds
      `min(n, matches)` rows, and every matching row left out has a key no smaller than any
      taken. */
  lemma SliceFacts(base: seq<Question>, keep: Question -> bool, n: nat)
    ensures var f := Filter(base, keep); var r := Slice(base, keep, n);
      |r| == (if n < |f| then n else |f|)
      && SortedBy(r, ByKey)
      && (forall i :: 0 <= i < |r| ==> r[i] in base && keep(r[i]))
      && (forall q, i :: q in base && keep(q) && q !in r && 0 <= i < |r| ==> r[i].randKey <= q.randKey)
  {
    var f := Filter(base, keep);
    var s := Sort(f, ByKey);
    var r := Slice(base, keep, n);
    ByKeyIsPreorder();
    SortSorted(f, ByKey);
    LimitSmallest(s, n);
    forall i | 0 <= i < |r| ensures r[i] in base && keep(r[i]) {
      assert r[i] == s[i];
      assert s[i] in multiset(f);
      FilterMembers(base, keep, s[i]);
    }
    forall q | q in base && keep(q) ensures q in s {
      FilterMembers(base, keep, q);
      assert q in multiset(s);
    }
  }

  lemma SliceDistinct(base: seq<Question>, keep: Question -> bool, n: nat)
    requires DistinctBy(base, Id)
    ensures DistinctBy(Slice(base, keep, n), Id)
  {
    FilterDistinct(base, keep, Id);
    SortDistinct(Filter(base, keep), ByKey, Id);
  }

  /** The rows meeting the threshold and those below it together are all of them. */
  lemma {:induction false} SplitCount(s: seq<Question>, t: int)
    ensures |Filter(s, AtOrAbove(t))| + |Filter(s, Below(t))| == |s|
    decreases |s|
  {
    if |s| > 0 {
      SplitCount(s[1..], t);
    }
  }

  /** The result has `min(limit, matches)` questions. */
  lemma PickLength(qs: seq<Question>, band: string, qt: string, limit: nat, t: int)
    ensures var m := |Base(qs, band, qt)|;
      |Pick(qs, band, qt, limit, t)| == if limit < m then limit else m
  {
    var base := Base(qs, band, qt);
    SliceFacts(base, AtOrAbove(t), limit);
    var q1 := Slice(base, AtOrAbove(t), limit);
    if |q1| != limit {
      SliceFacts(base, Below(t), limit - |q1|);
      SplitCount(base, t);
    }
  }

  /** Every question returned has the requested band and type and comes from the table. */
  lemma PickMatches(qs: seq<Question>, band: string, qt: string, limit: nat, t: int)
    ensures forall q :: q in Pick(qs, band, qt, limit, t) ==> q in qs && q.band == band && q.questionType == qt
  {
    var base := Base(qs, band, qt);
    SliceFacts(base, AtOrAbove(t), limit);
    var q1 := Slice(base, AtOrAbove(t), limit);
    SliceFacts(base, Below(t), limit - |q1|);
    forall q | q in base ensures q in qs && q.band == band && q.questionType == qt {
      FilterMembers(qs, InBand(band, qt), q);
    }
  }

  /** Facts about the two slices of a pick. */
  predicate Halves(base: seq<Question>, q1: seq<Question>, q2: seq<Question>, t: int) {
    (forall i :: 0 <= i < |q1| ==> q1[i] in base && q1[i].randKey >= t)
    && (forall i :: 0 <= i < |q2| ==> q2[i] in base && q2[i].randKey < t)
  }

  lemma PickHalves(qs: seq<Question>, band: string, qt: string, limit: nat, t: int)
    ensures var base := Base(qs, band, qt);
      var q1 := Slice(base, AtOrAbove(t), limit);
      var q2 := if |q1| == limit then [] else Slice(base, Below(t), limit - |q1|);
      Pick(qs, band, qt, limit, t) == q1 + q2
      && Halves(base, q1, q2, t) && SortedBy(q1, ByKey) && SortedBy(q2, ByKey)
  {
    var base := Base(qs, band, qt);
    SliceFacts(base, AtOrAbove(t), limit);
    var q1 := Slice(base, AtOrAbove(t), limit);
    if |q1| == limit {
      assert q1 + [] == q1;
    } else {
      SliceFacts(base, Below(t), limit - |q1|);
    }
  }

  lemma OrderOfHalves(base: seq<Question>, q1: seq<Question>, q2: seq<Question>, t: int)
    requires Halves(base, q1, q2, t) && SortedBy(q1, ByKey) && SortedBy(q2, ByKey)
    ensures var r := q1 + q2; var k := |q1|;
      (forall i :: 0 <= i < k ==> r[i].randKey >= t)
      && (forall i :: k <= i < |r| ==> r[i].randKey < t)
      && SortedBy(r[..k], ByKey) && SortedBy(r[k..], ByKey)
  {
    var r := q1 + q2;
    assert r[..|q1|] == q1 && r[|q1|..] == q2;
  }

  /** The keys at or above the threshold come first, in ascending order, then the keys below it,
      in ascending order. */
  lemma PickOrder(qs: seq<Question>, band: string, qt: string, limit: nat, t: int)
    ensures var r := Pick(qs, band, qt, limit, t);
      exists k :: 0 <= k <= |r|
        && (forall i :: 0 <= i < k ==> r[i].randKey >= t)
        && (forall i :: k <= i < |r| ==> r[i].randKey < t)
        && SortedBy(r[..k], ByKey) && SortedBy(r[k..], ByKey)
  {
    var base := Base(qs, band, qt);
    PickHalves(qs, band, qt, limit, t);
    var q1 := Slice(base, AtOrAbove(t), limit);
    var q2 := if |q1| == limit then [] else Slice(base, Below(t), limit - |q1|);
    OrderOfHalves(base, q1, q2, t);
  }

  lemma DistinctHalves(base: seq<Question>, q1: seq<Question>, q2: seq<Question>, t: int)
    requires Halves(base, q1, q2, t) && DistinctBy(base, Id)
    requires DistinctBy(q1, Id) && DistinctBy(q2, Id)
    ensures DistinctBy(q1 + q2, Id)
  {
    var r := q1 + q2;
    forall i, j | 0 <= i < |q1| && 0 <= j < |q2| ensures q1[i].id != q2[j].id {
      var a :| 0 <= a < |base| && base[a] == q1[i];
      var b :| 0 <= b < |base| && base[b] == q2[j];
      assert a != b;
    }
    forall i, j | 0 <= i < j < |r| ensures r[i].id != r[j].id {
      if j < |q1| {
        assert r[i] == q1[i] && r[j] == q1[j];
      } else if i >= |q1| {
        assert r[i] == q2[i - |q1|] && r[j] == q2[j - |q1|];
      } else {
        assert r[i] == q1[i] && r[j] == q2[j - |q1|];
      }
    }
  }

  /** No question appears twice. */
  lemma PickDistinct(qs: seq<Question>, band: string, qt: string, limit: nat, t: int)
    requires DistinctBy(qs, Id)
    ensures DistinctBy(Pick(qs, band, qt, limit, t), Id)
  {
    var base := Base(qs, band, qt);
    FilterDistinct(qs, InBand(band, qt), Id);
    PickHalves(qs, band, qt, limit, t);
    SliceDistinct(base, AtOrAbove(t), limit);
    var q1 := Slice(base, AtOrAbove(t), limit);
    var q2 := if |q1| == limit then [] else Slice(base, Below(t), limit - |q1|);
    if |q1| != limit {
      SliceDistinct(base, Below(t), limit - |q1|);
    }
    DistinctHalves(base, q1, q2, t);
  }

  /** With at least `limit` matches at or above the threshold, the result is those with the
      `limit` smallest keys: every such match left out has a key no smaller than any returned. */
  lemma PickSmallestAbove(qs: seq<Question>, band: string, qt: string, limit: nat, t: int)
    requires |Filter(Base(qs, band, qt), AtOrAbove(t))| >= limit
    ensures var r := Pick(qs, band, qt, limit, t);
      |r| == limit
      && (forall i :: 0 <= i < |r| ==> r[i].randKey >= t)
      && forall q, i :: q in Base(qs, band, qt) && q.randKey >= t && q !in r && 0 <= i < |r| ==> r[i].randKey <= q.randKey
  {
    var base := Base(qs, band, qt);
    SliceFacts(base, AtOrAbove(t), limit);
  }

  /** Below the floor, the first slice is every match at or above the threshold. */
  lemma FirstSliceWhole(base: seq<Question>, limit: nat, t: int)
    requires |Filter(base, AtOrAbove(t))| < limit
    ensures var q1 := Slice(base, AtOrAbove(t), limit);
      |q1| == |Filter(base, AtOrAbove(t))| && forall q :: q in base && q.randKey >= t ==> q in q1
  {
    var f1 := Filter(base, AtOrAbove(t));
    forall q | q in base && q.randKey >= t ensures q in Slice(base, AtOrAbove(t), limit) {
      FilterMembers(base, AtOrAbove(t), q);
      assert q in multiset(Sort(f1, ByKey));
    }
  }

  /** Otherwise every match at or above the threshold is returned, followed by at most
      `limit - |q1|` matches below it, those with the smallest keys. */
  lemma PickWraps(qs: seq<Question>, band: string, qt: string, limit: nat, t: int)
    requires |Filter(Base(qs, band, qt), AtOrAbove(t))| < limit
    ensures var base := Base(qs, band, qt); var r := Pick(qs, band, qt, limit, t);
      var n1 := |Filter(base, AtOrAbove(t))|;
      n1 <= |r| <= limit
      && (forall q :: q in base && q.randKey >= t ==> q in r[..n1])
      && (forall i :: n1 <= i < |r| ==> r[i].randKey < t)
      && forall q, i :: q in base && q.randKey < t && q !in r && n1 <= i < |r| ==> r[i].randKey <= q.randKey
  {
    var base := Base(qs, band, qt);
    FirstSliceWhole(base, limit, t);
    var q1 := Slice(base, AtOrAbove(t), limit);
    var q2 := Slice(base, Below(t), limit - |q1|);
    SliceFacts(base, Below(t), limit - |q1|);
    PickHalves(qs, band, qt, limit, t);
    WrapTail(base, q1, q2, t);
  }

  lemma WrapTail(base: seq<Question>, q1: seq<Question>, q2: seq<Question>, t: int)
    requires forall i :: 0 <= i < |q2| ==> q2[i].randKey < t
    requires forall q, i :: q in base && q.randKey < t && q !in q2 && 0 <= i < |q2| ==> q2[i].randKey <= q.randKey
    ensures var r := q1 + q2;
      r[..|q1|] == q1
      && (forall i :: |q1| <= i < |r| ==> r[i].randKey < t)
      && forall q, i :: q in base && q.randKey < t && q !in r && |q1| <= i < |r| ==> r[i].randKey <= q.randKey
  {
    var r := q1 + q2;
    assert r[..|q1|] == q1;
    forall i | |q1| <= i < |r| ensures r[i] == q2[i - |q1|] {
    }
  }
}
