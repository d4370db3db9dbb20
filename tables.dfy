/**
 * Database tables keyed by an integer primary key. `query.filter_by(...).first()` without an
 * ORDER BY is modelled as the matching row with the lowest key, and a new row's autoincrement key
 * as one more than the largest key in use.
 */
module Tables {
  import opened Wrappers

  /** Every finite set of integers with a member has a least member. */
  lemma {:induction false} LeastExists(s: set<int>, x: int)
    requires x in s
    ensures exists m :: m in s && forall y :: y in s ==> m <= y
    decreases |s|
  {
    if exists z :: z in s && z != x {
      var z :| z in s && z != x;
      var r := s - {x};
      assert z in r;
      LeastExists(r, z);
      var m :| m in r && forall y :: y in r ==> m <= y;
      var least := if x < m then x else m;
      assert forall y :: y in s ==> least <= y by {
        forall y | y in s ensures least <= y {
          if y != x { assert y in r; }
        }
      }
    } else {
      assert forall y :: y in s ==> x <= y;
    }
  }

  /** Every finite set of integers with a member has a greatest member. */
  lemma {:induction false} GreatestExists(s: set<int>, x: int)
    requires x in s
    ensures exists m :: m in s && forall y :: y in s ==> y <= m
    decreases |s|
  {
    if exists z :: z in s && z != x {
      var z :| z in s && z != x;
      var r := s - {x};
      assert z in r;
      GreatestExists(r, z);
      var m :| m in r && forall y :: y in r ==> y <= m;
      var greatest := if x > m then x else m;
      assert forall y :: y in s ==> y <= greatest by {
        forall y | y in s ensures y <= greatest {
          if y != x { assert y in r; }
        }
      }
    } else {
      assert forall y :: y in s ==> y <= x;
    }
  }

  /** The least member of a set that has one. */
  function Least(s: set<int>): (m: int)
    requires exists x :: x in s
    ensures m in s && forall y :: y in s ==> m <= y
  {
    var x :| x in s;
    LeastExists(s, x);
    var m :| m in s && forall y :: y in s ==> m <= y;
    m
  }

  /** The greatest member of a set that has one. */
  function Greatest(s: set<int>): (m: int)
    requires exists x :: x in s
    ensures m in s && forall y :: y in s ==> y <= m
  {
    var x :| x in s;
    GreatestExists(s, x);
    var m :| m in s && forall y :: y in s ==> y <= m;
    m
  }

  /** `filter(...).first()`: the lowest key whose row satisfies `p`, or `None`. */
  function FirstKey<V>(m: map<int, V>, p: V -> bool): (r: Option<int>)
    ensures r.None? <==> forall k :: k in m ==> !p(m[k])
    ensures r.Some? ==> r.value in m && p(m[r.value])
    ensures r.Some? ==> forall k :: k in m && p(m[k]) ==> r.value <= k
  {
    if exists k :: k in m && p(m[k]) then
      var ks := set k | k in m && p(m[k]);
      var w :| w in m && p(m[w]);
      assert w in ks;
      var f := Least(ks);
      assert forall k :: k in m && p(m[k]) ==> f <= k by {
        forall k | k in m && p(m[k]) ensures f <= k {
          assert k in ks;
        }
      }
      Some(f)
    else
      None
  }

  /** The key the database gives the next inserted row. */
  function FreshKey<V>(m: map<int, V>): (k: int)
    ensures k >= 1 && k !in m
    ensures forall j :: j in m ==> j < k
  {
    if exists j :: j in m then
      var g := Greatest(m.Keys);
      if g < 1 then 1 else g + 1
    else
      1
  }

  /** After a row is inserted under the fresh key, the next fresh key is one above it. */
  lemma FreshKeyAfterInsert<V>(m: map<int, V>, v: V)
    ensures FreshKey(m[FreshKey(m) := v]) == FreshKey(m) + 1
  {
    var k := FreshKey(m);
    var m' := m[k := v];
    assert k in m';
    var g := Greatest(m'.Keys);
    assert g == k;
  }
}
