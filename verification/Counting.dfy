/** The sizes of maps, and counting the entries that satisfy a predicate: how counters are tied to the state. */
module Counting {

  lemma SizeDrop<K, V>(m: map<K, V>, k: K)
    ensures |m - {k}| == |m| - (if k in m then 1 else 0)
  {
    assert (m - {k}).Keys == m.Keys - {k};
    assert |m.Keys| == |m| && |(m - {k}).Keys| == |m - {k}|;
  }

  lemma SizePut<K, V>(m: map<K, V>, k: K, v: V)
    ensures |m[k := v]| == |m| + (if k in m then 0 else 1)
  {
    assert m[k := v].Keys == m.Keys + {k};
    assert |m.Keys| == |m| && |m[k := v].Keys| == |m[k := v]|;
  }

  ghost function Hits<K, V>(m: map<K, V>, p: V -> bool): set<K> {
    set k | k in m && p(m[k])
  }

  ghost function Count<K, V>(m: map<K, V>, p: V -> bool): nat {
    |Hits(m, p)|
  }

  lemma CountDrop<K, V>(m: map<K, V>, k: K, p: V -> bool)
    ensures Count(m - {k}, p) == Count(m, p) - (if k in m && p(m[k]) then 1 else 0)
  {
    assert Hits(m - {k}, p) == Hits(m, p) - {k};
  }

  lemma CountPut<K, V>(m: map<K, V>, k: K, v: V, p: V -> bool)
    ensures Count(m[k := v], p) == Count(m, p) - (if k in m && p(m[k]) then 1 else 0) + (if p(v) then 1 else 0)
  {
    CountDrop(m, k, p);
    CountDrop(m[k := v], k, p);
    assert m[k := v] - {k} == m - {k};
  }

  lemma CountAtMost<K, V>(m: map<K, V>, p: V -> bool)
    ensures Count(m, p) <= |m|
  {
    SubsetSize(Hits(m, p), m.Keys);
  }

  lemma {:induction false} SubsetSize<K>(a: set<K>, b: set<K>)
    requires a <= b
    ensures |a| <= |b|
  {
    if a != {} {
      var x :| x in a;
      SubsetSize(a - {x}, b - {x});
    }
  }

  lemma CountNone<K, V>(m: map<K, V>, p: V -> bool)
    ensures Count(m, p) == 0 <==> forall k | k in m :: !p(m[k])
  {
    if k :| k in m && p(m[k]) { assert k in Hits(m, p); }
  }

  /** A number above all of a finite set. */
  lemma {:induction false} Above(ids: set<nat>) returns (n: nat)
    ensures forall id | id in ids :: id < n
    decreases |ids|
  {
    n := 0;
    if ids != {} {
      var x :| x in ids;
      var m := Above(ids - {x});
      n := if x < m then m else x + 1;
      assert forall id | id in ids :: id == x || id in ids - {x};
    }
  }
}
