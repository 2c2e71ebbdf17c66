/**
  Go's sort.Slice promises some permutation of its input that is in comparator order. `SortBy` is one
  such permutation; callers use only `SortedBy` and the multiset, which is what sort.Slice promises.
 */
module Sorting {

  /** A strict weak order on the elements of `s`: what sort.Slice asks of its comparator. */
  ghost predicate StrictWeakOn<T>(less: (T, T) -> bool, s: seq<T>) {
    && (forall x, y | x in s && y in s :: less(x, y) ==> !less(y, x))
    && (forall x, y, z | x in s && y in s && z in s :: less(x, z) ==> less(x, y) || less(y, z))
  }

  /** No element is less than an earlier one. */
  ghost predicate SortedBy<T>(less: (T, T) -> bool, s: seq<T>) {
    forall i, j | 0 <= i < j < |s| :: !less(s[j], s[i])
  }

  function Insert<T>(less: (T, T) -> bool, x: T, s: seq<T>): (r: seq<T>) {
    if s == [] || !less(s[0], x) then [x] + s else [s[0]] + Insert(less, x, s[1..])
  }

  function SortBy<T>(less: (T, T) -> bool, s: seq<T>): (r: seq<T>) {
    if s == [] then [] else Insert(less, s[0], SortBy(less, s[1..]))
  }

  lemma {:induction false} InsertPermutes<T>(less: (T, T) -> bool, x: T, s: seq<T>)
    ensures multiset(Insert(less, x, s)) == multiset(s) + multiset{x}
    ensures |Insert(less, x, s)| == |s| + 1
  {
    if s == [] || !less(s[0], x) {
    } else {
      InsertPermutes(less, x, s[1..]);
      assert s == [s[0]] + s[1..];
    }
  }

  lemma {:induction false} SortByPermutes<T>(less: (T, T) -> bool, s: seq<T>)
    ensures multiset(SortBy(less, s)) == multiset(s)
    ensures |SortBy(less, s)| == |s|
  {
    if s != [] {
      SortByPermutes(less, s[1..]);
      InsertPermutes(less, s[0], SortBy(less, s[1..]));
      assert s == [s[0]] + s[1..];
    }
  }

  lemma SameMembers<T>(a: seq<T>, b: seq<T>)
    requires multiset(a) == multiset(b)
    ensures forall x | x in a :: x in b
    ensures forall x | x in b :: x in a
  {
    forall x | x in a ensures x in b { assert x in multiset(a); }
    forall x | x in b ensures x in a { assert x in multiset(b); }
  }

  /** Taking one element out of two permutations of each other leaves permutations of each other. */
  lemma TakeOut<T>(a: seq<T>, b: seq<T>) returns (before: seq<T>, after: seq<T>)
    requires a != [] && multiset(a) == multiset(b)
    ensures b == before + [a[0]] + after && multiset(a[1..]) == multiset(before + after)
  {
    assert a[0] in multiset(a);
    var i :| 0 <= i < |b| && b[i] == a[0];
    before, after := b[..i], b[i + 1..];
    assert b == before + [a[0]] + after;
    assert a == [a[0]] + a[1..];
    assert multiset(a) == multiset{a[0]} + multiset(a[1..]);
    assert multiset(b) == multiset(before) + multiset{a[0]} + multiset(after);
    assert multiset(before + after) == multiset(before) + multiset(after);
    assert multiset(a[1..]) == multiset(a) - multiset{a[0]};
  }

  lemma {:induction false} InsertSorted<T>(less: (T, T) -> bool, x: T, s: seq<T>)
    requires StrictWeakOn(less, [x] + s)
    requires SortedBy(less, s)
    ensures SortedBy(less, Insert(less, x, s))
  {
    assert x in [x] + s;
    assert forall y :: y in s ==> y in [x] + s;
    if s == [] {
    } else if !less(s[0], x) {
      forall j | 0 <= j < |s| ensures !less(s[j], x) {
        assert s[j] in s && s[0] in s;
      }
    } else {
      var t := s[1..];
      assert forall y :: y in [x] + t ==> y in [x] + s;
      InsertSorted(less, x, t);
      InsertPermutes(less, x, t);
      var r := Insert(less, x, t);
      forall j | 0 <= j < |r| ensures !less(r[j], s[0]) {
        assert r[j] in multiset(r);
        if r[j] in t {
          var k :| 0 <= k < |t| && t[k] == r[j];
          assert s[k + 1] == r[j];
        } else {
          assert r[j] == x && s[0] in s;
        }
      }
    }
  }

  lemma {:induction false} SortBySorts<T>(less: (T, T) -> bool, s: seq<T>)
    requires StrictWeakOn(less, s)
    ensures SortedBy(less, SortBy(less, s))
    ensures multiset(SortBy(less, s)) == multiset(s)
    ensures forall x | x in SortBy(less, s) :: x in s
    ensures forall x | x in s :: x in SortBy(less, s)
  {
    SortByPermutes(less, s);
    SameMembers(SortBy(less, s), s);
    if s != [] {
      var t := s[1..];
      assert forall y :: y in t ==> y in s;
      SortBySorts(less, t);
      var u := SortBy(less, t);
      assert forall y | y in [s[0]] + u :: y in s;
      InsertSorted(less, s[0], u);
    }
  }

  /** No value occurs twice. */
  ghost predicate Distinct<T>(s: seq<T>) {
    forall i, j | 0 <= i < j < |s| :: s[i] != s[j]
  }

  lemma {:induction false} DistinctCounts<T>(s: seq<T>, x: T)
    requires Distinct(s)
    ensures multiset(s)[x] <= 1
  {
    if s != [] {
      DistinctCounts(s[1..], x);
      assert s == [s[0]] + s[1..];
      assert s[0] !in s[1..];
    }
  }

  lemma RepeatCounts<T>(s: seq<T>, i: nat, j: nat)
    requires i < j < |s| && s[i] == s[j]
    ensures multiset(s)[s[i]] >= 2
  {
    var x, y, z := s[..i], s[i + 1..j], s[j + 1..];
    assert s == x + [s[i]] + y + [s[j]] + z;
  }

  /** Being free of repeats is a property of the multiset. */
  lemma DistinctPermutes<T>(a: seq<T>, b: seq<T>)
    requires multiset(a) == multiset(b) && Distinct(a)
    ensures Distinct(b)
  {
    forall i, j | 0 <= i < j < |b| ensures b[i] != b[j] {
      DistinctCounts(a, b[i]);
      if b[i] == b[j] { RepeatCounts(b, i, j); assert false; }
    }
  }

  lemma DistinctConcat<T>(a: seq<T>, b: seq<T>)
    requires Distinct(a) && Distinct(b) && forall x | x in b :: x !in a
    ensures Distinct(a + b)
  {
    forall i, j | 0 <= i < j < |a + b| ensures (a + b)[i] != (a + b)[j] {
      if i < |a| <= j { assert (a + b)[j] == b[j - |a|] && b[j - |a|] in b && a[i] in a; }
    }
  }

  /** The sequence without the first occurrence of x. */
  function Without<T(==)>(s: seq<T>, x: T): seq<T> {
    if s == [] then []
    else if s[0] == x then s[1..]
    else [s[0]] + Without(s[1..], x)
  }

  lemma {:induction false} WithoutMembers<T>(s: seq<T>, x: T)
    requires Distinct(s)
    ensures Distinct(Without(s, x)) && forall y | y in s + [x] :: y in Without(s, x) <==> y != x
    ensures forall y | y in Without(s, x) :: y in s && y != x
  {
    if s != [] {
      var rest := s[1..];
      assert forall y | y in s :: y == s[0] || y in rest;
      assert s[0] !in rest;
      WithoutMembers(rest, x);
      forall y | y in s + [x] ensures y in Without(s, x) <==> y != x {
        if y in rest { assert y in rest + [x]; }
      }
    }
  }

  lemma {:induction false} WithoutAbsent<T>(s: seq<T>, x: T)
    requires x !in s
    ensures Without(s, x) == s
  {
    if s != [] { WithoutAbsent(s[1..], x); }
  }

  /** Cutting out the first occurrence. */
  lemma {:induction false} WithoutAt<T>(s: seq<T>, x: T, i: nat)
    requires i < |s| && s[i] == x && x !in s[..i]
    ensures Without(s, x) == s[..i] + s[i + 1..]
  {
    if i > 0 {
      assert s[0] == s[..i][0];
      assert s[1..][..i - 1] == s[..i][1..];
      WithoutAt(s[1..], x, i - 1);
      assert s[1..][i..] == s[i + 1..];
    }
  }

  ghost predicate Ascending(s: seq<int>) {
    forall i, j | 0 <= i < j < |s| :: s[i] < s[j]
  }

  ghost predicate Descending(s: seq<int>) {
    forall i, j | 0 <= i < j < |s| :: s[i] > s[j]
  }

  function Reverse<T>(s: seq<T>): (r: seq<T>)
    ensures |r| == |s|
    ensures forall i | 0 <= i < |s| :: r[i] == s[|s| - 1 - i]
    ensures forall x | x in s :: x in r
    ensures forall x | x in r :: x in s
  {
    var r := seq(|s|, i requires 0 <= i < |s| => s[|s| - 1 - i]);
    assert forall i | 0 <= i < |s| :: s[i] == r[|s| - 1 - i];
    r
  }

  lemma HasMember<T>(s: seq<T>)
    requires s != []
    ensures exists x :: x in s
  {
    assert s[0] in s;
  }

  lemma TailMembers(a: seq<int>, b: seq<int>)
    requires a != [] && b != [] && a[0] == b[0] && Ascending(a)
    requires forall x | x in a :: x in b
    ensures forall x | x in a[1..] :: x in b[1..]
  {
    forall x | x in a[1..] ensures x in b[1..] {
      var k :| 1 <= k < |a| && a[k] == x;
      assert x in b && x != b[0];
    }
  }

  /** A strictly ascending sequence is determined by its members. */
  lemma {:induction false} AscendingUnique(a: seq<int>, b: seq<int>)
    requires Ascending(a) && Ascending(b)
    requires forall x :: x in a <==> x in b
    ensures a == b
  {
    if a == [] {
      if b != [] { HasMember(b); assert false; }
    } else {
      assert a[0] in a;
      assert a[0] in b;
      assert b[0] in b;
      assert b[0] in a;
      var i :| 0 <= i < |a| && a[i] == b[0];
      var j :| 0 <= j < |b| && b[j] == a[0];
      assert a[0] == b[0];
      TailMembers(a, b);
      TailMembers(b, a);
      AscendingUnique(a[1..], b[1..]);
      assert a == [a[0]] + a[1..] && b == [b[0]] + b[1..];
    }
  }

  lemma ReverseTwice<T>(s: seq<T>)
    ensures Reverse(Reverse(s)) == s
  {
    assert forall i | 0 <= i < |s| :: Reverse(Reverse(s))[i] == Reverse(s)[|s| - 1 - i];
  }

  lemma ReverseOfAscending(s: seq<int>)
    requires Ascending(s)
    ensures Descending(Reverse(s))
  {
    forall i, j | 0 <= i < j < |s| ensures Reverse(s)[i] > Reverse(s)[j] {
      assert s[|s| - 1 - j] < s[|s| - 1 - i];
    }
  }

  lemma ReverseOfDescending(s: seq<int>)
    requires Descending(s)
    ensures Ascending(Reverse(s))
  {
    forall i, j | 0 <= i < j < |s| ensures Reverse(s)[i] < Reverse(s)[j] {
      assert s[|s| - 1 - j] > s[|s| - 1 - i];
    }
  }
}
