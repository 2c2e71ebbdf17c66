/**
  Following the cursor while mail arrives in front of the list and UIDs are removed from it.
 */
module PagingWalk {
  import opened Wrappers
  import opened Sorting
  import opened UidSet
  import opened Pagination

  /** What happens to the list between two loads. */
  datatype Change = Change(arrived: seq<UID>, gone: set<UID>)

  function Remaining(uids: seq<UID>, gone: set<UID>): seq<UID> {
    if uids == [] then []
    else if uids[0] in gone then Remaining(uids[1..], gone)
    else [uids[0]] + Remaining(uids[1..], gone)
  }

  function Changed(uids: seq<UID>, change: Change): seq<UID> {
    change.arrived + Remaining(uids, change.gone)
  }

  /** The list that load k sees. */
  function ListAfter(first: seq<UID>, changes: seq<Change>, k: nat): seq<UID>
    requires k <= |changes|
  {
    if k == 0 then first else Changed(ListAfter(first, changes, k - 1), changes[k - 1])
  }

  /** The first load, then up to k loads of the next cursor. */
  function WalkThrough(first: seq<UID>, changes: seq<Change>, size: nat, k: nat): Walk
    requires size > 0 && k <= |changes|
  {
    if k == 0 then
      var p := SliceAt(first, FIRST_PAGE, size);
      Walk(p.uids, p.next, 1)
    else Continue(WalkThrough(first, changes, size, k - 1), ListAfter(first, changes, k), size)
  }

  /** All UIDs removed before load k. */
  function Gone(changes: seq<Change>, k: nat): set<UID>
    requires k <= |changes|
  {
    if k == 0 then {} else Gone(changes, k - 1) + changes[k - 1].gone
  }

  /** The cursor still works: its UID was not removed, and the position its page predicts lies inside the list. */
  predicate Works(w: Walk, change: Change, uids: seq<UID>, size: nat) {
    w.next.Some? ==> w.next.value.lastUID !in change.gone && 1 <= w.next.value.page * size <= |uids|
  }

  ghost predicate AllWork(first: seq<UID>, changes: seq<Change>, size: nat, k: nat)
    requires size > 0 && k <= |changes|
  {
    k == 0 ||
    (AllWork(first, changes, size, k - 1) && Distinct(ListAfter(first, changes, k)) &&
     Works(WalkThrough(first, changes, size, k - 1), changes[k - 1], ListAfter(first, changes, k), size))
  }

  // ---- What remains of a list ----

  lemma {:induction false} RemainingMembers(uids: seq<UID>, gone: set<UID>, x: UID)
    ensures x in Remaining(uids, gone) <==> x in uids && x !in gone
  {
    if uids != [] { RemainingMembers(uids[1..], gone, x); }
  }

  lemma RemainingHead(a: seq<UID>, b: seq<UID>, gone: set<UID>)
    requires a != []
    ensures Remaining(a + b, gone)
      == if a[0] in gone then Remaining(a[1..] + b, gone) else [a[0]] + Remaining(a[1..] + b, gone)
  {
    assert (a + b)[1..] == a[1..] + b;
  }

  lemma {:induction false} RemainingConcat(a: seq<UID>, b: seq<UID>, gone: set<UID>)
    ensures Remaining(a + b, gone) == Remaining(a, gone) + Remaining(b, gone)
  {
    if a == [] {
      assert a + b == b;
    } else {
      RemainingConcat(a[1..], b, gone);
      RemainingHead(a, b, gone);
    }
  }

  lemma {:induction false} RemainingTwice(uids: seq<UID>, gone: set<UID>, more: set<UID>)
    ensures Remaining(Remaining(uids, gone), more) == Remaining(uids, gone + more)
  {
    if uids != [] {
      RemainingTwice(uids[1..], gone, more);
      if uids[0] !in gone {
        assert Remaining(uids, gone)[1..] == Remaining(uids[1..], gone);
      }
    }
  }

  lemma {:induction false} RemainingSame(uids: seq<UID>, gone: set<UID>, other: set<UID>)
    requires forall x | x in uids :: x in gone <==> x in other
    ensures Remaining(uids, gone) == Remaining(uids, other)
  {
    if uids != [] { RemainingSame(uids[1..], gone, other); }
  }

  lemma {:induction false} RemainingAll(uids: seq<UID>, gone: set<UID>)
    requires forall x | x in uids :: x !in gone
    ensures Remaining(uids, gone) == uids
  {
    if uids != [] { RemainingAll(uids[1..], gone); }
  }

  lemma RemainingLast(uids: seq<UID>, gone: set<UID>)
    requires uids != [] && uids[|uids| - 1] !in gone
    ensures var r := Remaining(uids, gone); r != [] && r[|r| - 1] == uids[|uids| - 1]
  {
    var init, last := uids[..|uids| - 1], [uids[|uids| - 1]];
    assert uids == init + last;
    RemainingConcat(init, last, gone);
    RemainingAll(last, gone);
  }

  lemma {:induction false} RemainingDistinct(uids: seq<UID>, gone: set<UID>)
    requires Distinct(uids)
    ensures Distinct(Remaining(uids, gone))
  {
    if uids != [] {
      var rest := uids[1..];
      RemainingDistinct(rest, gone);
      assert uids[0] !in rest;
      RemainingMembers(rest, gone, uids[0]);
      if uids[0] !in gone { DistinctConcat([uids[0]], Remaining(rest, gone)); }
    }
  }

  // ---- One load ----

  /**
    The list is what has been passed and what is still due; the cursor names the last UID passed. What was
    delivered and what is due are together the first list without the UIDs lost so far.
   */
  ghost predicate Due(w: Walk, first: seq<UID>, passed: seq<UID>, due: seq<UID>, lost: set<UID>, page: nat) {
    && w.delivered + due == Remaining(first, lost)
    && (w.next.None? ==> due == [])
    && (w.next.Some? ==> due != [] && passed != [] && w.next == Some(Cursor(page, passed[|passed| - 1])))
  }

  /** Removing UIDs loses those that were due. */
  lemma LoseDue(first: seq<UID>, lost: set<UID>, delivered: seq<UID>, due: seq<UID>, gone: set<UID>)
    returns (lost': set<UID>)
    requires Distinct(first) && delivered + due == Remaining(first, lost)
    ensures lost <= lost' <= lost + gone
    ensures delivered + Remaining(due, gone) == Remaining(first, lost')
  {
    var taken := set x | x in due && x in gone;
    lost' := lost + taken;
    RemainingTwice(first, lost, taken);
    RemainingConcat(delivered, due, taken);
    RemainingDistinct(first, lost);
    forall x | x in delivered ensures x !in taken {
      NotInBoth(delivered, due, x);
    }
    RemainingAll(delivered, taken);
    RemainingSame(due, taken, gone);
  }

  lemma NotInBoth(a: seq<UID>, b: seq<UID>, x: UID)
    requires Distinct(a + b) && x in a
    ensures x !in b
  {
    var i :| 0 <= i < |a| && a[i] == x;
    forall j | 0 <= j < |b| ensures b[j] != x {
      assert (a + b)[i] == x && (a + b)[|a| + j] == b[j];
    }
  }

  /** The page starts with what is due. */
  lemma NextSlice(passed: seq<UID>, due: seq<UID>, page: nat, size: nat)
    requires size > 0 && passed != [] && Distinct(passed + due) && passed[|passed| - 1] > 0
    requires 1 <= page * size <= |passed + due|
    ensures SliceAt(passed + due, Cursor(page, passed[|passed| - 1]), size)
      == if |due| <= size then Slice(due, None) else Slice(due[..size], Some(Cursor(page + 1, due[size - 1])))
  {
    var uids := passed + due;
    AnchorHonouredExactly(uids, page * size, passed[|passed| - 1], |passed| - 1);
    assert uids[|passed|..] == due;
    if |due| > size { assert uids[|passed|..|passed| + size] == due[..size]; }
  }

  lemma ChangedDue(passed: seq<UID>, due: seq<UID>, change: Change) returns (passed': seq<UID>)
    requires passed != [] && passed[|passed| - 1] !in change.gone
    ensures Changed(passed + due, change) == passed' + Remaining(due, change.gone)
    ensures passed' != [] && passed'[|passed'| - 1] == passed[|passed| - 1]
  {
    RemainingConcat(passed, due, change.gone);
    RemainingLast(passed, change.gone);
    passed' := change.arrived + Remaining(passed, change.gone);
  }

  /** The last page: nothing is due any more. */
  lemma LastLoad(w: Walk, first: seq<UID>, passed: seq<UID>, left: seq<UID>, lost: set<UID>, page: nat, size: nat)
    requires size > 0 && w.next.Some? && w.delivered + left == Remaining(first, lost) && |left| <= size
    requires SliceAt(passed + left, w.next.value, size) == Slice(left, None)
    ensures Due(Continue(w, passed + left, size), first, passed + left, [], lost, page)
  {
  }

  lemma MiddleLoad(w: Walk, first: seq<UID>, passed: seq<UID>, left: seq<UID>, lost: set<UID>, page: nat, size: nat)
    requires size > 0 && w.next.Some? && w.delivered + left == Remaining(first, lost) && |left| > size
    requires SliceAt(passed + left, w.next.value, size) == Slice(left[..size], Some(Cursor(page, left[size - 1])))
    ensures Due(Continue(w, passed + left, size), first, passed + left[..size], left[size..], lost, page)
    ensures passed + left == passed + left[..size] + left[size..]
  {
    var w' := Continue(w, passed + left, size);
    assert left == left[..size] + left[size..];
    assert w'.delivered + left[size..] == w.delivered + left;
  }

  lemma LoadDue(w: Walk, first: seq<UID>, passed: seq<UID>, due: seq<UID>, lost: set<UID>, page: nat,
                change: Change, size: nat)
    returns (passed': seq<UID>, due': seq<UID>, lost': set<UID>)
    requires size > 0 && Distinct(first) && Due(w, first, passed, due, lost, page) && w.next.Some?
    requires passed[|passed| - 1] > 0
    requires Distinct(Changed(passed + due, change)) && Works(w, change, Changed(passed + due, change), size)
    ensures var w' := Continue(w, Changed(passed + due, change), size);
            && Due(w', first, passed', due', lost', page + 1) && lost' <= lost + change.gone
            && (w'.next.Some? ==> Changed(passed + due, change) == passed' + due' &&
                                  |w'.delivered| == |w.delivered| + size)
  {
    var before := ChangedDue(passed, due, change);
    var left := Remaining(due, change.gone);
    lost' := LoseDue(first, lost, w.delivered, due, change.gone);
    NextSlice(before, left, page, size);
    if |left| <= size {
      passed', due' := before + left, [];
      LastLoad(w, first, before, left, lost', page + 1, size);
    } else {
      passed', due' := before + left[..size], left[size..];
      MiddleLoad(w, first, before, left, lost', page + 1, size);
    }
  }

  // ---- The whole walk ----

  /** The walk after `pages` loads, the last of which saw `uids`. */
  ghost predicate Walking(w: Walk, uids: seq<UID>, first: seq<UID>, passed: seq<UID>, due: seq<UID>, lost: set<UID>,
                          pages: nat, size: nat) {
    && Due(w, first, passed, due, lost, pages)
    && (w.next.Some? ==> uids == passed + due && passed[|passed| - 1] > 0 && |w.delivered| == Done(size, pages))
  }

  lemma RemainingNonZero(uids: seq<UID>, gone: set<UID>)
    requires NonZero(uids)
    ensures NonZero(Remaining(uids, gone))
  {
    forall i | 0 <= i < |Remaining(uids, gone)| ensures Remaining(uids, gone)[i] > 0 {
      RemainingMembers(uids, gone, Remaining(uids, gone)[i]);
    }
  }

  lemma FirstWalking(first: seq<UID>, size: nat) returns (passed: seq<UID>, due: seq<UID>)
    requires size > 0 && NonZero(first)
    ensures var p := SliceAt(first, FIRST_PAGE, size);
            Walking(Walk(p.uids, p.next, 1), first, first, passed, due, {}, 1, size)
  {
    RemainingAll(first, {});
    assert Done(size, 1) == size by { assert Done(size, 0) == 0; }
    if |first| <= size {
      passed, due := first, [];
    } else {
      passed, due := first[..size], first[size..];
      assert first == passed + due;
    }
  }

  lemma DoneNext(size: nat, n: nat)
    ensures Done(size, n + 1) == Done(size, n) + size
  {
  }

  lemma NextWalking(w: Walk, uids: seq<UID>, first: seq<UID>, passed: seq<UID>, due: seq<UID>, lost: set<UID>,
                    pages: nat, change: Change, size: nat)
    returns (passed': seq<UID>, due': seq<UID>, lost': set<UID>)
    requires size > 0 && Distinct(first) && NonZero(first) && w.next.Some?
    requires Walking(w, uids, first, passed, due, lost, pages, size)
    requires Distinct(Changed(uids, change)) && Works(w, change, Changed(uids, change), size)
    ensures lost' <= lost + change.gone
    ensures Walking(Continue(w, Changed(uids, change), size), Changed(uids, change), first, passed', due', lost',
                    pages + 1, size)
  {
    passed', due', lost' := LoadDue(w, first, passed, due, lost, pages, change, size);
    DoneNext(size, pages);
    RemainingNonZero(first, lost');
    var w' := Continue(w, Changed(uids, change), size);
    if w'.next.Some? {
      assert w'.delivered + due' == Remaining(first, lost');
      assert passed'[|passed'| - 1] == w'.delivered[|w'.delivered| - 1] == Remaining(first, lost')[|w'.delivered| - 1];
    }
  }

  lemma {:induction false} WalkInvariant(first: seq<UID>, changes: seq<Change>, size: nat, k: nat)
    returns (passed: seq<UID>, due: seq<UID>, lost: set<UID>)
    requires size > 0 && k <= |changes| && Distinct(first) && NonZero(first) && AllWork(first, changes, size, k)
    ensures lost <= Gone(changes, k)
    ensures var w := WalkThrough(first, changes, size, k);
            && w.delivered + due == Remaining(first, lost) && (w.next.None? ==> due == [])
            && (w.next.Some? ==> Walking(w, ListAfter(first, changes, k), first, passed, due, lost, k + 1, size))
    decreases k
  {
    if k == 0 {
      passed, due := FirstWalking(first, size);
      lost := {};
    } else {
      passed, due, lost := WalkInvariant(first, changes, size, k - 1);
      var w := WalkThrough(first, changes, size, k - 1);
      if w.next.Some? {
        var uids := ListAfter(first, changes, k - 1);
        passed, due, lost := NextWalking(w, uids, first, passed, due, lost, k, changes[k - 1], size);
      }
    }
  }

  /**
    As long as the cursor works, following it delivers the first list in order, each UID once, without some that
    were removed; `due` is what is still to come, and nothing is once the walk has ended.
   */
  lemma WalkLosesOnlyRemoved(first: seq<UID>, changes: seq<Change>, size: nat, k: nat)
    returns (due: seq<UID>, lost: set<UID>)
    requires size > 0 && k <= |changes| && Distinct(first) && NonZero(first) && AllWork(first, changes, size, k)
    ensures lost <= Gone(changes, k)
    ensures WalkThrough(first, changes, size, k).delivered + due == Remaining(first, lost)
    ensures WalkThrough(first, changes, size, k).next.None? ==> due == []
  {
    var passed;
    passed, due, lost := WalkInvariant(first, changes, size, k);
  }

  lemma {:induction false} RemainingShorter(uids: seq<UID>, gone: set<UID>)
    ensures |Remaining(uids, gone)| <= |uids|
  {
    if uids != [] { RemainingShorter(uids[1..], gone); }
  }

  /** In order and each once, what was not removed, and nothing else. */
  ghost predicate Complete(delivered: seq<UID>, first: seq<UID>, gone: set<UID>) {
    && Distinct(delivered) && (forall x | x in delivered :: x in first)
    && (forall x | x in first && x !in gone :: x in delivered)
  }

  lemma RemainingComplete(first: seq<UID>, lost: set<UID>, gone: set<UID>)
    requires Distinct(first) && lost <= gone
    ensures Complete(Remaining(first, lost), first, gone)
  {
    RemainingDistinct(first, lost);
    forall x ensures x in Remaining(first, lost) <==> x in first && x !in lost {
      RemainingMembers(first, lost, x);
    }
  }

  lemma EndedWalk(first: seq<UID>, w: Walk, uids: seq<UID>, passed: seq<UID>, due: seq<UID>, lost: set<UID>,
                  gone: set<UID>, pages: nat, size: nat)
    requires size > 0 && PagesOf(|first|, size) <= pages && Distinct(first) && lost <= gone
    requires w.delivered + due == Remaining(first, lost) && (w.next.None? ==> due == [])
    requires w.next.Some? ==> Walking(w, uids, first, passed, due, lost, pages, size)
    ensures w.next.None? && Complete(w.delivered, first, gone)
  {
    EnoughPages(|first|, size, pages);
    RemainingShorter(first, lost);
    assert |w.delivered + due| == |w.delivered| + |due|;
    RemainingComplete(first, lost, gone);
    assert w.delivered + [] == w.delivered;
  }

  /**
    After as many loads as the first list has pages the walk has ended: every UID of the first list that was never
    removed was delivered, none twice, and no other.
   */
  lemma WalkEnds(first: seq<UID>, changes: seq<Change>, size: nat, k: nat)
    requires size > 0 && k <= |changes| && Distinct(first) && NonZero(first) && AllWork(first, changes, size, k)
    requires PagesOf(|first|, size) <= k + 1
    ensures WalkThrough(first, changes, size, k).next.None?
    ensures Complete(WalkThrough(first, changes, size, k).delivered, first, Gone(changes, k))
  {
    var passed, due, lost := WalkInvariant(first, changes, size, k);
    var w, uids, gone := WalkThrough(first, changes, size, k), ListAfter(first, changes, k), Gone(changes, k);
    EndedWalk(first, w, uids, passed, due, lost, gone, k + 1, size);
  }
}
