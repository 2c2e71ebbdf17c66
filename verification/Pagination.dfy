/**
  Paging a UID list: message_service_message.go, from the cursor to the page and the next cursor.
  The cursor carries a page number and the last UID of the previous page.
 */
module Pagination {
  import opened Wrappers
  import opened Sorting
  import opened UidSet
  import opened MailboxLimits

  /** Page and LastUID of CursorData; LastUID 0 means none. */
  datatype Cursor = Cursor(page: nat, lastUID: UID)

  const FIRST_PAGE := Cursor(0, 0)

  datatype Page = Page(uids: seq<UID>, next: Option<Cursor>, total: nat, currentPage: nat, totalPages: nat,
                       hasMore: bool)

  /** The page size for a requested limit: 50 by default, at most 200. */
  function PageSize(limit: int): (size: nat)
    ensures 1 <= size <= 200
    ensures 1 <= limit <= 200 ==> size == limit
    ensures limit > 200 ==> size == 200
    ensures limit <= 0 ==> size == 50
  {
    if limit <= 0 then 50 else if limit > 200 then 200 else limit
  }

  /** The first position of u at or after `from`, or |uids|. */
  function Position(uids: seq<UID>, u: UID, from: nat): (i: nat)
    requires from <= |uids|
    ensures from <= i <= |uids|
    ensures i < |uids| ==> uids[i] == u
    ensures forall j | from <= j < i :: uids[j] != u
    decreases |uids| - from
  {
    if from == |uids| || uids[from] == u then from else Position(uids, u, from + 1)
  }

  /** Where the page starts, given the position its page number predicts. */
  function StartOf(uids: seq<UID>, base: nat, lastUID: UID): nat {
    if lastUID > 0 && 0 <= base - 1 < |uids| && uids[base - 1] != lastUID && Position(uids, lastUID, 0) < |uids|
    then Position(uids, lastUID, 0) + 1
    else base
  }

  function PagesOf(total: nat, size: nat): nat
    requires size > 0
  {
    if total > 0 then (total + size - 1) / size else 1
  }

  /** The UIDs of the page and the cursor after it. */
  datatype Slice = Slice(uids: seq<UID>, next: Option<Cursor>)

  function SliceFrom(uids: seq<UID>, start: nat, page: nat, size: nat): Slice
    requires size > 0
  {
    if start >= |uids| then Slice([], None)
    else if start + size >= |uids| then Slice(uids[start..], None)
    else Slice(uids[start..start + size], Some(Cursor(page + 1, uids[start + size - 1])))
  }

  function SliceAt(uids: seq<UID>, cursor: Cursor, size: nat): Slice
    requires size > 0
  {
    SliceFrom(uids, StartOf(uids, cursor.page * size, cursor.lastUID), cursor.page, size)
  }

  /** The total shown: the length of the list, or the folder's count when the list is a window of a huge folder. */
  function TotalCount(uids: seq<UID>, messageCount: nat): nat {
    if messageCount > MAX_SORT_UIDS then messageCount else |uids|
  }

  function PageAt(uids: seq<UID>, cursor: Cursor, size: nat, messageCount: nat): Page
    requires size > 0
  {
    var slice := SliceAt(uids, cursor, size);
    Page(slice.uids, slice.next, TotalCount(uids, messageCount), cursor.page + 1,
         PagesOf(TotalCount(uids, messageCount), size), slice.next.Some?)
  }

  /** The start index: the anchor's position when it is not where the page number predicts. */
  method StartIndex(uids: seq<UID>, cursor: Cursor, pageSize: nat) returns (startIndex: nat)
    ensures startIndex == StartOf(uids, cursor.page * pageSize, cursor.lastUID)
  {
    startIndex := cursor.page * pageSize;
    if cursor.lastUID > 0 {
      var expectedLastUIDIndex := startIndex - 1;
      if expectedLastUIDIndex >= 0 && expectedLastUIDIndex < |uids| {
        if uids[expectedLastUIDIndex] != cursor.lastUID {
          var i := 0;
          while i < |uids|
            invariant 0 <= i <= |uids| && startIndex == expectedLastUIDIndex + 1
            invariant Position(uids, cursor.lastUID, 0) == Position(uids, cursor.lastUID, i)
          {
            if uids[i] == cursor.lastUID {
              startIndex := i + 1;
              break;
            }
            i := i + 1;
          }
        }
      }
    }
  }

  /** message_service_message.go, pagination of the prepared UID list. */
  method Paginate(uids: seq<UID>, cursor: Cursor, limit: int, messageCount: nat) returns (page: Page)
    ensures page == PageAt(uids, cursor, PageSize(limit), messageCount)
  {
    var pageSize := PageSize(limit);
    var startIndex := StartIndex(uids, cursor, pageSize);
    var endIndex := startIndex + pageSize;
    var totalCount := |uids|;
    if messageCount > MAX_SORT_UIDS {
      totalCount := messageCount;
    }
    var totalPages := 1;
    if totalCount > 0 {
      totalPages := (totalCount + pageSize - 1) / pageSize;
    }
    assert totalPages == PagesOf(TotalCount(uids, messageCount), pageSize);
    ghost var slice := SliceFrom(uids, startIndex, cursor.page, pageSize);
    assert slice == SliceAt(uids, cursor, pageSize);
    if startIndex >= |uids| {
      return Page([], None, totalCount, cursor.page + 1, totalPages, false);
    }
    if endIndex > |uids| {
      endIndex := |uids|;
    }
    var pageUIDs := uids[startIndex..endIndex];
    var nextCursor := None;
    if endIndex < |uids| {
      nextCursor := Some(Cursor(cursor.page + 1, pageUIDs[|pageUIDs| - 1]));
    }
    assert Slice(pageUIDs, nextCursor) == slice;
    page := Page(pageUIDs, nextCursor, totalCount, cursor.page + 1, totalPages, endIndex < |uids|);
  }

  // ---- What a page says of itself ----

  /** As many pages as it takes. */
  lemma PagesSuffice(total: nat, size: nat)
    requires size > 0
    ensures total == 0 ==> PagesOf(total, size) == 1
    ensures total > 0 ==> (PagesOf(total, size) - 1) * size < total <= PagesOf(total, size) * size
  {
    var q, rest := (total + size - 1) / size, (total + size - 1) % size;
    assert total + size - 1 == q * size + rest;
    assert (q - 1) * size == q * size - size;
  }

  /**
    A page has the number of its load. There is more exactly when UIDs follow it, and then the cursor has that number
    and the last UID of the page. The pages are those for the total, which in a folder of more than 50000 messages is
    the folder's count and else the length of the list.
   */
  lemma PageFacts(uids: seq<UID>, cursor: Cursor, size: nat, messageCount: nat)
    requires size > 0
    ensures var p, start := PageAt(uids, cursor, size, messageCount), StartOf(uids, cursor.page * size, cursor.lastUID);
      && p.currentPage == cursor.page + 1
      && (p.hasMore <==> start + size < |uids|)
      && p.uids == (if start >= |uids| then [] else if p.hasMore then uids[start..start + size] else uids[start..])
      && p.next == (if p.hasMore then Some(Cursor(p.currentPage, p.uids[size - 1])) else None)
      && p.total == (if messageCount > 50000 then messageCount else |uids|) && p.totalPages == PagesOf(p.total, size)
  {
  }

  // ---- One step: when the anchor is honoured ----

  /**
    A page starts right after its anchor if and only if the position the page number predicts lies inside
    the list. Mail arriving never breaks this; a list that has shrunk below the predicted position does.
   */
  lemma AnchorHonouredExactly(uids: seq<UID>, base: nat, anchor: UID, at: nat)
    requires Distinct(uids) && at < |uids| && uids[at] == anchor && anchor > 0
    ensures StartOf(uids, base, anchor) == at + 1 <==> 1 <= base <= |uids|
  {
    PositionOf(uids, at, 0);
  }

  /** In any list, a page starts after the anchor's first place when the anchor is not where it is predicted. */
  lemma StartIs(uids: seq<UID>, base: nat, anchor: UID)
    ensures if anchor != 0 && 1 <= base <= |uids| && uids[base - 1] != anchor && anchor in uids then
        var start := StartOf(uids, base, anchor);
        1 <= start <= |uids| && uids[start - 1] == anchor && anchor !in uids[..start - 1]
      else StartOf(uids, base, anchor) == base
  {
  }

  lemma {:induction false} PositionOf(uids: seq<UID>, at: nat, from: nat)
    requires Distinct(uids) && from <= at < |uids|
    ensures Position(uids, uids[at], from) == at
    decreases at - from
  {
    if from < at { PositionOf(uids, at, from + 1); }
  }

  /** A list of five shrinks to two after page one of size three: the anchor survives, but the next page is empty. */
  lemma ShrunkListLosesTail()
    ensures SliceAt([9, 8, 7, 6, 5], FIRST_PAGE, 3).next == Some(Cursor(1, 7))
    ensures SliceAt([7, 6], Cursor(1, 7), 3).uids == []
  {
  }

  // ---- Following the cursor while mail arrives ----

  /** The k-th load sees the mail that has arrived so far in front of the first list. */
  function ListAt(first: seq<UID>, arrivals: seq<seq<UID>>, k: nat): (r: seq<UID>)
    requires k <= |arrivals|
  {
    if k == 0 then first else arrivals[k - 1] + ListAt(first, arrivals, k - 1)
  }

  datatype Walk = Walk(delivered: seq<UID>, next: Option<Cursor>, pages: nat)

  /** The first load, then up to k loads of the next cursor, with `arrivals[i]` arriving before load i + 1. */
  function WalkFor(first: seq<UID>, arrivals: seq<seq<UID>>, size: nat, k: nat): (w: Walk)
    requires size > 0 && k <= |arrivals|
  {
    if k == 0 then
      var p := SliceAt(first, FIRST_PAGE, size);
      Walk(p.uids, p.next, 1)
    else
      Continue(WalkFor(first, arrivals, size, k - 1), ListAt(first, arrivals, k), size)
  }

  function Continue(w: Walk, uids: seq<UID>, size: nat): Walk
    requires size > 0
  {
    if w.next.None? then w
    else
      var p := SliceAt(uids, w.next.value, size);
      Walk(w.delivered + p.uids, p.next, w.pages + 1)
  }

  /** n * size, by repeated addition. */
  function Done(size: nat, n: nat): (d: nat)
    ensures d == n * size
    ensures n > 0 ==> d >= size
  {
    if n == 0 then 0 else
      assert n * size == (n - 1) * size + size;
      Done(size, n - 1) + size
  }

  /** The first n UIDs, or all of them. */
  function Upto(first: seq<UID>, n: nat): seq<UID> {
    if n <= |first| then first[..n] else first
  }

  lemma {:induction false} ListKeepsFirst(first: seq<UID>, arrivals: seq<seq<UID>>, k: nat)
    requires k <= |arrivals|
    ensures |ListAt(first, arrivals, k)| >= |first|
    ensures ListAt(first, arrivals, k)[|ListAt(first, arrivals, k)| - |first|..] == first
  {
    if k > 0 {
      ListKeepsFirst(first, arrivals, k - 1);
      var before := ListAt(first, arrivals, k - 1);
      var now := arrivals[k - 1] + before;
      assert now[|now| - |first|..] == before[|before| - |first|..];
    }
  }

  /** The page after `done` UIDs of the first list, wherever that list now starts. */
  lemma NextPage(uids: seq<UID>, first: seq<UID>, size: nat, page: nat, done: nat)
    requires size > 0 && 0 < done < |first| <= |uids|
    requires uids[|uids| - |first|..] == first
    requires Distinct(uids) && NonZero(first)
    ensures var p := SliceFrom(uids, StartOf(uids, done, first[done - 1]), page, size);
      && first[..done] + p.uids == Upto(first, done + size)
      && p.next == if done + size < |first| then Some(Cursor(page + 1, first[done + size - 1])) else None
  {
    var shift := |uids| - |first|;
    assert uids[shift + done - 1] == first[done - 1];
    AnchorHonouredExactly(uids, done, first[done - 1], shift + done - 1);
    SliceAfter(uids, first, size, page, done);
  }

  /** Wherever the first list starts, the slice after `done` of its UIDs has the next ones. */
  lemma SliceAfter(uids: seq<UID>, first: seq<UID>, size: nat, page: nat, done: nat)
    requires size > 0 && 0 < done < |first| <= |uids| && uids[|uids| - |first|..] == first
    ensures var p := SliceFrom(uids, |uids| - |first| + done, page, size);
      && first[..done] + p.uids == Upto(first, done + size)
      && p.next == if done + size < |first| then Some(Cursor(page + 1, first[done + size - 1])) else None
  {
    var shift := |uids| - |first|;
    if done + size < |first| {
      assert uids[shift + done..shift + done + size] == first[done..done + size];
      assert first[..done] + first[done..done + size] == first[..done + size];
    } else {
      assert uids[shift + done..] == first[done..] && first[..done] + first[done..] == first;
    }
  }

  lemma FirstPageIs(first: seq<UID>, size: nat)
    requires size > 0
    ensures var p := SliceAt(first, FIRST_PAGE, size);
      && p.uids == Upto(first, size)
      && p.next == if size < |first| then Some(Cursor(1, first[size - 1])) else None
  {
  }

  /** The m-th page is the last one of a list of n. */
  predicate IsLastPage(n: nat, size: nat, m: nat) {
    m > 0 && if n == 0 then m == 1 else Done(size, m - 1) < n <= Done(size, m)
  }

  /** The state of the walk when `done` UIDs of the first list are due and `pages` loads were tried. */
  ghost predicate Delivered(w: Walk, first: seq<UID>, size: nat, done: nat, pages: nat) {
    && w.delivered == Upto(first, done)
    && w.next == (if 0 < done < |first| then Some(Cursor(pages, first[done - 1])) else None)
    && (if done < |first| then w.pages == pages else IsLastPage(|first|, size, w.pages))
  }

  /**
    After any number of loads exactly the next pages of the first list have been delivered, in order, and the
    cursor is there if and only if the first list is not exhausted.
   */
  lemma {:induction false} WalkDelivers(first: seq<UID>, arrivals: seq<seq<UID>>, size: nat, k: nat, loads: nat)
    requires size > 0 && k <= |arrivals| && loads == k + 1 && NonZero(first)
    requires forall i | 0 <= i <= k :: Distinct(ListAt(first, arrivals, i))
    ensures Delivered(WalkFor(first, arrivals, size, k), first, size, Done(size, loads), loads)
    decreases k
  {
    if k == 0 {
      WalkBegins(first, arrivals, size);
    } else {
      WalkDelivers(first, arrivals, size, k - 1, k);
      WalkNext(first, arrivals, size, k, loads);
    }
  }

  lemma WalkNext(first: seq<UID>, arrivals: seq<seq<UID>>, size: nat, k: nat, loads: nat)
    requires size > 0 && 0 < k <= |arrivals| && loads == k + 1 && NonZero(first)
    requires Distinct(ListAt(first, arrivals, k))
    requires Delivered(WalkFor(first, arrivals, size, k - 1), first, size, Done(size, k), k)
    ensures Delivered(WalkFor(first, arrivals, size, k), first, size, Done(size, loads), loads)
  {
    ListKeepsFirst(first, arrivals, k);
    WalkContinues(WalkFor(first, arrivals, size, k - 1), ListAt(first, arrivals, k), first, size, Done(size, k), k);
  }

  lemma WalkBegins(first: seq<UID>, arrivals: seq<seq<UID>>, size: nat)
    requires size > 0
    ensures Delivered(WalkFor(first, arrivals, size, 0), first, size, Done(size, 1), 1)
  {
    FirstPageIs(first, size);
    assert Done(size, 1) == size && Done(size, 0) == 0;
  }

  lemma WalkContinues(w: Walk, uids: seq<UID>, first: seq<UID>, size: nat, done: nat, pages: nat)
    requires size > 0 && NonZero(first) && Distinct(uids)
    requires |first| <= |uids| && uids[|uids| - |first|..] == first
    requires pages > 0 && done == Done(size, pages) && Delivered(w, first, size, done, pages)
    ensures Done(size, pages + 1) == done + size
    ensures Delivered(Continue(w, uids, size), first, size, done + size, pages + 1)
  {
    assert Done(size, pages + 1) == done + size;
    if done < |first| {
      NextPage(uids, first, size, pages, done);
    }
  }

  lemma QuotientUnique(x: nat, d: nat, q: nat, r: nat)
    requires d > 0 && r < d && x == q * d + r
    ensures x / d == q
  {
    var p := x / d;
    assert x == p * d + x % d;
    assert (p + 1) * d == p * d + d && (q + 1) * d == q * d + d;
  }

  lemma LastPage(n: nat, size: nat, k: nat)
    requires size > 0 && IsLastPage(n, size, k)
    ensures PagesOf(n, size) == k
  {
    if n > 0 {
      QuotientUnique(n + size - 1, size, k, n - 1 - Done(size, k - 1));
    }
  }

  /**
    Following NextCursor to the end while any new mail arrives between loads delivers every UID of the first
    list exactly once and in order, in exactly max(1, ceil(n / size)) loads.
   */
  lemma WalkIsExact(first: seq<UID>, arrivals: seq<seq<UID>>, size: nat)
    requires size > 0 && NonZero(first)
    requires forall i | 0 <= i <= |arrivals| :: Distinct(ListAt(first, arrivals, i))
    requires PagesOf(|first|, size) <= |arrivals| + 1
    ensures WalkFor(first, arrivals, size, |arrivals|) == Walk(first, None, PagesOf(|first|, size))
  {
    var loads := |arrivals| + 1;
    WalkDelivers(first, arrivals, size, |arrivals|, loads);
    WalkIsOver(WalkFor(first, arrivals, size, |arrivals|), first, size, loads);
  }

  lemma WalkIsOver(w: Walk, first: seq<UID>, size: nat, loads: nat)
    requires size > 0 && loads > 0 && PagesOf(|first|, size) <= loads
    requires Delivered(w, first, size, Done(size, loads), loads)
    ensures w == Walk(first, None, PagesOf(|first|, size))
  {
    EnoughPages(|first|, size, loads);
    LastPage(|first|, size, w.pages);
  }

  lemma EnoughPages(n: nat, size: nat, k: nat)
    requires size > 0 && PagesOf(n, size) <= k
    ensures Done(size, k) >= n
  {
    if n > 0 {
      var q := PagesOf(n, size);
      assert n + size - 1 == q * size + (n + size - 1) % size;
    }
  }
}
