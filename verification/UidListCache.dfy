/**
  The cached UID list of a folder: message_service_util.go (validity and CONDSTORE delta merge) and the UID
  part of GetMessageList in message_service_message.go.
 */
module UidListCache {
  import opened Wrappers
  import opened Sorting
  import opened UidSet

  /** Ten minutes, in nanoseconds. */
  const TTL_UID_LIST := 600_000_000_000
  const SORT_BY_DATE := "date"

  datatype SortOrder = Asc | Desc

  /** UIDListWithMetadata, without the fields nothing here reads. */
  datatype UIDList = UIDList(
    uids: seq<UID>, count: nat, highestModSeq: nat, cachedAt: int,
    sortField: string, sortOrder: SortOrder, alreadySorted: bool)

  datatype Verdict = Reload | UseAsIs | NeedsIncremental

  /** isCacheValid. */
  function Validity(cached: Option<UIDList>, modSeq: nat, count: nat, now: int, field: string, order: SortOrder):
    Verdict
  {
    if cached.None? then Reload
    else
      var c := cached.value;
      if c.sortField != field || c.sortOrder != order then Reload
      else if now - c.cachedAt > TTL_UID_LIST then Reload
      else if c.count > 0 && c.count - count > c.count / 10 && count < c.count then Reload
      else if modSeq > c.highestModSeq then NeedsIncremental
      else if modSeq == 0 && count != c.count then Reload
      else UseAsIs
  }

  /** The UIDs of `changed` that are not in `existing`, in order. */
  function Unknown(changed: seq<UID>, existing: seq<UID>): (added: seq<UID>) {
    if changed == [] then []
    else
      var rest := Unknown(changed[..|changed| - 1], existing);
      var last := changed[|changed| - 1];
      if last in existing then rest else rest + [last]
  }

  function Merge(existing: seq<UID>, changed: seq<UID>, order: SortOrder): (merged: seq<UID>) {
    var added := Unknown(changed, existing);
    if order == Desc then Reverse(added) + existing else existing + added
  }

  /** The list as shown: a raw ascending list is reversed for descending order. */
  function Display(uids: seq<UID>, alreadySorted: bool, order: SortOrder): seq<UID> {
    if !alreadySorted && order == Desc then Reverse(uids) else uids
  }

  /**
    What a request shows and writes back: the cached list as it is; with new changes and CONDSTORE, the delta
    merged into it; after no or a failed delta, a reload; nothing when that fails too.
   */
  function Loaded(cached: Option<UIDList>, modSeq: nat, count: nat, now: int, field: string, order: SortOrder,
                  condStore: bool, changed: Option<seq<UID>>, reload: Option<(seq<UID>, bool)>):
    (Option<seq<UID>>, Option<UIDList>)
  {
    var verdict := Validity(cached, modSeq, count, now, field, order);
    var delta := verdict.NeedsIncremental? && condStore;
    if !verdict.Reload? && !delta then
      (Some(Display(cached.value.uids, cached.value.alreadySorted, order)), None)
    else if delta && changed.Some? then
      var merged := Merge(cached.value.uids, changed.value, order);
      (Some(Display(merged, cached.value.alreadySorted, order)),
       Some(UIDList(merged, |merged|, modSeq, now, field, order, cached.value.alreadySorted)))
    else if reload.Some? then
      (Some(Display(reload.value.0, reload.value.1, order)),
       Some(UIDList(reload.value.0, |reload.value.0|, modSeq, now, field, order, reload.value.1)))
    else (None, None)
  }

  // ---- The two loops of the source ----

  method ReverseInPlace(uids: seq<UID>) returns (r: seq<UID>)
    ensures r == Reverse(uids)
  {
    r := uids;
    var i, j := 0, |uids| - 1;
    while i < j
      invariant 0 <= i <= |uids| && j == |uids| - 1 - i && i <= j + 1 && |r| == |uids|
      invariant forall k | 0 <= k < i :: r[k] == uids[|uids| - 1 - k]
      invariant forall k | j < k < |uids| :: r[k] == uids[|uids| - 1 - k]
      invariant forall k | i <= k <= j :: r[k] == uids[k]
    {
      r := r[i := r[j]][j := r[i]];
      i, j := i + 1, j - 1;
    }
  }

  /** fetchIncrementalUpdates; `changed` is the answer of SearchChangedSince, None when it fails. */
  method FetchIncrementalUpdates(changed: Option<seq<UID>>, existing: seq<UID>, order: SortOrder)
    returns (merged: Option<seq<UID>>)
    ensures merged == if changed.None? then None else Some(Merge(existing, changed.value, order))
  {
    if changed.None? {
      return None;
    }
    var newUIDs := changed.value;
    if |newUIDs| == 0 {
      MergeNothing(existing, newUIDs, order);
      return Some(existing);
    }
    var known: set<UID> := {};
    for i := 0 to |existing|
      invariant forall u :: u in known <==> u in existing[..i]
    {
      known := known + {existing[i]};
      assert existing[..i + 1] == existing[..i] + [existing[i]];
    }
    assert existing[..|existing|] == existing;
    var added: seq<UID> := [];
    for i := 0 to |newUIDs|
      invariant added == Unknown(newUIDs[..i], existing)
    {
      assert newUIDs[..i + 1][..i] == newUIDs[..i];
      if newUIDs[i] !in known {
        added := added + [newUIDs[i]];
      }
    }
    assert newUIDs[..|newUIDs|] == newUIDs;
    if |added| == 0 {
      MergeNothing(existing, newUIDs, order);
      return Some(existing);
    }
    if order == Desc {
      var reversed := ReverseInPlace(added);
      merged := Some(reversed + existing);
    } else {
      merged := Some(existing + added);
    }
  }

  /** The final ordering of GetMessageList. */
  method PrepareUIDs(allUIDs: seq<UID>, alreadySorted: bool, order: SortOrder) returns (uids: seq<UID>)
    ensures uids == Display(allUIDs, alreadySorted, order)
  {
    if alreadySorted {
      uids := allUIDs;
    } else if order == Desc {
      uids := [];
      var i := |allUIDs| - 1;
      while i >= 0
        invariant -1 <= i < |allUIDs| && |uids| == |allUIDs| - 1 - i
        invariant forall k | 0 <= k < |uids| :: uids[k] == allUIDs[|allUIDs| - 1 - k]
      {
        uids := uids + [allUIDs[i]];
        i := i - 1;
      }
    } else {
      uids := allUIDs;
    }
  }

  /**
    The UID part of GetMessageList for one request. `changed` is the server's answer to the MODSEQ search and
    `reload` the result of the reload strategy with its alreadySorted flag; None when the command fails.
    `stored` is what is written back to the cache.
   */
  method LoadUIDs(cached: Option<UIDList>, modSeq: nat, count: nat, now: int, field: string, order: SortOrder,
                  condStore: bool, changed: Option<seq<UID>>, reload: Option<(seq<UID>, bool)>)
    returns (shown: Option<seq<UID>>, stored: Option<UIDList>)
    ensures (shown, stored) == Loaded(cached, modSeq, count, now, field, order, condStore, changed, reload)
  {
    var verdict := Validity(cached, modSeq, count, now, field, order);
    stored := None;
    if !verdict.Reload? {
      var c := cached.value;
      if verdict.NeedsIncremental? && condStore {
        var merged := FetchIncrementalUpdates(changed, c.uids, order);
        if merged.Some? {
          stored := Some(UIDList(merged.value, |merged.value|, modSeq, now, field, order, c.alreadySorted));
          var uids := PrepareUIDs(merged.value, c.alreadySorted, order);
          return Some(uids), stored;
        }
      } else {
        var uids := PrepareUIDs(c.uids, c.alreadySorted, order);
        return Some(uids), None;
      }
    }
    if reload.None? {
      return None, None;
    }
    var (allUIDs, alreadySorted) := reload.value;
    stored := Some(UIDList(allUIDs, |allUIDs|, modSeq, now, field, order, alreadySorted));
    var uids := PrepareUIDs(allUIDs, alreadySorted, order);
    shown := Some(uids);
  }

  lemma MergeNothing(existing: seq<UID>, changed: seq<UID>, order: SortOrder)
    requires Unknown(changed, existing) == []
    ensures Merge(existing, changed, order) == existing
  {
    assert Reverse<UID>([]) == [];
  }

  // ---- When the cache is used ----

  /** The cached list was made for this sort at most ten minutes ago, and the folder has not lost a tenth since. */
  predicate IsUsable(c: UIDList, count: nat, now: int, field: string, order: SortOrder) {
    c.sortField == field && c.sortOrder == order && now <= c.cachedAt + 600_000_000_000 &&
    (c.count <= count || c.count - count <= c.count / 10)
  }

  /**
    Nothing is asked of the server exactly when such a list is there and nothing is known to have changed: without
    CONDSTORE nothing can be, with a mod-sequence of 0 the folder still has the cached number of messages, and with
    any other the mod-sequence is the cached one or an older one. It is then shown in display order.
   */
  lemma ShownFromCacheExactly(cached: Option<UIDList>, modSeq: nat, count: nat, now: int, field: string,
                              order: SortOrder, condStore: bool, changed: Option<seq<UID>>,
                              reload: Option<(seq<UID>, bool)>)
    ensures var (shown, stored) := Loaded(cached, modSeq, count, now, field, order, condStore, changed, reload);
      && (shown.Some? && stored.None? <==>
            && cached.Some? && IsUsable(cached.value, count, now, field, order)
            && (modSeq <= cached.value.highestModSeq || !condStore)
            && (modSeq == 0 ==> cached.value.count == count))
      && (shown.Some? && stored.None? ==>
            shown.value == if cached.value.alreadySorted || order == Asc then cached.value.uids
                           else Reverse(cached.value.uids))
  {
  }

  /**
    The delta is merged exactly when such a list is there, the mod-sequence has advanced, and the server knows
    CONDSTORE and answers; in all other cases the reload decides, and nothing is shown only if it fails.
   */
  lemma MergedExactly(cached: Option<UIDList>, modSeq: nat, count: nat, now: int, field: string, order: SortOrder,
                      condStore: bool, changed: Option<seq<UID>>, reload: Option<(seq<UID>, bool)>)
    ensures var (shown, stored) := Loaded(cached, modSeq, count, now, field, order, condStore, changed, reload);
      var delta := cached.Some? && IsUsable(cached.value, count, now, field, order)
                   && modSeq > cached.value.highestModSeq && condStore && changed.Some?;
      && (delta ==> stored.Some? && stored.value.uids == Merge(cached.value.uids, changed.value, order)
                    && stored.value.alreadySorted == cached.value.alreadySorted)
      && (!delta && stored.Some? ==> reload == Some((stored.value.uids, stored.value.alreadySorted)))
      && (shown.None? ==> !delta && reload.None?)
      && (shown.None? ==> stored.None?)
  {
  }

  /** A stored list serves the next request for the same sort within ten minutes, if nothing has changed. */
  lemma StoredIsShownAgain(cached: Option<UIDList>, modSeq: nat, count: nat, now: int, field: string, order: SortOrder,
                           condStore: bool, changed: Option<seq<UID>>, reload: Option<(seq<UID>, bool)>, later: int,
                           changed': Option<seq<UID>>, reload': Option<(seq<UID>, bool)>)
    requires now <= later <= now + 600_000_000_000
    ensures var (shown, stored) := Loaded(cached, modSeq, count, now, field, order, condStore, changed, reload);
      stored.Some? ==>
        && Loaded(stored, modSeq, |shown.value|, later, field, order, condStore, changed', reload') == (shown, None)
        && stored.value.cachedAt == now && stored.value.count == |shown.value|
  {
  }

  // ---- The merge: membership and order ----

  ghost predicate InOrder(uids: seq<UID>, order: SortOrder) {
    if order == Desc then Descending(uids) else Ascending(uids)
  }

  lemma {:induction false} UnknownMembers(changed: seq<UID>, existing: seq<UID>, u: UID)
    ensures u in Unknown(changed, existing) <==> u in changed && u !in existing
  {
    if changed != [] {
      assert changed == changed[..|changed| - 1] + [changed[|changed| - 1]];
      UnknownMembers(changed[..|changed| - 1], existing, u);
    }
  }

  lemma {:induction false} UnknownAscending(changed: seq<UID>, existing: seq<UID>)
    requires Ascending(changed)
    ensures Ascending(Unknown(changed, existing))
  {
    if changed != [] {
      var front, last := changed[..|changed| - 1], changed[|changed| - 1];
      UnknownAscending(front, existing);
      var rest := Unknown(front, existing);
      forall i | 0 <= i < |rest| ensures rest[i] < last {
        UnknownMembers(front, existing, rest[i]);
        assert rest[i] in front;
      }
    }
  }

  lemma MergeMembers(existing: seq<UID>, changed: seq<UID>, order: SortOrder, u: UID)
    ensures u in Merge(existing, changed, order) <==> u in existing || u in changed
  {
    UnknownMembers(changed, existing, u);
  }

  lemma MergeDistinct(existing: seq<UID>, changed: seq<UID>, order: SortOrder)
    requires Distinct(existing) && Ascending(changed)
    ensures Distinct(Merge(existing, changed, order))
  {
    var added := Unknown(changed, existing);
    UnknownAscending(changed, existing);
    ReverseOfAscending(added);
    forall u: UID ensures u in added ==> u !in existing {
      UnknownMembers(changed, existing, u);
    }
    if order == Desc {
      DistinctConcat(Reverse(added), existing);
    } else {
      DistinctConcat(existing, added);
    }
  }

  ghost predicate AllBelow(a: seq<UID>, b: seq<UID>) {
    forall i, j | 0 <= i < |a| && 0 <= j < |b| :: a[i] < b[j]
  }

  lemma AscendingAppend(a: seq<UID>, b: seq<UID>)
    requires Ascending(a) && Ascending(b)
    ensures Ascending(a + b) <==> AllBelow(a, b)
  {
    if Ascending(a + b) {
      forall i, j | 0 <= i < |a| && 0 <= j < |b| ensures a[i] < b[j] {
        assert (a + b)[i] < (a + b)[|a| + j];
      }
    }
  }

  lemma DescendingAppend(b: seq<UID>, a: seq<UID>)
    requires Descending(a) && Descending(b)
    ensures Descending(b + a) <==> AllBelow(a, b)
  {
    if Descending(b + a) {
      forall i, j | 0 <= i < |a| && 0 <= j < |b| ensures a[i] < b[j] {
        assert (b + a)[j] > (b + a)[|b| + i];
      }
    }
  }

  lemma AllBelowReverse(a: seq<UID>, b: seq<UID>)
    ensures AllBelow(a, Reverse(b)) <==> AllBelow(a, b)
  {
    var r := Reverse(b);
    if AllBelow(a, r) {
      forall i, j | 0 <= i < |a| && 0 <= j < |b| ensures a[i] < b[j] {
        assert b[j] == r[|b| - 1 - j];
      }
    }
  }

  /**
    A list kept in display order, or an ascending one, stays in display order under the delta merge if and only
    if every UID added is newer than the whole list. So a flag change on a message outside a windowed list
    (folders of SORT_THRESHOLD messages and more) puts that old message in front of the new ones.
   */
  lemma MergeKeepsOrderExactly(existing: seq<UID>, changed: seq<UID>, alreadySorted: bool, order: SortOrder)
    requires alreadySorted || order == Asc
    requires InOrder(existing, order) && Ascending(changed)
    ensures InOrder(Display(Merge(existing, changed, order), alreadySorted, order), order) <==>
      AllBelow(existing, Unknown(changed, existing))
  {
    var added := Unknown(changed, existing);
    UnknownAscending(changed, existing);
    if order == Desc {
      ReverseOfAscending(added);
      DescendingAppend(Reverse(added), existing);
      AllBelowReverse(existing, added);
    } else {
      AscendingAppend(existing, added);
    }
  }

  /**
    A raw ascending list shown in descending order (no server SORT, or a failed one) survives a merge of newer
    UIDs only when nothing is added, or one UID to an empty list: the new UIDs are put in front although the
    list is reversed later.
   */
  lemma RawDescendingMergeExactly(existing: seq<UID>, changed: seq<UID>)
    requires Ascending(existing) && Ascending(changed)
    requires AllBelow(existing, Unknown(changed, existing))
    ensures var added := Unknown(changed, existing);
      InOrder(Display(Merge(existing, changed, Desc), false, Desc), Desc) <==>
      added == [] || (existing == [] && |added| == 1)
  {
    var added := Unknown(changed, existing);
    UnknownAscending(changed, existing);
    if added == [] {
      MergeNothing(existing, changed, Desc);
      ReverseOfAscending(existing);
    } else if existing == [] {
      RawFromEmpty(added);
    } else {
      RawEndsOutOfOrder(existing, added);
    }
  }

  lemma RawFromEmpty(added: seq<UID>)
    requires Ascending(added) && added != []
    ensures Descending(Reverse(Reverse(added) + [])) <==> |added| == 1
  {
    assert Reverse(added) + [] == Reverse(added);
    ReverseTwice(added);
    if |added| > 1 { assert added[0] < added[1]; }
  }

  lemma RawEndsOutOfOrder(existing: seq<UID>, added: seq<UID>)
    requires existing != [] && added != [] && AllBelow(existing, added)
    ensures !Descending(Reverse(Reverse(added) + existing))
  {
    var merged := Reverse(added) + existing;
    var n := |merged|;
    assert Reverse(merged)[n - 1] == merged[0] == added[|added| - 1];
    assert Reverse(merged)[0] == merged[n - 1] == existing[|existing| - 1];
  }

  lemma RawDescendingExample()
    ensures Display(Merge([1, 2, 3], [4, 5], Desc), false, Desc) == [3, 2, 1, 4, 5]
  {
    assert Unknown([4, 5], [1, 2, 3]) == [4, 5] by {
      assert [4, 5][..1] == [4];
      assert Unknown([4], [1, 2, 3]) == [4];
    }
    assert Reverse<UID>([4, 5]) == [5, 4];
    assert Merge([1, 2, 3], [4, 5], Desc) == [5, 4, 1, 2, 3];
  }
}
