/**
  UID sets: how imap_client.go prints a list of UIDs as an IMAP sequence-set, how imap_adapter.go turns
  one into ranges, and how a server reads the text back (section 9 of RFC 3501).
 */
module UidSet {
  import opened Wrappers
  import opened Text
  import opened Sorting

  /** A Go uint32. */
  type UID = u: nat | u < UINT32_MODULUS

  /** `u + 1` in uint32 arithmetic. */
  function Succ(u: UID): UID {
    if u + 1 == UINT32_MODULUS then 0 else u + 1
  }

  datatype UIDRange = UIDRange(start: UID, stop: UID)

  predicate NonZero(uids: seq<UID>) {
    forall i | 0 <= i < |uids| :: uids[i] != 0
  }

  /** The ranges still to be emitted when `start`..`end` is open and `rest` has not been looked at. */
  function RangesFrom(start: UID, end: UID, rest: seq<UID>): (r: seq<UIDRange>)
    ensures r != []
    decreases |rest|
  {
    if rest == [] then [UIDRange(start, end)]
    else if rest[0] == Succ(end) then RangesFrom(start, rest[0], rest[1..])
    else [UIDRange(start, end)] + RangesFrom(rest[0], rest[0], rest[1..])
  }

  lemma RangesFromStep(start: UID, end: UID, uids: seq<UID>, i: nat)
    requires i < |uids|
    ensures RangesFrom(start, end, uids[i..]) ==
      if uids[i] == Succ(end) then RangesFrom(start, uids[i], uids[i + 1..])
      else [UIDRange(start, end)] + RangesFrom(uids[i], uids[i], uids[i + 1..])
  {
    assert uids[i..][1..] == uids[i + 1..];
  }

  function Ranges(uids: seq<UID>): (r: seq<UIDRange>) {
    if uids == [] then [] else RangesFrom(uids[0], uids[0], uids[1..])
  }

  function RenderRange(r: UIDRange): string {
    if r.start == r.stop then Decimal(r.start) else Decimal(r.start) + ":" + Decimal(r.stop)
  }

  function RenderAll(rs: seq<UIDRange>): (parts: seq<string>)
    ensures |parts| == |rs|
    ensures forall i | 0 <= i < |rs| :: parts[i] == RenderRange(rs[i])
  {
    if rs == [] then [] else [RenderRange(rs[0])] + RenderAll(rs[1..])
  }

  lemma RenderAllAppend(rs: seq<UIDRange>, r: UIDRange)
    ensures RenderAll(rs + [r]) == RenderAll(rs) + [RenderRange(r)]
  {
  }

  // ---- The server's reading of a sequence-set, without "*" ----

  function Span(lo: nat, hi: nat): (s: seq<nat>)
    ensures lo <= hi ==> |s| == hi - lo + 1
    ensures forall i | 0 <= i < |s| :: s[i] == lo + i
  {
    if hi < lo then [] else seq(hi - lo + 1, i requires i >= 0 => lo + i)
  }

  /** nz-number: no leading zero, at most 32 bits. */
  function ReadNzNumber(s: string): (r: Option<nat>)
    ensures r.Some? ==> 0 < r.value < UINT32_MODULUS
  {
    if s != "" && s[0] != '0' && AllDigits(s) && 0 < DigitsValue(s) < UINT32_MODULUS
    then Some(DigitsValue(s)) else None
  }

  /** So a number has only one way to be written. */
  lemma ReadIsDecimal(s: string)
    ensures match ReadNzNumber(s) case None => true case Some(n) => Decimal(n) == s
  {
    if ReadNzNumber(s).Some? { DecimalOf(s); }
  }

  lemma {:induction false} DecimalOf(s: string)
    requires s != "" && s[0] != '0' && AllDigits(s)
    ensures DigitsValue(s) > 0 && Decimal(DigitsValue(s)) == s
  {
    var front, last := s[..|s| - 1], s[|s| - 1];
    assert s == front + [last];
    if front == "" {
      assert DigitsValue(s) == last as int - '0' as int;
    } else {
      DecimalOf(front);
      var v, d := DigitsValue(front), last as int - '0' as int;
      assert DigitsValue(s) / 10 == v && DigitsValue(s) % 10 == d;
    }
  }

  /** seq-number or seq-range; "2:4" and "4:2" are the same range. */
  function ReadPart(s: string): (r: Option<seq<nat>>)
    ensures r.Some? ==> r.value != [] && forall i | 0 <= i < |r.value| :: r.value[i] != 0
  {
    var ends := Split(s, ":");
    if |ends| == 1 then
      match ReadNzNumber(ends[0])
      case None => None
      case Some(a) => Some([a])
    else if |ends| == 2 then
      match (ReadNzNumber(ends[0]), ReadNzNumber(ends[1]))
      case (Some(a), Some(b)) => Some(if a <= b then Span(a, b) else Span(b, a))
      case _ => None
    else None
  }

  /** A part is one number, or two with one colon between them, as they are printed. */
  lemma ReadPartExactly(s: string)
    ensures match ReadPart(s)
      case None => true
      case Some(uids) =>
        || (|uids| == 1 && s == Decimal(uids[0]))
        || (s == Decimal(uids[0]) + ":" + Decimal(uids[|uids| - 1]))
        || (s == Decimal(uids[|uids| - 1]) + ":" + Decimal(uids[0]))
  {
    var ends := Split(s, ":");
    JoinOfSplit(s, ":");
    ReadIsDecimal(ends[0]);
    if |ends| == 2 {
      ReadIsDecimal(ends[1]);
      assert ends == [ends[0]] + [ends[1]];
      JoinCons(ends[0], [ends[1]], ":");
    }
  }

  function ReadParts(parts: seq<string>): (r: Option<seq<nat>>)
    ensures r.Some? ==> forall i | 0 <= i < |r.value| :: r.value[i] != 0
    ensures r.Some? && parts != [] ==> r.value != []
  {
    if parts == [] then Some([])
    else match (ReadPart(parts[0]), ReadParts(parts[1..]))
      case (Some(a), Some(b)) => Some(a + b)
      case _ => None
  }

  function ReadSequenceSet(s: string): (r: Option<seq<nat>>)
    ensures r.Some? ==> r.value != [] && forall i | 0 <= i < |r.value| :: r.value[i] != 0
  {
    ReadParts(Split(s, ","))
  }

  // ---- Printing ----

  /** imap_client.go, buildUIDSet. */
  method BuildUIDSet(uids: seq<UID>) returns (text: string)
    ensures text == Join(RenderAll(Ranges(uids)), ",")
    ensures ReadSequenceSet(text) == Some(uids) <==> uids != [] && NonZero(uids)
  {
    text := PrintUIDs(uids);
    ReadsBackExactly(uids);
  }

  method PrintUIDs(uids: seq<UID>) returns (text: string)
    ensures text == Join(RenderAll(Ranges(uids)), ",")
  {
    if |uids| == 0 {
      return "";
    }
    if |uids| == 1 {
      OneNumber(uids[0]);
      assert uids == [uids[0]];
      return Decimal(uids[0]);
    }
    var sets := PrintSets(uids);
    text := Join(sets, ",");
  }

  lemma OneNumber(u: UID)
    ensures Join(RenderAll(Ranges([u])), ",") == Decimal(u)
  {
    RenderAllCons(UIDRange(u, u), []);
  }

  method PrintSets(uids: seq<UID>) returns (sets: seq<string>)
    requires uids != []
    ensures sets == RenderAll(Ranges(uids))
  {
    sets := [];
    ghost var emitted: seq<UIDRange> := [];
    var start := uids[0];
    var end := uids[0];
    for i := 1 to |uids|
      invariant sets == RenderAll(emitted)
      invariant emitted + RangesFrom(start, end, uids[i..]) == Ranges(uids)
    {
      RangesFromStep(start, end, uids, i);
      if uids[i] == Succ(end) {
        end := uids[i];
      } else {
        sets := AppendSet(sets, emitted, start, end);
        emitted := emitted + [UIDRange(start, end)];
        start := uids[i];
        end := uids[i];
      }
    }
    sets := AppendSet(sets, emitted, start, end);
  }

  /** One UID as a number, several as a range. */
  method AppendSet(sets: seq<string>, ghost emitted: seq<UIDRange>, start: UID, end: UID) returns (more: seq<string>)
    requires sets == RenderAll(emitted)
    ensures more == RenderAll(emitted + [UIDRange(start, end)])
  {
    RenderAllAppend(emitted, UIDRange(start, end));
    if start == end {
      more := sets + [Decimal(start)];
    } else {
      more := sets + [Decimal(start) + ":" + Decimal(end)];
    }
  }

  /** imap_adapter.go, FetchMessages: the same consolidation, into ranges instead of text. */
  method BuildUIDRanges(sortedUIDs: seq<UID>) returns (uidSet: seq<UIDRange>)
    ensures uidSet == Ranges(sortedUIDs)
  {
    uidSet := [];
    if |sortedUIDs| > 0 {
      var start := sortedUIDs[0];
      var end := sortedUIDs[0];
      for i := 1 to |sortedUIDs|
        invariant uidSet + RangesFrom(start, end, sortedUIDs[i..]) == Ranges(sortedUIDs)
      {
        RangesFromStep(start, end, sortedUIDs, i);
        if sortedUIDs[i] == Succ(end) {
          end := sortedUIDs[i];
        } else {
          uidSet := uidSet + [UIDRange(start, end)];
          start := sortedUIDs[i];
          end := sortedUIDs[i];
        }
      }
      uidSet := uidSet + [UIDRange(start, end)];
    }
  }

  // ---- Round trip ----

  lemma NumberReadsBack(u: UID)
    requires u != 0
    ensures ReadNzNumber(Decimal(u)) == Some(u)
    ensures ':' !in Decimal(u) && ',' !in Decimal(u)
  {
    DecimalReadsBack(u);
  }

  lemma NumberHasNoSeparators(u: UID)
    ensures ':' !in Decimal(u) && ',' !in Decimal(u)
  {
    DecimalReadsBack(u);
  }

  lemma RangeReadsBack(r: UIDRange)
    requires 0 < r.start <= r.stop
    ensures ReadPart(RenderRange(r)) == Some(Span(r.start, r.stop))
  {
    NumberReadsBack(r.start);
    NumberReadsBack(r.stop);
    if r.start == r.stop {
      SplitWithout(Decimal(r.start), ':');
      assert Span(r.start, r.start) == [r.start];
    } else {
      var ends := [Decimal(r.start), Decimal(r.stop)];
      assert ends[1..] == [Decimal(r.stop)];
      assert Join(ends, ":") == RenderRange(r);
      SplitOfJoin(ends, ':');
    }
  }

  lemma RenderHasNoComma(r: UIDRange)
    ensures ',' !in RenderRange(r)
  {
    NumberHasNoSeparators(r.start);
    NumberHasNoSeparators(r.stop);
  }

  lemma RenderAllCons(r: UIDRange, rs: seq<UIDRange>)
    ensures RenderAll([r] + rs) == [RenderRange(r)] + RenderAll(rs)
    ensures RenderAll([r] + rs)[1..] == RenderAll(rs)
  {
    assert ([r] + rs)[1..] == rs;
  }

  ghost predicate ReadsAs(rs: seq<UIDRange>, uids: seq<nat>) {
    ReadParts(RenderAll(rs)) == Some(uids)
  }

  lemma ReadsAsCons(r: UIDRange, rs: seq<UIDRange>, uids: seq<nat>)
    requires 0 < r.start <= r.stop && ReadsAs(rs, uids)
    ensures ReadsAs([r] + rs, Span(r.start, r.stop) + uids)
  {
    RangeReadsBack(r);
    RenderAllCons(r, rs);
  }

  /** The ranges of a zero-free list, expanded in order, are the list: the wrap at 2^32 - 1 never joins two. */
  lemma {:induction false} RangesReadBack(start: UID, end: UID, rest: seq<UID>)
    requires 0 < start <= end && NonZero(rest)
    ensures ReadsAs(RangesFrom(start, end, rest), Span(start, end) + rest)
    decreases |rest|
  {
    if rest == [] {
      assert ReadsAs([], []);
      ReadsAsCons(UIDRange(start, end), [], []);
      assert [UIDRange(start, end)] + [] == [UIDRange(start, end)];
    } else if rest[0] == Succ(end) {
      RangesReadBack(start, rest[0], rest[1..]);
      assert Span(start, end + 1) + rest[1..] == Span(start, end) + rest;
    } else {
      RangesReadBack(rest[0], rest[0], rest[1..]);
      assert Span(rest[0], rest[0]) + rest[1..] == rest;
      ReadsAsCons(UIDRange(start, end), RangesFrom(rest[0], rest[0], rest[1..]), rest);
    }
  }

  /** The text names exactly the input list, in order, if and only if the list is nonempty and free of zeros. */
  lemma ReadsBackExactly(uids: seq<UID>)
    ensures ReadSequenceSet(Join(RenderAll(Ranges(uids)), ",")) == Some(uids) <==> uids != [] && NonZero(uids)
  {
    if uids != [] && NonZero(uids) {
      var parts := RenderAll(Ranges(uids));
      forall i | 0 <= i < |parts| ensures ',' !in parts[i] {
        RenderHasNoComma(Ranges(uids)[i]);
      }
      SplitOfJoin(parts, ',');
      RangesReadBack(uids[0], uids[0], uids[1..]);
      assert Span(uids[0], uids[0]) + uids[1..] == uids;
    }
  }

  // ---- Minimality ----

  predicate Covers(r: UIDRange, u: nat) {
    r.start <= u <= r.stop
  }

  ghost predicate Denotes(rs: seq<UIDRange>, uids: seq<UID>) {
    forall u: nat :: u in uids <==> InSomeRange(rs, u)
  }

  /** Each range is an interval of the list, and one number at least is missing before the next range. */
  ghost predicate Separated(rs: seq<UIDRange>) {
    && (forall i | 0 <= i < |rs| :: 0 < rs[i].start <= rs[i].stop)
    && (forall i, j | 0 <= i < j < |rs| :: rs[i].stop + 1 < rs[j].start)
  }

  ghost predicate InSomeRange(rs: seq<UIDRange>, u: nat) {
    exists i :: 0 <= i < |rs| && Covers(rs[i], u)
  }

  lemma InSomeRangeCons(r: UIDRange, rs: seq<UIDRange>, u: nat)
    ensures InSomeRange([r] + rs, u) <==> Covers(r, u) || InSomeRange(rs, u)
  {
    var all := [r] + rs;
    if Covers(r, u) { assert Covers(all[0], u); }
    if InSomeRange(rs, u) {
      var i :| 0 <= i < |rs| && Covers(rs[i], u);
      assert Covers(all[i + 1], u);
    }
    if InSomeRange(all, u) && !Covers(r, u) {
      var i :| 0 <= i < |all| && Covers(all[i], u);
      assert Covers(rs[i - 1], u);
    }
  }

  lemma {:induction false} RangesFromDenote(start: UID, end: UID, rest: seq<UID>, u: nat)
    requires start <= end && Ascending(rest) && (rest != [] ==> end < rest[0])
    ensures InSomeRange(RangesFrom(start, end, rest), u) <==> start <= u <= end || u in rest
    decreases |rest|
  {
    InSomeRangeCons(UIDRange(start, end), [], u);
    assert [UIDRange(start, end)] + [] == [UIDRange(start, end)];
    if rest != [] {
      assert rest == [rest[0]] + rest[1..];
      if rest[0] == Succ(end) {
        RangesFromDenote(start, rest[0], rest[1..], u);
      } else {
        RangesFromDenote(rest[0], rest[0], rest[1..], u);
        InSomeRangeCons(UIDRange(start, end), RangesFrom(rest[0], rest[0], rest[1..]), u);
      }
    }
  }

  lemma SeparatedCons(r: UIDRange, rs: seq<UIDRange>)
    requires Separated(rs) && rs != [] && 0 < r.start <= r.stop && r.stop + 1 < rs[0].start
    ensures Separated([r] + rs)
  {
    var all := [r] + rs;
    forall i, j | 0 <= i < j < |all| ensures all[i].stop + 1 < all[j].start {
      assert all[j] == rs[j - 1];
      if i == 0 && j > 1 { assert rs[0].stop + 1 < rs[j - 1].start; }
    }
  }

  lemma {:induction false} RangesFromSeparated(start: UID, end: UID, rest: seq<UID>)
    requires 0 < start <= end && Ascending(rest) && (rest != [] ==> end < rest[0])
    ensures Separated(RangesFrom(start, end, rest)) && RangesFrom(start, end, rest)[0].start == start
    decreases |rest|
  {
    if rest != [] {
      if rest[0] == Succ(end) {
        RangesFromSeparated(start, rest[0], rest[1..]);
      } else {
        RangesFromSeparated(rest[0], rest[0], rest[1..]);
        SeparatedCons(UIDRange(start, end), RangesFrom(rest[0], rest[0], rest[1..]));
      }
    }
  }

  /** On sorted distinct input the ranges denote exactly the list and are disjoint and non-adjacent. */
  lemma SortedRangesDenote(uids: seq<UID>)
    requires Ascending(uids) && NonZero(uids)
    ensures Denotes(Ranges(uids), uids) && Separated(Ranges(uids))
  {
    if uids != [] {
      assert uids == [uids[0]] + uids[1..];
      RangesFromSeparated(uids[0], uids[0], uids[1..]);
      forall u: nat ensures u in uids <==> InSomeRange(Ranges(uids), u) {
        RangesFromDenote(uids[0], uids[0], uids[1..], u);
      }
    }
  }

  lemma GapMissing(rs: seq<UIDRange>, uids: seq<UID>, i: nat)
    requires Separated(rs) && Denotes(rs, uids) && i < |rs|
    ensures rs[i].stop + 1 !in uids
  {
    var gap := rs[i].stop + 1;
    forall m | 0 <= m < |rs| ensures !Covers(rs[m], gap) {
      if m < i { assert rs[m].stop + 1 < rs[i].start; }
    }
  }

  /** Two separated ranges cannot be covered by one range of a set that denotes the same list. */
  lemma StartsNeedOwnRange(rs: seq<UIDRange>, other: seq<UIDRange>, uids: seq<UID>, i: nat, j: nat, k: nat)
    requires Separated(rs) && Denotes(rs, uids) && Denotes(other, uids)
    requires i < j < |rs| && k < |other| && Covers(other[k], rs[i].start)
    ensures !Covers(other[k], rs[j].start)
  {
    GapMissing(rs, uids, i);
    assert !Covers(other[k], rs[i].stop + 1);
  }

  /** The index of the range of `other` that covers the start of range `i`. */
  ghost function Cover(rs: seq<UIDRange>, other: seq<UIDRange>, uids: seq<UID>, i: nat): (k: nat)
    requires Separated(rs) && Denotes(rs, uids) && Denotes(other, uids) && i < |rs|
    ensures k < |other| && Covers(other[k], rs[i].start)
  {
    assert Covers(rs[i], rs[i].start);
    assert rs[i].start in uids;
    var k :| 0 <= k < |other| && Covers(other[k], rs[i].start);
    k
  }

  lemma CoverInjective(rs: seq<UIDRange>, other: seq<UIDRange>, uids: seq<UID>, i: nat, j: nat)
    requires Separated(rs) && Denotes(rs, uids) && Denotes(other, uids) && i < j < |rs|
    ensures Cover(rs, other, uids, i) != Cover(rs, other, uids, j)
  {
    StartsNeedOwnRange(rs, other, uids, i, j, Cover(rs, other, uids, i));
  }

  lemma {:induction false} CoversAreMany(rs: seq<UIDRange>, other: seq<UIDRange>, uids: seq<UID>, n: nat)
    returns (c: set<nat>)
    requires Separated(rs) && Denotes(rs, uids) && Denotes(other, uids) && n <= |rs|
    ensures c == set i: nat | i < n :: Cover(rs, other, uids, i)
    ensures |c| == n
  {
    if n == 0 {
      c := {};
    } else {
      var before := CoversAreMany(rs, other, uids, n - 1);
      forall i: nat | i < n - 1 ensures Cover(rs, other, uids, i) != Cover(rs, other, uids, n - 1) {
        CoverInjective(rs, other, uids, i, n - 1);
      }
      c := before + {Cover(rs, other, uids, n - 1)};
    }
  }

  lemma {:induction false} BoundedSet(c: set<nat>, n: nat)
    requires forall k | k in c :: k < n
    ensures |c| <= n
  {
    if n > 0 {
      BoundedSet(c - {n - 1}, n - 1);
    } else {
      assert c == {};
    }
  }

  /** No set of ranges that denotes the list has fewer ranges than the one that is built. */
  lemma RangesAreFewest(uids: seq<UID>, other: seq<UIDRange>)
    requires Ascending(uids) && NonZero(uids)
    requires Denotes(other, uids)
    ensures |Ranges(uids)| <= |other|
  {
    SortedRangesDenote(uids);
    var c := CoversAreMany(Ranges(uids), other, uids, |Ranges(uids)|);
    BoundedSet(c, |other|);
  }
}
