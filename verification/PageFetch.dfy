/**
  Fetching the envelopes of one page: message_service_message.go sends the page in batches of sorted UIDs,
  stores whatever comes back in a map, and reads the map in page order.
 */
module PageFetch {
  import opened Wrappers
  import opened Sorting
  import opened UidSet

  const MAX_UIDS_PER_FETCH := 100

  /** A message envelope; everything but the UID is one value. */
  datatype Envelope = Envelope(uid: UID, header: string)

  /** What the server returns to the n-th FETCH for a set of ranges; None when the command fails. */
  type Server = (nat, seq<UIDRange>) -> Option<seq<Envelope>>

  function SortUIDs(uids: seq<UID>): (r: seq<UID>) {
    SortBy((a: UID, b: UID) => a < b, uids)
  }

  /** The k-th batch of the page. */
  function Batch(page: seq<UID>, k: nat): (b: seq<UID>) {
    var from := k * MAX_UIDS_PER_FETCH;
    if from >= |page| then []
    else if from + MAX_UIDS_PER_FETCH > |page| then page[from..]
    else page[from..from + MAX_UIDS_PER_FETCH]
  }

  /** What the server answers to the k-th batch. */
  function Answer(page: seq<UID>, server: Server, k: nat): Option<seq<Envelope>> {
    server(k, Ranges(SortUIDs(Batch(page, k))))
  }

  function Store(table: map<UID, Envelope>, es: seq<Envelope>): (t: map<UID, Envelope>) {
    if es == [] then table else Store(table, es[..|es| - 1])[es[|es| - 1].uid := es[|es| - 1]]
  }

  /** A failed batch is skipped. */
  function AfterBatch(table: map<UID, Envelope>, answer: Option<seq<Envelope>>): map<UID, Envelope> {
    match answer
    case None => table
    case Some(es) => Store(table, es)
  }

  function BatchCount(page: seq<UID>): nat {
    (|page| + MAX_UIDS_PER_FETCH - 1) / MAX_UIDS_PER_FETCH
  }

  /** The answers to all batches of the page, in the order they are sent. */
  function Answers(page: seq<UID>, server: Server): (r: seq<Option<seq<Envelope>>>)
    ensures |r| == BatchCount(page)
    ensures forall k | 0 <= k < |r| :: r[k] == Answer(page, server, k)
  {
    seq(BatchCount(page), k requires k >= 0 => Answer(page, server, k))
  }

  /** The envelope map after these answers. */
  function Table(answers: seq<Option<seq<Envelope>>>): (t: map<UID, Envelope>) {
    if answers == [] then map[] else AfterBatch(Table(answers[..|answers| - 1]), answers[|answers| - 1])
  }

  /** The entries of the table for the UIDs of the page, in page order. */
  function InPageOrder(page: seq<UID>, table: map<UID, Envelope>): (r: seq<Envelope>) {
    if page == [] then []
    else
      var before := InPageOrder(page[..|page| - 1], table);
      var last := page[|page| - 1];
      if last in table then before + [table[last]] else before
  }

  /** The first k batches. */
  function Batches(page: seq<UID>, k: nat): (r: seq<UID>) {
    if k == 0 then [] else Batches(page, k - 1) + Batch(page, k - 1)
  }

  lemma CountBounds(page: seq<UID>)
    requires page != []
    ensures BatchCount(page) > 0 && (BatchCount(page) - 1) * 100 < |page| <= BatchCount(page) * 100
  {
  }

  lemma {:induction false} BatchesBefore(page: seq<UID>, k: nat)
    requires page != [] && k <= BatchCount(page)
    ensures Batches(page, k) == page[..if k * 100 < |page| then k * 100 else |page|]
    decreases k
  {
    CountBounds(page);
    if k > 0 { BatchesBefore(page, k - 1); }
  }

  /** The batches are the page, in order; none is empty or larger than 100, and there is none for an empty page. */
  lemma BatchesExactly(page: seq<UID>)
    ensures Batches(page, BatchCount(page)) == page
    ensures forall k | 0 <= k < BatchCount(page) :: 0 < |Batch(page, k)| <= 100
  {
    if page != [] {
      CountBounds(page);
      BatchesBefore(page, BatchCount(page));
    }
  }

  /** imap_adapter.go, FetchMessages, with envelopes only. */
  method FetchMessages(uids: seq<UID>, server: Server, call: nat) returns (r: Option<seq<Envelope>>)
    ensures r == if uids == [] then Some([]) else server(call, Ranges(SortUIDs(uids)))
  {
    if |uids| == 0 {
      return Some([]);
    }
    var sortedUIDs := SortUIDs(uids);
    var uidSet := BuildUIDRanges(sortedUIDs);
    r := server(call, uidSet);
  }

  /** Store envelopes in the map by UID; a later one replaces an earlier one. */
  method StoreEnvelopes(table: map<UID, Envelope>, es: seq<Envelope>) returns (envelopeMap: map<UID, Envelope>)
    ensures envelopeMap == Store(table, es)
  {
    envelopeMap := table;
    for j := 0 to |es|
      invariant envelopeMap == Store(table, es[..j])
    {
      assert es[..j + 1][..j] == es[..j];
      envelopeMap := envelopeMap[es[j].uid := es[j]];
    }
    assert es[..|es|] == es;
  }

  /** One turn of the batch loop, up to the FETCH. */
  method FetchBatch(pageUIDs: seq<UID>, server: Server, i: nat, call: nat) returns (answer: Option<seq<Envelope>>)
    requires i < |pageUIDs| && i == call * MAX_UIDS_PER_FETCH
    ensures call < BatchCount(pageUIDs) && answer == Answers(pageUIDs, server)[call]
  {
    var batchEnd := i + MAX_UIDS_PER_FETCH;
    if batchEnd > |pageUIDs| {
      batchEnd := |pageUIDs|;
    }
    var batch := pageUIDs[i..batchEnd];
    assert batch == Batch(pageUIDs, call);
    SortingTwice(batch);
    SortUIDsSorts(batch);
    answer := FetchMessages(SortUIDs(batch), server, call);
  }

  /** The batch loop; a failed batch is skipped. */
  method FetchBatches(pageUIDs: seq<UID>, server: Server) returns (envelopeMap: map<UID, Envelope>)
    ensures envelopeMap == Table(Answers(pageUIDs, server))
  {
    ghost var answers := Answers(pageUIDs, server);
    envelopeMap := map[];
    var i, call := 0, 0;
    while i < |pageUIDs|
      invariant i == call * MAX_UIDS_PER_FETCH && i < |pageUIDs| + MAX_UIDS_PER_FETCH && call <= |answers|
      invariant envelopeMap == Table(answers[..call])
    {
      var batchEnvelopes := FetchBatch(pageUIDs, server, i, call);
      assert answers[..call + 1][..call] == answers[..call];
      i, call := i + MAX_UIDS_PER_FETCH, call + 1;
      if batchEnvelopes.None? {
        continue;
      }
      envelopeMap := StoreEnvelopes(envelopeMap, batchEnvelopes.value);
    }
    assert answers[..call] == answers;
  }

  /** message_service_message.go, the fetch and reorder part of GetMessageList. */
  method FetchPage(pageUIDs: seq<UID>, server: Server) returns (allEnvelopes: seq<Envelope>)
    ensures allEnvelopes == InPageOrder(pageUIDs, Table(Answers(pageUIDs, server)))
  {
    allEnvelopes := [];
    if |pageUIDs| > 0 {
      var envelopeMap := FetchBatches(pageUIDs, server);
      for j := 0 to |pageUIDs|
        invariant allEnvelopes == InPageOrder(pageUIDs[..j], envelopeMap)
      {
        assert pageUIDs[..j + 1][..j] == pageUIDs[..j];
        if pageUIDs[j] in envelopeMap {
          allEnvelopes := allEnvelopes + [envelopeMap[pageUIDs[j]]];
        }
      }
      assert pageUIDs[..|pageUIDs|] == pageUIDs;
    }
  }

  // ---- Sorted batches and the ranges sent ----

  lemma SortUIDsSorts(s: seq<UID>)
    ensures multiset(SortUIDs(s)) == multiset(s)
    ensures forall i, j | 0 <= i < j < |SortUIDs(s)| :: SortUIDs(s)[i] <= SortUIDs(s)[j]
    ensures |SortUIDs(s)| == |s|
  {
    var less := (a: UID, b: UID) => a < b;
    SortBySorts(less, s);
    SortByPermutes(less, s);
  }

  lemma {:induction false} SortingSorted(s: seq<UID>)
    requires forall i, j | 0 <= i < j < |s| :: s[i] <= s[j]
    ensures SortUIDs(s) == s
  {
    if s != [] {
      SortingSorted(s[1..]);
    }
  }

  /** FetchMessages sorts its argument again, without effect. */
  lemma SortingTwice(batch: seq<UID>)
    ensures SortUIDs(SortUIDs(batch)) == SortUIDs(batch)
  {
    SortUIDsSorts(batch);
    SortingSorted(SortUIDs(batch));
  }

  /** The ranges sent for a batch denote exactly its UIDs and are disjoint and non-adjacent. */
  lemma RangesSentDenoteBatch(batch: seq<UID>)
    requires Distinct(batch) && NonZero(batch)
    ensures Denotes(Ranges(SortUIDs(batch)), batch) && Separated(Ranges(SortUIDs(batch)))
  {
    SortUIDsSorts(batch);
    var sorted := SortUIDs(batch);
    DistinctPermutes(batch, sorted);
    SameMembers(sorted, batch);
    assert NonZero(sorted) by {
      forall i | 0 <= i < |sorted| ensures sorted[i] != 0 { assert sorted[i] in batch; }
    }
    SortedRangesDenote(sorted);
  }

  // ---- Refinement of a per-UID lookup ----

  /** Every envelope returned is the mailbox's own, for a UID that was asked for; order, gaps and repeats are free. */
  ghost predicate Faithful(server: Server, mailbox: map<UID, Envelope>) {
    && (forall u | u in mailbox :: mailbox[u].uid == u)
    && forall n: nat, ranges: seq<UIDRange>, e: Envelope ::
      server(n, ranges).Some? && e in server(n, ranges).value ==>
        InSomeRange(ranges, e.uid) && e.uid in mailbox && mailbox[e.uid] == e
  }

  /** The server answered for u in a batch that did not fail. */
  ghost predicate Answered(page: seq<UID>, server: Server, u: UID) {
    exists k: nat :: k < BatchCount(page) && AnsweredIn(page, server, k, u)
  }

  ghost predicate AnsweredIn(page: seq<UID>, server: Server, k: nat, u: UID) {
    u in Batch(page, k) && Answer(page, server, k).Some? && exists e :: e in Answer(page, server, k).value && e.uid == u
  }

  /** One lookup per UID of the page, keeping those that were answered. */
  ghost function Lookups(page: seq<UID>, mailbox: map<UID, Envelope>, server: Server, whole: seq<UID>):
    (r: seq<Envelope>)
    requires forall u: UID | Answered(whole, server, u) :: u in mailbox
  {
    if page == [] then []
    else
      var before := Lookups(page[..|page| - 1], mailbox, server, whole);
      var last := page[|page| - 1];
      if Answered(whole, server, last) then before + [mailbox[last]] else before
  }

  lemma {:induction false} StoreKeys(table: map<UID, Envelope>, es: seq<Envelope>, u: UID)
    ensures u in Store(table, es) <==> u in table || exists e :: e in es && e.uid == u
    ensures u in Store(table, es) ==>
      (u in table && Store(table, es)[u] == table[u]) || (Store(table, es)[u] in es && Store(table, es)[u].uid == u)
  {
    if es != [] {
      var front, last := es[..|es| - 1], es[|es| - 1];
      assert es == front + [last];
      StoreKeys(table, front, u);
    }
  }

  lemma AnswerIsFaithful(page: seq<UID>, server: Server, mailbox: map<UID, Envelope>, k: nat, e: Envelope)
    requires Distinct(page) && NonZero(page) && Faithful(server, mailbox)
    requires Answer(page, server, k).Some? && e in Answer(page, server, k).value
    ensures e.uid in Batch(page, k) && e.uid in mailbox && mailbox[e.uid] == e
  {
    RangesSentDenoteBatch(Batch(page, k));
    var ranges := Ranges(SortUIDs(Batch(page, k)));
    assert server(k, ranges).Some? && e in server(k, ranges).value;
  }

  ghost predicate HoldsAt(table: map<UID, Envelope>, mailbox: map<UID, Envelope>, u: UID, answered: bool) {
    (u in table <==> answered) && (u in table ==> u in mailbox && table[u] == mailbox[u])
  }

  /** One of these answers holds an envelope for u. */
  ghost predicate Names(answer: Option<seq<Envelope>>, u: UID) {
    answer.Some? && exists e :: e in answer.value && e.uid == u
  }

  ghost predicate SomeNames(answers: seq<Option<seq<Envelope>>>, u: UID) {
    exists k :: 0 <= k < |answers| && Names(answers[k], u)
  }

  ghost predicate FromMailbox(answer: Option<seq<Envelope>>, mailbox: map<UID, Envelope>) {
    answer.Some? ==> forall e | e in answer.value :: e.uid in mailbox && mailbox[e.uid] == e
  }

  lemma {:induction false} TableHoldsAnswers(answers: seq<Option<seq<Envelope>>>, mailbox: map<UID, Envelope>, u: UID)
    requires forall k | 0 <= k < |answers| :: FromMailbox(answers[k], mailbox)
    ensures HoldsAt(Table(answers), mailbox, u, SomeNames(answers, u))
  {
    if answers != [] {
      var front, last := answers[..|answers| - 1], answers[|answers| - 1];
      TableHoldsAnswers(front, mailbox, u);
      if last.Some? {
        StoreKeys(Table(front), last.value, u);
      }
      if SomeNames(answers, u) && !Names(last, u) {
        var k :| 0 <= k < |answers| && Names(answers[k], u);
        assert Names(front[k], u);
      }
      if SomeNames(front, u) {
        var k :| 0 <= k < |front| && Names(front[k], u);
        assert Names(answers[k], u);
      }
      if Names(last, u) { assert Names(answers[|answers| - 1], u); }
    }
  }

  lemma AnsweredIsNamed(page: seq<UID>, server: Server, mailbox: map<UID, Envelope>, u: UID)
    requires Distinct(page) && NonZero(page) && Faithful(server, mailbox)
    ensures Answered(page, server, u) <==> SomeNames(Answers(page, server), u)
  {
    var answers := Answers(page, server);
    if Answered(page, server, u) {
      var k: nat :| k < BatchCount(page) && AnsweredIn(page, server, k, u);
      assert Names(answers[k], u);
    }
    if SomeNames(answers, u) {
      var k :| 0 <= k < |answers| && Names(answers[k], u);
      var e :| e in answers[k].value && e.uid == u;
      AnswerIsFaithful(page, server, mailbox, k, e);
      assert AnsweredIn(page, server, k, u);
    }
  }

  lemma TableOfPage(page: seq<UID>, server: Server, mailbox: map<UID, Envelope>, u: UID)
    requires Distinct(page) && NonZero(page) && Faithful(server, mailbox)
    ensures HoldsAt(Table(Answers(page, server)), mailbox, u, Answered(page, server, u))
  {
    TableHoldsAnswers(Answers(page, server), mailbox, u);
    AnsweredIsNamed(page, server, mailbox, u);
  }

  lemma {:induction false} PageOrderIsLookups(page: seq<UID>, whole: seq<UID>, server: Server,
                                              mailbox: map<UID, Envelope>)
    requires Distinct(whole) && NonZero(whole) && Faithful(server, mailbox)
    ensures forall u: UID | Answered(whole, server, u) :: u in mailbox
    ensures InPageOrder(page, Table(Answers(whole, server))) == Lookups(page, mailbox, server, whole)
  {
    forall u: UID ensures Answered(whole, server, u) ==> u in mailbox {
      TableOfPage(whole, server, mailbox, u);
    }
    if page != [] {
      PageOrderIsLookups(page[..|page| - 1], whole, server, mailbox);
      TableOfPage(whole, server, mailbox, page[|page| - 1]);
    }
  }

  /**
    The batched fetch is a per-UID lookup: for a server that answers any part of each batch in any order, or
    fails a batch, the page holds exactly the answered messages, each once, in page order.
   */
  lemma BatchedFetchRefinesLookup(page: seq<UID>, server: Server, mailbox: map<UID, Envelope>)
    requires Distinct(page) && NonZero(page) && Faithful(server, mailbox)
    ensures forall u: UID | Answered(page, server, u) :: u in mailbox
    ensures InPageOrder(page, Table(Answers(page, server))) == Lookups(page, mailbox, server, page)
  {
    PageOrderIsLookups(page, page, server, mailbox);
  }

  /** With no failing batch and full answers, nothing on the page is lost. */
  lemma FullAnswersLoseNothing(page: seq<UID>, server: Server, mailbox: map<UID, Envelope>, u: UID)
    requires Distinct(page) && NonZero(page) && Faithful(server, mailbox)
    requires u in page && u in mailbox
    requires forall n: nat, ranges: seq<UIDRange> ::
      server(n, ranges).Some? && (InSomeRange(ranges, u) ==> mailbox[u] in server(n, ranges).value)
    ensures Answered(page, server, u)
    ensures mailbox[u] in InPageOrder(page, Table(Answers(page, server)))
  {
    var i :| 0 <= i < |page| && page[i] == u;
    var k := i / MAX_UIDS_PER_FETCH;
    assert Batch(page, k)[i - k * MAX_UIDS_PER_FETCH] == u;
    RangesSentDenoteBatch(Batch(page, k));
    var ranges := Ranges(SortUIDs(Batch(page, k)));
    assert server(k, ranges).Some? && mailbox[u] in server(k, ranges).value;
    assert AnsweredIn(page, server, k, u);
    TableOfPage(page, server, mailbox, u);
    InPageOrderHas(page, Table(Answers(page, server)), i);
  }

  lemma {:induction false} InPageOrderHas(page: seq<UID>, table: map<UID, Envelope>, i: nat)
    requires i < |page| && page[i] in table
    ensures table[page[i]] in InPageOrder(page, table)
  {
    if i < |page| - 1 {
      InPageOrderHas(page[..|page| - 1], table, i);
    }
  }
}
