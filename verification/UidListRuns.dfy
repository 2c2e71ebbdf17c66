/**
  Runs of the cached UID list: any number of concurrent GetMessageList requests against a server on which mail
  arrives, changes flags and is expunged. SELECT, the cache read, the search and the cache write of a request are
  separate steps, as they are separate calls. SELECT reports the highest mod-sequence, or always 0.
 */
module UidListRuns {
  import opened Wrappers
  import opened Sorting
  import opened UidSet
  import opened UidListCache
  import opened MailboxLimits

  /** `born` is a history variable: the mod-sequence the message arrived with. */
  datatype Msg = Msg(uid: UID, modSeq: nat, born: nat)

  /** A mailbox in UID order; `reports` says that SELECT gives its mod-sequence. `expunged` is a history variable. */
  datatype Server = Server(live: seq<Msg>, uidNext: nat, highest: nat, expunged: set<nat>, reports: bool)

  /**
    A cache entry with its history: `horizon` is UIDNEXT at its last search, `whole` says that its last reload
    listed the whole folder, `base` is what had been expunged by then, `merged` that a delta has added UIDs since.
   */
  datatype Entry = Entry(list: UIDList, horizon: nat, whole: bool, base: set<nat>, merged: bool)

  /** What a request knows from SELECT; `uidNext`, what was `there` and what was `gone` are history. */
  datatype Selected = Selected(field: string, order: SortOrder, modSeq: nat, count: nat, uidNext: nat,
                               there: set<UID>, gone: set<nat>)

  datatype Phase =
    | AfterSelect(sel: Selected)
    | MustMerge(sel: Selected, cached: Entry)
    | MustReload(sel: Selected)
    | Fetched(sel: Selected, entry: Entry)

  datatype State = State(server: Server, cache: Option<Entry>, requests: map<nat, Phase>)

  function Initial(reports: bool): State {
    State(Server([], 1, 1, {}, reports), None, map[])
  }

  datatype Action =
    | Append(uid: UID, modSeq: nat)
    | ChangeFlags(at: nat, modSeq: nat)
    | Expunge(at: nat, bump: nat)
    | DropCache
    | Select(r: nat, field: string, order: SortOrder)
    | ReadCache(r: nat, now: int)
    | SearchDelta(r: nat)
    | DeltaFails(r: nat)
    | SearchAll(r: nat, uids: seq<UID>, alreadySorted: bool)
    | ReloadFails(r: nat)
    | WriteCache(r: nat, now: int)

  function LiveUIDs(live: seq<Msg>): (uids: seq<UID>)
    ensures |uids| == |live| && forall i | 0 <= i < |live| :: uids[i] == live[i].uid
  {
    seq(|live|, i requires 0 <= i < |live| => live[i].uid)
  }

  /** UID SEARCH MODSEQ m: mod-sequence at least m, in UID order (section 3.1.5 of RFC 7162). */
  function ChangedSince(live: seq<Msg>, m: nat): (uids: seq<UID>) {
    if live == [] then []
    else
      var rest := ChangedSince(live[..|live| - 1], m);
      var last := live[|live| - 1];
      if last.modSeq >= m then rest + [last.uid] else rest
  }

  /**
    What a full reload may return, by the folder size SELECT reported: a raw SEARCH, a server SORT, or a window
    of recent messages (date range, newest by sequence). A date SORT of a whole folder is UID order.
   */
  ghost predicate ReloadReturns(live: seq<Msg>, sel: Selected, uids: seq<UID>, alreadySorted: bool) {
    if !alreadySorted then
      sel.count <= MAX_SORT_UIDS && uids == LiveUIDs(live)
    else if sel.count < SORT_THRESHOLD then
      multiset(uids) == multiset(LiveUIDs(live)) &&
      (sel.field == SORT_BY_DATE ==> uids == Display(LiveUIDs(live), false, sel.order))
    else
      Distinct(uids) && forall u | u in uids :: u in LiveUIDs(live)
  }

  predicate ReloadIsWhole(sel: Selected, alreadySorted: bool) {
    !alreadySorted || sel.count < SORT_THRESHOLD
  }

  /** The list a request writes back after its search. `cachedAt` is set by the write. */
  function NewList(sel: Selected, uids: seq<UID>, alreadySorted: bool): UIDList {
    UIDList(uids, |uids|, sel.modSeq, 0, sel.field, sel.order, alreadySorted)
  }

  function MergedEntry(sv: Server, sel: Selected, e: Entry): Entry {
    var merged := Merge(e.list.uids, ChangedSince(sv.live, e.list.highestModSeq), sel.order);
    var grew := Unknown(ChangedSince(sv.live, e.list.highestModSeq), e.list.uids) != [];
    Entry(NewList(sel, merged, e.list.alreadySorted), sv.uidNext, e.whole, e.base, e.merged || grew)
  }

  function ReloadedEntry(sv: Server, sel: Selected, uids: seq<UID>, alreadySorted: bool): Entry {
    Entry(NewList(sel, uids, alreadySorted), sv.uidNext, ReloadIsWhole(sel, alreadySorted), sv.expunged, false)
  }

  function CachedList(cache: Option<Entry>): Option<UIDList> {
    if cache.None? then None else Some(cache.value.list)
  }

  /** The verdict on the cache for a request. */
  function VerdictFor(s: State, sel: Selected, now: int): Verdict {
    Validity(CachedList(s.cache), sel.modSeq, sel.count, now, sel.field, sel.order)
  }

  function AfterAppend(sv: Server, uid: UID, m: nat): Server {
    sv.(live := sv.live + [Msg(uid, m, m)], uidNext := uid + 1, highest := m)
  }

  function AfterFlags(sv: Server, at: nat, m: nat): Server
    requires at < |sv.live|
  {
    sv.(live := sv.live[at := sv.live[at].(modSeq := m)], highest := m)
  }

  function AfterExpunge(sv: Server, at: nat, bump: nat): Server
    requires at < |sv.live|
  {
    sv.(live := sv.live[..at] + sv.live[at + 1..], highest := sv.highest + bump,
        expunged := sv.expunged + {sv.live[at].uid})
  }

  function Members(uids: seq<UID>): set<UID> {
    set u | u in uids
  }

  /** The answer to SELECT. */
  function AtSelect(sv: Server, field: string, order: SortOrder): Selected {
    Selected(field, order, if sv.reports then sv.highest else 0, |sv.live|, sv.uidNext, Members(LiveUIDs(sv.live)),
             sv.expunged)
  }

  ghost predicate Step(s: State, a: Action, s': State) {
    var sv := s.server;
    match a
    case Append(uid, m) =>
      sv.uidNext <= uid && sv.highest < m &&
      s' == s.(server := AfterAppend(sv, uid, m))
    case ChangeFlags(i, m) =>
      i < |sv.live| && sv.highest < m &&
      s' == s.(server := AfterFlags(sv, i, m))
    case Expunge(i, bump) =>
      i < |sv.live| &&
      s' == s.(server := AfterExpunge(sv, i, bump))
    case DropCache =>
      s' == s.(cache := None)
    case Select(r, field, order) =>
      r !in s.requests &&
      s' == s.(requests := s.requests[r := AfterSelect(AtSelect(sv, field, order))])
    case ReadCache(r, now) =>
      r in s.requests && s.requests[r].AfterSelect? &&
      var sel := s.requests[r].sel;
      (match VerdictFor(s, sel, now)
       case UseAsIs => s' == s.(requests := s.requests - {r})
       case NeedsIncremental => s' == s.(requests := s.requests[r := MustMerge(sel, s.cache.value)])
       case Reload => s' == s.(requests := s.requests[r := MustReload(sel)]))
    case SearchDelta(r) =>
      r in s.requests && s.requests[r].MustMerge? &&
      var sel := s.requests[r].sel;
      s' == s.(requests := s.requests[r := Fetched(sel, MergedEntry(sv, sel, s.requests[r].cached))])
    case DeltaFails(r) =>
      r in s.requests && s.requests[r].MustMerge? &&
      s' == s.(requests := s.requests[r := MustReload(s.requests[r].sel)])
    case SearchAll(r, uids, alreadySorted) =>
      r in s.requests && s.requests[r].MustReload? &&
      var sel := s.requests[r].sel;
      ReloadReturns(sv.live, sel, uids, alreadySorted) &&
      s' == s.(requests := s.requests[r := Fetched(sel, ReloadedEntry(sv, sel, uids, alreadySorted))])
    case ReloadFails(r) =>
      r in s.requests && s.requests[r].MustReload? &&
      s' == s.(requests := s.requests - {r})
    case WriteCache(r, now) =>
      r in s.requests && s.requests[r].Fetched? &&
      var e := s.requests[r].entry;
      s' == s.(cache := Some(e.(list := e.list.(cachedAt := now))), requests := s.requests - {r})
  }

  // ---- Invariant ----

  ghost predicate ServerOK(sv: Server) {
    && (forall i, j | 0 <= i < j < |sv.live| :: sv.live[i].uid < sv.live[j].uid)
    && (forall i | 0 <= i < |sv.live| ::
          sv.live[i].uid < sv.uidNext && sv.live[i].born <= sv.live[i].modSeq <= sv.highest &&
          sv.live[i].uid !in sv.expunged)
    && (forall u | u in sv.expunged :: u < sv.uidNext)
  }

  /** The messages the list may lack are all younger than its mod-sequence. */
  ghost predicate LackingAreYoung(sv: Server, e: Entry) {
    forall i | 0 <= i < |sv.live| :: sv.live[i].uid >= e.horizon ==> sv.live[i].born > e.list.highestModSeq
  }

  ghost predicate HoldsLive(sv: Server, e: Entry) {
    forall i | 0 <= i < |sv.live| :: sv.live[i].uid < e.horizon ==> sv.live[i].uid in e.list.uids
  }

  ghost predicate IsLive(sv: Server, u: UID) {
    exists i :: 0 <= i < |sv.live| && sv.live[i].uid == u
  }

  /** What the list holds too much has been expunged since the last reload. */
  ghost predicate ExtraAreExpunged(sv: Server, e: Entry) {
    forall u | u in e.list.uids :: IsLive(sv, u) || u in sv.expunged - e.base
  }

  /** The order claim: date order, and nothing merged into a raw list shown in descending order. */
  predicate Ordered(e: Entry) {
    e.whole && e.list.sortField == SORT_BY_DATE &&
    (!e.merged || e.list.alreadySorted || e.list.sortOrder == Asc)
  }

  function Shown(e: Entry): seq<UID> {
    Display(e.list.uids, e.list.alreadySorted, e.list.sortOrder)
  }

  ghost predicate EntryOK(sv: Server, e: Entry) {
    && Distinct(e.list.uids)
    && (forall u | u in e.list.uids :: u < e.horizon)
    && e.horizon <= sv.uidNext && e.base <= sv.expunged && e.list.highestModSeq <= sv.highest
    && LackingAreYoung(sv, e)
    && (e.whole ==> HoldsLive(sv, e) && ExtraAreExpunged(sv, e))
    && (Ordered(e) ==> InOrder(Shown(e), e.list.sortOrder))
  }

  ghost predicate SelectedOK(sv: Server, sel: Selected) {
    && sel.modSeq <= sv.highest && sel.uidNext <= sv.uidNext
    && (sv.reports ==> forall i | 0 <= i < |sv.live| :: sv.live[i].uid < sel.uidNext ==> sv.live[i].born <= sel.modSeq)
    && (forall i | 0 <= i < |sv.live| :: sv.live[i].uid >= sel.uidNext ==> sv.live[i].born > sel.modSeq)
  }

  ghost predicate PhaseOK(sv: Server, p: Phase) {
    && SelectedOK(sv, p.sel)
    && (p.MustMerge? ==> EntryOK(sv, p.cached))
    && (p.MustMerge? ==> p.cached.list.sortField == p.sel.field && p.cached.list.sortOrder == p.sel.order)
    && (p.Fetched? ==> EntryOK(sv, p.entry))
  }

  ghost predicate Inv(s: State) {
    && ServerOK(s.server)
    && (s.cache.Some? ==> EntryOK(s.server, s.cache.value))
    && (forall r | r in s.requests :: PhaseOK(s.server, s.requests[r]))
  }

  // ---- The server's steps keep every entry and request sound ----

  predicate ServerAction(a: Action) {
    a.Append? || a.ChangeFlags? || a.Expunge?
  }

  /** How one mailbox step relates the old and the new mailbox, message by message. */
  ghost predicate Evolves(sv: Server, sv': Server) {
    && sv'.reports == sv.reports && sv.uidNext <= sv'.uidNext
    && sv.highest <= sv'.highest && sv.expunged <= sv'.expunged
    && (forall i | 0 <= i < |sv'.live| ::
          (exists j :: 0 <= j < |sv.live| && SameMessage(sv.live[j], sv'.live[i])) ||
          (sv'.live[i].uid >= sv.uidNext && sv'.live[i].born > sv.highest))
    && (forall j | 0 <= j < |sv.live| :: IsLive(sv', sv.live[j].uid) || sv.live[j].uid in sv'.expunged)
  }

  ghost predicate SameMessage(m: Msg, m': Msg) {
    m.uid == m'.uid && m.born == m'.born
  }

  lemma AppendEvolves(sv: Server, uid: UID, m: nat)
    requires ServerOK(sv) && sv.uidNext <= uid && sv.highest < m
    ensures ServerOK(AfterAppend(sv, uid, m)) && Evolves(sv, AfterAppend(sv, uid, m))
  {
    var sv' := AfterAppend(sv, uid, m);
    forall i | 0 <= i < |sv'.live|
      ensures (exists j :: 0 <= j < |sv.live| && SameMessage(sv.live[j], sv'.live[i])) ||
              (sv'.live[i].uid >= sv.uidNext && sv'.live[i].born > sv.highest)
    {
      if i < |sv.live| { assert SameMessage(sv.live[i], sv'.live[i]); }
    }
    forall j | 0 <= j < |sv.live| ensures IsLive(sv', sv.live[j].uid) {
      assert sv'.live[j].uid == sv.live[j].uid;
    }
  }

  lemma FlagsEvolve(sv: Server, at: nat, m: nat)
    requires ServerOK(sv) && at < |sv.live| && sv.highest < m
    ensures ServerOK(AfterFlags(sv, at, m)) && Evolves(sv, AfterFlags(sv, at, m))
  {
    var sv' := AfterFlags(sv, at, m);
    forall i | 0 <= i < |sv'.live| ensures exists j :: 0 <= j < |sv.live| && SameMessage(sv.live[j], sv'.live[i]) {
      assert SameMessage(sv.live[i], sv'.live[i]);
    }
    forall j | 0 <= j < |sv.live| ensures IsLive(sv', sv.live[j].uid) {
      assert sv'.live[j].uid == sv.live[j].uid;
    }
  }

  lemma ExpungeIndex(sv: Server, at: nat, bump: nat, i: nat)
    requires at < |sv.live| && i < |sv.live| - 1
    ensures |AfterExpunge(sv, at, bump).live| == |sv.live| - 1
    ensures AfterExpunge(sv, at, bump).live[i] == sv.live[if i < at then i else i + 1]
  {
  }

  lemma ExpungeKeepsServer(sv: Server, at: nat, bump: nat)
    requires ServerOK(sv) && at < |sv.live|
    ensures ServerOK(AfterExpunge(sv, at, bump))
  {
    var live' := AfterExpunge(sv, at, bump).live;
    forall i | 0 <= i < |live'|
      ensures live'[i].uid < sv.uidNext && live'[i].born <= live'[i].modSeq <= sv.highest + bump
      ensures live'[i].uid !in sv.expunged + {sv.live[at].uid}
    {
      ExpungeIndex(sv, at, bump, i);
    }
    forall i, j | 0 <= i < j < |live'| ensures live'[i].uid < live'[j].uid {
      ExpungeIndex(sv, at, bump, i);
      ExpungeIndex(sv, at, bump, j);
    }
  }

  lemma ExpungeEvolves(sv: Server, at: nat, bump: nat)
    requires ServerOK(sv) && at < |sv.live|
    ensures Evolves(sv, AfterExpunge(sv, at, bump))
  {
    var sv' := AfterExpunge(sv, at, bump);
    forall i | 0 <= i < |sv'.live| ensures exists j :: 0 <= j < |sv.live| && SameMessage(sv.live[j], sv'.live[i]) {
      ExpungeIndex(sv, at, bump, i);
      assert SameMessage(sv.live[if i < at then i else i + 1], sv'.live[i]);
    }
    forall j | 0 <= j < |sv.live| ensures IsLive(sv', sv.live[j].uid) || sv.live[j].uid in sv'.expunged {
      if j != at {
        var i := if j < at then j else j - 1;
        ExpungeIndex(sv, at, bump, i);
        assert sv'.live[i].uid == sv.live[j].uid;
      }
    }
  }

  lemma MailboxEvolves(s: State, a: Action, s': State)
    requires ServerOK(s.server) && ServerAction(a) && Step(s, a, s')
    ensures ServerOK(s'.server) && Evolves(s.server, s'.server)
  {
    match a
    case Append(uid, m) => AppendEvolves(s.server, uid, m);
    case ChangeFlags(at, m) => FlagsEvolve(s.server, at, m);
    case Expunge(at, bump) => ExpungeKeepsServer(s.server, at, bump); ExpungeEvolves(s.server, at, bump);
  }

  lemma EntryKept(sv: Server, sv': Server, e: Entry)
    requires ServerOK(sv) && Evolves(sv, sv') && EntryOK(sv, e)
    ensures EntryOK(sv', e)
  {
    forall i | 0 <= i < |sv'.live| && sv'.live[i].uid >= e.horizon ensures sv'.live[i].born > e.list.highestModSeq {
      if j :| 0 <= j < |sv.live| && SameMessage(sv.live[j], sv'.live[i]) {
        assert sv.live[j].uid >= e.horizon;
      }
    }
    if e.whole {
      forall i | 0 <= i < |sv'.live| && sv'.live[i].uid < e.horizon ensures sv'.live[i].uid in e.list.uids {
        var j :| 0 <= j < |sv.live| && SameMessage(sv.live[j], sv'.live[i]);
        assert sv.live[j].uid < e.horizon;
      }
      forall u | u in e.list.uids ensures IsLive(sv', u) || u in sv'.expunged - e.base {
        if IsLive(sv, u) {
          var j :| 0 <= j < |sv.live| && sv.live[j].uid == u;
          assert u !in e.base;
        }
      }
    }
  }

  lemma ServerStepKeepsInv(s: State, a: Action, s': State)
    requires Inv(s) && ServerAction(a) && Step(s, a, s')
    ensures Inv(s')
  {
    MailboxEvolves(s, a, s');
    if s.cache.Some? { EntryKept(s.server, s'.server, s.cache.value); }
    forall r | r in s'.requests ensures PhaseOK(s'.server, s'.requests[r]) {
      var p := s.requests[r];
      if p.MustMerge? { EntryKept(s.server, s'.server, p.cached); }
      if p.Fetched? { EntryKept(s.server, s'.server, p.entry); }
    }
  }

  // ---- The search steps produce sound entries ----

  lemma MergedMembers(sv: Server, sel: Selected, e: Entry, u: UID)
    ensures u in MergedEntry(sv, sel, e).list.uids <==>
      u in e.list.uids ||
      exists i :: 0 <= i < |sv.live| && sv.live[i].uid == u && sv.live[i].modSeq >= e.list.highestModSeq
  {
    var changed := ChangedSince(sv.live, e.list.highestModSeq);
    MergeMembers(e.list.uids, changed, sel.order, u);
    ChangedSinceMembers(sv.live, e.list.highestModSeq, u);
  }

  /** In a whole entry, what a delta adds is newer than everything listed. */
  lemma AddedAreNewer(sv: Server, sel: Selected, e: Entry)
    requires ServerOK(sv) && EntryOK(sv, e) && e.whole
    ensures AllBelow(e.list.uids, Unknown(ChangedSince(sv.live, e.list.highestModSeq), e.list.uids))
  {
    var changed := ChangedSince(sv.live, e.list.highestModSeq);
    var added := Unknown(changed, e.list.uids);
    forall i, j | 0 <= i < |e.list.uids| && 0 <= j < |added| ensures e.list.uids[i] < added[j] {
      assert added[j] in added && e.list.uids[i] in e.list.uids;
      UnknownMembers(changed, e.list.uids, added[j]);
      ChangedSinceMembers(sv.live, e.list.highestModSeq, added[j]);
    }
  }

  lemma MergedEntryOK(sv: Server, sel: Selected, e: Entry)
    requires ServerOK(sv) && EntryOK(sv, e) && SelectedOK(sv, sel)
    requires e.list.sortField == sel.field && e.list.sortOrder == sel.order
    ensures EntryOK(sv, MergedEntry(sv, sel, e))
  {
    var changed := ChangedSince(sv.live, e.list.highestModSeq);
    var e' := MergedEntry(sv, sel, e);
    ChangedSinceAscending(sv.live, e.list.highestModSeq);
    MergeDistinct(e.list.uids, changed, sel.order);
    forall u | u in e'.list.uids ensures u < e'.horizon && (e.whole ==> IsLive(sv, u) || u in sv.expunged - e.base) {
      MergedMembers(sv, sel, e, u);
    }
    if e.whole {
      forall i | 0 <= i < |sv.live| ensures sv.live[i].uid in e'.list.uids {
        MergedMembers(sv, sel, e, sv.live[i].uid);
      }
    }
    if Ordered(e') {
      if Unknown(changed, e.list.uids) == [] {
        MergeNothing(e.list.uids, changed, sel.order);
      } else {
        AddedAreNewer(sv, sel, e);
        MergeKeepsOrderExactly(e.list.uids, changed, e.list.alreadySorted, sel.order);
      }
    }
  }

  lemma ReloadMembers(sv: Server, sel: Selected, uids: seq<UID>, alreadySorted: bool)
    requires ServerOK(sv) && ReloadReturns(sv.live, sel, uids, alreadySorted)
    ensures Distinct(uids) && forall u | u in uids :: IsLive(sv, u)
    ensures ReloadIsWhole(sel, alreadySorted) ==> forall i | 0 <= i < |sv.live| :: sv.live[i].uid in uids
  {
    var all := LiveUIDs(sv.live);
    LiveUIDsAscending(sv);
    if alreadySorted && sel.count < SORT_THRESHOLD {
      DistinctPermutes(all, uids);
      SameMembers(all, uids);
    }
    forall u | u in uids ensures IsLive(sv, u) { LiveIsLive(sv, u); }
    if ReloadIsWhole(sel, alreadySorted) {
      forall i | 0 <= i < |sv.live| ensures sv.live[i].uid in uids { assert all[i] in all; }
    }
  }

  lemma ReloadedEntryOK(sv: Server, sel: Selected, uids: seq<UID>, alreadySorted: bool)
    requires ServerOK(sv) && SelectedOK(sv, sel) && ReloadReturns(sv.live, sel, uids, alreadySorted)
    ensures EntryOK(sv, ReloadedEntry(sv, sel, uids, alreadySorted))
  {
    ReloadMembers(sv, sel, uids, alreadySorted);
    LiveUIDsAscending(sv);
  }

  lemma StepKeepsInv(s: State, a: Action, s': State)
    requires Inv(s) && Step(s, a, s')
    ensures Inv(s')
  {
    match a
    case Append(_, _) => ServerStepKeepsInv(s, a, s');
    case ChangeFlags(_, _) => ServerStepKeepsInv(s, a, s');
    case Expunge(_, _) => ServerStepKeepsInv(s, a, s');
    case SearchDelta(r) =>
      MergedEntryOK(s.server, s.requests[r].sel, s.requests[r].cached);
    case SearchAll(r, uids, alreadySorted) =>
      ReloadedEntryOK(s.server, s.requests[r].sel, uids, alreadySorted);
    case WriteCache(r, now) =>
      assert PhaseOK(s.server, s.requests[r]);
    case _ =>
  }

  // ---- What a request shows ----

  /** The live UIDs of a list that are below a bound, in list order. */
  ghost function Keep(sv: Server, uids: seq<UID>, below: nat): (r: seq<UID>) {
    if uids == [] then []
    else
      var rest := Keep(sv, uids[..|uids| - 1], below);
      var last := uids[|uids| - 1];
      if IsLive(sv, last) && last < below then rest + [last] else rest
  }

  /** The live list in display order. */
  function FullReload(sv: Server, order: SortOrder): seq<UID> {
    Display(LiveUIDs(sv.live), false, order)
  }

  /** An entry that lacks no live UID below a bound shows exactly the live list below it, among expunged UIDs. */
  lemma ShowsLiveList(sv: Server, e: Entry, below: nat)
    requires ServerOK(sv) && EntryOK(sv, e) && Ordered(e)
    requires forall i | 0 <= i < |sv.live| :: sv.live[i].uid < below ==> sv.live[i].uid in e.list.uids
    ensures Keep(sv, Shown(e), below) == Keep(sv, FullReload(sv, e.list.sortOrder), below)
  {
    var order := e.list.sortOrder;
    var live := FullReload(sv, order);
    LiveUIDsAscending(sv);
    KeepInOrder(sv, Shown(e), below, order);
    KeepInOrder(sv, live, below, order);
    forall u: UID ensures u in Keep(sv, Shown(e), below) <==> u in Keep(sv, live, below) {
      KeepMembers(sv, Shown(e), below, u);
      KeepMembers(sv, live, below, u);
      LiveIsLive(sv, u);
    }
    InOrderUnique(Keep(sv, Shown(e), below), Keep(sv, live, below), order);
  }

  /** The guarantee about the list shown from an entry, for the messages below `below`. */
  ghost predicate ShownOK(sv: Server, e: Entry, below: nat) {
    && Distinct(Shown(e))
    && (e.whole ==> forall i | 0 <= i < |sv.live| :: sv.live[i].uid < below ==> sv.live[i].uid in Shown(e))
    && (Ordered(e) ==> InOrder(Shown(e), e.list.sortOrder))
    && (Ordered(e) ==> Keep(sv, Shown(e), below) == Keep(sv, FullReload(sv, e.list.sortOrder), below))
  }

  lemma ShownFromSoundEntry(sv: Server, e: Entry, below: nat)
    requires ServerOK(sv) && EntryOK(sv, e)
    requires e.whole ==> forall i | 0 <= i < |sv.live| :: sv.live[i].uid < below ==> sv.live[i].uid in e.list.uids
    ensures ShownOK(sv, e, below)
  {
    if Ordered(e) { ShowsLiveList(sv, e, below); }
    ReverseDistinct(e.list.uids);
  }

  /** With no expunge since the last full reload, the list after a search is exactly a full reload. */
  lemma EqualsFullReload(sv: Server, e: Entry)
    requires ServerOK(sv) && EntryOK(sv, e) && ShownOK(sv, e, sv.uidNext)
    requires Ordered(e) && sv.expunged == e.base
    ensures Shown(e) == FullReload(sv, e.list.sortOrder)
  {
    assert sv.expunged - e.base == {};
    forall u | u in Shown(e) ensures IsLive(sv, u) && u < sv.uidNext {
      assert u in e.list.uids;
    }
    KeepAll(sv, Shown(e), sv.uidNext);
    FullReloadIsLive(sv, e.list.sortOrder);
  }

  // ---- Runs ----

  /** A run from the empty folder and empty cache. */
  ghost predicate IsRun(states: seq<State>, actions: seq<Action>) {
    && |states| == |actions| + 1
    && states[0] == Initial(states[0].server.reports)
    && forall i | 0 <= i < |actions| :: Step(states[i], actions[i], states[i + 1])
  }

  lemma {:induction false} RunKeepsInv(states: seq<State>, actions: seq<Action>, i: nat)
    requires IsRun(states, actions) && i < |states|
    ensures Inv(states[i])
  {
    if i > 0 {
      RunKeepsInv(states, actions, i - 1);
      StepKeepsInv(states[i - 1], actions[i - 1], states[i]);
    }
  }

  /** Some run leads to the state. */
  ghost predicate Reachable(s: State) {
    exists states, actions :: IsRun(states, actions) && states[|states| - 1] == s
  }

  lemma ReachableIsSound(s: State)
    requires Reachable(s)
    ensures Inv(s)
  {
    var states, actions :| IsRun(states, actions) && states[|states| - 1] == s;
    RunKeepsInv(states, actions, |states| - 1);
  }

  /**
    A cache hit on a server that reports mod-sequences: every message that was there at SELECT and is still there is
    in the list shown, once and in display order, whatever other requests and the mailbox did in between.
   */
  lemma HitsAreSound(s: State, r: nat, now: int)
    requires Reachable(s) && s.server.reports && r in s.requests && s.requests[r].AfterSelect?
    requires VerdictFor(s, s.requests[r].sel, now).UseAsIs?
    ensures s.cache.Some? && ShownOK(s.server, s.cache.value, s.requests[r].sel.uidNext)
  {
    ReachableIsSound(s);
    assert PhaseOK(s.server, s.requests[r]);
    ShownFromSoundEntry(s.server, s.cache.value, s.requests[r].sel.uidNext);
  }

  /**
    A refresh, by delta or by reload: no UID is listed twice, the live list in display order is what remains of
    the list when expunged UIDs are dropped, and with no expunge since the last full reload the list equals a
    full reload.
   */
  lemma RefreshesAreSound(s: State, a: Action, s': State)
    requires Reachable(s) && Step(s, a, s') && (a.SearchDelta? || a.SearchAll?)
    ensures a.r in s'.requests && s'.requests[a.r].Fetched?
    ensures var e, sv := s'.requests[a.r].entry, s'.server;
      && ShownOK(sv, e, sv.uidNext)
      && (Ordered(e) && sv.expunged == e.base ==> Shown(e) == FullReload(sv, e.list.sortOrder))
  {
    ReachableIsSound(s);
    StepKeepsInv(s, a, s');
    assert PhaseOK(s'.server, s'.requests[a.r]);
    var e := s'.requests[a.r].entry;
    assert e.horizon == s'.server.uidNext;
    ShownFromSoundEntry(s'.server, e, s'.server.uidNext);
    if Ordered(e) && s'.server.expunged == e.base { EqualsFullReload(s'.server, e); }
  }

  // ---- Cache hits on a server that reports no mod-sequence ----

  ghost predicate CountOK(e: Entry) {
    e.list.count == |e.list.uids|
  }

  /** What a request knows from SELECT, against the mailbox as it is now. */
  ghost predicate CountedOK(sv: Server, sel: Selected) {
    && sel.count == |sel.there| && (!sv.reports ==> sel.modSeq == 0)
    && sel.gone <= sv.expunged
    && (forall u | u in sel.there :: u < sel.uidNext && (IsLive(sv, u) || u in sv.expunged - sel.gone))
    && (forall i | 0 <= i < |sv.live| :: sv.live[i].uid < sel.uidNext ==> sv.live[i].uid in sel.there)
  }

  ghost predicate PhaseCounts(sv: Server, p: Phase) {
    CountedOK(sv, p.sel) && (p.MustMerge? ==> CountOK(p.cached)) && (p.Fetched? ==> CountOK(p.entry))
  }

  ghost predicate CountsOK(s: State) {
    && (s.cache.Some? ==> CountOK(s.cache.value))
    && (forall r | r in s.requests :: PhaseCounts(s.server, s.requests[r]))
  }

  lemma {:induction false} MembersCount(uids: seq<UID>)
    requires Distinct(uids)
    ensures |Members(uids)| == |uids|
  {
    if uids != [] {
      var front, last := uids[..|uids| - 1], uids[|uids| - 1];
      MembersCount(front);
      assert uids == front + [last];
      assert last !in Members(front);
      assert Members(uids) == Members(front) + {last};
    }
  }

  lemma SelectCounts(sv: Server, field: string, order: SortOrder)
    requires ServerOK(sv)
    ensures CountedOK(sv, AtSelect(sv, field, order))
  {
    LiveUIDsAscending(sv);
    MembersCount(LiveUIDs(sv.live));
    forall u | u in Members(LiveUIDs(sv.live)) ensures IsLive(sv, u) && u < sv.uidNext { LiveIsLive(sv, u); }
    forall i | 0 <= i < |sv.live| ensures sv.live[i].uid in Members(LiveUIDs(sv.live)) {
      assert LiveUIDs(sv.live)[i] == sv.live[i].uid;
    }
  }

  lemma CountsKept(sv: Server, sv': Server, sel: Selected)
    requires ServerOK(sv) && Evolves(sv, sv') && CountedOK(sv, sel) && sel.uidNext <= sv.uidNext
    ensures CountedOK(sv', sel)
  {
    forall u | u in sel.there ensures IsLive(sv', u) || u in sv'.expunged - sel.gone {
      if IsLive(sv, u) {
        var j :| 0 <= j < |sv.live| && sv.live[j].uid == u;
        assert u !in sv.expunged;
      }
    }
    forall i | 0 <= i < |sv'.live| && sv'.live[i].uid < sel.uidNext ensures sv'.live[i].uid in sel.there {
      var j :| 0 <= j < |sv.live| && SameMessage(sv.live[j], sv'.live[i]);
      assert sv.live[j].uid < sel.uidNext;
    }
  }

  lemma MailboxKeepsCounts(s: State, a: Action, s': State)
    requires Inv(s) && CountsOK(s) && ServerAction(a) && Step(s, a, s')
    ensures CountsOK(s')
  {
    MailboxEvolves(s, a, s');
    forall r | r in s'.requests ensures PhaseCounts(s'.server, s'.requests[r]) {
      assert PhaseOK(s.server, s.requests[r]) && PhaseCounts(s.server, s.requests[r]);
      CountsKept(s.server, s'.server, s.requests[r].sel);
    }
  }

  lemma StepKeepsCounts(s: State, a: Action, s': State)
    requires Inv(s) && CountsOK(s) && Step(s, a, s')
    ensures CountsOK(s')
  {
    match a
    case Append(_, _) => MailboxKeepsCounts(s, a, s');
    case ChangeFlags(_, _) => MailboxKeepsCounts(s, a, s');
    case Expunge(_, _) => MailboxKeepsCounts(s, a, s');
    case Select(r, field, order) => SelectCounts(s.server, field, order);
    case WriteCache(r, now) => assert PhaseCounts(s.server, s.requests[r]);
    case _ =>
  }

  lemma {:induction false} RunKeepsCounts(states: seq<State>, actions: seq<Action>, i: nat)
    requires IsRun(states, actions) && i < |states|
    ensures CountsOK(states[i])
  {
    if i > 0 {
      RunKeepsInv(states, actions, i - 1);
      RunKeepsCounts(states, actions, i - 1);
      StepKeepsCounts(states[i - 1], actions[i - 1], states[i]);
    }
  }

  lemma ReachableCounts(s: State)
    requires Reachable(s)
    ensures CountsOK(s)
  {
    var states, actions :| IsRun(states, actions) && states[|states| - 1] == s;
    RunKeepsCounts(states, actions, |states| - 1);
  }

  lemma SameSize(a: set<UID>, b: set<UID>)
    requires |a| == |b|
    ensures a == b <==> a <= b
  {
    if a <= b { assert |b - a| == |b| - |a|; }
  }

  /**
    A cache hit on a server that reports no mod-sequence: the list was made for this sort at most ten minutes ago and
    has as many UIDs as the folder had messages at SELECT, each once. So it shows what was there at SELECT if and only
    if nothing it lists had been expunged by then.
   */
  lemma HitsHaveTheCount(s: State, r: nat, now: int)
    requires Reachable(s) && !s.server.reports && r in s.requests && s.requests[r].AfterSelect?
    requires VerdictFor(s, s.requests[r].sel, now).UseAsIs?
    ensures s.cache.Some?
    ensures var e, sel := s.cache.value, s.requests[r].sel;
      && e.list.sortField == sel.field && e.list.sortOrder == sel.order && now - e.list.cachedAt <= 600_000_000_000
      && Distinct(Shown(e)) && |Shown(e)| == |sel.there| == sel.count
      && (Members(Shown(e)) == sel.there <==> forall u | u in Shown(e) :: u in sel.there)
  {
    ReachableIsSound(s);
    ReachableCounts(s);
    var e, sel := s.cache.value, s.requests[r].sel;
    assert PhaseCounts(s.server, s.requests[r]);
    ReverseDistinct(e.list.uids);
    MembersCount(Shown(e));
    SameSize(Members(Shown(e)), sel.there);
  }

  /** That is so for a list of a whole folder when nothing was expunged since its reload and since SELECT. */
  lemma HitsWithoutExpunge(s: State, r: nat, now: int)
    requires Reachable(s) && !s.server.reports && r in s.requests && s.requests[r].AfterSelect?
    requires VerdictFor(s, s.requests[r].sel, now).UseAsIs?
    requires s.cache.value.whole && s.cache.value.base == s.server.expunged == s.requests[r].sel.gone
    ensures Members(Shown(s.cache.value)) == s.requests[r].sel.there
  {
    ReachableIsSound(s);
    ReachableCounts(s);
    var e, sel := s.cache.value, s.requests[r].sel;
    HitsHaveTheCount(s, r, now);
    assert PhaseCounts(s.server, s.requests[r]);
    var shown := Members(Shown(e));
    MembersCount(Shown(e));
    forall u ensures u in shown <==> u in e.list.uids {}
    if e.horizon <= sel.uidNext {
      forall u | u in shown ensures u in sel.there { ListedWasThere(s.server, e, sel, u); }
    } else {
      forall u | u in sel.there ensures u in shown { assert IsLive(s.server, u); }
      SameSize(sel.there, shown);
    }
  }

  lemma ListedWasThere(sv: Server, e: Entry, sel: Selected, u: UID)
    requires EntryOK(sv, e) && e.whole && e.base == sv.expunged && e.horizon <= sel.uidNext && CountedOK(sv, sel)
    requires u in e.list.uids
    ensures u in sel.there
  {
    assert u !in sv.expunged - e.base;
    var i :| 0 <= i < |sv.live| && sv.live[i].uid == u;
  }

  lemma ReachStep(s: State, a: Action, s': State)
    requires Reachable(s) && Step(s, a, s')
    ensures Reachable(s')
  {
    var states, actions :| IsRun(states, actions) && states[|states| - 1] == s;
    assert IsRun(states + [s'], actions + [a]);
    assert (states + [s'])[|states|] == s';
  }

  lemma StartIsReachable(reports: bool)
    ensures Reachable(Initial(reports))
  {
    assert IsRun([Initial(reports)], []);
    assert [Initial(reports)][0] == Initial(reports);
  }

  const ONE := Server([Msg(1, 2, 2)], 2, 2, {}, false)
  const ONE_LISTED := Entry(UIDList([1], 1, 0, 0, SORT_BY_DATE, Asc, false), 2, true, {}, false)

  lemma OneCached() returns (s: State)
    ensures Reachable(s) && s == State(ONE, Some(ONE_LISTED), map[])
  {
    StartIsReachable(false);
    var s1 := State(ONE, None, map[]);
    ReachStep(Initial(false), Append(1, 2), s1);
    var sel := AtSelect(ONE, SORT_BY_DATE, Asc);
    var s2 := s1.(requests := map[0 := AfterSelect(sel)]);
    ReachStep(s1, Select(0, SORT_BY_DATE, Asc), s2);
    var s3 := s1.(requests := map[0 := MustReload(sel)]);
    ReachStep(s2, ReadCache(0, 0), s3);
    assert LiveUIDs(ONE.live) == [1];
    var s4 := s1.(requests := map[0 := Fetched(sel, ONE_LISTED)]);
    ReachStep(s3, SearchAll(0, [1], false), s4);
    s := State(ONE, Some(ONE_LISTED), map[]);
    ReachStep(s4, WriteCache(0, 0), s);
  }

  /** One message came and one was expunged: the count is the same, and the hit shows the one that has gone. */
  lemma CountHidesAChange() returns (s: State)
    ensures Reachable(s) && !s.server.reports && 1 in s.requests && s.requests[1].AfterSelect?
    ensures VerdictFor(s, s.requests[1].sel, 1).UseAsIs?
    ensures Shown(s.cache.value) == [1] && s.requests[1].sel.there == {2} && LiveUIDs(s.server.live) == [2]
  {
    var cached := OneCached();
    var two := Server([Msg(1, 2, 2), Msg(2, 3, 3)], 3, 3, {}, false);
    var s6 := cached.(server := two);
    ReachStep(cached, Append(2, 3), s6);
    var other := Server([Msg(2, 3, 3)], 3, 3, {1}, false);
    assert two.live[..0] + two.live[1..] == other.live;
    var s7 := cached.(server := other);
    ReachStep(s6, Expunge(0, 0), s7);
    s := s7.(requests := map[1 := AfterSelect(AtSelect(other, SORT_BY_DATE, Asc))]);
    ReachStep(s7, Select(1, SORT_BY_DATE, Asc), s);
    assert LiveUIDs(other.live) == [2];
  }

  // ---- A request that nothing interrupts ----

  /** Steps from s to t that all belong to request r. */
  ghost predicate Alone(r: nat, states: seq<State>, actions: seq<Action>, s: State, t: State) {
    && |states| == |actions| + 1 && states[0] == s && states[|actions|] == t
    && (forall i | 0 <= i < |actions| :: Step(states[i], actions[i], states[i + 1]) && IsOf(actions[i], r))
  }

  predicate IsOf(a: Action, r: nat) {
    !ServerAction(a) && !a.DropCache? && a.r == r
  }

  lemma AloneSnoc(r: nat, states: seq<State>, actions: seq<Action>, s: State, t: State, a: Action, u: State)
    requires Alone(r, states, actions, s, t) && Step(t, a, u) && IsOf(a, r)
    ensures Alone(r, states + [u], actions + [a], s, u)
  {
  }

  function PhaseTo(s: State, r: nat, p: Phase): State {
    s.(requests := s.requests[r := p])
  }

  /** The request is over, having written the list, or nothing. */
  function Over(s: State, r: nat, cache: Option<Entry>): State {
    s.(cache := cache, requests := s.requests - {r})
  }

  function Written(e: Entry, now: int): Option<Entry> {
    Some(e.(list := e.list.(cachedAt := now)))
  }

  lemma WriteAlone(s: State, r: nat, states: seq<State>, actions: seq<Action>, sel: Selected, e: Entry, now: int)
    requires Alone(r, states, actions, s, PhaseTo(s, r, Fetched(sel, e)))
    ensures Alone(r, states + [Over(s, r, Written(e, now))], actions + [WriteCache(r, now)], s,
                  Over(s, r, Written(e, now)))
  {
    assert s.requests[r := Fetched(sel, e)] - {r} == s.requests - {r};
    AloneSnoc(r, states, actions, s, PhaseTo(s, r, Fetched(sel, e)), WriteCache(r, now), Over(s, r, Written(e, now)));
  }

  lemma ReloadAlone(s: State, r: nat, states: seq<State>, actions: seq<Action>, sel: Selected,
                    reload: Option<(seq<UID>, bool)>, now: int)
    returns (states': seq<State>, actions': seq<Action>, cache: Option<Entry>)
    requires Alone(r, states, actions, s, PhaseTo(s, r, MustReload(sel)))
    requires reload.Some? ==> ReloadReturns(s.server.live, sel, reload.value.0, reload.value.1)
    ensures Alone(r, states', actions', s, Over(s, r, cache))
    ensures cache == if reload.None? then s.cache
                     else Written(ReloadedEntry(s.server, sel, reload.value.0, reload.value.1), now)
  {
    var t := PhaseTo(s, r, MustReload(sel));
    if reload.None? {
      cache := s.cache;
      assert t.requests - {r} == s.requests - {r};
      AloneSnoc(r, states, actions, s, t, ReloadFails(r), Over(s, r, cache));
      states', actions' := states + [Over(s, r, cache)], actions + [ReloadFails(r)];
    } else {
      var e := ReloadedEntry(s.server, sel, reload.value.0, reload.value.1);
      var u := PhaseTo(s, r, Fetched(sel, e));
      assert t.requests[r := Fetched(sel, e)] == u.requests;
      AloneSnoc(r, states, actions, s, t, SearchAll(r, reload.value.0, reload.value.1), u);
      WriteAlone(s, r, states + [u], actions + [SearchAll(r, reload.value.0, reload.value.1)], sel, e, now);
      cache := Written(e, now);
      states' := states + [u] + [Over(s, r, cache)];
      actions' := actions + [SearchAll(r, reload.value.0, reload.value.1)] + [WriteCache(r, now)];
    }
  }

  lemma MergeAlone(s: State, r: nat, states: seq<State>, actions: seq<Action>, sel: Selected, cached: Entry, now: int)
    returns (states': seq<State>, actions': seq<Action>, cache: Option<Entry>)
    requires Alone(r, states, actions, s, PhaseTo(s, r, MustMerge(sel, cached)))
    ensures cache == Written(MergedEntry(s.server, sel, cached), now)
    ensures Alone(r, states', actions', s, Over(s, r, cache))
  {
    var t, e := PhaseTo(s, r, MustMerge(sel, cached)), MergedEntry(s.server, sel, cached);
    var u := PhaseTo(s, r, Fetched(sel, e));
    assert t.requests[r := Fetched(sel, e)] == u.requests;
    AloneSnoc(r, states, actions, s, t, SearchDelta(r), u);
    WriteAlone(s, r, states + [u], actions + [SearchDelta(r)], sel, e, now);
    cache := Written(e, now);
    states', actions' := states + [u] + [Over(s, r, cache)], actions + [SearchDelta(r)] + [WriteCache(r, now)];
  }

  lemma DeltaFailsAlone(s: State, r: nat, states: seq<State>, actions: seq<Action>, sel: Selected, cached: Entry)
    requires Alone(r, states, actions, s, PhaseTo(s, r, MustMerge(sel, cached)))
    ensures Alone(r, states + [PhaseTo(s, r, MustReload(sel))], actions + [DeltaFails(r)], s,
                  PhaseTo(s, r, MustReload(sel)))
  {
    var t, u := PhaseTo(s, r, MustMerge(sel, cached)), PhaseTo(s, r, MustReload(sel));
    assert t.requests[r := MustReload(sel)] == u.requests;
    AloneSnoc(r, states, actions, s, t, DeltaFails(r), u);
  }

  lemma ReadAlone(s: State, r: nat, now: int, t: State)
    requires Step(s, ReadCache(r, now), t)
    ensures Alone(r, [s] + [t], [] + [ReadCache(r, now)], s, t)
  {
    AloneSnoc(r, [s], [], s, s, ReadCache(r, now), t);
  }

  /** What the request shows, and what it writes, from the cache it leaves. */
  ghost predicate LoadsAs(s: State, cache: Option<Entry>, shown: Option<seq<UID>>, stored: Option<UIDList>) {
    && (stored.None? ==> cache == s.cache) && (stored.Some? ==> cache.Some? && cache.value.list == stored.value)
    && (shown.Some? ==> cache.Some? && Shown(cache.value) == shown.value)
  }

  /**
    A request without other steps in between reads the cache, searches and writes the cache, and shows and stores
    what LoadUIDs does with the server's answers, in every case of its contract.
   */
  lemma RequestIsLoad(s: State, r: nat, now: int, changed: Option<seq<UID>>, reload: Option<(seq<UID>, bool)>)
    returns (states: seq<State>, actions: seq<Action>, cache: Option<Entry>)
    requires r in s.requests && s.requests[r].AfterSelect?
    requires changed.Some? && s.cache.Some? ==>
        changed.value == ChangedSince(s.server.live, s.cache.value.list.highestModSeq)
    requires reload.Some? ==> ReloadReturns(s.server.live, s.requests[r].sel, reload.value.0, reload.value.1)
    ensures Alone(r, states, actions, s, Over(s, r, cache))
    ensures var sel := s.requests[r].sel;
            var loaded := Loaded(CachedList(s.cache), sel.modSeq, sel.count, now, sel.field, sel.order, true, changed,
                                 reload);
            LoadsAs(s, cache, loaded.0, loaded.1)
  {
    var sel := s.requests[r].sel;
    var verdict := VerdictFor(s, sel, now);
    if verdict.UseAsIs? {
      cache := s.cache;
      ReadAlone(s, r, now, Over(s, r, cache));
      states, actions := [s] + [Over(s, r, cache)], [] + [ReadCache(r, now)];
    } else if verdict.Reload? {
      ReadAlone(s, r, now, PhaseTo(s, r, MustReload(sel)));
      states, actions, cache :=
        ReloadAlone(s, r, [s] + [PhaseTo(s, r, MustReload(sel))], [] + [ReadCache(r, now)], sel, reload, now);
    } else {
      states, actions := [s] + [PhaseTo(s, r, MustMerge(sel, s.cache.value))], [] + [ReadCache(r, now)];
      ReadAlone(s, r, now, PhaseTo(s, r, MustMerge(sel, s.cache.value)));
      if changed.Some? {
        states, actions, cache := MergeAlone(s, r, states, actions, sel, s.cache.value, now);
      } else {
        DeltaFailsAlone(s, r, states, actions, sel, s.cache.value);
        states, actions, cache := ReloadAlone(s, r, states + [PhaseTo(s, r, MustReload(sel))],
                                              actions + [DeltaFails(r)], sel, reload, now);
      }
    }
  }

  // ---- Lists and what is kept of them ----

  lemma LiveUIDsAscending(sv: Server)
    requires ServerOK(sv)
    ensures Ascending(LiveUIDs(sv.live)) && Distinct(LiveUIDs(sv.live))
    ensures InOrder(Display(LiveUIDs(sv.live), false, Asc), Asc)
    ensures InOrder(Display(LiveUIDs(sv.live), false, Desc), Desc)
  {
    ReverseOfAscending(LiveUIDs(sv.live));
  }

  lemma LiveIsLive(sv: Server, u: UID)
    ensures u in LiveUIDs(sv.live) <==> IsLive(sv, u)
  {
    if IsLive(sv, u) {
      var i :| 0 <= i < |sv.live| && sv.live[i].uid == u;
      assert LiveUIDs(sv.live)[i] == u;
    }
    if u in LiveUIDs(sv.live) {
      var i :| 0 <= i < |LiveUIDs(sv.live)| && LiveUIDs(sv.live)[i] == u;
      assert sv.live[i].uid == u;
    }
  }

  lemma FullReloadIsLive(sv: Server, order: SortOrder)
    requires ServerOK(sv)
    ensures Keep(sv, FullReload(sv, order), sv.uidNext) == FullReload(sv, order)
  {
    forall u | u in FullReload(sv, order) ensures IsLive(sv, u) && u < sv.uidNext {
      LiveIsLive(sv, u);
    }
    KeepAll(sv, FullReload(sv, order), sv.uidNext);
  }

  lemma {:induction false} ChangedSinceMembers(live: seq<Msg>, m: nat, u: UID)
    ensures u in ChangedSince(live, m) <==> exists i :: 0 <= i < |live| && live[i].uid == u && live[i].modSeq >= m
  {
    if live != [] {
      var front, last := live[..|live| - 1], live[|live| - 1];
      ChangedSinceMembers(front, m, u);
      if i :| 0 <= i < |live| && live[i].uid == u && live[i].modSeq >= m {
        if i < |front| { assert front[i].uid == u && front[i].modSeq >= m; }
      }
      if u in ChangedSince(front, m) {
        var i :| 0 <= i < |front| && front[i].uid == u && front[i].modSeq >= m;
        assert live[i].uid == u && live[i].modSeq >= m;
      }
      if last.uid == u && last.modSeq >= m { assert live[|front|].uid == u; }
    }
  }

  lemma {:induction false} ChangedSinceAscending(live: seq<Msg>, m: nat)
    requires forall i, j | 0 <= i < j < |live| :: live[i].uid < live[j].uid
    ensures Ascending(ChangedSince(live, m))
  {
    if live != [] {
      var front := live[..|live| - 1];
      ChangedSinceAscending(front, m);
      var rest := ChangedSince(front, m);
      forall k | 0 <= k < |rest| ensures rest[k] < live[|live| - 1].uid {
        ChangedSinceMembers(front, m, rest[k]);
        assert rest[k] in rest;
      }
    }
  }

  lemma {:induction false} KeepMembers(sv: Server, uids: seq<UID>, below: nat, u: UID)
    ensures u in Keep(sv, uids, below) <==> u in uids && IsLive(sv, u) && u < below
  {
    if uids != [] {
      assert uids == uids[..|uids| - 1] + [uids[|uids| - 1]];
      KeepMembers(sv, uids[..|uids| - 1], below, u);
    }
  }

  lemma {:induction false} KeepInOrder(sv: Server, uids: seq<UID>, below: nat, order: SortOrder)
    requires InOrder(uids, order)
    ensures InOrder(Keep(sv, uids, below), order)
  {
    if uids != [] {
      var front, last := uids[..|uids| - 1], uids[|uids| - 1];
      KeepInOrder(sv, front, below, order);
      var rest := Keep(sv, front, below);
      forall i | 0 <= i < |rest| ensures if order == Desc then rest[i] > last else rest[i] < last {
        KeepMembers(sv, front, below, rest[i]);
        assert rest[i] in rest;
      }
    }
  }

  lemma InOrderUnique(a: seq<UID>, b: seq<UID>, order: SortOrder)
    requires InOrder(a, order) && InOrder(b, order)
    requires forall u: UID :: u in a <==> u in b
    ensures a == b
  {
    if order == Asc {
      AscendingUnique(a, b);
    } else {
      ReverseOfDescending(a);
      ReverseOfDescending(b);
      AscendingUnique(Reverse(a), Reverse(b));
      ReverseTwice(a);
      ReverseTwice(b);
    }
  }

  lemma {:induction false} KeepAll(sv: Server, uids: seq<UID>, below: nat)
    requires forall u | u in uids :: IsLive(sv, u) && u < below
    ensures Keep(sv, uids, below) == uids
  {
    if uids != [] {
      KeepAll(sv, uids[..|uids| - 1], below);
      assert uids[|uids| - 1] in uids;
    }
  }

  lemma ReverseDistinct(uids: seq<UID>)
    requires Distinct(uids)
    ensures Distinct(Reverse(uids))
  {
    forall i, j | 0 <= i < j < |uids| ensures Reverse(uids)[i] != Reverse(uids)[j] {
      assert uids[|uids| - 1 - j] != uids[|uids| - 1 - i];
    }
  }
}
