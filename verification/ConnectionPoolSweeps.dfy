/**
  The map, the lists and the counters of the connection pool, when callers sweep it without the lock: which steps
  keep them consistent, and that calls which do not overlap a removal are harmless.
 */
module ConnectionPoolSweeps {
  import opened Wrappers
  import opened Sorting
  import opened Counting
  import opened ConnectionPool
  import opened ConnectionPoolRuns

  // ---- What consistency is ----

  /** Out of the map, and still to be counted. */
  predicate UncountedTurn(turn: Turn) { turn.Deleted? || turn.Tallying? }

  predicate Uncounted(phase: Phase) { phase.Sweeping? && UncountedTurn(phase.turn) }

  /** The worker has taken an ID out of the map and is still to take it out of its list. */
  predicate Unlists(s: State, w: Worker) {
    Works(s, w) && !TurnOf(s, w).Between? && !TurnOf(s, w).Checked? && !DropsList(s, w)
  }

  /** CloseAccount is about to drop the account's whole list. */
  predicate IsDropping(s: State, account: string) {
    s.section.ClosingAccount? && s.section.account == account
  }

  ghost function Owed(s: State, account: string): iset<string> {
    if IsDropping(s, account) then iset x: string | |x| >= 0
    else iset w: Worker | Unlists(s, w) && TurnOf(s, w).owner == account :: TurnOf(s, w).id
  }

  /** A new connection that is in the map and not in its list yet. */
  function Coming(s: State): set<string> {
    if s.section.Inserted? || s.section.Appending? then {s.section.id} else {}
  }

  ghost function Uncountings(s: State): nat {
    Count(s.callers, Uncounted) + (if Works(s, Holder) && UncountedTurn(TurnOf(s, Holder)) then 1 else 0)
  }

  ghost predicate ListsOK(s: State) {
    forall account: string :: AccountAgrees(s.pool, account, Owed(s, account), Coming(s))
  }

  ghost predicate TalliesOK(s: State) {
    s.pool.metrics.created - s.pool.metrics.closed - Uncountings(s) == |s.pool.connections|
  }

  /** A connection that a caller holds is stored, unless it was closed by request. */
  ghost predicate HeldOK(s: State) {
    forall c | c in s.holders :: s.holders[c] in s.pool.connections || s.holders[c] in s.closedByRequest
  }

  ghost predicate Consistent(s: State) {
    ListsOK(s) && TalliesOK(s) && HeldOK(s) && !s.section.Panicked?
  }

  // ---- When a step keeps it ----

  /** A list read earlier has the same IDs as the present one, but for those that are still to be taken out. */
  ghost predicate SameIDs(s: State, account: string, ids: seq<string>) {
    forall x | x in s.pool.connections || x !in Owed(s, account) :: x in ids <==> x in ListOf(s.pool, account)
  }

  /** What the removal read before is still so: the connection is stored, and the counter and the list are as read. */
  ghost predicate GentleTurn(s: State, w: Worker)
    requires IsRemoving(s, w)
  {
    match TurnOf(s, w)
    case Checked(id, _) => id in s.pool.connections && (Requested(s, w) || !s.pool.connections[id].inUse)
    case Tallying(_, _, closed) => closed == s.pool.metrics.closed
    case Reading(id, owner, ids) =>
      if id in ids then SameIDs(s, owner, ids) else id !in ListOf(s.pool, owner) || IsDropping(s, owner)
    case _ => true
  }

  /** What the holder of the lock read before is still so: the connection it found is stored, the list is as read. */
  ghost predicate GentleSection(s: State) {
    && (s.section.Found? || s.section.Looked? ==> s.section.id in s.pool.connections)
    && (s.section.Appending? ==> SameIDs(s, s.section.account, s.section.ids))
  }

  ghost predicate Gentle(s: State, a: Action) {
    && (a.Advance? && IsRemoving(s, a.w) ==> GentleTurn(s, a.w))
    && (a.Proceed? ==> GentleSection(s))
  }

  ghost predicate GentleRun(cfg: Config, s: State, actions: seq<Action>)
    decreases |actions|
  {
    actions == [] ||
    (GentleRun(cfg, s, actions[..|actions| - 1]) && Run(cfg, s, actions[..|actions| - 1]).Some? &&
     Gentle(Run(cfg, s, actions[..|actions| - 1]).value, actions[|actions| - 1]))
  }

  // ---- Bookkeeping ----

  /** What the turn of a removal says about the map. */
  ghost predicate TurnOK(s: State, turn: Turn) {
    match turn
    case Between => true
    case Checked(id, owner) =>
      id in s.used && (id in s.pool.connections ==> s.pool.connections[id].account == owner)
    case Reading(id, _, ids) => id in s.used && id !in s.pool.connections && Distinct(ids)
    case _ => turn.id in s.used && turn.id !in s.pool.connections
  }

  ghost predicate TurnsOK(s: State) {
    forall w | Works(s, w) :: TurnOK(s, TurnOf(s, w))
  }

  /** No connection is taken out of its list by two workers. */
  ghost predicate OneRemover(s: State) {
    forall v, w | Unlists(s, v) && Unlists(s, w) && TurnOf(s, v).id == TurnOf(s, w).id :: v == w
  }

  ghost predicate ClosedOK(s: State) {
    s.closedByRequest <= s.used && s.closedByRequest !! s.pool.connections.Keys
  }

  /** CloseAccount still has before it what is stored of the account, and of no other. */
  ghost predicate DropOK(s: State) {
    s.section.ClosingAccount? ==>
      && !s.section.turn.Counted? && !s.section.turn.Reading?
      && forall x | x in s.pool.connections ::
        (s.pool.connections[x].account == s.section.account <==>
           x in s.section.rest || (s.section.turn.Checked? && s.section.turn.id == x))
  }

  /** What an acquirer has found was not closed by request: that takes the lock. */
  ghost predicate FoundOK(s: State) {
    s.section.Found? || s.section.Looked? ==> s.section.id !in s.closedByRequest
  }

  /** A new connection is in use, and the list read for it has not got it. */
  ghost predicate ComingOK(s: State) {
    && (s.section.Inserted? || s.section.Appending? ==>
          s.section.id in s.used && s.section.id in s.pool.connections &&
          s.pool.connections[s.section.id].account == s.section.account && s.pool.connections[s.section.id].inUse)
    && (s.section.Appending? ==> Distinct(s.section.ids) && s.section.id !in s.section.ids)
  }

  ghost predicate RemovalsOK(s: State) {
    TurnsOK(s) && OneRemover(s) && ClosedOK(s) && DropOK(s) && FoundOK(s) && ComingOK(s)
  }

  ghost predicate Inv(s: State) {
    HoldersOK(s) && SearchOK(s) && Consistent(s) && RemovalsOK(s)
  }

  // ---- What changes with one worker ----

  /** The map only loses connections and gains new ones. */
  ghost predicate Later(s: State, t: State) {
    && s.used <= t.used
    && (forall id | id in t.pool.connections && id in s.used ::
          id in s.pool.connections && t.pool.connections[id].account == s.pool.connections[id].account)
  }

  lemma TurnStays(s: State, t: State, turn: Turn)
    requires TurnOK(s, turn) && Later(s, t)
    ensures TurnOK(t, turn)
  {
  }

  /** All workers stay where they are, but for v. */
  ghost predicate OthersStay(s: State, t: State, v: Worker) {
    forall w | w != v :: (Works(t, w) <==> Works(s, w)) &&
      (Works(s, w) ==> TurnOf(t, w) == TurnOf(s, w) && DropsList(t, w) == DropsList(s, w))
  }

  lemma TurnsMove(s: State, t: State, v: Worker)
    requires TurnsOK(s) && Later(s, t) && OthersStay(s, t, v)
    requires Works(t, v) ==> TurnOK(t, TurnOf(t, v))
    ensures TurnsOK(t)
  {
    forall w | Works(t, w) ensures TurnOK(t, TurnOf(t, w)) {
      if w != v {
        assert Works(s, w);
        TurnStays(s, t, TurnOf(s, w));
      }
    }
  }

  lemma RemoverStays(s: State, t: State, v: Worker)
    requires OneRemover(s) && OthersStay(s, t, v)
    requires Unlists(t, v) ==> Unlists(s, v) && TurnOf(t, v).id == TurnOf(s, v).id
    ensures OneRemover(t)
  {
    forall w | Unlists(t, w) ensures Unlists(s, w) && TurnOf(t, w).id == TurnOf(s, w).id {
      if w != v { assert Works(s, w); }
    }
  }

  /** The same IDs are owed to the same lists. */
  lemma OwedSame(s: State, t: State, v: Worker, account: string)
    requires OthersStay(s, t, v) && (IsDropping(t, account) <==> IsDropping(s, account))
    requires Unlists(t, v) <==> Unlists(s, v)
    requires Unlists(s, v) ==>
        TurnOf(t, v).id == TurnOf(s, v).id && TurnOf(t, v).owner == TurnOf(s, v).owner
    ensures Owed(t, account) == Owed(s, account)
  {
    forall w ensures Unlists(t, w) <==> Unlists(s, w) {
      if w != v { assert Works(t, w) <==> Works(s, w); }
    }
    forall w | Unlists(s, w)
      ensures TurnOf(t, w).id == TurnOf(s, w).id && TurnOf(t, w).owner == TurnOf(s, w).owner
    {
      if w != v { assert Works(s, w); }
    }
  }

  lemma OwedMore(s: State, t: State, v: Worker, account: string)
    requires OthersStay(s, t, v) && !Unlists(s, v) && Unlists(t, v)
    requires IsDropping(t, account) <==> IsDropping(s, account)
    ensures Owed(t, account)
      == Owed(s, account) + (if TurnOf(t, v).owner == account then iset{TurnOf(t, v).id} else iset{})
  {
    forall w | w != v ensures Unlists(t, w) <==> Unlists(s, w) {
      assert Works(t, w) <==> Works(s, w);
    }
    forall w | Unlists(s, w) ensures TurnOf(t, w) == TurnOf(s, w) {
      assert Works(s, w);
    }
  }

  lemma OwedLess(s: State, t: State, v: Worker, account: string)
    requires OneRemover(s) && OthersStay(s, t, v) && Unlists(s, v) && !Unlists(t, v)
    requires !IsDropping(t, account) && !IsDropping(s, account)
    ensures Owed(t, account)
      == Owed(s, account) - (if TurnOf(s, v).owner == account then iset{TurnOf(s, v).id} else iset{})
  {
    forall w | w != v ensures Unlists(t, w) <==> Unlists(s, w) {
      assert Works(t, w) <==> Works(s, w);
    }
    forall w | Unlists(t, w) ensures TurnOf(t, w) == TurnOf(s, w) && TurnOf(t, w).id != TurnOf(s, v).id {
      assert Works(s, w);
    }
  }

  lemma OwedGone(s: State, account: string)
    requires TurnsOK(s) && !IsDropping(s, account)
    ensures forall id | id in Owed(s, account) :: id in s.used && id !in s.pool.connections
  {
    forall w | Unlists(s, w) ensures TurnOf(s, w).id in s.used && TurnOf(s, w).id !in s.pool.connections {
      assert TurnOK(s, TurnOf(s, w));
    }
  }

  /** The callers that have still to count are the same. */
  lemma CallersCount(s: State, t: State, c: nat)
    requires forall d | d != c ::
        (d in t.callers <==> d in s.callers) && (d in s.callers ==> t.callers[d] == s.callers[d])
    requires (c in s.callers ==> !Uncounted(s.callers[c])) && (c in t.callers ==> !Uncounted(t.callers[c]))
    ensures Count(t.callers, Uncounted) == Count(s.callers, Uncounted)
  {
    forall d ensures d in Hits(t.callers, Uncounted) <==> d in Hits(s.callers, Uncounted) {
      if d == c {
        assert d in t.callers ==> !Uncounted(t.callers[d]);
        assert d in s.callers ==> !Uncounted(s.callers[d]);
      }
    }
    assert Hits(t.callers, Uncounted) == Hits(s.callers, Uncounted);
  }

  lemma UncountedTurned(s: State, w: Worker, turn: Turn)
    requires Works(s, w)
    ensures Uncountings(TurnTo(s, w, turn)) == Uncountings(s)
      - (if UncountedTurn(TurnOf(s, w)) then 1 else 0) + (if UncountedTurn(turn) then 1 else 0)
  {
    if w.Caller? { CountPut(s.callers, w.c, s.callers[w.c].(turn := turn), Uncounted); }
  }

  // ---- Steps that leave the lists, the counters and the set of connections alone ----

  /** Nothing changes but one caller, the section, and how connections are marked. */
  ghost predicate SamePool(s: State, t: State) {
    && t.pool.lists == s.pool.lists && t.used == s.used && t.closedByRequest == s.closedByRequest
    && t.pool.metrics.created == s.pool.metrics.created && t.pool.metrics.closed == s.pool.metrics.closed
    && t.pool.connections.Keys == s.pool.connections.Keys
    && (forall id | id in s.pool.connections :: t.pool.connections[id].account == s.pool.connections[id].account)
  }

  /** No caller but c moves. */
  ghost predicate CallersStay(s: State, t: State, c: nat) {
    forall d | d != c :: (d in t.callers <==> d in s.callers) && (d in s.callers ==> t.callers[d] == s.callers[d])
  }

  /** The worker is not in the middle of a removal, but at most about to begin one. */
  ghost predicate AtRest(s: State, w: Worker) {
    Works(s, w) ==> TurnOf(s, w).Between? || TurnOf(s, w).Checked?
  }

  lemma RestingDuties(s: State, t: State, c: nat)
    requires CallersStay(s, t, c)
    requires AtRest(s, Caller(c)) && AtRest(t, Caller(c)) && AtRest(s, Holder) && AtRest(t, Holder)
    ensures forall w :: Unlists(t, w) <==> Unlists(s, w)
    ensures forall w | Unlists(s, w) :: TurnOf(t, w) == TurnOf(s, w)
    ensures Uncountings(t) == Uncountings(s)
  {
    CallersCount(s, t, c);
    forall w ensures Unlists(t, w) <==> Unlists(s, w) {
      if w.Caller? && w.c != c { assert w.c in t.callers <==> w.c in s.callers; }
    }
  }

  lemma RestingLists(s: State, t: State, c: nat)
    requires ListsOK(s) && SamePool(s, t) && CallersStay(s, t, c) && Coming(t) == Coming(s)
    requires AtRest(s, Caller(c)) && AtRest(t, Caller(c)) && AtRest(s, Holder) && AtRest(t, Holder)
    requires forall account: string :: IsDropping(s, account) ==> IsDropping(t, account)
    ensures ListsOK(t)
  {
    RestingDuties(s, t, c);
    forall account: string ensures AccountAgrees(t.pool, account, Owed(t, account), Coming(t)) {
      assert AccountAgrees(s.pool, account, Owed(s, account), Coming(s));
      assert IsDropping(t, account) || Owed(t, account) == Owed(s, account);
    }
  }

  lemma RestingTurns(s: State, t: State, c: nat)
    requires TurnsOK(s) && OneRemover(s) && SamePool(s, t) && CallersStay(s, t, c)
    requires AtRest(s, Caller(c)) && AtRest(t, Caller(c)) && AtRest(s, Holder) && AtRest(t, Holder)
    requires Works(t, Caller(c)) ==> TurnOK(t, TurnOf(t, Caller(c)))
    requires Works(t, Holder) ==> TurnOK(t, TurnOf(t, Holder))
    ensures TurnsOK(t) && OneRemover(t)
  {
    RestingDuties(s, t, c);
    forall w | Works(t, w) ensures TurnOK(t, TurnOf(t, w)) {
      if w.Caller? && w.c != c {
        assert Works(s, w) && TurnOf(t, w) == TurnOf(s, w);
        TurnStays(s, t, TurnOf(s, w));
      }
    }
    forall w | Unlists(t, w) ensures Unlists(s, w) && TurnOf(t, w).id == TurnOf(s, w).id {}
  }

  /** What is left to check of such a step. */
  ghost predicate RestOK(t: State, c: nat) {
    && HeldOK(t) && DropOK(t) && FoundOK(t) && ComingOK(t) && !t.section.Panicked?
    && (Works(t, Caller(c)) ==> TurnOK(t, TurnOf(t, Caller(c))))
    && (Works(t, Holder) ==> TurnOK(t, TurnOf(t, Holder)))
  }

  lemma RestingStep(s: State, t: State, c: nat)
    requires Consistent(s) && RemovalsOK(s) && SamePool(s, t) && CallersStay(s, t, c) && Coming(t) == Coming(s)
    requires AtRest(s, Caller(c)) && AtRest(t, Caller(c)) && AtRest(s, Holder) && AtRest(t, Holder)
    requires forall account: string :: IsDropping(s, account) ==> IsDropping(t, account)
    requires RestOK(t, c)
    ensures Consistent(t) && RemovalsOK(t)
  {
    RestingLists(s, t, c);
    RestingDuties(s, t, c);
    SameKeys(s.pool, t.pool);
    RestingTurns(s, t, c);
  }

  lemma MetricsStep(s: State, t: State, c: nat)
    requires Consistent(s) && RemovalsOK(s) && s.section.Free? && t.section.Free? && CallersStay(s, t, c)
    requires AtRest(s, Caller(c)) && (c in t.callers ==> !t.callers[c].Sweeping?)
    requires t.pool.connections == s.pool.connections && t.pool.lists == s.pool.lists
    requires t.pool.metrics.created == s.pool.metrics.created && t.pool.metrics.closed == s.pool.metrics.closed
    requires t.holders == s.holders && t.used == s.used && t.closedByRequest == s.closedByRequest
    ensures Consistent(t) && RemovalsOK(t)
  {
    RestingStep(s, t, c);
  }

  lemma SearchStep(s: State, t: State, c: nat, now: int, rest: seq<string>)
    requires Consistent(s) && RemovalsOK(s) && s.section.Free? && AtRest(s, Caller(c)) && CallersStay(s, t, c)
    requires t.section == Searching(c, now, rest) && IsTaking(t, c)
    requires t.pool == s.pool && t.holders == s.holders && t.used == s.used
    requires t.closedByRequest == s.closedByRequest
    ensures Consistent(t) && RemovalsOK(t)
  {
    RestingStep(s, t, c);
  }

  lemma EnterStep(cfg: Config, s: State, a: Action)
    requires Inv(s) && s.section.Free? && (a.Begin? || a.Recheck? || a.DialFails?) && AfterLocked(cfg, s, a).Some?
    ensures Consistent(AfterLocked(cfg, s, a).value) && RemovalsOK(AfterLocked(cfg, s, a).value)
  {
    var t := AfterLocked(cfg, s, a).value;
    if t.section.Free? {
      MetricsStep(s, t, a.c);
    } else {
      SearchStep(s, t, a.c, a.now, t.section.rest);
    }
  }

  lemma CheckStep(cfg: Config, s: State, c: nat, id: string)
    requires Inv(s) && AfterSweep(cfg, s, SweepCheck(c, id)).Some?
    ensures var t := AfterSweep(cfg, s, SweepCheck(c, id)).value;
            HeldOK(t) && DropOK(t) && ComingOK(t) && TurnOK(t, TurnOf(t, Caller(c)))
  {
  }

  /** A caller's sweep moves on while the holder of the lock may be anywhere. */
  lemma SweepLists(cfg: Config, s: State, a: Action)
    requires Inv(s) && (a.SweepStart? || a.SweepCheck? || a.SweepEnd?) && AfterSweep(cfg, s, a).Some?
    ensures ListsOK(AfterSweep(cfg, s, a).value) && TalliesOK(AfterSweep(cfg, s, a).value)
  {
    var t := AfterSweep(cfg, s, a).value;
    assert OthersStay(s, t, Caller(a.c));
    CallersCount(s, t, a.c);
    forall account: string ensures AccountAgrees(t.pool, account, Owed(t, account), Coming(t)) {
      OwedSame(s, t, Caller(a.c), account);
      assert AccountAgrees(s.pool, account, Owed(s, account), Coming(s));
    }
  }

  lemma SweepStep(cfg: Config, s: State, a: Action)
    requires Inv(s) && (a.SweepStart? || a.SweepCheck? || a.SweepEnd?) && AfterSweep(cfg, s, a).Some?
    ensures Consistent(AfterSweep(cfg, s, a).value) && RemovalsOK(AfterSweep(cfg, s, a).value)
  {
    var t := AfterSweep(cfg, s, a).value;
    SweepLists(cfg, s, a);
    assert OthersStay(s, t, Caller(a.c));
    if a.SweepCheck? { CheckStep(cfg, s, a.c, a.id); }
    TurnsMove(s, t, Caller(a.c));
    RemoverStays(s, t, Caller(a.c));
  }

  lemma ReleasedStep(s: State, u: State, id: string)
    requires Consistent(s) && RemovalsOK(s) && s.section.Free?
    requires u == s.(holders := u.holders)
    requires forall c | c in u.holders :: c in s.holders && u.holders[c] == s.holders[c]
    ensures Consistent(Released(u, id)) && RemovalsOK(Released(u, id))
  {
    var absent := Above(s.callers.Keys);
    RestingStep(s, Released(u, id), absent);
  }

  lemma ReleaseStep(cfg: Config, s: State, a: Action)
    requires Inv(s) && s.section.Free? && (a.Release? || a.ReleaseAgain?) && AfterOther(cfg, s, a).Some?
    ensures Consistent(AfterOther(cfg, s, a).value) && RemovalsOK(AfterOther(cfg, s, a).value)
  {
    if a.Release? {
      ReleasedStep(s, s.(holders := s.holders - {a.c}), s.holders[a.c]);
    } else {
      ReleasedStep(s, s, a.id);
    }
  }

  /** Close, CloseAccount and the cleanup begin. */
  lemma OpenStep(cfg: Config, s: State, a: Action)
    requires Inv(s) && s.section.Free? && (a.Close? || a.CloseAccount? || a.Tidy?) && AfterOther(cfg, s, a).Some?
    ensures Consistent(AfterOther(cfg, s, a).value) && RemovalsOK(AfterOther(cfg, s, a).value)
  {
    var absent := Above(s.callers.Keys);
    if a.CloseAccount? { assert AccountAgrees(s.pool, a.account, Owed(s, a.account), Coming(s)); }
    RestingStep(s, AfterOther(cfg, s, a).value, absent);
  }

  lemma TidyStep(cfg: Config, s: State, a: Action)
    requires Inv(s) && (a.TidyCheck? || a.TidyEnd?) && AfterOther(cfg, s, a).Some?
    ensures Consistent(AfterOther(cfg, s, a).value) && RemovalsOK(AfterOther(cfg, s, a).value)
  {
    var absent := Above(s.callers.Keys);
    RestingStep(s, AfterOther(cfg, s, a).value, absent);
  }

  lemma LookStep(cfg: Config, s: State, c: nat, now: int, rest: seq<string>)
    requires Consistent(s) && RemovalsOK(s) && s.section == Searching(c, now, rest) && IsTaking(s, c)
    ensures Consistent(AfterLook(cfg, s, c, now, rest)) && RemovalsOK(AfterLook(cfg, s, c, now, rest))
  {
    RestingStep(s, AfterLook(cfg, s, c, now, rest), c);
  }

  lemma LookupStep(s: State, c: nat, id: string)
    requires Consistent(s) && RemovalsOK(s) && s.section == Found(c, id) && id in s.pool.connections && IsTaking(s, c)
    ensures Consistent(AfterLookup(s, c, id)) && RemovalsOK(AfterLookup(s, c, id))
  {
    RestingStep(s, AfterLookup(s, c, id), c);
  }

  lemma MarkStep(s: State, c: nat, id: string, now: int)
    requires Consistent(s) && RemovalsOK(s) && s.section == Looked(c, id) && id in s.pool.connections && IsTaking(s, c)
    ensures Consistent(AfterMark(s, c, id, now)) && RemovalsOK(AfterMark(s, c, id, now))
  {
    RestingStep(s, AfterMark(s, c, id, now), c);
  }

  lemma TouchStep(s: State, id: string, now: int)
    requires Consistent(s) && RemovalsOK(s) && s.section == Touching(id)
    ensures Consistent(AfterTouch(s, id, now)) && RemovalsOK(AfterTouch(s, id, now))
  {
    var absent := Above(s.callers.Keys);
    RestingStep(s, AfterTouch(s, id, now), absent);
  }

  /** Insert reads the list: the new ID is not in it. */
  lemma ListReadStep(s: State, account: string, id: string)
    requires Consistent(s) && RemovalsOK(s) && s.section == Inserted(account, id)
    ensures Consistent(s.(section := Appending(account, id, ListOf(s.pool, account))))
    ensures RemovalsOK(s.(section := Appending(account, id, ListOf(s.pool, account))))
  {
    var absent := Above(s.callers.Keys);
    assert AccountAgrees(s.pool, account, Owed(s, account), Coming(s));
    OwedGone(s, account);
    RestingStep(s, s.(section := Appending(account, id, ListOf(s.pool, account))), absent);
  }

  lemma NextIDKeeps(s: State, account: string, rest: seq<string>)
    requires HoldersOK(s) && DropOK(s) && s.section == ClosingAccount(account, rest, Between) && rest != []
    ensures DropOK(AfterNextID(s, account, rest))
    ensures TurnOK(AfterNextID(s, account, rest), AfterNextID(s, account, rest).section.turn)
  {
    assert rest == [rest[0]] + rest[1..];
  }

  lemma NextIDStep(s: State, account: string, rest: seq<string>)
    requires Inv(s) && s.section == ClosingAccount(account, rest, Between) && rest != []
    ensures Consistent(AfterNextID(s, account, rest)) && RemovalsOK(AfterNextID(s, account, rest))
  {
    var absent := Above(s.callers.Keys);
    NextIDKeeps(s, account, rest);
    DroppingStep(s, AfterNextID(s, account, rest), account, absent);
  }

  lemma DroppingStep(s: State, t: State, account: string, absent: nat)
    requires Consistent(s) && RemovalsOK(s) && absent !in s.callers && AtRest(s, Holder) && AtRest(t, Holder)
    requires IsDropping(s, account) && IsDropping(t, account) && t == s.(section := t.section)
    requires DropOK(t) && TurnOK(t, t.section.turn)
    ensures Consistent(t) && RemovalsOK(t)
  {
    RestingStep(s, t, absent);
  }

  // ---- Inserting a connection ----

  /** The new connection is in the map, and its list is still to be written. */
  lemma StoreAgrees(p: Pool, q: Pool, account: string, owed: iset<string>, id: string)
    requires AccountAgrees(p, account, owed, {}) && id !in p.connections && id !in owed
    requires q.lists == p.lists && id in q.connections && q.connections - {id} == p.connections
    ensures AccountAgrees(q, account, owed, {id})
  {
    assert forall x | x in q.connections && x != id :: x in p.connections && q.connections[x] == p.connections[x];
    assert forall x | x in p.connections :: x in q.connections && x != id;
  }

  lemma StoreLists(s: State, t: State, c: nat, id: string, account: string)
    requires Inv(s) && s.section.Free? && IsDialling(s, c) && id !in s.used
    requires t.pool.lists == s.pool.lists && t.callers == s.callers - {c}
    requires t.section.Inserted? && t.section.id == id
    requires id in t.pool.connections && t.pool.connections - {id} == s.pool.connections
    ensures AccountAgrees(t.pool, account, Owed(t, account), Coming(t))
  {
    assert AccountAgrees(s.pool, account, Owed(s, account), Coming(s));
    OwedGone(s, account);
    StoreAgrees(s.pool, t.pool, account, Owed(s, account), id);
    RestingDuties(s, t, c);
    assert Owed(t, account) == Owed(s, account);
  }

  lemma StoreStep(s: State, c: nat, id: string, account: string, kind: string, now: int)
    requires Inv(s) && s.section.Free? && IsDialling(s, c) && id !in s.used
    ensures Consistent(Stored(s, c, id, account, kind, now)) && RemovalsOK(Stored(s, c, id, account, kind, now))
  {
    var t := Stored(s, c, id, account, kind, now);
    assert t.pool.connections - {id} == s.pool.connections;
    forall a: string ensures AccountAgrees(t.pool, a, Owed(t, a), Coming(t)) {
      StoreLists(s, t, c, id, a);
    }
    RestingDuties(s, t, c);
    SizePut(s.pool.connections, id, t.pool.connections[id]);
    StoreTurns(s, t, c, id);
  }

  lemma StoreTurns(s: State, t: State, c: nat, id: string)
    requires TurnsOK(s) && OneRemover(s) && s.section.Free? && IsDialling(s, c) && Later(s, t)
    requires t.callers == s.callers - {c} && t.section.Inserted?
    ensures TurnsOK(t) && OneRemover(t)
  {
    assert OthersStay(s, t, Caller(c));
    TurnsMove(s, t, Caller(c));
    RemoverStays(s, t, Caller(c));
  }

  /** Writing back the list read before, with the new ID: right exactly when it still has the same IDs. */
  lemma AppendBack(p: Pool, q: Pool, account: string, owed: iset<string>, id: string, ids: seq<string>)
    requires AccountAgrees(p, account, owed, {id}) && id in p.connections && p.connections[id].account == account
    requires Distinct(ids) && id !in ids && forall x | x in owed :: x !in p.connections
    requires q.connections == p.connections && ListOf(q, account) == ids + [id]
    ensures AccountAgrees(q, account, owed, {})
      <==> forall x | x in p.connections || x !in owed :: x in ids <==> x in ListOf(p, account)
  {
    DistinctConcat(ids, [id]);
    assert forall x :: x in ids + [id] <==> x in ids || x == id;
    if AccountAgrees(q, account, owed, {}) {
      forall x | x in p.connections || x !in owed ensures x in ids <==> x in ListOf(p, account) {
        assert x in ListOf(q, account) <==> x in ids || x == id;
      }
    }
    if forall x | x in p.connections || x !in owed :: x in ids <==> x in ListOf(p, account) {
      forall x | x in p.connections ensures x in ids + [id] <==> p.connections[x].account == account {
        assert x in ids <==> x in ListOf(p, account);
      }
      forall x | x in ids + [id] ensures x in p.connections || x in owed {
        assert x in ids ==> (x in p.connections || x !in owed ==> x in ListOf(p, account));
      }
    }
  }

  function Appended(s: State): State
    requires s.section.Appending?
  {
    s.(pool := s.pool.(lists := s.pool.lists[s.section.account := s.section.ids + [s.section.id]]), section := Free)
  }

  lemma AppendLists(s: State, account: string)
    requires Inv(s) && s.section.Appending?
    ensures AccountAgrees(Appended(s).pool, account, Owed(Appended(s), account), {})
      <==> (account == s.section.account ==> GentleSection(s))
  {
    var t, id := Appended(s), s.section.id;
    var absent := Above(s.callers.Keys);
    RestingDuties(s, t, absent);
    assert AccountAgrees(s.pool, account, Owed(s, account), Coming(s));
    assert Owed(t, account) == Owed(s, account);
    OwedGone(s, account);
    if account == s.section.account {
      AppendBack(s.pool, t.pool, account, Owed(s, account), id, s.section.ids);
    }
  }

  lemma AppendStep(s: State)
    requires Inv(s) && s.section.Appending?
    ensures Consistent(Appended(s)) <==> GentleSection(s)
    ensures RemovalsOK(Appended(s))
  {
    var t := Appended(s);
    var absent := Above(s.callers.Keys);
    forall account: string
      ensures AccountAgrees(t.pool, account, Owed(t, account), Coming(t))
        <==> (account == s.section.account ==> GentleSection(s))
    {
      AppendLists(s, account);
    }
    if ListsOK(t) {
      assert AccountAgrees(t.pool, s.section.account, Owed(t, s.section.account), Coming(t));
    }
    RestingDuties(s, t, absent);
    AppendTurns(s, t, absent);
  }

  lemma AppendTurns(s: State, t: State, absent: nat)
    requires TurnsOK(s) && OneRemover(s) && s.section.Appending? && t.section.Free? && Later(s, t)
    requires t.callers == s.callers && absent !in s.callers
    ensures TurnsOK(t) && OneRemover(t)
  {
    assert OthersStay(s, t, Caller(absent));
    TurnsMove(s, t, Caller(absent));
    RemoverStays(s, t, Caller(absent));
  }

  // ---- CloseAccount drops the list ----

  lemma DropAgrees(p: Pool, q: Pool, account: string, owed: iset<string>)
    requires q.connections == p.connections && q.lists == p.lists - {account}
    requires forall x | x in p.connections :: p.connections[x].account != account
    ensures AccountAgrees(q, account, owed, {})
  {
  }

  lemma DropOthers(p: Pool, q: Pool, account: string, a: string, owed: iset<string>)
    requires q.connections == p.connections && q.lists == p.lists - {account} && a != account
    requires AccountAgrees(p, a, owed, {})
    ensures AccountAgrees(q, a, owed, {})
  {
    assert ListOf(q, a) == ListOf(p, a);
  }

  lemma DropLists(s: State, t: State, account: string, a: string)
    requires Inv(s) && s.section == ClosingAccount(account, [], Between)
    requires t == s.(pool := s.pool.(lists := s.pool.lists - {account}), section := Free)
    ensures AccountAgrees(t.pool, a, Owed(t, a), {})
  {
    if a == account {
      DropAgrees(s.pool, t.pool, a, Owed(t, a));
    } else {
      assert AccountAgrees(s.pool, a, Owed(s, a), Coming(s));
      DropOwed(s, t, a);
      DropOthers(s.pool, t.pool, account, a, Owed(s, a));
    }
  }

  lemma DropOwed(s: State, t: State, a: string)
    requires s.section.ClosingAccount? && s.section.turn.Between? && s.section.account != a
    requires t.section.Free? && t.callers == s.callers
    ensures Owed(t, a) == Owed(s, a)
  {
    OwedSame(s, t, Holder, a);
  }

  lemma DropStep(s: State, account: string)
    requires Inv(s) && s.section == ClosingAccount(account, [], Between)
    ensures Consistent(AfterNextID(s, account, [])) && RemovalsOK(AfterNextID(s, account, []))
  {
    var t := AfterNextID(s, account, []);
    var absent := Above(s.callers.Keys);
    forall a: string ensures AccountAgrees(t.pool, a, Owed(t, a), Coming(t)) {
      DropLists(s, t, account, a);
    }
    RestingDuties(s, t, absent);
    DropTurns(s, t);
  }

  lemma DropTurns(s: State, t: State)
    requires TurnsOK(s) && OneRemover(s) && s.section.ClosingAccount? && s.section.turn.Between? && t.section.Free?
    requires t.callers == s.callers && Later(s, t)
    ensures TurnsOK(t) && OneRemover(t)
  {
    assert OthersStay(s, t, Holder);
    TurnsMove(s, t, Holder);
    RemoverStays(s, t, Holder);
  }

  // ---- The five accesses of a removal ----

  lemma TurnMoves(s: State, w: Worker)
    requires Works(s, w)
    ensures OthersStay(s, AfterAdvance(s, w), w) && Coming(AfterAdvance(s, w)) == Coming(s)
    ensures Works(AfterAdvance(s, w), w) ==>
        TurnOf(AfterAdvance(s, w), w) == TurnAfter(s.pool, TurnOf(s, w), DropsList(s, w))
    ensures Works(AfterAdvance(s, w), w) || (w.Holder? && TurnOf(s, w).Reading? && AfterAdvance(s, w).section.Free?)
    ensures DropsList(AfterAdvance(s, w), w) == DropsList(s, w)
    ensures forall account :: IsDropping(AfterAdvance(s, w), account) <==> IsDropping(s, account)
  {
  }

  lemma SameListsTurned(s: State, t: State, w: Worker)
    requires ListsOK(s) && t.pool.lists == s.pool.lists && t.pool.connections == s.pool.connections
    requires OthersStay(s, t, w) && Coming(t) == Coming(s) && (Unlists(s, w) <==> Unlists(t, w))
    requires forall account :: IsDropping(t, account) <==> IsDropping(s, account)
    requires Unlists(s, w) ==> TurnOf(t, w).id == TurnOf(s, w).id && TurnOf(t, w).owner == TurnOf(s, w).owner
    ensures ListsOK(t)
  {
    forall account: string ensures AccountAgrees(t.pool, account, Owed(t, account), Coming(t)) {
      OwedSame(s, t, w, account);
      assert AccountAgrees(s.pool, account, Owed(s, account), Coming(s));
    }
  }

  lemma ReadTurns(s: State, w: Worker)
    requires Inv(s) && Works(s, w) && (TurnOf(s, w).Deleted? || TurnOf(s, w).Counted?)
    ensures Consistent(AfterAdvance(s, w)) && RemovalsOK(AfterAdvance(s, w))
  {
    var t := AfterAdvance(s, w);
    TurnMoves(s, w);
    assert AccountAgrees(s.pool, TurnOf(s, w).owner, Owed(s, TurnOf(s, w).owner), Coming(s));
    assert TurnOK(s, TurnOf(s, w));
    SameListsTurned(s, t, w);
    UncountedTurned(s, w, TurnOf(t, w));
    TurnsMove(s, t, w);
    RemoverStays(s, t, w);
  }

  lemma TallyTurn(s: State, w: Worker)
    requires Inv(s) && Works(s, w) && TurnOf(s, w).Tallying?
    ensures Consistent(AfterAdvance(s, w)) <==> GentleTurn(s, w)
    ensures RemovalsOK(AfterAdvance(s, w))
  {
    var t := AfterAdvance(s, w);
    TurnMoves(s, w);
    assert TurnOK(s, TurnOf(s, w));
    SameListsTurned(s, t, w);
    UncountedTurned(s, w, TurnOf(t, w));
    TurnsMove(s, t, w);
    RemoverStays(s, t, w);
  }

  /** What a removal takes out of the map can be taken: it is stored, and nobody's unless asked for. */
  ghost predicate CanDelete(s: State, w: Worker) {
    Works(s, w) && TurnOf(s, w).Checked? && GentleTurn(s, w)
  }

  lemma DeleteLists(s: State, w: Worker, account: string)
    requires Inv(s) && CanDelete(s, w)
    ensures AccountAgrees(AfterAdvance(s, w).pool, account, Owed(AfterAdvance(s, w), account), Coming(s))
  {
    var t := AfterAdvance(s, w);
    TurnMoves(s, w);
    assert TurnOK(s, TurnOf(s, w));
    if DropsList(s, w) {
      OwedSame(s, t, w, account);
    } else {
      OwedMore(s, t, w, account);
    }
    assert AccountAgrees(s.pool, account, Owed(s, account), Coming(s));
  }

  lemma DeleteRemovers(s: State, w: Worker)
    requires Inv(s) && CanDelete(s, w)
    ensures TurnsOK(AfterAdvance(s, w)) && OneRemover(AfterAdvance(s, w))
  {
    var t := AfterAdvance(s, w);
    TurnMoves(s, w);
    assert TurnOK(s, TurnOf(s, w));
    TurnsMove(s, t, w);
    forall v | v != w && Unlists(t, v) ensures Unlists(s, v) && TurnOf(t, v) == TurnOf(s, v) {
      assert Works(s, v);
    }
    forall v | v != w && Unlists(t, v) ensures TurnOf(t, v).id != TurnOf(s, w).id {
      assert TurnOK(s, TurnOf(s, v));
    }
  }

  lemma DeleteSections(s: State, w: Worker)
    requires Inv(s) && CanDelete(s, w)
    ensures var t := AfterAdvance(s, w); ClosedOK(t) && DropOK(t) && FoundOK(t) && ComingOK(t)
  {
    assert TurnOK(s, TurnOf(s, w));
  }

  lemma DeleteHeld(s: State, w: Worker)
    requires Inv(s) && CanDelete(s, w)
    ensures HeldOK(AfterAdvance(s, w))
  {
    var t := AfterAdvance(s, w);
    forall c | c in t.holders ensures t.holders[c] in t.pool.connections || t.holders[c] in t.closedByRequest {
      assert Holds(s, c, s.holders[c]);
    }
  }

  lemma DeleteKeeps(s: State, w: Worker)
    requires Inv(s) && CanDelete(s, w)
    ensures Consistent(AfterAdvance(s, w)) && RemovalsOK(AfterAdvance(s, w))
  {
    var t := AfterAdvance(s, w);
    TurnMoves(s, w);
    forall account: string ensures AccountAgrees(t.pool, account, Owed(t, account), Coming(t)) {
      DeleteLists(s, w, account);
    }
    UncountedTurned(s, w, TurnOf(t, w));
    SizeDrop(s.pool.connections, TurnOf(s, w).id);
    DeleteHeld(s, w);
    DeleteRemovers(s, w);
    DeleteSections(s, w);
  }

  /** A connection that is gone is counted twice; one in use is lost to its holder. */
  lemma DeleteBreaks(s: State, w: Worker)
    requires Inv(s) && Works(s, w) && TurnOf(s, w).Checked? && !GentleTurn(s, w)
    ensures !Consistent(AfterAdvance(s, w))
  {
    var t, id := AfterAdvance(s, w), TurnOf(s, w).id;
    TurnMoves(s, w);
    UncountedTurned(s, w, TurnOf(t, w));
    SizeDrop(s.pool.connections, id);
    if id in s.pool.connections {
      assert IsHeld(s, id);
      var c :| Holds(s, c, id);
      assert t.holders[c] == id;
    }
  }

  /** Writing back a list read earlier without the ID: right exactly when it still has the same IDs. */
  lemma WriteBack(p: Pool, q: Pool, account: string, owed: iset<string>, coming: set<string>, id: string,
                  ids: seq<string>)
    requires AccountAgrees(p, account, owed, coming) && Distinct(ids) && id in ids && id in owed
    requires forall x | x in owed :: x !in p.connections
    requires q.connections == p.connections && ListOf(q, account) == Without(ids, id)
    ensures AccountAgrees(q, account, owed - iset{id}, coming)
      <==> forall x | x in p.connections || x !in owed :: x in ids <==> x in ListOf(p, account)
  {
    WithoutMembers(ids, id);
    var back := Without(ids, id);
    assert forall x :: x in back <==> x in ids && x != id;
    if AccountAgrees(q, account, owed - iset{id}, coming) {
      forall x | x in p.connections || x !in owed ensures x in ids <==> x in ListOf(p, account) {
        assert x in ids <==> x in back;
      }
    }
    if forall x | x in p.connections || x !in owed :: x in ids <==> x in ListOf(p, account) {
      WriteBackKeeps(p, q, account, owed, coming, id, ids);
    }
  }

  lemma WriteBackKeeps(p: Pool, q: Pool, account: string, owed: iset<string>, coming: set<string>, id: string,
                       ids: seq<string>)
    requires AccountAgrees(p, account, owed, coming) && Distinct(ids) && id !in p.connections
    requires q.connections == p.connections && ListOf(q, account) == Without(ids, id)
    requires forall x | x in p.connections || x !in owed :: x in ids <==> x in ListOf(p, account)
    ensures AccountAgrees(q, account, owed - iset{id}, coming)
  {
    WithoutMembers(ids, id);
    var back := Without(ids, id);
    assert forall x :: x in back <==> x in ids && x != id;
    forall x | x in p.connections && x !in coming ensures x in back <==> p.connections[x].account == account {
      assert x in back <==> x in ids;
    }
    forall x | x in back ensures (x in p.connections && x !in coming) || x in owed - iset{id} {
      assert x in ids;
    }
  }

  lemma UnlistOwner(s: State, w: Worker)
    requires Inv(s) && Unlists(s, w) && TurnOf(s, w).Reading? && !IsDropping(s, TurnOf(s, w).owner)
    ensures var t := AfterAdvance(s, w); var owner := TurnOf(s, w).owner;
            AccountAgrees(t.pool, owner, Owed(t, owner), Coming(t)) <==> GentleTurn(s, w)
  {
    var t, turn := AfterAdvance(s, w), TurnOf(s, w);
    TurnMoves(s, w);
    assert TurnOK(s, turn);
    assert AccountAgrees(s.pool, turn.owner, Owed(s, turn.owner), Coming(s));
    OwedLess(s, t, w, turn.owner);
    OwedGone(s, turn.owner);
    assert turn.id in Owed(s, turn.owner);
    if turn.id in turn.ids {
      WriteBack(s.pool, t.pool, turn.owner, Owed(s, turn.owner), Coming(s), turn.id, turn.ids);
    }
  }

  /** CloseAccount will drop the list anyway, but until then what is stored must stand in it. */
  lemma UnlistDropping(s: State, w: Worker)
    requires Inv(s) && Unlists(s, w) && TurnOf(s, w).Reading? && IsDropping(s, TurnOf(s, w).owner)
    ensures var t := AfterAdvance(s, w); var owner := TurnOf(s, w).owner;
            AccountAgrees(t.pool, owner, Owed(t, owner), Coming(t)) <==> GentleTurn(s, w)
  {
    var t, turn := AfterAdvance(s, w), TurnOf(s, w);
    TurnMoves(s, w);
    assert TurnOK(s, turn);
    assert AccountAgrees(s.pool, turn.owner, Owed(s, turn.owner), Coming(s));
    WithoutMembers(turn.ids, turn.id);
  }

  lemma UnlistOther(s: State, w: Worker, account: string)
    requires Inv(s) && Unlists(s, w) && TurnOf(s, w).Reading? && account != TurnOf(s, w).owner
    ensures AccountAgrees(AfterAdvance(s, w).pool, account, Owed(AfterAdvance(s, w), account), Coming(s))
  {
    TurnMoves(s, w);
    if !IsDropping(s, account) { OwedLess(s, AfterAdvance(s, w), w, account); }
    assert AccountAgrees(s.pool, account, Owed(s, account), Coming(s));
  }

  lemma UnlistLists(s: State, w: Worker)
    requires Inv(s) && Unlists(s, w) && TurnOf(s, w).Reading?
    ensures ListsOK(AfterAdvance(s, w)) <==> GentleTurn(s, w)
  {
    var t, owner := AfterAdvance(s, w), TurnOf(s, w).owner;
    TurnMoves(s, w);
    if IsDropping(s, owner) {
      UnlistDropping(s, w);
    } else {
      UnlistOwner(s, w);
    }
    forall account: string | account != owner ensures AccountAgrees(t.pool, account, Owed(t, account), Coming(t)) {
      UnlistOther(s, w, account);
    }
    if ListsOK(t) { assert AccountAgrees(t.pool, owner, Owed(t, owner), Coming(t)); }
  }

  lemma UnlistTallies(s: State, w: Worker)
    requires Works(s, w) && TurnOf(s, w).Reading?
    ensures Uncountings(AfterAdvance(s, w)) == Uncountings(s)
  {
    UncountedTurned(s, w, Between);
  }

  lemma UnlistTurn(s: State, w: Worker)
    requires Inv(s) && Works(s, w) && TurnOf(s, w).Reading?
    ensures Consistent(AfterAdvance(s, w)) <==> GentleTurn(s, w)
    ensures RemovalsOK(AfterAdvance(s, w))
  {
    var t := AfterAdvance(s, w);
    TurnMoves(s, w);
    UnlistLists(s, w);
    UnlistTallies(s, w);
    TurnsMove(s, t, w);
    RemoverStays(s, t, w);
  }

  // ---- Exactly the gentle steps keep the pool consistent ----

  lemma AdvanceStep(s: State, w: Worker)
    requires Inv(s) && IsRemoving(s, w)
    ensures Consistent(AfterAdvance(s, w)) <==> GentleTurn(s, w)
    ensures GentleTurn(s, w) ==> RemovalsOK(AfterAdvance(s, w))
  {
    if TurnOf(s, w).Checked? {
      if GentleTurn(s, w) {
        DeleteKeeps(s, w);
      } else {
        DeleteBreaks(s, w);
      }
    } else if TurnOf(s, w).Tallying? {
      TallyTurn(s, w);
    } else if TurnOf(s, w).Reading? {
      UnlistTurn(s, w);
    } else {
      ReadTurns(s, w);
    }
  }

  /** A caller that finds nothing to look up panics; one that marks what has gone is handed a closed connection. */
  lemma GoneBreaks(cfg: Config, s: State, now: int)
    requires Inv(s) && (s.section.Found? || s.section.Looked?) && s.section.id !in s.pool.connections
    ensures AfterProceed(cfg, s, now).Some? && !Consistent(AfterProceed(cfg, s, now).value)
  {
    var t := AfterProceed(cfg, s, now).value;
    if s.section.Looked? {
      assert t.holders[s.section.c] == s.section.id;
    }
  }

  lemma ProceedStep(cfg: Config, s: State, now: int)
    requires Inv(s) && AfterProceed(cfg, s, now).Some?
    ensures Consistent(AfterProceed(cfg, s, now).value) <==> GentleSection(s)
    ensures GentleSection(s) ==> RemovalsOK(AfterProceed(cfg, s, now).value)
  {
    if s.section.Searching? {
      LookStep(cfg, s, s.section.c, s.section.now, s.section.rest);
    } else if s.section.Found? || s.section.Looked? {
      if s.section.id !in s.pool.connections {
        GoneBreaks(cfg, s, now);
      } else if s.section.Found? {
        LookupStep(s, s.section.c, s.section.id);
      } else {
        MarkStep(s, s.section.c, s.section.id, now);
      }
    } else if s.section.Inserted? {
      ListReadStep(s, s.section.account, s.section.id);
    } else if s.section.Appending? {
      AppendStep(s);
    } else if s.section.Touching? {
      TouchStep(s, s.section.id, now);
    } else if s.section.rest == [] {
      DropStep(s, s.section.account);
    } else {
      NextIDStep(s, s.section.account, s.section.rest);
    }
  }

  lemma OtherStep(cfg: Config, s: State, a: Action)
    requires Inv(s) && Next(cfg, s, a).Some? && !a.Advance? && !a.Proceed?
    ensures Consistent(Next(cfg, s, a).value) && RemovalsOK(Next(cfg, s, a).value)
  {
    if a.Begin? || a.Recheck? || a.DialFails? {
      EnterStep(cfg, s, a);
    } else if a.DialDone? {
      StoreStep(s, a.c, a.id, s.callers[a.c].account, s.callers[a.c].kind, a.now);
    } else if a.SweepStart? || a.SweepCheck? || a.SweepEnd? {
      SweepStep(cfg, s, a);
    } else if a.Release? || a.ReleaseAgain? {
      ReleaseStep(cfg, s, a);
    } else if a.TidyCheck? || a.TidyEnd? {
      TidyStep(cfg, s, a);
    } else {
      OpenStep(cfg, s, a);
    }
  }

  /** A step keeps the pool consistent if and only if it is gentle. */
  lemma StepExactly(cfg: Config, s: State, a: Action)
    requires Inv(s) && Next(cfg, s, a).Some?
    ensures Consistent(Next(cfg, s, a).value) <==> Gentle(s, a)
    ensures Gentle(s, a) ==> Inv(Next(cfg, s, a).value)
  {
    HoldersStep(cfg, s, a);
    if a.Advance? {
      AdvanceStep(s, a.w);
    } else if a.Proceed? {
      ProceedStep(cfg, s, a.now);
    } else {
      OtherStep(cfg, s, a);
    }
  }

  lemma InitialIsConsistent()
    ensures Inv(INITIAL)
  {
    InitialLists();
    InitialTurns();
    InitialHolders();
  }

  lemma InitialLists()
    ensures ListsOK(INITIAL) && TalliesOK(INITIAL)
  {
    NothingOwed(INITIAL);
    forall account: string ensures AccountAgrees(EMPTY, account, Owed(INITIAL, account), Coming(INITIAL)) {
      assert ListOf(EMPTY, account) == [];
    }
  }

  lemma InitialHolders()
    ensures HoldersOK(INITIAL) && SearchOK(INITIAL) && HeldOK(INITIAL)
    ensures ClosedOK(INITIAL) && DropOK(INITIAL) && FoundOK(INITIAL) && ComingOK(INITIAL)
  {
    assert forall c :: c !in INITIAL.holders;
  }

  lemma InitialTurns()
    ensures TurnsOK(INITIAL) && OneRemover(INITIAL)
  {
    assert forall w :: !Works(INITIAL, w);
  }

  /**
    In every gentle run each account's list has its connections, each once, but for one that is just being inserted,
    and beyond them only what somebody is removing; what was created and not yet counted as closed is stored or
    about to be counted; nobody loses a connection but by request, and no acquire panics.
   */
  lemma {:induction false} PoolIsConsistent(cfg: Config, actions: seq<Action>)
    requires Run(cfg, INITIAL, actions).Some? && GentleRun(cfg, INITIAL, actions)
    ensures Inv(Run(cfg, INITIAL, actions).value)
    decreases |actions|
  {
    if actions == [] {
      InitialIsConsistent();
    } else {
      var before, a := actions[..|actions| - 1], actions[|actions| - 1];
      var s := Run(cfg, INITIAL, before).value;
      PoolIsConsistent(cfg, before);
      assert Run(cfg, INITIAL, actions) == Next(cfg, s, a);
      StepExactly(cfg, s, a);
    }
  }

  /** Consistent in all the states the run passes through. */
  ghost predicate AlwaysConsistent(cfg: Config, actions: seq<Action>)
    decreases |actions|
  {
    Run(cfg, INITIAL, actions).Some? && Consistent(Run(cfg, INITIAL, actions).value) &&
    (actions == [] || AlwaysConsistent(cfg, actions[..|actions| - 1]))
  }

  /** The pool stays consistent exactly in the runs whose steps are all gentle. */
  lemma {:induction false} ConsistentExactly(cfg: Config, actions: seq<Action>)
    requires Run(cfg, INITIAL, actions).Some?
    ensures AlwaysConsistent(cfg, actions) <==> GentleRun(cfg, INITIAL, actions)
    decreases |actions|
  {
    if actions == [] {
      PoolIsConsistent(cfg, actions);
    } else {
      var before := actions[..|actions| - 1];
      ConsistentExactly(cfg, before);
      if GentleRun(cfg, INITIAL, before) {
        PoolIsConsistent(cfg, before);
        StepExactly(cfg, Run(cfg, INITIAL, before).value, actions[|actions| - 1]);
      }
    }
  }

  lemma GentleRunsDoNotPanic(cfg: Config, actions: seq<Action>)
    requires Run(cfg, INITIAL, actions).Some? && GentleRun(cfg, INITIAL, actions)
    ensures !Run(cfg, INITIAL, actions).value.section.Panicked?
  {
    PoolIsConsistent(cfg, actions);
  }

  lemma AcquiresFlow(cfg: Config, actions: seq<Action>)
    requires Run(cfg, INITIAL, actions).Some?
    ensures FlowOK(Run(cfg, INITIAL, actions).value)
  {
    OneHolder(cfg, actions);
  }

  /** In a gentle run every acquire that began was served, failed, or is still inside: none panics. */
  lemma GentleAcquiresEnd(cfg: Config, actions: seq<Action>, s: State)
    requires Run(cfg, INITIAL, actions) == Some(s) && GentleRun(cfg, INITIAL, actions)
    ensures s.started == s.handed + s.pool.metrics.errors + |s.callers|
  {
    GentleRunsDoNotPanic(cfg, actions);
    AcquiresFlow(cfg, actions);
  }

  // ---- When nothing is under way ----

  /** Nobody has the lock, and no sweep is removing a connection. */
  ghost predicate Settled(s: State) {
    s.section.Free? && forall w :: !IsRemoving(s, w)
  }

  lemma NothingOwed(s: State)
    requires Settled(s)
    ensures Uncountings(s) == 0 && Coming(s) == {} && forall account :: Owed(s, account) == iset{}
  {
    forall w ensures !Unlists(s, w) {
      assert !IsRemoving(s, w);
    }
    forall c | c in s.callers ensures !Uncounted(s.callers[c]) {
      assert !IsRemoving(s, Caller(c));
    }
    CountNone(s.callers, Uncounted);
  }

  /** Map, lists and counters describe the same connections. */
  ghost predicate Agree(p: Pool) {
    (forall account: string :: AccountAgrees(p, account, iset{}, {})) &&
    p.metrics.created - p.metrics.closed == |p.connections|
  }

  /** With nothing under way, that is plain agreement. */
  lemma SettledAgrees(s: State)
    requires Inv(s)
    ensures Settled(s) ==> Agree(s.pool)
  {
    if Settled(s) {
      NothingOwed(s);
      forall account: string ensures AccountAgrees(s.pool, account, iset{}, {}) {
        assert AccountAgrees(s.pool, account, Owed(s, account), Coming(s));
      }
    }
  }

  ghost predicate HasIdle(cfg: Config, p: Pool, account: string, kind: string, now: int) {
    exists id :: id in p.connections && CanServe(cfg, p.connections[id], account, kind, now)
  }

  /**
    So what the list names at the time when an acquirer gets the lock has an idle connection of the account whenever
    there is one, even while sweeps are at work.
   */
  lemma IdleIsFound(cfg: Config, s: State, account: string, kind: string, now: int)
    requires Inv(s) && s.section.Free?
    ensures FindIdle(cfg, s.pool, account, kind, now).Some? <==> HasIdle(cfg, s.pool, account, kind, now)
    ensures FindIdle(cfg, s.pool, account, kind, now).Some? ==>
      var id := FindIdle(cfg, s.pool, account, kind, now).value;
      id in s.pool.connections && CanServe(cfg, s.pool.connections[id], account, kind, now)
  {
    assert AccountAgrees(s.pool, account, Owed(s, account), Coming(s));
    FindIdleIsComplete(cfg, s.pool, account, kind, now, Owed(s, account));
  }
}
