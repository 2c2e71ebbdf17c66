/**
  Calls of the connection pool that nothing falls into: runs made of them are harmless, and each call is then the one
  change of the pool that its specification says.
 */
module ConnectionPoolCalls {
  import opened Wrappers
  import opened Sorting
  import opened ConnectionPool
  import opened ConnectionPoolRuns
  import opened ConnectionPoolSweeps

  // ---- Runs in which no removal overlaps another call ----

  /** While a sweep without the lock removes a connection nobody else moves, and it does not begin under a lock. */
  ghost predicate Quiet(s: State, a: Action) {
    && (forall c | IsRemoving(s, Caller(c)) :: a == Advance(Caller(c)))
    && (!s.section.Free? ==> !a.SweepCheck?)
  }

  ghost predicate QuietRun(cfg: Config, s: State, actions: seq<Action>)
    decreases |actions|
  {
    actions == [] ||
    (QuietRun(cfg, s, actions[..|actions| - 1]) && Run(cfg, s, actions[..|actions| - 1]).Some? &&
     Quiet(Run(cfg, s, actions[..|actions| - 1]).value, actions[|actions| - 1]))
  }

  /** What the removal under way has read is still so. */
  ghost predicate FreshTurn(s: State, w: Worker)
    requires Works(s, w)
  {
    match TurnOf(s, w)
    case Checked(id, _) => id in s.pool.connections && (Requested(s, w) || !s.pool.connections[id].inUse)
    case Tallying(_, _, closed) => closed == s.pool.metrics.closed
    case Reading(_, owner, ids) => ids == ListOf(s.pool, owner)
    case _ => true
  }

  ghost predicate FreshSection(s: State) {
    && (s.section.Found? || s.section.Looked? ==> s.section.id in s.pool.connections)
    && (s.section.Appending? ==> s.section.ids == ListOf(s.pool, s.section.account))
  }

  ghost predicate AllFresh(s: State) {
    && (forall v, w | IsRemoving(s, v) && IsRemoving(s, w) :: v == w)
    && (forall c | IsRemoving(s, Caller(c)) :: s.section.Free?)
    && (forall w | IsRemoving(s, w) :: FreshTurn(s, w))
    && FreshSection(s)
  }

  lemma FreshIsGentle(s: State, a: Action)
    requires AllFresh(s)
    ensures Gentle(s, a)
  {
  }

  lemma QuietAdvance(s: State, w: Worker)
    requires AllFresh(s) && IsRemoving(s, w)
    ensures AllFresh(AfterAdvance(s, w))
  {
    var t := AfterAdvance(s, w);
    forall v | IsRemoving(t, v) ensures v == w && FreshTurn(t, v) {
      if v != w { assert IsRemoving(s, v); }
    }
  }

  /** No caller is removing a connection. */
  ghost predicate NoSweepRemoves(s: State) {
    forall c :: !IsRemoving(s, Caller(c))
  }

  lemma QuietProceed(cfg: Config, s: State, now: int)
    requires AllFresh(s) && NoSweepRemoves(s) && AfterProceed(cfg, s, now).Some?
    ensures AllFresh(AfterProceed(cfg, s, now).value)
  {
    var t := AfterProceed(cfg, s, now).value;
    forall c ensures !IsRemoving(t, Caller(c)) {
      assert !IsRemoving(s, Caller(c));
    }
    assert IsRemoving(t, Holder) ==> FreshTurn(t, Holder);
  }

  lemma QuietSweep(cfg: Config, s: State, a: Action)
    requires AllFresh(s) && NoSweepRemoves(s) && (a.SweepStart? || a.SweepCheck? || a.SweepEnd?)
    requires AfterSweep(cfg, s, a).Some? && (a.SweepCheck? ==> s.section.Free?)
    ensures AllFresh(AfterSweep(cfg, s, a).value)
  {
    var t := AfterSweep(cfg, s, a).value;
    forall w | IsRemoving(t, w)
      ensures (w == Holder && !a.SweepCheck?) || (a.SweepCheck? && w == Caller(a.c))
      ensures FreshTurn(t, w)
    {
      if w.Caller? { assert !IsRemoving(s, w); } else { assert IsRemoving(s, w); }
    }
  }

  lemma QuietLocked(cfg: Config, s: State, a: Action)
    requires AllFresh(s) && NoSweepRemoves(s) && s.section.Free?
    requires (a.Begin? || a.Recheck? || a.DialFails? || a.DialDone?) && AfterLocked(cfg, s, a).Some?
    ensures AllFresh(AfterLocked(cfg, s, a).value)
  {
    var t := AfterLocked(cfg, s, a).value;
    forall w ensures !IsRemoving(t, w) {
      if w.Caller? { assert !IsRemoving(s, w); }
    }
  }

  lemma QuietOther(cfg: Config, s: State, a: Action)
    requires AllFresh(s) && NoSweepRemoves(s) && (NeedsLock(a) ==> s.section.Free?)
    requires a.Release? || a.ReleaseAgain? || a.Close? || a.CloseAccount? || a.Tidy? || a.TidyCheck? || a.TidyEnd?
    requires AfterOther(cfg, s, a).Some?
    ensures AllFresh(AfterOther(cfg, s, a).value)
  {
    var t := AfterOther(cfg, s, a).value;
    forall c ensures !IsRemoving(t, Caller(c)) {
      assert !IsRemoving(s, Caller(c));
    }
    assert IsRemoving(t, Holder) ==> FreshTurn(t, Holder);
  }

  lemma QuietStep(cfg: Config, s: State, a: Action)
    requires AllFresh(s) && Quiet(s, a) && Next(cfg, s, a).Some?
    ensures Gentle(s, a) && AllFresh(Next(cfg, s, a).value)
  {
    FreshIsGentle(s, a);
    if a.Advance? {
      QuietAdvance(s, a.w);
    } else {
      assert NoSweepRemoves(s);
      if a.Proceed? {
        QuietProceed(cfg, s, a.now);
      } else if a.SweepStart? || a.SweepCheck? || a.SweepEnd? {
        QuietSweep(cfg, s, a);
      } else if a.Begin? || a.Recheck? || a.DialFails? || a.DialDone? {
        QuietLocked(cfg, s, a);
      } else {
        QuietOther(cfg, s, a);
      }
    }
  }

  /** Runs in which no removal without the lock overlaps another call are gentle, so the pool stays consistent. */
  lemma {:induction false} QuietRunsAreGentle(cfg: Config, actions: seq<Action>)
    requires Run(cfg, INITIAL, actions).Some? && QuietRun(cfg, INITIAL, actions)
    ensures GentleRun(cfg, INITIAL, actions) && AllFresh(Run(cfg, INITIAL, actions).value)
    decreases |actions|
  {
    if actions != [] {
      QuietRunsAreGentle(cfg, actions[..|actions| - 1]);
      QuietStep(cfg, Run(cfg, INITIAL, actions[..|actions| - 1]).value, actions[|actions| - 1]);
    }
  }

  // ---- A removal that nothing interrupts ----

  /** The accesses that remove a connection, after others. */
  function Removal(actions: seq<Action>, w: Worker): seq<Action> {
    actions + [Advance(w)] + [Advance(w)] + [Advance(w)] + [Advance(w)] + [Advance(w)]
  }

  function At(u: State, w: Worker, p: Pool, turn: Turn, closed: set<string>): State
    requires Works(u, w)
  {
    TurnTo(u, w, turn).(pool := p, closedByRequest := closed)
  }

  lemma AdvanceNext(cfg: Config, u: State, w: Worker, p: Pool, turn: Turn, closed: set<string>)
    requires Works(u, w) && !turn.Between? && !turn.Reading?
    ensures Next(cfg, At(u, w, p, turn, closed), Advance(w))
      == Some(At(u, w, TurnedPool(p, turn), TurnAfter(p, turn, DropsList(u, w)),
                 if turn.Checked? && Requested(u, w) then closed + {turn.id} else closed))
  {
    var v, next := At(u, w, p, turn, closed), TurnAfter(p, turn, DropsList(u, w));
    assert TurnTo(v, w, next).callers == TurnTo(u, w, next).callers;
  }

  lemma Then(cfg: Config, s: State, actions: seq<Action>, u: State, a: Action, t: State)
    requires Run(cfg, s, actions) == Some(u) && Next(cfg, u, a) == Some(t)
    ensures Run(cfg, s, actions + [a]) == Some(t)
  {
    RunSnoc(cfg, s, actions, a);
  }

  /** Out of the map, and counted. */
  function Struck(p: Pool, id: string): Pool {
    p.(connections := p.connections - {id}, metrics := p.metrics.(closed := p.metrics.closed + 1))
  }

  function AllClosed(u: State, w: Worker): set<string>
    requires Works(u, w) && TurnOf(u, w).Checked?
  {
    if Requested(u, w) then u.closedByRequest + {TurnOf(u, w).id} else u.closedByRequest
  }

  lemma DeletedRuns(cfg: Config, s: State, actions: seq<Action>, u: State, w: Worker)
    requires Run(cfg, s, actions) == Some(u) && Works(u, w) && TurnOf(u, w).Checked?
    ensures var id, owner, q := TurnOf(u, w).id, TurnOf(u, w).owner,
                                u.pool.(connections := u.pool.connections - {TurnOf(u, w).id});
            Run(cfg, s, actions + [Advance(w)] + [Advance(w)])
              == Some(At(u, w, q, Tallying(id, owner, q.metrics.closed), AllClosed(u, w)))
  {
    var id, owner, closed := TurnOf(u, w).id, TurnOf(u, w).owner, AllClosed(u, w);
    var q := u.pool.(connections := u.pool.connections - {id});
    assert At(u, w, u.pool, Checked(id, owner), u.closedByRequest) == u by {
      assert TurnTo(u, w, Checked(id, owner)).callers == u.callers;
    }
    AdvanceNext(cfg, u, w, u.pool, Checked(id, owner), u.closedByRequest);
    Then(cfg, s, actions, u, Advance(w), At(u, w, q, Deleted(id, owner), closed));
    AdvanceNext(cfg, u, w, q, Deleted(id, owner), closed);
    Then(cfg, s, actions + [Advance(w)], At(u, w, q, Deleted(id, owner), closed), Advance(w),
         At(u, w, q, Tallying(id, owner, q.metrics.closed), closed));
  }

  lemma TallyNext(cfg: Config, u: State, w: Worker, id: string, owner: string, closed: set<string>)
    requires Works(u, w)
    ensures var q := u.pool.(connections := u.pool.connections - {id});
            Next(cfg, At(u, w, q, Tallying(id, owner, q.metrics.closed), closed), Advance(w))
              == Some(At(u, w, Struck(u.pool, id), if DropsList(u, w) then Between else Counted(id, owner), closed))
  {
    var q := u.pool.(connections := u.pool.connections - {id});
    AdvanceNext(cfg, u, w, q, Tallying(id, owner, q.metrics.closed), closed);
  }

  lemma CountedRuns(cfg: Config, s: State, actions: seq<Action>, u: State, w: Worker)
    requires Run(cfg, s, actions) == Some(u) && Works(u, w) && TurnOf(u, w).Checked?
    ensures var id, owner := TurnOf(u, w).id, TurnOf(u, w).owner;
            Run(cfg, s, actions + [Advance(w)] + [Advance(w)] + [Advance(w)])
              == Some(At(u, w, Struck(u.pool, id), if DropsList(u, w) then Between else Counted(id, owner),
                         AllClosed(u, w)))
  {
    var id, owner, closed := TurnOf(u, w).id, TurnOf(u, w).owner, AllClosed(u, w);
    var q := u.pool.(connections := u.pool.connections - {id});
    var tallying := At(u, w, q, Tallying(id, owner, q.metrics.closed), closed);
    DeletedRuns(cfg, s, actions, u, w);
    TallyNext(cfg, u, w, id, owner, closed);
    Then(cfg, s, actions + [Advance(w)] + [Advance(w)], tallying, Advance(w),
         At(u, w, Struck(u.pool, id), if DropsList(u, w) then Between else Counted(id, owner), closed));
  }

  /** The pool after the removal: taken out of the map and counted, and out of the list if it is there. */
  function Removed(p: Pool, id: string, owner: string): Pool {
    if id in ListOf(p, owner) then Struck(p, id).(lists := p.lists[owner := Without(p.lists[owner], id)])
    else Struck(p, id)
  }

  /** Without interruption the accesses are one removal, whatever the pool is like; Close is over with it. */
  lemma RemovalRuns(cfg: Config, s: State, actions: seq<Action>, u: State, w: Worker)
    requires Run(cfg, s, actions) == Some(u) && Works(u, w) && TurnOf(u, w).Checked? && !DropsList(u, w)
    ensures var t := At(u, w, Removed(u.pool, TurnOf(u, w).id, TurnOf(u, w).owner), Between, AllClosed(u, w));
            Run(cfg, s, Removal(actions, w))
              == Some(if w.Holder? && u.section.Closing? then t.(section := Free) else t)
  {
    var id, owner, closed := TurnOf(u, w).id, TurnOf(u, w).owner, AllClosed(u, w);
    var p := Struck(u.pool, id);
    CountedRuns(cfg, s, actions, u, w);
    var more := actions + [Advance(w)] + [Advance(w)] + [Advance(w)];
    var reading := At(u, w, p, Reading(id, owner, ListOf(p, owner)), closed);
    AdvanceNext(cfg, u, w, p, Counted(id, owner), closed);
    Then(cfg, s, more, At(u, w, p, Counted(id, owner), closed), Advance(w), reading);
    UnlistNext(cfg, u, w, id, owner, closed);
    RunSnoc(cfg, s, more + [Advance(w)], Advance(w));
  }

  lemma UnlistNext(cfg: Config, u: State, w: Worker, id: string, owner: string, closed: set<string>)
    requires Works(u, w) && !DropsList(u, w)
    ensures var p := Struck(u.pool, id);
            var t := At(u, w, Removed(u.pool, id, owner), Between, closed);
            Next(cfg, At(u, w, p, Reading(id, owner, ListOf(p, owner)), closed), Advance(w))
              == Some(if w.Holder? && u.section.Closing? then t.(section := Free) else t)
  {
    var p := Struck(u.pool, id);
    var v := At(u, w, p, Reading(id, owner, ListOf(p, owner)), closed);
    assert TurnTo(v, w, Between).callers == TurnTo(u, w, Between).callers;
  }

  /** For a stored connection that is what Close does to the pool. */
  lemma RemovalCloses(p: Pool, id: string)
    requires id in p.connections
    ensures Removed(p, id, p.connections[id].account) == AfterClose(p, id)
  {
    var owner := p.connections[id].account;
    if owner in p.lists && id !in p.lists[owner] {
      WithoutAbsent(p.lists[owner], id);
      assert p.lists[owner := p.lists[owner]] == p.lists;
    }
  }

  // ---- Sweeps ----

  /** One turn of a sweep, with the lock or without: check and remove. */
  lemma SweepOne(cfg: Config, s: State, actions: seq<Action>, u: State, w: Worker, id: string, now: int)
    returns (more: seq<Action>)
    requires Run(cfg, s, actions) == Some(u) && Sweeps(u, w, now) && IsStale(cfg, u.pool, id, now)
    ensures Run(cfg, s, more) == Some(u.(pool := AfterClose(u.pool, id)))
  {
    var owner := u.pool.connections[id].account;
    var v := TurnTo(u, w, Checked(id, owner));
    var check := if w.Caller? then SweepCheck(w.c, id) else TidyCheck(id);
    Then(cfg, s, actions, u, check, v);
    RemovalRuns(cfg, s, actions + [check], v, w);
    RemovalCloses(u.pool, id);
    more := Removal(actions + [check], w);
    assert At(v, w, AfterClose(u.pool, id), Between, u.closedByRequest).callers == u.callers;
  }

  /** The worker is between two turns of a sweep that began at `now`. */
  predicate Sweeps(u: State, w: Worker, now: int) {
    && Works(u, w) && TurnOf(u, w).Between?
    && match w {
      case Caller(c) => u.callers[c].now == now
      case Holder => u.section.Tidying? && u.section.now == now
    }
  }

  lemma StillStale(cfg: Config, p: Pool, ids: seq<string>, id: string, now: int)
    requires IsStale(cfg, p, id, now) && id !in ids
    ensures IsStale(cfg, CloseAll(p, ids), id, now)
  {
    CloseAllCloses(p, ids, id);
  }

  lemma StillSweeps(u: State, p: Pool, w: Worker, now: int)
    requires Sweeps(u, w, now)
    ensures Sweeps(u.(pool := p), w, now)
  {
  }

  lemma {:induction false} SweepSome(cfg: Config, s: State, actions: seq<Action>, u: State, w: Worker,
                                     order: seq<string>, now: int) returns (more: seq<Action>)
    requires Run(cfg, s, actions) == Some(u) && Sweeps(u, w, now)
    requires Distinct(order) && forall id | id in order :: IsStale(cfg, u.pool, id, now)
    ensures Run(cfg, s, more) == Some(u.(pool := CloseAll(u.pool, order)))
    decreases |order|
  {
    if order == [] {
      more := actions;
    } else {
      var init, id := order[..|order| - 1], order[|order| - 1];
      var before := SweepSome(cfg, s, actions, u, w, init, now);
      StillStale(cfg, u.pool, init, id, now);
      StillSweeps(u, CloseAll(u.pool, init), w, now);
      more := SweepOne(cfg, s, before, u.(pool := CloseAll(u.pool, init)), w, id, now);
    }
  }

  /** A caller's sweep that nothing interrupts closes what it meets, in the order it meets it. */
  lemma SweepRuns(cfg: Config, s: State, actions: seq<Action>, u: State, c: nat, order: seq<string>, now: int)
    returns (more: seq<Action>)
    requires Run(cfg, s, actions) == Some(u) && IsFull(u, c) && SweepOrder(cfg, u.pool, order, now)
    ensures Run(cfg, s, more) == Some(u.(pool := CloseAll(u.pool, order),
                                         callers := u.callers[c := Swept(u.callers[c].account, u.callers[c].kind)]))
  {
    var v := u.(callers := u.callers[c := Sweeping(u.callers[c].account, u.callers[c].kind, now, Between)]);
    RunSnoc(cfg, s, actions, SweepStart(c, now));
    var swept := SweepSome(cfg, s, actions + [SweepStart(c, now)], v, Caller(c), order, now);
    RunSnoc(cfg, s, swept, SweepEnd(c));
    more := swept + [SweepEnd(c)];
    assert v.callers[c := Swept(u.callers[c].account, u.callers[c].kind)]
        == u.callers[c := Swept(u.callers[c].account, u.callers[c].kind)];
  }

  /** The cleanup under the lock does the same. */
  lemma TidyRuns(cfg: Config, s: State, actions: seq<Action>, u: State, order: seq<string>, now: int)
    returns (more: seq<Action>)
    requires Run(cfg, s, actions) == Some(u) && u.section == Free && SweepOrder(cfg, u.pool, order, now)
    ensures Run(cfg, s, more) == Some(u.(pool := CloseAll(u.pool, order)))
  {
    var v, q := u.(section := Tidying(now, Between)), CloseAll(u.pool, order);
    TidyNext(cfg, u, now, q);
    Then(cfg, s, actions, u, Tidy(now), v);
    more := SweepSome(cfg, s, actions + [Tidy(now)], v, Holder, order, now);
    Then(cfg, s, more, v.(pool := q), TidyEnd, u.(pool := q));
    more := more + [TidyEnd];
  }

  lemma TidyNext(cfg: Config, u: State, now: int, q: Pool)
    requires u.section == Free
    ensures Next(cfg, u, Tidy(now)) == Some(u.(section := Tidying(now, Between)))
    ensures Next(cfg, u.(section := Tidying(now, Between), pool := q), TidyEnd) == Some(u.(pool := q))
    ensures Sweeps(u.(section := Tidying(now, Between)), Holder, now)
  {
  }

  /** Under the lock or not interrupted, a sweep takes away exactly the idle connections that timed out. */
  lemma SweepIsExact(cfg: Config, p: Pool, order: seq<string>, now: int, id: string)
    requires SweepOrder(cfg, p, order, now) && id in p.connections
    ensures id !in CloseAll(p, order).connections
      <==> !p.connections[id].inUse && now > p.connections[id].lastUsed + cfg.idleTimeout
    ensures id in CloseAll(p, order).connections ==> CloseAll(p, order).connections[id] == p.connections[id]
  {
    CloseAllCloses(p, order, id);
  }

  // ---- Close and CloseAccount ----

  lemma CloseRuns(cfg: Config, s: State, actions: seq<Action>, u: State, id: string) returns (more: seq<Action>)
    requires Run(cfg, s, actions) == Some(u) && u.section == Free
    ensures Run(cfg, s, more) == Some(u.(
      pool := AfterClose(u.pool, id),
      closedByRequest := if id in u.pool.connections then u.closedByRequest + {id} else u.closedByRequest))
  {
    more := actions + [Close(id)];
    RunSnoc(cfg, s, actions, Close(id));
    if id in u.pool.connections {
      RemovalRuns(cfg, s, more, u.(section := Closing(Checked(id, u.pool.connections[id].account))), Holder);
      RemovalCloses(u.pool, id);
      more := Removal(more, Holder);
    }
  }

  /** CloseAccount has gone through the first k IDs of the list. */
  function Dropping(u: State, account: string, ids: seq<string>, k: nat): State
    requires k <= |ids|
  {
    u.(pool := DropAll(u.pool, ids[..k]), section := ClosingAccount(account, ids[k..], Between),
       closedByRequest := u.closedByRequest + (set x | x in ids[..k] && x in u.pool.connections))
  }

  lemma DropOne(cfg: Config, s: State, actions: seq<Action>, u: State, account: string, ids: seq<string>, k: nat,
                next: nat) returns (more: seq<Action>)
    requires k < |ids| && next == k + 1 && Run(cfg, s, actions) == Some(Dropping(u, account, ids, k))
    ensures Run(cfg, s, more) == Some(Dropping(u, account, ids, next))
  {
    var v, id := Dropping(u, account, ids, k), ids[k];
    more := actions + [Proceed(0)];
    if id in v.pool.connections {
      var checked := DropChecked(u, account, ids, k, next);
      DropBegins(cfg, u, account, ids, k, next);
      DropStored(u, account, ids, k, next);
      Then(cfg, s, actions, v, Proceed(0), checked);
      CountedRuns(cfg, s, more, checked, Holder);
      more := more + [Advance(Holder)] + [Advance(Holder)] + [Advance(Holder)];
    } else {
      DropUnknown(cfg, u, account, ids, k, next);
      Then(cfg, s, actions, v, Proceed(0), Dropping(u, account, ids, next));
    }
  }

  /** CloseAccount is about to remove the next connection of the list. */
  function DropChecked(u: State, account: string, ids: seq<string>, k: nat, next: nat): State
    requires k < |ids| && next == k + 1 && ids[k] in Dropping(u, account, ids, k).pool.connections
  {
    var v := Dropping(u, account, ids, k);
    v.(section := ClosingAccount(account, ids[next..], Checked(ids[k], v.pool.connections[ids[k]].account)))
  }

  lemma DropBegins(cfg: Config, u: State, account: string, ids: seq<string>, k: nat, next: nat)
    requires k < |ids| && next == k + 1 && ids[k] in Dropping(u, account, ids, k).pool.connections
    ensures Next(cfg, Dropping(u, account, ids, k), Proceed(0)) == Some(DropChecked(u, account, ids, k, next))
  {
    assert ids[k..] != [] && ids[k..][0] == ids[k] && ids[k..][1..] == ids[next..];
  }

  lemma DropStored(u: State, account: string, ids: seq<string>, k: nat, next: nat)
    requires k < |ids| && next == k + 1 && ids[k] in Dropping(u, account, ids, k).pool.connections
    ensures var v := Dropping(u, account, ids, k);
            At(DropChecked(u, account, ids, k, next), Holder, Struck(v.pool, ids[k]), Between,
               v.closedByRequest + {ids[k]})
              == Dropping(u, account, ids, next)
  {
    DroppedIDs(u, ids, k, next);
    DroppedNext(u.pool, ids, k, next);
  }

  lemma DropUnknown(cfg: Config, u: State, account: string, ids: seq<string>, k: nat, next: nat)
    requires k < |ids| && next == k + 1 && ids[k] !in Dropping(u, account, ids, k).pool.connections
    ensures Next(cfg, Dropping(u, account, ids, k), Proceed(0)) == Some(Dropping(u, account, ids, next))
  {
    assert ids[k..] != [] && ids[k..][0] == ids[k] && ids[k..][1..] == ids[next..];
    DroppedIDs(u, ids, k, next);
    DroppedNext(u.pool, ids, k, next);
    var v, t := Dropping(u, account, ids, k), Dropping(u, account, ids, next);
    assert t.closedByRequest == v.closedByRequest && t.pool == v.pool;
  }

  lemma DroppedNext(p: Pool, ids: seq<string>, k: nat, next: nat)
    requires k < |ids| && next == k + 1
    ensures DropAll(p, ids[..next]) == Dropped(DropAll(p, ids[..k]), ids[k])
  {
    assert ids[..next][..k] == ids[..k];
  }

  lemma DroppedIDs(u: State, ids: seq<string>, k: nat, next: nat)
    requires k < |ids| && next == k + 1
    ensures u.closedByRequest + (set x | x in ids[..next] && x in u.pool.connections)
      == u.closedByRequest + (set x | x in ids[..k] && x in u.pool.connections)
         + (if ids[k] in DropAll(u.pool, ids[..k]).connections then {ids[k]} else {})
  {
    DropAllCloses(u.pool, ids[..k], ids[k]);
    assert ids[..next] == ids[..k] + [ids[k]];
  }

  lemma {:induction false} DropSome(cfg: Config, s: State, actions: seq<Action>, u: State, account: string,
                                    ids: seq<string>, k: nat) returns (more: seq<Action>)
    requires k <= |ids| && Run(cfg, s, actions) == Some(Dropping(u, account, ids, k))
    ensures Run(cfg, s, more) == Some(Dropping(u, account, ids, |ids|))
    decreases |ids| - k
  {
    if k == |ids| {
      more := actions;
    } else {
      more := DropOne(cfg, s, actions, u, account, ids, k, k + 1);
      more := DropSome(cfg, s, more, u, account, ids, k + 1);
    }
  }

  lemma CloseAccountRuns(cfg: Config, s: State, actions: seq<Action>, u: State, account: string)
    returns (more: seq<Action>)
    requires Run(cfg, s, actions) == Some(u) && u.section == Free
    ensures Run(cfg, s, more) == Some(u.(
      pool := AfterCloseAccount(u.pool, account),
      closedByRequest := u.closedByRequest + (set x | x in ListOf(u.pool, account) && x in u.pool.connections)))
  {
    var ids := ListOf(u.pool, account);
    var v, w := Dropping(u, account, ids, 0), Dropping(u, account, ids, |ids|);
    assert ids[0..] == ids && ids[..0] == [] && ids[..|ids|] == ids && ids[|ids|..] == [];
    assert v.closedByRequest == u.closedByRequest;
    Then(cfg, s, actions, u, CloseAccount(account), v);
    var done := DropSome(cfg, s, actions + [CloseAccount(account)], u, account, ids, 0);
    DropAllLists(u.pool, ids);
    RunSnoc(cfg, s, done, Proceed(0));
    more := done + [Proceed(0)];
  }

  lemma {:induction false} DropAllLists(p: Pool, ids: seq<string>)
    ensures DropAll(p, ids).lists == p.lists
  {
    if ids != [] { DropAllLists(p, ids[..|ids| - 1]); }
  }

  // ---- Acquire and Release ----

  /** The acquirer has found a connection and marked it, or is to dial. */
  function Taken(cfg: Config, u: State, c: nat, rest: seq<string>, now: int): State
    requires IsTaking(u, c)
  {
    match FirstUsable(cfg, u.pool, rest, u.callers[c].kind, now)
    case Some(id) => Handed(u, c, id).(pool := AfterTake(u.pool, id, now))
    case None => u.(callers := u.callers[c := Dialling(u.callers[c].account, u.callers[c].kind)], section := Free)
  }

  lemma {:induction false} SearchRuns(cfg: Config, s: State, actions: seq<Action>, u: State, c: nat,
                                      rest: seq<string>, now: int) returns (more: seq<Action>)
    requires Run(cfg, s, actions) == Some(u) && IsTaking(u, c) && u.section == Searching(c, now, rest)
    ensures Run(cfg, s, more) == Some(Taken(cfg, u, c, rest, now))
    decreases |rest|
  {
    more := actions + [Proceed(now)];
    RunSnoc(cfg, s, actions, Proceed(now));
    if rest != [] && Usable(cfg, u.pool, rest[0], u.callers[c].kind, now) {
      more := TakeRuns(cfg, s, more, u.(section := Found(c, rest[0])), c, rest[0], now);
    } else if rest != [] {
      more := SearchRuns(cfg, s, more, u.(section := Searching(c, now, rest[1..])), c, rest[1..], now);
    }
  }

  lemma TakeRuns(cfg: Config, s: State, actions: seq<Action>, u: State, c: nat, id: string, now: int)
    returns (more: seq<Action>)
    requires Run(cfg, s, actions) == Some(u) && u.section == Found(c, id) && id in u.pool.connections
    ensures Run(cfg, s, more) == Some(Handed(u, c, id).(pool := AfterTake(u.pool, id, now)))
  {
    Then(cfg, s, actions, u, Proceed(now), u.(section := Looked(c, id)));
    RunSnoc(cfg, s, actions + [Proceed(now)], Proceed(now));
    more := actions + [Proceed(now)] + [Proceed(now)];
  }

  /** With room in the pool, Begin and Recheck take the first usable connection of the account's list, or dial. */
  lemma AcquireRuns(cfg: Config, s: State, actions: seq<Action>, u: State, a: Action) returns (more: seq<Action>)
    requires Run(cfg, s, actions) == Some(u) && u.section == Free && (a.Begin? || a.Recheck?)
    requires Next(cfg, u, a).Some? && !AtCapacity(cfg, u.pool)
    ensures var v := Next(cfg, u, a).value;
            IsTaking(v, a.c) && v.pool == u.pool &&
            Run(cfg, s, more) == Some(Taken(cfg, v, a.c, ListOf(u.pool, v.callers[a.c].account), a.now))
  {
    var v := Next(cfg, u, a).value;
    RunSnoc(cfg, s, actions, a);
    more := SearchRuns(cfg, s, actions + [a], v, a.c, ListOf(u.pool, v.callers[a.c].account), a.now);
  }

  lemma InsertRuns(cfg: Config, s: State, actions: seq<Action>, u: State, c: nat, id: string, now: int)
    returns (more: seq<Action>)
    requires Run(cfg, s, actions) == Some(u) && u.section == Free && IsDialling(u, c) && id !in u.used
    ensures Run(cfg, s, more) == Some(Handed(u, c, id).(
      pool := AfterInsert(u.pool, id, u.callers[c].account, u.callers[c].kind, now), used := u.used + {id}))
  {
    more := actions + [DialDone(c, id, now)];
    RunSnoc(cfg, s, actions, DialDone(c, id, now));
    RunSnoc(cfg, s, more, Proceed(now));
    RunSnoc(cfg, s, more + [Proceed(now)], Proceed(now));
    more := more + [Proceed(now)] + [Proceed(now)];
  }

  lemma ReleaseRuns(cfg: Config, s: State, actions: seq<Action>, u: State, c: nat, now: int)
    returns (more: seq<Action>)
    requires Run(cfg, s, actions) == Some(u) && u.section == Free && c in u.holders
    ensures Run(cfg, s, more) == Some(u.(
      pool := AfterRelease(u.pool, u.holders[c], now), holders := u.holders - {c}))
  {
    var id := u.holders[c];
    more := actions + [Release(c, now)];
    RunSnoc(cfg, s, actions, Release(c, now));
    if id in u.pool.connections {
      RunSnoc(cfg, s, more, Proceed(now));
      more := more + [Proceed(now)];
      assert Released(u, id).pool.connections[id := Released(u, id).pool.connections[id].(lastUsed := now)]
          == AfterRelease(u.pool, id, now).connections;
    }
  }
}
