/**
  What an acquirer gets from its search, while other callers sweep the pool without the lock: an idle connection of
  its own account and kind, and it dials only when the account has none.
 */
module ConnectionPoolSearch {
  import opened ConnectionPool
  import opened ConnectionPoolRuns
  import opened ConnectionPoolSweeps

  predicate Own(s: State, c: nat, id: string)
    requires c in s.callers && id in s.pool.connections
  {
    s.pool.connections[id].account == s.callers[c].account
  }

  /** Before the searcher is every connection of its account that it could take, and none of another account. */
  ghost predicate Covers(cfg: Config, s: State) {
    s.section.Searching? && IsTaking(s, s.section.c) ==>
      forall id | id in s.pool.connections ::
        && (id in s.section.rest ==> Own(s, s.section.c, id))
        && (Own(s, s.section.c, id) && Usable(cfg, s.pool, id, s.callers[s.section.c].kind, s.section.now) ==>
              id in s.section.rest)
  }

  /** What the searcher has found is its account's own, of its kind, and idle, as long as it is stored. */
  ghost predicate Suits(s: State) {
    (s.section.Found? || s.section.Looked?) && IsTaking(s, s.section.c) && s.section.id in s.pool.connections ==>
      && Own(s, s.section.c, s.section.id)
      && s.pool.connections[s.section.id].kind == s.callers[s.section.c].kind
      && !s.pool.connections[s.section.id].inUse
  }

  ghost predicate SearchRight(cfg: Config, s: State) {
    Covers(cfg, s) && Suits(s)
  }

  lemma EnterCovers(cfg: Config, s: State, t: State, c: nat, account: string, kind: string, now: int)
    requires Inv(s) && s.section.Free? && t == Enter(s.(started := t.started), c, account, kind, now)
    ensures SearchRight(cfg, t)
  {
    assert AccountAgrees(s.pool, account, Owed(s, account), Coming(s));
  }

  lemma LockedRight(cfg: Config, s: State, a: Action)
    requires Inv(s) && s.section.Free? && (a.Begin? || a.Recheck? || a.DialFails? || a.DialDone?)
    requires AfterLocked(cfg, s, a).Some?
    ensures SearchRight(cfg, AfterLocked(cfg, s, a).value)
  {
    var t := AfterLocked(cfg, s, a).value;
    if t.section.Searching? {
      EnterCovers(cfg, s, t, a.c, t.callers[a.c].account, t.callers[a.c].kind, a.now);
    }
  }

  lemma LookRight(cfg: Config, s: State, c: nat, now: int, rest: seq<string>)
    requires SearchRight(cfg, s) && s.section == Searching(c, now, rest) && IsTaking(s, c)
    ensures SearchRight(cfg, AfterLook(cfg, s, c, now, rest))
  {
    if rest != [] {
      assert rest == [rest[0]] + rest[1..];
    }
  }

  lemma ProceedRight(cfg: Config, s: State, now: int)
    requires SearchRight(cfg, s) && SearchOK(s) && AfterProceed(cfg, s, now).Some?
    ensures SearchRight(cfg, AfterProceed(cfg, s, now).value)
  {
    if s.section.Searching? {
      LookRight(cfg, s, s.section.c, s.section.now, s.section.rest);
    }
  }

  /** A removal takes connections away and changes none. */
  lemma AdvanceRight(cfg: Config, s: State, w: Worker)
    requires SearchRight(cfg, s) && IsRemoving(s, w)
    ensures SearchRight(cfg, AfterAdvance(s, w))
  {
    var t := AfterAdvance(s, w);
    assert t.section.Searching? || t.section.Found? || t.section.Looked? ==> t.section == s.section;
    assert forall id | id in t.pool.connections ::
        id in s.pool.connections && t.pool.connections[id] == s.pool.connections[id];
  }

  lemma SweepRight(cfg: Config, s: State, a: Action)
    requires SearchRight(cfg, s) && (a.SweepStart? || a.SweepCheck? || a.SweepEnd?) && AfterSweep(cfg, s, a).Some?
    ensures SearchRight(cfg, AfterSweep(cfg, s, a).value)
  {
  }

  lemma RightStep(cfg: Config, s: State, a: Action)
    requires Inv(s) && SearchRight(cfg, s) && Next(cfg, s, a).Some?
    ensures SearchRight(cfg, Next(cfg, s, a).value)
  {
    if a.Advance? {
      AdvanceRight(cfg, s, a.w);
    } else if a.Proceed? {
      ProceedRight(cfg, s, a.now);
    } else if a.SweepStart? || a.SweepCheck? || a.SweepEnd? {
      SweepRight(cfg, s, a);
    } else if a.Begin? || a.Recheck? || a.DialFails? || a.DialDone? {
      LockedRight(cfg, s, a);
    }
  }

  lemma {:induction false} SearchesAreRight(cfg: Config, actions: seq<Action>)
    requires Run(cfg, INITIAL, actions).Some? && GentleRun(cfg, INITIAL, actions)
    ensures SearchRight(cfg, Run(cfg, INITIAL, actions).value)
    decreases |actions|
  {
    if actions != [] {
      var before, a := actions[..|actions| - 1], actions[|actions| - 1];
      var s := Run(cfg, INITIAL, before).value;
      SearchesAreRight(cfg, before);
      PoolIsConsistent(cfg, before);
      assert Run(cfg, INITIAL, actions) == Next(cfg, s, a);
      RightStep(cfg, s, a);
    }
  }

  /** An acquirer was handed an idle connection of its account and kind, which is stored and then marked as in use. */
  ghost predicate TookIdle(s: State, c: nat, id: string, now: int, t: State) {
    && IsTaking(s, c) && id in s.pool.connections && Own(s, c, id)
    && s.pool.connections[id].kind == s.callers[c].kind && !s.pool.connections[id].inUse
    && t.pool == AfterTake(s.pool, id, now) && Holds(t, c, id) && c !in t.callers
  }

  /** An acquirer goes to dial, and its account has no connection that it could have used. */
  ghost predicate HadNone(cfg: Config, s: State, c: nat, now: int, t: State) {
    IsTaking(s, c) && IsDialling(t, c) && !HasIdle(cfg, s.pool, s.callers[c].account, s.callers[c].kind, now)
  }

  lemma ServedStep(cfg: Config, s: State, now: int)
    requires Inv(s) && SearchRight(cfg, s) && GentleSection(s) && Next(cfg, s, Proceed(now)).Some?
    ensures var t := Next(cfg, s, Proceed(now)).value;
      && (s.section.Looked? ==> TookIdle(s, s.section.c, s.section.id, now, t))
      && (s.section.Searching? && s.section.rest == [] ==> HadNone(cfg, s, s.section.c, s.section.now, t))
  {
  }

  /**
    So, in a gentle run, the end of a search: an acquirer is handed an idle connection of its own, or dials because
    there is none.
   */
  lemma AcquirerIsServed(cfg: Config, actions: seq<Action>, now: int)
    requires Run(cfg, INITIAL, actions + [Proceed(now)]).Some? && GentleRun(cfg, INITIAL, actions + [Proceed(now)])
    ensures Run(cfg, INITIAL, actions).Some?
    ensures var s, t := Run(cfg, INITIAL, actions).value, Run(cfg, INITIAL, actions + [Proceed(now)]).value;
      && (s.section.Looked? ==> TookIdle(s, s.section.c, s.section.id, now, t))
      && (s.section.Searching? && s.section.rest == [] ==> HadNone(cfg, s, s.section.c, s.section.now, t))
  {
    var all := actions + [Proceed(now)];
    assert all[..|actions|] == actions && all[|actions|] == Proceed(now);
    var s := Run(cfg, INITIAL, actions).value;
    assert Run(cfg, INITIAL, all) == Next(cfg, s, Proceed(now));
    SearchesAreRight(cfg, actions);
    PoolIsConsistent(cfg, actions);
    ServedStep(cfg, s, now);
  }

  // ---- Times and counters ----

  /** Connection id is marked by the step as used at this time: it is handed out or released. */
  predicate Stamps(s: State, a: Action, id: string) {
    a.Proceed? && (s.section.Looked? || s.section.Touching?) && s.section.id == id
  }

  ghost predicate Stamped(s: State, a: Action, t: State, id: string) {
    id in t.pool.connections ==>
      if id !in s.pool.connections then a.DialDone? && t.pool.connections[id].lastUsed == a.now
      else
        && t.pool.connections[id].lastUsed == (if Stamps(s, a, id) then a.now else s.pool.connections[id].lastUsed)
        && t.pool.connections[id].account == s.pool.connections[id].account
        && t.pool.connections[id].kind == s.pool.connections[id].kind
  }

  lemma ProceedStamps(cfg: Config, s: State, now: int, id: string)
    requires AfterProceed(cfg, s, now).Some?
    ensures Stamped(s, Proceed(now), AfterProceed(cfg, s, now).value, id)
  {
  }

  lemma LockedStamps(cfg: Config, s: State, a: Action, id: string)
    requires HoldersOK(s) && (a.Begin? || a.Recheck? || a.DialFails? || a.DialDone?) && AfterLocked(cfg, s, a).Some?
    ensures Stamped(s, a, AfterLocked(cfg, s, a).value, id)
  {
  }

  /** A stored connection was used when it was dialled, and again whenever it was handed out or released. */
  lemma StampsStep(cfg: Config, s: State, a: Action, id: string)
    requires HoldersOK(s) && Next(cfg, s, a).Some?
    ensures Stamped(s, a, Next(cfg, s, a).value, id)
  {
    if a.Proceed? {
      ProceedStamps(cfg, s, a.now, id);
    } else if a.Begin? || a.Recheck? || a.DialFails? || a.DialDone? {
      LockedStamps(cfg, s, a, id);
    }
  }

  /** WaitCount counts the acquires that found the pool full at first, TotalCreated the dials that were stored. */
  lemma CountsStep(cfg: Config, s: State, a: Action)
    requires Next(cfg, s, a).Some?
    ensures var m, n := s.pool.metrics, Next(cfg, s, a).value.pool.metrics;
      && n.waits == m.waits + (if a.Begin? && |s.pool.connections| >= cfg.maxConnections then 1 else 0)
      && n.created == m.created + (if a.DialDone? then 1 else 0)
      && n.errors == m.errors
           + (if a.DialFails? || (a.Recheck? && |s.pool.connections| >= cfg.maxConnections) then 1 else 0)
  {
  }

  /** Which steps of an acquire are possible when: those under the lock while it is free, the sweep at any time. */
  lemma StepsExactly(cfg: Config, s: State, c: nat, account: string, kind: string, id: string, now: int)
    ensures Next(cfg, s, Begin(c, account, kind, now)).Some? <==>
      s.section.Free? && c !in s.callers && c !in s.holders
    ensures Next(cfg, s, Recheck(c, now)).Some? <==> s.section.Free? && c in s.callers && s.callers[c].Swept?
    ensures Next(cfg, s, DialFails(c)).Some? <==> s.section.Free? && c in s.callers && s.callers[c].Dialling?
    ensures Next(cfg, s, DialDone(c, id, now)).Some? <==>
      s.section.Free? && c in s.callers && s.callers[c].Dialling? && id !in s.used
    ensures Next(cfg, s, SweepStart(c, now)).Some? <==> c in s.callers && s.callers[c].Full?
    ensures Next(cfg, s, SweepEnd(c)).Some? <==>
      c in s.callers && s.callers[c].Sweeping? && s.callers[c].turn.Between?
  {
  }
}
