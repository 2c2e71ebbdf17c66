/**
  Runs of the connection pool in which the removal of a connection by one caller meets a call of another: what the
  assumption that steps are gentle keeps out.
 */
module ConnectionPoolRaces {
  import opened Wrappers
  import opened Sorting
  import opened Counting
  import opened ConnectionPool
  import opened ConnectionPoolRuns
  import opened ConnectionPoolSweeps
  import opened ConnectionPoolCalls

  const DIAL := Dialling("a", "imap")
  const FULL := Full("a", "imap")

  lemma Snoc(cfg: Config, actions: seq<Action>, s: State, a: Action, t: State)
    requires Run(cfg, INITIAL, actions) == Some(s) && Next(cfg, s, a) == Some(t)
    ensures Run(cfg, INITIAL, actions + [a]) == Some(t)
  {
    Then(cfg, INITIAL, actions, s, a, t);
  }

  // ---- The steps up to the interruption ----

  function Began(callers: map<nat, Phase>, started: nat): State {
    INITIAL.(callers := callers, started := started)
  }

  /** Connection x of account a was dialled by caller 0 and has been idle since 1. */
  function Idle(callers: map<nat, Phase>, waits: int, started: nat): State {
    State(Pool(map["x" := Conn("a", "imap", false, 1)], map["a" := ["x"]], Metrics(1, 0, waits, 0)), Free,
          callers, map[], {"x"}, {}, started, 1)
  }

  function Looking(callers: map<nat, Phase>, started: nat, c: nat): State {
    Began(callers[c := Taking("a", "imap")], started + 1).(section := Searching(c, 0, []))
  }

  lemma DialNext(cfg: Config, callers: map<nat, Phase>, started: nat, c: nat)
    requires cfg.maxConnections > 0 && c !in callers
    ensures Next(cfg, Began(callers, started), Begin(c, "a", "imap", 0)) == Some(Looking(callers, started, c))
    ensures Next(cfg, Looking(callers, started, c), Proceed(0)) == Some(Began(callers[c := DIAL], started + 1))
  {
    assert ListOf(EMPTY, "a") == [];
    assert callers[c := Taking("a", "imap")][c := DIAL] == callers[c := DIAL];
  }

  lemma DialRun(cfg: Config, actions: seq<Action>, callers: map<nat, Phase>, started: nat, c: nat, t: State)
    returns (more: seq<Action>)
    requires Run(cfg, INITIAL, actions) == Some(Began(callers, started)) && cfg.maxConnections > 0 && c !in callers
    requires t == Began(callers[c := DIAL], started + 1)
    ensures Run(cfg, INITIAL, more) == Some(t)
  {
    DialNext(cfg, callers, started, c);
    more := actions + [Begin(c, "a", "imap", 0)];
    Snoc(cfg, actions, Began(callers, started), Begin(c, "a", "imap", 0), Looking(callers, started, c));
    Snoc(cfg, more, Looking(callers, started, c), Proceed(0), t);
    more := more + [Proceed(0)];
  }

  /** Callers 0 and 3 both dial; 0 is done, and releases x. */
  lemma IdleRun(cfg: Config) returns (actions: seq<Action>)
    requires cfg.maxConnections > 0
    ensures Run(cfg, INITIAL, actions) == Some(Idle(map[3 := DIAL], 0, 2))
  {
    assert INITIAL == Began(map[], 0);
    actions := DialRun(cfg, [], map[], 0, 0, Began(map[0 := DIAL], 1));
    actions := DialRun(cfg, actions, map[0 := DIAL], 1, 3, Began(map[0 := DIAL, 3 := DIAL], 2));
    actions := InsertRuns(cfg, INITIAL, actions, Began(map[0 := DIAL, 3 := DIAL], 2), 0, "x", 0);
    FirstInserted();
    actions := ReleaseRuns(cfg, INITIAL, actions, FirstStored(), 0, 1);
    FirstReleased();
  }

  function FirstStored(): State {
    State(Pool(map["x" := Conn("a", "imap", true, 0)], map["a" := ["x"]], Metrics(1, 0, 0, 0)), Free,
          map[3 := DIAL], map[0 := "x"], {"x"}, {}, 2, 1)
  }

  lemma FirstInserted()
    ensures Handed(Began(map[0 := DIAL, 3 := DIAL], 2), 0, "x").(
      pool := AfterInsert(EMPTY, "x", "a", "imap", 0), used := {} + {"x"}) == FirstStored()
  {
    var t := Handed(Began(map[0 := DIAL, 3 := DIAL], 2), 0, "x").(
      pool := AfterInsert(EMPTY, "x", "a", "imap", 0), used := {} + {"x"});
    assert ListOf(EMPTY, "a") + ["x"] == ["x"];
    assert t.pool.lists == map["a" := ["x"]] && t.pool.connections == FirstStored().pool.connections;
    assert t.callers == map[3 := DIAL];
    assert t.holders == map[0 := "x"] && t.used == {"x"};
  }

  lemma FirstReleased()
    ensures FirstStored().(pool := AfterRelease(FirstStored().pool, "x", 1), holders := FirstStored().holders - {0})
      == Idle(map[3 := DIAL], 0, 2)
  {
    var t := FirstStored().(pool := AfterRelease(FirstStored().pool, "x", 1), holders := FirstStored().holders - {0});
    assert t.holders == map[];
    assert t.pool.connections == map["x" := Conn("a", "imap", false, 1)];
  }

  const ONE := Config(1, 300)

  function SweepAt(turn: Turn): Phase {
    Sweeping("a", "imap", 400, turn)
  }

  const CHECKED := SweepAt(Checked("x", "a"))

  lemma FoundFull(callers: map<nat, Phase>, waits: int, started: nat, c: nat)
    requires c !in callers
    ensures Next(ONE, Idle(callers, waits, started), Begin(c, "a", "imap", 400))
      == Some(Idle(callers[c := FULL], waits + 1, started + 1))
  {
  }

  lemma FoundStale(callers: map<nat, Phase>, waits: int, started: nat, c: nat)
    ensures Next(ONE, Idle(callers[c := FULL], waits, started), SweepStart(c, 400))
      == Some(Idle(callers[c := SweepAt(Between)], waits, started))
    ensures Next(ONE, Idle(callers[c := SweepAt(Between)], waits, started), SweepCheck(c, "x"))
      == Some(Idle(callers[c := CHECKED], waits, started))
  {
    assert callers[c := FULL][c := SweepAt(Between)] == callers[c := SweepAt(Between)];
    assert callers[c := SweepAt(Between)][c := CHECKED] == callers[c := CHECKED];
  }

  /** Another caller finds the pool full, begins to sweep, and finds x stale. */
  lemma JoinSweep(actions: seq<Action>, callers: map<nat, Phase>, waits: int, started: nat, c: nat, t: State)
    returns (more: seq<Action>)
    requires Run(ONE, INITIAL, actions) == Some(Idle(callers, waits, started)) && c !in callers
    requires t == Idle(callers[c := CHECKED], waits + 1, started + 1)
    ensures Run(ONE, INITIAL, more) == Some(t)
  {
    var full := Idle(callers[c := FULL], waits + 1, started + 1);
    var sweeping := Idle(callers[c := SweepAt(Between)], waits + 1, started + 1);
    FoundFull(callers, waits, started, c);
    Snoc(ONE, actions, Idle(callers, waits, started), Begin(c, "a", "imap", 400), full);
    FoundStale(callers, waits + 1, started + 1, c);
    Snoc(ONE, actions + [Begin(c, "a", "imap", 400)], full, SweepStart(c, 400), sweeping);
    more := actions + [Begin(c, "a", "imap", 400)] + [SweepStart(c, 400)];
    Snoc(ONE, more, sweeping, SweepCheck(c, "x"), t);
    more := more + [SweepCheck(c, "x")];
  }

  // ---- Two removals of one connection ----

  /** Nobody else sweeps. */
  predicate OthersDial(callers: map<nat, Phase>) {
    1 !in callers && 2 !in callers && forall c | c in callers :: callers[c] == DIAL
  }

  /** Two callers sweep at once: one connection created, two counted as closed, none stored. */
  lemma ClosedTwice() returns (actions: seq<Action>, s: State)
    ensures Run(ONE, INITIAL, actions) == Some(s) && Settled(s)
    ensures s.pool.metrics.created == 1 && s.pool.metrics.closed == 2 && s.pool.connections == map[]
  {
    var idle := IdleRun(ONE);
    actions, s := BothSweep(idle, map[3 := DIAL]);
  }

  lemma BothSweep(actions: seq<Action>, callers: map<nat, Phase>) returns (more: seq<Action>, s: State)
    requires Run(ONE, INITIAL, actions) == Some(Idle(callers, 0, 2)) && OthersDial(callers)
    ensures Run(ONE, INITIAL, more) == Some(s) && Settled(s)
    ensures s.pool.metrics.created == 1 && s.pool.metrics.closed == 2 && s.pool.connections == map[]
  {
    var one, two := callers[1 := CHECKED], callers[1 := CHECKED][2 := CHECKED];
    var first := JoinSweep(actions, callers, 0, 2, 1, Idle(one, 1, 3));
    var second := JoinSweep(first, one, 1, 3, 2, Idle(two, 2, 4));
    more, s := BothRemove(second, two);
  }

  lemma BothRemove(actions: seq<Action>, callers: map<nat, Phase>) returns (more: seq<Action>, s: State)
    requires Run(ONE, INITIAL, actions) == Some(Idle(callers, 2, 4)) && 1 in callers && 2 in callers
    requires forall c | c in callers :: callers[c] == if c == 1 || c == 2 then CHECKED else DIAL
    ensures Run(ONE, INITIAL, more) == Some(s) && Settled(s)
    ensures s.pool.metrics.created == 1 && s.pool.metrics.closed == 2 && s.pool.connections == map[]
  {
    var u := Idle(callers, 2, 4);
    RemovalRuns(ONE, INITIAL, actions, u, Caller(1));
    var v := At(u, Caller(1), Removed(u.pool, "x", "a"), Between, {});
    RemovalRuns(ONE, INITIAL, Removal(actions, Caller(1)), v, Caller(2));
    s := At(v, Caller(2), Removed(v.pool, "x", "a"), Between, {});
    more := Removal(Removal(actions, Caller(1)), Caller(2));
  }

  // ---- A removal and an insertion ----

  /** x is out of the map and counted, and caller 1 has read its list. */
  function Unlisted(callers: map<nat, Phase>): State {
    Idle(callers, 1, 3).(pool := Pool(map[], map["a" := ["x"]], Metrics(1, 1, 1, 0)))
  }

  const READ := SweepAt(Reading("x", "a", ["x"]))

  lemma ReadRun(actions: seq<Action>, callers: map<nat, Phase>) returns (more: seq<Action>)
    requires Run(ONE, INITIAL, actions) == Some(Idle(callers[1 := CHECKED], 1, 3))
    ensures Run(ONE, INITIAL, more) == Some(Unlisted(callers[1 := READ]))
  {
    var u := Idle(callers[1 := CHECKED], 1, 3);
    var p := Struck(u.pool, "x");
    CountedRuns(ONE, INITIAL, actions, u, Caller(1));
    assert p.connections == map[];
    AdvanceNext(ONE, u, Caller(1), p, Counted("x", "a"), {});
    assert callers[1 := CHECKED][1 := READ] == callers[1 := READ];
    assert At(u, Caller(1), p, Reading("x", "a", ["x"]), {}) == Unlisted(callers[1 := READ]);
    more := actions + [Advance(Caller(1))] + [Advance(Caller(1))] + [Advance(Caller(1))];
    Snoc(ONE, more, At(u, Caller(1), p, Counted("x", "a"), {}), Advance(Caller(1)), Unlisted(callers[1 := READ]));
    more := more + [Advance(Caller(1))];
  }

  /** y is stored, while the sweep is about to write the list it has read. */
  function WithSecond(ids: seq<string>, callers: map<nat, Phase>): State {
    State(Pool(map["y" := Conn("a", "imap", true, 400)], map["a" := ids], Metrics(2, 1, 1, 0)), Free,
          callers, map[3 := "y"], {"x", "y"}, {}, 3, 2)
  }

  lemma SecondInserted(callers: map<nat, Phase>)
    requires 3 in callers
    ensures var s := Unlisted(callers);
      Handed(s, 3, "y").(pool := AfterInsert(s.pool, "y", "a", "imap", 400), used := s.used + {"y"})
        == WithSecond(["x", "y"], callers - {3})
  {
    var s := Unlisted(callers);
    var t := Handed(s, 3, "y").(pool := AfterInsert(s.pool, "y", "a", "imap", 400), used := s.used + {"y"});
    assert t.pool.connections == map["y" := Conn("a", "imap", true, 400)];
    assert t.pool.lists["a"] == ["x", "y"] && t.pool.lists == map["a" := ["x", "y"]];
    assert t.used == {"x", "y"};
  }

  lemma WriteNext(callers: map<nat, Phase>)
    requires 1 in callers && callers[1] == READ
    ensures Next(ONE, WithSecond(["x", "y"], callers), Advance(Caller(1)))
      == Some(WithSecond([], callers[1 := SweepAt(Between)]))
  {
    var t := Next(ONE, WithSecond(["x", "y"], callers), Advance(Caller(1))).value;
    assert Without(["x"], "x") == [];
    assert t.pool.lists == map["a" := []];
  }

  /** A connection is inserted between the read and the write of the list: it is stored, and not listed. */
  lemma ListedIdLost() returns (actions: seq<Action>, s: State)
    ensures Run(ONE, INITIAL, actions) == Some(s) && Settled(s)
    ensures "y" in s.pool.connections && s.pool.connections["y"].account == "a" && ListOf(s.pool, "a") == []
  {
    var idle := IdleRun(ONE);
    var checked := JoinSweep(idle, map[3 := DIAL], 0, 2, 1, Idle(map[3 := DIAL][1 := CHECKED], 1, 3));
    var read := ReadRun(checked, map[3 := DIAL]);
    actions, s := InsertAndWrite(read, map[3 := DIAL]);
  }

  lemma InsertAndWrite(actions: seq<Action>, callers: map<nat, Phase>) returns (more: seq<Action>, t: State)
    requires Run(ONE, INITIAL, actions) == Some(Unlisted(callers[1 := READ])) && OthersDial(callers) && 3 in callers
    ensures Run(ONE, INITIAL, more) == Some(t) && Settled(t)
    ensures "y" in t.pool.connections && t.pool.connections["y"].account == "a" && ListOf(t.pool, "a") == []
  {
    var s, rest := Unlisted(callers[1 := READ]), callers[1 := READ] - {3};
    more := InsertRuns(ONE, INITIAL, actions, s, 3, "y", 400);
    SecondInserted(callers[1 := READ]);
    WriteNext(rest);
    t := WithSecond([], rest[1 := SweepAt(Between)]);
    Snoc(ONE, more, WithSecond(["x", "y"], rest), Advance(Caller(1)), t);
    more := more + [Advance(Caller(1))];
  }

  // ---- A removal inside an insertion ----

  /** Caller 3 has stored y, and has read the list to append y to. */
  function ToAppend(callers: map<nat, Phase>): State {
    State(Pool(map["x" := Conn("a", "imap", false, 1), "y" := Conn("a", "imap", true, 400)], map["a" := ["x"]],
               Metrics(2, 0, 1, 0)),
          Appending("a", "y", ["x"]), callers, map[3 := "y"], {"x", "y"}, {}, 3, 2)
  }

  lemma ToAppendNext(callers: map<nat, Phase>)
    requires 3 in callers && callers[3] == DIAL
    ensures var s := Idle(callers, 1, 3);
            Next(ONE, s, DialDone(3, "y", 400)) == Some(Stored(s, 3, "y", "a", "imap", 400))
            && Next(ONE, Stored(s, 3, "y", "a", "imap", 400), Proceed(400)) == Some(ToAppend(callers - {3}))
  {
    var t := Stored(Idle(callers, 1, 3), 3, "y", "a", "imap", 400);
    assert t.pool.connections == map["x" := Conn("a", "imap", false, 1), "y" := Conn("a", "imap", true, 400)];
    assert t.used == {"x", "y"};
  }

  /** x has gone from the map, from the counter and from its list; the list that caller 3 has read still has it. */
  lemma RemovedInside(callers: map<nat, Phase>)
    requires 1 in callers
    ensures At(ToAppend(callers[1 := CHECKED]), Caller(1), Removed(ToAppend(callers).pool, "x", "a"), Between, {})
      == WithSecond([], callers[1 := SweepAt(Between)]).(section := Appending("a", "y", ["x"]))
  {
    var t := At(ToAppend(callers[1 := CHECKED]), Caller(1), Removed(ToAppend(callers).pool, "x", "a"), Between, {});
    assert Without(["x"], "x") == [];
    assert t.pool.lists == map["a" := []];
    assert t.pool.connections == map["y" := Conn("a", "imap", true, 400)];
    assert t.callers == callers[1 := SweepAt(Between)];
  }

  lemma AppendNext(callers: map<nat, Phase>)
    ensures Next(ONE, WithSecond([], callers).(section := Appending("a", "y", ["x"])), Proceed(400))
      == Some(WithSecond(["x", "y"], callers))
  {
    var t := Next(ONE, WithSecond([], callers).(section := Appending("a", "y", ["x"])), Proceed(400)).value;
    assert t.pool.lists["a"] == ["x", "y"] && t.pool.lists == map["a" := ["x", "y"]];
  }

  /** A connection is removed between the read and the write of an insertion: it is not stored, and stays listed. */
  lemma RemovedIdListed() returns (actions: seq<Action>, s: State)
    ensures Run(ONE, INITIAL, actions) == Some(s) && Settled(s)
    ensures "x" in ListOf(s.pool, "a") && "x" !in s.pool.connections
  {
    var idle := IdleRun(ONE);
    var checked := JoinSweep(idle, map[3 := DIAL], 0, 2, 1, Idle(map[3 := DIAL][1 := CHECKED], 1, 3));
    assert map[3 := DIAL][1 := CHECKED] == map[1 := CHECKED, 3 := DIAL];
    actions, s := RemoveInside(checked, map[1 := CHECKED, 3 := DIAL]);
  }

  lemma RemoveInside(actions: seq<Action>, callers: map<nat, Phase>) returns (more: seq<Action>, t: State)
    requires Run(ONE, INITIAL, actions) == Some(Idle(callers, 1, 3)) && callers == map[1 := CHECKED, 3 := DIAL]
    ensures Run(ONE, INITIAL, more) == Some(t) && Settled(t)
    ensures "x" in ListOf(t.pool, "a") && "x" !in t.pool.connections
  {
    var s, rest := Idle(callers, 1, 3), map[1 := CHECKED];
    assert callers - {3} == rest && rest[1 := CHECKED] == rest;
    ToAppendNext(callers);
    Snoc(ONE, actions, s, DialDone(3, "y", 400), Stored(s, 3, "y", "a", "imap", 400));
    more := actions + [DialDone(3, "y", 400)];
    Snoc(ONE, more, Stored(s, 3, "y", "a", "imap", 400), Proceed(400), ToAppend(rest));
    more := more + [Proceed(400)];
    more, t := AppendRemoved(more, rest);
  }

  lemma AppendRemoved(actions: seq<Action>, callers: map<nat, Phase>) returns (more: seq<Action>, t: State)
    requires Run(ONE, INITIAL, actions) == Some(ToAppend(callers)) && callers == map[1 := CHECKED]
    ensures Run(ONE, INITIAL, more) == Some(t) && Settled(t)
    ensures "x" in ListOf(t.pool, "a") && "x" !in t.pool.connections
  {
    assert callers[1 := CHECKED] == callers;
    RemovalRuns(ONE, INITIAL, actions, ToAppend(callers), Caller(1));
    RemovedInside(callers);
    AppendNext(callers[1 := SweepAt(Between)]);
    more := Removal(actions, Caller(1));
    t := WithSecond(["x", "y"], callers[1 := SweepAt(Between)]);
    Snoc(ONE, more, t.(pool := t.pool.(lists := map["a" := []]), section := Appending("a", "y", ["x"])),
         Proceed(400), t);
    more := more + [Proceed(400)];
  }

  // ---- A removal inside the search of an acquirer ----

  const TWO := Config(2, 300)
  const X := Conn("a", "imap", false, 1)
  const Y := Conn("a", "imap", true, 2)

  /** Connections x and y of account a are stored; caller 3 holds y. */
  function Both(callers: map<nat, Phase>, waits: int, started: nat): State {
    State(Pool(map["x" := X, "y" := Y], map["a" := ["x", "y"]], Metrics(2, 0, waits, 0)), Free,
          callers, map[3 := "y"], {"x", "y"}, {}, started, 2)
  }

  /** y was closed, though caller 3 still holds it. */
  function Single(section: Section, callers: map<nat, Phase>, started: nat): State {
    State(Pool(map["x" := X], map["a" := ["x"]], Metrics(2, 1, 1, 0)), section,
          callers, map[3 := "y"], {"x", "y"}, {"y"}, started, 2)
  }

  lemma BothRun() returns (actions: seq<Action>)
    ensures Run(TWO, INITIAL, actions) == Some(Both(map[], 0, 2))
  {
    var idle := IdleRun(TWO);
    actions := InsertRuns(TWO, INITIAL, idle, Idle(map[3 := DIAL], 0, 2), 3, "y", 2);
    BothInserted();
  }

  lemma BothInserted()
    ensures var s := Idle(map[3 := DIAL], 0, 2);
      Handed(s, 3, "y").(pool := AfterInsert(s.pool, "y", "a", "imap", 2), used := s.used + {"y"})
        == Both(map[], 0, 2)
  {
    var s := Idle(map[3 := DIAL], 0, 2);
    var t := Handed(s, 3, "y").(pool := AfterInsert(s.pool, "y", "a", "imap", 2), used := s.used + {"y"});
    assert t.pool.lists["a"] == ["x", "y"] && t.pool.lists == map["a" := ["x", "y"]];
    assert t.callers == map[] && t.used == {"x", "y"};
    assert t.pool.connections == map["x" := X, "y" := Y];
  }

  lemma BothFull()
    ensures Next(TWO, Both(map[], 0, 2), Begin(1, "a", "imap", 300)) == Some(Both(map[1 := FULL], 1, 3))
  {
    SizePut(map["x" := X], "y", Y);
  }

  lemma BothClosed()
    ensures var u := Both(map[1 := FULL], 1, 3);
            u.(pool := AfterClose(u.pool, "y"), closedByRequest := u.closedByRequest + {"y"})
              == Single(Free, map[1 := FULL], 3)
  {
    var u := Both(map[1 := FULL], 1, 3);
    var q := AfterClose(u.pool, "y");
    assert q.connections == map["x" := X];
    WithoutAt(["x", "y"], "y", 1);
    assert q.lists["a"] == ["x"] && q.lists == map["a" := ["x"]];
    assert u.closedByRequest + {"y"} == {"y"};
  }

  /** Caller 1 has found the pool full, y was closed, and caller 2 searches at 300: x times out after that. */
  lemma SearchRun() returns (actions: seq<Action>)
    ensures Run(TWO, INITIAL, actions)
      == Some(Single(Searching(2, 300, ["x"]), map[1 := FULL, 2 := Taking("a", "imap")], 4))
  {
    var both := BothRun();
    BothFull();
    Snoc(TWO, both, Both(map[], 0, 2), Begin(1, "a", "imap", 300), Both(map[1 := FULL], 1, 3));
    actions := CloseRuns(TWO, INITIAL, both + [Begin(1, "a", "imap", 300)], Both(map[1 := FULL], 1, 3), "y");
    BothClosed();
    SearchStarts();
    Snoc(TWO, actions, Single(Free, map[1 := FULL], 3), Begin(2, "a", "imap", 300),
         Single(Searching(2, 300, ["x"]), map[1 := FULL, 2 := Taking("a", "imap")], 4));
    actions := actions + [Begin(2, "a", "imap", 300)];
  }

  lemma SearchStarts()
    ensures Next(TWO, Single(Free, map[1 := FULL], 3), Begin(2, "a", "imap", 300))
      == Some(Single(Searching(2, 300, ["x"]), map[1 := FULL, 2 := Taking("a", "imap")], 4))
  {
    assert map[1 := FULL][2 := Taking("a", "imap")] == map[1 := FULL, 2 := Taking("a", "imap")];
  }

  function SweepsAt(turn: Turn): map<nat, Phase> {
    map[1 := Sweeping("a", "imap", 302, turn), 2 := Taking("a", "imap")]
  }

  /** Caller 2 has found x, not yet timed out at 300; caller 1 has found it timed out at 302. */
  lemma FoundRun() returns (actions: seq<Action>)
    ensures Run(TWO, INITIAL, actions) == Some(Single(Found(2, "x"), SweepsAt(Checked("x", "a")), 4))
  {
    var callers := map[1 := FULL, 2 := Taking("a", "imap")];
    actions := SearchRun();
    assert Usable(TWO, Single(Free, callers, 4).pool, "x", "imap", 300);
    Snoc(TWO, actions, Single(Searching(2, 300, ["x"]), callers, 4), Proceed(300), Single(Found(2, "x"), callers, 4));
    actions := actions + [Proceed(300)];
    FoundSweeps();
    Snoc(TWO, actions, Single(Found(2, "x"), callers, 4), SweepStart(1, 302),
         Single(Found(2, "x"), SweepsAt(Between), 4));
    actions := actions + [SweepStart(1, 302)];
    Snoc(TWO, actions, Single(Found(2, "x"), SweepsAt(Between), 4), SweepCheck(1, "x"),
         Single(Found(2, "x"), SweepsAt(Checked("x", "a")), 4));
    actions := actions + [SweepCheck(1, "x")];
  }

  lemma FoundSweeps()
    ensures Next(TWO, Single(Found(2, "x"), map[1 := FULL, 2 := Taking("a", "imap")], 4), SweepStart(1, 302))
      == Some(Single(Found(2, "x"), SweepsAt(Between), 4))
    ensures Next(TWO, Single(Found(2, "x"), SweepsAt(Between), 4), SweepCheck(1, "x"))
      == Some(Single(Found(2, "x"), SweepsAt(Checked("x", "a")), 4))
  {
    assert map[1 := FULL, 2 := Taking("a", "imap")][1 := Sweeping("a", "imap", 302, Between)] == SweepsAt(Between);
    assert SweepsAt(Between)[1 := Sweeping("a", "imap", 302, Checked("x", "a"))] == SweepsAt(Checked("x", "a"));
  }

  /** x is deleted between the search and the lookup: the acquire is neither served nor failed nor inside. */
  lemma LookupPanics() returns (actions: seq<Action>, t: State)
    ensures Run(TWO, INITIAL, actions) == Some(t) && t.section.Panicked?
    ensures t.started == t.handed + t.pool.metrics.errors + |t.callers| + 1
  {
    var found := FoundRun();
    var s := Single(Found(2, "x"), SweepsAt(Checked("x", "a")), 4);
    var u := AfterAdvance(s, Caller(1));
    Snoc(TWO, found, s, Advance(Caller(1)), u);
    t := AfterLookup(u, 2, "x");
    Snoc(TWO, found + [Advance(Caller(1))], u, Proceed(301), t);
    actions := found + [Advance(Caller(1))] + [Proceed(301)];
    OneHolder(TWO, actions);
  }

  function LookedAt(): State {
    Single(Looked(2, "x"), SweepsAt(Checked("x", "a")), 4)
  }

  lemma LookedRun() returns (actions: seq<Action>)
    ensures Run(TWO, INITIAL, actions) == Some(LookedAt())
  {
    var found := FoundRun();
    Snoc(TWO, found, Single(Found(2, "x"), SweepsAt(Checked("x", "a")), 4), Proceed(301), LookedAt());
    actions := found + [Proceed(301)];
  }

  /** x has been deleted, before caller 2 marks it or after. */
  const GONE := Pool(map[], map["a" := ["x"]], Metrics(2, 1, 1, 0))

  function Marked(pool: Pool, turn: Turn): State {
    State(pool, Free, map[1 := Sweeping("a", "imap", 302, turn)], map[2 := "x", 3 := "y"], {"x", "y"}, {"y"}, 4, 3)
  }

  lemma DeleteNext()
    ensures Next(TWO, LookedAt(), Advance(Caller(1)))
      == Some(Single(Looked(2, "x"), SweepsAt(Deleted("x", "a")), 4).(pool := GONE))
  {
    var t := AfterAdvance(LookedAt(), Caller(1));
    assert t.pool.connections == map[] && t.callers == SweepsAt(Deleted("x", "a"));
  }

  lemma MarkNext()
    ensures Next(TWO, Single(Looked(2, "x"), SweepsAt(Deleted("x", "a")), 4).(pool := GONE), Proceed(301))
      == Some(Marked(GONE, Deleted("x", "a")))
  {
    var s := Single(Looked(2, "x"), SweepsAt(Deleted("x", "a")), 4).(pool := GONE);
    assert s.callers - {2} == map[1 := Sweeping("a", "imap", 302, Deleted("x", "a"))];
    assert s.holders[2 := "x"] == map[2 := "x", 3 := "y"];
  }

  /** x is deleted between the lookup and the mark: caller 2 is handed a closed connection. */
  lemma ClosedIsHanded() returns (actions: seq<Action>, t: State)
    ensures Run(TWO, INITIAL, actions) == Some(t)
    ensures Holds(t, 2, "x") && "x" !in t.pool.connections && "x" !in t.closedByRequest
  {
    actions := LookedRun();
    t := Marked(GONE, Deleted("x", "a"));
    DeleteNext();
    var u := Single(Looked(2, "x"), SweepsAt(Deleted("x", "a")), 4).(pool := GONE);
    Snoc(TWO, actions, LookedAt(), Advance(Caller(1)), u);
    actions := actions + [Advance(Caller(1))];
    MarkNext();
    Snoc(TWO, actions, u, Proceed(301), t);
    actions := actions + [Proceed(301)];
  }

  const IN_USE := Pool(map["x" := Conn("a", "imap", true, 301)], map["a" := ["x"]], Metrics(2, 1, 1, 0))

  lemma TakeNext()
    ensures Next(TWO, LookedAt(), Proceed(301)) == Some(Marked(IN_USE, Checked("x", "a")))
  {
    assert LookedAt().callers - {2} == map[1 := Sweeping("a", "imap", 302, Checked("x", "a"))];
    assert LookedAt().holders[2 := "x"] == map[2 := "x", 3 := "y"];
    assert AfterTake(LookedAt().pool, "x", 301).connections == IN_USE.connections;
  }

  lemma DeleteUsedNext()
    ensures Next(TWO, Marked(IN_USE, Checked("x", "a")), Advance(Caller(1))) == Some(Marked(GONE, Deleted("x", "a")))
  {
    var t := AfterAdvance(Marked(IN_USE, Checked("x", "a")), Caller(1));
    assert t.pool.connections == map[];
    assert t.callers == map[1 := Sweeping("a", "imap", 302, Deleted("x", "a"))];
  }

  /** x is deleted after the mark: caller 2 loses the connection it holds. */
  lemma UsedIsRemoved() returns (actions: seq<Action>, t: State)
    ensures Run(TWO, INITIAL, actions) == Some(t)
    ensures Holds(t, 2, "x") && "x" !in t.pool.connections && "x" !in t.closedByRequest
  {
    actions := LookedRun();
    t := Marked(GONE, Deleted("x", "a"));
    TakeNext();
    Snoc(TWO, actions, LookedAt(), Proceed(301), Marked(IN_USE, Checked("x", "a")));
    actions := actions + [Proceed(301)];
    DeleteUsedNext();
    Snoc(TWO, actions, Marked(IN_USE, Checked("x", "a")), Advance(Caller(1)), t);
    actions := actions + [Advance(Caller(1))];
  }
}
