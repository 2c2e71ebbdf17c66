/**
  The IMAP session pool of imap_session_pool.go, seen from one account: no step reads or changes anything of
  another account. Sections under the pool's lock are one step, except for the first one of Acquire: it reads
  whether the session is healthy and whether it is idle separately, and a keep-alive, which writes both without
  the pool's lock, can come between.
 */
module SessionPool {
  import opened Wrappers
  import opened Counting

  /** Ten seconds, in nanoseconds. */
  const THROTTLE := 10_000_000_000

  datatype Config = Config(maxIdle: int, maxAge: int)

  /** A pooled session; its number also names its adapter. */
  datatype Session = Session(inUse: int, healthy: bool, lastUsed: int, createdAt: int)

  /**
    Where a caller is: about to look whether the healthy session it found is idle, connecting a burst connection
    or a new primary, or using an adapter.
   */
  datatype Caller = Locking(session: nat) | Bursting | Connecting | OnPrimary(session: nat) | OnPrivate

  /**
    `current` is the session in the map. `sessions` also keeps those no longer in it, which their users still
    point to. `pings` are the sessions a keep-alive has marked; `owed` counts the invalidations cleanup started.
    `locked` is the caller that holds the pool's lock between its two reads.
   */
  datatype State = State(current: Option<nat>, sessions: map<nat, Session>, created: nat, lastFailure: Option<int>,
                         callers: map<nat, Caller>, pings: set<nat>, owed: nat, locked: Option<nat>)

  const INITIAL := State(None, map[], 0, None, map[], {}, 0, None)

  datatype Action =
    | ReadHealthy(c: nat, now: int)
    | LockSession(c: nat, now: int)
    | ConnectFails(c: nat, now: int)
    | BurstConnected(c: nat)
    | Insert(c: nat, now: int)
    | ReleasePrimary(c: nat, now: int)
    | ClosePrivate(c: nat)
    | Invalidate
    | OwedInvalidate
    | Mark
    | PingFails(id: nat)
    | PingDone(id: nat)
    | Cleanup(now: int)

  predicate Throttled(s: State, now: int) {
    s.lastFailure.Some? && now - s.lastFailure.value < THROTTLE
  }

  predicate HasHealthy(s: State) {
    s.current.Some? && s.current.value in s.sessions && s.sessions[s.current.value].healthy
  }

  predicate Is(s: State, c: nat, place: Caller) {
    c in s.callers && s.callers[c] == place
  }

  /** Cleanup expires an idle session that has been unused or alive for too long. */
  predicate Expires(cfg: Config, session: Session, now: int) {
    session.inUse == 0 && (now - session.lastUsed > cfg.maxIdle || now - session.createdAt > cfg.maxAge)
  }

  /** The first locked section of Acquire up to the session's lock: keep the pool's lock, or go and connect. */
  function AfterRead(s: State, c: nat): State {
    if HasHealthy(s) then s.(callers := s.callers[c := Locking(s.current.value)], locked := Some(c))
    else s.(callers := s.callers[c := Connecting])
  }

  predicate IsLocking(s: State, c: nat) {
    c in s.callers && s.callers[c].Locking? && s.callers[c].session in s.sessions
  }

  /** The rest of that section: reuse the session found healthy if it is idle, else connect a burst connection. */
  function AfterLock(s: State, c: nat, now: int): State
    requires IsLocking(s, c)
  {
    var id := s.callers[c].session;
    if s.sessions[id].inUse == 0 then
      s.(sessions := s.sessions[id := s.sessions[id].(inUse := 1, lastUsed := now)],
         callers := s.callers[c := OnPrimary(id)], locked := None)
    else s.(callers := s.callers[c := Bursting], locked := None)
  }

  /** The second locked section: keep the new connection private if a healthy primary has appeared, else pool it. */
  function AfterInsert(s: State, c: nat, now: int): State {
    if HasHealthy(s) then s.(callers := s.callers[c := OnPrivate])
    else s.(sessions := s.sessions[s.created := Session(1, true, now, now)], current := Some(s.created),
            created := s.created + 1, callers := s.callers[c := OnPrimary(s.created)])
  }

  /** Release goes by account: it marks whatever session is in the map now as idle. */
  function AfterRelease(s: State, c: nat, now: int): State {
    var t := s.(callers := s.callers - {c});
    if s.current.Some? && s.current.value in s.sessions then
      t.(sessions := s.sessions[s.current.value := s.sessions[s.current.value].(inUse := 0, lastUsed := now)])
    else t
  }

  function AfterInvalidate(s: State): State {
    if s.current.Some? && s.current.value in s.sessions then
      s.(sessions := s.sessions[s.current.value := s.sessions[s.current.value].(healthy := false)], current := None)
    else s
  }

  function AfterCleanup(cfg: Config, s: State, now: int): State {
    if s.current.None? || s.current.value !in s.sessions then s
    else
      var id := s.current.value;
      if !s.sessions[id].healthy then s.(owed := s.owed + 1)
      else if Expires(cfg, s.sessions[id], now) then
        s.(sessions := s.sessions[id := s.sessions[id].(healthy := false)], owed := s.owed + 1)
      else s
  }

  /** The steps that take the pool's lock. */
  predicate NeedsLock(a: Action) {
    !a.LockSession? && !a.BurstConnected? && !a.ClosePrivate? && !a.PingFails? && !a.PingDone?
  }

  /** One goroutine runs keep-alive and cleanup in turn, so neither starts before all pings are done. */
  function Next(cfg: Config, s: State, a: Action): Option<State> {
    if NeedsLock(a) && s.locked.Some? then None
    else match a {
      case ReadHealthy(c, now) => if c in s.callers || Throttled(s, now) then None else Some(AfterRead(s, c))
      case LockSession(c, now) => if !IsLocking(s, c) then None else Some(AfterLock(s, c, now))
      case ConnectFails(c, now) =>
        if !Is(s, c, Bursting) && !Is(s, c, Connecting) then None
        else Some(s.(callers := s.callers - {c}, lastFailure := Some(now)))
      case BurstConnected(c) =>
        if !Is(s, c, Bursting) then None else Some(s.(callers := s.callers[c := OnPrivate]))
      case Insert(c, now) => if !Is(s, c, Connecting) then None else Some(AfterInsert(s, c, now))
      case ReleasePrimary(c, now) =>
        if c !in s.callers || !s.callers[c].OnPrimary? then None else Some(AfterRelease(s, c, now))
      case ClosePrivate(c) => if !Is(s, c, OnPrivate) then None else Some(s.(callers := s.callers - {c}))
      case Invalidate => Some(AfterInvalidate(s))
      case OwedInvalidate => if s.owed == 0 then None else Some(AfterInvalidate(s.(owed := s.owed - 1)))
      case Mark =>
        if s.pings != {} || !HasHealthy(s) || s.sessions[s.current.value].inUse != 0 then None
        else
          var id := s.current.value;
          Some(s.(sessions := s.sessions[id := s.sessions[id].(inUse := 1)], pings := s.pings + {id}))
      case PingFails(id) =>
        if id !in s.pings || id !in s.sessions then None
        else Some(s.(sessions := s.sessions[id := s.sessions[id].(healthy := false)]))
      case PingDone(id) =>
        if id !in s.pings || id !in s.sessions then None
        else Some(s.(sessions := s.sessions[id := s.sessions[id].(inUse := 0)], pings := s.pings - {id}))
      case Cleanup(now) => if s.pings != {} then None else Some(AfterCleanup(cfg, s, now))
    }
  }

  function Run(cfg: Config, s: State, actions: seq<Action>): Option<State>
    decreases |actions|
  {
    if actions == [] then Some(s)
    else match Run(cfg, s, actions[..|actions| - 1]) {
      case None => None
      case Some(t) => Next(cfg, t, actions[|actions| - 1])
    }
  }

  // ---- Exclusive use ----

  ghost predicate CallerOn(s: State, c: nat, id: nat) {
    c in s.callers && s.callers[c] == OnPrimary(id)
  }

  ghost predicate CallerUses(s: State, id: nat) {
    exists c :: CallerOn(s, c, id)
  }

  /** No adapter of a pooled session is used by two callers, or by a caller and a keep-alive ping. */
  ghost predicate Exclusive(s: State) {
    && (forall c, d, id | CallerOn(s, c, id) && CallerOn(s, d, id) :: c == d)
    && (forall c, id | CallerOn(s, c, id) :: id !in s.pings)
  }

  /** Caller c is about to take an idle session that has become unhealthy since c found it healthy. */
  predicate TakesStale(s: State, c: nat) {
    IsLocking(s, c) && s.sessions[s.callers[c].session].inUse == 0 && !s.sessions[s.callers[c].session].healthy
  }

  /**
    The assumptions on a step: an invalidation does not hit a session that a caller holds, and no failing ping has
    ended between the two reads of a caller that takes the session.
   */
  ghost predicate Gentle(s: State, a: Action) {
    && ((a.Invalidate? || a.OwedInvalidate?) && s.current.Some? ==> !CallerUses(s, s.current.value))
    && (a.LockSession? ==> !TakesStale(s, a.c))
  }

  ghost predicate GentleRun(cfg: Config, s: State, actions: seq<Action>)
    decreases |actions|
  {
    actions == [] ||
    (GentleRun(cfg, s, actions[..|actions| - 1]) && Run(cfg, s, actions[..|actions| - 1]).Some? &&
     Gentle(Run(cfg, s, actions[..|actions| - 1]).value, actions[|actions| - 1]))
  }

  /** A caller on a session: it is the healthy one in the map, and marked as in use. */
  ghost predicate CallersOK(s: State) {
    && (forall c, id | CallerOn(s, c, id) ::
          s.current == Some(id) && id in s.sessions && s.sessions[id].healthy && id !in s.pings)
    && (forall c, d, id | CallerOn(s, c, id) && CallerOn(s, d, id) :: c == d)
  }

  /** A session is marked as in use exactly while somebody uses it. */
  ghost predicate MarksOK(s: State) {
    && (forall id | id in s.sessions :: id < s.created)
    && (s.current.Some? ==> s.current.value in s.sessions)
    && (forall id | id in s.pings :: id in s.sessions)
    && (forall id | id in s.sessions :: s.sessions[id].inUse != 0 <==> id in s.pings || CallerUses(s, id))
  }

  /** The pool's lock is held exactly by the one caller between its reads, so the map has not changed since. */
  ghost predicate LockOK(s: State) {
    && (forall c | c in s.callers && s.callers[c].Locking? ::
          s.locked == Some(c) && s.current == Some(s.callers[c].session))
    && (s.locked.Some? ==> s.locked.value in s.callers && s.callers[s.locked.value].Locking?)
  }

  ghost predicate Inv(s: State) {
    CallersOK(s) && MarksOK(s) && LockOK(s)
  }

  /** How the users of the primaries change when one caller moves. */
  lemma CallerMoves(s: State, t: State, c: nat)
    requires forall d | d != c ::
        (d in t.callers <==> d in s.callers) && (d in s.callers ==> t.callers[d] == s.callers[d])
    ensures forall d, id | d != c :: CallerOn(t, d, id) <==> CallerOn(s, d, id)
    ensures forall id | !CallerOn(s, c, id) && !CallerOn(t, c, id) :: CallerUses(t, id) <==> CallerUses(s, id)
  {
    forall id | !CallerOn(s, c, id) && !CallerOn(t, c, id) ensures CallerUses(t, id) <==> CallerUses(s, id) {
      if d :| CallerOn(s, d, id) { assert CallerOn(t, d, id); }
      if d :| CallerOn(t, d, id) { assert CallerOn(s, d, id); }
    }
  }

  lemma ReadStep(s: State, c: nat)
    requires Inv(s) && c !in s.callers && s.locked.None?
    ensures Inv(AfterRead(s, c))
  {
    CallerMoves(s, AfterRead(s, c), c);
  }

  lemma LockStep(s: State, c: nat, now: int)
    requires Inv(s) && IsLocking(s, c) && !TakesStale(s, c)
    ensures Inv(AfterLock(s, c, now))
  {
    var t := AfterLock(s, c, now);
    CallerMoves(s, t, c);
    if t.callers[c].OnPrimary? {
      assert CallerOn(t, c, t.callers[c].session);
    }
  }

  lemma InsertStep(s: State, c: nat, now: int)
    requires Inv(s) && Is(s, c, Connecting) && s.locked.None?
    ensures Inv(AfterInsert(s, c, now))
  {
    var t := AfterInsert(s, c, now);
    CallerMoves(s, t, c);
    if t.callers[c].OnPrimary? {
      assert CallerOn(t, c, s.created);
    }
  }

  /** A caller that is not on the primary moves on to another place off it, or leaves. */
  lemma PrivateStep(s: State, t: State, c: nat)
    requires Inv(s) && c in s.callers && !s.callers[c].OnPrimary? && !s.callers[c].Locking?
    requires t.locked == s.locked
    requires t.callers == s.callers - {c} || t.callers == s.callers[c := OnPrivate]
    requires t.current == s.current && t.sessions == s.sessions && t.created == s.created && t.pings == s.pings
    ensures Inv(t)
  {
    CallerMoves(s, t, c);
    assert forall id :: CallerUses(t, id) <==> CallerUses(s, id);
  }

  lemma ReleaseStep(s: State, c: nat, now: int)
    requires Inv(s) && c in s.callers && s.callers[c].OnPrimary? && s.locked.None?
    ensures Inv(AfterRelease(s, c, now))
  {
    var t, id := AfterRelease(s, c, now), s.callers[c].session;
    CallerMoves(s, t, c);
    assert CallerOn(s, c, id);
    assert !CallerUses(t, id);
  }

  lemma SameCallers(s: State, t: State)
    requires t.callers == s.callers
    ensures forall c, id :: CallerOn(t, c, id) <==> CallerOn(s, c, id)
    ensures forall id :: CallerUses(t, id) <==> CallerUses(s, id)
  {
    forall id ensures CallerUses(t, id) <==> CallerUses(s, id) {
      if c :| CallerOn(s, c, id) { assert CallerOn(t, c, id); }
      if c :| CallerOn(t, c, id) { assert CallerOn(s, c, id); }
    }
  }

  lemma InvalidateStep(s: State)
    requires Inv(s) && s.locked.None? && (s.current.Some? ==> !CallerUses(s, s.current.value))
    ensures Inv(AfterInvalidate(s))
  {
    SameCallers(s, AfterInvalidate(s));
    forall c, id ensures !CallerOn(s, c, id) {
      assert CallerOn(s, c, id) ==> CallerUses(s, id);
    }
  }

  lemma KeepAliveStep(cfg: Config, s: State, a: Action)
    requires Inv(s) && Next(cfg, s, a).Some? && (a.Mark? || a.PingFails? || a.PingDone? || a.Cleanup?)
    ensures Inv(Next(cfg, s, a).value)
  {
    var t := Next(cfg, s, a).value;
    SameCallers(s, t);
    forall c, id | CallerOn(s, c, id) ensures s.sessions[id].inUse != 0 && id !in s.pings {
      assert CallerUses(s, id);
    }
  }

  lemma OwedStep(s: State)
    requires Inv(s) && s.locked.None? && s.owed > 0 && (s.current.Some? ==> !CallerUses(s, s.current.value))
    ensures Inv(AfterInvalidate(s.(owed := s.owed - 1)))
  {
    SameCallers(s, s.(owed := s.owed - 1));
    InvalidateStep(s.(owed := s.owed - 1));
  }

  lemma StepKeepsInv(cfg: Config, s: State, a: Action)
    requires Inv(s) && Next(cfg, s, a).Some? && Gentle(s, a)
    ensures Inv(Next(cfg, s, a).value)
  {
    match a
    case ReadHealthy(c, now) => ReadStep(s, c);
    case LockSession(c, now) => LockStep(s, c, now);
    case ConnectFails(c, now) => PrivateStep(s, Next(cfg, s, a).value, c);
    case BurstConnected(c) => PrivateStep(s, Next(cfg, s, a).value, c);
    case Insert(c, now) => InsertStep(s, c, now);
    case ReleasePrimary(c, now) => ReleaseStep(s, c, now);
    case ClosePrivate(c) => PrivateStep(s, Next(cfg, s, a).value, c);
    case Invalidate => InvalidateStep(s);
    case OwedInvalidate => OwedStep(s);
    case _ => KeepAliveStep(cfg, s, a);
  }

  lemma {:induction false} RunKeepsInv(cfg: Config, s: State, actions: seq<Action>)
    requires Inv(s) && Run(cfg, s, actions).Some? && GentleRun(cfg, s, actions)
    ensures Inv(Run(cfg, s, actions).value)
    decreases |actions|
  {
    if actions != [] {
      RunKeepsInv(cfg, s, actions[..|actions| - 1]);
      StepKeepsInv(cfg, Run(cfg, s, actions[..|actions| - 1]).value, actions[|actions| - 1]);
    }
  }

  // ---- Main results ----

  /**
    As long as no invalidation hits a held session and no failing ping ends between the two reads of an acquirer,
    every primary adapter has at most one user.
   */
  lemma OneUserPerPrimary(cfg: Config, actions: seq<Action>, s: State)
    requires Run(cfg, INITIAL, actions) == Some(s) && GentleRun(cfg, INITIAL, actions)
    ensures Exclusive(s)
    ensures forall id | id in s.sessions :: s.sessions[id].inUse != 0 <==> id in s.pings || CallerUses(s, id)
    ensures forall c: nat, id: nat | CallerOn(s, c, id) :: s.current == Some(id)
  {
    RunKeepsInv(cfg, INITIAL, actions);
  }

  /** An acquirer that found a healthy session gets it exactly when nobody is using it; else it must connect. */
  lemma OthersGetPrivate(cfg: Config, actions: seq<Action>, s: State, c: nat, now: int)
    requires Run(cfg, INITIAL, actions) == Some(s) && GentleRun(cfg, INITIAL, actions)
    requires s.locked == Some(c)
    ensures s.current.Some? && Next(cfg, s, LockSession(c, now)).Some?
    ensures Next(cfg, s, LockSession(c, now)).value.callers[c] ==
      if s.current.value in s.pings || CallerUses(s, s.current.value) then Bursting else OnPrimary(s.current.value)
  {
    RunKeepsInv(cfg, INITIAL, actions);
  }

  /**
    What can come between the two reads of caller c: the map stays, and only the keep-alive of the very session
    makes it unhealthy or idle. So what c must not meet is a failing ping that ends there.
   */
  lemma OnlyPingsComeBetween(cfg: Config, s: State, a: Action, c: nat)
    requires Inv(s) && s.locked == Some(c) && Next(cfg, s, a).Some? && (a.LockSession? ==> a.c != c)
    ensures !a.LockSession?
    ensures var t := Next(cfg, s, a).value; var id := s.callers[c].session;
            && t.locked == Some(c) && t.current == s.current == Some(id) && t.callers[c] == Locking(id)
            && (t.sessions[id].healthy != s.sessions[id].healthy ==> a == PingFails(id))
            && (t.sessions[id].inUse != s.sessions[id].inUse ==> a == PingDone(id))
  {
  }

  lemma RunSnoc(cfg: Config, s: State, actions: seq<Action>, a: Action)
    requires Run(cfg, s, actions).Some?
    ensures Run(cfg, s, actions + [a]) == Next(cfg, Run(cfg, s, actions).value, a)
  {
    assert (actions + [a])[..|actions|] == actions;
  }

  ghost predicate Shared(s: State) {
    exists c, d, id :: c != d && CallerOn(s, c, id) && CallerOn(s, d, id)
  }

  predicate IsInvalidation(a: Action) {
    a.Invalidate? || a.OwedInvalidate?
  }

  predicate Invalidates(actions: seq<Action>) {
    exists a | a in actions :: IsInvalidation(a)
  }

  lemma SnocInvalidates(actions: seq<Action>, a: Action)
    requires !Invalidates(actions) && !IsInvalidation(a)
    ensures !Invalidates(actions + [a])
  {
  }

  /** With a on a session the pool no longer counts on, b pools a new one and works on it. */
  lemma Repool(cfg: Config, s: State, actions: seq<Action>, u: State, a: nat, id: nat, b: nat, now: int)
    returns (rest: seq<Action>, t: State)
    requires Run(cfg, s, actions) == Some(u) && u.locked.None? && u.created !in u.sessions
    requires CallerOn(u, a, id) && !HasHealthy(u) && b !in u.callers && !Throttled(u, now)
    ensures Run(cfg, s, actions + rest) == Some(t) && !Invalidates(rest)
    ensures t.locked.None? && HasHealthy(t) && CallerOn(t, b, t.current.value)
    ensures t.lastFailure == u.lastFailure && t.callers == u.callers[b := OnPrimary(u.created)]
  {
    RunSnoc(cfg, s, actions, ReadHealthy(b, now));
    RunSnoc(cfg, s, actions + [ReadHealthy(b, now)], Insert(b, now));
    rest := [ReadHealthy(b, now), Insert(b, now)];
    assert actions + rest == actions + [ReadHealthy(b, now)] + [Insert(b, now)];
    var v := AfterRead(u, b);
    assert v == u.(callers := u.callers[b := Connecting]);
    t := AfterInsert(v, b, now);
    assert t.callers == u.callers[b := OnPrimary(u.created)];
  }

  /** Then a releases: by account, so that session is marked as idle, and c takes it while b is on it. */
  lemma ReleaseOther(cfg: Config, s: State, actions: seq<Action>, u: State, a: nat, b: nat, c: nat, now: int)
    returns (rest: seq<Action>, t: State)
    requires Run(cfg, s, actions) == Some(u) && u.locked.None? && HasHealthy(u)
    requires CallerOn(u, b, u.current.value) && a in u.callers && u.callers[a].OnPrimary? && a != b
    requires c !in u.callers && !Throttled(u, now)
    ensures Run(cfg, s, actions + rest) == Some(t) && !Invalidates(rest) && Shared(t)
  {
    RunSnoc(cfg, s, actions, ReleasePrimary(a, now));
    RunSnoc(cfg, s, actions + [ReleasePrimary(a, now)], ReadHealthy(c, now));
    RunSnoc(cfg, s, actions + [ReleasePrimary(a, now)] + [ReadHealthy(c, now)], LockSession(c, now));
    rest := [ReleasePrimary(a, now), ReadHealthy(c, now), LockSession(c, now)];
    assert actions + rest == actions + [ReleasePrimary(a, now)] + [ReadHealthy(c, now)] + [LockSession(c, now)];
    t := Run(cfg, s, actions + rest).value;
    assert CallerOn(t, b, u.current.value) && CallerOn(t, c, u.current.value);
  }

  /** After a step that is not gentle some caller is on a session that the pool no longer counts on. */
  lemma UngentleStep(cfg: Config, s: State, x: Action) returns (a: nat, id: nat, u: State)
    requires Inv(s) && Next(cfg, s, x).Some? && !Gentle(s, x)
    ensures Next(cfg, s, x) == Some(u) && CallerOn(u, a, id) && !HasHealthy(u)
    ensures u.locked.None? && u.created !in u.sessions
    ensures u.lastFailure == s.lastFailure && u.callers.Keys == s.callers.Keys
  {
    u := Next(cfg, s, x).value;
    if x.LockSession? {
      a, id := x.c, s.callers[x.c].session;
    } else {
      id := s.current.value;
      a :| CallerOn(s, a, id);
      assert u.callers == s.callers;
    }
  }

  /** Two callers that are not there yet, and a time at which they are not turned away. */
  lemma Newcomers(u: State) returns (b: nat, now: int)
    ensures b !in u.callers && b + 1 !in u.callers && !Throttled(u, now)
  {
    b := Above(u.callers.Keys);
    now := if u.lastFailure.Some? then u.lastFailure.value + THROTTLE else 0;
  }

  /** With a caller on a session the pool no longer counts on, two others come to share the next one. */
  lemma SharingFollows(cfg: Config, actions: seq<Action>, u: State, a: nat, id: nat)
    returns (rest: seq<Action>, t: State)
    requires Run(cfg, INITIAL, actions) == Some(u) && u.locked.None? && u.created !in u.sessions
    requires CallerOn(u, a, id) && !HasHealthy(u)
    ensures Run(cfg, INITIAL, actions + rest) == Some(t) && !Invalidates(rest) && Shared(t)
  {
    var b, now := Newcomers(u);
    var repool, v := Repool(cfg, INITIAL, actions, u, a, id, b, now);
    var other, w := ReleaseOther(cfg, INITIAL, actions + repool, v, a, b, b + 1, now);
    rest, t := repool + other, w;
    assert actions + rest == actions + repool + other;
  }

  /**
    The assumptions are needed after every gentle run: a step that breaks them leads to two callers on one adapter
    without any further invalidation, because the release of the first holder marks the next session as idle.
   */
  lemma UngentleLeadsToSharing(cfg: Config, actions: seq<Action>, s: State, x: Action)
    returns (rest: seq<Action>, t: State)
    requires Run(cfg, INITIAL, actions) == Some(s) && GentleRun(cfg, INITIAL, actions)
    requires Next(cfg, s, x).Some? && !Gentle(s, x)
    ensures Run(cfg, INITIAL, actions + [x] + rest) == Some(t) && !Invalidates(rest) && Shared(t)
  {
    RunKeepsInv(cfg, INITIAL, actions);
    var a, id, u := UngentleStep(cfg, s, x);
    RunSnoc(cfg, INITIAL, actions, x);
    rest, t := SharingFollows(cfg, actions + [x], u, a, id);
  }

  /** So only gentle runs are safe: any other one has a first step that is not gentle, and sharing can follow it. */
  lemma {:induction false} OnlyGentleRunsAreSafe(cfg: Config, actions: seq<Action>)
    returns (k: nat, rest: seq<Action>, t: State)
    requires Run(cfg, INITIAL, actions).Some? && !GentleRun(cfg, INITIAL, actions)
    ensures k < |actions| && GentleRun(cfg, INITIAL, actions[..k]) && !GentleRun(cfg, INITIAL, actions[..k + 1])
    ensures Run(cfg, INITIAL, actions[..k + 1] + rest) == Some(t) && !Invalidates(rest) && Shared(t)
    decreases |actions|
  {
    k := |actions| - 1;
    var before, x := actions[..k], actions[k];
    assert actions[..k + 1] == actions == before + [x];
    if GentleRun(cfg, INITIAL, before) {
      rest, t := UngentleLeadsToSharing(cfg, before, Run(cfg, INITIAL, before).value, x);
    } else {
      k, rest, t := OnlyGentleRunsAreSafe(cfg, before);
      assert before[..k] == actions[..k] && before[..k + 1] == actions[..k + 1];
    }
  }

  /** A session of the account is in the map and idle. */
  lemma IdleRun(cfg: Config) returns (actions: seq<Action>, s: State)
    ensures Run(cfg, INITIAL, actions) == Some(s) && GentleRun(cfg, INITIAL, actions) && !Invalidates(actions)
    ensures s == State(Some(0), map[0 := Session(0, true, 1, 0)], 1, None, map[], {}, 0, None)
  {
    GentleSnoc(cfg, [], ReadHealthy(0, 0));
    GentleSnoc(cfg, [] + [ReadHealthy(0, 0)], Insert(0, 0));
    GentleSnoc(cfg, [] + [ReadHealthy(0, 0)] + [Insert(0, 0)], ReleasePrimary(0, 1));
    actions := [] + [ReadHealthy(0, 0)] + [Insert(0, 0)] + [ReleasePrimary(0, 1)];
    s := Run(cfg, INITIAL, actions).value;
  }

  lemma GentleSnoc(cfg: Config, actions: seq<Action>, a: Action)
    requires Run(cfg, INITIAL, actions).Some? && GentleRun(cfg, INITIAL, actions)
    requires Next(cfg, Run(cfg, INITIAL, actions).value, a).Some? && Gentle(Run(cfg, INITIAL, actions).value, a)
    ensures GentleRun(cfg, INITIAL, actions + [a])
    ensures Run(cfg, INITIAL, actions + [a]) == Next(cfg, Run(cfg, INITIAL, actions).value, a)
  {
    RunSnoc(cfg, INITIAL, actions, a);
    assert (actions + [a])[..|actions|] == actions;
  }

  /** Caller 1 has found the session healthy while a keep-alive pings it. */
  lemma PingedRun(cfg: Config) returns (actions: seq<Action>, s: State)
    ensures Run(cfg, INITIAL, actions) == Some(s) && GentleRun(cfg, INITIAL, actions) && !Invalidates(actions)
    ensures s == State(Some(0), map[0 := Session(1, true, 1, 0)], 1, None, map[1 := Locking(0)], {0}, 0, Some(1))
  {
    var idle, i := IdleRun(cfg);
    GentleSnoc(cfg, idle, Mark);
    GentleSnoc(cfg, idle + [Mark], ReadHealthy(1, 2));
    actions := idle + [Mark] + [ReadHealthy(1, 2)];
    s := Run(cfg, INITIAL, actions).value;
  }

  /** A keep-alive that fails between the two reads of caller 1 comes without any invalidation. */
  lemma PingCanFailBetween(cfg: Config) returns (actions: seq<Action>, s: State)
    ensures Run(cfg, INITIAL, actions) == Some(s) && GentleRun(cfg, INITIAL, actions) && !Invalidates(actions)
    ensures Next(cfg, s, LockSession(1, 2)).Some? && !Gentle(s, LockSession(1, 2))
  {
    var pinged, i := PingedRun(cfg);
    GentleSnoc(cfg, pinged, PingFails(0));
    GentleSnoc(cfg, pinged + [PingFails(0)], PingDone(0));
    actions := pinged + [PingFails(0)] + [PingDone(0)];
    s := Run(cfg, INITIAL, actions).value;
  }

  /**
    The pool's own cleanup can make an invalidation hit a holder, because it goes by account and not by session:
    session 0 idles out, and its owed invalidation is still to run when caller 1 is on session 1.
   */
  lemma CleanupCanHitHolder() returns (actions: seq<Action>, s: State)
    ensures Run(Config(5, 100), INITIAL, actions) == Some(s) && GentleRun(Config(5, 100), INITIAL, actions)
    ensures Next(Config(5, 100), s, OwedInvalidate).Some? && !Gentle(s, OwedInvalidate)
  {
    var cfg := Config(5, 100);
    var idle, i := IdleRun(cfg);
    GentleSnoc(cfg, idle, Cleanup(9));
    GentleSnoc(cfg, idle + [Cleanup(9)], ReadHealthy(1, 9));
    GentleSnoc(cfg, idle + [Cleanup(9)] + [ReadHealthy(1, 9)], Insert(1, 9));
    actions := idle + [Cleanup(9)] + [ReadHealthy(1, 9)] + [Insert(1, 9)];
    s := Run(cfg, INITIAL, actions).value;
    assert CallerOn(s, 1, 1);
    assert CallerUses(s, 1);
  }

  // ---- Times ----

  /** An acquire is refused exactly in the ten seconds after the last connection that failed. */
  lemma RefusedExactly(cfg: Config, s: State, c: nat, now: int)
    requires s.locked.None? && c !in s.callers
    ensures Next(cfg, s, ReadHealthy(c, now)).None?
      <==> s.lastFailure.Some? && now < s.lastFailure.value + 10_000_000_000
  {
  }

  /** The time of the last connection that failed. */
  function LatestFailure(actions: seq<Action>): Option<int> {
    if actions == [] then None
    else if actions[|actions| - 1].ConnectFails? then Some(actions[|actions| - 1].now)
    else LatestFailure(actions[..|actions| - 1])
  }

  lemma FailureStep(cfg: Config, s: State, a: Action)
    requires Next(cfg, s, a).Some?
    ensures Next(cfg, s, a).value.lastFailure == if a.ConnectFails? then Some(a.now) else s.lastFailure
  {
  }

  /** A success does not clear it. */
  lemma {:induction false} FailureIsRemembered(cfg: Config, actions: seq<Action>)
    requires Run(cfg, INITIAL, actions).Some?
    ensures Run(cfg, INITIAL, actions).value.lastFailure == LatestFailure(actions)
    decreases |actions|
  {
    if actions != [] {
      FailureIsRemembered(cfg, actions[..|actions| - 1]);
      FailureStep(cfg, Run(cfg, INITIAL, actions[..|actions| - 1]).value, actions[|actions| - 1]);
    }
  }

  /** Session id is taken for reuse, or released, by the step. */
  predicate Uses(s: State, a: Action, id: nat) {
    || (a.LockSession? && IsLocking(s, a.c) && s.callers[a.c].session == id && s.sessions[id].inUse == 0)
    || (a.ReleasePrimary? && s.current == Some(id))
  }

  /** A session is as old as its insertion, and unused since it was last taken or released; pings do not count. */
  lemma StampsStep(cfg: Config, s: State, a: Action, id: nat)
    requires Next(cfg, s, a).Some? && id in Next(cfg, s, a).value.sessions && s.created !in s.sessions
    ensures var t := Next(cfg, s, a).value;
      if id in s.sessions then
        && t.sessions[id].createdAt == s.sessions[id].createdAt
        && t.sessions[id].lastUsed == if Uses(s, a, id) then a.now else s.sessions[id].lastUsed
      else a.Insert? && t.sessions[id] == Session(1, true, a.now, a.now) && t.current == Some(id)
  {
  }

  /**
    Cleanup takes away exactly a session that is no longer healthy, or that is idle and either unused for longer than
    MaxIdleTimeout or older than MaxSessionAge: it is unhealthy from then on and its invalidation is owed.
   */
  lemma CleanupExactly(cfg: Config, s: State, now: int)
    requires s.current.Some? && s.current.value in s.sessions
    ensures var t, id, session := AfterCleanup(cfg, s, now), s.current.value, s.sessions[s.current.value];
      && (t.owed == s.owed + 1 <==>
            || !session.healthy
            || (session.inUse == 0 && (now > session.lastUsed + cfg.maxIdle || now > session.createdAt + cfg.maxAge)))
      && (t.owed == s.owed || t.owed == s.owed + 1) && id in t.sessions && t.current == s.current
      && (t.sessions[id].healthy <==> t.owed == s.owed) && t.sessions[id] == session.(healthy := t.sessions[id].healthy)
  {
  }

  /** A session is marked by one user at most: the mark is 0 or 1. */
  ghost predicate MarksBinary(s: State) {
    forall id | id in s.sessions :: s.sessions[id].inUse == 0 || s.sessions[id].inUse == 1
  }

  lemma {:induction false} MarksAreBinary(cfg: Config, actions: seq<Action>)
    requires Run(cfg, INITIAL, actions).Some?
    ensures MarksBinary(Run(cfg, INITIAL, actions).value)
    decreases |actions|
  {
    if actions != [] { MarksAreBinary(cfg, actions[..|actions| - 1]); }
  }

  /** An acquirer goes for the session in the map while it is healthy, and for a connection of its own otherwise. */
  lemma FindsExactly(cfg: Config, s: State, c: nat, now: int)
    requires s.current.Some? ==> s.current.value in s.sessions
    ensures Next(cfg, s, ReadHealthy(c, now)).Some? ==>
      var t := Next(cfg, s, ReadHealthy(c, now)).value;
      if s.current.Some? && s.sessions[s.current.value].healthy
      then t.callers == s.callers[c := Locking(s.current.value)] && t.locked == Some(c)
      else t.callers == s.callers[c := Connecting] && t.locked == None
    ensures Next(cfg, s, Insert(c, now)).Some? ==>
      var t := Next(cfg, s, Insert(c, now)).value;
      if s.current.Some? && s.sessions[s.current.value].healthy
      then t.callers == s.callers[c := OnPrivate] && t.current == s.current
      else t.callers == s.callers[c := OnPrimary(s.created)] && t.current == Some(s.created)
  {
  }

  /** A round of pings marks a healthy idle session, and cleanup starts, only when all pings are done. */
  lemma RoundsExactly(cfg: Config, s: State, id: nat, now: int)
    requires s.current.Some? ==> s.current.value in s.sessions
    ensures Next(cfg, s, Mark).Some? <==>
      s.locked.None? && s.pings == {} && s.current.Some? && s.sessions[s.current.value].healthy
      && s.sessions[s.current.value].inUse == 0
    ensures Next(cfg, s, Cleanup(now)).Some? <==> s.locked.None? && s.pings == {}
    ensures Next(cfg, s, PingFails(id)).Some? <==> id in s.pings && id in s.sessions
    ensures Next(cfg, s, PingDone(id)).Some? <==> id in s.pings && id in s.sessions
    ensures Next(cfg, s, OwedInvalidate).Some? <==> s.locked.None? && s.owed > 0
  {
  }

  /** A connection attempt can fail, or a burst connection be made or closed, at any moment of its own. */
  lemma ConnectsExactly(cfg: Config, s: State, c: nat, now: int)
    ensures Next(cfg, s, BurstConnected(c)).Some? <==> Is(s, c, Bursting)
    ensures Next(cfg, s, ClosePrivate(c)).Some? <==> Is(s, c, OnPrivate)
    ensures Next(cfg, s, ConnectFails(c, now)).Some?
      <==> s.locked.None? && (Is(s, c, Bursting) || Is(s, c, Connecting))
    ensures Next(cfg, s, Insert(c, now)).Some? <==> s.locked.None? && Is(s, c, Connecting)
  {
  }

  // ---- The code itself ----

  class PooledSession {
    var inUse: int
    var healthy: bool
    var lastUsed: int
    const createdAt: int

    ghost function Value(): Session
      reads this
    {
      Session(inUse, healthy, lastUsed, createdAt)
    }

    constructor (now: int)
      ensures Value() == Session(1, true, now, now)
    {
      inUse, healthy, lastUsed, createdAt := 1, true, now, now;
    }
  }

  datatype ReadResult = Refused | Healthy | Connect

  /** What the map holds for the account in a state of the machine. */
  function InMap(s: State): Option<Session> {
    if s.current.Some? && s.current.value in s.sessions then Some(s.sessions[s.current.value]) else None
  }

  /** What a keep-alive round and a cleanup round do to one account's session. */
  function MarkedEntry(e: Option<Session>): Option<Session> {
    if e.Some? && e.value.healthy && e.value.inUse == 0 then Some(e.value.(inUse := 1)) else e
  }

  function CleanedEntry(cfg: Config, e: Option<Session>, now: int): Option<Session> {
    if e.Some? && e.value.healthy && Expires(cfg, e.value, now) then Some(e.value.(healthy := false)) else e
  }

  predicate Owes(cfg: Config, e: Option<Session>, now: int) {
    e.Some? && (!e.value.healthy || Expires(cfg, e.value, now))
  }

  lemma MarkMatches(cfg: Config, s: State)
    requires s.locked.None? && s.pings == {} && (s.current.Some? ==> s.current.value in s.sessions)
    ensures Next(cfg, s, Mark).Some? <==> MarkedEntry(InMap(s)) != InMap(s)
    ensures Next(cfg, s, Mark).Some? ==> InMap(Next(cfg, s, Mark).value) == MarkedEntry(InMap(s))
  {
  }

  lemma CleanupMatches(cfg: Config, s: State, now: int)
    requires s.current.Some? ==> s.current.value in s.sessions
    ensures InMap(AfterCleanup(cfg, s, now)) == CleanedEntry(cfg, InMap(s), now)
    ensures AfterCleanup(cfg, s, now).owed == s.owed + (if Owes(cfg, InMap(s), now) then 1 else 0)
  {
  }

  class IMAPSessionPool {
    const config: Config
    var sessions: map<string, PooledSession>
    var lastFailure: map<string, int>
    var reuseCount: int

    ghost predicate Valid()
      reads this`sessions
    {
      forall a, b | a in sessions && b in sessions && a != b :: sessions[a] != sessions[b]
    }

    ghost function Entry(account: string): Option<Session>
      reads this`sessions, sessions.Values
    {
      if account in sessions then Some(sessions[account].Value()) else None
    }

    /** The pool's part for the account is as in state s. */
    ghost predicate Shows(s: State, account: string)
      reads this`sessions, this`lastFailure, sessions.Values
    {
      && (s.current.Some? ==> s.current.value in s.sessions)
      && Entry(account) == InMap(s)
      && s.lastFailure == if account in lastFailure then Some(lastFailure[account]) else None
    }

    constructor (config: Config)
      ensures Valid() && forall a :: Shows(INITIAL, a)
    {
      this.config := config;
      sessions, lastFailure, reuseCount := map[], map[], 0;
    }

    /** The first locked section of Acquire, up to the session's lock. */
    method ReadHealthy(account: string, now: int, ghost s: State, ghost c: nat) returns (r: ReadResult)
      requires Valid() && Shows(s, account) && c !in s.callers
      ensures r.Refused? <==> Throttled(s, now)
      ensures r.Healthy? <==> !r.Refused? && IsLocking(AfterRead(s, c), c)
      ensures r.Connect? <==> !r.Refused? && Is(AfterRead(s, c), c, Connecting)
      ensures r.Healthy? ==> account in sessions
      ensures Shows(AfterRead(s, c), account)
    {
      if account in lastFailure && now - lastFailure[account] < THROTTLE {
        return Refused;
      }
      if account in sessions && sessions[account].healthy {
        return Healthy;
      }
      r := Connect;
    }

    /** The rest of that section, under the session's lock: whatever the session is by now. */
    method LockSession(account: string, now: int, ghost s: State, ghost c: nat) returns (reuse: bool)
      requires Valid() && Shows(s, account) && account in sessions
      requires IsLocking(s, c) && s.current == Some(s.callers[c].session)
      modifies this`reuseCount, sessions.Values
      ensures Valid() && Shows(AfterLock(s, c, now), account)
      ensures reuse <==> AfterLock(s, c, now).callers[c].OnPrimary?
      ensures !reuse <==> AfterLock(s, c, now).callers[c] == Bursting
      ensures forall b | b != account :: Entry(b) == old(Entry(b))
    {
      var session := sessions[account];
      assert session in sessions.Values;
      reuse := session.inUse == 0;
      if reuse {
        session.inUse := 1;
        session.lastUsed := now;
        reuseCount := reuseCount + 1;
      }
    }

    /** A failed connection attempt is remembered for ten seconds. */
    method ConnectFailed(account: string, now: int, ghost s: State, ghost c: nat)
      requires Shows(s, account)
      modifies this`lastFailure
      ensures Shows(s.(callers := s.callers - {c}, lastFailure := Some(now)), account)
      ensures lastFailure == old(lastFailure)[account := now]
    {
      lastFailure := lastFailure[account := now];
    }

    /** The second locked section of Acquire. */
    method InsertSession(account: string, now: int, ghost s: State, ghost c: nat) returns (pooled: bool)
      requires Valid() && Shows(s, account) && s.created !in s.sessions
      modifies this`sessions, this`reuseCount
      ensures Valid() && Shows(AfterInsert(s, c, now), account)
      ensures pooled == AfterInsert(s, c, now).callers[c].OnPrimary?
      ensures forall b | b != account :: Entry(b) == old(Entry(b))
    {
      if account in sessions && sessions[account].healthy {
        reuseCount := reuseCount + 1;
        return false;
      }
      var newSession := new PooledSession(now);
      sessions := sessions[account := newSession];
      pooled := true;
    }

    method Release(account: string, now: int, ghost s: State, ghost c: nat)
      requires Valid() && Shows(s, account)
      modifies sessions.Values
      ensures Valid() && Shows(AfterRelease(s, c, now), account)
      ensures forall b | b != account :: Entry(b) == old(Entry(b))
    {
      if account !in sessions {
        return;
      }
      var session := sessions[account];
      assert session in sessions.Values;
      session.inUse := 0;
      session.lastUsed := now;
    }

    method Invalidate(account: string, ghost s: State)
      requires Valid() && Shows(s, account)
      modifies this`sessions, sessions.Values
      ensures Valid() && Shows(AfterInvalidate(s), account)
      ensures forall b | b != account :: Entry(b) == old(Entry(b))
    {
      if account in sessions {
        assert sessions[account] in sessions.Values;
        sessions[account].healthy := false;
        sessions := sessions - {account};
      }
    }

    /** The collecting loop of performKeepAlive: marks every healthy idle session, in any order. */
    method MarkIdle() returns (targets: set<string>)
      requires Valid()
      modifies sessions.Values
      ensures forall a :: Entry(a) == MarkedEntry(old(Entry(a)))
      ensures forall a :: a in targets <==> Entry(a) != old(Entry(a))
    {
      targets := {};
      var todo := sessions.Keys;
      while todo != {}
        invariant todo <= sessions.Keys && targets !! todo
        invariant forall a | a in todo :: Entry(a) == old(Entry(a))
        invariant forall a | a !in todo :: Entry(a) == MarkedEntry(old(Entry(a)))
        invariant forall a :: a in targets <==> Entry(a) != old(Entry(a))
        decreases |todo|
      {
        var a :| a in todo;
        var marked := MarkOne(a);
        if marked {
          targets := targets + {a};
        }
        todo := todo - {a};
      }
    }

    method MarkOne(account: string) returns (marked: bool)
      requires Valid() && account in sessions
      modifies sessions.Values
      ensures Entry(account) == MarkedEntry(old(Entry(account))) && marked == (Entry(account) != old(Entry(account)))
      ensures forall b | b != account :: Entry(b) == old(Entry(b))
    {
      var session := sessions[account];
      assert session in sessions.Values;
      marked := false;
      if session.healthy && session.inUse == 0 {
        session.inUse := 1;
        marked := true;
      }
    }

    /** The loop of performCleanup; the result is the accounts whose invalidation it starts. */
    method PerformCleanup(now: int) returns (owed: set<string>)
      requires Valid()
      modifies sessions.Values
      ensures forall a :: Entry(a) == CleanedEntry(config, old(Entry(a)), now)
      ensures forall a :: a in owed <==> Owes(config, old(Entry(a)), now)
    {
      owed := {};
      var todo := sessions.Keys;
      while todo != {}
        invariant todo <= sessions.Keys
        invariant forall a | a in todo :: Entry(a) == old(Entry(a)) && a !in owed
        invariant forall a | a !in todo :: Entry(a) == CleanedEntry(config, old(Entry(a)), now)
        invariant forall a | a !in todo :: a in owed <==> Owes(config, old(Entry(a)), now)
        decreases |todo|
      {
        var a :| a in todo;
        var owes := CleanOne(a, now);
        if owes {
          owed := owed + {a};
        }
        todo := todo - {a};
      }
    }

    method CleanOne(account: string, now: int) returns (owes: bool)
      requires Valid() && account in sessions
      modifies sessions.Values
      ensures Entry(account) == CleanedEntry(config, old(Entry(account)), now)
      ensures owes == Owes(config, old(Entry(account)), now)
      ensures forall b | b != account :: Entry(b) == old(Entry(b))
    {
      var session := sessions[account];
      assert session in sessions.Values;
      if !session.healthy {
        return true;
      }
      owes := false;
      if session.inUse == 0 {
        var age := now - session.createdAt;
        var idleTime := now - session.lastUsed;
        if idleTime > config.maxIdle || age > config.maxAge {
          session.healthy := false;
          owes := true;
        }
      }
    }
  }
}
