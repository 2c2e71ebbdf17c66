/**
  Runs of the connection pool, and what holds in all of them. The sweep that a caller makes when it finds the pool
  full runs without the lock, so its accesses can fall between those of another call that has the lock. Both are
  one step for each access to the map, the counter and the lists that another step could come between.
 */
module ConnectionPoolRuns {
  import opened Wrappers
  import opened Sorting
  import opened Counting
  import opened ConnectionPool

  /**
    Where the removal of connections is: between two of them, or about to delete one, to read the counter, to write
    it, to read the account's list, to write it.
   */
  datatype Turn = Between
    | Checked(id: string, owner: string)
    | Deleted(id: string, owner: string)
    | Tallying(id: string, owner: string, closed: int)
    | Counted(id: string, owner: string)
    | Reading(id: string, owner: string, ids: seq<string>)

  /** Where a caller inside Acquire is: found the pool full; sweeping it; swept it; searching its list; dialling. */
  datatype Phase = Full(account: string, kind: string)
    | Sweeping(account: string, kind: string, now: int, turn: Turn)
    | Swept(account: string, kind: string)
    | Taking(account: string, kind: string)
    | Dialling(account: string, kind: string)

  /**
    What the holder of the lock is about to do. Acquire: look at the next ID of the list it has read; look the ID it
    found up again; mark that connection. Insert: read the list; write it. Release: write the time. Close,
    CloseAccount and the locked cleanup remove connections. `Panicked` keeps the lock for good.
   */
  datatype Section = Free
    | Searching(c: nat, now: int, rest: seq<string>)
    | Found(c: nat, id: string)
    | Looked(c: nat, id: string)
    | Inserted(account: string, id: string)
    | Appending(account: string, id: string, ids: seq<string>)
    | Touching(id: string)
    | Closing(turn: Turn)
    | ClosingAccount(account: string, rest: seq<string>, turn: Turn)
    | Tidying(now: int, turn: Turn)
    | Panicked

  /**
    `holders` are the callers a connection was handed to. `used` ids, those closed by Close or CloseAccount, and
    the totals are history.
   */
  datatype State = State(pool: Pool, section: Section, callers: map<nat, Phase>, holders: map<nat, string>,
                         used: set<string>, closedByRequest: set<string>, started: nat, handed: nat)

  const INITIAL := State(EMPTY, Free, map[], map[], {}, {}, 0, 0)

  /** Who removes connections: a caller that sweeps without the lock, or the holder of the lock. */
  datatype Worker = Caller(c: nat) | Holder

  datatype Action =
    | Begin(c: nat, account: string, kind: string, now: int)
    | SweepStart(c: nat, now: int)
    | SweepCheck(c: nat, id: string)
    | SweepEnd(c: nat)
    | Recheck(c: nat, now: int)
    | DialFails(c: nat)
    | DialDone(c: nat, id: string, now: int)
    | Release(c: nat, now: int)
    | ReleaseAgain(id: string)
    | Close(id: string)
    | CloseAccount(account: string)
    | Tidy(now: int)
    | TidyCheck(id: string)
    | TidyEnd
    | Proceed(now: int)
    | Advance(w: Worker)

  predicate IsFull(s: State, c: nat) { c in s.callers && s.callers[c].Full? }
  predicate IsSweeping(s: State, c: nat) { c in s.callers && s.callers[c].Sweeping? }
  predicate IsSwept(s: State, c: nat) { c in s.callers && s.callers[c].Swept? }
  predicate IsTaking(s: State, c: nat) { c in s.callers && s.callers[c].Taking? }
  predicate IsDialling(s: State, c: nat) { c in s.callers && s.callers[c].Dialling? }

  // ---- Removing a connection ----

  predicate Works(s: State, w: Worker) {
    match w
    case Caller(c) => IsSweeping(s, c)
    case Holder => s.section.Closing? || s.section.ClosingAccount? || s.section.Tidying?
  }

  function TurnOf(s: State, w: Worker): Turn
    requires Works(s, w)
  {
    match w
    case Caller(c) => s.callers[c].turn
    case Holder => s.section.turn
  }

  function TurnTo(s: State, w: Worker, turn: Turn): State
    requires Works(s, w)
  {
    match w
    case Caller(c) => s.(callers := s.callers[c := s.callers[c].(turn := turn)])
    case Holder => s.(section := s.section.(turn := turn))
  }

  /** The worker has a connection to remove and has yet to finish. */
  predicate IsRemoving(s: State, w: Worker) { Works(s, w) && !TurnOf(s, w).Between? }

  /** CloseAccount drops the whole list in the end, so it does not take IDs out of it one by one. */
  predicate DropsList(s: State, w: Worker) { w.Holder? && s.section.ClosingAccount? }

  /** The pool after the next access of a removal. */
  function TurnedPool(p: Pool, turn: Turn): Pool {
    match turn
    case Checked(id, _) => p.(connections := p.connections - {id})
    case Tallying(_, _, closed) => p.(metrics := p.metrics.(closed := closed + 1))
    case Reading(id, owner, ids) => if id in ids then p.(lists := p.lists[owner := Without(ids, id)]) else p
    case _ => p
  }

  function TurnAfter(p: Pool, turn: Turn, dropsList: bool): Turn {
    match turn
    case Between => Between
    case Checked(id, owner) => Deleted(id, owner)
    case Deleted(id, owner) => Tallying(id, owner, p.metrics.closed)
    case Tallying(id, owner, _) => if dropsList then Between else Counted(id, owner)
    case Counted(id, owner) => Reading(id, owner, ListOf(p, owner))
    case Reading(_, _, _) => Between
  }

  /** Close and CloseAccount are asked to close what they remove; a cleanup is not. */
  predicate Requested(s: State, w: Worker) { w.Holder? && !s.section.Tidying? }

  function Turned(s: State, w: Worker): State
    requires Works(s, w)
  {
    TurnTo(s, w, TurnAfter(s.pool, TurnOf(s, w), DropsList(s, w))).(
      pool := TurnedPool(s.pool, TurnOf(s, w)),
      closedByRequest :=
        if TurnOf(s, w).Checked? && Requested(s, w) then s.closedByRequest + {TurnOf(s, w).id} else s.closedByRequest)
  }

  /** Close is over with its one removal. */
  function AfterAdvance(s: State, w: Worker): State
    requires Works(s, w)
  {
    if w.Holder? && s.section.Closing? && TurnOf(s, w).Reading? then Turned(s, w).(section := Free) else Turned(s, w)
  }

  // ---- The other sections ----

  function Handed(s: State, c: nat, id: string): State {
    s.(callers := s.callers - {c}, holders := s.holders[c := id], handed := s.handed + 1, section := Free)
  }

  /** One more ID of the list the acquirer has read: usable, or not, or there is none left and it must dial. */
  function AfterLook(cfg: Config, s: State, c: nat, now: int, rest: seq<string>): State
    requires c in s.callers
  {
    if rest == [] then
      s.(callers := s.callers[c := Dialling(s.callers[c].account, s.callers[c].kind)], section := Free)
    else if Usable(cfg, s.pool, rest[0], s.callers[c].kind, now) then s.(section := Found(c, rest[0]))
    else s.(section := Searching(c, now, rest[1..]))
  }

  /** The lookup of the ID found: a nil pointer is dereferenced if it has gone meanwhile. */
  function AfterLookup(s: State, c: nat, id: string): State {
    if id in s.pool.connections then s.(section := Looked(c, id))
    else s.(callers := s.callers - {c}, section := Panicked)
  }

  /** The acquirer marks the connection it has looked up, in the map or no longer, and returns it. */
  function AfterMark(s: State, c: nat, id: string, now: int): State {
    var t := Handed(s, c, id);
    if id in s.pool.connections then t.(pool := AfterTake(s.pool, id, now)) else t
  }

  function AfterTouch(s: State, id: string, now: int): State {
    if id in s.pool.connections then
      s.(pool := s.pool.(connections := s.pool.connections[id := s.pool.connections[id].(lastUsed := now)]),
         section := Free)
    else s.(section := Free)
  }

  /** CloseAccount goes on with the next ID of the list it has read, and drops the list at the end. */
  function AfterNextID(s: State, account: string, rest: seq<string>): State {
    if rest == [] then s.(pool := s.pool.(lists := s.pool.lists - {account}), section := Free)
    else if rest[0] in s.pool.connections then
      s.(section := ClosingAccount(account, rest[1..], Checked(rest[0], s.pool.connections[rest[0]].account)))
    else s.(section := ClosingAccount(account, rest[1..], Between))
  }

  function AfterProceed(cfg: Config, s: State, now: int): Option<State> {
    match s.section
    case Searching(c, at, rest) => if IsTaking(s, c) then Some(AfterLook(cfg, s, c, at, rest)) else None
    case Found(c, id) => Some(AfterLookup(s, c, id))
    case Looked(c, id) => Some(AfterMark(s, c, id, now))
    case Inserted(account, id) => Some(s.(section := Appending(account, id, ListOf(s.pool, account))))
    case Appending(account, id, ids) =>
      Some(s.(pool := s.pool.(lists := s.pool.lists[account := ids + [id]]), section := Free))
    case Touching(id) => Some(AfterTouch(s, id, now))
    case ClosingAccount(account, rest, turn) =>
      if turn.Between? then Some(AfterNextID(s, account, rest)) else None
    case _ => None
  }

  /** With room in the pool: read the account's list and search it. */
  function Enter(s: State, c: nat, account: string, kind: string, now: int): State {
    s.(callers := s.callers[c := Taking(account, kind)], section := Searching(c, now, ListOf(s.pool, account)))
  }

  function Stored(s: State, c: nat, id: string, account: string, kind: string, now: int): State {
    Handed(s, c, id).(
      pool := s.pool.(connections := s.pool.connections[id := Conn(account, kind, true, now)],
                      metrics := s.pool.metrics.(created := s.pool.metrics.created + 1)),
      used := s.used + {id}, section := Inserted(account, id))
  }

  /** The first write of Release; the time follows. */
  function Released(s: State, id: string): State {
    if id in s.pool.connections then
      s.(pool := s.pool.(connections := s.pool.connections[id := s.pool.connections[id].(inUse := false)]),
         section := Touching(id))
    else s
  }

  // ---- The machine ----

  predicate NeedsLock(a: Action) {
    a.Begin? || a.Recheck? || a.DialFails? || a.DialDone? || a.Release? || a.ReleaseAgain? || a.Close? ||
    a.CloseAccount? || a.Tidy?
  }

  ghost predicate Holds(s: State, c: nat, id: string) {
    c in s.holders && s.holders[c] == id
  }

  ghost predicate IsHeld(s: State, id: string) {
    exists c :: Holds(s, c, id)
  }

  /** What an acquirer does when it has the lock. */
  function AfterLocked(cfg: Config, s: State, a: Action): Option<State>
    requires a.Begin? || a.Recheck? || a.DialFails? || a.DialDone?
  {
    match a
    case Begin(c, account, kind, now) =>
      if c in s.callers || c in s.holders then None
      else if AtCapacity(cfg, s.pool) then
        Some(s.(pool := Waited(s.pool), callers := s.callers[c := Full(account, kind)], started := s.started + 1))
      else Some(Enter(s.(started := s.started + 1), c, account, kind, now))
    case Recheck(c, now) =>
      if !IsSwept(s, c) then None
      else if AtCapacity(cfg, s.pool) then Some(s.(pool := Erred(s.pool), callers := s.callers - {c}))
      else Some(Enter(s, c, s.callers[c].account, s.callers[c].kind, now))
    case DialFails(c) =>
      if !IsDialling(s, c) then None else Some(s.(pool := Erred(s.pool), callers := s.callers - {c}))
    case DialDone(c, id, now) =>
      if !IsDialling(s, c) || id in s.used then None
      else Some(Stored(s, c, id, s.callers[c].account, s.callers[c].kind, now))
  }

  /** A sweep without the lock: its `now` is read once, and it may meet any stale connection next. */
  function AfterSweep(cfg: Config, s: State, a: Action): Option<State>
    requires a.SweepStart? || a.SweepCheck? || a.SweepEnd?
  {
    match a
    case SweepStart(c, now) =>
      if !IsFull(s, c) then None
      else Some(s.(callers := s.callers[c := Sweeping(s.callers[c].account, s.callers[c].kind, now, Between)]))
    case SweepCheck(c, id) =>
      if !IsSweeping(s, c) || !s.callers[c].turn.Between? || !IsStale(cfg, s.pool, id, s.callers[c].now) then None
      else Some(TurnTo(s, Caller(c), Checked(id, s.pool.connections[id].account)))
    case SweepEnd(c) =>
      if !IsSweeping(s, c) || !s.callers[c].turn.Between? then None
      else Some(s.(callers := s.callers[c := Swept(s.callers[c].account, s.callers[c].kind)]))
  }

  /** A connection may be released a second time, but not after it was handed to somebody else. */
  ghost function AfterOther(cfg: Config, s: State, a: Action): Option<State>
    requires a.Release? || a.ReleaseAgain? || a.Close? || a.CloseAccount? || a.Tidy? || a.TidyCheck? || a.TidyEnd?
  {
    match a
    case Release(c, now) =>
      if c !in s.holders then None else Some(Released(s.(holders := s.holders - {c}), s.holders[c]))
    case ReleaseAgain(id) => if id !in s.used || IsHeld(s, id) then None else Some(Released(s, id))
    case Close(id) =>
      if id !in s.pool.connections then Some(s)
      else Some(s.(section := Closing(Checked(id, s.pool.connections[id].account))))
    case CloseAccount(account) => Some(s.(section := ClosingAccount(account, ListOf(s.pool, account), Between)))
    case Tidy(now) => Some(s.(section := Tidying(now, Between)))
    case TidyCheck(id) =>
      if !s.section.Tidying? || !s.section.turn.Between? || !IsStale(cfg, s.pool, id, s.section.now) then None
      else Some(TurnTo(s, Holder, Checked(id, s.pool.connections[id].account)))
    case TidyEnd => if !s.section.Tidying? || !s.section.turn.Between? then None else Some(s.(section := Free))
  }

  ghost function Next(cfg: Config, s: State, a: Action): Option<State> {
    if NeedsLock(a) && !s.section.Free? then None
    else match a {
      case Proceed(now) => AfterProceed(cfg, s, now)
      case Advance(w) => if !IsRemoving(s, w) then None else Some(AfterAdvance(s, w))
      case SweepStart(_, _) => AfterSweep(cfg, s, a)
      case SweepCheck(_, _) => AfterSweep(cfg, s, a)
      case SweepEnd(_) => AfterSweep(cfg, s, a)
      case Begin(_, _, _, _) => AfterLocked(cfg, s, a)
      case Recheck(_, _) => AfterLocked(cfg, s, a)
      case DialFails(_) => AfterLocked(cfg, s, a)
      case DialDone(_, _, _) => AfterLocked(cfg, s, a)
      case _ => AfterOther(cfg, s, a)
    }
  }

  // ---- Who holds what ----

  /** A stored connection is marked as in use exactly while one caller holds it. */
  ghost predicate HoldersOK(s: State) {
    && (forall c | c in s.holders :: s.holders[c] in s.used && c !in s.callers)
    && (forall c, d, id | Holds(s, c, id) && Holds(s, d, id) :: c == d)
    && (forall id | id in s.pool.connections :: id in s.used)
    && (forall id | id in s.pool.connections :: s.pool.connections[id].inUse <==> IsHeld(s, id))
  }

  /** The caller that has the lock is searching, and what it has found is nobody's. */
  ghost predicate SearchOK(s: State) {
    && (s.section.Searching? ==> IsTaking(s, s.section.c))
    && (s.section.Found? || s.section.Looked? ==>
          IsTaking(s, s.section.c) && s.section.id in s.used && !IsHeld(s, s.section.id))
  }

  /** Every acquire that began was served, failed, is still inside, or has panicked. */
  predicate FlowOK(s: State) {
    s.started == s.handed + s.pool.metrics.errors + |s.callers| + (if s.section.Panicked? then 1 else 0)
  }

  predicate DialPhase(p: Phase) { p.Dialling? }

  ghost function Dials(s: State): nat {
    Count(s.callers, DialPhase)
  }

  /** With at most n callers inside Acquire, how far the pool and the dials under way can go. */
  function Limit(cfg: Config, n: nat): int {
    if cfg.maxConnections <= 0 then 0 else cfg.maxConnections - 1 + n
  }

  /** A caller that searches has found room, and connections only go while it does. */
  ghost predicate WithinLimit(cfg: Config, s: State, n: nat) {
    && |s.pool.connections| + Dials(s) <= Limit(cfg, n)
    && (s.section.Searching? ==> |s.pool.connections| < cfg.maxConnections)
  }

  // ---- Holders, step by step ----

  lemma SameHeld(s: State, t: State)
    requires t.holders == s.holders
    ensures forall c: nat, id :: Holds(t, c, id) <==> Holds(s, c, id)
    ensures forall id :: IsHeld(t, id) <==> IsHeld(s, id)
  {
    forall id ensures IsHeld(t, id) <==> IsHeld(s, id) {
      if d :| Holds(s, d, id) { assert Holds(t, d, id); }
      if d :| Holds(t, d, id) { assert Holds(s, d, id); }
    }
  }

  /** Callers move, and connections go; no holder changes. */
  lemma SameHolders(s: State, t: State)
    requires HoldersOK(s) && t.holders == s.holders && t.used == s.used
    requires forall c | c in t.callers :: c in s.callers || c !in s.holders
    requires forall id | id in t.pool.connections ::
        id in s.pool.connections && t.pool.connections[id].inUse == s.pool.connections[id].inUse
    ensures HoldersOK(t) && forall id :: IsHeld(t, id) <==> IsHeld(s, id)
  {
    SameHeld(s, t);
  }

  /** A caller that holds nothing is handed connection id, in the map or not. */
  lemma HandOver(s: State, t: State, c: nat, id: string)
    requires HoldersOK(s) && c !in s.holders && !IsHeld(s, id) && id in t.used && s.used <= t.used
    requires t.holders == s.holders[c := id] && t.callers == s.callers - {c}
    requires id in t.pool.connections ==> t.pool.connections[id].inUse
    requires forall x | x != id :: x in t.pool.connections <==> x in s.pool.connections
    requires forall x | x != id && x in s.pool.connections :: t.pool.connections[x] == s.pool.connections[x]
    ensures HoldersOK(t)
  {
    assert Holds(t, c, id);
    assert forall d: nat, x :: Holds(t, d, x) <==> if d == c then x == id else Holds(s, d, x);
    forall x | x != id ensures IsHeld(t, x) <==> IsHeld(s, x) {
      if d :| Holds(s, d, x) { assert Holds(t, d, x); }
      if d :| Holds(t, d, x) { assert Holds(s, d, x); }
    }
    forall d, x | Holds(s, d, x) ensures x != id {
      assert IsHeld(s, x);
    }
  }

  /** A connection that nobody holds, or no longer, is marked as idle. */
  lemma ReleasedHolders(s: State, t: State, id: string)
    requires HoldersOK(s) && t.holders.Keys <= s.holders.Keys && t.callers == s.callers && t.used == s.used
    requires forall c: nat, x :: Holds(t, c, x) <==> Holds(s, c, x) && x != id
    requires t.pool == Released(s, id).pool
    ensures HoldersOK(t)
  {
    forall x ensures IsHeld(t, x) <==> IsHeld(s, x) && x != id {
      if d :| Holds(s, d, x) { assert x != id ==> Holds(t, d, x); }
      if d :| Holds(t, d, x) { assert Holds(s, d, x); }
    }
    forall c | c in t.holders ensures t.holders[c] == s.holders[c] {
      assert Holds(t, c, t.holders[c]);
    }
  }

  lemma ReleaseHolders(s: State, c: nat)
    requires HoldersOK(s) && c in s.holders
    ensures HoldersOK(Released(s.(holders := s.holders - {c}), s.holders[c]))
  {
    var t, id := Released(s.(holders := s.holders - {c}), s.holders[c]), s.holders[c];
    assert Holds(s, c, id);
    assert forall d: nat, x :: Holds(t, d, x) <==> d != c && Holds(s, d, x);
    assert forall d: nat, x :: Holds(s, d, x) ==> (d == c <==> x == id);
    ReleasedHolders(s, t, id);
  }

  lemma ReleaseAgainHolders(s: State, id: string)
    requires HoldersOK(s) && !IsHeld(s, id)
    ensures HoldersOK(Released(s, id))
  {
    assert forall d: nat, x :: Holds(Released(s, id), d, x) <==> Holds(s, d, x);
    assert forall d: nat, x :: Holds(s, d, x) ==> IsHeld(s, x);
    ReleasedHolders(s, Released(s, id), id);
  }

  lemma StoreHolders(s: State, c: nat, id: string, account: string, kind: string, now: int)
    requires HoldersOK(s) && c in s.callers && id !in s.used
    ensures HoldersOK(Stored(s, c, id, account, kind, now))
  {
    assert forall d | d in s.holders :: s.holders[d] != id;
    HandOver(s, Stored(s, c, id, account, kind, now), c, id);
  }

  lemma MarkHolders(s: State, c: nat, id: string, now: int)
    requires HoldersOK(s) && c in s.callers && id in s.used && !IsHeld(s, id)
    ensures HoldersOK(AfterMark(s, c, id, now))
  {
    HandOver(s, AfterMark(s, c, id, now), c, id);
  }

  lemma ProceedHolders(cfg: Config, s: State, now: int)
    requires HoldersOK(s) && SearchOK(s) && AfterProceed(cfg, s, now).Some?
    ensures HoldersOK(AfterProceed(cfg, s, now).value) && SearchOK(AfterProceed(cfg, s, now).value)
  {
    var t := AfterProceed(cfg, s, now).value;
    if s.section.Looked? {
      MarkHolders(s, s.section.c, s.section.id, now);
    } else {
      SameHolders(s, t);
    }
  }

  lemma AdvanceHolders(s: State, w: Worker)
    requires HoldersOK(s) && SearchOK(s) && IsRemoving(s, w)
    ensures HoldersOK(AfterAdvance(s, w)) && SearchOK(AfterAdvance(s, w))
  {
    SameHolders(s, AfterAdvance(s, w));
  }

  lemma SweepHolders(cfg: Config, s: State, a: Action)
    requires HoldersOK(s) && SearchOK(s) && (a.SweepStart? || a.SweepCheck? || a.SweepEnd?)
    requires AfterSweep(cfg, s, a).Some?
    ensures HoldersOK(AfterSweep(cfg, s, a).value) && SearchOK(AfterSweep(cfg, s, a).value)
  {
    SameHolders(s, AfterSweep(cfg, s, a).value);
  }

  lemma LockedHolders(cfg: Config, s: State, a: Action)
    requires HoldersOK(s) && s.section.Free? && (a.Begin? || a.Recheck? || a.DialFails? || a.DialDone?)
    requires AfterLocked(cfg, s, a).Some?
    ensures HoldersOK(AfterLocked(cfg, s, a).value) && SearchOK(AfterLocked(cfg, s, a).value)
  {
    if a.DialDone? {
      StoreHolders(s, a.c, a.id, s.callers[a.c].account, s.callers[a.c].kind, a.now);
    } else {
      SameHolders(s, AfterLocked(cfg, s, a).value);
    }
  }

  lemma OtherHolders(cfg: Config, s: State, a: Action)
    requires HoldersOK(s) && SearchOK(s) && (NeedsLock(a) ==> s.section.Free?)
    requires a.Release? || a.ReleaseAgain? || a.Close? || a.CloseAccount? || a.Tidy? || a.TidyCheck? || a.TidyEnd?
    requires AfterOther(cfg, s, a).Some?
    ensures HoldersOK(AfterOther(cfg, s, a).value) && SearchOK(AfterOther(cfg, s, a).value)
  {
    if a.Release? {
      ReleaseHolders(s, a.c);
    } else if a.ReleaseAgain? {
      ReleaseAgainHolders(s, a.id);
    } else {
      SameHolders(s, AfterOther(cfg, s, a).value);
    }
  }

  lemma HoldersStep(cfg: Config, s: State, a: Action)
    requires HoldersOK(s) && SearchOK(s) && Next(cfg, s, a).Some?
    ensures HoldersOK(Next(cfg, s, a).value) && SearchOK(Next(cfg, s, a).value)
  {
    if a.Proceed? {
      ProceedHolders(cfg, s, a.now);
    } else if a.Advance? {
      AdvanceHolders(s, a.w);
    } else if a.SweepStart? || a.SweepCheck? || a.SweepEnd? {
      SweepHolders(cfg, s, a);
    } else if a.Begin? || a.Recheck? || a.DialFails? || a.DialDone? {
      LockedHolders(cfg, s, a);
    } else {
      OtherHolders(cfg, s, a);
    }
  }

  // ---- Totals ----

  lemma ProceedFlow(cfg: Config, s: State, now: int)
    requires SearchOK(s) && FlowOK(s) && AfterProceed(cfg, s, now).Some?
    ensures FlowOK(AfterProceed(cfg, s, now).value)
  {
    var t := AfterProceed(cfg, s, now).value;
    if s.section.Searching? { SizePut(s.callers, s.section.c, t.callers[s.section.c]); }
    if s.section.Found? || s.section.Looked? { SizeDrop(s.callers, s.section.c); }
  }

  lemma AdvanceFlow(s: State, w: Worker)
    requires FlowOK(s) && IsRemoving(s, w)
    ensures FlowOK(AfterAdvance(s, w))
  {
    if w.Caller? { SizePut(s.callers, w.c, AfterAdvance(s, w).callers[w.c]); }
  }

  lemma SweepFlow(cfg: Config, s: State, a: Action)
    requires FlowOK(s) && (a.SweepStart? || a.SweepCheck? || a.SweepEnd?) && AfterSweep(cfg, s, a).Some?
    ensures FlowOK(AfterSweep(cfg, s, a).value)
  {
    SizePut(s.callers, a.c, AfterSweep(cfg, s, a).value.callers[a.c]);
  }

  lemma EnterFlow(cfg: Config, s: State, a: Action)
    requires FlowOK(s) && s.section.Free? && (a.Begin? || a.Recheck?) && AfterLocked(cfg, s, a).Some?
    requires a.c in AfterLocked(cfg, s, a).value.callers
    ensures FlowOK(AfterLocked(cfg, s, a).value)
  {
    SizePut(s.callers, a.c, AfterLocked(cfg, s, a).value.callers[a.c]);
  }

  lemma LeaveFlow(cfg: Config, s: State, a: Action)
    requires FlowOK(s) && s.section.Free? && (a.Recheck? || a.DialFails? || a.DialDone?)
    requires AfterLocked(cfg, s, a).Some? && a.c !in AfterLocked(cfg, s, a).value.callers
    ensures FlowOK(AfterLocked(cfg, s, a).value)
  {
    SizeDrop(s.callers, a.c);
  }

  lemma LockedFlow(cfg: Config, s: State, a: Action)
    requires FlowOK(s) && s.section.Free? && (a.Begin? || a.Recheck? || a.DialFails? || a.DialDone?)
    requires AfterLocked(cfg, s, a).Some?
    ensures FlowOK(AfterLocked(cfg, s, a).value)
  {
    if a.c in AfterLocked(cfg, s, a).value.callers {
      EnterFlow(cfg, s, a);
    } else {
      LeaveFlow(cfg, s, a);
    }
  }

  lemma FlowStep(cfg: Config, s: State, a: Action)
    requires SearchOK(s) && FlowOK(s) && Next(cfg, s, a).Some?
    ensures FlowOK(Next(cfg, s, a).value)
  {
    if a.Proceed? {
      ProceedFlow(cfg, s, a.now);
    } else if a.Advance? {
      AdvanceFlow(s, a.w);
    } else if a.SweepStart? || a.SweepCheck? || a.SweepEnd? {
      SweepFlow(cfg, s, a);
    } else if a.Begin? || a.Recheck? || a.DialFails? || a.DialDone? {
      LockedFlow(cfg, s, a);
    }
  }

  // ---- The size limit ----

  lemma DialsMove(s: State, c: nat, phase: Phase)
    ensures Count(s.callers[c := phase], DialPhase)
      == Dials(s) - (if IsDialling(s, c) then 1 else 0) + (if phase.Dialling? then 1 else 0)
    ensures Count(s.callers - {c}, DialPhase) == Dials(s) - (if IsDialling(s, c) then 1 else 0)
  {
    CountPut(s.callers, c, phase, DialPhase);
    CountDrop(s.callers, c, DialPhase);
  }

  lemma SameKeys(p: Pool, q: Pool)
    requires q.connections.Keys == p.connections.Keys
    ensures |q.connections| == |p.connections|
  {
    assert |q.connections.Keys| == |q.connections| && |p.connections.Keys| == |p.connections|;
  }

  /** A dial begins only after a search that found room, so the number of callers bounds how far it overshoots. */
  lemma LookLimit(cfg: Config, s: State, c: nat, now: int, rest: seq<string>, n: nat)
    requires WithinLimit(cfg, s, n) && s.section == Searching(c, now, rest) && IsTaking(s, c)
    requires |AfterLook(cfg, s, c, now, rest).callers| <= n
    ensures WithinLimit(cfg, AfterLook(cfg, s, c, now, rest), n)
  {
    DialsMove(s, c, Dialling(s.callers[c].account, s.callers[c].kind));
    CountAtMost(AfterLook(cfg, s, c, now, rest).callers, DialPhase);
  }

  lemma ProceedLimit(cfg: Config, s: State, now: int, n: nat)
    requires WithinLimit(cfg, s, n) && SearchOK(s) && AfterProceed(cfg, s, now).Some?
    requires |AfterProceed(cfg, s, now).value.callers| <= n
    ensures WithinLimit(cfg, AfterProceed(cfg, s, now).value, n)
  {
    var t := AfterProceed(cfg, s, now).value;
    if s.section.Searching? {
      LookLimit(cfg, s, s.section.c, s.section.now, s.section.rest, n);
    } else {
      if s.section.Found? || s.section.Looked? { DialsMove(s, s.section.c, s.callers[s.section.c]); }
      assert t.pool.connections.Keys == s.pool.connections.Keys;
      SameKeys(s.pool, t.pool);
    }
  }

  lemma AdvanceLimit(cfg: Config, s: State, w: Worker, n: nat)
    requires WithinLimit(cfg, s, n) && IsRemoving(s, w)
    ensures WithinLimit(cfg, AfterAdvance(s, w), n)
  {
    if w.Caller? { DialsMove(s, w.c, AfterAdvance(s, w).callers[w.c]); }
    if TurnOf(s, w).Checked? { SizeDrop(s.pool.connections, TurnOf(s, w).id); }
  }

  lemma SweepLimit(cfg: Config, s: State, a: Action, n: nat)
    requires WithinLimit(cfg, s, n) && (a.SweepStart? || a.SweepCheck? || a.SweepEnd?)
    requires AfterSweep(cfg, s, a).Some?
    ensures WithinLimit(cfg, AfterSweep(cfg, s, a).value, n)
  {
    DialsMove(s, a.c, AfterSweep(cfg, s, a).value.callers[a.c]);
  }

  lemma LockedLimit(cfg: Config, s: State, a: Action, n: nat)
    requires WithinLimit(cfg, s, n) && s.section.Free? && (a.Begin? || a.Recheck? || a.DialFails? || a.DialDone?)
    requires AfterLocked(cfg, s, a).Some?
    ensures WithinLimit(cfg, AfterLocked(cfg, s, a).value, n)
  {
    var t := AfterLocked(cfg, s, a).value;
    if a.c in t.callers {
      DialsMove(s, a.c, t.callers[a.c]);
    } else {
      DialsMove(s, a.c, s.callers[a.c]);
      if a.DialDone? { SizePut(s.pool.connections, a.id, t.pool.connections[a.id]); }
    }
  }

  lemma OtherLimit(cfg: Config, s: State, a: Action, n: nat)
    requires WithinLimit(cfg, s, n)
    requires a.Release? || a.ReleaseAgain? || a.Close? || a.CloseAccount? || a.Tidy? || a.TidyCheck? || a.TidyEnd?
    requires AfterOther(cfg, s, a).Some?
    ensures WithinLimit(cfg, AfterOther(cfg, s, a).value, n)
  {
    assert AfterOther(cfg, s, a).value.pool.connections.Keys == s.pool.connections.Keys;
    SameKeys(s.pool, AfterOther(cfg, s, a).value.pool);
  }

  lemma LimitStep(cfg: Config, s: State, a: Action, n: nat)
    requires WithinLimit(cfg, s, n) && SearchOK(s) && Next(cfg, s, a).Some? && |Next(cfg, s, a).value.callers| <= n
    ensures WithinLimit(cfg, Next(cfg, s, a).value, n)
  {
    if a.Proceed? {
      ProceedLimit(cfg, s, a.now, n);
    } else if a.Advance? {
      AdvanceLimit(cfg, s, a.w, n);
    } else if a.SweepStart? || a.SweepCheck? || a.SweepEnd? {
      SweepLimit(cfg, s, a, n);
    } else if a.Begin? || a.Recheck? || a.DialFails? || a.DialDone? {
      LockedLimit(cfg, s, a, n);
    } else {
      OtherLimit(cfg, s, a, n);
    }
  }

  // ---- Main results ----

  ghost function Run(cfg: Config, s: State, actions: seq<Action>): Option<State>
    decreases |actions|
  {
    if actions == [] then Some(s)
    else match Run(cfg, s, actions[..|actions| - 1]) {
      case None => None
      case Some(t) => Next(cfg, t, actions[|actions| - 1])
    }
  }

  lemma RunSnoc(cfg: Config, s: State, actions: seq<Action>, a: Action)
    requires Run(cfg, s, actions).Some?
    ensures Run(cfg, s, actions + [a]) == Next(cfg, Run(cfg, s, actions).value, a)
  {
    assert (actions + [a])[..|actions|] == actions;
  }

  /**
    In every run, whatever the sweeps do: no connection is held by two callers, and one that is stored is in use
    exactly while it is held. Every acquire that began was served, failed, is still inside, or has panicked.
   */
  lemma {:induction false} OneHolder(cfg: Config, actions: seq<Action>)
    requires Run(cfg, INITIAL, actions).Some?
    ensures HoldersOK(Run(cfg, INITIAL, actions).value) && SearchOK(Run(cfg, INITIAL, actions).value)
    ensures FlowOK(Run(cfg, INITIAL, actions).value)
    decreases |actions|
  {
    if actions != [] {
      var before, a := actions[..|actions| - 1], actions[|actions| - 1];
      var s := Run(cfg, INITIAL, before).value;
      OneHolder(cfg, before);
      assert Run(cfg, INITIAL, actions) == Next(cfg, s, a);
      HoldersStep(cfg, s, a);
      FlowStep(cfg, s, a);
    }
  }

  /** Never more than n callers are inside Acquire. */
  ghost predicate AtMostInside(cfg: Config, s: State, actions: seq<Action>, n: nat)
    decreases |actions|
  {
    Run(cfg, s, actions).Some? && |Run(cfg, s, actions).value.callers| <= n &&
    (actions == [] || AtMostInside(cfg, s, actions[..|actions| - 1], n))
  }

  /** With at most n concurrent acquirers, stored and dialling together stay within maxConnections - 1 + n. */
  lemma {:induction false} StoredAndDialling(cfg: Config, actions: seq<Action>, n: nat)
    requires AtMostInside(cfg, INITIAL, actions, n)
    ensures WithinLimit(cfg, Run(cfg, INITIAL, actions).value, n)
    decreases |actions|
  {
    if actions == [] {
      CountAtMost(INITIAL.callers, DialPhase);
    } else {
      var before, a := actions[..|actions| - 1], actions[|actions| - 1];
      var s := Run(cfg, INITIAL, before).value;
      StoredAndDialling(cfg, before, n);
      OneHolder(cfg, before);
      assert Run(cfg, INITIAL, actions) == Next(cfg, s, a);
      LimitStep(cfg, s, a, n);
    }
  }

  // ---- The bound is reached ----

  /** Distinct IDs, and accounts. */
  function Name(i: nat): string {
    seq(i, _ => 'x')
  }

  /** Nobody has the lock; IDs, accounts and holders from k on are new, and callers from m on. */
  ghost predicate Busy(s: State, k: nat, m: nat) {
    && s.section == Free
    && (forall id | id in s.pool.connections :: id in s.used) && (forall id | id in s.used :: |id| < k)
    && (forall a | a in s.pool.lists :: |a| < k)
    && (forall c | c in s.holders :: c < k) && (forall c | c in s.callers :: c < m)
  }

  function OneDialling(s: State, c: nat): State {
    s.(callers := s.callers[c := Dialling(Name(c), "imap")], started := s.started + 1)
  }

  function OneStored(s: State, c: nat, id: string): State {
    s.(pool := AfterInsert(s.pool, id, Name(c), "imap", 0), callers := s.callers - {c},
       holders := s.holders[c := id], used := s.used + {id}, started := s.started + 1, handed := s.handed + 1)
  }

  function Searched(s: State, c: nat): State {
    Enter(s.(started := s.started + 1), c, Name(c), "imap", 0)
  }

  lemma NewAccount(s: State, k: nat, m: nat, c: nat)
    requires Busy(s, k, m) && k <= c
    ensures ListOf(s.pool, Name(c)) == []
  {
    assert |Name(c)| == c;
  }

  /** A caller of a new account finds room and nothing to search. */
  lemma SearchBegins(cfg: Config, s: State, k: nat, c: nat)
    requires Busy(s, k, c) && k <= c && |s.pool.connections| < cfg.maxConnections
    ensures Next(cfg, s, Begin(c, Name(c), "imap", 0)) == Some(Searched(s, c))
  {
  }

  lemma SearchEnds(cfg: Config, s: State, k: nat, c: nat, next: nat)
    requires Busy(s, k, c) && k <= c && next == c + 1
    ensures Next(cfg, Searched(s, c), Proceed(0)) == Some(OneDialling(s, c))
    ensures Busy(OneDialling(s, c), k, next)
  {
    NewAccount(s, k, c, c);
    assert Searched(s, c).callers[c := Dialling(Name(c), "imap")] == OneDialling(s, c).callers;
  }

  lemma DialCount(s: State, c: nat)
    requires c !in s.callers
    ensures |OneDialling(s, c).callers| == |s.callers| + 1 && Dials(OneDialling(s, c)) == Dials(s) + 1
    ensures |Searched(s, c).callers| == |s.callers| + 1
  {
    DialsMove(s, c, Dialling(Name(c), "imap"));
    SizePut(s.callers, c, Dialling(Name(c), "imap"));
    SizePut(s.callers, c, Taking(Name(c), "imap"));
  }

  lemma SnocInside(cfg: Config, actions: seq<Action>, s: State, a: Action, t: State, n: nat)
    requires AtMostInside(cfg, INITIAL, actions, n) && Run(cfg, INITIAL, actions) == Some(s)
    requires Next(cfg, s, a) == Some(t) && |t.callers| <= n
    ensures AtMostInside(cfg, INITIAL, actions + [a], n) && Run(cfg, INITIAL, actions + [a]) == Some(t)
  {
    RunSnoc(cfg, INITIAL, actions, a);
    assert (actions + [a])[..|actions|] == actions;
  }

  lemma DialOne(cfg: Config, actions: seq<Action>, s: State, k: nat, c: nat, next: nat, n: nat)
    returns (more: seq<Action>)
    requires AtMostInside(cfg, INITIAL, actions, n) && Run(cfg, INITIAL, actions) == Some(s)
    requires Busy(s, k, c) && k <= c && next == c + 1
    requires |s.pool.connections| < cfg.maxConnections && |s.callers| < n
    ensures AtMostInside(cfg, INITIAL, more, n) && Run(cfg, INITIAL, more) == Some(OneDialling(s, c))
    ensures Busy(OneDialling(s, c), k, next)
    ensures |OneDialling(s, c).callers| == |s.callers| + 1 && Dials(OneDialling(s, c)) == Dials(s) + 1
  {
    DialCount(s, c);
    SearchBegins(cfg, s, k, c);
    SnocInside(cfg, actions, s, Begin(c, Name(c), "imap", 0), Searched(s, c), n);
    SearchEnds(cfg, s, k, c, next);
    SnocInside(cfg, actions + [Begin(c, Name(c), "imap", 0)], Searched(s, c), Proceed(0), OneDialling(s, c), n);
    more := actions + [Begin(c, Name(c), "imap", 0)] + [Proceed(0)];
  }

  function StoredOne(s: State, c: nat): State {
    Stored(OneDialling(s, c), c, Name(c), Name(c), "imap", 0)
  }

  lemma StoreNext(cfg: Config, s: State, k: nat, next: nat)
    requires Busy(s, k, k) && next == k + 1
    ensures Next(cfg, OneDialling(s, k), DialDone(k, Name(k), 0)) == Some(StoredOne(s, k))
    ensures Next(cfg, StoredOne(s, k), Proceed(0)) == Some(StoredOne(s, k).(section := Appending(Name(k), Name(k), [])))
    ensures OneStored(s, k, Name(k)).callers == s.callers
  {
    NewAccount(s, k, k, k);
    assert |Name(k)| == k;
    assert OneStored(s, k, Name(k)).callers == s.callers;
  }

  lemma StoreEnds(cfg: Config, s: State, k: nat, next: nat)
    requires Busy(s, k, k) && next == k + 1
    ensures Next(cfg, StoredOne(s, k).(section := Appending(Name(k), Name(k), [])), Proceed(0))
      == Some(OneStored(s, k, Name(k)))
    ensures Busy(OneStored(s, k, Name(k)), next, next)
  {
    NewAccount(s, k, k, k);
    assert |Name(k)| == k;
    assert OneDialling(s, k).callers - {k} == s.callers - {k};
  }

  lemma StoreSize(s: State, k: nat, m: nat)
    requires Busy(s, k, m)
    ensures |OneStored(s, k, Name(k)).pool.connections| == |s.pool.connections| + 1
  {
    assert |Name(k)| == k;
    SizePut(s.pool.connections, Name(k), OneStored(s, k, Name(k)).pool.connections[Name(k)]);
  }

  lemma FillOne(cfg: Config, actions: seq<Action>, s: State, c: nat, next: nat, n: nat) returns (more: seq<Action>)
    requires AtMostInside(cfg, INITIAL, actions, n) && Run(cfg, INITIAL, actions) == Some(s)
    requires Busy(s, c, c) && next == c + 1 && |s.pool.connections| < cfg.maxConnections && |s.callers| < n
    ensures AtMostInside(cfg, INITIAL, more, n) && Run(cfg, INITIAL, more) == Some(OneStored(s, c, Name(c)))
    ensures Busy(OneStored(s, c, Name(c)), next, next) && |OneStored(s, c, Name(c)).callers| == |s.callers|
    ensures |OneStored(s, c, Name(c)).pool.connections| == |s.pool.connections| + 1
  {
    more := DialOne(cfg, actions, s, c, c, next, n);
    StoreNext(cfg, s, c, next);
    StoreEnds(cfg, s, c, next);
    StoreSize(s, c, c);
    more := StoreOne(cfg, more, s, c, n);
  }

  lemma StoreOne(cfg: Config, actions: seq<Action>, s: State, c: nat, n: nat) returns (more: seq<Action>)
    requires AtMostInside(cfg, INITIAL, actions, n) && Run(cfg, INITIAL, actions) == Some(OneDialling(s, c))
    requires c !in s.callers && |s.callers| < n
    requires Next(cfg, OneDialling(s, c), DialDone(c, Name(c), 0)) == Some(StoredOne(s, c))
    requires Next(cfg, StoredOne(s, c), Proceed(0))
      == Some(StoredOne(s, c).(section := Appending(Name(c), Name(c), [])))
    requires Next(cfg, StoredOne(s, c).(section := Appending(Name(c), Name(c), [])), Proceed(0))
      == Some(OneStored(s, c, Name(c)))
    ensures AtMostInside(cfg, INITIAL, more, n) && Run(cfg, INITIAL, more) == Some(OneStored(s, c, Name(c)))
  {
    var stored, appending := StoredOne(s, c), StoredOne(s, c).(section := Appending(Name(c), Name(c), []));
    assert stored.callers == s.callers && OneStored(s, c, Name(c)).callers == s.callers;
    SnocInside(cfg, actions, OneDialling(s, c), DialDone(c, Name(c), 0), stored, n);
    more := actions + [DialDone(c, Name(c), 0)];
    SnocInside(cfg, more, stored, Proceed(0), appending, n);
    SnocInside(cfg, more + [Proceed(0)], appending, Proceed(0), OneStored(s, c, Name(c)), n);
    more := more + [Proceed(0)] + [Proceed(0)];
  }

  /** Callers 0 to k - 1 have dialled one after the other and hold a connection each. */
  lemma {:induction false} FillUp(cfg: Config, k: nat, n: nat) returns (actions: seq<Action>, s: State)
    requires k < cfg.maxConnections && 1 <= n
    ensures AtMostInside(cfg, INITIAL, actions, n) && Run(cfg, INITIAL, actions) == Some(s)
    ensures Busy(s, k, k) && |s.pool.connections| == k && |s.callers| == 0
    decreases k
  {
    if k == 0 {
      actions, s := [], INITIAL;
    } else {
      var before, u := FillUp(cfg, k - 1, n);
      actions := FillOne(cfg, before, u, k - 1, k, n);
      s := OneStored(u, k - 1, Name(k - 1));
    }
  }

  /** After that callers k to k + j - 1 are all dialling. */
  lemma {:induction false} DialAll(cfg: Config, k: nat, j: nat, n: nat) returns (actions: seq<Action>, s: State)
    requires k < cfg.maxConnections && j <= n && 1 <= n
    ensures AtMostInside(cfg, INITIAL, actions, n) && Run(cfg, INITIAL, actions) == Some(s)
    ensures Busy(s, k, k + j) && |s.pool.connections| == k && |s.callers| == j && Dials(s) == j
    decreases j
  {
    if j == 0 {
      actions, s := FillUp(cfg, k, n);
      CountAtMost(s.callers, DialPhase);
    } else {
      var before, u := DialAll(cfg, k, j - 1, n);
      var c, next := k + (j - 1), k + j;
      actions := DialOne(cfg, before, u, k, c, next, n);
      s := OneDialling(u, c);
    }
  }

  /** The bound is reached, for every limit and every number of callers: all of them find room for one, and dial. */
  lemma LimitIsReached(cfg: Config, n: nat) returns (actions: seq<Action>, s: State)
    requires 1 <= cfg.maxConnections && 1 <= n
    ensures AtMostInside(cfg, INITIAL, actions, n) && Run(cfg, INITIAL, actions) == Some(s)
    ensures |s.pool.connections| + Dials(s) == Limit(cfg, n)
  {
    actions, s := DialAll(cfg, cfg.maxConnections - 1, n, n);
  }

  /** So the pool keeps to maxConnections if and only if it is never asked by two callers at once. */
  lemma LimitHoldsExactly(cfg: Config, n: nat)
    requires 1 <= cfg.maxConnections
    ensures n <= 1 <==> forall actions | AtMostInside(cfg, INITIAL, actions, n) ::
        |Run(cfg, INITIAL, actions).value.pool.connections| + Dials(Run(cfg, INITIAL, actions).value)
          <= cfg.maxConnections
  {
    if n <= 1 {
      forall actions | AtMostInside(cfg, INITIAL, actions, n)
        ensures |Run(cfg, INITIAL, actions).value.pool.connections| + Dials(Run(cfg, INITIAL, actions).value)
          <= cfg.maxConnections
      {
        StoredAndDialling(cfg, actions, n);
      }
    } else {
      var actions, s := LimitIsReached(cfg, n);
      assert AtMostInside(cfg, INITIAL, actions, n);
    }
  }
}
