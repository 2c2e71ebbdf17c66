/**
  The connection pool of connection_pool.go: a map of connections and, per account, the list of their IDs.
 */
module ConnectionPool {
  import opened Wrappers
  import opened Sorting

  datatype Config = Config(maxConnections: int, idleTimeout: int)

  datatype Conn = Conn(account: string, kind: string, inUse: bool, lastUsed: int)

  datatype Metrics = Metrics(created: int, closed: int, waits: int, errors: int)

  datatype Pool = Pool(connections: map<string, Conn>, lists: map<string, seq<string>>, metrics: Metrics)

  const EMPTY := Pool(map[], map[], Metrics(0, 0, 0, 0))

  function ListOf(p: Pool, account: string): seq<string> {
    if account in p.lists then p.lists[account] else []
  }

  predicate Usable(cfg: Config, p: Pool, id: string, kind: string, now: int) {
    id in p.connections && p.connections[id].kind == kind && !p.connections[id].inUse &&
    now - p.connections[id].lastUsed < cfg.idleTimeout
  }

  /** findIdleConnection: the first usable connection in the account's list. */
  function FirstUsable(cfg: Config, p: Pool, ids: seq<string>, kind: string, now: int): (r: Option<string>)
    ensures r.Some? ==> r.value in ids && Usable(cfg, p, r.value, kind, now)
    ensures r.None? ==> forall i | 0 <= i < |ids| :: !Usable(cfg, p, ids[i], kind, now)
  {
    if ids == [] then None
    else if Usable(cfg, p, ids[0], kind, now) then Some(ids[0])
    else FirstUsable(cfg, p, ids[1..], kind, now)
  }

  function FindIdle(cfg: Config, p: Pool, account: string, kind: string, now: int): Option<string> {
    FirstUsable(cfg, p, ListOf(p, account), kind, now)
  }

  /** Closing one connection: out of the map, counted, and out of its account's list. */
  function AfterClose(p: Pool, id: string): Pool {
    if id !in p.connections then p
    else
      var account := p.connections[id].account;
      Pool(p.connections - {id},
           if account in p.lists then p.lists[account := Without(p.lists[account], id)] else p.lists,
           p.metrics.(closed := p.metrics.closed + 1))
  }

  function CloseAll(p: Pool, ids: seq<string>): Pool {
    if ids == [] then p else AfterClose(CloseAll(p, ids[..|ids| - 1]), ids[|ids| - 1])
  }

  predicate IsStale(cfg: Config, p: Pool, id: string, now: int) {
    id in p.connections && !p.connections[id].inUse && now - p.connections[id].lastUsed > cfg.idleTimeout
  }

  /** The order in which a range over the map meets the connections to sweep: any order. */
  ghost predicate SweepOrder(cfg: Config, p: Pool, order: seq<string>, now: int) {
    Distinct(order) && forall id :: id in order <==> IsStale(cfg, p, id, now)
  }

  /** Out of the map, and counted if it was there. */
  function Dropped(p: Pool, id: string): Pool {
    if id !in p.connections then p
    else p.(connections := p.connections - {id}, metrics := p.metrics.(closed := p.metrics.closed + 1))
  }

  function DropAll(p: Pool, ids: seq<string>): Pool {
    if ids == [] then p else Dropped(DropAll(p, ids[..|ids| - 1]), ids[|ids| - 1])
  }

  /** CloseAccount: what the account's list names is closed, as far as it is stored, and the list goes. */
  function AfterCloseAccount(p: Pool, account: string): Pool {
    DropAll(p, ListOf(p, account)).(lists := p.lists - {account})
  }

  /** Handing out an idle connection. */
  function AfterTake(p: Pool, id: string, now: int): Pool
    requires id in p.connections
  {
    p.(connections := p.connections[id := p.connections[id].(inUse := true, lastUsed := now)])
  }

  function AfterInsert(p: Pool, id: string, account: string, kind: string, now: int): Pool {
    Pool(p.connections[id := Conn(account, kind, true, now)], p.lists[account := ListOf(p, account) + [id]],
         p.metrics.(created := p.metrics.created + 1))
  }

  function AfterRelease(p: Pool, id: string, now: int): Pool {
    if id in p.connections then
      p.(connections := p.connections[id := p.connections[id].(inUse := false, lastUsed := now)])
    else p
  }

  predicate AtCapacity(cfg: Config, p: Pool) {
    |p.connections| >= cfg.maxConnections
  }

  function Waited(p: Pool): Pool { p.(metrics := p.metrics.(waits := p.metrics.waits + 1)) }

  function Erred(p: Pool): Pool { p.(metrics := p.metrics.(errors := p.metrics.errors + 1)) }

  // ---- The map and the lists describe the same connections ----

  /**
    The account's list has the IDs of its own connections, each once, but for those whose insertion has yet to list
    them (`coming`), and beyond them only IDs that somebody is still to take out of the list (`owed`).
   */
  ghost predicate AccountAgrees(p: Pool, account: string, owed: iset<string>, coming: set<string>) {
    && Distinct(ListOf(p, account))
    && (forall id | id in p.connections && id !in coming ::
          id in ListOf(p, account) <==> p.connections[id].account == account)
    && (forall id | id in ListOf(p, account) :: (id in p.connections && id !in coming) || id in owed)
  }

  /** Closing several closes exactly those. */
  lemma {:induction false} CloseAllCloses(p: Pool, ids: seq<string>, id: string)
    ensures id in CloseAll(p, ids).connections <==> id in p.connections && id !in ids
    ensures id in CloseAll(p, ids).connections ==> CloseAll(p, ids).connections[id] == p.connections[id]
  {
    if ids != [] {
      CloseAllCloses(p, ids[..|ids| - 1], id);
      assert ids == ids[..|ids| - 1] + [ids[|ids| - 1]];
    }
  }

  /** Going through a list, repeats and unknown IDs or not, closes what it names and counts each once. */
  lemma {:induction false} DropAllCloses(p: Pool, ids: seq<string>, id: string)
    ensures id in DropAll(p, ids).connections <==> id in p.connections && id !in ids
    ensures id in DropAll(p, ids).connections ==> DropAll(p, ids).connections[id] == p.connections[id]
  {
    if ids != [] {
      DropAllCloses(p, ids[..|ids| - 1], id);
      assert ids == ids[..|ids| - 1] + [ids[|ids| - 1]];
    }
  }

  /** Of this account and kind, not in use, and used less than the timeout ago. */
  predicate CanServe(cfg: Config, conn: Conn, account: string, kind: string, now: int) {
    conn.account == account && conn.kind == kind && !conn.inUse && now < conn.lastUsed + cfg.idleTimeout
  }

  /** The idle connection found is one that can serve, and none is found only when the account has none. */
  lemma FindIdleIsComplete(cfg: Config, p: Pool, account: string, kind: string, now: int, owed: iset<string>)
    requires AccountAgrees(p, account, owed, {})
    ensures match FindIdle(cfg, p, account, kind, now)
      case Some(id) => id in p.connections && CanServe(cfg, p.connections[id], account, kind, now)
      case None => forall id | id in p.connections :: !CanServe(cfg, p.connections[id], account, kind, now)
  {
    if FindIdle(cfg, p, account, kind, now).None? {
      forall id | id in p.connections && p.connections[id].account == account
        ensures !Usable(cfg, p, id, kind, now)
      {
        assert id in ListOf(p, account);
      }
    }
  }

  // ---- The code itself ----

  class Connection {
    const id: string
    const account: string
    const kind: string
    var inUse: bool
    var lastUsedAt: int

    ghost function Value(): Conn
      reads this
    {
      Conn(account, kind, inUse, lastUsedAt)
    }

    constructor (id: string, account: string, kind: string, now: int)
      ensures this.id == id && Value() == Conn(account, kind, true, now)
    {
      this.id, this.account, this.kind, inUse, lastUsedAt := id, account, kind, true, now;
    }
  }

  datatype AcquireStep = FoundFull | Took(conn: Connection) | MustDial

  class ConnectionPool {
    const cfg: Config
    var connections: map<string, Connection>
    var accountConnections: map<string, seq<string>>
    var metrics: Metrics

    ghost predicate Valid()
      reads this`connections
    {
      forall id | id in connections :: connections[id].id == id
    }

    ghost function Stored(): map<string, Conn>
      reads this`connections, connections.Values
    {
      map id | id in connections :: connections[id].Value()
    }

    ghost function View(): Pool
      reads this, connections.Values
    {
      Pool(Stored(), accountConnections, metrics)
    }

    constructor (cfg: Config)
      ensures Valid() && this.cfg == cfg && View() == EMPTY
    {
      this.cfg := cfg;
      connections, accountConnections, metrics := map[], map[], Metrics(0, 0, 0, 0);
    }

    method FindIdleConnection(account: string, kind: string, now: int) returns (connID: Option<string>)
      requires Valid()
      ensures connID == FindIdle(cfg, View(), account, kind, now)
    {
      var connIDs := if account in accountConnections then accountConnections[account] else [];
      var i := 0;
      while i < |connIDs|
        invariant 0 <= i <= |connIDs|
        invariant FirstUsable(cfg, View(), connIDs, kind, now) == FirstUsable(cfg, View(), connIDs[i..], kind, now)
      {
        var id := connIDs[i];
        if id in connections {
          var conn := connections[id];
          if conn.kind == kind && !conn.inUse {
            if now - conn.lastUsedAt < cfg.idleTimeout {
              return Some(id);
            }
          }
        }
        assert connIDs[i..][1..] == connIDs[i + 1..];
        i := i + 1;
      }
      connID := None;
    }

    /** Marks a stored connection; used by Acquire and by Release. */
    method Mark(id: string, inUse: bool, now: int)
      requires Valid() && id in connections
      modifies connections.Values
      ensures Valid() && Stored() == old(Stored())[id := old(Stored())[id].(inUse := inUse, lastUsed := now)]
    {
      var conn := connections[id];
      assert conn in connections.Values;
      conn.inUse := inUse;
      conn.lastUsedAt := now;
    }

    /** A locked section of Acquire; `waited` says that the sweep has been made. */
    method TryAcquire(account: string, kind: string, now: int, waited: bool) returns (r: AcquireStep)
      requires Valid()
      modifies this`metrics, connections.Values
      ensures Valid()
      ensures r.FoundFull? <==> AtCapacity(cfg, old(View()))
      ensures r.FoundFull? ==> View() == if waited then Erred(old(View())) else Waited(old(View()))
      ensures r.Took? ==> FindIdle(cfg, old(View()), account, kind, now) == Some(r.conn.id)
      ensures r.Took? ==> View() == AfterTake(old(View()), r.conn.id, now) && connections[r.conn.id] == r.conn
      ensures r.MustDial? ==> FindIdle(cfg, old(View()), account, kind, now) == None && View() == old(View())
    {
      StoredSize();
      if |connections| >= cfg.maxConnections {
        metrics := if waited then metrics.(errors := metrics.errors + 1) else metrics.(waits := metrics.waits + 1);
        return FoundFull;
      }
      var connID := FindIdleConnection(account, kind, now);
      if connID.Some? {
        Mark(connID.value, true, now);
        return Took(connections[connID.value]);
      }
      r := MustDial;
    }

    method DialFailed()
      modifies this`metrics
      ensures View() == Erred(old(View()))
    {
      metrics := metrics.(errors := metrics.errors + 1);
    }

    /** The last locked section of Acquire, after a successful dial. */
    method Insert(conn: Connection, ghost now: int)
      requires Valid() && conn.id !in connections && conn.Value() == Conn(conn.account, conn.kind, true, now)
      modifies this
      ensures Valid() && View() == AfterInsert(old(View()), conn.id, conn.account, conn.kind, now)
    {
      ghost var before := Stored();
      connections := connections[conn.id := conn];
      assert Stored() == before[conn.id := conn.Value()];
      var ids := if conn.account in accountConnections then accountConnections[conn.account] else [];
      accountConnections := accountConnections[conn.account := ids + [conn.id]];
      metrics := metrics.(created := metrics.created + 1);
    }

    method Release(connID: string, now: int)
      requires Valid()
      modifies connections.Values
      ensures Valid() && View() == AfterRelease(old(View()), connID, now)
    {
      if connID !in connections {
        return;
      }
      Mark(connID, false, now);
    }

    /** Takes an ID out of its account's list: the first place it stands. */
    method RemoveFromAccount(account: string, connID: string)
      modifies this`accountConnections
      ensures accountConnections ==
        if account in old(accountConnections)
        then old(accountConnections)[account := Without(old(accountConnections)[account], connID)]
        else old(accountConnections)
    {
      if account !in accountConnections {
        return;
      }
      var ids := accountConnections[account];
      var i := 0;
      while i < |ids|
        invariant 0 <= i <= |ids| && connID !in ids[..i]
        invariant accountConnections == old(accountConnections)
      {
        if ids[i] == connID {
          WithoutAt(ids, connID, i);
          accountConnections := accountConnections[account := ids[..i] + ids[i + 1..]];
          return;
        }
        i := i + 1;
      }
      assert ids[..i] == ids;
      WithoutAbsent(ids, connID);
      assert accountConnections[account := ids] == accountConnections;
    }

    /** Close; the sweep removes a connection the same way. */
    method Close(connID: string)
      requires Valid()
      modifies this
      ensures Valid() && View() == AfterClose(old(View()), connID)
      ensures connections == old(connections) - {connID}
    {
      if connID !in connections {
        assert connections - {connID} == connections;
        return;
      }
      var conn := connections[connID];
      ghost var before := Stored();
      connections := connections - {connID};
      assert Stored() == before - {connID};
      metrics := metrics.(closed := metrics.closed + 1);
      RemoveFromAccount(conn.account, connID);
    }

    /** What a sweep has done when `todo` are the IDs it has not met yet. */
    ghost predicate SweptSoFar(p: Pool, todo: set<string>, order: seq<string>, now: int)
      reads this, connections.Values
    {
      && View() == CloseAll(p, order) && todo <= connections.Keys
      && (forall id | id in todo :: id in p.connections && Stored()[id] == p.connections[id])
      && Distinct(order) && (forall id :: id in order <==> IsStale(cfg, p, id, now) && id !in todo)
    }

    /** cleanupIdle: a range over the map in any order. */
    method CleanupIdle(now: int) returns (ghost order: seq<string>)
      requires Valid()
      modifies this
      ensures Valid() && SweepOrder(cfg, old(View()), order, now) && View() == CloseAll(old(View()), order)
    {
      ghost var p := View();
      order := [];
      var todo := connections.Keys;
      while todo != {}
        invariant Valid() && SweptSoFar(p, todo, order, now)
        decreases |todo|
      {
        var id :| id in todo;
        order := SweepOne(p, todo, id, order, now);
        todo := todo - {id};
      }
    }

    /** One turn of that range. */
    method SweepOne(ghost p: Pool, ghost todo: set<string>, id: string, ghost order: seq<string>, now: int)
      returns (ghost order': seq<string>)
      requires Valid() && id in todo && SweptSoFar(p, todo, order, now)
      modifies this
      ensures Valid() && SweptSoFar(p, todo - {id}, order', now)
    {
      order' := order;
      var conn := connections[id];
      assert Stored()[id] == conn.Value();
      if !conn.inUse && now - conn.lastUsedAt > cfg.idleTimeout {
        order' := order + [id];
        assert order'[..|order|] == order;
        DistinctConcat(order, [id]);
        Close(id);
      }
    }

    /** CloseAccount: closes what the account's list names, then drops the list. */
    method CloseAccount(account: string)
      requires Valid()
      modifies this
      ensures Valid() && View() == AfterCloseAccount(old(View()), account)
    {
      ghost var p := View();
      var connIDs := if account in accountConnections then accountConnections[account] else [];
      var i := 0;
      while i < |connIDs|
        invariant 0 <= i <= |connIDs| && Valid() && View() == DropAll(p, connIDs[..i])
        invariant accountConnections == p.lists
      {
        assert connIDs[..i + 1][..i] == connIDs[..i];
        CloseListed(connIDs[i]);
        i := i + 1;
      }
      assert connIDs[..i] == connIDs;
      accountConnections := accountConnections - {account};
    }

    method CloseListed(connID: string)
      requires Valid()
      modifies this`connections, this`metrics
      ensures Valid() && View() == Dropped(old(View()), connID)
    {
      if connID in connections {
        ghost var before := Stored();
        connections := connections - {connID};
        assert Stored() == before - {connID};
        metrics := metrics.(closed := metrics.closed + 1);
      }
    }

    lemma StoredSize()
      requires Valid()
      ensures |Stored()| == |connections|
    {
      assert Stored().Keys == connections.Keys;
      assert |Stored()| == |Stored().Keys| && |connections| == |connections.Keys|;
    }
  }
}
