/**
  The in-memory cache of memory_cache.go: a bounded map with expiry times, as a lossy version of the map that
  the log of its operations describes.
 */
module MemoryCache {
  import opened Wrappers
  import opened Sorting
  import opened Text
  import opened GoInt

  type Bytes = seq<bv8>

  datatype Cache = Cache(data: map<string, Bytes>, expires: map<string, int>)

  datatype Op =
    | Set(key: string, value: Bytes, ttl: int, now: int)
    | Delete(key: string)
    | Expire(key: string, ttl: int, now: int)

  /** `log` is every operation so far, `lost` the keys evicted since they were last set or deleted: history. */
  datatype State = State(cache: Cache, log: seq<Op>, lost: set<string>)

  const EMPTY := State(Cache(map[], map[]), [], {})

  predicate Expired(c: Cache, key: string, now: int) {
    key in c.expires && now > c.expires[key]
  }

  function GetValue(c: Cache, key: string, now: int): Option<Bytes> {
    if Expired(c, key, now) || key !in c.data then None else Some(c.data[key])
  }

  predicate MustEvict(maxSize: int, c: Cache, key: string) {
    key !in c.data && maxSize > 0 && |c.data| >= maxSize
  }

  ghost predicate SomeExpired(c: Cache, now: int) {
    exists k :: Expired(c, k, now)
  }

  /** What evictOldest may remove: any expired key if there is one, else any key at all. */
  ghost predicate Evicts(c: Cache, victim: string, now: int) {
    if SomeExpired(c, now) then Expired(c, victim, now) else victim in c.data
  }

  function Removed(c: Cache, key: string): Cache {
    Cache(c.data - {key}, c.expires - {key})
  }

  function Stored(c: Cache, key: string, value: Bytes, ttl: int, now: int): Cache {
    Cache(c.data[key := value], if ttl > 0 then c.expires[key := now + ttl] else c.expires - {key})
  }

  /** `victim` is the key evicted to make room, where that is needed. */
  ghost function Next(maxSize: int, s: State, op: Op, victim: string): Option<State> {
    match op
    case Set(key, value, ttl, now) =>
      if !MustEvict(maxSize, s.cache, key) then
        Some(State(Stored(s.cache, key, value, ttl, now), s.log + [op], s.lost - {key}))
      else if !Evicts(s.cache, victim, now) then None
      else Some(State(Stored(Removed(s.cache, victim), key, value, ttl, now), s.log + [op], s.lost + {victim} - {key}))
    case Delete(key) => Some(State(Removed(s.cache, key), s.log + [op], s.lost - {key}))
    case Expire(key, ttl, now) =>
      Some(State(if key in s.cache.data then s.cache.(expires := s.cache.expires[key := now + ttl]) else s.cache,
                 s.log + [op], s.lost))
  }

  ghost function Run(maxSize: int, s: State, ops: seq<(Op, string)>): Option<State>
    decreases |ops|
  {
    if ops == [] then Some(s)
    else match Run(maxSize, s, ops[..|ops| - 1]) {
      case None => None
      case Some(t) => Next(maxSize, t, ops[|ops| - 1].0, ops[|ops| - 1].1)
    }
  }

  // ---- The map that the log describes ----

  /** The value of the latest Set of the key, unless a Delete came later. */
  function LatestValue(log: seq<Op>, key: string): Option<Bytes> {
    if log == [] then None
    else
      var last := log[|log| - 1];
      if last.Set? && last.key == key then Some(last.value)
      else if last.Delete? && last.key == key then None
      else LatestValue(log[..|log| - 1], key)
  }

  /** The expiry last given by Set or Expire; a Set without a positive time to live gives none. */
  function LatestExpiry(log: seq<Op>, key: string): Option<int> {
    if log == [] then None
    else
      var last := log[|log| - 1];
      if last.key != key || last.Delete? then LatestExpiry(log[..|log| - 1], key)
      else if last.Set? then if last.ttl > 0 then Some(last.now + last.ttl) else None
      else Some(last.now + last.ttl)
  }

  predicate NotYet(expiry: Option<int>, now: int) {
    expiry.None? || now <= expiry.value
  }

  function ExpiryOf(c: Cache, key: string): Option<int> {
    if key in c.expires then Some(c.expires[key]) else None
  }

  /** The cache knows of a key what the log says, unless the key was evicted. */
  ghost predicate KeyRefines(s: State, key: string) {
    && (key in s.cache.data <==> LatestValue(s.log, key).Some? && key !in s.lost)
    && (key in s.cache.data ==> LatestValue(s.log, key) == Some(s.cache.data[key]))
    && (key in s.cache.data ==> LatestExpiry(s.log, key) == ExpiryOf(s.cache, key))
  }

  ghost predicate Sized(maxSize: int, c: Cache) {
    && c.expires.Keys <= c.data.Keys
    && (maxSize > 0 ==> |c.data| <= maxSize)
  }

  ghost predicate Inv(maxSize: int, s: State) {
    Sized(maxSize, s.cache) && forall key: string :: KeyRefines(s, key)
  }

  lemma LogGrows(log: seq<Op>, op: Op, key: string)
    ensures (log + [op])[..|log|] == log
    ensures op.key != key ==>
      LatestValue(log + [op], key) == LatestValue(log, key) && LatestExpiry(log + [op], key) == LatestExpiry(log, key)
  {
    assert (log + [op])[..|log|] == log;
  }

  lemma KeyStep(maxSize: int, s: State, op: Op, victim: string, key: string)
    requires Inv(maxSize, s) && Next(maxSize, s, op, victim).Some?
    ensures KeyRefines(Next(maxSize, s, op, victim).value, key)
  {
    LogGrows(s.log, op, key);
    assert KeyRefines(s, key) && KeyRefines(s, victim);
  }

  lemma StepKeepsInv(maxSize: int, s: State, op: Op, victim: string)
    requires Inv(maxSize, s) && Next(maxSize, s, op, victim).Some?
    ensures Inv(maxSize, Next(maxSize, s, op, victim).value)
  {
    forall key: string { KeyStep(maxSize, s, op, victim, key); }
  }

  lemma {:induction false} RunKeepsInv(maxSize: int, ops: seq<(Op, string)>)
    requires Run(maxSize, EMPTY, ops).Some?
    ensures Inv(maxSize, Run(maxSize, EMPTY, ops).value)
    decreases |ops|
  {
    if ops == [] {
      assert forall key: string :: KeyRefines(EMPTY, key);
    } else {
      RunKeepsInv(maxSize, ops[..|ops| - 1]);
      StepKeepsInv(maxSize, Run(maxSize, EMPTY, ops[..|ops| - 1]).value, ops[|ops| - 1].0, ops[|ops| - 1].1);
    }
  }

  // ---- Main results ----

  /**
    The cache refines a lossy map: it gives the value of the latest Set not followed by a Delete, up to the expiry
    last given, exactly for the keys it has not evicted; it is never over its size, and no expiry outlives its key.
   */
  lemma RefinesLossyMap(maxSize: int, ops: seq<(Op, string)>, s: State, key: string, now: int)
    requires Run(maxSize, EMPTY, ops) == Some(s)
    ensures GetValue(s.cache, key, now) ==
      if key !in s.lost && NotYet(LatestExpiry(s.log, key), now) then LatestValue(s.log, key) else None
    ensures maxSize > 0 ==> |s.cache.data| <= maxSize
    ensures s.cache.expires.Keys <= s.cache.data.Keys
  {
    RunKeepsInv(maxSize, ops);
    assert KeyRefines(s, key);
  }

  /**
    Operation n of the run is a Set of another key on a full cache that gives up this one: one that has expired, or
    any when none has.
   */
  ghost predicate EvictedAt(maxSize: int, ops: seq<(Op, string)>, n: nat, key: string)
    requires n < |ops|
  {
    var op := ops[n].0;
    && op.Set? && Run(maxSize, EMPTY, ops[..n]).Some?
    && var c := Run(maxSize, EMPTY, ops[..n]).value.cache;
       && key in c.data && op.key !in c.data && maxSize > 0 && |c.data| == maxSize && ops[n].1 == key
       && (Expired(c, key, op.now) || !SomeExpired(c, op.now))
  }

  /** No operation after the n-th sets or deletes the key. */
  predicate LeftAlone(ops: seq<(Op, string)>, n: nat, key: string) {
    forall m | n < m < |ops| :: ops[m].0.key == key ==> ops[m].0.Expire?
  }

  ghost predicate EvictedForGood(maxSize: int, ops: seq<(Op, string)>, key: string) {
    exists n | 0 <= n < |ops| :: EvictedAt(maxSize, ops, n, key) && LeftAlone(ops, n, key)
  }

  lemma LostStep(maxSize: int, s: State, op: Op, victim: string, key: string)
    requires Sized(maxSize, s.cache) && Next(maxSize, s, op, victim).Some?
    ensures key in Next(maxSize, s, op, victim).value.lost
      <==> (op.Set? && MustEvict(maxSize, s.cache, op.key) && victim == key && key != op.key)
           || (key in s.lost && (op.key == key ==> op.Expire?))
    ensures op.Set? && MustEvict(maxSize, s.cache, op.key) ==> victim in s.cache.data && |s.cache.data| == maxSize
  {
  }

  lemma EvictedBefore(maxSize: int, ops: seq<(Op, string)>, n: nat, key: string)
    requires n < |ops| - 1
    ensures EvictedAt(maxSize, ops, n, key) <==> EvictedAt(maxSize, ops[..|ops| - 1], n, key)
    ensures LeftAlone(ops, n, key) <==>
      LeftAlone(ops[..|ops| - 1], n, key) && (ops[|ops| - 1].0.key == key ==> ops[|ops| - 1].0.Expire?)
  {
    assert ops[..|ops| - 1][..n] == ops[..n];
    assert forall m | 0 <= m < |ops| - 1 :: ops[..|ops| - 1][m] == ops[m];
  }

  lemma EvictedSnoc(maxSize: int, ops: seq<(Op, string)>, key: string)
    requires ops != []
    ensures var last := |ops| - 1;
      EvictedForGood(maxSize, ops, key) <==>
        EvictedAt(maxSize, ops, last, key)
        || (EvictedForGood(maxSize, ops[..last], key) && (ops[last].0.key == key ==> ops[last].0.Expire?))
  {
    var last := |ops| - 1;
    forall n | 0 <= n < last
      ensures EvictedAt(maxSize, ops, n, key) && LeftAlone(ops, n, key) <==>
        EvictedAt(maxSize, ops[..last], n, key) && LeftAlone(ops[..last], n, key)
        && (ops[last].0.key == key ==> ops[last].0.Expire?)
    {
      EvictedBefore(maxSize, ops, n, key);
    }
    assert LeftAlone(ops, last, key);
    if EvictedForGood(maxSize, ops[..last], key) && (ops[last].0.key == key ==> ops[last].0.Expire?) {
      var n :| 0 <= n < last && EvictedAt(maxSize, ops[..last], n, key) && LeftAlone(ops[..last], n, key);
      assert EvictedAt(maxSize, ops, n, key) && LeftAlone(ops, n, key);
    }
  }

  lemma EvictedLast(maxSize: int, ops: seq<(Op, string)>, s: State, key: string)
    requires ops != [] && Run(maxSize, EMPTY, ops[..|ops| - 1]) == Some(s) && Sized(maxSize, s.cache)
    requires Next(maxSize, s, ops[|ops| - 1].0, ops[|ops| - 1].1).Some?
    ensures var op, victim := ops[|ops| - 1].0, ops[|ops| - 1].1;
      EvictedAt(maxSize, ops, |ops| - 1, key) <==>
        op.Set? && MustEvict(maxSize, s.cache, op.key) && victim == key && key != op.key
  {
    LostStep(maxSize, s, ops[|ops| - 1].0, ops[|ops| - 1].1, key);
  }

  /** A Set always succeeds: on a full cache some key can be given up, any expired one, or any when none has expired. */
  lemma SetSucceeds(maxSize: int, s: State, key: string, value: Bytes, ttl: int, now: int) returns (victim: string)
    requires s.cache.expires.Keys <= s.cache.data.Keys
    ensures Next(maxSize, s, Set(key, value, ttl, now), victim).Some?
  {
    victim := "";
    if MustEvict(maxSize, s.cache, key) {
      if SomeExpired(s.cache, now) {
        victim :| Expired(s.cache, victim, now);
      } else {
        assert |s.cache.data.Keys| > 0;
        victim :| victim in s.cache.data;
      }
    }
  }

  /** A key is lost exactly when a Set on a full cache gave it up, and it was neither set nor deleted since. */
  lemma {:induction false} LostExactly(maxSize: int, ops: seq<(Op, string)>, key: string)
    requires Run(maxSize, EMPTY, ops).Some?
    ensures key in Run(maxSize, EMPTY, ops).value.lost <==> EvictedForGood(maxSize, ops, key)
    decreases |ops|
  {
    if ops != [] {
      var before := ops[..|ops| - 1];
      var s := Run(maxSize, EMPTY, before).value;
      LostExactly(maxSize, before, key);
      RunKeepsInv(maxSize, before);
      LostStep(maxSize, s, ops[|ops| - 1].0, ops[|ops| - 1].1, key);
      EvictedLast(maxSize, ops, s, key);
      EvictedSnoc(maxSize, ops, key);
    }
  }

  // ---- Listing keys ----

  /** A pattern that ends in * asks for a prefix, any other for one key. */
  predicate Matches(pattern: string, key: string) {
    if pattern != "" && pattern[|pattern| - 1] == '*' then pattern[..|pattern| - 1] <= key else key == pattern
  }

  predicate Listed(c: Cache, pattern: string, key: string, now: int) {
    key in c.data && Matches(pattern, key) && !Expired(c, key, now)
  }

  /** What Keys returns: the unexpired matching keys, each once, in order. */
  ghost predicate IsListing(c: Cache, pattern: string, now: int, keys: seq<string>) {
    && SortedBy(StringLess, keys) && Distinct(keys)
    && forall k :: k in keys <==> Listed(c, pattern, k, now)
  }

  /** A prefix and an asterisk list exactly the unexpired keys with that prefix. */
  lemma PrefixListing(c: Cache, prefix: string, now: int, keys: seq<string>, k: string)
    requires IsListing(c, prefix + "*", now, keys)
    ensures k in keys <==>
      k in c.data && |prefix| <= |k| && k[..|prefix|] == prefix && (k in c.expires ==> now <= c.expires[k])
  {
    assert (prefix + "*")[..|prefix|] == prefix;
  }

  lemma SecondDiffers(keys: seq<string>)
    requires Distinct(keys)
    ensures |keys| > 1 ==> keys[1] != keys[0]
  {
  }

  lemma OnlyMember(keys: seq<string>, key: string)
    requires Distinct(keys) && forall k | k in keys :: k == key
    ensures keys == if key in keys then [key] else []
  {
    SecondDiffers(keys);
    assert forall i | 0 <= i < |keys| :: keys[i] in keys;
  }

  /** Any other pattern lists just that key, if it is there and has not expired. */
  lemma SingleListing(c: Cache, key: string, now: int, keys: seq<string>)
    requires IsListing(c, key, now, keys) && (key == "" || key[|key| - 1] != '*')
    ensures keys == if key in c.data && (key in c.expires ==> now <= c.expires[key]) then [key] else []
  {
    OnlyMember(keys, key);
    assert key in keys <==> Listed(c, key, key, now);
  }

  lemma HeadIsLeast(a: seq<string>, b: seq<string>)
    requires a != [] && b != [] && SortedBy(StringLess, a) && SortedBy(StringLess, b)
    requires a[0] in b && b[0] in a
    ensures a[0] == b[0]
  {
    StringLessTotal(a[0], b[0]);
    var i :| 0 <= i < |a| && a[i] == b[0];
    var j :| 0 <= j < |b| && b[j] == a[0];
  }

  lemma TailHas(a: seq<string>, b: seq<string>)
    requires a != [] && b != [] && a[0] == b[0] && Distinct(a) && forall k | k in a :: k in b
    ensures forall k | k in a[1..] :: k in b[1..]
  {
    forall k | k in a[1..] ensures k in b[1..] {
      var i :| 1 <= i < |a| && a[i] == k;
      assert k in b && k != b[0];
    }
  }

  /** There is only one way to list given keys. */
  lemma {:induction false} ListingIsUnique(a: seq<string>, b: seq<string>)
    requires SortedBy(StringLess, a) && SortedBy(StringLess, b) && Distinct(a) && Distinct(b)
    requires (forall k | k in a :: k in b) && forall k | k in b :: k in a
    ensures a == b
  {
    if a == [] {
      if b != [] { HasMember(b); assert false; }
    } else {
      assert a[0] in a && a[0] in b;
      assert b[0] in b && b[0] in a;
      HeadIsLeast(a, b);
      TailHas(a, b);
      TailHas(b, a);
      ListingIsUnique(a[1..], b[1..]);
      assert a == [a[0]] + a[1..] && b == [b[0]] + b[1..];
    }
  }

  /**
    One call of Scan on a listing, with a 64-bit cursor and count: the page and the next cursor, 0 at the end.
    None is a panic: the bounds of the slice are out of range.
   */
  function ScanPage(keys: seq<string>, cursor: nat, count: int): Option<(seq<string>, nat)> {
    var start := Int64(cursor);
    if start >= |keys| then Some(([], 0))
    else
      var sum := Int64(start + count);
      var end := if sum > |keys| then |keys| else sum;
      if start < 0 || end < start then None
      else Some((keys[start..end], if end < |keys| then end else 0))
  }

  /** Scan panics exactly on a cursor past 2^63 - 1, and inside the listing on a count that is negative or too large. */
  lemma ScanPanicsExactly(keys: seq<string>, cursor: nat, count: int)
    requires cursor < TWO_TO_THE_64 && IsInt64(count) && |keys| <= INT64_MAX
    ensures ScanPage(keys, cursor, count).None?
      <==> cursor > INT64_MAX || (cursor < |keys| && (count < 0 || cursor + count > INT64_MAX))
  {
    if cursor <= INT64_MAX && cursor + count > INT64_MAX { TooLarge(cursor + count); }
  }

  /** Following the cursors from one on to the end, if no call panics. */
  function Walk(keys: seq<string>, cursor: nat, count: int): Option<seq<string>>
    requires cursor <= INT64_MAX && (count != 0 || cursor == 0) && IsInt64(count)
    decreases |keys| - cursor
  {
    match ScanPage(keys, cursor, count)
    case None => None
    case Some(scan) =>
      if scan.1 == 0 then Some(scan.0)
      else
        match Walk(keys, scan.1, count)
        case None => None
        case Some(rest) => Some(scan.0 + rest)
  }

  /** A slice of strings is far shorter than that: a string header takes 16 bytes. */
  const MOST_KEYS := 0x4000_0000_0000_0000

  lemma {:induction false} WalkFrom(keys: seq<string>, cursor: nat, count: int)
    requires 0 < count && IsInt64(count) && cursor < |keys| <= MOST_KEYS && (cursor > 0 ==> count < |keys|)
    ensures Walk(keys, cursor, count) == Some(keys[cursor..])
    decreases |keys| - cursor
  {
    var end := if cursor + count < |keys| then cursor + count else |keys|;
    assert ScanPage(keys, cursor, count) == Some((keys[cursor..end], if end < |keys| then end else 0));
    if cursor + count < |keys| {
      WalkFrom(keys, cursor + count, count);
      assert keys[cursor..] == keys[cursor..cursor + count] + keys[cursor + count..];
    } else {
      assert keys[cursor..end] == keys[cursor..];
    }
  }

  /** The cursors list every key once, in order, without a panic, exactly for positive counts. */
  lemma WalkIsExact(keys: seq<string>, count: int)
    requires IsInt64(count) && |keys| <= MOST_KEYS
    ensures Walk(keys, 0, count) == Some(keys) <==> count > 0 || keys == []
  {
    if count > 0 && keys != [] {
      WalkFrom(keys, 0, count);
      assert keys[0..] == keys;
    }
  }

  /** On an unchanged cache the walk is the listing of Keys, whichever listings the single calls worked on. */
  lemma ScanListsKeys(c: Cache, pattern: string, now: int, keys: seq<string>, other: seq<string>, count: int)
    requires IsListing(c, pattern, now, keys) && IsListing(c, pattern, now, other)
    requires count > 0 && IsInt64(count) && |keys| <= MOST_KEYS
    ensures Walk(other, 0, count) == Some(keys)
  {
    ListingIsUnique(keys, other);
    WalkIsExact(keys, count);
  }

  // ---- The code itself ----

  class MemoryClient {
    const maxSize: int
    var data: map<string, Bytes>
    var expires: map<string, int>
    ghost var log: seq<Op>
    ghost var lost: set<string>

    ghost function View(): State
      reads this
    {
      State(Cache(data, expires), log, lost)
    }

    ghost predicate Valid()
      reads this
    {
      Sized(maxSize, Cache(data, expires))
    }

    constructor (maxSize: int)
      ensures this.maxSize == maxSize && View() == EMPTY && Valid()
    {
      this.maxSize := maxSize;
      data, expires, log, lost := map[], map[], [], {};
    }

    method Get(key: string, now: int) returns (value: Option<Bytes>)
      ensures value == GetValue(View().cache, key, now)
    {
      if key in expires {
        if now > expires[key] {
          return None;
        }
      }
      if key !in data {
        return None;
      }
      value := Some(data[key]);
    }

    method Exists(key: string, now: int) returns (found: bool)
      ensures found <==> GetValue(View().cache, key, now).Some?
    {
      if key in expires {
        if now > expires[key] {
          return false;
        }
      }
      found := key in data;
    }

    /** The time left, or -1 for a key without expiry. */
    method TimeToLive(key: string, now: int) returns (ttl: int)
      ensures ttl == match ExpiryOf(View().cache, key)
                     case None => -1
                     case Some(at) => if at - now <= 0 then 0 else at - now
    {
      if key in expires {
        var remaining := expires[key] - now;
        return if remaining <= 0 then 0 else remaining;
      }
      ttl := -1;
    }

    /** evictOldest: the first expired key that a range over the map meets, else the first key. */
    method EvictOldest(now: int) returns (victim: string)
      requires Valid() && data != map[]
      modifies this`data, this`expires
      ensures Evicts(old(View().cache), victim, now)
      ensures View().cache == Removed(old(View().cache), victim)
    {
      var todo := expires.Keys;
      while todo != {}
        invariant todo <= expires.Keys
        invariant forall k | k in expires && k !in todo :: !Expired(View().cache, k, now)
        invariant View() == old(View())
        decreases |todo|
      {
        var key :| key in todo;
        if now > expires[key] {
          RemoveKey(key);
          return key;
        }
        todo := todo - {key};
      }
      assert exists k :: k in data by {
        assert data.Keys != {};
      }
      victim :| victim in data;
      RemoveKey(victim);
    }

    method RemoveKey(key: string)
      modifies this`data, this`expires
      ensures View().cache == Removed(old(View().cache), key)
    {
      data := data - {key};
      expires := expires - {key};
    }

    method Set(key: string, value: Bytes, ttl: int, now: int) returns (ghost victim: string)
      requires Valid()
      modifies this
      ensures Valid() && Next(maxSize, old(View()), Op.Set(key, value, ttl, now), victim) == Some(View())
    {
      victim := key;
      if key !in data && maxSize > 0 && |data| >= maxSize {
        victim := EvictOldest(now);
        lost := lost + {victim};
      }
      data := data[key := value];
      if ttl > 0 {
        expires := expires[key := now + ttl];
      } else {
        expires := expires - {key};
      }
      log := log + [Op.Set(key, value, ttl, now)];
      lost := lost - {key};
    }

    method Delete(key: string)
      requires Valid()
      modifies this
      ensures Valid() && Next(maxSize, old(View()), Op.Delete(key), key) == Some(View())
    {
      RemoveKey(key);
      log := log + [Op.Delete(key)];
      lost := lost - {key};
    }

    method Expire(key: string, ttl: int, now: int)
      requires Valid()
      modifies this
      ensures Valid() && Next(maxSize, old(View()), Op.Expire(key, ttl, now), key) == Some(View())
    {
      if key in data {
        expires := expires[key := now + ttl];
      }
      log := log + [Op.Expire(key, ttl, now)];
    }

    /** Keys: a range over the map in any order, then a sort. */
    method Keys(pattern: string, now: int) returns (keys: seq<string>)
      ensures IsListing(View().cache, pattern, now, keys)
    {
      var matches: seq<string> := [];
      var hasWildcard := pattern != "" && pattern[|pattern| - 1] == '*';
      var prefix := if hasWildcard then pattern[..|pattern| - 1] else pattern;
      var todo := data.Keys;
      while todo != {}
        invariant todo <= data.Keys && Distinct(matches)
        invariant forall k :: k in matches <==> k !in todo && Listed(View().cache, pattern, k, now)
        decreases |todo|
      {
        var key :| key in todo;
        var matched := if hasWildcard then prefix <= key else key == pattern;
        if matched && !(key in expires && now > expires[key]) {
          DistinctConcat(matches, [key]);
          matches := matches + [key];
        }
        todo := todo - {key};
      }
      keys := SortKeys(matches);
    }

    /** Scan: one page of Keys, or a panic. */
    method Scan(cursor: nat, pattern: string, count: int, now: int) returns (r: Option<(seq<string>, nat)>)
      requires cursor < TWO_TO_THE_64 && IsInt64(count)
      ensures exists keys :: IsListing(View().cache, pattern, now, keys) && r == ScanPage(keys, cursor, count)
    {
      var keys := Keys(pattern, now);
      var start := Int64(cursor);
      if start >= |keys| {
        assert ScanPage(keys, cursor, count) == Some(([], 0));
        return Some(([], 0));
      }
      var end := Int64(start + count);
      if end > |keys| {
        end := |keys|;
      }
      var nextCursor := 0;
      if end < |keys| {
        nextCursor := end % TWO_TO_THE_64;
      }
      if start < 0 || end < start {
        assert ScanPage(keys, cursor, count) == None;
        return None;
      }
      r := Some((keys[start..end], nextCursor));
      assert r == ScanPage(keys, cursor, count);
    }
  }

  /** sort.Strings. */
  method SortKeys(matches: seq<string>) returns (keys: seq<string>)
    requires Distinct(matches)
    ensures SortedBy(StringLess, keys) && Distinct(keys) && forall k :: k in keys <==> k in matches
  {
    keys := SortBy(StringLess, matches);
    forall x, y | x in matches && y in matches ensures StringLess(x, y) ==> !StringLess(y, x) {
      StringLessTotal(x, y);
    }
    forall x, y, z | x in matches && y in matches && z in matches
      ensures StringLess(x, z) ==> StringLess(x, y) || StringLess(y, z)
    {
      if StringLess(x, z) { StringLessWeak(x, y, z); }
    }
    SortBySorts(StringLess, matches);
    DistinctPermutes(matches, keys);
  }
}
