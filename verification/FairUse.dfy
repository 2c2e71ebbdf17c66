/**
  Fair-use scheduling of fairuse_scheduler.go: a token bucket per account. Looking up the bucket and the policy,
  and charging the bucket, are separate locked sections; refill ticks, policy changes, initialisation and removal
  come between them.
 */
module FairUse {
  import opened Wrappers
  import opened GoInt

  const MINUTE := 60_000_000_000

  const DEFAULT_COSTS: map<string, int> :=
    map["FETCH" := 1, "SEARCH" := 5, "SEND" := 3, "LIST" := 1, "RETRIEVE" := 2, "ATTACHMENT" := 3, "IDLE" := 0,
        "SYNC" := 2]

  datatype Policy = Policy(enabled: bool, size: int, rate: int, costs: map<string, int>)

  const DEFAULT_POLICY := Policy(true, 100, 10, DEFAULT_COSTS)

  /**
    `admitted`, `ticks` and `returned` add up what was taken, refilled and given back since creation, and `charged`
    counts the calls that something was taken for: history.
   */
  datatype Bucket = Bucket(tokens: int, maxTokens: int, refillRate: int, period: int,
                           admitted: int, charged: int, ticks: int, returned: int)

  function NewBucket(p: Policy): Bucket
    requires p.rate != 0
  {
    Bucket(p.size, p.size, p.rate, MINUTE / p.rate, 0, 0, 0, 0)
  }

  /** tryConsume. */
  function Consume(b: Bucket, cost: int): Bucket {
    if b.tokens >= cost then
      b.(tokens := Int64(b.tokens - cost), admitted := b.admitted + cost,
         charged := b.charged + (if cost == 0 then 0 else 1))
    else b
  }

  /** ReleaseTokens on the bucket: the sum comes first. */
  function GiveBack(b: Bucket, tokens: int): Bucket {
    var sum := Int64(b.tokens + tokens);
    b.(tokens := if sum > b.maxTokens then b.maxTokens else sum, returned := b.returned + tokens)
  }

  /** That fills the bucket up exactly when the sum fits; past that it is left with a negative number of tokens. */
  lemma GiveBackExactly(b: Bucket, tokens: int)
    requires 0 <= b.tokens <= b.maxTokens <= INT64_MAX && 0 <= tokens <= INT64_MAX
    ensures GiveBack(b, tokens).tokens == (if b.tokens + tokens < b.maxTokens then b.tokens + tokens else b.maxTokens)
      <==> b.tokens + tokens <= INT64_MAX
    ensures b.tokens + tokens > INT64_MAX ==> GiveBack(b, tokens).tokens == b.tokens + tokens - TWO_TO_THE_64 < 0
  {
  }

  /** One tick of startRefill. */
  function Refill(b: Bucket): Bucket {
    b.(tokens := if b.tokens < b.maxTokens then b.tokens + 1 else b.tokens, ticks := b.ticks + 1)
  }

  /** UpdatePolicy on the bucket; the ticker keeps its period. */
  function Adopt(b: Bucket, p: Policy): Bucket {
    b.(maxTokens := p.size, refillRate := p.rate, tokens := if b.tokens > p.size then p.size else b.tokens)
  }

  /** The cost of an operation: the policy's, or the default one when that is zero or missing. */
  function CostOf(p: Policy, operation: string): int {
    var cost := if operation in p.costs then p.costs[operation] else 0;
    if cost != 0 then cost else if operation in DEFAULT_COSTS then DEFAULT_COSTS[operation] else 0
  }

  /**
    A call on its way: it found no bucket; it has initialised the account and will look again; it is about to
    charge a bucket, or to give tokens back to one. A bucket may have been replaced or removed meanwhile.
   */
  datatype Call = NeedsInit(account: string, op: string) | LookAgain(account: string, op: string)
    | Charge(bucket: nat, cost: int) | Return(bucket: nat, tokens: int)

  datatype State = State(buckets: seq<Bucket>, accounts: map<string, nat>, policies: map<string, Policy>,
                         calls: map<nat, Call>)

  const INITIAL := State([], map[], map[], map[])

  datatype Action =
    | Initialize(account: string, policy: Option<Policy>)
    | Remove(account: string)
    | Update(account: string, newPolicy: Policy)
    | Look(c: nat, account: string, op: string)
    | InitLazy(c: nat)
    | ChargeIt(c: nat)
    | LookToReturn(c: nat, account: string, tokens: int)
    | ReturnIt(c: nat)
    | Tick(bucket: nat)

  function PolicyFor(s: State, account: string): Policy {
    if account in s.policies then s.policies[account] else DEFAULT_POLICY
  }

  function AfterInitialize(s: State, account: string, p: Policy): State
    requires p.rate != 0
  {
    s.(buckets := s.buckets + [NewBucket(p)], accounts := s.accounts[account := |s.buckets|],
       policies := s.policies[account := p])
  }

  /** The lookup of ConsumeTokens. With the policy disabled the call is free and over. */
  function AfterLook(s: State, c: nat, account: string, op: string): State {
    if account !in s.accounts then s.(calls := s.calls[c := NeedsInit(account, op)])
    else if !PolicyFor(s, account).enabled then s.(calls := s.calls - {c})
    else s.(calls := s.calls[c := Charge(s.accounts[account], CostOf(PolicyFor(s, account), op))])
  }

  function AfterUpdate(s: State, account: string, p: Policy): State {
    var t := s.(policies := s.policies[account := p]);
    if account in s.accounts && s.accounts[account] < |s.buckets| then
      var i := s.accounts[account];
      t.(buckets := s.buckets[i := Adopt(s.buckets[i], p)])
    else t
  }

  function Next(s: State, a: Action): Option<State> {
    match a
    case Initialize(account, policy) =>
      var p := if policy.Some? then policy.value else DEFAULT_POLICY;
      if 1 <= p.rate <= MINUTE then Some(AfterInitialize(s, account, p)) else None
    case Remove(account) => Some(s.(accounts := s.accounts - {account}, policies := s.policies - {account}))
    case Update(account, policy) => Some(AfterUpdate(s, account, policy))
    case Look(c, account, op) =>
      if c in s.calls && s.calls[c] != LookAgain(account, op) then None
      else if c in s.calls && account !in s.accounts then None
      else Some(AfterLook(s, c, account, op))
    case InitLazy(c) =>
      if c !in s.calls || !s.calls[c].NeedsInit? then None
      else
        var t := s.(calls := s.calls[c := LookAgain(s.calls[c].account, s.calls[c].op)]);
        if s.calls[c].account in s.accounts then Some(t)
        else Some(AfterInitialize(t, s.calls[c].account, DEFAULT_POLICY))
    case ChargeIt(c) =>
      if c !in s.calls || !s.calls[c].Charge? || s.calls[c].bucket >= |s.buckets| then None
      else
        var i := s.calls[c].bucket;
        Some(s.(buckets := s.buckets[i := Consume(s.buckets[i], s.calls[c].cost)], calls := s.calls - {c}))
    case LookToReturn(c, account, tokens) =>
      if c in s.calls || account !in s.accounts then None
      else Some(s.(calls := s.calls[c := Return(s.accounts[account], tokens)]))
    case ReturnIt(c) =>
      if c !in s.calls || !s.calls[c].Return? || s.calls[c].bucket >= |s.buckets| then None
      else
        var i := s.calls[c].bucket;
        Some(s.(buckets := s.buckets[i := GiveBack(s.buckets[i], s.calls[c].tokens)], calls := s.calls - {c}))
    case Tick(i) =>
      if i >= |s.buckets| then None else Some(s.(buckets := s.buckets[i := Refill(s.buckets[i])]))
  }

  function Run(s: State, actions: seq<Action>): Option<State>
    decreases |actions|
  {
    if actions == [] then Some(s)
    else match Run(s, actions[..|actions| - 1]) {
      case None => None
      case Some(t) => Next(t, actions[|actions| - 1])
    }
  }

  // ---- What is assumed: nonnegative sizes, costs and releases ----

  predicate IsAmount(n: int) {
    0 <= n <= INT64_MAX
  }

  ghost predicate PolicyOK(p: Policy) {
    IsAmount(p.size) && forall op | op in p.costs :: IsAmount(p.costs[op])
  }

  ghost predicate Sane(a: Action) {
    match a
    case Initialize(_, policy) => policy.Some? ==> PolicyOK(policy.value)
    case Update(_, policy) => PolicyOK(policy)
    case LookToReturn(_, _, tokens) => IsAmount(tokens)
    case _ => true
  }

  ghost predicate SaneRun(actions: seq<Action>) {
    forall i | 0 <= i < |actions| :: Sane(actions[i])
  }

  // ---- What holds of every bucket ----

  /** Sizes are amounts, and no bucket has more than its size. */
  predicate BucketOK(b: Bucket) {
    IsInt64(b.tokens) && b.tokens <= b.maxTokens && IsAmount(b.maxTokens)
  }

  predicate CallOK(s: State, call: Call) {
    && (call.Charge? ==> call.bucket < |s.buckets| && IsAmount(call.cost))
    && (call.Return? ==> call.bucket < |s.buckets| && IsAmount(call.tokens))
  }

  ghost predicate TablesOK(s: State) {
    && (forall a | a in s.accounts :: s.accounts[a] < |s.buckets|)
    && (forall a | a in s.policies :: PolicyOK(s.policies[a]))
    && (forall c | c in s.calls :: CallOK(s, s.calls[c]))
  }

  ghost predicate Inv(s: State) {
    TablesOK(s) && forall i | 0 <= i < |s.buckets| :: BucketOK(s.buckets[i])
  }

  lemma InitializeKeepsTables(s: State, account: string, p: Policy)
    requires TablesOK(s) && PolicyOK(p) && p.rate != 0
    ensures TablesOK(AfterInitialize(s, account, p))
  {
    var t := AfterInitialize(s, account, p);
    forall c | c in t.calls ensures CallOK(t, t.calls[c]) { assert CallOK(s, s.calls[c]); }
  }

  lemma LookKeepsTables(s: State, c: nat, account: string, op: string)
    requires TablesOK(s)
    ensures TablesOK(AfterLook(s, c, account, op))
  {
    var t := AfterLook(s, c, account, op);
    forall d | d in t.calls ensures CallOK(t, t.calls[d]) {
      if d != c { assert CallOK(s, s.calls[d]); }
    }
  }

  /** The other steps start no bucket, and at most set one policy or move one call. */
  lemma OthersKeepTables(s: State, a: Action)
    requires TablesOK(s) && Next(s, a).Some? && Sane(a) && !a.Initialize? && !a.Look? && !a.InitLazy?
    ensures TablesOK(Next(s, a).value)
  {
    var t := Next(s, a).value;
    assert |t.buckets| == |s.buckets|;
    forall d | d in t.calls ensures CallOK(t, t.calls[d]) {
      if d in s.calls { assert CallOK(s, s.calls[d]); }
    }
  }

  lemma TablesStep(s: State, a: Action)
    requires TablesOK(s) && Next(s, a).Some? && Sane(a)
    ensures TablesOK(Next(s, a).value)
  {
    match a
    case Initialize(account, policy) =>
      InitializeKeepsTables(s, account, if policy.Some? then policy.value else DEFAULT_POLICY);
    case Look(c, account, op) => LookKeepsTables(s, c, account, op);
    case InitLazy(c) =>
      var t := s.(calls := s.calls[c := LookAgain(s.calls[c].account, s.calls[c].op)]);
      assert TablesOK(t);
      InitializeKeepsTables(t, s.calls[c].account, DEFAULT_POLICY);
    case _ => OthersKeepTables(s, a);
  }

  lemma BucketsStep(s: State, a: Action)
    requires Inv(s) && Next(s, a).Some? && Sane(a)
    ensures forall i | 0 <= i < |Next(s, a).value.buckets| :: BucketOK(Next(s, a).value.buckets[i])
  {
    if (a.ChargeIt? || a.ReturnIt?) && a.c in s.calls { assert CallOK(s, s.calls[a.c]); }
  }

  lemma {:induction false} RunKeepsInv(s: State, actions: seq<Action>)
    requires Inv(s) && Run(s, actions).Some? && SaneRun(actions)
    ensures Inv(Run(s, actions).value)
    decreases |actions|
  {
    if actions != [] {
      var t, a := Run(s, actions[..|actions| - 1]).value, actions[|actions| - 1];
      RunKeepsInv(s, actions[..|actions| - 1]);
      TablesStep(t, a);
      BucketsStep(t, a);
    }
  }

  // ---- Buckets stay within their bounds exactly when no release overflows ----

  /** The step gives n tokens back to bucket i. */
  predicate Returns(s: State, a: Action, i: nat, n: int) {
    a.ReturnIt? && a.c in s.calls && s.calls[a.c] == Return(i, n) && i < |s.buckets|
  }

  /** What is given back and what is there add up to a 64-bit number. */
  ghost predicate Fits(s: State, a: Action) {
    forall i: nat, n | Returns(s, a, i, n) :: s.buckets[i].tokens + n <= INT64_MAX
  }

  ghost predicate FitRun(s: State, actions: seq<Action>)
    decreases |actions|
  {
    actions == [] ||
    (FitRun(s, actions[..|actions| - 1]) && Run(s, actions[..|actions| - 1]).Some? &&
     Fits(Run(s, actions[..|actions| - 1]).value, actions[|actions| - 1]))
  }

  ghost predicate WithinBounds(s: State) {
    forall i | 0 <= i < |s.buckets| :: 0 <= s.buckets[i].tokens <= s.buckets[i].maxTokens
  }

  /** In all the states the run passes through. */
  ghost predicate AlwaysWithinBounds(actions: seq<Action>)
    decreases |actions|
  {
    Run(INITIAL, actions).Some? && WithinBounds(Run(INITIAL, actions).value) &&
    (actions == [] || AlwaysWithinBounds(actions[..|actions| - 1]))
  }

  lemma BoundsStep(s: State, a: Action)
    requires Inv(s) && WithinBounds(s) && Next(s, a).Some? && Sane(a)
    ensures WithinBounds(Next(s, a).value) <==> Fits(s, a)
  {
    var t := Next(s, a).value;
    if (a.ChargeIt? || a.ReturnIt?) && a.c in s.calls { assert CallOK(s, s.calls[a.c]); }
    if a.ReturnIt? {
      var i, n := s.calls[a.c].bucket, s.calls[a.c].tokens;
      assert Returns(s, a, i, n);
      GiveBackExactly(s.buckets[i], n);
      assert t.buckets[i] == GiveBack(s.buckets[i], n);
    }
  }

  /** In all states 0 <= tokens <= maxTokens, for every bucket there has been, if and only if no release overflows. */
  lemma {:induction false} TokensWithinBounds(actions: seq<Action>)
    requires Run(INITIAL, actions).Some? && SaneRun(actions)
    ensures AlwaysWithinBounds(actions) <==> FitRun(INITIAL, actions)
    decreases |actions|
  {
    if actions != [] {
      var before := actions[..|actions| - 1];
      TokensWithinBounds(before);
      if AlwaysWithinBounds(before) {
        RunKeepsInv(INITIAL, before);
        BoundsStep(Run(INITIAL, before).value, actions[|actions| - 1]);
      }
    }
  }

  // ---- What a bucket admits ----

  /** What can be taken: nothing from a bucket that an overflow has left with a negative number. */
  function AtHand(b: Bucket): int {
    if b.tokens < 0 then 0 else b.tokens
  }

  /** Tokens at hand and taken, less what was put in: no step raises it. */
  function Potential(b: Bucket): int {
    AtHand(b) + b.admitted - b.ticks - b.returned
  }

  lemma PotentialStep(s: State, a: Action, i: nat)
    requires Inv(s) && Next(s, a).Some? && i < |s.buckets|
    ensures i < |Next(s, a).value.buckets|
    ensures Potential(Next(s, a).value.buckets[i]) <= Potential(s.buckets[i])
  {
    if (a.ChargeIt? || a.ReturnIt?) && a.c in s.calls { assert CallOK(s, s.calls[a.c]); }
  }

  lemma {:induction false} PotentialFalls(s: State, actions: seq<Action>, i: nat)
    requires Inv(s) && Run(s, actions).Some? && SaneRun(actions) && i < |s.buckets|
    ensures i < |Run(s, actions).value.buckets|
    ensures Potential(Run(s, actions).value.buckets[i]) <= Potential(s.buckets[i])
    decreases |actions|
  {
    if actions != [] {
      PotentialFalls(s, actions[..|actions| - 1], i);
      RunKeepsInv(s, actions[..|actions| - 1]);
      PotentialStep(Run(s, actions[..|actions| - 1]).value, actions[|actions| - 1], i);
    }
  }

  /**
    Over any window of any run, what a bucket admits is at most its tokens at the start, its ticks and what was
    given back to it, whatever policies came and went and whether or not a sum overflowed. A new initialisation
    starts a new bucket.
   */
  lemma AdmittedInWindow(before: seq<Action>, s: State, window: seq<Action>, t: State, i: nat)
    requires Run(INITIAL, before) == Some(s) && Run(s, window) == Some(t)
    requires SaneRun(before) && SaneRun(window) && i < |s.buckets|
    ensures i < |t.buckets|
    ensures t.buckets[i].admitted - s.buckets[i].admitted
      <= AtHand(s.buckets[i]) + (t.buckets[i].ticks - s.buckets[i].ticks)
        + (t.buckets[i].returned - s.buckets[i].returned)
  {
    RunKeepsInv(INITIAL, before);
    PotentialFalls(s, window, i);
  }

  /** Tokens there and taken, less what was put in. */
  function Balance(b: Bucket): int {
    b.tokens + b.admitted - b.ticks - b.returned
  }

  /** A step loses tokens only from a bucket that it leaves full, or by an overflow, and then 2^64 at once. */
  lemma DiscardsOnlyWhenFull(s: State, a: Action, i: nat)
    requires Inv(s) && Next(s, a).Some? && i < |s.buckets|
    ensures i < |Next(s, a).value.buckets|
    ensures Fits(s, a) ==>
      Balance(Next(s, a).value.buckets[i]) == Balance(s.buckets[i])
      || Next(s, a).value.buckets[i].tokens == Next(s, a).value.buckets[i].maxTokens
    ensures forall n | Returns(s, a, i, n) && s.buckets[i].tokens + n > INT64_MAX ::
      Balance(Next(s, a).value.buckets[i]) == Balance(s.buckets[i]) - TWO_TO_THE_64
  {
    if (a.ChargeIt? || a.ReturnIt?) && a.c in s.calls { assert CallOK(s, s.calls[a.c]); }
    if a.ReturnIt? { assert Returns(s, a, s.calls[a.c].bucket, s.calls[a.c].tokens); }
  }

  /** No step of the run leaves the bucket full. */
  ghost predicate NeverFull(s: State, actions: seq<Action>, i: nat)
    decreases |actions|
  {
    actions == [] ||
    (NeverFull(s, actions[..|actions| - 1], i) && Run(s, actions).Some? && i < |Run(s, actions).value.buckets| &&
     Run(s, actions).value.buckets[i].tokens < Run(s, actions).value.buckets[i].maxTokens)
  }

  /** A bucket that is never full loses nothing: what it admits is exactly what it had and got, less what is left. */
  lemma {:induction false} NeverFullIsExact(s: State, actions: seq<Action>, i: nat)
    requires Inv(s) && Run(s, actions).Some? && SaneRun(actions) && FitRun(s, actions)
    requires i < |s.buckets| && NeverFull(s, actions, i)
    ensures i < |Run(s, actions).value.buckets|
    ensures Balance(Run(s, actions).value.buckets[i]) == Balance(s.buckets[i])
    decreases |actions|
  {
    if actions != [] {
      var init := actions[..|actions| - 1];
      NeverFullIsExact(s, init, i);
      RunKeepsInv(s, init);
      DiscardsOnlyWhenFull(Run(s, init).value, actions[|actions| - 1], i);
    }
  }

  /** Each call that costs takes a token at least, so their number is bounded in the same way. */
  function ChargePotential(b: Bucket): int {
    AtHand(b) + b.charged - b.ticks - b.returned
  }

  lemma ChargesStep(s: State, a: Action, i: nat)
    requires Inv(s) && Next(s, a).Some? && i < |s.buckets|
    ensures i < |Next(s, a).value.buckets|
    ensures ChargePotential(Next(s, a).value.buckets[i]) <= ChargePotential(s.buckets[i])
  {
    if (a.ChargeIt? || a.ReturnIt?) && a.c in s.calls { assert CallOK(s, s.calls[a.c]); }
  }

  lemma {:induction false} ChargesFall(s: State, actions: seq<Action>, i: nat)
    requires Inv(s) && Run(s, actions).Some? && SaneRun(actions) && i < |s.buckets|
    ensures i < |Run(s, actions).value.buckets|
    ensures ChargePotential(Run(s, actions).value.buckets[i]) <= ChargePotential(s.buckets[i])
    decreases |actions|
  {
    if actions != [] {
      ChargesFall(s, actions[..|actions| - 1], i);
      RunKeepsInv(s, actions[..|actions| - 1]);
      ChargesStep(Run(s, actions[..|actions| - 1]).value, actions[|actions| - 1], i);
    }
  }

  /** Over any window, the calls admitted at a cost are no more than the tokens there were and came. */
  lemma ChargesInWindow(before: seq<Action>, s: State, window: seq<Action>, t: State, i: nat)
    requires Run(INITIAL, before) == Some(s) && Run(s, window) == Some(t)
    requires SaneRun(before) && SaneRun(window) && i < |s.buckets|
    ensures i < |t.buckets|
    ensures t.buckets[i].charged - s.buckets[i].charged
      <= AtHand(s.buckets[i]) + (t.buckets[i].ticks - s.buckets[i].ticks)
        + (t.buckets[i].returned - s.buckets[i].returned)
  {
    RunKeepsInv(INITIAL, before);
    ChargesFall(s, window, i);
  }

  // ---- A new bucket ----

  /** The step neither charges bucket i, nor gives anything back to it, nor changes its policy. */
  predicate LeavesAlone(s: State, a: Action, i: nat) {
    && (a.ChargeIt? || a.ReturnIt? ==>
          a.c !in s.calls || s.calls[a.c].NeedsInit? || s.calls[a.c].LookAgain? || s.calls[a.c].bucket != i)
    && (a.Update? ==> a.account !in s.accounts || s.accounts[a.account] != i)
  }

  ghost predicate LeftAlone(s: State, actions: seq<Action>, i: nat)
    decreases |actions|
  {
    actions == [] ||
    (LeftAlone(s, actions[..|actions| - 1], i) && Run(s, actions[..|actions| - 1]).Some? &&
     LeavesAlone(Run(s, actions[..|actions| - 1]).value, actions[|actions| - 1], i))
  }

  /** Full to its size, and nothing admitted yet. */
  predicate IsUnused(b: Bucket, p: Policy) {
    && b.tokens == b.maxTokens == p.size && b.admitted == 0 && b.charged == 0
    && b.refillRate == p.rate && (p.rate != 0 ==> b.period == 60_000_000_000 / p.rate)
  }

  lemma LeavesUnused(s: State, a: Action, i: nat, p: Policy)
    requires Next(s, a).Some? && i < |s.buckets| && IsUnused(s.buckets[i], p) && LeavesAlone(s, a, i)
    ensures i < |Next(s, a).value.buckets| && IsUnused(Next(s, a).value.buckets[i], p)
  {
  }

  /** An initialised account has a full bucket, which stays full until it is charged or its policy is changed. */
  lemma {:induction false} FullUntilUsed(s: State, account: string, p: Policy, t: State, actions: seq<Action>)
    requires Next(s, Initialize(account, Some(p))) == Some(t)
    requires Run(t, actions).Some? && LeftAlone(t, actions, |s.buckets|)
    ensures account in t.accounts && t.accounts[account] == |s.buckets| && PolicyFor(t, account) == p
    ensures |s.buckets| < |Run(t, actions).value.buckets|
    ensures IsUnused(Run(t, actions).value.buckets[|s.buckets|], p)
    decreases |actions|
  {
    if actions != [] {
      var init := actions[..|actions| - 1];
      FullUntilUsed(s, account, p, t, init);
      LeavesUnused(Run(t, init).value, actions[|actions| - 1], |s.buckets|, p);
    }
  }

  /** So its first charge is admitted exactly when it is no more than the size. */
  lemma FirstCharge(s: State, account: string, p: Policy, t: State, actions: seq<Action>, u: State, c: nat)
    requires Next(s, Initialize(account, Some(p))) == Some(t)
    requires Run(t, actions) == Some(u) && LeftAlone(t, actions, |s.buckets|)
    requires c in u.calls && u.calls[c].Charge? && u.calls[c].bucket == |s.buckets|
    requires IsAmount(p.size) && IsAmount(u.calls[c].cost)
    ensures Next(u, ChargeIt(c)).Some? && |s.buckets| < |Next(u, ChargeIt(c)).value.buckets|
    ensures var cost, b := u.calls[c].cost, Next(u, ChargeIt(c)).value.buckets[|s.buckets|];
            if cost <= p.size then b.tokens == p.size - cost && b.admitted == cost
            else b.tokens == p.size && b.admitted == 0
  {
    FullUntilUsed(s, account, p, t, actions);
  }

  /** A ticker needs a period of a nanosecond at least; a removed account has no bucket and no policy of its own. */
  lemma AccountsComeAndGo(s: State, account: string, p: Policy)
    ensures Next(s, Initialize(account, Some(p))).Some? <==> 1 <= p.rate <= 60_000_000_000
    ensures Next(s, Remove(account)).Some?
    ensures var t := Next(s, Remove(account)).value;
      account !in t.accounts && PolicyFor(t, account) == DEFAULT_POLICY && t.buckets == s.buckets
  {
  }

  /** A new policy is the account's from then on, and its bucket, if it has one, takes over size and rate. */
  lemma PolicyIsAdopted(s: State, account: string, p: Policy)
    requires TablesOK(s)
    ensures Next(s, Update(account, p)).Some?
    ensures var t := Next(s, Update(account, p)).value;
      && PolicyFor(t, account) == p && t.accounts == s.accounts && |t.buckets| == |s.buckets|
      && forall i | 0 <= i < |s.buckets| :: t.buckets[i] ==
           if account in s.accounts && s.accounts[account] == i then
             s.buckets[i].(maxTokens := p.size, refillRate := p.rate,
                           tokens := if s.buckets[i].tokens < p.size then s.buckets[i].tokens else p.size)
           else s.buckets[i]
  {
  }

  /** Every bucket ticks, also one that is no account's any more, and gains a token unless it is full. */
  lemma TicksExactly(s: State, i: nat)
    ensures Next(s, Tick(i)).Some? <==> i < |s.buckets|
    ensures i < |s.buckets| && s.buckets[i].tokens <= s.buckets[i].maxTokens ==>
      Next(s, Tick(i)).value.buckets[i].tokens
        == if s.buckets[i].tokens == s.buckets[i].maxTokens then s.buckets[i].tokens else s.buckets[i].tokens + 1
  {
  }

  /** An account that another call has initialised meanwhile is left alone. */
  lemma InitialisedMeanwhile(s: State, c: nat)
    requires c in s.calls && s.calls[c].NeedsInit? && s.calls[c].account in s.accounts
    ensures Next(s, InitLazy(c))
      == Some(s.(calls := s.calls[c := LookAgain(s.calls[c].account, s.calls[c].op)]))
  {
  }

  /** A charge is counted, once, exactly when it takes something. */
  lemma ChargeIsCounted(b: Bucket, cost: int)
    requires IsInt64(b.tokens) && IsAmount(cost)
    ensures Consume(b, cost).charged == b.charged + (if 0 < cost <= b.tokens then 1 else 0)
    ensures Consume(b, cost).admitted == b.admitted + (if cost <= b.tokens then cost else 0)
    ensures Consume(b, cost).tokens == b.tokens - (Consume(b, cost).admitted - b.admitted)
  {
  }

  // ---- Calls that nothing interrupts ----

  lemma RunSnoc(s: State, actions: seq<Action>, a: Action)
    requires Run(s, actions).Some?
    ensures Run(s, actions + [a]) == Next(Run(s, actions).value, a)
  {
    assert (actions + [a])[..|actions|] == actions;
  }

  /** A call for an account with a bucket: free with the policy off, else its cost is charged to that bucket. */
  lemma KnownCall(s: State, before: seq<Action>, t: State, c: nat, account: string, op: string)
    returns (actions: seq<Action>)
    requires Run(s, before) == Some(t) && TablesOK(t) && account in t.accounts
    requires c in t.calls ==> t.calls[c] == LookAgain(account, op)
    ensures Run(s, actions) == Some(
      var rest := t.(calls := t.calls - {c});
      var i := t.accounts[account];
      if !PolicyFor(t, account).enabled then rest
      else rest.(buckets := t.buckets[i := Consume(t.buckets[i], CostOf(PolicyFor(t, account), op))]))
  {
    RunSnoc(s, before, Look(c, account, op));
    actions := before + [Look(c, account, op)];
    if PolicyFor(t, account).enabled {
      var u := AfterLook(t, c, account, op);
      assert u.calls - {c} == t.calls - {c};
      RunSnoc(s, actions, ChargeIt(c));
      actions := actions + [ChargeIt(c)];
    }
  }

  /** The account of a call that found no bucket has been initialised, and the call will look again. */
  function Initialised(s: State, c: nat, account: string, op: string): State {
    AfterInitialize(s.(calls := s.calls[c := LookAgain(account, op)]), account, DEFAULT_POLICY)
  }

  function Unknown(s: State, c: nat, account: string, op: string): State {
    s.(calls := s.calls[c := NeedsInit(account, op)])
  }

  lemma InitialisesNext(s: State, c: nat, account: string, op: string)
    requires account !in s.accounts && c !in s.calls
    ensures Next(s, Look(c, account, op)) == Some(Unknown(s, c, account, op))
    ensures Next(Unknown(s, c, account, op), InitLazy(c)) == Some(Initialised(s, c, account, op))
  {
    assert s.calls[c := NeedsInit(account, op)][c := LookAgain(account, op)] == s.calls[c := LookAgain(account, op)];
  }

  lemma InitialisedTables(s: State, c: nat, account: string, op: string)
    requires TablesOK(s)
    ensures TablesOK(Initialised(s, c, account, op))
  {
    var t := s.(calls := s.calls[c := LookAgain(account, op)]);
    forall d | d in t.calls ensures CallOK(t, t.calls[d]) {
      if d != c { assert CallOK(s, s.calls[d]); }
    }
    InitializeKeepsTables(t, account, DEFAULT_POLICY);
  }

  lemma InitialisesFirst(s: State, c: nat, account: string, op: string)
    requires account !in s.accounts && c !in s.calls
    ensures Run(s, [] + [Look(c, account, op)] + [InitLazy(c)]) == Some(Initialised(s, c, account, op))
  {
    InitialisesNext(s, c, account, op);
    RunSnoc(s, [], Look(c, account, op));
    RunSnoc(s, [] + [Look(c, account, op)], InitLazy(c));
  }

  /** A call for an account without one initialises it with the default policy, and is charged to the new bucket. */
  lemma UnknownCall(s: State, c: nat, account: string, op: string) returns (actions: seq<Action>)
    requires TablesOK(s) && account !in s.accounts && c !in s.calls
    ensures Run(s, actions) == Some(
      var t := AfterInitialize(s, account, DEFAULT_POLICY);
      t.(buckets := t.buckets[|s.buckets| := Consume(t.buckets[|s.buckets|], CostOf(DEFAULT_POLICY, op))]))
  {
    var t := Initialised(s, c, account, op);
    InitialisesFirst(s, c, account, op);
    InitialisedTables(s, c, account, op);
    actions := KnownCall(s, [] + [Look(c, account, op)] + [InitLazy(c)], t, c, account, op);
    assert t.calls - {c} == s.calls;
    assert t.accounts[account] == |s.buckets| && PolicyFor(t, account) == DEFAULT_POLICY;
  }

  lemma ReleaseNext(s: State, c: nat, account: string, tokens: int, u: State)
    requires TablesOK(s) && account in s.accounts && c !in s.calls
    requires u == s.(calls := s.calls[c := Return(s.accounts[account], tokens)])
    ensures Next(s, LookToReturn(c, account, tokens)) == Some(u)
    ensures Next(u, ReturnIt(c)) == Some(
      var i := s.accounts[account]; s.(buckets := s.buckets[i := GiveBack(s.buckets[i], tokens)]))
  {
    assert u.calls - {c} == s.calls;
  }

  /** ReleaseTokens for an account with a bucket gives back to that bucket. */
  lemma ReleaseCall(s: State, c: nat, account: string, tokens: int)
    requires TablesOK(s) && account in s.accounts && c !in s.calls
    ensures Run(s, [] + [LookToReturn(c, account, tokens)] + [ReturnIt(c)]) == Some(
      var i := s.accounts[account]; s.(buckets := s.buckets[i := GiveBack(s.buckets[i], tokens)]))
  {
    ReleaseNext(s, c, account, tokens, s.(calls := s.calls[c := Return(s.accounts[account], tokens)]));
    RunSnoc(s, [], LookToReturn(c, account, tokens));
    RunSnoc(s, [] + [LookToReturn(c, account, tokens)], ReturnIt(c));
  }

  /** An operation costs what the policy says, and by default what is listed here. */
  lemma CostsAre(p: Policy, operation: string)
    ensures CostOf(p, operation) ==
      if operation in p.costs && p.costs[operation] != 0 then p.costs[operation]
      else if operation in {"FETCH", "LIST"} then 1
      else if operation in {"RETRIEVE", "SYNC"} then 2
      else if operation in {"SEND", "ATTACHMENT"} then 3
      else if operation == "SEARCH" then 5
      else 0
  {
  }

  /** No policy makes an operation free that the defaults charge for: such a call always comes to take a token. */
  lemma MeteredCallsCost(s: State, c: nat, account: string, op: string)
    requires TablesOK(s) && Next(s, Look(c, account, op)).Some? && account in s.accounts
    requires PolicyFor(s, account).enabled && op in DEFAULT_COSTS && op != "IDLE"
    ensures var call := Next(s, Look(c, account, op)).value.calls[c];
            call.Charge? && call.bucket == s.accounts[account] && call.cost >= 1
  {
    assert DEFAULT_COSTS[op] >= 1;
  }

  // ---- The wait estimate ----

  /** EstimateWaitTime on the bucket and the policy: a 64-bit number of nanoseconds, or a division by zero. */
  function Estimate(b: Bucket, p: Policy, cost: int): Option<int> {
    if b.tokens >= cost then Some(0)
    else if p.rate == 0 then None
    else Some(Int64(Quotient(Int64(cost - b.tokens), p.rate) * MINUTE))
  }

  /** There is nothing to wait for while the tokens suffice. */
  lemma NoWait(b: Bucket, p: Policy, cost: int)
    ensures cost <= b.tokens ==> Estimate(b, p, cost) == Some(0)
  {
  }

  /** With amounts and a positive rate, the whole minutes it takes to refill what is missing. */
  lemma EstimateMinutes(b: Bucket, p: Policy, cost: int)
    requires 0 <= b.tokens < cost <= INT64_MAX && p.rate >= 1
    ensures Estimate(b, p, cost) == Some(Int64((cost - b.tokens) / p.rate * MINUTE))
  {
    QuotientTruncates(cost - b.tokens, p.rate);
  }

  /** With a negative rate it is not positive, as long as it fits; with the rate zero the source panics. */
  lemma EstimateOtherRates(b: Bucket, p: Policy, cost: int)
    requires 0 <= b.tokens < cost <= INT64_MAX && p.rate <= 0
    ensures p.rate == 0 ==> Estimate(b, p, cost) == None
    ensures p.rate < 0 && (cost - b.tokens) / -p.rate <= MOST_MINUTES ==>
      Estimate(b, p, cost) == Some(-((cost - b.tokens) / -p.rate * MINUTE))
  {
    if p.rate < 0 && (cost - b.tokens) / -p.rate <= MOST_MINUTES {
      QuotientTruncates(cost - b.tokens, -p.rate);
      FitsInt64((cost - b.tokens) / -p.rate);
    }
  }

  /** The bucket after j ticks with nobody spending or giving back. */
  function AfterTicks(b: Bucket, j: nat): Bucket
    decreases j
  {
    if j == 0 then b else Refill(AfterTicks(b, j - 1))
  }

  lemma {:induction false} TicksFill(b: Bucket, j: nat)
    requires b.tokens <= b.maxTokens
    ensures AfterTicks(b, j).tokens == if b.tokens + j > b.maxTokens then b.maxTokens else b.tokens + j
    ensures AfterTicks(b, j).maxTokens == b.maxTokens
    decreases j
  {
    if j > 0 { TicksFill(b, j - 1); }
  }

  /** The tick that first covers a cost the bucket can hold is the one whose number is the missing tokens. */
  lemma FirstCoveringTick(b: Bucket, cost: int, j: nat)
    requires b.tokens < cost <= b.maxTokens
    ensures AfterTicks(b, j).tokens >= cost <==> j >= cost - b.tokens
  {
    TicksFill(b, j);
  }

  /** The moment of tick n, when the next tick is `phase` away. */
  function TickTime(phase: int, period: int, n: int): int {
    phase + (n - 1) * period
  }

  lemma DivMod(a: int, b: int)
    requires b > 0
    ensures a == a / b * b + a % b && 0 <= a % b < b
  {
  }

  lemma Products(k: int, rate: int, period: int, rest: int, over: int)
    ensures k * (period * rate + over) == (k * rate + rest) * period - rest * period + k * over
  {
  }

  /** How far the covering tick is from the estimate: the phase, the missing partial minute, and the rounding. */
  lemma WaitDifference(rate: int, needed: int, phase: int)
    requires rate >= 1 && needed >= 1
    ensures TickTime(phase, MINUTE / rate, needed) - needed / rate * MINUTE
      == phase + (needed % rate - 1) * (MINUTE / rate) - needed / rate * (MINUTE % rate)
  {
    var period, over, k, rest := MINUTE / rate, MINUTE % rate, needed / rate, needed % rate;
    DivMod(MINUTE, rate);
    DivMod(needed, rate);
    Products(k, rate, period, rest, over);
    assert (needed - 1) * period == needed * period - period;
    assert (rest - 1) * period == rest * period - period;
  }

  lemma MulMono(a: int, b: int, c: int)
    requires a <= b && c >= 0
    ensures a * c <= b * c
  {
  }

  lemma LessOne(a: int, c: int)
    ensures (a - 1) * c == a * c - c
  {
  }

  /** The ticks of a partial minute take less than a minute. */
  lemma PartialMinute(rate: int, rest: int)
    requires 1 <= rate && 0 <= rest < rate && MINUTE / rate > 0
    ensures 0 <= rest * (MINUTE / rate) < MINUTE
  {
    var period := MINUTE / rate;
    DivMod(MINUTE, rate);
    MulMono(0, rest, period);
    MulMono(rest, rate - 1, period);
    LessOne(rate, period);
  }

  /** The estimate is less than a minute off for every phase exactly when the rounding has not added up to one. */
  predicate RoundingIsSmall(rate: int, needed: int)
    requires rate >= 1
  {
    needed / rate * (MINUTE % rate) - (needed % rate - 1) * (MINUTE / rate) <= MINUTE
  }

  /** The most minutes that a 64-bit number of nanoseconds can hold. */
  const MOST_MINUTES := INT64_MAX / MINUTE

  /** With the next tick `phase` away, the covering tick is less than a minute from the estimate. */
  predicate NearAt(b: Bucket, p: Policy, cost: int, phase: int)
    requires p.rate > 0
  {
    -MINUTE < TickTime(phase, b.period, cost - b.tokens) - Estimate(b, p, cost).value < MINUTE
  }

  lemma EstimateFits(b: Bucket, p: Policy, cost: int)
    requires 0 <= b.tokens < cost <= INT64_MAX && p.rate >= 1 && (cost - b.tokens) / p.rate <= MOST_MINUTES
    ensures Estimate(b, p, cost) == Some((cost - b.tokens) / p.rate * MINUTE)
  {
    EstimateMinutes(b, p, cost);
    QuotientTruncates(cost - b.tokens, p.rate);
    FitsInt64((cost - b.tokens) / p.rate);
  }

  lemma RoundingBounds(rate: int, needed: int)
    requires rate >= 1 && needed >= 1 && MINUTE / rate > 0
    ensures needed / rate * (MINUTE % rate) >= 0
    ensures (needed % rate - 1) * (MINUTE / rate) < MINUTE - MINUTE / rate
  {
    DivMod(needed, rate);
    DivMod(MINUTE, rate);
    PartialMinute(rate, needed % rate);
    LessOne(needed % rate, MINUTE / rate);
    MulMono(0, needed / rate, MINUTE % rate);
  }

  /** While the estimate fits into 64 bits, it is off by the rounding. */
  lemma NearWhen(b: Bucket, p: Policy, cost: int, phase: int)
    requires 0 <= b.tokens < cost <= b.maxTokens <= INT64_MAX
    requires p.rate >= 1 && b.period == MINUTE / p.rate && 0 < phase <= b.period
    requires (cost - b.tokens) / p.rate <= MOST_MINUTES
    ensures NearAt(b, p, cost, phase) <==>
      (cost - b.tokens) / p.rate * (MINUTE % p.rate) - ((cost - b.tokens) % p.rate - 1) * b.period < MINUTE + phase
  {
    EstimateFits(b, p, cost);
    WaitDifference(p.rate, cost - b.tokens, phase);
    RoundingBounds(p.rate, cost - b.tokens);
  }

  lemma FitsInt64(minutes: int)
    requires 0 <= minutes
    ensures minutes <= MOST_MINUTES <==> minutes * MINUTE <= INT64_MAX
  {
    assert MOST_MINUTES == 153_722_867;
  }

  /** Once it does not fit, it is wrong by centuries at every phase. */
  lemma NeverNear(b: Bucket, p: Policy, cost: int, phase: int)
    requires 0 <= b.tokens < cost <= b.maxTokens <= INT64_MAX
    requires p.rate >= 1 && b.period == MINUTE / p.rate && 0 < phase <= b.period
    requires (cost - b.tokens) / p.rate > MOST_MINUTES
    ensures !NearAt(b, p, cost, phase)
  {
    var needed := cost - b.tokens;
    EstimateMinutes(b, p, cost);
    WaitDifference(p.rate, needed, phase);
    RoundedAway(p.rate, needed);
    PartialMinute(p.rate, needed % p.rate);
    LessOne(needed % p.rate, b.period);
    PartialMinute(p.rate, 0);
    PeriodBound(p.rate);
    FitsInt64(needed / p.rate);
    TooLarge(needed / p.rate * MINUTE);
  }

  lemma PeriodBound(rate: int)
    requires rate >= 1
    ensures MINUTE / rate <= MINUTE
  {
    DivMod(MINUTE, rate);
    MulMono(1, rate, MINUTE / rate);
  }

  /**
    The estimate is less than a minute off at every phase of the ticker exactly when the rounding has not added up
    to one and the estimate fits into 64 bits.
   */
  lemma EstimateExactly(b: Bucket, p: Policy, cost: int)
    requires 0 <= b.tokens < cost <= b.maxTokens <= INT64_MAX
    requires p.rate >= 1 && b.period == MINUTE / p.rate && b.period > 0
    ensures (forall phase | 0 < phase <= b.period :: NearAt(b, p, cost, phase))
      <==> RoundingIsSmall(p.rate, cost - b.tokens) && (cost - b.tokens) / p.rate <= MOST_MINUTES
  {
    if (cost - b.tokens) / p.rate <= MOST_MINUTES {
      NearWhen(b, p, cost, 1);
      forall phase | 0 < phase <= b.period && RoundingIsSmall(p.rate, cost - b.tokens)
        ensures NearAt(b, p, cost, phase)
      {
        NearWhen(b, p, cost, phase);
      }
    } else {
      NeverNear(b, p, cost, 1);
    }
  }

  /** At one token a minute, waiting for 2 * 10^8 tokens is estimated as a time long past. */
  lemma EstimateCanWrap(b: Bucket, p: Policy)
    requires b.tokens == 0 && p.rate == 1
    ensures Estimate(b, p, 200_000_000) == Some(-6_446_744_073_709_551_616)
  {
  }

  lemma HalfMinute(rate: int)
    requires rate >= 2
    ensures 0 <= MINUTE / rate <= 30_000_000_000
  {
    DivMod(MINUTE, rate);
    MulMono(2, rate, MINUTE / rate);
  }

  lemma RoundedAway(rate: int, needed: int)
    requires 1 <= rate && 1 <= needed
    ensures needed / rate * (MINUTE % rate) <= needed
  {
    DivMod(MINUTE, rate);
    DivMod(needed, rate);
    MulMono(MINUTE % rate, rate, needed / rate);
  }

  lemma RoundingBound(rate: int, needed: int)
    requires 1 <= rate && MINUTE / rate > 0 && 1 <= needed <= 30_000_000_000
    ensures RoundingIsSmall(rate, needed)
  {
    var period, rest := MINUTE / rate, needed % rate;
    PartialMinute(rate, rest);
    LessOne(rest, period);
    if rate > 1 {
      HalfMinute(rate);
      RoundedAway(rate, needed);
    }
  }

  /**
    For buckets of up to 3 * 10^10 tokens and waits of up to 153722867 minutes the estimate differs by less than a
    minute from the moment of the tick that first covers the cost, at any phase of the ticker, while the policy that
    created the bucket is in force.
   */
  lemma EstimateWithinAMinute(b: Bucket, p: Policy, cost: int, phase: int)
    requires 0 <= b.tokens < cost <= b.maxTokens <= 30_000_000_000
    requires p.rate >= 1 && b.period == MINUTE / p.rate && 0 < phase <= b.period
    requires (cost - b.tokens) / p.rate <= MOST_MINUTES
    ensures NearAt(b, p, cost, phase)
    ensures forall j: nat :: AfterTicks(b, j).tokens >= cost <==> j >= cost - b.tokens
  {
    RoundingBound(p.rate, cost - b.tokens);
    EstimateExactly(b, p, cost);
    forall j: nat ensures AfterTicks(b, j).tokens >= cost <==> j >= cost - b.tokens {
      FirstCoveringTick(b, cost, j);
    }
  }

  // ---- The code itself ----

  class TokenBucket {
    var tokens: int
    var maxTokens: int
    var refillRate: int
    const period: int
    ghost var admitted: int
    ghost var charged: int
    ghost var ticks: int
    ghost var returned: int

    ghost function Value(): Bucket
      reads this
    {
      Bucket(tokens, maxTokens, refillRate, period, admitted, charged, ticks, returned)
    }

    constructor (p: Policy)
      requires p.rate >= 1
      ensures Value() == NewBucket(p)
    {
      tokens, maxTokens, refillRate, period := p.size, p.size, p.rate, MINUTE / p.rate;
      admitted, charged, ticks, returned := 0, 0, 0, 0;
    }

    method TryConsume(cost: int) returns (ok: bool)
      modifies this
      ensures Value() == Consume(old(Value()), cost) && ok == (old(tokens) >= cost)
    {
      if tokens >= cost {
        tokens := Int64(tokens - cost);
        admitted := admitted + cost;
        charged := charged + (if cost == 0 then 0 else 1);
        return true;
      }
      ok := false;
    }

    method Release(n: int)
      modifies this
      ensures Value() == GiveBack(old(Value()), n)
    {
      tokens := Int64(tokens + n);
      if tokens > maxTokens {
        tokens := maxTokens;
      }
      returned := returned + n;
    }

    /** The ticker case of startRefill. */
    method OnTick()
      modifies this
      ensures Value() == Refill(old(Value()))
    {
      if tokens < maxTokens {
        tokens := tokens + 1;
      }
      ticks := ticks + 1;
    }

    method SetPolicy(p: Policy)
      modifies this
      ensures Value() == Adopt(old(Value()), p)
    {
      maxTokens := p.size;
      refillRate := p.rate;
      if tokens > maxTokens {
        tokens := maxTokens;
      }
    }
  }

  class FairUseScheduler {
    var buckets: map<string, TokenBucket>
    var policies: map<string, Policy>
    var totalOperations: nat
    var throttledRequests: nat

    /** Accounts do not share buckets. */
    ghost predicate Valid()
      reads this`buckets
    {
      forall a, b | a in buckets && b in buckets && a != b :: buckets[a] != buckets[b]
    }

    ghost function BucketOf(account: string): Option<Bucket>
      reads this`buckets, buckets.Values
    {
      if account in buckets then Some(buckets[account].Value()) else None
    }

    function PolicyOf(account: string): Policy
      reads this`policies
    {
      if account in policies then policies[account] else DEFAULT_POLICY
    }

    constructor ()
      ensures Valid() && buckets == map[] && policies == map[]
    {
      buckets, policies, totalOperations, throttledRequests := map[], map[], 0, 0;
    }

    /** NewTicker panics on a period that is not positive, so the rate must be between 1 and a tick a nanosecond. */
    method InitializeAccount(account: string, policy: Option<Policy>)
      requires Valid() && (policy.Some? ==> 1 <= policy.value.rate <= MINUTE)
      modifies this`buckets, this`policies
      ensures Valid() && PolicyOf(account) == (if policy.Some? then policy.value else DEFAULT_POLICY)
      ensures BucketOf(account) == Some(NewBucket(PolicyOf(account)))
      ensures forall a | a != account :: BucketOf(a) == old(BucketOf(a)) && PolicyOf(a) == old(PolicyOf(a))
      ensures account in policies && account in buckets && fresh(buckets[account])
      ensures var p, b := PolicyOf(account), buckets[account];
              b.tokens == b.maxTokens == p.size && b.refillRate == p.rate && b.period == 60_000_000_000 / p.rate
    {
      var p := if policy.None? then DEFAULT_POLICY else policy.value;
      policies := policies[account := p];
      var bucket := new TokenBucket(p);
      buckets := buckets[account := bucket];
    }

    method InitializeAccountLazy(account: string)
      requires Valid()
      modifies this`buckets, this`policies
      ensures Valid() && account in buckets
      ensures account in old(buckets) ==> buckets == old(buckets) && policies == old(policies)
      ensures account !in old(buckets) ==> PolicyOf(account) == DEFAULT_POLICY
      ensures account !in old(buckets) ==>
        BucketOf(account) == Some(NewBucket(DEFAULT_POLICY)) && fresh(buckets[account])
      ensures account !in old(buckets) ==>
        var b := buckets[account];
        b.tokens == b.maxTokens == 100 && b.refillRate == 10 && b.period == 6_000_000_000
      ensures forall a | a != account :: BucketOf(a) == old(BucketOf(a)) && PolicyOf(a) == old(PolicyOf(a))
    {
      if account in buckets {
        return;
      }
      InitializeAccount(account, None);
    }

    /** The policy and bucket a call finds: those in place, or the default ones made for an account without bucket. */
    ghost function FoundPolicy(account: string): Policy
      reads this`buckets, this`policies
    {
      if account in buckets then PolicyOf(account) else DEFAULT_POLICY
    }

    ghost function FoundBucket(account: string): Bucket
      reads this`buckets, buckets.Values
    {
      if account in buckets then buckets[account].Value() else NewBucket(DEFAULT_POLICY)
    }

    /**
      ConsumeTokens with nothing in between: admitted exactly when the policy is off or the tokens suffice. The first
      call of a new account has 100 tokens to take from.
     */
    method ConsumeTokens(account: string, operation: string) returns (ok: bool, cost: int)
      requires Valid()
      modifies this, buckets.Values
      ensures Valid() && account in buckets && PolicyOf(account) == old(FoundPolicy(account))
      ensures ok <==> !PolicyOf(account).enabled || old(FoundBucket(account)).tokens >= cost
      ensures cost == if PolicyOf(account).enabled then CostOf(PolicyOf(account), operation) else 0
      ensures BucketOf(account) == Some(if PolicyOf(account).enabled then Consume(old(FoundBucket(account)), cost)
                                        else old(FoundBucket(account)))
      ensures account !in old(buckets) ==> (ok <==> cost <= 100) && PolicyOf(account).enabled
      ensures forall a | a != account :: BucketOf(a) == old(BucketOf(a)) && PolicyOf(a) == old(PolicyOf(a))
    {
      InitializeAccountLazy(account);
      var policy := if account in policies then policies[account] else DEFAULT_POLICY;
      if !policy.enabled {
        return true, 0;
      }
      cost := if operation in policy.costs then policy.costs[operation] else 0;
      if cost == 0 {
        cost := if operation in DEFAULT_COSTS then DEFAULT_COSTS[operation] else 0;
      }
      ok := Charge(account, cost);
    }

    method Charge(account: string, cost: int) returns (ok: bool)
      requires Valid() && account in buckets
      modifies this`totalOperations, this`throttledRequests, buckets[account]
      ensures BucketOf(account) == Some(Consume(old(buckets[account].Value()), cost))
      ensures ok == (old(buckets[account].tokens) >= cost)
      ensures forall a | a != account :: BucketOf(a) == old(BucketOf(a))
    {
      ok := buckets[account].TryConsume(cost);
      if ok {
        totalOperations := totalOperations + 1;
      } else {
        throttledRequests := throttledRequests + 1;
      }
    }

    method ReleaseTokens(account: string, tokens: int)
      requires Valid()
      modifies buckets.Values
      ensures BucketOf(account) ==
        match old(BucketOf(account)) case None => None case Some(b) => Some(GiveBack(b, tokens))
      ensures forall a | a != account :: BucketOf(a) == old(BucketOf(a))
    {
      if account !in buckets {
        return;
      }
      assert buckets[account] in buckets.Values;
      buckets[account].Release(tokens);
    }

    method UpdatePolicy(account: string, p: Policy)
      requires Valid()
      modifies this`policies, buckets.Values
      ensures Valid() && PolicyOf(account) == p
      ensures BucketOf(account) == match old(BucketOf(account)) case None => None case Some(b) => Some(Adopt(b, p))
      ensures account in buckets ==>
        var b := buckets[account];
        b.maxTokens == p.size && b.refillRate == p.rate
        && b.tokens == if old(buckets[account].tokens) < p.size then old(buckets[account].tokens) else p.size
      ensures forall a | a != account :: BucketOf(a) == old(BucketOf(a)) && PolicyOf(a) == old(PolicyOf(a))
    {
      policies := policies[account := p];
      if account in buckets {
        assert buckets[account] in buckets.Values;
        buckets[account].SetPolicy(p);
      }
    }

    method RemoveAccount(account: string)
      requires Valid()
      modifies this`buckets, this`policies
      ensures Valid() && BucketOf(account) == None && PolicyOf(account) == DEFAULT_POLICY
      ensures forall a | a != account :: BucketOf(a) == old(BucketOf(a)) && PolicyOf(a) == old(PolicyOf(a))
    {
      buckets := buckets - {account};
      policies := policies - {account};
    }

    /** No result stands for the panic of a division by zero. */
    method EstimateWaitTime(account: string, cost: int) returns (wait: Option<int>)
      requires Valid()
      ensures wait ==
        match BucketOf(account) case None => Some(0) case Some(b) => Estimate(b, PolicyOf(account), cost)
    {
      if account !in buckets {
        return Some(0);
      }
      var policy := if account in policies then policies[account] else DEFAULT_POLICY;
      var bucket := buckets[account];
      if bucket.tokens >= cost {
        return Some(0);
      }
      var tokensNeeded := Int64(cost - bucket.tokens);
      if policy.rate == 0 {
        return None;
      }
      var refillsNeeded := Quotient(tokensNeeded, policy.rate);
      wait := Some(Int64(refillsNeeded * MINUTE));
    }
  }
}
