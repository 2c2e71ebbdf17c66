/**
  The worker pool of taskmaster/managed.go as interleaved atomic steps. Dispatchers and workers are goroutines;
  the channel operations, the statistics updates under their lock and the atomic counter are the steps.
 */
module ManagedDispatcher {
  import opened Wrappers
  import opened Sorting
  import opened Counting

  /** Where a call of Dispatch is: TasksReceived raised; sent but not counted; found the queue full. */
  datatype DispatchPhase = Entered | Sent | FoundFull

  /** Where a worker is. `Reported` is after updateStats, before the deferred decrement of inFlight. */
  datatype WorkerPhase = Idle | Taken(id: nat) | Executing(id: nat) | Reported(id: nat) | Halted

  datatype Stats = Stats(received: int, completed: int, failed: int, tasksInFlight: int, queueDepth: int)

  /**
    `dispatches` are the calls still inside Dispatch. The rest is history: the ids ever used, the requests the
    channel accepted and handed out, the result of each finished one, and the calls that gave up or were refused.
   */
  datatype State = State(
    stats: Stats, inFlight: int, queue: seq<nat>, dispatches: map<nat, DispatchPhase>, workers: map<nat, WorkerPhase>,
    used: set<nat>, accepted: seq<nat>, started: seq<nat>, finished: map<nat, bool>, cancelled: nat, rejected: nat)

  datatype Action =
    | Enter(d: nat)
    | Send(d: nat)
    | GiveUp(d: nat)
    | FindFull(d: nat)
    | CountSent(d: nat)
    | CountFull(d: nat)
    | Receive(w: nat)
    | Begin(w: nat)
    | Report(w: nat, ok: bool)
    | Leave(w: nat)
    | Halt(w: nat)

  predicate Running(p: WorkerPhase) { p.Taken? || p.Executing? }
  predicate InFlight(p: WorkerPhase) { p.Executing? || p.Reported? }
  predicate Uncounted(p: DispatchPhase) { p.Sent? }

  function Initial(workers: set<nat>): State {
    State(Stats(0, 0, 0, 0, 0), 0, [], map[], map w | w in workers :: Idle, {}, [], [], map[], 0, 0)
  }

  predicate At(s: State, d: nat, p: DispatchPhase) {
    d in s.dispatches && s.dispatches[d] == p
  }

  /**
    One step. The select in Dispatch takes any ready case: it can send while there is room, it can see its
    context done at any time, and it finds the queue full only when there is no room.
   */
  function Next(capacity: nat, s: State, a: Action): Option<State> {
    match a
    case Enter(d) =>
      if d in s.used then None
      else Some(s.(stats := s.stats.(received := s.stats.received + 1), used := s.used + {d},
                   dispatches := s.dispatches[d := Entered]))
    case Send(d) =>
      if !At(s, d, Entered) || |s.queue| >= capacity then None
      else Some(s.(queue := s.queue + [d], accepted := s.accepted + [d], dispatches := s.dispatches[d := Sent]))
    case GiveUp(d) =>
      if !At(s, d, Entered) then None
      else Some(s.(dispatches := s.dispatches - {d}, cancelled := s.cancelled + 1))
    case FindFull(d) =>
      if !At(s, d, Entered) || |s.queue| < capacity then None
      else Some(s.(dispatches := s.dispatches[d := FoundFull]))
    case CountSent(d) =>
      if !At(s, d, Sent) then None
      else Some(s.(dispatches := s.dispatches - {d},
                   stats := s.stats.(tasksInFlight := s.stats.tasksInFlight + 1, queueDepth := |s.queue|)))
    case CountFull(d) =>
      if !At(s, d, FoundFull) then None
      else Some(s.(dispatches := s.dispatches - {d}, rejected := s.rejected + 1,
                   stats := s.stats.(failed := s.stats.failed + 1)))
    case Receive(w) =>
      if w !in s.workers || s.workers[w] != Idle || s.queue == [] then None
      else Some(s.(queue := s.queue[1..], started := s.started + [s.queue[0]],
                   workers := s.workers[w := Taken(s.queue[0])]))
    case Begin(w) =>
      if w !in s.workers || !s.workers[w].Taken? then None
      else Some(s.(inFlight := s.inFlight + 1, workers := s.workers[w := Executing(s.workers[w].id)]))
    case Report(w, ok) =>
      if w !in s.workers || !s.workers[w].Executing? then None
      else Some(s.(stats := AfterReport(s.stats, |s.queue|, ok), finished := s.finished[s.workers[w].id := ok],
                   workers := s.workers[w := Reported(s.workers[w].id)]))
    case Leave(w) =>
      if w !in s.workers || !s.workers[w].Reported? then None
      else Some(s.(inFlight := s.inFlight - 1, workers := s.workers[w := Idle]))
    case Halt(w) =>
      if w !in s.workers || s.workers[w] != Idle then None
      else Some(s.(workers := s.workers[w := Halted]))
  }

  /** updateStats, without the running average. */
  function AfterReport(stats: Stats, queueLength: nat, ok: bool): Stats {
    stats.(tasksInFlight := stats.tasksInFlight - 1, queueDepth := queueLength,
           completed := stats.completed + (if ok then 1 else 0), failed := stats.failed + (if ok then 0 else 1))
  }

  /** A request is accepted exactly while there is room, and the queue is found full exactly while there is none. */
  lemma SelectExactly(capacity: nat, s: State, d: nat)
    requires At(s, d, Entered)
    ensures Next(capacity, s, Send(d)).Some? <==> |s.queue| < capacity
    ensures Next(capacity, s, FindFull(d)).Some? <==> capacity <= |s.queue|
    ensures Next(capacity, s, GiveUp(d)).Some?
  {
  }

  /** What was sent or found full is counted, and a worker goes on, at any time; an idle one takes what is there. */
  lemma StepsExactly(capacity: nat, s: State, d: nat, w: nat, ok: bool)
    ensures Next(capacity, s, CountSent(d)).Some? <==> At(s, d, Sent)
    ensures Next(capacity, s, CountFull(d)).Some? <==> At(s, d, FoundFull)
    ensures Next(capacity, s, Receive(w)).Some? <==> w in s.workers && s.workers[w] == Idle && s.queue != []
    ensures Next(capacity, s, Begin(w)).Some? <==> w in s.workers && s.workers[w].Taken?
    ensures Next(capacity, s, Report(w, ok)).Some? <==> w in s.workers && s.workers[w].Executing?
    ensures Next(capacity, s, Leave(w)).Some? <==> w in s.workers && s.workers[w].Reported?
  {
  }

  /** The queue depth on record is that of the last statistics update. */
  lemma DepthStep(capacity: nat, s: State, a: Action)
    requires Next(capacity, s, a).Some?
    ensures Next(capacity, s, a).value.stats.queueDepth
      == if a.CountSent? || a.Report? then |s.queue| else s.stats.queueDepth
  {
  }

  // ---- The counters ----

  /** Every dispatch received is accounted for. */
  predicate ReceivedBalance(s: State) {
    s.stats.received == s.stats.completed + s.stats.failed + s.stats.tasksInFlight + s.cancelled + |s.dispatches|
  }

  /** Queued and running requests are those in TasksInFlight and those sent but not yet counted. */
  ghost predicate FlightBalance(s: State) {
    |s.queue| + Count(s.workers, Running) == s.stats.tasksInFlight + Count(s.dispatches, Uncounted)
  }

  ghost predicate InFlightCounts(s: State) {
    s.inFlight == Count(s.workers, InFlight)
  }

  predicate Bounded(capacity: nat, s: State) {
    |s.queue| <= capacity && 0 <= s.stats.queueDepth <= capacity
  }

  /** A call comes into Dispatch, or moves on inside it. */
  lemma ReceivedInside(capacity: nat, s: State, a: Action)
    requires Next(capacity, s, a).Some? && ReceivedBalance(s) && (a.Enter? ==> a.d !in s.dispatches)
    requires a.Enter? || a.Send? || a.FindFull?
    ensures ReceivedBalance(Next(capacity, s, a).value)
  {
    SizePut(s.dispatches, a.d, Next(capacity, s, a).value.dispatches[a.d]);
  }

  /** A call leaves Dispatch. */
  lemma ReceivedLeaving(capacity: nat, s: State, a: Action)
    requires Next(capacity, s, a).Some? && ReceivedBalance(s) && (a.GiveUp? || a.CountSent? || a.CountFull?)
    ensures ReceivedBalance(Next(capacity, s, a).value)
  {
    SizeDrop(s.dispatches, a.d);
  }

  lemma ReceivedStep(capacity: nat, s: State, a: Action)
    requires Next(capacity, s, a).Some? && ReceivedBalance(s) && (a.Enter? ==> a.d !in s.dispatches)
    ensures ReceivedBalance(Next(capacity, s, a).value)
  {
    if a.Enter? || a.Send? || a.FindFull? {
      ReceivedInside(capacity, s, a);
    } else if a.GiveUp? || a.CountSent? || a.CountFull? {
      ReceivedLeaving(capacity, s, a);
    }
  }

  lemma FlightStep(capacity: nat, s: State, a: Action)
    requires Next(capacity, s, a).Some? && FlightBalance(s) && (a.Enter? ==> a.d !in s.dispatches)
    ensures FlightBalance(Next(capacity, s, a).value)
  {
    match a
    case Enter(d) => CountPut(s.dispatches, d, Entered, Uncounted);
    case Send(d) => CountPut(s.dispatches, d, Sent, Uncounted);
    case GiveUp(d) => CountDrop(s.dispatches, d, Uncounted);
    case FindFull(d) => CountPut(s.dispatches, d, FoundFull, Uncounted);
    case CountSent(d) => CountDrop(s.dispatches, d, Uncounted);
    case CountFull(d) => CountDrop(s.dispatches, d, Uncounted);
    case Receive(w) => CountPut(s.workers, w, Taken(s.queue[0]), Running);
    case Begin(w) => CountPut(s.workers, w, Executing(s.workers[w].id), Running);
    case Report(w, ok) => CountPut(s.workers, w, Reported(s.workers[w].id), Running);
    case Leave(w) => CountPut(s.workers, w, Idle, Running);
    case Halt(w) => CountPut(s.workers, w, Halted, Running);
  }

  lemma InFlightStep(capacity: nat, s: State, a: Action)
    requires Next(capacity, s, a).Some? && InFlightCounts(s)
    ensures InFlightCounts(Next(capacity, s, a).value)
  {
    match a
    case Receive(w) => CountPut(s.workers, w, Taken(s.queue[0]), InFlight);
    case Begin(w) => CountPut(s.workers, w, Executing(s.workers[w].id), InFlight);
    case Report(w, ok) => CountPut(s.workers, w, Reported(s.workers[w].id), InFlight);
    case Leave(w) => CountPut(s.workers, w, Idle, InFlight);
    case Halt(w) => CountPut(s.workers, w, Halted, InFlight);
    case _ =>
  }

  // ---- The requests ----

  /** First in, first out: what was accepted is what was handed out followed by what is queued. */
  predicate Fifo(s: State) {
    s.accepted == s.started + s.queue
  }

  /** A call sends at most once. */
  ghost predicate SentOnce(s: State) {
    && Distinct(s.accepted)
    && (forall d | d in s.accepted :: d in s.used)
    && (forall d | d in s.dispatches :: d in s.used && (s.dispatches[d].Entered? ==> d !in s.accepted))
  }

  predicate Holds(s: State, w: nat, id: nat) {
    w in s.workers && Running(s.workers[w]) && s.workers[w].id == id
  }

  /** A started request runs on one worker until its one result is recorded. */
  ghost predicate RunOnce(s: State) {
    && (forall id | id in s.finished :: id in s.started)
    && (forall w | w in s.workers && Running(s.workers[w]) ::
          s.workers[w].id in s.started && s.workers[w].id !in s.finished)
    && (forall v, w | v in s.workers && w in s.workers && Running(s.workers[v]) && Running(s.workers[w]) && v != w ::
          s.workers[v].id != s.workers[w].id)
    && |s.started| == Count(s.workers, Running) + |s.finished|
  }

  predicate Ok(ok: bool) { ok }
  predicate Failed(ok: bool) { !ok }

  /** TasksFailed counts both refused dispatches and failed executions. */
  ghost predicate ResultsCount(s: State) {
    s.stats.completed == Count(s.finished, Ok) && s.stats.failed == s.rejected + Count(s.finished, Failed)
  }

  lemma FifoStep(capacity: nat, s: State, a: Action)
    requires Next(capacity, s, a).Some? && Fifo(s)
    ensures Fifo(Next(capacity, s, a).value)
  {
    if a.Receive? {
      assert s.queue == [s.queue[0]] + s.queue[1..];
    }
  }

  lemma StartedStep(capacity: nat, s: State, w: nat)
    requires Next(capacity, s, Receive(w)).Some? && RunOnce(s) && Fifo(s) && Distinct(s.accepted)
    ensures RunOnce(Next(capacity, s, Receive(w)).value)
  {
    CountPut(s.workers, w, Taken(s.queue[0]), Running);
    forall id | id in s.started ensures id != s.queue[0] {
      var i :| 0 <= i < |s.started| && s.started[i] == id;
      assert s.accepted[i] == id && s.accepted[|s.started|] == s.queue[0];
    }
  }

  lemma ReportedStep(capacity: nat, s: State, w: nat, ok: bool)
    requires Next(capacity, s, Report(w, ok)).Some? && RunOnce(s)
    ensures RunOnce(Next(capacity, s, Report(w, ok)).value)
  {
    CountPut(s.workers, w, Reported(s.workers[w].id), Running);
    SizePut(s.finished, s.workers[w].id, ok);
  }

  lemma RunOnceStep(capacity: nat, s: State, a: Action)
    requires Next(capacity, s, a).Some? && RunOnce(s) && Fifo(s) && Distinct(s.accepted)
    ensures RunOnce(Next(capacity, s, a).value)
  {
    match a
    case Receive(w) => StartedStep(capacity, s, w);
    case Report(w, ok) => ReportedStep(capacity, s, w, ok);
    case Begin(w) => CountPut(s.workers, w, Executing(s.workers[w].id), Running);
    case Leave(w) => CountPut(s.workers, w, Idle, Running);
    case Halt(w) => CountPut(s.workers, w, Halted, Running);
    case _ =>
  }

  lemma ResultsStep(capacity: nat, s: State, a: Action)
    requires Next(capacity, s, a).Some? && ResultsCount(s) && RunOnce(s)
    ensures ResultsCount(Next(capacity, s, a).value)
  {
    if a.Report? {
      CountPut(s.finished, s.workers[a.w].id, a.ok, Ok);
      CountPut(s.finished, s.workers[a.w].id, a.ok, Failed);
    }
  }

  // ---- Whole runs ----

  ghost predicate RequestsOK(s: State) {
    Fifo(s) && SentOnce(s) && RunOnce(s)
  }

  ghost predicate CountersOK(capacity: nat, s: State) {
    ReceivedBalance(s) && FlightBalance(s) && InFlightCounts(s) && Bounded(capacity, s) && ResultsCount(s)
  }

  ghost predicate Inv(capacity: nat, s: State) {
    CountersOK(capacity, s) && RequestsOK(s)
  }

  lemma StartsInv(capacity: nat, workers: set<nat>)
    ensures Inv(capacity, Initial(workers))
  {
    var s := Initial(workers);
    CountNone(s.workers, Running);
    CountNone(s.workers, InFlight);
    CountNone(s.dispatches, Uncounted);
    CountNone(s.finished, Ok);
    CountNone(s.finished, Failed);
  }

  lemma BoundedStep(capacity: nat, s: State, a: Action)
    requires Next(capacity, s, a).Some? && Bounded(capacity, s)
    ensures Bounded(capacity, Next(capacity, s, a).value)
    ensures Next(capacity, s, a).value.workers.Keys == s.workers.Keys
  {
  }

  lemma RequestsStep(capacity: nat, s: State, a: Action)
    requires Next(capacity, s, a).Some? && RequestsOK(s)
    ensures RequestsOK(Next(capacity, s, a).value)
  {
    FifoStep(capacity, s, a);
    RunOnceStep(capacity, s, a);
  }

  /** The state after the actions, when each was enabled in turn. */
  function Run(capacity: nat, s: State, actions: seq<Action>): Option<State>
    decreases |actions|
  {
    if actions == [] then Some(s)
    else match Run(capacity, s, actions[..|actions| - 1]) {
      case None => None
      case Some(t) => Next(capacity, t, actions[|actions| - 1])
    }
  }

  lemma {:induction false} RunKeepsInv(capacity: nat, workers: set<nat>, actions: seq<Action>)
    requires Run(capacity, Initial(workers), actions).Some?
    ensures Inv(capacity, Run(capacity, Initial(workers), actions).value)
    ensures Run(capacity, Initial(workers), actions).value.workers.Keys == workers
    decreases |actions|
  {
    if actions == [] {
      StartsInv(capacity, workers);
    } else {
      var before := actions[..|actions| - 1];
      RunKeepsInv(capacity, workers, before);
      var s, a := Run(capacity, Initial(workers), before).value, actions[|actions| - 1];
      ReceivedStep(capacity, s, a);
      FlightStep(capacity, s, a);
      InFlightStep(capacity, s, a);
      ResultsStep(capacity, s, a);
      RequestsStep(capacity, s, a);
      BoundedStep(capacity, s, a);
    }
  }

  /** In every interleaving the statistics balance, and the queue and the workers stay within their bounds. */
  lemma StatisticsBalance(capacity: nat, workers: set<nat>, actions: seq<Action>, s: State)
    requires Run(capacity, Initial(workers), actions) == Some(s)
    ensures s.stats.received
      == s.stats.completed + s.stats.failed + s.stats.tasksInFlight + s.cancelled + |s.dispatches|
    ensures |s.queue| + Count(s.workers, Running) == s.stats.tasksInFlight + Count(s.dispatches, Uncounted)
    ensures |s.queue| <= capacity && Count(s.workers, Running) <= |workers|
    ensures 0 <= s.inFlight <= |workers|
    ensures s.stats.completed == Count(s.finished, Ok) && s.stats.failed == s.rejected + Count(s.finished, Failed)
    ensures -|s.dispatches| <= s.stats.tasksInFlight <= capacity + |workers|
  {
    RunKeepsInv(capacity, workers, actions);
    CountAtMost(s.workers, Running);
    CountAtMost(s.workers, InFlight);
    CountAtMost(s.dispatches, Uncounted);
    assert |s.workers.Keys| == |s.workers|;
  }

  /** Requests start in the order the channel took them, each at most once, and on one worker at a time. */
  lemma StartedAtMostOnce(capacity: nat, workers: set<nat>, actions: seq<Action>, s: State)
    requires Run(capacity, Initial(workers), actions) == Some(s)
    ensures s.started <= s.accepted && Distinct(s.started)
    ensures forall v, w, id | Holds(s, v, id) && Holds(s, w, id) :: v == w && id in s.started && id !in s.finished
    ensures |s.accepted| == |s.queue| + Count(s.workers, Running) + |s.finished|
  {
    RunKeepsInv(capacity, workers, actions);
    assert s.started == s.accepted[..|s.started|];
  }

  lemma AllDone(ok: map<nat, bool>)
    ensures Count(ok, Ok) + Count(ok, Failed) == |ok|
  {
    assert Hits(ok, Ok) + Hits(ok, Failed) == ok.Keys && Hits(ok, Ok) !! Hits(ok, Failed);
    assert |ok.Keys| == |ok|;
  }

  /** When nothing is inside Dispatch, queued or running, no task is in flight and every request has its result. */
  lemma QuiescentTotals(capacity: nat, workers: set<nat>, actions: seq<Action>, s: State)
    requires Run(capacity, Initial(workers), actions) == Some(s)
    requires s.dispatches == map[] && s.queue == [] && forall w | w in s.workers :: !Running(s.workers[w])
    ensures s.stats.tasksInFlight == 0
    ensures s.stats.received == s.stats.completed + s.stats.failed + s.cancelled
    ensures s.stats.completed + s.stats.failed == |s.accepted| + s.rejected
  {
    RunKeepsInv(capacity, workers, actions);
    CountNone(s.workers, Running);
    CountNone(s.dispatches, Uncounted);
    AllDone(s.finished);
  }

  lemma RunSnoc(capacity: nat, s: State, actions: seq<Action>, a: Action)
    requires Run(capacity, s, actions).Some?
    ensures Run(capacity, s, actions + [a]) == Next(capacity, Run(capacity, s, actions).value, a)
  {
    assert (actions + [a])[..|actions|] == actions;
  }

  lemma TakenBeforeCounted() returns (actions: seq<Action>, s: State)
    ensures Run(1, Initial({0}), actions) == Some(s)
    ensures 0 in s.workers && s.workers[0] == Taken(7) && s.stats == Stats(1, 0, 0, 0, 0)
  {
    var s0 := Initial({0});
    RunSnoc(1, s0, [], Enter(7));
    RunSnoc(1, s0, [] + [Enter(7)], Send(7));
    RunSnoc(1, s0, [] + [Enter(7)] + [Send(7)], Receive(0));
    actions := [] + [Enter(7)] + [Send(7)] + [Receive(0)];
    s := Run(1, s0, actions).value;
  }

  /** A worker can report a request before its dispatcher has counted it: TasksInFlight is then negative. */
  lemma InFlightCanBeNegative() returns (actions: seq<Action>, s: State)
    ensures Run(1, Initial({0}), actions) == Some(s) && s.stats.tasksInFlight == -1 && s.stats.completed == 1
  {
    var taken, t := TakenBeforeCounted();
    RunSnoc(1, Initial({0}), taken, Begin(0));
    RunSnoc(1, Initial({0}), taken + [Begin(0)], Report(0, true));
    actions := taken + [Begin(0)] + [Report(0, true)];
    s := Run(1, Initial({0}), actions).value;
  }

  // ---- The code itself ----

  /** The ids of n goroutines. */
  ghost function FirstIDs(n: nat): (ids: set<nat>)
    ensures |ids| == n && forall w | w in ids :: w < n
  {
    if n == 0 then {} else FirstIDs(n - 1) + {n - 1}
  }

  /** Three steps in a row, with nothing in between. */
  function Chain(capacity: nat, s: State, a: Action, b: Action, c: Action): Option<State> {
    match Next(capacity, s, a)
    case None => None
    case Some(t) =>
      match Next(capacity, t, b)
      case None => None
      case Some(u) => Next(capacity, u, c)
  }

  lemma Chained(capacity: nat, s: State, a: Action, t: State, b: Action, u: State, c: Action, v: State)
    requires Next(capacity, s, a) == Some(t) && Next(capacity, t, b) == Some(u) && Next(capacity, u, c) == Some(v)
    ensures Chain(capacity, s, a, b, c) == Some(v)
  {
  }

  datatype DispatchError = NotStarted | TaskNotFound | ContextDone | QueueFull

  datatype SendOutcome = SentIt | SawDone | SawFull

  /** The dispatcher object. The ghost fields say where its goroutines are and what has happened. */
  class Dispatcher {
    const capacity: nat
    var tasks: set<string>
    var running: bool
    var taskChan: seq<nat>
    var stats: Stats
    var inFlight: int
    ghost var dispatches: map<nat, DispatchPhase>
    ghost var workers: map<nat, WorkerPhase>
    ghost var used: set<nat>
    ghost var accepted: seq<nat>
    ghost var started: seq<nat>
    ghost var finished: map<nat, bool>
    ghost var cancelled: nat
    ghost var rejected: nat

    ghost function View(): State
      reads this
    {
      State(stats, inFlight, taskChan, dispatches, workers, used, accepted, started, finished, cancelled, rejected)
    }

    /** The configured sizes, or the defaults when they are not positive; Start launches the workers. */
    constructor (tasks: set<string>, workerCount: int, queueSize: int)
      ensures this.tasks == tasks && !running
      ensures capacity == if queueSize <= 0 then 100 else queueSize
      ensures View() == Initial(FirstIDs(if workerCount <= 0 then 4 else workerCount))
    {
      this.tasks := tasks;
      running := false;
      capacity := if queueSize <= 0 then 100 else queueSize;
      taskChan, stats, inFlight := [], Stats(0, 0, 0, 0, 0), 0;
      dispatches, used, accepted, started, finished := map[], {}, [], [], map[];
      cancelled, rejected := 0, 0;
      var count := if workerCount <= 0 then 4 else workerCount;
      workers := map w | w in FirstIDs(count) :: Idle;
    }

    /** The checks and the first statistics update of Dispatch. */
    method Accept(taskID: string, ghost d: nat) returns (err: Option<DispatchError>)
      requires d !in used
      modifies this`stats, this`used, this`dispatches
      ensures err == if !running then Some(NotStarted) else if taskID !in tasks then Some(TaskNotFound) else None
      ensures err.Some? ==> View() == old(View())
      ensures err.None? ==> Next(capacity, old(View()), Enter(d)) == Some(View())
    {
      if !running {
        return Some(NotStarted);
      }
      if taskID !in tasks {
        return Some(TaskNotFound);
      }
      stats := stats.(received := stats.received + 1);
      used := used + {d};
      dispatches := dispatches[d := Entered];
      err := None;
    }

    /** The select of Dispatch: any ready case, the default one only when none is. */
    method TrySend(d: nat, ctxDone: bool) returns (outcome: SendOutcome)
      requires At(View(), d, Entered)
      modifies this`taskChan, this`accepted, this`dispatches, this`cancelled
      ensures outcome.SentIt? ==> Next(capacity, old(View()), Send(d)) == Some(View())
      ensures outcome.SawDone? ==> ctxDone && Next(capacity, old(View()), GiveUp(d)) == Some(View())
      ensures outcome.SawFull? ==> !ctxDone && Next(capacity, old(View()), FindFull(d)) == Some(View())
    {
      if {
        case |taskChan| < capacity =>
          taskChan := taskChan + [d];
          accepted := accepted + [d];
          dispatches := dispatches[d := Sent];
          outcome := SentIt;
        case ctxDone =>
          dispatches := dispatches - {d};
          cancelled := cancelled + 1;
          outcome := SawDone;
        case |taskChan| >= capacity && !ctxDone =>
          dispatches := dispatches[d := FoundFull];
          outcome := SawFull;
      }
    }

    /** The statistics update that ends Dispatch. */
    method CountOutcome(d: nat, outcome: SendOutcome)
      requires outcome.SentIt? ==> At(View(), d, Sent)
      requires outcome.SawFull? ==> At(View(), d, FoundFull)
      modifies this`stats, this`dispatches, this`rejected
      ensures outcome.SentIt? ==> Next(capacity, old(View()), CountSent(d)) == Some(View())
      ensures outcome.SawDone? ==> View() == old(View())
      ensures outcome.SawFull? ==> Next(capacity, old(View()), CountFull(d)) == Some(View())
    {
      match outcome
      case SentIt =>
        stats := stats.(tasksInFlight := stats.tasksInFlight + 1, queueDepth := |taskChan|);
        dispatches := dispatches - {d};
      case SawDone =>
      case SawFull =>
        stats := stats.(failed := stats.failed + 1);
        dispatches := dispatches - {d};
        rejected := rejected + 1;
    }

    /** Dispatch with no other goroutine in between: it queues the request exactly when it returns no error. */
    method Dispatch(taskID: string, d: nat, ctxDone: bool) returns (err: Option<DispatchError>)
      requires d !in used && d !in dispatches
      modifies this`stats, this`used, this`dispatches, this`taskChan, this`accepted, this`cancelled, this`rejected
      ensures err.None? ==> Chain(capacity, old(View()), Enter(d), Send(d), CountSent(d)) == Some(View())
      ensures err == Some(QueueFull) ==>
        Chain(capacity, old(View()), Enter(d), FindFull(d), CountFull(d)) == Some(View())
      ensures err.Some? && err.value != QueueFull ==> taskChan == old(taskChan) && accepted == old(accepted)
      ensures err == Some(NotStarted) <==> !running
      ensures err == Some(TaskNotFound) <==> running && taskID !in tasks
      ensures err == Some(QueueFull) ==> |old(taskChan)| >= capacity && !ctxDone
      ensures err == Some(ContextDone) ==> ctxDone
    {
      err := Accept(taskID, d);
      if err.Some? {
        return;
      }
      ghost var entered := View();
      var outcome := TrySend(d, ctxDone);
      ghost var tried := View();
      CountOutcome(d, outcome);
      match outcome
      case SentIt => Chained(capacity, old(View()), Enter(d), entered, Send(d), tried, CountSent(d), View());
      case SawDone => err := Some(ContextDone);
      case SawFull =>
        Chained(capacity, old(View()), Enter(d), entered, FindFull(d), tried, CountFull(d), View());
        err := Some(QueueFull);
    }

    /** A worker's receive. */
    method ReceiveTask(ghost w: nat) returns (request: nat)
      requires w in workers && workers[w] == Idle && taskChan != []
      modifies this`taskChan, this`started, this`workers
      ensures request == old(taskChan[0]) && Next(capacity, old(View()), Receive(w)) == Some(View())
    {
      request := taskChan[0];
      taskChan := taskChan[1..];
      started := started + [request];
      workers := workers[w := Taken(request)];
    }

    method UpdateStats(success: bool, ghost w: nat)
      requires w in workers && workers[w].Executing?
      modifies this`stats, this`finished, this`workers
      ensures Next(capacity, old(View()), Report(w, success)) == Some(View())
    {
      stats := stats.(tasksInFlight := stats.tasksInFlight - 1, queueDepth := |taskChan|);
      if success {
        stats := stats.(completed := stats.completed + 1);
      } else {
        stats := stats.(failed := stats.failed + 1);
      }
      finished := finished[workers[w].id := success];
      workers := workers[w := Reported(workers[w].id)];
    }

    /** The atomic counter around a task: raised before it runs, lowered when processTask returns. */
    method TrackInFlight(delta: int, ghost w: nat, ghost a: Action)
      requires w in workers
      requires if delta == 1 then a == Begin(w) && workers[w].Taken?
        else delta == -1 && a == Leave(w) && workers[w].Reported?
      modifies this`inFlight, this`workers
      ensures Next(capacity, old(View()), a) == Some(View())
    {
      inFlight := inFlight + delta;
      workers := workers[w := if a.Begin? then Executing(workers[w].id) else Idle];
    }

    /** processTask with no other goroutine in between; a task that is no longer registered counts as failed. */
    method ProcessTask(registered: bool, executes: bool, ghost w: nat)
      requires w in workers && workers[w].Taken?
      modifies this`stats, this`finished, this`workers, this`inFlight
      ensures Chain(capacity, old(View()), Begin(w), Report(w, registered && executes), Leave(w)) == Some(View())
    {
      TrackInFlight(1, w, Begin(w));
      ghost var begun := View();
      if !registered {
        UpdateStats(false, w);
      } else {
        UpdateStats(executes, w);
      }
      ghost var reported := View();
      TrackInFlight(-1, w, Leave(w));
      Chained(capacity, old(View()), Begin(w), begun, Report(w, registered && executes), reported, Leave(w), View());
    }
  }
}
