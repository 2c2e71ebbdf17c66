/**
  Recurring tasks of taskmaster/scheduler.go: the runner goroutine of each schedule against CancelSchedule.
  A critical section under a lock is one step; so is each channel operation and each call of Dispatch.
 */
module ScheduleRunner {
  import opened Wrappers

  datatype Options = Options(maxExecutions: int, endAt: Option<int>, interval: int)

  /** Where a runner is. `Counted` is between its critical section and the call of Dispatch. */
  datatype Place = InitialDelay | Selecting | Counted | Dispatching | Finished

  /**
    A schedule. `admittedAt` is when the end time was checked for the last execution, `begun` counts the dispatches
    begun; `flaggedAt` and `returnedAt` record that count when CancelSchedule cleared isActive and when it returned.
   */
  datatype Sched = Sched(
    opts: Options, place: Place, executionCount: nat, isActive: bool, stopClosed: bool,
    nextRun: int, lastRun: Option<int>, admittedAt: Option<int>, begun: nat, flaggedAt: Option<nat>,
    returnedAt: Option<nat>)

  /** `cancelling` is the name CancelSchedule is working on while it holds the scheduler's lock. */
  datatype State = State(schedules: map<string, nat>, scheds: seq<Sched>, cancelling: Option<string>, ctxDone: bool)

  const INITIAL := State(map[], [], None, false)

  /** A tick reads the clock twice: to check the end time, and for the record. */
  datatype RunnerAction = Elapse | Quit | Tick(checkedAt: int, now: int) | Begin | End

  datatype Action =
    | Create(name: string, opts: Options, now: int, startAt: Option<int>)
    | ContextDone
    | CancelFlag(name: string)
    | CancelClose
    | Runner(i: nat, act: RunnerAction)

  function NewSched(opts: Options, now: int, startAt: Option<int>): Sched {
    Sched(opts, InitialDelay, 0, true, false, if startAt.Some? then startAt.value else now, None, None, 0, None,
          None)
  }

  predicate MaxReached(s: Sched) {
    s.opts.maxExecutions > 0 && s.executionCount >= s.opts.maxExecutions
  }

  predicate PastEnd(s: Sched, now: int) {
    s.opts.endAt.Some? && now > s.opts.endAt.value
  }

  /** The critical section of one tick. */
  function AfterTick(s: Sched, checkedAt: int, now: int): Sched {
    if !s.isActive then s.(place := Finished)
    else if MaxReached(s) || PastEnd(s, checkedAt) then s.(place := Finished, isActive := false)
    else s.(place := Counted, executionCount := s.executionCount + 1, lastRun := Some(now),
            nextRun := now + s.opts.interval, admittedAt := Some(checkedAt))
  }

  /** The ticker case may be taken even when the stop channel is closed: select picks any ready case. */
  function RunnerNext(s: Sched, ctxDone: bool, act: RunnerAction): Option<Sched> {
    match act
    case Elapse => if s.place.InitialDelay? then Some(s.(place := Selecting)) else None
    case Quit =>
      if (s.place.InitialDelay? || s.place.Selecting?) && (s.stopClosed || ctxDone)
      then Some(s.(place := Finished)) else None
    case Tick(checkedAt, now) =>
      if s.place.Selecting? && checkedAt <= now then Some(AfterTick(s, checkedAt, now)) else None
    case Begin => if s.place.Counted? then Some(s.(place := Dispatching, begun := s.begun + 1)) else None
    case End => if s.place.Dispatching? then Some(s.(place := Selecting)) else None
  }

  function Flagged(s: Sched): Sched {
    s.(isActive := false, flaggedAt := Some(s.begun))
  }

  function Closed(s: Sched): Sched {
    s.(stopClosed := true, returnedAt := Some(s.begun))
  }

  function Next(s: State, a: Action): Option<State> {
    match a
    case Create(name, opts, now, startAt) =>
      if s.cancelling.Some? || opts.interval <= 0 then None
      else Some(s.(schedules := s.schedules[name := |s.scheds|], scheds := s.scheds + [NewSched(opts, now, startAt)]))
    case ContextDone => Some(s.(ctxDone := true))
    case CancelFlag(name) =>
      if s.cancelling.Some? || name !in s.schedules || s.schedules[name] >= |s.scheds| then None
      else
        var i := s.schedules[name];
        Some(s.(scheds := s.scheds[i := Flagged(s.scheds[i])], cancelling := Some(name)))
    case CancelClose =>
      if s.cancelling.None? || s.cancelling.value !in s.schedules then None
      else
        var i := s.schedules[s.cancelling.value];
        if i >= |s.scheds| then None
        else Some(s.(scheds := s.scheds[i := Closed(s.scheds[i])], cancelling := None,
                     schedules := s.schedules - {s.cancelling.value}))
    case Runner(i, act) =>
      if i >= |s.scheds| || RunnerNext(s.scheds[i], s.ctxDone, act).None? then None
      else Some(s.(scheds := s.scheds[i := RunnerNext(s.scheds[i], s.ctxDone, act).value]))
  }

  function Run(s: State, actions: seq<Action>): Option<State>
    decreases |actions|
  {
    if actions == [] then Some(s)
    else match Run(s, actions[..|actions| - 1]) {
      case None => None
      case Some(t) => Next(t, actions[|actions| - 1])
    }
  }

  // ---- One schedule ----

  function Pending(s: Sched): nat {
    if s.place.Counted? then 1 else 0
  }

  /** What holds of every schedule at every moment. */
  predicate SchedOK(s: Sched) {
    && (s.opts.maxExecutions > 0 ==> s.executionCount <= s.opts.maxExecutions)
    && s.begun + Pending(s) == s.executionCount
    && (s.flaggedAt.Some? ==> !s.isActive && s.flaggedAt.value <= s.begun <= s.flaggedAt.value + 1 - Pending(s))
    && (s.returnedAt.Some? <==> s.stopClosed)
    && (s.stopClosed ==> s.flaggedAt.Some? && s.flaggedAt.value <= s.returnedAt.value <= s.begun)
    && (s.executionCount > 0 ==> s.lastRun.Some? && s.nextRun == s.lastRun.value + s.opts.interval)
    && (s.executionCount > 0 ==> s.admittedAt.Some? && s.admittedAt.value <= s.lastRun.value)
    && (s.executionCount > 0 && s.opts.endAt.Some? ==> s.admittedAt.value <= s.opts.endAt.value)
  }

  lemma RunnerKeepsSched(s: Sched, ctxDone: bool, act: RunnerAction)
    requires SchedOK(s) && RunnerNext(s, ctxDone, act).Some?
    ensures SchedOK(RunnerNext(s, ctxDone, act).value)
    ensures RunnerNext(s, ctxDone, act).value.flaggedAt == s.flaggedAt
    ensures RunnerNext(s, ctxDone, act).value.stopClosed == s.stopClosed
  {
  }

  // ---- The scheduler ----

  /** Each registered schedule is registered once; its channel is open, and unflagged unless it is being cancelled. */
  ghost predicate RegistryOK(s: State) {
    && (forall n | n in s.schedules :: s.schedules[n] < |s.scheds|)
    && (forall m, n | m in s.schedules && n in s.schedules && m != n :: s.schedules[m] != s.schedules[n])
    && (forall n | n in s.schedules :: !s.scheds[s.schedules[n]].stopClosed)
    && (forall n | n in s.schedules && s.cancelling != Some(n) :: s.scheds[s.schedules[n]].flaggedAt.None?)
    && (s.cancelling.Some? ==> s.cancelling.value in s.schedules)
    && (s.cancelling.Some? ==> s.scheds[s.schedules[s.cancelling.value]].flaggedAt.Some?)
  }

  ghost predicate Inv(s: State) {
    RegistryOK(s) && forall i | 0 <= i < |s.scheds| :: SchedOK(s.scheds[i])
  }

  lemma SchedsStep(s: State, a: Action)
    requires Next(s, a).Some? && Inv(s)
    ensures forall i | 0 <= i < |Next(s, a).value.scheds| :: SchedOK(Next(s, a).value.scheds[i])
  {
    if a.Runner? { RunnerKeepsSched(s.scheds[a.i], s.ctxDone, a.act); }
  }

  lemma RegistryStep(s: State, a: Action)
    requires Next(s, a).Some? && RegistryOK(s) && !a.Runner?
    ensures RegistryOK(Next(s, a).value)
  {
  }

  lemma RunnerKeepsRegistry(s: State, i: nat, act: RunnerAction)
    requires Next(s, Runner(i, act)).Some? && Inv(s)
    ensures RegistryOK(Next(s, Runner(i, act)).value)
  {
    RunnerKeepsSched(s.scheds[i], s.ctxDone, act);
    var t := Next(s, Runner(i, act)).value;
    assert forall j | 0 <= j < |s.scheds| ::
        t.scheds[j].flaggedAt == s.scheds[j].flaggedAt && t.scheds[j].stopClosed == s.scheds[j].stopClosed;
  }

  lemma {:induction false} RunKeepsInv(s: State, actions: seq<Action>)
    requires Inv(s) && Run(s, actions).Some?
    ensures Inv(Run(s, actions).value)
    decreases |actions|
  {
    if actions != [] {
      RunKeepsInv(s, actions[..|actions| - 1]);
      var t, a := Run(s, actions[..|actions| - 1]).value, actions[|actions| - 1];
      SchedsStep(t, a);
      if a.Runner? {
        RunnerKeepsRegistry(t, a.i, a.act);
      } else {
        RegistryStep(t, a);
      }
    }
  }

  /** Executions stay within the limit, and the dispatches begun are the executions counted, or one fewer. */
  lemma ExecutionsBounded(actions: seq<Action>, s: State, i: nat)
    requires Run(INITIAL, actions) == Some(s) && i < |s.scheds|
    ensures s.scheds[i].opts.maxExecutions > 0 ==> s.scheds[i].executionCount <= s.scheds[i].opts.maxExecutions
    ensures s.scheds[i].begun == s.scheds[i].executionCount
      || (s.scheds[i].place.Counted? && s.scheds[i].begun == s.scheds[i].executionCount - 1)
  {
    RunKeepsInv(INITIAL, actions);
  }

  /**
    A tick of a runner that waits is counted exactly when the schedule is active, has executions left and the end time
    has not passed; else the runner is over and the schedule inactive.
   */
  lemma CountedExactly(s: Sched, ctxDone: bool, checkedAt: int, now: int)
    requires s.place.Selecting? && checkedAt <= now
    ensures RunnerNext(s, ctxDone, Tick(checkedAt, now)).Some?
    ensures var t := RunnerNext(s, ctxDone, Tick(checkedAt, now)).value;
      && (t.place.Counted? <==>
            && s.isActive && (s.opts.maxExecutions <= 0 || s.executionCount < s.opts.maxExecutions)
            && (s.opts.endAt.None? || checkedAt <= s.opts.endAt.value))
      && (t.place.Counted? ==>
            t.executionCount == s.executionCount + 1 && t.lastRun == Some(now) && t.nextRun == now + s.opts.interval)
      && (!t.place.Counted? ==> t.place.Finished? && !t.isActive && t.executionCount == s.executionCount)
  {
  }

  /** A runner whose delay is over waits, one that was counted dispatches, and one that has dispatched waits again. */
  lemma GoesOn(s: Sched, ctxDone: bool)
    ensures RunnerNext(s, ctxDone, Elapse) == if s.place.InitialDelay? then Some(s.(place := Selecting)) else None
    ensures RunnerNext(s, ctxDone, Begin).Some? <==> s.place.Counted?
    ensures RunnerNext(s, ctxDone, End) == if s.place.Dispatching? then Some(s.(place := Selecting)) else None
  {
  }

  /** A runner that waits can leave exactly when the stop channel is closed or the context is done. */
  lemma QuitsExactly(s: Sched, ctxDone: bool)
    ensures RunnerNext(s, ctxDone, Quit).Some? <==>
      (s.place.InitialDelay? || s.place.Selecting?) && (s.stopClosed || ctxDone)
    ensures RunnerNext(s, ctxDone, Quit).Some? ==> RunnerNext(s, ctxDone, Quit).value.place.Finished?
  {
  }

  /** Every schedule hears of the context. */
  lemma ContextEndsAll(s: State, i: nat)
    requires i < |s.scheds| && (s.scheds[i].place.InitialDelay? || s.scheds[i].place.Selecting?)
    ensures Next(s, ContextDone).Some? && Next(Next(s, ContextDone).value, Runner(i, Quit)).Some?
  {
  }

  /** A schedule is created exactly with a positive interval: active, not yet run, and due when it is to start. */
  lemma CreatedExactly(s: State, name: string, opts: Options, now: int, startAt: Option<int>)
    requires s.cancelling.None?
    ensures Next(s, Create(name, opts, now, startAt)).Some? <==> opts.interval > 0
    ensures opts.interval > 0 ==>
      var t := Next(s, Create(name, opts, now, startAt)).value;
      && |t.scheds| == |s.scheds| + 1 && t.schedules == s.schedules[name := |s.scheds|]
      && var n := t.scheds[|s.scheds|];
         n.opts == opts && n.isActive && n.executionCount == 0 && n.lastRun == None && n.place.InitialDelay? &&
         n.nextRun == if startAt.Some? then startAt.value else now
  {
  }

  /** In every run the end time had not passed when the last execution was admitted. */
  lemma AdmittedByEnd(actions: seq<Action>, s: State, i: nat)
    requires Run(INITIAL, actions) == Some(s) && i < |s.scheds| && s.scheds[i].executionCount > 0
    ensures s.scheds[i].admittedAt.Some? && s.scheds[i].lastRun.Some?
    ensures s.scheds[i].admittedAt.value <= s.scheds[i].lastRun.value
    ensures s.scheds[i].opts.endAt.Some? ==> s.scheds[i].admittedAt.value <= s.scheds[i].opts.endAt.value
  {
    RunKeepsInv(INITIAL, actions);
  }

  /** No time passes between the two readings of a tick. */
  predicate OneReading(a: Action) {
    a.Runner? && a.act.Tick? ==> a.act.checkedAt == a.act.now
  }

  lemma {:induction false} ReadAtOnce(actions: seq<Action>, i: nat)
    requires Run(INITIAL, actions).Some? && forall k | 0 <= k < |actions| :: OneReading(actions[k])
    requires i < |Run(INITIAL, actions).value.scheds|
    ensures Run(INITIAL, actions).value.scheds[i].lastRun == Run(INITIAL, actions).value.scheds[i].admittedAt
    decreases |actions|
  {
    if actions != [] {
      var before := actions[..|actions| - 1];
      if i < |Run(INITIAL, before).value.scheds| { ReadAtOnce(before, i); }
      assert OneReading(actions[|actions| - 1]);
    }
  }

  /** Then no recorded execution is past the end time. */
  lemma LastRunByEnd(actions: seq<Action>, s: State, i: nat)
    requires Run(INITIAL, actions) == Some(s) && forall k | 0 <= k < |actions| :: OneReading(actions[k])
    requires i < |s.scheds| && s.scheds[i].executionCount > 0 && s.scheds[i].opts.endAt.Some?
    ensures s.scheds[i].lastRun.Some? && s.scheds[i].lastRun.value <= s.scheds[i].opts.endAt.value
  {
    AdmittedByEnd(actions, s, i);
    ReadAtOnce(actions, i);
  }

  /** Without that it can be: the clock is read again for the record. */
  lemma LastRunCanPassEnd() returns (actions: seq<Action>, s: State)
    ensures Run(INITIAL, actions) == Some(s) && |s.scheds| == 1
    ensures s.scheds[0].opts.endAt == Some(10) && s.scheds[0].lastRun == Some(11)
  {
    RunSnoc(INITIAL, [], Create("a", Options(0, Some(10), 1), 0, None));
    RunSnoc(INITIAL, [] + [Create("a", Options(0, Some(10), 1), 0, None)], Runner(0, Elapse));
    actions := [] + [Create("a", Options(0, Some(10), 1), 0, None)] + [Runner(0, Elapse)];
    RunSnoc(INITIAL, actions, Runner(0, Tick(10, 11)));
    actions := actions + [Runner(0, Tick(10, 11))];
    s := Run(INITIAL, actions).value;
  }

  lemma RunSnoc(s: State, actions: seq<Action>, a: Action)
    requires Run(s, actions).Some?
    ensures Run(s, actions + [a]) == Next(Run(s, actions).value, a)
  {
    assert (actions + [a])[..|actions|] == actions;
  }

  /** Schedule i was cancelled, `begun` dispatches having begun when CancelSchedule returned. */
  predicate CancelReturned(s: State, i: nat, begun: nat) {
    i < |s.scheds| && s.scheds[i].returnedAt == Some(begun)
  }

  lemma CancelledStays(s: State, a: Action, i: nat, begun: nat)
    requires Inv(s) && Next(s, a).Some? && CancelReturned(s, i, begun)
    ensures CancelReturned(Next(s, a).value, i, begun)
  {
  }

  /** Once CancelSchedule has returned, at most one more dispatch ever begins, whichever ready case select takes. */
  lemma {:induction false} AtMostOneAfterCancel(before: seq<Action>, s: State, after: seq<Action>, i: nat, begun: nat)
    requires Run(INITIAL, before) == Some(s) && CancelReturned(s, i, begun)
    requires Run(s, after).Some?
    ensures CancelReturned(Run(s, after).value, i, begun)
    ensures begun <= Run(s, after).value.scheds[i].begun <= begun + 1
    decreases |after|
  {
    RunKeepsInv(INITIAL, before);
    RunKeepsInv(s, after);
    if after != [] {
      var init := after[..|after| - 1];
      AtMostOneAfterCancel(before, s, init, i, begun);
      RunKeepsInv(s, init);
      CancelledStays(Run(s, init).value, after[|after| - 1], i, begun);
    }
  }

  /** The stop channel of a schedule is open when CancelSchedule closes it, so it is closed at most once. */
  lemma ClosedAtMostOnce(before: seq<Action>, s: State)
    requires Run(INITIAL, before) == Some(s) && Next(s, CancelClose).Some?
    ensures !s.scheds[s.schedules[s.cancelling.value]].stopClosed
  {
    RunKeepsInv(INITIAL, before);
  }

  predicate Registered(s: State, i: nat) {
    i in s.schedules.Values
  }

  lemma OrphanStep(s: State, a: Action, i: nat)
    requires Inv(s) && Next(s, a).Some? && i < |s.scheds| && !Registered(s, i)
    ensures i < |Next(s, a).value.scheds| && !Registered(Next(s, a).value, i)
    ensures Next(s, a).value.scheds[i].flaggedAt == s.scheds[i].flaggedAt
    ensures Next(s, a).value.scheds[i].stopClosed == s.scheds[i].stopClosed
  {
    if a.Runner? && a.i == i { RunnerKeepsSched(s.scheds[i], s.ctxDone, a.act); }
  }

  /**
    A schedule whose name a later ScheduleTask took over is out of the map, and no cancellation reaches it any
    more: its runner keeps going until a limit or the context stops it.
   */
  lemma {:induction false} OrphanIsNeverCancelled(s: State, actions: seq<Action>, i: nat)
    requires Inv(s) && Run(s, actions).Some? && i < |s.scheds| && !Registered(s, i)
    ensures i < |Run(s, actions).value.scheds| && !Registered(Run(s, actions).value, i)
    ensures Run(s, actions).value.scheds[i].flaggedAt == s.scheds[i].flaggedAt
    ensures Run(s, actions).value.scheds[i].stopClosed == s.scheds[i].stopClosed
    decreases |actions|
  {
    if actions != [] {
      var init := actions[..|actions| - 1];
      OrphanIsNeverCancelled(s, init, i);
      RunKeepsInv(s, init);
      OrphanStep(Run(s, init).value, actions[|actions| - 1], i);
    }
  }

  /** The run ends with the stop channel of schedule i closed. */
  predicate Closes(s: State, actions: seq<Action>, i: nat) {
    Run(s, actions).Some? && i < |Run(s, actions).value.scheds| && Run(s, actions).value.scheds[i].stopClosed
  }

  lemma CancelSteps(t: State, name: string)
    requires t.cancelling.None? && name in t.schedules && t.schedules[name] < |t.scheds|
    ensures Next(t, CancelFlag(name)).Some? && Next(Next(t, CancelFlag(name)).value, CancelClose).Some?
    ensures var u := Next(Next(t, CancelFlag(name)).value, CancelClose).value; var i := t.schedules[name];
            i < |u.scheds| && u.scheds[i].stopClosed
  {
  }

  /** With no cancellation under way, cancelling a name closes its schedule. */
  lemma CancelCloses(s: State, actions: seq<Action>, t: State, name: string)
    requires Run(s, actions) == Some(t)
    requires t.cancelling.None? && name in t.schedules && t.schedules[name] < |t.scheds|
    ensures Closes(s, actions + [CancelFlag(name)] + [CancelClose], t.schedules[name])
  {
    CancelSteps(t, name);
    RunSnoc(s, actions, CancelFlag(name));
    RunSnoc(s, actions + [CancelFlag(name)], CancelClose);
  }

  /** One that is under way can always finish first. */
  lemma SomeRunCloses(s: State, name: string) returns (actions: seq<Action>)
    requires Inv(s) && name in s.schedules
    ensures Closes(s, actions, s.schedules[name])
  {
    if s.cancelling.None? {
      CancelCloses(s, [], s, name);
      actions := [] + [CancelFlag(name)] + [CancelClose];
    } else {
      RunSnoc(s, [], CancelClose);
      var t := Next(s, CancelClose).value;
      RegistryStep(s, CancelClose);
      if s.cancelling.value == name {
        actions := [] + [CancelClose];
      } else {
        CancelCloses(s, [] + [CancelClose], t, name);
        actions := [] + [CancelClose] + [CancelFlag(name)] + [CancelClose];
      }
    }
  }

  /** An open channel can still be closed by some continuation if and only if its schedule is registered. */
  lemma CancellableExactly(before: seq<Action>, s: State, i: nat)
    requires Run(INITIAL, before) == Some(s) && i < |s.scheds| && !s.scheds[i].stopClosed
    ensures (exists actions :: Closes(s, actions, i)) <==> Registered(s, i)
  {
    RunKeepsInv(INITIAL, before);
    if Registered(s, i) {
      var name :| name in s.schedules && s.schedules[name] == i;
      var actions := SomeRunCloses(s, name);
    } else {
      forall actions | Run(s, actions).Some? ensures !Closes(s, actions, i) {
        OrphanIsNeverCancelled(s, actions, i);
      }
    }
  }

  /** Taking over a name orphans the schedule that had it. */
  lemma NameTakenOver(s: State, name: string, opts: Options, now: int, startAt: Option<int>)
    requires Inv(s) && name in s.schedules && Next(s, Create(name, opts, now, startAt)).Some?
    ensures !Registered(Next(s, Create(name, opts, now, startAt)).value, s.schedules[name])
  {
    var t := Next(s, Create(name, opts, now, startAt)).value;
    forall n | n in t.schedules ensures t.schedules[n] != s.schedules[name] {
      if n != name { assert n in s.schedules; }
    }
  }

  lemma CountedBeforeCancel() returns (actions: seq<Action>, s: State)
    ensures Run(INITIAL, actions) == Some(s) && |s.scheds| == 1 && !s.ctxDone
    ensures s.schedules == map["a" := 0] && s.cancelling == None
    ensures s.scheds[0].place == Counted && s.scheds[0].begun == 0
  {
    RunSnoc(INITIAL, [], Create("a", Options(0, None, 1), 0, None));
    RunSnoc(INITIAL, [] + [Create("a", Options(0, None, 1), 0, None)], Runner(0, Elapse));
    RunSnoc(INITIAL, [] + [Create("a", Options(0, None, 1), 0, None)] + [Runner(0, Elapse)], Runner(0, Tick(1, 1)));
    actions := [] + [Create("a", Options(0, None, 1), 0, None)] + [Runner(0, Elapse)] + [Runner(0, Tick(1, 1))];
    s := Run(INITIAL, actions).value;
  }

  /** The bound is tight: a runner past its critical section still dispatches after CancelSchedule has returned. */
  lemma OneCanBeginAfterCancel() returns (before: seq<Action>, s: State, t: State)
    ensures Run(INITIAL, before) == Some(s) && CancelReturned(s, 0, 0)
    ensures Next(s, Runner(0, Begin)) == Some(t) && t.scheds[0].begun == 1
  {
    var counted, c := CountedBeforeCancel();
    RunSnoc(INITIAL, counted, CancelFlag("a"));
    RunSnoc(INITIAL, counted + [CancelFlag("a")], CancelClose);
    before := counted + [CancelFlag("a")] + [CancelClose];
    s := Run(INITIAL, before).value;
    t := Next(s, Runner(0, Begin)).value;
  }

  // ---- The code itself ----

  class Schedule {
    const opts: Options
    var executionCount: nat
    var isActive: bool
    var stopClosed: bool
    var nextRun: int
    var lastRun: Option<int>
    ghost var place: Place
    ghost var admittedAt: Option<int>
    ghost var begun: nat
    ghost var flaggedAt: Option<nat>
    ghost var returnedAt: Option<nat>

    ghost function View(): Sched
      reads this
    {
      Sched(opts, place, executionCount, isActive, stopClosed, nextRun, lastRun, admittedAt, begun, flaggedAt,
            returnedAt)
    }

    constructor (opts: Options, now: int, startAt: Option<int>)
      ensures View() == NewSched(opts, now, startAt)
    {
      this.opts := opts;
      executionCount, isActive, stopClosed, lastRun := 0, true, false, None;
      nextRun := now;
      place, admittedAt, begun, flaggedAt, returnedAt := InitialDelay, None, 0, None, None;
      if startAt.Some? {
        nextRun := startAt.value;
      }
    }

    /** The ticker case of runSchedule, up to the release of the lock. */
    method OnTick(checkedAt: int, now: int) returns (dispatch: bool)
      requires place.Selecting? && checkedAt <= now
      modifies this
      ensures View() == AfterTick(old(View()), checkedAt, now)
      ensures dispatch <==>
        && old(isActive) && (opts.maxExecutions <= 0 || old(executionCount) < opts.maxExecutions)
        && (opts.endAt.None? || checkedAt <= opts.endAt.value)
      ensures dispatch <==> place.Counted?
    {
      if !isActive {
        place := Finished;
        return false;
      }
      if opts.maxExecutions > 0 && executionCount >= opts.maxExecutions {
        isActive := false;
        place := Finished;
        return false;
      }
      if opts.endAt.Some? && checkedAt > opts.endAt.value {
        isActive := false;
        place := Finished;
        return false;
      }
      executionCount := executionCount + 1;
      lastRun := Some(now);
      admittedAt := Some(checkedAt);
      nextRun := now + opts.interval;
      place := Counted;
      dispatch := true;
    }

    method ClearActive()
      modifies this
      ensures View() == Flagged(old(View()))
    {
      isActive := false;
      flaggedAt := Some(begun);
    }

    method CloseStop()
      requires !stopClosed
      modifies this
      ensures View() == Closed(old(View()))
    {
      stopClosed := true;
      returnedAt := Some(begun);
    }
  }

  datatype ScheduleError = NotRunning | BadInterval | NotFound

  class TaskScheduler {
    var schedules: map<string, Schedule>

    /** Every registered schedule can be stopped, and no two names share one. */
    ghost predicate Valid()
      reads this, schedules.Values
    {
      && (forall n | n in schedules :: !schedules[n].stopClosed)
      && (forall m, n | m in schedules && n in schedules && m != n :: schedules[m] != schedules[n])
    }

    constructor ()
      ensures Valid() && schedules == map[]
    {
      schedules := map[];
    }

    /** ScheduleTask registers a new schedule under its name, replacing any other; Start is part of the runner. */
    method ScheduleTask(dispatcherRunning: bool, name: string, opts: Options, now: int, startAt: Option<int>)
      returns (err: Option<ScheduleError>)
      requires Valid()
      modifies this
      ensures Valid()
      ensures err == if !dispatcherRunning then Some(NotRunning) else if opts.interval <= 0 then Some(BadInterval)
                     else None
      ensures err.Some? ==> schedules == old(schedules)
      ensures err.None? ==> name in schedules && fresh(schedules[name])
      ensures err.None? ==> schedules == old(schedules)[name := schedules[name]]
      ensures err.None? ==> schedules[name].View() == NewSched(opts, now, startAt)
      ensures err.None? ==>
        schedules[name].isActive && schedules[name].executionCount == 0 && schedules[name].lastRun == None
      ensures err.None? ==> schedules[name].nextRun == if startAt.Some? then startAt.value else now
    {
      if !dispatcherRunning {
        return Some(NotRunning);
      }
      if opts.interval <= 0 {
        return Some(BadInterval);
      }
      var sched := new Schedule(opts, now, startAt);
      schedules := schedules[name := sched];
      err := None;
    }

    /** CancelSchedule fails exactly on a name that is not registered; a second call fails. */
    method CancelSchedule(name: string) returns (err: Option<ScheduleError>)
      requires Valid()
      modifies this, schedules.Values
      ensures Valid()
      ensures err == if name in old(schedules) then None else Some(NotFound)
      ensures schedules == old(schedules) - {name}
      ensures err.None? ==> old(schedules)[name].View() == Closed(Flagged(old(schedules[name].View())))
      ensures forall n | n in schedules :: schedules[n].View() == old(schedules[n].View())
    {
      if name !in schedules {
        assert schedules - {name} == schedules;
        return Some(NotFound);
      }
      var sched := schedules[name];
      assert sched in schedules.Values;
      sched.ClearActive();
      sched.CloseStop();
      schedules := schedules - {name};
      err := None;
    }
  }
}
