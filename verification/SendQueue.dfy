/**
  The send queue of send_service.go: bounded retry with backoff. What an operation does to the queue it does under
  the queue's lock, so each is one step; the time asked for is checked before that. Times are in nanoseconds.
 */
module SendQueue {
  import opened Wrappers
  import opened Sorting

  const MAX_RETRIES: nat := 3
  const MINUTE := 60_000_000_000

  datatype Status = StatusScheduled | StatusPending | StatusSent | StatusFailed

  /** One call of sendQueuedEmail: when it began and ended, and whether it succeeded. */
  datatype Attempt = Attempt(began: int, ended: int, ok: bool)

  /** `dueAt`, the time asked for or of submission, and `attempts` are history. */
  datatype Email = Email(retryCount: nat, maxRetries: nat, status: Status, scheduledAt: Option<int>,
                         dueAt: int, attempts: seq<Attempt>)

  /** Every email ever submitted, by queue ID; the two queues; and, as history, what was cancelled and the clock. */
  datatype State = State(emails: map<string, Email>, pending: seq<string>, scheduled: set<string>,
                         cancelled: set<string>, clock: int)

  const INITIAL := State(map[], [], {}, {}, 0)

  datatype Action =
    | Schedule(id: string, at: int, checkedAt: int, now: int)
    | Queue(id: string, now: int)
    | Cancel(id: string)
    | ProcessScheduled(order: seq<string>, now: int)
    | ProcessPending(began: int, ended: int, ok: bool)

  /** The scheduled emails whose time has come. */
  predicate IsDue(s: State, id: string, now: int) {
    id in s.scheduled && id in s.emails &&
    s.emails[id].scheduledAt.Some? && s.emails[id].scheduledAt.value <= now
  }

  /** The order in which a range over the scheduled map meets the due emails: any order. */
  ghost predicate RangeOrder(s: State, order: seq<string>, now: int) {
    Distinct(order) && forall id :: id in order <==> IsDue(s, id, now)
  }

  /** What one attempt does to an email: sent, queued again with backoff, or failed for good. */
  function AfterAttempt(e: Email, began: int, ended: int, ok: bool): Email {
    var tried := e.(attempts := e.attempts + [Attempt(began, ended, ok)]);
    if ok then tried.(status := StatusSent)
    else if e.retryCount + 1 < e.maxRetries then
      tried.(retryCount := e.retryCount + 1, scheduledAt := Some(ended + (e.retryCount + 1) * MINUTE))
    else tried.(retryCount := e.retryCount + 1, status := StatusFailed)
  }

  predicate GoesBack(e: Email, ok: bool) {
    !ok && e.retryCount + 1 < e.maxRetries
  }

  ghost function Next(s: State, a: Action): Option<State> {
    match a
    case Schedule(id, at, checkedAt, now) =>
      if now < s.clock || now < checkedAt || at < checkedAt || id in s.emails then None
      else Some(s.(emails := s.emails[id := Email(0, MAX_RETRIES, StatusScheduled, Some(at), at, [])],
                   scheduled := s.scheduled + {id}, clock := now))
    case Queue(id, now) =>
      if now < s.clock || id in s.emails then None
      else Some(s.(emails := s.emails[id := Email(0, MAX_RETRIES, StatusPending, None, now, [])],
                   pending := s.pending + [id], clock := now))
    case Cancel(id) =>
      if id in s.scheduled then Some(s.(scheduled := s.scheduled - {id}, cancelled := s.cancelled + {id}))
      else if id in s.pending then Some(s.(pending := Without(s.pending, id), cancelled := s.cancelled + {id}))
      else None
    case ProcessScheduled(order, now) =>
      if now < s.clock || !RangeOrder(s, order, now) then None
      else Some(s.(scheduled := s.scheduled - (set id | id in order), pending := s.pending + order, clock := now))
    case ProcessPending(began, ended, ok) =>
      if !(s.clock <= began <= ended) || s.pending == [] || s.pending[0] !in s.emails then None
      else
        Some(AfterPending(s, s.pending[0], began, ended, ok))
  }

  function AfterPending(s: State, id: string, began: int, ended: int, ok: bool): State
    requires s.pending != [] && id in s.emails
  {
    var e := s.emails[id];
    State(s.emails[id := AfterAttempt(e, began, ended, ok)], s.pending[1..],
          if GoesBack(e, ok) then s.scheduled + {id} else s.scheduled, s.cancelled, ended)
  }

  ghost function Run(s: State, actions: seq<Action>): Option<State>
    decreases |actions|
  {
    if actions == [] then Some(s)
    else match Run(s, actions[..|actions| - 1]) {
      case None => None
      case Some(t) => Next(t, actions[|actions| - 1])
    }
  }

  // ---- Where an email is ----

  datatype Where = Pending | Scheduled | Sent | Failed | Cancelled

  predicate IsIn(s: State, id: string, w: Where)
    requires id in s.emails
  {
    match w
    case Pending => id in s.pending
    case Scheduled => id in s.scheduled
    case Sent => s.emails[id].status == StatusSent
    case Failed => s.emails[id].status == StatusFailed
    case Cancelled => id in s.cancelled
  }

  predicate Queued(s: State, id: string) {
    id in s.pending || id in s.scheduled
  }

  predicate Over(e: Email) {
    e.status == StatusSent || e.status == StatusFailed
  }

  /** Each submitted email is in exactly one place. */
  ghost predicate PlacesOK(s: State) {
    && Distinct(s.pending)
    && (forall id | id in s.pending :: id in s.emails && id !in s.scheduled && id !in s.cancelled)
    && (forall id | id in s.scheduled :: id in s.emails && id !in s.cancelled)
    && (forall id | id in s.cancelled :: id in s.emails && !Over(s.emails[id]))
    && (forall id | id in s.emails :: Over(s.emails[id]) <==> !Queued(s, id) && id !in s.cancelled)
  }

  // ---- What is known of one email ----

  /** Attempt k + 1 begins no sooner than k minutes after failure k. */
  ghost predicate Spaced(attempts: seq<Attempt>) {
    && (forall k | 0 <= k < |attempts| :: attempts[k].began <= attempts[k].ended)
    && (forall k | 0 <= k < |attempts| - 1 :: !attempts[k].ok)
    && (forall k | 1 <= k < |attempts| :: attempts[k].began >= attempts[k - 1].ended + k * MINUTE)
  }

  /** The earliest moment of the next attempt: the time asked for, or the backoff after the last failure. */
  function NotBefore(e: Email): int {
    if e.attempts == [] then e.dueAt else e.attempts[|e.attempts| - 1].ended + |e.attempts| * MINUTE
  }

  /** The attempts made are the failures counted, and one more when it was sent. */
  ghost predicate EmailOK(e: Email) {
    && e.maxRetries == MAX_RETRIES && Spaced(e.attempts)
    && (e.attempts != [] ==> e.attempts[0].began >= e.dueAt)
    && (e.status == StatusSent <==> e.attempts != [] && e.attempts[|e.attempts| - 1].ok)
    && |e.attempts| == e.retryCount + (if e.status == StatusSent then 1 else 0)
    && (e.status == StatusFailed <==> e.retryCount >= e.maxRetries)
    && e.retryCount <= e.maxRetries
  }

  /** A waiting email becomes due exactly at its earliest moment; one that is pending is past it. */
  ghost predicate WaitOK(s: State, id: string)
    requires id in s.emails
  {
    && (id in s.scheduled ==> s.emails[id].scheduledAt == Some(NotBefore(s.emails[id])))
    && (id in s.pending ==> s.clock >= NotBefore(s.emails[id]))
  }

  ghost predicate Good(s: State, id: string)
    requires id in s.emails
  {
    EmailOK(s.emails[id]) && WaitOK(s, id)
  }

  ghost predicate EmailsOK(s: State) {
    forall id | id in s.emails :: Good(s, id)
  }

  ghost predicate Inv(s: State) {
    PlacesOK(s) && EmailsOK(s)
  }

  // ---- The steps ----

  lemma ReleasePlaces(s: State, order: seq<string>, now: int)
    requires PlacesOK(s) && Next(s, ProcessScheduled(order, now)).Some?
    ensures PlacesOK(Next(s, ProcessScheduled(order, now)).value)
  {
    var t := Next(s, ProcessScheduled(order, now)).value;
    forall id ensures id in t.pending <==> id in s.pending || IsDue(s, id, now) {
      assert id in t.pending <==> id in s.pending || id in order;
    }
    DistinctConcat(s.pending, order);
  }

  lemma AttemptPlaces(s: State, began: int, ended: int, ok: bool)
    requires PlacesOK(s) && EmailsOK(s) && Next(s, ProcessPending(began, ended, ok)).Some?
    ensures PlacesOK(Next(s, ProcessPending(began, ended, ok)).value)
  {
    var rest := s.pending[1..];
    assert forall x :: x in s.pending <==> x == s.pending[0] || x in rest;
    assert s.pending[0] !in rest;
  }

  /** One attempt on an email keeps its record in order, and its backoff is what was scheduled. */
  lemma AttemptEmail(e: Email, began: int, ended: int, ok: bool)
    requires EmailOK(e) && !Over(e) && NotBefore(e) <= began <= ended
    ensures EmailOK(AfterAttempt(e, began, ended, ok))
    ensures GoesBack(e, ok) ==>
      AfterAttempt(e, began, ended, ok).scheduledAt == Some(NotBefore(AfterAttempt(e, began, ended, ok)))
  {
    var t := AfterAttempt(e, began, ended, ok);
    assert |e.attempts| == e.retryCount;
    assert forall k | 0 <= k < |e.attempts| :: t.attempts[k] == e.attempts[k];
  }

  lemma Untouched(s: State, t: State, id: string)
    requires id in s.emails && id in t.emails && Good(s, id) && t.emails[id] == s.emails[id] && t.clock >= s.clock
    requires (id in t.pending ==> id in s.pending) && (id in t.scheduled ==> id in s.scheduled)
    ensures Good(t, id)
  {
  }

  lemma AttemptEmails(s: State, began: int, ended: int, ok: bool)
    requires Inv(s) && Next(s, ProcessPending(began, ended, ok)).Some?
    ensures EmailsOK(Next(s, ProcessPending(began, ended, ok)).value)
  {
    var t, first := Next(s, ProcessPending(began, ended, ok)).value, s.pending[0];
    assert first in s.pending && first !in s.pending[1..];
    assert Good(s, first);
    forall id | id in t.emails ensures Good(t, id) {
      if id == first {
        AttemptEmail(s.emails[first], began, ended, ok);
      } else {
        assert id in s.pending[1..] ==> id in s.pending;
        Untouched(s, t, id);
      }
    }
  }

  lemma SubmitStep(s: State, a: Action)
    requires Inv(s) && Next(s, a).Some? && (a.Schedule? || a.Queue?)
    ensures Inv(Next(s, a).value)
  {
    var t := Next(s, a).value;
    forall id | id in t.emails ensures Good(t, id) {
      if id != a.id { Untouched(s, t, id); }
    }
  }

  lemma CancelStep(s: State, id: string)
    requires Inv(s) && Next(s, Cancel(id)).Some?
    ensures Inv(Next(s, Cancel(id)).value)
  {
    WithoutMembers(s.pending, id);
    forall x | x in s.emails ensures Good(Next(s, Cancel(id)).value, x) {
      Untouched(s, Next(s, Cancel(id)).value, x);
    }
  }

  lemma ReleaseEmails(s: State, order: seq<string>, now: int)
    requires Inv(s) && Next(s, ProcessScheduled(order, now)).Some?
    ensures EmailsOK(Next(s, ProcessScheduled(order, now)).value)
  {
    var t := Next(s, ProcessScheduled(order, now)).value;
    forall id | id in t.emails ensures Good(t, id) {
      assert Good(s, id);
      assert id in t.pending <==> id in s.pending || id in order;
      assert id in order <==> IsDue(s, id, now);
    }
  }

  lemma StepKeepsInv(s: State, a: Action)
    requires Inv(s) && Next(s, a).Some?
    ensures Inv(Next(s, a).value)
  {
    match a
    case Schedule(_, _, _, _) => SubmitStep(s, a);
    case Queue(_, _) => SubmitStep(s, a);
    case Cancel(id) => CancelStep(s, id);
    case ProcessScheduled(order, now) => ReleasePlaces(s, order, now); ReleaseEmails(s, order, now);
    case ProcessPending(began, ended, ok) =>
      AttemptPlaces(s, began, ended, ok);
      AttemptEmails(s, began, ended, ok);
  }

  lemma {:induction false} RunKeepsInv(s: State, actions: seq<Action>)
    requires Inv(s) && Run(s, actions).Some?
    ensures Inv(Run(s, actions).value)
    decreases |actions|
  {
    if actions != [] {
      RunKeepsInv(s, actions[..|actions| - 1]);
      StepKeepsInv(Run(s, actions[..|actions| - 1]).value, actions[|actions| - 1]);
    }
  }

  // ---- Main results ----

  /** In every run each submitted email is in exactly one of the five places. */
  lemma ExactlyOnePlace(actions: seq<Action>, s: State, id: string)
    requires Run(INITIAL, actions) == Some(s) && id in s.emails
    ensures exists w :: IsIn(s, id, w) && forall v | IsIn(s, id, v) :: v == w
  {
    RunKeepsInv(INITIAL, actions);
    assert Good(s, id);
    var w := if id in s.pending then Pending else if id in s.scheduled then Scheduled
             else if id in s.cancelled then Cancelled else if s.emails[id].status == StatusSent then Sent else Failed;
    assert IsIn(s, id, w);
    forall v | IsIn(s, id, v) ensures v == w {
      match v {
        case Pending =>
        case Scheduled =>
        case Sent => assert Over(s.emails[id]);
        case Failed => assert Over(s.emails[id]);
        case Cancelled =>
      }
    }
  }

  /**
    Retry is bounded and spaced: at most three attempts, none after one that succeeded, none before the time
    asked for, attempt k + 1 at least k minutes after failure k; a queued email has retries left.
   */
  lemma RetryIsBounded(actions: seq<Action>, s: State, id: string)
    requires Run(INITIAL, actions) == Some(s) && id in s.emails
    ensures |s.emails[id].attempts| <= 3 && Spaced(s.emails[id].attempts)
    ensures forall k | 1 <= k < |s.emails[id].attempts| ::
        s.emails[id].attempts[k].began >= s.emails[id].attempts[k - 1].ended + k * 60_000_000_000
    ensures s.emails[id].attempts != [] ==> s.emails[id].attempts[0].began >= s.emails[id].dueAt
    ensures Queued(s, id) ==> s.emails[id].retryCount < s.emails[id].maxRetries
    ensures Queued(s, id) ==> forall k | 0 <= k < |s.emails[id].attempts| :: !s.emails[id].attempts[k].ok
    ensures IsIn(s, id, Failed) ==> |s.emails[id].attempts| == 3
  {
    RunKeepsInv(INITIAL, actions);
    assert Good(s, id);
  }

  /** What is sent, failed or cancelled stays so, and is not attempted again. */
  lemma FinishedStep(s: State, a: Action, id: string)
    requires Inv(s) && Next(s, a).Some? && id in s.emails && !Queued(s, id)
    ensures id in Next(s, a).value.emails && !Queued(Next(s, a).value, id)
    ensures Next(s, a).value.emails[id] == s.emails[id]
  {
    match a
    case Cancel(x) => WithoutMembers(s.pending, x);
    case ProcessPending(_, _, _) =>
      assert s.pending[0] in s.pending;
      assert forall x | x in s.pending[1..] :: x in s.pending;
    case _ =>
  }

  lemma {:induction false} FinishedIsFinal(s: State, actions: seq<Action>, id: string)
    requires Inv(s) && Run(s, actions).Some? && id in s.emails && !Queued(s, id)
    ensures id in Run(s, actions).value.emails && !Queued(Run(s, actions).value, id)
    ensures Run(s, actions).value.emails[id] == s.emails[id]
    decreases |actions|
  {
    if actions != [] {
      FinishedIsFinal(s, actions[..|actions| - 1], id);
      RunKeepsInv(s, actions[..|actions| - 1]);
      FinishedStep(Run(s, actions[..|actions| - 1]).value, actions[|actions| - 1], id);
    }
  }

  // ---- Scheduled emails become pending when they are due, and pending ones are taken in order ----

  /** A time is accepted that is not in the past when it is checked, even if it is when the email is inserted. */
  lemma SubmittedExactly(s: State, id: string, at: int, checkedAt: int, now: int)
    requires id !in s.emails && s.clock <= now && checkedAt <= now
    ensures Next(s, Schedule(id, at, checkedAt, now)).Some? <==> checkedAt <= at
    ensures checkedAt <= at ==>
      var t := Next(s, Schedule(id, at, checkedAt, now)).value;
      id in t.scheduled && t.emails[id] == Email(0, 3, StatusScheduled, Some(at), at, []) && t.clock == now
    ensures Next(s, Queue(id, now)).Some?
    ensures var t := Next(s, Queue(id, now)).value;
      t.pending == s.pending + [id] && t.emails[id] == Email(0, 3, StatusPending, None, now, []) && t.clock == now
  {
  }

  /** Cancelling works exactly for what is pending or scheduled, which is then in neither, and moves nothing else. */
  lemma CancelledExactly(s: State, id: string)
    requires PlacesOK(s)
    ensures Next(s, Cancel(id)).Some? <==> id in s.pending || id in s.scheduled
    ensures Next(s, Cancel(id)).Some? ==>
      var t := Next(s, Cancel(id)).value;
      && id !in t.pending && id !in t.scheduled && id in t.cancelled && t.emails == s.emails
      && forall x | x != id ::
           (x in t.pending <==> x in s.pending) && (x in t.scheduled <==> x in s.scheduled)
           && (x in t.cancelled <==> x in s.cancelled)
  {
    WithoutMembers(s.pending, id);
  }

  /** The scheduled emails can be processed at any time, in any order that a range over them takes. */
  lemma ProcessedAnyTime(s: State, order: seq<string>, now: int)
    requires s.clock <= now && RangeOrder(s, order, now)
    ensures Next(s, ProcessScheduled(order, now)).Some?
    ensures Next(s, ProcessScheduled(order, now)).value.pending == s.pending + order
  {
  }

  /** The first pending email can be attempted at any time from now on, for however long. */
  lemma AttemptedAnyTime(s: State, began: int, ended: int, ok: bool)
    requires Inv(s) && s.pending != [] && s.clock <= began <= ended
    ensures Next(s, ProcessPending(began, ended, ok)).Some?
    ensures var t, id := Next(s, ProcessPending(began, ended, ok)).value, s.pending[0];
      && t.pending == s.pending[1..] && t.clock == ended
      && id in t.emails && Tries(t, id) == Tries(s, id) + 1
      && (id in t.scheduled <==> !ok && Tries(s, id) + 1 < 3)
  {
    assert s.pending[0] in s.pending && Good(s, s.pending[0]);
  }

  /** In every run, processing the scheduled emails leaves none whose time has come, and moves no other. */
  lemma DueBecomePending(actions: seq<Action>, s: State, order: seq<string>, now: int, t: State)
    requires Run(INITIAL, actions) == Some(s) && Next(s, ProcessScheduled(order, now)) == Some(t)
    ensures forall id | id in t.scheduled ::
        id in t.emails && t.emails[id].scheduledAt.Some? && t.emails[id].scheduledAt.value > now
    ensures forall id | id in s.scheduled ::
        id in s.emails && s.emails[id].scheduledAt.Some? &&
        (if s.emails[id].scheduledAt.value <= now then id in t.pending else id in t.scheduled)
    ensures s.pending <= t.pending
  {
    RunKeepsInv(INITIAL, actions);
    forall id | id in s.scheduled ensures id in s.emails && s.emails[id].scheduledAt.Some? {
      assert Good(s, id);
    }
    forall id | id in order ensures id in t.pending {
      assert id in s.pending + order;
    }
  }

  ghost predicate Before(queue: seq<string>, x: string, y: string) {
    exists i, j :: 0 <= i < j < |queue| && queue[i] == x && queue[j] == y
  }

  /** What is submitted or becomes due goes behind all that is pending. */
  lemma NewGoBehind(s: State, a: Action, x: string, y: string)
    requires Next(s, a).Some? && (a.Queue? || a.ProcessScheduled?)
    requires x in s.pending && y in Next(s, a).value.pending && y !in s.pending
    ensures Before(Next(s, a).value.pending, x, y)
  {
    var queue := Next(s, a).value.pending;
    var i :| 0 <= i < |s.pending| && s.pending[i] == x;
    var j :| 0 <= j < |queue| && queue[j] == y;
    assert queue[i] == x && j >= |s.pending|;
  }

  function Tries(s: State, id: string): nat
    requires id in s.emails
  {
    |s.emails[id].attempts|
  }

  lemma BeforeWithout(queue: seq<string>, id: string, x: string, y: string)
    requires Before(queue, x, y) && id != x && id != y
    ensures Before(Without(queue, id), x, y)
  {
    var i, j :| 0 <= i < j < |queue| && queue[i] == x && queue[j] == y;
    if id in queue {
      var k := FirstPlace(queue, id);
      WithoutAt(queue, id, k);
      var rest := Without(queue, id);
      assert rest[if i < k then i else i - 1] == x && rest[if j < k then j else j - 1] == y;
    } else {
      WithoutAbsent(queue, id);
    }
  }

  lemma {:induction false} FirstPlace(queue: seq<string>, id: string) returns (k: nat)
    requires id in queue
    ensures k < |queue| && queue[k] == id && id !in queue[..k]
  {
    if queue[0] == id {
      k := 0;
    } else {
      k := FirstPlace(queue[1..], id);
      k := k + 1;
      assert queue[..k] == [queue[0]] + queue[1..][..k - 1];
    }
  }

  /** x was attempted or cancelled; or y was not attempted, and waits behind x or was cancelled. */
  ghost predicate StillInOrder(s: State, t: State, x: string, y: string)
    requires x in s.emails && y in s.emails
  {
    && x in t.emails && y in t.emails && Tries(t, x) >= Tries(s, x)
    && (Tries(t, x) > Tries(s, x) || x in t.cancelled
        || (Tries(t, y) == Tries(s, y) && (Before(t.pending, x, y) || y in t.cancelled)))
  }

  lemma AttemptInOrder(s: State, began: int, ended: int, ok: bool, x: string, y: string)
    requires Inv(s) && Next(s, ProcessPending(began, ended, ok)).Some? && Before(s.pending, x, y)
    ensures x in s.emails && y in s.emails && StillInOrder(s, Next(s, ProcessPending(began, ended, ok)).value, x, y)
  {
    var t := Next(s, ProcessPending(began, ended, ok)).value;
    var i, j :| 0 <= i < j < |s.pending| && s.pending[i] == x && s.pending[j] == y;
    assert x in s.pending && y in s.pending && s.pending[0] != y;
    if i > 0 { assert t.pending[i - 1] == x && t.pending[j - 1] == y; }
  }

  lemma OrderStep(s: State, a: Action, x: string, y: string)
    requires Inv(s) && Next(s, a).Some? && Before(s.pending, x, y)
    ensures x in s.emails && y in s.emails && StillInOrder(s, Next(s, a).value, x, y)
  {
    var t := Next(s, a).value;
    var i, j :| 0 <= i < j < |s.pending| && s.pending[i] == x && s.pending[j] == y;
    assert x in s.pending && y in s.pending;
    match a
    case Cancel(id) =>
      if id != x && id != y && id !in s.scheduled { BeforeWithout(s.pending, id, x, y); }
    case ProcessPending(began, ended, ok) => AttemptInOrder(s, began, ended, ok, x, y);
    case _ => assert t.pending[i] == x && t.pending[j] == y;
  }

  lemma TriesGrow(s: State, a: Action, id: string)
    requires Next(s, a).Some? && id in s.emails
    ensures id in Next(s, a).value.emails && Tries(Next(s, a).value, id) >= Tries(s, id)
  {
    match a
    case ProcessPending(began, ended, ok) =>
      var first := s.pending[0];
      assert AfterAttempt(s.emails[first], began, ended, ok).attempts
          == s.emails[first].attempts + [Attempt(began, ended, ok)];
    case _ =>
  }

  lemma CancelledStep(s: State, a: Action, id: string)
    requires Inv(s) && Next(s, a).Some? && id in s.cancelled
    ensures id in Next(s, a).value.cancelled && id in s.emails && id in Next(s, a).value.emails
    ensures Tries(Next(s, a).value, id) == Tries(s, id)
  {
    FinishedStep(s, a, id);
  }

  /** In every continuation, of two pending emails the later one is not attempted before the earlier one. */
  lemma {:induction false} FirstComeFirstServed(s: State, actions: seq<Action>, x: string, y: string)
    requires Inv(s) && Before(s.pending, x, y) && Run(s, actions).Some?
    ensures x in s.emails && y in s.emails && StillInOrder(s, Run(s, actions).value, x, y)
    decreases |actions|
  {
    assert x in s.pending && y in s.pending;
    if actions != [] {
      var u, a := Run(s, actions[..|actions| - 1]).value, actions[|actions| - 1];
      FirstComeFirstServed(s, actions[..|actions| - 1], x, y);
      RunKeepsInv(s, actions[..|actions| - 1]);
      TriesGrow(u, a, x);
      TriesGrow(u, a, y);
      if x in u.cancelled { CancelledStep(u, a, x); }
      if y in u.cancelled { CancelledStep(u, a, y); }
      if Before(u.pending, x, y) { OrderStep(u, a, x, y); }
    }
  }

  // ---- The code itself ----

  class QueuedEmail {
    const id: string
    const maxRetries: nat
    var retryCount: nat
    var status: Status
    var scheduledAt: Option<int>
    ghost var dueAt: int
    ghost var attempts: seq<Attempt>

    ghost function Value(): Email
      reads this
    {
      Email(retryCount, maxRetries, status, scheduledAt, dueAt, attempts)
    }

    constructor (id: string, status: Status, scheduledAt: Option<int>, ghost dueAt: int)
      ensures this.id == id && Value() == Email(0, MAX_RETRIES, status, scheduledAt, dueAt, [])
    {
      this.id, this.maxRetries, this.retryCount := id, MAX_RETRIES, 0;
      this.status, this.scheduledAt := status, scheduledAt;
      this.dueAt, this.attempts := dueAt, [];
    }

    /** The bookkeeping of processPending after one attempt; `again` says that the email is to be queued again. */
    method Record(ghost began: int, ended: int, ok: bool) returns (again: bool)
      modifies this
      ensures Value() == AfterAttempt(old(Value()), began, ended, ok)
      ensures again == GoesBack(old(Value()), ok)
    {
      attempts := attempts + [Attempt(began, ended, ok)];
      again := false;
      if !ok {
        retryCount := retryCount + 1;
        if retryCount < maxRetries {
          var backoff := retryCount * MINUTE;
          scheduledAt := Some(ended + backoff);
          again := true;
        } else {
          status := StatusFailed;
        }
      } else {
        status := StatusSent;
      }
    }
  }

  function IDs(emails: seq<QueuedEmail>): (ids: seq<string>)
    ensures |ids| == |emails|
  {
    seq(|emails|, i requires 0 <= i < |emails| => emails[i].id)
  }

  lemma RemovedIDs(emails: seq<QueuedEmail>, i: nat)
    requires i < |emails|
    ensures IDs(emails[..i] + emails[i + 1..]) == IDs(emails)[..i] + IDs(emails)[i + 1..]
  {
  }

  datatype QueueError = InThePast | NotFound

  class SendQueue {
    var pending: seq<QueuedEmail>
    var scheduled: map<string, QueuedEmail>
    ghost var all: map<string, QueuedEmail>
    ghost var cancelled: set<string>
    ghost var clock: int

    ghost predicate Owned(e: QueuedEmail)
      reads this`all
    {
      e.id in all && all[e.id] == e
    }

    ghost predicate Valid()
      reads this`all, this`pending, this`scheduled
    {
      && (forall id | id in all :: all[id].id == id)
      && (forall e | e in pending :: Owned(e))
      && (forall id | id in scheduled :: id in all && scheduled[id] == all[id])
    }

    ghost function Emails(): map<string, Email>
      reads this`all, all.Values
    {
      map id | id in all :: all[id].Value()
    }

    ghost function View(): State
      reads this, all.Values
    {
      State(Emails(), IDs(pending), scheduled.Keys, cancelled, clock)
    }

    constructor ()
      ensures Valid() && View() == INITIAL
    {
      pending, scheduled, all, cancelled, clock := [], map[], map[], {}, 0;
    }

    ghost method Register(email: QueuedEmail)
      requires Valid() && email.id !in all
      modifies this`all
      ensures Valid() && Owned(email) && all == old(all)[email.id := email]
      ensures Emails() == old(Emails())[email.id := email.Value()]
    {
      all := all[email.id := email];
    }

    /** The time is checked before the lock is taken, so it may have passed when the email is inserted. */
    method ScheduleEmail(id: string, scheduleAt: int, checkedAt: int, now: int) returns (err: Option<QueueError>)
      requires Valid() && now >= clock && now >= checkedAt && id !in all
      modifies this
      ensures Valid()
      ensures err == if scheduleAt < checkedAt then Some(InThePast) else None
      ensures err.Some? ==> View() == old(View())
      ensures err.None? ==> Next(old(View()), Schedule(id, scheduleAt, checkedAt, now)) == Some(View())
    {
      if scheduleAt < checkedAt {
        return Some(InThePast);
      }
      var email := new QueuedEmail(id, StatusScheduled, Some(scheduleAt), scheduleAt);
      Register(email);
      scheduled := scheduled[id := email];
      clock := now;
      assert scheduled.Keys == old(scheduled.Keys) + {id};
      err := None;
    }

    method QueueEmail(id: string, now: int) returns (email: QueuedEmail)
      requires Valid() && now >= clock && id !in all
      modifies this
      ensures Valid() && fresh(email)
      ensures Next(old(View()), Queue(id, now)) == Some(View())
    {
      email := new QueuedEmail(id, StatusPending, None, now);
      Register(email);
      pending := pending + [email];
      clock := now;
      assert IDs(pending) == IDs(old(pending)) + [id];
    }

    /** CancelEmail looks among the scheduled emails first, then for the first pending one with the ID. */
    method CancelEmail(id: string) returns (err: Option<QueueError>)
      requires Valid()
      modifies this
      ensures Valid()
      ensures err.None? <==> Queued(old(View()), id)
      ensures err.Some? ==> View() == old(View())
      ensures err.None? ==> Next(old(View()), Cancel(id)) == Some(View())
    {
      if id in scheduled {
        scheduled := scheduled - {id};
        cancelled := cancelled + {id};
        return None;
      }
      var i := 0;
      while i < |pending|
        invariant 0 <= i <= |pending| && id !in IDs(pending)[..i]
      {
        if pending[i].id == id {
          assert id !in scheduled.Keys;
          RemovePending(i, id);
          return None;
        }
        i := i + 1;
      }
      assert IDs(pending)[..i] == IDs(pending);
      err := Some(NotFound);
    }

    method RemovePending(i: nat, id: string)
      requires Valid() && i < |pending| && pending[i].id == id && id !in IDs(pending)[..i]
      modifies this`pending, this`cancelled
      ensures Valid() && IDs(pending) == Without(old(IDs(pending)), id)
      ensures cancelled == old(cancelled) + {id} && id in old(IDs(pending))
    {
      WithoutAt(IDs(pending), id, i);
      assert IDs(pending)[i] == id;
      RemovedIDs(pending, i);
      assert forall e | e in pending[..i] + pending[i + 1..] :: e in pending;
      pending := pending[..i] + pending[i + 1..];
      cancelled := cancelled + {id};
    }

    /** Moves one scheduled email to the end of the pending queue. */
    method Release(id: string)
      requires Valid() && id in scheduled
      modifies this`pending, this`scheduled
      ensures Valid() && scheduled == old(scheduled) - {id} && IDs(pending) == old(IDs(pending)) + [id]
    {
      var email := scheduled[id];
      scheduled := scheduled - {id};
      pending := pending + [email];
      assert IDs(pending) == old(IDs(pending)) + [id];
    }

    predicate Due(id: string, now: int)
      requires id in scheduled
      reads this`scheduled, scheduled.Values
    {
      scheduled[id].scheduledAt.Some? && scheduled[id].scheduledAt.value <= now
    }

    /** What is left of the scheduled emails, and what was appended, once `todo` are the IDs not yet met. */
    ghost predicate Released(s: State, todo: set<string>, order: seq<string>, now: int)
      reads this`all, this`pending, this`scheduled, all.Values
    {
      && Emails() == s.emails && IDs(pending) == s.pending + order && Distinct(order)
      && (forall id :: id in order <==> IsDue(s, id, now) && id !in todo)
      && (forall id :: id in scheduled <==> id in s.scheduled && id !in order)
    }

    lemma ReleasedAll(s: State, order: seq<string>, now: int)
      requires Released(s, {}, order, now)
      ensures RangeOrder(s, order, now) && scheduled.Keys == s.scheduled - (set id | id in order)
    {
    }

    /** processScheduled: a range over the map in any order, deleting as it goes. */
    method ProcessScheduled(now: int) returns (ghost order: seq<string>)
      requires Valid() && now >= clock
      modifies this`pending, this`scheduled, this`clock
      ensures Valid()
      ensures Next(old(View()), Action.ProcessScheduled(order, now)) == Some(View())
      ensures forall id | id in scheduled :: scheduled[id].scheduledAt.None? || scheduled[id].scheduledAt.value > now
      ensures forall id | id in old(scheduled) && old(scheduled[id].scheduledAt.Some?) ::
          old(scheduled[id].scheduledAt).value <= now ==> id in IDs(pending)
    {
      ghost var s := View();
      order := ReleaseDue(s, now);
      clock := now;
      ReleasedAll(s, order, now);
    }

    method ReleaseDue(ghost s: State, now: int) returns (ghost order: seq<string>)
      requires Valid() && s == View()
      modifies this`pending, this`scheduled
      ensures Valid() && Released(s, {}, order, now)
    {
      var ids := scheduled.Keys;
      order := [];
      while ids != {}
        invariant Valid() && ids <= scheduled.Keys && Released(s, ids, order, now)
        decreases |ids|
      {
        var id :| id in ids;
        order := MeetOne(s, ids, id, order, now);
        ids := ids - {id};
      }
    }

    /** One turn of that range. */
    method MeetOne(ghost s: State, ghost ids: set<string>, id: string, ghost order: seq<string>, now: int)
      returns (ghost order': seq<string>)
      requires Valid() && id in ids && ids <= scheduled.Keys && Released(s, ids, order, now)
      modifies this`pending, this`scheduled
      ensures Valid() && ids - {id} <= scheduled.Keys && Released(s, ids - {id}, order', now)
    {
      order' := order;
      assert id in s.emails && s.emails[id].scheduledAt == scheduled[id].scheduledAt;
      if Due(id, now) {
        Release(id);
        order' := order + [id];
        assert IDs(pending) == s.pending + order';
      }
    }

    /** processPending: one attempt on the first pending email; the outcome of sending is an input. */
    method ProcessPending(began: int, ended: int, ok: bool)
      requires Valid() && clock <= began <= ended
      modifies this`pending, this`scheduled, this`clock, all.Values
      ensures Valid() && all == old(all)
      ensures old(pending) == [] ==> View() == old(View())
      ensures old(pending) != [] ==> Next(old(View()), Action.ProcessPending(began, ended, ok)) == Some(View())
    {
      if |pending| == 0 {
        return;
      }
      assert IDs(pending)[0] == pending[0].id && Owned(pending[0]);
      AttemptFirst(began, ended, ok);
    }

    method AttemptFirst(began: int, ended: int, ok: bool)
      requires Valid() && pending != [] && IDs(pending)[0] in all
      modifies this`pending, this`scheduled, this`clock, all.Values
      ensures Valid() && all == old(all)
      ensures View() == AfterPending(old(View()), old(IDs(pending))[0], began, ended, ok)
    {
      var email, again := TryFirst(began, ended, ok);
      ghost var tried := Emails();
      Settle(email, again);
      clock := ended;
      assert Emails() == tried;
    }

    method TryFirst(ghost began: int, ended: int, ok: bool) returns (email: QueuedEmail, again: bool)
      requires Valid() && pending != [] && IDs(pending)[0] in all
      modifies this`pending, all.Values
      ensures Valid() && Owned(email) && email.id == old(IDs(pending))[0] && IDs(pending) == old(IDs(pending))[1..]
      ensures again == GoesBack(old(Emails())[email.id], ok)
      ensures Emails() == old(Emails())[email.id := AfterAttempt(old(Emails())[email.id], began, ended, ok)]
    {
      ghost var emails := Emails();
      email := TakeFirst();
      assert Emails() == emails;
      again := TryToSend(email, began, ended, ok);
    }

    method TakeFirst() returns (email: QueuedEmail)
      requires Valid() && pending != []
      modifies this`pending
      ensures Valid() && Owned(email) && email in all.Values && email.id == old(IDs(pending))[0]
      ensures IDs(pending) == old(IDs(pending))[1..]
    {
      email := pending[0];
      assert email in pending;
      pending := pending[1..];
      assert IDs(pending) == old(IDs(pending))[1..];
    }

    method Settle(email: QueuedEmail, again: bool)
      requires Valid() && Owned(email)
      modifies this`scheduled
      ensures Valid() && scheduled.Keys == if again then old(scheduled.Keys) + {email.id} else old(scheduled.Keys)
    {
      if again {
        scheduled := scheduled[email.id := email];
      }
    }

    method TryToSend(email: QueuedEmail, ghost began: int, ended: int, ok: bool) returns (again: bool)
      requires Valid() && Owned(email)
      modifies email
      ensures again == GoesBack(old(Emails())[email.id], ok)
      ensures Emails() == old(Emails())[email.id := AfterAttempt(old(Emails())[email.id], began, ended, ok)]
    {
      again := email.Record(began, ended, ok);
    }
  }
}
