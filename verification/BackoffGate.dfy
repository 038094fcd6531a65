/**
 * The connection backoff of `guardPool` (packages/platform-db/src/guard.ts): what each finished dial
 * records, and the gate every new dial passes. Times are the monotone clock's milliseconds.
 */
module BackoffGate {
  import opened Common

  datatype Options = Options(minBackoffMs: nat, maxBackoffMs: nat)

  /** `maxBackoffMs` below `minBackoffMs` counts as `minBackoffMs`. */
  function Cap(o: Options): nat { Max(o.minBackoffMs, o.maxBackoffMs) }

  datatype Gate = Gate(failures: nat, retryAt: int, lastError: Option<string>)

  const OPEN := Gate(0, 0, None)

  function Pow2(n: nat): nat { if n == 0 then 1 else 2 * Pow2(n - 1) }

  function Delay(o: Options, failures: nat): int
    requires 0 < failures
  {
    Min(Cap(o), o.minBackoffMs * Pow2(Min(failures - 1, 20)))
  }

  /** A dial ended, with an error or without. */
  function AfterRecord(o: Options, g: Gate, error: Option<string>, now: int): Gate {
    if error.Some? then Gate(g.failures + 1, now + Delay(o, g.failures + 1), error) else OPEN
  }

  /** A request for a new connection is answered with the last error instead of dialling. */
  predicate Gated(g: Gate, now: int) { g.lastError.Some? && now < g.retryAt }

  // ---- runs ----

  datatype Event = Failed(at: int, error: string) | Succeeded(at: int) | Request(at: int)

  function Step(o: Options, g: Gate, e: Event): Gate {
    match e
    case Failed(now, error) => AfterRecord(o, g, Some(error), now)
    case Succeeded(now) => AfterRecord(o, g, None, now)
    case Request(_) => g
  }

  function Play(o: Options, g: Gate, es: seq<Event>): Gate
    decreases |es|
  {
    if es == [] then g else Play(o, Step(o, g, es[0]), es[1..])
  }

  ghost predicate Ordered(es: seq<Event>, from: int)
    decreases |es|
  {
    es != [] ==> from <= es[0].at && Ordered(es[1..], es[0].at)
  }

  /** The dials the run starts: its requests that find the gate open. */
  function Dials(o: Options, g: Gate, es: seq<Event>): seq<int>
    decreases |es|
  {
    if es == [] then []
    else (if es[0].Request? && !Gated(g, es[0].at) then [es[0].at] else []) + Dials(o, Step(o, g, es[0]), es[1..])
  }

  /** What every reached state satisfies: the window ends at most the current delay from the last failure. */
  predicate Valid(o: Options, g: Gate, now: int) {
    (g.failures == 0 <==> g.lastError.None?) && (g.failures == 0 ==> g == OPEN) &&
    (0 < g.failures ==> g.retryAt <= now + Delay(o, g.failures))
  }

  lemma {:induction false} Pow2Grows(m: nat, n: nat)
    requires m <= n
    ensures 1 <= Pow2(m) <= Pow2(n)
  {
    if m < n {
      Pow2Grows(m, n - 1);
    } else if 0 < m {
      Pow2Grows(m - 1, n - 1);
    }
  }

  lemma ScaleGrows(x: nat, a: nat, b: nat)
    requires a <= b
    ensures x * a <= x * b
  {
    assert 0 <= x * (b - a);
  }

  /** Delays start at the minimum, never shrink from one failure to the next, and stop at the cap. */
  lemma DelaysGrowToTheCap(o: Options, m: nat, n: nat)
    requires 0 < m <= n
    ensures o.minBackoffMs == Delay(o, 1) <= Delay(o, m) <= Delay(o, n) <= Cap(o)
  {
    Pow2Grows(Min(m - 1, 20), Min(n - 1, 20));
    Pow2Grows(0, Min(m - 1, 20));
    ScaleGrows(o.minBackoffMs, Pow2(Min(m - 1, 20)), Pow2(Min(n - 1, 20)));
    ScaleGrows(o.minBackoffMs, 1, Pow2(Min(m - 1, 20)));
  }

  /** Each of the first 21 failures in a row doubles the delay, up to the cap. */
  lemma DelayDoubles(o: Options, m: nat)
    requires 0 < m < 21
    ensures Delay(o, m + 1) == Min(Max(o.minBackoffMs, o.maxBackoffMs), 2 * Delay(o, m))
  {
    var raw := o.minBackoffMs * Pow2(m - 1);
    assert o.minBackoffMs * (2 * Pow2(m - 1)) == 2 * raw;
  }

  /** Past the twenty-first failure in a row the delay stays what it is. */
  lemma DelayStays(o: Options, m: nat)
    requires 21 <= m
    ensures Delay(o, m) == Delay(o, 21)
  {
  }

  lemma StepKeepsValid(o: Options, g: Gate, e: Event, now: int)
    requires Valid(o, g, now) && now <= e.at
    ensures Valid(o, Step(o, g, e), e.at)
    ensures !e.Succeeded? ==> g.retryAt <= Step(o, g, e).retryAt || g.failures == 0
  {
    if e.Failed? && 0 < g.failures {
      DelaysGrowToTheCap(o, g.failures, g.failures + 1);
    }
  }

  /**
   * From a recorded failure on, however many dials are under way and fail later, until one succeeds: the end
   * of the window never moves back, and no dial starts before it.
   */
  lemma {:induction false} NoDialBeforeRetry(o: Options, g: Gate, es: seq<Event>, now: int)
    requires Valid(o, g, now) && Ordered(es, now) && 0 < g.failures && forall e :: e in es ==> !e.Succeeded?
    ensures g.retryAt <= Play(o, g, es).retryAt && 0 < Play(o, g, es).failures
    ensures forall t :: t in Dials(o, g, es) ==> g.retryAt <= t
    decreases |es|
  {
    if es != [] {
      assert es[0] in es;
      StepKeepsValid(o, g, es[0], now);
      NoDialBeforeRetry(o, Step(o, g, es[0]), es[1..], es[0].at);
    }
  }

  /** Right after the n-th failure in a row new dials are refused for exactly its delay. */
  lemma FailureClosesTheGate(o: Options, g: Gate, error: string, at: int, t: int)
    requires at <= t
    ensures Gated(AfterRecord(o, g, Some(error), at), t) <==> t < at + Delay(o, g.failures + 1)
    ensures AfterRecord(o, g, Some(error), at).lastError == Some(error)
  {
  }

  /** Over every run: after the n-th failure in a row, until a success, no dial starts for the n-th delay, however
      many dials that were under way fail as well. */
  lemma NthFailureHoldsBack(o: Options, g: Gate, error: string, at: int, es: seq<Event>, now: int)
    requires Valid(o, g, now) && now <= at && Ordered(es, at) && forall e :: e in es ==> !e.Succeeded?
    ensures forall t :: t in Dials(o, Step(o, g, Failed(at, error)), es) ==> at + Delay(o, g.failures + 1) <= t
  {
    StepKeepsValid(o, g, Failed(at, error), now);
    NoDialBeforeRetry(o, Step(o, g, Failed(at, error)), es, at);
  }

  /** And from then on, with no further failure, one does: every request is a dial. */
  lemma {:induction false} GateOpensAgain(o: Options, g: Gate, es: seq<Event>, from: int)
    requires Ordered(es, from) && g.retryAt <= from && forall e :: e in es ==> e.Request?
    ensures |Dials(o, g, es)| == |es| && forall i :: 0 <= i < |es| ==> Dials(o, g, es)[i] == es[i].at
    decreases |es|
  {
    if es != [] {
      assert es[0] in es;
      GateOpensAgain(o, g, es[1..], es[0].at);
    }
  }

  /** The window is never longer than the cap, so the pool is never left unusable. */
  lemma {:induction false} WindowBounded(o: Options, g: Gate, es: seq<Event>, now: int, t: int)
    requires Valid(o, g, now) && Ordered(es, now) && (forall e :: e in es ==> e.at <= t) && now <= t
    ensures !Gated(Play(o, g, es), t + Cap(o))
    decreases |es|
  {
    if es != [] {
      assert es[0] in es;
      StepKeepsValid(o, g, es[0], now);
      WindowBounded(o, Step(o, g, es[0]), es[1..], es[0].at, t);
    } else if 0 < g.failures {
      DelaysGrowToTheCap(o, g.failures, g.failures);
    }
  }

  /** One success undoes everything. */
  lemma SuccessResets(o: Options, g: Gate, now: int, later: int)
    ensures AfterRecord(o, g, None, now) == OPEN && !Gated(AfterRecord(o, g, None, now), later)
    ensures forall error ::
              AfterRecord(o, AfterRecord(o, g, None, now), Some(error), later).retryAt == later + Delay(o, 1)
  {
  }

  // ---- the code's own form ----

  /** A caller waiting in the pool's queue. */
  datatype Waiter = Waiter(id: nat, timedOut: bool)

  datatype Answer = Answer(id: nat, error: string)

  class GuardedPool {
    const options: Options
    var failures: nat
    var retryAt: int
    var lastError: Option<string>
    /** Callers not yet served, the answers given, the dials started, and the pulses owed to the queue. */
    var queue: seq<Waiter>
    var answers: seq<Answer>
    var dials: nat
    var pulses: nat

    ghost function View(): Gate reads this { Gate(failures, retryAt, lastError) }

    /** Runs in the client's own connect callback, before the pool's. */
    method Record(error: Option<string>, now: int)
      modifies this`failures, this`retryAt, this`lastError
      ensures View() == AfterRecord(options, old(View()), error, now)
    {
      if error.Some? {
        failures := failures + 1;
        var cap := Max(options.minBackoffMs, options.maxBackoffMs);
        retryAt := now + Min(cap, options.minBackoffMs * Pow2(Min(failures - 1, 20)));
        lastError := error;
        return;
      }
      failures, retryAt, lastError := 0, 0, None;
    }

    /** The gated `newClient`: a gated caller is answered once (unless it timed out) and the queue is owed
        a pulse, since no client will come back to pump it. */
    method NewClient(w: Waiter, now: int)
      modifies this`answers, this`dials, this`pulses
      ensures Gated(View(), now) ==>
        && dials == old(dials) && pulses == old(pulses) + 1
        && answers == old(answers) + if w.timedOut then [] else [Answer(w.id, lastError.value)]
      ensures !Gated(View(), now) ==> dials == old(dials) + 1 && pulses == old(pulses) && answers == old(answers)
    {
      if lastError.Some? && now < retryAt {
        pulses := pulses + 1;
        if !w.timedOut { answers := answers + [Answer(w.id, lastError.value)]; }
        return;
      }
      dials := dials + 1;
    }

    /** The pool's pump: serve the first waiter, if there is one. */
    method PulseQueue(now: int)
      modifies this`queue, this`answers, this`dials, this`pulses
      ensures old(queue) == [] ==>
        queue == [] && answers == old(answers) && dials == old(dials) && pulses == old(pulses)
      ensures old(queue) != [] ==> queue == old(queue)[1..]
      ensures old(queue) != [] && Gated(View(), now) ==>
        && dials == old(dials) && pulses == old(pulses) + 1
        && answers == old(answers) + if old(queue)[0].timedOut then [] else [Answer(old(queue)[0].id, lastError.value)]
      ensures old(queue) != [] && !Gated(View(), now) ==>
        dials == old(dials) + 1 && pulses == old(pulses) && answers == old(answers)
    {
      if queue == [] { return; }
      var w := queue[0];
      queue := queue[1..];
      NewClient(w, now);
    }

    /** What the first n waiters of a queue get when the i-th is reached at `times(i)`: an answer inside the window,
        unless it timed out, and a dial outside it. The answers in turn, and the number of dials. */
    static function Served(ws: seq<Waiter>, g: Gate, times: nat -> int, n: nat): (seq<Answer>, nat)
      requires n <= |ws|
    {
      if n == 0 then ([], 0)
      else
        var (given, dialled) := Served(ws, g, times, n - 1);
        if !Gated(g, times(n - 1)) then (given, dialled + 1)
        else if ws[n - 1].timedOut then (given, dialled)
        else (given + [Answer(ws[n - 1].id, g.lastError.value)], dialled)
    }

    static lemma {:induction false} NoneDialledInTheWindow(ws: seq<Waiter>, g: Gate, times: nat -> int, n: nat)
      requires n <= |ws| && forall i: nat :: i < n ==> Gated(g, times(i))
      ensures Served(ws, g, times, n).1 == 0
    {
      if 0 < n {
        NoneDialledInTheWindow(ws, g, times, n - 1);
      }
    }

    /**
     * The pulses owed are worked off, one at `times(0)`, the next at `times(1)`, until none is owed. Each serves
     * the next waiter, once and in order. A gated one owes the next its pulse, so inside the window a single
     * pulse, whatever else is owed, answers a queue of any length and dials nothing.
     */
    method Drain(times: nat -> int) returns (n: nat)
      modifies this`queue, this`answers, this`dials, this`pulses
      ensures pulses == 0 && n <= |old(queue)| && queue == old(queue)[n..]
      ensures n == |old(queue)| || old(pulses) <= n
      ensures answers == old(answers) + Served(old(queue), View(), times, n).0
      ensures dials == old(dials) + Served(old(queue), View(), times, n).1
      ensures (forall i: nat :: i < |old(queue)| ==> Gated(View(), times(i))) && 0 < old(pulses) ==>
        n == |old(queue)| && dials == old(dials)
    {
      n := 0;
      while pulses != 0 && queue != []
        invariant n <= |old(queue)| && queue == old(queue)[n..]
        invariant n == |old(queue)| || old(pulses) <= n + pulses
        invariant answers == old(answers) + Served(old(queue), View(), times, n).0
        invariant dials == old(dials) + Served(old(queue), View(), times, n).1
        invariant (forall i: nat :: i < |old(queue)| ==> Gated(View(), times(i))) && 0 < old(pulses) ==>
          n == |old(queue)| || 0 < pulses
        decreases |queue|
      {
        pulses := pulses - 1;
        PulseQueue(times(n));
        n := n + 1;
      }
      pulses := 0;
      if forall i: nat :: i < n ==> Gated(View(), times(i)) {
        NoneDialledInTheWindow(old(queue), View(), times, n);
      }
    }
  }
}
