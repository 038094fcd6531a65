/**
 * The sliding-window limiter of `CacheService` (packages/platform-cache/src/cache.service.ts): a
 * sorted set of admitted requests, pruned and expired as it goes, against the full history it stands for.
 * Times are the callers' milliseconds.
 */
module RateLimit {
  import opened Common

  /** Member to score. */
  type Log = map<string, int>

  /** The sorted set under a key, with the instant its TTL ends. */
  datatype ZSet = ZSet(scores: Log, expiry: int)

  datatype Answer = Admitted(remaining: int, resetAtMs: int) | Refused(resetAtMs: int) | ScriptError

  /** The requests of `log` in the window (now - window, now]. */
  function Recent(log: Log, now: int, window: int): Log {
    map m | m in log && now - window < log[m] <= now :: log[m]
  }

  lemma {:induction false} HasLeast(s: set<int>, x: int)
    requires x in s
    ensures exists v :: v in s && forall w :: w in s ==> v <= w
    decreases |s|
  {
    if y :| y in s && y < x {
      HasLeast(s - {x}, y);
      var v :| v in s - {x} && forall w :: w in s - {x} ==> v <= w;
      assert forall w :: w in s ==> w == x || w in s - {x};
    }
  }

  /** The lowest score, as ZRANGE key 0 0 reads it. */
  function Oldest(log: Log): (score: int)
    requires log != map[]
    ensures (exists m :: m in log && log[m] == score) && forall m :: m in log ==> score <= log[m]
  {
    var m0 :| m0 in log;
    var x: int := log[m0];
    assert x in log.Values;
    HasLeast(log.Values, x);
    var v :| v in log.Values && forall w :: w in log.Values ==> v <= w;
    assert forall m :: m in log ==> log[m] in log.Values;
    v
  }

  /** The script's reply, given what is in the window before the request. */
  function AnswerOf(recent: Log, now: int, window: int, limit: int): Answer {
    if |recent| < limit then Admitted(limit - |recent| - 1, now + window)
    else if recent == map[] then ScriptError  // a limit below 1: there is no oldest entry to read
    else Refused(Oldest(recent) + window)
  }

  // ---- the sorted set ----

  function Pruned(z: Option<ZSet>, now: int, window: int): Log {
    if z.Some? && now < z.value.expiry
    then map m | m in z.value.scores && now - window < z.value.scores[m] :: z.value.scores[m]
    else map[]
  }

  function AfterConsume(z: Option<ZSet>, now: int, window: int, limit: int, member: string): Option<ZSet> {
    var kept := Pruned(z, now, window);
    if |kept| < limit then Some(ZSet(kept[member := now], now + window))
    else if kept == map[] then None
    else Some(z.value.(scores := kept))
  }

  function AfterRefund(z: Option<ZSet>, member: string): Option<ZSet> {
    if z.Some? then Some(z.value.(scores := z.value.scores - {member})) else None
  }

  // ---- runs: the sorted set and the history, side by side ----

  datatype Event = Consume(at: int, window: int, limit: int, member: string) | Refund(member: string)

  function SetAnswers(z: Option<ZSet>, es: seq<Event>): seq<Answer>
    decreases |es|
  {
    if es == [] then []
    else match es[0]
         case Consume(now, window, limit, member) =>
           [AnswerOf(Pruned(z, now, window), now, window, limit)]
           + SetAnswers(AfterConsume(z, now, window, limit, member), es[1..])
         case Refund(member) => SetAnswers(AfterRefund(z, member), es[1..])
  }

  /** Nothing is ever forgotten but a refund. */
  function LogAfter(log: Log, e: Event): Log {
    match e
    case Consume(now, window, limit, member) =>
      if |Recent(log, now, window)| < limit then log[member := now] else log
    case Refund(member) => log - {member}
  }

  function HistoryAnswers(log: Log, es: seq<Event>): seq<Answer>
    decreases |es|
  {
    if es == [] then []
    else (if es[0].Consume?
          then [AnswerOf(Recent(log, es[0].at, es[0].window), es[0].at, es[0].window, es[0].limit)] else [])
         + HistoryAnswers(LogAfter(log, es[0]), es[1..])
  }

  /** Call times do not go back, windows do not widen, and no member names two requests. */
  ghost predicate Calm(es: seq<Event>, from: int, widest: int, used: set<string>)
    decreases |es|
  {
    es != [] ==>
      match es[0]
      case Consume(now, window, _, member) =>
        from <= now && window <= widest && member !in used && Calm(es[1..], now, window, used + {member})
      case Refund(_) => Calm(es[1..], from, widest, used)
  }

  /** The set holds every request still in a window, nothing the history lacks, and outlives them all. */
  ghost predicate Agree(z: Option<ZSet>, log: Log, now: int, window: int) {
    && (forall m :: m in log ==> log[m] <= now)
    && (forall m :: m in log && now - window < log[m] ==> z.Some? && m in z.value.scores)
    && (z.Some? ==> forall m :: m in z.value.scores ==>
          m in log && log[m] == z.value.scores[m] && log[m] + window <= z.value.expiry)
  }

  lemma AgreeOnTheWindow(z: Option<ZSet>, log: Log, from: int, widest: int, now: int, window: int)
    requires Agree(z, log, from, widest) && from <= now && window <= widest
    ensures Pruned(z, now, window) == Recent(log, now, window)
    ensures Agree(z, log, now, window)
  {
  }

  lemma AdmissionKeepsAgree(z: Option<ZSet>, log: Log, now: int, window: int, limit: int, member: string)
    requires Agree(z, log, now, window)
    ensures Agree(AfterConsume(z, now, window, limit, member),
                  LogAfter(log, Consume(now, window, limit, member)), now, window)
  {
    AgreeOnTheWindow(z, log, now, window, now, window);
    forall m | m in log && now - window < log[m]
      ensures m in Pruned(z, now, window)
    {
      assert m in Recent(log, now, window);
    }
  }

  /** The pruned, expiring set answers every request of every run exactly as the full history would. */
  lemma {:induction false} SetRefinesHistory(z: Option<ZSet>, log: Log, es: seq<Event>, from: int, widest: int,
                                             used: set<string>)
    requires Agree(z, log, from, widest) && Calm(es, from, widest, used)
    ensures SetAnswers(z, es) == HistoryAnswers(log, es)
    decreases |es|
  {
    if es != [] {
      match es[0]
      case Consume(now, window, limit, member) =>
        AgreeOnTheWindow(z, log, from, widest, now, window);
        AdmissionKeepsAgree(z, log, now, window, limit, member);
        SetRefinesHistory(AfterConsume(z, now, window, limit, member), LogAfter(log, es[0]), es[1..],
                          now, window, used + {member});
      case Refund(member) =>
        assert Agree(AfterRefund(z, member), log - {member}, from, widest);
        SetRefinesHistory(AfterRefund(z, member), log - {member}, es[1..], from, widest, used);
    }
  }

  /** Below the limit in every window ending at or before `now`: the promise of a sliding window. */
  ghost predicate WithinLimit(log: Log, window: int, limit: int) {
    forall t :: |Recent(log, t, window)| <= limit
  }

  lemma StepKeepsWithinLimit(log: Log, e: Event, from: int, window: int, limit: int)
    requires WithinLimit(log, window, limit) && (forall m :: m in log ==> log[m] <= from)
    requires e.Consume? ==> from <= e.at && e.window == window && e.limit == limit
    ensures WithinLimit(LogAfter(log, e), window, limit)
  {
    var log' := LogAfter(log, e);
    forall t
      ensures |Recent(log', t, window)| <= limit
    {
      var before := Recent(log, if e.Consume? && e.at <= t then e.at else t, window).Keys;
      var after := Recent(log', t, window).Keys;
      if e.Consume? && e.at <= t && log' != log {
        SubsetSize(after, before + {e.member});
      } else if e.Consume? && e.at <= t {
        assert |Recent(log, t, window)| <= limit;
      } else {
        SubsetSize(after, before);
      }
    }
  }

  function HistoryAfter(log: Log, es: seq<Event>): Log
    decreases |es|
  {
    if es == [] then log else HistoryAfter(LogAfter(log, es[0]), es[1..])
  }

  /**
   * With one window and one limit, no stretch of that length, wherever it is laid over the run, ever
   * holds more than `limit` admitted requests that were not given back.
   */
  lemma {:induction false} NeverMoreThanLimit(log: Log, es: seq<Event>, from: int, window: int, limit: int,
                                              used: set<string>)
    requires WithinLimit(log, window, limit) && (forall m :: m in log ==> log[m] <= from)
    requires Calm(es, from, window, used)
    requires forall e :: e in es && e.Consume? ==> e.window == window && e.limit == limit
    ensures WithinLimit(HistoryAfter(log, es), window, limit)
    decreases |es|
  {
    if es != [] {
      var e := es[0];
      StepKeepsWithinLimit(log, e, from, window, limit);
      NeverMoreThanLimit(LogAfter(log, e), es[1..], if e.Consume? then e.at else from, window, limit,
                         if e.Consume? then used + {e.member} else used);
    }
  }

  // ---- what a refusal promises ----

  /** The requests admitted after the oldest of the window. */
  function Younger(recent: Log): Log
    requires recent != map[]
  {
    map m | m in recent && Oldest(recent) < recent[m] :: recent[m]
  }

  /**
   * A refusal's reset instant, the one it answers: an otherwise idle key refuses until then, and admits then if and
   * only if fewer than `limit` requests are younger than the oldest.
   */
  lemma ResetIsFirstIff(log: Log, now: int, window: int, limit: int)
    requires AnswerOf(Recent(log, now, window), now, window, limit).Refused?
    requires forall m :: m in log ==> log[m] <= now
    ensures var reset := AnswerOf(Recent(log, now, window), now, window, limit).resetAtMs;
            && now < reset
            && (forall t :: now <= t < reset ==> !AnswerOf(Recent(log, t, window), t, window, limit).Admitted?)
            && (AnswerOf(Recent(log, reset, window), reset, window, limit).Admitted? <==>
                |Younger(Recent(log, now, window))| < limit)
  {
    var recent := Recent(log, now, window);
    var reset := Oldest(recent) + window;
    forall t | now <= t < reset
      ensures Recent(log, t, window) == recent
    {
    }
    AtReset(log, now, window);
  }

  /** At its reset instant the window has lost its oldest requests and nothing else. */
  lemma AtReset(log: Log, now: int, window: int)
    requires (forall m :: m in log ==> log[m] <= now) && Recent(log, now, window) != map[]
    ensures Recent(log, Oldest(Recent(log, now, window)) + window, window) == Younger(Recent(log, now, window))
  {
    var recent := Recent(log, now, window);
    var o :| o in recent && recent[o] == Oldest(recent);
  }

  /** Under one limit the reset instant is exact: the window never holds more than the limit. */
  lemma ResetIsFirstUnderOneLimit(log: Log, now: int, window: int, limit: int)
    requires AnswerOf(Recent(log, now, window), now, window, limit).Refused? && WithinLimit(log, window, limit)
    ensures |Younger(Recent(log, now, window))| < limit
  {
    var recent := Recent(log, now, window);
    var m :| m in recent && recent[m] == Oldest(recent);
    assert m !in Younger(recent);
    SubsetSize(Younger(recent).Keys, recent.Keys - {m});
  }

  /** In seconds the instant is rounded up: the key is still refusing one second earlier. */
  function ResetSeconds(ms: int): int { (ms + 999) / 1000 }

  lemma ResetSecondsAreLeast(ms: int, s: int)
    ensures ms <= s * 1000 <==> ResetSeconds(ms) <= s
  {
  }

  /** On an admission the instant is when this request leaves the window; it is the next to free a slot
      if and only if no older request is still there. */
  lemma AdmissionResetIsNextFreeIff(log: Log, now: int, window: int, limit: int, member: string)
    requires 0 < window && AnswerOf(Recent(log, now, window), now, window, limit).Admitted? && member !in log
    requires forall m :: m in log ==> log[m] <= now
    ensures var after := Recent(log[member := now], now, window);
            after != map[] && (Oldest(after) + window == now + window <==>
                               forall m :: m in Recent(log, now, window) ==> log[m] == now)
  {
    var after := Recent(log[member := now], now, window);
    assert member in after;
    forall m | m in Recent(log, now, window)
      ensures m in after && after[m] == log[m]
    {
    }
    var o :| o in after && after[o] == Oldest(after);
    assert o == member || o in Recent(log, now, window);
  }

  // ---- what an admission promises ----

  /** Further requests at the same instant, each under a name of its own. */
  ghost predicate AtOnce(es: seq<Event>, now: int, window: int, limit: int, taken: set<string>)
    decreases |es|
  {
    es != [] ==>
      && es[0].Consume? && es[0].at == now && es[0].window == window && es[0].limit == limit
      && es[0].member !in taken && AtOnce(es[1..], now, window, limit, taken + {es[0].member})
  }

  /** Further requests at this instant, each under a name not in the window. */
  ghost predicate Burst(z: Option<ZSet>, es: seq<Event>, now: int, window: int, limit: int) {
    AtOnce(es, now, window, limit, Pruned(z, now, window).Keys)
  }

  predicate NthAdmitted(z: Option<ZSet>, es: seq<Event>, i: nat) {
    i < |SetAnswers(z, es)| && SetAnswers(z, es)[i].Admitted?
  }

  /** Of any number of further requests at this instant exactly the first n are admitted. */
  ghost predicate AdmitsExactly(z: Option<ZSet>, now: int, window: int, limit: int, n: int) {
    forall es, i: nat :: Burst(z, es, now, window, limit) && i < |es| ==> (NthAdmitted(z, es, i) <==> i < n)
  }

  lemma {:induction false} BurstAdmits(z: Option<ZSet>, es: seq<Event>, now: int, window: int, limit: int,
                                       taken: set<string>, i: nat)
    requires 0 < window && i < |es| && Pruned(z, now, window).Keys <= taken && AtOnce(es, now, window, limit, taken)
    ensures NthAdmitted(z, es, i) <==> i < limit - |Pruned(z, now, window)|
    decreases |es|
  {
    var m := es[0].member;
    var z' := AfterConsume(z, now, window, limit, m);
    CountAfterConsume(z, now, window, limit, m, taken);
    assert SetAnswers(z, es) == [AnswerOf(Pruned(z, now, window), now, window, limit)] + SetAnswers(z', es[1..]);
    if 0 < i {
      BurstAdmits(z', es[1..], now, window, limit, taken + {m}, i - 1);
    }
  }

  /** One more in the window, or as many as before. */
  lemma CountAfterConsume(z: Option<ZSet>, now: int, window: int, limit: int, member: string, taken: set<string>)
    requires 0 < window && Pruned(z, now, window).Keys <= taken && member !in taken
    ensures var n := |Pruned(z, now, window)|;
            var kept := Pruned(AfterConsume(z, now, window, limit, member), now, window);
            |kept| == (if n < limit then n + 1 else n) && kept.Keys <= taken + {member}
  {
    var kept := Pruned(z, now, window);
    AfterConsumeNow(z, now, window, limit, member);
    assert kept[member := now].Keys == kept.Keys + {member};
  }

  lemma AdmitsTheRest(z: Option<ZSet>, now: int, window: int, limit: int)
    requires 0 < window
    ensures AdmitsExactly(z, now, window, limit, limit - |Pruned(z, now, window)|)
  {
    forall es, i: nat | Burst(z, es, now, window, limit) && i < |es|
      ensures NthAdmitted(z, es, i) <==> i < limit - |Pruned(z, now, window)|
    {
      BurstAdmits(z, es, now, window, limit, Pruned(z, now, window).Keys, i);
    }
  }

  /** What is in the window after one evaluation at this instant. */
  lemma AfterConsumeNow(z: Option<ZSet>, now: int, window: int, limit: int, member: string)
    requires 0 < window
    ensures var kept := Pruned(z, now, window);
            Pruned(AfterConsume(z, now, window, limit, member), now, window) ==
            if |kept| < limit then kept[member := now] else kept
  {
  }

  /**
   * The numbers an admission answers: `remaining` is how many further requests at that instant are admitted before
   * one is refused, whoever makes them; `resetAtMs` is the first instant at which this request has left the window.
   */
  lemma AdmissionAnswersAreExact(z: Option<ZSet>, now: int, window: int, limit: int, member: string)
    requires 0 < window && member !in Pruned(z, now, window)
    requires AnswerOf(Pruned(z, now, window), now, window, limit).Admitted?
    ensures var a := AnswerOf(Pruned(z, now, window), now, window, limit);
            var z' := AfterConsume(z, now, window, limit, member);
            && 0 <= a.remaining && AdmitsExactly(z', now, window, limit, a.remaining)
            && forall t :: now <= t ==> (member in Pruned(z', t, window) <==> t < a.resetAtMs)
  {
    var a := AnswerOf(Pruned(z, now, window), now, window, limit);
    var z' := AfterConsume(z, now, window, limit, member);
    var kept := Pruned(z, now, window);
    CountAfterConsume(z, now, window, limit, member, kept.Keys);
    AdmitsTheRest(z', now, window, limit);
  }

  /** The set outlives every request in it for this window, and none is in the future. */
  ghost predicate Outlives(z: Option<ZSet>, now: int, window: int) {
    z.Some? ==> forall m :: m in z.value.scores ==>
      z.value.scores[m] <= now && z.value.scores[m] + window <= z.value.expiry
  }

  /** The same of the set's own refusal: till the instant it answers, an otherwise idle key refuses. */
  lemma RefusalAnswersAreExact(z: Option<ZSet>, now: int, window: int, limit: int, member: string)
    requires AnswerOf(Pruned(z, now, window), now, window, limit).Refused? && Outlives(z, now, window)
    ensures var a := AnswerOf(Pruned(z, now, window), now, window, limit);
            var z' := AfterConsume(z, now, window, limit, member);
            && now < a.resetAtMs
            && (forall t :: now <= t < a.resetAtMs ==>
                  !AnswerOf(Pruned(z', t, window), t, window, limit).Admitted?)
            && (AnswerOf(Pruned(z', a.resetAtMs, window), a.resetAtMs, window, limit).Admitted? <==>
                |Younger(Pruned(z, now, window))| < limit)
  {
    var kept := Pruned(z, now, window);
    var reset := Oldest(kept) + window;
    var z' := AfterConsume(z, now, window, limit, member);
    var o :| o in kept && kept[o] == Oldest(kept);
    forall t | now <= t < reset
      ensures Pruned(z', t, window) == kept
    {
      assert now - window < kept[o] && t < z.value.expiry;
    }
    assert Pruned(z', reset, window) == Younger(kept);
  }

  // ---- what the conditions are for ----

  /** A window wider than an earlier one asks about requests already pruned: the set admits too many. */
  lemma WideningForgets()
    ensures var z := AfterConsume(AfterConsume(None, 0, 10, 1, "a"), 10, 10, 1, "b");
            var log := LogAfter(LogAfter(map[], Consume(0, 10, 1, "a")), Consume(10, 10, 1, "b"));
            && AnswerOf(Pruned(z, 11, 60), 11, 60, 2).Admitted?
            && AnswerOf(Recent(log, 11, 60), 11, 60, 2).Refused?
  {
    var z := AfterConsume(AfterConsume(None, 0, 10, 1, "a"), 10, 10, 1, "b");
    assert z.value.scores == map["b" := 10];
    assert Pruned(z, 11, 60) == z.value.scores;
    var log := LogAfter(map[], Consume(0, 10, 1, "a"));
    assert log == map["a" := 0] && Recent(log, 10, 10) == map[];
    var both := log["b" := 10];
    assert Recent(both, 11, 60) == both && |both| == 2;
  }

  /** A limit lowered between two calls: the reset instant of the refusal is refused as well. */
  lemma LoweredLimitResetsEarly()
    ensures var log := map["a" := 0, "b" := 5];
            && AnswerOf(Recent(log, 6, 10), 6, 10, 1) == Refused(10)
            && AnswerOf(Recent(log, 10, 10), 10, 10, 1) == Refused(15)
  {
    var log := map["a" := 0, "b" := 5];
    assert Recent(log, 6, 10) == log && |log| == 2;
    assert log["a"] == 0;
    assert Recent(log, 10, 10) == map["b" := 5];
    assert map["b" := 5]["b"] == 5;
  }
}
