/**
 * Queue configuration (packages/platform-jobs/src/config.ts): what `resolveRetention` and `resolveQueue`
 * accept, and that an accepted `retention.pending` covers every retry. Seconds; jitter is a real in [0, 1].
 */
module Retention {
  import opened Common

  const DAY := 86400
  const EXPIRE_DEFAULT := 900
  const HEARTBEAT_ABOVE := 300
  const HEARTBEAT_DEFAULT := 30
  const MIN_HEARTBEAT := 10
  const RETRY_LIMIT_DEFAULT := 3
  const MIN_RETRY_LIMIT := 1
  const RETRY_DELAY_DEFAULT := 5
  const RETRY_DELAY_MAX_DEFAULT := 300
  const COMPLETED_DEFAULT := 604800
  const DEAD_LETTER_DEFAULT := 2592000
  const PENDING_DEFAULT := 1209600
  const MIN_PENDING := 60
  const DETECTION := 75

  datatype Keep = Immediately | Seconds(s: int)

  datatype RetentionOptions = RetentionOptions(
    completed: Option<Keep>, failed: Option<int>, deadLetter: Option<int>, pending: Option<int>)

  datatype Config = Config(
    name: string, expireIn: Option<int>, heartbeat: Option<int>, retryLimit: Option<int>, acceptDeadLetterOnDrain: bool,
    retryDelay: Option<int>, retryDelayMax: Option<int>, deadLetter: Option<string>, retention: RetentionOptions)

  datatype ResolvedRetention = ResolvedRetention(
    deleteOnSuccess: bool, finished: int, deadLetter: int, pending: int, pendingExplicit: bool)

  datatype Resolved = Resolved(
    expireIn: int, heartbeat: Option<int>, retryLimit: int, retryDelay: int, retryDelayMax: int,
    deadLetter: string, retention: ResolvedRetention)

  function Or<T>(o: Option<T>, default: T): T { if o.Some? then o.value else default }

  predicate Within(v: int, lo: int, hi: int) { lo <= v <= hi }

  predicate WithinIfGiven(o: Option<int>, lo: int, hi: int) { o.Some? ==> Within(o.value, lo, hi) }

  /** Refusals are `None`: the thrown JobsConfigError. */
  function ResolveRetention(r: RetentionOptions): (v: Option<ResolvedRetention>)
    // Failures, where they are kept at all, are kept as long as was asked; without `immediate`, so are successes.
    ensures v.Some? && r.failed.Some? ==> v.value.finished == r.failed.value
    ensures v.Some? && r.completed.Some? && r.completed.value.Seconds? ==> v.value.finished == r.completed.value.s
    ensures v.Some? ==> (v.value.deleteOnSuccess <==> r.completed == Some(Immediately))
    ensures v.Some? && r.pending.Some? ==> v.value.pending == r.pending.value && v.value.pendingExplicit
    ensures v.Some? && r.deadLetter.Some? ==> v.value.deadLetter == r.deadLetter.value
    ensures v.Some? ==> 1 <= v.value.finished && 1 <= v.value.deadLetter && MIN_PENDING <= v.value.pending
  {
    if !WithinIfGiven(r.pending, MIN_PENDING, 3650 * DAY) then None
    else if r.completed.Some? && r.completed.value.Seconds? && !Within(r.completed.value.s, 1, 3650 * DAY) then None
    else if !WithinIfGiven(r.failed, 1, 3650 * DAY) || !WithinIfGiven(r.deadLetter, 1, 3650 * DAY) then None
    else
      var deadLetter, pending := Or(r.deadLetter, DEAD_LETTER_DEFAULT), Or(r.pending, PENDING_DEFAULT);
      if r.completed == Some(Immediately) then
        Some(ResolvedRetention(true, Or(r.failed, COMPLETED_DEFAULT), deadLetter, pending, r.pending.Some?))
      else if r.completed.Some? && r.failed.Some? && r.failed.value != r.completed.value.s then None
      else
        var finished := if r.completed.Some? then r.completed.value.s else Or(r.failed, COMPLETED_DEFAULT);
        Some(ResolvedRetention(false, finished, deadLetter, pending, r.pending.Some?))
  }

  predicate NameStart(c: char) { 'A' <= c <= 'Z' || 'a' <= c <= 'z' || '0' <= c <= '9' }

  predicate NameChar(c: char) { NameStart(c) || c == '_' || c == '.' || c == '-' || c == '/' }

  predicate QueueName(n: string) { 1 <= |n| <= 100 && NameStart(n[0]) && forall c :: c in n ==> NameChar(c) }

  /** A name of at most 96 characters leaves room for the default dead-letter queue, and a longer one does not. */
  lemma DefaultDeadLetterFitsIff(name: string)
    requires QueueName(name)
    ensures QueueName(name + ".dlq") <==> |name| <= 96
  {
    var dlq := name + ".dlq";
    assert dlq[0] == name[0];
    forall c | c in dlq
      ensures NameChar(c)
    {
      assert c in name || c in ".dlq";
    }
  }

  /** Names join by each of the four separators, as long as the whole is not over 100 characters; none starts with
      one, and no other character is let in. */
  lemma NamesJoin(a: string, b: string, separator: char)
    requires QueueName(a) && QueueName(b)
    ensures separator in "_.-/" ==> (QueueName(a + [separator] + b) <==> |a| + 1 + |b| <= 100)
    ensures !NameStart(separator) && separator !in "_.-/" ==> !QueueName(a + [separator] + b)
    ensures separator in "_.-/" ==> !QueueName([separator] + b)
  {
    var joined := a + [separator] + b;
    assert joined[0] == a[0] && joined[|a|] == separator;
    assert separator in "_.-/" <==> separator == '_' || separator == '.' || separator == '-' || separator == '/' by {
      assert "_.-/"[0] == '_' && "_.-/"[1] == '.' && "_.-/"[2] == '-' && "_.-/"[3] == '/';
    }
    assert separator in joined;
    assert forall c :: c in joined ==> c in a || c == separator || c in b;
  }

  /** What the check on an explicit `pending` asks for. */
  function LeastWindow(retryLimit: int, expireIn: int, retryDelayMax: int): int {
    (retryLimit + 1) * (expireIn + DETECTION) + retryLimit * retryDelayMax
  }

  function ResolveQueue(c: Config): (v: Option<Resolved>)
    ensures v.Some? ==>
      var q := v.value;
      && 1 <= q.expireIn && 0 <= q.retryLimit <= 100 && 1 <= q.retryDelay <= q.retryDelayMax
      && (q.retryLimit == 0 ==> c.acceptDeadLetterOnDrain)
      && (HEARTBEAT_ABOVE < q.expireIn ==> q.heartbeat.Some?)
      && q.deadLetter != c.name && QueueName(q.deadLetter)
      && ResolveRetention(c.retention) == Some(q.retention)
      && (c.retention.pending.Some? ==>
            LeastWindow(q.retryLimit, q.expireIn, q.retryDelayMax) <= c.retention.pending.value)
  {
    var expireIn := Or(c.expireIn, EXPIRE_DEFAULT);
    var limit := Or(c.retryLimit, RETRY_LIMIT_DEFAULT);
    var delay := Or(c.retryDelay, RETRY_DELAY_DEFAULT);
    var delayMax := Or(c.retryDelayMax, RETRY_DELAY_MAX_DEFAULT);
    var deadLetter := Or(c.deadLetter, c.name + ".dlq");
    if !QueueName(c.name) || !Within(expireIn, 1, 7 * DAY) || !WithinIfGiven(c.heartbeat, MIN_HEARTBEAT, DAY) then None
    else if !Within(limit, 0, 100) || (limit < MIN_RETRY_LIMIT && !c.acceptDeadLetterOnDrain) then None
    else if !Within(delay, 1, DAY) || !Within(delayMax, delay, 7 * DAY) then None
    else if !QueueName(deadLetter) || deadLetter == c.name then None
    else
      var heartbeat := if c.heartbeat.Some? then c.heartbeat
                       else if HEARTBEAT_ABOVE < expireIn then Some(HEARTBEAT_DEFAULT) else None;
      match ResolveRetention(c.retention)
      case None => None
      case Some(r) =>
        if r.pendingExplicit && r.pending < LeastWindow(limit, expireIn, delayMax) then None
        else Some(Resolved(expireIn, heartbeat, limit, delay, delayMax, deadLetter, r))
  }

  /** A retention is accepted exactly when each number given is in its range, and what is deleted on one clock is
      not asked to be kept for two times. */
  lemma RetentionResolvesIff(r: RetentionOptions)
    ensures ResolveRetention(r).Some? <==>
      && (r.pending.Some? ==> 60 <= r.pending.value <= 315360000)
      && (r.failed.Some? ==> 1 <= r.failed.value <= 315360000)
      && (r.deadLetter.Some? ==> 1 <= r.deadLetter.value <= 315360000)
      && (r.completed.Some? && r.completed.value.Seconds? ==>
            1 <= r.completed.value.s <= 315360000 && (r.failed.Some? ==> r.failed.value == r.completed.value.s))
  {
  }

  /** What is not given: a week for finished jobs, thirty days for dead letters, two weeks for jobs nobody fetched. */
  lemma RetentionDefaults(r: RetentionOptions)
    requires ResolveRetention(r).Some?
    ensures var v := ResolveRetention(r).value;
            && (r.failed.None? && (r.completed.None? || r.completed == Some(Immediately)) ==> v.finished == 7 * 86400)
            && (r.deadLetter.None? ==> v.deadLetter == 30 * 86400)
            && (r.pending.None? ==> v.pending == 14 * 86400 && !v.pendingExplicit)
  {
  }

  /** A resolved queue is what was asked for, and where nothing was, the defaults; a job of more than five minutes
      gets a heartbeat of half a minute unless it names one. */
  lemma QueueResolvesTo(c: Config)
    requires ResolveQueue(c).Some?
    ensures var q := ResolveQueue(c).value;
            && q.expireIn == Or(c.expireIn, 900) && q.retryLimit == Or(c.retryLimit, 3)
            && q.retryDelay == Or(c.retryDelay, 5) && q.retryDelayMax == Or(c.retryDelayMax, 300)
            && (c.deadLetter.Some? ==> q.deadLetter == c.deadLetter.value)
            && (c.deadLetter.None? ==> q.deadLetter == c.name + ".dlq")
            && (c.heartbeat.Some? ==> q.heartbeat == c.heartbeat)
            && (c.heartbeat.None? ==> q.heartbeat == if 300 < q.expireIn then Some(30) else None)
  {
  }

  /** A queue is accepted exactly when each number is in its range, a retry is in hand or that was waived, its dead
      letters go to another queue with a proper name, and an explicit `pending` is what the check asks for. */
  lemma QueueResolvesIff(c: Config)
    ensures var limit, expire, max := Or(c.retryLimit, 3), Or(c.expireIn, 900), Or(c.retryDelayMax, 300);
            var dlq := Or(c.deadLetter, c.name + ".dlq");
            ResolveQueue(c).Some? <==>
              && QueueName(c.name) && QueueName(dlq) && dlq != c.name
              && 1 <= expire <= 604800 && (c.heartbeat.Some? ==> 10 <= c.heartbeat.value <= 86400)
              && 0 <= limit <= 100 && (limit == 0 ==> c.acceptDeadLetterOnDrain)
              && 1 <= Or(c.retryDelay, 5) <= 86400 && Or(c.retryDelay, 5) <= max <= 604800
              && ResolveRetention(c.retention).Some?
              && (c.retention.pending.Some? ==>
                    (limit + 1) * (expire + 75) + limit * max <= c.retention.pending.value)
  {
  }

  // ---- retry delays ----

  function Pow2(n: nat): nat { if n == 0 then 1 else 2 * Pow2(n - 1) }

  function RealMin(a: real, b: real): real { if a <= b then a else b }

  /** pg-boss's wait before retry n + 1. */
  function Delay(q: Resolved, jitter: nat -> real, n: nat): real {
    RealMin(q.retryDelayMax as real, (q.retryDelay * Pow2(n)) as real * (1.0 + jitter(n)))
  }

  function TotalDelay(q: Resolved, jitter: nat -> real, n: nat): real {
    if n == 0 then 0.0 else TotalDelay(q, jitter, n - 1) + Delay(q, jitter, n - 1)
  }

  /** The same total when every draw is zero. */
  function LeastTotal(retryDelay: nat, retryDelayMax: nat, n: nat): nat {
    if n == 0 then 0 else LeastTotal(retryDelay, retryDelayMax, n - 1) + Min(retryDelayMax, retryDelay * Pow2(n - 1))
  }

  ghost predicate Jitter(jitter: nat -> real) { forall n: nat :: 0.0 <= jitter(n) <= 1.0 }

  /** `minRetryWindowSeconds` (packages/platform-mail/src/jobs.ts) */
  method MinRetryWindowSeconds(limit: nat, delay: nat, max: nat) returns (total: nat)
    ensures total == LeastTotal(delay, max, limit)
  {
    total := 0;
    var n, power := 0, 1;
    while n < limit
      invariant n <= limit && power == Pow2(n) && total == LeastTotal(delay, max, n)
    {
      total := total + Min(max, delay * power);
      n, power := n + 1, 2 * power;
    }
  }

  lemma ScaleByAtLeastOne(x: real, f: real)
    requires 0.0 <= x && 1.0 <= f
    ensures x <= x * f
  {
    assert 0.0 <= x * (f - 1.0);
  }

  lemma DelayAtLeast(q: Resolved, jitter: nat -> real, n: nat)
    requires 0 < q.retryDelay && 0.0 <= jitter(n)
    ensures Min(q.retryDelayMax, q.retryDelay * Pow2(n)) as real <= Delay(q, jitter, n) <= q.retryDelayMax as real
  {
    assert 0 <= q.retryDelay * Pow2(n);
    ScaleByAtLeastOne((q.retryDelay * Pow2(n)) as real, 1.0 + jitter(n));
  }

  /** For every sequence of draws, the retries span at least the guaranteed window, at most limit x max. */
  lemma {:induction false} DelaysBetween(q: Resolved, jitter: nat -> real, n: nat)
    requires 0 < q.retryDelay <= q.retryDelayMax && Jitter(jitter)
    ensures LeastTotal(q.retryDelay, q.retryDelayMax, n) as real <= TotalDelay(q, jitter, n)
    ensures TotalDelay(q, jitter, n) <= (n * q.retryDelayMax) as real
  {
    if 0 < n {
      DelaysBetween(q, jitter, n - 1);
      DelayAtLeast(q, jitter, n - 1);
      MulMonotone(n - 1, n - 1, q.retryDelayMax);
    }
  }

  // ---- one job's life ----

  /** When attempts start and when their end is noticed. */
  datatype Life = Life(created: real, starts: nat -> real, ends: nat -> real)

  /** Attempt k starts, and its end is noticed at most `expireIn + 75` seconds later; the next one is
      fetched as soon as its delay has passed. */
  ghost predicate Turn(q: Resolved, jitter: nat -> real, l: Life, k: nat) {
    && l.starts(k) <= l.ends(k) <= l.starts(k) + (q.expireIn + DETECTION) as real
    && l.starts(k + 1) == l.ends(k) + Delay(q, jitter, k)
  }

  ghost predicate FetchedWhenDue(q: Resolved, jitter: nat -> real, l: Life) {
    l.starts(0) == l.created && forall k: nat :: Turn(q, jitter, l, k)
  }

  /** The longest wait before retry n + 1. */
  function WorstDelay(q: Resolved, n: nat): int { Min(q.retryDelayMax, 2 * (q.retryDelay * Pow2(n))) }

  /** The latest, after its creation, that a job's k-th retry is fetched. */
  function WorstStart(q: Resolved, k: nat): int {
    if k == 0 then 0 else WorstStart(q, k - 1) + (q.expireIn + DETECTION) + WorstDelay(q, k - 1)
  }

  lemma DelayAtMostWorst(q: Resolved, jitter: nat -> real, n: nat)
    requires 0 <= q.retryDelay && 0.0 <= jitter(n) <= 1.0
    ensures Delay(q, jitter, n) <= WorstDelay(q, n) as real
    ensures jitter(n) == 1.0 ==> Delay(q, jitter, n) == WorstDelay(q, n) as real
  {
    var x := q.retryDelay * Pow2(n);
    assert 0 <= x;
    assert 0.0 <= x as real * (1.0 - jitter(n));
    assert x as real * (1.0 + jitter(n)) <= (2 * x) as real;
  }

  lemma {:induction false} StartedByWorst(q: Resolved, jitter: nat -> real, l: Life, k: nat)
    requires 0 <= q.retryDelay && Jitter(jitter) && FetchedWhenDue(q, jitter, l)
    ensures l.starts(k) <= l.created + WorstStart(q, k) as real
  {
    if 0 < k {
      StartedByWorst(q, jitter, l, k - 1);
      assert Turn(q, jitter, l, k - 1);
      DelayAtMostWorst(q, jitter, k - 1);
    }
  }

  lemma {:induction false} WorstStartBounded(q: Resolved, k: nat)
    ensures WorstStart(q, k) <= k * (q.expireIn + DETECTION) + k * q.retryDelayMax
  {
    var e, m := q.expireIn + DETECTION, q.retryDelayMax;
    if 0 < k {
      WorstStartBounded(q, k - 1);
      assert k * e == (k - 1) * e + e && k * m == (k - 1) * m + m;
    }
  }

  lemma MulMonotone(k: int, n: int, x: int)
    requires k <= n && 0 <= x
    ensures k * x <= n * x && (n + 1) * x == n * x + x
  {
    assert 0 <= (n - k) * x;
  }

  lemma WorstStartWithin(q: Resolved, k: nat)
    requires 0 <= q.expireIn && 0 <= q.retryDelayMax && k <= q.retryLimit
    ensures WorstStart(q, k) <= LeastWindow(q.retryLimit, q.expireIn, q.retryDelayMax) - (q.expireIn + DETECTION)
  {
    WorstStartBounded(q, k);
    MulMonotone(k, q.retryLimit, q.expireIn + DETECTION);
    MulMonotone(k, q.retryLimit, q.retryDelayMax);
  }

  /**
   * An accepted explicit `pending` covers the retries: for every sequence of draws, whichever retry a job
   * waits for, it is fetched within its deadline, and with a whole attempt to spare.
   */
  lemma PendingCoversRetries(c: Config, jitter: nat -> real, l: Life, k: nat)
    requires ResolveQueue(c).Some? && c.retention.pending.Some?
    requires Jitter(jitter) && FetchedWhenDue(ResolveQueue(c).value, jitter, l) && k <= ResolveQueue(c).value.retryLimit
    ensures var q := ResolveQueue(c).value;
            l.starts(k) + (q.expireIn + DETECTION) as real <= l.created + q.retention.pending as real
  {
    var q := ResolveQueue(c).value;
    StartedByWorst(q, jitter, l, k);
    WorstStartWithin(q, k);
  }

  // ---- how tight the check is ----

  /** Every draw is 1, and every attempt runs out of time. */
  function Slowest(q: Resolved): Life {
    Life(0.0, (k: nat) => WorstStart(q, k) as real, (k: nat) => (WorstStart(q, k) + q.expireIn + DETECTION) as real)
  }

  lemma SlowestLifeReachesWorst(q: Resolved, k: nat)
    requires 0 <= q.retryDelay && 0 <= q.expireIn
    ensures FetchedWhenDue(q, n => 1.0, Slowest(q)) && Jitter(n => 1.0)
    ensures Slowest(q).starts(k) == Slowest(q).created + WorstStart(q, k) as real
  {
    var jitter: nat -> real := n => 1.0;
    forall k: nat
      ensures Turn(q, jitter, Slowest(q), k)
    {
      DelayAtMostWorst(q, jitter, k);
    }
  }

  lemma {:induction false} WorstStartGrows(q: Resolved, k: nat, n: nat)
    requires 0 <= q.retryDelay && 0 <= q.retryDelayMax && 0 <= q.expireIn && k <= n
    ensures WorstStart(q, k) <= WorstStart(q, n)
    decreases n
  {
    if k < n {
      WorstStartGrows(q, k, n - 1);
      assert 0 <= q.retryDelay * Pow2(n - 1);
    }
  }

  /** This retry of this life is fetched within d seconds of the job's creation. */
  predicate StartsWithin(l: Life, k: nat, d: int) { l.starts(k) <= l.created + d as real }

  /** A deadline of d seconds covers every retry of every life, whatever the draws. */
  ghost predicate Covers(q: Resolved, d: int) {
    forall jitter: nat -> real, l: Life, k: nat ::
      Jitter(jitter) && FetchedWhenDue(q, jitter, l) && k <= q.retryLimit ==> StartsWithin(l, k, d)
  }

  /** The exact need: a deadline covers the retries if and only if it is not before the worst start of the last. */
  lemma CoversIff(q: Resolved, d: int)
    requires 0 <= q.retryDelay && 0 <= q.retryDelayMax && 0 <= q.expireIn && 0 <= q.retryLimit
    ensures Covers(q, d) <==> WorstStart(q, q.retryLimit) <= d
  {
    SlowestLifeReachesWorst(q, q.retryLimit);
    if Covers(q, d) {
      assert StartsWithin(Slowest(q), q.retryLimit, d);
    }
    if WorstStart(q, q.retryLimit) <= d {
      forall jitter: nat -> real, l: Life, k: nat
        | Jitter(jitter) && FetchedWhenDue(q, jitter, l) && k <= q.retryLimit
        ensures StartsWithin(l, k, d)
      {
        StartedByWorst(q, jitter, l, k);
        WorstStartGrows(q, k, q.retryLimit);
      }
    }
  }

  /** The same queue with this explicit `pending`, and with none. */
  function WithPending(c: Config, pending: Option<int>): Config {
    c.(retention := c.retention.(pending := pending))
  }

  /**
   * Which deadlines are refused although they would cover: exactly those from the worst start of the last retry
   * up to, not including, what the check asks for. (A deadline under a minute or over ten years is refused on
   * its own account.)
   */
  lemma RefusedThoughEnoughIff(c: Config, d: int)
    requires ResolveQueue(WithPending(c, None)).Some? && MIN_PENDING <= d <= 3650 * DAY
    ensures var q := ResolveQueue(WithPending(c, None)).value;
            && (ResolveQueue(WithPending(c, Some(d))).None? && Covers(q, d) <==>
                WorstStart(q, q.retryLimit) <= d < LeastWindow(q.retryLimit, q.expireIn, q.retryDelayMax))
            && (ResolveQueue(WithPending(c, Some(d))).Some? ==> Covers(q, d))
  {
    var q := ResolveQueue(WithPending(c, None)).value;
    CoversIff(q, d);
    WorstStartWithin(q, q.retryLimit);
  }

  /** Such deadlines exist: this one covers every life, and is refused. */
  lemma CheckCanRefuseEnough()
    ensures
      var none := RetentionOptions(None, None, None, None);
      var c := Config("q", Some(25), None, Some(1), false, Some(1), Some(1000), None, none);
      var q := ResolveQueue(c);
      && q.Some? && ResolveQueue(WithPending(c, Some(1000))).None?
      && WorstStart(q.value, 1) == 102 && Covers(q.value, 1000)
  {
    var none := RetentionOptions(None, None, None, None);
    var c := Config("q", Some(25), None, Some(1), false, Some(1), Some(1000), None, none);
    assert ResolveQueue(c).Some?;
    var q := ResolveQueue(c).value;
    assert WorstDelay(q, 0) == 2;
    CoversIff(q, 1000);
  }

  // ---- the mail queue ----

  const MAIL := Config("mail.send", Some(300), Some(30), Some(10), false, Some(10), Some(900), None,
                       RetentionOptions(Some(Immediately), Some(86400), Some(86400), Some(86400)))

  /** MAIL_QUEUE_CONFIG is accepted; its retries span at least an hour, and all fit in its 24 hours. */
  lemma MailQueueFits()
    ensures ResolveQueue(MAIL).Some?
    ensures var q := ResolveQueue(MAIL).value;
            && q.retention == ResolvedRetention(true, 86400, 86400, 86400, true)
            && LeastTotal(q.retryDelay, q.retryDelayMax, q.retryLimit) == 3970
            && LeastWindow(q.retryLimit, q.expireIn, q.retryDelayMax) == 13125
  {
    assert Pow2(1) == 2 && Pow2(2) == 4 && Pow2(3) == 8 && Pow2(4) == 16 && Pow2(5) == 32;
    assert Pow2(6) == 64 && Pow2(7) == 128 && Pow2(8) == 256 && Pow2(9) == 512;
    assert LeastTotal(10, 900, 3) == 70;
    assert LeastTotal(10, 900, 6) == 630;
    assert LeastTotal(10, 900, 8) == 630 + 640 + 900;
    assert LeastTotal(10, 900, 10) == 3970;
  }

  /** So for every sequence of draws a mail retries for at least an hour; and every life of a mail fetches each
      retry within its 24 hours, whole attempt included. */
  lemma MailRetriesAtLeastAnHour(jitter: nat -> real, l: Life, k: nat)
    requires Jitter(jitter) && k <= 10
    ensures ResolveQueue(MAIL).Some?
    ensures 3600.0 <= TotalDelay(ResolveQueue(MAIL).value, jitter, 10) <= 9000.0
    ensures FetchedWhenDue(ResolveQueue(MAIL).value, jitter, l) ==> l.starts(k) + 375.0 <= l.created + 86400.0
  {
    MailQueueFits();
    var q := ResolveQueue(MAIL).value;
    DelaysBetween(q, jitter, 10);
    if FetchedWhenDue(q, jitter, l) {
      PendingCoversRetries(MAIL, jitter, l, k);
    }
  }
}
