/**
 * One attempt of `mail.send`: `waitForSlot` and `run` (packages/platform-mail/src/jobs.ts) around the
 * Graph sender's loop (packages/platform-mail/src/graph.ts). What the world answers (slots, sleeps,
 * tokens, replies, the abort signal) is given by functions of how often it has been asked.
 */
module MailAttempt {
  import opened Common

  const MAX_SLOT_WAIT_MS := 120000
  const DEFAULT_COOLDOWN_SECONDS := 60
  const MAX_COOLDOWN_SECONDS := 600

  datatype ErrorCode =
    | InvalidMessage | Unauthenticated | Forbidden | MailboxNotFound | TooLarge
    | Throttled | Unavailable | Network | Timeout

  /** `Foreign` is anything thrown that is not a MailSendError: a cache error, an abort reason. */
  datatype Failure = MailSendError(code: ErrorCode, retryAfterSeconds: Option<int>) | Foreign

  predicate Retryable(c: ErrorCode) {
    c.Unauthenticated? || c.Throttled? || c.Unavailable? || c.Network? || c.Timeout?
  }

  function CeilSeconds(ms: nat): nat { (ms + 999) / 1000 }

  /** A cooldown from the provider's Retry-After, within its bounds. */
  function CooldownSeconds(retryAfterSeconds: Option<int>): (s: int)
    ensures 1 <= s <= MAX_COOLDOWN_SECONDS
    ensures retryAfterSeconds.None? ==> s == DEFAULT_COOLDOWN_SECONDS
    ensures retryAfterSeconds.Some? && 1 <= retryAfterSeconds.value <= MAX_COOLDOWN_SECONDS
            ==> s == retryAfterSeconds.value
  {
    Min(MAX_COOLDOWN_SECONDS,
        Max(1, if retryAfterSeconds.Some? then retryAfterSeconds.value else DEFAULT_COOLDOWN_SECONDS))
  }

  // ---- waiting for a slot ----

  datatype SlotReply = SlotReply(waitMs: int) | StateDown

  datatype WaitEnd = Go | GaveUp(retryAfterSeconds: nat) | Unavail | Interrupted

  /** The waits asked for by the first k answers. */
  function Asked(slots: nat -> SlotReply, k: nat): int {
    if k == 0 then 0
    else Asked(slots, k - 1) + if slots(k - 1).SlotReply? then slots(k - 1).waitMs else 0
  }

  /** The first k answers all asked for a wait, and every one of those waits was slept through. */
  ghost predicate SleptThrough(slots: nat -> SlotReply, wakes: nat -> bool, k: nat) {
    forall i: nat :: i < k ==> slots(i).SlotReply? && 0 < slots(i).waitMs && wakes(i)
  }

  /** How the wait ends, and after how many questions. */
  ghost predicate WaitEnds(slots: nat -> SlotReply, wakes: nat -> bool, end: WaitEnd, polls: nat) {
    && 0 < polls
    && SleptThrough(slots, wakes, polls - 1)
    && var last, before := slots(polls - 1), Asked(slots, polls - 1);
       && before <= MAX_SLOT_WAIT_MS
       && match end
          case Go => last.SlotReply? && last.waitMs <= 0
          case Unavail => last.StateDown?
          case GaveUp(s) => last.SlotReply? && 0 < last.waitMs && MAX_SLOT_WAIT_MS < before + last.waitMs &&
                            s == CeilSeconds(last.waitMs)
          case Interrupted => last.SlotReply? && 0 < last.waitMs && before + last.waitMs <= MAX_SLOT_WAIT_MS &&
                              !wakes(polls - 1)
  }

  /** Terminates for every sequence of answers, having slept at most two minutes. */
  method WaitForSlot(slots: nat -> SlotReply, wakes: nat -> bool) returns (end: WaitEnd, polls: nat, waitedMs: int)
    ensures WaitEnds(slots, wakes, end, polls)
    ensures waitedMs == Asked(slots, polls - 1) && 0 <= waitedMs <= 120000
  {
    waitedMs, polls := 0, 0;
    while true
      invariant SleptThrough(slots, wakes, polls)
      invariant waitedMs == Asked(slots, polls) && 0 <= waitedMs <= MAX_SLOT_WAIT_MS
      decreases MAX_SLOT_WAIT_MS - waitedMs
    {
      var reply := slots(polls);
      polls := polls + 1;
      match reply {
        case StateDown =>
          return Unavail, polls, waitedMs;
        case SlotReply(waitMs) =>
          if waitMs <= 0 { return Go, polls, waitedMs; }
          if MAX_SLOT_WAIT_MS < waitedMs + waitMs { return GaveUp(CeilSeconds(waitMs)), polls, waitedMs; }
          if !wakes(polls - 1) { return Interrupted, polls, waitedMs; }
          waitedMs := waitedMs + waitMs;
      }
    }
  }

  /** The answers decide: two runs of the wait on the same answers end alike. */
  lemma WaitEndsOneWay(slots: nat -> SlotReply, wakes: nat -> bool, e: WaitEnd, m: nat, f: WaitEnd, n: nat)
    requires WaitEnds(slots, wakes, e, m) && WaitEnds(slots, wakes, f, n)
    ensures e == f && m == n
  {
    if m < n {
      StepsIntoTheLimit(slots, wakes, m, n);
    } else if n < m {
      StepsIntoTheLimit(slots, wakes, n, m);
    }
  }

  /** An answer that was slept through fitted the limit, so it was not one the wait could end on. */
  lemma {:induction false} StepsIntoTheLimit(slots: nat -> SlotReply, wakes: nat -> bool, m: nat, n: nat)
    requires 0 < m < n && SleptThrough(slots, wakes, n - 1) && Asked(slots, n - 1) <= MAX_SLOT_WAIT_MS
    ensures Asked(slots, m) <= MAX_SLOT_WAIT_MS
    ensures slots(m - 1).SlotReply? && 0 < slots(m - 1).waitMs && wakes(m - 1)
    decreases n
  {
    if m < n - 1 {
      assert slots(n - 2).SlotReply? && 0 < slots(n - 2).waitMs;
      StepsIntoTheLimit(slots, wakes, m, n - 1);
    }
  }

  // ---- the Graph sender's loop ----

  datatype HttpReply = NoToken | NoResponse(timedOut: bool) | Response(status: int, retryAfterSeconds: Option<nat>)

  predicate RetryInPlace(status: int) { status == 429 || status == 502 || status == 503 || status == 504 }

  function CodeForStatus(status: int): ErrorCode {
    if status == 400 then InvalidMessage
    else if status == 401 then Unauthenticated
    else if status == 403 then Forbidden
    else if status == 404 then MailboxNotFound
    else if status == 413 then TooLarge
    else if status == 429 then Throttled
    else if 500 <= status then Unavailable
    else InvalidMessage
  }

  /** `replies(k)` answers attempt k + 1; `jitterMs(k)` is its backoff draw; `wakes(k)` says its sleep was
      not aborted; `aborted(k)` is the signal as that attempt ends. `mine`: the message names no other sender. */
  datatype Provider = Provider(
    mine: bool, replies: nat -> HttpReply, jitterMs: nat -> nat, wakes: nat -> bool, aborted: nat -> bool,
    maxAttempts: int, maxRetryAfterSeconds: nat)

  function Attempts(p: Provider): int { Max(1, p.maxAttempts) }

  /** Attempt k + 1 was refused in a way that cannot have delivered, and may be tried again in place. */
  predicate MayRetry(p: Provider, k: nat) {
    var r := p.replies(k);
    && r.Response? && RetryInPlace(r.status) && k + 1 < Attempts(p)
    && (r.retryAfterSeconds.Some? ==> r.retryAfterSeconds.value <= p.maxRetryAfterSeconds)
  }

  function DelayMs(p: Provider, k: nat): nat
    requires p.replies(k).Response?
  {
    var r := p.replies(k).retryAfterSeconds;
    if r.Some? then r.value * 1000 else p.jitterMs(k)
  }

  /** What the handler is told, before the wait, by the 429s among the first k retried replies. */
  function Warnings(p: Provider, k: nat): seq<int>
    requires forall i: nat :: i < k ==> MayRetry(p, i)
  {
    if k == 0 then []
    else
      assert MayRetry(p, k - 1);
      Warnings(p, k - 1) +
         if p.replies(k - 1).status == 429 then [Max(1, CeilSeconds(DelayMs(p, k - 1)))] else []
  }

  datatype SendEnd = Accepted | Refused(error: Failure)

  function TransportError(aborted: bool, timedOut: bool): Failure {
    MailSendError(if aborted || timedOut then Timeout else Network, None)
  }

  /** How one `send` ends at its n-th attempt. Only an attempt refused in place is followed by another; a message
      of another sender gets none. */
  ghost predicate SendEnds(p: Provider, end: SendEnd, n: nat) {
    if !p.mine then n == 0 && end == Refused(MailSendError(InvalidMessage, None))
    else
      && 0 < n <= Attempts(p)
      && (forall k: nat :: k < n - 1 ==> MayRetry(p, k) && p.wakes(k))
      && var k := n - 1;
         match p.replies(k)
         case NoToken => end == Refused(MailSendError(if p.aborted(k) then Timeout else Unauthenticated, None))
         case NoResponse(timedOut) => end == Refused(TransportError(p.aborted(k), timedOut))
         case Response(status, after) =>
           if status == 202 then end == Accepted
           else if MayRetry(p, k) then !p.wakes(k) && end == Refused(TransportError(p.aborted(k), false))
           else end == Refused(MailSendError(CodeForStatus(status),
                                             if after.Some? then Some(after.value) else None))
  }

  /** The retries that were announced: those slept out, and the one cut short. */
  function Announced(p: Provider, n: nat): nat { if n == 0 then 0 else if MayRetry(p, n - 1) then n else n - 1 }

  method GraphSend(p: Provider) returns (end: SendEnd, n: nat, told: seq<int>)
    ensures SendEnds(p, end, n)
    ensures told == Warnings(p, Announced(p, n))
  {
    n, told := 0, [];
    if !p.mine { return Refused(MailSendError(InvalidMessage, None)), n, told; }
    while true
      invariant 0 <= n < Attempts(p)
      invariant forall k: nat :: k < n ==> MayRetry(p, k) && p.wakes(k)
      invariant told == Warnings(p, n)
      decreases Attempts(p) - n
    {
      var k := n;
      n := n + 1;
      match p.replies(k) {
        case NoToken =>
          return Refused(MailSendError(if p.aborted(k) then Timeout else Unauthenticated, None)), n, told;
        case NoResponse(timedOut) =>
          return Refused(TransportError(p.aborted(k), timedOut)), n, told;
        case Response(status, after) =>
          if status == 202 { return Accepted, n, told; }
          if !MayRetry(p, k) {
            return Refused(MailSendError(CodeForStatus(status),
                                         if after.Some? then Some(after.value) else None)), n, told;
          }
          if status == 429 { told := told + [Max(1, CeilSeconds(DelayMs(p, k)))]; }
          if !p.wakes(k) { return Refused(TransportError(p.aborted(k), false)), n, told; }
      }
    }
  }

  /** At most `maxAttempts` requests, at most one acceptance (the last), none after a lost response. */
  lemma OneAcceptanceAtMost(p: Provider, end: SendEnd, n: nat)
    requires SendEnds(p, end, n)
    ensures n <= Attempts(p)
    ensures forall k: nat :: k < n && p.replies(k).Response? && p.replies(k).status == 202 ==>
              k == n - 1 && end.Accepted?
    ensures forall k: nat :: k < n && (p.replies(k).NoResponse? || p.replies(k).NoToken?) ==> k == n - 1
    ensures end.Accepted? <==> 0 < n && p.replies(n - 1).Response? && p.replies(n - 1).status == 202
    ensures n == 0 <==> !p.mine
    ensures forall k: nat :: k + 1 < n ==> p.wakes(k)
  {
    forall k: nat | k < n
      ensures k < n - 1 ==> p.replies(k).Response? && RetryInPlace(p.replies(k).status)
    {
      assert k < n - 1 ==> MayRetry(p, k);
    }
  }

  // ---- the handler ----

  datatype ClaimReply = Claimed | AlreadySent | InFlight | ClaimFails

  datatype Ending = MarkSent | Release | CoolDown(seconds: int)

  datatype JobEnd = Completed | Retry(error: Failure) | DeadLetter(error: Failure)

  /** What one attempt did: questions for a slot, whether `send` was called, its attempts, the cooldowns it
      set while sending, and what it did last, in order. */
  datatype Report = Report(end: JobEnd, polls: nat, sent: bool, calls: nat, told: seq<int>, ending: seq<Ending>)

  function ToJobEnd(f: Failure): JobEnd {
    if f.MailSendError? && !Retryable(f.code) then DeadLetter(f) else Retry(f)
  }

  function Clamped(told: seq<int>): (c: seq<int>)
    ensures |c| == |told| && forall i :: 0 <= i < |c| ==> c[i] == CooldownSeconds(Some(told[i]))
  {
    seq(|told|, i requires 0 <= i < |told| => CooldownSeconds(Some(told[i])))
  }

  function WaitFailure(w: WaitEnd): Failure
    requires !w.Go?
  {
    match w
    case GaveUp(s) => MailSendError(Throttled, Some(s))
    case Unavail => Foreign
    case Interrupted => Foreign
  }

  function CooldownFor(f: Failure): seq<Ending> {
    if f.MailSendError? && f.code.Throttled? then [CoolDown(CooldownSeconds(f.retryAfterSeconds))] else []
  }

  /** The attempt after its claim was granted: wait, check the signal, send, and record or give back. */
  ghost predicate Worked(slots: nat -> SlotReply, wakes: nat -> bool, aborted: bool, p: Provider, r: Report) {
    exists w: WaitEnd ::
      && WaitEnds(slots, wakes, w, r.polls)
      && r.sent == (w.Go? && !aborted)
      && (if !r.sent then
            && r.calls == 0 && r.told == [] && r.ending == [Release]
            && r.end == ToJobEnd(if w.Go? then MailSendError(Timeout, None) else WaitFailure(w))
          else
            exists e: SendEnd ::
              && SendEnds(p, e, r.calls)
              && r.told == Clamped(Warnings(p, Announced(p, r.calls)))
              && (match e
                  case Accepted => r.end == Completed && r.ending == [MarkSent]
                  case Refused(f) =>
                    && r.end == ToJobEnd(f)
                    && r.ending == [Release] + CooldownFor(f)))
  }

  function Untouched(end: JobEnd): Report { Report(end, 0, false, 0, [], []) }

  /** `valid`: the payload passed validation, which comes before the claim. */
  method RunAttempt(valid: bool, claim: ClaimReply, slots: nat -> SlotReply, wakes: nat -> bool, aborted: bool,
                    p: Provider)
    returns (r: Report)
    ensures !valid ==> r == Untouched(DeadLetter(MailSendError(InvalidMessage, None)))
    ensures valid && claim.AlreadySent? ==> r == Untouched(Completed)
    ensures valid && claim.InFlight? ==> r == Untouched(Retry(MailSendError(Unavailable, None)))
    ensures valid && claim.ClaimFails? ==> r == Untouched(Retry(Foreign))
    ensures valid && claim.Claimed? ==> Worked(slots, wakes, aborted, p, r)
  {
    if !valid { return Untouched(ToJobEnd(MailSendError(InvalidMessage, None))); }
    match claim {
      case AlreadySent => return Untouched(Completed);
      case InFlight => return Untouched(Retry(MailSendError(Unavailable, None)));
      case ClaimFails => return Untouched(Retry(Foreign));
      case Claimed =>
    }
    var reachedProvider, failure, calls, told := false, None, 0, [];
    var w, polls, waitedMs := WaitForSlot(slots, wakes);
    if !w.Go? {
      failure := Some(WaitFailure(w));
    } else if aborted {
      failure := Some(MailSendError(Timeout, None));
    } else {
      reachedProvider := true;
      var e, n, warned := GraphSend(p);
      calls, told := n, Clamped(warned);
      if e.Refused? { failure := Some(e.error); }
    }
    if failure.None? {
      return Report(Completed, polls, true, calls, told, [MarkSent]);
    }
    var f := failure.value;
    var ending := [Release];
    if reachedProvider && f.MailSendError? && f.code.Throttled? {
      ending := ending + [CoolDown(CooldownSeconds(f.retryAfterSeconds))];
    }
    r := Report(ToJobEnd(f), polls, reachedProvider, calls, told, ending);
  }

  /**
   * Whatever the slots, the provider and the signal do: a claimed attempt ends by marking or by releasing,
   * never both; it marks exactly when the provider accepted, and only then completes; nothing is sent once
   * the signal is aborted; only a provider's own throttling cools the mailbox down.
   */
  lemma ClaimedAttemptSettles(slots: nat -> SlotReply, wakes: nat -> bool, aborted: bool, p: Provider, r: Report)
    requires Worked(slots, wakes, aborted, p, r)
    ensures r.ending != [] && (r.ending[0].MarkSent? || r.ending[0].Release?)
    ensures r.ending[0].MarkSent? ==> |r.ending| == 1
    ensures r.ending[0].MarkSent? <==> r.end == Completed
    ensures r.ending[0].MarkSent? <==>
            r.sent && 0 < r.calls && p.replies(r.calls - 1).Response? && p.replies(r.calls - 1).status == 202
    ensures aborted ==> !r.sent && r.calls == 0 && r.told == []
    ensures forall e :: e in r.ending && e.CoolDown? ==> r.sent && 1 <= e.seconds <= MAX_COOLDOWN_SECONDS
    ensures r.calls <= Attempts(p)
    ensures r.end.DeadLetter? ==> r.sent && if r.calls == 0 then !p.mine else
              p.replies(r.calls - 1).Response? && !Retryable(CodeForStatus(p.replies(r.calls - 1).status))
  {
  }

  // ---- what a reply leads to ----

  /** The provider's last word, when it had one. */
  predicate EndedOn(p: Provider, r: Report, status: int, after: Option<nat>) {
    r.sent && 0 < r.calls && p.replies(r.calls - 1) == Response(status, after)
  }

  /**
   * Which statuses come back to the queue and which go straight to the dead letters: a reply that ends the attempt
   * retries on 401, 429 and every 5xx, dead-letters on any other but 202, and only 202 completes.
   */
  lemma StatusDecides(slots: nat -> SlotReply, wakes: nat -> bool, aborted: bool, p: Provider, r: Report,
                      status: int, after: Option<nat>)
    requires Worked(slots, wakes, aborted, p, r) && EndedOn(p, r, status, after)
    ensures r.end.Completed? <==> status == 202
    ensures r.end.Retry? <==> status == 401 || status == 429 || 500 <= status
    ensures r.end.DeadLetter? <==> status != 202 && status != 401 && status != 429 && status < 500
  {
  }

  /**
   * An attempt that ends on a 429 releases its claim first and then cools the mailbox down, for as long as the
   * provider asked within 1 and 600 s, a minute when it did not say. No other reply cools down at the end.
   */
  lemma ThrottledCoolsDown(slots: nat -> SlotReply, wakes: nat -> bool, aborted: bool, p: Provider, r: Report,
                           status: int, after: Option<nat>)
    requires Worked(slots, wakes, aborted, p, r) && EndedOn(p, r, status, after)
    requires MayRetry(p, r.calls - 1) ==> p.wakes(r.calls - 1)
    ensures status == 429 ==>
              r.ending == [Release, CoolDown(if after.None? then 60 else Max(1, Min(600, after.value)))]
    ensures status != 429 && status != 202 ==> r.ending == [Release]
    ensures status == 202 ==> r.ending == [MarkSent]
  {
  }

  /**
   * What is tried again in place: exactly 429, 502, 503 and 504, while attempts are left and the provider asks for
   * no more than the sender will wait; each 429 of these is announced before its wait, in whole seconds.
   */
  lemma RetriedInPlaceIff(p: Provider, k: nat, status: int, after: Option<nat>)
    requires p.replies(k) == Response(status, after)
    ensures MayRetry(p, k) <==>
            && (status == 429 || status == 502 || status == 503 || status == 504)
            && k + 1 < Max(1, p.maxAttempts)
            && (after.Some? ==> after.value <= p.maxRetryAfterSeconds)
    ensures (forall i: nat :: i < k + 1 ==> MayRetry(p, i)) && status == 429 && after.Some? ==>
              Warnings(p, k + 1) == Warnings(p, k) + [Max(1, after.value)]
    ensures (forall i: nat :: i < k + 1 ==> MayRetry(p, i)) && status != 429 ==> Warnings(p, k + 1) == Warnings(p, k)
  {
  }

  /**
   * What never reached an answer: a lost or late response, a missing token and an aborted wait all retry, under the
   * code that says which; none of them cools the mailbox down.
   */
  lemma NoAnswerRetries(slots: nat -> SlotReply, wakes: nat -> bool, aborted: bool, p: Provider, r: Report)
    requires Worked(slots, wakes, aborted, p, r) && r.sent && 0 < r.calls && !p.replies(r.calls - 1).Response?
    ensures r.end == Retry(MailSendError(
              if p.aborted(r.calls - 1) then Timeout
              else if p.replies(r.calls - 1).NoToken? then Unauthenticated
              else if p.replies(r.calls - 1).timedOut then Timeout else Network, None))
    ensures r.ending == [Release] && r.calls <= Max(1, p.maxAttempts)
  {
  }

  /** Without a slot, or aborted before the send: nothing is sent, the claim is released, and the queue retries;
      a wait that gave up says in how many seconds to come back. */
  lemma NoSendRetries(slots: nat -> SlotReply, wakes: nat -> bool, aborted: bool, p: Provider, r: Report)
    requires Worked(slots, wakes, aborted, p, r) && !r.sent
    ensures r.ending == [Release] && r.end.Retry? && r.calls == 0
    ensures WaitEnds(slots, wakes, Go, r.polls) ==> aborted && r.end == Retry(MailSendError(Timeout, None))
    ensures forall s: nat :: WaitEnds(slots, wakes, GaveUp(s), r.polls) ==>
              && r.end == Retry(MailSendError(Throttled, Some(s)))
              && 120000 < Asked(slots, r.polls - 1) + slots(r.polls - 1).waitMs <= Asked(slots, r.polls - 1) + 1000 * s
  {
    var w :| WaitEnds(slots, wakes, w, r.polls) && r.sent == (w.Go? && !aborted) &&
             r.end == ToJobEnd(if w.Go? then MailSendError(Timeout, None) else WaitFailure(w));
    forall v | WaitEnds(slots, wakes, v, r.polls)
      ensures v == w
    {
      WaitEndsOneWay(slots, wakes, v, r.polls, w, r.polls);
    }
  }
}
