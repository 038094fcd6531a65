/**
 * The sending pace of one mailbox: a token bucket and a cooldown key, each changed by one atomic
 * script on the server's millisecond clock (TAKE_SLOT and BACK_OFF, packages/platform-mail/src/state.ts).
 *
 * 20 messages a minute is one token every 3000 ms, so a token is counted as 3000 units, one unit
 * refills per millisecond, and the burst of 5 is 15000 units: the arithmetic is exact in integers.
 */
module MailPacing {
  import opened Common

  const TOKEN := 3000
  const BURST := 15000
  const BUCKET_TTL_MS := 120000

  datatype Bucket = Bucket(units: int, at: int, expiry: int)

  /** `notBefore` is when the cooldown key expires; no key at all reads as an instant in the past. */
  datatype Pace = Pace(bucket: Option<Bucket>, notBefore: Option<int>)

  const IDLE := Pace(None, None)

  /** PTTL of the cooldown key: what is left of it, or a value below zero when it is gone. */
  function CooldownLeft(p: Pace, now: int): int {
    if p.notBefore.Some? && now < p.notBefore.value then p.notBefore.value - now else -2
  }

  /** The bucket as the script finds it, refilled to `now`; a missing or expired key is a full one. */
  function Level(p: Pace, now: int): int {
    if p.bucket.Some? && now < p.bucket.value.expiry
    then Min(BURST, p.bucket.value.units + (now - p.bucket.value.at))
    else BURST
  }

  /** The script's answer: 0 is a slot, anything else the milliseconds to wait before asking again. */
  function SlotWait(p: Pace, now: int): int {
    if 0 < CooldownLeft(p, now) then CooldownLeft(p, now)
    else if TOKEN <= Level(p, now) then 0
    else TOKEN - Level(p, now)
  }

  function AfterTakeSlot(p: Pace, now: int): Pace {
    if 0 < CooldownLeft(p, now) then p
    else
      var left := if TOKEN <= Level(p, now) then Level(p, now) - TOKEN else Level(p, now);
      p.(bucket := Some(Bucket(left, now, now + BUCKET_TTL_MS)))
  }

  /** BACK_OFF; a TTL that is not positive is refused by SET, and the script fails with it. */
  predicate BackOffFails(p: Pace, now: int, ms: int) { CooldownLeft(p, now) < ms && ms <= 0 }

  function AfterBackOff(p: Pace, now: int, ms: int): Pace {
    if CooldownLeft(p, now) < ms && 0 < ms then p.(notBefore := Some(now + ms)) else p
  }

  // ---- runs ----

  datatype Event = TakeSlot(at: int) | BackOff(at: int, ms: int)

  function Step(p: Pace, e: Event): Pace {
    match e
    case TakeSlot(now) => AfterTakeSlot(p, now)
    case BackOff(now, ms) => AfterBackOff(p, now, ms)
  }

  function Play(p: Pace, es: seq<Event>): Pace
    decreases |es|
  {
    if es == [] then p else Play(Step(p, es[0]), es[1..])
  }

  predicate Granted(p: Pace, e: Event) { e.TakeSlot? && SlotWait(p, e.at) == 0 }

  /** Slots granted in the run at instants in [a, b]. */
  function Grants(p: Pace, es: seq<Event>, a: int, b: int): nat
    decreases |es|
  {
    if es == [] then 0
    else (if Granted(p, es[0]) && a <= es[0].at <= b then 1 else 0) + Grants(Step(p, es[0]), es[1..], a, b)
  }

  /** The server clock never goes back: no event is earlier than `from` or than the one before it. */
  ghost predicate Ordered(es: seq<Event>, from: int)
    decreases |es|
  {
    es != [] ==> from <= es[0].at && Ordered(es[1..], es[0].at)
  }

  /** What every state reached by the clock `now` satisfies. */
  predicate Valid(p: Pace, now: int) {
    p.bucket.Some? ==>
      var b := p.bucket.value;
      0 <= b.units <= BURST && b.at <= now && b.expiry == b.at + BUCKET_TTL_MS
  }

  lemma StepKeepsValid(p: Pace, e: Event, now: int)
    requires Valid(p, now) && now <= e.at
    ensures Valid(Step(p, e), e.at)
  {
  }

  /** Expiry is invisible: a key old enough to expire would have refilled to the burst anyway. */
  lemma ExpiryChangesNoAnswer(p: Pace, now: int, later: int)
    requires Valid(p, now) && now <= later && p.bucket.Some?
    ensures Level(p, later) == Min(BURST, p.bucket.value.units + (later - p.bucket.value.at))
  {
  }

  /** Time refills at most one unit per millisecond, and never past the burst. */
  lemma RefillBounded(p: Pace, now: int, t: int, u: int)
    requires Valid(p, now) && now <= t <= u
    ensures Level(p, u) == Min(BURST, Level(p, t) + (u - t))
  {
  }

  /** What is left in the bucket plus what was granted never exceeds what was there plus the refill. */
  lemma {:induction false} GrantsPaidFor(p: Pace, es: seq<Event>, a: int, b: int, from: int)
    requires Valid(p, from) && Ordered(es, from) && a <= from <= b
    ensures TOKEN * Grants(p, es, a, b) <= Level(p, from) + (b - from)
    decreases |es|
  {
    if es != [] {
      var e, p' := es[0], Step(p, es[0]);
      StepKeepsValid(p, e, from);
      if e.at <= b {
        RefillBounded(p, from, from, e.at);
        GrantsPaidFor(p', es[1..], a, b, e.at);
      } else {
        NoGrantsAfter(p', es[1..], a, b, e.at);
      }
    }
  }

  lemma {:induction false} NoGrantsAfter(p: Pace, es: seq<Event>, a: int, b: int, from: int)
    requires Ordered(es, from) && b < from
    ensures Grants(p, es, a, b) == 0
    decreases |es|
  {
    if es != [] {
      NoGrantsAfter(Step(p, es[0]), es[1..], a, b, es[0].at);
    }
  }

  /**
   * In every run, whichever workers ask and back off, the slots granted in any closed interval are
   * at most the burst and one more per 3000 ms of its length.
   */
  lemma {:induction false} SlotsBounded(p: Pace, es: seq<Event>, a: int, b: int, from: int)
    requires Valid(p, from) && Ordered(es, from) && a <= b
    ensures TOKEN * Grants(p, es, a, b) <= BURST + (b - a)
    decreases |es|
  {
    if b < from {
      NoGrantsAfter(p, es, a, b, from);
    } else if a <= from {
      GrantsPaidFor(p, es, a, b, from);
    } else if es != [] && es[0].at < a {
      StepKeepsValid(p, es[0], from);
      SlotsBounded(Step(p, es[0]), es[1..], a, b, es[0].at);
    } else {
      GrantsPaidFor(p, es, a, b, a);
    }
  }

  /** From a mailbox nobody has used: at most 25 messages leave in any minute. */
  lemma AtMost25AMinute(es: seq<Event>, from: int, a: int)
    requires Ordered(es, from)
    ensures Grants(IDLE, es, a, a + 60000) <= 25
  {
    SlotsBounded(IDLE, es, a, a + 60000, from);
  }

  // ---- exactness ----

  /** The first instant, from `now` on, at which an otherwise undisturbed caller gets a slot. */
  function EarliestGrant(p: Pace, now: int): int {
    Max(now + Max(0, TOKEN - Level(p, now)), if p.notBefore.Some? then p.notBefore.value else now)
  }

  lemma GrantedFromEarliestOn(p: Pace, now: int, t: int)
    requires Valid(p, now) && now <= t
    ensures SlotWait(p, t) == 0 <==> EarliestGrant(p, now) <= t
  {
    RefillBounded(p, now, now, t);
  }

  predicate AllRefused(p: Pace, es: seq<Event>)
    decreases |es|
  {
    es != [] ==> es[0].TakeSlot? && SlotWait(p, es[0].at) != 0 && AllRefused(Step(p, es[0]), es[1..])
  }

  /** However often a waiting caller polls, it neither gains nor loses anything by it. */
  lemma {:induction false} PollingIsFree(p: Pace, es: seq<Event>, from: int, u: int)
    requires Valid(p, from) && Ordered(es, from) && AllRefused(p, es)
    requires from <= u && forall e :: e in es ==> e.at <= u
    ensures Level(Play(p, es), u) == Level(p, u) && SlotWait(Play(p, es), u) == SlotWait(p, u)
    decreases |es|
  {
    if es != [] {
      var t := es[0].at;
      StepKeepsValid(p, es[0], from);
      RefillBounded(p, from, t, u);
      PollingIsFree(Step(p, es[0]), es[1..], t, u);
    }
  }

  /**
   * The wait of a refusal is never too long, and it is exact unless a cooldown hides an empty bucket:
   * asking again after it is granted if and only if there was no cooldown, or the bucket will have
   * refilled to a token by the time the cooldown ends.
   */
  lemma WaitIsLeastIff(p: Pace, now: int)
    requires Valid(p, now) && SlotWait(p, now) != 0
    ensures var w, p' := SlotWait(p, now), AfterTakeSlot(p, now);
            && 0 < w
            && (forall t :: now <= t < now + w ==> SlotWait(p', t) != 0)
            && (SlotWait(p', now + w) == 0 <==>
                CooldownLeft(p, now) <= 0 || TOKEN <= Level(p, now) + CooldownLeft(p, now))
  {
    var w, p' := SlotWait(p, now), AfterTakeSlot(p, now);
    StepKeepsValid(p, TakeSlot(now), now);
    forall t | now <= t <= now + w
      ensures SlotWait(p', t) == 0 <==> EarliestGrant(p', now) <= t
    {
      GrantedFromEarliestOn(p', now, t);
    }
  }

  /** A caller that waits as told, twice if need be, is granted a slot at the earliest possible instant. */
  lemma TwoWaitsSuffice(p: Pace, now: int)
    requires Valid(p, now)
    ensures var t := now + SlotWait(p, now);
            var p' := AfterTakeSlot(p, now);
            SlotWait(p, now) != 0 ==>
              EarliestGrant(p, now) == if SlotWait(p', t) == 0 then t else t + SlotWait(p', t)
  {
    var t := now + SlotWait(p, now);
    StepKeepsValid(p, TakeSlot(now), now);
    RefillBounded(p, now, now, t);
  }

  /** The wait of a cooled-down, emptied mailbox is not the least: the second ask is refused as well. */
  lemma CooldownWaitCanBeShort()
    ensures var p := Pace(Some(Bucket(0, 0, 120000)), Some(1000));
            Valid(p, 0) && SlotWait(p, 0) == 1000 && SlotWait(AfterTakeSlot(p, 0), 1000) == 2000
  {
  }

  /** BACK_OFF moves the not-before instant to the later of the old and the new, never back. */
  lemma BackOffTakesMax(p: Pace, now: int, ms: int)
    ensures 0 < ms ==> AfterBackOff(p, now, ms) == p.(notBefore := Some(
              if p.notBefore.Some? then Max(p.notBefore.value, now + ms) else now + ms))
    ensures ms <= 0 ==> AfterBackOff(p, now, ms) == p
  {
  }

  /** A cooldown binds every worker: in any run, no slot is granted before its end. */
  lemma {:induction false} NoSlotInCooldown(p: Pace, es: seq<Event>, from: int, a: int, b: int)
    requires Ordered(es, from) && p.notBefore.Some? && b < p.notBefore.value
    ensures Grants(p, es, a, b) == 0
    decreases |es|
  {
    if es != [] {
      NoSlotInCooldown(Step(p, es[0]), es[1..], es[0].at, a, b);
    }
  }

  // ---- what a slot costs ----

  /** A grant costs exactly one token and a refusal nothing: 3000 ms of refill, to the unit. */
  lemma GrantCostsOneToken(p: Pace, now: int, u: int)
    requires Valid(p, now) && CooldownLeft(p, now) <= 0 && now <= u
    ensures Level(AfterTakeSlot(p, now), u) ==
            Min(BURST, Level(p, now) - (if SlotWait(p, now) == 0 then 3000 else 0) + (u - now))
  {
    StepKeepsValid(p, TakeSlot(now), now);
    RefillBounded(AfterTakeSlot(p, now), now, now, u);
  }

  /** n questions at one instant. */
  function AskAtOnce(n: nat, now: int): seq<Event> {
    if n == 0 then [] else [TakeSlot(now)] + AskAtOnce(n - 1, now)
  }

  /** Of any number of workers that ask at one instant, exactly as many are granted as there are whole tokens. */
  lemma {:induction false} TokensAreGranted(p: Pace, n: nat, now: int)
    requires Valid(p, now) && CooldownLeft(p, now) <= 0
    ensures Grants(p, AskAtOnce(n, now), now, now) == Min(n, Level(p, now) / 3000)
    decreases n
  {
    if 0 < n {
      StepKeepsValid(p, TakeSlot(now), now);
      GrantCostsOneToken(p, now, now);
      TokensAreGranted(Step(p, TakeSlot(now)), n - 1, now);
      assert AskAtOnce(n, now)[1..] == AskAtOnce(n - 1, now);
    }
  }

  /** From a mailbox nobody has used: a burst of exactly five goes out at once, however many ask. */
  lemma BurstOfFive(n: nat, now: int)
    ensures Grants(IDLE, AskAtOnce(n, now), now, now) == Min(n, 5)
  {
    TokensAreGranted(IDLE, n, now);
  }

  /** A cooldown refuses for exactly what is left of it, leaves the bucket alone, and ends by itself. */
  lemma CooldownRefusesExactly(p: Pace, now: int, ms: int, t: int)
    requires 0 < ms && now <= t && CooldownLeft(p, now) < ms
    ensures var p' := AfterBackOff(p, now, ms);
            if t < now + ms then SlotWait(p', t) == now + ms - t && AfterTakeSlot(p', t) == p'
            else SlotWait(p', t) == SlotWait(p.(notBefore := None), t)
  {
  }
}
