/**
 * The layered attempt counters of one account (`admit`, `clearAttempts`, `generation` in
 * packages/identity/src/lockout.ts; limits in defaults.ts; the atomic increment in storage.ts), and every
 * interleaving of the attempts that count against them. Times in seconds.
 */
module Lockout {
  import opened Common

  /** `gen` is the generation an attempt read before counting. */
  datatype CounterKey =
    | PerDevice(kind: string, gen: nat, device: string)
    | AllDevices(kind: string, gen: nat)
    | PerAddress(kind: string, gen: nat, ip: string)
    | PerAccount(kind: string, gen: nat)

  const DEVICE_LIMIT := 5
  const ALL_DEVICES_LIMIT := 20
  const ADDRESS_LIMIT := 5
  const ACCOUNT_LIMIT := 50

  function Limit(k: CounterKey): nat {
    match k
    case PerDevice(_, _, _) => DEVICE_LIMIT
    case AllDevices(_, _) => ALL_DEVICES_LIMIT
    case PerAddress(_, _, _) => ADDRESS_LIMIT
    case PerAccount(_, _) => ACCOUNT_LIMIT
  }

  function WindowSeconds(k: CounterKey): nat { if k.PerDevice? || k.PerAddress? then 900 else 3600 }

  const FREE_ATTEMPTS := 5
  const DELAY_STEP_MS := 200
  const MAX_DELAY_MS := 5000

  function DelayMs(total: nat): nat {
    if total > FREE_ATTEMPTS then Min((total - FREE_ATTEMPTS) * DELAY_STEP_MS, MAX_DELAY_MS) else 0
  }

  /** A counter lives from the increment that creates it until its TTL, set once; `life` numbers lives. */
  datatype Counter = Counter(n: nat, life: nat, expiry: int)

  datatype Storage = Storage(counters: map<CounterKey, Counter>, lives: nat, now: int)

  /** What an increment answered: the count within a life, or nothing, which reads as 0. */
  datatype Ticket = Ticket(life: nat, n: nat) | NoAnswer

  function Count(t: Ticket): nat { if t.Ticket? then t.n else 0 }

  predicate Alive(s: Storage, k: CounterKey) { k in s.counters && s.now < s.counters[k].expiry }

  /** INCR, with EXPIRE on creation only. */
  function AfterIncrement(s: Storage, k: CounterKey): Storage {
    if Alive(s, k) then s.(counters := s.counters[k := s.counters[k].(n := s.counters[k].n + 1)])
    else Storage(s.counters[k := Counter(1, s.lives, s.now + WindowSeconds(k))], s.lives + 1, s.now)
  }

  function TicketOf(s: Storage, k: CounterKey): Ticket {
    var c := AfterIncrement(s, k).counters[k];
    Ticket(c.life, c.n)
  }

  datatype Stage = AtDevice | AtAllDevices | AtAddress | AtAccount | Passed(delayMs: nat) | Refused

  datatype Attempt = Attempt(kind: string, gen: nat, ip: string, device: Option<string>, stage: Stage,
                             tickets: map<CounterKey, Ticket>)

  function Arriving(kind: string, gen: nat, ip: string, device: Option<string>): Attempt {
    Attempt(kind, gen, ip, device, if device.Some? then AtDevice else AtAddress, map[])
  }

  function DeviceKey(a: Attempt): CounterKey
    requires a.device.Some?
  {
    PerDevice(a.kind, a.gen, a.device.value)
  }

  /** The counter an attempt is about to increment. */
  function KeyAt(a: Attempt): Option<CounterKey> {
    match a.stage
    case AtDevice => if a.device.Some? then Some(DeviceKey(a)) else None
    case AtAllDevices => Some(AllDevices(a.kind, a.gen))
    case AtAddress => Some(PerAddress(a.kind, a.gen, a.ip))
    case AtAccount => Some(PerAccount(a.kind, a.gen))
    case _ => None
  }

  /** Where `admit` goes with the answer. */
  function NextStage(stage: Stage, count: nat): Stage {
    match stage
    case AtDevice => if count > DEVICE_LIMIT then Refused else AtAllDevices
    case AtAllDevices => if count <= ALL_DEVICES_LIMIT then Passed(0) else AtAddress
    case AtAddress => if count > ADDRESS_LIMIT then Refused else AtAccount
    case AtAccount => if count > ACCOUNT_LIMIT then Refused else Passed(DelayMs(count))
    case _ => stage
  }

  function AfterTicket(a: Attempt, t: Ticket): Attempt {
    if KeyAt(a).None? then a
    else a.(stage := NextStage(a.stage, Count(t)), tickets := a.tickets[KeyAt(a).value := t])
  }

  // ---- runs ----

  datatype World = World(storage: Storage, gen: nat, attempts: seq<Attempt>)

  /** `Stray` is an increment that ran although its answer was lost; the attempt goes on unanswered.
      `SetGeneration` is any write of the generation key: a clear, a lost race between clears, its expiry. */
  datatype Event =
    | Tick(to: int)
    | Arrive(kind: string, ip: string, device: Option<string>)
    | Advance(i: nat, answered: bool)
    | Stray(k: CounterKey)
    | SetGeneration(gen: nat)

  const START := World(Storage(map[], 0, 0), 0, [])

  function Step(w: World, e: Event): World {
    match e
    case Tick(to) => w.(storage := w.storage.(now := Max(w.storage.now, to)))
    case Arrive(kind, ip, device) => w.(attempts := w.attempts + [Arriving(kind, w.gen, ip, device)])
    case Advance(i, answered) =>
      if i >= |w.attempts| || KeyAt(w.attempts[i]).None? then w
      else
        var k := KeyAt(w.attempts[i]).value;
        if answered
        then w.(storage := AfterIncrement(w.storage, k),
                attempts := w.attempts[i := AfterTicket(w.attempts[i], TicketOf(w.storage, k))])
        else w.(attempts := w.attempts[i := AfterTicket(w.attempts[i], NoAnswer)])
    case Stray(k) => w.(storage := AfterIncrement(w.storage, k))
    case SetGeneration(gen) => w.(gen := gen)
  }

  function Play(w: World, es: seq<Event>): World
    decreases |es|
  {
    if es == [] then w else Play(Step(w, es[0]), es[1..])
  }

  /** The attempt counted on k, within its limit (or could not be counted). */
  predicate Cleared(a: Attempt, k: CounterKey) { k in a.tickets && Count(a.tickets[k]) <= Limit(k) }

  /** How an attempt that has got this far must have counted. */
  predicate Sane(a: Attempt) {
    var all, address, account := AllDevices(a.kind, a.gen), PerAddress(a.kind, a.gen, a.ip), PerAccount(a.kind, a.gen);
    var throughDevices := a.device.Some? && Cleared(a, DeviceKey(a)) && all in a.tickets && !Cleared(a, all);
    && (forall k :: k in a.tickets ==>
          k == all || k == address || k == account || (a.device.Some? && k == DeviceKey(a)))
    && match a.stage
       case AtDevice => a.device.Some? && a.tickets.Keys == {}
       case AtAllDevices => a.device.Some? && a.tickets.Keys == {DeviceKey(a)} && Cleared(a, DeviceKey(a))
       case AtAddress => address !in a.tickets && account !in a.tickets && (a.device.Some? ==> throughDevices)
       case AtAccount => Cleared(a, address) && account !in a.tickets && (a.device.Some? ==> throughDevices)
       case Passed(d) =>
         || (a.device.Some? && Cleared(a, DeviceKey(a)) && Cleared(a, all) && d == 0 &&
             address !in a.tickets && account !in a.tickets)
         || (Cleared(a, address) && Cleared(a, account) && d == DelayMs(Count(a.tickets[account])) &&
             (a.device.Some? ==> throughDevices))
       case Refused =>
         || (a.device.Some? && a.tickets.Keys == {DeviceKey(a)} && !Cleared(a, DeviceKey(a)))
         || ((a.device.Some? ==> throughDevices) && address in a.tickets && !Cleared(a, address) &&
             account !in a.tickets)
         || ((a.device.Some? ==> throughDevices) && Cleared(a, address) && account in a.tickets && !Cleared(a, account))
  }

  predicate Holds(a: Attempt, k: CounterKey, life: nat) {
    k in a.tickets && a.tickets[k].Ticket? && a.tickets[k].life == life
  }

  ghost predicate CountersOk(s: Storage) {
    forall k :: k in s.counters ==> s.counters[k].life < s.lives && 1 <= s.counters[k].n
  }

  /** The counter of a ticket's life is at least as far as the ticket. */
  predicate TicketOk(s: Storage, k: CounterKey, t: Ticket) {
    t.Ticket? ==>
      1 <= t.n && t.life < s.lives && (k in s.counters && s.counters[k].life == t.life ==> t.n <= s.counters[k].n)
  }

  ghost predicate TicketsOk(s: Storage, attempts: seq<Attempt>) {
    forall i, k :: 0 <= i < |attempts| && k in attempts[i].tickets ==> TicketOk(s, k, attempts[i].tickets[k])
  }

  predicate Clash(a: Attempt, b: Attempt, k: CounterKey) {
    k in a.tickets && k in b.tickets && a.tickets[k].Ticket? && a.tickets[k] == b.tickets[k]
  }

  /** Each count within a life is handed out once. */
  ghost predicate Distinct(attempts: seq<Attempt>) {
    forall i, j, k :: 0 <= i < j < |attempts| ==> !Clash(attempts[i], attempts[j], k)
  }

  ghost predicate AllSane(attempts: seq<Attempt>) { forall i :: 0 <= i < |attempts| ==> Sane(attempts[i]) }

  ghost predicate Inv(w: World) {
    CountersOk(w.storage) && TicketsOk(w.storage, w.attempts) && Distinct(w.attempts) && AllSane(w.attempts)
  }

  lemma AdvanceKeepsSane(a: Attempt, t: Ticket)
    requires Sane(a)
    ensures Sane(AfterTicket(a, t))
  {
  }

  /** A new ticket is sound and unlike any sound one; the old ones stay sound. */
  lemma NewTicket(s: Storage, k: CounterKey, other: CounterKey, t: Ticket)
    requires CountersOk(s) && TicketOk(s, other, t)
    ensures CountersOk(AfterIncrement(s, k)) && TicketOk(AfterIncrement(s, k), k, TicketOf(s, k))
    ensures TicketOk(AfterIncrement(s, k), other, t)
    ensures other == k ==> t != TicketOf(s, k)
  {
  }

  lemma AdvanceKeepsTickets(w: World, i: nat)
    requires Inv(w) && i < |w.attempts| && KeyAt(w.attempts[i]).Some?
    ensures var w' := Step(w, Advance(i, true)); CountersOk(w'.storage) && TicketsOk(w'.storage, w'.attempts)
  {
    var w', k := Step(w, Advance(i, true)), KeyAt(w.attempts[i]).value;
    NewTicket(w.storage, k, k, NoAnswer);
    forall j, other | 0 <= j < |w'.attempts| && other in w'.attempts[j].tickets
      ensures TicketOk(w'.storage, other, w'.attempts[j].tickets[other])
    {
      if other in w.attempts[j].tickets {
        NewTicket(w.storage, k, other, w.attempts[j].tickets[other]);
      }
    }
  }

  lemma NewTicketIsNew(w: World, k: CounterKey, j: int)
    requires Inv(w) && 0 <= j < |w.attempts|
    ensures k in w.attempts[j].tickets ==> w.attempts[j].tickets[k] != TicketOf(w.storage, k)
  {
    if k in w.attempts[j].tickets {
      NewTicket(w.storage, k, k, w.attempts[j].tickets[k]);
    }
  }

  lemma AdvanceKeepsDistinct(w: World, i: nat)
    requires Inv(w) && i < |w.attempts| && KeyAt(w.attempts[i]).Some?
    ensures Distinct(Step(w, Advance(i, true)).attempts)
  {
    var w', k := Step(w, Advance(i, true)), KeyAt(w.attempts[i]).value;
    forall j, l, other | 0 <= j < l < |w'.attempts|
      ensures !Clash(w'.attempts[j], w'.attempts[l], other)
    {
      assert !Clash(w.attempts[j], w.attempts[l], other);
      NewTicketIsNew(w, k, j);
      NewTicketIsNew(w, k, l);
    }
  }

  lemma AdvanceKeepsInv(w: World, i: nat)
    requires Inv(w) && i < |w.attempts| && KeyAt(w.attempts[i]).Some?
    ensures Inv(Step(w, Advance(i, true)))
  {
    AdvanceKeepsTickets(w, i);
    AdvanceKeepsDistinct(w, i);
    AdvanceKeepsSane(w.attempts[i], TicketOf(w.storage, KeyAt(w.attempts[i]).value));
  }

  lemma UnansweredKeepsInv(w: World, i: nat)
    requires Inv(w) && i < |w.attempts| && KeyAt(w.attempts[i]).Some?
    ensures Inv(Step(w, Advance(i, false)))
  {
    var w' := Step(w, Advance(i, false));
    AdvanceKeepsSane(w.attempts[i], NoAnswer);
    forall j, l, other | 0 <= j < l < |w'.attempts|
      ensures !Clash(w'.attempts[j], w'.attempts[l], other)
    {
      NoAnswerClashesWithNothing(w.attempts, i, j, l, other);
    }
  }

  lemma NoAnswerClashesWithNothing(attempts: seq<Attempt>, i: nat, j: int, l: int, k: CounterKey)
    requires Distinct(attempts) && i < |attempts| && 0 <= j < l < |attempts|
    ensures var as' := attempts[i := AfterTicket(attempts[i], NoAnswer)]; !Clash(as'[j], as'[l], k)
  {
    assert !Clash(attempts[j], attempts[l], k);
  }

  lemma StrayKeepsInv(w: World, k: CounterKey)
    requires Inv(w)
    ensures Inv(Step(w, Stray(k)))
  {
    NewTicket(w.storage, k, k, NoAnswer);
    forall j, other | 0 <= j < |w.attempts| && other in w.attempts[j].tickets
      ensures TicketOk(AfterIncrement(w.storage, k), other, w.attempts[j].tickets[other])
    {
      NewTicket(w.storage, k, other, w.attempts[j].tickets[other]);
    }
  }

  lemma StepKeepsInv(w: World, e: Event)
    requires Inv(w)
    ensures Inv(Step(w, e))
  {
    match e
    case Advance(i, answered) =>
      if i < |w.attempts| && KeyAt(w.attempts[i]).Some? {
        if answered { AdvanceKeepsInv(w, i); } else { UnansweredKeepsInv(w, i); }
      }
    case Stray(k) => StrayKeepsInv(w, k);
    case _ =>
  }

  lemma {:induction false} PlayKeepsInv(w: World, es: seq<Event>)
    requires Inv(w)
    ensures Inv(Play(w, es))
    decreases |es|
  {
    if es != [] {
      StepKeepsInv(w, es[0]);
      PlayKeepsInv(Step(w, es[0]), es[1..]);
    }
  }

  /** The attempts admitted on their count in this life of the counter. */
  function AdmittedBy(w: World, k: CounterKey, life: nat): set<int> {
    set i | 0 <= i < |w.attempts| && w.attempts[i].stage.Passed? && Cleared(w.attempts[i], k) &&
      w.attempts[i].tickets[k].Ticket? && w.attempts[i].tickets[k].life == life
  }

  /**
   * Whatever the interleaving of attempts, clears and time: within one generation and one life of a counter,
   * no more attempts are admitted on it than its limit. So at most 5 per address, 50 per account, 5 per
   * device and 20 over all devices.
   */
  lemma AdmittedWithinLimit(es: seq<Event>, k: CounterKey, life: nat)
    ensures |AdmittedBy(Play(START, es), k, life)| <= Limit(k)
  {
    PlayKeepsInv(START, es);
    var w := Play(START, es);
    var admitted := AdmittedBy(w, k, life);
    var tags: map<int, nat> := map i | i in admitted :: w.attempts[i].tickets[k].n;
    forall i, j | i in admitted && j in admitted && tags[i] == tags[j]
      ensures i == j
    {
      assert i < j ==> !Clash(w.attempts[i], w.attempts[j], k);
      assert j < i ==> !Clash(w.attempts[j], w.attempts[i], k);
    }
    LabelsBound(admitted, tags, Limit(k));
  }

  /** Every admission is accounted for: by its device and the shared budget, or by its address and the
      account, each within its limit. A degraded count is the only other way. */
  lemma AdmissionsAreCounted(es: seq<Event>, i: nat)
    requires i < |Play(START, es).attempts| && Play(START, es).attempts[i].stage.Passed?
    ensures var a := Play(START, es).attempts[i];
            || (a.device.Some? && Cleared(a, DeviceKey(a)) && Cleared(a, AllDevices(a.kind, a.gen)))
            || (Cleared(a, PerAddress(a.kind, a.gen, a.ip)) && Cleared(a, PerAccount(a.kind, a.gen)))
  {
    PlayKeepsInv(START, es);
  }

  /**
   * A device within its own and the shared budget is admitted, at once, and touches neither the address's
   * nor the account's counter; one its own limit refuses spends nothing of the shared budget.
   */
  lemma DeviceBudgetDecides(es: seq<Event>, i: nat)
    requires i < |Play(START, es).attempts| && Play(START, es).attempts[i].device.Some?
    ensures var a := Play(START, es).attempts[i];
            var shared := AllDevices(a.kind, a.gen);
            && (Cleared(a, DeviceKey(a)) && Cleared(a, shared) ==>
                  && a.stage == Passed(0)
                  && PerAddress(a.kind, a.gen, a.ip) !in a.tickets && PerAccount(a.kind, a.gen) !in a.tickets)
            && (DeviceKey(a) in a.tickets && !Cleared(a, DeviceKey(a)) ==> a.stage.Refused? && shared !in a.tickets)
  {
    PlayKeepsInv(START, es);
  }

  /** The delay grows from the sixth attempt of the hour, and never past its maximum. */
  lemma DelayIsProgressive(m: nat, n: nat)
    requires m <= n
    ensures DelayMs(m) <= DelayMs(n) <= MAX_DELAY_MS && (DelayMs(n) == 0 <==> n <= FREE_ATTEMPTS)
  {
  }

  // ---- how long a counter lives, and what it answers ----

  /** An attempt counts under the generation it finds when it comes, at its device first if it has one. */
  lemma ArrivalReadsTheGeneration(w: World, gen: nat, kind: string, ip: string, device: Option<string>)
    ensures var w' := Step(Step(w, SetGeneration(gen)), Arrive(kind, ip, device));
            && w'.storage == w.storage && w'.attempts[..|w.attempts|] == w.attempts && |w'.attempts| == |w.attempts| + 1
            && KeyAt(w'.attempts[|w.attempts|]) ==
               Some(if device.Some? then PerDevice(kind, gen, device.value) else PerAddress(kind, gen, ip))
  {
  }

  /** An increment that is not answered changes nothing and holds nobody up: the attempt goes on, towards admission. */
  lemma UnansweredGoesOn(w: World, i: nat)
    requires i < |w.attempts| && KeyAt(w.attempts[i]).Some?
    ensures var w' := Step(w, Advance(i, false));
            && w'.storage == w.storage
            && w'.attempts[i].stage == match w.attempts[i].stage
                                       case AtDevice => AtAllDevices
                                       case AtAllDevices => Passed(0)
                                       case AtAddress => AtAccount
                                       case _ => Passed(0)
  {
  }

  /** This step counts one more on k. */
  predicate CountsOn(w: World, e: Event, k: CounterKey) {
    e == Stray(k) || (e.Advance? && e.answered && e.i < |w.attempts| && KeyAt(w.attempts[e.i]) == Some(k))
  }

  /** How often the run counts on k. */
  function Increments(w: World, es: seq<Event>, k: CounterKey): nat
    decreases |es|
  {
    if es == [] then 0 else (if CountsOn(w, es[0], k) then 1 else 0) + Increments(Step(w, es[0]), es[1..], k)
  }

  lemma StepCounts(w: World, e: Event, k: CounterKey)
    requires Alive(w.storage, k)
    ensures var s, s' := w.storage, Step(w, e).storage;
            && s.now <= s'.now && k in s'.counters
            && s'.counters[k] == s.counters[k].(n := s.counters[k].n + if CountsOn(w, e, k) then 1 else 0)
  {
  }

  lemma {:induction false} TimePasses(w: World, es: seq<Event>)
    ensures w.storage.now <= Play(w, es).storage.now
    decreases |es|
  {
    if es != [] {
      TimePasses(Step(w, es[0]), es[1..]);
    }
  }

  /** While a counter lives it counts every increment, from wherever it comes, and its end never moves. */
  lemma {:induction false} CountsEveryIncrement(w: World, es: seq<Event>, k: CounterKey)
    requires Alive(w.storage, k)
    ensures var c, s' := w.storage.counters[k], Play(w, es).storage;
            s'.now < c.expiry ==>
              k in s'.counters && s'.counters[k] == Counter(c.n + Increments(w, es, k), c.life, c.expiry)
    decreases |es|
  {
    if es != [] {
      StepCounts(w, es[0], k);
      TimePasses(Step(w, es[0]), es[1..]);
      if Alive(Step(w, es[0]).storage, k) {
        CountsEveryIncrement(Step(w, es[0]), es[1..], k);
      }
    }
  }

  /** A life has one end. */
  predicate OneEnd(s: Storage, k: CounterKey, life: nat, expiry: int) {
    life < s.lives && (k in s.counters && s.counters[k].life == life ==> s.counters[k].expiry == expiry)
  }

  lemma {:induction false} LifeHasOneEnd(w: World, es: seq<Event>, k: CounterKey, life: nat, expiry: int)
    requires OneEnd(w.storage, k, life, expiry)
    ensures OneEnd(Play(w, es).storage, k, life, expiry)
    decreases |es|
  {
    if es != [] {
      StepKeepsOneEnd(w, es[0], k, life, expiry);
      LifeHasOneEnd(Step(w, es[0]), es[1..], k, life, expiry);
    }
  }

  lemma StepKeepsOneEnd(w: World, e: Event, k: CounterKey, life: nat, expiry: int)
    requires OneEnd(w.storage, k, life, expiry)
    ensures OneEnd(Step(w, e).storage, k, life, expiry)
  {
  }

  /** A device's and an address's counter live a quarter of an hour, the account's and that of all devices an hour. */
  predicate LivesFor(k: CounterKey, seconds: int) {
    seconds == if k.PerDevice? || k.PerAddress? then 900 else 3600
  }

  /**
   * Over every run: a counter created at t is the one counted on until exactly 900 s later for a device or an
   * address, 3600 s for the account and for all devices, and is gone from then on. It has counted every increment
   * since, and the n-th of its life answers n.
   */
  lemma CounterLives(w: World, e: Event, es: seq<Event>, k: CounterKey, seconds: int)
    requires CountsOn(w, e, k) && !Alive(w.storage, k) && LivesFor(k, seconds)
    ensures var life, end := w.storage.lives, w.storage.now + seconds;
            var s' := Play(Step(w, e), es).storage;
            var n := 1 + Increments(Step(w, e), es, k);
            && (s'.now < end ==>
                  Alive(s', k) && s'.counters[k] == Counter(n, life, end) && TicketOf(s', k) == Ticket(life, n + 1))
            && (end <= s'.now ==> !(Alive(s', k) && s'.counters[k].life == life))
  {
    var w1 := Step(w, e);
    assert w1.storage == AfterIncrement(w.storage, k);
    LifeHasOneEnd(w1, es, k, w.storage.lives, w.storage.now + seconds);
    CountsEveryIncrement(w1, es, k);
  }

  /** The step that answers the c-th count of a life leads where the limits say. */
  lemma CountDecides(w: World, i: nat, k: CounterKey, c: nat)
    requires i < |w.attempts| && KeyAt(w.attempts[i]) == Some(k) && Count(TicketOf(w.storage, k)) == c
    ensures var stage := Step(w, Advance(i, true)).attempts[i].stage;
            match k
            case PerDevice(_, _, _) => stage == if 5 < c then Refused else AtAllDevices
            case AllDevices(_, _) => stage == if 20 < c then AtAddress else Passed(0)
            case PerAddress(_, _, _) => stage == if 5 < c then Refused else AtAccount
            case PerAccount(_, _) =>
              stage == if 50 < c then Refused else Passed(if c <= 5 then 0 else Min(200 * (c - 5), 5000))
  {
  }

  /**
   * So over every run, whatever lands in between: with five counts on an address within 900 s of the first, the
   * next attempt counted there in that time is refused, and no earlier one is.
   */
  lemma SixthFromAnAddressIsRefused(w: World, e: Event, es: seq<Event>, i: nat, k: CounterKey)
    requires CountsOn(w, e, k) && !Alive(w.storage, k) && k.PerAddress?
    requires var w' := Play(Step(w, e), es);
             w'.storage.now < w.storage.now + 900 && i < |w'.attempts| && KeyAt(w'.attempts[i]) == Some(k)
    ensures Step(Play(Step(w, e), es), Advance(i, true)).attempts[i].stage.Refused? <==>
            5 <= 1 + Increments(Step(w, e), es, k)
  {
    CounterLives(w, e, es, k, 900);
    CountDecides(Play(Step(w, e), es), i, k, 2 + Increments(Step(w, e), es, k));
  }

  /** The like of the account: with fifty counted within an hour of the first, the next is refused. */
  lemma FiftyFirstOnTheAccountIsRefused(w: World, e: Event, es: seq<Event>, i: nat, k: CounterKey)
    requires CountsOn(w, e, k) && !Alive(w.storage, k) && k.PerAccount?
    requires var w' := Play(Step(w, e), es);
             w'.storage.now < w.storage.now + 3600 && i < |w'.attempts| && KeyAt(w'.attempts[i]) == Some(k)
    ensures Step(Play(Step(w, e), es), Advance(i, true)).attempts[i].stage.Refused? <==>
            50 <= 1 + Increments(Step(w, e), es, k)
  {
    CounterLives(w, e, es, k, 3600);
    CountDecides(Play(Step(w, e), es), i, k, 2 + Increments(Step(w, e), es, k));
  }

  // ---- the code's own form ----

  /** One attempt with the account to itself, from where it stands; `up(i)` says increment i is answered. */
  function Alone(s: Storage, a: Attempt, up: nat -> bool, asked: nat): (Storage, Attempt)
    decreases 4 - Rank(a.stage)
  {
    if KeyAt(a).None? then (s, a)
    else if up(asked)
    then Alone(AfterIncrement(s, KeyAt(a).value), AfterTicket(a, TicketOf(s, KeyAt(a).value)), up, asked + 1)
    else Alone(s, AfterTicket(a, NoAnswer), up, asked + 1)
  }

  function Rank(stage: Stage): nat {
    match stage
    case AtDevice => 0
    case AtAllDevices => 1
    case AtAddress => 2
    case AtAccount => 3
    case _ => 4
  }

  /** A counter nobody has counted on starts at one, and leaves the others as they were. */
  lemma FirstCount(s: Storage, a: Attempt, asked: nat)
    requires KeyAt(a).Some? && KeyAt(a).value !in s.counters
    ensures var k := KeyAt(a).value;
            var s', a' := AfterIncrement(s, k), AfterTicket(a, TicketOf(s, k));
            && Alone(s, a, n => true, asked) == Alone(s', a', n => true, asked + 1)
            && s'.counters.Keys == s.counters.Keys + {k}
            && a' == a.(stage := NextStage(a.stage, 1), tickets := a'.tickets)
  {
    AloneStep(s, a, n => true, asked);
  }

  /** A generation nobody has counted under starts over: its first attempt passes at once. */
  lemma NewGenerationStartsOver(s: Storage, kind: string, gen: nat, ip: string, device: Option<string>)
    requires forall k :: k in s.counters ==> k.gen != gen
    ensures Alone(s, Arriving(kind, gen, ip, device), n => true, 0).1.stage == Passed(0)
  {
    var a := Arriving(kind, gen, ip, device);
    FirstCount(s, a, 0);
    var k := KeyAt(a).value;
    assert k.gen == gen;
    PassesSecond(AfterIncrement(s, k), AfterTicket(a, TicketOf(s, k)), 1);
  }

  /** With the store down every attempt is admitted at once. */
  lemma StoreDownAdmits(s: Storage, kind: string, gen: nat, ip: string, device: Option<string>)
    ensures Alone(s, Arriving(kind, gen, ip, device), n => false, 0).1.stage == Passed(0)
    ensures Alone(s, Arriving(kind, gen, ip, device), n => false, 0).0 == s
  {
    var up: nat -> bool := n => false;
    var a := Arriving(kind, gen, ip, device);
    AloneStep(s, a, up, 0);
    AloneStep(s, AfterTicket(a, NoAnswer), up, 1);
  }

  lemma PassesSecond(s: Storage, a: Attempt, asked: nat)
    requires (a.stage.AtAllDevices? || a.stage.AtAccount?) && KeyAt(a).value !in s.counters
    ensures Alone(s, a, n => true, asked).1.stage == Passed(0)
  {
    FirstCount(s, a, asked);
  }

  lemma AloneStep(s: Storage, a: Attempt, up: nat -> bool, asked: nat)
    requires KeyAt(a).Some?
    ensures var k := KeyAt(a).value;
            Alone(s, a, up, asked) ==
            if up(asked) then Alone(AfterIncrement(s, k), AfterTicket(a, TicketOf(s, k)), up, asked + 1)
            else Alone(s, AfterTicket(a, NoAnswer), up, asked + 1)
  {
  }

  /** No counter is from a generation after this one. */
  predicate UpTo(s: Storage, gen: nat) { forall k :: k in s.counters ==> k.gen <= gen }

  /** An attempt counts under the generation it read, and no other. */
  lemma {:induction false} AloneStaysUpTo(s: Storage, a: Attempt, up: nat -> bool, asked: nat, gen: nat)
    requires UpTo(s, gen) && a.gen <= gen
    ensures UpTo(Alone(s, a, up, asked).0, gen)
    decreases 4 - Rank(a.stage)
  {
    if KeyAt(a).Some? {
      var k := KeyAt(a).value;
      AloneStep(s, a, up, asked);
      if up(asked) {
        AloneStaysUpTo(AfterIncrement(s, k), AfterTicket(a, TicketOf(s, k)), up, asked + 1, gen);
      } else {
        AloneStaysUpTo(s, AfterTicket(a, NoAnswer), up, asked + 1, gen);
      }
    }
  }

  class Throttle {
    var storage: Storage
    var gen: nat

    method Increment(k: CounterKey, answered: bool) returns (count: nat)
      modifies this`storage
      ensures storage == if answered then AfterIncrement(old(storage), k) else old(storage)
      ensures count == if answered then Count(TicketOf(old(storage), k)) else 0
      ensures answered && !Alive(old(storage), k) ==>
        count == 1 && k in storage.counters &&
        storage.counters[k].expiry == storage.now + (if k.PerDevice? || k.PerAddress? then 900 else 3600)
      ensures answered && Alive(old(storage), k) ==>
        count == old(storage).counters[k].n + 1 && storage.counters[k] == old(storage).counters[k].(n := count)
    {
      if !answered { return 0; }
      var s := storage;
      if k in s.counters && s.now < s.counters[k].expiry {
        count := s.counters[k].n + 1;
        storage := s.(counters := s.counters[k := s.counters[k].(n := count)]);
      } else {
        count := 1;
        storage := Storage(s.counters[k := Counter(1, s.lives, s.now + WindowSeconds(k))], s.lives + 1, s.now);
      }
    }

    /** `admit`: per device first, then over all devices, then the address, then the account. */
    method Admit(kind: string, ip: string, device: Option<string>, up: nat -> bool) returns (end: Stage)
      modifies this`storage
      ensures (storage, end) == var r := Alone(old(storage), Arriving(kind, gen, ip, device), up, 0); (r.0, r.1.stage)
      ensures end.Passed? || end.Refused?
      ensures UpTo(old(storage), gen) ==> UpTo(storage, gen)
      ensures device.None? && up(0) && Alive(old(storage), PerAddress(kind, gen, ip)) ==>
        (5 <= old(storage).counters[PerAddress(kind, gen, ip)].n ==> end.Refused?)
      ensures device.Some? && up(0) && Alive(old(storage), PerDevice(kind, gen, device.value)) ==>
        (5 <= old(storage).counters[PerDevice(kind, gen, device.value)].n ==> end.Refused?)
    {
      ghost var a := Arriving(kind, gen, ip, device);
      AloneStep(storage, a, up, 0);
      if UpTo(storage, gen) { AloneStaysUpTo(storage, a, up, 0, gen); }
      var asked := 0;
      if device.Some? {
        end, a := AdmitByDevice(kind, device.value, up, a);
        if end.Passed? || end.Refused? { return; }
        asked := 2;
      }
      end, a := AdmitByAddress(kind, ip, up, asked, a);
    }

    /** `AtAddress` when the device decides nothing and the request is judged like any other. */
    method AdmitByDevice(kind: string, device: string, up: nat -> bool, ghost a: Attempt)
      returns (end: Stage, ghost a': Attempt)
      requires a.kind == kind && a.gen == gen && a.device == Some(device) && a.stage == AtDevice
      modifies this`storage
      ensures Alone(old(storage), a, up, 0) == Alone(storage, a', up, 2) ||
              (end.Refused? && Alone(old(storage), a, up, 0) == (storage, a'))
      ensures a'.kind == kind && a'.gen == gen && a'.ip == a.ip && a'.stage == end
      ensures end.Refused? || end == Passed(0) || end == AtAddress
    {
      var mine;
      mine, a' := Ask(PerDevice(kind, gen, device), up, 0, a);
      if mine > DEVICE_LIMIT { return Refused, a'; }
      var together;
      together, a' := Ask(AllDevices(kind, gen), up, 1, a');
      end := if together <= ALL_DEVICES_LIMIT then Passed(0) else AtAddress;
    }

    method AdmitByAddress(kind: string, ip: string, up: nat -> bool, asked: nat, ghost a: Attempt)
      returns (end: Stage, ghost a': Attempt)
      requires a.kind == kind && a.gen == gen && a.ip == ip && a.stage == AtAddress
      modifies this`storage
      ensures Alone(old(storage), a, up, asked) == (storage, a') && a'.stage == end && (end.Passed? || end.Refused?)
    {
      var here;
      here, a' := Ask(PerAddress(kind, gen, ip), up, asked, a);
      if here > ADDRESS_LIMIT { return Refused, a'; }
      var total;
      total, a' := Ask(PerAccount(kind, gen), up, asked + 1, a');
      if total > ACCOUNT_LIMIT { return Refused, a'; }
      var delay := 0;
      if total > FREE_ATTEMPTS { delay := Min((total - FREE_ATTEMPTS) * DELAY_STEP_MS, MAX_DELAY_MS); }
      end := Passed(delay);
    }

    method Ask(k: CounterKey, up: nat -> bool, asked: nat, ghost a: Attempt) returns (count: nat, ghost a': Attempt)
      requires KeyAt(a) == Some(k)
      modifies this`storage
      ensures Alone(old(storage), a, up, asked) == Alone(storage, a', up, asked + 1)
      ensures a' == a.(stage := NextStage(a.stage, count), tickets := a'.tickets)
    {
      AloneStep(storage, a, up, asked);
      a' := AfterTicket(a, if up(asked) then TicketOf(storage, k) else NoAnswer);
      count := Increment(k, up(asked));
    }

    /** Forgets every counter of the account: whatever had been counted, the next attempt of any kind, address
        or device passes at once, for it counts under keys nobody has counted on. */
    method ClearAttempts()
      modifies this`gen
      ensures gen == old(gen) + 1
      ensures UpTo(storage, old(gen)) ==> UpTo(storage, gen) && forall kind, ip, device ::
        Alone(storage, Arriving(kind, gen, ip, device), n => true, 0).1.stage == Passed(0)
    {
      ghost var before := gen;
      gen := gen + 1;
      if UpTo(storage, before) {
        forall kind, ip, device
          ensures Alone(storage, Arriving(kind, gen, ip, device), n => true, 0).1.stage == Passed(0)
        {
          NewGenerationStartsOver(storage, kind, gen, ip, device);
        }
      }
    }
  }
}
