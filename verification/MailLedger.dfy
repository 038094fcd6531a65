/**
 * The delivery ledger of `mail.send`: one Valkey entry per message, edited by four atomic scripts
 * (packages/platform-mail/src/state.ts), and every interleaving of the attempts that use it
 * (`run` in packages/platform-mail/src/jobs.ts). Times are milliseconds on the server's clock.
 */
module MailLedger {
  import opened Common

  type Token = string

  /** The value under a ledger key, with the instant its TTL ends. */
  datatype Entry = Absent | Claimed(token: Token, expiry: int) | Sent(id: string, expiry: int)

  datatype ClaimReply = Granted | AlreadySent(id: string) | InFlight

  /** What GET returns at `now`: a key past its TTL is gone. */
  function Seen(e: Entry, now: int): Entry {
    if e.Absent? || now < e.expiry then e else Absent
  }

  predicate HoldsClaim(e: Entry, now: int, token: Token) {
    Seen(e, now).Claimed? && e.token == token
  }

  function ClaimReplyOf(e: Entry, now: int): ClaimReply {
    match Seen(e, now)
    case Absent => Granted
    case Sent(id, _) => AlreadySent(id)
    case Claimed(_, _) => InFlight
  }

  function AfterClaim(e: Entry, now: int, token: Token, leaseMs: nat): Entry {
    if ClaimReplyOf(e, now).Granted? then Claimed(token, now + leaseMs) else e
  }

  function AfterMarkSent(now: int, id: string, ttlMs: nat): Entry { Sent(id, now + ttlMs) }

  function AfterRenew(e: Entry, now: int, token: Token, leaseMs: nat): Entry {
    if HoldsClaim(e, now, token) then Claimed(token, now + leaseMs) else e
  }

  function AfterRelease(e: Entry, now: int, token: Token): Entry {
    if HoldsClaim(e, now, token) then Absent else e
  }

  /**
   * Where an attempt that was granted the claim stands. `Working`: before the provider answers.
   * `Accepted`: the provider took the message and this attempt knows. `Failed`: about to release.
   */
  datatype Phase = Working | Accepted | Failed | Done

  /** `lossy`: its acknowledgement or its mark was lost, or it marked without holding its claim. */
  datatype Attempt = Attempt(token: Token, phase: Phase, delivered: bool, lossy: bool)

  /** `attempts` lists the granted claims in claim order; `lapses` counts claims granted because a
      `sent` record had outlived its TTL. */
  datatype Run = Run(now: int, entry: Entry, attempts: seq<Attempt>, lapses: nat)

  datatype Event =
    | Tick(to: int)
    | TryClaim(token: Token, leaseMs: nat, answered: bool)
    | Renewal(i: nat, leaseMs: nat)
    | Deliver(i: nat, acknowledged: bool)
    | Refuse(i: nat)
    | Record(i: nat, id: string, ttlMs: nat, landed: bool)
    | GiveBack(i: nat, landed: bool)
    | Crash(i: nat)

  const START := Run(0, Absent, [], 0)

  predicate FreshToken(s: Run, token: Token) {
    forall i :: 0 <= i < |s.attempts| ==> s.attempts[i].token != token
  }

  predicate In(s: Run, i: nat, phase: Phase) { i < |s.attempts| && s.attempts[i].phase == phase }

  predicate Holds(s: Run, a: Attempt) { HoldsClaim(s.entry, s.now, a.token) }

  /** One atomic step of the whole system. An event that is not enabled changes nothing. */
  function Step(s: Run, e: Event): Run {
    match e
    case Tick(to) => s.(now := Max(s.now, to))
    case TryClaim(token, leaseMs, answered) =>
      if !FreshToken(s, token) || !ClaimReplyOf(s.entry, s.now).Granted? then s
      else
        // A lost reply leaves the claim in place with nobody working under it.
        var a := Attempt(token, if answered then Working else Done, false, false);
        Run(s.now, AfterClaim(s.entry, s.now, token, leaseMs), s.attempts + [a],
            s.lapses + if s.entry.Sent? then 1 else 0)
    case Renewal(i, leaseMs) =>
      if i < |s.attempts| && s.attempts[i].phase != Done
      then s.(entry := AfterRenew(s.entry, s.now, s.attempts[i].token, leaseMs)) else s
    case Deliver(i, acknowledged) =>
      if !In(s, i, Working) then s
      else if acknowledged then Put(s, i, s.attempts[i].(phase := Accepted, delivered := true))
      else Put(s, i, s.attempts[i].(phase := Failed, delivered := true, lossy := true))
    case Refuse(i) =>
      if In(s, i, Working) then Put(s, i, s.attempts[i].(phase := Failed)) else s
    case Record(i, id, ttlMs, landed) =>
      if !In(s, i, Accepted) then s
      else
        var a := s.attempts[i];
        var kept := landed && Holds(s, a);
        var s' := Put(s, i, a.(phase := Done, lossy := a.lossy || !kept));
        if landed then s'.(entry := AfterMarkSent(s.now, id, ttlMs)) else s'
    case GiveBack(i, landed) =>
      if !In(s, i, Failed) then s
      else
        var s' := Put(s, i, s.attempts[i].(phase := Done));
        if landed then s'.(entry := AfterRelease(s.entry, s.now, s.attempts[i].token)) else s'
    case Crash(i) =>
      if !(i < |s.attempts|) then s
      else Put(s, i, s.attempts[i].(phase := Done,
                                    lossy := s.attempts[i].lossy || s.attempts[i].phase.Accepted?))
  }

  function Put(s: Run, i: nat, a: Attempt): Run
    requires i < |s.attempts|
  {
    s.(attempts := s.attempts[i := a])
  }

  function Play(s: Run, es: seq<Event>): Run
    decreases |es|
  {
    if es == [] then s else Play(Step(s, es[0]), es[1..])
  }

  /** Attempts, by their place in claim order, whose message reached the recipient. */
  function Deliveries(s: Run): set<int> {
    set i | 0 <= i < |s.attempts| && s.attempts[i].delivered
  }

  /** The deliveries that lost something: acknowledgement or mark lost, claim gone before marking. */
  function Losses(s: Run): set<int> {
    set i | 0 <= i < |s.attempts| && s.attempts[i].delivered &&
      (s.attempts[i].lossy || (s.attempts[i].phase.Accepted? && !Holds(s, s.attempts[i])))
  }

  predicate IsClean(a: Attempt) { a.delivered && a.phase.Done? && !a.lossy }

  /** Deliveries recorded while the claim was held, with nothing lost. */
  function Clean(s: Run): set<int> {
    set i | 0 <= i < |s.attempts| && IsClean(s.attempts[i])
  }

  predicate Sane(a: Attempt) {
    && (a.phase.Working? ==> !a.delivered && !a.lossy)
    && (a.phase.Accepted? ==> a.delivered && !a.lossy)
    && (a.phase.Failed? && a.delivered ==> a.lossy)
  }

  ghost predicate SaneAttempts(s: Run) {
    && (forall i, j :: 0 <= i < j < |s.attempts| ==> s.attempts[i].token != s.attempts[j].token)
    && (forall i :: 0 <= i < |s.attempts| ==> Sane(s.attempts[i]))
  }

  /** Clean records are paid for by the record now in the ledger and by the lapses. */
  ghost predicate CleanPaid(s: Run) { |Clean(s)| <= s.lapses + if s.entry.Sent? then 1 else 0 }

  ghost predicate Inv(s: Run) { SaneAttempts(s) && CleanPaid(s) }

  /** A claim is granted exactly when the key is absent or past its TTL, and then the token holds it. */
  lemma ClaimGrantedIff(e: Entry, now: int, token: Token, leaseMs: nat)
    requires 0 < leaseMs
    ensures ClaimReplyOf(e, now).Granted? <==> e.Absent? || e.expiry <= now
    ensures ClaimReplyOf(e, now).Granted? ==> HoldsClaim(AfterClaim(e, now, token, leaseMs), now, token)
    ensures ClaimReplyOf(e, now).AlreadySent? ==> Seen(e, now) == Sent(ClaimReplyOf(e, now).id, e.expiry)
  {
  }

  /** A live `sent` record is final: no step of anyone turns it into anything but a `sent` record. */
  lemma SentIsFinal(s: Run, e: Event)
    requires s.entry.Sent? && s.now < s.entry.expiry
    ensures Step(s, e).entry.Sent?
    ensures !e.Record? ==> Step(s, e).entry == s.entry
    ensures Step(s, e).lapses == s.lapses
  {
  }

  /** Another attempt's token moves nothing: only its own holder renews or releases a live claim. */
  lemma StrangerMovesNothing(e: Entry, now: int, token: Token, leaseMs: nat)
    ensures AfterRenew(e, now, token, leaseMs) != e ==> HoldsClaim(e, now, token)
    ensures AfterRelease(e, now, token) != e ==> HoldsClaim(e, now, token)
    ensures HoldsClaim(e, now, token) ==> AfterRelease(e, now, token).Absent? &&
                                          AfterRenew(e, now, token, leaseMs) == Claimed(token, now + leaseMs)
  {
  }

  // ---- how long an entry lasts ----

  /** A granted claim is its token's for exactly the lease, and till then nobody else is granted one. */
  lemma ClaimLastsItsLease(e: Entry, now: int, token: Token, leaseMs: nat, t: int)
    requires ClaimReplyOf(e, now).Granted? && now <= t
    ensures var e' := AfterClaim(e, now, token, leaseMs);
            && (HoldsClaim(e', t, token) <==> t < now + leaseMs)
            && (ClaimReplyOf(e', t).Granted? <==> now + leaseMs <= t)
            && (t < now + leaseMs ==> ClaimReplyOf(e', t).InFlight?)
  {
  }

  /** A renewal by the holder starts the lease anew; a release by it frees the entry at once. */
  lemma HolderRenewsAndFrees(e: Entry, now: int, token: Token, leaseMs: nat, t: int)
    requires HoldsClaim(e, now, token) && now <= t
    ensures HoldsClaim(AfterRenew(e, now, token, leaseMs), t, token) <==> t < now + leaseMs
    ensures ClaimReplyOf(AfterRenew(e, now, token, leaseMs), t).Granted? <==> now + leaseMs <= t
    ensures ClaimReplyOf(AfterRelease(e, now, token), t).Granted?
  {
  }

  /** A record answers every claim with its id for exactly its TTL. */
  lemma RecordLastsItsTtl(now: int, id: string, ttlMs: nat, t: int)
    requires now <= t
    ensures ClaimReplyOf(AfterMarkSent(now, id, ttlMs), t) == if t < now + ttlMs then AlreadySent(id) else Granted
  {
  }

  lemma PutKeepsSane(s: Run, s': Run, i: nat, a: Attempt)
    requires SaneAttempts(s) && i < |s.attempts| && s'.attempts == s.attempts[i := a]
    requires a.token == s.attempts[i].token && Sane(a)
    ensures SaneAttempts(s')
  {
  }

  lemma ClaimKeepsSane(s: Run, e: Event)
    requires SaneAttempts(s) && e.TryClaim?
    ensures SaneAttempts(Step(s, e))
  {
  }

  /** A step that moves an attempt moves one, to a sane place, under its own token. */
  lemma MovesOneSanely(s: Run, e: Event, i: nat)
    requires SaneAttempts(s) && i < |s.attempts| && (e.Deliver? || e.Refuse? || e.Record? || e.GiveBack? || e.Crash?)
    requires e.i == i
    ensures var s' := Step(s, e);
            && |s'.attempts| == |s.attempts| && s'.attempts == s.attempts[i := s'.attempts[i]]
            && s'.attempts[i].token == s.attempts[i].token && Sane(s'.attempts[i])
  {
  }

  lemma StepKeepsSane(s: Run, e: Event)
    requires SaneAttempts(s)
    ensures SaneAttempts(Step(s, e))
  {
    if e.TryClaim? {
      ClaimKeepsSane(s, e);
    } else if e.Tick? || e.Renewal? {
      assert Step(s, e).attempts == s.attempts;
    } else if e.i < |s.attempts| {
      MovesOneSanely(s, e, e.i);
      PutKeepsSane(s, Step(s, e), e.i, Step(s, e).attempts[e.i]);
    }
  }

  /** An attempt that moves on changes at most its own place among the clean. */
  lemma CleanAfterPut(attempts: seq<Attempt>, s: Run, s': Run, i: nat, a: Attempt)
    requires s.attempts == attempts && i < |attempts| && s'.attempts == attempts[i := a]
    ensures IsClean(attempts[i]) == IsClean(a) ==> Clean(s') == Clean(s)
    ensures IsClean(a) ==> Clean(s') == Clean(s) + {i as int}
  {
  }

  lemma RecordKeepsPaid(s: Run, e: Event)
    requires Inv(s) && e.Record? && In(s, e.i, Accepted)
    ensures CleanPaid(Step(s, e))
  {
    var a := s.attempts[e.i];
    var kept := e.landed && Holds(s, a);
    CleanAfterPut(s.attempts, s, Step(s, e), e.i, a.(phase := Done, lossy := a.lossy || !kept));
  }

  lemma ClaimKeepsPaid(s: Run, e: Event)
    requires Inv(s) && e.TryClaim?
    ensures CleanPaid(Step(s, e))
  {
    assert Clean(Step(s, e)) == Clean(s);
  }

  /** A step that makes no attempt clean, and takes away no record. */
  lemma NothingNewToPay(s: Run, s': Run)
    requires CleanPaid(s) && |s'.attempts| == |s.attempts|
    requires s'.lapses == s.lapses && (s.entry.Sent? ==> s'.entry.Sent?)
    requires forall i :: 0 <= i < |s.attempts| ==> (IsClean(s'.attempts[i]) <==> IsClean(s.attempts[i]))
    ensures CleanPaid(s')
  {
    assert Clean(s') == Clean(s);
  }

  lemma NoneNewlyClean(s: Run, e: Event)
    requires SaneAttempts(s) && !e.TryClaim? && !e.Record?
    ensures var s' := Step(s, e);
            && |s'.attempts| == |s.attempts| && s'.lapses == s.lapses && (s.entry.Sent? ==> s'.entry.Sent?)
            && forall i :: 0 <= i < |s.attempts| ==> (IsClean(s'.attempts[i]) <==> IsClean(s.attempts[i]))
  {
  }

  lemma StepKeepsPaid(s: Run, e: Event)
    requires Inv(s)
    ensures CleanPaid(Step(s, e))
  {
    if e.TryClaim? {
      ClaimKeepsPaid(s, e);
    } else if e.Record? && In(s, e.i, Accepted) {
      RecordKeepsPaid(s, e);
    } else if !e.Record? {
      NoneNewlyClean(s, e);
      NothingNewToPay(s, Step(s, e));
    }
  }

  lemma {:induction false} PlayKeepsInv(s: Run, es: seq<Event>)
    requires Inv(s)
    ensures Inv(Play(s, es))
    decreases |es|
  {
    if es != [] {
      StepKeepsSane(s, es[0]);
      StepKeepsPaid(s, es[0]);
      PlayKeepsInv(Step(s, es[0]), es[1..]);
    }
  }

  /** Every delivery is charged, clean, or the one attempt that still holds its claim. */
  lemma CountDeliveries(s: Run)
    requires Inv(s)
    ensures |Deliveries(s)| <= 1 + |Losses(s)| + s.lapses
  {
    var holder := set i | 0 <= i < |s.attempts| && s.attempts[i].phase.Accepted? && Holds(s, s.attempts[i]);
    AtMostOne(holder);
    assert Deliveries(s) == Losses(s) + Clean(s) + holder;
    assert holder != {} ==> s.entry.Claimed?;
  }

  /**
   * Over every run, from an empty ledger, of any number of attempts on one key: the recipient gets
   * at most one copy, plus one for every delivering attempt that lost its acknowledgement, its mark
   * or its claim, plus one for every `sent` record that outlived its TTL before the next claim.
   */
  lemma DeliveriesBounded(es: seq<Event>)
    ensures var s := Play(START, es); |Deliveries(s)| <= 1 + |Losses(s)| + s.lapses
  {
    assert Clean(START) == {};
    PlayKeepsInv(START, es);
    CountDeliveries(Play(START, es));
  }

  /** The bound is attained: one lost acknowledgement, two copies delivered. */
  lemma OneLossTwoCopies()
    ensures
      var s2 := Step(Step(START, TryClaim("a", 60000, true)), Deliver(0, false));
      var s4 := Step(Step(s2, GiveBack(0, true)), TryClaim("b", 60000, true));
      var s := Step(Step(s4, Deliver(1, true)), Record(1, "m", 604800000, true));
      |Deliveries(s)| == 2 && |Losses(s)| == 1 && s.lapses == 0
  {
    var s2 := Step(Step(START, TryClaim("a", 60000, true)), Deliver(0, false));
    var s4 := Step(Step(s2, GiveBack(0, true)), TryClaim("b", 60000, true));
    var s := Step(Step(s4, Deliver(1, true)), Record(1, "m", 604800000, true));
    assert Deliveries(s) == {0, 1};
    assert Losses(s) == {0};
  }

  // ---- what a claim excludes, and what an undisturbed attempt achieves ----

  /** The steps by which the entry of attempt i may change before its lease ends. */
  predicate TouchesClaim(e: Event, i: nat) {
    e.Record? || (e.Renewal? && e.i == i) || (e.GiveBack? && e.i == i)
  }

  lemma StepExcludes(s: Run, e: Event, i: nat, until: int)
    requires SaneAttempts(s) && i < |s.attempts| && s.entry == Claimed(s.attempts[i].token, until)
    requires !TouchesClaim(e, i) && s.now < until
    ensures var s' := Step(s, e);
            && |s'.attempts| == |s.attempts| && s'.attempts[i].token == s.attempts[i].token
            && s'.entry == s.entry && s.now <= s'.now
  {
    if e.GiveBack? && e.i < |s.attempts| { assert s.attempts[e.i].token != s.attempts[i].token; }
    if e.Renewal? && e.i < |s.attempts| { assert s.attempts[e.i].token != s.attempts[i].token; }
  }

  lemma {:induction false} TimeOnlyPasses(s: Run, es: seq<Event>)
    ensures s.now <= Play(s, es).now
    decreases |es|
  {
    if es != [] {
      TimeOnlyPasses(Step(s, es[0]), es[1..]);
    }
  }

  /** Over every run: until the lease of a claim ends, and while it is neither given back nor recorded over, no
      other attempt is granted a claim, whoever asks, however often. */
  lemma {:induction false} LeaseExcludes(s: Run, es: seq<Event>, i: nat, until: int)
    requires SaneAttempts(s) && i < |s.attempts| && s.entry == Claimed(s.attempts[i].token, until)
    requires forall e :: e in es ==> !TouchesClaim(e, i)
    ensures Play(s, es).now < until ==> |Play(s, es).attempts| == |s.attempts| && Play(s, es).entry == s.entry
    decreases |es|
  {
    if es != [] && s.now < until {
      var s' := Step(s, es[0]);
      assert es[0] in es;
      StepExcludes(s, es[0], i, until);
      StepKeepsSane(s, es[0]);
      LeaseExcludes(s', es[1..], i, until);
    } else {
      TimeOnlyPasses(s, es);
    }
  }

  /**
   * An attempt that is granted its claim, delivers, hears of it and records it within its lease adds exactly one
   * delivery and no loss, and from then on, for the record's whole TTL, every claim is told the id it recorded.
   */
  lemma UndisturbedDeliversOnce(s: Run, token: Token, leaseMs: nat, id: string, ttlMs: nat, later: int, t: Token)
    requires SaneAttempts(s) && FreshToken(s, token) && ClaimReplyOf(s.entry, s.now).Granted? && 0 < leaseMs
    requires s.now <= later < s.now + ttlMs
    ensures var n := |s.attempts|;
            var s1 := Step(s, TryClaim(token, leaseMs, true));
            var s3 := Step(Step(s1, Deliver(n, true)), Record(n, id, ttlMs, true));
            && Deliveries(s3) == Deliveries(s) + {n as int} && n as int !in Deliveries(s) && n as int !in Losses(s3)
            && ClaimReplyOf(s3.entry, later) == AlreadySent(id)
            && Step(Step(s3, Tick(later)), TryClaim(t, leaseMs, true)).attempts == s3.attempts
  {
    var n := |s.attempts|;
    var s1 := Step(s, TryClaim(token, leaseMs, true));
    var s2 := Step(s1, Deliver(n, true));
    var s3 := Step(s2, Record(n, id, ttlMs, true));
    assert s1.attempts[n] == Attempt(token, Working, false, false);
    assert forall i :: 0 <= i < n ==> s3.attempts[i] == s.attempts[i];
    RecordLastsItsTtl(s.now, id, ttlMs, later);
  }

  /** The lapses are exactly the claims granted over a `sent` record that had outlived its TTL. */
  lemma LapsesAreCounted(s: Run, e: Event)
    ensures var asked := e.TryClaim? && FreshToken(s, e.token);
            && Step(s, e).lapses == s.lapses + (if asked && s.entry.Sent? && s.entry.expiry <= s.now then 1 else 0)
            && |Step(s, e).attempts| ==
               |s.attempts| + (if asked && (s.entry.Absent? || s.entry.expiry <= s.now) then 1 else 0)
  {
  }

  /** While its attempt is at work, a renewal in time keeps the claim for another lease, and a failed attempt's
      give-back lets the next claim in at once. */
  lemma WorkingAttemptKeepsOrGivesBack(s: Run, i: nat, leaseMs: nat, later: int)
    requires i < |s.attempts| && Holds(s, s.attempts[i]) && s.now <= later
    ensures s.attempts[i].phase != Done ==>
              var s' := Step(s, Renewal(i, leaseMs));
              HoldsClaim(s'.entry, later, s.attempts[i].token) <==> later < s.now + leaseMs
    ensures s.attempts[i].phase == Failed ==>
              ClaimReplyOf(Step(s, GiveBack(i, true)).entry, later).Granted?
    ensures s.attempts[i].phase == Working ==>
              In(Step(s, Refuse(i)), i, Failed) && In(Step(s, Deliver(i, false)), i, Failed)
    ensures s.attempts[i].phase == Accepted ==> Step(s, Crash(i)).attempts[i].lossy
  {
  }
}
