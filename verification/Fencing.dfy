/**
 * What fencing by (id, retry_count) gives over every interleaving of fetches, expiries, retries, early and
 * batch settles (packages/platform-jobs/src/engine.ts, claims.ts): stated per inserted row, and exactly
 * where it stops, since a redrive or a repeated send inserts the same id again at retry_count 0.
 */
module Fencing {
  import opened Common
  import opened JobsTable

  /** How far one inserted row has come: every claim and every outcome moves it on. */
  function Progress(r: Row): nat {
    2 * r.attempt + match r.state
                    case Created => 0
                    case Active => 1
                    case Retry => 2
                    case _ => 3
  }

  predicate Final(r: Row) { r.state.Completed? || r.state.Cancelled? || r.state.Failed? }

  /** The same insertion later on: identity, payload and deadline never change, and it never goes back. */
  predicate Later(r: Row, r': Row) {
    && r'.serial == r.serial && r'.data == r.data && r'.priority == r.priority
    && r'.createdOn == r.createdOn && r'.keepUntil == r.keepUntil && r'.source == r.source
    && (r' == r || (!Final(r) && Progress(r) < Progress(r') && r.attempt <= r'.attempt))
  }

  ghost predicate RowsMoveOn(t: Table, t': Table) {
    && t.serials <= t'.serials
    && forall k :: k in t'.rows ==>
         if k in t.rows && t'.rows[k].serial == t.rows[k].serial then Later(t.rows[k], t'.rows[k])
         else t'.rows[k].serial >= t.serials
  }

  lemma UpdateMovesOn(t: Table, k: Key, r: Row)
    requires k in t.rows && Later(t.rows[k], r)
    ensures RowsMoveOn(t, t.(rows := t.rows[k := r]))
  {
  }

  lemma InsertMovesOn(t: Table, t': Table, k: Key, data: string, priority: int, source: Option<Key>)
    requires SerialsUsed(t) && RowsMoveOn(t, t')
    ensures RowsMoveOn(t, AfterInsert(t', k, data, priority, source))
  {
  }

  lemma FailureMovesOn(t: Table, k: Key, copyId: nat)
    requires SerialsUsed(t) && k in t.rows && t.rows[k].state.Active?
    ensures RowsMoveOn(t, AfterDeadLetter(t, k, copyId)) && RowsMoveOn(t, AfterFailure(t, k, copyId))
  {
    var r := t.rows[k];
    UpdateMovesOn(t, k, r.(state := Retry));
    UpdateMovesOn(t, k, r.(state := Failed));
    if HasDeadLetter(t, k) {
      InsertMovesOn(t, t.(rows := t.rows[k := r.(state := Failed)]),
                    Key(t.queues[k.queue].deadLetter.value, copyId), r.data, r.priority, Some(k));
    }
  }

  lemma MoveMovesOn(t: Table, c: Key, locked: bool, policyFor: string -> Policy)
    requires SerialsUsed(t)
    ensures RowsMoveOn(t, AfterMove(t, c, locked, policyFor))
  {
  }

  lemma SettleMovesOn(t: Table, k: Key, attempt: nat, v: Verdict, copyId: nat)
    requires SerialsUsed(t)
    ensures RowsMoveOn(t, AfterSettle(t, k, attempt, v, copyId))
  {
    if HoldsClaim(t, k, attempt) {
      FailureMovesOn(t, k, copyId);
      UpdateMovesOn(t, k, t.rows[k].(state := Completed));
    }
  }

  lemma StepMovesOn(t: Table, e: Event)
    requires SerialsUsed(t)
    ensures RowsMoveOn(t, Step(t, e))
  {
    match e
    case Tick(to) =>
    case Send(k, data, priority) => InsertMovesOn(t, t, k, data, priority, None);
    case Fetch(k) =>
      if k in t.rows && Waiting(t.rows[k]) { UpdateMovesOn(t, k, AfterFetch(t, k).rows[k]); }
    case Settle(k, attempt, verdict, copyId) => SettleMovesOn(t, k, attempt, verdict, copyId);
    case Expire(k, copyId) =>
      if k in t.rows && t.rows[k].state.Active? { FailureMovesOn(t, k, copyId); }
    case Cancel(k) =>
      if k in t.rows && Unfinished(t.rows[k]) { UpdateMovesOn(t, k, t.rows[k].(state := Cancelled)); }
    case Redrive(c, locked, policyFor) => MoveMovesOn(t, c, locked, policyFor);
    case Sweep(queues) =>
    case DeleteFinished(k) =>
  }

  /**
   * Over every run, a row inserted once only ever moves on: its payload and deadline stay (a retry extends
   * nothing), and once it is completed, cancelled or failed it stays exactly as it is until deleted.
   */
  lemma {:induction false} RowsOnlyMoveOn(t: Table, es: seq<Event>)
    requires Numbered(t)
    ensures RowsMoveOn(t, Play(t, es))
    decreases |es|
  {
    if es != [] {
      StepMovesOn(t, es[0]);
      StepKeepsNumbered(t, es[0]);
      RowsOnlyMoveOn(Step(t, es[0]), es[1..]);
    }
  }

  /** A settle changes something only while the row is active under the settling attempt's number. */
  lemma SettleIsFenced(t: Table, k: Key, attempt: nat, v: Verdict, copyId: nat)
    ensures AfterSettle(t, k, attempt, v, copyId) != t <==> HoldsClaim(t, k, attempt)
  {
    if HoldsClaim(t, k, attempt) {
      var t' := AfterSettle(t, k, attempt, v, copyId);
      assert k !in t'.rows || t'.rows[k].state != t.rows[k].state;
    }
  }

  /** A settle that lands on the insertion `serial`, under attempt `attempt`. */
  predicate Lands(t: Table, e: Event, serial: nat, attempt: nat) {
    e.Settle? && e.attempt == attempt && HoldsClaim(t, e.k, attempt) && t.rows[e.k].serial == serial
  }

  function Landings(t: Table, es: seq<Event>, serial: nat, attempt: nat): nat
    decreases |es|
  {
    if es == [] then 0
    else (if Lands(t, es[0], serial, attempt) then 1 else 0) + Landings(Step(t, es[0]), es[1..], serial, attempt)
  }

  /** A claim that started this attempt of this insertion. */
  predicate Starts(t: Table, e: Event, serial: nat, attempt: nat) {
    e.Fetch? && e.k in t.rows && Waiting(t.rows[e.k]) && t.rows[e.k].serial == serial &&
    AfterFetch(t, e.k).rows[e.k].attempt == attempt
  }

  function Fetches(t: Table, es: seq<Event>, serial: nat, attempt: nat): nat
    decreases |es|
  {
    if es == [] then 0
    else (if Starts(t, es[0], serial, attempt) then 1 else 0) + Fetches(Step(t, es[0]), es[1..], serial, attempt)
  }

  /** The insertion exists or existed, and if it is still there it is past the given point. */
  ghost predicate Past(t: Table, serial: nat, progress: nat) {
    serial < t.serials && forall k :: k in t.rows && t.rows[k].serial == serial ==> progress < Progress(t.rows[k])
  }

  lemma StepKeepsPast(t: Table, e: Event, serial: nat, progress: nat)
    requires Numbered(t) && Past(t, serial, progress)
    ensures Past(Step(t, e), serial, progress)
  {
    StepMovesOn(t, e);
  }

  /** Past the running of an attempt, nothing settles under it any more; past its start, nothing starts it. */
  lemma {:induction false} NothingAfter(t: Table, es: seq<Event>, serial: nat, attempt: nat)
    requires Numbered(t)
    ensures Past(t, serial, 2 * attempt + 1) ==> Landings(t, es, serial, attempt) == 0
    ensures Past(t, serial, 2 * attempt) ==> Fetches(t, es, serial, attempt) == 0
    decreases |es|
  {
    if es != [] {
      if Past(t, serial, 2 * attempt + 1) { StepKeepsPast(t, es[0], serial, 2 * attempt + 1); }
      if Past(t, serial, 2 * attempt) { StepKeepsPast(t, es[0], serial, 2 * attempt); }
      StepKeepsNumbered(t, es[0]);
      NothingAfter(Step(t, es[0]), es[1..], serial, attempt);
    }
  }

  lemma LandingLeavesPast(t: Table, e: Event, serial: nat, attempt: nat)
    requires Numbered(t) && Lands(t, e, serial, attempt)
    ensures Past(Step(t, e), serial, 2 * attempt + 1)
  {
    StepMovesOn(t, e);
    SettleIsFenced(t, e.k, attempt, e.verdict, e.copyId);
  }

  lemma StartLeavesPast(t: Table, e: Event, serial: nat, attempt: nat)
    requires Numbered(t) && Starts(t, e, serial, attempt)
    ensures Past(Step(t, e), serial, 2 * attempt)
  {
    StepMovesOn(t, e);
  }

  /**
   * Per inserted row, over every interleaving: each attempt number is claimed at most once and settled at
   * most once, so a settled success is settled again by nobody, early or late, batch or drain.
   */
  lemma {:induction false} EachAttemptOnce(t: Table, es: seq<Event>, serial: nat, attempt: nat)
    requires Numbered(t)
    ensures Fetches(t, es, serial, attempt) <= 1 && Landings(t, es, serial, attempt) <= 1
    decreases |es|
  {
    if es != [] {
      var e, t' := es[0], Step(t, es[0]);
      StepKeepsNumbered(t, e);
      NothingAfter(t', es[1..], serial, attempt);
      EachAttemptOnce(t', es[1..], serial, attempt);
      if Lands(t, e, serial, attempt) { LandingLeavesPast(t, e, serial, attempt); }
      if Starts(t, e, serial, attempt) { StartLeavesPast(t, e, serial, attempt); }
    }
  }

  // ---- how often an attempt is made ----

  /** No attempt number is past the retries its queue allows, and a row that waits for a retry has one left. */
  ghost predicate InBudget(t: Table) {
    forall k :: k in t.rows ==> RowInBudget(t, k, t.rows[k])
  }

  predicate RowInBudget(t: Table, k: Key, r: Row) {
    k.queue in t.queues ==>
      r.attempt <= t.queues[k.queue].retryLimit && (r.state.Retry? ==> r.attempt < t.queues[k.queue].retryLimit)
  }

  lemma UpdateKeepsBudget(t: Table, k: Key, r: Row)
    requires InBudget(t) && k in t.rows && RowInBudget(t, k, r)
    ensures InBudget(t.(rows := t.rows[k := r]))
  {
  }

  lemma InsertKeepsBudget(t: Table, k: Key, data: string, priority: int, source: Option<Key>)
    requires InBudget(t)
    ensures var t' := AfterInsert(t, k, data, priority, source); InBudget(t') && t'.queues == t.queues
  {
  }

  lemma FailureKeepsBudget(t: Table, k: Key, copyId: nat)
    requires InBudget(t) && k in t.rows
    ensures InBudget(AfterDeadLetter(t, k, copyId)) && AfterDeadLetter(t, k, copyId).queues == t.queues
    ensures InBudget(AfterFailure(t, k, copyId)) && AfterFailure(t, k, copyId).queues == t.queues
  {
    var r := t.rows[k];
    UpdateKeepsBudget(t, k, r.(state := Failed));
    if RowInBudget(t, k, r.(state := Retry)) { UpdateKeepsBudget(t, k, r.(state := Retry)); }
    if HasDeadLetter(t, k) {
      InsertKeepsBudget(t.(rows := t.rows[k := r.(state := Failed)]),
                        Key(t.queues[k.queue].deadLetter.value, copyId), r.data, r.priority, Some(k));
    }
  }

  lemma SettleKeepsBudget(t: Table, k: Key, attempt: nat, v: Verdict, copyId: nat)
    requires InBudget(t)
    ensures InBudget(AfterSettle(t, k, attempt, v, copyId)) && AfterSettle(t, k, attempt, v, copyId).queues == t.queues
  {
    if HoldsClaim(t, k, attempt) {
      FailureKeepsBudget(t, k, copyId);
      UpdateKeepsBudget(t, k, t.rows[k].(state := Completed));
    }
  }

  lemma FetchKeepsBudget(t: Table, k: Key)
    requires InBudget(t)
    ensures InBudget(AfterFetch(t, k)) && AfterFetch(t, k).queues == t.queues
  {
    if k in t.rows && Waiting(t.rows[k]) { UpdateKeepsBudget(t, k, AfterFetch(t, k).rows[k]); }
  }

  lemma MoveKeepsBudget(t: Table, c: Key, locked: bool, policyFor: string -> Policy)
    requires InBudget(t)
    ensures InBudget(AfterMove(t, c, locked, policyFor)) && AfterMove(t, c, locked, policyFor).queues == t.queues
  {
  }

  lemma StepKeepsBudget(t: Table, e: Event)
    requires InBudget(t)
    ensures InBudget(Step(t, e)) && Step(t, e).queues == t.queues
  {
    match e
    case Tick(to) =>
    case Send(k, data, priority) => InsertKeepsBudget(t, k, data, priority, None);
    case Fetch(k) => FetchKeepsBudget(t, k);
    case Settle(k, attempt, verdict, copyId) => SettleKeepsBudget(t, k, attempt, verdict, copyId);
    case Expire(k, copyId) => if k in t.rows { FailureKeepsBudget(t, k, copyId); }
    case Cancel(k) => if k in t.rows { UpdateKeepsBudget(t, k, t.rows[k].(state := Cancelled)); }
    case Redrive(c, locked, policyFor) => MoveKeepsBudget(t, c, locked, policyFor);
    case Sweep(queues) =>
    case DeleteFinished(k) =>
  }

  /** Over every run, however attempts fail, expire, or are redriven: a job of a queue runs at most once more than
      its queue retries (with `EachAttemptOnce`, one claim for each number from 0 to the limit). */
  lemma {:induction false} AttemptsWithinBudget(t: Table, es: seq<Event>)
    requires InBudget(t)
    ensures InBudget(Play(t, es)) && Play(t, es).queues == t.queues
    decreases |es|
  {
    if es != [] {
      StepKeepsBudget(t, es[0]);
      AttemptsWithinBudget(Step(t, es[0]), es[1..]);
    }
  }

  // ---- how long a claim lasts ----

  /** This insertion of the job is active under this attempt. */
  predicate Owns(t: Table, k: Key, serial: nat, attempt: nat) {
    HoldsClaim(t, k, attempt) && t.rows[k].serial == serial
  }

  /** The events that end a claim: its own settle, its expiry, a cancellation. */
  predicate EndsClaim(e: Event, k: Key, attempt: nat) {
    match e
    case Settle(k', attempt', _, _) => k' == k && attempt' == attempt
    case Expire(k', _) => k' == k
    case Cancel(k') => k' == k
    case _ => false
  }

  lemma EndingLosesClaim(t: Table, e: Event, k: Key, serial: nat, attempt: nat)
    requires Numbered(t) && Owns(t, k, serial, attempt) && EndsClaim(e, k, attempt)
    ensures Past(Step(t, e), serial, 2 * attempt + 1)
  {
    if e.Settle? {
      LandingLeavesPast(t, e, serial, attempt);
    } else {
      StepMovesOn(t, e);
      assert k in Step(t, e).rows && Progress(t.rows[k]) < Progress(Step(t, e).rows[k]);
    }
  }

  /** What is active under another key or another attempt is not this event's business. */
  lemma OthersKeepClaim(t: Table, e: Event, k: Key, serial: nat, attempt: nat)
    requires Owns(t, k, serial, attempt) && !EndsClaim(e, k, attempt)
    ensures Owns(Step(t, e), k, serial, attempt)
  {
  }

  /** Once lost, the claim of an attempt never comes back to the same insertion. */
  lemma {:induction false} LostForGood(t: Table, es: seq<Event>, k: Key, serial: nat, attempt: nat)
    requires Numbered(t) && Past(t, serial, 2 * attempt + 1)
    ensures Past(Play(t, es), serial, 2 * attempt + 1) && !Owns(Play(t, es), k, serial, attempt)
    decreases |es|
  {
    if es != [] {
      StepKeepsPast(t, es[0], serial, 2 * attempt + 1);
      StepKeepsNumbered(t, es[0]);
      LostForGood(Step(t, es[0]), es[1..], k, serial, attempt);
    }
  }

  /**
   * Over every run from a held claim, whatever redrives, sends, sweeps and other workers do: the attempt still
   * holds it on the same insertion if and only if no event was its own settle, its expiry or its cancellation.
   */
  lemma {:induction false} ClaimKeptIff(t: Table, es: seq<Event>, k: Key, serial: nat, attempt: nat)
    requires Numbered(t) && Owns(t, k, serial, attempt)
    ensures Owns(Play(t, es), k, serial, attempt) <==> forall e :: e in es ==> !EndsClaim(e, k, attempt)
    decreases |es|
  {
    if es != [] {
      StepKeepsNumbered(t, es[0]);
      if EndsClaim(es[0], k, attempt) {
        EndingLosesClaim(t, es[0], k, serial, attempt);
        LostForGood(Step(t, es[0]), es[1..], k, serial, attempt);
      } else {
        OthersKeepClaim(t, es[0], k, serial, attempt);
        ClaimKeptIff(Step(t, es[0]), es[1..], k, serial, attempt);
        assert es == [es[0]] + es[1..];
      }
    }
  }

  /** An attempt is known by the insertion it was fetched from, which its settle does not carry. */
  datatype Attempt = Attempt(k: Key, serial: nat, number: nat)

  /** A settle reaches a row other than the one it was fetched from exactly when the id was inserted
      again and that row is now active under the same number. */
  lemma SettleReachesAnotherRowIff(t: Table, a: Attempt, v: Verdict, copyId: nat)
    ensures var t' := AfterSettle(t, a.k, a.number, v, copyId);
            (exists k :: k in t.rows && t.rows[k].serial != a.serial && (k !in t'.rows || t'.rows[k] != t.rows[k]))
            <==> HoldsClaim(t, a.k, a.number) && t.rows[a.k].serial != a.serial
  {
    var t' := AfterSettle(t, a.k, a.number, v, copyId);
    if HoldsClaim(t, a.k, a.number) {
      assert a.k !in t'.rows || t'.rows[a.k].state != t.rows[a.k].state;
    }
  }

  /**
   * It does happen: the job is dead-lettered while its first attempt still runs, redriven under the same id
   * and fetched again, and the first attempt's late success completes the new row under the new attempt.
   */
  lemma StaleSuccessCompletesRedrivenRow()
    ensures
      var queues := map["q" := Queue(0, Some("d"), 1000, false), "d" := Queue(0, None, 1000, false)];
      var k, c := Key("q", 1), Key("d", 7);
      var dead := Step(Step(Step(Table(map[], queues, 0, 0), Send(k, "x", 0)), Fetch(k)), Expire(k, 7));
      var again := Step(Step(dead, Redrive(c, false, q => NoRule)), Fetch(k));
      var late := Step(again, Settle(k, 0, Success, 0));
      && again.rows[k].state.Active? && again.rows[k].serial == 2
      && late.rows[k].state.Completed? && late.rows[k].serial == 2
  {
    var queues := map["q" := Queue(0, Some("d"), 1000, false), "d" := Queue(0, None, 1000, false)];
    var k, c := Key("q", 1), Key("d", 7);
    var dead := Step(Step(Step(Table(map[], queues, 0, 0), Send(k, "x", 0)), Fetch(k)), Expire(k, 7));
    assert dead.rows[k].state.Failed? && dead.rows[c].source == Some(k) && dead.serials == 2;
  }
}
