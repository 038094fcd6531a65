/**
 * What any number of redrives keep, interleaved with sends, workers, expiry and sweeps
 * (packages/platform-jobs/src/redrive.ts): no copy moves twice and no payload is lost.
 */
module RedriveSafety {
  import opened Common
  import opened JobsTable

  predicate MovesSerial(t: Table, e: Event, serial: nat) {
    e.Redrive? && MoveOutcome(t, e.c, e.locked, e.policyFor).Moved? && t.rows[e.c].serial == serial
  }

  /** How many transactions of the run moved the row inserted under this number. */
  function Moves(t: Table, es: seq<Event>, serial: nat): nat
    decreases |es|
  {
    if es == [] then 0
    else (if MovesSerial(t, es[0], serial) then 1 else 0) + Moves(Step(t, es[0]), es[1..], serial)
  }

  /** The row was inserted once, and is gone. */
  ghost predicate Gone(t: Table, serial: nat) {
    serial < t.serials && forall k :: k in t.rows ==> t.rows[k].serial != serial
  }

  lemma FailureKeepsGone(t: Table, k: Key, copyId: nat, serial: nat)
    requires k in t.rows && Gone(t, serial)
    ensures Gone(AfterDeadLetter(t, k, copyId), serial) && Gone(AfterFailure(t, k, copyId), serial)
  {
  }

  lemma StepKeepsGone(t: Table, e: Event, serial: nat)
    requires Gone(t, serial)
    ensures Gone(Step(t, e), serial)
  {
    match e
    case Settle(k, attempt, verdict, copyId) =>
      if HoldsClaim(t, k, attempt) { FailureKeepsGone(t, k, copyId, serial); }
    case Expire(k, copyId) =>
      if k in t.rows { FailureKeepsGone(t, k, copyId, serial); }
    case _ =>
  }

  lemma {:induction false} GoneNeverMoves(t: Table, es: seq<Event>, serial: nat)
    requires Gone(t, serial)
    ensures Moves(t, es, serial) == 0
    decreases |es|
  {
    if es != [] {
      StepKeepsGone(t, es[0], serial);
      GoneNeverMoves(Step(t, es[0]), es[1..], serial);
    }
  }

  /** In every run, under any interleaving, each dead-letter copy moves at most once. */
  lemma {:induction false} EachCopyMovesAtMostOnce(t: Table, es: seq<Event>, serial: nat)
    requires Numbered(t)
    ensures Moves(t, es, serial) <= 1
    decreases |es|
  {
    if es != [] {
      StepKeepsNumbered(t, es[0]);
      if MovesSerial(t, es[0], serial) {
        var t' := Step(t, es[0]);
        assert forall k :: k in t'.rows ==>
          (k in t.rows && t'.rows[k] == t.rows[k] && k != es[0].c) || t'.rows[k].serial == t.serials;
        assert Gone(t', serial);
        GoneNeverMoves(t', es[1..], serial);
      } else {
        EachCopyMovesAtMostOnce(Step(t, es[0]), es[1..], serial);
      }
    }
  }

  // ---- no payload is lost ----

  /** The job a row is about: the one that died, for a dead-letter copy; itself otherwise. */
  function Home(k: Key, r: Row): Key { if r.source.Some? then r.source.value else k }

  predicate Carrier(t: Table, k: Key, home: Key, data: string) {
    k in t.rows && Unfinished(t.rows[k]) && t.rows[k].data == data && Home(k, t.rows[k]) == home
  }

  /** The payload of job `home` is still somewhere to be worked on. */
  ghost predicate Carried(t: Table, home: Key, data: string) { exists k :: Carrier(t, k, home, data) }

  predicate LastAttempt(t: Table, k: Key) {
    k in t.rows && !(k.queue in t.queues && t.rows[k].attempt < t.queues[k.queue].retryLimit)
  }

  /** The step gives up on row k with nothing to show for it: a copy worked in its own queue failed for
      good, or there is no dead-letter queue. */
  predicate Abandons(t: Table, k: Key) { k in t.rows && (t.rows[k].source.Some? || !HasDeadLetter(t, k)) }

  /** The step finishes, cancels, abandons or expires the very row that carries the payload. */
  predicate Consumes(t: Table, e: Event, k: Key) {
    match e
    case Settle(k', attempt, v, _) =>
      k' == k && HoldsClaim(t, k, attempt) &&
      (v.Success? || ((v.Permanent? || LastAttempt(t, k)) && Abandons(t, k)))
    case Expire(k', _) => k' == k && LastAttempt(t, k) && Abandons(t, k)
    case Cancel(k') => k' == k
    case Sweep(queues) => PastDeadline(t, queues, k)
    case _ => false
  }

  /** Dead-lettering finds its queue and an unused random id. */
  predicate CopyFits(t: Table, e: Event) {
    (e.Settle? || e.Expire?) && HasDeadLetter(t, e.k) ==>
      CanInsert(t, Key(t.queues[e.k.queue].deadLetter.value, e.copyId))
  }

  lemma FailureKeepsCarried(t: Table, k: Key, copyId: nat, home: Key, data: string)
    requires Carrier(t, k, home, data)
    requires HasDeadLetter(t, k) ==> CanInsert(t, Key(t.queues[k.queue].deadLetter.value, copyId))
    ensures !Abandons(t, k) ==> Carried(AfterDeadLetter(t, k, copyId), home, data)
    ensures !(LastAttempt(t, k) && Abandons(t, k)) ==> Carried(AfterFailure(t, k, copyId), home, data)
  {
    if !Abandons(t, k) {
      assert Carrier(AfterDeadLetter(t, k, copyId), Key(t.queues[k.queue].deadLetter.value, copyId), home, data);
    }
    if !LastAttempt(t, k) {
      assert Carrier(AfterFailure(t, k, copyId), k, home, data);
    }
  }

  /** A step that neither finishes nor gives up on the carrier leaves the payload carried. */
  lemma StepKeepsCarried(t: Table, e: Event, k: Key, home: Key, data: string)
    requires Carrier(t, k, home, data) && CopyFits(t, e) && !Consumes(t, e, k)
    ensures Carried(Step(t, e), home, data)
  {
    if e.Settle? && e.k == k && HoldsClaim(t, k, e.attempt) {
      FailureKeepsCarried(t, k, e.copyId, home, data);
    } else if e.Expire? && e.k == k && t.rows[k].state.Active? {
      FailureKeepsCarried(t, k, e.copyId, home, data);
    } else if e.Redrive? && e.c == k && MoveOutcome(t, k, e.locked, e.policyFor).Moved? {
      assert Carrier(Step(t, e), home, home, data);
    } else {
      OthersUntouched(t, e, k);
      assert Carrier(Step(t, e), k, home, data);
    }
  }

  /** A step aimed elsewhere changes an unfinished row at most by fetching it. */
  lemma OthersUntouched(t: Table, e: Event, k: Key)
    requires k in t.rows && Unfinished(t.rows[k]) && !Consumes(t, e, k) && CopyFits(t, e)
    requires e.Settle? ==> e.k != k || !HoldsClaim(t, k, e.attempt)
    requires e.Expire? ==> e.k != k || !t.rows[k].state.Active?
    requires e.Redrive? ==> e.c != k || !MoveOutcome(t, k, e.locked, e.policyFor).Moved?
    ensures k in Step(t, e).rows
    ensures Step(t, e).rows[k] == if e == Fetch(k) then AfterFetch(t, k).rows[k] else t.rows[k]
  {
  }

  ghost predicate AllFit(t: Table, es: seq<Event>)
    decreases |es|
  {
    es != [] ==> CopyFits(t, es[0]) && AllFit(Step(t, es[0]), es[1..])
  }

  /** At some step of the run the row then carrying the payload was finished or given up. */
  ghost predicate ConsumedIn(t: Table, es: seq<Event>, home: Key, data: string)
    decreases |es|
  {
    es != [] && ((exists k :: Carrier(t, k, home, data) && Consumes(t, es[0], k)) ||
                 ConsumedIn(Step(t, es[0]), es[1..], home, data))
  }

  /** A payload waiting or at work is, after any run, still carried, unless a step finished or gave up on it. */
  lemma {:induction false} PayloadKeptOrConsumed(t: Table, es: seq<Event>, home: Key, data: string)
    requires Carried(t, home, data) && AllFit(t, es)
    ensures Carried(Play(t, es), home, data) || ConsumedIn(t, es, home, data)
    decreases |es|
  {
    if es != [] {
      var k :| Carrier(t, k, home, data);
      if !Consumes(t, es[0], k) {
        StepKeepsCarried(t, es[0], k, home, data);
        PayloadKeptOrConsumed(Step(t, es[0]), es[1..], home, data);
      }
    }
  }

  predicate RedriveSendOrFetch(e: Event) { e.Redrive? || e.Send? || e.Fetch? || e.Tick? || e.DeleteFinished? }

  /** So redrives, sends and fetches by themselves, in whatever order, lose no payload at all. */
  lemma {:induction false} RedrivesLoseNothing(t: Table, es: seq<Event>, home: Key, data: string)
    requires Carried(t, home, data) && forall e :: e in es ==> RedriveSendOrFetch(e)
    ensures Carried(Play(t, es), home, data)
    decreases |es|
  {
    if es != [] {
      var k :| Carrier(t, k, home, data);
      assert es[0] in es;
      StepKeepsCarried(t, es[0], k, home, data);
      RedrivesLoseNothing(Step(t, es[0]), es[1..], home, data);
    }
  }
}
