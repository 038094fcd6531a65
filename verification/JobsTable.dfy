/**
 * The jobs table and the atomic steps that change it: send, fetch, fenced settle, expiry, dead-lettering,
 * the redrive transaction and the deletions (packages/platform-jobs/src/redrive.ts, engine.ts, claims.ts,
 * pending.ts). pg-boss's own statements appear only as the steps the repository relies on.
 */
module JobsTable {
  import opened Common

  /** The primary key (name, id): a map keyed by it holds at most one row for each. */
  datatype Key = Key(queue: string, id: nat)

  datatype State = Created | Retry | Active | Completed | Cancelled | Failed

  /** `serial` numbers insertions; `attempt` is retry_count; `source` is (source_name, source_id). */
  datatype Row = Row(serial: nat, state: State, attempt: nat, data: string, priority: int,
                     createdOn: int, keepUntil: int, source: Option<Key>)

  datatype Queue = Queue(retryLimit: nat, deadLetter: Option<string>, retention: nat, deleteOnSuccess: bool)

  datatype Table = Table(rows: map<Key, Row>, queues: map<string, Queue>, serials: nat, now: int)

  /** state < 'active' */
  predicate Waiting(r: Row) { r.state.Created? || r.state.Retry? }

  predicate Unfinished(r: Row) { Waiting(r) || r.state.Active? }

  /** A row the origin queue's configuration, as it is now, gives a new job. */
  function NewRow(t: Table, queue: string, data: string, priority: int, source: Option<Key>): Row
    requires queue in t.queues
  {
    Row(t.serials, Created, 0, data, priority, t.now, t.now + t.queues[queue].retention, source)
  }

  predicate CanInsert(t: Table, k: Key) { k.queue in t.queues && k !in t.rows }

  function AfterInsert(t: Table, k: Key, data: string, priority: int, source: Option<Key>): Table {
    if CanInsert(t, k)
    then t.(rows := t.rows[k := NewRow(t, k.queue, data, priority, source)], serials := t.serials + 1)
    else t
  }

  /** The first claim keeps the attempt number, every later one raises it. */
  function AfterFetch(t: Table, k: Key): Table {
    if k in t.rows && Waiting(t.rows[k])
    then var r := t.rows[k];
         t.(rows := t.rows[k := r.(state := Active, attempt := r.attempt + if r.state.Retry? then 1 else 0)])
    else t
  }

  /** The job is active and at that attempt: the fence of every settle. */
  predicate HoldsClaim(t: Table, k: Key, attempt: nat) {
    k in t.rows && t.rows[k].state.Active? && t.rows[k].attempt == attempt
  }

  predicate HasDeadLetter(t: Table, k: Key) { k.queue in t.queues && t.queues[k.queue].deadLetter.Some? }

  /** Give up on the row: it stays, failed, and a copy that names it waits in the dead-letter queue. */
  function AfterDeadLetter(t: Table, k: Key, copyId: nat): Table
    requires k in t.rows
  {
    var r := t.rows[k];
    var t' := t.(rows := t.rows[k := r.(state := Failed)]);
    if HasDeadLetter(t, k)
    then AfterInsert(t', Key(t.queues[k.queue].deadLetter.value, copyId), r.data, r.priority, Some(k))
    else t'
  }

  /** An attempt failed or ran out of time: wait for a retry while there is one left. */
  function AfterFailure(t: Table, k: Key, copyId: nat): Table
    requires k in t.rows
  {
    if k.queue in t.queues && t.rows[k].attempt < t.queues[k.queue].retryLimit
    then t.(rows := t.rows[k := t.rows[k].(state := Retry)])
    else AfterDeadLetter(t, k, copyId)
  }

  datatype Verdict = Success | Failure | Permanent

  /** A fenced settle: nothing happens unless the row is still active under that very attempt. */
  function AfterSettle(t: Table, k: Key, attempt: nat, v: Verdict, copyId: nat): Table {
    if !HoldsClaim(t, k, attempt) then t
    else match v
         case Success =>
           if k.queue in t.queues && t.queues[k.queue].deleteOnSuccess then t.(rows := t.rows - {k})
           else t.(rows := t.rows[k := t.rows[k].(state := Completed)])
         case Failure => AfterFailure(t, k, copyId)
         case Permanent => AfterDeadLetter(t, k, copyId)
  }

  predicate PastDeadline(t: Table, queues: set<string>, k: Key) {
    k in t.rows && k.queue in queues && Waiting(t.rows[k]) && t.rows[k].keepUntil < t.now
  }

  function AfterSweep(t: Table, queues: set<string>): Table {
    t.(rows := map k | k in t.rows && !PastDeadline(t, queues, k) :: t.rows[k])
  }

  // ---- redrive of one copy ----

  /** The origin queue's rule as this process defines it; a rule that throws answers false. */
  datatype Policy = NotDefined | NoRule | Rule(allows: string -> bool)

  predicate Allowed(p: Policy, data: string) { p.NoRule? || (p.Rule? && p.allows(data)) }

  datatype Outcome = Moved | Taken | Left | Rejected

  /** A waiting copy within its own deadline, not locked by another transaction. */
  predicate Movable(t: Table, c: Key) { c in t.rows && Waiting(t.rows[c]) && t.now < t.rows[c].keepUntil }

  function MoveOutcome(t: Table, c: Key, locked: bool, policyFor: string -> Policy): Outcome {
    if !Movable(t, c) || locked then Taken
    else match t.rows[c].source
         case None => Left
         case Some(origin) =>
           if origin.queue !in t.queues then Left
           else if !Allowed(policyFor(origin.queue), t.rows[c].data) then Rejected
           else if origin in t.rows && !t.rows[origin].state.Failed? then Left
           else Moved
  }

  /** The table after the transaction: unchanged unless it committed. */
  function AfterMove(t: Table, c: Key, locked: bool, policyFor: string -> Policy): Table {
    if MoveOutcome(t, c, locked, policyFor) != Moved then t
    else
      var origin := t.rows[c].source.value;
      t.(rows := (t.rows - {c})[origin := NewRow(t, origin.queue, t.rows[c].data, t.rows[c].priority, None)],
         serials := t.serials + 1)
  }

  /** A transaction moves exactly one copy: same id, payload and priority, first attempt; a row in the
      way is replaced only if it is `failed`; every other row is as it was. */
  lemma MoveMovesOne(t: Table, c: Key, locked: bool, policyFor: string -> Policy)
    ensures var t' := AfterMove(t, c, locked, policyFor);
            if MoveOutcome(t, c, locked, policyFor).Moved? then
              && c in t.rows && c !in t'.rows && t.rows[c].source.Some?
              && var origin := t.rows[c].source.value;
                 && origin in t'.rows
                 && t'.rows[origin].data == t.rows[c].data && t'.rows[origin].priority == t.rows[c].priority
                 && t'.rows[origin].state == Created && t'.rows[origin].attempt == 0
                 && (origin in t.rows ==> t.rows[origin].state.Failed?)
                 && (forall k :: k != c && k != origin ==>
                       (k in t'.rows <==> k in t.rows) && (k in t.rows ==> t'.rows[k] == t.rows[k]))
            else t' == t
  {
  }

  /** The origin queue's rule, as it is defined here, lets this payload be redriven. */
  ghost predicate Permits(policyFor: string -> Policy, queue: string, data: string) {
    policyFor(queue) == NoRule || (policyFor(queue).Rule? && policyFor(queue).allows(data))
  }

  /** The rule decides: a copy moves only if its origin queue is defined without a rule, or the rule answers true on
      its payload; and of the copies whose turn it is, with an origin queue that exists, exactly the others are
      rejected. */
  lemma PolicyDecides(t: Table, c: Key, locked: bool, policyFor: string -> Policy)
    ensures var o := MoveOutcome(t, c, locked, policyFor);
            && (o.Moved? || o.Rejected? ==>
                  c in t.rows && t.rows[c].source.Some? && t.rows[c].source.value.queue in t.queues)
            && (o.Moved? ==> Permits(policyFor, t.rows[c].source.value.queue, t.rows[c].data))
            && (c in t.rows && (t.rows[c].state.Created? || t.rows[c].state.Retry?) && t.now < t.rows[c].keepUntil
                && !locked && t.rows[c].source.Some? && t.rows[c].source.value.queue in t.queues ==>
                  (o.Rejected? <==> !Permits(policyFor, t.rows[c].source.value.queue, t.rows[c].data)))
  {
  }

  /** When a copy moves: its turn, its origin queue still there, the rule's leave, and no job in the way that has not
      failed. */
  lemma MovesIff(t: Table, c: Key, locked: bool, policyFor: string -> Policy)
    requires c in t.rows && t.rows[c].source.Some?
    ensures var origin := t.rows[c].source.value;
            MoveOutcome(t, c, locked, policyFor).Moved? <==>
              && !locked && (t.rows[c].state.Created? || t.rows[c].state.Retry?) && t.now < t.rows[c].keepUntil
              && origin.queue in t.queues && Permits(policyFor, origin.queue, t.rows[c].data)
              && (origin in t.rows ==> t.rows[origin].state.Failed?)
  {
  }

  /** A redriven job is a new one of its queue: the retention of now, a full retry budget, no origin. */
  lemma RedrivenIsNew(t: Table, c: Key, locked: bool, policyFor: string -> Policy)
    requires MoveOutcome(t, c, locked, policyFor).Moved?
    ensures var origin := t.rows[c].source.value;
            var r := AfterMove(t, c, locked, policyFor).rows[origin];
            && r.createdOn == t.now && r.keepUntil == t.now + t.queues[origin.queue].retention
            && r.source.None? && r.attempt == 0
  {
  }

  // ---- what the steps do to one job ----

  /** A job is claimed once it waits, at attempt 0 the first time, and at the next attempt after each retry. */
  lemma FetchClaims(t: Table, k: Key)
    requires k in t.rows
    ensures var r, t' := t.rows[k], AfterFetch(t, k);
            if r.state.Created? then HoldsClaim(t', k, r.attempt)
            else if r.state.Retry? then HoldsClaim(t', k, r.attempt + 1)
            else t' == t
  {
  }

  /** An attempt that fails or runs out of time: the job waits again while a retry is left, and only then is dead. */
  lemma FailureRetriesOrBuries(t: Table, k: Key, copyId: nat)
    requires k in t.rows && k.queue in t.queues
    ensures var t' := AfterFailure(t, k, copyId);
            && (t.rows[k].attempt < t.queues[k.queue].retryLimit ==>
                  t'.rows == t.rows[k := t.rows[k].(state := Retry)] && t'.serials == t.serials)
            && (t.queues[k.queue].retryLimit <= t.rows[k].attempt ==> t' == AfterDeadLetter(t, k, copyId))
  {
  }

  /** A dead job stays, failed; a copy with its payload and priority, that names it, waits in the dead-letter queue,
      for as long as that queue keeps its jobs. */
  lemma DeadLeavesACopy(t: Table, k: Key, copyId: nat)
    requires k in t.rows && HasDeadLetter(t, k)
    requires CanInsert(t, Key(t.queues[k.queue].deadLetter.value, copyId))
    ensures var c := Key(t.queues[k.queue].deadLetter.value, copyId);
            var t' := AfterDeadLetter(t, k, copyId);
            && t'.rows[k] == t.rows[k].(state := Failed)
            && c in t'.rows && t'.rows[c].state == Created && t'.rows[c].source == Some(k)
            && t'.rows[c].data == t.rows[k].data && t'.rows[c].priority == t.rows[k].priority
            && t'.rows[c].keepUntil == t.now + t.queues[c.queue].retention
            && t'.rows.Keys == t.rows.Keys + {c}
  {
  }

  /** Without a dead-letter queue a dead job only stays, failed. */
  lemma DeadWithoutACopy(t: Table, k: Key, copyId: nat)
    requires k in t.rows && !HasDeadLetter(t, k)
    ensures AfterDeadLetter(t, k, copyId) == t.(rows := t.rows[k := t.rows[k].(state := Failed)])
  {
  }

  /** What a settle under a held claim does: success finishes the job, or deletes it where the queue asks for that;
      failure retries or buries it; a permanent failure buries it at once, whatever retries are left. */
  lemma SettleDoes(t: Table, k: Key, attempt: nat, v: Verdict, copyId: nat)
    requires HoldsClaim(t, k, attempt) && k.queue in t.queues
    ensures var t' := AfterSettle(t, k, attempt, v, copyId);
            match v
            case Success =>
              t'.rows == if t.queues[k.queue].deleteOnSuccess then t.rows - {k}
                         else t.rows[k := t.rows[k].(state := Completed)]
            case Failure => t' == AfterFailure(t, k, copyId)
            case Permanent => t' == AfterDeadLetter(t, k, copyId)
  {
  }

  /** A sweep deletes exactly the jobs of its queues that wait, for a first turn or a retry, past their deadline. */
  lemma SweepTakesExactly(t: Table, queues: set<string>, k: Key)
    ensures k in AfterSweep(t, queues).rows <==>
            k in t.rows && (k.queue !in queues || t.rows[k].state.Active? || !Unfinished(t.rows[k]) ||
                            t.now <= t.rows[k].keepUntil)
    ensures k in AfterSweep(t, queues).rows ==> AfterSweep(t, queues).rows[k] == t.rows[k]
    ensures AfterSweep(t, queues).(rows := t.rows) == t
  {
  }

  // ---- runs ----

  datatype Event =
    | Tick(to: int)
    | Send(k: Key, data: string, priority: int)
    | Fetch(k: Key)
    | Settle(k: Key, attempt: nat, verdict: Verdict, copyId: nat)
    | Expire(k: Key, copyId: nat)
    | Cancel(k: Key)
    | Redrive(c: Key, locked: bool, policyFor: string -> Policy)
    | Sweep(queues: set<string>)
    | DeleteFinished(k: Key)

  function Step(t: Table, e: Event): Table {
    match e
    case Tick(to) => t.(now := Max(t.now, to))
    case Send(k, data, priority) => AfterInsert(t, k, data, priority, None)
    case Fetch(k) => AfterFetch(t, k)
    case Settle(k, attempt, verdict, copyId) => AfterSettle(t, k, attempt, verdict, copyId)
    case Expire(k, copyId) => if k in t.rows && t.rows[k].state.Active? then AfterFailure(t, k, copyId) else t
    case Cancel(k) =>
      if k in t.rows && Unfinished(t.rows[k]) then t.(rows := t.rows[k := t.rows[k].(state := Cancelled)]) else t
    case Redrive(c, locked, policyFor) => AfterMove(t, c, locked, policyFor)
    case Sweep(queues) => AfterSweep(t, queues)
    case DeleteFinished(k) => if k in t.rows && !Unfinished(t.rows[k]) then t.(rows := t.rows - {k}) else t
  }

  function Play(t: Table, es: seq<Event>): Table
    decreases |es|
  {
    if es == [] then t else Play(Step(t, es[0]), es[1..])
  }

  /** What the database does by itself: a sweep takes its late jobs, a deletion only a finished one, and a send adds
      a job where none of that id is, whatever its state. */
  lemma TableSteps(t: Table, k: Key, queues: set<string>, data: string, priority: int)
    ensures k in Step(t, Sweep(queues)).rows <==> k in t.rows && !PastDeadline(t, queues, k)
    ensures k in Step(t, DeleteFinished(k)).rows <==> k in t.rows && Unfinished(t.rows[k])
    ensures var t' := Step(t, Send(k, data, priority));
            if k.queue in t.queues && k !in t.rows
            then t'.rows.Keys == t.rows.Keys + {k} && t'.rows[k].data == data && t'.rows[k].priority == priority &&
                 t'.rows[k].state == Created && t'.rows[k].attempt == 0
            else t' == t
  {
  }

  /** A job cancelled while it waits or runs stays, cancelled: nothing settles it, and nothing redriven replaces it. */
  lemma CancelledStays(t: Table, k: Key, attempt: nat, v: Verdict, copyId: nat, c: Key, policyFor: string -> Policy)
    requires k in t.rows && Unfinished(t.rows[k])
    ensures var t' := Step(t, Cancel(k));
            && t'.rows == t.rows[k := t.rows[k].(state := Cancelled)]
            && AfterSettle(t', k, attempt, v, copyId) == t'
            && Step(t', Expire(k, copyId)) == t' && AfterFetch(t', k) == t'
            && k in AfterMove(t', c, false, policyFor).rows && AfterMove(t', c, false, policyFor).rows[k] == t'.rows[k]
  {
  }

  /** Serials are what they are for: distinct rows, distinct numbers, all used. */
  ghost predicate Numbered(t: Table) {
    && SerialsUsed(t)
    && (forall j, k :: j in t.rows && k in t.rows && t.rows[j].serial == t.rows[k].serial ==> j == k)
  }

  ghost predicate SerialsUsed(t: Table) { forall k :: k in t.rows ==> t.rows[k].serial < t.serials }

  lemma InsertKeepsNumbered(t: Table, k: Key, data: string, priority: int, source: Option<Key>)
    requires Numbered(t)
    ensures Numbered(AfterInsert(t, k, data, priority, source))
  {
  }

  lemma UpdateKeepsNumbered(t: Table, k: Key, r: Row)
    requires Numbered(t) && k in t.rows && r.serial == t.rows[k].serial
    ensures Numbered(t.(rows := t.rows[k := r]))
  {
  }

  lemma FailureKeepsNumbered(t: Table, k: Key, copyId: nat)
    requires Numbered(t) && k in t.rows
    ensures Numbered(AfterDeadLetter(t, k, copyId)) && Numbered(AfterFailure(t, k, copyId))
  {
    var r := t.rows[k];
    UpdateKeepsNumbered(t, k, r.(state := Failed));
    UpdateKeepsNumbered(t, k, r.(state := Retry));
    if HasDeadLetter(t, k) {
      InsertKeepsNumbered(t.(rows := t.rows[k := r.(state := Failed)]),
                          Key(t.queues[k.queue].deadLetter.value, copyId), r.data, r.priority, Some(k));
    }
  }

  lemma MoveKeepsNumbered(t: Table, c: Key, locked: bool, policyFor: string -> Policy)
    requires Numbered(t)
    ensures Numbered(AfterMove(t, c, locked, policyFor))
  {
  }

  lemma RemovalKeepsNumbered(t: Table, rows: map<Key, Row>)
    requires Numbered(t) && forall k :: k in rows ==> k in t.rows && rows[k] == t.rows[k]
    ensures Numbered(t.(rows := rows))
  {
  }

  lemma SettleKeepsNumbered(t: Table, k: Key, attempt: nat, v: Verdict, copyId: nat)
    requires Numbered(t)
    ensures Numbered(AfterSettle(t, k, attempt, v, copyId))
  {
    if HoldsClaim(t, k, attempt) {
      FailureKeepsNumbered(t, k, copyId);
      UpdateKeepsNumbered(t, k, t.rows[k].(state := Completed));
      RemovalKeepsNumbered(t, t.rows - {k});
    }
  }

  lemma StepKeepsNumbered(t: Table, e: Event)
    requires Numbered(t)
    ensures Numbered(Step(t, e)) && t.serials <= Step(t, e).serials
  {
    match e
    case Tick(to) =>
    case Send(k, data, priority) => InsertKeepsNumbered(t, k, data, priority, None);
    case Fetch(k) =>
      if k in t.rows && Waiting(t.rows[k]) { UpdateKeepsNumbered(t, k, AfterFetch(t, k).rows[k]); }
    case Settle(k, attempt, verdict, copyId) => SettleKeepsNumbered(t, k, attempt, verdict, copyId);
    case Expire(k, copyId) =>
      if k in t.rows { FailureKeepsNumbered(t, k, copyId); }
    case Cancel(k) =>
      if k in t.rows { UpdateKeepsNumbered(t, k, t.rows[k].(state := Cancelled)); }
    case Redrive(c, locked, policyFor) => MoveKeepsNumbered(t, c, locked, policyFor);
    case Sweep(queues) => RemovalKeepsNumbered(t, AfterSweep(t, queues).rows);
    case DeleteFinished(k) => RemovalKeepsNumbered(t, t.rows - {k});
  }
}
