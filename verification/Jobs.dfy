/**
 * The jobs table as the repository's own statements change it, in place: the redrive loop and its
 * transactions (packages/platform-jobs/src/redrive.ts), the pending sweep (pending.ts) and the worker's
 * batch path with its counters (engine.ts), each against the step functions of `JobsTable`.
 */
module Jobs {
  import opened Common
  import opened JobsTable
  import opened RedrivePass
  import Y = RedrivePolicy
  import F = Fencing

  datatype RedriveResult =
    | Redriven(moved: nat, skipped: nat, rejected: map<string, nat>)
    | BadLimit
    | BadId
    | NotADeadLetterQueue
    | Interrupted

  /** How the database serves one transaction: well; with an error at its n-th statement; or with the answer
      to its last one, COMMIT or ROLLBACK, lost. */
  datatype TxFault = Serves | FailsAt(n: nat) | AnswerLost

  datatype HandlerEnd = Returned | Threw | ThrewPermanent

  /** The answer to the early settle: it arrives, or is lost, the statement having run or not. */
  datatype Reply = Answered | Lost(ran: bool)

  datatype BatchJob = BatchJob(k: Key, attempt: nat, end: HandlerEnd, reply: Reply)

  function VerdictOf(end: HandlerEnd): Verdict {
    match end
    case Returned => Success
    case Threw => Failure
    case ThrewPermanent => Permanent
  }

  /** The early settle reached the table: only a handler that returned asks for one. */
  predicate SettlesEarly(j: BatchJob) { j.end.Returned? && (j.reply.Answered? || j.reply.ran) }

  function AfterRun(t: Table, j: BatchJob): Table {
    if SettlesEarly(j) then AfterSettle(t, j.k, j.attempt, Success, 0) else t
  }

  /** Counted as processed: the settle answered that it landed, or no answer came. */
  predicate CountsProcessed(t: Table, j: BatchJob) {
    j.end.Returned? && (j.reply.Lost? || HoldsClaim(t, j.k, j.attempt))
  }

  function Trues(b: seq<bool>): nat {
    if b == [] then 0 else Trues(b[..|b| - 1]) + if b[|b| - 1] then 1 else 0
  }

  /** What becomes of a job when the batch is settled on its verdict, its claim still held: a plain throw puts it back
      to wait while a retry is left and only then buries it; a permanent one buries it at once; a handler that
      returned finishes it. */
  lemma BatchSettleDoes(t: Table, j: BatchJob, copyId: nat)
    requires HoldsClaim(t, j.k, j.attempt) && j.k.queue in t.queues
    ensures var t' := AfterSettle(t, j.k, j.attempt, VerdictOf(j.end), copyId);
            var left := j.attempt < t.queues[j.k.queue].retryLimit;
            match j.end
            case Returned => j.k in t'.rows ==> t'.rows[j.k].state.Completed?
            case Threw =>
              if left then t'.rows == t.rows[j.k := t.rows[j.k].(state := Retry)]
              else t' == AfterDeadLetter(t, j.k, copyId) && t'.rows[j.k].state.Failed?
            case ThrewPermanent => t' == AfterDeadLetter(t, j.k, copyId) && t'.rows[j.k].state.Failed?
  {
    DeadWithoutOrWith(t, j.k, copyId);
  }

  lemma DeadWithoutOrWith(t: Table, k: Key, copyId: nat)
    requires k in t.rows
    ensures k in AfterDeadLetter(t, k, copyId).rows && AfterDeadLetter(t, k, copyId).rows[k].state.Failed?
  {
  }

  /** What the early settle does, and that only a handler that returned asks for one: nothing else has changed when
      the batch is settled. */
  lemma EarlySettleDoes(t: Table, j: BatchJob)
    requires HoldsClaim(t, j.k, j.attempt) && j.k.queue in t.queues
    ensures if j.end.Returned? && (j.reply.Answered? || j.reply.ran)
            then AfterRun(t, j).rows == if t.queues[j.k.queue].deleteOnSuccess then t.rows - {j.k}
                                        else t.rows[j.k := t.rows[j.k].(state := Completed)]
            else AfterRun(t, j) == t
    ensures CountsProcessed(t, j) <==> j.end.Returned?
  {
  }

  /** The jobs of a batch, one after the other. */
  function AfterBatch(t: Table, jobs: seq<BatchJob>): Table {
    if jobs == [] then t else AfterRun(AfterBatch(t, jobs[..|jobs| - 1]), jobs[|jobs| - 1])
  }

  /** One more job of the batch. */
  lemma BatchStep(t: Table, jobs: seq<BatchJob>, n: nat, counted: seq<bool>, b: bool)
    requires n < |jobs|
    ensures AfterBatch(t, jobs[..n + 1]) == AfterRun(AfterBatch(t, jobs[..n]), jobs[n])
    ensures Trues(counted + [b]) == Trues(counted) + if b then 1 else 0
  {
    assert jobs[..n + 1][..n] == jobs[..n];
    assert (counted + [b])[..|counted|] == counted;
  }

  /** What the first jobs of a batch that started on `t` were told, and which of them were counted. */
  ghost predicate Reported(t: Table, jobs: seq<BatchJob>, verdicts: seq<Verdict>, counted: seq<bool>) {
    && |verdicts| == |counted| <= |jobs|
    && forall i :: 0 <= i < |counted| ==>
         verdicts[i] == VerdictOf(jobs[i].end) && (counted[i] <==> CountsProcessed(AfterBatch(t, jobs[..i]), jobs[i]))
  }

  lemma ReportOneMore(t: Table, jobs: seq<BatchJob>, verdicts: seq<Verdict>, counted: seq<bool>, v: Verdict, b: bool)
    requires Reported(t, jobs, verdicts, counted) && |counted| < |jobs|
    requires v == VerdictOf(jobs[|counted|].end)
    requires b <==> CountsProcessed(AfterBatch(t, jobs[..|counted|]), jobs[|counted|])
    ensures Reported(t, jobs, verdicts + [v], counted + [b])
  {
  }

  /** Jobs of one batch do not get in each other's way: what became of the others changes no claim. */
  lemma {:induction false} BatchJobsIndependent(t: Table, jobs: seq<BatchJob>, j: BatchJob)
    requires forall i :: 0 <= i < |jobs| ==> jobs[i].k != j.k
    ensures CountsProcessed(AfterBatch(t, jobs), j) <==> CountsProcessed(t, j)
    ensures j.k in AfterBatch(t, jobs).rows <==> j.k in t.rows
    ensures j.k in t.rows ==> AfterBatch(t, jobs).rows[j.k] == t.rows[j.k]
  {
    if jobs != [] {
      BatchJobsIndependent(t, jobs[..|jobs| - 1], j);
    }
  }

  /** The attempt ran on this insertion of the job: it still holds its claim, or has lost it. */
  ghost predicate RanOn(t: Table, j: BatchJob, serial: nat) {
    Numbered(t) && (F.Owns(t, j.k, serial, j.attempt) || F.Past(t, serial, 2 * j.attempt + 1))
  }

  /** The success of this attempt reached its row: the early settle did, or the batch settle, after whatever
      happened in between, finds the claim still held. */
  predicate SuccessLands(t: Table, j: BatchJob, es: seq<Event>, serial: nat) {
    || (SettlesEarly(j) && F.Owns(t, j.k, serial, j.attempt))
    || F.Owns(Play(AfterRun(t, j), es), j.k, serial, j.attempt)
  }

  /** When no early settle is answered, "that settle will land" holds if and only if the claim was held when it
      was asked for, and it ran all the same or nothing has ended the claim before the batch settles. */
  lemma BatchSettleLandsIff(t: Table, j: BatchJob, es: seq<Event>, serial: nat)
    requires j.end.Returned? && j.reply.Lost? && RanOn(t, j, serial)
    ensures SuccessLands(t, j, es, serial) <==>
            && F.Owns(t, j.k, serial, j.attempt)
            && (j.reply.ran || forall e :: e in es ==> !F.EndsClaim(e, j.k, j.attempt))
  {
    if j.reply.ran && F.Owns(t, j.k, serial, j.attempt) {
    } else {
      SettleElsewhereKeepsRanOn(t, j, serial);
      if F.Owns(t, j.k, serial, j.attempt) {
        F.ClaimKeptIff(t, es, j.k, serial, j.attempt);
      } else {
        F.LostForGood(AfterRun(t, j), es, j.k, serial, j.attempt);
      }
    }
  }

  /** An early settle that does not reach the attempt's own row leaves the claim lost where it was lost. */
  lemma SettleElsewhereKeepsRanOn(t: Table, j: BatchJob, serial: nat)
    requires RanOn(t, j, serial)
    ensures Numbered(AfterRun(t, j))
    ensures F.Past(t, serial, 2 * j.attempt + 1) ==> F.Past(AfterRun(t, j), serial, 2 * j.attempt + 1)
    ensures F.Owns(t, j.k, serial, j.attempt) && SettlesEarly(j) ==> F.Past(AfterRun(t, j), serial, 2 * j.attempt + 1)
  {
    var e := Settle(j.k, j.attempt, Success, 0);
    StepKeepsNumbered(t, e);
    if F.Past(t, serial, 2 * j.attempt + 1) { F.StepKeepsPast(t, e, serial, 2 * j.attempt + 1); }
    if F.Owns(t, j.k, serial, j.attempt) { F.LandingLeavesPast(t, e, serial, j.attempt); }
  }

  /**
   * The processed count against what becomes of the job, over every run between the early settle and the
   * batch's own. An answered settle counts rightly unless the id was inserted again and is active under the same
   * number; an unanswered one if and only if the settle lands.
   */
  lemma ProcessedCountIsExactIff(t: Table, j: BatchJob, es: seq<Event>, serial: nat)
    requires j.end.Returned? && RanOn(t, j, serial)
    ensures (CountsProcessed(t, j) <==> SuccessLands(t, j, es, serial)) <==>
            if j.reply.Answered? then !(HoldsClaim(t, j.k, j.attempt) && t.rows[j.k].serial != serial)
            else F.Owns(t, j.k, serial, j.attempt) &&
                 (j.reply.ran || forall e :: e in es ==> !F.EndsClaim(e, j.k, j.attempt))
  {
    if j.reply.Lost? {
      BatchSettleLandsIff(t, j, es, serial);
    } else {
      SettleElsewhereKeepsRanOn(t, j, serial);
      F.LostForGood(AfterRun(t, j), es, j.k, serial, j.attempt);
    }
  }

  /** One job processed twice by the count: its first settle was lost before it ran, the claim expired
      before the batch settled, and the retry succeeded. */
  lemma LostSettleCountsTwice()
    ensures
      var queues := map["q" := Queue(1, None, 1000, false)];
      var k := Key("q", 1);
      var first := BatchJob(k, 0, Returned, Lost(false));
      var second := BatchJob(k, 1, Returned, Answered);
      var t1 := Step(Step(Table(map[], queues, 0, 0), Send(k, "x", 0)), Fetch(k));
      var t2 := Step(Step(AfterRun(t1, first), Expire(k, 7)), Fetch(k));
      CountsProcessed(t1, first) && CountsProcessed(t2, second) && AfterRun(t2, second).rows[k].state.Completed?
  {
    var queues := map["q" := Queue(1, None, 1000, false)];
    var t1 := Step(Step(Table(map[], queues, 0, 0), Send(Key("q", 1), "x", 0)), Fetch(Key("q", 1)));
    assert t1.rows[Key("q", 1)].state.Active?;
  }

  class JobsDb {
    const queues: map<string, Queue>
    var rows: map<Key, Row>
    var serials: nat
    var now: int
    var processed: nat
    var failures: nat

    ghost function View(): Table reads this { Table(rows, queues, serials, now) }

    // ---- redrive ----

    /** `boss.send` on the open transaction; null on a conflicting id. */
    method Insert(k: Key, data: string, priority: int) returns (inserted: bool)
      requires k.queue in queues
      modifies this`rows, this`serials
      ensures inserted == CanInsert(old(View()), k)
      ensures View() == AfterInsert(old(View()), k, data, priority, None)
    {
      inserted := k !in rows;
      if inserted {
        rows := rows[k := Row(serials, Created, 0, data, priority, now, now + queues[k.queue].retention, None)];
        serials := serials + 1;
      }
    }

    /** The statements of one transaction, before it commits or rolls back; none when one of them throws. */
    method MoveStatements(c: Key, locked: bool, policyFor: string -> Policy, fault: TxFault)
      returns (outcome: Option<Outcome>)
      modifies this`rows, this`serials
      ensures outcome.Some? ==> outcome.value == MoveOutcome(old(View()), c, locked, policyFor)
      ensures outcome == Some(Moved) ==> View() == AfterMove(old(View()), c, locked, policyFor)
      ensures !fault.FailsAt? ==> outcome.Some?
    {
      if fault == FailsAt(0) { return None; }
      if !(c in rows && Waiting(rows[c]) && now < rows[c].keepUntil) || locked { return Some(Taken); }
      var copy := rows[c];
      if copy.source.None? { return Some(Left); }
      var origin := copy.source.value;
      if fault == FailsAt(1) { return None; }
      if origin.queue !in queues { return Some(Left); }
      if !Allowed(policyFor(origin.queue), copy.data) { return Some(Rejected); }
      if fault == FailsAt(2) { return None; }
      if origin in rows && rows[origin].state.Failed? { rows := rows - {origin}; }
      if fault == FailsAt(3) { return None; }
      var inserted := Insert(origin, copy.data, copy.priority);
      if !inserted { return Some(Left); }
      if fault == FailsAt(4) { return None; }
      rows := rows - {c};
      return Some(Moved);
    }

    /**
     * BEGIN, the statements, then COMMIT only for a copy that moved. A statement that throws leaves the table as
     * it was; an answer that is lost leaves it as the transaction would have, though the caller is not told.
     */
    method MoveOne(c: Key, locked: bool, policyFor: string -> Policy, fault: TxFault) returns (outcome: Option<Outcome>)
      modifies this`rows, this`serials
      ensures outcome.Some? ==> outcome.value == MoveOutcome(old(View()), c, locked, policyFor)
      ensures outcome.Some? || fault.AnswerLost? ==> View() == AfterMove(old(View()), c, locked, policyFor)
      ensures outcome.None? && !fault.AnswerLost? ==> View() == old(View())
      ensures fault.Serves? ==> outcome.Some?
    {
      var savedRows, savedSerials := rows, serials;
      outcome := MoveStatements(c, locked, policyFor, fault);
      if outcome != Some(Moved) {
        rows, serials := savedRows, savedSerials;
      }
      if fault.AnswerLost? { outcome := None; }
    }

    /** The first `n` candidates, oldest first. */
    method CandidateIds(dlq: string, f: Filter, n: nat, exclude: set<nat>) returns (ids: seq<nat>)
      ensures var all := Ordered(View(), dlq, Candidates(View(), dlq, f, exclude));
              |ids| == Min(n, |all|) && ids == all[..|ids|]
    {
      var todo := Candidates(Table(rows, queues, serials, now), dlq, f, exclude);
      ghost var t, all := View(), Ordered(View(), dlq, todo);
      ids := [];
      while todo != {} && |ids| < n
        invariant View() == t && InQueue(t, dlq, todo) && |ids| <= n
        invariant all == ids + Ordered(t, dlq, todo)
        decreases todo
      {
        var least := FirstOf(dlq, todo);
        FirstIsHead(t, dlq, todo, least);
        todo := todo - {least};
        ids := ids + [least];
      }
    }

    method FirstOf(dlq: string, ids: set<nat>) returns (least: nat)
      requires InQueue(View(), dlq, ids) && ids != {}
      ensures IsFirst(View(), dlq, ids, least)
    {
      least :| least in ids;
      var todo := ids - {least};
      while todo != {}
        invariant todo <= ids && least in ids - todo
        invariant forall x :: x in ids && x !in todo && x != least ==> Before(View(), dlq, least, x)
        decreases todo
      {
        var x :| x in todo;
        if Before(Table(rows, queues, serials, now), dlq, x, least) { least := x; }
        todo := todo - {x};
      }
    }

    /** The one pass over the first n of a list of ids. */
    static ghost function PassOver(t: Table, dlq: string, ids: seq<nat>, n: nat, limit: nat,
                                   policyFor: string -> Policy): (Table, Tally)
      requires n <= |ids|
    {
      Pass(t, dlq, ids[..n], limit, policyFor, Tally(0, 0, map[]))
    }

    /** The dead letters to try, oldest first. */
    ghost function ToTry(dlq: string, f: Filter): seq<nat> reads this {
      Ordered(View(), dlq, Candidates(View(), dlq, f, {}))
    }

    /** Where the loop stands after n tries: what is left to try, and the pass so far. */
    ghost predicate SoFar(t0: Table, dlq: string, f: Filter, all: seq<nat>, n: nat, limit: nat,
                          policyFor: string -> Policy, tried: set<nat>, y: Tally)
      reads this
    {
      && n <= |all| && y.moved <= limit
      && LeftToTry(View(), dlq, f, tried, all[n..])
      && PassOver(t0, dlq, all, n, limit, policyFor) == (View(), y)
    }

    /** One id: counted as its transaction answers, or that transaction throws. */
    method TryNext(dlq: string, id: nat, limit: nat, f: Filter, policyFor: string -> Policy, fault: TxFault,
                   tried: set<nat>, y0: Tally, ghost n: nat, ghost t0: Table, ghost all: seq<nat>)
      returns (y: Tally, threw: bool)
      requires SoFar(t0, dlq, f, all, n, limit, policyFor, tried, y0) && n < |all| && id == all[n] && y0.moved < limit
      modifies this`rows, this`serials
      ensures !threw ==> SoFar(t0, dlq, f, all, n + 1, limit, policyFor, tried + {id}, y)
      ensures threw ==>
        View() == PassOver(t0, dlq, all, if fault.AnswerLost? then n + 1 else n, limit, policyFor).0
      ensures fault.Serves? ==> !threw
      ensures threw ==> y == y0
    {
      var c := Key(dlq, id);
      assert all[n..][0] == id && all[n..][1..] == all[n + 1..];
      TryingTheFirst(View(), dlq, f, tried, all[n..], policyFor);
      PassOneMore(t0, dlq, all, n, limit, policyFor, Tally(0, 0, map[]));
      var origin := OriginOf(Table(rows, queues, serials, now), c);
      var outcome := MoveOne(c, false, policyFor, fault);
      threw := outcome.None?;
      y := if threw then y0 else Counted(y0, outcome.value, origin);
    }

    /** One batch: each id in turn, until enough have moved or a transaction throws. */
    method TryBatch(dlq: string, ids: seq<nat>, limit: nat, f: Filter, policyFor: string -> Policy,
                    faults: nat -> TxFault, tried0: set<nat>, y0: Tally, n0: nat, ghost t0: Table, ghost all: seq<nat>)
      returns (tried: set<nat>, y: Tally, n: nat, threw: bool)
      requires SoFar(t0, dlq, f, all, n0, limit, policyFor, tried0, y0) && y0.moved < limit
      requires ids != [] && n0 + |ids| <= |all| && forall i :: 0 <= i < |ids| ==> ids[i] == all[n0 + i]
      modifies this`rows, this`serials
      ensures n0 <= n <= |all| && y.moved <= limit
      ensures !threw ==> n0 < n && SoFar(t0, dlq, f, all, n, limit, policyFor, tried, y)
      ensures threw ==> View() == PassOver(t0, dlq, all, n, limit, policyFor).0
      ensures (forall m :: faults(m).Serves?) ==> !threw
    {
      tried, y, n, threw := tried0, y0, n0, false;
      while n - n0 < |ids| && (n == n0 || y.moved < limit)
        invariant n0 <= n <= n0 + |ids| && (n == n0 ==> y == y0)
        invariant SoFar(t0, dlq, f, all, n, limit, policyFor, tried, y)
      {
        y, threw := TryNext(dlq, ids[n - n0], limit, f, policyFor, faults(n), tried, y, n, t0, all);
        if threw {
          n := if faults(n).AnswerLost? then n + 1 else n;
          return;
        }
        tried := tried + {ids[n - n0]};
        n := n + 1;
      }
    }

    /** The batched loop: fetch what is left, oldest first, as many as may still move; try them; again. */
    method RedriveAll(dlq: string, limit: nat, f: Filter, policyFor: string -> Policy, faults: nat -> TxFault)
      returns (y: Tally, tries: nat, threw: bool)
      requires NoSelfOrigin(View(), dlq)
      modifies this`rows, this`serials
      ensures tries <= |old(ToTry(dlq, f))| && y.moved <= limit
      ensures !threw ==> Pass(old(View()), dlq, old(ToTry(dlq, f)), limit, policyFor, Tally(0, 0, map[])) == (View(), y)
      ensures threw ==> View() == PassOver(old(View()), dlq, old(ToTry(dlq, f)), tries, limit, policyFor).0
      ensures (forall m :: faults(m).Serves?) ==> !threw
    {
      y, tries, threw := Tally(0, 0, map[]), 0, false;
      var tried: set<nat>, done := {}, false;
      ghost var t0, all := View(), ToTry(dlq, f);
      assert all[0..] == all;
      while y.moved < limit && !done
        invariant SoFar(t0, dlq, f, all, tries, limit, policyFor, tried, y) && (done ==> tries == |all|)
        decreases !done, |all| - tries
      {
        var ids := CandidateIds(dlq, f, limit - y.moved, tried);
        if ids == [] {
          done := true;
        } else {
          tried, y, tries, threw := TryBatch(dlq, ids, limit, f, policyFor, faults, tried, y, tries, t0, all);
          if threw { return; }
        }
      }
      if y.moved < limit {
        assert all[..tries] == all;
      } else {
        PassStops(t0, dlq, all, tries, limit, policyFor, Tally(0, 0, map[]));
      }
    }

    /**
     * With its growing set of ids already tried, the batched loop is one pass over the candidates in order:
     * it moves at most `limit`, tries each at most once (no id repeats in `Ordered`), and counts what the
     * policy rejects. A transaction that throws ends it; the table is then as the pass left it at that point.
     */
    method RedriveDeadLetters(dlq: string, limit: int, f: Filter, badId: bool, policyFor: string -> Policy,
                              faults: nat -> TxFault)
      returns (r: RedriveResult, tries: nat)
      requires NoSelfOrigin(View(), dlq)
      modifies this`rows, this`serials
      ensures r.BadLimit? <==> !(1 <= limit <= 10000)
      ensures r.BadId? <==> 1 <= limit <= 10000 && badId
      ensures r.NotADeadLetterQueue? <==>
              1 <= limit <= 10000 && !badId && forall q :: q in queues ==> queues[q].deadLetter != Some(dlq)
      ensures r.BadLimit? || r.BadId? || r.NotADeadLetterQueue? ==> View() == old(View())
      ensures r.Redriven? ==>
        r.moved <= limit && PassReport(old(View()), dlq, f, limit, policyFor, View(), r)
      ensures r.Interrupted? ==>
        && 1 <= limit && tries <= |old(ToTry(dlq, f))|
        && View() == PassOver(old(View()), dlq, old(ToTry(dlq, f)), tries, limit, policyFor).0
      ensures (forall m :: faults(m).Serves?) ==> !r.Interrupted?
      ensures TookOnlyPermitted(old(View()), View(), dlq, policyFor)
    {
      tries := 0;
      if limit < 1 || MAX_LIMIT < limit { return BadLimit, tries; }
      if badId { return BadId, tries; }
      if !(exists q :: q in queues && queues[q].deadLetter == Some(dlq)) { return NotADeadLetterQueue, tries; }
      r, tries := RedriveCounted(dlq, limit, f, policyFor, faults);
    }

    /** The loop and its report, once the call is in order. */
    method RedriveCounted(dlq: string, limit: nat, f: Filter, policyFor: string -> Policy, faults: nat -> TxFault)
      returns (r: RedriveResult, tries: nat)
      requires NoSelfOrigin(View(), dlq)
      modifies this`rows, this`serials
      ensures r.Redriven? || r.Interrupted?
      ensures r.Redriven? ==> r.moved <= limit && PassReport(old(View()), dlq, f, limit, policyFor, View(), r)
      ensures r.Interrupted? ==>
        && tries <= |old(ToTry(dlq, f))|
        && View() == PassOver(old(View()), dlq, old(ToTry(dlq, f)), tries, limit, policyFor).0
      ensures (forall m :: faults(m).Serves?) ==> !r.Interrupted?
      ensures TookOnlyPermitted(old(View()), View(), dlq, policyFor)
    {
      ghost var t0, all := View(), ToTry(dlq, f);
      var y, threw;
      y, tries, threw := RedriveAll(dlq, limit, f, policyFor, faults);
      assert all[..|all|] == all;
      TakenWerePermitted(t0, View(), dlq, f, if threw then tries else |all|, limit, policyFor);
      if threw { return Interrupted, tries; }
      CountsAreExact(t0, dlq, f, limit, policyFor);
      r := Redriven(y.moved, y.skipped, y.rejected);
    }

    /** Whatever has left the queue, its origin's rule let go. */
    static ghost predicate TookOnlyPermitted(t0: Table, t: Table, dlq: string, policyFor: string -> Policy) {
      forall k :: k in t0.rows && k.queue == dlq && k !in t.rows ==>
        t0.rows[k].source.Some? && Permits(policyFor, t0.rows[k].source.value.queue, t0.rows[k].data)
    }

    /** The report of one pass: the table it leaves, and its counts, of the copies tried: those that left the queue,
        those the rule forbids, and these again by origin queue. */
    static ghost predicate PassReport(t0: Table, dlq: string, f: Filter, limit: nat, policyFor: string -> Policy,
                                      t: Table, r: RedriveResult)
      requires r.Redriven?
    {
      var all := Ordered(t0, dlq, Candidates(t0, dlq, f, {}));
      var n := Y.Tries(t0, dlq, all, limit, policyFor, Tally(0, 0, map[]));
      && Pass(t0, dlq, all, limit, policyFor, Tally(0, 0, map[])) == (t, Tally(r.moved, r.skipped, r.rejected))
      && (n == |all| || r.moved == limit)
      && r.moved == Y.CountGone(t, dlq, all[..n])
      && r.skipped == Y.CountForbidden(t0, dlq, all[..n], policyFor, None)
      && forall q :: Y.RejectedOf(Tally(r.moved, r.skipped, r.rejected), q)
                     == Y.CountForbidden(t0, dlq, all[..n], policyFor, Some(q))
    }

    static lemma TakenWerePermitted(t0: Table, t: Table, dlq: string, f: Filter, n: nat, limit: nat,
                                    policyFor: string -> Policy)
      requires NoSelfOrigin(t0, dlq)
      requires var all := Ordered(t0, dlq, Candidates(t0, dlq, f, {}));
               n <= |all| && t == PassOver(t0, dlq, all, n, limit, policyFor).0
      ensures TookOnlyPermitted(t0, t, dlq, policyFor)
    {
      var all := Ordered(t0, dlq, Candidates(t0, dlq, f, {}));
      Y.CandidatesToBeTried(t0, dlq, f);
      assert forall id :: id in all[..n] ==> id in all;
      forall k | k in t0.rows && k.queue == dlq && k !in t.rows
        ensures t0.rows[k].source.Some? && Permits(policyFor, t0.rows[k].source.value.queue, t0.rows[k].data)
      {
        Y.PassTakesOnlyPermitted(t0, dlq, all[..n], limit, policyFor, Tally(0, 0, map[]), k);
      }
    }

    static lemma CountsAreExact(t0: Table, dlq: string, f: Filter, limit: nat, policyFor: string -> Policy)
      requires NoSelfOrigin(t0, dlq)
      ensures var all := Ordered(t0, dlq, Candidates(t0, dlq, f, {}));
              var n := Y.Tries(t0, dlq, all, limit, policyFor, Tally(0, 0, map[]));
              var (t, y) := Pass(t0, dlq, all, limit, policyFor, Tally(0, 0, map[]));
              && (n == |all| || limit <= y.moved)
              && y.moved == Y.CountGone(t, dlq, all[..n])
              && y.skipped == Y.CountForbidden(t0, dlq, all[..n], policyFor, None)
              && forall q :: Y.RejectedOf(y, q) == Y.CountForbidden(t0, dlq, all[..n], policyFor, Some(q))
    {
      var all := Ordered(t0, dlq, Candidates(t0, dlq, f, {}));
      Y.CandidatesToBeTried(t0, dlq, f);
      Y.PassCountsMoved(t0, dlq, all, limit, policyFor, Tally(0, 0, map[]));
      Y.PassCountsForbidden(t0, dlq, all, limit, policyFor, Tally(0, 0, map[]), "");
      forall q
        ensures var n := Y.Tries(t0, dlq, all, limit, policyFor, Tally(0, 0, map[]));
                Y.RejectedOf(Pass(t0, dlq, all, limit, policyFor, Tally(0, 0, map[])).1, q)
                == Y.CountForbidden(t0, dlq, all[..n], policyFor, Some(q))
      {
        Y.PassCountsForbidden(t0, dlq, all, limit, policyFor, Tally(0, 0, map[]), q);
      }
    }

    // ---- the pending sweep ----

    /** Deletes, and counts per queue, the jobs that waited past their deadline. */
    method SweepPending(names: set<string>) returns (gone: map<string, nat>)
      modifies this`rows
      ensures View() == AfterSweep(old(View()), names)
      ensures forall k :: k in old(rows) && k !in rows ==>
        k.queue in names && Waiting(old(rows)[k]) && old(rows)[k].keepUntil < now
      ensures forall q :: q in gone <==> exists k :: PastDeadline(old(View()), names, k) && k.queue == q
      ensures forall q :: q in gone ==>
        gone[q] == |set k | k in old(rows) && PastDeadline(old(View()), names, k) && k.queue == q|
      ensures forall k :: k in old(rows) && !Waiting(old(rows)[k]) ==> k in rows && rows[k] == old(rows)[k]
    {
      if names == {} {
        assert AfterSweep(View(), names).rows == rows;
        return map[];
      }
      var t := Table(rows, queues, serials, now);
      var late := set k | k in rows && PastDeadline(t, names, k);
      rows := map k | k in rows && k !in late :: rows[k];
      var lateQueues := set k | k in late :: k.queue;
      gone := map q | q in lateQueues :: |set k | k in t.rows && PastDeadline(t, names, k) && k.queue == q|;
    }

    // ---- the worker's batch ----

    /** Runs one job. A success is settled at once, fenced to the attempt that was fetched. */
    method RunOne(j: BatchJob) returns (v: Verdict)
      modifies this`rows, this`processed
      ensures v == VerdictOf(j.end)
      ensures View() == AfterRun(old(View()), j)
      ensures processed == old(processed) + if CountsProcessed(old(View()), j) then 1 else 0
    {
      if !j.end.Returned? { return VerdictOf(j.end); }
      var affected := false;
      var held := j.k in rows && rows[j.k].state.Active? && rows[j.k].attempt == j.attempt;
      if (j.reply.Answered? || j.reply.ran) && held {
        affected := true;
        if j.k.queue in queues && queues[j.k.queue].deleteOnSuccess {
          rows := rows - {j.k};
        } else {
          rows := rows[j.k := rows[j.k].(state := Completed)];
        }
      }
      if j.reply.Lost? || affected { processed := processed + 1; }
      v := Success;
    }

    /** Counts a failure only where the settle that follows will land; when it cannot tell, it counts. */
    method CountFailures(jobs: seq<BatchJob>, checkFails: bool) returns (counted: seq<bool>)
      modifies this`failures
      ensures |counted| == |jobs| && failures == old(failures) + Trues(counted)
      ensures forall i :: 0 <= i < |jobs| ==>
        (counted[i] <==> !jobs[i].end.Returned? && (checkFails || HoldsClaim(View(), jobs[i].k, jobs[i].attempt)))
    {
      counted := [];
      while |counted| < |jobs|
        invariant |counted| <= |jobs| && failures == old(failures) + Trues(counted)
        invariant forall i :: 0 <= i < |counted| ==>
          (counted[i] <==> !jobs[i].end.Returned? && (checkFails || HoldsClaim(View(), jobs[i].k, jobs[i].attempt)))
        decreases |jobs| - |counted|
      {
        var j := jobs[|counted|];
        var counts := !j.end.Returned? &&
                      (checkFails || (j.k in rows && rows[j.k].state.Active? && rows[j.k].attempt == j.attempt));
        if counts { failures := failures + 1; }
        assert (counted + [counts])[..|counted|] == counted;
        counted := counted + [counts];
      }
    }

    /** Runs the jobs of a batch; each settles on its own. */
    method RunAll(jobs: seq<BatchJob>) returns (verdicts: seq<Verdict>, counted: seq<bool>)
      modifies this`rows, this`processed
      ensures |counted| == |jobs| && processed == old(processed) + Trues(counted)
      ensures View() == AfterBatch(old(View()), jobs) && Reported(old(View()), jobs, verdicts, counted)
    {
      verdicts, counted := [], [];
      while |counted| < |jobs|
        invariant processed == old(processed) + Trues(counted)
        invariant Reported(old(View()), jobs, verdicts, counted)
        invariant View() == AfterBatch(old(View()), jobs[..|counted|])
        decreases |jobs| - |counted|
      {
        var n, was := |counted|, processed;
        var v := RunOne(jobs[n]);
        BatchStep(old(View()), jobs, n, counted, was < processed);
        ReportOneMore(old(View()), jobs, verdicts, counted, v, was < processed);
        verdicts, counted := verdicts + [v], counted + [was < processed];
      }
      assert jobs[..|jobs|] == jobs;
    }

    /** One batch: each job gets one verdict, and none is counted both as processed and as failed. */
    method ProcessBatch(jobs: seq<BatchJob>, checkFails: bool)
      returns (verdicts: seq<Verdict>, wasProcessed: seq<bool>, hasFailed: seq<bool>)
      modifies this`rows, this`processed, this`failures
      ensures |verdicts| == |wasProcessed| == |hasFailed| == |jobs| && View() == AfterBatch(old(View()), jobs)
      ensures processed == old(processed) + Trues(wasProcessed) && failures == old(failures) + Trues(hasFailed)
      ensures forall i :: 0 <= i < |jobs| ==>
        && verdicts[i] == VerdictOf(jobs[i].end)
        && (wasProcessed[i] <==> CountsProcessed(AfterBatch(old(View()), jobs[..i]), jobs[i]))
        && (hasFailed[i] <==> !jobs[i].end.Returned? && (checkFails || HoldsClaim(View(), jobs[i].k, jobs[i].attempt)))
        && !(wasProcessed[i] && hasFailed[i])
    {
      verdicts, wasProcessed := RunAll(jobs);
      hasFailed := CountFailures(jobs, checkFails);
    }
  }
}
