/**
 * What a redrive's policy decides (`canRedrive`, packages/platform-jobs/src/redrive.ts; `mailCanRedrive`,
 * packages/platform-mail/src/jobs.ts): over every run, and in the counts a redrive reports.
 */
module RedrivePolicy {
  import opened Common
  import opened JobsTable
  import opened RedriveSafety
  import opened RedrivePass
  import F = Fencing

  // ---- over every run ----

  /** The row inserted under this number, wherever it has got to, is about this payload of this origin. */
  ghost predicate StillAbout(t: Table, serial: nat, origin: Key, data: string) {
    serial < t.serials &&
    forall k :: k in t.rows && t.rows[k].serial == serial ==> t.rows[k].source == Some(origin) && t.rows[k].data == data
  }

  lemma StepStaysAbout(t: Table, e: Event, serial: nat, origin: Key, data: string)
    requires Numbered(t) && StillAbout(t, serial, origin, data)
    ensures StillAbout(Step(t, e), serial, origin, data)
  {
    F.StepMovesOn(t, e);
    var t' := Step(t, e);
    forall k | k in t'.rows && t'.rows[k].serial == serial
      ensures t'.rows[k].source == Some(origin) && t'.rows[k].data == data
    {
      assert k in t.rows && t.rows[k].serial == serial;
    }
  }

  /**
   * Over every run of any number of redrives, with whatever else happens: a dead letter whose payload its origin
   * queue's rule forbids, or whose origin queue is not defined where the redrive runs, never moves.
   */
  lemma {:induction false} ForbiddenNeverMoves(t: Table, es: seq<Event>, serial: nat, origin: Key, data: string)
    requires Numbered(t) && StillAbout(t, serial, origin, data)
    requires forall e :: e in es && e.Redrive? ==> !Permits(e.policyFor, origin.queue, data)
    ensures Moves(t, es, serial) == 0
    decreases |es|
  {
    if es != [] {
      var e := es[0];
      assert e in es;
      StepKeepsNumbered(t, e);
      StepStaysAbout(t, e, serial, origin, data);
      if e.Redrive? { PolicyDecides(t, e.c, e.locked, e.policyFor); }
      ForbiddenNeverMoves(Step(t, e), es[1..], serial, origin, data);
    }
  }

  // ---- the mail queue's rule ----

  function LowerChar(c: char): char { if 'A' <= c <= 'Z' then c - 'A' + 'a' else c }

  function Lower(s: string): (r: string)
    ensures |r| == |s| && forall i :: 0 <= i < |s| ==> r[i] == LowerChar(s[i])
  {
    if s == "" then "" else [LowerChar(s[0])] + Lower(s[1..])
  }

  const AUTH := "auth."

  /** `category` is what the payload has under that name, if it is a string. */
  function MailCanRedrive(category: Option<string>): bool {
    category.Some? && category.value != "" && !(AUTH <= Lower(category.value))
  }

  /** Authentication mail in any casing, and a payload that is not recognisably other mail, is not redriven; all
      other mail is. */
  lemma MailRuleIs(category: Option<string>)
    ensures MailCanRedrive(category) <==>
            category.Some? && 0 < |category.value| &&
            !(5 <= |category.value| && (category.value[0] == 'a' || category.value[0] == 'A')
              && (category.value[1] == 'u' || category.value[1] == 'U')
              && (category.value[2] == 't' || category.value[2] == 'T')
              && (category.value[3] == 'h' || category.value[3] == 'H') && category.value[4] == '.')
  {
    if category.Some? && 5 <= |category.value| {
      var c, l := category.value, Lower(category.value);
      assert AUTH <= l <==> l[0] == 'a' && l[1] == 'u' && l[2] == 't' && l[3] == 'h' && l[4] == '.';
    }
  }

  /** In every run, however often operators redrive: a dead authentication mail never goes back to the mail queue. */
  lemma AuthMailIsNeverRedriven(t: Table, es: seq<Event>, serial: nat, origin: Key, data: string,
                                categoryOf: string -> Option<string>)
    requires Numbered(t) && StillAbout(t, serial, origin, data)
    requires categoryOf(data).Some? && AUTH <= Lower(categoryOf(data).value)
    requires forall e :: e in es && e.Redrive? ==>
               e.policyFor(origin.queue) == NotDefined ||
               e.policyFor(origin.queue) == Rule(d => MailCanRedrive(categoryOf(d)))
    ensures Moves(t, es, serial) == 0
  {
    forall e | e in es && e.Redrive?
      ensures !Permits(e.policyFor, origin.queue, data)
    {
    }
    ForbiddenNeverMoves(t, es, serial, origin, data);
  }

  // ---- what a redrive counts ----

  /** How many ids the pass tries. */
  function Tries(t: Table, dlq: string, ids: seq<nat>, limit: nat, policyFor: string -> Policy, y: Tally): (n: nat)
    ensures n <= |ids|
    decreases |ids|
  {
    if ids == [] || limit <= y.moved then 0
    else
      var c := Key(dlq, ids[0]);
      1 + Tries(AfterMove(t, c, false, policyFor), dlq, ids[1..], limit, policyFor,
                Counted(y, MoveOutcome(t, c, false, policyFor), OriginOf(t, c)))
  }

  /** A copy with an origin queue that exists, whose rule does not let it go. */
  ghost predicate Forbidden(t: Table, c: Key, policyFor: string -> Policy) {
    c in t.rows && t.rows[c].source.Some? && t.rows[c].source.value.queue in t.queues &&
    !Permits(policyFor, t.rows[c].source.value.queue, t.rows[c].data)
  }

  /** How many of these copies are forbidden; of one origin queue, or of all. */
  ghost function CountForbidden(t: Table, dlq: string, ids: seq<nat>, policyFor: string -> Policy,
                                queue: Option<string>): nat
  {
    if ids == [] then 0
    else
      var c := Key(dlq, ids[0]);
      (if Forbidden(t, c, policyFor) && (queue.None? || queue.value == t.rows[c].source.value.queue) then 1 else 0)
      + CountForbidden(t, dlq, ids[1..], policyFor, queue)
  }

  /** How many of these copies are not in the queue any more. */
  function CountGone(t: Table, dlq: string, ids: seq<nat>): nat {
    if ids == [] then 0 else (if Key(dlq, ids[0]) in t.rows then 0 else 1) + CountGone(t, dlq, ids[1..])
  }

  function RejectedOf(y: Tally, queue: string): nat { if queue in y.rejected then y.rejected[queue] else 0 }

  lemma {:induction false} CountForbiddenFrame(t: Table, t': Table, dlq: string, ids: seq<nat>,
                                               policyFor: string -> Policy, queue: Option<string>)
    requires t.queues == t'.queues
    requires forall id :: id in ids ==>
               (Key(dlq, id) in t.rows <==> Key(dlq, id) in t'.rows) &&
               (Key(dlq, id) in t.rows ==> t.rows[Key(dlq, id)] == t'.rows[Key(dlq, id)])
    ensures CountForbidden(t, dlq, ids, policyFor, queue) == CountForbidden(t', dlq, ids, policyFor, queue)
  {
    if ids != [] {
      CountForbiddenFrame(t, t', dlq, ids[1..], policyFor, queue);
    }
  }

  /** The queue's other copies are as they were, and it gains none. */
  lemma OneTried(t: Table, dlq: string, id: nat, policyFor: string -> Policy)
    requires NoSelfOrigin(t, dlq)
    ensures var t' := AfterMove(t, Key(dlq, id), false, policyFor);
            && t'.queues == t.queues && t'.now == t.now && NoSelfOrigin(t', dlq)
            && (forall k: Key :: k.queue == dlq && k.id != id ==>
                  (k in t'.rows <==> k in t.rows) && (k in t.rows ==> t'.rows[k] == t.rows[k]))
            && (Key(dlq, id) in t'.rows ==> Key(dlq, id) in t.rows)
            && (MoveOutcome(t, Key(dlq, id), false, policyFor).Moved? ==> Key(dlq, id) !in t'.rows)
            && (!MoveOutcome(t, Key(dlq, id), false, policyFor).Moved? ==> t' == t)
  {
  }

  /** Each id once, each a copy whose turn it may be. */
  ghost predicate ToBeTried(t: Table, dlq: string, ids: seq<nat>) {
    && (forall i, j :: 0 <= i < j < |ids| ==> ids[i] != ids[j])
    && (forall id :: id in ids ==> Movable(t, Key(dlq, id)))
  }

  /** Only ids in the list leave the queue, and only where the rule lets them. */
  lemma {:induction false} PassTakesOnlyPermitted(t: Table, dlq: string, ids: seq<nat>, limit: nat,
                                                  policyFor: string -> Policy, y: Tally, k: Key)
    requires NoSelfOrigin(t, dlq) && ToBeTried(t, dlq, ids) && k.queue == dlq
    ensures var t' := Pass(t, dlq, ids, limit, policyFor, y).0;
            && t'.queues == t.queues && (k in t'.rows ==> k in t.rows)
            && (k in t.rows && k !in t'.rows ==>
                  k.id in ids[..Tries(t, dlq, ids, limit, policyFor, y)] && t.rows[k].source.Some?
                  && Permits(policyFor, t.rows[k].source.value.queue, t.rows[k].data))
    decreases |ids|
  {
    if ids != [] && y.moved < limit {
      var c := Key(dlq, ids[0]);
      var t1 := AfterMove(t, c, false, policyFor);
      OneTried(t, dlq, ids[0], policyFor);
      PolicyDecides(t, c, false, policyFor);
      PassTakesOnlyPermitted(t1, dlq, ids[1..], limit, policyFor,
                             Counted(y, MoveOutcome(t, c, false, policyFor), OriginOf(t, c)), k);
      var n := Tries(t, dlq, ids, limit, policyFor, y);
      assert ids[..n] == [ids[0]] + ids[1..][..n - 1];
    }
  }

  /** Of the ids tried, `skipped` are exactly those the rule forbids, and `rejected` the same by origin queue. */
  lemma {:induction false} PassCountsForbidden(t: Table, dlq: string, ids: seq<nat>, limit: nat,
                                               policyFor: string -> Policy, y: Tally, queue: string)
    requires NoSelfOrigin(t, dlq) && ToBeTried(t, dlq, ids)
    ensures var y' := Pass(t, dlq, ids, limit, policyFor, y).1;
            var tried := ids[..Tries(t, dlq, ids, limit, policyFor, y)];
            && y'.skipped == y.skipped + CountForbidden(t, dlq, tried, policyFor, None)
            && RejectedOf(y', queue) == RejectedOf(y, queue) + CountForbidden(t, dlq, tried, policyFor, Some(queue))
    decreases |ids|
  {
    if ids != [] && y.moved < limit {
      var c := Key(dlq, ids[0]);
      var t1 := AfterMove(t, c, false, policyFor);
      var y1 := Counted(y, MoveOutcome(t, c, false, policyFor), OriginOf(t, c));
      OneTried(t, dlq, ids[0], policyFor);
      OneCounted(t, c, policyFor, y, queue);
      PassCountsForbidden(t1, dlq, ids[1..], limit, policyFor, y1, queue);
      var n := Tries(t1, dlq, ids[1..], limit, policyFor, y1);
      assert ids[..n + 1][0] == ids[0] && ids[..n + 1][1..] == ids[1..][..n];
      CountForbiddenFrame(t, t1, dlq, ids[1..][..n], policyFor, None);
      CountForbiddenFrame(t, t1, dlq, ids[1..][..n], policyFor, Some(queue));
    }
  }

  lemma OneCounted(t: Table, c: Key, policyFor: string -> Policy, y: Tally, queue: string)
    requires Movable(t, c)
    ensures var y1 := Counted(y, MoveOutcome(t, c, false, policyFor), OriginOf(t, c));
            && y1.skipped == y.skipped + (if Forbidden(t, c, policyFor) then 1 else 0)
            && RejectedOf(y1, queue) == RejectedOf(y, queue) +
                 (if Forbidden(t, c, policyFor) && queue == t.rows[c].source.value.queue then 1 else 0)
  {
    PolicyDecides(t, c, false, policyFor);
  }

  /** Of the ids tried, `moved` are those that left the queue; and unless the limit was reached every id was tried. */
  lemma {:induction false} PassCountsMoved(t: Table, dlq: string, ids: seq<nat>, limit: nat,
                                           policyFor: string -> Policy, y: Tally)
    requires NoSelfOrigin(t, dlq) && ToBeTried(t, dlq, ids)
    ensures var (t', y') := Pass(t, dlq, ids, limit, policyFor, y);
            var n := Tries(t, dlq, ids, limit, policyFor, y);
            (n == |ids| || limit <= y'.moved) && y'.moved == y.moved + CountGone(t', dlq, ids[..n])
    decreases |ids|
  {
    if ids != [] && y.moved < limit {
      var c := Key(dlq, ids[0]);
      var t1 := AfterMove(t, c, false, policyFor);
      var y1 := Counted(y, MoveOutcome(t, c, false, policyFor), OriginOf(t, c));
      OneTried(t, dlq, ids[0], policyFor);
      PassCountsMoved(t1, dlq, ids[1..], limit, policyFor, y1);
      PassTakesOnlyPermitted(t1, dlq, ids[1..], limit, policyFor, y1, c);
      var n := Tries(t1, dlq, ids[1..], limit, policyFor, y1);
      assert ids[..n + 1][0] == ids[0] && ids[..n + 1][1..] == ids[1..][..n];
    }
  }

  /** The candidates of a redrive are copies whose turn it is, each once. */
  lemma CandidatesToBeTried(t: Table, dlq: string, f: Filter)
    ensures ToBeTried(t, dlq, Ordered(t, dlq, Candidates(t, dlq, f, {})))
  {
    var ids := Candidates(t, dlq, f, {});
    OrderedIsSorted(t, dlq, ids);
    forall id | id in Ordered(t, dlq, ids)
      ensures Movable(t, Key(dlq, id))
    {
      InCandidates(t, dlq, f, {}, id);
    }
  }
}
