/**
 * What `redriveDeadLetters` (packages/platform-jobs/src/redrive.ts) comes to when nobody else writes: one
 * pass over the dead letters in (created_on, id) order that stops once enough have moved.
 */
module RedrivePass {
  import opened Common
  import opened JobsTable

  const DEFAULT_LIMIT := 100
  const MAX_LIMIT := 10000

  /** The optional narrowings of a redrive; `data` is the jsonb containment test. */
  datatype Filter = Filter(
    ids: Option<set<nat>>, createdBefore: Option<int>, origin: Option<string>, data: string -> bool)

  predicate Matches(f: Filter, id: nat, r: Row) {
    && (f.ids.Some? ==> id in f.ids.value)
    && (f.createdBefore.Some? ==> r.createdOn < f.createdBefore.value)
    && (f.origin.Some? ==> r.source.Some? && r.source.value.queue == f.origin.value)
    && f.data(r.data)
  }

  predicate Candidate(t: Table, dlq: string, f: Filter, exclude: set<nat>, k: Key) {
    k.queue == dlq && Movable(t, k) && k.id !in exclude && Matches(f, k.id, t.rows[k])
  }

  function Candidates(t: Table, dlq: string, f: Filter, exclude: set<nat>): set<nat> {
    set k | k in t.rows && Candidate(t, dlq, f, exclude, k) :: k.id
  }

  lemma InCandidates(t: Table, dlq: string, f: Filter, exclude: set<nat>, id: nat)
    ensures id in Candidates(t, dlq, f, exclude) <==> Candidate(t, dlq, f, exclude, Key(dlq, id))
    ensures id in Candidates(t, dlq, f, exclude) <==>
            var k := Key(dlq, id);
            && k in t.rows && (t.rows[k].state.Created? || t.rows[k].state.Retry?) && t.now < t.rows[k].keepUntil
            && id !in exclude && (f.ids == None || id in f.ids.value) && f.data(t.rows[k].data)
            && (f.createdBefore == None || t.rows[k].createdOn < f.createdBefore.value)
            && (f.origin == None || (t.rows[k].source.Some? && t.rows[k].source.value.queue == f.origin.value))
  {
    var k := Key(dlq, id);
    assert Candidate(t, dlq, f, exclude, k) ==> k in t.rows && k.id == id;
  }

  /** ORDER BY created_on, id */
  predicate Before(t: Table, dlq: string, a: nat, b: nat)
    requires Key(dlq, a) in t.rows && Key(dlq, b) in t.rows
  {
    t.rows[Key(dlq, a)].createdOn < t.rows[Key(dlq, b)].createdOn ||
    (t.rows[Key(dlq, a)].createdOn == t.rows[Key(dlq, b)].createdOn && a < b)
  }

  predicate InQueue(t: Table, dlq: string, ids: set<nat>) { forall id :: id in ids ==> Key(dlq, id) in t.rows }

  predicate IsFirst(t: Table, dlq: string, ids: set<nat>, id: nat)
    requires InQueue(t, dlq, ids)
  {
    id in ids && forall other :: other in ids && other != id ==> Before(t, dlq, id, other)
  }

  lemma {:induction false} HasFirst(t: Table, dlq: string, ids: set<nat>, x: nat)
    requires InQueue(t, dlq, ids) && x in ids
    ensures exists id :: IsFirst(t, dlq, ids, id)
    decreases |ids|
  {
    if y :| y in ids && y != x {
      HasFirst(t, dlq, ids - {x}, y);
      var first :| IsFirst(t, dlq, ids - {x}, first);
      var least := if Before(t, dlq, x, first) then x else first;
      forall other | other in ids && other != least
        ensures Before(t, dlq, least, other)
      {
        assert other == x || other in ids - {x};
      }
      assert IsFirst(t, dlq, ids, least);
    } else {
      assert IsFirst(t, dlq, ids, x);
    }
  }

  ghost function Ordered(t: Table, dlq: string, ids: set<nat>): seq<nat>
    requires InQueue(t, dlq, ids)
    decreases |ids|
  {
    if ids == {} then []
    else
      var x :| x in ids;
      HasFirst(t, dlq, ids, x);
      var first :| IsFirst(t, dlq, ids, first);
      [first] + Ordered(t, dlq, ids - {first})
  }

  /** Exactly the given ids, each once, in strictly increasing (created_on, id) order. */
  lemma {:induction false} OrderedIsSorted(t: Table, dlq: string, ids: set<nat>)
    requires InQueue(t, dlq, ids)
    ensures var s := Ordered(t, dlq, ids);
            && |s| == |ids|
            && (forall id :: id in s <==> id in ids)
            && (forall i, j :: 0 <= i < j < |s| ==> s[i] != s[j] && Before(t, dlq, s[i], s[j]))
    decreases |ids|
  {
    if ids != {} {
      var first := Ordered(t, dlq, ids)[0];
      assert IsFirst(t, dlq, ids, first);
      OrderedIsSorted(t, dlq, ids - {first});
    }
  }

  /** Oldest first, by id among those of one instant. */
  lemma OldestFirst(t: Table, dlq: string, ids: set<nat>, i: nat, j: nat)
    requires InQueue(t, dlq, ids) && i < j < |Ordered(t, dlq, ids)|
    ensures var s := Ordered(t, dlq, ids);
            && s[i] in ids && s[j] in ids
            && t.rows[Key(dlq, s[i])].createdOn <= t.rows[Key(dlq, s[j])].createdOn
            && (t.rows[Key(dlq, s[i])].createdOn == t.rows[Key(dlq, s[j])].createdOn ==> s[i] < s[j])
  {
    OrderedIsSorted(t, dlq, ids);
    var s := Ordered(t, dlq, ids);
    assert s[i] in s && s[j] in s;
    assert Before(t, dlq, s[i], s[j]);
  }

  /** There is only one first, and it is the head of the list. */
  lemma FirstIsHead(t: Table, dlq: string, ids: set<nat>, first: nat)
    requires InQueue(t, dlq, ids) && IsFirst(t, dlq, ids, first)
    ensures Ordered(t, dlq, ids) == [first] + Ordered(t, dlq, ids - {first})
  {
    var head := Ordered(t, dlq, ids)[0];
    assert IsFirst(t, dlq, ids, head);
  }

  /** Only the creation times of these rows matter to their order. */
  lemma {:induction false} OrderedFrame(t: Table, t': Table, dlq: string, ids: set<nat>)
    requires InQueue(t, dlq, ids) && InQueue(t', dlq, ids)
    requires forall id :: id in ids ==> t'.rows[Key(dlq, id)].createdOn == t.rows[Key(dlq, id)].createdOn
    ensures Ordered(t', dlq, ids) == Ordered(t, dlq, ids)
    decreases |ids|
  {
    if ids != {} {
      var a, b := Ordered(t, dlq, ids)[0], Ordered(t', dlq, ids)[0];
      assert IsFirst(t, dlq, ids, a) && IsFirst(t', dlq, ids, b);
      assert a == b;
      OrderedFrame(t, t', dlq, ids - {a});
    }
  }

  /** What a redrive counts; `rejected` is per origin queue. */
  datatype Tally = Tally(moved: nat, skipped: nat, rejected: map<string, nat>)

  function Counted(y: Tally, o: Outcome, origin: string): Tally {
    match o
    case Moved => y.(moved := y.moved + 1)
    case Rejected =>
      y.(skipped := y.skipped + 1,
         rejected := y.rejected[origin := 1 + if origin in y.rejected then y.rejected[origin] else 0])
    case _ => y
  }

  function OriginOf(t: Table, c: Key): string {
    if c in t.rows && t.rows[c].source.Some? then t.rows[c].source.value.queue else ""
  }

  /** The one pass: each id in turn, until `limit` have moved. */
  function Pass(t: Table, dlq: string, ids: seq<nat>, limit: nat, policyFor: string -> Policy, y: Tally): (Table, Tally)
    decreases |ids|
  {
    if ids == [] || limit <= y.moved then (t, y)
    else
      var c := Key(dlq, ids[0]);
      Pass(AfterMove(t, c, false, policyFor), dlq, ids[1..], limit, policyFor,
           Counted(y, MoveOutcome(t, c, false, policyFor), OriginOf(t, c)))
  }

  /** One more id tried: the pass so far, then that one, unless enough have moved. */
  lemma {:induction false} PassOneMore(t: Table, dlq: string, ids: seq<nat>, n: nat, limit: nat,
                                       policyFor: string -> Policy, y: Tally)
    requires n < |ids|
    ensures var so := Pass(t, dlq, ids[..n], limit, policyFor, y);
            var c := Key(dlq, ids[n]);
            Pass(t, dlq, ids[..n + 1], limit, policyFor, y) ==
            if limit <= so.1.moved then so
            else (AfterMove(so.0, c, false, policyFor),
                  Counted(so.1, MoveOutcome(so.0, c, false, policyFor), OriginOf(so.0, c)))
    decreases n
  {
    if n == 0 {
      assert ids[..1] == [ids[0]];
    } else if y.moved < limit {
      var c := Key(dlq, ids[0]);
      assert ids[..n][1..] == ids[1..][..n - 1] && ids[..n + 1][1..] == ids[1..][..n];
      PassOneMore(AfterMove(t, c, false, policyFor), dlq, ids[1..], n - 1, limit, policyFor,
                  Counted(y, MoveOutcome(t, c, false, policyFor), OriginOf(t, c)));
    }
  }

  /** Once enough have moved, what is left is not tried. */
  lemma {:induction false} PassStops(t: Table, dlq: string, ids: seq<nat>, n: nat, limit: nat,
                                     policyFor: string -> Policy, y: Tally)
    requires n <= |ids| && limit <= Pass(t, dlq, ids[..n], limit, policyFor, y).1.moved
    ensures Pass(t, dlq, ids, limit, policyFor, y) == Pass(t, dlq, ids[..n], limit, policyFor, y)
    decreases |ids| - n
  {
    if n < |ids| {
      PassOneMore(t, dlq, ids, n, limit, policyFor, y);
      PassStops(t, dlq, ids, n + 1, limit, policyFor, y);
    } else {
      assert ids[..n] == ids;
    }
  }

  /** Never more than the limit; never more counted than tried. */
  lemma {:induction false} PassWithinLimit(t: Table, dlq: string, ids: seq<nat>, limit: nat,
                                           policyFor: string -> Policy, y: Tally)
    requires y.moved <= limit
    ensures var y' := Pass(t, dlq, ids, limit, policyFor, y).1;
            && y.moved <= y'.moved <= limit && y.skipped <= y'.skipped
            && y'.moved + y'.skipped <= y.moved + y.skipped + |ids|
    decreases |ids|
  {
    if ids != [] && y.moved < limit {
      var c := Key(dlq, ids[0]);
      PassWithinLimit(AfterMove(t, c, false, policyFor), dlq, ids[1..], limit, policyFor,
                      Counted(y, MoveOutcome(t, c, false, policyFor), OriginOf(t, c)));
    }
  }

  /** No queue is its own dead-letter queue, so no copy in it came from it (config.ts refuses that). */
  ghost predicate NoSelfOrigin(t: Table, dlq: string) {
    forall k :: k in t.rows && k.queue == dlq && t.rows[k].source.Some? ==> t.rows[k].source.value.queue != dlq
  }

  /** Trying one copy leaves the others of its queue exactly as they were: the candidates not yet tried,
      and their order, do not depend on what became of it. */
  lemma TryingOneLeavesTheRest(t: Table, dlq: string, f: Filter, exclude: set<nat>, id: nat,
                               policyFor: string -> Policy)
    requires NoSelfOrigin(t, dlq)
    ensures var t' := AfterMove(t, Key(dlq, id), false, policyFor);
            && NoSelfOrigin(t', dlq)
            && Candidates(t', dlq, f, exclude + {id}) == Candidates(t, dlq, f, exclude + {id})
            && Ordered(t', dlq, Candidates(t', dlq, f, exclude + {id}))
               == Ordered(t, dlq, Candidates(t, dlq, f, exclude + {id}))
  {
    var t' := AfterMove(t, Key(dlq, id), false, policyFor);
    var rest := Candidates(t, dlq, f, exclude + {id});
    forall k: Key | k.queue == dlq && k.id != id
      ensures (k in t'.rows <==> k in t.rows) && (k in t.rows ==> t'.rows[k] == t.rows[k])
    {
    }
    forall x
      ensures x in Candidates(t', dlq, f, exclude + {id}) <==> x in rest
    {
      InCandidates(t, dlq, f, exclude + {id}, x);
      InCandidates(t', dlq, f, exclude + {id}, x);
    }
    OrderedFrame(t, t', dlq, rest);
  }

  /** Taking the first of the candidates off leaves the rest of the list. */
  lemma FirstOff(t: Table, dlq: string, f: Filter, exclude: set<nat>)
    requires Candidates(t, dlq, f, exclude) != {}
    ensures var s := Ordered(t, dlq, Candidates(t, dlq, f, exclude));
            s != [] && Ordered(t, dlq, Candidates(t, dlq, f, exclude + {s[0]})) == s[1..]
  {
    var ids := Candidates(t, dlq, f, exclude);
    var first := Ordered(t, dlq, ids)[0];
    assert IsFirst(t, dlq, ids, first);
    assert Candidates(t, dlq, f, exclude + {first}) == ids - {first};
  }

  /** `rest` is what is left to try, in order, after trying `tried`. */
  ghost predicate LeftToTry(t: Table, dlq: string, f: Filter, tried: set<nat>, rest: seq<nat>) {
    NoSelfOrigin(t, dlq) && rest == Ordered(t, dlq, Candidates(t, dlq, f, tried))
  }

  lemma TryingTheFirst(t: Table, dlq: string, f: Filter, tried: set<nat>, rest: seq<nat>, policyFor: string -> Policy)
    requires LeftToTry(t, dlq, f, tried, rest) && rest != []
    ensures LeftToTry(AfterMove(t, Key(dlq, rest[0]), false, policyFor), dlq, f, tried + {rest[0]}, rest[1..])
  {
    FirstOff(t, dlq, f, tried);
    TryingOneLeavesTheRest(t, dlq, f, tried, rest[0], policyFor);
  }
}
