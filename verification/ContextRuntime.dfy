/**
 * The same code in its own form (packages/identity/src/context.ts, and `clearContextSessions` of
 * packages/identity/src/create-identity.ts): the memo and the session rows, changed in place. What runs between two
 * awaits is one method, proved to be one step of `SessionContext`; the order of the steps is `FindSession` and
 * `SetContext`, here with nobody in between, in `SessionContext` with everybody.
 */
module ContextRuntime {
  import opened Common
  import opened SessionContext

  const BATCH := 500

  // ---- hooks ----

  /** A hook of `session.create.before`: it refuses, or adds fields to the row. */
  datatype HookEnd = Refuses | Adds(data: map<string, string>)

  type Hook = map<string, string> -> HookEnd

  /** What was added already, and what the rest adds. */
  function Onto(data: map<string, string>, end: HookEnd): HookEnd {
    if end.Refuses? then Refuses else Adds(data + end.data)
  }

  /** Each hook sees what the ones before it added; a refusal stops the chain. */
  function Chained(hooks: seq<Hook>, row: map<string, string>): HookEnd
    decreases |hooks|
  {
    if hooks == [] then Adds(map[])
    else if hooks[0](row).Refuses? then Refuses
    else Onto(hooks[0](row).data, Chained(hooks[1..], row + hooks[0](row).data))
  }

  lemma OntoOnto(a: map<string, string>, b: map<string, string>, end: HookEnd)
    ensures Onto(a, Onto(b, end)) == Onto(a + b, end)
  {
    if end.Adds? {
      assert a + (b + end.data) == (a + b) + end.data;
    }
  }

  /** A later hook wins over an earlier one, and nothing the chain adds is lost. */
  lemma {:induction false} ChainAddsInOrder(hooks: seq<Hook>, more: seq<Hook>, row: map<string, string>)
    requires Chained(hooks, row).Adds?
    ensures Chained(hooks + more, row) == Onto(Chained(hooks, row).data, Chained(more, row + Chained(hooks, row).data))
    decreases |hooks|
  {
    if hooks == [] {
      assert hooks + more == more && row + map[] == row;
      if Chained(more, row).Adds? {
        assert map[] + Chained(more, row).data == Chained(more, row).data;
      }
    } else {
      var data := hooks[0](row).data;
      assert (hooks + more)[1..] == hooks[1..] + more;
      ChainAddsInOrder(hooks[1..], more, row + data);
      var rest := Chained(hooks[1..], row + data).data;
      assert (row + data) + rest == row + (data + rest);
      OntoOnto(data, rest, Chained(more, row + (data + rest)));
    }
  }

  /** The next hook of a chain, given what the ones before it added. */
  lemma ChainNext(hooks: seq<Hook>, i: nat, merged: map<string, string>, current: map<string, string>)
    requires i < |hooks|
    ensures var r := hooks[i](current);
            Onto(merged, Chained(hooks[i..], current)) ==
            if r.Refuses? then Refuses else Onto(merged + r.data, Chained(hooks[i + 1..], current + r.data))
  {
    assert hooks[i..][0] == hooks[i] && hooks[i..][1..] == hooks[i + 1..];
    var r := hooks[i](current);
    if r.Adds? { OntoOnto(merged, r.data, Chained(hooks[i + 1..], current + r.data)); }
  }

  /** The ends of the law: no hook adds nothing, and one adds what it adds. */
  lemma ChainOfAtMostOne(hook: Hook, row: map<string, string>)
    ensures Chained([], row) == Adds(map[])
    ensures Chained([hook], row) == hook(row)
  {
    assert [hook][1..] == [];
    if hook(row).Adds? { assert hook(row).data + map[] == hook(row).data; }
  }

  /** `chainCreateBefore` */
  method ChainCreateBefore(hooks: seq<Hook>, row: map<string, string>) returns (end: HookEnd)
    ensures end == Chained(hooks, row)
  {
    var current, merged := row, map[];
    var i := 0;
    assert hooks[0..] == hooks;
    assert Chained(hooks, row).Adds? ==> map[] + Chained(hooks, row).data == Chained(hooks, row).data;
    while i < |hooks|
      invariant 0 <= i <= |hooks|
      invariant Chained(hooks, row) == Onto(merged, Chained(hooks[i..], current))
    {
      ChainNext(hooks, i, merged, current);
      var r := hooks[i](current);
      if r.Refuses? { return Refuses; }
      merged, current := merged + r.data, current + r.data;
      i := i + 1;
    }
    assert merged + map[] == merged;
    end := Adds(merged);
  }

  // ---- clearing a context ----

  /** Of a clear's rows, those seen lost the context unless stuck, and nothing else changed. */
  ghost predicate ClearedSoFar(was: map<string, Session>, sessions: map<string, Session>,
                               stuck: string -> bool, seen: set<string>)
  {
    && sessions.Keys == was.Keys
    && forall t :: t in was ==> sessions[t] == if t in seen && !stuck(t) then was[t].(context := None) else was[t]
  }

  /** No belief in the context is left for the users of the rows seen; the beliefs in others all are. */
  ghost predicate ForgottenSoFar(was: map<string, Session>, before: seq<Belief>, memo: seq<Belief>,
                                 context: Context, seen: set<string>)
  {
    && (forall b :: b in memo ==> b in before)
    && (forall b :: b in before && b.context != context ==> b in memo)
    && (forall t, b :: t in seen && t in was && b in memo ==> !(b.user == was[t].user && b.context == context))
  }

  function HoldingIn(sessions: map<string, Session>, context: Context, who: Option<User>): set<string> {
    set t | t in sessions && sessions[t].context == Some(context) && (who.Some? ==> sessions[t].user == who.value)
  }

  lemma ClearedOneMore(was: map<string, Session>, sessions: map<string, Session>,
                       stuck: string -> bool, seen: set<string>, t: string)
    requires ClearedSoFar(was, sessions, stuck, seen) && t in was && t !in seen
    ensures ClearedSoFar(was, if stuck(t) then sessions else sessions[t := was[t].(context := None)], stuck, seen + {t})
  {
  }

  lemma ForgottenOneMore(was: map<string, Session>, before: seq<Belief>, memo: seq<Belief>,
                         context: Context, seen: set<string>, t: string)
    requires ForgottenSoFar(was, before, memo, context, seen) && t in was
    ensures ForgottenSoFar(was, before, Without(memo, was[t].user, context), context, seen + {t})
  {
  }

  lemma StillHolding(was: map<string, Session>, sessions: map<string, Session>, context: Context, who: Option<User>,
                     stuck: string -> bool, seen: set<string>)
    requires ClearedSoFar(was, sessions, stuck, seen) && seen <= HoldingIn(was, context, who)
    ensures HoldingIn(sessions, context, who) == HoldingIn(was, context, who) - set t | t in seen && !stuck(t)
  {
    forall t
      ensures t in HoldingIn(sessions, context, who) <==> t in HoldingIn(was, context, who) && (t in seen ==> stuck(t))
    {
      assert t in sessions <==> t in was;
    }
  }

  /** A batch with nothing new in it is all there is, unless stuck rows fill it. */
  lemma LastBatch(all: set<string>, left: set<string>, seen: set<string>, batch: set<string>, stuck: string -> bool)
    requires seen <= all && left == all - set t | t in seen && !stuck(t)
    requires batch <= left && batch <= seen && |batch| == Min(BATCH, |left|)
    ensures |set t | t in all && stuck(t)| < BATCH ==> left == (set t | t in all && stuck(t)) && seen == all
  {
    var stuckOnes := set t | t in all && stuck(t);
    assert batch <= stuckOnes;
    SubsetSize(batch, stuckOnes);
    if |stuckOnes| < BATCH {
      assert left == batch + (left - batch);
      assert left - batch == {};
      assert forall t :: t in all ==> t in seen || t in left;
    }
  }

  lemma NoneStuck(all: set<string>, left: set<string>, stuck: string -> bool)
    requires forall t :: !stuck(t)
    requires |set t | t in all && stuck(t)| < BATCH ==> left == set t | t in all && stuck(t)
    ensures left == {}
  {
    assert (set t | t in all && stuck(t)) == {};
  }

  // ---- the runtime ----

  /** How far an operation is from its end. */
  function Rank(task: Task): nat {
    match task
    case Found(_, _) => 5
    case Asking(_, _) => 4
    case Told(_, _, _) => 3
    case Proposing(_) => 2
    case Proposed(_, _) => 1
    case Writing(_, _) => 0
    case AskingToSet(_) => 2
    case WritingSet(_) => 1
    case BelievingSet(_, _) => 0
  }

  /** What the world tells one operation: about the context asked for, about the one proposed, and of its write. */
  datatype Inputs = Inputs(answer: Answer, candidate: Option<Context>, candidateAnswer: Answer, end: WriteEnd)

  function Next(i: Inputs, id: nat, task: Task): Event {
    Advance(id, if task.Proposing? then i.candidateAnswer else i.answer, i.candidate, i.end)
  }

  function Chosen(i: Inputs): Option<Context> { if i.candidateAnswer.Yes? then i.candidate else None }

  /** The operation carried to its end with nobody in between. */
  function Alone(w: World, ttlMs: nat, i: Inputs, id: nat): World
    decreases if id in w.jobs then 1 + Rank(w.jobs[id].task) else 0
  {
    if id !in w.jobs then w else Alone(Step(w, ttlMs, Next(i, id, w.jobs[id].task)), ttlMs, i, id)
  }

  /** One step of the operation that is alone. */
  lemma AloneStep(w: World, ttlMs: nat, i: Inputs, task: Task)
    requires w.jobs == map[0 := Job(true, 0, task)]
    ensures var e := Next(i, 0, task);
            var w' := Step(w, ttlMs, e);
            var w1 := Apply(w, ttlMs, true, EffectOf(task, e.answer, e.candidate), e.end);
            var next := NextTask(w, Job(true, 0, task), e);
            && Alone(w, ttlMs, i, 0) == Alone(w', ttlMs, i, 0)
            && w' == w1.(jobs := if next.Some? then map[0 := Job(true, 0, next.value)] else map[])
            && (next.None? ==> Alone(w', ttlMs, i, 0) == w')
  {
    var e := Next(i, 0, task);
    assert Step(w, ttlMs, e) == AfterAdvance(w, ttlMs, w.jobs[0], e);
    assert w.jobs - {0} == map[] && forall j :: w.jobs[0 := j] == map[0 := j];
  }

  /** What a step does to memo and rows depends on no more than them and the clock. */
  lemma SameEffect(w: World, v: World, ttlMs: nat, f: Effect, end: WriteEnd)
    requires w.memo == v.memo && w.sessions == v.sessions && w.now == v.now && !f.Creates?
    ensures var w', v' := Apply(w, ttlMs, true, f, end), Apply(v, ttlMs, true, f, end);
            w'.memo == v'.memo && w'.sessions == v'.sessions && w'.now == v'.now
  {
  }

  datatype SetEnd = Switched | CheckFailed | Forbidden | WriteThrew

  class ContextRuntime {
    const ttlMs: nat
    var memo: seq<Belief>
    var sessions: map<string, Session>

    /** The world one operation of this process sees, itself waiting at `task`. */
    ghost function View(now: int, task: Option<Task>): World reads this {
      World(now, sessions, sessions.Keys, memo, if task.Some? then map[0 := Job(true, 0, task.value)] else map[], [])
    }

    /** The fields are as this step of the run model leaves them. */
    ghost predicate Did(w: World, now: int, f: Effect, end: WriteEnd) reads this {
      var w' := Apply(w, ttlMs, true, f, end); memo == w'.memo && sessions == w'.sessions && w'.now == now
    }

    method Believe(user: User, context: Context, now: int)
      modifies this`memo
      ensures Did(old(View(now, None)), now, Believes(user, context), Updated)
      ensures ttlMs == 0 ==> memo == old(memo)
      ensures 0 < ttlMs ==> forall t :: Believed(memo, t, user, context) <==> t < now + ttlMs
      ensures forall b :: b in memo ==> b in old(memo) || About(b, user, context)
    {
      if ttlMs == 0 { return; }
      forall t
        ensures Believed(AfterBelieve(memo, ttlMs, now, user, context), t, user, context) <==> t < now + ttlMs
      {
        MemoAnswersForItsTtl(memo, ttlMs, now, user, context, t);
      }
      memo := Without(memo, user, context);
      if MEMO_MAX <= |memo| { memo := memo[1..]; }
      memo := memo + [Belief(user, context, now + ttlMs)];
    }

    /** Of one context, or of the user altogether. */
    method ForgetBeliefs(user: User, which: Option<Context>, now: int)
      modifies this`memo
      ensures Did(old(View(now, None)), now, Forgets(user, which), Updated)
      ensures forall b :: b in memo <==>
                b in old(memo) && !(b.user == user && (which.None? || which == Some(b.context)))
    {
      memo := if which.Some? then Without(memo, user, which.value) else WithoutUser(memo, user);
    }

    /** After `find`: does this read have to ask? */
    method AfterFind(s: Session, now: int) returns (asks: bool)
      ensures asks <==> !Needless(View(now, None), Job(true, 0, Found("", s)), s)
    {
      if s.context.None? || s.expiresAt <= now { return false; }
      var c := s.context.value;
      asks := !exists b :: b in memo && About(b, s.user, c) && now < b.until;
    }

    /** After `membership`, on a read: believe and be done, or forget and look for another context. */
    method AfterAnswer(token: string, s: Session, member: bool, now: int)
      requires s.context.Some?
      modifies this`memo
      ensures Did(old(View(now, None)), now, EffectOf(Told(token, s, member), No, None), Updated)
      ensures member && 0 < ttlMs ==> Believed(memo, now, s.user, s.context.value)
      ensures !member ==> forall b :: b in memo <==> b in old(memo) && !About(b, s.user, s.context.value)
    {
      if member { Believe(s.user, s.context.value, now); } else { ForgetBeliefs(s.user, s.context, now); }
    }

    /** After `initial` and `membership`: only what the port agreed to, and that believed. */
    method AfterProposal(p: Purpose, candidate: Option<Context>, answer: Answer, now: int)
      returns (choice: Option<Context>)
      modifies this`memo
      ensures NextTask(old(View(now, None)), Job(true, 0, Proposing(p)), Advance(0, answer, candidate, Updated))
              == Some(Proposed(p, choice))
      ensures choice == if answer.Yes? then candidate else None
      ensures choice.None? ==> memo == old(memo)
      ensures choice.Some? ==> forall b :: b in memo ==> b in old(memo) || About(b, UserOf(p), choice.value)
      ensures choice.Some? && 0 < ttlMs ==> Believed(memo, now, UserOf(p), choice.value)
      ensures Did(old(View(now, None)), now, EffectOf(Proposed(p, choice), No, None), Updated)
    {
      choice := if answer.Yes? then candidate else None;
      if choice.Some? { Believe(UserOf(p), choice.value, now); }
    }

    /** `updateSession`: the row, or nothing when there is none. */
    method UpdateSession(token: string, c: Option<Context>, end: WriteEnd, now: int) returns (updated: bool)
      modifies this`sessions
      ensures Did(old(View(now, None)), now, Writes(token, c), end)
      ensures updated <==> end.Updated? && token in old(sessions)
      ensures sessions == if Reaches(end) && token in old(sessions)
                          then old(sessions)[token := old(sessions)[token].(context := c)] else old(sessions)
    {
      updated := end.Updated? && token in sessions;
      if token in sessions && Reaches(end) { sessions := sessions[token := sessions[token].(context := c)]; }
    }

    /** After a set's write and its `reconcile`: believed only now, and only if the row was updated. */
    method AfterSetWrite(g: Setting, updated: bool, now: int)
      modifies this`memo
      ensures Did(old(View(now, None)), now, EffectOf(BelievingSet(g, updated), No, None), Updated)
      ensures g.next.Some? && updated && 0 < ttlMs ==> Believed(memo, now, g.user, g.next.value)
      ensures g.next.Some? && !updated ==> memo == old(memo)
      ensures g.next.None? ==> forall b :: b in memo <==>
                b in old(memo) && !(b.user == g.user && (g.previous.None? || g.previous == Some(b.context)))
    {
      ghost var f := EffectOf(BelievingSet(g, updated), No, None);
      if g.next.None? {
        assert f == Forgets(g.user, g.previous);
        ForgetBeliefs(g.user, g.previous, now);
      } else if updated {
        assert f == SessionContext.Effect.Believes(g.user, g.next.value);
        Believe(g.user, g.next.value, now);
      } else {
        assert f == Nothing;
      }
    }

    /** The memo and the rows are those of this world, in which one operation waits at `task`. */
    ghost predicate At(w: World, now: int, task: Task) reads this {
      memo == w.memo && sessions == w.sessions && w.now == now && w.jobs == map[0 := Job(true, 0, task)]
    }

    /** The memo and the rows are those the operation alone leaves. */
    ghost predicate Ends(w: World, i: Inputs) reads this {
      var w' := Alone(w, ttlMs, i, 0); memo == w'.memo && sessions == w'.sessions
    }

    /** The wrapped `findSession`, its steps in order. */
    method FindSession(token: string, i: Inputs, now: int) returns (r: Option<Session>)
      modifies this`memo, this`sessions
      ensures r.Some? <==> token in old(sessions)
      ensures r.None? ==> memo == old(memo) && sessions == old(sessions)
      ensures r.Some? ==> Ends(old(View(now, Some(Found(token, sessions[token])))), i)
      ensures r.Some? ==>
        var s := old(sessions)[token];
        var asked := !Needless(old(View(now, None)), Job(true, 0, Found(token, s)), s);
        r.value == if asked && i.answer.No? then s.(context := Chosen(i)) else s
      // What that comes to: a believed or a kept context touches no row; a lost one is replaced where the write
      // reaches, by nothing but what the port agreed to; and each yes is believed from now on, for the time to live.
      ensures r.Some? ==>
        var s := old(sessions)[token];
        var asked := !Needless(old(View(now, None)), Job(true, 0, Found(token, s)), s);
        && (asked && i.answer.No? && Reaches(i.end) ==> sessions == old(sessions)[token := s.(context := Chosen(i))])
        && (!(asked && i.answer.No? && Reaches(i.end)) ==> sessions == old(sessions))
        && (!asked || i.answer.Throws? ==> memo == old(memo))
        && (asked && i.answer.Yes? && 0 < ttlMs ==> Believed(memo, now, s.user, s.context.value))
        && (asked && i.answer.No? && Chosen(i) != s.context ==>
              forall b :: b in memo ==> !About(b, s.user, s.context.value))
        && (asked && i.answer.No? && Chosen(i).Some? && 0 < ttlMs ==> Believed(memo, now, s.user, Chosen(i).value))
    {
      if token !in sessions { return None; }
      var s := sessions[token];
      ghost var w := View(now, Some(Found(token, s)));
      AloneStep(w, ttlMs, i, Found(token, s));
      var asks := AfterFind(s, now);
      if !asks { return Some(s); }
      w := Step(w, ttlMs, Next(i, 0, Found(token, s)));
      AloneStep(w, ttlMs, i, Asking(token, s));
      if i.answer.Throws? { return Some(s); }
      w := Step(w, ttlMs, Next(i, 0, Asking(token, s)));
      var c := AnswerRead(token, s, i, now, w);
      r := Some(s.(context := c));
    }

    /** The rest of a read, from the port's answer on. */
    method AnswerRead(token: string, s: Session, i: Inputs, now: int, ghost w: World) returns (c: Option<Context>)
      requires s.context.Some? && !i.answer.Throws? && At(w, now, Told(token, s, i.answer.Yes?))
      modifies this`memo, this`sessions
      ensures Ends(w, i)
      ensures c == if i.answer.Yes? then s.context else Chosen(i)
      ensures sessions == if !i.answer.Yes? && Reaches(i.end) && token in old(sessions)
                          then old(sessions)[token := old(sessions)[token].(context := c)] else old(sessions)
      ensures i.answer.Yes? && 0 < ttlMs ==> Believed(memo, now, s.user, s.context.value)
      ensures i.answer.No? && c != s.context ==> forall b :: b in memo ==> !About(b, s.user, s.context.value)
      ensures i.answer.No? && c.Some? && 0 < ttlMs ==> Believed(memo, now, s.user, c.value)
    {
      var task := Told(token, s, i.answer.Yes?);
      AloneStep(w, ttlMs, i, task);
      SameEffect(View(now, None), w, ttlMs, EffectOf(task, No, None), Updated);
      AfterAnswer(token, s, i.answer.Yes?, now);
      if i.answer.Yes? { return s.context; }
      c := ReplaceContext(token, s, i, now, Step(w, ttlMs, Next(i, 0, task)));
    }

    /** The rest of a read that found its context lost. */
    method ReplaceContext(token: string, s: Session, i: Inputs, now: int, ghost w: World) returns (c: Option<Context>)
      requires At(w, now, Proposing(ForRead(token, s)))
      modifies this`memo, this`sessions
      ensures Ends(w, i)
      ensures c == Chosen(i)
      ensures sessions == if Reaches(i.end) && token in old(sessions)
                          then old(sessions)[token := old(sessions)[token].(context := c)] else old(sessions)
      ensures c.None? ==> memo == old(memo)
      ensures c.Some? ==> forall b :: b in memo ==> b in old(memo) || About(b, s.user, c.value)
      ensures c.Some? && 0 < ttlMs ==> Believed(memo, now, s.user, c.value)
    {
      var p := ForRead(token, s);
      AloneStep(w, ttlMs, i, Proposing(p));
      ghost var w1 := Step(w, ttlMs, Next(i, 0, Proposing(p)));
      ghost var view := View(now, None);
      c := AfterProposal(p, i.candidate, i.candidateAnswer, now);
      SameEffect(view, w1, ttlMs, EffectOf(Proposed(p, c), No, None), Updated);
      AloneStep(w1, ttlMs, i, Proposed(p, c));
      WriteReplacement(token, s, c, i, now, Step(w1, ttlMs, Next(i, 0, Proposed(p, c))));
    }

    method WriteReplacement(token: string, s: Session, c: Option<Context>, i: Inputs, now: int, ghost w: World)
      requires At(w, now, Writing(ForRead(token, s), c))
      modifies this`sessions
      ensures Ends(w, i)
      ensures sessions == if Reaches(i.end) && token in old(sessions)
                          then old(sessions)[token := old(sessions)[token].(context := c)] else old(sessions)
    {
      AloneStep(w, ttlMs, i, Writing(ForRead(token, s), c));
      SameEffect(View(now, None), w, ttlMs, Writes(token, c), i.end);
      var updated := UpdateSession(token, c, i.end, now);
    }

    /** The set endpoint, its steps in order: the port is asked first, and only a yes is written, then believed. */
    method SetContext(token: string, next: Option<Context>, i: Inputs, now: int) returns (r: SetEnd)
      requires token in sessions
      modifies this`memo, this`sessions
      ensures r.CheckFailed? <==> next.Some? && i.answer.Throws?
      ensures r.Forbidden? <==> next.Some? && i.answer.No?
      ensures r.CheckFailed? || r.Forbidden? ==> memo == old(memo) && sessions == old(sessions)
      ensures r.WriteThrew? <==> (next.None? || i.answer.Yes?) && i.end.Threw?
      ensures r.Switched? && i.end.Updated? ==>
        && sessions == old(sessions)[token := old(sessions)[token].(context := next)]
        && (next.Some? && 0 < ttlMs ==> Believed(memo, now, old(sessions)[token].user, next.value))
      ensures r.Switched? && next.None? ==> forall b :: b in memo ==>
        b.user != old(sessions)[token].user ||
        (old(sessions)[token].context.Some? && old(sessions)[token].context != Some(b.context))
      ensures r.Switched? && i.end.NotFound? ==> sessions == old(sessions)
      ensures var g := Setting(token, old(sessions)[token].user, old(sessions)[token].context, next);
              Ends(old(View(now, Some(if next.Some? then AskingToSet(g) else WritingSet(g)))), i)
    {
      var g := Setting(token, sessions[token].user, sessions[token].context, next);
      ghost var w := View(now, Some(if next.Some? then AskingToSet(g) else WritingSet(g)));
      if next.Some? {
        AloneStep(w, ttlMs, i, AskingToSet(g));
        if i.answer.Throws? { return CheckFailed; }
        if i.answer.No? { return Forbidden; }
        w := Step(w, ttlMs, Next(i, 0, AskingToSet(g)));
      }
      var threw := WriteSetting(g, i, now, w);
      r := if threw then WriteThrew else Switched;
    }

    /** The rest of a set, from the port's yes on. */
    method WriteSetting(g: Setting, i: Inputs, now: int, ghost w: World) returns (threw: bool)
      requires At(w, now, WritingSet(g))
      modifies this`memo, this`sessions
      ensures Ends(w, i) && (threw <==> i.end.Threw?)
      ensures sessions == if Reaches(i.end) && g.token in old(sessions)
                          then old(sessions)[g.token := old(sessions)[g.token].(context := g.next)] else old(sessions)
      ensures threw ==> memo == old(memo)
      ensures !threw && g.next.Some? && i.end.Updated? && g.token in old(sessions) && 0 < ttlMs ==>
                Believed(memo, now, g.user, g.next.value)
      ensures !threw && g.next.None? ==> forall b :: b in memo <==>
                b in old(memo) && !(b.user == g.user && (g.previous.None? || g.previous == Some(b.context)))
    {
      AloneStep(w, ttlMs, i, WritingSet(g));
      SameEffect(View(now, None), w, ttlMs, Writes(g.token, g.next), i.end);
      var updated := UpdateSession(g.token, g.next, i.end, now);
      if i.end.Threw? { return true; }
      ghost var w1 := Step(w, ttlMs, Next(i, 0, WritingSet(g)));
      AloneStep(w1, ttlMs, i, BelievingSet(g, updated));
      SameEffect(View(now, None), w1, ttlMs, EffectOf(BelievingSet(g, updated), No, None), Updated);
      AfterSetWrite(g, updated, now);
      return false;
    }

    /** At most a batch of the rows asked for, in whatever order the database likes. */
    method FindMany(context: Context, who: Option<User>) returns (batch: seq<string>, ghost ids: set<string>)
      ensures forall t :: t in batch <==> t in ids
      ensures ids <= HoldingIn(sessions, context, who)
      ensures |batch| == |ids| == Min(BATCH, |HoldingIn(sessions, context, who)|)
    {
      var todo := HoldingIn(sessions, context, who);
      ghost var all := todo;
      batch := [];
      while todo != {} && |batch| < BATCH
        invariant todo <= all && |batch| <= BATCH && |all| == |todo| + |batch|
        invariant forall t :: t in batch <==> t in all && t !in todo
        decreases todo
      {
        var t :| t in todo;
        todo := todo - {t};
        batch := batch + [t];
      }
      ids := all - todo;
    }

    /** A row that was seen before is left alone; `stuck` says a row's write does not take. */
    method ClearOne(token: string, context: Context, stuck: string -> bool, seen0: set<string>, cleared0: nat,
                    ghost was: map<string, Session>, ghost before: seq<Belief>)
      returns (seen: set<string>, cleared: nat)
      requires ClearedSoFar(was, sessions, stuck, seen0) && ForgottenSoFar(was, before, memo, context, seen0)
      requires cleared0 == |seen0| && token in was
      modifies this`sessions, this`memo
      ensures ClearedSoFar(was, sessions, stuck, seen) && ForgottenSoFar(was, before, memo, context, seen)
      ensures cleared == |seen| && seen == seen0 + {token}
    {
      if token in seen0 { return seen0, cleared0; }
      ClearedOneMore(was, sessions, stuck, seen0, token);
      ForgottenOneMore(was, before, memo, context, seen0, token);
      var s := sessions[token];
      if !stuck(token) { sessions := sessions[token := s.(context := None)]; }
      memo := Without(memo, s.user, context);
      return seen0 + {token}, cleared0 + 1;
    }

    method ClearBatch(context: Context, batch: seq<string>, stuck: string -> bool, seen0: set<string>, cleared0: nat,
                      ghost ids: set<string>, ghost was: map<string, Session>, ghost before: seq<Belief>)
      returns (seen: set<string>, cleared: nat)
      requires ClearedSoFar(was, sessions, stuck, seen0) && ForgottenSoFar(was, before, memo, context, seen0)
      requires cleared0 == |seen0| && (forall t :: t in batch <==> t in ids) && ids <= was.Keys
      modifies this`sessions, this`memo
      ensures ClearedSoFar(was, sessions, stuck, seen) && ForgottenSoFar(was, before, memo, context, seen)
      ensures cleared == |seen| && seen == seen0 + ids
    {
      seen, cleared := seen0, cleared0;
      var i := 0;
      while i < |batch|
        invariant 0 <= i <= |batch| && cleared == |seen| && seen0 <= seen <= seen0 + ids
        invariant forall j :: 0 <= j < i ==> batch[j] in seen
        invariant ClearedSoFar(was, sessions, stuck, seen) && ForgottenSoFar(was, before, memo, context, seen)
      {
        seen, cleared := ClearOne(batch[i], context, stuck, seen, cleared, was, before);
        i := i + 1;
      }
    }

    /**
     * `clearContextSessions`: ends even when some rows never change, and touches nothing else. If fewer than
     * a batch of them are stuck, every other row is cleared and every belief forgotten, each row counted once.
     */
    method ClearContextSessions(context: Context, who: Option<User>, stuck: string -> bool)
      returns (cleared: nat, ghost tried: set<string>)
      modifies this`sessions, this`memo
      ensures tried <= HoldingIn(old(sessions), context, who) && cleared == |tried|
      ensures ClearedSoFar(old(sessions), sessions, stuck, tried)
      ensures ForgottenSoFar(old(sessions), old(memo), memo, context, tried)
      ensures var all := HoldingIn(old(sessions), context, who);
              var stuckOnes := set t | t in all && stuck(t);
              |stuckOnes| < 500 ==> tried == all && HoldingIn(sessions, context, who) == stuckOnes
      ensures forall t :: t in old(sessions) && sessions[t] != old(sessions)[t] ==>
        && old(sessions)[t].context == Some(context) && (who.Some? ==> old(sessions)[t].user == who.value)
        && sessions[t] == old(sessions)[t].(context := None)
      ensures (forall t :: !stuck(t)) ==> forall t :: t in sessions && (who.Some? ==> sessions[t].user == who.value) ==>
        sessions[t].context != Some(context)
    {
      ghost var was, before := sessions, memo;
      ghost var all := HoldingIn(was, context, who);
      var seen: set<string> := {};
      cleared := 0;
      while true
        invariant seen <= all && cleared == |seen|
        invariant ClearedSoFar(was, sessions, stuck, seen) && ForgottenSoFar(was, before, memo, context, seen)
        decreases all - seen
      {
        StillHolding(was, sessions, context, who, stuck, seen);
        var batch, ids := FindMany(context, who);
        if forall t :: t in batch ==> t in seen {
          LastBatch(all, HoldingIn(sessions, context, who), seen, ids, stuck);
          tried := seen;
          if forall t :: !stuck(t) { NoneStuck(all, HoldingIn(sessions, context, who), stuck); }
          return;
        }
        seen, cleared := ClearBatch(context, batch, stuck, seen, cleared, ids, was, before);
      }
    }
  }
}
