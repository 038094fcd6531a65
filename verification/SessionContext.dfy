/**
 * The active context of a session (packages/identity/src/context.ts): what sets it, what a read returns, and the
 * per-process memo of memberships. An operation is cut at its awaits: between any two of its steps everything else
 * may happen, clears, other operations, other processes. The membership port answers as it likes. Times are
 * milliseconds; a context is taken as well formed (a UUID) or absent.
 */
module SessionContext {
  import opened Common

  type User = string
  type Context = string

  const MEMO_MAX := 10000

  /** What the membership port says when asked. */
  datatype Answer = Yes | No | Throws

  /** "Believed a member": the memo keeps them in the order they were set. */
  datatype Belief = Belief(user: User, context: Context, until: int)

  predicate About(b: Belief, user: User, context: Context) { b.user == user && b.context == context }

  function Without(memo: seq<Belief>, user: User, context: Context): (r: seq<Belief>)
    ensures forall b :: b in r <==> b in memo && !About(b, user, context)
    ensures |r| <= |memo|
  {
    if memo == [] then []
    else (if About(memo[0], user, context) then [] else [memo[0]]) + Without(memo[1..], user, context)
  }

  /** Every belief about one user forgotten. */
  function WithoutUser(memo: seq<Belief>, user: User): (r: seq<Belief>)
    ensures forall b :: b in r <==> b in memo && b.user != user
    ensures |r| <= |memo|
  {
    if memo == [] then [] else (if memo[0].user == user then [] else [memo[0]]) + WithoutUser(memo[1..], user)
  }

  /** Set anew, last; a full memo drops its oldest entry. */
  function AfterBelieve(memo: seq<Belief>, ttlMs: nat, now: int, user: User, context: Context): seq<Belief> {
    if ttlMs == 0 then memo
    else
      var rest := Without(memo, user, context);
      (if MEMO_MAX <= |rest| then rest[1..] else rest) + [Belief(user, context, now + ttlMs)]
  }

  predicate Believed(memo: seq<Belief>, now: int, user: User, context: Context) {
    exists b :: b in memo && About(b, user, context) && now < b.until
  }

  datatype Session = Session(user: User, context: Option<Context>, expiresAt: int)

  /** One yes of the port. */
  datatype Approval = Approval(user: User, context: Context, at: int)

  /** How a write of a session row goes; one that throws may have reached the row or not. */
  datatype WriteEnd = Updated | NotFound | Threw(wrote: bool)

  predicate Reaches(end: WriteEnd) { end.Updated? || (end.Threw? && end.wrote) }

  /** What a fallback is for: to replace the context a read found lost, or to start a session with. */
  datatype Purpose = ForRead(token: string, s: Session) | ForCreate(token: string, user: User, expiresAt: int)

  function UserOf(p: Purpose): User { if p.ForRead? then p.s.user else p.user }

  /** A call of the set endpoint: the session it is for, what that held when the call came, what it is to hold. */
  datatype Setting = Setting(token: string, user: User, previous: Option<Context>, next: Option<Context>)

  /** Where an operation waits. */
  datatype Task =
    | Found(token: string, s: Session)                         // a read, the row just loaded
    | Asking(token: string, s: Session)                        // `membership` has been asked
    | Told(token: string, s: Session, member: bool)            // it has answered
    | Proposing(p: Purpose)                                    // `initial`, then `membership`, have been asked
    | Proposed(p: Purpose, choice: Option<Context>)            // they have answered
    | Writing(p: Purpose, choice: Option<Context>)             // the row is being written
    | AskingToSet(g: Setting)                                  // a set, `membership` has been asked
    | WritingSet(g: Setting)                                   // the row is being written
    | BelievingSet(g: Setting, updated: bool)                  // it was written; `reconcile` is running

  /** `here`: in the process whose memo this is. `since`: how many yeses the port had given when it began. */
  datatype Job = Job(here: bool, since: nat, task: Task)

  /** `used` are the tokens there ever were; `approved` is the history of the port's yeses. */
  datatype World = World(now: int, sessions: map<string, Session>, used: set<string>, memo: seq<Belief>,
                         jobs: map<nat, Job>, approved: seq<Approval>)

  /** `Advance` takes an operation to its next await, on the answers it then gets. A clear's write and its forget are
      two steps, and the row is written whatever it holds by then. */
  datatype Event =
    | Tick(to: int)
    | StartRead(id: nat, here: bool, token: string)
    | StartCreate(id: nat, here: bool, token: string, user: User, expiresAt: int)
    | StartSet(id: nat, here: bool, token: string, next: Option<Context>)
    | Advance(id: nat, answer: Answer, candidate: Option<Context>, end: WriteEnd)
    | ClearRow(token: string)
    | Forget(user: User, context: Context)
    | EndSession(token: string)

  /** What one step of an operation does to the rest of the world. */
  datatype Effect =
    | Nothing
    | Approves(user: User, c: Context)
    | Believes(user: User, c: Context)
    | Forgets(user: User, which: Option<Context>)
    | Writes(token: string, row: Option<Context>)
    | Creates(token: string, user: User, row: Option<Context>, expiresAt: int)

  function Approve(w: World, user: User, c: Context): World {
    w.(approved := w.approved + [Approval(user, c, w.now)])
  }

  /** Forgetting no context in particular forgets them all. Another process has its own memo. */
  function Apply(w: World, ttlMs: nat, here: bool, f: Effect, end: WriteEnd): World {
    match f
    case Nothing => w
    case Approves(user, c) => Approve(w, user, c)
    case Believes(user, c) => if here then w.(memo := AfterBelieve(w.memo, ttlMs, w.now, user, c)) else w
    case Forgets(user, which) =>
      if !here then w
      else w.(memo := if which.Some? then Without(w.memo, user, which.value) else WithoutUser(w.memo, user))
    case Writes(token, c) =>
      if token in w.sessions && Reaches(end)
      then w.(sessions := w.sessions[token := w.sessions[token].(context := c)]) else w
    case Creates(token, user, c, expiresAt) =>
      if token in w.used || !Reaches(end) then w
      else w.(sessions := w.sessions[token := Session(user, c, expiresAt)], used := w.used + {token})
  }

  /** No question is asked about a session without a context, one that has expired, or one believed. */
  predicate Needless(w: World, j: Job, s: Session) {
    s.context.None? || s.expiresAt <= w.now || (j.here && Believed(w.memo, w.now, s.user, s.context.value))
  }

  /** Where the operation waits next; nowhere when it has ended. */
  function NextTask(w: World, j: Job, e: Event): Option<Task>
    requires e.Advance?
  {
    match j.task
    case Found(token, s) => if Needless(w, j, s) then None else Some(Asking(token, s))
    case Asking(token, s) => if e.answer.Throws? then None else Some(Told(token, s, e.answer.Yes?))
    case Told(token, s, member) => if member then None else Some(Proposing(ForRead(token, s)))
    case Proposing(p) => Some(Proposed(p, if e.answer.Yes? then e.candidate else None))
    case Proposed(p, choice) => Some(Writing(p, choice))
    case Writing(_, _) => None
    case AskingToSet(g) => if e.answer.Yes? then Some(WritingSet(g)) else None
    case WritingSet(g) =>
      if e.end.Threw? then None else Some(BelievingSet(g, e.end.Updated? && g.token in w.sessions))
    case BelievingSet(_, _) => None
  }

  function EffectOf(task: Task, answer: Answer, candidate: Option<Context>): Effect {
    match task
    case Found(_, _) => Nothing
    case Asking(_, s) => if answer.Yes? && s.context.Some? then Approves(s.user, s.context.value) else Nothing
    case Told(_, s, member) =>
      if s.context.None? then Nothing
      else if member then Believes(s.user, s.context.value) else Forgets(s.user, s.context)
    case Proposing(p) =>
      if answer.Yes? && candidate.Some? then Approves(UserOf(p), candidate.value) else Nothing
    case Proposed(p, choice) => if choice.Some? then Believes(UserOf(p), choice.value) else Nothing
    case Writing(p, choice) =>
      if p.ForRead? then Writes(p.token, choice) else Creates(p.token, p.user, choice, p.expiresAt)
    case AskingToSet(g) => if answer.Yes? && g.next.Some? then Approves(g.user, g.next.value) else Nothing
    case WritingSet(g) => Writes(g.token, g.next)
    case BelievingSet(g, updated) =>
      if g.next.None? then Forgets(g.user, g.previous)
      else if updated then Believes(g.user, g.next.value) else Nothing
  }

  function AfterAdvance(w: World, ttlMs: nat, j: Job, e: Event): World
    requires e.Advance?
  {
    var next := NextTask(w, j, e);
    var w1 := Apply(w, ttlMs, j.here, EffectOf(j.task, e.answer, e.candidate), e.end);
    w1.(jobs := if next.Some? then w.jobs[e.id := j.(task := next.value)] else w.jobs - {e.id})
  }

  function Start(w: World, id: nat, here: bool, task: Task): World {
    if id in w.jobs then w else w.(jobs := w.jobs[id := Job(here, |w.approved|, task)])
  }

  function Step(w: World, ttlMs: nat, e: Event): World {
    match e
    case Tick(to) => w.(now := Max(w.now, to))
    case StartRead(id, here, token) =>
      if token in w.sessions then Start(w, id, here, Found(token, w.sessions[token])) else w
    case StartCreate(id, here, token, user, expiresAt) =>
      Start(w, id, here, Proposing(ForCreate(token, user, expiresAt)))
    case StartSet(id, here, token, next) =>
      if token !in w.sessions then w
      else
        var g := Setting(token, w.sessions[token].user, w.sessions[token].context, next);
        Start(w, id, here, if next.Some? then AskingToSet(g) else WritingSet(g))
    case Advance(id, _, _, _) => if id in w.jobs then AfterAdvance(w, ttlMs, w.jobs[id], e) else w
    case ClearRow(token) => Apply(w, ttlMs, true, Writes(token, None), Updated)
    case Forget(user, context) => Apply(w, ttlMs, true, Forgets(user, Some(context)), Updated)
    case EndSession(token) => w.(sessions := w.sessions - {token})
  }

  function Play(w: World, ttlMs: nat, es: seq<Event>): World
    decreases |es|
  {
    if es == [] then w else Play(Step(w, ttlMs, es[0]), ttlMs, es[1..])
  }

  // ---- what every step keeps ----

  predicate IsFor(a: Approval, user: User, c: Context) { a.user == user && a.context == c }

  /** The port said yes to this user and context, after it had said yes `since` times. */
  ghost predicate Approved(w: World, since: nat, user: User, c: Context) {
    exists i :: since <= i < |w.approved| && IsFor(w.approved[i], user, c)
  }

  /** The token is a known one, and while its session lives it is this user's. */
  predicate OwnRow(w: World, token: string, user: User) {
    token in w.used && (token in w.sessions ==> w.sessions[token].user == user)
  }

  ghost predicate ForOwn(w: World, p: Purpose) { p.ForRead? ==> OwnRow(w, p.token, p.s.user) }

  ghost predicate ApprovedIfSome(w: World, since: nat, user: User, c: Option<Context>) {
    c.Some? ==> Approved(w, since, user, c.value)
  }

  /** What an operation carries was approved for its user since it began. */
  ghost predicate JobOk(w: World, j: Job) {
    match j.task
    case Found(token, s) => OwnRow(w, token, s.user)
    case Asking(token, s) => OwnRow(w, token, s.user) && s.context.Some?
    case Told(token, s, member) =>
      OwnRow(w, token, s.user) && s.context.Some? && (member ==> ApprovedIfSome(w, j.since, s.user, s.context))
    case Proposing(p) => ForOwn(w, p)
    case Proposed(p, choice) => ForOwn(w, p) && ApprovedIfSome(w, j.since, UserOf(p), choice)
    case Writing(p, choice) => ForOwn(w, p) && ApprovedIfSome(w, j.since, UserOf(p), choice)
    case AskingToSet(g) => OwnRow(w, g.token, g.user) && g.next.Some?
    case WritingSet(g) => OwnRow(w, g.token, g.user) && ApprovedIfSome(w, j.since, g.user, g.next)
    case BelievingSet(g, _) => OwnRow(w, g.token, g.user) && ApprovedIfSome(w, j.since, g.user, g.next)
  }

  /** A belief rests on a yes given no later than it was set. */
  ghost predicate Backed(w: World, b: Belief, ttlMs: nat) {
    exists i :: 0 <= i < |w.approved| && IsFor(w.approved[i], b.user, b.context) && w.approved[i].at <= b.until - ttlMs
  }

  ghost predicate MemoOk(w: World, ttlMs: nat) {
    && |w.memo| <= MEMO_MAX
    && forall b :: b in w.memo ==> b.until - ttlMs <= w.now && Backed(w, b, ttlMs)
  }

  ghost predicate Inv(w: World, ttlMs: nat) {
    && w.sessions.Keys <= w.used
    && (forall i :: 0 <= i < |w.approved| ==> w.approved[i].at <= w.now)
    && (forall id :: id in w.jobs ==> w.jobs[id].since <= |w.approved| && JobOk(w, w.jobs[id]))
    && MemoOk(w, ttlMs)
  }

  /** Time and the history only grow, and a token that was used stays gone, or its user's. */
  ghost predicate Grows(w: World, w': World) {
    && w.now <= w'.now && w.approved <= w'.approved && w.used <= w'.used
    && forall t :: t in w.used && t in w'.sessions ==> t in w.sessions && w'.sessions[t].user == w.sessions[t].user
  }

  lemma ApplyGrows(w: World, ttlMs: nat, here: bool, f: Effect, end: WriteEnd)
    requires w.sessions.Keys <= w.used
    ensures var w' := Apply(w, ttlMs, here, f, end); Grows(w, w') && w'.sessions.Keys <= w'.used && w'.now == w.now
  {
  }

  lemma StepGrows(w: World, ttlMs: nat, e: Event)
    requires w.sessions.Keys <= w.used
    ensures Grows(w, Step(w, ttlMs, e)) && Step(w, ttlMs, e).sessions.Keys <= Step(w, ttlMs, e).used
  {
    match e
    case Advance(id, answer, candidate, end) =>
      if id in w.jobs { ApplyGrows(w, ttlMs, w.jobs[id].here, EffectOf(w.jobs[id].task, answer, candidate), end); }
    case ClearRow(token) => ApplyGrows(w, ttlMs, true, Writes(token, None), Updated);
    case Forget(user, c) => ApplyGrows(w, ttlMs, true, Forgets(user, Some(c)), Updated);
    case _ =>
  }

  lemma {:induction false} PlayGrows(w: World, ttlMs: nat, es: seq<Event>)
    requires w.sessions.Keys <= w.used
    ensures Grows(w, Play(w, ttlMs, es))
    decreases |es|
  {
    if es != [] {
      StepGrows(w, ttlMs, es[0]);
      PlayGrows(Step(w, ttlMs, es[0]), ttlMs, es[1..]);
    }
  }

  lemma ApprovedStays(w: World, w': World, since: nat, user: User, c: Context)
    requires w.approved <= w'.approved && Approved(w, since, user, c)
    ensures Approved(w', since, user, c)
  {
    var i :| since <= i < |w.approved| && IsFor(w.approved[i], user, c);
    assert w'.approved[i] == w.approved[i];
  }

  lemma ApprovedIfSomeStays(w: World, w': World, since: nat, user: User, c: Option<Context>)
    requires w.approved <= w'.approved && ApprovedIfSome(w, since, user, c)
    ensures ApprovedIfSome(w', since, user, c)
  {
    if c.Some? { ApprovedStays(w, w', since, user, c.value); }
  }

  lemma JobStaysOk(w: World, w': World, j: Job)
    requires Grows(w, w') && JobOk(w, j)
    ensures JobOk(w', j)
  {
    match j.task
    case Told(_, s, member) => if member { ApprovedIfSomeStays(w, w', j.since, s.user, s.context); }
    case Proposed(p, choice) => ApprovedIfSomeStays(w, w', j.since, UserOf(p), choice);
    case Writing(p, choice) => ApprovedIfSomeStays(w, w', j.since, UserOf(p), choice);
    case WritingSet(g) => ApprovedIfSomeStays(w, w', j.since, g.user, g.next);
    case BelievingSet(g, _) => ApprovedIfSomeStays(w, w', j.since, g.user, g.next);
    case _ =>
  }

  /** The port's yes is there for the operation that got it. */
  lemma JustApproved(w: World, since: nat, user: User, c: Context)
    requires since <= |w.approved|
    ensures Approved(Approve(w, user, c), since, user, c)
  {
    assert IsFor(Approve(w, user, c).approved[|w.approved|], user, c);
  }

  /** An operation that moves on is in order where it waits next. */
  lemma NextTaskOk(w: World, w': World, j: Job, e: Event)
    requires e.Advance? && Grows(w, w') && JobOk(w, j) && j.since <= |w.approved| && NextTask(w, j, e).Some?
    requires var f := EffectOf(j.task, e.answer, e.candidate);
             f.Approves? ==> Approved(w', j.since, f.user, f.c)
    ensures JobOk(w', j.(task := NextTask(w, j, e).value))
  {
    JobStaysOk(w, w', j);
  }

  lemma AdvancedJobOk(w: World, ttlMs: nat, e: Event)
    requires Inv(w, ttlMs) && e.Advance? && e.id in w.jobs && NextTask(w, w.jobs[e.id], e).Some?
    ensures JobOk(AfterAdvance(w, ttlMs, w.jobs[e.id], e), w.jobs[e.id].(task := NextTask(w, w.jobs[e.id], e).value))
  {
    var j, w' := w.jobs[e.id], AfterAdvance(w, ttlMs, w.jobs[e.id], e);
    var f := EffectOf(j.task, e.answer, e.candidate);
    ApplyGrows(w, ttlMs, j.here, f, e.end);
    if f.Approves? {
      JustApproved(w, j.since, f.user, f.c);
      ApprovedStays(Approve(w, f.user, f.c), w', j.since, f.user, f.c);
    }
    NextTaskOk(w, w', j, e);
  }

  /** The job an event is about. */
  predicate AboutJob(e: Event, id: nat) {
    match e
    case StartRead(id', _, _) => id' == id
    case StartCreate(id', _, _, _, _) => id' == id
    case StartSet(id', _, _, _) => id' == id
    case Advance(id', _, _, _) => id' == id
    case _ => false
  }

  lemma OtherJobsWait(w: World, ttlMs: nat, e: Event, id: nat)
    requires !AboutJob(e, id)
    ensures id in Step(w, ttlMs, e).jobs <==> id in w.jobs
    ensures id in w.jobs ==> Step(w, ttlMs, e).jobs[id] == w.jobs[id]
  {
  }

  lemma ItsJobOk(w: World, ttlMs: nat, e: Event, id: nat)
    requires Inv(w, ttlMs) && AboutJob(e, id) && id in Step(w, ttlMs, e).jobs
    ensures var w' := Step(w, ttlMs, e); w'.jobs[id].since <= |w'.approved| && JobOk(w', w'.jobs[id])
  {
    if e.Advance? { AdvancedJobOk(w, ttlMs, e); }
  }

  lemma StepKeepsJob(w: World, ttlMs: nat, e: Event, id: nat)
    requires Inv(w, ttlMs) && id in Step(w, ttlMs, e).jobs
    ensures var w' := Step(w, ttlMs, e); w'.jobs[id].since <= |w'.approved| && JobOk(w', w'.jobs[id])
  {
    if AboutJob(e, id) {
      ItsJobOk(w, ttlMs, e, id);
    } else {
      OtherJobsWait(w, ttlMs, e, id);
      StepGrows(w, ttlMs, e);
      JobStaysOk(w, Step(w, ttlMs, e), w.jobs[id]);
    }
  }

  // ---- the memo ----

  lemma BackedStays(w: World, w': World, b: Belief, ttlMs: nat)
    requires w.approved <= w'.approved && Backed(w, b, ttlMs)
    ensures Backed(w', b, ttlMs)
  {
    var i :| 0 <= i < |w.approved| && IsFor(w.approved[i], b.user, b.context) && w.approved[i].at <= b.until - ttlMs;
    assert w'.approved[i] == w.approved[i];
  }

  lemma BelievingKeepsMemo(w: World, ttlMs: nat, here: bool, user: User, c: Context, end: WriteEnd)
    requires Inv(w, ttlMs) && Approved(w, 0, user, c)
    ensures MemoOk(Apply(w, ttlMs, here, Believes(user, c), end), ttlMs)
  {
    var w' := Apply(w, ttlMs, here, Believes(user, c), end);
    if here && ttlMs != 0 {
      var i :| 0 <= i < |w.approved| && IsFor(w.approved[i], user, c);
      assert w'.approved[i].at <= w.now;
      assert Backed(w', Belief(user, c, w.now + ttlMs), ttlMs);
    }
    forall b | b in w'.memo
      ensures b.until - ttlMs <= w'.now && Backed(w', b, ttlMs)
    {
      if b in w.memo { BackedStays(w, w', b, ttlMs); }
    }
  }

  lemma FewerBeliefsOk(w: World, w': World, ttlMs: nat)
    requires MemoOk(w, ttlMs) && w.approved <= w'.approved && w.now <= w'.now
    requires |w'.memo| <= |w.memo| && forall b :: b in w'.memo ==> b in w.memo
    ensures MemoOk(w', ttlMs)
  {
    forall b | b in w'.memo
      ensures b.until - ttlMs <= w'.now && Backed(w', b, ttlMs)
    {
      BackedStays(w, w', b, ttlMs);
    }
  }

  lemma ApplyKeepsMemo(w: World, ttlMs: nat, here: bool, f: Effect, end: WriteEnd)
    requires Inv(w, ttlMs) && (f.Believes? ==> Approved(w, 0, f.user, f.c))
    ensures MemoOk(Apply(w, ttlMs, here, f, end), ttlMs)
  {
    if f.Believes? {
      BelievingKeepsMemo(w, ttlMs, here, f.user, f.c, end);
    } else {
      FewerBeliefsOk(w, Apply(w, ttlMs, here, f, end), ttlMs);
    }
  }

  /** What an operation believes or writes was approved, for the user it acts for, since it began. */
  lemma EffectIsApproved(w: World, j: Job, answer: Answer, candidate: Option<Context>)
    requires JobOk(w, j)
    ensures var f := EffectOf(j.task, answer, candidate);
            && (f.Believes? ==> Approved(w, j.since, f.user, f.c))
            && (f.Creates? ==> ApprovedIfSome(w, j.since, f.user, f.row))
            && (f.Writes? && f.token in w.sessions ==> ApprovedIfSome(w, j.since, w.sessions[f.token].user, f.row))
  {
  }

  lemma SameMemoOk(w: World, w': World, ttlMs: nat)
    requires MemoOk(w, ttlMs) && w'.approved == w.approved && w'.now == w.now && w'.memo == w.memo
    ensures MemoOk(w', ttlMs)
  {
    FewerBeliefsOk(w, w', ttlMs);
  }

  lemma AdvanceKeepsMemo(w: World, ttlMs: nat, e: Event)
    requires Inv(w, ttlMs) && e.Advance? && e.id in w.jobs
    ensures MemoOk(AfterAdvance(w, ttlMs, w.jobs[e.id], e), ttlMs)
  {
    var j := w.jobs[e.id];
    var f := EffectOf(j.task, e.answer, e.candidate);
    EffectIsApproved(w, j, e.answer, e.candidate);
    ApplyKeepsMemo(w, ttlMs, j.here, f, e.end);
    SameMemoOk(Apply(w, ttlMs, j.here, f, e.end), AfterAdvance(w, ttlMs, j, e), ttlMs);
  }

  lemma StepKeepsMemo(w: World, ttlMs: nat, e: Event)
    requires Inv(w, ttlMs)
    ensures MemoOk(Step(w, ttlMs, e), ttlMs)
  {
    match e
    case Advance(id, _, _, _) => if id in w.jobs { AdvanceKeepsMemo(w, ttlMs, e); }
    case ClearRow(token) => ApplyKeepsMemo(w, ttlMs, true, Writes(token, None), Updated);
    case Forget(user, c) => ApplyKeepsMemo(w, ttlMs, true, Forgets(user, Some(c)), Updated);
    case _ => FewerBeliefsOk(w, Step(w, ttlMs, e), ttlMs);
  }

  lemma StepKeepsInv(w: World, ttlMs: nat, e: Event)
    requires Inv(w, ttlMs)
    ensures Inv(Step(w, ttlMs, e), ttlMs) && Grows(w, Step(w, ttlMs, e))
  {
    var w' := Step(w, ttlMs, e);
    StepGrows(w, ttlMs, e);
    StepKeepsTimes(w, ttlMs, e);
    StepKeepsMemo(w, ttlMs, e);
    forall id | id in w'.jobs
      ensures w'.jobs[id].since <= |w'.approved| && JobOk(w', w'.jobs[id])
    {
      StepKeepsJob(w, ttlMs, e, id);
    }
  }

  lemma StepKeepsTimes(w: World, ttlMs: nat, e: Event)
    requires Inv(w, ttlMs)
    ensures var w' := Step(w, ttlMs, e); forall i :: 0 <= i < |w'.approved| ==> w'.approved[i].at <= w'.now
  {
  }

  lemma {:induction false} PlayKeepsInv(w: World, ttlMs: nat, es: seq<Event>)
    requires Inv(w, ttlMs)
    ensures Inv(Play(w, ttlMs, es), ttlMs) && Grows(w, Play(w, ttlMs, es))
    decreases |es|
  {
    PlayGrows(w, ttlMs, es);
    if es != [] {
      StepKeepsInv(w, ttlMs, es[0]);
      PlayKeepsInv(Step(w, ttlMs, es[0]), ttlMs, es[1..]);
    }
  }

  /** Nothing believed, asked or under way; the sessions may hold any contexts. */
  predicate Begins(w: World) { w.memo == [] && w.jobs == map[] && w.approved == [] && w.sessions.Keys <= w.used }

  // ---- what is written, and what is read ----

  /** Every context a step writes on a session was approved for its user since the writing operation began. */
  lemma WritesAreApproved(w: World, ttlMs: nat, e: Event, token: string)
    requires Inv(w, ttlMs) && token in Step(w, ttlMs, e).sessions
    requires Step(w, ttlMs, e).sessions[token].context.Some?
    requires token in w.sessions ==> w.sessions[token].context != Step(w, ttlMs, e).sessions[token].context
    ensures var w' := Step(w, ttlMs, e);
            && e.Advance? && e.id in w.jobs
            && Approved(w', w.jobs[e.id].since, w'.sessions[token].user, w'.sessions[token].context.value)
  {
    var w' := Step(w, ttlMs, e);
    if e.Advance? && e.id in w.jobs {
      var j := w.jobs[e.id];
      EffectIsApproved(w, j, e.answer, e.candidate);
      ApprovedStays(w, w', j.since, w'.sessions[token].user, w'.sessions[token].context.value);
    }
  }

  /** A session holds what it held at first, or what was approved for its user. */
  ghost predicate HeldOk(w0: World, w: World) {
    forall t :: t in w.sessions && w.sessions[t].context.Some? ==>
      || (t in w0.sessions && w0.sessions[t].context == w.sessions[t].context)
      || Approved(w, 0, w.sessions[t].user, w.sessions[t].context.value)
  }

  lemma StepKeepsHeld(w0: World, w: World, ttlMs: nat, e: Event)
    requires Inv(w, ttlMs) && HeldOk(w0, w)
    ensures HeldOk(w0, Step(w, ttlMs, e))
  {
    var w' := Step(w, ttlMs, e);
    StepGrows(w, ttlMs, e);
    forall t | t in w'.sessions && w'.sessions[t].context.Some?
      ensures || (t in w0.sessions && w0.sessions[t].context == w'.sessions[t].context)
              || Approved(w', 0, w'.sessions[t].user, w'.sessions[t].context.value)
    {
      if t in w.sessions && w.sessions[t].context == w'.sessions[t].context {
        if Approved(w, 0, w.sessions[t].user, w.sessions[t].context.value) {
          ApprovedStays(w, w', 0, w.sessions[t].user, w.sessions[t].context.value);
        }
      } else {
        WritesAreApproved(w, ttlMs, e, t);
      }
    }
  }

  /** In every run, every context a session holds is one it held at first, or one approved for its user. */
  lemma {:induction false} HeldContextsWereApproved(w0: World, w: World, ttlMs: nat, es: seq<Event>)
    requires Inv(w, ttlMs) && HeldOk(w0, w)
    ensures HeldOk(w0, Play(w, ttlMs, es))
    decreases |es|
  {
    if es != [] {
      StepKeepsHeld(w0, w, ttlMs, es[0]);
      StepKeepsInv(w, ttlMs, es[0]);
      HeldContextsWereApproved(w0, Step(w, ttlMs, es[0]), ttlMs, es[1..]);
    }
  }

  /** The context a read returns, if this step is its last. */
  function Returns(w: World, j: Job, e: Event): Option<Option<Context>>
    requires e.Advance?
  {
    match j.task
    case Found(_, s) => if Needless(w, j, s) then Some(s.context) else None
    case Asking(_, s) => if e.answer.Throws? then Some(s.context) else None
    case Told(_, s, member) => if member then Some(s.context) else None
    case Writing(p, choice) => if p.ForRead? then Some(choice) else None
    case _ => None
  }

  /** A belief set less than `ttlMs` ago, on a yes given no later. */
  ghost predicate FreshlyBelieved(w: World, ttlMs: nat, user: User, c: Context) {
    exists b :: b in w.memo && About(b, user, c) && Backed(w, b, ttlMs) && 0 <= w.now - (b.until - ttlMs) < ttlMs
  }

  /**
   * In every run, whatever happens between its awaits, a read returns a context only if the session had expired
   * already, or a belief set less than `ttlMs` ago stood for it, or the port said yes to it during this very read,
   * or the port threw and the session, when loaded, held it.
   */
  lemma ReadsAreJustified(w0: World, ttlMs: nat, es: seq<Event>, e: Event, c: Context)
    requires Begins(w0) && e.Advance? && e.id in Play(w0, ttlMs, es).jobs && Play(w0, ttlMs, es).jobs[e.id].here
    requires Returns(Play(w0, ttlMs, es), Play(w0, ttlMs, es).jobs[e.id], e) == Some(Some(c))
    ensures var w := Play(w0, ttlMs, es);
            var j := w.jobs[e.id];
            match j.task
            case Found(_, s) => s.context == Some(c) && (s.expiresAt <= w.now || FreshlyBelieved(w, ttlMs, s.user, c))
            case Asking(_, s) => e.answer.Throws? && s.context == Some(c)
            case Told(_, s, _) => s.context == Some(c) && Approved(w, j.since, s.user, c)
            case Writing(p, _) => p.ForRead? && Approved(w, j.since, p.s.user, c)
            case _ => false
  {
    PlayKeepsInv(w0, ttlMs, es);
    var w := Play(w0, ttlMs, es);
    var j := w.jobs[e.id];
    if j.task.Found? && w.now < j.task.s.expiresAt {
      var s := j.task.s;
      var b :| b in w.memo && About(b, s.user, c) && w.now < b.until;
      assert Backed(w, b, ttlMs);
    }
  }

  /** Fewer beliefs never keep a read from asking. */
  lemma ForgettingOnlyAsksMore(w: World, fewer: seq<Belief>, j: Job, s: Session)
    requires forall b :: b in fewer ==> b in w.memo
    ensures Needless(w.(memo := fewer), j, s) ==> Needless(w, j, s)
  {
  }

  /** A belief answers for exactly its time to live; with none there are no beliefs. */
  lemma MemoAnswersForItsTtl(memo: seq<Belief>, ttlMs: nat, now: int, user: User, c: Context, t: int)
    ensures 0 < ttlMs ==> (Believed(AfterBelieve(memo, ttlMs, now, user, c), t, user, c) <==> t < now + ttlMs)
    ensures ttlMs == 0 ==> AfterBelieve(memo, ttlMs, now, user, c) == memo
  {
    if 0 < ttlMs {
      BelieveShows(memo, ttlMs, now, user, c);
    }
  }

  /** Believing makes room by its oldest entry only when the memo is full, and keeps what it says of all others. */
  lemma BelievingKeepsOthers(memo: seq<Belief>, ttlMs: nat, now: int, user: User, c: Context, b: Belief)
    requires b in memo && !About(b, user, c) && |memo| < 10000
    ensures b in AfterBelieve(memo, ttlMs, now, user, c)
  {
  }

  /** A session that ends is gone, and its token never names another. */
  lemma EndedSessionStaysGone(w: World, ttlMs: nat, es: seq<Event>, token: string)
    requires w.sessions.Keys <= w.used && token in w.sessions
    ensures token !in Play(Step(w, ttlMs, EndSession(token)), ttlMs, es).sessions
  {
    PlayGrows(Step(w, ttlMs, EndSession(token)), ttlMs, es);
  }

  /** A full memo makes room by its oldest entry, and by no other. */
  lemma FullMemoForgetsItsOldest(memo: seq<Belief>, ttlMs: nat, now: int, user: User, c: Context)
    requires 0 < ttlMs && |Without(memo, user, c)| == 10000
    ensures var others, after := Without(memo, user, c), AfterBelieve(memo, ttlMs, now, user, c);
            |after| == 10000 && after[..9999] == others[1..] && About(after[9999], user, c)
  {
  }

  /** A write that throws leaves the row as it was, or written, as the database had it; and the operation ends, with
      nothing believed or forgotten. */
  lemma ThrownWriteEnds(w: World, ttlMs: nat, e: Event, g: Setting)
    requires e.Advance? && e.end.Threw? && e.id in w.jobs && w.jobs[e.id].task == WritingSet(g) && g.token in w.sessions
    ensures var w' := Step(w, ttlMs, e);
            && e.id !in w'.jobs && w'.memo == w.memo
            && w'.sessions == if e.end.wrote then w.sessions[g.token := w.sessions[g.token].(context := g.next)]
                              else w.sessions
  {
  }

  /** A read asks exactly about a session with a context, not expired, that this process does not believe. */
  lemma AsksIff(w: World, ttlMs: nat, id: nat, e: Event, token: string, s: Session)
    requires e.Advance? && e.id == id && id in w.jobs && w.jobs[id].task == Found(token, s)
    ensures var w' := Step(w, ttlMs, e);
            && w'.memo == w.memo && w'.sessions == w.sessions && w'.approved == w.approved
            && (id in w'.jobs <==>
                s.context.Some? && w.now < s.expiresAt &&
                !(w.jobs[id].here && Believed(w.memo, w.now, s.user, s.context.value)))
            && (id in w'.jobs ==> w'.jobs[id].task == Asking(token, s))
  {
  }

  /** A session that is created starts with the context proposed, if the port said yes to it, and with none
      otherwise; and the yes is believed. */
  lemma NewSessionStartsWith(w: World, ttlMs: nat, id: nat, e: Event, token: string, user: User, expiresAt: int)
    requires e.Advance? && e.id == id && id !in w.jobs && token !in w.used && 0 < ttlMs
    ensures var choice := if e.answer.Yes? then e.candidate else None;
            var asked := Step(w, ttlMs, StartCreate(id, true, token, user, expiresAt));
            var told := Step(asked, ttlMs, e);
            var chosen := Step(told, ttlMs, GoOn(id));
            && (choice.Some? ==> Believed(chosen.memo, w.now, user, choice.value))
            && (choice.None? ==> chosen.memo == w.memo)
            && Step(chosen, ttlMs, GoOn(id)).sessions == w.sessions[token := Session(user, choice, expiresAt)]
            && Step(chosen, ttlMs, GoOn(id)).jobs == w.jobs
  {
    var choice := if e.answer.Yes? then e.candidate else None;
    var p := ForCreate(token, user, expiresAt);
    CreationIsTold(w, ttlMs, id, e, p);
    var told := Step(Step(w, ttlMs, StartCreate(id, true, token, user, expiresAt)), ttlMs, e);
    ChoiceIsBelieved(told, ttlMs, id, p, choice);
    var chosen := Step(told, ttlMs, GoOn(id));
    RowIsCreated(chosen, ttlMs, id, p, choice);
    assert chosen.jobs - {id} == w.jobs;
  }

  lemma CreationIsTold(w: World, ttlMs: nat, id: nat, e: Event, p: Purpose)
    requires e.Advance? && e.id == id && id !in w.jobs && p.ForCreate?
    ensures var told := Step(Step(w, ttlMs, StartCreate(id, true, p.token, p.user, p.expiresAt)), ttlMs, e);
            var choice := if e.answer.Yes? then e.candidate else None;
            && told.sessions == w.sessions && told.used == w.used && told.memo == w.memo && told.now == w.now
            && told.jobs == w.jobs[id := Job(true, |w.approved|, Proposed(p, choice))]
            && told.approved == if choice.Some? then w.approved + [Approval(p.user, choice.value, w.now)]
                                else w.approved
  {
  }

  lemma ChoiceIsBelieved(w: World, ttlMs: nat, id: nat, p: Purpose, choice: Option<Context>)
    requires id in w.jobs && w.jobs[id].here && w.jobs[id].task == Proposed(p, choice) && 0 < ttlMs
    ensures var w' := Step(w, ttlMs, GoOn(id));
            && w'.sessions == w.sessions && w'.used == w.used && w'.now == w.now
            && w'.jobs == w.jobs[id := w.jobs[id].(task := Writing(p, choice))]
            && (choice.Some? ==> Believed(w'.memo, w.now, UserOf(p), choice.value))
            && (choice.None? ==> w'.memo == w.memo)
  {
    if choice.Some? { MemoAnswersForItsTtl(w.memo, ttlMs, w.now, UserOf(p), choice.value, w.now); }
  }

  lemma RowIsCreated(w: World, ttlMs: nat, id: nat, p: Purpose, choice: Option<Context>)
    requires id in w.jobs && w.jobs[id].task == Writing(p, choice) && p.ForCreate? && p.token !in w.used
    ensures var w' := Step(w, ttlMs, GoOn(id));
            w'.sessions == w.sessions[p.token := Session(p.user, choice, p.expiresAt)] && w'.jobs == w.jobs - {id}
  {
  }

  // ---- what undoes a clear ----

  /** The operation is past the port's yes, and on its way to write this context on this session. */
  predicate WillWrite(task: Task, token: string, c: Context) {
    match task
    case Proposed(p, choice) => p.ForRead? && p.token == token && choice == Some(c)
    case Writing(p, choice) => p.ForRead? && p.token == token && choice == Some(c)
    case WritingSet(g) => g.token == token && g.next == Some(c)
    case _ => false
  }

  ghost predicate WritePending(w: World, token: string, c: Context) {
    exists id :: id in w.jobs && WillWrite(w.jobs[id].task, token, c)
  }

  predicate HoldsContext(w: World, token: string, c: Context) {
    token in w.sessions && w.sessions[token].context == Some(c)
  }

  /** One step from a session that does not hold the context, nothing pending: it needs the port's yes. */
  lemma StepStaysCleared(w: World, ttlMs: nat, e: Event, token: string, c: Context, user: User)
    requires Inv(w, ttlMs) && token in w.used && !HoldsContext(w, token, c) && !WritePending(w, token, c)
    requires token in w.sessions ==> w.sessions[token].user == user
    ensures var w' := Step(w, ttlMs, e);
            !HoldsContext(w', token, c) &&
            (token in w'.sessions && WritePending(w', token, c) ==> Approved(w', |w.approved|, user, c))
  {
    var w' := Step(w, ttlMs, e);
    RowStaysCleared(w, ttlMs, e, token, c);
    if token in w'.sessions && WritePending(w', token, c) {
      var id :| id in w'.jobs && WillWrite(w'.jobs[id].task, token, c);
      PendingWriteWasApproved(w, ttlMs, e, id, token, c, user);
    }
  }

  lemma RowStaysCleared(w: World, ttlMs: nat, e: Event, token: string, c: Context)
    requires token in w.used && !HoldsContext(w, token, c) && !WritePending(w, token, c)
    ensures !HoldsContext(Step(w, ttlMs, e), token, c)
  {
    if e.Advance? && e.id in w.jobs { assert !WillWrite(w.jobs[e.id].task, token, c); }
  }

  lemma PendingWriteWasApproved(w: World, ttlMs: nat, e: Event, id: nat, token: string, c: Context, user: User)
    requires Inv(w, ttlMs) && !WritePending(w, token, c) && token in Step(w, ttlMs, e).sessions
    requires token in w.used && (token in w.sessions ==> w.sessions[token].user == user)
    requires id in Step(w, ttlMs, e).jobs && WillWrite(Step(w, ttlMs, e).jobs[id].task, token, c)
    ensures Approved(Step(w, ttlMs, e), |w.approved|, user, c)
  {
    var w' := Step(w, ttlMs, e);
    if !AboutJob(e, id) {
      OtherJobsWait(w, ttlMs, e, id);
    } else if e.Advance? {
      StepGrows(w, ttlMs, e);
      assert JobOk(w, w.jobs[id]) && !WillWrite(w.jobs[id].task, token, c);
      JustApproved(w, |w.approved|, user, c);
      assert w'.approved == Approve(w, user, c).approved;
      ApprovedStays(Approve(w, user, c), w', |w.approved|, user, c);
    }
  }

  lemma ApprovedSooner(w: World, later: nat, sooner: nat, user: User, c: Context)
    requires sooner <= later && Approved(w, later, user, c)
    ensures Approved(w, sooner, user, c)
  {
  }

  lemma {:induction false} StaysCleared(w: World, ttlMs: nat, es: seq<Event>, token: string, c: Context, user: User)
    requires Inv(w, ttlMs) && token in w.used && !HoldsContext(w, token, c) && !WritePending(w, token, c)
    requires token in w.sessions ==> w.sessions[token].user == user
    ensures var w' := Play(w, ttlMs, es); HoldsContext(w', token, c) ==> Approved(w', |w.approved|, user, c)
    decreases |es|
  {
    if es != [] {
      var w1, w' := Step(w, ttlMs, es[0]), Play(w, ttlMs, es);
      StepKeepsInv(w, ttlMs, es[0]);
      StepStaysCleared(w, ttlMs, es[0], token, c, user);
      PlayGrows(w1, ttlMs, es[1..]);
      if token in w1.sessions && WritePending(w1, token, c) {
        ApprovedStays(w1, w', |w.approved|, user, c);
      } else if token in w1.sessions {
        StaysCleared(w1, ttlMs, es[1..], token, c, user);
        if HoldsContext(w', token, c) { ApprovedSooner(w', |w1.approved|, |w.approved|, user, c); }
      }
    }
  }

  /**
   * From any moment at which a session does not hold a context, as a clear leaves it: over every run, it holds it
   * again only if an operation was already on its way to write it, or the port has said yes again since.
   */
  lemma ClearIsUndoneOnlyBy(w: World, ttlMs: nat, es: seq<Event>, token: string, c: Context)
    requires Inv(w, ttlMs) && token in w.sessions && w.sessions[token].context != Some(c)
    ensures var w' := Play(w, ttlMs, es);
            HoldsContext(w', token, c) ==>
              WritePending(w, token, c) || Approved(w', |w.approved|, w.sessions[token].user, c)
  {
    if !WritePending(w, token, c) {
      StaysCleared(w, ttlMs, es, token, c, w.sessions[token].user);
    }
  }

  /** This run puts the context back on the session, without another word from the port. */
  ghost predicate PutsBack(w: World, ttlMs: nat, es: seq<Event>, token: string, c: Context) {
    Play(w, ttlMs, es).approved == w.approved && HoldsContext(Play(w, ttlMs, es), token, c)
  }

  function GoOn(id: nat): Event { Advance(id, No, None, Updated) }

  /** Exactly when: some run undoes the clear, with no new yes, if and only if a write of that context on that
      session, by a set or by a read replacing a lost context, is on its way when the clear is done. */
  lemma ClearCanBeUndoneIff(w: World, ttlMs: nat, token: string, c: Context)
    requires Inv(w, ttlMs) && token in w.sessions && w.sessions[token].context != Some(c)
    ensures (exists es :: PutsBack(w, ttlMs, es, token, c)) <==> WritePending(w, token, c)
  {
    if es :| PutsBack(w, ttlMs, es, token, c) {
      ClearIsUndoneOnlyBy(w, ttlMs, es, token, c);
    }
    if id :| id in w.jobs && WillWrite(w.jobs[id].task, token, c) {
      PlayTwo(w, ttlMs, GoOn(id), GoOn(id));
      if w.jobs[id].task.Proposed? {
        ChoiceIsWritten(w, ttlMs, id, token, c);
        assert PutsBack(w, ttlMs, [GoOn(id), GoOn(id)], token, c);
      } else {
        WriteLands(w, ttlMs, id, token, c);
        assert PutsBack(w, ttlMs, [GoOn(id)], token, c);
      }
    }
  }

  lemma WriteLands(w: World, ttlMs: nat, id: nat, token: string, c: Context)
    requires token in w.sessions && id in w.jobs && WillWrite(w.jobs[id].task, token, c) && !w.jobs[id].task.Proposed?
    ensures var w1 := Step(w, ttlMs, GoOn(id)); w1.approved == w.approved && HoldsContext(w1, token, c)
  {
    assert EffectOf(w.jobs[id].task, No, None) == Writes(token, Some(c));
  }

  lemma ChoiceIsWritten(w: World, ttlMs: nat, id: nat, token: string, c: Context)
    requires token in w.sessions && id in w.jobs && WillWrite(w.jobs[id].task, token, c) && w.jobs[id].task.Proposed?
    ensures var w2 := Step(Step(w, ttlMs, GoOn(id)), ttlMs, GoOn(id));
            w2.approved == w.approved && HoldsContext(w2, token, c)
  {
    ChoiceIsNext(w, ttlMs, id, token, c);
    WriteLands(Step(w, ttlMs, GoOn(id)), ttlMs, id, token, c);
  }

  lemma ChoiceIsNext(w: World, ttlMs: nat, id: nat, token: string, c: Context)
    requires token in w.sessions && id in w.jobs && WillWrite(w.jobs[id].task, token, c) && w.jobs[id].task.Proposed?
    ensures var w1 := Step(w, ttlMs, GoOn(id));
            && w1.approved == w.approved && token in w1.sessions && id in w1.jobs
            && WillWrite(w1.jobs[id].task, token, c) && !w1.jobs[id].task.Proposed?
  {
  }

  lemma PlayTwo(w: World, ttlMs: nat, e: Event, f: Event)
    ensures Play(w, ttlMs, [e]) == Step(w, ttlMs, e)
    ensures Play(w, ttlMs, [e, f]) == Step(Step(w, ttlMs, e), ttlMs, f)
  {
    assert [e][1..] == [] && [e, f][1..] == [f] && [f][1..] == [];
    assert Play(Step(w, ttlMs, e), ttlMs, [f]) == Step(Step(w, ttlMs, e), ttlMs, f);
  }

  // ---- what a forget leaves to come ----

  predicate InMemo(w: World, user: User, c: Context) { exists b :: b in w.memo && About(b, user, c) }

  /** The operation is past the port's yes, and on its way to believe it. */
  predicate WillBelieve(w: World, task: Task, user: User, c: Context) {
    match task
    case Told(_, s, member) => member && s.user == user && s.context == Some(c)
    case Proposed(p, choice) => UserOf(p) == user && choice == Some(c)
    case WritingSet(g) => g.user == user && g.next == Some(c) && g.token in w.sessions
    case BelievingSet(g, updated) => updated && g.user == user && g.next == Some(c)
    case _ => false
  }

  ghost predicate BeliefPending(w: World, user: User, c: Context) {
    exists id :: id in w.jobs && w.jobs[id].here && WillBelieve(w, w.jobs[id].task, user, c)
  }

  lemma StepStaysForgotten(w: World, ttlMs: nat, e: Event, user: User, c: Context)
    requires Inv(w, ttlMs) && !InMemo(w, user, c) && !BeliefPending(w, user, c)
    ensures var w' := Step(w, ttlMs, e);
            !InMemo(w', user, c) && (BeliefPending(w', user, c) ==> Approved(w', |w.approved|, user, c))
  {
    var w' := Step(w, ttlMs, e);
    StepGrows(w, ttlMs, e);
    MemoStaysForgotten(w, ttlMs, e, user, c);
    if id :| id in w'.jobs && w'.jobs[id].here && WillBelieve(w', w'.jobs[id].task, user, c) {
      PendingBeliefWasApproved(w, ttlMs, e, id, user, c);
    }
  }

  lemma MemoStaysForgotten(w: World, ttlMs: nat, e: Event, user: User, c: Context)
    requires !InMemo(w, user, c) && !BeliefPending(w, user, c)
    ensures !InMemo(Step(w, ttlMs, e), user, c)
  {
    if e.Advance? && e.id in w.jobs {
      var j := w.jobs[e.id];
      assert j.here ==> !WillBelieve(w, j.task, user, c);
      assert EffectOf(j.task, e.answer, e.candidate) != Believes(user, c) || !j.here;
    }
  }

  lemma PendingBeliefWasApproved(w: World, ttlMs: nat, e: Event, id: nat, user: User, c: Context)
    requires Inv(w, ttlMs) && !BeliefPending(w, user, c)
    requires var w' := Step(w, ttlMs, e);
             id in w'.jobs && w'.jobs[id].here && WillBelieve(w', w'.jobs[id].task, user, c)
    ensures Approved(Step(w, ttlMs, e), |w.approved|, user, c)
  {
    var w' := Step(w, ttlMs, e);
    StepGrows(w, ttlMs, e);
    if !AboutJob(e, id) {
      OtherJobsWait(w, ttlMs, e, id);
      assert JobOk(w, w.jobs[id]) && WillBelieve(w, w.jobs[id].task, user, c);
    } else if e.Advance? {
      var j := w.jobs[id];
      assert JobOk(w, j) && !WillBelieve(w, j.task, user, c);
      JustApproved(w, |w.approved|, user, c);
      assert w'.approved == Approve(w, user, c).approved;
      ApprovedStays(Approve(w, user, c), w', |w.approved|, user, c);
    }
  }

  lemma {:induction false} StaysForgotten(w: World, ttlMs: nat, es: seq<Event>, user: User, c: Context)
    requires Inv(w, ttlMs) && !InMemo(w, user, c) && !BeliefPending(w, user, c)
    ensures var w' := Play(w, ttlMs, es); InMemo(w', user, c) ==> Approved(w', |w.approved|, user, c)
    decreases |es|
  {
    if es != [] {
      var w1, w' := Step(w, ttlMs, es[0]), Play(w, ttlMs, es);
      StepKeepsInv(w, ttlMs, es[0]);
      StepStaysForgotten(w, ttlMs, es[0], user, c);
      PlayGrows(w1, ttlMs, es[1..]);
      if BeliefPending(w1, user, c) {
        ApprovedStays(w1, w', |w.approved|, user, c);
      } else {
        StaysForgotten(w1, ttlMs, es[1..], user, c);
        if InMemo(w', user, c) { ApprovedSooner(w', |w1.approved|, |w.approved|, user, c); }
      }
    }
  }

  /**
   * From any moment at which nothing is believed of a user and a context, as a forget leaves it: over every run,
   * a belief is back only if an operation of this process was already past its yes and on its way to believe, or
   * the port has said yes again since.
   */
  lemma BeliefReturnsOnlyBy(w: World, ttlMs: nat, es: seq<Event>, user: User, c: Context)
    requires Inv(w, ttlMs) && !InMemo(w, user, c)
    ensures var w' := Play(w, ttlMs, es);
            InMemo(w', user, c) ==> BeliefPending(w, user, c) || Approved(w', |w.approved|, user, c)
  {
    if !BeliefPending(w, user, c) {
      StaysForgotten(w, ttlMs, es, user, c);
    }
  }

  /** This run believes again what was forgotten, without another word from the port. */
  ghost predicate BringsBack(w: World, ttlMs: nat, es: seq<Event>, user: User, c: Context) {
    Play(w, ttlMs, es).approved == w.approved && InMemo(Play(w, ttlMs, es), user, c)
  }

  lemma BelieveShows(memo: seq<Belief>, ttlMs: nat, now: int, user: User, c: Context)
    requires 0 < ttlMs
    ensures Belief(user, c, now + ttlMs) in AfterBelieve(memo, ttlMs, now, user, c)
  {
    var after := AfterBelieve(memo, ttlMs, now, user, c);
    assert after[|after| - 1] == Belief(user, c, now + ttlMs);
  }

  /** Exactly when: some run brings a forgotten belief back, with no new yes, if and only if an operation of this
      process is between its yes and its belief when it is forgotten. */
  lemma BeliefCanReturnIff(w: World, ttlMs: nat, user: User, c: Context)
    requires Inv(w, ttlMs) && !InMemo(w, user, c) && 0 < ttlMs
    ensures (exists es :: BringsBack(w, ttlMs, es, user, c)) <==> BeliefPending(w, user, c)
  {
    if es :| BringsBack(w, ttlMs, es, user, c) {
      BeliefReturnsOnlyBy(w, ttlMs, es, user, c);
    }
    if id :| id in w.jobs && w.jobs[id].here && WillBelieve(w, w.jobs[id].task, user, c) {
      PlayTwo(w, ttlMs, GoOn(id), GoOn(id));
      if w.jobs[id].task.WritingSet? {
        WrittenIsNext(w, ttlMs, id, user, c);
        BeliefLands(Step(w, ttlMs, GoOn(id)), ttlMs, id, user, c);
        assert BringsBack(w, ttlMs, [GoOn(id), GoOn(id)], user, c);
      } else {
        BeliefLands(w, ttlMs, id, user, c);
        assert BringsBack(w, ttlMs, [GoOn(id)], user, c);
      }
    }
  }

  lemma BeliefLands(w: World, ttlMs: nat, id: nat, user: User, c: Context)
    requires 0 < ttlMs && id in w.jobs && w.jobs[id].here && WillBelieve(w, w.jobs[id].task, user, c)
    requires !w.jobs[id].task.WritingSet?
    ensures var w1 := Step(w, ttlMs, GoOn(id)); w1.approved == w.approved && InMemo(w1, user, c)
  {
    assert EffectOf(w.jobs[id].task, No, None) == Believes(user, c);
    BelieveShows(w.memo, ttlMs, w.now, user, c);
  }

  lemma WrittenIsNext(w: World, ttlMs: nat, id: nat, user: User, c: Context)
    requires id in w.jobs && w.jobs[id].here && WillBelieve(w, w.jobs[id].task, user, c) && w.jobs[id].task.WritingSet?
    ensures var w1 := Step(w, ttlMs, GoOn(id));
            && w1.approved == w.approved && id in w1.jobs && w1.jobs[id].here
            && WillBelieve(w1, w1.jobs[id].task, user, c) && !w1.jobs[id].task.WritingSet?
  {
  }

  // ---- the races, one run each ----

  /** One session of user "u", at time 0, and at most one operation. */
  function OneSession(context: Option<Context>, memo: seq<Belief>, task: Option<Task>, approved: seq<Approval>): World {
    var jobs := if task.Some? then map[1 := Job(true, 0, task.value)] else map[];
    World(0, map["t" := Session("u", context, 100)], {"t"}, memo, jobs, approved)
  }

  const TTL := 60
  const YES_TO_C := [Approval("u", "c", 0)]
  const BELIEVED_C := [Belief("u", "c", TTL)]
  const SETTING_C := Setting("t", "u", None, Some("c"))

  /** A set of "c" that the port has agreed to, up to its write. */
  const AGREED := OneSession(None, [], Some(WritingSet(SETTING_C)), YES_TO_C)

  lemma AgreedIsReached()
    ensures Play(OneSession(None, [], None, []), TTL,
                 [StartSet(1, true, "t", Some("c")), Advance(1, Yes, None, Updated)]) == AGREED
  {
    var asking := OneSession(None, [], Some(AskingToSet(SETTING_C)), []);
    assert Step(OneSession(None, [], None, []), TTL, StartSet(1, true, "t", Some("c"))) == asking;
    assert Step(asking, TTL, Advance(1, Yes, None, Updated)) == AGREED;
    PlayTwo(OneSession(None, [], None, []), TTL, StartSet(1, true, "t", Some("c")), Advance(1, Yes, None, Updated));
  }

  lemma SetWrites(context: Option<Context>)
    ensures Step(OneSession(context, [], Some(WritingSet(SETTING_C)), YES_TO_C), TTL, GoOn(1)) ==
            OneSession(Some("c"), [], Some(BelievingSet(SETTING_C, true)), YES_TO_C)
  {
  }

  lemma SetBelieves(context: Option<Context>)
    ensures Step(OneSession(context, [], Some(BelievingSet(SETTING_C, true)), YES_TO_C), TTL, GoOn(1)) ==
            OneSession(context, BELIEVED_C, None, YES_TO_C)
  {
    var j := Job(true, 0, BelievingSet(SETTING_C, true));
    assert AfterBelieve([], TTL, 0, "u", "c") == BELIEVED_C;
    assert map[1 := j] - {1} == map[];
  }

  lemma Clears(context: Option<Context>, memo: seq<Belief>, task: Option<Task>, approved: seq<Approval>)
    requires Without(memo, "u", "c") == []
    ensures Play(OneSession(context, memo, task, approved), TTL, [ClearRow("t"), Forget("u", "c")]) ==
            OneSession(None, [], task, approved)
  {
    var w := OneSession(context, memo, task, approved);
    RowClears(context, memo, task, approved);
    BeliefForgotten(memo, task, approved);
    PlayTwo(w, TTL, ClearRow("t"), Forget("u", "c"));
  }

  lemma RowClears(context: Option<Context>, memo: seq<Belief>, task: Option<Task>, approved: seq<Approval>)
    ensures Step(OneSession(context, memo, task, approved), TTL, ClearRow("t")) ==
            OneSession(None, memo, task, approved)
  {
  }

  lemma BeliefForgotten(memo: seq<Belief>, task: Option<Task>, approved: seq<Approval>)
    requires Without(memo, "u", "c") == []
    ensures Step(OneSession(None, memo, task, approved), TTL, Forget("u", "c")) == OneSession(None, [], task, approved)
  {
  }

  /** What the set endpoint means to rule out: its write is done, then the context is cleared, row and belief, and
      the set believes it all the same. The session does not hold what is believed. */
  lemma BeliefOutlivesClear()
    ensures var written := Step(AGREED, TTL, GoOn(1));
            var cleared := Play(written, TTL, [ClearRow("t"), Forget("u", "c")]);
            Step(cleared, TTL, GoOn(1)) == OneSession(None, BELIEVED_C, None, YES_TO_C)
  {
    SetWrites(None);
    Clears(Some("c"), [], Some(BelievingSet(SETTING_C, true)), YES_TO_C);
    SetBelieves(None);
  }

  /** The write itself may come after the clear: the session then holds the context again. */
  lemma WriteCanUndoClear()
    ensures var cleared := Play(AGREED, TTL, [ClearRow("t"), Forget("u", "c")]);
            var written := Step(cleared, TTL, GoOn(1));
            Step(written, TTL, GoOn(1)) == OneSession(Some("c"), BELIEVED_C, None, YES_TO_C)
  {
    Clears(None, [], Some(WritingSet(SETTING_C)), YES_TO_C);
    SetWrites(None);
    SetBelieves(Some("c"));
  }

  const LOST := Session("u", Some("d"), 100)

  /** A read that found "d" lost and was told to replace it with "c", up to its write. */
  const REPLACING := OneSession(Some("d"), BELIEVED_C, Some(Writing(ForRead("t", LOST), Some("c"))), YES_TO_C)

  function ReadsOfLost(task: Task): World { OneSession(Some("d"), [], Some(task), []) }

  /** The six steps that lead there: load, look in the memo, ask, forget, ask for "c", believe it. */
  lemma ReplacingIsReached()
    ensures Step(OneSession(Some("d"), [], None, []), TTL, StartRead(1, true, "t")) == ReadsOfLost(Found("t", LOST))
    ensures Play(ReadsOfLost(Found("t", LOST)), TTL, [GoOn(1), Advance(1, No, None, Updated)]) ==
            ReadsOfLost(Told("t", LOST, false))
    ensures Step(ReadsOfLost(Told("t", LOST, false)), TTL, GoOn(1)) == ReadsOfLost(Proposing(ForRead("t", LOST)))
    ensures Play(ReadsOfLost(Proposing(ForRead("t", LOST))), TTL, [Advance(1, Yes, Some("c"), Updated), GoOn(1)]) ==
            REPLACING
  {
    PlayTwo(ReadsOfLost(Found("t", LOST)), TTL, GoOn(1), Advance(1, No, None, Updated));
    LostIsAskedAbout();
    ReplacementIsBelieved();
  }

  lemma LostIsAskedAbout()
    ensures Step(ReadsOfLost(Found("t", LOST)), TTL, GoOn(1)) == ReadsOfLost(Asking("t", LOST))
    ensures Step(ReadsOfLost(Asking("t", LOST)), TTL, Advance(1, No, None, Updated)) ==
            ReadsOfLost(Told("t", LOST, false))
  {
  }

  lemma ReplacementIsBelieved()
    ensures Play(ReadsOfLost(Proposing(ForRead("t", LOST))), TTL, [Advance(1, Yes, Some("c"), Updated), GoOn(1)]) ==
            REPLACING
  {
    var proposing := ReadsOfLost(Proposing(ForRead("t", LOST)));
    var proposed := OneSession(Some("d"), [], Some(Proposed(ForRead("t", LOST), Some("c"))), YES_TO_C);
    assert AfterBelieve([], TTL, 0, "u", "c") == BELIEVED_C;
    assert Step(proposing, TTL, Advance(1, Yes, Some("c"), Updated)) == proposed;
    assert Step(proposed, TTL, GoOn(1)) == REPLACING;
    PlayTwo(proposing, TTL, Advance(1, Yes, Some("c"), Updated), GoOn(1));
  }

  /** And so may the write with which a read replaces a context it found lost. */
  lemma ReplacementCanUndoClear()
    ensures var cleared := Play(REPLACING, TTL, [ClearRow("t"), Forget("u", "c")]);
            Step(cleared, TTL, GoOn(1)) == OneSession(Some("c"), [], None, YES_TO_C)
  {
    Clears(Some("d"), BELIEVED_C, Some(REPLACING.jobs[1].task), YES_TO_C);
    assert REPLACING.jobs - {1} == map[];
  }
}
