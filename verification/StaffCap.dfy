/**
 * The 12-hour cap on staff sessions (packages/identity/src/staff-session.ts): the clamps where a session is
 * written, the check where it is read, and the per-process memo of "is this user staff?". Milliseconds.
 */
module StaffCap {
  import opened Common

  type User = string

  const CAP_MS := 43200000
  const MEMO_MS := 30000

  datatype Session = Session(user: User, createdAt: int, expiresAt: int)

  function CapAt(s: Session): int { s.createdAt + CAP_MS }

  function Earliest(a: int, b: int): int { if a <= b then a else b }

  /** `session.create.before`: what a session is written with; missing times default to now. */
  function CreatedExpiry(staff: bool, requested: Option<int>, created: Option<int>, now: int): Option<int> {
    if !staff then requested
    else Some(Earliest(if requested.Some? then requested.value else now + CAP_MS,
                       (if created.Some? then created.value else now) + CAP_MS))
  }

  /** `session.update.before`: the row is the one of the request's cookie, if there is one. */
  function UpdatedExpiry(requested: int, cookieRow: Option<Session>, staff: bool): int {
    if cookieRow.None? || !staff then requested else Earliest(requested, CapAt(cookieRow.value))
  }

  /** A staff session is never written past its cap, a clamp never lengthens, and nobody else is touched. */
  lemma ClampedWrites(requested: Option<int>, created: int, now: int, row: Session, refresh: int)
    ensures var w := CreatedExpiry(true, requested, Some(created), now);
            w.Some? && w.value <= created + CAP_MS && (requested.Some? ==> w.value <= requested.value)
    ensures CreatedExpiry(true, requested, None, now).value <= now + CAP_MS
    ensures UpdatedExpiry(refresh, Some(row), true) <= CapAt(row) && UpdatedExpiry(refresh, Some(row), true) <= refresh
    ensures refresh <= CapAt(row) ==> UpdatedExpiry(refresh, Some(row), true) == refresh
    ensures CreatedExpiry(false, requested, Some(created), now) == requested
    ensures UpdatedExpiry(refresh, Some(row), false) == refresh
  {
  }

  /** To the millisecond: the earlier of what was asked for and twelve hours from the session's creation. */
  lemma ClampIsExact(requested: Option<int>, created: Option<int>, now: int, row: Session, refresh: int)
    ensures var from := if created.Some? then created.value else now;
            var w := CreatedExpiry(true, requested, created, now);
            && w.Some?
            && (w.value == from + 12 * 3600000 || w == requested || (requested.None? && w.value == now + 12 * 3600000))
            && w.value <= from + 12 * 3600000 && (requested.Some? ==> w.value <= requested.value)
            && (requested.None? ==> w.value <= now + 12 * 3600000)
    ensures UpdatedExpiry(refresh, Some(row), true) == Min(refresh, row.createdAt + 12 * 3600000)
    ensures forall staff :: UpdatedExpiry(refresh, None, staff) == refresh
    ensures CreatedExpiry(false, requested, created, now) == requested
  {
  }

  // ---- reading a session ----

  /** The read needs to know whether the user is staff only for a session past its cap that stores a later
      expiry, or one at its cap that is due for a refresh. */
  predicate MustDie(s: Session, now: int) { CapAt(s) < s.expiresAt && CapAt(s) < now }

  predicate Skippable(s: Session, now: int, refreshAfterMs: int) {
    s.expiresAt <= CapAt(s) && s.expiresAt - refreshAfterMs <= now
  }

  /** `answeredAt` is when the database gave this answer, `until` when it stops being believed. */
  datatype Memo = Memo(staff: bool, answeredAt: int, until: int)

  /** A read under way that had to ask: what it found, and the answer, not yet remembered. */
  datatype Pending = Pending(session: Session, mustDie: bool, staff: bool, answeredAt: int)

  /**
   * `byDomain`: users whose email is on a staff domain. `linked`, `unlinked`: since when a user has a Microsoft
   * account, and when one last ceased to have any. The memo is this process's; `slack` bounds how long a lookup
   * takes to be remembered.
   */
  datatype World = World(now: int, byDomain: set<User>, linked: map<User, int>, unlinked: map<User, int>,
                         memo: map<User, Memo>, pending: set<Pending>, slack: nat)

  /** The session as returned: at its cap if it must die, else as found. */
  function Capped(s: Session, mustDie: bool, staff: bool): Session {
    if mustDie && staff then s.(expiresAt := CapAt(s)) else s
  }

  predicate Hit(w: World, user: User) { user in w.memo && w.now < w.memo[user].until }

  /** What a read that needs no lookup returns. */
  function ReturnedAtOnce(w: World, s: Session): Session {
    Capped(s, MustDie(s, w.now), s.user in w.byDomain || (Hit(w, s.user) && w.memo[s.user].staff))
  }

  /** `here`: this process handled the link, so its memo knows. */
  datatype Event =
    | Tick(to: int)
    | Lookup(s: Session, refreshAfterMs: int)
    | Reply(p: Pending)
    | Link(user: User, here: bool)
    | Unlink(user: User)
    | MoveEmail(user: User, staff: bool)
    | Evict(user: User)

  /** The read asks the database: a staff email is known for free, a fresh memo answers by itself. */
  predicate Asks(w: World, s: Session, refreshAfterMs: int) {
    (MustDie(s, w.now) || Skippable(s, w.now, refreshAfterMs)) && s.user !in w.byDomain && !Hit(w, s.user)
  }

  /** The read that asks now: its lookup answers from the accounts as they are. */
  function Started(w: World, s: Session): Pending { Pending(s, MustDie(s, w.now), s.user in w.linked, w.now) }

  function Step(w: World, e: Event): World {
    match e
    case Tick(to) => w.(now := Max(w.now, to))
    case Lookup(s, refreshAfterMs) =>
      if !Asks(w, s, refreshAfterMs) then w
      else w.(pending := w.pending + {Started(w, s)})
    case Reply(p) =>
      if p !in w.pending then w
      else
        w.(pending := w.pending - {p},
           memo := w.memo[p.session.user := Memo(p.staff, p.answeredAt, w.now + MEMO_MS)])
    case Link(user, here) =>
      if user in w.linked then w
      else
        w.(linked := w.linked[user := w.now],
           memo := if here then w.memo[user := Memo(true, w.now, w.now + MEMO_MS)] else w.memo)
    case Unlink(user) =>
      if user in w.linked then w.(linked := w.linked - {user}, unlinked := w.unlinked[user := w.now]) else w
    case MoveEmail(user, staff) => w.(byDomain := if staff then w.byDomain + {user} else w.byDomain - {user})
    case Evict(user) => w.(memo := w.memo - {user})
  }

  function Play(w: World, es: seq<Event>): World
    decreases |es|
  {
    if es == [] then w else Play(Step(w, es[0]), es[1..])
  }

  /** No lookup takes longer than the slack to be remembered. */
  ghost predicate Prompt(w: World, es: seq<Event>)
    decreases |es|
  {
    es != [] ==> (es[0].Reply? ==> w.now <= es[0].p.answeredAt + w.slack) && Prompt(Step(w, es[0]), es[1..])
  }

  const START := World(0, {}, map[], map[], map[], {}, 0)

  /** An answer of "not staff" predates the account linked now; one of "staff" predates the unlinking. */
  predicate Truthful(w: World, user: User, staff: bool, answeredAt: int) {
    && answeredAt <= w.now
    && (!staff && user in w.linked ==> answeredAt <= w.linked[user])
    && (staff && user !in w.linked ==> user in w.unlinked && answeredAt <= w.unlinked[user])
  }

  ghost predicate Inv(w: World) {
    && (forall u :: u in w.linked ==> w.linked[u] <= w.now)
    && (forall u :: u in w.memo ==> Truthful(w, u, w.memo[u].staff, w.memo[u].answeredAt))
    && (forall u :: u in w.memo ==> w.memo[u].until <= w.memo[u].answeredAt + w.slack + MEMO_MS)
    && (forall p :: p in w.pending ==> Truthful(w, p.session.user, p.staff, p.answeredAt))
  }

  lemma StepKeepsInv(w: World, e: Event)
    requires Inv(w) && (e.Reply? ==> w.now <= e.p.answeredAt + w.slack)
    ensures Inv(Step(w, e))
  {
  }

  lemma {:induction false} PlayKeepsInv(w: World, es: seq<Event>)
    requires Inv(w) && Prompt(w, es)
    ensures Inv(Play(w, es)) && Play(w, es).slack == w.slack
    decreases |es|
  {
    if es != [] {
      StepKeepsInv(w, es[0]);
      PlayKeepsInv(Step(w, es[0]), es[1..]);
    }
  }

  /** Staff by domain, or by an account linked for at least the memo and the slowest lookup. */
  predicate SettledStaff(w: World, user: User) {
    user in w.byDomain || (user in w.linked && w.linked[user] + w.slack + MEMO_MS <= w.now)
  }

  /** Not staff by domain, and without an account, or never with one, for as long. */
  predicate SettledPublic(w: World, user: User) {
    && user !in w.byDomain && user !in w.linked
    && (user in w.unlinked ==> w.unlinked[user] + w.slack + MEMO_MS <= w.now)
  }

  /** What a read that starts now returns in the end. */
  function ReturnedByRead(w: World, s: Session, refreshAfterMs: int): Session {
    if Asks(w, s, refreshAfterMs) then Capped(s, Started(w, s).mustDie, Started(w, s).staff) else ReturnedAtOnce(w, s)
  }

  /**
   * In every run, links handled by other processes included: once its 12 hours have passed a session of settled
   * staff is never returned with a later expiry, whether the read answers from the memo or asks the database.
   */
  lemma SettledStaffNeverPastCap(slack: nat, es: seq<Event>, s: Session, refreshAfterMs: int)
    requires Prompt(START.(slack := slack), es)
    ensures var w := Play(START.(slack := slack), es);
            SettledStaff(w, s.user) && CapAt(s) < w.now ==> ReturnedByRead(w, s, refreshAfterMs).expiresAt <= CapAt(s)
  {
    PlayKeepsInv(START.(slack := slack), es);
  }

  /** In every run, whoever is not staff, and has not just ceased to be, has every session returned as found. */
  lemma OthersUnchanged(slack: nat, es: seq<Event>, s: Session, refreshAfterMs: int)
    requires Prompt(START.(slack := slack), es)
    ensures var w := Play(START.(slack := slack), es);
            SettledPublic(w, s.user) ==> ReturnedByRead(w, s, refreshAfterMs) == s
  {
    PlayKeepsInv(START.(slack := slack), es);
  }

  /** What a read does to a session: one of staff past its twelve hours comes back expired at them, to the
      millisecond, and any other as it was found. */
  lemma ReadReturns(w: World, s: Session, refreshAfterMs: int)
    ensures var staff := s.user in w.byDomain || (if Hit(w, s.user) then w.memo[s.user].staff else s.user in w.linked);
            var capAt := s.createdAt + 12 * 3600000;
            ReturnedByRead(w, s, refreshAfterMs) ==
            if staff && capAt < s.expiresAt && capAt < w.now then s.(expiresAt := capAt) else s
  {
  }

  /** Who is asked about: only a session past its cap that stores a later expiry, or one at its cap that is due for a
      refresh; of a user who is not staff by domain; and not again within half a minute of the last answer. */
  lemma LookupIff(w: World, s: Session, refreshAfterMs: int)
    ensures var capAt := s.createdAt + 12 * 3600000;
            Asks(w, s, refreshAfterMs) <==>
              && s.user !in w.byDomain && (s.user in w.memo ==> w.memo[s.user].until <= w.now)
              && ((capAt < s.expiresAt && capAt < w.now) ||
                  (s.expiresAt <= capAt && s.expiresAt - refreshAfterMs <= w.now))
  {
  }

  /** An email moved onto a staff domain, or off it, counts from the very next read. */
  lemma EmailCountsAtOnce(w: World, s: Session, refreshAfterMs: int)
    ensures var capAt := s.createdAt + 12 * 3600000;
            && (capAt < s.expiresAt && capAt < w.now ==>
                  ReturnedByRead(Step(w, MoveEmail(s.user, true)), s, refreshAfterMs).expiresAt == capAt)
            && (!Hit(w, s.user) && s.user !in w.linked ==>
                  ReturnedByRead(Step(w, MoveEmail(s.user, false)), s, refreshAfterMs) == s)
  {
  }

  /** An answer, and a link handled here, spare the next lookups for exactly half a minute. */
  lemma AnswerIsRememberedForHalfAMinute(w: World, p: Pending, user: User, t: int)
    requires w.now <= t
    ensures p in w.pending ==> var w' := Step(w, Reply(p));
              && Hit(w', p.session.user) && w'.memo[p.session.user].staff == p.staff
              && (Hit(w'.(now := t), p.session.user) <==> t < w.now + 30000)
    ensures user !in w.linked ==> var w' := Step(w, Link(user, true));
              && user in w'.linked && Hit(w', user) && w'.memo[user].staff
              && (Hit(w'.(now := t), user) <==> t < w.now + 30000)
    ensures user !in w.linked ==> user in Step(w, Link(user, false)).linked && Step(w, Link(user, false)).memo == w.memo
  {
  }

  // ---- the two bounds are exact ----

  const LATE := CAP_MS + 1

  /** A session of a week, and the moment its cap has passed. */
  const WEEK_LONG := Session("u", 0, 604800000)

  /** A lookup asked at `LATE`, a change made just after it, the answer remembered `slack` later, and then as
      long as the memo believes it. */
  function SlowLookup(w: World, change: Event, slack: nat): seq<Event> {
    [Tick(LATE), Lookup(WEEK_LONG, 0), change, Tick(LATE + slack),
     Reply(Started(Step(w, Tick(LATE)), WEEK_LONG)), Tick(LATE + slack + MEMO_MS - 1)]
  }

  /**
   * For every slack: a lookup that asked just before the account was linked puts "not staff" over the "staff"
   * the link remembered, and keeps the session past its cap alive until the very end of the bound.
   */
  lemma LinkIsMissedUntilTheBound(slack: nat)
    ensures var w0 := START.(slack := slack);
            var es := SlowLookup(w0, Link("u", true), slack);
            var w := Play(w0, es);
            && Prompt(w0, es) && w.linked == map["u" := LATE] && w.now == LATE + slack + MEMO_MS - 1
            && CapAt(WEEK_LONG) < w.now && ReturnedByRead(w, WEEK_LONG, 0) == WEEK_LONG
  {
    var w0 := START.(slack := slack);
    var p := Started(Step(w0, Tick(LATE)), WEEK_LONG);
    var w2 := Step(Step(w0, Tick(LATE)), Lookup(WEEK_LONG, 0));
    assert w2.pending == {p};
    PlaySix(w0, SlowLookup(w0, Link("u", true), slack));
  }

  /** For every slack: a lookup that asked just before the unlinking ends the session of a user who is no
      longer staff, until the very end of the bound. */
  lemma UnlinkIsMissedUntilTheBound(slack: nat)
    ensures var w0 := Step(START.(slack := slack), Link("u", true));
            var es := SlowLookup(w0, Unlink("u"), slack);
            var w := Play(w0, es);
            && Prompt(w0, es) && w.linked == map[] && w.unlinked == map["u" := LATE] && w.byDomain == {}
            && w.now == LATE + slack + MEMO_MS - 1
            && ReturnedByRead(w, WEEK_LONG, 0).expiresAt == CapAt(WEEK_LONG) < w.now
  {
    var w0 := Step(START.(slack := slack), Link("u", true));
    var p := Started(Step(w0, Tick(LATE)), WEEK_LONG);
    var w2 := Step(Step(w0, Tick(LATE)), Lookup(WEEK_LONG, 0));
    assert w2.pending == {p};
    PlaySix(w0, SlowLookup(w0, Unlink("u"), slack));
  }

  lemma FromThere(w: World, es: seq<Event>, i: nat)
    requires i < |es|
    ensures Play(w, es[i..]) == Play(Step(w, es[i]), es[i + 1..])
    ensures Prompt(w, es[i..]) <==>
            (es[i].Reply? ==> w.now <= es[i].p.answeredAt + w.slack) && Prompt(Step(w, es[i]), es[i + 1..])
  {
    assert es[i..][0] == es[i] && es[i..][1..] == es[i + 1..];
  }

  lemma PlaySix(w: World, es: seq<Event>)
    requires |es| == 6 && !es[0].Reply? && !es[1].Reply? && !es[2].Reply? && !es[3].Reply? && !es[5].Reply?
    ensures var w4 := Step(Step(Step(Step(w, es[0]), es[1]), es[2]), es[3]);
            && Play(w, es) == Step(Step(w4, es[4]), es[5])
            && (Prompt(w, es) <==> (es[4].Reply? ==> w4.now <= es[4].p.answeredAt + w4.slack))
  {
    var w1 := Step(w, es[0]);
    var w2 := Step(w1, es[1]);
    var w3 := Step(w2, es[2]);
    var w4 := Step(w3, es[3]);
    var w5 := Step(w4, es[4]);
    assert es[0..] == es;
    FromThere(w, es, 0);
    FromThere(w1, es, 1);
    FromThere(w2, es, 2);
    FromThere(w3, es, 3);
    FromThere(w4, es, 4);
    FromThere(w5, es, 5);
  }

  // ---- the code's own form ----

  const MEMO_MAX := 10000

  /** Not staff-shaped: stored past its cap. */
  predicate Uncapped(s: Session) { CapAt(s) < s.expiresAt }

  class StaffGuard {
    var rows: map<string, Session>
    var byDomain: set<User>
    var linked: set<User>
    var memo: map<User, Memo>
    /** The memo's users, longest remembered first. */
    var order: seq<User>

    ghost predicate Valid() reads this {
      (forall u :: u in order <==> u in memo) && (forall i, j :: 0 <= i < j < |order| ==> order[i] != order[j])
    }

    ghost function Believes(user: User, now: int): Option<bool> reads this {
      if user in memo && now < memo[user].until then Some(memo[user].staff) else None
    }

    /** By domain, by a fresh memo, else by the accounts. */
    ghost predicate IsStaff(user: User, now: int) reads this {
      user in byDomain || (if Believes(user, now).Some? then Believes(user, now).value else user in linked)
    }

    method EvictOldest()
      requires Valid() && order != []
      modifies this`memo, this`order
      ensures Valid() && memo == old(memo) - {old(order)[0]} && order == old(order)[1..]
    {
      var oldest := order[0];
      assert forall u :: u in order ==> u == oldest || u in order[1..];
      memo, order := memo - {oldest}, order[1..];
    }

    /** A full memo forgets its oldest user, and only that one; what it says of others stays. */
    method Remember(user: User, staff: bool, now: int)
      requires Valid()
      modifies this`memo, this`order
      ensures Valid()
      ensures var kept := if 10000 <= |old(order)| then old(memo) - {old(order)[0]} else old(memo);
              memo == kept[user := Memo(staff, now, now + MEMO_MS)]
    {
      if MEMO_MAX <= |order| { EvictOldest(); }
      if user !in memo { order := order + [user]; }
      memo := memo[user := Memo(staff, now, now + MEMO_MS)];
    }

    /** A staff email is known for free; otherwise the memo answers while it is fresh, else the accounts. */
    method Classify(user: User, now: int) returns (staff: bool)
      requires Valid()
      modifies this`memo, this`order
      ensures Valid() && rows == old(rows)
      ensures staff == old(IsStaff(user, now))
      ensures user in byDomain || old(Believes(user, now)).Some? ==> memo == old(memo)
      ensures user !in byDomain && old(Believes(user, now)).None? ==>
        user in memo && memo[user] == Memo(user in linked, now, now + MEMO_MS)
    {
      if user in byDomain { return true; }
      if user in memo && now < memo[user].until { return memo[user].staff; }
      staff := user in linked;
      Remember(user, staff, now);
    }

    /** The wrapped `findSession`: dead past the cap, and not refreshed at it. */
    method FindSession(token: string, refreshAfterMs: int, now: int) returns (r: Option<Session>, skipRefresh: bool)
      requires Valid()
      modifies this`memo, this`order
      ensures Valid() && (r.Some? <==> token in rows)
      ensures r.Some? ==>
        var s := rows[token];
        var staff := old(IsStaff(s.user, now));
        && r.value == Capped(s, MustDie(s, now), staff)
        && (skipRefresh <==> staff && Skippable(s, now, refreshAfterMs))
        && (skipRefresh <==>
            staff && s.expiresAt <= s.createdAt + 43200000 && s.expiresAt - refreshAfterMs <= now)
        && r.value.expiresAt == (if staff && s.createdAt + 43200000 < Min(s.expiresAt, now)
                                 then s.createdAt + 43200000 else s.expiresAt)
    {
      skipRefresh := false;
      if token !in rows { return None, false; }
      var s := rows[token];
      var overCap, pastCap := CapAt(s) < s.expiresAt, CapAt(s) < now;
      var mustDie := overCap && pastCap;
      var skippable := !overCap && s.expiresAt - refreshAfterMs <= now;
      if !mustDie && !skippable { return Some(s), false; }
      var staff := Classify(s.user, now);
      if !staff { return Some(s), false; }
      if mustDie { return Some(s.(expiresAt := CapAt(s))), false; }
      return Some(s), true;
    }

    /** When a user becomes staff, exactly their sessions on a longer lifetime end. */
    method BecameStaff(user: User, byAccount: bool, now: int)
      requires Valid()
      modifies this
      ensures Valid()
      ensures forall t :: t in rows <==>
        t in old(rows) && !(old(rows)[t].user == user && old(rows)[t].createdAt + 43200000 < old(rows)[t].expiresAt)
      ensures forall t :: t in rows ==> rows[t] == old(rows)[t]
      ensures if byAccount
              then linked == old(linked) + {user} && byDomain == old(byDomain) && Believes(user, now) == Some(true)
              else byDomain == old(byDomain) + {user} && linked == old(linked) && memo == old(memo)
    {
      if byAccount {
        linked := linked + {user};
        Remember(user, true, now);
      } else {
        byDomain := byDomain + {user};
      }
      rows := map t | t in rows && !(rows[t].user == user && Uncapped(rows[t])) :: rows[t];
    }
  }
}
