/**
 * The remembered-device cookie and its epoch race (packages/identity/src/known-device.ts and the revoke
 * hooks of packages/identity/src/lockout.ts), for one user with a password. The keyed fingerprint is taken
 * as injective, so an epoch IS its inputs; stored times have microseconds, the Dates read back milliseconds.
 */
module KnownDevice {
  import opened Common

  const MAX_AGE_SECONDS := 7776000
  const CLOCK_SKEW_SECONDS := 60

  /** EpochInputs, as read: milliseconds. */
  datatype Epoch = Epoch(userMs: int, password: string, credentialMs: int)

  datatype Device = Device(id: string, iat: int)

  datatype Cookie = Cookie(device: Device, epoch: Epoch)

  /** One "sign out other sessions" call after its before hook: the device it judged, and its snapshot. */
  datatype Call = Call(device: Device, inputs: Epoch)

  function Ms(micros: int): int { micros / 1000 }

  datatype User = User(updatedMicros: int, password: string, credentialMicros: int)

  function EpochOf(u: User): Epoch { Epoch(Ms(u.updatedMicros), u.password, Ms(u.credentialMicros)) }

  /** `validDevice`: accepted now, in seconds, against these inputs. */
  predicate Accepted(c: Cookie, inputs: Epoch, nowSeconds: int) {
    -CLOCK_SKEW_SECONDS <= nowSeconds - c.device.iat <= MAX_AGE_SECONDS && c.epoch == inputs
  }

  /** The compare-and-set found the value the snapshot was taken at. */
  predicate Wins(u: User, inputs: Epoch) { u.updatedMicros == inputs.userMs * 1000 }

  function NextMs(inputs: Epoch, nowMs: int): int { Max(nowMs, inputs.userMs + 1) }

  function AfterBump(u: User, nowMs: int): User { u.(updatedMicros := nowMs * 1000) }

  /** `bumpAndReissue` on the user's row. A loss with the very value still there (it has more precision
      than a Date) is no bump at all, so one is made. */
  function AfterReissue(u: User, inputs: Epoch, nowMs: int): User {
    if Wins(u, inputs) then u.(updatedMicros := NextMs(inputs, nowMs) * 1000)
    else if Ms(u.updatedMicros) == inputs.userMs then AfterBump(u, nowMs)
    else u
  }

  /** The cookie it sets, if any: minted from the snapshot and the value just written. */
  function Reissued(u: User, call: Call, nowMs: int): Option<Cookie> {
    if Wins(u, call.inputs) then Some(Cookie(call.device, call.inputs.(userMs := NextMs(call.inputs, nowMs)))) else None
  }

  // ---- runs ----

  /** `born`: the devices remembered by a sign-in. `signIns` and `kept` count, since the epoch last
      moved, the cookies set by sign-ins and by the re-issue that moved it; `moved` says it has. */
  datatype World = World(user: User, cookies: set<Cookie>, calls: set<Call>, born: set<Device>,
                         moved: bool, kept: nat, signIns: nat)

  datatype Event =
    | Ask(c: Cookie, nowSeconds: int)
    | Finish(call: Call, nowMs: int)
    | Touch(micros: int)
    | ChangePassword(password: string, micros: int)
    | SignIn(device: Device)

  function Moved(w: World, user: User, kept: set<Cookie>): World {
    w.(user := user, cookies := w.cookies + kept, moved := true, kept := |kept|, signIns := 0)
  }

  function Step(w: World, e: Event): World {
    match e
    case Ask(c, now) =>
      if c in w.cookies && Accepted(c, EpochOf(w.user), now)
      then w.(calls := w.calls + {Call(c.device, EpochOf(w.user))}) else w
    case Finish(call, now) =>
      if call !in w.calls then w
      else if Wins(w.user, call.inputs)
      then Moved(w, AfterReissue(w.user, call.inputs, now), {Reissued(w.user, call, now).value})
      else if AfterReissue(w.user, call.inputs, now) == w.user then w
      else Moved(w, AfterReissue(w.user, call.inputs, now), {})
    case Touch(micros) => Moved(w, w.user.(updatedMicros := micros), {})
    case ChangePassword(password, micros) => Moved(w, w.user.(password := password, credentialMicros := micros), {})
    case SignIn(device) =>
      w.(cookies := w.cookies + {Cookie(device, EpochOf(w.user))}, born := w.born + {device}, signIns := w.signIns + 1)
  }

  function Play(w: World, es: seq<Event>): World
    decreases |es|
  {
    if es == [] then w else Play(Step(w, es[0]), es[1..])
  }

  /** The cookies that would be accepted, age apart. */
  function Valid(w: World): set<Cookie> { set c | c in w.cookies && c.epoch == EpochOf(w.user) }

  /** Distinct timestamps: a write by the clock is later, to the millisecond, than what it replaces. */
  predicate ClockAhead(w: World, e: Event) {
    match e
    case Finish(call, now) =>
      !Wins(w.user, call.inputs) && Ms(w.user.updatedMicros) == call.inputs.userMs ==> Ms(w.user.updatedMicros) < now
    case Touch(micros) => Ms(w.user.updatedMicros) < Ms(micros)
    case ChangePassword(_, micros) => Ms(w.user.credentialMicros) < Ms(micros)
    case _ => true
  }

  ghost predicate ClockAlwaysAhead(w: World, es: seq<Event>)
    decreases |es|
  {
    es != [] ==> ClockAhead(w, es[0]) && ClockAlwaysAhead(Step(w, es[0]), es[1..])
  }

  predicate NotAhead(e: Epoch, now: Epoch) { e.userMs <= now.userMs && e.credentialMs <= now.credentialMs }

  /** Nothing issued or under way is ahead of the row, or of a device nobody signed in with. */
  ghost predicate Behind(w: World) {
    && (forall c :: c in w.cookies ==> NotAhead(c.epoch, EpochOf(w.user)) && c.device in w.born)
    && (forall call :: call in w.calls ==> NotAhead(call.inputs, EpochOf(w.user)) && call.device in w.born)
  }

  ghost predicate Counted(w: World) { w.moved ==> |Valid(w)| <= w.kept + w.signIns && w.kept <= 1 }

  ghost predicate Inv(w: World) { Behind(w) && Counted(w) }

  lemma StepKeepsBehind(w: World, e: Event)
    requires Behind(w) && ClockAhead(w, e)
    ensures Behind(Step(w, e)) && NotAhead(EpochOf(w.user), EpochOf(Step(w, e).user))
  {
  }

  /** A moved epoch leaves nothing valid but what was minted with it. */
  lemma MoveLeavesOnlyKept(w: World, user: User, kept: set<Cookie>)
    requires Behind(w) && !NotAhead(EpochOf(user), EpochOf(w.user)) && |kept| <= 1
    ensures Counted(Moved(w, user, kept))
  {
    SubsetSize(Valid(Moved(w, user, kept)), kept);
  }

  lemma StepKeepsCounted(w: World, e: Event)
    requires Inv(w) && ClockAhead(w, e)
    ensures Counted(Step(w, e))
  {
    match e
    case Finish(call, now) =>
      if call in w.calls && Wins(w.user, call.inputs) {
        MoveLeavesOnlyKept(w, AfterReissue(w.user, call.inputs, now), {Reissued(w.user, call, now).value});
      } else if call in w.calls && AfterReissue(w.user, call.inputs, now) != w.user {
        MoveLeavesOnlyKept(w, AfterReissue(w.user, call.inputs, now), {});
      }
    case Touch(micros) => MoveLeavesOnlyKept(w, w.user.(updatedMicros := micros), {});
    case ChangePassword(password, micros) =>
      MoveLeavesOnlyKept(w, w.user.(password := password, credentialMicros := micros), {});
    case SignIn(device) =>
      assert Valid(Step(w, e)) == Valid(w) + {Cookie(device, EpochOf(w.user))};
    case Ask(_, _) =>
      assert Valid(Step(w, e)) == Valid(w);
  }

  lemma StepKeepsInv(w: World, e: Event)
    requires Inv(w) && ClockAhead(w, e)
    ensures Inv(Step(w, e)) && NotAhead(EpochOf(w.user), EpochOf(Step(w, e).user))
  {
    StepKeepsBehind(w, e);
    StepKeepsCounted(w, e);
  }

  lemma {:induction false} PlayKeepsInv(w: World, es: seq<Event>)
    requires Inv(w) && ClockAlwaysAhead(w, es)
    ensures Inv(Play(w, es)) && NotAhead(EpochOf(w.user), EpochOf(Play(w, es).user))
    decreases |es|
  {
    if es != [] {
      StepKeepsInv(w, es[0]);
      PlayKeepsInv(Step(w, es[0]), es[1..]);
    }
  }

  /** Many devices may start out remembered; no call is under way, and nothing has moved the epoch yet. */
  ghost predicate Fresh(w: World) {
    !w.moved && w.kept == 0 && w.signIns == 0 && w.calls == {} &&
    forall c :: c in w.cookies ==> NotAhead(c.epoch, EpochOf(w.user)) && c.device in w.born
  }

  /**
   * Any number of concurrent "sign out other sessions", bumps and password changes, in any order: once the
   * epoch has moved at least once, at most one of the cookies that stood before is valid, besides those of
   * sign-ins since it last moved.
   */
  lemma AtMostOneSurvives(w: World, es: seq<Event>)
    requires Fresh(w) && ClockAlwaysAhead(w, es)
    ensures var w' := Play(w, es); w'.moved ==> |Valid(w')| <= 1 + w'.signIns
  {
    PlayKeepsInv(w, es);
  }

  /** What a cookie is accepted for: exactly ninety days from its birth, a minute of skew before it, and only under
      the very inputs it was made from. */
  lemma AcceptedIff(c: Cookie, inputs: Epoch, nowSeconds: int)
    ensures Accepted(c, inputs, nowSeconds) <==>
            c.device.iat - 60 <= nowSeconds <= c.device.iat + 90 * 24 * 3600 && c.epoch == inputs
  {
  }

  /** The user row moves on: a password change, an update, a bump end every cookie of the row as it was. */
  lemma MovedRowAcceptsNothingOld(u: User, v: User, c: Cookie, t: int, later: int)
    requires Accepted(c, EpochOf(u), t)
    requires u.password != v.password || Ms(u.updatedMicros) != Ms(v.updatedMicros) ||
             Ms(u.credentialMicros) != Ms(v.credentialMicros)
    ensures !Accepted(c, EpochOf(v), later)
  {
  }

  /**
   * The call that wins keeps its own browser remembered: from a credential that has not moved since the snapshot,
   * its cookie, of the same device and birth, is the one that is valid once the call has finished.
   */
  lemma WinnerKeepsItsCookie(w: World, call: Call, nowMs: int)
    requires call in w.calls && w.user.updatedMicros == call.inputs.userMs * 1000
    requires w.user.password == call.inputs.password && Ms(w.user.credentialMicros) == call.inputs.credentialMs
    ensures var w' := Step(w, Finish(call, nowMs));
            && (exists c :: c in Valid(w') && c.device == call.device)
            && Ms(w'.user.updatedMicros) > call.inputs.userMs && Ms(w'.user.updatedMicros) >= nowMs
            && w'.user.password == w.user.password && w'.user.credentialMicros == w.user.credentialMicros
  {
    var w' := Step(w, Finish(call, nowMs));
    var c := Reissued(w.user, call, nowMs).value;
    assert c in w'.cookies && c.epoch == EpochOf(w'.user);
  }

  /**
   * "Sign out other sessions", start to end with nobody in between: the browser that asked, on a cookie accepted at
   * the time, is remembered still, under a cookie of its own device and birth, and no other cookie is left.
   */
  lemma AskingBrowserStaysRemembered(w: World, c: Cookie, nowSeconds: int, nowMs: int)
    requires Inv(w) && c in w.cookies && Accepted(c, EpochOf(w.user), nowSeconds) && w.user.updatedMicros % 1000 == 0
    ensures var call := Call(c.device, EpochOf(w.user));
            var asked := Step(w, Ask(c, nowSeconds));
            var w' := Step(asked, Finish(call, nowMs));
            && call in asked.calls && c !in Valid(w')
            && exists kept: Cookie :: kept.device == c.device && Valid(w') == {kept}
  {
    var call := Call(c.device, EpochOf(w.user));
    var asked := Step(w, Ask(c, nowSeconds));
    var w' := Step(asked, Finish(call, nowMs));
    StepKeepsInv(w, Ask(c, nowSeconds));
    StepKeepsInv(asked, Finish(call, nowMs));
    var kept := Reissued(asked.user, call, nowMs).value;
    assert kept in Valid(w');
    forall other | other in Valid(w')
      ensures other == kept
    {
      assert other in asked.cookies ==> NotAhead(other.epoch, EpochOf(asked.user));
    }
  }

  /** Where the password did move in between, the winner's cookie is dead on arrival. */
  lemma WinnerAfterPasswordChangeKeepsNothing(w: World, call: Call, nowMs: int)
    requires Inv(w) && call in w.calls && w.user.updatedMicros == call.inputs.userMs * 1000
    requires w.user.password != call.inputs.password || Ms(w.user.credentialMicros) != call.inputs.credentialMs
    ensures Valid(Step(w, Finish(call, nowMs))) == {}
  {
    StepKeepsInv(w, Finish(call, nowMs));
  }

  /** Losing the race re-issues nothing. */
  lemma LoserReissuesNothing(w: World, call: Call, nowMs: int)
    requires w.user.updatedMicros != call.inputs.userMs * 1000
    ensures Reissued(w.user, call, nowMs).None? && Step(w, Finish(call, nowMs)).cookies == w.cookies
  {
  }

  /** A write of the row and a password change move the epoch under every cookie; nothing else of the row changes. */
  lemma RowWritesMoveTheEpoch(w: World, micros: int, password: string)
    ensures Step(w, Touch(micros)).user == User(micros, w.user.password, w.user.credentialMicros)
    ensures Step(w, ChangePassword(password, micros)).user == User(w.user.updatedMicros, password, micros)
    ensures Ms(micros) != Ms(w.user.updatedMicros) ==> Valid(Step(w, Touch(micros))) !! Valid(w)
    ensures password != w.user.password ==> Valid(Step(w, ChangePassword(password, micros))) !! Valid(w)
  {
  }

  /** A finished call has ended every cookie of its snapshot, its own old one included, for good. */
  lemma FinishEndsTheSnapshot(w: World, call: Call, nowMs: int, es: seq<Event>, c: Cookie)
    requires Inv(w) && call in w.calls && ClockAlwaysAhead(w, [Finish(call, nowMs)] + es)
    requires c.epoch == call.inputs
    ensures c !in Valid(Play(w, [Finish(call, nowMs)] + es))
  {
    var all := [Finish(call, nowMs)] + es;
    assert all[0] == Finish(call, nowMs) && all[1..] == es;
    StepKeepsInv(w, all[0]);
    PlayKeepsInv(Step(w, all[0]), es);
  }

  /** A chain of re-issues keeps the device and its birth: without a sign-in no new pair appears. */
  lemma {:induction false} ReissuesKeepDeviceAndIat(w: World, es: seq<Event>, c: Cookie)
    requires Inv(w) && ClockAlwaysAhead(w, es) && (forall e :: e in es ==> !e.SignIn?) && c in Play(w, es).cookies
    ensures c.device in w.born
    decreases |es|
  {
    if es != [] {
      assert es[0] in es;
      StepKeepsInv(w, es[0]);
      ReissuesKeepDeviceAndIat(Step(w, es[0]), es[1..], c);
    }
  }

  /** So no cookie, however often re-issued, is accepted after its device's sign-in plus the maximum age. */
  lemma NoCookieOutlivesItsSignIn(w: World, es: seq<Event>, c: Cookie, inputs: Epoch, nowSeconds: int)
    requires Inv(w) && ClockAlwaysAhead(w, es) && (forall e :: e in es ==> !e.SignIn?)
    requires c in Play(w, es).cookies && Accepted(c, inputs, nowSeconds)
    ensures c.device in w.born && nowSeconds <= c.device.iat + MAX_AGE_SECONDS
  {
    ReissuesKeepDeviceAndIat(w, es, c);
  }

  /** A bump ends the remembered devices if and only if it changes the millisecond: written in the same
      one as the last update, "sign out everywhere" leaves every cookie valid. */
  lemma BumpEndsDevicesIff(w: World, micros: int)
    requires Valid(w) != {}
    ensures Valid(w) * Valid(Step(w, Touch(micros))) == {} <==> Ms(micros) != Ms(w.user.updatedMicros)
  {
    var c :| c in Valid(w);
    if Ms(micros) == Ms(w.user.updatedMicros) {
      assert c in Valid(w) * Valid(Step(w, Touch(micros)));
    }
  }

  // ---- the code's own form ----

  class Account {
    var user: User
    var cookies: set<Cookie>

    /** Every cookie accepted until now is refused from now on, at any time, unless the bump is written in the
        very millisecond of the last update; the password's part of the epoch stays. */
    method BumpDeviceEpoch(nowMs: int)
      modifies this`user
      ensures user == AfterBump(old(user), nowMs)
      ensures nowMs != Ms(old(user.updatedMicros)) ==>
        forall c, t, u :: Accepted(c, EpochOf(old(user)), t) ==> !Accepted(c, EpochOf(user), u)
      ensures nowMs == Ms(old(user.updatedMicros)) ==> EpochOf(user) == EpochOf(old(user))
    {
      user := user.(updatedMicros := nowMs * 1000);
    }

    /** After "sign out OTHER sessions": bump, and re-issue this browser's cookie only if this call bumped. */
    method BumpAndReissue(call: Call, nowMs: int)
      modifies this`user, this`cookies
      ensures user == AfterReissue(old(user), call.inputs, nowMs)
      ensures cookies == match Reissued(old(user), call, nowMs)
                         case Some(c) => old(cookies) + {c}
                         case None => old(cookies)
      // Won: one cookie, of the call's device and birth, accepted from then on unless the password part has moved.
      ensures old(user.updatedMicros) == call.inputs.userMs * 1000 ==>
        exists c :: cookies == old(cookies) + {c} && c.device == call.device &&
          (old(user.password) == call.inputs.password && Ms(old(user.credentialMicros)) == call.inputs.credentialMs ==>
             forall t :: call.device.iat - 60 <= t <= call.device.iat + 7776000 ==> Accepted(c, EpochOf(user), t))
      // Lost: none; and the row has moved past the snapshot all the same, by this call if by nobody else.
      ensures old(user.updatedMicros) != call.inputs.userMs * 1000 ==>
        cookies == old(cookies) &&
        (Ms(old(user.updatedMicros)) == call.inputs.userMs ==> Ms(user.updatedMicros) == nowMs) &&
        (Ms(old(user.updatedMicros)) != call.inputs.userMs ==> user == old(user))
      ensures user.password == old(user.password) && user.credentialMicros == old(user.credentialMicros)
    {
      var next := Max(nowMs, call.inputs.userMs + 1);
      var won := 0;
      if user.updatedMicros == call.inputs.userMs * 1000 {
        user := user.(updatedMicros := next * 1000);
        won := 1;
      }
      if won == 0 {
        if Ms(user.updatedMicros) == call.inputs.userMs { BumpDeviceEpoch(nowMs); }
        return;
      }
      cookies := cookies + {Cookie(call.device, call.inputs.(userMs := next))};
    }

    /**
     * After a completed sign-in: whatever cookie this browser then holds is accepted, now, under the present
     * epoch. One accepted already stays as it is, birth included; only otherwise a new device is born.
     */
    method RememberDevice(presented: Option<Cookie>, id: string, nowSeconds: int) returns (browser: Cookie)
      modifies this`cookies
      ensures Accepted(browser, EpochOf(user), nowSeconds)
      ensures Some(browser) == presented ==> cookies == old(cookies)
      ensures Some(browser) != presented ==>
        && (presented.Some? ==> !Accepted(presented.value, EpochOf(user), nowSeconds))
        && browser.device == Device(id, nowSeconds) && cookies == old(cookies) + {browser}
    {
      if presented.Some? && Accepted(presented.value, EpochOf(user), nowSeconds) { return presented.value; }
      browser := Cookie(Device(id, nowSeconds), EpochOf(user));
      cookies := cookies + {browser};
    }
  }
}
