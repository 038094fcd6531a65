/**
 * Cache-first session revocation (`purgeSessions`, `revokeUserSessions`, `unlinkMicrosoftAccount` in
 * packages/identity/src/create-identity.ts) over the degrading storage adapter
 * (packages/identity/src/storage.ts). Any cache operation may fail, before or after it took effect.
 */
module Revocation {
  import opened Common

  type Token = string
  type User = string

  const BATCH := 500

  /** How one cache operation goes. */
  datatype Fault = Fine | FailsBefore | FailsAfter

  datatype PurgeEnd = Ended(revoked: nat) | StoreUnavailable

  predicate TookEffect(f: Fault) { !f.FailsBefore? }

  function Degrades(f: Fault): nat { if f.Fine? then 0 else 1 }

  // ---- the user's own list of tokens, the second source ----

  /** The cached copies, and how often the cache was asked and degraded. */
  datatype Cached = Cached(tokens: set<Token>, asked: nat, degraded: nat)

  function AfterDelete(s: Cached, faults: nat -> Fault, token: Token): Cached {
    Cached(if TookEffect(faults(s.asked)) then s.tokens - {token} else s.tokens,
           s.asked + 1, s.degraded + Degrades(faults(s.asked)))
  }

  /** A failed read degrades to "absent". */
  predicate ReadsPresent(s: Cached, faults: nat -> Fault, token: Token) { faults(s.asked).Fine? && token in s.tokens }

  function AfterRead(s: Cached, faults: nat -> Fault): Cached {
    s.(asked := s.asked + 1, degraded := s.degraded + Degrades(faults(s.asked)))
  }

  /** One listed token: read, and deleted only if it was there. */
  function AfterListed(s: Cached, faults: nat -> Fault, token: Token): Cached {
    if ReadsPresent(s, faults, token) then AfterDelete(AfterRead(s, faults), faults, token) else AfterRead(s, faults)
  }

  function AfterAllListed(s: Cached, faults: nat -> Fault, listed: seq<Token>): Cached
    decreases |listed|
  {
    if listed == [] then s else AfterAllListed(AfterListed(s, faults, listed[0]), faults, listed[1..])
  }

  /** The listed tokens found cached, in turn. */
  function FoundListed(s: Cached, faults: nat -> Fault, listed: seq<Token>): nat
    decreases |listed|
  {
    if listed == [] then 0
    else (if ReadsPresent(s, faults, listed[0]) then 1 else 0)
         + FoundListed(AfterListed(s, faults, listed[0]), faults, listed[1..])
  }

  /** Nothing but the listed copies goes; with no degradation every one of them does, each counted once. */
  lemma {:induction false} ListedGoOrDegrade(s: Cached, faults: nat -> Fault, listed: seq<Token>)
    ensures var s' := AfterAllListed(s, faults, listed);
            && s.degraded <= s'.degraded && s'.tokens <= s.tokens
            && (forall t :: t in s.tokens && t !in listed ==> t in s'.tokens)
            && (s'.degraded == s.degraded ==>
                  && (forall t :: t in listed ==> t !in s'.tokens)
                  && FoundListed(s, faults, listed) == |s.tokens| - |s'.tokens|)
    decreases |listed|
  {
    if listed != [] {
      ListedGoOrDegrade(AfterListed(s, faults, listed[0]), faults, listed[1..]);
    }
  }

  /** The cache after the whole list was gone through, its own key included; and whether that key is gone. */
  function AfterList(s: Cached, faults: nat -> Fault, stored: seq<Token>): (Cached, bool) {
    var listed := if faults(s.asked).Fine? then stored else [];
    var s' := AfterAllListed(AfterRead(s, faults), faults, listed);
    (s'.(asked := s'.asked + 1, degraded := s'.degraded + Degrades(faults(s'.asked))), TookEffect(faults(s'.asked)))
  }

  /** Some copy the list named is still cached, and nothing names it any more. */
  ghost predicate Orphans(s: Cached, faults: nat -> Fault, stored: seq<Token>) {
    AfterList(s, faults, stored).1 && exists t :: t in stored && t in AfterList(s, faults, stored).0.tokens
  }

  /** With no degradation no listed copy is left; so an orphan is always reported as a failure. */
  lemma OrphansAreReported(s: Cached, faults: nat -> Fault, stored: seq<Token>)
    ensures var s' := AfterList(s, faults, stored).0;
            && s.degraded <= s'.degraded
            && (s'.degraded == s.degraded ==>
                  AfterList(s, faults, stored).1 && forall t :: t in stored ==> t !in s'.tokens)
            && (Orphans(s, faults, stored) ==> s.degraded < s'.degraded)
            && (forall t :: t in s.tokens && t !in stored ==> t in s'.tokens)
            && s'.tokens <= s.tokens
  {
    ListedGoOrDegrade(AfterRead(s, faults), faults, if faults(s.asked).Fine? then stored else []);
  }

  /**
   * Yet it happens: the delete of a listed copy failed, the delete of the list then took effect, and the
   * operation reported failure. A re-run finds neither a row nor a list that leads to the copy.
   */
  lemma ListedCopyCanBeOrphaned()
    ensures Orphans(Cached({"a"}, 0, 0), n => if n == 2 then FailsBefore else Fine, ["a"])
  {
    var faults: nat -> Fault := n => if n == 2 then FailsBefore else Fine;
    var s1 := AfterRead(Cached({"a"}, 0, 0), faults);
    assert AfterAllListed(s1, faults, ["a"]) == AfterListed(s1, faults, "a");
    assert "a" in ["a"];
  }

  /** A read of one token that fails does the same: it reads as absent, and its copy is not deleted. */
  lemma UnreadCopyCanBeOrphaned()
    ensures Orphans(Cached({"a"}, 0, 0), n => if n == 1 then FailsBefore else Fine, ["a"])
  {
    var faults: nat -> Fault := n => if n == 1 then FailsBefore else Fine;
    var s1 := AfterRead(Cached({"a"}, 0, 0), faults);
    assert AfterAllListed(s1, faults, ["a"]) == AfterListed(s1, faults, "a");
    assert "a" in ["a"];
  }

  /** A delete whose answer is lost has deleted all the same, and is counted as a failure; one that fails before has
      not; each is asked for once. */
  lemma DeleteUnderFaults(s: Cached, faults: nat -> Fault, token: Token)
    ensures var s' := AfterDelete(s, faults, token);
            && s'.asked == s.asked + 1
            && match faults(s.asked)
               case Fine => s'.tokens == s.tokens - {token} && s'.degraded == s.degraded
               case FailsAfter => s'.tokens == s.tokens - {token} && s'.degraded == s.degraded + 1
               case FailsBefore => s'.tokens == s.tokens && s'.degraded == s.degraded + 1
  {
  }

  /**
   * Exactly when: of the copies a list names, one can be lost, still served and named by nothing, if and only if
   * one is cached when the list is gone through. (A read of the list that fails is enough: it reads as empty, and
   * the list is then deleted.) The rows go first, with their copies, so these are the cached copies without a row.
   */
  lemma SomeScheduleLosesIff(s: Cached, stored: seq<Token>)
    ensures (exists faults :: Orphans(s, faults, stored)) <==> exists t :: t in stored && t in s.tokens
  {
    if faults :| Orphans(s, faults, stored) {
      OrphansAreReported(s, faults, stored);
      var t :| t in stored && t in AfterList(s, faults, stored).0.tokens;
      assert t in s.tokens;
    }
    if t :| t in stored && t in s.tokens {
      var faults: nat -> Fault := n => if n == s.asked then FailsBefore else Fine;
      assert AfterList(s, faults, stored) == (s.(asked := s.asked + 2, degraded := s.degraded + 1), true);
      assert Orphans(s, faults, stored);
    }
  }

  /** How often the cache is asked while n rows are purged in batches. */
  function RowAsks(n: nat): nat {
    if n == 0 then 0 else Min(BATCH, n) + 1 + RowAsks(n - Min(BATCH, n))
  }

  class Sessions {
    const faults: nat -> Fault
    /** Whether the client is ready when the cache is asked for the n-th time. */
    const ready: nat -> bool
    var rows: map<Token, User>
    var cache: set<Token>
    var lists: map<User, seq<Token>>
    var asked: nat
    var degraded: nat
    var users: set<User>
    var stamps: nat
    var microsoft: map<User, nat>

    /** A cache that is not ready fails before it is asked. */
    function FaultAt(n: nat): Fault { if ready(n) then faults(n) else FailsBefore }

    /** The cache serves all of these well. */
    ghost predicate FineBetween(lo: nat, hi: nat) { forall n :: lo <= n < hi ==> ready(n) && faults(n).Fine? }

    /** The cache fails once, when it is asked for the n-th time, before it has done anything. */
    ghost predicate FailsOnce(n: nat) {
      forall m :: ready(m) && if m == n then faults(m).FailsBefore? else faults(m).Fine?
    }

    ghost function View(): Cached reads this { Cached(cache, asked, degraded) }

    ghost function Mine(who: Option<User>): set<Token> reads this {
      set t | t in rows && (who.Some? ==> rows[t] == who.value)
    }

    ghost function Listed(u: User): seq<Token> reads this { if u in lists then lists[u] else [] }

    method CacheDelete(token: Token)
      modifies this`cache, this`asked, this`degraded
      ensures View() == AfterDelete(old(View()), FaultAt, token)
    {
      if TookEffect(FaultAt(asked)) { cache := cache - {token}; }
      if !FaultAt(asked).Fine? { degraded := degraded + 1; }
      asked := asked + 1;
    }

    method CacheHas(token: Token) returns (present: bool)
      modifies this`asked, this`degraded
      ensures present == ReadsPresent(old(View()), FaultAt, token) && View() == AfterRead(old(View()), FaultAt)
    {
      present := FaultAt(asked).Fine? && token in cache;
      if !FaultAt(asked).Fine? { degraded := degraded + 1; }
      asked := asked + 1;
    }

    method ReadList(u: User) returns (listed: seq<Token>)
      modifies this`asked, this`degraded
      ensures View() == AfterRead(old(View()), FaultAt)
      ensures listed == if FaultAt(old(asked)).Fine? then Listed(u) else []
    {
      listed := if FaultAt(asked).Fine? && u in lists then lists[u] else [];
      if !FaultAt(asked).Fine? { degraded := degraded + 1; }
      asked := asked + 1;
    }

    method DeleteList(u: User)
      modifies this`lists, this`asked, this`degraded
      ensures lists == if TookEffect(FaultAt(old(asked))) then old(lists) - {u} else old(lists)
      ensures asked == old(asked) + 1 && degraded == old(degraded) + Degrades(FaultAt(old(asked)))
    {
      if TookEffect(FaultAt(asked)) { lists := lists - {u}; }
      if !FaultAt(asked).Fine? { degraded := degraded + 1; }
      asked := asked + 1;
    }

    method IsAvailable() returns (up: bool)
      modifies this`asked
      ensures up == ready(old(asked)) && asked == old(asked) + 1
    {
      up := ready(asked);
      asked := asked + 1;
    }

    /** At most a batch of the rows asked for, in whatever order the database likes. */
    method FindMany(who: Option<User>) returns (tokens: seq<Token>)
      ensures forall t :: t in tokens ==> t in Mine(who)
      ensures |tokens| == Min(500, |Mine(who)|)
      ensures forall i, j :: 0 <= i < j < |tokens| ==> tokens[i] != tokens[j]
    {
      var todo := set t | t in rows && (who.Some? ==> rows[t] == who.value);
      tokens := [];
      ghost var all := todo;
      assert all == Mine(who);
      while todo != {} && |tokens| < BATCH
        invariant todo <= all && |tokens| <= BATCH && |all| == |todo| + |tokens|
        invariant forall t :: t in tokens ==> t in all && t !in todo
        invariant forall i, j :: 0 <= i < j < |tokens| ==> tokens[i] != tokens[j]
        decreases todo
      {
        var t :| t in todo;
        todo := todo - {t};
        tokens := tokens + [t];
      }
    }

    /** A row may go only once no cached copy of it can be served. */
    method DeleteRows(tokens: seq<Token>)
      requires forall t :: t in tokens ==> t !in cache
      modifies this`rows
      ensures rows == old(rows) - set t | t in tokens
    {
      rows := rows - set t | t in tokens;
    }

    /** The cached copies of one batch, all deleted and verified, or nothing more is touched. */
    method DropCopies(tokens: seq<Token>) returns (verified: bool)
      modifies this`cache, this`asked, this`degraded
      ensures verified ==> forall t :: t in tokens ==> t !in cache
      ensures cache <= old(cache) && forall t :: t in old(cache) && t !in tokens ==> t in cache
      ensures asked == old(asked) + |tokens| + 1
      ensures verified <==> degraded == old(degraded) && ready(asked - 1)
      ensures FineBetween(old(asked), old(asked) + |tokens| + 1) ==> verified
    {
      var before := degraded;
      var i := 0;
      while i < |tokens|
        invariant i <= |tokens| && before <= degraded && asked == old(asked) + i
        invariant degraded == before ==> forall j :: 0 <= j < i ==> tokens[j] !in cache
        invariant cache <= old(cache) && forall t :: t in old(cache) && t !in tokens ==> t in cache
        invariant FineBetween(old(asked), old(asked) + i) ==> degraded == before
      {
        CacheDelete(tokens[i]);
        i := i + 1;
      }
      var up := IsAvailable();
      verified := degraded == before && up;
    }

    /** The second source: the copies the user's own list names, then the list. */
    method PurgeList(u: User) returns (verified: bool, found: nat)
      modifies this`cache, this`lists, this`asked, this`degraded
      ensures var (s, gone) := AfterList(old(View()), FaultAt, old(Listed(u)));
              (cache, degraded) == (s.tokens, s.degraded) && lists == if gone then old(lists) - {u} else old(lists)
      ensures verified ==> (forall t :: t in old(Listed(u)) ==> t !in cache) && u !in lists
      ensures verified ==> found == |old(cache)| - |cache|
      ensures 0 < asked && (verified <==> degraded == old(degraded) && ready(asked - 1))
      ensures FailsOnce(old(asked)) ==> !verified && cache == old(cache) && u !in lists
      ensures cache <= old(cache) && forall t :: t in old(cache) && t !in old(Listed(u)) ==> t in cache
      ensures (forall n :: ready(n) && faults(n).Fine?) ==> verified
    {
      OrphansAreReported(View(), FaultAt, Listed(u));
      var before := degraded;
      ghost var s0 := View();
      var listed := ReadList(u);
      ghost var s1 := View();
      ListedGoOrDegrade(s1, FaultAt, listed);
      found := 0;
      var i := 0;
      while i < |listed|
        invariant i <= |listed| && before <= degraded && lists == old(lists)
        invariant AfterAllListed(s1, FaultAt, listed) == AfterAllListed(View(), FaultAt, listed[i..])
        invariant FoundListed(s1, FaultAt, listed) == found + FoundListed(View(), FaultAt, listed[i..])
        invariant (forall n :: ready(n) && faults(n).Fine?) ==> degraded == before
      {
        assert listed[i..][0] == listed[i] && listed[i..][1..] == listed[i + 1..];
        var present := CacheHas(listed[i]);
        if present {
          CacheDelete(listed[i]);
          found := found + 1;
        }
        i := i + 1;
      }
      DeleteList(u);
      var up := IsAvailable();
      verified := degraded == before && up;
    }

    /** Deletes the rows of one batch whose copies are verified gone. */
    method PurgeBatch(who: Option<User>, tokens: seq<Token>) returns (verified: bool)
      requires tokens != [] && forall t :: t in tokens ==> t in Mine(who)
      requires forall i, j :: 0 <= i < j < |tokens| ==> tokens[i] != tokens[j]
      modifies this`rows, this`cache, this`asked, this`degraded
      ensures cache <= old(cache) && forall t :: t in old(cache) && t !in tokens ==> t in cache
      ensures !verified ==> rows == old(rows)
      ensures verified ==> rows == old(rows) - (set t | t in tokens) && forall t :: t in tokens ==> t !in cache
      ensures verified ==> |Mine(who)| + |tokens| == |old(Mine(who))|
      ensures asked == old(asked) + |tokens| + 1
      ensures FineBetween(old(asked), old(asked) + |tokens| + 1) ==> verified
    {
      verified := DropCopies(tokens);
      if verified {
        DeleteRows(tokens);
        BatchGone(old(Mine(who)), Mine(who), tokens);
      }
    }

    /** Cache first, then rows, a batch at a time. */
    method PurgeRows(who: Option<User>) returns (verified: bool, revoked: nat)
      modifies this`rows, this`cache, this`asked, this`degraded
      ensures forall t :: t in old(rows) && t !in rows ==> t in old(Mine(who)) && t !in cache
      ensures forall t :: t in rows ==> t in old(rows) && rows[t] == old(rows)[t]
      ensures cache <= old(cache) && forall t :: t in old(cache) && t !in old(Mine(who)) ==> t in cache
      ensures verified ==> Mine(who) == {} && cache == old(cache) - old(Mine(who)) && revoked == |old(Mine(who))|
      ensures verified ==> asked == old(asked) + RowAsks(|old(Mine(who))|)
      ensures FineBetween(old(asked), old(asked) + RowAsks(|old(Mine(who))|)) ==> verified
    {
      var previous := None;
      revoked := 0;
      while true
        invariant cache <= old(cache) && forall t :: t in old(cache) && t !in old(Mine(who)) ==> t in cache
        invariant forall t :: t in old(rows) && t !in rows ==> t in old(Mine(who)) && t !in cache
        invariant forall t :: t in rows ==> t in old(rows) && rows[t] == old(rows)[t]
        invariant previous.Some? ==> previous.value !in rows
        invariant revoked + |Mine(who)| == |old(Mine(who))|
        invariant old(asked) <= asked && asked + RowAsks(|Mine(who)|) == old(asked) + RowAsks(|old(Mine(who))|)
        decreases |Mine(who)|
      {
        var tokens := FindMany(who);
        assert tokens != [] ==> tokens[0] in Mine(who);
        if tokens == [] || Some(tokens[0]) == previous {
          assert Mine(who) == {};
          forall t | t in old(Mine(who))
            ensures t !in cache
          {
            assert t in rows ==> t in Mine(who);
          }
          return true, revoked;
        }
        previous := Some(tokens[0]);
        verified := PurgeBatch(who, tokens);
        if !verified { return; }
        revoked := revoked + |tokens|;
      }
    }

    /**
     * However the cache fails, no row goes while its cached copy may survive, so whatever is still cached
     * can still be found by its row; and a normal return leaves no row and no cached copy of any row or of
     * any token on the user's list, each counted.
     *
     * A copy that only the list names is another matter. If every cached copy the list names has a row, then every
     * one that survives the call, however it went, still has one. But if some copy has no row, a single failure,
     * of the read of the list, leaves it cached with neither row nor list.
     */
    method Purge(who: Option<User>) returns (r: PurgeEnd)
      modifies this`rows, this`cache, this`lists, this`asked, this`degraded
      ensures forall t :: t in old(rows) && t !in rows ==> t in old(Mine(who)) && t !in cache
      ensures forall t :: t in rows ==> t in old(rows) && rows[t] == old(rows)[t]
      ensures r.Ended? ==> Mine(who) == {} && forall t :: t in old(Mine(who)) ==> t !in cache
      ensures r.Ended? && who.Some? ==> who.value !in lists && forall t :: t in old(Listed(who.value)) ==> t !in cache
      ensures r.Ended? ==> r.revoked == |old(Mine(who))| + |old(cache) - old(Mine(who))| - |cache|
      ensures cache <= old(cache)
      ensures forall t :: t in old(cache) && t !in old(Mine(who)) && (who.Some? ==> t !in old(Listed(who.value)))
                ==> t in cache
      ensures who.Some? && (forall t :: t in old(Listed(who.value)) && t in old(cache) ==> t in old(Mine(who))) ==>
        forall t :: t in old(Listed(who.value)) && t in cache ==> t in Mine(who)
      ensures who.Some? && FailsOnce(old(asked) + 1 + RowAsks(|old(Mine(who))|)) ==>
        && r.StoreUnavailable? && who.value !in lists
        && forall t :: t in old(Listed(who.value)) && t in old(cache) && t !in old(rows) ==> t in cache && t !in rows
      ensures (forall n :: ready(n) && faults(n).Fine?) ==> r.Ended?
    {
      var up := IsAvailable();
      if !up { return StoreUnavailable; }
      var verified, revoked := PurgeRows(who);
      if !verified { return StoreUnavailable; }
      if who.None? { return Ended(revoked); }
      var listGone, found := PurgeList(who.value);
      r := if listGone then Ended(revoked + found) else StoreUnavailable;
    }

    /** One user's sessions, then their remembered devices (`user.updatedAt` moves). */
    method RevokeUserSessions(u: User) returns (r: PurgeEnd)
      modifies this`rows, this`cache, this`lists, this`asked, this`degraded, this`stamps
      ensures forall t :: t in old(rows) && t !in rows ==> old(rows)[t] == u && t !in cache
      ensures forall t :: t in rows ==> t in old(rows) && rows[t] == old(rows)[t]
      ensures cache <= old(cache)
      ensures r.StoreUnavailable? ==> stamps == old(stamps)
      ensures r.Ended? ==> stamps == old(stamps) + (if u in users then 1 else 0)
      ensures r.Ended? ==> r.revoked == |old(Mine(Some(u)))| + |old(cache) - old(Mine(Some(u)))| - |cache|
      ensures (forall n :: ready(n) && faults(n).Fine?) ==> r.Ended?
      ensures r.Ended? ==> Mine(Some(u)) == {} && u !in lists &&
                           forall t :: t in old(Mine(Some(u))) || t in old(Listed(u)) ==> t !in cache
    {
      r := Purge(Some(u));
      if r.Ended? && u in users { stamps := stamps + 1; }
    }

    /**
     * The sessions end before the link does: a Microsoft account goes only once every session that stood at
     * the call is gone, rows and copies; until then nothing changed that a retry needs. The old identity may sign in
     * again, `again`, between the revoke and the delete: those sessions end too before the call answers.
     */
    method UnlinkMicrosoftAccount(u: User, again: set<Token>) returns (r: Option<nat>)
      requires forall t :: t in again ==> t !in rows && t !in cache
      modifies this`rows, this`cache, this`lists, this`asked, this`degraded, this`stamps, this`microsoft
      ensures microsoft == old(microsoft) || microsoft == old(microsoft) - {u}
      ensures microsoft != old(microsoft) ==>
        && Mine(Some(u)) <= again
        && forall t :: (t in old(Mine(Some(u))) || t in old(Listed(u))) && t !in again ==> t !in cache
      ensures r.Some? && r.value != 0 ==>
        && u in old(microsoft) && u !in microsoft && r.value == old(microsoft)[u]
        && Mine(Some(u)) == {}
        && forall t :: t in old(Mine(Some(u))) || t in old(Listed(u)) || t in again ==> t !in cache
      ensures r == Some(0) ==> microsoft == old(microsoft) && rows == old(rows) && cache == old(cache)
      ensures r == Some(0) ==> u !in users || u !in old(microsoft) || old(microsoft)[u] == 0
      ensures (forall n :: ready(n) && faults(n).Fine?) ==>
        r == Some(if u in users && u in old(microsoft) then old(microsoft)[u] else 0)
      ensures forall t :: t in old(rows) && t !in rows ==> old(rows)[t] == u && t !in cache
    {
      var up := IsAvailable();
      if !up { return None; }
      if u !in users || u !in microsoft || microsoft[u] == 0 { return Some(0); }
      var first := RevokeUserSessions(u);
      if first.StoreUnavailable? { return None; }
      r := EndLink(u, again);
    }

    /** The accounts go, and then whatever signed in through them meanwhile. */
    method EndLink(u: User, again: set<Token>) returns (r: Option<nat>)
      requires u in microsoft && Mine(Some(u)) == {} && forall t :: t in again ==> t !in rows && t !in cache
      modifies this`rows, this`cache, this`lists, this`asked, this`degraded, this`microsoft
      ensures microsoft == old(microsoft) - {u}
      ensures cache <= old(cache) + again && Mine(Some(u)) <= again
      ensures forall t :: t in rows && t !in again ==> t in old(rows) && rows[t] == old(rows)[t]
      ensures forall t :: t in old(rows) ==> t in rows
      ensures r.Some? ==> r.value == old(microsoft)[u] && Mine(Some(u)) == {} && forall t :: t in again ==> t !in cache
      ensures (forall n :: ready(n) && faults(n).Fine?) ==> r.Some?
    {
      SignIn(u, again);
      var removed := microsoft[u];
      microsoft := microsoft - {u};
      assert forall t :: t in old(rows) && old(rows)[t] == u ==> t in old(Mine(Some(u)));
      assert Mine(Some(u)) == again;
      var second := Purge(Some(u));
      r := if second.StoreUnavailable? then None else Some(removed);
    }

    /** Sessions that somebody else starts. */
    method SignIn(u: User, tokens: set<Token>)
      modifies this`rows, this`cache
      ensures rows == old(rows) + (map t | t in tokens :: u) && cache == old(cache) + tokens
    {
      rows := rows + map t | t in tokens :: u;
      cache := cache + tokens;
    }

    static lemma BatchGone(before: set<Token>, after: set<Token>, tokens: seq<Token>)
      requires after == before - set t | t in tokens
      requires forall t :: t in tokens ==> t in before
      requires forall i, j :: 0 <= i < j < |tokens| ==> tokens[i] != tokens[j]
      ensures |before| == |after| + |tokens|
    {
      SeqSize(tokens);
      assert before == after + set t | t in tokens;
    }

    static lemma {:induction false} SeqSize(tokens: seq<Token>)
      requires forall i, j :: 0 <= i < j < |tokens| ==> tokens[i] != tokens[j]
      ensures |set t | t in tokens| == |tokens|
    {
      if tokens != [] {
        SeqSize(tokens[1..]);
        assert (set t | t in tokens) == (set t | t in tokens[1..]) + {tokens[0]};
      }
    }
  }
}
