/**
 * `createValkeyMailState` (packages/platform-mail/src/state.ts): the keys it keeps in Valkey, edited in
 * place. The ledger holds the very strings the scripts write ('claimed:' and 'sent:' prefixes); the
 * methods are proved to act on them as the `MailLedger` and `MailPacing` functions say.
 */
module MailState {
  import opened Common
  import L = MailLedger
  import P = MailPacing

  /** A string value with the instant its TTL ends. */
  datatype Stored = Stored(value: string, expiry: int)

  datatype ClaimResult = Claimed(token: string) | Sent(id: string) | InFlight

  const CLAIMED := "claimed:"
  const SENT := "sent:"

  predicate HasPrefix(s: string, prefix: string) { |prefix| <= |s| && s[..|prefix|] == prefix }

  predicate WellFormed(v: string) { HasPrefix(v, CLAIMED) || HasPrefix(v, SENT) }

  function Decode(s: Stored): L.Entry {
    if HasPrefix(s.value, SENT) then L.Entry.Sent(s.value[5..], s.expiry)
    else if HasPrefix(s.value, CLAIMED) then L.Entry.Claimed(s.value[8..], s.expiry)
    else L.Entry.Absent
  }

  /** The prefixes keep the two kinds of value apart, and each gives back what was written. */
  lemma DecodeWritten(text: string, expiry: int)
    ensures Decode(Stored(CLAIMED + text, expiry)) == L.Entry.Claimed(text, expiry)
    ensures Decode(Stored(SENT + text, expiry)) == L.Entry.Sent(text, expiry)
    ensures WellFormed(CLAIMED + text) && WellFormed(SENT + text)
  {
    assert (CLAIMED + text)[..8] == CLAIMED && (CLAIMED + text)[8..] == text;
    assert (CLAIMED + text)[0] == 'c' && SENT[0] == 's';
    assert (SENT + text)[..5] == SENT && (SENT + text)[5..] == text;
  }

  /** The scripts' string comparison is the comparison of tokens. */
  lemma SameClaim(v: string, token: string, expiry: int)
    requires WellFormed(v)
    ensures v == CLAIMED + token <==> Decode(Stored(v, expiry)) == L.Entry.Claimed(token, expiry)
  {
    DecodeWritten(token, expiry);
    if HasPrefix(v, CLAIMED) {
      assert v == CLAIMED + v[8..];
    }
  }

  class ValkeyMailState {
    var ledger: map<string, Stored>
    var buckets: map<string, P.Bucket>
    var cooldowns: map<string, int>

    ghost predicate Valid() reads this { forall k :: k in ledger ==> WellFormed(ledger[k].value) }

    ghost function Entry(key: string): L.Entry reads this {
      if key in ledger then Decode(ledger[key]) else L.Entry.Absent
    }

    ghost function Pace(mailbox: string): P.Pace reads this {
      P.Pace(if mailbox in buckets then Some(buckets[mailbox]) else None,
             if mailbox in cooldowns then Some(cooldowns[mailbox]) else None)
    }

    constructor ()
      ensures Valid() && ledger == map[] && buckets == map[] && cooldowns == map[]
    {
      ledger, buckets, cooldowns := map[], map[], map[];
    }

    /** CLAIM */
    method Claim(key: string, token: string, leaseSeconds: nat, now: int) returns (r: ClaimResult)
      requires Valid() && 0 < leaseSeconds
      modifies this`ledger
      ensures Valid()
      ensures Entry(key) == L.AfterClaim(old(Entry(key)), now, token, leaseSeconds * 1000)
      ensures forall k :: k != key ==> Entry(k) == old(Entry(k))
      ensures match L.ClaimReplyOf(old(Entry(key)), now)
              case Granted => r == ClaimResult.Claimed(token)
              case AlreadySent(id) => r == ClaimResult.Sent(id)
              case InFlight => r == ClaimResult.InFlight
      ensures r.Claimed? ==> forall t :: now <= t ==>
        && (L.HoldsClaim(Entry(key), t, token) <==> t < now + leaseSeconds * 1000)
        && (L.ClaimReplyOf(Entry(key), t).Granted? <==> now + leaseSeconds * 1000 <= t)
    {
      DecodeWritten(token, now + leaseSeconds * 1000);
      if !(key in ledger && now < ledger[key].expiry) {
        ledger := ledger[key := Stored(CLAIMED + token, now + leaseSeconds * 1000)];
        return ClaimResult.Claimed(token);
      }
      var v := ledger[key].value;
      r := if HasPrefix(v, SENT) then ClaimResult.Sent(v[5..]) else ClaimResult.InFlight;
    }

    /** MARK_SENT: unconditional */
    method MarkSent(key: string, id: string, ttlSeconds: nat, now: int)
      requires Valid() && 0 < ttlSeconds
      modifies this`ledger
      ensures Valid() && Entry(key) == L.AfterMarkSent(now, id, ttlSeconds * 1000)
      ensures forall t :: now <= t ==>
        L.ClaimReplyOf(Entry(key), t) == if t < now + ttlSeconds * 1000 then L.AlreadySent(id) else L.Granted
      ensures forall k :: k != key ==> Entry(k) == old(Entry(k))
    {
      DecodeWritten(id, now + ttlSeconds * 1000);
      ledger := ledger[key := Stored(SENT + id, now + ttlSeconds * 1000)];
    }

    /** RENEW */
    method Renew(key: string, token: string, leaseSeconds: nat, now: int) returns (held: bool)
      requires Valid() && 0 < leaseSeconds
      modifies this`ledger
      ensures Valid() && held == L.HoldsClaim(old(Entry(key)), now, token)
      ensures Entry(key) == L.AfterRenew(old(Entry(key)), now, token, leaseSeconds * 1000)
      ensures held ==> forall t :: now <= t ==> (L.HoldsClaim(Entry(key), t, token) <==> t < now + leaseSeconds * 1000)
      ensures !held ==> Entry(key) == old(Entry(key))
      ensures forall k :: k != key ==> Entry(k) == old(Entry(k))
    {
      held := false;
      if key in ledger && now < ledger[key].expiry {
        SameClaim(ledger[key].value, token, ledger[key].expiry);
        held := ledger[key].value == CLAIMED + token;
        if held {
          ledger := ledger[key := ledger[key].(expiry := now + leaseSeconds * 1000)];
        }
      }
    }

    /** RELEASE */
    method Release(key: string, token: string, now: int)
      requires Valid()
      modifies this`ledger
      ensures Valid() && Entry(key) == L.AfterRelease(old(Entry(key)), now, token)
      ensures if L.HoldsClaim(old(Entry(key)), now, token) then Entry(key) == L.Entry.Absent
              else Entry(key) == old(Entry(key))
      ensures forall k :: k != key ==> Entry(k) == old(Entry(k))
    {
      if key in ledger && now < ledger[key].expiry {
        SameClaim(ledger[key].value, token, ledger[key].expiry);
        if ledger[key].value == CLAIMED + token {
          ledger := ledger - {key};
        }
      }
    }

    /** TAKE_SLOT */
    method TakeSlot(mailbox: string, now: int) returns (wait: int)
      modifies this`buckets
      ensures wait == P.SlotWait(old(Pace(mailbox)), now)
      ensures Pace(mailbox) == P.AfterTakeSlot(old(Pace(mailbox)), now)
      ensures forall m :: m != mailbox ==> Pace(m) == old(Pace(m))
    {
      var cooldown := Pttl(mailbox, now);
      if 0 < cooldown { return cooldown; }
      var units, at := P.BURST, now;
      if mailbox in buckets && now < buckets[mailbox].expiry {
        units, at := buckets[mailbox].units, buckets[mailbox].at;
      }
      units := Min(P.BURST, units + (now - at));
      wait := 0;
      if P.TOKEN <= units { units := units - P.TOKEN; } else { wait := P.TOKEN - units; }
      buckets := buckets[mailbox := P.Bucket(units, now, now + P.BUCKET_TTL_MS)];
    }

    /** BACK_OFF: false when the server refuses the TTL and the script fails */
    method BackOff(mailbox: string, ms: int, now: int) returns (ok: bool)
      modifies this`cooldowns
      ensures ok == !P.BackOffFails(old(Pace(mailbox)), now, ms)
      ensures Pace(mailbox) == P.AfterBackOff(old(Pace(mailbox)), now, ms)
      ensures forall m :: m != mailbox ==> Pace(m) == old(Pace(m))
    {
      ok := true;
      if Pttl(mailbox, now) < ms {
        if ms <= 0 { return false; }
        cooldowns := cooldowns[mailbox := now + ms];
      }
    }

    function Pttl(mailbox: string, now: int): (left: int)
      reads this
      ensures left == P.CooldownLeft(Pace(mailbox), now)
    {
      if mailbox in cooldowns && now < cooldowns[mailbox] then cooldowns[mailbox] - now else -2
    }
  }
}
