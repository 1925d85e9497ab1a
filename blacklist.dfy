/**
 * The token blacklist: a revoked token's identifier is kept in a storage
 * driver until the token would have expired anyway (plus a leeway), and a
 * token whose identifier is listed is refused as expired.
 *
 * The blacklist class itself is not part of this model; its behaviour is the
 * one its unit test fixes: `add` with an expiry 100 seconds ahead stores the
 * identifier for 110 seconds, `add` with an expiry in the past stores
 * nothing, and `check` raises "Token has expired" exactly when storage has
 * the identifier. The clock is a parameter.
 */
module Blacklist {
  import opened Common

  /** Seconds a listed token is kept beyond its expiry. */
  const Leeway: int := 10

  /** One call the blacklist makes on its storage driver. */
  datatype StorageCall = AddCall(key: Value, ttl: int) | GetCall(key: Value)

  datatype TokenExpired = TokenExpired(message: string)

  /** The expiry claim as a number; a missing or non-numeric claim counts
      as 0, as PHP's arithmetic on null does. */
  function ExpiryOf(payload: map<string, Value>, expClaim: string): int {
    var e := Lookup(payload, expClaim);
    if e.Int? then e.i else 0
  }

  /** How long a token expiring at `exp` must stay listed at time `now`. */
  function TtlFor(exp: int, now: int): (ttl: int)
    ensures exp >= now ==> ttl >= Leeway
    ensures ttl - (exp - now) == Leeway
  {
    exp - now + Leeway
  }

  /** The storage calls `add` makes: one, unless the token already expired. */
  function AddCalls(payload: map<string, Value>, keyClaim: string, expClaim: string, now: int): (calls: seq<StorageCall>)
    ensures ExpiryOf(payload, expClaim) < now <==> calls == []
    ensures calls != [] ==> calls == [AddCall(Lookup(payload, keyClaim), TtlFor(ExpiryOf(payload, expClaim), now))]
  {
    var exp := ExpiryOf(payload, expClaim);
    if exp < now then [] else [AddCall(Lookup(payload, keyClaim), TtlFor(exp, now))]
  }

  /** The outcome of `check`: refused when listed, otherwise false. */
  function CheckOutcome(entries: map<Value, int>, key: Value): (r: Result<bool, TokenExpired>)
    ensures r.Ok? ==> r.value == false
    ensures r.Err? <==> key in entries
    ensures r.Err? ==> r.error.message == "Token has expired"
  {
    if key in entries then Err(TokenExpired("Token has expired")) else Ok(false)
  }

  class Blacklist {
    const keyClaim: string
    const expClaim: string
    /** What the storage driver holds: listed identifiers and their TTLs. */
    var entries: map<Value, int>
    /** Every call made on the storage driver, in order. */
    var calls: seq<StorageCall>

    constructor (keyClaim: string, expClaim: string)
      ensures this.keyClaim == keyClaim && this.expClaim == expClaim
      ensures entries == map[] && calls == []
    {
      this.keyClaim := keyClaim;
      this.expClaim := expClaim;
      entries := map[];
      calls := [];
    }

    /** `add(payload)`: list the token's identifier for the rest of its
        lifetime plus the leeway; a token already expired is not listed and
        storage is not called. Returns null. */
    method Add(payload: map<string, Value>, now: int) returns (r: Value)
      modifies this
      ensures r == Null
      ensures calls == old(calls) + AddCalls(payload, keyClaim, expClaim, now)
      ensures ExpiryOf(payload, expClaim) < now ==> entries == old(entries)
      ensures ExpiryOf(payload, expClaim) >= now ==>
        entries == old(entries)[Lookup(payload, keyClaim) := TtlFor(ExpiryOf(payload, expClaim), now)]
    {
      var exp := ExpiryOf(payload, expClaim);
      if exp >= now {
        var key := Lookup(payload, keyClaim);
        var ttl := exp - now + Leeway;
        entries := entries[key := ttl];
        calls := calls + [AddCall(key, ttl)];
      }
      return Null;
    }

    /** `check(payload)`: one storage lookup of the identifier; refused as
        expired when it is listed, false otherwise. */
    method Check(payload: map<string, Value>) returns (r: Result<bool, TokenExpired>)
      modifies this
      ensures r == CheckOutcome(entries, Lookup(payload, keyClaim))
      ensures entries == old(entries)
      ensures calls == old(calls) + [GetCall(Lookup(payload, keyClaim))]
    {
      var key := Lookup(payload, keyClaim);
      calls := calls + [GetCall(key)];
      if key in entries {
        return Err(TokenExpired("Token has expired"));
      }
      return Ok(false);
    }
  }

  /** The unit test's first case: expiry 100 seconds ahead, listed for 110. */
  lemma AddHundredSecondsAhead(now: int)
    ensures AddCalls(map["my_key" := Str("my_key_value"), "exp_key" := Int(now + 100)], "my_key", "exp_key", now)
      == [AddCall(Str("my_key_value"), 110)]
  {
  }

  /** A revoked token that had not expired is refused from then on. */
  method RevokedTokenIsRefused(b: Blacklist, payload: map<string, Value>, now: int) returns (r: Result<bool, TokenExpired>)
    requires ExpiryOf(payload, b.expClaim) >= now
    modifies b
    ensures r == Err(TokenExpired("Token has expired"))
  {
    var _ := b.Add(payload, now);
    r := b.Check(payload);
  }

  /** Revoking an already expired token changes nothing a check can see. */
  method ExpiredRevocationIsNoOp(b: Blacklist, payload: map<string, Value>, now: int)
    returns (before: Result<bool, TokenExpired>, after: Result<bool, TokenExpired>)
    requires ExpiryOf(payload, b.expClaim) < now
    modifies b
    ensures before == after
  {
    before := b.Check(payload);
    var _ := b.Add(payload, now);
    after := b.Check(payload);
  }
}
