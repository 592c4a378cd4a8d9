/** Signed requests: the timestamp window (internal/platform/http/membership_command.go) and the nonce table
    (platform_read_authority_auth.go). Times are integers in nanoseconds, 0 is the zero time. */
module Nonces {
  import opened Prelude

  datatype NonceKey = NonceKey(consumer: string, nonce: string)

  /** Reserved nonces and when each reservation expires. */
  type Table = map<NonceKey, int>

  datatype NonceError = InvalidNonce | NonceReplay | Unauthenticated | InvalidRequest | ServiceUnavailable | LimitExceeded

  /** What the handler finds out between the timestamp window and the reservation: the body can be read, path, actor proof and
      signature check out, the store is there, and the consumer is under its request rate. */
  datatype Checks = Checks(readable: bool, authentic: bool, available: bool, underRate: bool)

  const SECOND := 1_000_000_000
  const DAY := 24 * 60 * 60 * SECOND
  const MAX_SKEW := 300

  function Unexpired(t: Table, at: int): Table {
    map k | k in t && t[k] > at :: t[k]
  }

  function KeyOf(consumer: string, nonce: string): NonceKey {
    NonceKey(Trim(consumer), Trim(nonce))
  }

  predicate ValidKey(k: NonceKey) {
    0 < |k.consumer| <= 100 && 0 < |k.nonce| <= 128
  }

  /** ReserveReadAuthorityNonce; the deletion of expired nonces is undone with the rest when the nonce is a replay. */
  function Reserve(t: Table, consumer: string, nonce: string, at: int, expires: int): Result<Table, NonceError> {
    var k := KeyOf(consumer, nonce);
    var _ :- Need(ValidKey(k) && at != 0 && expires != 0 && expires > at, InvalidNonce);
    var _ :- Need(k !in Unexpired(t, at), NonceReplay);
    Ok(Unexpired(t, at)[k := expires])
  }

  class NonceTable {
    var rows: Table

    method DeleteExpired(at: int)
      modifies this
      ensures rows == Unexpired(old(rows), at)
    {
      var keys := rows.Keys;
      while keys != {}
        invariant keys <= rows.Keys <= old(rows).Keys
        invariant forall k :: k in rows ==> rows[k] == old(rows)[k]
        invariant forall k :: k in old(rows) && k !in keys ==> (k in rows <==> old(rows)[k] > at)
        decreases |keys|
      {
        var k :| k in keys;
        if rows[k] <= at { rows := rows - {k}; }
        keys := keys - {k};
      }
    }

    method ReserveNonce(consumer: string, nonce: string, at: int, expires: int) returns (r: Result<(), NonceError>)
      modifies this
      ensures match Reserve(old(rows), consumer, nonce, at, expires)
              case Ok(t) => r == Ok(()) && rows == t
              case Err(e) => r == Err(e) && rows == old(rows)
    {
      var k := KeyOf(consumer, nonce);
      if !ValidKey(k) || at == 0 || expires == 0 || expires <= at { return Err(InvalidNonce); }
      var before := rows;
      DeleteExpired(at);
      if k in rows {
        rows := before;
        return Err(NonceReplay);
      }
      rows := rows[k := expires];
      return Ok(());
    }

    /** The handler's order: the timestamp window, the checks on the request, then the reservation for a day. */
    method Admit(consumer: string, nonce: string, timestamp: int, checks: Checks, now: int) returns (r: Result<(), NonceError>)
      modifies this
      ensures match Admission(old(rows), consumer, nonce, timestamp, checks, now)
              case Ok(t) => r == Ok(()) && rows == t
              case Err(e) => r == Err(e) && rows == old(rows)
    {
      if timestamp < now / SECOND - MAX_SKEW || timestamp > now / SECOND + MAX_SKEW { return Err(Unauthenticated); }
      if !checks.readable { return Err(InvalidRequest); }
      if !checks.authentic { return Err(Unauthenticated); }
      if !checks.available { return Err(ServiceUnavailable); }
      if !checks.underRate { return Err(LimitExceeded); }
      r := ReserveNonce(consumer, nonce, now, now + DAY);
    }
  }

  predicate InWindow(timestamp: int, now: int) {
    now / SECOND - MAX_SKEW <= timestamp <= now / SECOND + MAX_SKEW
  }

  function Admission(t: Table, consumer: string, nonce: string, timestamp: int, checks: Checks, now: int): Result<Table, NonceError> {
    var _ :- Need(InWindow(timestamp, now), Unauthenticated);
    var _ :- Need(checks.readable, InvalidRequest);
    var _ :- Need(checks.authentic, Unauthenticated);
    var _ :- Need(checks.available, ServiceUnavailable);
    var _ :- Need(checks.underRate, LimitExceeded);
    Reserve(t, consumer, nonce, now, now + DAY)
  }

  // ----- what is decided -----

  /** A reservation is made for a nonce of 1 to 128 characters of a consumer of 1 to 100, for a time to come, unless it is held
      still; what has expired is forgotten then. */
  lemma ReserveDecides(t: Table, consumer: string, nonce: string, at: int, expires: int)
    ensures var r, k := Reserve(t, consumer, nonce, at, expires), NonceKey(Trim(consumer), Trim(nonce));
            if !(1 <= |k.consumer| <= 100 && 1 <= |k.nonce| <= 128 && at != 0 && expires != 0 && at < expires) then r == Err(InvalidNonce)
            else if k in t && at < t[k] then r == Err(NonceReplay)
            else
              && r.Ok? && k in r.value && r.value[k] == expires
              && (forall j :: j != k ==> (j in r.value <==> j in t && at < t[j]))
              && (forall j :: j in r.value && j != k ==> r.value[j] == t[j])
  {
    hide Trim;
  }

  /** A signed command is admitted exactly if its timestamp is within 300 seconds of now, its body can be read, its proofs check
      out, the store is there, the consumer is under its rate, and the nonce can be reserved for a day; the first of these that
      fails is the answer, and reserves nothing. */
  lemma AdmissionDecides(t: Table, consumer: string, nonce: string, timestamp: int, checks: Checks, now: int)
    requires now > 0
    ensures var r, k := Admission(t, consumer, nonce, timestamp, checks, now), NonceKey(Trim(consumer), Trim(nonce));
            if !(-300 <= timestamp - now / SECOND <= 300) then r == Err(Unauthenticated)
            else if !checks.readable then r == Err(InvalidRequest)
            else if !checks.authentic then r == Err(Unauthenticated)
            else if !checks.available then r == Err(ServiceUnavailable)
            else if !checks.underRate then r == Err(LimitExceeded)
            else if !(1 <= |k.consumer| <= 100 && 1 <= |k.nonce| <= 128) then r == Err(InvalidNonce)
            else if k in t && now < t[k] then r == Err(NonceReplay)
            else r.Ok? && k in r.value && r.value[k] == now + 24 * 60 * 60 * SECOND
  {
    hide Trim;
    ReserveDecides(t, consumer, nonce, now, now + DAY);
  }

  /** What is refused leaves the table as it was. */
  lemma RefusedReservesNothing(t: Table, c: Call)
    ensures Outcome(t, c).Err? ==> After(t, c) == t
    ensures c.Signed? && !(c.checks.readable && c.checks.authentic && c.checks.available && c.checks.underRate) ==> After(t, c) == t
  {
    hide Trim;
  }

  // ----- runs -----

  /** A signed command, or any other reservation in the same table. */
  datatype Call =
    | Signed(consumer: string, nonce: string, timestamp: int, checks: Checks, now: int)
    | Other(consumer: string, nonce: string, now: int, expires: int)

  function Outcome(t: Table, c: Call): Result<Table, NonceError> {
    match c
    case Signed(consumer, nonce, timestamp, checks, now) => Admission(t, consumer, nonce, timestamp, checks, now)
    case Other(consumer, nonce, now, expires) => Reserve(t, consumer, nonce, now, expires)
  }

  function After(t: Table, c: Call): Table {
    match Outcome(t, c)
    case Ok(next) => next
    case Err(_) => t
  }

  /** The call is the signed request, and passes. */
  predicate Passes(t: Table, c: Call, k: NonceKey, timestamp: int) {
    c.Signed? && KeyOf(c.consumer, c.nonce) == k && c.timestamp == timestamp && Outcome(t, c).Ok?
  }

  function PassCount(t: Table, calls: seq<Call>, k: NonceKey, timestamp: int): nat
    decreases |calls|
  {
    if calls == [] then 0 else (if Passes(t, calls[0], k, timestamp) then 1 else 0) + PassCount(After(t, calls[0]), calls[1..], k, timestamp)
  }

  predicate Clocked(calls: seq<Call>, from: int)
    decreases |calls|
  {
    calls == [] || (from <= calls[0].now && Clocked(calls[1..], calls[0].now))
  }

  /** A reservation outlives every call before its expiry. */
  lemma ReservationStays(t: Table, c: Call, k: NonceKey)
    requires k in t && c.now < t[k]
    ensures k in After(t, c) && After(t, c)[k] == t[k]
    ensures Outcome(t, c).Ok? ==> KeyOf(c.consumer, c.nonce) != k
  {
    hide Trim, InWindow;
  }

  /** Once reserved until past the window of its timestamp, the request does not pass again. */
  lemma {:induction false} NeverPassesAgain(t: Table, calls: seq<Call>, from: int, k: NonceKey, timestamp: int)
    requires Clocked(calls, from) && k in t && (timestamp + MAX_SKEW + 1) * SECOND <= t[k]
    ensures PassCount(t, calls, k, timestamp) == 0
    decreases |calls|
  {
    hide After, Outcome, KeyOf;
    if calls != [] {
      if calls[0].now < t[k] {
        ReservationStays(t, calls[0], k);
        NeverPassesAgain(After(t, calls[0]), calls[1..], calls[0].now, k, timestamp);
      } else {
        TooLate(t, calls, from, k, timestamp, calls[0].now);
      }
    }
  }

  /** After the window of a timestamp has closed, nothing signed with it passes. */
  lemma {:induction false} TooLate(t: Table, calls: seq<Call>, from: int, k: NonceKey, timestamp: int, closed: int)
    requires Clocked(calls, from) && (calls != [] ==> closed <= calls[0].now) && (timestamp + MAX_SKEW + 1) * SECOND <= closed
    ensures PassCount(t, calls, k, timestamp) == 0
    decreases |calls|
  {
    if calls != [] {
      assert calls[0].now / SECOND >= timestamp + MAX_SKEW + 1;
      TooLate(After(t, calls[0]), calls[1..], calls[0].now, k, timestamp, closed);
    }
  }

  lemma PassingReserves(t: Table, c: Call, k: NonceKey, timestamp: int)
    requires Passes(t, c, k, timestamp)
    ensures k in After(t, c) && (timestamp + MAX_SKEW + 1) * SECOND <= After(t, c)[k]
  {
    hide Trim, ValidKey, Unexpired;
    assert timestamp <= c.now / SECOND + MAX_SKEW;
    assert c.now / SECOND * SECOND <= c.now;
  }

  /** At most once: under a clock that does not run backwards, a signed request with a fixed consumer, nonce and timestamp
      passes the window and the reservation at most once in any run, although expired nonces are deleted. */
  lemma {:induction false} PassesOnce(t: Table, calls: seq<Call>, from: int, k: NonceKey, timestamp: int)
    requires Clocked(calls, from)
    ensures PassCount(t, calls, k, timestamp) <= 1
    decreases |calls|
  {
    hide After, Passes;
    if calls != [] {
      if Passes(t, calls[0], k, timestamp) {
        PassingReserves(t, calls[0], k, timestamp);
        NeverPassesAgain(After(t, calls[0]), calls[1..], calls[0].now, k, timestamp);
      } else {
        PassesOnce(After(t, calls[0]), calls[1..], calls[0].now, k, timestamp);
      }
    }
  }
}
