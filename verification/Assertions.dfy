/** Platform assertions (internal/platform/assertion/assertion.go): claim validation and the bounded replay cache.
    A token is its claims and whether it decodes and its signature verifies; times are integers, 0 is the zero time. */
module Assertions {
  import opened Prelude

  datatype Claims = Claims(issuer: string, audience: string, user: string, organisation: string, workspace: string,
                           issuedAt: int, expiresAt: int, id: string, version: int)

  datatype Token = Token(authentic: bool, claims: Claims)

  datatype AssertionError =
    | VersionMismatch | InvalidAssertion | InvalidAudience | InvalidScope | NotYetValid | Expired | Replayed

  datatype Settings = Settings(issuer: string, audiences: set<string>, maxLifetime: int, clockSkew: int)

  type Cache = map<string, int>

  const CURRENT_VERSION := 1
  const SECOND := 1_000_000_000
  const DEFAULT_LIFETIME := 120 * SECOND

  predicate Plain(s: string) {
    forall i :: 0 <= i < |s| ==> s[i] != '\r' && s[i] != '\n' && s[i] != ' ' && s[i] != '\t'
  }

  predicate ValidScopeId(s: string, prefix: string) {
    HasIdPrefix(prefix, s) && |s| <= 200 && Plain(s)
  }

  function Validate(s: Settings, c: Claims, now: int): Result<(), AssertionError> {
    var _ :- Need(c.version == CURRENT_VERSION, VersionMismatch);
    var _ :- Need(c.issuer == s.issuer, InvalidAssertion);
    var _ :- Need(c.audience in s.audiences, InvalidAudience);
    var _ :- Need(ValidScopeId(c.user, "usr_") && ValidScopeId(c.organisation, "org_") && ValidScopeId(c.workspace, "wsp_")
                  && ValidScopeId(c.id, "ast_"), InvalidScope);
    var _ :- Need(c.issuedAt != 0 && c.expiresAt != 0 && c.issuedAt < c.expiresAt && c.expiresAt - c.issuedAt <= s.maxLifetime, InvalidAssertion);
    var _ :- Need(c.issuedAt <= now + s.clockSkew, NotYetValid);
    var _ :- Need(now < c.expiresAt, Expired);
    Ok(())
  }

  function Unexpired(cache: Cache, now: int): Cache {
    map id | id in cache && cache[id] > now :: cache[id]
  }

  function VerifyResult(s: Settings, cache: Cache, t: Token, now: int): Result<Claims, AssertionError> {
    var _ :- Need(t.authentic, InvalidAssertion);
    var _ :- Validate(s, t.claims, now);
    var _ :- Need(t.claims.id !in Unexpired(cache, now), Replayed);
    Ok(t.claims)
  }

  /** Only a valid token prunes the cache; a replayed one prunes it too. */
  function CacheAfter(s: Settings, cache: Cache, t: Token, now: int): Cache {
    if !t.authentic || Validate(s, t.claims, now).Err? then cache
    else if t.claims.id in Unexpired(cache, now) then Unexpired(cache, now)
    else Unexpired(cache, now)[t.claims.id := t.claims.expiresAt]
  }

  class Verifier {
    const settings: Settings
    var replayed: Cache

    constructor (s: Settings)
      ensures settings == s && replayed == map[]
    {
      settings, replayed := s, map[];
    }

    method Prune(now: int)
      modifies this
      ensures replayed == Unexpired(old(replayed), now)
    {
      var ids := replayed.Keys;
      while ids != {}
        invariant ids <= replayed.Keys <= old(replayed).Keys
        invariant forall id :: id in replayed ==> replayed[id] == old(replayed)[id]
        invariant forall id :: id in old(replayed) && id !in ids ==> (id in replayed <==> old(replayed)[id] > now)
        decreases |ids|
      {
        var id :| id in ids;
        if replayed[id] <= now { replayed := replayed - {id}; }
        ids := ids - {id};
      }
    }

    method Verify(t: Token, now: int) returns (r: Result<Claims, AssertionError>)
      modifies this
      ensures r == VerifyResult(settings, old(replayed), t, now)
      ensures replayed == CacheAfter(settings, old(replayed), t, now)
    {
      hide Validate, Unexpired;
      if !t.authentic { return Err(InvalidAssertion); }
      var valid := Validate(settings, t.claims, now);
      if valid.Err? { return Err(valid.error); }
      Prune(now);
      if t.claims.id in replayed { return Err(Replayed); }
      replayed := replayed[t.claims.id := t.claims.expiresAt];
      return Ok(t.claims);
    }
  }

  // ----- issuing -----

  /** Issue: the claims it signs, given a fresh assertion id. */
  function Issue(s: Settings, audience: string, user: string, organisation: string, workspace: string, requested: int, at: int, id: string):
    Result<Claims, AssertionError>
  {
    var _ :- Need(Trim(audience) in s.audiences, InvalidAudience);
    var _ :- Need(ValidScopeId(user, "usr_") && ValidScopeId(organisation, "org_") && ValidScopeId(workspace, "wsp_"), InvalidScope);
    var lifetime := if requested == 0 then DEFAULT_LIFETIME else requested;
    var _ :- Need(0 < lifetime <= s.maxLifetime, InvalidAssertion);
    Ok(Claims(s.issuer, Trim(audience), user, organisation, workspace, at, at + lifetime, id, CURRENT_VERSION))
  }

  /** What was issued is accepted exactly from the clock skew before its issue until its expiry, unless its id is cached. */
  lemma IssuedIsAcceptedIff(s: Settings, cache: Cache, audience: string, user: string, organisation: string, workspace: string,
                            requested: int, at: int, id: string, now: int)
    requires Issue(s, audience, user, organisation, workspace, requested, at, id).Ok? && ValidScopeId(id, "ast_") && at > 0
    ensures var c := Issue(s, audience, user, organisation, workspace, requested, at, id).value;
            VerifyResult(s, cache, Token(true, c), now).Ok? <==>
            at - s.clockSkew <= now < c.expiresAt && !(id in cache && cache[id] > now)
  {
    hide ValidScopeId, Trim;
  }

  /** An id of this kind: the prefix and something after it, at most 200 characters, no blank, tab or line break among them. */
  predicate IdOf(prefix: string, s: string) {
    prefix <= s && |prefix| < |s| <= 200 && forall c :: c in s ==> c !in "\r\n \t"
  }

  predicate NamesAScope(c: Claims) {
    IdOf("usr_", c.user) && IdOf("org_", c.organisation) && IdOf("wsp_", c.workspace) && IdOf("ast_", c.id)
  }

  lemma ScopeIdIs(s: string, prefix: string)
    ensures ValidScopeId(s, prefix) <==> IdOf(prefix, s)
  {
    if IdOf(prefix, s) {
      forall i | 0 <= i < |s|
        ensures s[i] != '\r' && s[i] != '\n' && s[i] != ' ' && s[i] != '\t'
      {
        assert s[i] in s && s[i] !in "\r\n \t";
        BlanksAre();
      }
    }
  }

  lemma BlanksAre()
    ensures '\r' in "\r\n \t" && '\n' in "\r\n \t" && ' ' in "\r\n \t" && '\t' in "\r\n \t"
  {
    var s := "\r\n \t";
    assert s[0] == '\r' && s[1] == '\n' && s[2] == ' ' && s[3] == '\t';
  }

  /** Whatever token a verifier is given: it is accepted if and only if it is authentic, of this version, by this issuer, for one
      of these audiences, names a scope, has a lifetime within the maximum, was issued by now give or take the skew, has not
      expired, and its id is not cached; and the first of these that fails is the error. */
  lemma VerifyDecides(s: Settings, cache: Cache, t: Token, now: int)
    ensures var r, c := VerifyResult(s, cache, t, now), t.claims;
            r == (if !t.authentic then Err(InvalidAssertion)
                  else if c.version != CURRENT_VERSION then Err(VersionMismatch)
                  else if c.issuer != s.issuer then Err(InvalidAssertion)
                  else if c.audience !in s.audiences then Err(InvalidAudience)
                  else if !NamesAScope(c) then Err(InvalidScope)
                  else if c.issuedAt == 0 || c.expiresAt == 0 || !(0 < c.expiresAt - c.issuedAt <= s.maxLifetime) then Err(InvalidAssertion)
                  else if now + s.clockSkew < c.issuedAt then Err(NotYetValid)
                  else if c.expiresAt <= now then Err(Expired)
                  else if c.id in cache && now < cache[c.id] then Err(Replayed)
                  else Ok(c))
  {
    ScopeIdIs(t.claims.user, "usr_");
    ScopeIdIs(t.claims.organisation, "org_");
    ScopeIdIs(t.claims.workspace, "wsp_");
    ScopeIdIs(t.claims.id, "ast_");
    hide IdOf, ValidScopeId;
  }

  /** Between two parties: an assertion issued under settings `s` is accepted under settings `v` exactly if they share the issuer,
      the audience is one of the verifier's, its lifetime is within the verifier's maximum, the verifier's clock is within its
      window, and its id is not cached there. */
  lemma IssuedForAnotherIff(s: Settings, v: Settings, cache: Cache, audience: string, user: string, organisation: string,
                            workspace: string, requested: int, at: int, id: string, now: int)
    requires Issue(s, audience, user, organisation, workspace, requested, at, id).Ok? && IdOf("ast_", id) && at > 0
    ensures var lifetime := if requested == 0 then 2 * 60 * SECOND else requested;
            var c := Issue(s, audience, user, organisation, workspace, requested, at, id).value;
            VerifyResult(v, cache, Token(true, c), now).Ok? <==>
            && v.issuer == s.issuer && Trim(audience) in v.audiences && lifetime <= v.maxLifetime
            && at - v.clockSkew <= now < at + lifetime && !(id in cache && now < cache[id])
  {
    hide ValidScopeId, IdOf, Trim, VerifyResult;
    ScopeIdIs(user, "usr_");
    ScopeIdIs(organisation, "org_");
    ScopeIdIs(workspace, "wsp_");
    VerifyDecides(v, cache, Token(true, Issue(s, audience, user, organisation, workspace, requested, at, id).value), now);
  }

  /** Nothing is issued for a foreign audience, for ids that name no scope, or for longer than the issuer's maximum. */
  lemma IssueDecides(s: Settings, audience: string, user: string, organisation: string, workspace: string, requested: int, at: int, id: string)
    ensures var r := Issue(s, audience, user, organisation, workspace, requested, at, id);
            var lifetime := if requested == 0 then 2 * 60 * SECOND else requested;
            if Trim(audience) !in s.audiences then r == Err(InvalidAudience)
            else if !(IdOf("usr_", user) && IdOf("org_", organisation) && IdOf("wsp_", workspace)) then r == Err(InvalidScope)
            else if !(0 < lifetime <= s.maxLifetime) then r == Err(InvalidAssertion)
            else r.Ok? && r.value.user == user && r.value.organisation == organisation && r.value.workspace == workspace
                 && r.value.audience == Trim(audience) && r.value.issuer == s.issuer && r.value.id == id
                 && r.value.issuedAt == at && r.value.expiresAt == at + lifetime
  {
    hide ValidScopeId, IdOf, Trim;
    ScopeIdIs(user, "usr_");
    ScopeIdIs(organisation, "org_");
    ScopeIdIs(workspace, "wsp_");
  }

  // ----- runs -----

  datatype Attempt = Attempt(token: Token, now: int)

  datatype Accepted = Accepted(id: string, expiresAt: int, at: int)

  /** The assertions accepted over a run, in order. */
  function Accepts(s: Settings, cache: Cache, attempts: seq<Attempt>): seq<Accepted>
    decreases |attempts|
  {
    if attempts == [] then []
    else
      var a := attempts[0];
      (match VerifyResult(s, cache, a.token, a.now)
       case Ok(c) => [Accepted(c.id, c.expiresAt, a.now)]
       case Err(_) => [])
      + Accepts(s, CacheAfter(s, cache, a.token, a.now), attempts[1..])
  }

  function CacheAfterAll(s: Settings, cache: Cache, attempts: seq<Attempt>): Cache
    decreases |attempts|
  {
    if attempts == [] then cache else CacheAfterAll(s, CacheAfter(s, cache, attempts[0].token, attempts[0].now), attempts[1..])
  }

  predicate Clocked(attempts: seq<Attempt>, from: int)
    decreases |attempts|
  {
    attempts == [] || (from <= attempts[0].now && Clocked(attempts[1..], attempts[0].now))
  }

  /** While an id is cached with an expiry, nothing accepts it before that expiry. */
  lemma {:induction false} CachedIsNotAccepted(s: Settings, cache: Cache, attempts: seq<Attempt>, from: int, id: string, i: nat)
    requires Clocked(attempts, from) && id in cache && i < |Accepts(s, cache, attempts)| && Accepts(s, cache, attempts)[i].id == id
    ensures cache[id] <= Accepts(s, cache, attempts)[i].at
    decreases |attempts|
  {
    hide Validate;
    var a := attempts[0];
    var accepted := VerifyResult(s, cache, a.token, a.now).Ok?;
    var next := CacheAfter(s, cache, a.token, a.now);
    if accepted && i == 0 {
    } else {
      var j := if accepted then i - 1 else i;
      AcceptedLater(s, next, attempts[1..], a.now, j);
      if id in next && next[id] == cache[id] { CachedIsNotAccepted(s, next, attempts[1..], a.now, id, j); }
    }
  }

  lemma {:induction false} AcceptedLater(s: Settings, cache: Cache, attempts: seq<Attempt>, from: int, i: nat)
    requires Clocked(attempts, from) && i < |Accepts(s, cache, attempts)|
    ensures from <= Accepts(s, cache, attempts)[i].at < Accepts(s, cache, attempts)[i].expiresAt
    decreases |attempts|
  {
    hide ValidScopeId;
    var a := attempts[0];
    var accepted := VerifyResult(s, cache, a.token, a.now).Ok?;
    if !(accepted && i == 0) {
      AcceptedLater(s, CacheAfter(s, cache, a.token, a.now), attempts[1..], a.now, if accepted then i - 1 else i);
    }
  }

  /** Two acceptances of one id, in any run under a clock that does not run backwards: the first had expired by the time of
      the second, so the second was made out with a later expiry. */
  lemma {:induction false} AcceptedAgainOnlyAfterExpiry(s: Settings, cache: Cache, attempts: seq<Attempt>, from: int, i: nat, j: nat)
    requires Clocked(attempts, from) && i < j < |Accepts(s, cache, attempts)|
    requires Accepts(s, cache, attempts)[i].id == Accepts(s, cache, attempts)[j].id
    ensures var log := Accepts(s, cache, attempts); log[i].expiresAt <= log[j].at < log[j].expiresAt
    decreases |attempts|
  {
    hide Validate, Unexpired;
    AcceptedLater(s, cache, attempts, from, j);
    var a := attempts[0];
    var accepted := VerifyResult(s, cache, a.token, a.now).Ok?;
    var next := CacheAfter(s, cache, a.token, a.now);
    if accepted && i == 0 {
      CachedIsNotAccepted(s, next, attempts[1..], a.now, a.token.claims.id, j - 1);
    } else {
      AcceptedAgainOnlyAfterExpiry(s, next, attempts[1..], a.now, if accepted then i - 1 else i, if accepted then j - 1 else j);
    }
  }

  /** So an id that determines the expiry of the authentic assertions made out with it is accepted at most once, whatever forged
      tokens the run presents. */
  lemma AcceptedOnce(s: Settings, cache: Cache, attempts: seq<Attempt>, from: int, i: nat, j: nat)
    requires Clocked(attempts, from) && i < j < |Accepts(s, cache, attempts)|
    requires forall m, n | 0 <= m < |attempts| && 0 <= n < |attempts| && attempts[m].token.authentic && attempts[n].token.authentic ::
               attempts[m].token.claims.id == attempts[n].token.claims.id ==> attempts[m].token.claims.expiresAt == attempts[n].token.claims.expiresAt
    ensures Accepts(s, cache, attempts)[i].id != Accepts(s, cache, attempts)[j].id
  {
    hide Validate, Unexpired;
    var log := Accepts(s, cache, attempts);
    if log[i].id == log[j].id {
      AcceptedAgainOnlyAfterExpiry(s, cache, attempts, from, i, j);
      var m := AcceptedFrom(s, cache, attempts, i);
      var n := AcceptedFrom(s, cache, attempts, j);
    }
  }

  lemma {:induction false} AcceptedFrom(s: Settings, cache: Cache, attempts: seq<Attempt>, i: nat) returns (m: nat)
    requires i < |Accepts(s, cache, attempts)|
    ensures m < |attempts| && attempts[m].token.authentic && attempts[m].token.claims.id == Accepts(s, cache, attempts)[i].id
    ensures attempts[m].token.claims.expiresAt == Accepts(s, cache, attempts)[i].expiresAt
    decreases |attempts|
  {
    hide Validate, Unexpired;
    var a := attempts[0];
    var accepted := VerifyResult(s, cache, a.token, a.now).Ok?;
    if accepted && i == 0 {
      m := 0;
    } else {
      m := AcceptedFrom(s, CacheAfter(s, cache, a.token, a.now), attempts[1..], if accepted then i - 1 else i);
      m := m + 1;
    }
  }

  // ----- what the cache holds -----

  predicate Logged(log: seq<Accepted>, id: string, expiresAt: int)
    decreases |log|
  {
    log != [] && ((log[0].id == id && log[0].expiresAt == expiresAt) || Logged(log[1..], id, expiresAt))
  }

  /** Cached at the start, or accepted since. */
  predicate Known(cache: Cache, log: seq<Accepted>, id: string, expiresAt: int) {
    (id in cache && cache[id] == expiresAt) || Logged(log, id, expiresAt)
  }

  ghost predicate Before(attempts: seq<Attempt>, t: int) {
    forall i :: 0 <= i < |attempts| ==> attempts[i].now <= t
  }

  /** One call keeps what it knew, adds what it accepts, and forgets only what has expired. */
  lemma StepTracks(s: Settings, cache: Cache, a: Attempt, t: int, id: string, expiresAt: int)
    requires a.now <= t < expiresAt
    ensures var next := CacheAfter(s, cache, a.token, a.now);
            (id in next && next[id] == expiresAt) <==>
            (id in cache && cache[id] == expiresAt)
            || (VerifyResult(s, cache, a.token, a.now).Ok? && a.token.claims.id == id && a.token.claims.expiresAt == expiresAt)
    ensures VerifyResult(s, cache, a.token, a.now).Ok? ==> VerifyResult(s, cache, a.token, a.now).value == a.token.claims
  {
    hide Validate;
  }

  lemma {:induction false} CacheTracks(s: Settings, cache: Cache, attempts: seq<Attempt>, t: int, id: string, expiresAt: int)
    requires Before(attempts, t) && t < expiresAt
    ensures var end := CacheAfterAll(s, cache, attempts);
            (id in end && end[id] == expiresAt) <==> Known(cache, Accepts(s, cache, attempts), id, expiresAt)
    decreases |attempts|
  {
    hide CacheAfter, VerifyResult;
    if attempts != [] {
      var a := attempts[0];
      var next := CacheAfter(s, cache, a.token, a.now);
      StepTracks(s, cache, a, t, id, expiresAt);
      CacheTracks(s, next, attempts[1..], t, id, expiresAt);
      KnownStep(s, cache, attempts, id, expiresAt);
    }
  }

  lemma KnownStep(s: Settings, cache: Cache, attempts: seq<Attempt>, id: string, expiresAt: int)
    requires attempts != []
    ensures var a := attempts[0];
            var rest := Accepts(s, CacheAfter(s, cache, a.token, a.now), attempts[1..]);
            var r := VerifyResult(s, cache, a.token, a.now);
            Known(cache, Accepts(s, cache, attempts), id, expiresAt) <==>
            Known(cache, rest, id, expiresAt) || (r.Ok? && r.value.id == id && r.value.expiresAt == expiresAt)
  {
    hide CacheAfter, VerifyResult;
    var a := attempts[0];
    var rest := Accepts(s, CacheAfter(s, cache, a.token, a.now), attempts[1..]);
    match VerifyResult(s, cache, a.token, a.now)
    case Ok(c) =>
      assert Accepts(s, cache, attempts)[0] == Accepted(c.id, c.expiresAt, a.now);
      assert Accepts(s, cache, attempts)[1..] == rest;
    case Err(_) =>
      assert Accepts(s, cache, attempts) == rest;
  }

  /** Right after an accepting call, the cache holds exactly the accepted ids that have not expired, with their expiries. */
  lemma CacheIsExact(s: Settings, attempts: seq<Attempt>, last: Attempt, id: string, expiresAt: int)
    requires Before(attempts, last.now)
    requires VerifyResult(s, CacheAfterAll(s, map[], attempts), last.token, last.now).Ok?
    ensures var end := CacheAfter(s, CacheAfterAll(s, map[], attempts), last.token, last.now);
            (id in end && end[id] == expiresAt) <==>
            expiresAt > last.now
            && (Known(map[], Accepts(s, map[], attempts), id, expiresAt)
                || (last.token.claims.id == id && last.token.claims.expiresAt == expiresAt))
  {
    var cache := CacheAfterAll(s, map[], attempts);
    if expiresAt > last.now {
      CacheTracks(s, map[], attempts, last.now, id, expiresAt);
      StepTracks(s, cache, last, last.now, id, expiresAt);
    }
    hide Accepts, CacheAfterAll, ValidScopeId;
  }
}
