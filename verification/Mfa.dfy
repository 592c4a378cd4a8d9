/** One user's second factor (internal/db/sqlite/mfa.go, internal/auth/mfa.go): time steps, recovery codes and enrollments.
    The one-time password of a secret and step, and the hash check of a recovery code, are given functions.
    Times are Unix seconds. */
module Mfa {
  import opened Prelude

  datatype RecoveryCode = RecoveryCode(hash: string, used: bool)

  datatype Enrollment = Enrollment(secret: string, expires: int, attempts: nat, used: bool)

  /** `enrollments` is keyed by token. */
  datatype User = User(active: bool, enabled: bool, secret: string, lastStep: int, codes: seq<RecoveryCode>,
                       enrollments: map<string, Enrollment>)

  datatype MfaError = TenCodesRequired | EmptyCodeHash | ExpiryOutOfBounds | UserUnknown | AlreadyEnabled

  /** The password functions: a one-time password for (secret, step), and whether a code matches a hash. */
  datatype Functions = Functions(totp: (string, int) -> string, matches: (string, string) -> bool)

  const STEP := 30
  const MAX_ATTEMPTS := 5
  const MAX_LIFETIME := 30 * 60

  /** Integer division as the source language has it: toward zero. */
  function TowardZero(a: int, b: int): int
    requires b > 0
  {
    if a >= 0 then a / b else -((-a) / b)
  }

  function BaseStep(at: int): int {
    TowardZero(at, STEP)
  }

  /** The counter a code is computed from at the first second of a step is that step again. */
  lemma StepOfStepTime(step: int)
    ensures BaseStep(step * STEP) == step
  {
  }

  /** MatchTOTP: the first of the three steps around now whose password is the code. */
  function Match(f: Functions, secret: string, code: string, at: int): Option<int> {
    var c, base := Trim(code), BaseStep(at);
    if |c| != 6 then None
    else if f.totp(secret, base - 1) == c then Some(base - 1)
    else if f.totp(secret, base) == c then Some(base)
    else if f.totp(secret, base + 1) == c then Some(base + 1)
    else None
  }

  method MatchTotp(f: Functions, secret: string, code: string, at: int) returns (step: Option<int>)
    ensures step == Match(f, secret, code, at)
  {
    var c := Trim(code);
    if |c| != 6 { return None; }
    var base := BaseStep(at);
    var offset := -1;
    while offset <= 1
      invariant -1 <= offset <= 2
      invariant offset > -1 ==> f.totp(secret, base - 1) != c
      invariant offset > 0 ==> f.totp(secret, base) != c
      invariant offset > 1 ==> f.totp(secret, base + 1) != c
    {
      StepOfStepTime(base + offset);
      var counter := BaseStep((base + offset) * STEP);
      if f.totp(secret, counter) == c { return Some(counter); }
      offset := offset + 1;
    }
    return None;
  }

  /** VerifyMFA */
  function Verify(f: Functions, u: User, code: string, now: int): (User, bool) {
    if !u.active || !u.enabled || u.secret == "" then (u, false)
    else
      match Match(f, u.secret, code, now)
      case None => (u, false)
      case Some(step) => if step <= u.lastStep then (u, false) else (u.(lastStep := step), true)
  }

  function ToUpper(c: char): char {
    if 'a' <= c <= 'z' then (c as int - 32) as char else c
  }

  /** NormalizeRecoveryCode: dashes and blanks dropped, upper case. */
  function Normalise(code: string): string {
    if code == [] then []
    else if code[0] == '-' || code[0] == ' ' || code[0] == '\t' then Normalise(code[1..])
    else [ToUpper(code[0])] + Normalise(code[1..])
  }

  /** The first unused code, among the first `limit` unused ones, that the text matches. */
  function FirstMatch(f: Functions, codes: seq<RecoveryCode>, text: string, from: nat, limit: nat): (r: Option<nat>)
    requires from <= |codes|
    ensures r.Some? ==> from <= r.value < |codes| && !codes[r.value].used && f.matches(codes[r.value].hash, text)
    decreases |codes| - from
  {
    if from == |codes| || limit == 0 then None
    else if codes[from].used then FirstMatch(f, codes, text, from + 1, limit)
    else if f.matches(codes[from].hash, text) then Some(from)
    else FirstMatch(f, codes, text, from + 1, limit - 1)
  }

  /** UseRecoveryCode */
  function Recover(f: Functions, u: User, code: string): (User, bool) {
    var text := Normalise(Trim(code));
    if text == "" || !u.active || !u.enabled then (u, false)
    else
      match FirstMatch(f, u.codes, text, 0, 10)
      case None => (u, false)
      case Some(i) => (u.(codes := u.codes[i := u.codes[i].(used := true)]), true)
  }

  function CloseAll(enrollments: map<string, Enrollment>): map<string, Enrollment> {
    map t | t in enrollments :: enrollments[t].(used := true)
  }

  /** CreateMFAEnrollment under a fresh token: any earlier enrollment is closed. */
  function Enroll(u: User, token: string, secret: string, expires: int, now: int): Result<User, MfaError> {
    var _ :- Need(now < expires <= now + MAX_LIFETIME, ExpiryOutOfBounds);
    var _ :- Need(u.active, UserUnknown);
    var _ :- Need(!u.enabled, AlreadyEnabled);
    Ok(u.(enrollments := CloseAll(u.enrollments)[token := Enrollment(secret, expires, 0, false)]))
  }

  function FreshCodes(hashes: seq<string>): seq<RecoveryCode> {
    seq(|hashes|, i requires 0 <= i < |hashes| => RecoveryCode(hashes[i], false))
  }

  /** CompleteMFAEnrollment. The confirmed step itself stays available for the first sign-in. */
  function Complete(f: Functions, u: User, token: string, code: string, hashes: seq<string>, at: int): Result<(User, bool), MfaError> {
    var _ :- Need(|hashes| == 10, TenCodesRequired);
    if token !in u.enrollments || u.enrollments[token].used || !u.active then Ok((u, false))
    else
      var e := u.enrollments[token];
      if u.enabled || at >= e.expires || e.attempts >= MAX_ATTEMPTS then
        Ok((u.(enrollments := u.enrollments[token := e.(used := true)]), false))
      else if Match(f, e.secret, code, at).None? then
        var failed := e.(attempts := e.attempts + 1, used := e.attempts + 1 >= MAX_ATTEMPTS);
        Ok((u.(enrollments := u.enrollments[token := failed]), false))
      else
        var _ :- Need(forall i :: 0 <= i < |hashes| ==> Trim(hashes[i]) != "", EmptyCodeHash);
        Ok((u.(enabled := true, secret := e.secret, lastStep := BaseStep(at) - 1, codes := FreshCodes(hashes),
               enrollments := u.enrollments[token := e.(used := true)]), true))
  }

  class Account {
    const f: Functions
    var active: bool
    var enabled: bool
    var secret: string
    var lastStep: int
    var codes: seq<RecoveryCode>
    var enrollments: map<string, Enrollment>

    constructor (f: Functions)
      ensures State() == User(true, false, "", -1, [], map[]) && this.f == f
    {
      this.f := f;
      active, enabled, secret, lastStep, codes, enrollments := true, false, "", -1, [], map[];
    }

    ghost function State(): User
      reads this
    {
      User(active, enabled, secret, lastStep, codes, enrollments)
    }

    method VerifyMfa(code: string, now: int) returns (ok: bool)
      modifies `lastStep
      ensures (State(), ok) == Verify(f, old(State()), code, now)
    {
      hide Match;
      if !active || !enabled || secret == "" { return false; }
      var step := MatchTotp(f, secret, code, now);
      if step.None? || step.value <= lastStep { return false; }
      lastStep := step.value;
      return true;
    }

    method UseRecoveryCode(code: string) returns (ok: bool)
      modifies `codes
      ensures (State(), ok) == Recover(f, old(State()), code)
    {
      hide Normalise, Trim;
      var text := Normalise(Trim(code));
      if text == "" || !active || !enabled { return false; }
      var matched: Option<nat>, read, i := None, 0, 0;
      while i < |codes| && read < 10
        invariant 0 <= i <= |codes| && 0 <= read <= 10
        invariant codes == old(codes)
        invariant (if matched.Some? then matched else FirstMatch(f, codes, text, i, 10 - read)) == FirstMatch(f, codes, text, 0, 10)
      {
        if !codes[i].used {
          if matched.None? && f.matches(codes[i].hash, text) { matched := Some(i); }
          read := read + 1;
        }
        i := i + 1;
      }
      if matched.None? { return false; }
      codes := codes[matched.value := codes[matched.value].(used := true)];
      return true;
    }

    method CompleteEnrollment(token: string, code: string, hashes: seq<string>, at: int) returns (r: Result<bool, MfaError>)
      modifies this
      ensures match Complete(f, old(State()), token, code, hashes, at)
              case Ok((u, ok)) => State() == u && r == Ok(ok)
              case Err(e) => State() == old(State()) && r == Err(e)
    {
      hide Match, Trim;
      if |hashes| != 10 { return Err(TenCodesRequired); }
      if token !in enrollments || enrollments[token].used || !active { return Ok(false); }
      var e := enrollments[token];
      if enabled || at >= e.expires || e.attempts >= MAX_ATTEMPTS {
        enrollments := enrollments[token := e.(used := true)];
        return Ok(false);
      }
      var step := MatchTotp(f, e.secret, code, at);
      if step.None? {
        e := e.(attempts := e.attempts + 1);
        if e.attempts >= MAX_ATTEMPTS { e := e.(used := true); }
        enrollments := enrollments[token := e];
        return Ok(false);
      }
      var i, stored := 0, [];
      while i < |hashes|
        invariant 0 <= i <= |hashes| && stored == FreshCodes(hashes[..i])
        invariant forall j :: 0 <= j < i ==> Trim(hashes[j]) != ""
      {
        if Trim(hashes[i]) == "" { return Err(EmptyCodeHash); }
        stored := stored + [RecoveryCode(hashes[i], false)];
        i := i + 1;
      }
      assert hashes[..i] == hashes;
      enabled, secret, lastStep, codes := true, e.secret, BaseStep(at) - 1, stored;
      enrollments := enrollments[token := e.(used := true)];
      return Ok(true);
    }
  }

  // ----- runs -----

  datatype Op =
    | OVerify(code: string, now: int)
    | ORecover(code: string)
    | OEnroll(token: string, secret: string, expires: int, now: int)
    | OComplete(token: string, code: string, hashes: seq<string>, at: int)
    | OSetActive(active: bool)

  function After(f: Functions, u: User, op: Op): User {
    match op
    case OVerify(code, now) => Verify(f, u, code, now).0
    case ORecover(code) => Recover(f, u, code).0
    case OEnroll(token, secret, expires, now) => (
      match Enroll(u, token, secret, expires, now)
      case Ok(next) => next
      case Err(_) => u)
    case OComplete(token, code, hashes, at) => (
      match Complete(f, u, token, code, hashes, at)
      case Ok((next, _)) => next
      case Err(_) => u)
    case OSetActive(active) => u.(active := active)
  }

  /** The steps whose codes were accepted at sign-in over a run, in order. */
  function AcceptedSteps(f: Functions, u: User, ops: seq<Op>): seq<int>
    decreases |ops|
  {
    if ops == [] then []
    else
      var next := After(f, u, ops[0]);
      (if ops[0].OVerify? && Verify(f, u, ops[0].code, ops[0].now).1 then [next.lastStep] else []) + AcceptedSteps(f, next, ops[1..])
  }

  ghost predicate Increasing(steps: seq<int>, low: int, high: int) {
    && (forall i :: 0 <= i < |steps| ==> low <= steps[i] <= high)
    && (forall i, j | 0 <= i < j < |steps| :: steps[i] < steps[j])
  }

  /** Every sign-in of the run falls between the two times. */
  ghost predicate Within(ops: seq<Op>, from: int, until: int) {
    forall i :: 0 <= i < |ops| && ops[i].OVerify? ==> from <= ops[i].now <= until
  }

  lemma BaseStepGrows(a: int, b: int)
    requires a <= b
    ensures BaseStep(a) <= BaseStep(b)
  {
  }

  /** Once enabled, an account stays enabled and its last step only moves up, by accepted sign-ins alone. */
  lemma EnabledStep(f: Functions, u: User, op: Op)
    requires u.enabled
    ensures var next := After(f, u, op);
            && next.enabled && next.secret == u.secret
            && (if op.OVerify? && Verify(f, u, op.code, op.now).1 then next.lastStep > u.lastStep else next.lastStep == u.lastStep)
  {
    hide Match, Normalise, Trim;
  }

  lemma AcceptedInWindow(f: Functions, u: User, code: string, now: int)
    requires Verify(f, u, code, now).1
    ensures u.enabled && BaseStep(now) - 1 <= Verify(f, u, code, now).0.lastStep <= BaseStep(now) + 1
    ensures f.totp(u.secret, Verify(f, u, code, now).0.lastStep) == Trim(code)
  {
  }

  /** Accepted steps strictly increase over every run, so no time step signs in twice, whatever the order of the calls' clocks. */
  lemma {:induction false} StepsIncrease(f: Functions, u: User, ops: seq<Op>, from: int, until: int)
    requires Within(ops, from, until) && from <= until
    ensures Increasing(AcceptedSteps(f, u, ops), BaseStep(from) - 1, BaseStep(until) + 1)
    ensures u.enabled ==> forall i :: 0 <= i < |AcceptedSteps(f, u, ops)| ==> AcceptedSteps(f, u, ops)[i] > u.lastStep
    decreases |ops|
  {
    hide Verify, After, BaseStep;
    if ops != [] {
      var op, next := ops[0], After(f, u, ops[0]);
      StepsIncrease(f, next, ops[1..], from, until);
      if u.enabled { EnabledStep(f, u, op); }
      if op.OVerify? && Verify(f, u, op.code, op.now).1 {
        VerifiedIsAfter(f, u, op);
        AcceptedInWindow(f, u, op.code, op.now);
        BaseStepGrows(from, op.now);
        BaseStepGrows(op.now, until);
        EnabledStep(f, u, op);
      }
    }
  }

  lemma VerifiedIsAfter(f: Functions, u: User, op: Op)
    requires op.OVerify?
    ensures After(f, u, op) == Verify(f, u, op.code, op.now).0
  {
    hide Verify;
  }

  lemma {:induction false} IncreasingFits(steps: seq<int>, low: int, high: int)
    requires Increasing(steps, low, high) && low <= high + 1
    ensures |steps| <= high - low + 1
    decreases |steps|
  {
    if steps != [] {
      var n := |steps| - 1;
      assert forall i :: 0 <= i < n ==> steps[..n][i] == steps[i];
      IncreasingFits(steps[..n], low, steps[n] - 1);
    }
  }

  /** However many codes are tried, sign-ins between two times are accepted at most once per time step in reach
      (section 5.2 of RFC 6238): the difference of the base steps plus three. */
  lemma AcceptedAtMost(f: Functions, u: User, ops: seq<Op>, from: int, until: int)
    requires Within(ops, from, until) && from <= until
    ensures |AcceptedSteps(f, u, ops)| <= BaseStep(until) - BaseStep(from) + 3
  {
    hide AcceptedSteps, BaseStep, Within;
    StepsIncrease(f, u, ops, from, until);
    BaseStepGrows(from, until);
    IncreasingFits(AcceptedSteps(f, u, ops), BaseStep(from) - 1, BaseStep(until) + 1);
  }

  // ----- recovery codes -----

  function Unused(codes: seq<RecoveryCode>): nat {
    if codes == [] then 0 else Unused(codes[..|codes| - 1]) + (if codes[|codes| - 1].used then 0 else 1)
  }

  lemma {:induction false} UsingOne(codes: seq<RecoveryCode>, i: nat)
    requires i < |codes| && !codes[i].used
    ensures Unused(codes[i := codes[i].(used := true)]) == Unused(codes) - 1
    decreases |codes|
  {
    var n := |codes| - 1;
    var after := codes[i := codes[i].(used := true)];
    if i < n {
      assert after[..n] == codes[..n][i := codes[i].(used := true)];
      UsingOne(codes[..n], i);
    } else {
      assert after[..n] == codes[..n];
    }
  }

  /** How often a run signs in with the recovery code `text` (normalised), or with any if `text` is empty. */
  function Recoveries(f: Functions, u: User, ops: seq<Op>, text: string): nat
    decreases |ops|
  {
    if ops == [] then 0
    else
      var op := ops[0];
      (if op.ORecover? && (text == "" || Normalise(Trim(op.code)) == text) && Recover(f, u, op.code).1 then 1 else 0)
      + Recoveries(f, After(f, u, op), ops[1..], text)
  }

  /** A sign-in by recovery code spends exactly one unused code; nothing else touches an enabled account's codes. */
  lemma RecoverySpends(f: Functions, u: User, op: Op)
    requires u.enabled
    ensures After(f, u, op).enabled
    ensures if op.ORecover? && Recover(f, u, op.code).1
            then exists i :: 0 <= i < |u.codes| && !u.codes[i].used && f.matches(u.codes[i].hash, Normalise(Trim(op.code)))
                             && After(f, u, op).codes == u.codes[i := u.codes[i].(used := true)]
            else After(f, u, op).codes == u.codes
  {
    hide Match, Normalise, Trim;
    if op.ORecover? && Recover(f, u, op.code).1 {
      var i := FirstMatch(f, u.codes, Normalise(Trim(op.code)), 0, 10).value;
      assert After(f, u, op).codes == u.codes[i := u.codes[i].(used := true)];
    }
  }

  /** An enabled account signs in by recovery code at most as often as it has unused codes. */
  lemma {:induction false} RecoveriesAtMost(f: Functions, u: User, ops: seq<Op>)
    requires u.enabled
    ensures Recoveries(f, u, ops, "") <= Unused(u.codes)
    decreases |ops|
  {
    hide After, Recover, Unused, Normalise, Trim;
    if ops != [] {
      var op := ops[0];
      RecoverySpends(f, u, op);
      RecoveriesAtMost(f, After(f, u, op), ops[1..]);
      if op.ORecover? && Recover(f, u, op.code).1 {
        var i :| 0 <= i < |u.codes| && !u.codes[i].used && After(f, u, op).codes == u.codes[i := u.codes[i].(used := true)];
        UsingOne(u.codes, i);
      }
    }
  }

  /** At most this row answers to the text. */
  ghost predicate OnlyRow(f: Functions, codes: seq<RecoveryCode>, text: string) {
    forall i, j | 0 <= i < |codes| && 0 <= j < |codes| && f.matches(codes[i].hash, text) && f.matches(codes[j].hash, text) :: i == j
  }

  predicate SpentFor(f: Functions, codes: seq<RecoveryCode>, text: string) {
    forall i :: 0 <= i < |codes| && f.matches(codes[i].hash, text) ==> codes[i].used
  }

  /** A code whose rows are all spent does not sign in again. */
  lemma {:induction false} SpentStays(f: Functions, u: User, ops: seq<Op>, text: string)
    requires u.enabled && text != "" && SpentFor(f, u.codes, text)
    ensures Recoveries(f, u, ops, text) == 0
    decreases |ops|
  {
    hide After, Recover, Normalise, Trim;
    if ops != [] {
      RecoverySpends(f, u, ops[0]);
      SpentStays(f, After(f, u, ops[0]), ops[1..], text);
    }
  }

  /** Each recovery code signs in at most once over every run. */
  lemma {:induction false} RecoveryCodeOnce(f: Functions, u: User, ops: seq<Op>, text: string)
    requires u.enabled && text != "" && OnlyRow(f, u.codes, text)
    ensures Recoveries(f, u, ops, text) <= 1
    decreases |ops|
  {
    hide After, Recover, Normalise, Trim;
    if ops != [] {
      var op := ops[0];
      RecoverySpends(f, u, op);
      var next := After(f, u, op);
      if op.ORecover? && Normalise(Trim(op.code)) == text && Recover(f, u, op.code).1 {
        SpentStays(f, next, ops[1..], text);
      } else {
        RecoveryCodeOnce(f, next, ops[1..], text);
      }
    }
  }

  // ----- enrollment -----

  /** The call checks a code against the enrollment, rather than closing it or missing it. */
  predicate Tries(u: User, op: Op, token: string) {
    op.OComplete? && op.token == token && token in u.enrollments && !u.enrollments[token].used && u.active
    && |op.hashes| == 10 && !u.enabled && op.at < u.enrollments[token].expires && u.enrollments[token].attempts < MAX_ATTEMPTS
  }

  /** How often a run tries a wrong code against the enrollment. */
  function FailedTries(f: Functions, u: User, ops: seq<Op>, token: string): nat
    decreases |ops|
  {
    if ops == [] then 0
    else
      (if Tries(u, ops[0], token) && Match(f, u.enrollments[token].secret, ops[0].code, ops[0].at).None? then 1 else 0)
      + FailedTries(f, After(f, u, ops[0]), ops[1..], token)
  }

  /** Tokens are random: a run does not issue the same one again. */
  predicate NeverReissued(ops: seq<Op>, token: string) {
    forall i :: 0 <= i < |ops| && ops[i].OEnroll? ==> ops[i].token != token
  }

  lemma TryCounts(f: Functions, u: User, op: Op, token: string)
    requires token in u.enrollments && !(op.OEnroll? && op.token == token)
    ensures var next := After(f, u, op);
            && token in next.enrollments && next.enrollments[token].secret == u.enrollments[token].secret
            && (u.enrollments[token].used ==> next.enrollments[token].used)
            && next.enrollments[token].attempts ==
               u.enrollments[token].attempts
               + (if Tries(u, op, token) && Match(f, u.enrollments[token].secret, op.code, op.at).None? then 1 else 0)
  {
    hide Match, Trim, Normalise;
  }

  /** An enrollment takes at most five wrong codes, over every run. */
  lemma {:induction false} FiveTries(f: Functions, u: User, ops: seq<Op>, token: string)
    requires token in u.enrollments && NeverReissued(ops, token)
    ensures FailedTries(f, u, ops, token) <= if u.enrollments[token].attempts <= MAX_ATTEMPTS then MAX_ATTEMPTS - u.enrollments[token].attempts else 0
    decreases |ops|
  {
    hide After, Match;
    if ops != [] {
      TryCounts(f, u, ops[0], token);
      FiveTries(f, After(f, u, ops[0]), ops[1..], token);
    }
  }
}
