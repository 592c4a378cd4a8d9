/** When a second factor is accepted: every code that should be, and no other (internal/db/sqlite/mfa.go, internal/auth/mfa.go). */
module MfaDecisions {
  import opened Prelude
  import opened Mfa

  /** The time step of a moment: 30 seconds long, counted from 1970, and towards it before. */
  lemma StepIs(now: int)
    ensures if now >= 0 then 30 * BaseStep(now) <= now < 30 * BaseStep(now) + 30
            else 30 * BaseStep(now) - 30 < now <= 30 * BaseStep(now)
  {
  }

  /** The step whose password the code is, the earliest of the three in reach. */
  ghost predicate Answers(f: Functions, secret: string, code: string, now: int, step: int) {
    && |Trim(code)| == 6 && BaseStep(now) - 1 <= step <= BaseStep(now) + 1
    && f.totp(secret, step) == Trim(code)
    && forall earlier | BaseStep(now) - 1 <= earlier < step :: f.totp(secret, earlier) != Trim(code)
  }

  lemma MatchIs(f: Functions, secret: string, code: string, now: int)
    ensures forall step :: Answers(f, secret, code, now, step) <==> Match(f, secret, code, now) == Some(step)
  {
    hide Trim, BaseStep;
  }

  /** A sign-in is accepted exactly when the account is active and enabled and the code answers for a step later than the last
      one accepted; that step is then recorded, and nothing else changes. */
  lemma VerifyDecides(f: Functions, u: User, code: string, now: int)
    ensures var (after, ok) := Verify(f, u, code, now);
            && (ok <==> u.active && u.enabled && u.secret != "" && exists step :: Answers(f, u.secret, code, now, step) && step > u.lastStep)
            && (!ok ==> after == u)
            && (ok ==> Answers(f, u.secret, code, now, after.lastStep) && after == u.(lastStep := after.lastStep))
  {
    hide Answers, Match;
    MatchIs(f, u.secret, code, now);
  }

  /** So the current code, the one before and the one after all sign in, if later than the last one accepted, unless one password
      happens to serve two of the steps. */
  lemma FreshCodeSignsIn(f: Functions, u: User, step: int, now: int)
    requires u.active && u.enabled && u.secret != "" && now >= 0 && now / 30 - 1 <= step <= now / 30 + 1 && step > u.lastStep
    requires var code := f.totp(u.secret, step);
             |code| == 6 && Trim(code) == code && forall other | now / 30 - 1 <= other < step :: f.totp(u.secret, other) != code
    ensures Verify(f, u, f.totp(u.secret, step), now) == (u.(lastStep := step), true)
  {
    hide Trim, Match;
    StepIs(now);
    MatchIs(f, u.secret, f.totp(u.secret, step), now);
    assert Answers(f, u.secret, f.totp(u.secret, step), now, step);
  }

  // ----- recovery codes -----

  /** The row that answers to the text: the first unused one that matches, if fewer than ten unused rows come before it. */
  ghost predicate Spendable(f: Functions, codes: seq<RecoveryCode>, text: string, i: int) {
    && 0 <= i < |codes| && !codes[i].used && f.matches(codes[i].hash, text) && Unused(codes[..i]) < 10
    && forall j | 0 <= j < i && !codes[j].used :: !f.matches(codes[j].hash, text)
  }

  lemma {:induction false} FirstMatchIs(f: Functions, codes: seq<RecoveryCode>, text: string, from: nat, limit: nat)
    requires from <= |codes| && Unused(codes[..from]) + limit == 10
    requires forall j | 0 <= j < from && !codes[j].used :: !f.matches(codes[j].hash, text)
    ensures forall i :: Spendable(f, codes, text, i) <==> i >= 0 && FirstMatch(f, codes, text, from, limit) == Some(i)
    decreases |codes| - from
  {
    if from < |codes| {
      assert codes[..from + 1][..from] == codes[..from];
      if limit == 0 {
        forall i | from <= i < |codes|
          ensures Unused(codes[..i]) >= 10
        {
          UnusedGrows(codes, from, i);
        }
      } else if codes[from].used {
        FirstMatchIs(f, codes, text, from + 1, limit);
      } else if !f.matches(codes[from].hash, text) {
        FirstMatchIs(f, codes, text, from + 1, limit - 1);
      }
    }
  }

  lemma {:induction false} UnusedGrows(codes: seq<RecoveryCode>, m: nat, n: nat)
    requires m <= n <= |codes|
    ensures Unused(codes[..m]) <= Unused(codes[..n])
    decreases n
  {
    if m < n {
      UnusedGrows(codes, m, n - 1);
      assert codes[..n][..n - 1] == codes[..n - 1];
    }
  }

  /** A recovery code is accepted exactly when the account is active and enabled and some unused row answers to it; that row is
      spent, and nothing else changes. */
  lemma RecoverDecides(f: Functions, u: User, code: string)
    ensures var (after, ok) := Recover(f, u, code);
            var text := Normalise(Trim(code));
            && (ok <==> u.active && u.enabled && text != "" && exists i :: Spendable(f, u.codes, text, i))
            && (!ok ==> after == u)
            && (ok ==> exists i :: Spendable(f, u.codes, text, i)
                                   && after == u.(codes := u.codes[i := RecoveryCode(u.codes[i].hash, true)]))
  {
    hide Normalise, Trim, Spendable;
    FirstMatchIs(f, u.codes, Normalise(Trim(code)), 0, 10);
    var matched := FirstMatch(f, u.codes, Normalise(Trim(code)), 0, 10);
    if matched.Some? { assert Spendable(f, u.codes, Normalise(Trim(code)), matched.value); }
  }

  /** What normalising does: characters one by one, dashes and blanks dropped, letters in upper case. */
  lemma {:induction false} NormaliseIs(a: string, b: string)
    ensures Normalise(a + b) == Normalise(a) + Normalise(b)
    ensures |a| == 1 ==> Normalise(a) == (if a[0] in {'-', ' ', '\t'} then "" else [Capital(a[0])])
    decreases |a|
  {
    hide ToUpper, Capital;
    if |a| == 1 { CapitalIs(a[0]); }
    if a == [] {
      assert a + b == b;
    } else {
      assert (a + b)[1..] == a[1..] + b;
      NormaliseIs(a[1..], b);
    }
  }

  function Capital(c: char): char {
    if 'a' <= c <= 'z' then (c as int - 'a' as int + 'A' as int) as char else c
  }

  lemma CapitalIs(c: char)
    ensures ToUpper(c) == Capital(c)
  {
  }

  // ----- enrollment -----

  /** An enrollment lasts half an hour at most, is only for an active account without a second factor, and closes any before it. */
  lemma EnrollDecides(u: User, token: string, secret: string, expires: int, now: int)
    ensures var r := Enroll(u, token, secret, expires, now);
            if !(now < expires <= now + 1800) then r == Err(ExpiryOutOfBounds)
            else if !u.active then r == Err(UserUnknown)
            else if u.enabled then r == Err(AlreadyEnabled)
            else
              && r.Ok? && r.value == u.(enrollments := r.value.enrollments)
              && r.value.enrollments.Keys == u.enrollments.Keys + {token}
              && r.value.enrollments[token] == Enrollment(secret, expires, 0, false)
              && forall t :: t in u.enrollments && t != token ==> r.value.enrollments[t] == u.enrollments[t].(used := true)
  {
  }

  /** The account is enabled exactly by a matching code on an open enrollment with ten hashes given, and is then as enrolled: its
      secret, ten fresh codes, every step but those before the present one still to be used. A wrong code counts, the fifth
      closes; a late or needless attempt closes; whatever else is asked changes nothing. */
  lemma CompleteDecides(f: Functions, u: User, token: string, code: string, hashes: seq<string>, at: int)
    ensures var r := Complete(f, u, token, code, hashes, at);
            if |hashes| != 10 then r == Err(TenCodesRequired)
            else if token !in u.enrollments || u.enrollments[token].used || !u.active then r == Ok((u, false))
            else
              var e := u.enrollments[token];
              var closed := u.(enrollments := u.enrollments[token := e.(used := true)]);
              if u.enabled || e.expires <= at || e.attempts >= 5 then r == Ok((closed, false))
              else if !exists step :: Answers(f, e.secret, code, at, step) then
                r == Ok((u.(enrollments := u.enrollments[token := Enrollment(e.secret, e.expires, e.attempts + 1, e.attempts == 4)]), false))
              else if exists h :: h in hashes && Trim(h) == "" then r == Err(EmptyCodeHash)
              else
                && r.Ok? && r.value.1
                && r.value.0 == User(true, true, e.secret, BaseStep(at) - 1, r.value.0.codes, closed.enrollments)
                && |r.value.0.codes| == 10
                && forall i :: 0 <= i < 10 ==> r.value.0.codes[i] == RecoveryCode(hashes[i], false)
  {
    hide Trim, Match, Answers, BaseStep;
    if token in u.enrollments {
      MatchIs(f, u.enrollments[token].secret, code, at);
      var matched := Match(f, u.enrollments[token].secret, code, at);
      if matched.Some? { assert Answers(f, u.enrollments[token].secret, code, at, matched.value); }
    }
  }
}
