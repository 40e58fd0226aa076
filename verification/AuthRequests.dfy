/** What each authentication request does, row by row and field by field, with the instants in
    milliseconds and the purposes written out. */
module AuthRequests {
  import opened Basics
  import opened Options
  import opened AuthModel
  import opened AuthTheorems

  /** A code as it is issued: unused, for ten minutes and three attempts. */
  predicate IsIssued(o: Otp, phone: string, code: string, purpose: string, now: Instant) {
    o == Otp(phone, code, purpose, now, now + 600000, false, None, 0, 3, false)
  }

  /** Whoever is not known by phone or email yet is registered, unverified, with a wallet and a
      code. */
  lemma RegisterDoes(st: State, c: Call)
    requires c.command.Register? && Whole(c)
    ensures
      var Register(phone, email, password, id, code) := c.command;
      var emailKnown := email.Some? && email.value != "" && exists p :: p in st.users && st.users[p].email == email;
      var (st', r) := Step(st, c);
      if phone in st.users || emailKnown then st' == st && r == Refused(UserExists)
      else
        && r == Registered
        && st'.users == st.users[phone := User(id, email, password, PendingVerification, false, None, 0)]
        && st'.wallets == st.wallets + [id]
        && |st'.otps| == |st.otps| + 1 && st'.otps[..|st.otps|] == st.otps
        && IsIssued(st'.otps[|st.otps|], phone, code, "REGISTRATION", c.now)
  {
  }

  /** A known user gets a new code, unless one for the phone and purpose is younger than two minutes;
      then the answer is how many seconds are missing, rounded up. */
  lemma ResendDoes(st: State, c: Call)
    requires c.command.ResendOtp? && Whole(c)
    ensures
      var ResendOtp(phone, purpose, code) := c.command;
      var (st', r) := Step(st, c);
      if phone !in st.users then st' == st && r == Refused(UserNotFound)
      else if exists i :: 0 <= i < |st.otps| && SamePair(st.otps[i], phone, purpose) && c.now - st.otps[i].createdAt < 120000 then
        && st' == st && r.Refused? && r.failure.TooSoon?
        && exists i :: 0 <= i < |st.otps| && SamePair(st.otps[i], phone, purpose)
             && (r.failure.seconds - 1) * 1000 < 120000 - (c.now - st.otps[i].createdAt) <= r.failure.seconds * 1000
             && forall j :: 0 <= j < |st.otps| && SamePair(st.otps[j], phone, purpose) ==> st.otps[j].createdAt <= st.otps[i].createdAt
      else
        && r == Sent && st'.users == st.users && st'.wallets == st.wallets
        && |st'.otps| == |st.otps| + 1 && st'.otps[..|st.otps|] == st.otps
        && IsIssued(st'.otps[|st.otps|], phone, code, purpose, c.now)
  {
    var ResendOtp(phone, purpose, code) := c.command;
    var recent := Newest(st.otps, ByPair(phone, purpose));
    NewestIsNewest(st.otps, ByPair(phone, purpose));
    if recent.Some? {
      assert SamePair(st.otps[recent.value], phone, purpose);
      forall i | 0 <= i < |st.otps| && SamePair(st.otps[i], phone, purpose)
        ensures st.otps[i].createdAt <= st.otps[recent.value].createdAt
      {
        assert ByPair(phone, purpose)(st.otps[i]);
      }
    } else {
      forall i | 0 <= i < |st.otps| ensures !SamePair(st.otps[i], phone, purpose) {
        assert !ByPair(phone, purpose)(st.otps[i]);
      }
    }
  }

  /** A known phone gets a code for a new password, and any other the same kind of answer. */
  lemma ForgotDoes(st: State, c: Call)
    requires c.command.ForgotPassword? && Whole(c)
    ensures
      var ForgotPassword(phone, code) := c.command;
      var (st', r) := Step(st, c);
      if phone !in st.users then st' == st && r == NothingToSend
      else
        && r == Sent && st'.users == st.users && st'.wallets == st.wallets
        && |st'.otps| == |st.otps| + 1 && st'.otps[..|st.otps|] == st.otps
        && IsIssued(st'.otps[|st.otps|], phone, code, "FORGOT_PASSWORD", c.now)
  {
  }

  /** The right password lets a verified user in who is neither suspended nor banned; the first test
      that fails is the answer. */
  lemma LoginDoes(st: State, c: Call)
    requires c.command.Login? && Whole(c)
    ensures
      var Login(phone, password) := c.command;
      var (st', r) := Step(st, c);
      if phone !in st.users || st.users[phone].password != password then st' == st && r == Refused(InvalidCredentials)
      else
        var u := st.users[phone];
        if !u.phoneVerified then st' == st && r == Refused(NotVerified)
        else if u.status == Suspended then st' == st && r == Refused(AccountSuspended)
        else if u.status == Banned then st' == st && r == Refused(AccountBanned)
        else
          r == LoggedIn && st' == st.(users := st.users[phone := u.(lastLoginAt := Some(c.now), loginCount := 1)])
  {
  }

  /** Some unused row is for this phone, code and purpose. */
  ghost predicate Unused(otps: seq<Otp>, phone: string, code: string, purpose: string) {
    exists i :: 0 <= i < |otps| && IsUnused(otps[i], phone, code, purpose)
  }

  predicate IsUnused(o: Otp, phone: string, code: string, purpose: string) {
    o.phone == phone && o.code == code && o.purpose == purpose && !o.isUsed
  }

  /** Row `k` was unused and unexpired, for this phone, code and purpose, and is used now. */
  ghost predicate UsesRow(otps: seq<Otp>, otps': seq<Otp>, k: nat, phone: string, code: string, purpose: string, now: Instant) {
    && k < |otps| && IsUnusedAndLive(otps[k], phone, code, purpose, now)
    && otps' == otps[k := otps[k].(isUsed := true, usedAt := Some(now))]
  }

  lemma MatchesMeansUnused(otps: seq<Otp>, q: Query)
    requires AllUnattempted(otps)
    ensures Newest(otps, ByQuery(q)).Some? <==> Unused(otps, q.phone, q.code, q.purpose)
  {
    NewestIsNewest(otps, ByQuery(q));
    forall i | 0 <= i < |otps| ensures ByQuery(q)(otps[i]) <==> IsUnused(otps[i], q.phone, q.code, q.purpose) {
      assert Unattempted(otps[i]);
    }
  }

  /** A code that was issued for this phone and purpose, is unused and has not expired makes the user
      verified and active; an expired one is told from one that is not there. */
  lemma VerifyDoes(st: State, c: Call)
    requires AllUnattempted(st.otps) && c.command.VerifyOtp? && Whole(c)
    ensures
      var VerifyOtp(phone, code, purpose) := c.command;
      var (st', r) := Step(st, c);
      if !Unused(st.otps, phone, code, purpose) then st' == st && r == Refused(InvalidCode)
      else if !UnusedAndLive(st.otps, phone, code, purpose, c.now) then st' == st && r == Refused(Expired)
      else
        && Consumes(r) && UsesRow(st.otps, st'.otps, r.consumed, phone, code, purpose, c.now) && st'.wallets == st.wallets
        && if phone !in st.users then r.ConsumedForNobody? && st'.users == st.users
           else
             && r.Verified?
             && st'.users == st.users[phone := st.users[phone].(phoneVerified := true, status := Active,
                                                                lastLoginAt := Some(c.now),
                                                                loginCount := st.users[phone].loginCount + 1)]
  {
    var q := QueryOf(c.command);
    MatchesMeansUnused(st.otps, q);
    ConsumesExactlyWhenLive(st, c);
    LiveMeansUnusedAndLive(st.otps, q, c.now);
    StepConsumes(st, c);
    VerifyOnOtps(st, c);
  }

  /** A code that was issued for `FORGOT_PASSWORD`, is unused and has not expired sets the password. */
  lemma ResetDoes(st: State, c: Call)
    requires AllUnattempted(st.otps) && c.command.ResetPassword? && Whole(c)
    ensures
      var ResetPassword(phone, code, password) := c.command;
      var (st', r) := Step(st, c);
      if !UnusedAndLive(st.otps, phone, code, "FORGOT_PASSWORD", c.now) then st' == st && r == Refused(InvalidCode)
      else
        && Consumes(r) && UsesRow(st.otps, st'.otps, r.consumed, phone, code, "FORGOT_PASSWORD", c.now) && st'.wallets == st.wallets
        && if phone !in st.users then r.ConsumedForNobody? && st'.users == st.users
           else r.PasswordReset? && st'.users == st.users[phone := st.users[phone].(password := password)]
  {
    var q := QueryOf(c.command);
    MatchesMeansUnused(st.otps, q);
    ConsumesExactlyWhenLive(st, c);
    LiveMeansUnusedAndLive(st.otps, q, c.now);
    ResetOnOtps(st, c);
  }

  /** Whoever knows the current password changes it. */
  lemma ChangeDoes(st: State, c: Call)
    requires c.command.ChangePassword? && Whole(c)
    ensures
      var ChangePassword(phone, current, password) := c.command;
      var (st', r) := Step(st, c);
      if phone !in st.users then st' == st && r == Refused(UserNotFound)
      else if st.users[phone].password != current then st' == st && r == Refused(WrongPassword)
      else r == PasswordChanged && st' == st.(users := st.users[phone := st.users[phone].(password := password)])
  {
  }

  /** Where a request stops when its first save fails, or a later one: a registration leaves a user
      without a wallet, or without a code; a verification or reset a used code and the user as
      before; and any other request nothing. */
  lemma StopsInBetween(st: State, c: Call)
    requires AllUnattempted(st.otps) && !Whole(c)
    ensures c.saves == 0 ==> Step(st, c).0 == st
    ensures c.command.Register? && 1 <= c.saves && !Step(st, c).1.Refused? ==>
              var (st', d) := (Step(st, c).0, c.command);
              && Step(st, c).1 == Interrupted && st'.otps == st.otps
              && st'.users == st.users[d.phone := User(d.id, d.email, d.password, PendingVerification, false, None, 0)]
              && st'.wallets == if c.saves == 1 then st.wallets else st.wallets + [d.id]
    ensures (c.command.VerifyOtp? || c.command.ResetPassword?) && c.saves == 1 && !Step(st, c).1.Refused? ==>
              var (st', r, d) := (Step(st, c).0, Step(st, c).1, c.command);
              && st'.users == st.users && st'.wallets == st.wallets
              && (if d.phone in st.users then r.InterruptedAfter? else r.ConsumedForNobody?)
              && UsesRow(st.otps, st'.otps, r.consumed, d.phone, d.code,
                         if d.VerifyOtp? then d.purpose else "FORGOT_PASSWORD", c.now)
  {
    if c.command.VerifyOtp? {
      VerifyOnOtps(st, c);
    } else if c.command.ResetPassword? {
      ResetOnOtps(st, c);
    }
  }

  /** In every state that requests can reach, a user who forgot the password, sets a new one with the
      code sent for it within ten minutes, and then logs in with it, gets through; if verified and
      not barred. */
  lemma ForgottenPasswordIsReplaced(st: State, calls: seq<Call>, forgot: Call, reset: Call, login: Call)
    requires AllUnattempted(st.otps) && forgot.command.ForgotPassword?
    requires var (phone, now) := (forgot.command.phone, Run(st, calls));
             && phone in now.users && now.users[phone].phoneVerified && !Barred(now.users[phone].status)
    requires reset.command.ResetPassword? && reset.command.phone == forgot.command.phone && reset.command.code == forgot.command.newCode
    requires login.command == Login(forgot.command.phone, reset.command.newPassword)
    requires reset.now <= forgot.now + 600000 && Whole(forgot) && Whole(reset) && Whole(login)
    ensures var answers := Answers(Run(st, calls), [forgot, reset, login]);
            answers[0] == Sent && answers[1].PasswordReset? && answers[2] == LoggedIn
  {
    var now := Run(st, calls);
    var st1 := Step(now, forgot).0;
    AttemptsAreNeverCounted(st, calls);
    StepKeepsUnattempted(now, forgot);
    ForgotDoes(now, forgot);
    assert IsUnusedAndLive(st1.otps[|now.otps|], reset.command.phone, reset.command.code, "FORGOT_PASSWORD", reset.now);
    ResetDoes(st1, reset);
    ResetChangesPassword(st1, reset, login);
    ThreeAnswers(now, forgot, reset, login);
  }

  /** And no code for another purpose sets a password. */
  lemma OtherPurposeSetsNoPassword(st: State, calls: seq<Call>, reset: Call)
    requires AllUnattempted(st.otps) && reset.command.ResetPassword?
    requires var otps := Run(st, calls).otps;
             forall i :: 0 <= i < |otps| && otps[i].phone == reset.command.phone && otps[i].code == reset.command.code ==>
               otps[i].purpose != "FORGOT_PASSWORD"
    ensures Step(Run(st, calls), reset) == (Run(st, calls), Refused(InvalidCode))
  {
    LookupIsComplete(st, calls, reset);
    RefusedResetDoesNothing(Run(st, calls), reset);
  }

  lemma RefusedResetDoesNothing(st: State, reset: Call)
    requires reset.command.ResetPassword? && Step(st, reset).1.Refused?
    ensures Step(st, reset) == (st, Refused(InvalidCode))
  {
  }
}
