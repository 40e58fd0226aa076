/** The authentication requests in the form the service has them. Each does what
    `AuthModel.Step` says. */
module AuthService {
  import opened Basics
  import opened Options
  import opened AuthModel

  class AuthService {
    var users: map<string, User>
    var wallets: seq<string>
    var otps: seq<Otp>
    ghost var resent: set<nat>

    ghost function View(): State
      reads this
    {
      State(users, wallets, otps, resent)
    }

    constructor ()
      ensures View() == State(map[], [], [], {})
    {
      users, wallets, otps, resent := map[], [], [], {};
    }

    method GenerateAndSendOtp(phone: string, purpose: string, code: string, now: Instant)
      modifies this`otps
      ensures otps == old(otps) + [NewOtp(phone, code, purpose, now)]
    {
      var expiresAt := now + 10 * 60 * 1000;
      var otp := Otp(phone, code, purpose, now, expiresAt, false, None, 0, 3, false);
      otps := otps + [otp];
    }

    method RegisterUser(phone: string, email: Option<string>, password: string, id: string, code: string, now: Instant, saves: nat)
      returns (r: Outcome)
      modifies this
      ensures (View(), r) == Step(old(View()), Call(Register(phone, email, password, id, code), now, saves))
    {
      if phone in users || EmailTaken(users, email) {
        return Refused(UserExists);
      }
      var user := User(id, email, password, PendingVerification, false, None, 0);
      if saves < 1 { return Interrupted; }
      users := users[phone := user];
      if saves < 2 { return Interrupted; }
      wallets := wallets + [user.id];
      if saves < 3 { return Interrupted; }
      GenerateAndSendOtp(phone, "REGISTRATION", code, now);
      return Registered;
    }

    method VerifyCode(phone: string, code: string, purpose: string, now: Instant, saves: nat) returns (r: Outcome)
      modifies this
      ensures (View(), r) == Step(old(View()), Call(VerifyOtp(phone, code, purpose), now, saves))
    {
      var found := Newest(otps, ByQuery(Query(phone, code, purpose, true)));
      if found.None? {
        return Refused(InvalidCode);
      }
      var otp := otps[found.value];
      if now > otp.expiresAt {
        return Refused(Expired);
      }
      if otp.attemptCount >= otp.maxAttempts {
        otp := otp.(isBlocked := true);
        if saves < 1 { return Interrupted; }
        otps := otps[found.value := otp];
        return Refused(AttemptsExceeded);
      }
      otp := otp.(isUsed := true);
      otp := otp.(usedAt := Some(now));
      if saves < 1 { return Interrupted; }
      otps := otps[found.value := otp];
      if phone !in users {
        return ConsumedForNobody(found.value);
      }
      var user := users[phone];
      user := user.(phoneVerified := true);
      user := user.(status := Active);
      user := user.(lastLoginAt := Some(now));
      user := user.(loginCount := user.loginCount + 1);
      if saves < 2 { return InterruptedAfter(found.value); }
      users := users[phone := user];
      return Verified(found.value);
    }

    method Resend(phone: string, purpose: string, newCode: string, now: Instant, saves: nat) returns (r: Outcome)
      modifies this
      ensures (View(), r) == Step(old(View()), Call(ResendOtp(phone, purpose, newCode), now, saves))
    {
      if phone !in users {
        return Refused(UserNotFound);
      }
      var recentOtp := Newest(otps, ByPair(phone, purpose));
      if recentOtp.Some? {
        var cooldownMs := 2 * 60 * 1000;
        var timeSinceLastOtp := now - otps[recentOtp.value].createdAt;
        if timeSinceLastOtp < cooldownMs {
          return Refused(TooSoon(CeilDiv(cooldownMs - timeSinceLastOtp, 1000)));
        }
      }
      if saves < 1 { return Interrupted; }
      resent := resent + {|otps|};
      GenerateAndSendOtp(phone, purpose, newCode, now);
      return Sent;
    }

    method LogIn(phone: string, password: string, now: Instant, saves: nat) returns (r: Outcome)
      modifies this
      ensures (View(), r) == Step(old(View()), Call(Login(phone, password), now, saves))
    {
      if phone !in users {
        return Refused(InvalidCredentials);
      }
      var user := users[phone];
      if user.password != password {
        return Refused(InvalidCredentials);
      }
      if !user.phoneVerified {
        return Refused(NotVerified);
      }
      if user.status == Suspended {
        return Refused(AccountSuspended);
      }
      if user.status == Banned {
        return Refused(AccountBanned);
      }
      user := user.(lastLoginAt := Some(now));
      // `select` leaves `loginCount` out, so it reads as 0
      user := user.(loginCount := 0 + 1);
      if saves < 1 { return Interrupted; }
      users := users[phone := user];
      return LoggedIn;
    }

    method Forgot(phone: string, newCode: string, now: Instant, saves: nat) returns (r: Outcome)
      modifies this
      ensures (View(), r) == Step(old(View()), Call(ForgotPassword(phone, newCode), now, saves))
    {
      if phone !in users {
        return NothingToSend;
      }
      if saves < 1 { return Interrupted; }
      GenerateAndSendOtp(phone, "FORGOT_PASSWORD", newCode, now);
      return Sent;
    }

    method Reset(phone: string, code: string, newPassword: string, now: Instant, saves: nat) returns (r: Outcome)
      modifies this
      ensures (View(), r) == Step(old(View()), Call(ResetPassword(phone, code, newPassword), now, saves))
    {
      var found := Newest(otps, ByQuery(Query(phone, code, "FORGOT_PASSWORD", false)));
      if found.None? || now > otps[found.value].expiresAt {
        return Refused(InvalidCode);
      }
      var otp := otps[found.value];
      otp := otp.(isUsed := true);
      otp := otp.(usedAt := Some(now));
      if saves < 1 { return Interrupted; }
      otps := otps[found.value := otp];
      if phone !in users {
        return ConsumedForNobody(found.value);
      }
      var user := users[phone];
      user := user.(password := newPassword);
      if saves < 2 { return InterruptedAfter(found.value); }
      users := users[phone := user];
      return PasswordReset(found.value);
    }

    method ChangeUserPassword(phone: string, currentPassword: string, newPassword: string, now: Instant, saves: nat) returns (r: Outcome)
      modifies this
      ensures (View(), r) == Step(old(View()), Call(ChangePassword(phone, currentPassword, newPassword), now, saves))
    {
      if phone !in users {
        return Refused(UserNotFound);
      }
      var user := users[phone];
      if user.password != currentPassword {
        return Refused(WrongPassword);
      }
      user := user.(password := newPassword);
      if saves < 1 { return Interrupted; }
      users := users[phone := user];
      return PasswordChanged;
    }

    /** `suspend`, `activate`, `banUser` and `unbanUser` of the user and admin services, which share
        the user repository: they write the status that their name says. */
    method WriteStatus(phone: string, status: UserStatus, now: Instant, saves: nat) returns (r: Outcome)
      modifies this
      ensures (View(), r) == Step(old(View()), Call(SetStatus(phone, status), now, saves))
    {
      if phone !in users {
        return Refused(UserNotFound);
      }
      var user := users[phone];
      user := user.(status := status);
      if saves < 1 { return Interrupted; }
      users := users[phone := user];
      return StatusSet;
    }
  }
}
