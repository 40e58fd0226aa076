/** One-time passwords, users and what each request of `AuthService` does to them. */
module AuthModel {
  import opened Basics
  import opened Options

  const LIFETIME: int := 10 * 60 * 1000
  const COOLDOWN: int := 2 * 60 * 1000
  const MAX_ATTEMPTS: int := 3
  const REGISTRATION: string := "REGISTRATION"
  const FORGOT_PASSWORD: string := "FORGOT_PASSWORD"

  datatype Otp = Otp(
    phone: string,
    code: string,
    purpose: string,
    createdAt: Instant,
    expiresAt: Instant,
    isUsed: bool,
    usedAt: Option<Instant>,
    attemptCount: int,
    maxAttempts: int,
    isBlocked: bool)

  datatype UserStatus = Active | Inactive | Suspended | PendingVerification | Banned

  datatype User = User(
    id: string,
    email: Option<string>,
    password: string,
    status: UserStatus,
    phoneVerified: bool,
    lastLoginAt: Option<Instant>,
    loginCount: nat)

  /** The repositories. `users` is indexed by the unique phone number; `otps` and `wallets` list
      rows in the order of their creation. `resent` is history: the OTP rows `resendOtp` made. */
  datatype State = State(users: map<string, User>, wallets: seq<string>, otps: seq<Otp>, resent: set<nat>)

  datatype Command =
    | Register(phone: string, email: Option<string>, password: string, id: string, code: string)
    | VerifyOtp(phone: string, code: string, purpose: string)
    | ResendOtp(phone: string, purpose: string, newCode: string)
    | Login(phone: string, password: string)
    | ForgotPassword(phone: string, newCode: string)
    | ResetPassword(phone: string, code: string, newPassword: string)
    | ChangePassword(phone: string, password: string, newPassword: string)
    | SetStatus(phone: string, status: UserStatus) // suspending, activating, banning and unbanning

  /** A request and the number of its saves the storage accepts; where a save fails, it stops. */
  datatype Call = Call(command: Command, now: Instant, saves: nat)

  datatype Failure =
    | UserExists | UserNotFound | InvalidCode | Expired | AttemptsExceeded
    | TooSoon(seconds: int) | InvalidCredentials | NotVerified | AccountSuspended | AccountBanned
    | WrongPassword

  /** What a request answers. `consumed` names the OTP row that was used up. */
  datatype Outcome =
    | Registered
    | Sent
    | NothingToSend
    | Verified(consumed: nat)
    | PasswordReset(consumed: nat)
    | LoggedIn
    | PasswordChanged
    | StatusSet
    | ConsumedForNobody(consumed: nat) // the OTP was used up, then no user was found
    | Interrupted // before an OTP was used up
    | InterruptedAfter(consumed: nat) // the OTP was used up, then saving the user failed
    | Refused(failure: Failure)

  // ---- OTP lookup -------------------------------------------------------------------------

  /** What `findOne` selects on: `purpose` always, `isBlocked: false` only when `skipBlocked`. */
  datatype Query = Query(phone: string, code: string, purpose: string, skipBlocked: bool)

  predicate Matches(o: Otp, q: Query) {
    o.phone == q.phone && o.code == q.code && o.purpose == q.purpose && !o.isUsed && (q.skipBlocked ==> !o.isBlocked)
  }

  predicate SamePair(o: Otp, phone: string, purpose: string) {
    o.phone == phone && o.purpose == purpose
  }

  /** The newest of the rows selected by `p`. */
  function Newest(otps: seq<Otp>, p: Otp -> bool): (r: Option<nat>)
    ensures r.Some? ==> r.value < |otps| && p(otps[r.value])
  {
    if otps == [] then None
    else
      var n := |otps| - 1;
      var before := Newest(otps[..n], p);
      if p(otps[n]) && (before.None? || otps[before.value].createdAt <= otps[n].createdAt) then Some(n) else before
  }

  /** None of the selected rows was created later, and there is no newest row only when nothing is
      selected. */
  lemma {:induction false} NewestIsNewest(otps: seq<Otp>, p: Otp -> bool)
    ensures Newest(otps, p).None? <==> forall i :: 0 <= i < |otps| ==> !p(otps[i])
    ensures Newest(otps, p).Some? ==>
              forall i :: 0 <= i < |otps| && p(otps[i]) ==> otps[i].createdAt <= otps[Newest(otps, p).value].createdAt
    decreases |otps|
  {
    if otps != [] {
      NewestIsNewest(otps[..|otps| - 1], p);
    }
  }

  function ByQuery(q: Query): Otp -> bool {
    (o: Otp) => Matches(o, q)
  }

  function ByPair(phone: string, purpose: string): Otp -> bool {
    (o: Otp) => SamePair(o, phone, purpose)
  }

  function VerifyQuery(phone: string, code: string, purpose: string): Query {
    Query(phone, code, purpose, true)
  }

  function ResetQuery(phone: string, code: string): Query {
    Query(phone, code, FORGOT_PASSWORD, false)
  }

  // ---- steps ------------------------------------------------------------------------------

  function NewOtp(phone: string, code: string, purpose: string, now: Instant): Otp {
    Otp(phone, code, purpose, now, now + LIFETIME, false, None, 0, MAX_ATTEMPTS, false)
  }

  function Issue(st: State, phone: string, code: string, purpose: string, now: Instant): State {
    st.(otps := st.otps + [NewOtp(phone, code, purpose, now)])
  }

  function Consume(st: State, i: nat, now: Instant): State
    requires i < |st.otps|
  {
    st.(otps := st.otps[i := st.otps[i].(isUsed := true, usedAt := Some(now))])
  }

  predicate EmailTaken(users: map<string, User>, email: Option<string>) {
    email.Some? && email.value != "" && exists p :: p in users && users[p].email == email
  }

  /** The longest request has three saves. */
  predicate Whole(c: Call) {
    c.saves >= 3
  }

  /** A request with one save, of `st'`, that is answered `r`. */
  function OneSave(st: State, c: Call, st': State, r: Outcome): (State, Outcome) {
    if c.saves == 0 then (st, Interrupted) else (st', r)
  }

  /** A request that uses up row `i` and then saves `user`, if there is a user. */
  function UseUp(st: State, c: Call, i: nat, user: Option<User>, r: Outcome): (State, Outcome)
    requires i < |st.otps|
  {
    if c.saves == 0 then (st, Interrupted)
    else
      var st' := Consume(st, i, c.now);
      if user.None? then (st', ConsumedForNobody(i))
      else if c.saves == 1 then (st', InterruptedAfter(i))
      else (st'.(users := st'.users[c.command.phone := user.value]), r)
  }

  function UserAt(st: State, phone: string): Option<User> {
    if phone in st.users then Some(st.users[phone]) else None
  }

  function StepRegister(st: State, c: Call): (State, Outcome)
    requires c.command.Register?
  {
    var Register(phone, email, password, id, code) := c.command;
    if phone in st.users || EmailTaken(st.users, email) then (st, Refused(UserExists))
    else
      var st1 := st.(users := st.users[phone := User(id, email, password, PendingVerification, false, None, 0)]);
      var st2 := st1.(wallets := st1.wallets + [id]);
      if c.saves == 0 then (st, Interrupted)
      else if c.saves == 1 then (st1, Interrupted)
      else if c.saves == 2 then (st2, Interrupted)
      else (Issue(st2, phone, code, REGISTRATION, c.now), Registered)
  }

  function Verify(u: User, now: Instant): User {
    u.(phoneVerified := true, status := Active, lastLoginAt := Some(now), loginCount := u.loginCount + 1)
  }

  function StepVerify(st: State, c: Call): (State, Outcome)
    requires c.command.VerifyOtp?
  {
    var VerifyOtp(phone, code, purpose) := c.command;
    var found := Newest(st.otps, ByQuery(VerifyQuery(phone, code, purpose)));
    if found.None? then (st, Refused(InvalidCode))
    else
      var otp := st.otps[found.value];
      if c.now > otp.expiresAt then (st, Refused(Expired))
      else if otp.attemptCount >= otp.maxAttempts then
        OneSave(st, c, st.(otps := st.otps[found.value := otp.(isBlocked := true)]), Refused(AttemptsExceeded))
      else
        var user := UserAt(st, phone);
        UseUp(st, c, found.value, if user.Some? then Some(Verify(user.value, c.now)) else None, Verified(found.value))
  }

  function StepResend(st: State, c: Call): (State, Outcome)
    requires c.command.ResendOtp?
  {
    var ResendOtp(phone, purpose, newCode) := c.command;
    if phone !in st.users then (st, Refused(UserNotFound))
    else
      var recent := Newest(st.otps, ByPair(phone, purpose));
      if recent.Some? && c.now - st.otps[recent.value].createdAt < COOLDOWN then
        (st, Refused(TooSoon(CeilDiv(COOLDOWN - (c.now - st.otps[recent.value].createdAt), 1000))))
      else OneSave(st, c, Issue(st.(resent := st.resent + {|st.otps|}), phone, newCode, purpose, c.now), Sent)
  }

  function StepLogin(st: State, c: Call): (State, Outcome)
    requires c.command.Login?
  {
    var Login(phone, password) := c.command;
    if phone !in st.users || st.users[phone].password != password then (st, Refused(InvalidCredentials))
    else
      var user := st.users[phone];
      if !user.phoneVerified then (st, Refused(NotVerified))
      else if user.status == Suspended then (st, Refused(AccountSuspended))
      else if user.status == Banned then (st, Refused(AccountBanned))
      else
        // the row was selected without its `loginCount`, so counting starts again at 1
        OneSave(st, c, st.(users := st.users[phone := user.(lastLoginAt := Some(c.now), loginCount := 1)]), LoggedIn)
  }

  function StepReset(st: State, c: Call): (State, Outcome)
    requires c.command.ResetPassword?
  {
    var ResetPassword(phone, code, newPassword) := c.command;
    var found := Newest(st.otps, ByQuery(ResetQuery(phone, code)));
    if found.None? || c.now > st.otps[found.value].expiresAt then (st, Refused(InvalidCode))
    else
      var user := UserAt(st, phone);
      UseUp(st, c, found.value, if user.Some? then Some(user.value.(password := newPassword)) else None,
            PasswordReset(found.value))
  }

  function Step(st: State, c: Call): (State, Outcome) {
    match c.command
    case Register(_, _, _, _, _) => StepRegister(st, c)
    case VerifyOtp(_, _, _) => StepVerify(st, c)
    case ResendOtp(_, _, _) => StepResend(st, c)
    case Login(_, _) => StepLogin(st, c)
    case ForgotPassword(phone, newCode) =>
      if phone !in st.users then (st, NothingToSend)
      else OneSave(st, c, Issue(st, phone, newCode, FORGOT_PASSWORD, c.now), Sent)
    case ResetPassword(_, _, _) => StepReset(st, c)
    case ChangePassword(phone, password, newPassword) =>
      if phone !in st.users then (st, Refused(UserNotFound))
      else if st.users[phone].password != password then (st, Refused(WrongPassword))
      else OneSave(st, c, st.(users := st.users[phone := st.users[phone].(password := newPassword)]), PasswordChanged)
    case SetStatus(phone, status) =>
      if phone !in st.users then (st, Refused(UserNotFound))
      else OneSave(st, c, st.(users := st.users[phone := st.users[phone].(status := status)]), StatusSet)
  }

  function Run(st: State, calls: seq<Call>): State
    decreases |calls|
  {
    if calls == [] then st else Run(Step(st, calls[0]).0, calls[1..])
  }

  /** The answers of a run, call by call. */
  function Answers(st: State, calls: seq<Call>): (r: seq<Outcome>)
    ensures |r| == |calls|
    decreases |calls|
  {
    if calls == [] then []
    else
      var (st', r) := Step(st, calls[0]);
      [r] + Answers(st', calls[1..])
  }

  /** As the service writes them: OTP rows live ten minutes, and no attempt is ever counted. */
  predicate Unattempted(o: Otp) {
    o.expiresAt == o.createdAt + 600000 && o.attemptCount == 0 && o.maxAttempts == 3 && !o.isBlocked
  }

  predicate AllUnattempted(otps: seq<Otp>) {
    forall i :: 0 <= i < |otps| ==> Unattempted(otps[i])
  }
}
