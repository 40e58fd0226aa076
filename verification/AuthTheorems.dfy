/** What the OTP protocol promises over every run. */
module AuthTheorems {
  import opened Basics
  import opened Options
  import opened Sequences
  import opened AuthModel

  // ---- what a request does to the OTP rows ------------------------------------------------

  predicate Consumes(r: Outcome) {
    r.Verified? || r.PasswordReset? || r.ConsumedForNobody? || r.InterruptedAfter?
  }

  function QueryOf(c: Command): Query
    requires c.VerifyOtp? || c.ResetPassword?
  {
    if c.VerifyOtp? then VerifyQuery(c.phone, c.code, c.purpose) else ResetQuery(c.phone, c.code)
  }

  /** Row `k` is selected by the request and unexpired, and is marked as used now. */
  ghost predicate MarksRow(otps: seq<Otp>, otps': seq<Otp>, c: Call, k: nat) {
    && (c.command.VerifyOtp? || c.command.ResetPassword?)
    && k < |otps| && Matches(otps[k], QueryOf(c.command)) && c.now <= otps[k].expiresAt
    && otps' == otps[k := otps[k].(isUsed := true, usedAt := Some(c.now))]
  }

  ghost predicate AppendsRow(otps: seq<Otp>, otps': seq<Otp>) {
    && |otps'| == |otps| + 1
    && otps' == otps + [otps'[|otps|]]
    && Unattempted(otps'[|otps|]) && !otps'[|otps|].isUsed
  }

  /** A request marks the row it uses up, or appends a new one, or does nothing to the rows. */
  ghost predicate OtpEffect(st: State, c: Call, st': State, r: Outcome) {
    && r != Refused(AttemptsExceeded)
    && if Consumes(r) then MarksRow(st.otps, st'.otps, c, r.consumed)
       else st'.otps == st.otps || AppendsRow(st.otps, st'.otps)
  }

  lemma VerifyOnOtps(st: State, c: Call)
    requires AllUnattempted(st.otps) && c.command.VerifyOtp?
    ensures OtpEffect(st, c, Step(st, c).0, Step(st, c).1)
  {
    var found := Newest(st.otps, ByQuery(QueryOf(c.command)));
    if found.Some? {
      assert Unattempted(st.otps[found.value]);
    }
  }

  lemma ResetOnOtps(st: State, c: Call)
    requires c.command.ResetPassword?
    ensures OtpEffect(st, c, Step(st, c).0, Step(st, c).1)
  {
  }

  lemma NewRow(otps: seq<Otp>, phone: string, code: string, purpose: string, now: Instant)
    ensures AppendsRow(otps, otps + [NewOtp(phone, code, purpose, now)])
  {
  }

  lemma StepOnOtps(st: State, c: Call)
    requires AllUnattempted(st.otps)
    ensures OtpEffect(st, c, Step(st, c).0, Step(st, c).1)
  {
    match c.command
    case VerifyOtp(phone, code, purpose) => VerifyOnOtps(st, c);
    case ResetPassword(phone, code, newPassword) => ResetOnOtps(st, c);
    case Register(phone, _, _, _, code) => NewRow(st.otps, phone, code, "REGISTRATION", c.now);
    case ForgotPassword(phone, code) => NewRow(st.otps, phone, code, "FORGOT_PASSWORD", c.now);
    case ResendOtp(phone, purpose, code) => NewRow(st.otps, phone, code, purpose, c.now);
    case _ =>
  }

  // ---- no attempt is ever counted ---------------------------------------------------------

  lemma StepKeepsUnattempted(st: State, c: Call)
    requires AllUnattempted(st.otps)
    ensures AllUnattempted(Step(st, c).0.otps)
    ensures Step(st, c).1 != Refused(AttemptsExceeded)
  {
    StepOnOtps(st, c);
    OtpEffectKeepsUnattempted(st, c, Step(st, c).0, Step(st, c).1);
  }

  lemma OtpEffectKeepsUnattempted(st: State, c: Call, st': State, r: Outcome)
    requires AllUnattempted(st.otps) && OtpEffect(st, c, st', r)
    ensures AllUnattempted(st'.otps)
  {
  }

  /** Nothing increments `attemptCount`, so in every run it stays 0, no row is ever blocked and
      the limit on attempts never refuses anyone. */
  lemma {:induction false} AttemptsAreNeverCounted(st: State, calls: seq<Call>)
    requires AllUnattempted(st.otps)
    ensures AllUnattempted(Run(st, calls).otps)
    ensures forall i :: 0 <= i < |calls| ==> Answers(st, calls)[i] != Refused(AttemptsExceeded)
    decreases |calls|
  {
    if calls != [] {
      StepKeepsUnattempted(st, calls[0]);
      AttemptsAreNeverCounted(Step(st, calls[0]).0, calls[1..]);
    }
  }

  // ---- looking only at the newest row -----------------------------------------------------

  /** Does some row selected by `q` still live at `now`? */
  ghost predicate SomeLive(otps: seq<Otp>, q: Query, now: Instant) {
    exists i :: 0 <= i < |otps| && Matches(otps[i], q) && now <= otps[i].expiresAt
  }

  /** `r` is a newest selected row. Several rows can be, when they were created together. */
  predicate IsNewest(otps: seq<Otp>, q: Query, r: nat) {
    && r < |otps| && Matches(otps[r], q)
    && forall i :: 0 <= i < |otps| && Matches(otps[i], q) ==> otps[i].createdAt <= otps[r].createdAt
  }

  /** Any newest row is alive exactly when some selected row is. */
  lemma NewestSuffices(otps: seq<Otp>, q: Query, r: nat, now: Instant)
    requires AllUnattempted(otps) && IsNewest(otps, q, r)
    ensures now <= otps[r].expiresAt <==> SomeLive(otps, q, now)
  {
    if SomeLive(otps, q, now) {
      var i :| 0 <= i < |otps| && Matches(otps[i], q) && now <= otps[i].expiresAt;
      assert Unattempted(otps[i]) && Unattempted(otps[r]);
    }
  }

  lemma ConsumesExactlyWhenLive(st: State, c: Call)
    requires AllUnattempted(st.otps) && (c.command.VerifyOtp? || c.command.ResetPassword?)
    ensures !Step(st, c).1.Refused? <==> SomeLive(st.otps, QueryOf(c.command), c.now)
    ensures Consumes(Step(st, c).1) <==> SomeLive(st.otps, QueryOf(c.command), c.now) && c.saves >= 1
  {
    var q := QueryOf(c.command);
    var found := Newest(st.otps, ByQuery(q));
    NewestIsNewest(st.otps, ByQuery(q));
    if found.Some? {
      assert IsNewest(st.otps, q, found.value);
      assert Unattempted(st.otps[found.value]);
      NewestSuffices(st.otps, q, found.value, c.now);
    }
  }

  /** Is there an unused row for this phone, code and purpose that has not expired? */
  ghost predicate UnusedAndLive(otps: seq<Otp>, phone: string, code: string, purpose: string, now: Instant) {
    exists i :: 0 <= i < |otps| && IsUnusedAndLive(otps[i], phone, code, purpose, now)
  }

  predicate IsUnusedAndLive(o: Otp, phone: string, code: string, purpose: string, now: Instant) {
    o.phone == phone && o.code == code && o.purpose == purpose && !o.isUsed && now <= o.expiresAt
  }

  lemma LiveMeansUnusedAndLive(otps: seq<Otp>, q: Query, now: Instant)
    requires AllUnattempted(otps)
    ensures SomeLive(otps, q, now) <==> UnusedAndLive(otps, q.phone, q.code, q.purpose, now)
  {
    forall i | 0 <= i < |otps|
      ensures Matches(otps[i], q) && now <= otps[i].expiresAt <==> IsUnusedAndLive(otps[i], q.phone, q.code, q.purpose, now)
    {
      assert Unattempted(otps[i]);
    }
  }

  /** OTP lookup completeness: after any run, verifying accepts a code exactly when some unused row
      for that phone, code and purpose has not expired, and resetting a password when such a row
      for `FORGOT_PASSWORD` has not, although only the newest such row is looked at; and they use a
      row up if storage accepts the first save. */
  lemma LookupIsComplete(st: State, calls: seq<Call>, c: Call)
    requires AllUnattempted(st.otps) && (c.command.VerifyOtp? || c.command.ResetPassword?)
    ensures
      var (now, r) := (Run(st, calls), Step(Run(st, calls), c).1);
      var purpose := if c.command.VerifyOtp? then c.command.purpose else "FORGOT_PASSWORD";
      && (!r.Refused? <==> UnusedAndLive(now.otps, c.command.phone, c.command.code, purpose, c.now))
      && (Consumes(r) <==> UnusedAndLive(now.otps, c.command.phone, c.command.code, purpose, c.now) && c.saves >= 1)
  {
    AttemptsAreNeverCounted(st, calls);
    ConsumesExactlyWhenLive(Run(st, calls), c);
    LiveMeansUnusedAndLive(Run(st, calls).otps, QueryOf(c.command), c.now);
  }

  // ---- one-time use -----------------------------------------------------------------------

  /** Rows are never removed, keep what they were issued with, and once used stay as they are. */
  predicate Persists(a: seq<Otp>, b: seq<Otp>) {
    |a| <= |b| && forall i :: 0 <= i < |a| ==> PersistsAt(a[i], b[i])
  }

  predicate PersistsAt(o: Otp, o': Otp) {
    && o'.phone == o.phone && o'.code == o.code && o'.purpose == o.purpose
    && o'.createdAt == o.createdAt && o'.expiresAt == o.expiresAt
    && (o.isUsed ==> o' == o)
  }

  /** The row a request used up: unused before, and now marked with the instant of the request,
      which is not past the row's expiry. */
  predicate ConsumedRow(o: Otp, c: Call) {
    && (c.command.VerifyOtp? || c.command.ResetPassword?)
    && o.phone == c.command.phone && o.code == c.command.code
    && o.purpose == (if c.command.VerifyOtp? then c.command.purpose else "FORGOT_PASSWORD")
    && o.isUsed && o.usedAt == Some(c.now) && c.now <= o.expiresAt
  }

  predicate UsedUp(otps: seq<Otp>, k: nat, c: Call) {
    k < |otps| && ConsumedRow(otps[k], c)
  }

  lemma StepConsumes(st: State, c: Call)
    requires AllUnattempted(st.otps)
    ensures Persists(st.otps, Step(st, c).0.otps)
    ensures Consumes(Step(st, c).1) ==> Step(st, c).1.consumed < |st.otps| && !st.otps[Step(st, c).1.consumed].isUsed
    ensures Consumes(Step(st, c).1) ==> UsedUp(Step(st, c).0.otps, Step(st, c).1.consumed, c)
  {
    StepOnOtps(st, c);
    OtpEffectConsumes(st, c, Step(st, c).0, Step(st, c).1);
  }

  lemma OtpEffectConsumes(st: State, c: Call, st': State, r: Outcome)
    requires OtpEffect(st, c, st', r)
    ensures Persists(st.otps, st'.otps)
    ensures Consumes(r) ==> r.consumed < |st.otps| && !st.otps[r.consumed].isUsed && UsedUp(st'.otps, r.consumed, c)
  {
  }

  lemma {:induction false} RunPersists(st: State, calls: seq<Call>)
    requires AllUnattempted(st.otps)
    ensures Persists(st.otps, Run(st, calls).otps)
    decreases |calls|
  {
    if calls != [] {
      var st' := Step(st, calls[0]).0;
      StepConsumes(st, calls[0]);
      StepKeepsUnattempted(st, calls[0]);
      RunPersists(st', calls[1..]);
      forall i | 0 <= i < |st.otps| ensures PersistsAt(st.otps[i], Run(st, calls).otps[i]) {
        assert PersistsAt(st.otps[i], st'.otps[i]);
        assert PersistsAt(st'.otps[i], Run(st', calls[1..]).otps[i]);
      }
    }
  }

  lemma FirstConsumptionHasItsRow(st: State, c: Call, rest: seq<Call>)
    requires AllUnattempted(st.otps) && Consumes(Step(st, c).1)
    ensures var (st', k) := (Step(st, c).0, Step(st, c).1.consumed);
            UsedUp(Run(st', rest).otps, k, c) && k < |st.otps| && !st.otps[k].isUsed
  {
    var (st', k) := (Step(st, c).0, Step(st, c).1.consumed);
    StepConsumes(st, c);
    StepKeepsUnattempted(st, c);
    RunPersists(st', rest);
    assert PersistsAt(st'.otps[k], Run(st', rest).otps[k]);
  }

  /** A row that is unused after a request was unused before it. */
  lemma UnusedBefore(st: State, c: Call, k: nat)
    requires AllUnattempted(st.otps) && k < |st.otps|
    ensures k < |Step(st, c).0.otps| && (!Step(st, c).0.otps[k].isUsed ==> !st.otps[k].isUsed)
  {
    StepConsumes(st, c);
    assert PersistsAt(st.otps[k], Step(st, c).0.otps[k]);
  }

  /** Every request that used up an OTP has its own row at the end of the run. */
  lemma {:induction false} EachConsumptionHasItsRow(st: State, calls: seq<Call>, i: nat)
    requires AllUnattempted(st.otps) && i < |calls| && Consumes(Answers(st, calls)[i])
    ensures
      var k := Answers(st, calls)[i].consumed;
      UsedUp(Run(st, calls).otps, k, calls[i])
      && (k < |st.otps| ==> !st.otps[k].isUsed)
    decreases |calls|
  {
    if i == 0 {
      FirstConsumptionHasItsRow(st, calls[0], calls[1..]);
    } else {
      StepKeepsUnattempted(st, calls[0]);
      EachConsumptionHasItsRow(Step(st, calls[0]).0, calls[1..], i - 1);
      var k := Answers(st, calls)[i].consumed;
      if k < |st.otps| {
        UnusedBefore(st, calls[0], k);
      }
    }
  }

  /** The run behind the first request. */
  lemma AnswersTail(st: State, calls: seq<Call>) returns (st': State)
    requires AllUnattempted(st.otps) && calls != []
    ensures AllUnattempted(st'.otps)
    ensures Answers(st, calls)[1..] == Answers(st', calls[1..])
    ensures Consumes(Answers(st, calls)[0]) ==> IsUsedUp(st'.otps, Answers(st, calls)[0].consumed)
  {
    st' := Step(st, calls[0]).0;
    StepKeepsUnattempted(st, calls[0]);
    StepConsumes(st, calls[0]);
  }

  predicate IsUsedUp(otps: seq<Otp>, k: nat) {
    k < |otps| && otps[k].isUsed
  }

  /** A row that is used up already is not used up by a request. */
  lemma UsedRowStays(st: State, calls: seq<Call>, j: nat, k: nat)
    requires AllUnattempted(st.otps) && IsUsedUp(st.otps, k)
    requires j < |calls| && Consumes(Answers(st, calls)[j])
    ensures Answers(st, calls)[j].consumed != k
  {
    EachConsumptionHasItsRow(st, calls, j);
  }

  lemma FirstRowDiffers(st: State, calls: seq<Call>, a: seq<Outcome>, j: nat)
    requires AllUnattempted(st.otps) && 0 < j < |calls| == |a| && a == Answers(st, calls)
    requires Consumes(a[0]) && Consumes(a[j])
    ensures a[0].consumed != a[j].consumed
  {
    var st' := AnswersTail(st, calls);
    assert a[1..][j - 1] == a[j];
    UsedRowStays(st', calls[1..], j - 1, a[0].consumed);
  }

  lemma {:induction false} RowsDiffer(st: State, calls: seq<Call>, a: seq<Outcome>, i: nat, j: nat)
    requires AllUnattempted(st.otps) && i < j < |calls| == |a| && a == Answers(st, calls)
    requires Consumes(a[i]) && Consumes(a[j])
    ensures a[i].consumed != a[j].consumed
    decreases |calls|
  {
    if i == 0 {
      FirstRowDiffers(st, calls, a, j);
    } else {
      var st' := AnswersTail(st, calls);
      RowsDiffer(st', calls[1..], a[1..], i - 1, j - 1);
    }
  }

  /** One-time use: in every run, different successful verifications and resets use up different
      rows, each issued for the same phone, code and purpose and used no later than its expiry. */
  lemma OneTimeUse(st: State, calls: seq<Call>, i: nat, j: nat)
    requires AllUnattempted(st.otps) && i < j < |calls|
    requires Consumes(Answers(st, calls)[i]) && Consumes(Answers(st, calls)[j])
    ensures Answers(st, calls)[i].consumed != Answers(st, calls)[j].consumed
    ensures UsedUp(Run(st, calls).otps, Answers(st, calls)[i].consumed, calls[i])
    ensures UsedUp(Run(st, calls).otps, Answers(st, calls)[j].consumed, calls[j])
  {
    RowsDiffer(st, calls, Answers(st, calls), i, j);
    EachConsumptionHasItsRow(st, calls, i);
    EachConsumptionHasItsRow(st, calls, j);
  }

  // ---- interrupted requests ---------------------------------------------------------------

  function IsUsed(): Otp -> bool { (o: Otp) => o.isUsed }
  function UsesUp(): Outcome -> bool { (r: Outcome) => Consumes(r) }
  function Verifies(): Outcome -> bool { (r: Outcome) => r.Verified? }

  lemma StepUsesUp(st: State, c: Call)
    requires AllUnattempted(st.otps)
    ensures Count(Step(st, c).0.otps, IsUsed())
         == Count(st.otps, IsUsed()) + if Consumes(Step(st, c).1) then 1 else 0
  {
    StepOnOtps(st, c);
    OtpEffectUsesUp(st, c, Step(st, c).0, Step(st, c).1);
  }

  lemma OtpEffectUsesUp(st: State, c: Call, st': State, r: Outcome)
    requires OtpEffect(st, c, st', r)
    ensures Count(st'.otps, IsUsed()) == Count(st.otps, IsUsed()) + if Consumes(r) then 1 else 0
  {
    if Consumes(r) {
      CountUpdate(st.otps, r.consumed, st.otps[r.consumed].(isUsed := true, usedAt := Some(c.now)), IsUsed());
    } else if st'.otps != st.otps {
      CountPush(st.otps, st'.otps[|st.otps|], IsUsed());
    }
  }

  function VerifiedPhones(st: State): set<string> {
    set phone | phone in st.users && st.users[phone].phoneVerified
  }

  lemma StepVerifiesOne(st: State, c: Call)
    ensures |VerifiedPhones(Step(st, c).0)| <= |VerifiedPhones(st)| + if Step(st, c).1.Verified? then 1 else 0
  {
    var (before, after) := (VerifiedPhones(st), VerifiedPhones(Step(st, c).0));
    var added := if Step(st, c).1.Verified? then {c.command.phone} else {};
    forall phone | phone in after ensures phone in before + added {
      if !VerifiedUser(st, phone) {
        OnlyVerifyOtpVerifies(st, c, phone);
      }
    }
    SubsetSize(after, before + added);
  }

  lemma {:induction false} SubsetSize<T>(a: set<T>, b: set<T>)
    requires a <= b
    ensures |a| <= |b|
    decreases |a|
  {
    if x :| x in a {
      SubsetSize(a - {x}, b - {x});
    }
  }

  /** However requests are interrupted, the rows used up in a run are exactly as many as the
      requests that used one up; successful verifications are among these; and no more users
      become verified than there are successful verifications. */
  lemma {:induction false} VerifiedNeverRunsAhead(st: State, calls: seq<Call>)
    requires AllUnattempted(st.otps)
    ensures
      var (fin, answers) := (Run(st, calls), Answers(st, calls));
      && Count(fin.otps, IsUsed()) == Count(st.otps, IsUsed()) + Count(answers, UsesUp())
      && Count(answers, Verifies()) <= Count(answers, UsesUp())
      && |VerifiedPhones(fin)| <= |VerifiedPhones(st)| + Count(answers, Verifies())
    decreases |calls|
  {
    if calls != [] {
      var (st', r) := Step(st, calls[0]);
      StepUsesUp(st, calls[0]);
      StepVerifiesOne(st, calls[0]);
      StepKeepsUnattempted(st, calls[0]);
      VerifiedNeverRunsAhead(st', calls[1..]);
      CountCons(r, Answers(st', calls[1..]), UsesUp());
      CountCons(r, Answers(st', calls[1..]), Verifies());
    }
  }

  // ---- the login gate ---------------------------------------------------------------------

  predicate VerifiedUser(st: State, phone: string) {
    phone in st.users && st.users[phone].phoneVerified
  }

  lemma OnlyVerifyOtpVerifies(st: State, c: Call, phone: string)
    requires !VerifiedUser(st, phone)
    ensures c.command.Login? && c.command.phone == phone ==> Step(st, c).1 != LoggedIn
    ensures VerifiedUser(Step(st, c).0, phone) ==>
              c.command.VerifyOtp? && c.command.phone == phone && Step(st, c).1.Verified?
  {
  }

  /** Login gate: whoever is not verified when a run starts, for instance because they register
      in it, logs in only after an OTP for their phone was used up by `verifyOtp`. */
  lemma {:induction false} LoginNeedsVerification(st: State, calls: seq<Call>, j: nat)
    requires j < |calls| && calls[j].command.Login? && Answers(st, calls)[j] == LoggedIn
    requires !VerifiedUser(st, calls[j].command.phone)
    ensures VerifiedIn(st, calls[..j], calls[j].command.phone)
    decreases |calls|
  {
    var phone := calls[j].command.phone;
    var (st', r) := Step(st, calls[0]);
    OnlyVerifyOtpVerifies(st, calls[0], phone);
    if j > 0 {
      assert calls[..j] == [calls[0]] + calls[1..][..j - 1];
      VerifiedCons(st, calls[0], calls[1..][..j - 1], phone);
      if !VerifiedUser(st', phone) {
        LoginNeedsVerification(st', calls[1..], j - 1);
      }
    }
  }

  predicate VerifiedFor(c: Call, r: Outcome, phone: string) {
    c.command.VerifyOtp? && c.command.phone == phone && r.Verified?
  }

  /** Was an OTP for the phone used up by `verifyOtp` in this run? */
  predicate VerifiedIn(st: State, calls: seq<Call>, phone: string) {
    exists i :: 0 <= i < |calls| && VerifiedFor(calls[i], Answers(st, calls)[i], phone)
  }

  lemma VerifiedCons(st: State, c: Call, rest: seq<Call>, phone: string)
    ensures VerifiedIn(st, [c] + rest, phone) <==> VerifiedFor(c, Step(st, c).1, phone) || VerifiedIn(Step(st, c).0, rest, phone)
  {
    var (calls, a, b) := ([c] + rest, Answers(st, [c] + rest), Answers(Step(st, c).0, rest));
    assert calls[1..] == rest;
    assert a == [Step(st, c).1] + b;
    if VerifiedFor(c, Step(st, c).1, phone) {
      assert VerifiedFor(calls[0], a[0], phone);
    }
    if i :| 0 <= i < |rest| && VerifiedFor(rest[i], b[i], phone) {
      assert VerifiedFor(calls[i + 1], a[i + 1], phone);
    }
    if i :| 0 <= i < |calls| && VerifiedFor(calls[i], a[i], phone) {
      assert i > 0 ==> VerifiedFor(rest[i - 1], b[i - 1], phone);
    }
  }

  // ---- who can log in, exactly ------------------------------------------------------------

  /** The last value written, if any was, and else the initial one. */
  function Latest<T>(writes: seq<Option<T>>, initial: T): T {
    if writes == [] then initial
    else if writes[|writes| - 1].Some? then writes[|writes| - 1].value
    else Latest(writes[..|writes| - 1], initial)
  }

  predicate IsLastWrite<T>(writes: seq<Option<T>>, i: nat) {
    i < |writes| && writes[i].Some? && forall j :: i < j < |writes| ==> writes[j].None?
  }

  lemma {:induction false} LatestIsLastWrite<T>(writes: seq<Option<T>>, initial: T, i: nat)
    requires IsLastWrite(writes, i)
    ensures Latest(writes, initial) == writes[i].value
    decreases |writes|
  {
    var n := |writes| - 1;
    if i < n {
      LatestIsLastWrite(writes[..n], initial, i);
    }
  }

  lemma {:induction false} LatestOfNothing<T>(writes: seq<Option<T>>, initial: T)
    requires forall i :: 0 <= i < |writes| ==> writes[i].None?
    ensures Latest(writes, initial) == initial
    decreases |writes|
  {
    if writes != [] {
      LatestOfNothing(writes[..|writes| - 1], initial);
    }
  }

  lemma {:induction false} LatestCons<T>(w: Option<T>, rest: seq<Option<T>>, initial: T)
    ensures Latest([w] + rest, initial) == Latest(rest, if w.Some? then w.value else initial)
    decreases |rest|
  {
    if rest == [] {
      assert [w] + rest == [w] && [w][..0] == [];
    } else {
      var n := |rest| - 1;
      assert ([w] + rest)[..n + 1] == [w] + rest[..n];
      LatestCons(w, rest[..n], initial);
    }
  }

  /** The status a request gives to the user of `phone`, the password, and the mark of a verified
      phone number. */
  function StatusWritten(c: Call, r: Outcome, phone: string): Option<UserStatus> {
    if VerifiedFor(c, r, phone) then Some(Active)
    else if c.command.SetStatus? && c.command.phone == phone && r == StatusSet then Some(c.command.status)
    else None
  }

  function PasswordWritten(c: Call, r: Outcome, phone: string): Option<string> {
    if c.command.ResetPassword? && c.command.phone == phone && r.PasswordReset? then Some(c.command.newPassword)
    else if c.command.ChangePassword? && c.command.phone == phone && r == PasswordChanged then Some(c.command.newPassword)
    else None
  }

  function MarkWritten(c: Call, r: Outcome, phone: string): Option<bool> {
    if VerifiedFor(c, r, phone) then Some(true) else None
  }

  /** What each request of a run writes, by its own arguments and answer. */
  function Writes<T>(st: State, calls: seq<Call>, written: (Call, Outcome) -> Option<T>): (w: seq<Option<T>>)
    ensures |w| == |calls|
    ensures forall i :: 0 <= i < |calls| ==> w[i] == written(calls[i], Answers(st, calls)[i])
    decreases |calls|
  {
    if calls == [] then []
    else [written(calls[0], Step(st, calls[0]).1)] + Writes(Step(st, calls[0]).0, calls[1..], written)
  }

  function StatusOf(phone: string): (Call, Outcome) -> Option<UserStatus> {
    (c: Call, r: Outcome) => StatusWritten(c, r, phone)
  }

  function PasswordOf(phone: string): (Call, Outcome) -> Option<string> {
    (c: Call, r: Outcome) => PasswordWritten(c, r, phone)
  }

  function MarkOf(phone: string): (Call, Outcome) -> Option<bool> {
    (c: Call, r: Outcome) => MarkWritten(c, r, phone)
  }

  /** `u` is what the writes of a run make of the initial user, as far as logging in goes. */
  ghost predicate AsWritten(u: User, initial: User, st: State, calls: seq<Call>, phone: string) {
    && u.status == Latest(Writes(st, calls, StatusOf(phone)), initial.status)
    && u.password == Latest(Writes(st, calls, PasswordOf(phone)), initial.password)
    && u.phoneVerified == Latest(Writes(st, calls, MarkOf(phone)), initial.phoneVerified)
  }

  /** What a request makes of the user of `phone`. */
  ghost predicate UserEffect(st: State, c: Call, st': State, r: Outcome, phone: string)
    requires phone in st.users
  {
    && phone in st'.users
    && var (u, u') := (st.users[phone], st'.users[phone]);
    && u'.status == StatusWritten(c, r, phone).GetOr(u.status)
    && u'.password == PasswordWritten(c, r, phone).GetOr(u.password)
    && u'.phoneVerified == MarkWritten(c, r, phone).GetOr(u.phoneVerified)
  }

  lemma UserAfterVerify(st: State, c: Call, phone: string)
    requires phone in st.users && c.command.VerifyOtp?
    ensures UserEffect(st, c, Step(st, c).0, Step(st, c).1, phone)
  {
  }

  lemma UserAfterReset(st: State, c: Call, phone: string)
    requires phone in st.users && c.command.ResetPassword?
    ensures UserEffect(st, c, Step(st, c).0, Step(st, c).1, phone)
  {
  }

  lemma UserAfterRegister(st: State, c: Call, phone: string)
    requires phone in st.users && c.command.Register?
    ensures UserEffect(st, c, Step(st, c).0, Step(st, c).1, phone)
  {
  }

  lemma UserAfterStep(st: State, c: Call, phone: string)
    requires phone in st.users
    ensures UserEffect(st, c, Step(st, c).0, Step(st, c).1, phone)
  {
    match c.command
    case VerifyOtp(_, _, _) => UserAfterVerify(st, c, phone);
    case ResetPassword(_, _, _) => UserAfterReset(st, c, phone);
    case Register(_, _, _, _, _) => UserAfterRegister(st, c, phone);
    case _ =>
  }

  lemma {:induction false} UserIsAsWritten(st: State, calls: seq<Call>, phone: string)
    requires phone in st.users
    ensures phone in Run(st, calls).users
    ensures AsWritten(Run(st, calls).users[phone], st.users[phone], st, calls, phone)
    decreases |calls|
  {
    if calls != [] {
      var (st', r) := Step(st, calls[0]);
      var (rest, u) := (calls[1..], st.users[phone]);
      UserAfterStep(st, calls[0], phone);
      UserIsAsWritten(st', rest, phone);
      LatestCons(StatusWritten(calls[0], r, phone), Writes(st', rest, StatusOf(phone)), u.status);
      LatestCons(PasswordWritten(calls[0], r, phone), Writes(st', rest, PasswordOf(phone)), u.password);
      LatestCons(MarkWritten(calls[0], r, phone), Writes(st', rest, MarkOf(phone)), u.phoneVerified);
    }
  }

  /** In every run, a user's status is the one that was written last: `Active` by a successful
      `verifyOtp`, or what suspending, activating, banning or unbanning the user wrote; without
      such a request it stays what it was. */
  lemma StatusIsLastWritten(st: State, calls: seq<Call>, phone: string)
    requires phone in st.users
    ensures phone in Run(st, calls).users
    ensures
      var (status, w) := (Run(st, calls).users[phone].status, Writes(st, calls, StatusOf(phone)));
      && (forall i: nat :: IsLastWrite(w, i) ==> status == w[i].value)
      && ((forall i :: 0 <= i < |w| ==> w[i].None?) ==> status == st.users[phone].status)
  {
    UserIsAsWritten(st, calls, phone);
    var (w, initial) := (Writes(st, calls, StatusOf(phone)), st.users[phone].status);
    forall i: nat | IsLastWrite(w, i) ensures Latest(w, initial) == w[i].value {
      LatestIsLastWrite(w, initial, i);
    }
    if forall i :: 0 <= i < |w| ==> w[i].None? {
      LatestOfNothing(w, initial);
    }
  }

  predicate Barred(s: UserStatus) {
    s == Suspended || s == Banned
  }

  /** After every run, a user is let in exactly with the password that was written last, if the
      phone was verified before or in the run and the status written last does not bar the user. */
  lemma LoginExactly(st: State, calls: seq<Call>, login: Call)
    requires login.command.Login? && login.command.phone in st.users && login.saves >= 1
    ensures var phone := login.command.phone;
            Step(Run(st, calls), login).1 == LoggedIn
            <==> && login.command.password == Latest(Writes(st, calls, PasswordOf(phone)), st.users[phone].password)
                 && (st.users[phone].phoneVerified || VerifiedIn(st, calls, phone))
                 && !Barred(Latest(Writes(st, calls, StatusOf(phone)), st.users[phone].status))
  {
    UserIsAsWritten(st, calls, login.command.phone);
    MarkMeansVerified(st, calls, login.command.phone, st.users[login.command.phone].phoneVerified);
  }

  lemma MarkMeansVerified(st: State, calls: seq<Call>, phone: string, initial: bool)
    ensures Latest(Writes(st, calls, MarkOf(phone)), initial) <==> initial || VerifiedIn(st, calls, phone)
  {
    var w := Writes(st, calls, MarkOf(phone));
    forall i | 0 <= i < |calls| ensures w[i] == MarkWritten(calls[i], Answers(st, calls)[i], phone) {
    }
    OnceTrue(w, initial);
  }

  lemma {:induction false} OnceTrue(w: seq<Option<bool>>, initial: bool)
    requires forall i :: 0 <= i < |w| && w[i].Some? ==> w[i].value
    ensures Latest(w, initial) <==> initial || exists i :: 0 <= i < |w| && w[i].Some?
    decreases |w|
  {
    if w != [] {
      OnceTrue(w[..|w| - 1], initial);
    }
  }

  predicate LiftsBar(c: Call, r: Outcome, phone: string) {
    StatusWritten(c, r, phone).Some? && !Barred(StatusWritten(c, r, phone).value)
  }

  lemma LoginMeansNotBarred(st: State, login: Call)
    requires login.command.Login? && Step(st, login).1 == LoggedIn
    ensures login.command.phone in st.users && !Barred(st.users[login.command.phone].status)
  {
  }

  /** A user who was suspended or banned when a run started is let in after it only if the run
      gave the user another status. */
  lemma BarredUntilStatusIsWritten(st: State, calls: seq<Call>, login: Call)
    requires login.command.Login? && login.command.phone in st.users && Barred(st.users[login.command.phone].status)
    requires Step(Run(st, calls), login).1 == LoggedIn
    ensures exists i :: 0 <= i < |calls| && LiftsBar(calls[i], Answers(st, calls)[i], login.command.phone)
  {
    LoginMeansNotBarred(Run(st, calls), login);
    BarIsLifted(st, calls, login.command.phone);
  }

  lemma BarIsLifted(st: State, calls: seq<Call>, phone: string)
    requires phone in st.users && Barred(st.users[phone].status)
    requires phone in Run(st, calls).users && !Barred(Run(st, calls).users[phone].status)
    ensures exists i :: 0 <= i < |calls| && LiftsBar(calls[i], Answers(st, calls)[i], phone)
  {
    UserIsAsWritten(st, calls, phone);
    var i := LiftingWrite(Writes(st, calls, StatusOf(phone)), st.users[phone].status);
    assert LiftsBar(calls[i], Answers(st, calls)[i], phone);
  }

  lemma {:induction false} LiftingWrite(w: seq<Option<UserStatus>>, initial: UserStatus) returns (i: nat)
    requires Barred(initial) && !Barred(Latest(w, initial))
    ensures i < |w| && w[i].Some? && !Barred(w[i].value)
    decreases |w|
  {
    i := |w| - 1;
    if w[i].None? {
      i := LiftingWrite(w[..i], initial);
    }
  }

  lemma ThreeAnswers(st: State, a: Call, b: Call, c: Call)
    ensures var st1 := Step(st, a).0;
            var st2 := Step(st1, b).0;
            Answers(st, [a, b, c]) == [Step(st, a).1, Step(st1, b).1, Step(st2, c).1]
  {
    var st1 := Step(st, a).0;
    var st2 := Step(st1, b).0;
    assert [a, b, c][1..] == [b, c] && [b, c][1..] == [c] && [c][1..] == [];
    assert Answers(st2, [c]) == [Step(st2, c).1] + Answers(Step(st2, c).0, []);
    assert Answers(st1, [b, c]) == [Step(st1, b).1] + Answers(st2, [c]);
  }

  /** A code just issued to a user is verified within its lifetime. */
  lemma IssuedCodeVerifies(st: State, n: nat, issued: Instant, verify: Call)
    requires AllUnattempted(st.otps) && verify.command.VerifyOtp? && verify.command.phone in st.users
    requires n < |st.otps|
    requires st.otps[n] == NewOtp(verify.command.phone, verify.command.code, verify.command.purpose, issued)
    requires verify.now <= issued + 600000 && verify.saves >= 2
    ensures Step(st, verify).1.Verified?
  {
    assert Matches(st.otps[n], QueryOf(verify.command)) && verify.now <= st.otps[n].expiresAt;
    ConsumesExactlyWhenLive(st, verify);
  }

  /** A successful verification lets the user in afterwards. */
  lemma LoginAfterVerification(st: State, verify: Call, login: Call)
    requires verify.command.VerifyOtp? && verify.command.phone in st.users && Step(st, verify).1.Verified?
    requires login.command == Login(verify.command.phone, st.users[verify.command.phone].password) && login.saves >= 1
    ensures Step(Step(st, verify).0, login).1 == LoggedIn
  {
    UserAfterVerify(st, verify, verify.command.phone);
  }

  lemma ResendIssues(st: State, resend: Call)
    requires resend.command.ResendOtp? && resend.command.phone in st.users && resend.saves >= 1
    requires forall i :: 0 <= i < |st.otps| && SamePair(st.otps[i], resend.command.phone, resend.command.purpose) ==>
               resend.now - st.otps[i].createdAt >= 120000
    ensures var (st', c) := (Step(st, resend).0, resend.command);
            st'.users == st.users && st'.otps == st.otps + [NewOtp(c.phone, c.newCode, c.purpose, resend.now)]
  {
  }

  /** That can always be brought about: once no OTP for the phone is younger than two minutes, a
      banned user who asks for one and verifies it in time can log in. */
  lemma BannedUserReturns(st: State, resend: Call, verify: Call, login: Call)
    requires AllUnattempted(st.otps) && resend.command.ResendOtp? && resend.command.phone in st.users
    requires st.users[resend.command.phone].status == Banned
    requires forall i :: 0 <= i < |st.otps| && SamePair(st.otps[i], resend.command.phone, resend.command.purpose) ==>
               resend.now - st.otps[i].createdAt >= 120000
    requires verify.command == VerifyOtp(resend.command.phone, resend.command.newCode, resend.command.purpose)
    requires login.command == Login(resend.command.phone, st.users[resend.command.phone].password)
    requires verify.now <= resend.now + 600000 && Whole(resend) && Whole(verify) && Whole(login)
    ensures Answers(st, [resend, verify, login])[2] == LoggedIn
  {
    var st1 := Step(st, resend).0;
    ResendIssues(st, resend);
    StepKeepsUnattempted(st, resend);
    IssuedCodeVerifies(st1, |st.otps|, resend.now, verify);
    LoginAfterVerification(st1, verify, login);
    ThreeAnswers(st, resend, verify, login);
  }

  /** And a user who is unbanned or activated can, without any OTP. */
  lemma UnbannedUserReturns(st: State, phone: string, t: Instant, t': Instant)
    requires phone in st.users && Barred(st.users[phone].status) && st.users[phone].phoneVerified
    ensures Answers(st, [Call(SetStatus(phone, Active), t, 3), Call(Login(phone, st.users[phone].password), t', 3)])
         == [StatusSet, LoggedIn]
  {
    var unban, login := Call(SetStatus(phone, Active), t, 3), Call(Login(phone, st.users[phone].password), t', 3);
    var st1 := Step(st, unban).0;
    assert [unban, login][1..] == [login] && [login][1..] == [];
    assert Answers(st1, [login]) == [Step(st1, login).1] + Answers(Step(st1, login).0, []);
    assert Answers(st, [unban, login]) == [Step(st, unban).1] + Answers(st1, [login]);
  }

  /** Who registers and verifies the code in time can log in with the registered password. */
  lemma RegistrationLeadsToLogin(st: State, register: Call, verify: Call, login: Call)
    requires AllUnattempted(st.otps) && register.command.Register? && Step(st, register).1 == Registered
    requires verify.command == VerifyOtp(register.command.phone, register.command.code, "REGISTRATION")
    requires login.command == Login(register.command.phone, register.command.password)
    requires verify.now <= register.now + 600000 && Whole(verify) && Whole(login)
    ensures Answers(st, [register, verify, login])[1].Verified?
    ensures Answers(st, [register, verify, login])[2] == LoggedIn
  {
    var st1 := Step(st, register).0;
    var n := |st.otps|;
    StepKeepsUnattempted(st, register);
    RegistrationIssues(st, register);
    IssuedCodeVerifies(st1, n, register.now, verify);
    LoginAfterVerification(st1, verify, login);
    ThreeAnswers(st, register, verify, login);
  }

  lemma RegistrationIssues(st: State, register: Call)
    requires register.command.Register? && Step(st, register).1 == Registered
    ensures var (st', c) := (Step(st, register).0, register.command);
            && st'.otps == st.otps + [NewOtp(c.phone, c.code, "REGISTRATION", register.now)]
            && c.phone in st'.users && st'.users[c.phone].password == c.password
  {
  }

  /** After a password reset, exactly the new password is accepted, for a verified user who is
      neither suspended nor banned. */
  lemma ResetChangesPassword(st: State, reset: Call, login: Call)
    requires reset.command.ResetPassword? && Step(st, reset).1.PasswordReset?
    requires login.command.Login? && login.command.phone == reset.command.phone && Whole(login)
    ensures Step(Step(st, reset).0, login).1 == LoggedIn
       <==> login.command.password == reset.command.newPassword
            && st.users[reset.command.phone].phoneVerified
            && st.users[reset.command.phone].status != Suspended
            && st.users[reset.command.phone].status != Banned
  {
  }

  // ---- resend spacing ---------------------------------------------------------------------

  /** Every row made by `resendOtp` is at least two minutes younger than all rows before it for
      the same phone and purpose. */
  predicate ResendsSpaced(st: State) {
    Spaced(st.otps, st.resent)
  }

  predicate Spaced(otps: seq<Otp>, resent: set<nat>) {
    && (forall j :: j in resent ==> j < |otps|)
    && forall i, j :: 0 <= i < j < |otps| && j in resent && SamePair(otps[i], otps[j].phone, otps[j].purpose) ==>
         otps[j].createdAt - otps[i].createdAt >= 120000
  }

  /** `o` comes a cooldown after all rows of its pair. */
  predicate Rested(otps: seq<Otp>, o: Otp) {
    forall i :: 0 <= i < |otps| && SamePair(otps[i], o.phone, o.purpose) ==> o.createdAt - otps[i].createdAt >= 120000
  }

  /** Any row can be appended, and a rested one can be marked as resent. */
  lemma IssueKeepsSpaced(otps: seq<Otp>, resent: set<nat>, o: Otp)
    requires Spaced(otps, resent)
    ensures Spaced(otps + [o], resent)
    ensures Rested(otps, o) ==> Spaced(otps + [o], resent + {|otps|})
  {
  }

  /** Marking rows keeps the spacing, which only looks at what rows were issued with. */
  lemma MarkKeepsSpaced(otps: seq<Otp>, resent: set<nat>, k: nat, o: Otp)
    requires Spaced(otps, resent) && k < |otps|
    requires o.phone == otps[k].phone && o.purpose == otps[k].purpose && o.createdAt == otps[k].createdAt
    ensures Spaced(otps[k := o], resent)
  {
  }

  /** A resend that is not refused for being too soon issues a rested row. */
  lemma LatestMeansRested(otps: seq<Otp>, o: Otp)
    requires var recent := Newest(otps, ByPair(o.phone, o.purpose));
             recent.None? || o.createdAt - otps[recent.value].createdAt >= 120000
    ensures Rested(otps, o)
  {
    NewestIsNewest(otps, ByPair(o.phone, o.purpose));
    forall i | 0 <= i < |otps| && SamePair(otps[i], o.phone, o.purpose) ensures o.createdAt - otps[i].createdAt >= 120000 {
      assert ByPair(o.phone, o.purpose)(otps[i]);
    }
  }

  lemma StepKeepsResendsSpaced(st: State, c: Call)
    requires ResendsSpaced(st)
    ensures ResendsSpaced(Step(st, c).0)
  {
    match c.command
    case Register(phone, _, _, _, code) =>
      IssueKeepsSpaced(st.otps, st.resent, NewOtp(phone, code, "REGISTRATION", c.now));
    case ForgotPassword(phone, code) =>
      IssueKeepsSpaced(st.otps, st.resent, NewOtp(phone, code, "FORGOT_PASSWORD", c.now));
    case ResendOtp(phone, purpose, code) =>
      if Step(st, c).1 == Sent {
        LatestMeansRested(st.otps, NewOtp(phone, code, purpose, c.now));
        IssueKeepsSpaced(st.otps, st.resent, NewOtp(phone, code, purpose, c.now));
      }
    case VerifyOtp(phone, code, purpose) =>
      MarksKeepSpaced(st, Newest(st.otps, ByQuery(VerifyQuery(phone, code, purpose))), c.now);
    case ResetPassword(phone, code, _) =>
      MarksKeepSpaced(st, Newest(st.otps, ByQuery(ResetQuery(phone, code))), c.now);
    case _ =>
  }

  lemma MarksKeepSpaced(st: State, found: Option<nat>, now: Instant)
    requires ResendsSpaced(st) && (found.Some? ==> found.value < |st.otps|)
    ensures found.Some? ==>
              && Spaced(st.otps[found.value := st.otps[found.value].(isBlocked := true)], st.resent)
              && Spaced(st.otps[found.value := st.otps[found.value].(isUsed := true, usedAt := Some(now))], st.resent)
  {
    if found.Some? {
      var o := st.otps[found.value];
      MarkKeepsSpaced(st.otps, st.resent, found.value, o.(isBlocked := true));
      MarkKeepsSpaced(st.otps, st.resent, found.value, o.(isUsed := true, usedAt := Some(now)));
    }
  }

  /** Resend spacing, in every run and on any clock. */
  lemma {:induction false} ResendSpacing(st: State, calls: seq<Call>)
    requires ResendsSpaced(st)
    ensures ResendsSpaced(Run(st, calls))
    decreases |calls|
  {
    if calls != [] {
      StepKeepsResendsSpaced(st, calls[0]);
      ResendSpacing(Step(st, calls[0]).0, calls[1..]);
    }
  }

  /** When the first `n` rows that `resendOtp` made for this phone and purpose were created. */
  function ResendTimes(st: State, phone: string, purpose: string, n: nat): seq<Instant>
    requires n <= |st.otps|
  {
    if n == 0 then []
    else
      ResendTimes(st, phone, purpose, n - 1)
      + if n - 1 in st.resent && SamePair(st.otps[n - 1], phone, purpose) then [st.otps[n - 1].createdAt] else []
  }

  predicate Apart(a: seq<Instant>, d: nat) {
    forall i, j :: 0 <= i < j < |a| ==> a[j] - a[i] >= d
  }

  lemma {:induction false} ResendTimesApart(st: State, phone: string, purpose: string, n: nat)
    requires ResendsSpaced(st) && n <= |st.otps|
    ensures Apart(ResendTimes(st, phone, purpose, n), 120000)
    ensures forall t :: t in ResendTimes(st, phone, purpose, n) ==>
              exists i :: 0 <= i < n && SamePair(st.otps[i], phone, purpose) && st.otps[i].createdAt == t
    decreases n
  {
    if n > 0 {
      ResendTimesApart(st, phone, purpose, n - 1);
      var before, o := ResendTimes(st, phone, purpose, n - 1), st.otps[n - 1];
      if n - 1 in st.resent && SamePair(o, phone, purpose) {
        forall k | 0 <= k < |before| ensures o.createdAt - before[k] >= 120000 {
          assert before[k] in before;
          var i :| 0 <= i < n - 1 && SamePair(st.otps[i], phone, purpose) && st.otps[i].createdAt == before[k];
          assert SamePair(st.otps[i], o.phone, o.purpose);
        }
      }
    }
  }

  function Within(from: Instant, width: nat): Instant -> bool {
    (t: Instant) => from <= t <= from + width
  }

  /** The last instant of `a` in the window, and how far it lies from the start of the window:
      one cooldown for each instant of `a` in the window before it. */
  predicate Reaches(a: seq<Instant>, from: Instant, width: nat, i: nat, c: int) {
    i < |a| && from + (c - 1) * 120000 <= a[i] <= from + width
  }

  lemma {:induction false} ApartReaches(a: seq<Instant>, from: Instant, width: nat) returns (i: nat)
    requires Apart(a, 120000) && Count(a, Within(from, width)) > 0
    ensures Reaches(a, from, width, i, Count(a, Within(from, width)))
    decreases |a|
  {
    var n := |a| - 1;
    var front := a[..n];
    if Within(from, width)(a[n]) {
      i := n;
      if Count(front, Within(from, width)) > 0 {
        var m := ApartReaches(front, from, width);
        assert a[m] == front[m] && a[n] - a[m] >= 120000;
      }
    } else {
      i := ApartReaches(front, from, width);
      assert a[i] == front[i];
    }
  }

  lemma ApartWindow(a: seq<Instant>, from: Instant, width: nat)
    requires Apart(a, 120000)
    ensures Count(a, Within(from, width)) <= width / 120000 + 1
  {
    var c := Count(a, Within(from, width));
    if c > 0 {
      var i := ApartReaches(a, from, width);
      assert (c - 1) * 120000 <= width;
    }
  }

  /** After any run, a window of `width` milliseconds contains at most one more resent OTP for a
      phone and purpose than it has room for whole cooldowns. */
  lemma ResendWindow(st: State, calls: seq<Call>, phone: string, purpose: string, from: Instant, width: nat)
    requires ResendsSpaced(st)
    ensures var fin := Run(st, calls);
            Count(ResendTimes(fin, phone, purpose, |fin.otps|), Within(from, width)) <= width / 120000 + 1
  {
    var fin := Run(st, calls);
    ResendSpacing(st, calls);
    ResendTimesApart(fin, phone, purpose, |fin.otps|);
    ApartWindow(ResendTimes(fin, phone, purpose, |fin.otps|), from, width);
  }
}
