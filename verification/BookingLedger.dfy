/** The provider counters against the timeline, over any run of booking requests on any number
    of bookings and providers. */
module BookingLedger {
  import opened Money
  import opened Sequences
  import opened BookingModel

  function In(s: set<Id>): Id -> bool {
    (id: Id) => id in s
  }

  function EntryAs(s: set<Id>, status: Status): Entry -> bool {
    (e: Entry) => e.bookingId in s && e.status == status
  }

  function SavedAs(s: set<Id>, status: Status): Saved -> bool {
    (x: Saved) => x.row.id in s && x.row.status == status
  }

  /** The bookings completed by these timeline entries, in order. */
  function CompletedIds(es: seq<Entry>): seq<Id> {
    if es == [] then []
    else CompletedIds(es[..|es| - 1]) + if es[|es| - 1].status == Completed then [es[|es| - 1].bookingId] else []
  }

  function BookingsOf(bookings: map<Id, Booking>, provider: Id): set<Id> {
    set id | id in bookings && bookings[id].providerId == provider
  }

  /** What is left of the price of every listed booking in `s` after a commission of `rate` per
      cent. */
  function Shares(ids: seq<Id>, bookings: map<Id, Booking>, s: set<Id>, rate: real): real {
    if ids == [] then 0.0
    else
      var id := ids[|ids| - 1];
      Shares(ids[..|ids| - 1], bookings, s, rate)
      + if id in s && id in bookings then bookings[id].totalAmount * (100.0 - rate) / 100.0 else 0.0
  }

  // ---- terms never change -----------------------------------------------------------------

  /** Every booking of `a` is still in `b`, on the same terms. */
  ghost predicate Extends(a: map<Id, Booking>, b: map<Id, Booking>) {
    forall id :: id in a ==> id in b && SameTerms(a[id], b[id])
  }

  /** Every provider of `a` is still in `b`, with the same id and commission rate. */
  ghost predicate SameRates(a: map<Id, Provider>, b: map<Id, Provider>) {
    forall u :: u in a ==> u in b && a[u].id == b[u].id && a[u].commissionRate == b[u].commissionRate
  }

  /** Price, provider, customer and appointment of a booking survive every run, and so does
      every provider's commission rate. */
  lemma {:induction false} RunKeepsTerms(st: State, calls: seq<Call>)
    requires Wf(st)
    ensures Extends(st.bookings, Run(st, calls).bookings)
    ensures SameRates(st.providers, Run(st, calls).providers)
    ensures Wf(Run(st, calls)) && Run(st, calls).column == st.column
    decreases |calls|
  {
    if calls != [] {
      StepHasEffect(st, calls[0]);
      EffectKeepsTerms(st, Step(st, calls[0]), calls[0]);
      RunKeepsTerms(Step(st, calls[0]), calls[1..]);
    }
  }

  lemma CreditKeepsRates(st: State, st': State, c: Call)
    requires StatusAssigned(st, st', c)
    ensures SameRates(st.providers, st'.providers)
  {
  }

  lemma EffectKeepsTerms(st: State, st': State, c: Call)
    requires Effect(st, st', c)
    ensures Extends(st.bookings, st'.bookings) && st'.column == st.column
    ensures SameRates(st.providers, st'.providers)
  {
    if StatusAssigned(st, st', c) {
      var (id, row) := (c.command.booking, st'.bookings[c.command.booking]);
      CreditKeepsRates(st, st', c);
      if id in st.bookings {
        RowKeepsTerms(st, row, c);
      }
      UpdateExtends(st.bookings, id, row);
    } else if FieldsChanged(st, st', c) {
      UpdateExtends(st.bookings, c.command.booking, st'.bookings[c.command.booking]);
    }
  }

  lemma UpdateExtends(bookings: map<Id, Booking>, id: Id, row: Booking)
    requires id in bookings ==> SameTerms(bookings[id], row)
    ensures Extends(bookings, bookings[id := row])
  {
  }

  // ---- the counters of one provider -------------------------------------------------------

  /** From `p` to `p'`, both counts grew by `n` and the earnings by `x`, up to `n` errors of `e`. */
  ghost predicate MovedBy(p: Provider, p': Provider, n: nat, x: real, e: real) {
    && p'.completedBookings == p.completedBookings + n
    && p'.totalBookings == p.totalBookings + n
    && p'.commissionRate == p.commissionRate
    && Abs(p'.pendingEarnings - (p.pendingEarnings + x)) <= n as real * e
  }

  /** From `p` to `p'`, the three counters moved once for every booking of `d` in `s`, and
      together: the two counts by one, the earnings by the provider's share. */
  ghost predicate Moves(p: Provider, d: seq<Id>, p': Provider, s: set<Id>, bookings: map<Id, Booking>, e: real) {
    MovedBy(p, p', Count(d, In(s)), Shares(d, bookings, s, p.commissionRate), e)
  }

  /** The counters of `u` moved as the credits between `st` and `st'` say. */
  ghost predicate LedgerAgrees(st: State, st': State, u: Id, s: set<Id>, bookings: map<Id, Booking>) {
    && st.paid <= st'.paid
    && u in st.providers && u in st'.providers
    && Moves(st.providers[u], st'.paid[|st.paid|..], st'.providers[u], s, bookings, Error(st.column))
  }

  /** The credit of a completion moves the counters of the provider of that booking alone. */
  lemma CreditOnLedger(st: State, st': State, c: Call, u: Id, s: set<Id>, bookings: map<Id, Booking>)
    requires Wf(st) && CreditGiven(st, st', c) && u in st.providers
    requires c.command.booking in bookings && SameTerms(st.bookings[c.command.booking], bookings[c.command.booking])
    requires s == BookingsOf(bookings, st.providers[u].id)
    ensures LedgerAgrees(st, st', u, s, bookings)
  {
    var (id, p) := (c.command.booking, st.providers[u]);
    assert st'.paid[|st.paid|..] == [id];
    MovesOne(id, s, bookings, p.commissionRate);
    assert id in s <==> c.command.user == u;
    KeepIsClose(st.column, p.pendingEarnings + Share(st.bookings[id].totalAmount, p.commissionRate));
  }

  lemma MovesOne(id: Id, s: set<Id>, bookings: map<Id, Booking>, rate: real)
    requires id in bookings
    ensures Count([id], In(s)) == if id in s then 1 else 0
    ensures Shares([id], bookings, s, rate) == if id in s then Share(bookings[id].totalAmount, rate) else 0.0
  {
    assert [id][..0] == [];
    ShareIsTheRest(bookings[id].totalAmount, rate);
  }

  lemma EffectOnLedger(st: State, st': State, c: Call, u: Id, s: set<Id>, bookings: map<Id, Booking>)
    requires Wf(st) && Effect(st, st', c) && u in st.providers
    requires Extends(st'.bookings, bookings) && s == BookingsOf(bookings, st.providers[u].id)
    ensures LedgerAgrees(st, st', u, s, bookings)
  {
    if StatusAssigned(st, st', c) && st'.paid != st.paid {
      assert CreditGiven(st, st', c);
      RowKeepsTerms(st, st'.bookings[c.command.booking], c);
      CreditOnLedger(st, st', c, u, s, bookings);
    } else {
      assert st'.paid[|st.paid|..] == [];
    }
  }

  lemma {:induction false} SharesConcat(a: seq<Id>, b: seq<Id>, bookings: map<Id, Booking>, s: set<Id>, rate: real)
    ensures Shares(a + b, bookings, s, rate) == Shares(a, bookings, s, rate) + Shares(b, bookings, s, rate)
  {
    if b == [] {
      assert a + b == a;
    } else {
      SharesConcat(a, b[..|b| - 1], bookings, s, rate);
      assert (a + b)[..|a + b| - 1] == a + b[..|b| - 1];
    }
  }

  lemma MovedByComposes(p: Provider, q: Provider, r: Provider, m: nat, x: real, n: nat, y: real, e: real)
    requires MovedBy(p, q, m, x, e) && MovedBy(q, r, n, y, e)
    ensures MovedBy(p, r, m + n, x + y, e)
  {
    DriftAdds(q.pendingEarnings - (p.pendingEarnings + x), r.pendingEarnings - (q.pendingEarnings + y), m, n, e);
  }

  lemma DriftAdds(x: real, y: real, m: nat, n: nat, e: real)
    requires Abs(x) <= m as real * e && Abs(y) <= n as real * e
    ensures Abs(x + y) <= (m + n) as real * e
  {
    assert (m + n) as real * e == m as real * e + n as real * e;
  }

  lemma LedgerComposes(st: State, mid: State, fin: State, u: Id, s: set<Id>, bookings: map<Id, Booking>)
    requires LedgerAgrees(st, mid, u, s, bookings) && LedgerAgrees(mid, fin, u, s, bookings)
    requires mid.column == st.column
    ensures LedgerAgrees(st, fin, u, s, bookings)
  {
    var d1, d2 := mid.paid[|st.paid|..], fin.paid[|mid.paid|..];
    var (p, q, r) := (st.providers[u], mid.providers[u], fin.providers[u]);
    assert fin.paid[|st.paid|..] == d1 + d2;
    CountConcat(d1, d2, In(s));
    SharesConcat(d1, d2, bookings, s, p.commissionRate);
    MovedByComposes(p, q, r, Count(d1, In(s)), Shares(d1, bookings, s, p.commissionRate),
                    Count(d2, In(s)), Shares(d2, bookings, s, p.commissionRate), Error(st.column));
  }

  lemma {:induction false} RunOnLedger(st: State, calls: seq<Call>, u: Id, s: set<Id>, bookings: map<Id, Booking>)
    requires Wf(st) && u in st.providers
    requires Extends(Run(st, calls).bookings, bookings) && s == BookingsOf(bookings, st.providers[u].id)
    ensures LedgerAgrees(st, Run(st, calls), u, s, bookings)
    decreases |calls|
  {
    if calls == [] {
      assert st.paid[|st.paid|..] == [];
    } else {
      var mid := Step(st, calls[0]);
      StepHasEffect(st, calls[0]);
      EffectKeepsTerms(st, mid, calls[0]);
      RunKeepsTerms(mid, calls[1..]);
      assert Run(st, calls) == Run(mid, calls[1..]);
      assert Extends(mid.bookings, bookings);
      EffectOnLedger(st, mid, calls[0], u, s, bookings);
      RunOnLedger(mid, calls[1..], u, s, bookings);
      LedgerComposes(st, mid, Run(st, calls), u, s, bookings);
    }
  }

  // ---- credits against timeline entries ---------------------------------------------------

  /** The timeline only grows, and it grows by one completed entry for each credit, in order. */
  ghost predicate CreditsMatchEntries(st: State, st': State) {
    && st.paid <= st'.paid && st.timeline <= st'.timeline
    && CompletedIds(st'.timeline[|st.timeline|..]) == st'.paid[|st.paid|..]
  }

  lemma CompletedIdsPush(es: seq<Entry>, e: Entry)
    ensures CompletedIds(es + [e]) == CompletedIds(es) + if e.status == Completed then [e.bookingId] else []
  {
    assert (es + [e])[..|es|] == es;
  }

  lemma {:induction false} CompletedIdsConcat(a: seq<Entry>, b: seq<Entry>)
    ensures CompletedIds(a + b) == CompletedIds(a) + CompletedIds(b)
    decreases |b|
  {
    if b == [] {
      assert a + b == a;
    } else {
      var (front, e) := (b[..|b| - 1], b[|b| - 1]);
      CompletedIdsConcat(a, front);
      CompletedIdsPush(a + front, e);
      CompletedIdsPush(front, e);
      assert a + b == a + front + [e] && b == front + [e];
      Regroup(CompletedIds(a), CompletedIds(front), if e.status == Completed then [e.bookingId] else []);
    }
  }

  lemma EffectMatchesEntries(st: State, st': State, c: Call)
    requires Effect(st, st', c) && Whole(c)
    ensures CreditsMatchEntries(st, st')
  {
    if StatusAssigned(st, st', c) {
      var e := EntryFor(c.command, st'.bookings[c.command.booking].status);
      assert st'.timeline[|st.timeline|..] == [e];
      assert [e][..0] == [];
      if e.status == Completed {
        assert st'.paid[|st.paid|..] == [c.command.booking];
      } else {
        assert st'.paid[|st.paid|..] == [];
      }
    } else {
      assert st'.timeline[|st.timeline|..] == [];
      assert st'.paid[|st.paid|..] == [];
    }
  }

  lemma {:induction false} RunMatchesEntries(st: State, calls: seq<Call>)
    requires Wf(st) && AllWhole(calls)
    ensures CreditsMatchEntries(st, Run(st, calls))
    decreases |calls|
  {
    if calls == [] {
      assert st.timeline[|st.timeline|..] == [] && st.paid[|st.paid|..] == [];
    } else {
      StepHasEffect(st, calls[0]);
      EffectMatchesEntries(st, Step(st, calls[0]), calls[0]);
      RunMatchesEntries(Step(st, calls[0]), calls[1..]);
      MatchComposes(st, Step(st, calls[0]), Run(st, calls));
    }
  }

  lemma MatchComposes(st: State, mid: State, fin: State)
    requires CreditsMatchEntries(st, mid) && CreditsMatchEntries(mid, fin)
    ensures CreditsMatchEntries(st, fin)
  {
    assert fin.timeline[|st.timeline|..] == mid.timeline[|st.timeline|..] + fin.timeline[|mid.timeline|..];
    assert fin.paid[|st.paid|..] == mid.paid[|st.paid|..] + fin.paid[|mid.paid|..];
    CompletedIdsConcat(mid.timeline[|st.timeline|..], fin.timeline[|mid.timeline|..]);
  }

  lemma {:induction false} CompletedIdsCount(es: seq<Entry>, s: set<Id>)
    ensures Count(CompletedIds(es), In(s)) == Count(es, EntryAs(s, Completed))
  {
    if es != [] {
      var front, e := es[..|es| - 1], es[|es| - 1];
      CompletedIdsCount(front, s);
      CountPush(CompletedIds(front), e.bookingId, In(s));
      assert e.status != Completed ==> CompletedIds(es) == CompletedIds(front);
      assert EntryAs(s, Completed)(e) <==> In(s)(e.bookingId) && e.status == Completed;
    }
  }

  /** From `st` to `fin`, the two counters of `u` grew by the number of COMPLETED timeline
      entries appended on the provider's bookings, and the pending earnings by the sum of the
      provider's shares over those entries, up to the rounding of the column for each. */
  ghost predicate LedgerGrows(st: State, fin: State, u: Id) {
    && st.timeline <= fin.timeline
    && u in st.providers && u in fin.providers
    && var (p, p') := (st.providers[u], fin.providers[u]);
    && var s := BookingsOf(fin.bookings, p.id);
    && var appended := fin.timeline[|st.timeline|..];
    && var n := Count(appended, EntryAs(s, Completed));
    && p'.completedBookings == p.completedBookings + n
    && p'.totalBookings == p.totalBookings + n
    && Abs(p'.pendingEarnings
           - (p.pendingEarnings + Shares(CompletedIds(appended), fin.bookings, s, p.commissionRate)))
       <= n as real * Error(st.column)
  }

  lemma CreditsMakeLedgerGrow(st: State, fin: State, u: Id, s: set<Id>)
    requires LedgerAgrees(st, fin, u, s, fin.bookings) && CreditsMatchEntries(st, fin)
    requires s == BookingsOf(fin.bookings, st.providers[u].id)
    ensures LedgerGrows(st, fin, u)
  {
    CompletedIdsCount(fin.timeline[|st.timeline|..], s);
  }

  /** Ledger conservation: in every uninterrupted run, from any well-formed database, the
      counters of every provider grow as the timeline says, to within half a cent for each
      completed entry when the column rounds to cents. */
  lemma LedgerConservation(st: State, calls: seq<Call>, u: Id)
    requires Wf(st) && AllWhole(calls) && u in st.providers
    ensures LedgerGrows(st, Run(st, calls), u)
  {
    var fin := Run(st, calls);
    var s := BookingsOf(fin.bookings, st.providers[u].id);
    RunOnLedger(st, calls, u, s, fin.bookings);
    RunMatchesEntries(st, calls);
    CreditsMakeLedgerGrow(st, fin, u, s);
  }

  /** With exact columns the earnings grow by exactly that sum. */
  lemma LedgerIsExact(st: State, calls: seq<Call>, u: Id)
    requires Wf(st) && AllWhole(calls) && u in st.providers && st.column == Exact
    ensures EarningsAreExact(st, Run(st, calls), u)
  {
    LedgerConservation(st, calls, u);
    NoErrorMeansExact(st, Run(st, calls), u);
  }

  ghost predicate EarningsAreExact(st: State, fin: State, u: Id) {
    && st.timeline <= fin.timeline
    && u in st.providers && u in fin.providers
    && fin.providers[u].pendingEarnings
       == st.providers[u].pendingEarnings
          + Shares(CompletedIds(fin.timeline[|st.timeline|..]), fin.bookings,
                   BookingsOf(fin.bookings, st.providers[u].id), st.providers[u].commissionRate)
  }

  lemma NoErrorMeansExact(st: State, fin: State, u: Id)
    requires LedgerGrows(st, fin, u) && st.column == Exact
    ensures EarningsAreExact(st, fin, u)
  {
  }

  /** Share and commission split the price by the rate, and both are non-negative exactly when the
      rate is a percentage, or the price is nothing. */
  lemma ShareAndCommission(total: real, rate: real)
    requires total >= 0.0
    ensures 100.0 * Commission(total, rate) == total * rate && 100.0 * Share(total, rate) == total * (100.0 - rate)
    ensures Share(total, rate) + Commission(total, rate) == total
    ensures Share(total, rate) >= 0.0 && Commission(total, rate) >= 0.0 <==> 0.0 <= rate <= 100.0 || total == 0.0
  {
    ShareIsTheRest(total, rate);
    if total > 0.0 {
      if rate < 0.0 {
        assert total * rate < 0.0;
      } else if rate > 100.0 {
        assert total * (100.0 - rate) < 0.0;
      }
    }
  }

  // ---- interrupted requests ---------------------------------------------------------------

  /** The bookings of `s` that are in progress right now. */
  function Busy(bookings: map<Id, Booking>, s: set<Id>): set<Id> {
    set id | id in bookings && IsBusy(bookings, s, id)
  }

  predicate IsBusy(bookings: map<Id, Booking>, s: set<Id>, id: Id) {
    id in s && id in bookings && bookings[id].status == InProgress
  }

  function SavedOn(s: set<Id>): Saved -> bool { (x: Saved) => x.row.id in s }
  function EntriesOn(s: set<Id>): Entry -> bool { (e: Entry) => e.bookingId in s }

  function Credits(st: State, s: set<Id>): nat { Count(st.paid, In(s)) }
  function Entries(st: State, s: set<Id>): nat { Count(st.timeline, EntriesOn(s)) }
  function Saves(st: State, s: set<Id>): nat { Count(st.saved, SavedOn(s)) }
  function CompletedEntries(st: State, s: set<Id>): nat { Count(st.timeline, EntryAs(s, Completed)) }
  function CompletedSaves(st: State, s: set<Id>): nat { Count(st.saved, SavedAs(s, Completed)) }
  function InProgressSaves(st: State, s: set<Id>): nat { Count(st.saved, SavedAs(s, InProgress)) }

  /** Is this request not refused, and does it get a status saved on a booking of `s`? */
  predicate Assigns(st: State, c: Call, s: set<Id>) {
    !c.command.Update? && c.command.booking in s && c.saves >= 1 && Plan(st, c.command, c.now).Ok?
  }

  predicate Completes(c: Command) {
    c.Handle? && c.move.Complete?
  }

  /** Does this request stop after its save number `n`, or, when it completes the booking, does it? */
  function StopsAt(st: State, c: Call, s: set<Id>, n: nat): nat {
    if Assigns(st, c, s) && c.saves == n then 1 else 0
  }

  function StopsCompletingAt(st: State, c: Call, s: set<Id>, n: nat): nat {
    if Assigns(st, c, s) && c.saves == n && Completes(c.command) then 1 else 0
  }

  /** Does it take a booking of `s` out of progress without completing it? */
  function Breaks(st: State, c: Call, s: set<Id>): nat {
    if Assigns(st, c, s) && IsBusy(st.bookings, s, c.command.booking) && !Completes(c.command) then 1 else 0
  }

  /** The requests of a run that save a status on a booking of `s` and stop after their save
      number `n`. */
  function Stopped(st: State, calls: seq<Call>, s: set<Id>, n: nat): nat
    decreases |calls|
  {
    if calls == [] then 0 else StopsAt(st, calls[0], s, n) + Stopped(Step(st, calls[0]), calls[1..], s, n)
  }

  /** Those of them that complete the booking. */
  function StoppedCompleting(st: State, calls: seq<Call>, s: set<Id>, n: nat): nat
    decreases |calls|
  {
    if calls == [] then 0
    else StopsCompletingAt(st, calls[0], s, n) + StoppedCompleting(Step(st, calls[0]), calls[1..], s, n)
  }

  /** The requests of a run that take a booking of `s` out of progress without completing it. */
  function Broken(st: State, calls: seq<Call>, s: set<Id>): nat
    decreases |calls|
  {
    if calls == [] then 0 else Breaks(st, calls[0], s) + Broken(Step(st, calls[0]), calls[1..], s)
  }

  /** From `st` to `fin`: saved statuses became entries but for `x` requests, completions became
      entries but for `y` and these became credits but for `z`; and every booking set in progress
      was completed, is still in progress, or was taken out of progress by one of `w` requests. */
  ghost predicate Accounts(st: State, fin: State, s: set<Id>, x: nat, y: nat, z: nat, w: nat) {
    && Saves(fin, s) - Saves(st, s) == Entries(fin, s) - Entries(st, s) + x
    && CompletedSaves(fin, s) - CompletedSaves(st, s) == CompletedEntries(fin, s) - CompletedEntries(st, s) + y
    && CompletedEntries(fin, s) - CompletedEntries(st, s) == Credits(fin, s) - Credits(st, s) + z
    && InProgressSaves(fin, s) - InProgressSaves(st, s) + |Busy(st.bookings, s)|
       == CompletedSaves(fin, s) - CompletedSaves(st, s) + |Busy(fin.bookings, s)| + w
  }

  lemma AssigningStep(st: State, c: Call, s: set<Id>)
    requires Wf(st) && Assigns(st, c, s)
    ensures StatusAssigned(st, Step(st, c), c)
    ensures Step(st, c).bookings[c.command.booking].status == Completed <==> Completes(c.command)
  {
    SavedCallAssigns(st, c);
    StatusOfRow(st, Step(st, c).bookings[c.command.booking], c);
  }

  /** A request that saves no status on a booking of `s` changes none of the counts. */
  lemma OtherStepAccounts(st: State, c: Call, s: set<Id>)
    requires Wf(st) && !Assigns(st, c, s)
    ensures Accounts(st, Step(st, c), s, 0, 0, 0, 0)
  {
    StepHasEffect(st, c);
    if c.command.booking in s {
      NoStatusWithoutAssigning(st, c, s);
    }
    EffectAccounts(st, Step(st, c), c, s);
  }

  lemma NoStatusWithoutAssigning(st: State, c: Call, s: set<Id>)
    requires c.command.booking in s && !Assigns(st, c, s)
    ensures Step(st, c) == st || c.command.Update?
  {
  }

  lemma EffectAccounts(st: State, st': State, c: Call, s: set<Id>)
    requires Effect(st, st', c) && (c.command.booking in s ==> st' == st || c.command.Update?)
    ensures Accounts(st, st', s, 0, 0, 0, 0)
  {
    if st' == st {
    } else if StatusAssigned(st, st', c) {
      AssignedElsewhere(st, st', c, s);
    } else {
      BusyAfter(st.bookings, c.command.booking, st'.bookings[c.command.booking], s);
    }
  }

  lemma StatusOfRow(st: State, row: Booking, c: Call)
    requires LegalRow(st, row, c)
    ensures row.status == Completed <==> Completes(c.command)
    ensures row.status == Completed ==> c.command.booking in st.bookings && st.bookings[c.command.booking].status == InProgress
    ensures row.status == InProgress ==>
              c.command.booking in st.bookings && st.bookings[c.command.booking].status == ProviderArrived
  {
  }

  /** What a status saved on booking `id` adds to each count. */
  lemma CountsAfterAssignment(st: State, st': State, c: Call, s: set<Id>)
    requires StatusAssigned(st, st', c)
    ensures
      var row := st'.bookings[c.command.booking];
      var (inS, done) := (row.id in s, row.status == Completed);
      && Saves(st', s) == Saves(st, s) + (if inS then 1 else 0)
      && CompletedSaves(st', s) == CompletedSaves(st, s) + (if inS && done then 1 else 0)
      && InProgressSaves(st', s) == InProgressSaves(st, s) + (if inS && row.status == InProgress then 1 else 0)
      && Entries(st', s) == Entries(st, s) + (if inS && c.saves >= 2 then 1 else 0)
      && CompletedEntries(st', s) == CompletedEntries(st, s) + (if inS && done && c.saves >= 2 then 1 else 0)
      && Credits(st', s) == Credits(st, s) + (if inS && done && c.saves >= 3 then 1 else 0)
  {
    var row := st'.bookings[c.command.booking];
    CountPush(st.saved, Saved(row, c.now), SavedOn(s));
    CountPush(st.saved, Saved(row, c.now), SavedAs(s, Completed));
    CountPush(st.saved, Saved(row, c.now), SavedAs(s, InProgress));
    if c.saves >= 2 {
      CountPush(st.timeline, EntryFor(c.command, row.status), EntriesOn(s));
      CountPush(st.timeline, EntryFor(c.command, row.status), EntryAs(s, Completed));
    } else {
      assert st'.timeline == st.timeline;
    }
    if c.saves >= 3 && row.status == Completed {
      CountPush(st.paid, c.command.booking, In(s));
    }
  }

  lemma AssignedElsewhere(st: State, st': State, c: Call, s: set<Id>)
    requires StatusAssigned(st, st', c) && c.command.booking !in s
    ensures Accounts(st, st', s, 0, 0, 0, 0)
  {
    CountsAfterAssignment(st, st', c, s);
    BusyAfter(st.bookings, c.command.booking, st'.bookings[c.command.booking], s);
  }

  lemma AssigningStepAccounts(st: State, c: Call, s: set<Id>)
    requires Wf(st) && Assigns(st, c, s)
    ensures
      var done := Completes(c.command);
      Accounts(st, Step(st, c), s,
               if c.saves == 1 then 1 else 0,
               if c.saves == 1 && done then 1 else 0,
               if c.saves == 2 && done then 1 else 0,
               if IsBusy(st.bookings, s, c.command.booking) && !done then 1 else 0)
  {
    AssigningStep(st, c, s);
    AssignmentAccounts(st, Step(st, c), c, s);
  }

  lemma AssignmentAccounts(st: State, st': State, c: Call, s: set<Id>)
    requires StatusAssigned(st, st', c) && c.command.booking in s
    ensures
      var done := Completes(c.command);
      Accounts(st, st', s,
               if c.saves == 1 then 1 else 0,
               if c.saves == 1 && done then 1 else 0,
               if c.saves == 2 && done then 1 else 0,
               if IsBusy(st.bookings, s, c.command.booking) && !done then 1 else 0)
  {
    var id := c.command.booking;
    StatusOfRow(st, st'.bookings[id], c);
    CountsAfterAssignment(st, st', c, s);
    BusyAfter(st.bookings, id, st'.bookings[id], s);
  }

  lemma StepAccounts(st: State, c: Call, s: set<Id>)
    requires Wf(st)
    ensures Accounts(st, Step(st, c), s, StopsAt(st, c, s, 1), StopsCompletingAt(st, c, s, 1),
                     StopsCompletingAt(st, c, s, 2), Breaks(st, c, s))
  {
    if Assigns(st, c, s) {
      AssigningStepAccounts(st, c, s);
    } else {
      OtherStepAccounts(st, c, s);
    }
  }

  /** Rewriting one row changes the bookings in progress by that row alone. */
  lemma BusyAfter(bookings: map<Id, Booking>, id: Id, row: Booking, s: set<Id>)
    ensures
      var after := bookings[id := row];
      |Busy(after, s)| + (if IsBusy(bookings, s, id) then 1 else 0)
      == |Busy(bookings, s)| + (if IsBusy(after, s, id) then 1 else 0)
  {
    var after := bookings[id := row];
    var (was, now) := (Busy(bookings, s), Busy(after, s));
    forall x | x != id ensures x in now <==> x in was {
      assert IsBusy(after, s, x) <==> IsBusy(bookings, s, x);
    }
    assert id in was <==> IsBusy(bookings, s, id);
    assert id in now <==> IsBusy(after, s, id);
    DifferAtMostAt(was, now, id);
  }

  lemma DifferAtMostAt(was: set<Id>, now: set<Id>, id: Id)
    requires forall x :: x != id ==> (x in now <==> x in was)
    ensures |now| + (if id in was then 1 else 0) == |was| + (if id in now then 1 else 0)
  {
    assert now - {id} == was - {id};
    RemoveOne(was, id);
    RemoveOne(now, id);
  }

  lemma RemoveOne(a: set<Id>, id: Id)
    ensures |a| == |a - {id}| + if id in a then 1 else 0
  {
    if id in a {
      assert a == (a - {id}) + {id};
    } else {
      assert a == a - {id};
    }
  }

  lemma AccountsCompose(st: State, mid: State, fin: State, s: set<Id>,
                        x: nat, y: nat, z: nat, w: nat, x': nat, y': nat, z': nat, w': nat)
    requires Accounts(st, mid, s, x, y, z, w) && Accounts(mid, fin, s, x', y', z', w')
    ensures Accounts(st, fin, s, x + x', y + y', z + z', w + w')
  {
  }

  /** Where interrupted requests stop, exactly: in every run and for every set of bookings, the
      saved statuses without a timeline entry are those of the requests stopped after their first
      save, the COMPLETED entries without a credit those of the completions stopped after their
      second, and a booking set in progress without being completed is still in progress or was
      taken out of it by another request. */
  lemma {:induction false} AbortAccounting(st: State, calls: seq<Call>, s: set<Id>)
    requires Wf(st)
    ensures Accounts(st, Run(st, calls), s, Stopped(st, calls, s, 1), StoppedCompleting(st, calls, s, 1),
                     StoppedCompleting(st, calls, s, 2), Broken(st, calls, s))
    decreases |calls|
  {
    if calls != [] {
      var (c, rest) := (calls[0], calls[1..]);
      var st' := Step(st, c);
      StepHasEffect(st, c);
      StepAccounts(st, c, s);
      AbortAccounting(st', rest, s);
      AccountsCompose(st, st', Run(st, calls), s,
                      StopsAt(st, c, s, 1), StopsCompletingAt(st, c, s, 1), StopsCompletingAt(st, c, s, 2), Breaks(st, c, s),
                      Stopped(st', rest, s, 1), StoppedCompleting(st', rest, s, 1),
                      StoppedCompleting(st', rest, s, 2), Broken(st', rest, s));
    }
  }

  /** Abort ordering: from an empty database, however requests are interrupted, every set of
      bookings has at most as many credits as COMPLETED timeline entries, at most as many of
      those as saves as COMPLETED, and at most as many of those as saves as IN_PROGRESS. */
  lemma AbortOrdering(st: State, calls: seq<Call>, s: set<Id>)
    requires Wf(st) && Fresh(st)
    ensures
      var fin := Run(st, calls);
      Credits(fin, s) <= CompletedEntries(fin, s) <= CompletedSaves(fin, s) <= InProgressSaves(fin, s)
  {
    AbortAccounting(st, calls, s);
    assert Busy(st.bookings, s) == {};
  }

  /** From an empty database to `fin`, the three fields of `u` moved once for each credit. */
  ghost predicate CountersMatchCredits(st: State, fin: State, u: Id) {
    && u in st.providers && u in fin.providers
    && var (p, p') := (st.providers[u], fin.providers[u]);
    && var s := BookingsOf(fin.bookings, p.id);
    && p'.completedBookings - p.completedBookings == p'.totalBookings - p.totalBookings == Credits(fin, s)
    && Abs(p'.pendingEarnings - (p.pendingEarnings + Shares(fin.paid, fin.bookings, s, p.commissionRate)))
       <= Credits(fin, s) as real * Error(st.column)
  }

  lemma AgreementFromNothing(st: State, fin: State, u: Id, s: set<Id>)
    requires st.paid == [] && LedgerAgrees(st, fin, u, s, fin.bookings)
    requires s == BookingsOf(fin.bookings, st.providers[u].id)
    ensures CountersMatchCredits(st, fin, u)
  {
    assert fin.paid[|st.paid|..] == fin.paid;
  }

  /** The same for a provider's counters, however requests are interrupted: the three fields move
      together, once for each credit, and credits never exceed what the timeline of the provider's
      bookings shows as completed, but fall short of it by the completions stopped in between. */
  lemma CountersNeverRunAhead(st: State, calls: seq<Call>, u: Id)
    requires Wf(st) && Fresh(st) && u in st.providers
    ensures
      var fin := Run(st, calls);
      var s := BookingsOf(fin.bookings, st.providers[u].id);
      && CountersMatchCredits(st, fin, u)
      && CompletedEntries(fin, s) == Credits(fin, s) + StoppedCompleting(st, calls, s, 2)
      && Credits(fin, s) <= CompletedEntries(fin, s) <= CompletedSaves(fin, s) <= InProgressSaves(fin, s)
  {
    var fin := Run(st, calls);
    var s := BookingsOf(fin.bookings, st.providers[u].id);
    RunOnLedger(st, calls, u, s, fin.bookings);
    AgreementFromNothing(st, fin, u, s);
    AbortOrdering(st, calls, s);
    AbortAccounting(st, calls, s);
  }
}
