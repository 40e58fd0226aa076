/** What each booking request does, row by row and field by field, and what the money and the
    parties of every run are. Nothing here goes through the plans: the statements are about stored
    fields, instants in milliseconds and amounts. */
module BookingRequests {
  import opened Basics
  import opened Options
  import opened Money
  import opened BookingModel

  // ---- refunds ----------------------------------------------------------------------------

  /** Four hours ahead or more the whole price is refunded, two hours or more half of it, else
      nothing. */
  lemma RefundBrackets(b: Booking, t: Instant)
    ensures b.scheduledAt - t >= 14400000 ==> Refund(b, t) == b.totalAmount && RefundPercentage(b.scheduledAt, t) == 100
    ensures 7200000 <= b.scheduledAt - t < 14400000 ==>
              Refund(b, t) == b.totalAmount / 2.0 && RefundPercentage(b.scheduledAt, t) == 50
    ensures b.scheduledAt - t < 7200000 ==> Refund(b, t) == 0.0 && RefundPercentage(b.scheduledAt, t) == 0
  {
  }

  /** A cancelled row carries the refund for the time left when it was saved. */
  predicate Bracketed(c: Column, x: Saved) {
    x.row.status == Cancelled ==>
      var left := x.row.scheduledAt - x.at;
      && (left >= 14400000 ==> x.row.refundAmount == x.row.totalAmount)
      && (7200000 <= left < 14400000 ==> x.row.refundAmount == Keep(c, x.row.totalAmount / 2.0))
      && (left < 7200000 ==> x.row.refundAmount == 0.0)
      && x.row.refundStatus == Some(if left >= 7200000 then RefundPending else NotApplicable)
  }

  lemma CancelledRowIsBracketed(st: State, row: Booking, c: Call)
    requires Wf(st) && LegalRow(st, row, c)
    ensures Bracketed(st.column, Saved(row, c.now))
  {
    if row.status == Cancelled {
      var b := st.bookings[c.command.booking];
      RefundBrackets(b, c.now);
      assert Stored(st.column, b).totalAmount == b.totalAmount;
    }
  }

  lemma EffectKeepsBracketed(st: State, st': State, c: Call)
    requires Wf(st) && Effect(st, st', c)
    requires forall x :: x in st.saved ==> Bracketed(st.column, x)
    ensures st'.column == st.column && forall x :: x in st'.saved ==> Bracketed(st'.column, x)
  {
    if StatusAssigned(st, st', c) {
      CancelledRowIsBracketed(st, st'.bookings[c.command.booking], c);
    }
  }

  /** In every run, on any clock and however requests are interrupted, every cancelled row is saved
      with the refund of its bracket. */
  lemma {:induction false} EveryRefundIsBracketed(st: State, calls: seq<Call>)
    requires Wf(st)
    requires forall x :: x in st.saved ==> Bracketed(st.column, x)
    ensures forall x :: x in Run(st, calls).saved ==> Bracketed(st.column, x)
    decreases |calls|
  {
    if calls != [] {
      StepHasEffect(st, calls[0]);
      EffectKeepsBracketed(st, Step(st, calls[0]), calls[0]);
      EveryRefundIsBracketed(Step(st, calls[0]), calls[1..]);
    }
  }

  // ---- one request ------------------------------------------------------------------------

  /** From `st` to `st'`, this row was saved and this entry appended, and nothing else happened. */
  ghost predicate Records(st: State, st': State, row: Booking, now: Instant, entry: Entry) {
    st' == st.(bookings := st.bookings[row.id := row], saved := st.saved + [Saved(row, now)], timeline := st.timeline + [entry])
  }

  lemma TwoSaves(st: State, c: Call, ws: seq<Write>)
    requires !c.command.Update? && Plan(st, c.command, c.now) == Ok(ws) && |ws| == 2 && Whole(c)
    ensures Records(st, Step(st, c), Stored(st.column, ws[0].row), c.now, ws[1].entry)
    ensures !c.command.Cancel? ==> Answer(st, c) == Done
  {
    StatusWrites(st, ws, c.now);
  }

  /** A booking costs the price of its service and 15 per cent. */
  lemma CreateDoes(st: State, c: Call)
    requires c.command.Create? && Whole(c)
    ensures
      var Create(customer, service, id, scheduledAt, rest) := c.command;
      if service !in st.services || !st.services[service].isActive then
        Step(st, c) == st && Answer(st, c) == Refused(ServiceUnavailable)
      else if id in st.bookings then Step(st, c) == st && Answer(st, c) == Refused(DuplicateKey)
      else
        var (s, column) := (st.services[service], st.column);
        var row := Booking(id, customer, s.providerId, Pending, scheduledAt,
                           Keep(column, s.basePrice), Keep(column, s.basePrice * 15.0 / 100.0), Keep(column, s.basePrice * 115.0 / 100.0),
                           0.0, None, None, None, None, None, None, None, None, None, None, rest[ServiceId := service]);
        && Answer(st, c) == Done
        && Records(st, Step(st, c), row, c.now, Entry(id, Pending, customer, "Booking created"))
  {
    var Create(customer, service, id, scheduledAt, rest) := c.command;
    if service in st.services && st.services[service].isActive && id !in st.bookings {
      var base := st.services[service].basePrice;
      assert base * 0.15 == base * 15.0 / 100.0 && base + base * 0.15 == base * 115.0 / 100.0;
      assert Keep(st.column, 0.0) == 0.0;
      TwoSaves(st, c, Plan(st, c.command, c.now).value);
    }
  }

  /** Customers change the client fields of their own pending bookings, each to what they send. */
  lemma UpdateDoes(st: State, c: Call)
    requires Wf(st) && c.command.Update? && Whole(c)
    ensures
      var Update(customer, id, changes) := c.command;
      if id !in st.bookings || st.bookings[id].customerId != customer then
        Step(st, c) == st && Answer(st, c) == Refused(BookingNotFound)
      else if st.bookings[id].status != Pending then Step(st, c) == st && Answer(st, c) == Refused(WrongStatus)
      else
        && id in Step(st, c).bookings
        && var fields := Step(st, c).bookings[id].fields;
        && Answer(st, c) == Done
        && Step(st, c) == st.(bookings := st.bookings[id := st.bookings[id].(fields := fields)])
        && (forall f :: f in fields <==> f in changes || f in st.bookings[id].fields)
        && (forall f :: f in fields ==> fields[f] == if f in changes then changes[f] else st.bookings[id].fields[f])
  {
    if Plan(st, c.command, c.now).Ok? {
      UpdateHasEffect(st, c);
    }
  }

  /** Anybody but a customer cancels any booking that is neither completed nor cancelled, a customer
      only their own, and gets the refund of the bracket. */
  lemma CancelDoes(st: State, c: Call)
    requires Wf(st) && c.command.Cancel? && Whole(c)
    ensures
      var Cancel(actor, id, reason) := c.command;
      if id !in st.bookings then Step(st, c) == st && Answer(st, c) == Refused(BookingNotFound)
      else if actor.role == Customer && st.bookings[id].customerId != actor.id then
        Step(st, c) == st && Answer(st, c) == Refused(NotYourBooking)
      else if st.bookings[id].status == Completed || st.bookings[id].status == Cancelled then
        Step(st, c) == st && Answer(st, c) == Refused(WrongStatus)
      else
        var b := st.bookings[id];
        var left := b.scheduledAt - c.now;
        var percentage := if left >= 14400000 then 100 else if left >= 7200000 then 50 else 0;
        var amount := if left >= 14400000 then b.totalAmount else if left >= 7200000 then b.totalAmount / 2.0 else 0.0;
        && Answer(st, c) == Refunded(amount, percentage)
        && Records(st, Step(st, c),
                   b.(status := Cancelled, cancellationReason := Some(reason), cancelledAt := Some(c.now),
                      cancelledBy := Some(actor.id), refundAmount := Keep(st.column, amount),
                      refundStatus := Some(if left >= 7200000 then RefundPending else NotApplicable)),
                   c.now, Entry(id, Cancelled, actor.id, "Cancelled: " + reason))
  {
    var Cancel(actor, id, reason) := c.command;
    if Plan(st, c.command, c.now).Ok? {
      RefundBrackets(st.bookings[id], c.now);
      TwoSaves(st, c, Plan(st, c.command, c.now).value);
      assert Stored(st.column, st.bookings[id]) == st.bookings[id];
    }
  }

  /** Is `st'` what a provider's request leaves that turns the booking into `row`? Only the provider
      of the booking is heard, and only if `heard`. */
  ghost predicate ProviderDoes(st: State, c: Call, heard: bool, row: Booking, notes: string)
    requires c.command.Handle?
  {
    var (user, id) := (c.command.user, c.command.booking);
    if user !in st.providers then Step(st, c) == st && Answer(st, c) == Refused(ProviderNotFound)
    else if id !in st.bookings || st.bookings[id].providerId != st.providers[user].id then
      Step(st, c) == st && Answer(st, c) == Refused(BookingNotFound)
    else if !heard then Step(st, c) == st && Answer(st, c) == Refused(WrongStatus)
    else Answer(st, c) == Done && Records(st, Step(st, c), row, c.now, Entry(id, row.status, user, notes))
  }

  lemma MoveDoes(st: State, c: Call, heard: bool, row: Booking, notes: string)
    requires Wf(st) && c.command.Handle? && !c.command.move.Complete? && Whole(c)
    requires c.command.booking in st.bookings ==>
               && (heard <==> Admits(c.command.move, st.bookings[c.command.booking].status))
               && row == Moved(st.bookings[c.command.booking], c.command.move, c.now)
    requires row.status == Target(c.command.move) && notes == MoveNote(c.command.move)
    ensures ProviderDoes(st, c, heard, row, notes)
  {
    if Plan(st, c.command, c.now).Ok? {
      var b := st.bookings[c.command.booking];
      TwoSaves(st, c, Plan(st, c.command, c.now).value);
      MovedEvolves(st.column, b, c.command.move, c.now);
    }
  }

  function BookingAt(st: State, id: Id, otherwise: Booking): Booking {
    if id in st.bookings then st.bookings[id] else otherwise
  }

  lemma AcceptDoes(st: State, c: Call, b: Booking)
    requires Wf(st) && c.command.Handle? && c.command.move == Accept && Whole(c) && b == BookingAt(st, c.command.booking, b)
    ensures ProviderDoes(st, c, b.status == Pending, b.(status := Confirmed, confirmedAt := Some(c.now)),
                         "Booking accepted by provider")
  {
    MoveDoes(st, c, b.status == Pending, b.(status := Confirmed, confirmedAt := Some(c.now)), "Booking accepted by provider");
  }

  lemma RejectDoes(st: State, c: Call, b: Booking, reason: string)
    requires Wf(st) && c.command.Handle? && c.command.move == Reject(reason) && Whole(c) && b == BookingAt(st, c.command.booking, b)
    ensures ProviderDoes(st, c, b.status == Pending, b.(status := Rejected, rejectionReason := Some(reason)), "Rejected: " + reason)
  {
    MoveDoes(st, c, b.status == Pending, b.(status := Rejected, rejectionReason := Some(reason)), "Rejected: " + reason);
  }

  lemma StartDoes(st: State, c: Call, b: Booking)
    requires Wf(st) && c.command.Handle? && c.command.move == Start && Whole(c) && b == BookingAt(st, c.command.booking, b)
    ensures ProviderDoes(st, c, b.status == ProviderArrived, b.(status := InProgress, startedAt := Some(c.now)), "Service started")
  {
    MoveDoes(st, c, b.status == ProviderArrived, b.(status := InProgress, startedAt := Some(c.now)), "Service started");
  }

  lemma EnRouteDoes(st: State, c: Call, b: Booking)
    requires Wf(st) && c.command.Handle? && c.command.move == MarkEnRoute && Whole(c) && b == BookingAt(st, c.command.booking, b)
    ensures ProviderDoes(st, c, true, b.(status := ProviderEnRoute), "Provider is on the way")
  {
    MoveDoes(st, c, true, b.(status := ProviderEnRoute), "Provider is on the way");
  }

  lemma ArriveDoes(st: State, c: Call, b: Booking)
    requires Wf(st) && c.command.Handle? && c.command.move == MarkArrived && Whole(c) && b == BookingAt(st, c.command.booking, b)
    ensures ProviderDoes(st, c, true, b.(status := ProviderArrived, arrivedAt := Some(c.now)), "Provider arrived at location")
  {
    MoveDoes(st, c, true, b.(status := ProviderArrived, arrivedAt := Some(c.now)), "Provider arrived at location");
  }

  /** From `st` to `st'`, this row was saved and entered, and then this provider saved for it. */
  ghost predicate RecordsAndCredits(st: State, st': State, row: Booking, now: Instant, entry: Entry, user: Id, p: Provider) {
    st' == st.(bookings := st.bookings[row.id := row], saved := st.saved + [Saved(row, now)], timeline := st.timeline + [entry],
               providers := st.providers[user := p], paid := st.paid + [row.id])
  }

  lemma ThreeSaves(st: State, c: Call, ws: seq<Write>, b: Booking)
    requires c.command.Handle? && Plan(st, c.command, c.now) == Ok(ws) && |ws| == 3 && Whole(c)
    requires ws[0] == SaveStatus(b) && Stored(st.column, b) == b && b.id == c.command.booking
    ensures var p := ws[2].provider;
            RecordsAndCredits(st, Step(st, c), b, c.now, ws[1].entry, c.command.user,
                              p.(pendingEarnings := Keep(st.column, p.pendingEarnings)))
    ensures Answer(st, c) == Done
  {
    StatusWrites(st, ws, c.now);
  }

  /** The provider as saved after earning this much by one more booking. */
  function Earning(c: Column, p: Provider, earned: real): Provider {
    Provider(p.id, p.commissionRate, Keep(c, p.pendingEarnings + earned), p.totalBookings + 1, p.completedBookings + 1)
  }

  lemma CreditedEarns(c: Column, p: Provider, b: Booking)
    ensures Credited(p, b).(pendingEarnings := Keep(c, Credited(p, b).pendingEarnings))
         == Earning(c, p, Share(b.totalAmount, p.commissionRate))
  {
  }

  /** What completing does when `earned` goes to the provider. */
  ghost predicate Completing(st: State, c: Call, notes: Option<string>, earned: real)
    requires c.command.Handle?
  {
    var (user, id) := (c.command.user, c.command.booking);
    if user !in st.providers then Step(st, c) == st && Answer(st, c) == Refused(ProviderNotFound)
    else if id !in st.bookings || st.bookings[id].providerId != st.providers[user].id then
      Step(st, c) == st && Answer(st, c) == Refused(BookingNotFound)
    else if st.bookings[id].status != InProgress then Step(st, c) == st && Answer(st, c) == Refused(WrongStatus)
    else
      && Answer(st, c) == Done
      && RecordsAndCredits(st, Step(st, c),
                           st.bookings[id].(status := Completed, completedAt := Some(c.now), completionNotes := notes), c.now,
                           Entry(id, Completed, user, "Service completed"),
                           user, Earning(st.column, st.providers[user], earned))
  }

  /** A completion also credits the provider: of the price, what the commission rate leaves of a
      hundred per cent. */
  lemma CompleteDoes(st: State, c: Call, notes: Option<string>, earned: real)
    requires Wf(st) && c.command.Handle? && c.command.move == Complete(notes) && Whole(c)
    requires c.command.user in st.providers && c.command.booking in st.bookings ==>
               100.0 * earned
               == st.bookings[c.command.booking].totalAmount * (100.0 - st.providers[c.command.user].commissionRate)
    ensures Completing(st, c, notes, earned)
  {
    if Plan(st, c.command, c.now).Ok? {
      var (b, p) := (st.bookings[c.command.booking], st.providers[c.command.user]);
      ShareIsTheRest(b.totalAmount, p.commissionRate);
      CompletionCredits(st, c, notes, earned);
    }
  }

  lemma CompletionCredits(st: State, c: Call, notes: Option<string>, earned: real)
    requires Wf(st) && c.command.Handle? && c.command.move == Complete(notes) && Whole(c) && Plan(st, c.command, c.now).Ok?
    requires earned == Share(st.bookings[c.command.booking].totalAmount, st.providers[c.command.user].commissionRate)
    ensures Completing(st, c, notes, earned)
  {
    var (b, p) := (st.bookings[c.command.booking], st.providers[c.command.user]);
    var ws := Plan(st, c.command, c.now).value;
    MovedEvolves(st.column, b, c.command.move, c.now);
    ThreeSaves(st, c, ws, Moved(b, c.command.move, c.now));
    CreditedEarns(st.column, p, ws[0].row);
  }

  // ---- the parties of a booking -----------------------------------------------------------

  /** A booking is opened by its customer, and cancelled by somebody; every other entry is by the
      user behind its provider. */
  predicate NamesParty(st: State, e: Entry) {
    && e.bookingId in st.bookings
    && (e.status == Pending ==> e.changedBy == st.bookings[e.bookingId].customerId)
    && (e.status != Pending && e.status != Cancelled ==>
          && e.changedBy in st.providers
          && st.providers[e.changedBy].id == st.bookings[e.bookingId].providerId)
  }

  /** A party stays a party: bookings keep their customer and provider, users their provider. */
  ghost predicate PartiesStay(st: State, st': State) {
    && (forall id :: id in st.bookings ==>
          && id in st'.bookings
          && st'.bookings[id].customerId == st.bookings[id].customerId
          && st'.bookings[id].providerId == st.bookings[id].providerId)
    && (forall u :: u in st.providers ==> u in st'.providers && st'.providers[u].id == st.providers[u].id)
  }

  lemma EffectKeepsParties(st: State, st': State, c: Call)
    requires Effect(st, st', c)
    ensures PartiesStay(st, st')
  {
    if StatusAssigned(st, st', c) && c.command.booking in st.bookings {
      RowKeepsTerms(st, st'.bookings[c.command.booking], c);
    }
  }

  lemma NewEntryNamesParty(st: State, st': State, c: Call)
    requires StatusAssigned(st, st', c)
    ensures NamesParty(st', EntryFor(c.command, st'.bookings[c.command.booking].status))
  {
  }

  lemma EffectNamesParties(st: State, st': State, c: Call)
    requires Effect(st, st', c)
    requires forall e :: e in st.timeline ==> NamesParty(st, e)
    ensures forall e :: e in st'.timeline ==> NamesParty(st', e)
  {
    EffectKeepsParties(st, st', c);
    if StatusAssigned(st, st', c) {
      NewEntryNamesParty(st, st', c);
    }
  }

  /** In every run, however requests are interrupted, a booking is opened in the name of its customer
      and moved on only in the name of the user behind its provider. */
  lemma {:induction false} TimelineNamesParties(st: State, calls: seq<Call>)
    requires Wf(st)
    requires forall e :: e in st.timeline ==> NamesParty(st, e)
    ensures forall e :: e in Run(st, calls).timeline ==> NamesParty(Run(st, calls), e)
    decreases |calls|
  {
    if calls != [] {
      StepHasEffect(st, calls[0]);
      EffectNamesParties(st, Step(st, calls[0]), calls[0]);
      TimelineNamesParties(Step(st, calls[0]), calls[1..]);
    }
  }
}
