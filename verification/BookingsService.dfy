/** The booking handlers, in the form the service has them: read, decide, assign, save. Each is
    proved to do what `BookingModel.Step` says; the theorems about runs of `Step` are therefore
    theorems about these handlers. */
module BookingsService {
  import opened Basics
  import opened Options
  import opened Money
  import opened BookingModel

  class BookingsService {
    const column: Column
    const services: map<Id, Service>
    var providers: map<Id, Provider>
    var bookings: map<Id, Booking>
    var timeline: seq<Entry>
    ghost var saved: seq<Saved>
    ghost var paid: seq<Id>

    ghost function View(): State
      reads this
    {
      State(column, services, providers, bookings, timeline, saved, paid)
    }

    /** The storage invariant, which every handler keeps. */
    ghost predicate Valid()
      reads this
    {
      Wf(View())
    }

    constructor (column: Column, services: map<Id, Service>, providers: map<Id, Provider>)
      requires forall u, v :: u in providers && v in providers && u != v ==> providers[u].id != providers[v].id
      ensures Valid()
      ensures View() == State(column, services, providers, map[], [], [], [])
      ensures Fresh(View())
    {
      this.column, this.services, this.providers := column, services, providers;
      bookings, timeline, saved, paid := map[], [], [], [];
    }

    method InsertBooking(booking: Booking, now: Instant)
      modifies this`bookings, this`saved
      ensures bookings == old(bookings)[booking.id := Stored(column, booking)]
      ensures saved == old(saved) + [Saved(Stored(column, booking), now)]
    {
      var row := Stored(column, booking);
      bookings := bookings[booking.id := row];
      saved := saved + [Saved(row, now)];
    }

    /** Saves an existing booking whose status was just assigned. */
    method SaveBooking(booking: Booking, now: Instant)
      modifies this`bookings, this`saved
      ensures bookings == old(bookings)[booking.id := Stored(column, booking)]
      ensures saved == old(saved) + [Saved(Stored(column, booking), now)]
    {
      var row := Stored(column, booking);
      bookings := bookings[booking.id := row];
      saved := saved + [Saved(row, now)];
    }

    method CreateTimelineEntry(bookingId: Id, status: Status, userId: Id, notes: string)
      modifies this`timeline
      ensures timeline == old(timeline) + [Entry(bookingId, status, userId, notes)]
    {
      timeline := timeline + [Entry(bookingId, status, userId, notes)];
    }

    /** The database after a booking with a freshly assigned status was saved and entered into the
        timeline, as far as storage accepts the saves. */
    ghost function AfterSaves(st: State, b: Booking, e: Entry, now: Instant, saves: nat): State {
      if saves == 0 then st
      else
        var row := Stored(st.column, b);
        st.(bookings := st.bookings[b.id := row],
            saved := st.saved + [Saved(row, now)],
            timeline := if saves >= 2 then st.timeline + [e] else st.timeline)
    }

    /** The saves every later handler goes on with: the booking, then its timeline entry. */
    method SaveAndRecord(booking: Booking, userId: Id, notes: string, now: Instant, saves: nat) returns (done: bool)
      modifies this`bookings, this`saved, this`timeline
      ensures done == (saves >= 2)
      ensures View() == AfterSaves(old(View()), booking, Entry(booking.id, booking.status, userId, notes), now, saves)
    {
      if saves < 1 { return false; }
      SaveBooking(booking, now);
      if saves < 2 { return false; }
      CreateTimelineEntry(booking.id, booking.status, userId, notes);
      return true;
    }

    /** A planned request saves its booking and the timeline entry, if no credit follows. */
    lemma UnfoldSaves(st: State, c: Call, ws: seq<Write>)
      requires !c.command.Update? && Plan(st, c.command, c.now) == Ok(ws) && (|ws| == 2 || c.saves < 3)
      ensures Step(st, c) == AfterSaves(st, ws[0].row, ws[1].entry, c.now, c.saves)
    {
      if c.saves >= 1 {
        StatusWrites(st, Accepted(ws, c.saves), c.now);
      }
    }

    lemma UnfoldCredit(st: State, c: Call, ws: seq<Write>)
      requires c.command.Handle? && c.command.move.Complete? && Plan(st, c.command, c.now) == Ok(ws) && c.saves >= 3
      ensures var p := ws[2].provider;
              Step(st, c) == AfterSaves(st, ws[0].row, ws[1].entry, c.now, c.saves).(
                providers := st.providers[c.command.user := p.(pendingEarnings := Keep(st.column, p.pendingEarnings))],
                paid := st.paid + [c.command.booking])
      ensures ws[2].provider == Credited(st.providers[c.command.user], ws[0].row)
    {
      StatusWrites(st, ws, c.now);
    }

    /** Unfolds the plan of the request being handled. */
    lemma Unfold(st: State, c: Call)
      requires Wf(st) && !c.command.Update?
      ensures Wf(Step(st, c))
      ensures Plan(st, c.command, c.now).Err? ==> Step(st, c) == st
      ensures Plan(st, c.command, c.now).Ok? ==>
                var ws := Plan(st, c.command, c.now).value;
                |ws| == 2 || c.saves < 3 ==> Step(st, c) == AfterSaves(st, ws[0].row, ws[1].entry, c.now, c.saves)
    {
      StepHasEffect(st, c);
      if Plan(st, c.command, c.now).Ok? {
        var ws := Plan(st, c.command, c.now).value;
        if |ws| == 2 || c.saves < 3 {
          UnfoldSaves(st, c, ws);
        }
      }
    }

    /** What a provider's request that is not a completion does, and how it is answered. */
    lemma UnfoldMove(st: State, user: Id, id: Id, move: Move, now: Instant, saves: nat)
      requires Wf(st) && !move.Complete?
      ensures
        var c := Call(Handle(user, id, move), now, saves);
        && Wf(Step(st, c))
        && (user !in st.providers ==> Step(st, c) == st && Answer(st, c) == Refused(ProviderNotFound))
        && (user in st.providers ==>
              if id !in st.bookings || st.bookings[id].providerId != st.providers[user].id then
                Step(st, c) == st && Answer(st, c) == Refused(BookingNotFound)
              else if !Admits(move, st.bookings[id].status) then
                Step(st, c) == st && Answer(st, c) == Refused(WrongStatus)
              else
                && Step(st, c) == AfterSaves(st, Moved(st.bookings[id], move, now), EntryFor(c.command, Target(move)), now, saves)
                && Answer(st, c) == if saves < 2 then Interrupted else Done)
    {
      Unfold(st, Call(Handle(user, id, move), now, saves));
    }

    lemma UnfoldCompletion(st: State, user: Id, id: Id, notes: Option<string>, now: Instant, saves: nat)
      requires Wf(st)
      ensures
        var c := Call(Handle(user, id, Complete(notes)), now, saves);
        && Wf(Step(st, c))
        && (user !in st.providers ==> Step(st, c) == st && Answer(st, c) == Refused(ProviderNotFound))
        && (user in st.providers ==>
              if id !in st.bookings || st.bookings[id].providerId != st.providers[user].id then
                Step(st, c) == st && Answer(st, c) == Refused(BookingNotFound)
              else if st.bookings[id].status != InProgress then
                Step(st, c) == st && Answer(st, c) == Refused(WrongStatus)
              else
                var (b, p) := (Moved(st.bookings[id], Complete(notes), now), st.providers[user]);
                var saved := AfterSaves(st, b, EntryFor(c.command, Completed), now, saves);
                && Answer(st, c) == (if saves < 3 then Interrupted else Done)
                && Step(st, c) == if saves < 3 then saved else saved.(
                     providers := st.providers[user := Credited(p, b).(pendingEarnings := Keep(st.column, Credited(p, b).pendingEarnings))],
                     paid := st.paid + [id]))
    {
      var c := Call(Handle(user, id, Complete(notes)), now, saves);
      Unfold(st, c);
      if Plan(st, c.command, now).Ok? && saves >= 3 {
        UnfoldCredit(st, c, Plan(st, c.command, now).value);
      }
    }

    lemma UnfoldCancel(st: State, user: Actor, id: Id, reason: string, now: Instant, saves: nat)
      requires Wf(st)
      ensures
        var c := Call(Cancel(user, id, reason), now, saves);
        && Wf(Step(st, c))
        && if id !in st.bookings then
             Step(st, c) == st && Answer(st, c) == Refused(BookingNotFound)
           else if user.role == Customer && st.bookings[id].customerId != user.id then
             Step(st, c) == st && Answer(st, c) == Refused(NotYourBooking)
           else if !Cancellable(st.bookings[id].status) then
             Step(st, c) == st && Answer(st, c) == Refused(WrongStatus)
           else
             var b := st.bookings[id];
             && Step(st, c) == AfterSaves(st, Cancelling(b, user, reason, now), EntryFor(c.command, Cancelled), now, saves)
             && Answer(st, c) == (if saves < 2 then Interrupted
                                  else Refunded(Refund(b, now), RefundPercentage(b.scheduledAt, now)))
    {
      Unfold(st, Call(Cancel(user, id, reason), now, saves));
    }

    method CreateBooking(userId: Id, serviceId: Id, bookingId: Id, scheduledAt: Instant, rest: map<Field, string>,
                         now: Instant, saves: nat)
      returns (r: Outcome)
      requires Valid()
      modifies this
      ensures Valid()
      ensures View() == Step(old(View()), Call(Create(userId, serviceId, bookingId, scheduledAt, rest), now, saves))
      ensures r == Answer(old(View()), Call(Create(userId, serviceId, bookingId, scheduledAt, rest), now, saves))
    {
      Unfold(View(), Call(Create(userId, serviceId, bookingId, scheduledAt, rest), now, saves));
      if serviceId !in services || !services[serviceId].isActive {
        return Refused(ServiceUnavailable);
      }
      if bookingId in bookings {
        return Refused(DuplicateKey);
      }
      var service := services[serviceId];
      var basePrice := service.basePrice;
      var tax := basePrice * VAT;
      var totalAmount := basePrice + tax;
      var booking := Booking(bookingId, userId, service.providerId, Pending, scheduledAt, basePrice, tax, totalAmount,
                             0.0, None, None, None, None, None, None, None, None, None, None,
                             rest[ServiceId := serviceId]);
      assert booking == NewBooking(userId, service, serviceId, bookingId, scheduledAt, rest);
      if saves < 1 { return Interrupted; }
      InsertBooking(booking, now);
      if saves < 2 { return Interrupted; }
      CreateTimelineEntry(booking.id, Pending, userId, "Booking created");
      return Done;
    }

    method UpdateBooking(userId: Id, id: Id, changes: map<Field, string>, now: Instant, saves: nat)
      returns (r: Outcome)
      requires Valid()
      modifies this
      ensures Valid()
      ensures View() == Step(old(View()), Call(Update(userId, id, changes), now, saves))
      ensures r == Answer(old(View()), Call(Update(userId, id, changes), now, saves))
    {
      ghost var c := Call(Update(userId, id, changes), now, saves);
      StepHasEffect(View(), c);
      if Plan(View(), c.command, now).Ok? {
        PerformUnfolds(View(), Accepted(Plan(View(), c.command, now).value, saves), now);
      }
      if id !in bookings || bookings[id].customerId != userId {
        return Refused(BookingNotFound);
      }
      var booking := bookings[id];
      if booking.status != Pending {
        return Refused(WrongStatus);
      }
      booking := booking.(fields := booking.fields + changes);
      if saves < 1 { return Interrupted; }
      bookings := bookings[booking.id := Stored(column, booking)];
      return Done;
    }

    method CalculateRefund(booking: Booking, now: Instant) returns (percentage: int, amount: real)
      ensures percentage == RefundPercentage(booking.scheduledAt, now) && amount == Refund(booking, now)
    {
      percentage := RefundPercentage(booking.scheduledAt, now);
      amount := booking.totalAmount * percentage as real / 100.0;
    }

    method CancelBooking(user: Actor, id: Id, reason: string, now: Instant, saves: nat)
      returns (r: Outcome)
      requires Valid()
      modifies this
      ensures Valid()
      ensures View() == Step(old(View()), Call(Cancel(user, id, reason), now, saves))
      ensures r == Answer(old(View()), Call(Cancel(user, id, reason), now, saves))
    {
      UnfoldCancel(View(), user, id, reason, now, saves);
      if id !in bookings {
        return Refused(BookingNotFound);
      }
      var booking := bookings[id];
      if user.role == Customer && booking.customerId != user.id {
        return Refused(NotYourBooking);
      }
      if booking.status == Completed || booking.status == Cancelled {
        return Refused(WrongStatus);
      }
      var refundPercentage, refundAmount := CalculateRefund(booking, now);
      booking := booking.(
        status := Cancelled,
        cancellationReason := Some(reason),
        cancelledAt := Some(now),
        cancelledBy := Some(user.id),
        refundAmount := refundAmount,
        refundStatus := Some(if refundPercentage > 0 then RefundPending else NotApplicable));
      var done := SaveAndRecord(booking, user.id, "Cancelled: " + reason, now, saves);
      return if done then Refunded(refundAmount, refundPercentage) else Interrupted;
    }

    /** The provider behind `userId` and the booking assigned to them: the reads that every
        provider handler starts with. */
    method FindAssigned(userId: Id, id: Id) returns (r: Result<Booking, Failure>)
      ensures r == if userId !in providers then Err(ProviderNotFound)
                   else if id !in bookings || bookings[id].providerId != providers[userId].id then Err(BookingNotFound)
                   else Ok(bookings[id])
    {
      if userId !in providers {
        return Err(ProviderNotFound);
      }
      var provider := providers[userId];
      if id !in bookings || bookings[id].providerId != provider.id {
        return Err(BookingNotFound);
      }
      return Ok(bookings[id]);
    }

    method AcceptBooking(userId: Id, id: Id, now: Instant, saves: nat) returns (r: Outcome)
      requires Valid()
      modifies this
      ensures Valid()
      ensures View() == Step(old(View()), Call(Handle(userId, id, Accept), now, saves))
      ensures r == Answer(old(View()), Call(Handle(userId, id, Accept), now, saves))
    {
      UnfoldMove(View(), userId, id, Accept, now, saves);
      var found := FindAssigned(userId, id);
      if found.Err? { return Refused(found.error); }
      var booking := found.value;
      if booking.status != Pending {
        return Refused(WrongStatus);
      }
      booking := booking.(status := Confirmed, confirmedAt := Some(now));
      var done := SaveAndRecord(booking, userId, "Booking accepted by provider", now, saves);
      return if done then Done else Interrupted;
    }

    method RejectBooking(userId: Id, id: Id, reason: string, now: Instant, saves: nat) returns (r: Outcome)
      requires Valid()
      modifies this
      ensures Valid()
      ensures View() == Step(old(View()), Call(Handle(userId, id, Reject(reason)), now, saves))
      ensures r == Answer(old(View()), Call(Handle(userId, id, Reject(reason)), now, saves))
    {
      UnfoldMove(View(), userId, id, Reject(reason), now, saves);
      var found := FindAssigned(userId, id);
      if found.Err? { return Refused(found.error); }
      var booking := found.value;
      if booking.status != Pending {
        return Refused(WrongStatus);
      }
      booking := booking.(status := Rejected, rejectionReason := Some(reason));
      var done := SaveAndRecord(booking, userId, "Rejected: " + reason, now, saves);
      return if done then Done else Interrupted;
    }

    method StartService(userId: Id, id: Id, now: Instant, saves: nat) returns (r: Outcome)
      requires Valid()
      modifies this
      ensures Valid()
      ensures View() == Step(old(View()), Call(Handle(userId, id, Start), now, saves))
      ensures r == Answer(old(View()), Call(Handle(userId, id, Start), now, saves))
    {
      UnfoldMove(View(), userId, id, Start, now, saves);
      var found := FindAssigned(userId, id);
      if found.Err? { return Refused(found.error); }
      var booking := found.value;
      if booking.status != ProviderArrived {
        return Refused(WrongStatus);
      }
      booking := booking.(status := InProgress, startedAt := Some(now));
      var done := SaveAndRecord(booking, userId, "Service started", now, saves);
      return if done then Done else Interrupted;
    }

    method CalculateShare(booking: Booking, provider: Provider) returns (amount: real)
      ensures amount == Share(booking.totalAmount, provider.commissionRate)
    {
      var commission := booking.totalAmount * (provider.commissionRate / 100.0);
      amount := booking.totalAmount - commission;
    }

    method CreditProvider(userId: Id, booking: Booking)
      requires userId in providers
      modifies this`providers, this`paid
      ensures var p := Credited(old(providers)[userId], booking);
              providers == old(providers)[userId := p.(pendingEarnings := Keep(column, p.pendingEarnings))]
      ensures paid == old(paid) + [booking.id]
    {
      var provider := providers[userId];
      var earned := CalculateShare(booking, provider);
      provider := provider.(
        pendingEarnings := provider.pendingEarnings + earned,
        totalBookings := provider.totalBookings + 1,
        completedBookings := provider.completedBookings + 1);
      providers := providers[userId := provider.(pendingEarnings := Keep(column, provider.pendingEarnings))];
      paid := paid + [booking.id];
    }

    method CompleteBooking(userId: Id, id: Id, notes: Option<string>, now: Instant, saves: nat) returns (r: Outcome)
      requires Valid()
      modifies this
      ensures Valid()
      ensures View() == Step(old(View()), Call(Handle(userId, id, Complete(notes)), now, saves))
      ensures r == Answer(old(View()), Call(Handle(userId, id, Complete(notes)), now, saves))
    {
      UnfoldCompletion(View(), userId, id, notes, now, saves);
      var found := FindAssigned(userId, id);
      if found.Err? { return Refused(found.error); }
      var booking := found.value;
      if booking.status != InProgress {
        return Refused(WrongStatus);
      }
      booking := booking.(status := Completed, completedAt := Some(now), completionNotes := notes);
      var done := SaveAndRecord(booking, userId, "Service completed", now, saves);
      if !done { return Interrupted; }
      if saves < 3 { return Interrupted; }
      CreditProvider(userId, booking);
      return Done;
    }

    method MarkBookingEnRoute(userId: Id, id: Id, now: Instant, saves: nat) returns (r: Outcome)
      requires Valid()
      modifies this
      ensures Valid()
      ensures View() == Step(old(View()), Call(Handle(userId, id, MarkEnRoute), now, saves))
      ensures r == Answer(old(View()), Call(Handle(userId, id, MarkEnRoute), now, saves))
    {
      UnfoldMove(View(), userId, id, MarkEnRoute, now, saves);
      var found := FindAssigned(userId, id);
      if found.Err? { return Refused(found.error); }
      var booking := found.value;
      booking := booking.(status := ProviderEnRoute);
      var done := SaveAndRecord(booking, userId, "Provider is on the way", now, saves);
      return if done then Done else Interrupted;
    }

    method MarkBookingArrived(userId: Id, id: Id, now: Instant, saves: nat) returns (r: Outcome)
      requires Valid()
      modifies this
      ensures Valid()
      ensures View() == Step(old(View()), Call(Handle(userId, id, MarkArrived), now, saves))
      ensures r == Answer(old(View()), Call(Handle(userId, id, MarkArrived), now, saves))
    {
      UnfoldMove(View(), userId, id, MarkArrived, now, saves);
      var found := FindAssigned(userId, id);
      if found.Err? { return Refused(found.error); }
      var booking := found.value;
      booking := booking.(status := ProviderArrived, arrivedAt := Some(now));
      var done := SaveAndRecord(booking, userId, "Provider arrived at location", now, saves);
      return if done then Done else Interrupted;
    }
  }
}
