/** Bookings, their timeline and the provider counters, and what each request of
    `BookingsService` writes to them.

    A handler reads what it needs, decides, and then performs its saves one after the other.
    `Plan` is that decision: the saves, in order, or the error that is thrown instead. A save
    can fail, and then the handler stops there, so a request carries `saves`, the number of
    its saves the storage accepts; `Whole` requests get all of them through. */
module BookingModel {
  import opened Basics
  import opened Options
  import opened Money

  type Id = string

  datatype Status =
    | Pending | Confirmed | Rejected | ProviderAssigned | ProviderArrived | ProviderEnRoute
    | InProgress | Completed | Cancelled | CancelledByCustomer | CancelledByProvider
    | CancelledBySystem | NoShowCustomer | NoShowProvider

  datatype RefundStatus = RefundPending | NotApplicable

  datatype Role = Admin | Customer | ServiceProvider | Support

  datatype Actor = Actor(id: Id, role: Role)

  /** The fields a client may send when creating or updating a booking. */
  datatype Field = ServiceId | ScheduledDate | ScheduledTime | Address | Notes | PromoCode

  datatype Service = Service(providerId: Id, basePrice: real, isActive: bool)

  datatype Provider = Provider(
    id: Id,
    commissionRate: real,
    pendingEarnings: real,
    totalBookings: int,
    completedBookings: int)

  datatype Booking = Booking(
    id: Id,
    customerId: Id,
    providerId: Id,
    status: Status,
    scheduledAt: Instant,
    servicePrice: real,
    vatAmount: real,
    totalAmount: real,
    refundAmount: real,
    refundStatus: Option<RefundStatus>,
    confirmedAt: Option<Instant>,
    arrivedAt: Option<Instant>,
    startedAt: Option<Instant>,
    completedAt: Option<Instant>,
    cancelledAt: Option<Instant>,
    cancelledBy: Option<Id>,
    cancellationReason: Option<string>,
    rejectionReason: Option<string>,
    completionNotes: Option<string>,
    fields: map<Field, string>)

  datatype Entry = Entry(bookingId: Id, status: Status, changedBy: Id, notes: string)

  /** A booking row as it was saved when a handler assigned its status, and when that was. */
  datatype Saved = Saved(row: Booking, at: Instant)

  /** The repositories, plus two histories no table keeps: `saved`, every booking row written
      with a freshly assigned status, and `paid`, the booking behind every provider credit. */
  datatype State = State(
    column: Column,
    services: map<Id, Service>,
    providers: map<Id, Provider>, // by the user they belong to
    bookings: map<Id, Booking>,
    timeline: seq<Entry>,
    saved: seq<Saved>,
    paid: seq<Id>)

  /** What a provider can do to a booking assigned to them. */
  datatype Move = Accept | Reject(reason: string) | Start | Complete(notes: Option<string>) | MarkEnRoute | MarkArrived

  datatype Command =
    | Create(customer: Id, service: Id, booking: Id, scheduledAt: Instant, rest: map<Field, string>)
    | Update(customer: Id, booking: Id, changes: map<Field, string>)
    | Cancel(actor: Actor, booking: Id, reason: string)
    | Handle(user: Id, booking: Id, move: Move)

  datatype Call = Call(command: Command, now: Instant, saves: nat)

  datatype Failure =
    | ServiceUnavailable | ProviderNotFound | BookingNotFound | NotYourBooking | WrongStatus | DuplicateKey

  datatype Write =
    | Insert(row: Booking)
    | SaveStatus(row: Booking)
    | SaveFields(row: Booking)
    | AppendEntry(entry: Entry)
    | Credit(user: Id, provider: Provider, booking: Id)

  /** What a caller is told. `Interrupted` is a save that failed half way. */
  datatype Outcome = Done | Refunded(amount: real, percentage: int) | Refused(failure: Failure) | Interrupted

  // ---- the transition table -------------------------------------------------------------

  function Target(m: Move): Status {
    match m
    case Accept => Confirmed
    case Reject(_) => Rejected
    case Start => InProgress
    case Complete(_) => Completed
    case MarkEnRoute => ProviderEnRoute
    case MarkArrived => ProviderArrived
  }

  /** `MarkEnRoute` and `MarkArrived` look at no prior status. */
  predicate Admits(m: Move, s: Status) {
    match m
    case Accept => s == Pending
    case Reject(_) => s == Pending
    case Start => s == ProviderArrived
    case Complete(_) => s == InProgress
    case MarkEnRoute => true
    case MarkArrived => true
  }

  predicate Cancellable(s: Status) {
    s != Completed && s != Cancelled
  }

  function Moved(b: Booking, m: Move, now: Instant): Booking {
    var b' := b.(status := Target(m));
    match m
    case Accept => b'.(confirmedAt := Some(now))
    case Reject(reason) => b'.(rejectionReason := Some(reason))
    case Start => b'.(startedAt := Some(now))
    case Complete(notes) => b'.(completedAt := Some(now), completionNotes := notes)
    case MarkEnRoute => b'
    case MarkArrived => b'.(arrivedAt := Some(now))
  }

  function Author(c: Command): Id {
    match c
    case Create(customer, _, _, _, _) => customer
    case Update(customer, _, _) => customer
    case Cancel(actor, _, _) => actor.id
    case Handle(user, _, _) => user
  }

  function Note(c: Command): string {
    match c
    case Create(_, _, _, _, _) => "Booking created"
    case Update(_, _, _) => ""
    case Cancel(_, _, reason) => "Cancelled: " + reason
    case Handle(_, _, move) => MoveNote(move)
  }

  function EntryFor(c: Command, s: Status): Entry {
    Entry(c.booking, s, Author(c), Note(c))
  }

  function MoveNote(m: Move): string {
    match m
    case Accept => "Booking accepted by provider"
    case Reject(reason) => "Rejected: " + reason
    case Start => "Service started"
    case Complete(_) => "Service completed"
    case MarkEnRoute => "Provider is on the way"
    case MarkArrived => "Provider arrived at location"
  }

  // ---- money ----------------------------------------------------------------------------

  const VAT: real := 0.15

  function RefundPercentage(scheduledAt: Instant, now: Instant): int {
    var hoursUntilBooking := (scheduledAt - now) as real / 3600000.0;
    if hoursUntilBooking >= 4.0 then 100 else if hoursUntilBooking >= 2.0 then 50 else 0
  }

  function Refund(b: Booking, now: Instant): real {
    b.totalAmount * RefundPercentage(b.scheduledAt, now) as real / 100.0
  }

  function Commission(total: real, rate: real): real {
    total * (rate / 100.0)
  }

  function Share(total: real, rate: real): real {
    total - Commission(total, rate)
  }

  /** The commission is the rate's percentage of the price, and the share what it leaves. */
  lemma ShareIsTheRest(total: real, rate: real)
    ensures Share(total, rate) == total * (100.0 - rate) / 100.0 && 100.0 * Share(total, rate) == total * (100.0 - rate)
    ensures Commission(total, rate) == total * rate / 100.0
  {
    assert total * (rate / 100.0) == total * rate / 100.0;
    assert total * (100.0 - rate) == total * 100.0 - total * rate;
  }

  // ---- plans ----------------------------------------------------------------------------

  function NewBooking(customer: Id, s: Service, service: Id, booking: Id, scheduledAt: Instant,
                      rest: map<Field, string>): Booking
  {
    Booking(booking, customer, s.providerId, Pending, scheduledAt,
            s.basePrice, s.basePrice * VAT, s.basePrice + s.basePrice * VAT,
            0.0, None, None, None, None, None, None, None, None, None, None,
            rest[ServiceId := service])
  }

  function Cancelling(b: Booking, actor: Actor, reason: string, now: Instant): Booking {
    b.(status := Cancelled,
       cancellationReason := Some(reason),
       cancelledAt := Some(now),
       cancelledBy := Some(actor.id),
       refundAmount := Refund(b, now),
       refundStatus := Some(if RefundPercentage(b.scheduledAt, now) > 0 then RefundPending else NotApplicable))
  }

  function Credited(p: Provider, b: Booking): Provider {
    p.(pendingEarnings := p.pendingEarnings + Share(b.totalAmount, p.commissionRate),
       totalBookings := p.totalBookings + 1,
       completedBookings := p.completedBookings + 1)
  }

  function Plan(st: State, c: Command, now: Instant): Result<seq<Write>, Failure> {
    match c
    case Create(customer, service, booking, scheduledAt, rest) =>
      if service !in st.services || !st.services[service].isActive then Err(ServiceUnavailable)
      else if booking in st.bookings then Err(DuplicateKey)
      else
        var b := NewBooking(customer, st.services[service], service, booking, scheduledAt, rest);
        Ok([Insert(b), AppendEntry(EntryFor(c, Pending))])
    case Update(customer, booking, changes) =>
      if booking !in st.bookings || st.bookings[booking].customerId != customer then Err(BookingNotFound)
      else if st.bookings[booking].status != Pending then Err(WrongStatus)
      else
        var b := st.bookings[booking];
        Ok([SaveFields(b.(fields := b.fields + changes))])
    case Cancel(actor, booking, reason) =>
      if booking !in st.bookings then Err(BookingNotFound)
      else if actor.role == Customer && st.bookings[booking].customerId != actor.id then Err(NotYourBooking)
      else if !Cancellable(st.bookings[booking].status) then Err(WrongStatus)
      else
        var b := Cancelling(st.bookings[booking], actor, reason, now);
        Ok([SaveStatus(b), AppendEntry(EntryFor(c, Cancelled))])
    case Handle(user, booking, move) =>
      if user !in st.providers then Err(ProviderNotFound)
      else if booking !in st.bookings || st.bookings[booking].providerId != st.providers[user].id then
        Err(BookingNotFound)
      else if !Admits(move, st.bookings[booking].status) then Err(WrongStatus)
      else
        var b := Moved(st.bookings[booking], move, now);
        Ok([SaveStatus(b), AppendEntry(EntryFor(c, Target(move)))]
           + if move.Complete? then [Credit(user, Credited(st.providers[user], b), booking)] else [])
  }

  // ---- storage --------------------------------------------------------------------------

  /** The row as its decimal columns hold it. */
  function Stored(c: Column, b: Booking): Booking {
    b.(servicePrice := Keep(c, b.servicePrice),
       vatAmount := Keep(c, b.vatAmount),
       totalAmount := Keep(c, b.totalAmount),
       refundAmount := Keep(c, b.refundAmount))
  }

  function Perform(st: State, w: Write, now: Instant): State {
    match w
    case Insert(b) =>
      var row := Stored(st.column, b);
      st.(bookings := st.bookings[b.id := row], saved := st.saved + [Saved(row, now)])
    case SaveStatus(b) =>
      var row := Stored(st.column, b);
      st.(bookings := st.bookings[b.id := row], saved := st.saved + [Saved(row, now)])
    case SaveFields(b) => st.(bookings := st.bookings[b.id := Stored(st.column, b)])
    case AppendEntry(e) => st.(timeline := st.timeline + [e])
    case Credit(user, p, booking) =>
      st.(providers := st.providers[user := p.(pendingEarnings := Keep(st.column, p.pendingEarnings))],
          paid := st.paid + [booking])
  }

  function PerformAll(st: State, ws: seq<Write>, now: Instant): State
    decreases |ws|
  {
    if ws == [] then st else PerformAll(Perform(st, ws[0], now), ws[1..], now)
  }

  function Accepted(ws: seq<Write>, saves: nat): seq<Write> {
    if saves < |ws| then ws[..saves] else ws
  }

  function Step(st: State, c: Call): State {
    match Plan(st, c.command, c.now)
    case Err(_) => st
    case Ok(ws) => PerformAll(st, Accepted(ws, c.saves), c.now)
  }

  function Answer(st: State, c: Call): Outcome {
    match Plan(st, c.command, c.now)
    case Err(f) => Refused(f)
    case Ok(ws) =>
      if c.saves < |ws| then Interrupted
      else if c.command.Cancel? && c.command.booking in st.bookings then
        var b := st.bookings[c.command.booking];
        Refunded(Refund(b, c.now), RefundPercentage(b.scheduledAt, c.now))
      else Done
  }

  function Run(st: State, calls: seq<Call>): State
    decreases |calls|
  {
    if calls == [] then st else Run(Step(st, calls[0]), calls[1..])
  }

  /** The longest plan has three saves. */
  predicate Whole(c: Call) {
    c.saves >= 3
  }

  predicate AllWhole(calls: seq<Call>) {
    forall i :: 0 <= i < |calls| ==> Whole(calls[i])
  }

  predicate Ordered(calls: seq<Call>) {
    forall i, j :: 0 <= i < j < |calls| ==> calls[i].now <= calls[j].now
  }

  // ---- well-formed storage --------------------------------------------------------------

  /** Rows sit under their own key, hold what their columns can hold, and no two users share a
      provider row. */
  ghost predicate Wf(st: State) {
    && (forall id :: id in st.bookings ==> st.bookings[id].id == id)
    && (forall id :: id in st.bookings ==> Stored(st.column, st.bookings[id]) == st.bookings[id])
    && (forall u, v :: u in st.providers && v in st.providers && u != v ==> st.providers[u].id != st.providers[v].id)
  }

  /** Nothing has been booked yet. */
  predicate Fresh(st: State) {
    st.bookings == map[] && st.timeline == [] && st.saved == [] && st.paid == []
  }

  /** What a call did, in the shape every later proof uses: nothing, a change of fields, or a
      freshly assigned status followed by as many of its timeline entry and its credit as the
      storage accepted. */
  ghost predicate Effect(st: State, st': State, c: Call) {
    || st' == st
    || FieldsChanged(st, st', c)
    || StatusAssigned(st, st', c)
  }

  ghost predicate FieldsChanged(st: State, st': State, c: Call) {
    && var id := c.command.booking;
    && c.command.Update?
    && id in st.bookings
    && st.bookings[id].status == Pending
    && st' == st.(bookings := st.bookings[id := st.bookings[id].(fields := st.bookings[id].fields + c.command.changes)])
  }

  ghost predicate StatusAssigned(st: State, st': State, c: Call) {
    && var id := c.command.booking;
    && !c.command.Update?
    && c.saves >= 1
    && id in st'.bookings
    && var row := st'.bookings[id];
    && row.id == id
    && LegalRow(st, row, c)
    && st'.column == st.column
    && st'.services == st.services
    && st'.bookings == st.bookings[id := row]
    && st'.saved == st.saved + [Saved(row, c.now)]
    && st'.timeline == st.timeline + (if c.saves >= 2 then [EntryFor(c.command, row.status)] else [])
    && (if c.saves >= 3 && row.status == Completed
        then CreditGiven(st, st', c)
        else st'.providers == st.providers && st'.paid == st.paid)
  }

  /** The status changes the handlers make. */
  predicate Edge(a: Status, b: Status) {
    match b
    case Confirmed => a == Pending
    case Rejected => a == Pending
    case ProviderEnRoute => true
    case ProviderArrived => true
    case InProgress => a == ProviderArrived
    case Completed => a == InProgress
    case Cancelled => Cancellable(a)
    case _ => false
  }

  predicate SameTerms(a: Booking, b: Booking) {
    && a.id == b.id
    && a.customerId == b.customerId
    && a.providerId == b.providerId
    && a.totalAmount == b.totalAmount
    && a.scheduledAt == b.scheduledAt
  }

  /** A handler may turn `a` into `b` at `now`: the terms of the booking are the same, the status
      moved along an edge, and only the instant or refund of that status was written. */
  predicate Evolves(c: Column, a: Booking, b: Booking, now: Instant) {
    && Edge(a.status, b.status)
    && SameTerms(a, b)
    && b.arrivedAt == (if b.status == ProviderArrived then Some(now) else a.arrivedAt)
    && b.startedAt == (if b.status == InProgress then Some(now) else a.startedAt)
    && b.completedAt == (if b.status == Completed then Some(now) else a.completedAt)
    && b.refundAmount == (if b.status == Cancelled then Keep(c, Refund(a, now)) else a.refundAmount)
    && b.refundStatus == (if b.status != Cancelled then a.refundStatus
                          else if a.scheduledAt - now >= 7200000 then Some(RefundPending)
                          else Some(NotApplicable))
  }

  /** A booking as it is first saved. */
  predicate Opens(b: Booking) {
    && b.status == Pending
    && b.refundAmount == 0.0
    && b.arrivedAt == None && b.startedAt == None && b.completedAt == None
  }

  /** The row a status-assigning call leaves behind. */
  ghost predicate LegalRow(st: State, row: Booking, c: Call) {
    match c.command
    case Create(customer, service, booking, scheduledAt, rest) =>
      && booking !in st.bookings
      && service in st.services
      && Opens(row)
      && row.customerId == customer
      && row.providerId == st.services[service].providerId
      && row.totalAmount == Keep(st.column, st.services[service].basePrice + st.services[service].basePrice * VAT)
    case Update(_, _, _) => false
    case Cancel(actor, booking, reason) =>
      && booking in st.bookings
      && row.status == Cancelled
      && Evolves(st.column, st.bookings[booking], row, c.now)
    case Handle(user, booking, move) =>
      && user in st.providers
      && booking in st.bookings
      && st.bookings[booking].providerId == st.providers[user].id
      && row.status == Target(move)
      && Evolves(st.column, st.bookings[booking], row, c.now)
  }

  lemma RowKeepsTerms(st: State, row: Booking, c: Call)
    requires LegalRow(st, row, c) && c.command.booking in st.bookings
    ensures SameTerms(st.bookings[c.command.booking], row)
  {
  }

  ghost predicate CreditGiven(st: State, st': State, c: Call) {
    && c.command.Handle?
    && var u := c.command.user;
    && u in st.providers
    && c.command.booking in st.bookings
    && var p := st.providers[u];
    && p.id == st.bookings[c.command.booking].providerId
    && st'.paid == st.paid + [c.command.booking]
    && st'.providers == st.providers[u := Provider(p.id, p.commissionRate,
         Keep(st.column, p.pendingEarnings + Share(st.bookings[c.command.booking].totalAmount, p.commissionRate)),
         p.totalBookings + 1, p.completedBookings + 1)]
  }

  lemma PerformUnfolds(st: State, ws: seq<Write>, now: Instant)
    ensures ws == [] ==> PerformAll(st, ws, now) == st
    ensures |ws| == 1 ==> PerformAll(st, ws, now) == Perform(st, ws[0], now)
    ensures |ws| == 2 ==> PerformAll(st, ws, now) == Perform(Perform(st, ws[0], now), ws[1], now)
    ensures |ws| == 3 ==> PerformAll(st, ws, now) == Perform(Perform(Perform(st, ws[0], now), ws[1], now), ws[2], now)
  {
    if ws != [] {
      var st1 := Perform(st, ws[0], now);
      var ws1 := ws[1..];
      assert PerformAll(st, ws, now) == PerformAll(st1, ws1, now);
      if ws1 != [] {
        var st2 := Perform(st1, ws1[0], now);
        var ws2 := ws1[1..];
        assert PerformAll(st1, ws1, now) == PerformAll(st2, ws2, now);
        if ws2 != [] {
          assert PerformAll(st2, ws2, now) == PerformAll(Perform(st2, ws2[0], now), ws2[1..], now);
        }
      }
    }
  }

  /** A move saves a legal successor of the stored row, whose amounts its columns already hold. */
  lemma MovedEvolves(c: Column, b: Booking, m: Move, now: Instant)
    requires Stored(c, b) == b && Admits(m, b.status)
    ensures Stored(c, Moved(b, m, now)) == Moved(b, m, now)
    ensures Moved(b, m, now).status == Target(m)
    ensures Evolves(c, b, Moved(b, m, now), now)
  {
    match m
    case Accept =>
    case Reject(_) =>
    case Start =>
    case Complete(_) =>
    case MarkEnRoute =>
    case MarkArrived =>
  }

  lemma CancellingEvolves(c: Column, b: Booking, actor: Actor, reason: string, now: Instant)
    requires Stored(c, b) == b && Cancellable(b.status)
    ensures var row := Stored(c, Cancelling(b, actor, reason, now));
            row.status == Cancelled && Evolves(c, b, row, now) && Stored(c, row) == row
  {
    KeepIsIdempotent(c, Refund(b, now));
  }

  lemma NewBookingOpens(c: Column, customer: Id, s: Service, service: Id, booking: Id, scheduledAt: Instant, rest: map<Field, string>)
    ensures var row := Stored(c, NewBooking(customer, s, service, booking, scheduledAt, rest));
            && Opens(row) && row.id == booking && row.customerId == customer && Stored(c, row) == row
            && row.providerId == s.providerId && row.totalAmount == Keep(c, s.basePrice + s.basePrice * VAT)
  {
    KeepIsIdempotent(c, s.basePrice);
    KeepIsIdempotent(c, s.basePrice * VAT);
    KeepIsIdempotent(c, s.basePrice + s.basePrice * VAT);
    assert Keep(c, 0.0) == 0.0;
  }

  /** What a handler that assigns a status leaves in each repository. */
  lemma StatusWrites(st: State, ws: seq<Write>, now: Instant)
    requires 1 <= |ws| <= 3 && (ws[0].SaveStatus? || ws[0].Insert?)
    requires |ws| >= 2 ==> ws[1].AppendEntry?
    requires |ws| == 3 ==> ws[2].Credit?
    ensures
      var row := Stored(st.column, ws[0].row);
      var st' := PerformAll(st, ws, now);
      && st'.column == st.column && st'.services == st.services
      && st'.bookings == st.bookings[ws[0].row.id := row]
      && st'.saved == st.saved + [Saved(row, now)]
      && st'.timeline == st.timeline + (if |ws| >= 2 then [ws[1].entry] else [])
      && (|ws| < 3 ==> st'.providers == st.providers && st'.paid == st.paid)
      && (|ws| == 3 ==>
          && st'.paid == st.paid + [ws[2].booking]
          && st'.providers == st.providers[ws[2].user :=
               ws[2].provider.(pendingEarnings := Keep(st.column, ws[2].provider.pendingEarnings))])
  {
    PerformUnfolds(st, ws, now);
  }

  /** Storage stays well-formed when one row is rewritten under its key and providers keep their
      ids. */
  lemma RowKeepsWf(st: State, st': State, id: Id)
    requires Wf(st) && st'.column == st.column
    requires id in st'.bookings && st'.bookings == st.bookings[id := st'.bookings[id]]
    requires st'.bookings[id].id == id && Stored(st.column, st'.bookings[id]) == st'.bookings[id]
    requires st'.providers.Keys == st.providers.Keys
    requires forall u :: u in st.providers ==> st'.providers[u].id == st.providers[u].id
    ensures Wf(st')
  {
  }

  /** Every call has one of the three effects, and storage stays well-formed. */
  lemma StepHasEffect(st: State, c: Call)
    requires Wf(st)
    ensures Effect(st, Step(st, c), c)
    ensures Wf(Step(st, c))
  {
    match Plan(st, c.command, c.now)
    case Err(_) =>
    case Ok(ws) =>
      if c.saves == 0 {
        assert Accepted(ws, 0) == [];
      } else if c.command.Update? {
        UpdateHasEffect(st, c);
      } else {
        SavedCallAssigns(st, c);
      }
  }

  lemma UpdateHasEffect(st: State, c: Call)
    requires Wf(st) && c.command.Update? && Plan(st, c.command, c.now).Ok? && c.saves >= 1
    ensures FieldsChanged(st, Step(st, c), c)
    ensures Wf(Step(st, c))
  {
    var ws := Plan(st, c.command, c.now).value;
    PerformUnfolds(st, ws, c.now);
    var b := st.bookings[c.command.booking];
    assert Stored(st.column, b.(fields := b.fields + c.command.changes)) == b.(fields := b.fields + c.command.changes);
    RowKeepsWf(st, Step(st, c), c.command.booking);
  }

  lemma CreateAssigns(st: State, c: Call)
    requires Wf(st) && c.saves >= 1 && c.command.Create? && Plan(st, c.command, c.now).Ok?
    ensures StatusAssigned(st, Step(st, c), c) && Wf(Step(st, c))
  {
    var Create(customer, service, booking, scheduledAt, rest) := c.command;
    NewBookingOpens(st.column, customer, st.services[service], service, booking, scheduledAt, rest);
    TwoSavesAssign(st, c, Accepted(Plan(st, c.command, c.now).value, c.saves), Step(st, c));
  }

  lemma CancelAssigns(st: State, c: Call)
    requires Wf(st) && c.saves >= 1 && c.command.Cancel? && Plan(st, c.command, c.now).Ok?
    ensures StatusAssigned(st, Step(st, c), c) && Wf(Step(st, c))
  {
    var Cancel(actor, booking, reason) := c.command;
    CancellingEvolves(st.column, st.bookings[booking], actor, reason, c.now);
    TwoSavesAssign(st, c, Accepted(Plan(st, c.command, c.now).value, c.saves), Step(st, c));
  }

  lemma MoveAssigns(st: State, c: Call)
    requires Wf(st) && c.saves >= 1 && c.command.Handle? && Plan(st, c.command, c.now).Ok?
    ensures StatusAssigned(st, Step(st, c), c) && Wf(Step(st, c))
  {
    if c.command.move.Complete? && c.saves >= 3 {
      WholeCompletionAssigns(st, c);
    } else {
      MovedEvolves(st.column, st.bookings[c.command.booking], c.command.move, c.now);
      TwoSavesAssign(st, c, Accepted(Plan(st, c.command, c.now).value, c.saves), Step(st, c));
    }
  }

  lemma WholeCompletionAssigns(st: State, c: Call)
    requires Wf(st) && c.saves >= 3 && c.command.Handle? && c.command.move.Complete? && Plan(st, c.command, c.now).Ok?
    ensures StatusAssigned(st, Step(st, c), c) && Wf(Step(st, c))
  {
    MovedEvolves(st.column, st.bookings[c.command.booking], c.command.move, c.now);
    CompletionAssigns(st, c, Plan(st, c.command, c.now).value, Step(st, c));
  }

  /** A request that is not refused and gets its first save through assigns its status. */
  lemma SavedCallAssigns(st: State, c: Call)
    requires Wf(st) && c.saves >= 1 && !c.command.Update? && Plan(st, c.command, c.now).Ok?
    ensures StatusAssigned(st, Step(st, c), c)
    ensures Wf(Step(st, c))
  {
    match c.command
    case Create(_, _, _, _, _) => CreateAssigns(st, c);
    case Cancel(_, _, _) => CancelAssigns(st, c);
    case Handle(_, _, _) => MoveAssigns(st, c);
  }

  lemma TwoSavesAssign(st: State, c: Call, ws: seq<Write>, st': State)
    requires Wf(st) && c.saves >= 1 && !c.command.Update?
    requires 1 <= |ws| <= 2 && (ws[0].SaveStatus? || ws[0].Insert?)
    requires |ws| == (if c.saves >= 2 then 2 else 1)
    requires st' == PerformAll(st, ws, c.now)
    requires var row := Stored(st.column, ws[0].row);
             && row.id == c.command.booking && (row.status == Completed ==> c.saves < 3)
             && LegalRow(st, row, c) && Stored(st.column, row) == row
             && (|ws| == 2 ==> ws[1] == AppendEntry(EntryFor(c.command, row.status)))
    ensures StatusAssigned(st, st', c)
    ensures Wf(st')
  {
    StatusWrites(st, ws, c.now);
    RowKeepsWf(st, st', c.command.booking);
  }

  lemma CompletionAssigns(st: State, c: Call, ws: seq<Write>, st': State)
    requires Wf(st) && c.saves >= 3 && c.command.Handle? && c.command.move.Complete?
    requires c.command.user in st.providers && c.command.booking in st.bookings
    requires st.bookings[c.command.booking].providerId == st.providers[c.command.user].id
    requires |ws| == 3 && ws[0].SaveStatus? && st' == PerformAll(st, ws, c.now)
    requires var row := ws[0].row;
             && row.id == c.command.booking && row.status == Completed
             && row.totalAmount == st.bookings[c.command.booking].totalAmount
             && LegalRow(st, row, c) && Stored(st.column, row) == row
             && ws[1] == AppendEntry(EntryFor(c.command, Completed))
             && ws[2] == Credit(c.command.user, Credited(st.providers[c.command.user], row), row.id)
    ensures StatusAssigned(st, st', c)
    ensures Wf(st')
  {
    StatusWrites(st, ws, c.now);
    CreditIsGiven(st, st', c, ws[0].row);
    CreditKeepsWf(st, st', c);
  }

  /** A row saved under its key and a credit leave storage well-formed. */
  lemma CreditKeepsWf(st: State, st': State, c: Call)
    requires Wf(st) && st'.column == st.column && CreditGiven(st, st', c)
    requires var id := c.command.booking;
             && id in st'.bookings && st'.bookings == st.bookings[id := st'.bookings[id]]
             && st'.bookings[id].id == id && Stored(st.column, st'.bookings[id]) == st'.bookings[id]
    ensures Wf(st')
  {
    RowKeepsWf(st, st', c.command.booking);
  }

  lemma CreditIsGiven(st: State, st': State, c: Call, row: Booking)
    requires c.command.Handle? && c.command.user in st.providers && c.command.booking in st.bookings
    requires st.bookings[c.command.booking].providerId == st.providers[c.command.user].id
    requires row.totalAmount == st.bookings[c.command.booking].totalAmount
    requires st'.paid == st.paid + [c.command.booking]
    requires var p := Credited(st.providers[c.command.user], row);
             st'.providers == st.providers[c.command.user := p.(pendingEarnings := Keep(st.column, p.pendingEarnings))]
    ensures CreditGiven(st, st', c)
  {
  }
}
