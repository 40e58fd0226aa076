/** What the history of one booking looks like after any run of requests.

    Everything is proved about `History`, the rows a booking was saved with each time a handler
    assigned its status. The timeline of the booking is compared with it afterwards: a request
    that stops half way leaves a saved status without its timeline entry. */
module BookingHistory {
  import opened Basics
  import opened Options
  import opened Money
  import opened Sequences
  import opened BookingModel

  function SavedFor(id: Id): Saved -> bool {
    (s: Saved) => s.row.id == id
  }

  function EntryOn(id: Id): Entry -> bool {
    (e: Entry) => e.bookingId == id
  }

  function History(st: State, id: Id): seq<Saved> {
    Filter(st.saved, SavedFor(id))
  }

  function Statuses(h: seq<Saved>): seq<Status> {
    seq(|h|, i requires 0 <= i < |h| => h[i].row.status)
  }

  /** The timeline of a booking, as `getTimeline` lists it. */
  function Timeline(st: State, id: Id): seq<Status> {
    var es := Filter(st.timeline, EntryOn(id));
    seq(|es|, i requires 0 <= i < |es| => es[i].status)
  }

  // ---- one booking, one step ------------------------------------------------------------

  /** `n` can be the row saved right after `p`. */
  predicate Follows(c: Column, p: Saved, n: Saved) {
    p.at <= n.at && Evolves(c, p.row, n.row, n.at)
  }

  predicate Chain(c: Column, h: seq<Saved>) {
    forall i :: 0 < i < |h| ==> Follows(c, h[i - 1], h[i])
  }

  /** What the run maintains about booking `id`: its history is a chain that starts with an
      opening row, and the stored row is the last row of the history but for client fields. */
  predicate HistoryOk(st: State, id: Id, clock: Instant) {
    var h := History(st, id);
    if id !in st.bookings then h == []
    else
      && h != []
      && Opens(h[0].row)
      && Chain(st.column, h)
      && h[|h| - 1].at <= clock
      && h[|h| - 1].row == st.bookings[id].(fields := h[|h| - 1].row.fields)
  }

  /** A row the service may write either opens a history or follows the stored row. */
  lemma LegalRowFollows(st: State, row: Booking, c: Call, p: Saved)
    requires LegalRow(st, row, c)
    ensures c.command.booking !in st.bookings ==> Opens(row)
    ensures c.command.booking in st.bookings && p.at <= c.now
            && p.row == st.bookings[c.command.booking].(fields := p.row.fields)
            ==> Follows(st.column, p, Saved(row, c.now))
  {
  }

  /** What one more saved row does to the history of `id`. */
  lemma HistoryPush(st: State, st': State, id: Id, x: Saved)
    requires st'.saved == st.saved + [x]
    ensures History(st', id) == History(st, id) + (if x.row.id == id then [x] else [])
  {
    FilterPush(st.saved, x, SavedFor(id));
  }

  lemma AssignmentKeepsHistory(st: State, st': State, c: Call, clock: Instant)
    requires StatusAssigned(st, st', c) && HistoryOk(st, c.command.booking, clock) && clock <= c.now
    ensures HistoryOk(st', c.command.booking, c.now)
  {
    var id := c.command.booking;
    var (h, x) := (History(st, id), Saved(st'.bookings[id], c.now));
    HistoryPush(st, st', id, x);
    LegalRowFollows(st, x.row, c, if h == [] then x else h[|h| - 1]);
    assert History(st', id) == h + [x];
    if h != [] {
      assert Follows(st.column, h[|h| - 1], x);
      ChainPush(st.column, h, x);
    }
  }

  lemma ChainPush(c: Column, h: seq<Saved>, x: Saved)
    requires h != [] && Chain(c, h) && Follows(c, h[|h| - 1], x)
    ensures Chain(c, h + [x])
  {
  }

  lemma HistoryElsewhere(st: State, st': State, c: Call, id: Id, clock: Instant)
    requires Effect(st, st', c) && HistoryOk(st, id, clock) && clock <= c.now
    requires !StatusAssigned(st, st', c) || c.command.booking != id
    ensures HistoryOk(st', id, c.now)
  {
    if StatusAssigned(st, st', c) {
      HistoryPush(st, st', id, Saved(st'.bookings[c.command.booking], c.now));
    }
    assert History(st', id) == History(st, id);
  }

  lemma EffectKeepsHistory(st: State, st': State, c: Call, id: Id, clock: Instant)
    requires Effect(st, st', c) && HistoryOk(st, id, clock) && clock <= c.now
    ensures HistoryOk(st', id, c.now) && st'.column == st.column
  {
    if StatusAssigned(st, st', c) && c.command.booking == id {
      AssignmentKeepsHistory(st, st', c, clock);
    } else {
      HistoryElsewhere(st, st', c, id, clock);
    }
  }

  lemma {:induction false} RunKeepsHistory(st: State, calls: seq<Call>, id: Id, clock: Instant)
    requires Wf(st) && HistoryOk(st, id, clock) && Ordered(calls)
    requires calls != [] ==> clock <= calls[0].now
    ensures Wf(Run(st, calls)) && Run(st, calls).column == st.column
    ensures exists t :: HistoryOk(Run(st, calls), id, t)
    decreases |calls|
  {
    if calls != [] {
      StepHasEffect(st, calls[0]);
      EffectKeepsHistory(st, Step(st, calls[0]), calls[0], id, clock);
      RunKeepsHistory(Step(st, calls[0]), calls[1..], id, calls[0].now);
    }
  }

  /** From an empty database, every run with a non-decreasing clock saves each booking along a
      chain, wherever its requests were interrupted. */
  lemma HistoryOfRun(st: State, calls: seq<Call>, id: Id)
    requires Wf(st) && Fresh(st) && Ordered(calls)
    ensures exists t :: HistoryOk(Run(st, calls), id, t)
    ensures Run(st, calls).column == st.column
  {
    var clock := if calls == [] then 0 else calls[0].now;
    assert HistoryOk(st, id, clock);
    RunKeepsHistory(st, calls, id, clock);
  }

  // ---- the grammar of statuses ------------------------------------------------------------

  /** The promised shape of a list of statuses, position by position. */
  predicate Grammar(g: seq<Status>) {
    && (g != [] ==> g[0] == Pending)
    && forall i :: 0 <= i < |g| ==> GrammarAt(g, i)
  }

  predicate GrammarAt(g: seq<Status>, i: int)
    requires 0 <= i < |g|
  {
    match g[i]
    case Pending => i == 0
    case Confirmed => i == 1
    case Rejected => i == 1
    case ProviderEnRoute => i >= 1
    case ProviderArrived => i >= 1
    case InProgress => i >= 1 && g[i - 1] == ProviderArrived
    case Completed => i >= 2 && g[i - 1] == InProgress && g[i - 2] == ProviderArrived
    case Cancelled => i >= 1 && g[i - 1] != Completed && g[i - 1] != Cancelled
    case _ => false
  }

  predicate EdgePath(g: seq<Status>) {
    && (g != [] ==> g[0] == Pending)
    && forall i :: 0 < i < |g| ==> Edge(g[i - 1], g[i])
  }

  /** The grammar says exactly that consecutive statuses are joined by edges. */
  lemma GrammarIsEdgePath(g: seq<Status>)
    ensures Grammar(g) <==> EdgePath(g)
  {
    if Grammar(g) {
      forall i | 0 < i < |g| ensures Edge(g[i - 1], g[i]) {
        assert GrammarAt(g, i);
      }
    }
    if EdgePath(g) {
      forall i | 0 <= i < |g| ensures GrammarAt(g, i) {
        if i > 0 {
          assert Edge(g[i - 1], g[i]);
        }
        if i > 1 {
          assert Edge(g[i - 2], g[i - 1]);
        }
      }
    }
  }

  lemma StatusesPush(st: State, st': State, id: Id, x: Saved)
    requires st'.saved == st.saved + [x]
    ensures Statuses(History(st', id)) == Statuses(History(st, id)) + (if x.row.id == id then [x.row.status] else [])
  {
    FilterPush(st.saved, x, SavedFor(id));
  }

  /** The saved statuses of a booking follow edges, and the stored row has the last of them. */
  ghost predicate StatusesOk(st: State, id: Id) {
    var g := Statuses(History(st, id));
    && EdgePath(g)
    && (id in st.bookings <==> g != [])
    && (id in st.bookings ==> st.bookings[id].status == g[|g| - 1])
  }

  lemma EdgePathPush(g: seq<Status>, s: Status)
    requires EdgePath(g) && (if g == [] then s == Pending else Edge(g[|g| - 1], s))
    ensures EdgePath(g + [s])
  {
  }

  lemma AssignmentKeepsStatuses(st: State, st': State, c: Call)
    requires StatusAssigned(st, st', c) && StatusesOk(st, c.command.booking)
    ensures StatusesOk(st', c.command.booking)
  {
    var id := c.command.booking;
    StatusesPush(st, st', id, Saved(st'.bookings[id], c.now));
    LegalRowEdges(st, st'.bookings[id], c);
    EdgePathPush(Statuses(History(st, id)), st'.bookings[id].status);
  }

  lemma EffectKeepsStatuses(st: State, st': State, c: Call, id: Id)
    requires Effect(st, st', c) && StatusesOk(st, id)
    ensures StatusesOk(st', id)
  {
    if StatusAssigned(st, st', c) {
      if c.command.booking == id {
        AssignmentKeepsStatuses(st, st', c);
      } else {
        StatusesElsewhere(st, st', c, id);
      }
    }
  }

  lemma StatusesElsewhere(st: State, st': State, c: Call, id: Id)
    requires StatusAssigned(st, st', c) && c.command.booking != id && StatusesOk(st, id)
    ensures StatusesOk(st', id)
  {
    StatusesPush(st, st', id, Saved(st'.bookings[c.command.booking], c.now));
  }

  lemma LegalRowEdges(st: State, row: Booking, c: Call)
    requires LegalRow(st, row, c)
    ensures if c.command.booking in st.bookings then Edge(st.bookings[c.command.booking].status, row.status)
            else row.status == Pending
  {
  }

  lemma {:induction false} RunKeepsStatuses(st: State, calls: seq<Call>, id: Id)
    requires Wf(st) && StatusesOk(st, id)
    ensures StatusesOk(Run(st, calls), id)
    decreases |calls|
  {
    if calls != [] {
      StepHasEffect(st, calls[0]);
      EffectKeepsStatuses(st, Step(st, calls[0]), calls[0], id);
      RunKeepsStatuses(Step(st, calls[0]), calls[1..], id);
    }
  }

  /** Every run, on any clock, keeps the saved statuses of every booking inside the grammar, and
      the booking's status is the last of them. */
  lemma SavedStatusesFollowGrammar(st: State, calls: seq<Call>, id: Id)
    requires Wf(st) && Fresh(st)
    ensures
      var g := Statuses(History(Run(st, calls), id));
      && Grammar(g)
      && (id in Run(st, calls).bookings <==> g != [])
      && (g != [] ==> Run(st, calls).bookings[id].status == g[|g| - 1])
  {
    assert Statuses(History(st, id)) == [];
    RunKeepsStatuses(st, calls, id);
    GrammarIsEdgePath(Statuses(History(Run(st, calls), id)));
  }

  // ---- the timeline against the saved history ---------------------------------------------

  lemma TimelinePush(st: State, st': State, id: Id, e: Entry)
    requires st'.timeline == st.timeline + [e]
    ensures Timeline(st', id) == Timeline(st, id) + (if e.bookingId == id then [e.status] else [])
  {
    FilterPush(st.timeline, e, EntryOn(id));
  }

  /** One call appends the same status to the timeline and the saved history of a booking, or
      appends it to the saved history alone when it was interrupted, or appends nothing. */
  ghost predicate Appends(st: State, st': State, c: Call, id: Id, s: Status) {
    && Statuses(History(st', id)) == Statuses(History(st, id)) + [s]
    && (Timeline(st', id) == Timeline(st, id) + [s] || (Timeline(st', id) == Timeline(st, id) && !Whole(c)))
  }

  ghost predicate AppendsNothing(st: State, st': State, id: Id) {
    Statuses(History(st', id)) == Statuses(History(st, id)) && Timeline(st', id) == Timeline(st, id)
  }

  lemma EffectOnTimeline(st: State, st': State, c: Call, id: Id)
    requires Effect(st, st', c)
    ensures AppendsNothing(st, st', id) || exists s :: Appends(st, st', c, id, s)
  {
    if StatusAssigned(st, st', c) {
      var row := st'.bookings[c.command.booking];
      StatusesPush(st, st', id, Saved(row, c.now));
      if c.saves >= 2 {
        TimelinePush(st, st', id, EntryFor(c.command, row.status));
      } else {
        assert st'.timeline == st.timeline;
      }
      if c.command.booking == id {
        assert Appends(st, st', c, id, row.status);
      } else {
        assert AppendsNothing(st, st', id);
      }
    } else {
      assert AppendsNothing(st, st', id);
    }
  }

  /** Wherever requests are interrupted, a timeline only ever lacks entries: it is the saved
      history with some statuses left out. */
  lemma {:induction false} TimelineIsSubsequence(st: State, calls: seq<Call>, id: Id)
    requires Wf(st) && Subsequence(Timeline(st, id), Statuses(History(st, id)))
    ensures Subsequence(Timeline(Run(st, calls), id), Statuses(History(Run(st, calls), id)))
    decreases |calls|
  {
    if calls != [] {
      StepHasEffect(st, calls[0]);
      EffectKeepsSubsequence(st, Step(st, calls[0]), calls[0], id);
      TimelineIsSubsequence(Step(st, calls[0]), calls[1..], id);
    }
  }

  lemma EffectKeepsSubsequence(st: State, st': State, c: Call, id: Id)
    requires Effect(st, st', c) && Subsequence(Timeline(st, id), Statuses(History(st, id)))
    ensures Subsequence(Timeline(st', id), Statuses(History(st', id)))
  {
    EffectOnTimeline(st, st', c, id);
    if !AppendsNothing(st, st', id) {
      var s :| Appends(st, st', c, id, s);
      SubsequenceSkip(Timeline(st, id), Statuses(History(st, id)), s);
      SubsequenceTake(Timeline(st, id), Statuses(History(st, id)), s);
    }
  }

  /** When no request is interrupted, the timeline is the saved history. */
  lemma {:induction false} TimelineIsHistory(st: State, calls: seq<Call>, id: Id)
    requires Wf(st) && AllWhole(calls) && Timeline(st, id) == Statuses(History(st, id))
    ensures Timeline(Run(st, calls), id) == Statuses(History(Run(st, calls), id))
    decreases |calls|
  {
    if calls != [] {
      StepHasEffect(st, calls[0]);
      EffectOnTimeline(st, Step(st, calls[0]), calls[0], id);
      TimelineIsHistory(Step(st, calls[0]), calls[1..], id);
    }
  }

  /** The timeline grammar: without interruptions, every booking's timeline follows the grammar
      and ends with the booking's status. */
  lemma TimelineFollowsGrammar(st: State, calls: seq<Call>, id: Id)
    requires Wf(st) && Fresh(st) && AllWhole(calls)
    ensures
      var g := Timeline(Run(st, calls), id);
      && Grammar(g)
      && (id in Run(st, calls).bookings <==> g != [])
      && (g != [] ==> Run(st, calls).bookings[id].status == g[|g| - 1])
  {
    TimelineIsHistory(st, calls, id);
    SavedStatusesFollowGrammar(st, calls, id);
  }

  // ---- every sentence of the grammar happens ----------------------------------------------

  lemma {:induction false} RunConcat(st: State, a: seq<Call>, b: seq<Call>)
    ensures Run(st, a + b) == Run(Run(st, a), b)
    decreases |a|
  {
    if a == [] {
      assert a + b == b;
    } else {
      assert (a + b)[1..] == a[1..] + b;
      RunConcat(Step(st, a[0]), a[1..], b);
    }
  }

  /** The request that appends status `s`: by the provider behind `user`, or by an admin. */
  function Request(s: Status, user: Id, service: Id, booking: Id): Call {
    Call(match s
         case Confirmed => Handle(user, booking, Accept)
         case Rejected => Handle(user, booking, Reject(""))
         case ProviderEnRoute => Handle(user, booking, MarkEnRoute)
         case ProviderArrived => Handle(user, booking, MarkArrived)
         case InProgress => Handle(user, booking, Start)
         case Completed => Handle(user, booking, Complete(None))
         case Cancelled => Cancel(Actor("", Admin), booking, "")
         case _ => Create("", service, booking, 0, map[]),
         0, 3)
  }

  function Script(g: seq<Status>, user: Id, service: Id, booking: Id): seq<Call> {
    seq(|g|, i requires 0 <= i < |g| => Request(g[i], user, service, booking))
  }

  /** The requests of a script all come at one instant and are not interrupted. */
  predicate Smooth(calls: seq<Call>) {
    forall i :: 0 <= i < |calls| ==> calls[i].now == 0 && Whole(calls[i])
  }

  lemma SmoothRuns(calls: seq<Call>)
    requires Smooth(calls)
    ensures Ordered(calls) && AllWhole(calls)
  {
  }

  /** Can this service be booked and its bookings be handled by `user`? */
  predicate Staffed(st: State, user: Id, service: Id) {
    && user in st.providers
    && service in st.services && st.services[service].isActive
    && st.services[service].providerId == st.providers[user].id
  }

  /** `fin` shows exactly the statuses `g` for this booking and is ready for the next one. */
  ghost predicate Shows(fin: State, g: seq<Status>, user: Id, service: Id, booking: Id) {
    && Wf(fin) && Staffed(fin, user, service)
    && Timeline(fin, booking) == g
    && (g == [] <==> booking !in fin.bookings)
    && (g != [] ==> fin.bookings[booking].status == g[|g| - 1]
                    && fin.bookings[booking].providerId == fin.providers[user].id)
  }

  /** The grammar allows nothing that cannot happen: for every list of statuses in it there is a
      run, without interruptions and on a non-decreasing clock, whose timeline is that list. */
  lemma {:induction false} GrammarIsRealised(st: State, g: seq<Status>, user: Id, service: Id, booking: Id)
    requires Wf(st) && Fresh(st) && Staffed(st, user, service) && Grammar(g)
    ensures Shows(Run(st, Script(g, user, service, booking)), g, user, service, booking)
    ensures Timeline(Run(st, Script(g, user, service, booking)), booking) == g
    ensures Ordered(Script(g, user, service, booking)) && AllWhole(Script(g, user, service, booking))
    decreases |g|
  {
    SmoothRuns(Script(g, user, service, booking));
    if g == [] {
      assert Script(g, user, service, booking) == [];
    } else {
      var g0 := g[..|g| - 1];
      PrefixInGrammar(g);
      GrammarIsRealised(st, g0, user, service, booking);
      ScriptPush(st, g, user, service, booking);
      LastRequestShows(Run(st, Script(g0, user, service, booking)), g, user, service, booking);
    }
  }

  lemma ScriptPush(st: State, g: seq<Status>, user: Id, service: Id, booking: Id)
    requires g != []
    ensures var (script0, last) := (Script(g[..|g| - 1], user, service, booking), Request(g[|g| - 1], user, service, booking));
            Run(st, Script(g, user, service, booking)) == Step(Run(st, script0), last)
  {
    var (script0, last) := (Script(g[..|g| - 1], user, service, booking), Request(g[|g| - 1], user, service, booking));
    assert Script(g, user, service, booking) == script0 + [last];
    RunPush(st, script0, last);
  }

  lemma PrefixInGrammar(g: seq<Status>)
    requires g != [] && Grammar(g)
    ensures Grammar(g[..|g| - 1])
  {
    var g0 := g[..|g| - 1];
    forall i | 0 <= i < |g0| ensures GrammarAt(g0, i) {
      assert GrammarAt(g, i);
    }
  }

  lemma RunPush(st: State, calls: seq<Call>, c: Call)
    ensures Run(st, calls + [c]) == Step(Run(st, calls), c)
  {
    RunConcat(st, calls, [c]);
    assert Run(Run(st, calls), [c]) == Run(Step(Run(st, calls), c), [c][1..]);
  }

  lemma LastRequestShows(mid: State, g: seq<Status>, user: Id, service: Id, booking: Id)
    requires g != [] && Grammar(g)
    requires Shows(mid, g[..|g| - 1], user, service, booking)
    ensures Shows(Step(mid, Request(g[|g| - 1], user, service, booking)), g, user, service, booking)
  {
    var s := g[|g| - 1];
    assert GrammarAt(g, |g| - 1);
    RequestIsPlanned(mid, s, user, service, booking);
    PerformedShows(mid, Step(mid, Request(s, user, service, booking)), g, user, service, booking);
  }

  lemma PerformedShows(mid: State, fin: State, g: seq<Status>, user: Id, service: Id, booking: Id)
    requires g != [] && Shows(mid, g[..|g| - 1], user, service, booking)
    requires Performed(mid, fin, g[|g| - 1], user, service, booking)
    ensures Shows(fin, g, user, service, booking)
  {
    var s := g[|g| - 1];
    TimelinePush(mid, fin, booking, fin.timeline[|mid.timeline|]);
    assert g == g[..|g| - 1] + [s];
  }

  /** From `mid` to `fin` the booking reached `s`, which was entered into the timeline. */
  ghost predicate Performed(mid: State, fin: State, s: Status, user: Id, service: Id, booking: Id) {
    && Wf(fin) && Staffed(fin, user, service)
    && |fin.timeline| == |mid.timeline| + 1
    && var e := fin.timeline[|mid.timeline|];
    && fin.timeline == mid.timeline + [e]
    && e.bookingId == booking && e.status == s
    && booking in fin.bookings && fin.bookings[booking].status == s
    && fin.bookings[booking].providerId == fin.providers[user].id
  }

  /** The request for `s` goes through whenever the booking is at a status with an edge to `s`,
      or does not exist yet and `s` is `Pending`. */
  lemma RequestIsPlanned(mid: State, s: Status, user: Id, service: Id, booking: Id)
    requires Wf(mid) && Staffed(mid, user, service)
    requires if s == Pending then booking !in mid.bookings
             else booking in mid.bookings && Edge(mid.bookings[booking].status, s)
    requires booking in mid.bookings ==> mid.bookings[booking].providerId == mid.providers[user].id
    ensures Performed(mid, Step(mid, Request(s, user, service, booking)), s, user, service, booking)
  {
    var call := Request(s, user, service, booking);
    RequestIsAdmitted(mid, s, user, service, booking);
    SavedCallAssigns(mid, call);
    AssignmentPerforms(mid, Step(mid, call), call, s, user, service, booking);
  }

  lemma RequestIsAdmitted(mid: State, s: Status, user: Id, service: Id, booking: Id)
    requires Staffed(mid, user, service)
    requires if s == Pending then booking !in mid.bookings
             else booking in mid.bookings && Edge(mid.bookings[booking].status, s)
    requires booking in mid.bookings ==> mid.bookings[booking].providerId == mid.providers[user].id
    ensures Plan(mid, Request(s, user, service, booking).command, 0).Ok?
  {
  }

  lemma AssignmentPerforms(mid: State, fin: State, c: Call, s: Status, user: Id, service: Id, booking: Id)
    requires c == Request(s, user, service, booking)
    requires if s == Pending then booking !in mid.bookings
             else booking in mid.bookings && Edge(mid.bookings[booking].status, s)
    requires Staffed(mid, user, service) && StatusAssigned(mid, fin, c) && Wf(fin)
    requires booking in mid.bookings ==> mid.bookings[booking].providerId == mid.providers[user].id
    ensures Performed(mid, fin, s, user, service, booking)
  {
    RequestedRow(mid, fin.bookings[booking], c, s, user, service, booking);
    assert fin.timeline[|mid.timeline|] == EntryFor(c.command, s);
  }

  lemma RequestedRow(mid: State, row: Booking, c: Call, s: Status, user: Id, service: Id, booking: Id)
    requires c == Request(s, user, service, booking) && LegalRow(mid, row, c)
    requires if s == Pending then booking !in mid.bookings
             else booking in mid.bookings && Edge(mid.bookings[booking].status, s)
    requires Staffed(mid, user, service)
    requires booking in mid.bookings ==> mid.bookings[booking].providerId == mid.providers[user].id
    ensures row.status == s && row.providerId == mid.providers[user].id
  {
    RequestAims(s, user, service, booking);
    if s != Pending {
      RowKeepsTerms(mid, row, c);
    }
  }

  /** The request for a status that has an edge to it assigns that status. */
  lemma RequestAims(s: Status, user: Id, service: Id, booking: Id)
    ensures var c := Request(s, user, service, booking).command;
            && c.booking == booking
            && (s == Pending ==> c.Create?)
            && (s == Cancelled ==> c.Cancel?)
            && (s != Pending && s != Cancelled && (exists a :: Edge(a, s)) ==> c.Handle? && Target(c.move) == s)
  {
  }

  // ---- instants ---------------------------------------------------------------------------

  /** A booking in progress arrived before it started, and a completed one also started before
      it completed, in every run with a non-decreasing clock. */
  lemma InstantsAreOrdered(st: State, calls: seq<Call>, id: Id)
    requires Wf(st) && Fresh(st) && Ordered(calls)
    requires id in Run(st, calls).bookings
    ensures
      var b := Run(st, calls).bookings[id];
      && (b.status == InProgress || b.status == Completed ==>
            b.arrivedAt.Some? && b.startedAt.Some? && b.arrivedAt.value <= b.startedAt.value)
      && (b.status == Completed ==> b.completedAt.Some? && b.startedAt.value <= b.completedAt.value)
  {
    HistoryOfRun(st, calls, id);
    var h := History(Run(st, calls), id);
    var n := |h|;
    assert n > 1 ==> Follows(st.column, h[n - 2], h[n - 1]);
    assert n > 2 ==> Follows(st.column, h[n - 3], h[n - 2]);
    assert n > 3 ==> Follows(st.column, h[n - 4], h[n - 3]);
  }

  // ---- refunds ----------------------------------------------------------------------------

  /** Along a chain the terms of the booking never change and the clock never goes back. */
  lemma {:induction false} ChainKeepsTerms(c: Column, h: seq<Saved>, i: nat, j: nat)
    requires Chain(c, h) && i <= j < |h|
    ensures SameTerms(h[i].row, h[j].row) && h[i].at <= h[j].at
    decreases j
  {
    if i < j {
      ChainKeepsTerms(c, h, i, j - 1);
      assert Follows(c, h[j - 1], h[j]);
    }
  }

  predicate PricesNonNegative(st: State) {
    && (forall s :: s in st.services ==> st.services[s].basePrice >= 0.0)
    && (forall id :: id in st.bookings ==> st.bookings[id].totalAmount >= 0.0)
  }

  lemma {:induction false} RunKeepsPrices(st: State, calls: seq<Call>)
    requires Wf(st) && PricesNonNegative(st)
    ensures PricesNonNegative(Run(st, calls))
    decreases |calls|
  {
    if calls != [] {
      StepHasEffect(st, calls[0]);
      EffectKeepsPrices(st, Step(st, calls[0]), calls[0]);
      RunKeepsPrices(Step(st, calls[0]), calls[1..]);
    }
  }

  lemma EffectKeepsPrices(st: State, st': State, c: Call)
    requires PricesNonNegative(st) && Effect(st, st', c)
    ensures PricesNonNegative(st')
  {
    if StatusAssigned(st, st', c) && c.command.Create? {
      var price := st.services[c.command.service].basePrice;
      KeepIsMonotone(st.column, 0.0, price + price * VAT);
    }
  }

  /** The refund is a share of the price that shrinks as the appointment gets closer. */
  lemma RefundShrinks(a: Booking, b: Booking, s: Instant, t: Instant)
    requires SameTerms(a, b) && a.totalAmount >= 0.0 && s <= t
    ensures 0.0 <= Refund(b, t) <= Refund(a, s) <= a.totalAmount
  {
  }

  lemma CancelledRow(c: Column, h: seq<Saved>, i: nat)
    requires h != [] && Opens(h[0].row) && Chain(c, h) && i < |h| && h[i].row.status == Cancelled
    ensures h[i].row.refundAmount == Keep(c, Refund(h[i].row, h[i].at))
  {
    assert i > 0;
    assert Follows(c, h[i - 1], h[i]);
    SameTermsSameRefund(h[i - 1].row, h[i].row, h[i].at);
  }

  lemma SameTermsSameRefund(a: Booking, b: Booking, t: Instant)
    requires SameTerms(a, b)
    ensures Refund(a, t) == Refund(b, t)
  {
  }

  /** Every refund written lies between nothing and the price of its booking, and when a booking
      is cancelled again, later, the refund is not larger than before. */
  lemma RefundsNeverGrow(st: State, calls: seq<Call>, id: Id, i: nat, j: nat)
    requires Wf(st) && Fresh(st) && Ordered(calls) && PricesNonNegative(st)
    requires i <= j < |History(Run(st, calls), id)|
    requires History(Run(st, calls), id)[i].row.status == Cancelled
    requires History(Run(st, calls), id)[j].row.status == Cancelled
    ensures
      var h := History(Run(st, calls), id);
      0.0 <= h[j].row.refundAmount <= h[i].row.refundAmount <= h[i].row.totalAmount
  {
    HistoryOfRun(st, calls, id);
    RunKeepsPrices(st, calls);
    RunIsWf(st, calls);
    var t :| HistoryOk(Run(st, calls), id, t);
    HistoryRefunds(Run(st, calls), id, t, i, j);
  }

  lemma HistoryRefunds(st: State, id: Id, t: Instant, i: nat, j: nat)
    requires Wf(st) && PricesNonNegative(st) && HistoryOk(st, id, t)
    requires i <= j < |History(st, id)|
    requires History(st, id)[i].row.status == Cancelled && History(st, id)[j].row.status == Cancelled
    ensures
      var h := History(st, id);
      0.0 <= h[j].row.refundAmount <= h[i].row.refundAmount <= h[i].row.totalAmount
  {
    var h := History(st, id);
    ChainKeepsTerms(st.column, h, i, |h| - 1);
    assert h[i].row.totalAmount == st.bookings[id].totalAmount;
    assert Stored(st.column, st.bookings[id]) == st.bookings[id];
    ChainRefunds(st.column, h, i, j);
  }

  /** The refunds of two cancellations along a chain. */
  lemma ChainRefunds(c: Column, h: seq<Saved>, i: nat, j: nat)
    requires h != [] && Opens(h[0].row) && Chain(c, h) && i <= j < |h|
    requires h[i].row.status == Cancelled && h[j].row.status == Cancelled
    requires 0.0 <= h[i].row.totalAmount == Keep(c, h[i].row.totalAmount)
    ensures 0.0 <= h[j].row.refundAmount <= h[i].row.refundAmount <= h[i].row.totalAmount
  {
    ChainKeepsTerms(c, h, i, j);
    CancelledRow(c, h, i);
    CancelledRow(c, h, j);
    var (early, late) := (Refund(h[i].row, h[i].at), Refund(h[j].row, h[j].at));
    RefundShrinks(h[i].row, h[j].row, h[i].at, h[j].at);
    KeepIsMonotone(c, 0.0, late);
    KeepIsMonotone(c, late, early);
    KeepIsMonotone(c, early, h[i].row.totalAmount);
  }

  lemma {:induction false} RunIsWf(st: State, calls: seq<Call>)
    requires Wf(st)
    ensures Wf(Run(st, calls))
    decreases |calls|
  {
    if calls != [] {
      StepHasEffect(st, calls[0]);
      RunIsWf(Step(st, calls[0]), calls[1..]);
    }
  }
}
