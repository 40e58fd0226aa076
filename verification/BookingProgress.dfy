/** How often a booking can be moved forward.

    `markEnRoute` and `markArrived` accept any status, so no status is final and a booking has
    no bound on its number of changes. What holds is amortised: the other requests use up a
    potential that only the two marks can put back. */
module BookingProgress {
  import opened BookingModel
  import opened BookingHistory

  /** How many accept, reject, start, complete or cancel requests can still succeed in a row. */
  function Potential(s: Status): nat {
    match s
    case Pending => 2
    case ProviderArrived => 2
    case Completed => 0
    case Cancelled => 0
    case _ => 1
  }

  function PotentialOf(st: State, id: Id): nat {
    if id in st.bookings then Potential(st.bookings[id].status) else 2
  }

  datatype Kind = Advance | EnRoute | Arrive

  predicate IsKind(c: Command, k: Kind) {
    match c
    case Cancel(_, _, _) => k == Advance
    case Handle(_, _, move) =>
      (match move
       case MarkEnRoute => k == EnRoute
       case MarkArrived => k == Arrive
       case _ => k == Advance)
    case _ => false
  }

  /** Is this a request of kind `k` on booking `id` that is not refused and saves its status? */
  predicate TakesEffect(st: State, c: Call, id: Id, k: Kind) {
    c.command.booking == id && IsKind(c.command, k) && c.saves >= 1 && Plan(st, c.command, c.now).Ok?
  }

  /** The number of requests of kind `k` on `id` that take effect in a run. */
  function Tally(st: State, calls: seq<Call>, id: Id, k: Kind): nat
    decreases |calls|
  {
    if calls == [] then 0
    else (if TakesEffect(st, calls[0], id, k) then 1 else 0) + Tally(Step(st, calls[0]), calls[1..], id, k)
  }

  /** Only an assigned status changes the potential, and only that of its own booking. */
  lemma PotentialStays(st: State, st': State, c: Call, id: Id)
    requires Effect(st, st', c) && (c.command.booking != id || !StatusAssigned(st, st', c))
    ensures PotentialOf(st', id) == PotentialOf(st, id)
  {
  }

  /** By how much a request of this kind can raise the potential at most. */
  lemma EdgeOnPotential(a: Status, b: Status)
    requires Edge(a, b)
    ensures b == ProviderEnRoute ==> Potential(b) <= Potential(a) + 1
    ensures b == ProviderArrived ==> Potential(b) <= Potential(a) + 2
    ensures b != ProviderEnRoute && b != ProviderArrived ==> Potential(b) < Potential(a)
  {
  }

  lemma RowHasKind(st: State, row: Booking, c: Call)
    requires LegalRow(st, row, c)
    ensures c.command.Create? ==> c.command.booking !in st.bookings && row.status == Pending
    ensures !c.command.Create? ==>
              && c.command.booking in st.bookings && Edge(st.bookings[c.command.booking].status, row.status)
              && (IsKind(c.command, EnRoute) <==> row.status == ProviderEnRoute)
              && (IsKind(c.command, Arrive) <==> row.status == ProviderArrived)
              && (IsKind(c.command, Advance) <==> row.status != ProviderEnRoute && row.status != ProviderArrived)
  {
  }

  lemma EffectOnPotential(st: State, st': State, c: Call, id: Id)
    requires Effect(st, st', c)
    requires TakesEffect(st, c, id, Advance) || TakesEffect(st, c, id, EnRoute) || TakesEffect(st, c, id, Arrive) ==>
               StatusAssigned(st, st', c)
    ensures TakesEffect(st, c, id, Advance) ==> PotentialOf(st', id) < PotentialOf(st, id)
    ensures TakesEffect(st, c, id, EnRoute) ==> PotentialOf(st', id) <= PotentialOf(st, id) + 1
    ensures TakesEffect(st, c, id, Arrive) ==> PotentialOf(st', id) <= PotentialOf(st, id) + 2
    ensures !TakesEffect(st, c, id, Advance) && !TakesEffect(st, c, id, EnRoute) && !TakesEffect(st, c, id, Arrive) ==>
              PotentialOf(st', id) <= PotentialOf(st, id)
  {
    if c.command.booking != id || !StatusAssigned(st, st', c) {
      PotentialStays(st, st', c, id);
    } else {
      var row := st'.bookings[id];
      RowHasKind(st, row, c);
      if id in st.bookings {
        EdgeOnPotential(st.bookings[id].status, row.status);
      }
    }
  }

  /** Amortised termination: from any well-formed database and for any booking, in every run the
      accept, reject, start, complete and cancel requests that take effect number at most the
      potential of the booking plus two for each arrival and one for each departure. A booking
      that is pending, or not yet made, has potential two. */
  lemma {:induction false} ProgressIsBounded(st: State, calls: seq<Call>, id: Id)
    requires Wf(st)
    ensures Tally(st, calls, id, Advance) + PotentialOf(Run(st, calls), id)
         <= PotentialOf(st, id) + 2 * Tally(st, calls, id, Arrive) + Tally(st, calls, id, EnRoute)
    decreases |calls|
  {
    if calls != [] {
      var c := calls[0];
      StepHasEffect(st, c);
      if TakesEffect(st, c, id, Advance) || TakesEffect(st, c, id, EnRoute) || TakesEffect(st, c, id, Arrive) {
        SavedCallAssigns(st, c);
      }
      EffectOnPotential(st, Step(st, c), c, id);
      ProgressIsBounded(Step(st, c), calls[1..], id);
    }
  }

  // ---- the bound is attained ----------------------------------------------------------------

  lemma {:induction false} TallyConcat(st: State, a: seq<Call>, b: seq<Call>, id: Id, k: Kind)
    ensures Tally(st, a + b, id, k) == Tally(st, a, id, k) + Tally(Run(st, a), b, id, k)
    decreases |a|
  {
    if a == [] {
      assert a + b == b;
    } else {
      assert (a + b)[1..] == a[1..] + b;
      TallyConcat(Step(st, a[0]), a[1..], b, id, k);
    }
  }

  /** The booking exists, is handled by `user` and stands at `s`. */
  ghost predicate Stands(st: State, s: Status, user: Id, service: Id, id: Id) {
    && Wf(st) && Staffed(st, user, service)
    && id in st.bookings && st.bookings[id].status == s && st.bookings[id].providerId == st.providers[user].id
  }

  function KindOf(s: Status): Kind {
    match s
    case ProviderEnRoute => EnRoute
    case ProviderArrived => Arrive
    case _ => Advance
  }

  /** One request along an edge takes effect and counts once. */
  lemma RequestCounts(st: State, a: Status, s: Status, user: Id, service: Id, id: Id, k: Kind)
    requires Stands(st, a, user, service, id) && Edge(a, s)
    ensures Stands(Step(st, Request(s, user, service, id)), s, user, service, id)
    ensures TakesEffect(st, Request(s, user, service, id), id, k) <==> k == KindOf(s)
  {
    RequestIsPlanned(st, s, user, service, id);
    RequestIsAdmitted(st, s, user, service, id);
    RequestHasKind(s, user, service, id, k);
  }

  lemma RequestHasKind(s: Status, user: Id, service: Id, id: Id, k: Kind)
    requires exists a :: Edge(a, s)
    ensures IsKind(Request(s, user, service, id).command, k) <==> k == KindOf(s)
    ensures Request(s, user, service, id).command.booking == id && Request(s, user, service, id).saves == 3
  {
  }

  /** From status `a`, the statuses `g` follow one another along edges. */
  predicate EdgesFrom(a: Status, g: seq<Status>)
    decreases |g|
  {
    g == [] || (Edge(a, g[0]) && EdgesFrom(g[0], g[1..]))
  }

  function CountKind(g: seq<Status>, k: Kind): nat {
    if g == [] then 0 else (if KindOf(g[0]) == k then 1 else 0) + CountKind(g[1..], k)
  }

  lemma TallyCons(st: State, c: Call, rest: seq<Call>, id: Id, k: Kind, st': State)
    requires st' == Step(st, c)
    ensures Run(st, [c] + rest) == Run(st', rest)
    ensures Tally(st, [c] + rest, id, k) == (if TakesEffect(st, c, id, k) then 1 else 0) + Tally(st', rest, id, k)
  {
    assert ([c] + rest)[1..] == rest;
  }

  /** A script along edges takes effect request by request. */
  ghost predicate ScriptWorks(st: State, g: seq<Status>, user: Id, service: Id, id: Id, k: Kind, end: Status) {
    && Tally(st, Script(g, user, service, id), id, k) == CountKind(g, k)
    && Stands(Run(st, Script(g, user, service, id)), end, user, service, id)
  }

  lemma {:induction false} ScriptTally(st: State, a: Status, g: seq<Status>, user: Id, service: Id, id: Id, k: Kind)
    requires Stands(st, a, user, service, id)
    requires EdgesFrom(a, g)
    ensures ScriptWorks(st, g, user, service, id, k, if g == [] then a else g[|g| - 1])
    decreases |g|
  {
    if g != [] {
      var st' := FirstOfScript(st, a, g, user, service, id, k);
      assert g[1..] != [] ==> g[1..][|g[1..]| - 1] == g[|g| - 1];
      ScriptTally(st', g[0], g[1..], user, service, id, k);
    }
  }

  /** Working off the first status of a script. */
  lemma FirstOfScript(st: State, a: Status, g: seq<Status>, user: Id, service: Id, id: Id, k: Kind) returns (st': State)
    requires Stands(st, a, user, service, id) && g != [] && Edge(a, g[0])
    ensures Stands(st', g[0], user, service, id)
    ensures Run(st, Script(g, user, service, id)) == Run(st', Script(g[1..], user, service, id))
    ensures Tally(st, Script(g, user, service, id), id, k)
         == (if KindOf(g[0]) == k then 1 else 0) + Tally(st', Script(g[1..], user, service, id), id, k)
  {
    var c := Request(g[0], user, service, id);
    st' := Step(st, c);
    RequestCounts(st, a, g[0], user, service, id, k);
    ScriptCons(g, user, service, id);
    TallyCons(st, c, Script(g[1..], user, service, id), id, k, st');
  }

  lemma ScriptCons(g: seq<Status>, user: Id, service: Id, id: Id)
    requires g != []
    ensures Script(g, user, service, id) == [Request(g[0], user, service, id)] + Script(g[1..], user, service, id)
  {
  }

  /** The requests that take effect on `id` in this run: `advances` of the bounded kind, `arrivals`
      and `departures`. */
  ghost predicate Tallies(st: State, calls: seq<Call>, id: Id, advances: nat, arrivals: nat, departures: nat) {
    && Tally(st, calls, id, Advance) == advances
    && Tally(st, calls, id, Arrive) == arrivals
    && Tally(st, calls, id, EnRoute) == departures
  }

  lemma TalliesConcat(st: State, a: seq<Call>, b: seq<Call>, id: Id, x: nat, y: nat, z: nat, x': nat, y': nat, z': nat)
    requires Tallies(st, a, id, x, y, z) && Tallies(Run(st, a), b, id, x', y', z')
    ensures Tallies(st, a + b, id, x + x', y + y', z + z')
  {
    TallyConcat(st, a, b, id, Advance);
    TallyConcat(st, a, b, id, Arrive);
    TallyConcat(st, a, b, id, EnRoute);
  }

  /** A script along edges tallies as its statuses say. */
  lemma LegTallies(st: State, a: Status, g: seq<Status>, user: Id, service: Id, id: Id)
    requires Stands(st, a, user, service, id) && g != [] && EdgesFrom(a, g)
    ensures
      var leg := Script(g, user, service, id);
      && Stands(Run(st, leg), g[|g| - 1], user, service, id)
      && Tallies(st, leg, id, CountKind(g, Advance), CountKind(g, Arrive), CountKind(g, EnRoute))
  {
    ScriptTally(st, a, g, user, service, id, Advance);
    ScriptTally(st, a, g, user, service, id, Arrive);
    ScriptTally(st, a, g, user, service, id, EnRoute);
  }

  /** The statuses that use up the potential of a booking at `a`. */
  function Drain(a: Status): seq<Status> {
    if a == Pending then [Confirmed, Cancelled]
    else if a == ProviderArrived then [InProgress, Completed]
    else if Potential(a) == 1 then [Cancelled]
    else []
  }

  lemma KindsOfOne(a: Status, k: Kind)
    ensures CountKind([a], k) == if KindOf(a) == k then 1 else 0
  {
    assert [a][1..] == [];
  }

  lemma KindsOfTwo(a: Status, b: Status, k: Kind)
    ensures CountKind([a, b], k) == (if KindOf(a) == k then 1 else 0) + if KindOf(b) == k then 1 else 0
    ensures EdgesFrom(a, [b]) <==> Edge(a, b)
  {
    assert [a, b][1..] == [b];
    KindsOfOne(b, k);
  }

  lemma DrainUsesPotential(a: Status)
    ensures EdgesFrom(a, Drain(a))
    ensures Drain(a) != [] ==> Potential(Drain(a)[|Drain(a)| - 1]) == 0
    ensures CountKind(Drain(a), Advance) == Potential(a)
    ensures CountKind(Drain(a), Arrive) == 0 && CountKind(Drain(a), EnRoute) == 0
  {
    var g := Drain(a);
    if |g| == 1 {
      KindsOfOne(g[0], Advance);
      KindsOfOne(g[0], Arrive);
      KindsOfOne(g[0], EnRoute);
    } else if |g| == 2 {
      assert g == [g[0], g[1]] && g[1..] == [g[1]];
      KindsOfTwo(g[0], g[1], Advance);
      KindsOfTwo(g[0], g[1], Arrive);
      KindsOfTwo(g[0], g[1], EnRoute);
    }
  }

  /** From any status, a booking can depart and be cancelled, which is one advance, or arrive,
      start and complete, which is two. */
  const DEPARTURE: seq<Status> := [ProviderEnRoute, Cancelled]
  const ARRIVAL: seq<Status> := [ProviderArrived, InProgress, Completed]

  lemma KindsOfThree(a: Status, b: Status, c: Status, k: Kind)
    ensures CountKind([a, b, c], k)
         == (if KindOf(a) == k then 1 else 0) + (if KindOf(b) == k then 1 else 0) + if KindOf(c) == k then 1 else 0
  {
    assert [a, b, c][1..] == [b, c] && [b, c][1..] == [c];
    KindsOfTwo(b, c, k);
  }

  lemma RoundsFollowEdges(a: Status)
    ensures EdgesFrom(a, DEPARTURE) && EdgesFrom(a, ARRIVAL)
  {
    EdgesCons(a, ProviderEnRoute, [Cancelled]);
    KindsOfTwo(ProviderEnRoute, Cancelled, Advance);
    EdgesCons(a, ProviderArrived, [InProgress, Completed]);
    EdgesCons(ProviderArrived, InProgress, [Completed]);
    KindsOfTwo(InProgress, Completed, Advance);
  }

  lemma EdgesCons(a: Status, b: Status, g: seq<Status>)
    ensures EdgesFrom(a, [b] + g) <==> Edge(a, b) && EdgesFrom(b, g)
  {
    assert ([b] + g)[1..] == g;
  }

  lemma DepartureTallies(st: State, a: Status, user: Id, service: Id, id: Id)
    requires Stands(st, a, user, service, id)
    ensures Tallies(st, Script(DEPARTURE, user, service, id), id, 1, 0, 1)
    ensures Stands(Run(st, Script(DEPARTURE, user, service, id)), Cancelled, user, service, id)
  {
    RoundsFollowEdges(a);
    LegTallies(st, a, DEPARTURE, user, service, id);
    KindsOfTwo(ProviderEnRoute, Cancelled, Advance);
    KindsOfTwo(ProviderEnRoute, Cancelled, Arrive);
    KindsOfTwo(ProviderEnRoute, Cancelled, EnRoute);
  }

  lemma ArrivalTallies(st: State, a: Status, user: Id, service: Id, id: Id)
    requires Stands(st, a, user, service, id)
    ensures Tallies(st, Script(ARRIVAL, user, service, id), id, 2, 1, 0)
    ensures Stands(Run(st, Script(ARRIVAL, user, service, id)), Completed, user, service, id)
  {
    RoundsFollowEdges(a);
    LegTallies(st, a, ARRIVAL, user, service, id);
    KindsOfThree(ProviderArrived, InProgress, Completed, Advance);
    KindsOfThree(ProviderArrived, InProgress, Completed, Arrive);
    KindsOfThree(ProviderArrived, InProgress, Completed, EnRoute);
  }

  /** `m` departures, with the advances they allow. */
  lemma {:induction false} Departures(st: State, a: Status, user: Id, service: Id, id: Id, m: nat) returns (calls: seq<Call>)
    requires Stands(st, a, user, service, id)
    ensures Tallies(st, calls, id, m, 0, m) && Smooth(calls)
    decreases m
  {
    if m == 0 {
      calls := [];
    } else {
      DepartureTallies(st, a, user, service, id);
      var rest := Departures(Run(st, Script(DEPARTURE, user, service, id)), Cancelled, user, service, id, m - 1);
      calls := LegThen(st, DEPARTURE, user, service, id, rest, 1, 0, 1, m - 1, 0, m - 1);
    }
  }

  /** `n` arrivals and then `m` departures, with all the advances they allow. */
  lemma {:induction false} Rounds(st: State, a: Status, user: Id, service: Id, id: Id, m: nat, n: nat) returns (calls: seq<Call>)
    requires Stands(st, a, user, service, id)
    ensures Tallies(st, calls, id, m + 2 * n, n, m) && Smooth(calls)
    decreases n
  {
    if n == 0 {
      calls := Departures(st, a, user, service, id, m);
    } else {
      ArrivalTallies(st, a, user, service, id);
      var rest := Rounds(Run(st, Script(ARRIVAL, user, service, id)), Completed, user, service, id, m, n - 1);
      calls := LegThen(st, ARRIVAL, user, service, id, rest, 2, 1, 0, m + 2 * (n - 1), n - 1, m);
    }
  }

  lemma LegThen(st: State, g: seq<Status>, user: Id, service: Id, id: Id, rest: seq<Call>,
                x: nat, y: nat, z: nat, x': nat, y': nat, z': nat) returns (calls: seq<Call>)
    requires Tallies(st, Script(g, user, service, id), id, x, y, z)
    requires Tallies(Run(st, Script(g, user, service, id)), rest, id, x', y', z') && Smooth(rest)
    ensures Tallies(st, calls, id, x + x', y + y', z + z') && Smooth(calls)
  {
    TalliesConcat(st, Script(g, user, service, id), rest, id, x, y, z, x', y', z');
    calls := Script(g, user, service, id) + rest;
  }

  lemma {:induction false} DrainThenRounds(st: State, a: Status, user: Id, service: Id, id: Id, m: nat, n: nat) returns (calls: seq<Call>)
    requires Stands(st, a, user, service, id)
    ensures Tallies(st, calls, id, Potential(a) + m + 2 * n, n, m) && Smooth(calls)
  {
    var g := Drain(a);
    DrainUsesPotential(a);
    if g == [] {
      calls := Rounds(st, a, user, service, id, m, n);
    } else {
      LegTallies(st, a, g, user, service, id);
      var rest := Rounds(Run(st, Script(g, user, service, id)), g[|g| - 1], user, service, id, m, n);
      calls := LegThen(st, g, user, service, id, rest, Potential(a), 0, 0, m + 2 * n, n, m);
    }
  }

  /** The bound is attained for every booking, whatever its status and also before it is made, and
      for any numbers of departures and arrivals, without interruptions and on a non-decreasing
      clock. */
  lemma BoundIsReached(st: State, user: Id, service: Id, id: Id, m: nat, n: nat) returns (calls: seq<Call>)
    requires Wf(st) && Staffed(st, user, service)
    requires id in st.bookings ==> st.bookings[id].providerId == st.providers[user].id
    ensures Tally(st, calls, id, EnRoute) == m && Tally(st, calls, id, Arrive) == n
    ensures Tally(st, calls, id, Advance)
         == PotentialOf(st, id) + 2 * Tally(st, calls, id, Arrive) + Tally(st, calls, id, EnRoute)
    ensures Ordered(calls) && AllWhole(calls)
  {
    if id in st.bookings {
      calls := DrainThenRounds(st, st.bookings[id].status, user, service, id, m, n);
    } else {
      var create := Request(Pending, user, service, id);
      RequestIsPlanned(st, Pending, user, service, id);
      assert Performed(st, Step(st, create), Pending, user, service, id);
      var rest := DrainThenRounds(Step(st, create), Pending, user, service, id, m, n);
      TallyCons(st, create, rest, id, Advance, Step(st, create));
      TallyCons(st, create, rest, id, Arrive, Step(st, create));
      TallyCons(st, create, rest, id, EnRoute, Step(st, create));
      calls := [create] + rest;
    }
    SmoothRuns(calls);
  }
}
