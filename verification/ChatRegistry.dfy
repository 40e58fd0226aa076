/** The registry of connected chat users, over any order of connection and disconnection events.

    `handleConnection` awaits the verification of the token, so a socket can close before it is
    registered. Registration itself runs without interruption. */
module ChatRegistry {
  type UserId = string
  type SocketId = string

  /** What becomes of the socket a user was registered with when the user connects again: its
      disconnect handler runs inside the `disconnect()` call, or its event comes later or never,
      or looking the socket up throws, and then the new socket is disconnected instead. */
  datatype Replacement = AtOnce | Later | Throws

  datatype Event =
    | Register(socket: SocketId, user: UserId, replaced: Replacement)
    | Disconnect(socket: SocketId)

  /** `connectedUsers` and `socketToUser`, the `userId` written on each client, the sockets whose
      disconnect handler has run, and, as history, those of them that registered only after. */
  datatype State = State(
    connected: map<UserId, SocketId>,
    users: map<SocketId, UserId>,
    owner: map<SocketId, UserId>,
    closed: set<SocketId>,
    late: set<SocketId>)

  const EMPTY: State := State(map[], map[], map[], {}, {})

  function Close(st: State, s: SocketId): State {
    var st' := st.(closed := st.closed + {s});
    if s in st.owner then st'.(connected := st.connected - {st.owner[s]}, users := st.users - {s}) else st'
  }

  /** `client.userId` is set, and the registration is late if the socket has closed. */
  function Attached(st: State, s: SocketId, u: UserId): State {
    st.(owner := st.owner[s := u], late := if s in st.closed then st.late + {s} else st.late)
  }

  function Step(st: State, e: Event): State {
    match e
    case Disconnect(s) => Close(st, s)
    case Register(s, u, replaced) =>
      var st0 := Attached(st, s, u);
      if u in st.connected && replaced == Throws then (if s in st.closed then st0 else Close(st0, s))
      else
        var st1 := if u in st.connected && replaced == AtOnce && st.connected[u] !in st.closed
                   then Close(st0, st.connected[u]) else st0;
        st1.(connected := st1.connected[u := s], users := st1.users[s := u])
  }

  function Run(st: State, events: seq<Event>): State
    decreases |events|
  {
    if events == [] then st else Run(Step(st, events[0]), events[1..])
  }

  /** A socket registers at most once and its disconnect handler runs at most once. */
  predicate Enabled(st: State, e: Event) {
    match e
    case Register(s, _, _) => s !in st.owner
    case Disconnect(s) => s !in st.closed
  }

  predicate Legal(st: State, events: seq<Event>)
    decreases |events|
  {
    events != [] ==> Enabled(st, events[0]) && Legal(Step(st, events[0]), events[1..])
  }

  // ---- what holds in every order of events ------------------------------------------------

  predicate Consistent(st: State) {
    && (forall u :: u in st.connected ==> st.connected[u] in st.users && st.users[st.connected[u]] == u)
    && (forall s :: s in st.users ==> s in st.owner && st.owner[s] == st.users[s])
    && (forall u :: u in st.connected ==> (st.connected[u] in st.closed <==> st.connected[u] in st.late))
    && st.late <= st.closed
    && (forall s :: s in st.late ==> s in st.owner)
  }

  lemma CloseKeepsConsistent(st: State, s: SocketId)
    requires Consistent(st) && s !in st.closed
    ensures Consistent(Close(st, s))
  {
  }

  /** A fresh socket gets its user attached. */
  lemma AttachKeepsConsistent(st: State, s: SocketId, u: UserId)
    requires Consistent(st) && s !in st.owner
    ensures Consistent(Attached(st, s, u))
  {
  }

  lemma EnterKeepsConsistent(st: State, s: SocketId, u: UserId)
    requires Consistent(st) && s in st.owner && st.owner[s] == u && (s in st.closed <==> s in st.late)
    ensures Consistent(st.(connected := st.connected[u := s], users := st.users[s := u]))
  {
  }

  lemma StepKeepsConsistent(st: State, e: Event)
    requires Consistent(st) && Enabled(st, e)
    ensures Consistent(Step(st, e))
  {
    match e
    case Disconnect(s) => CloseKeepsConsistent(st, s);
    case Register(s, u, replaced) =>
      var st0 := Attached(st, s, u);
      AttachKeepsConsistent(st, s, u);
      if u in st.connected && replaced == Throws {
        if s !in st.closed {
          CloseKeepsConsistent(st0, s);
        }
      } else if u in st.connected && replaced == AtOnce && st.connected[u] !in st.closed {
        CloseKeepsConsistent(st0, st.connected[u]);
        EnterKeepsConsistent(Close(st0, st.connected[u]), s, u);
      } else {
        EnterKeepsConsistent(st0, s, u);
      }
  }

  lemma {:induction false} RunIsConsistent(st: State, events: seq<Event>)
    requires Consistent(st) && Legal(st, events)
    ensures Consistent(Run(st, events))
    decreases |events|
  {
    if events != [] {
      StepKeepsConsistent(st, events[0]);
      RunIsConsistent(Step(st, events[0]), events[1..]);
    }
  }

  /** In every run, a connected user's socket belongs to that user, so no two users share one;
      and the socket is still open exactly when it had not closed before it registered. */
  lemma PresenceIsSound(events: seq<Event>, u: UserId)
    requires Legal(EMPTY, events) && u in Run(EMPTY, events).connected
    ensures
      var st := Run(EMPTY, events);
      var s := st.connected[u];
      && s in st.users && st.users[s] == u
      && (forall v :: v in st.connected && st.connected[v] == s ==> v == u)
      && (s !in st.closed <==> s !in st.late)
  {
    RunIsConsistent(EMPTY, events);
  }

  /** A user can stay online on a socket that closed while its token was being verified. */
  lemma LateRegistrationStaysOnline(s: SocketId, u: UserId)
    ensures
      var events := [Disconnect(s), Register(s, u, AtOnce)];
      && Legal(EMPTY, events)
      && u in Run(EMPTY, events).connected
      && Run(EMPTY, events).connected[u] in Run(EMPTY, events).closed
  {
    var e := [Disconnect(s), Register(s, u, AtOnce)];
    var st1 := Step(EMPTY, e[0]);
    assert e[1..] == [e[1]];
    assert Run(st1, [e[1]]) == Run(Step(st1, e[1]), []);
    assert Legal(Step(st1, e[1]), [e[1]][1..]);
  }

  // ---- when replaced sockets close at once ------------------------------------------------

  predicate AllAtOnce(events: seq<Event>) {
    forall i :: 0 <= i < |events| && events[i].Register? ==> events[i].replaced == AtOnce
  }

  /** Every registered socket that is still open, and every socket the registry lists, is the
      current socket of its user, unless it registered after it had closed. */
  predicate Settled(st: State) {
    && Consistent(st)
    && (forall s :: s in st.users && s !in st.late ==> st.users[s] in st.connected && st.connected[st.users[s]] == s)
    && (forall s :: s in st.owner && s !in st.closed ==> s in st.users)
  }

  lemma StepKeepsSettled(st: State, e: Event)
    requires Settled(st) && Enabled(st, e) && (e.Register? ==> e.replaced == AtOnce)
    ensures Settled(Step(st, e))
  {
    StepKeepsConsistent(st, e);
  }

  lemma {:induction false} RunIsSettled(st: State, events: seq<Event>)
    requires Settled(st) && Legal(st, events) && AllAtOnce(events)
    ensures Settled(Run(st, events))
    decreases |events|
  {
    if events != [] {
      StepKeepsSettled(st, events[0]);
      RunIsSettled(Step(st, events[0]), events[1..]);
    }
  }

  /** If replaced sockets close at once, a user has an open registered socket exactly when the
      user is online on a socket that had not closed before it registered. */
  lemma OnlineMeansOpen(events: seq<Event>, u: UserId)
    requires Legal(EMPTY, events) && AllAtOnce(events)
    ensures
      var st := Run(EMPTY, events);
      (u in st.connected && st.connected[u] !in st.late)
      <==> exists s :: s in st.owner && st.owner[s] == u && s !in st.closed
  {
    RunIsSettled(EMPTY, events);
    var st := Run(EMPTY, events);
    if u in st.connected && st.connected[u] !in st.late {
      var s := st.connected[u];
      assert s in st.owner && st.owner[s] == u && s !in st.closed;
    }
  }

  /** If, besides, no socket closed before it registered, the two maps are inverse to each other
      and equally large. */
  lemma RegistryIsExact(events: seq<Event>)
    requires Legal(EMPTY, events) && AllAtOnce(events) && Run(EMPTY, events).late == {}
    ensures Inverse(Run(EMPTY, events).connected, Run(EMPTY, events).users)
    ensures |Run(EMPTY, events).connected| == |Run(EMPTY, events).users|
  {
    RunIsSettled(EMPTY, events);
    var st := Run(EMPTY, events);
    InverseMapsHaveEqualSize(st.connected, st.users);
    assert |st.connected| == |st.connected.Keys| && |st.users| == |st.users.Keys|;
  }

  predicate Inverse<K, V>(a: map<K, V>, b: map<V, K>) {
    && (forall k :: k in a ==> a[k] in b && b[a[k]] == k)
    && (forall v :: v in b ==> b[v] in a && a[b[v]] == v)
  }

  lemma {:induction false} InverseMapsHaveEqualSize<K, V>(a: map<K, V>, b: map<V, K>)
    requires Inverse(a, b)
    ensures |a.Keys| == |b.Keys|
    decreases |a.Keys|
  {
    if k :| k in a {
      InverseMapsHaveEqualSize(a - {k}, b - {a[k]});
      assert (a - {k}).Keys == a.Keys - {k} && (b - {a[k]}).Keys == b.Keys - {a[k]};
    } else {
      assert b.Keys == {};
      assert a.Keys == {};
    }
  }

  // ---- which sockets register late --------------------------------------------------------

  predicate RegistersIn(events: seq<Event>, s: SocketId) {
    exists j :: 0 <= j < |events| && IsRegistration(events[j], s)
  }

  predicate IsRegistration(e: Event, s: SocketId) {
    e.Register? && e.socket == s
  }

  /** Does the disconnect event of `s` come before its registration? */
  predicate ClosesFirst(events: seq<Event>, s: SocketId) {
    exists i :: 0 <= i < |events| && events[i] == Disconnect(s) && RegistersIn(events[i + 1..], s)
  }

  lemma RegistersSplit(events: seq<Event>, s: SocketId)
    requires events != []
    ensures RegistersIn(events, s) <==> IsRegistration(events[0], s) || RegistersIn(events[1..], s)
  {
    if RegistersIn(events[1..], s) {
      var j :| 0 <= j < |events| - 1 && IsRegistration(events[1..][j], s);
      assert IsRegistration(events[j + 1], s);
    }
    if j :| 0 <= j < |events| && IsRegistration(events[j], s) {
      assert j > 0 ==> IsRegistration(events[1..][j - 1], s);
    }
  }

  lemma ClosesFirstSplit(events: seq<Event>, s: SocketId)
    requires events != []
    ensures ClosesFirst(events, s) <==>
              (events[0] == Disconnect(s) && RegistersIn(events[1..], s)) || ClosesFirst(events[1..], s)
  {
    if ClosesFirst(events[1..], s) {
      var i :| 0 <= i < |events| - 1 && events[1..][i] == Disconnect(s) && RegistersIn(events[1..][i + 1..], s);
      assert events[1..][i + 1..] == events[i + 2..];
      assert events[i + 1] == Disconnect(s);
    }
    if i :| 0 <= i < |events| && events[i] == Disconnect(s) && RegistersIn(events[i + 1..], s) {
      if i > 0 {
        assert events[1..][i - 1] == Disconnect(s) && events[1..][i..] == events[i + 1..];
      }
    }
  }

  lemma {:induction false} RegisteredNeverRegisters(st: State, events: seq<Event>, s: SocketId)
    requires Legal(st, events) && s in st.owner
    ensures !RegistersIn(events, s)
    decreases |events|
  {
    if events != [] {
      RegisteredNeverRegisters(Step(st, events[0]), events[1..], s);
      RegistersSplit(events, s);
    }
  }

  lemma {:induction false} LateFrom(st: State, events: seq<Event>, s: SocketId)
    requires Consistent(st) && Legal(st, events)
    ensures s in Run(st, events).late
       <==> s in st.late || (s in st.closed && RegistersIn(events, s)) || ClosesFirst(events, s)
    decreases |events|
  {
    if events != [] {
      var (e, rest) := (events[0], events[1..]);
      var st' := Step(st, e);
      StepKeepsConsistent(st, e);
      LateFrom(st', rest, s);
      RegistersSplit(events, s);
      ClosesFirstSplit(events, s);
      if s in st.owner {
        RegisteredNeverRegisters(st, events, s);
      }
      if IsRegistration(e, s) {
        RegisteredNeverRegisters(st', rest, s);
      }
    }
  }

  /** The sockets registered late are those whose disconnect event comes before their
      registration. */
  lemma LateMeansClosedFirst(events: seq<Event>, s: SocketId)
    requires Legal(EMPTY, events)
    ensures s in Run(EMPTY, events).late <==> ClosesFirst(events, s)
  {
    LateFrom(EMPTY, events, s);
  }

  // ---- who is online, exactly -------------------------------------------------------------

  /** What an event does to the presence of a user. */
  datatype Effect = Joins | Leaves | Ignores

  /** A registration makes its user join, unless looking up an earlier socket throws: then the
      new socket is closed, if it still is open, and its disconnect handler makes the user leave.
      So does every disconnect event of a socket that was ever attached to the user. */
  function About(st: State, e: Event, u: UserId): Effect {
    match e
    case Disconnect(s) => if s in st.owner && st.owner[s] == u then Leaves else Ignores
    case Register(s, v, replaced) =>
      if v != u then Ignores
      else if replaced != Throws || u !in st.connected then Joins
      else if s in st.closed then Ignores
      else Leaves
  }

  function AboutAt(events: seq<Event>, u: UserId, i: nat): Effect
    requires i < |events|
  {
    About(Run(EMPTY, events[..i]), events[i], u)
  }

  /** The last event that makes `u` join or leave is event `i`. */
  predicate Decides(events: seq<Event>, u: UserId, i: nat) {
    && i < |events|
    && AboutAt(events, u, i) != Ignores
    && forall j :: i < j < |events| ==> AboutAt(events, u, j) == Ignores
  }

  lemma {:induction false} RunPush(st: State, events: seq<Event>, e: Event)
    ensures Run(st, events + [e]) == Step(Run(st, events), e)
    ensures Legal(st, events + [e]) ==> Legal(st, events) && Enabled(Run(st, events), e)
    decreases |events|
  {
    if events == [] {
      assert [e][1..] == [];
      assert events + [e] == [e];
    } else {
      assert (events + [e])[1..] == events[1..] + [e];
      RunPush(Step(st, events[0]), events[1..], e);
    }
  }

  lemma StepOnPresence(st: State, e: Event, u: UserId)
    requires Consistent(st) && Enabled(st, e)
    ensures var st' := Step(st, e);
            match About(st, e, u)
            case Joins => e.Register? && u in st'.connected && st'.connected[u] == e.socket
            case Leaves => u !in st'.connected
            case Ignores => (u in st'.connected <==> u in st.connected)
                            && (u in st.connected ==> st'.connected[u] == st.connected[u])
  {
  }

  lemma AboutPush(events: seq<Event>, e: Event, u: UserId)
    ensures AboutAt(events + [e], u, |events|) == About(Run(EMPTY, events), e, u)
    ensures forall i :: 0 <= i < |events| ==> AboutAt(events + [e], u, i) == AboutAt(events, u, i)
  {
    assert (events + [e])[..|events|] == events;
    forall i | 0 <= i < |events| ensures AboutAt(events + [e], u, i) == AboutAt(events, u, i) {
      assert (events + [e])[..i] == events[..i];
    }
  }

  /** One more event decides, if it is about `u`, and else leaves the decision as it was. */
  lemma DecidesPush(events: seq<Event>, e: Event, u: UserId, i: nat)
    ensures Decides(events + [e], u, i)
       <==> if About(Run(EMPTY, events), e, u) == Ignores then Decides(events, u, i) else i == |events|
  {
    AboutPush(events, e, u);
    assert |events| < |events + [e]|;
    if Decides(events, u, i) && About(Run(EMPTY, events), e, u) == Ignores {
      assert Decides(events + [e], u, i);
    }
  }

  /** `u` is online on the socket of event `i`, which made `u` join and was the last word. */
  predicate JoinedLast(events: seq<Event>, u: UserId, i: nat) {
    Decides(events, u, i) && AboutAt(events, u, i) == Joins && events[i].Register?
  }

  /** In every order of events, and whatever becomes of replaced sockets, a user is online exactly
      when the last event about the user made the user join, and then on the socket of that
      event. */
  lemma {:induction false} OnlineFollowsLastEvent(events: seq<Event>, u: UserId)
    requires Legal(EMPTY, events)
    ensures u in Run(EMPTY, events).connected <==> exists i: nat :: JoinedLast(events, u, i)
    ensures forall i: nat :: JoinedLast(events, u, i) ==> Run(EMPTY, events).connected[u] == events[i].socket
    decreases |events|
  {
    if events != [] {
      var n := |events| - 1;
      var (front, e) := (events[..n], events[n]);
      assert events == front + [e];
      RunPush(EMPTY, front, e);
      RunIsConsistent(EMPTY, front);
      OnlineFollowsLastEvent(front, u);
      StepOnPresence(Run(EMPTY, front), e, u);
      LastWordPush(front, e, u);
      var effect := About(Run(EMPTY, front), e, u);
      assert effect == Joins ==> JoinedLast(front + [e], u, n);
      if i: nat :| JoinedLast(front, u, i) {
        assert effect == Ignores ==> JoinedLast(front + [e], u, i);
      }
    }
  }

  lemma LastWordPush(front: seq<Event>, e: Event, u: UserId)
    requires About(Run(EMPTY, front), e, u) == Joins ==> e.Register?
    ensures var effect := About(Run(EMPTY, front), e, u);
            forall i: nat :: JoinedLast(front + [e], u, i)
              <==> if effect == Ignores then JoinedLast(front, u, i) else effect == Joins && i == |front|
  {
    AboutPush(front, e, u);
    forall i: nat
      ensures Decides(front + [e], u, i)
         <==> if About(Run(EMPTY, front), e, u) == Ignores then Decides(front, u, i) else i == |front|
    {
      DecidesPush(front, e, u, i);
    }
  }

  /** The users whose last event made them join. */
  ghost function Joined(events: seq<Event>): set<UserId> {
    set i | 0 <= i < |events| && events[i].Register? && JoinedLast(events, events[i].user, i) :: events[i].user
  }

  /** The users the registry lists, and counts, are those whose last event made them join. */
  lemma OnlineUsersAreTheJoined(events: seq<Event>)
    requires Legal(EMPTY, events)
    ensures Run(EMPTY, events).connected.Keys == Joined(events)
    ensures |Run(EMPTY, events).connected| == |Joined(events)|
  {
    var connected := Run(EMPTY, events).connected;
    forall u ensures u in connected <==> u in Joined(events) {
      OnlineFollowsLastEvent(events, u);
      if i: nat :| JoinedLast(events, u, i) {
        assert events[i].user == u;
      }
    }
    assert connected.Keys == Joined(events);
    assert |connected| == |connected.Keys|;
  }

  lemma OnlineAfterAnyRun(st: State)
    ensures forall events :: Legal(EMPTY, events) && Run(EMPTY, events) == st ==>
              st.connected.Keys == Joined(events) && |st.connected| == |Joined(events)|
  {
    forall events | Legal(EMPTY, events) && Run(EMPTY, events) == st
      ensures st.connected.Keys == Joined(events) && |st.connected| == |Joined(events)|
    {
      OnlineUsersAreTheJoined(events);
    }
  }

  predicate HasOpenSocket(st: State, u: UserId) {
    exists s :: s in st.owner && st.owner[s] == u && s !in st.closed
  }

  /** A socket that is open after `e` was open and had the same user before, or joins by `e`. */
  lemma OpenAfterStep(st: State, e: Event, s: SocketId)
    requires Consistent(st) && Enabled(st, e)
    requires s in Step(st, e).owner && s !in Step(st, e).closed
    ensures s !in st.closed
    ensures s in st.owner ==> Step(st, e).owner[s] == st.owner[s]
    ensures s !in st.owner ==> About(st, e, Step(st, e).owner[s]) == Joins
  {
  }

  predicate JoinedAt(events: seq<Event>, u: UserId, i: nat) {
    i < |events| && AboutAt(events, u, i) == Joins
  }

  /** An open socket made its user join when it registered, since one that was turned away would be
      closed. */
  lemma {:induction false} OpenSocketJoined(events: seq<Event>, s: SocketId)
    requires Legal(EMPTY, events)
    requires s in Run(EMPTY, events).owner && s !in Run(EMPTY, events).closed
    ensures exists i: nat :: JoinedAt(events, Run(EMPTY, events).owner[s], i)
    decreases |events|, 0
  {
    if events != [] {
      var n := |events| - 1;
      var (front, e) := (events[..n], events[n]);
      assert events == front + [e];
      RunPush(EMPTY, front, e);
      RunIsConsistent(EMPTY, front);
      OpenSocketJoinedPush(front, e, s);
    }
  }

  lemma {:induction false} OpenSocketJoinedPush(front: seq<Event>, e: Event, s: SocketId)
    requires Legal(EMPTY, front) && Consistent(Run(EMPTY, front)) && Enabled(Run(EMPTY, front), e)
    requires s in Step(Run(EMPTY, front), e).owner && s !in Step(Run(EMPTY, front), e).closed
    ensures exists i: nat :: JoinedAt(front + [e], Step(Run(EMPTY, front), e).owner[s], i)
    decreases |front|, 1
  {
    var u := Step(Run(EMPTY, front), e).owner[s];
    OpenAfterStep(Run(EMPTY, front), e, s);
    AboutPush(front, e, u);
    if s in Run(EMPTY, front).owner {
      OpenSocketJoined(front, s);
      var i: nat :| JoinedAt(front, u, i);
      assert JoinedAt(front + [e], u, i);
    } else {
      assert JoinedAt(front + [e], u, |front|);
    }
  }

  /** `u` left at event `i` and did not join again. */
  predicate LeftLast(events: seq<Event>, u: UserId, i: nat) {
    Decides(events, u, i) && AboutAt(events, u, i) == Leaves
  }

  lemma {:induction false} SomethingDecides(events: seq<Event>, u: UserId, i: nat)
    requires i < |events| && AboutAt(events, u, i) != Ignores
    ensures exists k: nat :: i <= k && Decides(events, u, k)
    decreases |events| - i
  {
    if !Decides(events, u, i) {
      var j: nat :| i < j < |events| && AboutAt(events, u, j) != Ignores;
      SomethingDecides(events, u, j);
    }
  }

  /** A user with an open registered socket is hidden exactly when an earlier socket of the user
      disconnected, or a further one was turned away, after the user's last registration. */
  lemma HiddenExactlyAfterLeaving(events: seq<Event>, u: UserId)
    requires Legal(EMPTY, events) && HasOpenSocket(Run(EMPTY, events), u)
    ensures u !in Run(EMPTY, events).connected <==> exists i: nat :: LeftLast(events, u, i)
  {
    var st := Run(EMPTY, events);
    var s :| s in st.owner && st.owner[s] == u && s !in st.closed;
    OpenSocketJoined(events, s);
    var i: nat :| JoinedAt(events, u, i);
    SomethingDecides(events, u, i);
    var k: nat :| Decides(events, u, k);
    OnlineFollowsLastEvent(events, u);
    if AboutAt(events, u, k) == Joins {
      JoinIsRegistration(events, u, k);
    }
    assert JoinedLast(events, u, k) || LeftLast(events, u, k);
  }

  lemma JoinIsRegistration(events: seq<Event>, u: UserId, i: nat)
    requires i < |events| && AboutAt(events, u, i) == Joins
    ensures events[i].Register?
  {
  }

  /** So the handler of a replaced socket, when it runs after the reconnection, removes its user
      although the new socket is open. */
  lemma LaterDisconnectHidesUser(first: SocketId, second: SocketId, u: UserId)
    requires first != second
    ensures
      var events := [Register(first, u, Later), Register(second, u, Later), Disconnect(first)];
      && Legal(EMPTY, events)
      && u !in Run(EMPTY, events).connected
      && second !in Run(EMPTY, events).closed && second in Run(EMPTY, events).users
  {
    var e := [Register(first, u, Later), Register(second, u, Later), Disconnect(first)];
    var (st1, st2, st3) := (Step(EMPTY, e[0]), Step(Step(EMPTY, e[0]), e[1]), Step(Step(Step(EMPTY, e[0]), e[1]), e[2]));
    assert e[1..][1..] == [e[2]];
    assert Run(EMPTY, e) == Run(st1, e[1..]) == Run(st2, [e[2]]) == Run(st3, [e[2]][1..]) == st3;
    assert Legal(st3, [e[2]][1..]) && Legal(st2, [e[2]]) && Legal(st1, e[1..]);
  }

  /** And so does a further connection for which looking up the first socket throws: the new
      socket is turned away, and its disconnect handler removes the user of the first. */
  lemma FailedLookupHidesUser(first: SocketId, second: SocketId, u: UserId, replaced: Replacement)
    requires first != second
    ensures
      var events := [Register(first, u, replaced), Register(second, u, Throws)];
      && Legal(EMPTY, events)
      && u !in Run(EMPTY, events).connected
      && first !in Run(EMPTY, events).closed && first in Run(EMPTY, events).users
  {
    var e := [Register(first, u, replaced), Register(second, u, Throws)];
    var (st1, st2) := (Step(EMPTY, e[0]), Step(Step(EMPTY, e[0]), e[1]));
    assert e[1..] == [e[1]] && [e[1]][1..] == [];
    assert Run(EMPTY, e) == Run(st1, [e[1]]) == Run(st2, []) == st2;
    assert Legal(st2, []) && Legal(st1, [e[1]]);
  }
}
