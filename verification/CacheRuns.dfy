/** Runs of requests through all users of the cache store, and what each of them is promised over
    any run. A response or a value that was made is stored only later, so other requests can come
    in between. */
module CacheRuns {
  import opened Basics
  import opened Options
  import opened Sequences
  import opened TtlStore
  import opened RateLimit
  import opened ResponseCache

  /** How the store is configured. */
  datatype Config = Config(edge: Edge, defaultTtl: nat)

  /** A request that passes the interceptor, and what its handler says at that instant. `ttl` is
      the route's, in seconds. */
  datatype Visit = Visit(verb: string, route: Route, response: Value, ttl: nat, at: Instant)

  /** A value for the cache service, with a time to live in seconds, 0 when none is given. */
  datatype Entry = Entry(key: string, value: Value, ttl: nat, at: Instant)

  datatype Op =
    | Serve(visit: Visit)
    | Tap(which: nat, now: Instant) // an outstanding response reaches the store
    | Limit(identifier: string, url: string, limit: nat, ttl: nat, now: Instant)
    | Ask(entry: Entry) // `getOrSet`, up to the call of a factory that makes the value
    | Finish(which: nat, now: Instant) // an outstanding value of `getOrSet` reaches the store
    | Save(entry: Entry)
    | Remove(key: string, now: Instant)
    | Reset(now: Instant)

  function At(op: Op): Instant {
    match op
    case Serve(v) => v.at
    case Tap(_, now) => now
    case Limit(_, _, _, _, now) => now
    case Ask(e) => e.at
    case Finish(_, now) => now
    case Save(e) => e.at
    case Remove(_, now) => now
    case Reset(now) => now
  }

  /** The store, the responses that missed it and the values made for it, both not stored yet. */
  datatype State = State(store: Store, missed: seq<Visit>, made: seq<Entry>)

  const EMPTY: State := State(map[], [], [])

  function Without<T>(s: seq<T>, i: nat): seq<T>
    requires i < |s|
  {
    s[..i] + s[i + 1..]
  }

  function TtlOf(c: Config, e: Entry): nat {
    if e.ttl != 0 then e.ttl * 1000 else c.defaultTtl
  }

  predicate Misses(c: Config, st: State, v: Visit) {
    v.verb == "GET" && !Hit(c.edge, st.store, ResponseKey(v.route), v.at)
  }

  /** What `op` does to the store, if anything. */
  function EventsOf(c: Config, st: State, op: Op): seq<Event> {
    match op
    case Serve(_) => []
    case Tap(i, now) =>
      if i >= |st.missed| then []
      else [Write(ResponseKey(st.missed[i].route), st.missed[i].response, RouteTtl(st.missed[i].ttl) * 1000, now)]
    case Limit(identifier, url, limit, ttl, now) => [Guard(RateKey(identifier, url), limit, ttl, now)]
    case Ask(_) => []
    case Finish(i, now) =>
      if i >= |st.made| then [] else [Write(st.made[i].key, st.made[i].value, TtlOf(c, st.made[i]), now)]
    case Save(e) => [Write(e.key, e.value, TtlOf(c, e), e.at)]
    case Remove(key, now) => [Delete(key, now)]
    case Reset(now) => [Clear(now)]
  }

  function Step(c: Config, st: State, op: Op): State {
    var store := ApplyAll(c.edge, st.store, EventsOf(c, st, op));
    match op
    case Serve(v) => State(store, if Misses(c, st, v) then st.missed + [v] else st.missed, st.made)
    case Tap(i, _) => State(store, if i < |st.missed| then Without(st.missed, i) else st.missed, st.made)
    case Ask(e) => State(store, st.missed, if Has(c.edge, st.store, e.key, e.at) then st.made else st.made + [e])
    case Finish(i, _) => State(store, st.missed, if i < |st.made| then Without(st.made, i) else st.made)
    case _ => State(store, st.missed, st.made)
  }

  function Run(c: Config, st: State, ops: seq<Op>): State
    decreases |ops|
  {
    if ops == [] then st else Run(c, Step(c, st, ops[0]), ops[1..])
  }

  /** What a request is answered. One that is not a GET asks its handler. */
  function Response(c: Config, st: State, v: Visit): Value {
    if v.verb != "GET" then v.response
    else Served(c.edge, st.store, ResponseKey(v.route), v.at, v.response)
  }

  predicate InOrder(ops: seq<Op>) {
    forall i, j :: 0 <= i < j < |ops| ==> At(ops[i]) <= At(ops[j])
  }

  // ---- bounded staleness ------------------------------------------------------------------

  /** Does `op` leave storing under `k` to the interceptor? */
  predicate LeavesToInterceptor(op: Op, k: string) {
    match op
    case Ask(e) => e.key != k
    case Save(e) => e.key != k
    case _ => true
  }

  /** No response of the run is stored more than `delay` after it was made. */
  predicate Prompt(c: Config, st: State, ops: seq<Op>, delay: nat)
    decreases |ops|
  {
    ops != [] ==>
      && (ops[0].Tap? && ops[0].which < |st.missed| ==> ops[0].now - st.missed[ops[0].which].at <= delay)
      && Prompt(c, Step(c, st, ops[0]), ops[1..], delay)
  }

  /** `v` is a GET for `k` among the requests `past`. */
  predicate IsSource(past: seq<Op>, k: string, v: Visit) {
    Serve(v) in past && v.verb == "GET" && ResponseKey(v.route) == k
  }

  /** A response from `v` that expires no later than its route allows. */
  predicate StoredFrom(item: Item, v: Visit, delay: nat) {
    && item.value == v.response
    && item.expires.Some? && item.expires.value <= v.at + delay + RouteTtl(v.ttl) * 1000
  }

  /** Every outstanding response belongs to a GET of the past, and so does the item under `k`. */
  ghost predicate Sourced(st: State, past: seq<Op>, k: string, delay: nat) {
    && (forall v :: v in st.missed ==> Serve(v) in past && v.verb == "GET")
    && (forall e :: e in st.made ==> e.key != k)
    && (k in st.store ==> exists v :: IsSource(past, k, v) && StoredFrom(st.store[k], v, delay))
  }

  lemma StepKeepsSourced(c: Config, st: State, past: seq<Op>, op: Op, k: string, delay: nat)
    requires Sourced(st, past, k, delay) && LeavesToInterceptor(op, k)
    requires op.Tap? && op.which < |st.missed| ==> op.now - st.missed[op.which].at <= delay
    requires forall identifier, url :: k != RateKey(identifier, url)
    ensures Sourced(Step(c, st, op), past + [op], k, delay)
  {
    var (st', present) := (Step(c, st, op), past + [op]);
    StoreAfterStep(c, st, op);
    assert forall o :: o in past ==> o in present;
    if k in st.store {
      var v :| IsSource(past, k, v) && StoredFrom(st.store[k], v, delay);
      assert IsSource(present, k, v);
    }
    if op.Serve? {
      assert op in present;
    }
    if op.Tap? && op.which < |st.missed| {
      var v := st.missed[op.which];
      assert v in st.missed;
      assert ResponseKey(v.route) == k ==> IsSource(present, k, v) && StoredFrom(st'.store[k], v, delay);
    }
  }

  lemma StoreAfterStep(c: Config, st: State, op: Op)
    ensures Step(c, st, op).store ==
              var es := EventsOf(c, st, op);
              if es == [] then st.store else Apply(c.edge, st.store, es[0])
  {
    var es := EventsOf(c, st, op);
    if es != [] {
      var store := Apply(c.edge, st.store, es[0]);
      assert es[1..] == [];
      assert ApplyAll(c.edge, st.store, es) == ApplyAll(c.edge, store, []) == store;
    }
  }

  lemma {:induction false} RunKeepsSourced(c: Config, st: State, past: seq<Op>, ops: seq<Op>, k: string, delay: nat)
    requires Sourced(st, past, k, delay) && Prompt(c, st, ops, delay)
    requires forall i :: 0 <= i < |ops| ==> LeavesToInterceptor(ops[i], k)
    requires forall identifier, url :: k != RateKey(identifier, url)
    ensures Sourced(Run(c, st, ops), past + ops, k, delay)
    decreases |ops|
  {
    if ops == [] {
      assert past + ops == past;
    } else {
      StepKeepsSourced(c, st, past, ops[0], k, delay);
      RunKeepsSourced(c, Step(c, st, ops[0]), past + [ops[0]], ops[1..], k, delay);
      assert past + [ops[0]] + ops[1..] == past + ops;
    }
  }

  lemma SourcedAfterRun(c: Config, ops: seq<Op>, route: Route, delay: nat)
    requires Prompt(c, EMPTY, ops, delay)
    requires forall i :: 0 <= i < |ops| ==> LeavesToInterceptor(ops[i], ResponseKey(route))
    ensures Sourced(Run(c, EMPTY, ops), ops, ResponseKey(route), delay)
  {
    var k := ResponseKey(route);
    forall identifier, url ensures k != RateKey(identifier, url) {
      KeysAreApart(identifier, url, route);
    }
    RunKeepsSourced(c, EMPTY, [], ops, k, delay);
    assert [] + ops == ops;
  }

  /** A hit hands out the response of a GET whose time to live has not passed. */
  lemma HitHasSource(c: Config, st: State, past: seq<Op>, visit: Visit, delay: nat) returns (v: Visit)
    requires Sourced(st, past, ResponseKey(visit.route), delay) && visit.verb == "GET"
    requires Hit(c.edge, st.store, ResponseKey(visit.route), visit.at)
    ensures IsSource(past, ResponseKey(visit.route), v)
    ensures v.response == Response(c, st, visit) && visit.at <= v.at + delay + RouteTtl(v.ttl) * 1000
  {
    var k := ResponseKey(visit.route);
    v :| IsSource(past, k, v) && StoredFrom(st.store[k], v, delay);
  }

  /** Bounded staleness: in any run of requests, a GET is answered with what the handler said to
      that GET, or to an earlier one with the same key, at most the ttl of its route, by default a
      minute, and the time a response takes to be stored before. If user ids contain no colon, the
      earlier one had the same custom key or, without one, the same user and URL. */
  lemma BoundedStaleness(c: Config, ops: seq<Op>, n: nat, delay: nat)
    requires n < |ops| && InOrder(ops) && ops[n].Serve? && ops[n].visit.verb == "GET"
    requires Prompt(c, EMPTY, ops[..n], delay)
    requires forall i :: 0 <= i < n ==> LeavesToInterceptor(ops[i], ResponseKey(ops[n].visit.route))
    ensures exists v ::
              && IsSource(ops[..n + 1], ResponseKey(ops[n].visit.route), v)
              && v.response == Response(c, Run(c, EMPTY, ops[..n]), ops[n].visit)
              && At(ops[n]) - ((if v.ttl == 0 then 60 else v.ttl) * 1000 + delay) <= v.at <= At(ops[n])
              && (Lacks(v.route.user, ':') && Lacks(ops[n].visit.route.user, ':') ==> SameReader(v.route, ops[n].visit.route))
  {
    var past := ops[..n];
    SourcedAfterRun(c, past, ops[n].visit.route, delay);
    assert ops[..n + 1] == past + [ops[n]];
    forall v | Serve(v) in past ensures v.at <= At(ops[n]) {
      var i :| 0 <= i < n && past[i] == Serve(v);
      assert At(ops[i]) <= At(ops[n]);
    }
    var v := AnswerHasSource(c, Run(c, EMPTY, past), past, ops[n].visit, delay);
    if Lacks(v.route.user, ':') && Lacks(ops[n].visit.route.user, ':') {
      SameKeyExactly(v.route, ops[n].visit.route);
    }
  }

  lemma AnswerHasSource(c: Config, st: State, past: seq<Op>, visit: Visit, delay: nat) returns (v: Visit)
    requires Sourced(st, past, ResponseKey(visit.route), delay) && visit.verb == "GET"
    requires forall v :: Serve(v) in past ==> v.at <= visit.at
    ensures IsSource(past + [Serve(visit)], ResponseKey(visit.route), v) && v.response == Response(c, st, visit)
    ensures visit.at - (RouteTtl(v.ttl) * 1000 + delay) <= v.at <= visit.at
  {
    if Hit(c.edge, st.store, ResponseKey(visit.route), visit.at) {
      v := HitHasSource(c, st, past, visit, delay);
    } else {
      v := visit;
    }
  }

  // ---- what is cached stays cached --------------------------------------------------------

  /** What JavaScript takes for false. */
  predicate Falsy(v: Value) {
    v == Null || v == Bool(false) || v == Number(0) || v == Text("")
  }

  predicate SparesOne(es: seq<Event>, k: string) {
    forall i :: 0 <= i < |es| ==> !es[i].Clear? && es[i].key != k
  }

  /** Nothing in this run is stored or deleted under `k`, nor is the store reset. */
  predicate Spares(c: Config, st: State, ops: seq<Op>, k: string)
    decreases |ops|
  {
    ops != [] ==> SparesOne(EventsOf(c, st, ops[0]), k) && Spares(c, Step(c, st, ops[0]), ops[1..], k)
  }

  lemma {:induction false} ItemStays(c: Config, st: State, ops: seq<Op>, k: string)
    requires Spares(c, st, ops, k)
    ensures k in Run(c, st, ops).store <==> k in st.store
    ensures k in st.store ==> Run(c, st, ops).store[k] == st.store[k]
    decreases |ops|
  {
    if ops != [] {
      StoreAfterStep(c, st, ops[0]);
      ItemStays(c, Step(c, st, ops[0]), ops[1..], k);
    }
  }

  /** Is an item stored at `at` for so many milliseconds, or for ever, still there? */
  predicate Lasts(at: Instant, ttl: nat, now: Instant) {
    ttl == 0 || now < at + ttl
  }

  lemma Found(edge: Edge, st: Store, k: string, v: Value, ttl: nat, at: Instant, now: Instant)
    requires k in st && st[k] == Item(v, if ttl == 0 then None else Some(at + ttl)) && Lasts(at, ttl, now)
    ensures Lookup(edge, st, k, now) == Some(v)
  {
  }

  /** Once the response of a GET is stored, requests for it by the same reader get that response and
      do not ask the handler, until the ttl of the route has passed or something else is stored or
      deleted under its key. */
  lemma HitUntilExpiry(c: Config, st: State, i: nat, at: Instant, ops: seq<Op>, visit: Visit)
    requires i < |st.missed| && !Falsy(st.missed[i].response)
    requires Spares(c, Step(c, st, Tap(i, at)), ops, ResponseKey(st.missed[i].route))
    requires visit.verb == "GET" && SameReader(visit.route, st.missed[i].route)
    requires visit.at < at + (if st.missed[i].ttl == 0 then 60 else st.missed[i].ttl) * 1000
    ensures var now := Run(c, Step(c, st, Tap(i, at)), ops);
            Response(c, now, visit) == st.missed[i].response && Step(c, now, Serve(visit)) == now
  {
    var (v, st1) := (st.missed[i], Step(c, st, Tap(i, at)));
    StoreAfterStep(c, st, Tap(i, at));
    assert ResponseKey(visit.route) == ResponseKey(v.route);
    ItemStays(c, st1, ops, ResponseKey(v.route));
    Found(c.edge, Run(c, st1, ops).store, ResponseKey(v.route), v.response, RouteTtl(v.ttl) * 1000, at, visit.at);
    StoreAfterStep(c, Run(c, st1, ops), Serve(visit));
  }

  /** A request that is not a GET is left to its handler and changes nothing; and so is a GET whose
      item is falsy, has been deleted, or has gone with a reset, except that its response will be
      stored. */
  lemma AskedAgain(c: Config, st: State, visit: Visit)
    ensures visit.verb != "GET" ==> Response(c, st, visit) == visit.response && Step(c, st, Serve(visit)) == st
    ensures visit.verb == "GET" && ResponseKey(visit.route) in st.store && Falsy(st.store[ResponseKey(visit.route)].value) ==>
              Response(c, st, visit) == visit.response && Step(c, st, Serve(visit)).missed == st.missed + [visit]
    ensures forall now ::
              var st' := Step(c, st, Remove(ResponseKey(visit.route), now));
              Response(c, st', visit) == visit.response
    ensures forall now :: var st' := Step(c, st, Reset(now)); Response(c, st', visit) == visit.response
  {
    StoreAfterStep(c, st, Serve(visit));
    forall now ensures var st' := Step(c, st, Remove(ResponseKey(visit.route), now)); Response(c, st', visit) == visit.response {
      StoreAfterStep(c, st, Remove(ResponseKey(visit.route), now));
    }
    forall now ensures var st' := Step(c, st, Reset(now)); Response(c, st', visit) == visit.response {
      StoreAfterStep(c, st, Reset(now));
    }
  }

  // ---- cache-aside ------------------------------------------------------------------------

  /** Under `k` the cache service is only ever given the value `made`, and nobody else stores. */
  predicate Gives(op: Op, k: string, made: Value) {
    match op
    case Serve(v) => v.verb == "GET" ==> ResponseKey(v.route) != k
    case Limit(identifier, url, _, _, _) => RateKey(identifier, url) != k
    case Ask(e) => e.key == k ==> e.value == made
    case Save(e) => e.key == k ==> e.value == made
    case _ => true
  }

  predicate HoldsOnly(st: State, k: string, made: Value) {
    && (forall v :: v in st.missed ==> ResponseKey(v.route) != k)
    && (forall e :: e in st.made && e.key == k ==> e.value == made)
    && (k in st.store ==> st.store[k].value == made)
  }

  lemma StepHoldsOnly(c: Config, st: State, op: Op, k: string, made: Value)
    requires HoldsOnly(st, k, made) && Gives(op, k, made)
    ensures HoldsOnly(Step(c, st, op), k, made)
  {
    StoreAfterStep(c, st, op);
    assert op.Tap? && op.which < |st.missed| ==> st.missed[op.which] in st.missed;
    assert op.Finish? && op.which < |st.made| ==> st.made[op.which] in st.made;
  }

  lemma {:induction false} RunHoldsOnly(c: Config, st: State, ops: seq<Op>, k: string, made: Value)
    requires HoldsOnly(st, k, made)
    requires forall i :: 0 <= i < |ops| ==> Gives(ops[i], k, made)
    ensures HoldsOnly(Run(c, st, ops), k, made)
    decreases |ops|
  {
    if ops != [] {
      StepHoldsOnly(c, st, ops[0], k, made);
      RunHoldsOnly(c, Step(c, st, ops[0]), ops[1..], k, made);
    }
  }

  /** Cache-aside is transparent: if every factory and every `set` for a key makes the same value,
      each `getOrSet` of any run returns it, however stores, deletes, resets and expiries come in
      between and whatever the clock says. */
  lemma CacheAsideIsTransparent(c: Config, ops: seq<Op>, n: nat, made: Value)
    requires n < |ops| && ops[n].Ask?
    requires forall i :: 0 <= i <= n ==> Gives(ops[i], ops[n].entry.key, made)
    ensures var e := ops[n].entry;
            Got(c.edge, Run(c, EMPTY, ops[..n]).store, e.key, e.at, e.value) == made
  {
    RunHoldsOnly(c, EMPTY, ops[..n], ops[n].entry.key, made);
    assert Gives(ops[n], ops[n].entry.key, made);
  }

  /** Once a value other than null is stored, by `set` or at the end of `getOrSet`, `getOrSet` returns
      it without another call of the factory, until its ttl in seconds, or the default of the store,
      has passed or something else is stored or deleted under its key. */
  lemma ValueUntilExpiry(c: Config, st: State, e: Entry, store: Op, at: Instant, ops: seq<Op>, asked: Entry)
    requires (store == Save(e) && at == e.at)
          || (store.Finish? && store.now == at && store.which < |st.made| && st.made[store.which] == e)
    requires e.value != Null && asked.key == e.key
    requires Spares(c, Step(c, st, store), ops, e.key)
    requires Lasts(at, if e.ttl != 0 then e.ttl * 1000 else c.defaultTtl, asked.at)
    ensures var now := Run(c, Step(c, st, store), ops);
            Got(c.edge, now.store, asked.key, asked.at, asked.value) == e.value && Step(c, now, Ask(asked)) == now
  {
    var st1 := Step(c, st, store);
    StoreAfterStep(c, st, store);
    ItemStays(c, st1, ops, e.key);
    Found(c.edge, Run(c, st1, ops).store, e.key, e.value, if e.ttl != 0 then e.ttl * 1000 else c.defaultTtl, at, asked.at);
    StoreAfterStep(c, Run(c, st1, ops), Ask(asked));
  }

  /** After its key is deleted or the store reset, `getOrSet` returns what its factory makes. */
  lemma MadeAgain(c: Config, st: State, asked: Entry, now: Instant)
    ensures Got(c.edge, Step(c, st, Remove(asked.key, now)).store, asked.key, asked.at, asked.value) == asked.value
    ensures Got(c.edge, Step(c, st, Reset(now)).store, asked.key, asked.at, asked.value) == asked.value
  {
    StoreAfterStep(c, st, Remove(asked.key, now));
    StoreAfterStep(c, st, Reset(now));
  }

  // ---- the limiter beside the others ------------------------------------------------------

  /** What happens to the store in a run. */
  function Trace(c: Config, st: State, ops: seq<Op>): seq<Event>
    decreases |ops|
  {
    if ops == [] then [] else EventsOf(c, st, ops[0]) + Trace(c, Step(c, st, ops[0]), ops[1..])
  }

  predicate NotBefore(events: seq<Event>, t: Instant) {
    forall i :: 0 <= i < |events| ==> t <= events[i].now
  }

  lemma EventsAreNow(c: Config, st: State, op: Op)
    ensures |EventsOf(c, st, op)| <= 1
    ensures forall i :: 0 <= i < |EventsOf(c, st, op)| ==> EventsOf(c, st, op)[i].now == At(op)
  {
  }

  lemma {:induction false} TraceInOrder(c: Config, st: State, ops: seq<Op>)
    requires InOrder(ops)
    ensures Ordered(Trace(c, st, ops))
    ensures ops != [] ==> NotBefore(Trace(c, st, ops), At(ops[0]))
    decreases |ops|
  {
    if ops != [] {
      TraceInOrder(c, Step(c, st, ops[0]), ops[1..]);
      EventsAreNow(c, st, ops[0]);
      if |ops| > 1 {
        assert At(ops[0]) <= At(ops[1]);
        assert NotBefore(Trace(c, Step(c, st, ops[0]), ops[1..]), At(ops[1]));
      }
    }
  }

  /** Every request under the limiter's key `k` has these options, and the cache service neither
      stores nor deletes under `k`, nor resets the store. */
  predicate Respects(op: Op, k: string, limit: nat, ttl: nat) {
    match op
    case Limit(identifier, url, l, t, _) => RateKey(identifier, url) == k ==> l == limit && t == ttl
    case Ask(e) => e.key != k
    case Save(e) => e.key != k
    case Remove(key, _) => key != k
    case Reset(_) => false
    case _ => true
  }

  lemma StepLimits(c: Config, st: State, op: Op, identifier: string, url: string, limit: nat, ttl: nat)
    requires var k := RateKey(identifier, url);
             Respects(op, k, limit, ttl) && forall e :: e in st.made ==> e.key != k
    ensures var k := RateKey(identifier, url);
            && Limits(EventsOf(c, st, op), k, limit, ttl)
            && forall e :: e in Step(c, st, op).made ==> e.key != k
  {
    if op.Tap? && op.which < |st.missed| {
      KeysAreApart(identifier, url, st.missed[op.which].route);
    }
  }

  lemma {:induction false} TraceLimits(c: Config, st: State, ops: seq<Op>, identifier: string, url: string, limit: nat, ttl: nat)
    requires forall i :: 0 <= i < |ops| ==> Respects(ops[i], RateKey(identifier, url), limit, ttl)
    requires forall e :: e in st.made ==> e.key != RateKey(identifier, url)
    ensures Limits(Trace(c, st, ops), RateKey(identifier, url), limit, ttl)
    decreases |ops|
  {
    if ops != [] {
      StepLimits(c, st, ops[0], identifier, url, limit, ttl);
      TraceLimits(c, Step(c, st, ops[0]), ops[1..], identifier, url, limit, ttl);
    }
  }

  /** The instants at which the limiter lets requests of `identifier` for `url` pass. */
  function Passes(c: Config, st: State, ops: seq<Op>, identifier: string, url: string): seq<Instant>
    decreases |ops|
  {
    if ops == [] then []
    else PassOf(c, st, ops[0], identifier, url) + Passes(c, Step(c, st, ops[0]), ops[1..], identifier, url)
  }

  function PassOf(c: Config, st: State, op: Op, identifier: string, url: string): seq<Instant> {
    if op.Limit? && RateKey(op.identifier, op.url) == RateKey(identifier, url)
       && Admitted(c.edge, st.store, EventsOf(c, st, op)[0])
    then [At(op)] else []
  }

  lemma PassIsAccept(c: Config, st: State, op: Op, identifier: string, url: string)
    ensures PassOf(c, st, op, identifier, url)
         == var es := EventsOf(c, st, op);
            if es == [] then [] else AcceptOf(c.edge, st.store, es[0], RateKey(identifier, url))
  {
  }

  lemma AcceptsCons(edge: Edge, st: Store, es: seq<Event>, rest: seq<Event>, k: string)
    requires |es| <= 1
    ensures Accepts(edge, st, es + rest, k)
         == if es == [] then Accepts(edge, st, rest, k)
            else AcceptOf(edge, st, es[0], k) + Accepts(edge, Apply(edge, st, es[0]), rest, k)
  {
    if es == [] {
      assert es + rest == rest;
    } else {
      assert (es + rest)[1..] == rest && (es + rest)[0] == es[0];
    }
  }

  lemma {:induction false} PassesAreAccepts(c: Config, st: State, ops: seq<Op>, identifier: string, url: string)
    ensures Passes(c, st, ops, identifier, url) == Accepts(c.edge, st.store, Trace(c, st, ops), RateKey(identifier, url))
    decreases |ops|
  {
    if ops != [] {
      var st' := Step(c, st, ops[0]);
      PassesAreAccepts(c, st', ops[1..], identifier, url);
      PassIsAccept(c, st, ops[0], identifier, url);
      StoreAfterStep(c, st, ops[0]);
      AcceptsCons(c.edge, st.store, EventsOf(c, st, ops[0]), Trace(c, st', ops[1..]), RateKey(identifier, url));
    }
  }

  /** However requests, cached responses and values of the cache service interleave in the shared
      store, the window bound of the limiter holds for every identifier and URL, as long as the
      cache service keeps off its key and does not reset the store. */
  lemma LimiterBesideCache(c: Config, ops: seq<Op>, identifier: string, url: string, limit: nat, ttl: nat, from: Instant)
    requires InOrder(ops)
    requires forall i :: 0 <= i < |ops| ==> Respects(ops[i], RateKey(identifier, url), limit, ttl)
    ensures Count(Passes(c, EMPTY, ops, identifier, url), Inside(from, ttl)) <= limit
  {
    TraceInOrder(c, EMPTY, ops);
    TraceLimits(c, EMPTY, ops, identifier, url, limit, ttl);
    PassesAreAccepts(c, EMPTY, ops, identifier, url);
    WindowHoldsAtMostLimit(c.edge, map[], Trace(c, EMPTY, ops), RateKey(identifier, url), limit, ttl, from);
  }

  // ---- one client does not use up the limit of another ------------------------------------

  /** The cache service does not store under `k`, and the limiter has no request for this identifier
      and URL; identifiers contain no slash and URLs start with one. */
  predicate Unrelated(op: Op, k: string, identifier: string, url: string) {
    match op
    case Ask(e) => e.key != k
    case Save(e) => e.key != k
    case Limit(i, u, _, _, _) => Lacks(i, '/') && "/" <= u && (i != identifier || u != url)
    case _ => true
  }

  lemma StepLeavesCount(c: Config, st: State, op: Op, identifier: string, url: string)
    requires Lacks(identifier, '/') && "/" <= url
    requires var k := RateKey(identifier, url);
             Unrelated(op, k, identifier, url) && k !in st.store && forall e :: e in st.made ==> e.key != k
    ensures var (k, st') := (RateKey(identifier, url), Step(c, st, op));
            k !in st'.store && forall e :: e in st'.made ==> e.key != k
  {
    StoreAfterStep(c, st, op);
    if op.Limit? {
      SameRateKeyExactly(op.identifier, identifier, op.url, url);
    }
    if op.Tap? && op.which < |st.missed| {
      KeysAreApart(identifier, url, st.missed[op.which].route);
    }
    assert op.Finish? && op.which < |st.made| ==> st.made[op.which] in st.made;
  }

  lemma {:induction false} RunLeavesCount(c: Config, st: State, ops: seq<Op>, identifier: string, url: string)
    requires Lacks(identifier, '/') && "/" <= url
    requires var k := RateKey(identifier, url);
             && k !in st.store && (forall e :: e in st.made ==> e.key != k)
             && forall i :: 0 <= i < |ops| ==> Unrelated(ops[i], k, identifier, url)
    ensures RateKey(identifier, url) !in Run(c, st, ops).store
    decreases |ops|
  {
    if ops != [] {
      StepLeavesCount(c, st, ops[0], identifier, url);
      RunLeavesCount(c, Step(c, st, ops[0]), ops[1..], identifier, url);
    }
  }

  /** Whatever others request, and however often, the first request of an identifier for a URL is
      admitted. */
  lemma FirstRequestIsAdmitted(c: Config, ops: seq<Op>, request: Op)
    requires request.Limit? && request.limit >= 1 && Lacks(request.identifier, '/') && "/" <= request.url
    requires forall i :: 0 <= i < |ops| ==>
               Unrelated(ops[i], RateKey(request.identifier, request.url), request.identifier, request.url)
    ensures PassOf(c, Run(c, EMPTY, ops), request, request.identifier, request.url) == [request.now]
  {
    RunLeavesCount(c, EMPTY, ops, request.identifier, request.url);
  }
}
