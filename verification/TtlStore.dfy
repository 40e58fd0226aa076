/** The cache store every cache user of the service shares, as a trace of operations. */
module TtlStore {
  import opened Basics
  import opened Options

  /** `Json` is an object or an array. */
  datatype Value = Null | Bool(b: bool) | Number(n: int) | Text(s: string) | Json(body: string)

  /** What JavaScript's `if (v)` tests. */
  predicate Truthy(v: Value) {
    match v
    case Null => false
    case Bool(b) => b
    case Number(n) => n != 0
    case Text(s) => s != ""
    case Json(_) => true
  }

  datatype Item = Item(value: Value, expires: Option<Instant>)

  type Store = map<string, Item>

  /** Whether an item can still be read at the very instant it expires: an in-memory store
      keeps it, Redis does not. The service can be configured with either. */
  datatype Edge = Kept | Gone

  predicate Alive(edge: Edge, expires: Option<Instant>, now: Instant) {
    expires.None? || now < expires.value || (edge == Kept && now == expires.value)
  }

  /** A time to live of 0 means that the item does not expire. */
  function ExpiryOf(ttl: nat, now: Instant): Option<Instant> {
    if ttl == 0 then None else Some(now + ttl)
  }

  function Lookup(edge: Edge, st: Store, key: string, now: Instant): Option<Value> {
    if key in st && Alive(edge, st[key].expires, now) then Some(st[key].value) else None
  }

  function Put(st: Store, key: string, v: Value, ttl: nat, now: Instant): Store {
    st[key := Item(v, ExpiryOf(ttl, now))]
  }

  /** Operations that can change the store. `Guard` is one request through the rate limiter, whose
      `ttl` is in seconds; the others are those of the cache manager, in milliseconds. */
  datatype Event =
    | Guard(key: string, limit: nat, ttl: nat, now: Instant)
    | Write(key: string, value: Value, ttl: nat, now: Instant)
    | Delete(key: string, now: Instant)
    | Clear(now: Instant)

  /** The stored request count; anything that is not a number counts as no count. */
  function CountIn(v: Option<Value>): int {
    if v.Some? && v.value.Number? then v.value.n else 0
  }

  predicate Admitted(edge: Edge, st: Store, e: Event)
    requires e.Guard?
  {
    CountIn(Lookup(edge, st, e.key, e.now)) < e.limit
  }

  function Apply(edge: Edge, st: Store, e: Event): Store {
    match e
    case Guard(key, limit, ttl, now) =>
      if Admitted(edge, st, e) then Put(st, key, Number(CountIn(Lookup(edge, st, key, now)) + 1), ttl * 1000, now)
      else st
    case Write(key, value, ttl, now) => Put(st, key, value, ttl, now)
    case Delete(key, _) => st - {key}
    case Clear(_) => map[]
  }

  function ApplyAll(edge: Edge, st: Store, events: seq<Event>): Store
    decreases |events|
  {
    if events == [] then st else ApplyAll(edge, Apply(edge, st, events[0]), events[1..])
  }

  predicate Ordered(events: seq<Event>) {
    forall i, j :: 0 <= i < j < |events| ==> events[i].now <= events[j].now
  }
}
