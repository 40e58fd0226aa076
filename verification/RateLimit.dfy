/** What the rate limiter promises about the requests it accepts under one key. */
module RateLimit {
  import opened Basics
  import opened Options
  import opened Sequences
  import opened TtlStore

  /** The instants at which requests under `k` are accepted. */
  function Accepts(edge: Edge, st: Store, events: seq<Event>, k: string): seq<Instant>
    decreases |events|
  {
    if events == [] then []
    else AcceptOf(edge, st, events[0], k) + Accepts(edge, Apply(edge, st, events[0]), events[1..], k)
  }

  function AcceptOf(edge: Edge, st: Store, e: Event, k: string): seq<Instant> {
    if e.Guard? && e.key == k && Admitted(edge, st, e) then [e.now] else []
  }

  /** Requests under `k` all carry the same options, and nothing but the limiter writes `k`. */
  predicate Limits(events: seq<Event>, k: string, limit: nat, ttl: nat) {
    forall i :: 0 <= i < |events| ==> LimitsOne(events[i], k, limit, ttl)
  }

  predicate LimitsOne(e: Event, k: string, limit: nat, ttl: nat) {
    match e
    case Guard(key, l, t, _) => key == k ==> l == limit && t == ttl
    case Write(key, _, _, _) => key != k
    case Delete(key, _) => key != k
    case Clear(_) => false
  }

  // ---- a reference that knows no store ----------------------------------------------------

  /** Has the count left by an accept at `last` expired by `now`? */
  predicate Lapsed(edge: Edge, ttl: nat, last: Instant, now: Instant) {
    !Alive(edge, ExpiryOf(ttl * 1000, last), now)
  }

  /** How many of the latest accepts `a` still count at `now`: going back from `now`, those
      before the first gap in which the count could lapse. */
  function Streak(edge: Edge, ttl: nat, a: seq<Instant>, now: Instant): nat {
    if a == [] || Lapsed(edge, ttl, a[|a| - 1], now) then 0
    else 1 + Streak(edge, ttl, a[..|a| - 1], a[|a| - 1])
  }

  predicate Sorted(a: seq<Instant>) {
    forall i, j :: 0 <= i < j < |a| ==> a[i] <= a[j]
  }

  /** The store holds, under `k`, the streak of the accepts `a` at the last of them. */
  predicate Tracks(edge: Edge, ttl: nat, st: Store, k: string, a: seq<Instant>) {
    if a == [] then k !in st
    else
      var last := a[|a| - 1];
      k in st && st[k] == Item(Number(1 + Streak(edge, ttl, a[..|a| - 1], last)), ExpiryOf(ttl * 1000, last))
  }

  /** The guard admits a request exactly when fewer than `limit` of the accepts before it still
      count. */
  lemma AdmittedIffStreakBelowLimit(edge: Edge, ttl: nat, st: Store, k: string, a: seq<Instant>, e: Event)
    requires Tracks(edge, ttl, st, k, a) && e.Guard? && e.key == k
    ensures CountIn(Lookup(edge, st, k, e.now)) == Streak(edge, ttl, a, e.now)
    ensures Admitted(edge, st, e) <==> Streak(edge, ttl, a, e.now) < e.limit
  {
  }

  /** Every accept was made with fewer than `limit` accepts counting. */
  predicate Lawful(edge: Edge, ttl: nat, limit: nat, a: seq<Instant>) {
    forall j :: 0 <= j < |a| ==> LawfulAt(edge, ttl, limit, a, j)
  }

  predicate LawfulAt(edge: Edge, ttl: nat, limit: nat, a: seq<Instant>, j: int)
    requires 0 <= j < |a|
  {
    Streak(edge, ttl, a[..j], a[j]) < limit
  }

  lemma LawfulPush(edge: Edge, ttl: nat, limit: nat, a: seq<Instant>, now: Instant)
    requires Lawful(edge, ttl, limit, a) && Streak(edge, ttl, a, now) < limit
    ensures Lawful(edge, ttl, limit, a + [now])
  {
    var b := a + [now];
    forall j | 0 <= j < |b| ensures LawfulAt(edge, ttl, limit, b, j) {
      if j < |a| {
        assert LawfulAt(edge, ttl, limit, a, j);
        assert b[..j] == a[..j];
      } else {
        assert b[..j] == a;
      }
    }
  }

  /** A guarded request keeps the store in step with the accepts, and a new accept lawful. */
  lemma GuardTracks(edge: Edge, st: Store, e: Event, limit: nat, ttl: nat, a: seq<Instant>)
    requires e.Guard? && e.limit == limit && e.ttl == ttl
    requires Tracks(edge, ttl, st, e.key, a) && Lawful(edge, ttl, limit, a)
    ensures Tracks(edge, ttl, Apply(edge, st, e), e.key, a + AcceptOf(edge, st, e, e.key))
    ensures Lawful(edge, ttl, limit, a + AcceptOf(edge, st, e, e.key))
  {
    AdmittedIffStreakBelowLimit(edge, ttl, st, e.key, a, e);
    if Admitted(edge, st, e) {
      LawfulPush(edge, ttl, limit, a, e.now);
      assert (a + [e.now])[..|a|] == a;
    } else {
      assert a + [] == a;
    }
  }

  /** Every other operation leaves the item under `k` alone. */
  lemma OthersKeepItem(edge: Edge, st: Store, e: Event, k: string, limit: nat, ttl: nat)
    requires LimitsOne(e, k, limit, ttl) && !(e.Guard? && e.key == k)
    ensures var st' := Apply(edge, st, e); (k in st' <==> k in st) && (k in st ==> st'[k] == st[k])
    ensures AcceptOf(edge, st, e, k) == []
  {
  }

  lemma StepTracks(edge: Edge, st: Store, st': Store, e: Event, k: string, limit: nat, ttl: nat, a: seq<Instant>, b: seq<Instant>)
    requires st' == Apply(edge, st, e) && b == a + AcceptOf(edge, st, e, k)
    requires Tracks(edge, ttl, st, k, a) && Lawful(edge, ttl, limit, a) && LimitsOne(e, k, limit, ttl)
    ensures Tracks(edge, ttl, st', k, b) && Lawful(edge, ttl, limit, b)
  {
    if e.Guard? && e.key == k {
      GuardTracks(edge, st, e, limit, ttl, a);
    } else {
      OthersKeepItem(edge, st, e, k, limit, ttl);
      assert b == a;
    }
  }

  lemma {:induction false} AcceptsAreLawful(edge: Edge, st: Store, events: seq<Event>, k: string, limit: nat, ttl: nat, a: seq<Instant>)
    requires Tracks(edge, ttl, st, k, a) && Lawful(edge, ttl, limit, a) && Limits(events, k, limit, ttl)
    ensures Lawful(edge, ttl, limit, a + Accepts(edge, st, events, k))
    ensures Tracks(edge, ttl, ApplyAll(edge, st, events), k, a + Accepts(edge, st, events, k))
    decreases |events|
  {
    if events == [] {
      assert a + Accepts(edge, st, events, k) == a;
    } else {
      var e, rest := events[0], events[1..];
      var st', x := Apply(edge, st, e), AcceptOf(edge, st, e, k);
      LimitsTail(events, k, limit, ttl);
      StepTracks(edge, st, st', e, k, limit, ttl, a, a + x);
      AcceptsAreLawful(edge, st', rest, k, limit, ttl, a + x);
      Regroup(a, x, Accepts(edge, st', rest, k));
    }
  }

  lemma {:induction false} AcceptsAreSorted(edge: Edge, st: Store, events: seq<Event>, k: string)
    requires Ordered(events)
    ensures Sorted(Accepts(edge, st, events, k))
    ensures var a := Accepts(edge, st, events, k); a != [] ==> events != [] && events[0].now <= a[0]
    decreases |events|
  {
    if events != [] {
      AcceptsAreSorted(edge, Apply(edge, st, events[0]), events[1..], k);
    }
  }

  lemma LimitsTail(events: seq<Event>, k: string, limit: nat, ttl: nat)
    requires events != [] && Limits(events, k, limit, ttl)
    ensures LimitsOne(events[0], k, limit, ttl) && Limits(events[1..], k, limit, ttl)
  {
    forall i | 0 <= i < |events[1..]| ensures LimitsOne(events[1..][i], k, limit, ttl) {
      assert LimitsOne(events[i + 1], k, limit, ttl);
    }
  }

  // ---- the sliding window -----------------------------------------------------------------

  /** Within less than the ttl nothing lapses, so all accepts in between still count. */
  lemma {:induction false} StreakCoversWindow(edge: Edge, ttl: nat, a: seq<Instant>, i: nat, j: nat)
    requires Sorted(a) && i <= j < |a| && a[j] - a[i] < ttl * 1000
    ensures Streak(edge, ttl, a[..j], a[j]) >= j - i
    decreases j
  {
    if i < j {
      assert a[..j][|a[..j]| - 1] == a[j - 1];
      assert a[..j][..j - 1] == a[..j - 1];
      StreakCoversWindow(edge, ttl, a, i, j - 1);
    }
  }

  /** Any `limit + 1` consecutive accepts span at least the ttl. */
  predicate Spaced(a: seq<Instant>, limit: nat, ttl: nat) {
    forall i :: 0 <= i && i + limit < |a| ==> a[i + limit] - a[i] >= ttl * 1000
  }

  /** Sliding-window rate limit: for one key with one limit and ttl, whatever else happens in the
      store, any `limit + 1` consecutive accepted requests span at least `ttl` seconds. */
  lemma SlidingWindow(edge: Edge, st: Store, events: seq<Event>, k: string, limit: nat, ttl: nat)
    requires k !in st && Limits(events, k, limit, ttl) && Ordered(events)
    ensures Sorted(Accepts(edge, st, events, k))
    ensures Spaced(Accepts(edge, st, events, k), limit, ttl)
  {
    var a := Accepts(edge, st, events, k);
    AcceptsAreLawful(edge, st, events, k, limit, ttl, []);
    AcceptsAreSorted(edge, st, events, k);
    assert [] + a == a;
    LawfulIsSpaced(edge, a, limit, ttl);
  }

  lemma LawfulIsSpaced(edge: Edge, a: seq<Instant>, limit: nat, ttl: nat)
    requires Lawful(edge, ttl, limit, a) && Sorted(a)
    ensures Spaced(a, limit, ttl)
  {
    forall i | 0 <= i && i + limit < |a| ensures a[i + limit] - a[i] >= ttl * 1000 {
      var j := i + limit;
      assert LawfulAt(edge, ttl, limit, a, j);
      if a[j] - a[i] < ttl * 1000 {
        StreakCoversWindow(edge, ttl, a, i, j);
      }
    }
  }

  /** Does an instant fall into the window of one ttl starting at `from`? */
  function Inside(from: Instant, ttl: nat): Instant -> bool {
    (t: Instant) => from <= t < from + ttl * 1000
  }

  lemma {:induction false} SpacedWindowCount(a: seq<Instant>, limit: nat, ttl: nat, from: Instant)
    requires Sorted(a) && Spaced(a, limit, ttl)
    ensures Count(a, Inside(from, ttl)) <= limit
    decreases |a|
  {
    var n := |a|;
    if n <= limit {
      CountAtMostLength(a, Inside(from, ttl));
    } else if a[n - 1] >= from + ttl * 1000 {
      SpacedWindowCount(a[..n - 1], limit, ttl, from);
    } else {
      OnlyLastCanBeInside(a, limit, ttl, from);
      var (early, late) := (a[..n - limit], a[n - limit..]);
      assert a == early + late;
      CountNone(early, Inside(from, ttl));
      CountConcat(early, late, Inside(from, ttl));
      CountAtMostLength(late, Inside(from, ttl));
    }
  }

  /** If the last accept lies before the end of the window, all but the last `limit` accepts lie
      before its start. */
  lemma OnlyLastCanBeInside(a: seq<Instant>, limit: nat, ttl: nat, from: Instant)
    requires Sorted(a) && Spaced(a, limit, ttl)
    requires |a| > limit && a[|a| - 1] < from + ttl * 1000
    ensures forall i :: 0 <= i < |a| - limit ==> a[i] < from || ttl == 0
  {
    forall i | 0 <= i < |a| - limit ensures a[i] < from || ttl == 0 {
      assert a[i + limit] - a[i] >= ttl * 1000;
      assert i + limit < |a| - 1 ==> a[i + limit] <= a[|a| - 1];
    }
  }

  /** Hence every half-open window of one ttl contains at most `limit` accepted requests. */
  lemma WindowHoldsAtMostLimit(edge: Edge, st: Store, events: seq<Event>, k: string, limit: nat, ttl: nat, from: Instant)
    requires k !in st && Limits(events, k, limit, ttl) && Ordered(events)
    ensures Count(Accepts(edge, st, events, k), Inside(from, ttl)) <= limit
  {
    SlidingWindow(edge, st, events, k, limit, ttl);
    SpacedWindowCount(Accepts(edge, st, events, k), limit, ttl, from);
  }

  /** Rejections do not extend the block: once the ttl has passed since the last accept, the next
      request is accepted, at the very instant too unless the store keeps items until then. A
      rejection therefore means that the last `limit` accepts still count. */
  lemma QuietTtlReopens(edge: Edge, st: Store, events: seq<Event>, k: string, limit: nat, ttl: nat, e: Event)
    requires k !in st && Limits(events, k, limit, ttl)
    requires e.Guard? && e.key == k && e.limit == limit
    ensures
      var a := Accepts(edge, st, events, k);
      var now := ApplyAll(edge, st, events);
      && (Admitted(edge, now, e) <==> Streak(edge, ttl, a, e.now) < limit)
      && (limit >= 1 && a == [] ==> Admitted(edge, now, e))
      && (limit >= 1 && ttl >= 1 && a != [] && e.now > a[|a| - 1] + ttl * 1000 ==> Admitted(edge, now, e))
      && (limit >= 1 && ttl >= 1 && a != [] && e.now == a[|a| - 1] + ttl * 1000 && edge == Gone ==> Admitted(edge, now, e))
      && (limit == 1 && ttl >= 1 && a != [] && a[|a| - 1] <= e.now < a[|a| - 1] + ttl * 1000 ==> !Admitted(edge, now, e))
      && (limit == 1 && ttl >= 1 && a != [] && e.now == a[|a| - 1] + ttl * 1000 && edge == Kept ==> !Admitted(edge, now, e))
  {
    var a := Accepts(edge, st, events, k);
    AcceptsAreLawful(edge, st, events, k, limit, ttl, []);
    assert [] + a == a;
    AdmittedIffStreakBelowLimit(edge, ttl, ApplyAll(edge, st, events), k, a, e);
  }

  /** Accepts that follow one another more closely than the ttl all keep counting, however long
      they take together. */
  lemma {:induction false} TrickleKeepsCounting(edge: Edge, ttl: nat, a: seq<Instant>, now: Instant)
    requires forall i :: 0 < i < |a| ==> a[i] - a[i - 1] < ttl * 1000
    requires a != [] ==> now - a[|a| - 1] < ttl * 1000
    ensures Streak(edge, ttl, a, now) == |a|
    decreases |a|
  {
    if a != [] {
      TrickleKeepsCounting(edge, ttl, a[..|a| - 1], a[|a| - 1]);
    }
  }

  /** Hence the limiter is stricter than its window: after at least `limit` accepts, each less than
      a ttl after the one before, a request less than a ttl after the last of them is refused,
      however few of them lie in the last ttl. */
  lemma TrickleIsBlocked(edge: Edge, st: Store, events: seq<Event>, k: string, limit: nat, ttl: nat, e: Event)
    requires k !in st && Limits(events, k, limit, ttl)
    requires e.Guard? && e.key == k && e.limit == limit
    requires var a := Accepts(edge, st, events, k);
             && 0 < |a| && limit <= |a|
             && (forall i :: 0 < i < |a| ==> a[i] - a[i - 1] < ttl * 1000)
             && e.now - a[|a| - 1] < ttl * 1000
    ensures !Admitted(edge, ApplyAll(edge, st, events), e)
  {
    QuietTtlReopens(edge, st, events, k, limit, ttl, e);
    TrickleKeepsCounting(edge, ttl, Accepts(edge, st, events, k), e.now);
  }

  /** With two requests allowed each second, requests at 0, 0.9 and 1.5 seconds: the third is
      refused although only one was accepted in the second before it. */
  lemma RefusedBelowTheLimit(edge: Edge, k: string)
    ensures
      var events := [Guard(k, 2, 1, 0), Guard(k, 2, 1, 900)];
      && Accepts(edge, map[], events, k) == [0, 900]
      && Count([0, 900], Inside(500, 1)) == 1
      && !Admitted(edge, ApplyAll(edge, map[], events), Guard(k, 2, 1, 1500))
  {
    var (first, second) := (Guard(k, 2, 1, 0), Guard(k, 2, 1, 900));
    var st1: Store := map[k := Item(Number(1), Some(1000))];
    FirstPasses(edge, k);
    assert [first, second][1..] == [second];
    SingleEvent(edge, st1, second, k);
    CountLatter(0, 900, Inside(500, 1));
  }

  lemma FirstPasses(edge: Edge, k: string)
    ensures Apply(edge, map[], Guard(k, 2, 1, 0)) == map[k := Item(Number(1), Some(1000))]
    ensures AcceptOf(edge, map[], Guard(k, 2, 1, 0), k) == [0]
  {
  }

  lemma CountLatter(s: Instant, t: Instant, p: Instant -> bool)
    requires !p(s) && p(t)
    ensures Count([s, t], p) == 1
  {
    assert [s, t] == [s] + [t];
    CountPush([s], t, p);
    CountNone([s], p);
  }

  lemma SingleEvent(edge: Edge, st: Store, e: Event, k: string)
    ensures ApplyAll(edge, st, [e]) == Apply(edge, st, e)
    ensures Accepts(edge, st, [e], k) == AcceptOf(edge, st, e, k)
  {
    assert [e][1..] == [];
    assert AcceptOf(edge, st, e, k) + [] == AcceptOf(edge, st, e, k);
  }
}
