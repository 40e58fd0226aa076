/** The keys of the cache users, and what one request to each of them is answered. */
module ResponseCache {
  import opened Basics
  import opened TtlStore

  /** What a cached response is filed under: the route's own key, the user and the URL. Absent
      strings are empty. */
  datatype Route = Route(custom: string, user: string, url: string)

  function RateKey(identifier: string, url: string): string {
    "rate_limit:" + identifier + ":" + url
  }

  /** The key of a GET response: the route's own key if it has one, else user and URL. */
  function ResponseKey(route: Route): string {
    if route.custom != "" then "custom:" + route.custom
    else "cache:" + (if route.user != "" then route.user else "anonymous") + ":" + route.url
  }

  /** The limiter and the response cache share one store and never touch each other's items. */
  lemma KeysAreApart(identifier: string, url: string, route: Route)
    ensures RateKey(identifier, url) != ResponseKey(route)
  {
    assert RateKey(identifier, url)[0] == 'r';
    assert ResponseKey(route)[0] == 'c';
  }

  predicate Lacks(s: string, c: char) {
    forall i :: 0 <= i < |s| ==> s[i] != c
  }

  /** Is a response for `a` one for `b`: the same custom key, or, where neither has one, the same
      user, if any, and the same URL? */
  predicate SameReader(a: Route, b: Route) {
    if a.custom != "" || b.custom != "" then a.custom == b.custom
    else
      && (if a.user == "" then "anonymous" else a.user) == (if b.user == "" then "anonymous" else b.user)
      && a.url == b.url
  }

  /** `c` stands at `n` in `s`, and nowhere before. */
  predicate FirstAt(s: string, c: char, n: nat) {
    n < |s| && s[n] == c && forall i :: 0 <= i < n ==> s[i] != c
  }

  lemma FirstIsUnique(s: string, c: char, m: nat, n: nat)
    requires FirstAt(s, c, m) && FirstAt(s, c, n)
    ensures m == n
  {
  }

  lemma ColonSplits(a: string, b: string, x: string, y: string)
    requires Lacks(a, ':') && Lacks(b, ':') && a + ":" + x == b + ":" + y
    ensures a == b && x == y
  {
    assert FirstAt(a + ":" + x, ':', |a|) && FirstAt(b + ":" + y, ':', |b|);
    FirstIsUnique(a + ":" + x, ':', |a|, |b|);
    SameParts(a, b, x, y);
  }

  lemma SameParts(a: string, b: string, x: string, y: string)
    requires |a| == |b| && a + ":" + x == b + ":" + y
    ensures a == b && x == y
  {
    var (s, t) := (a + ":" + x, b + ":" + y);
    assert s[..|a|] == a && t[..|b|] == b && s[|a| + 1..] == x && t[|b| + 1..] == y;
  }

  lemma PrefixDrops(prefix: string, a: string, b: string)
    requires prefix + a == prefix + b
    ensures a == b
  {
    assert (prefix + a)[|prefix|..] == a && (prefix + b)[|prefix|..] == b;
  }

  /** Two responses share a key exactly when they have the same custom key or, without one, the same
      user and URL, as long as user ids contain no colon. */
  lemma SameKeyExactly(a: Route, b: Route)
    requires Lacks(a.user, ':') && Lacks(b.user, ':')
    ensures ResponseKey(a) == ResponseKey(b) <==> SameReader(a, b)
  {
    if ResponseKey(a) == ResponseKey(b) {
      assert ResponseKey(a)[1] == (if a.custom != "" then 'u' else 'a');
      assert ResponseKey(b)[1] == (if b.custom != "" then 'u' else 'a');
      if a.custom != "" {
        PrefixDrops("custom:", a.custom, b.custom);
      } else {
        var (u, v) := (if a.user == "" then "anonymous" else a.user, if b.user == "" then "anonymous" else b.user);
        assert ResponseKey(a) == "cache:" + (u + ":" + a.url) && ResponseKey(b) == "cache:" + (v + ":" + b.url);
        PrefixDrops("cache:", u + ":" + a.url, v + ":" + b.url);
        ColonSplits(u, v, a.url, b.url);
      }
    }
  }

  /** The limiter tells identifiers and URLs apart, as long as identifiers contain no slash and URLs
      start with one. */
  lemma SameRateKeyExactly(a: string, b: string, x: string, y: string)
    requires Lacks(a, '/') && Lacks(b, '/') && "/" <= x && "/" <= y
    ensures RateKey(a, x) == RateKey(b, y) <==> a == b && x == y
  {
    if RateKey(a, x) == RateKey(b, y) {
      assert RateKey(a, x) == "rate_limit:" + (a + ":" + x) && RateKey(b, y) == "rate_limit:" + (b + ":" + y);
      PrefixDrops("rate_limit:", a + ":" + x, b + ":" + y);
      SlashSplits(a, b, x, y);
    }
  }

  lemma SlashSplits(a: string, b: string, x: string, y: string)
    requires Lacks(a, '/') && Lacks(b, '/') && "/" <= x && "/" <= y && a + ":" + x == b + ":" + y
    ensures a == b && x == y
  {
    assert FirstAt(a + ":" + x, '/', |a| + 1) && FirstAt(b + ":" + y, '/', |b| + 1);
    FirstIsUnique(a + ":" + x, '/', |a| + 1, |b| + 1);
    SameParts(a, b, x, y);
  }

  /** The time to live of a route in seconds; none, or 0, means a minute. */
  function RouteTtl(metadata: nat): (ttl: nat)
    ensures ttl >= 1
  {
    if metadata == 0 then 60 else metadata
  }

  /** What a GET for `k` is answered when the handler says `made`: a truthy cached response, if
      there is one. */
  function Served(edge: Edge, st: Store, k: string, now: Instant, made: Value): Value {
    if Hit(edge, st, k, now) then Lookup(edge, st, k, now).value else made
  }

  predicate Hit(edge: Edge, st: Store, k: string, now: Instant) {
    var cached := Lookup(edge, st, k, now);
    cached.Some? && Truthy(cached.value)
  }

  /** What `getOrSet` returns for a factory that makes `made`. */
  function Got(edge: Edge, st: Store, k: string, now: Instant, made: Value): Value {
    if Has(edge, st, k, now) then Lookup(edge, st, k, now).value else made
  }

  predicate Has(edge: Edge, st: Store, k: string, now: Instant) {
    var cached := Lookup(edge, st, k, now);
    cached.Some? && cached.value != Null
  }
}
