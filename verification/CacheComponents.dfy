/** The users of the cache store in the form the service has them: the limiter, the response
    interceptor and the cache service, all over one cache manager. Each method does what steps of
    `CacheRuns` say. */
module CacheComponents {
  import opened Basics
  import opened Options
  import opened TtlStore
  import opened ResponseCache
  import opened CacheRuns

  class CacheManager {
    const config: Config
    var store: Store
    /** Responses that missed the store and values that `getOrSet` made, on their way to it. */
    ghost var missed: seq<Visit>
    ghost var made: seq<Entry>

    ghost function View(): State
      reads this
    {
      State(store, missed, made)
    }

    constructor (config: Config)
      ensures View() == EMPTY && this.config == config
    {
      this.config, store, missed, made := config, map[], [], [];
    }

    method Get(key: string, now: Instant) returns (v: Option<Value>)
      ensures v == Lookup(config.edge, store, key, now)
    {
      if key !in store { return None; }
      var item := store[key];
      if !Alive(config.edge, item.expires, now) { return None; }
      return Some(item.value);
    }

    method Set(key: string, value: Value, ttl: nat, now: Instant)
      modifies `store
      ensures store == Apply(config.edge, old(store), Write(key, value, ttl, now))
    {
      var expires := if ttl == 0 then None else Some(now + ttl);
      store := store[key := Item(value, expires)];
    }

    method Del(key: string, now: Instant)
      modifies `store
      ensures store == Apply(config.edge, old(store), Delete(key, now))
    {
      store := store - {key};
    }

    method Reset(now: Instant)
      modifies `store
      ensures store == Apply(config.edge, old(store), Clear(now))
    {
      store := map[];
    }
  }

  datatype RateLimitOptions = RateLimitOptions(limit: nat, ttl: nat)

  /** The parts of a request the cache users look at; absent strings are empty. */
  datatype Request = Request(verb: string, url: string, user: string, forwardedFor: string, realIp: string, remoteAddress: string)

  class RateLimitGuard {
    const cacheManager: CacheManager

    constructor (cacheManager: CacheManager)
      ensures this.cacheManager == cacheManager
    {
      this.cacheManager := cacheManager;
    }

    function GetIdentifier(request: Request): string {
      if request.user != "" then "user:" + request.user
      else "ip:" + (if request.forwardedFor != "" then request.forwardedFor
                    else if request.realIp != "" then request.realIp
                    else request.remoteAddress)
    }

    /** Two requests count together, on one URL, exactly when they are by the same user, or by no user
        and from the same address: the first given of the two headers and the connection's. */
    lemma SameIdentifierExactly(a: Request, b: Request)
      ensures GetIdentifier(a) == GetIdentifier(b)
         <==> a.user == b.user
              && (a.user == "" ==>
                    (if a.forwardedFor != "" then a.forwardedFor else if a.realIp != "" then a.realIp else a.remoteAddress)
                    == (if b.forwardedFor != "" then b.forwardedFor else if b.realIp != "" then b.realIp else b.remoteAddress))
    {
      var (x, y) := (GetIdentifier(a), GetIdentifier(b));
      assert x[0] == (if a.user != "" then 'u' else 'i') && y[0] == (if b.user != "" then 'u' else 'i');
      if x == y {
        if a.user != "" {
          PrefixDrops("user:", a.user, b.user);
        } else {
          PrefixDrops("ip:", x[3..], y[3..]);
        }
      }
    }

    /** `ok` is false where the guard answers 429. */
    method CanActivate(options: Option<RateLimitOptions>, request: Request, now: Instant) returns (ok: bool)
      modifies cacheManager`store
      ensures options.None? ==> ok && cacheManager.store == old(cacheManager.store)
      ensures options.Some? ==>
                var (config, o, identifier) := (cacheManager.config, options.value, GetIdentifier(request));
                && ok == Admitted(config.edge, old(cacheManager.store), Guard(RateKey(identifier, request.url), o.limit, o.ttl, now))
                && cacheManager.View() == Step(config, old(cacheManager.View()), Limit(identifier, request.url, o.limit, o.ttl, now))
    {
      if options.None? { return true; }
      var key := "rate_limit:" + GetIdentifier(request) + ":" + request.url;
      var stored := cacheManager.Get(key, now);
      var currentCount := CountIn(stored);
      StoreAfterStep(cacheManager.config, cacheManager.View(),
                     Limit(GetIdentifier(request), request.url, options.value.limit, options.value.ttl, now));
      if currentCount >= options.value.limit {
        return false;
      }
      cacheManager.Set(key, Number(currentCount + 1), options.value.ttl * 1000, now);
      return true;
    }
  }

  class CacheInterceptor {
    const cacheManager: CacheManager

    constructor (cacheManager: CacheManager)
      ensures this.cacheManager == cacheManager
    {
      this.cacheManager := cacheManager;
    }

    /** Answers a request, whose handler would say `response` now. A response that misses is on its
        way to the store until `Tap`. */
    method Intercept(request: Request, customKey: string, response: Value, metadata: nat, now: Instant) returns (answer: Value)
      modifies cacheManager`missed
      ensures var visit := Visit(request.verb, Route(customKey, request.user, request.url), response, metadata, now);
              && answer == Response(cacheManager.config, old(cacheManager.View()), visit)
              && cacheManager.View() == Step(cacheManager.config, old(cacheManager.View()), Serve(visit))
    {
      if request.verb != "GET" {
        return response;
      }
      var route := Route(customKey, request.user, request.url);
      var cacheKey := ResponseKey(route);
      var cachedResponse := cacheManager.Get(cacheKey, now);
      if cachedResponse.Some? && Truthy(cachedResponse.value) {
        return cachedResponse.value;
      }
      cacheManager.missed := cacheManager.missed + [Visit(request.verb, route, response, metadata, now)];
      return response;
    }

    /** Stores the response of an earlier miss, for the time its route gives, by default a minute. */
    method Tap(request: Request, customKey: string, response: Value, metadata: nat, ghost which: nat, now: Instant)
      requires which < |cacheManager.missed|
      requires var v := cacheManager.missed[which];
               v.route == Route(customKey, request.user, request.url) && v.response == response && v.ttl == metadata
      modifies cacheManager`store, cacheManager`missed
      ensures cacheManager.View() == Step(cacheManager.config, old(cacheManager.View()), CacheRuns.Op.Tap(which, now))
    {
      var ttl := if metadata == 0 then 60 else metadata;
      StoreAfterStep(cacheManager.config, cacheManager.View(), CacheRuns.Op.Tap(which, now));
      cacheManager.missed := Without(cacheManager.missed, which);
      cacheManager.Set(ResponseKey(Route(customKey, request.user, request.url)), response, ttl * 1000, now);
    }
  }

  class CacheService {
    const cacheManager: CacheManager

    constructor (cacheManager: CacheManager)
      ensures this.cacheManager == cacheManager
    {
      this.cacheManager := cacheManager;
    }

    /** `ttl` is in seconds; without one, or with 0, the store's default applies. */
    method Set(key: string, value: Value, ttl: nat, now: Instant)
      modifies cacheManager`store
      ensures cacheManager.View()
           == Step(cacheManager.config, old(cacheManager.View()), Save(Entry(key, value, ttl, now)))
    {
      StoreAfterStep(cacheManager.config, cacheManager.View(), Save(Entry(key, value, ttl, now)));
      if ttl != 0 {
        cacheManager.Set(key, value, ttl * 1000, now);
      } else {
        cacheManager.Set(key, value, cacheManager.config.defaultTtl, now);
      }
    }

    method Delete(key: string, now: Instant)
      modifies cacheManager`store
      ensures cacheManager.View() == Step(cacheManager.config, old(cacheManager.View()), Remove(key, now))
    {
      StoreAfterStep(cacheManager.config, cacheManager.View(), Remove(key, now));
      cacheManager.Del(key, now);
    }

    method Reset(now: Instant)
      modifies cacheManager`store
      ensures cacheManager.View() == Step(cacheManager.config, old(cacheManager.View()), CacheRuns.Op.Reset(now))
    {
      StoreAfterStep(cacheManager.config, cacheManager.View(), CacheRuns.Op.Reset(now));
      cacheManager.Reset(now);
    }

    /** Asks at `now`, and where that misses stores the value at `later`, when the factory has made
        it; nothing else comes in between here. */
    method GetOrSet(key: string, factory: () -> Value, ttl: nat, now: Instant, later: Instant) returns (value: Value)
      modifies cacheManager
      ensures var (config, before, entry) := (cacheManager.config, old(cacheManager.View()), Entry(key, factory(), ttl, now));
              && value == Got(config.edge, before.store, key, now, factory())
              && cacheManager.View()
                 == (var asked := Step(config, before, Ask(entry));
                     if Has(config.edge, before.store, key, now) then asked
                     else Step(config, asked, Finish(|before.made|, later)))
    {
      ghost var asked := Step(cacheManager.config, cacheManager.View(), Ask(Entry(key, factory(), ttl, now)));
      var cached := cacheManager.Get(key, now);
      if cached.Some? && cached.value != Null {
        return cached.value;
      }
      value := factory();
      StoreAfterStep(cacheManager.config, asked, Finish(|cacheManager.made|, later));
      assert Without(asked.made, |cacheManager.made|) == cacheManager.made;
      Set(key, value, ttl, later);
    }
  }
}
