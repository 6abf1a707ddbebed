/** The two guards that turn the expiring counter into a verdict on a request. */
module RateLimitGuards {
  import opened Wrappers
  import opened Runs
  import opened FixedWindow
  import opened Strings

  /** What becomes of the Redis commands of one call. */
  datatype Link = Up | IncrFails | ExpireFails

  /** The counters after one `increment` whose commands succeed. */
  function AfterIncrement(store: Store, key: Key, ttlSeconds: nat, incrAt: int, expireAt: int): Store {
    var counted := Incremented(store, key, incrAt);
    if counted[key].count == 1 then Expiring(counted, key, expireAt, 1000 * ttlSeconds) else counted
  }

  /** In a trace, such a call is `INCR`, followed by `EXPIRE` when it answered 1; the guard sees
      the count of the hit it added. */
  lemma IncrementIsTrace(s: State, key: Key, ttl: Key -> nat, ttlSeconds: nat, incrAt: int, expireAt: int)
    requires s.now <= incrAt <= expireAt && ttl(key) == 1000 * ttlSeconds
    ensures var s1 := Next(s, Incr(incrAt, key), ttl);
      var h := HitsOf(s1, key);
      && h == HitsOf(s, key) + [Hit(incrAt, Incremented(s.store, key, incrAt)[key].count)]
      && AfterIncrement(s.store, key, ttlSeconds, incrAt, expireAt)
         == if h[|h| - 1].count == 1 then Run(s1, [Expire(expireAt, key)], ttl).store else s1.store
  {
    var s1 := Next(s, Incr(incrAt, key), ttl);
    FoldOne(s1, Expire(expireAt, key), Trying(ttl));
  }

  /** The shared Redis store behind `CacheService`. */
  class Cache {
    var store: Store

    constructor ()
      ensures store == map[]
    {
      store := map[];
    }

    /** `increment`: the new count, or nothing when a command failed. */
    method Increment(key: Key, ttlSeconds: nat, incrAt: int, expireAt: int, link: Link) returns (count: Option<nat>)
      requires incrAt <= expireAt
      modifies this
      ensures var counted := Incremented(old(store), key, incrAt);
        match link
        case Up =>
          && store == AfterIncrement(old(store), key, ttlSeconds, incrAt, expireAt)
          && count == Some(counted[key].count)
        case IncrFails => store == old(store) && count == None
        case ExpireFails =>
          && store == counted
          && count == if counted[key].count == 1 then None else Some(counted[key].count)
    {
      if link.IncrFails? {
        return None;
      }
      store := Incremented(store, key, incrAt);
      var n := store[key].count;
      if n == 1 {
        if link.ExpireFails? {
          return None;
        }
        store := Expiring(store, key, expireAt, 1000 * ttlSeconds);
      }
      return Some(n);
    }
  }

  /** A first `INCR` whose `EXPIRE` fails leaves a counter that no later instant resets. */
  lemma LostExpireNeverEnds(store: Store, key: Key, incrAt: int, at: int)
    requires Incremented(store, key, incrAt)[key].count == 1
    requires key in store ==> store[key].count >= 1
    ensures Live(Incremented(store, key, incrAt), key, at)
  {
  }

  // ---- Paths and keys ----

  datatype Request = Request(path: string, ip: string, userId: Option<string>)

  datatype Verdict = Allowed | TooManyRequests

  const EXEMPT_PATH_PREFIXES: seq<string> := ["/health", "/metrics", "/docs"]

  predicate StartsWith(s: string, prefix: string) {
    |prefix| <= |s| && s[..|prefix|] == prefix
  }

  predicate IsExemptPath(path: string) {
    exists i :: 0 <= i < |EXEMPT_PATH_PREFIXES| && Under(path, EXEMPT_PATH_PREFIXES[i])
  }

  predicate Under(path: string, prefix: string) {
    path == prefix || StartsWith(path, prefix + "/")
  }

  lemma SameFirstSegment(segment: string, rest: string, name: string, after: string)
    requires '/' !in segment && '/' !in name && (rest == "" || rest[0] == '/')
    requires segment + rest == name + "/" + after
    ensures segment == name
  {
    assert (name + "/" + after)[|name|] == '/';
    assert '/' in segment + rest;
    assert rest == "/" + rest[1..];
    assert segment + rest == segment + "/" + rest[1..];
    CutIsUnique(segment, rest[1..], name, after, '/');
  }

  /** A path is below a one-segment prefix exactly when that is its first segment. */
  lemma UnderIsFirstSegment(segment: string, rest: string, name: string)
    requires '/' !in segment && '/' !in name && (rest == "" || rest[0] == '/')
    ensures Under("/" + segment + rest, "/" + name) <==> segment == name
  {
    var path, prefix := "/" + segment + rest, "/" + name;
    assert path[1..] == segment + rest && prefix[1..] == name;
    if StartsWith(path, prefix + "/") {
      var after := path[|prefix| + 1..];
      assert path == prefix + "/" + after;
      assert path[1..] == name + "/" + after;
      SameFirstSegment(segment, rest, name, after);
    } else if path == prefix {
      assert forall c :: c in rest ==> c in segment + rest;
      assert segment + "" == segment;
    }
    if segment == name && rest != "" {
      assert path[..|prefix| + 1] == prefix + "/";
    }
  }

  /** Exempt are the paths whose first segment is health, metrics or docs, and no others: neither
      `/healthcheck` nor, under a global prefix, `/api/health`. */
  lemma ExemptIffFirstSegment(segment: string, rest: string)
    requires '/' !in segment && (rest == "" || rest[0] == '/')
    ensures IsExemptPath("/" + segment + rest) <==> segment in {"health", "metrics", "docs"}
  {
    var path := "/" + segment + rest;
    UnderIsFirstSegment(segment, rest, "health");
    UnderIsFirstSegment(segment, rest, "metrics");
    UnderIsFirstSegment(segment, rest, "docs");
    assert "/" + "health" == EXEMPT_PATH_PREFIXES[0];
    assert "/" + "metrics" == EXEMPT_PATH_PREFIXES[1];
    assert "/" + "docs" == EXEMPT_PATH_PREFIXES[2];
  }

  function GlobalKey(ip: string): Key {
    "erp:security:rate-limit:global:" + ip
  }

  function UserKey(bucket: string, userId: string): Key {
    "erp:security:rate-limit:user:" + bucket + ":" + userId
  }

  /** Two users, two routes or two addresses never share a counter, and no address shares one with
      a user. A route's bucket is a class name, a point and a method name. */
  lemma KeysAreSeparate(ip: string, ip': string, bucket: string, bucket': string, user: string, user': string)
    requires ':' !in bucket && ':' !in bucket'
    ensures GlobalKey(ip) == GlobalKey(ip') ==> ip == ip'
    ensures UserKey(bucket, user) == UserKey(bucket', user') ==> bucket == bucket' && user == user'
    ensures GlobalKey(ip) != UserKey(bucket, user)
  {
    if GlobalKey(ip) == GlobalKey(ip') {
      CancelPrefix("erp:security:rate-limit:global:", ip, ip');
    }
    assert GlobalKey(ip)[24] == 'g' && UserKey(bucket, user)[24] == 'u';
    if UserKey(bucket, user) == UserKey(bucket', user') {
      var p := "erp:security:rate-limit:user:";
      assert UserKey(bucket, user) == p + (bucket + ":" + user);
      assert UserKey(bucket', user') == p + (bucket' + ":" + user');
      CancelPrefix(p, bucket + ":" + user, bucket' + ":" + user');
      CutIsUnique(bucket, user, bucket', user', ':');
    }
  }

  // ---- The guards ----

  datatype AppConfig = AppConfig(rateLimitEnabled: bool, rateLimitMaxRequests: nat, rateLimitWindowSeconds: nat)

  datatype RateLimitOverride = RateLimitOverride(max: nat, windowSeconds: nat)

  class GlobalRateLimitGuard {
    const cache: Cache

    constructor (cache: Cache)
      ensures this.cache == cache
    {
      this.cache := cache;
    }

    /** Nothing is counted when limits are off, the path is exempt or the route skips them. Other requests
        are counted under their address and refused exactly when the count is known and above the
        maximum. A first count whose `EXPIRE` fails is not known to the guard. */
    method CanActivate(config: AppConfig, request: Request, skip: bool, incrAt: int, expireAt: int, link: Link)
      returns (verdict: Verdict)
      requires incrAt <= expireAt
      modifies cache
      ensures !config.rateLimitEnabled || IsExemptPath(request.path) || skip ==>
        verdict == Allowed && cache.store == old(cache.store)
      ensures config.rateLimitEnabled && !IsExemptPath(request.path) && !skip && link.Up? ==>
        && cache.store == AfterIncrement(old(cache.store), GlobalKey(request.ip), config.rateLimitWindowSeconds, incrAt,
                                        expireAt)
        && (verdict == Allowed <==>
            Admitted(Hit(incrAt, cache.store[GlobalKey(request.ip)].count), config.rateLimitMaxRequests))
      ensures config.rateLimitEnabled && !IsExemptPath(request.path) && !skip && link.ExpireFails? ==>
        && cache.store == Incremented(old(cache.store), GlobalKey(request.ip), incrAt)
        && (verdict == Allowed <==>
            || cache.store[GlobalKey(request.ip)].count == 1
            || Admitted(Hit(incrAt, cache.store[GlobalKey(request.ip)].count), config.rateLimitMaxRequests))
      ensures link.IncrFails? ==> verdict == Allowed && cache.store == old(cache.store)
    {
      if !config.rateLimitEnabled {
        return Allowed;
      }
      if IsExemptPath(request.path) {
        return Allowed;
      }
      if skip {
        return Allowed;
      }
      var key := GlobalKey(request.ip);
      var count := cache.Increment(key, config.rateLimitWindowSeconds, incrAt, expireAt, link);
      if count == None {
        return Allowed;
      }
      if count.value > config.rateLimitMaxRequests {
        return TooManyRequests;
      }
      return Allowed;
    }
  }

  class PerUserRateLimitGuard {
    const cache: Cache

    constructor (cache: Cache)
      ensures this.cache == cache
    {
      this.cache := cache;
    }

    /** Without a declared limit or a signed-in user nothing is counted; otherwise the request is
        counted under its route and user. */
    method CanActivate(limit: Option<RateLimitOverride>, bucket: string, request: Request,
                       incrAt: int, expireAt: int, link: Link)
      returns (verdict: Verdict)
      requires incrAt <= expireAt
      modifies cache
      ensures limit == None || request.userId in {None, Some("")} ==>
        verdict == Allowed && cache.store == old(cache.store)
      ensures limit.Some? && request.userId !in {None, Some("")} && link.Up? ==>
        var key := UserKey(bucket, request.userId.value);
        && cache.store == AfterIncrement(old(cache.store), key, limit.value.windowSeconds, incrAt, expireAt)
        && (verdict == Allowed <==> Admitted(Hit(incrAt, cache.store[key].count), limit.value.max))
      ensures limit.Some? && request.userId !in {None, Some("")} && link.ExpireFails? ==>
        var key := UserKey(bucket, request.userId.value);
        && cache.store == Incremented(old(cache.store), key, incrAt)
        && (verdict == Allowed <==>
            cache.store[key].count == 1 || Admitted(Hit(incrAt, cache.store[key].count), limit.value.max))
      ensures link.IncrFails? ==> verdict == Allowed && cache.store == old(cache.store)
    {
      if limit == None {
        return Allowed;
      }
      if request.userId == None || request.userId.value == "" {
        return Allowed;
      }
      var key := UserKey(bucket, request.userId.value);
      var count := cache.Increment(key, limit.value.windowSeconds, incrAt, expireAt, link);
      if count == None {
        return Allowed;
      }
      if count.value > limit.value.max {
        return TooManyRequests;
      }
      return Allowed;
    }
  }
}
