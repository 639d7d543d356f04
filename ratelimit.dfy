/** The sliding-window rate limiter of core/ratelimit.py: `RateLimiter`,
    which keeps one queue of request timestamps per key, and the rule
    selection of `RateLimitMiddleware.dispatch`.

    The clock (`time.time()`) is a parameter `now`; timestamps and windows
    are reals. The downstream application (`call_next`) is not modelled:
    `dispatch` reports whether the request is passed on, with or without
    rate-limit headers, or refused with status 429. */
module RateLimit {
  import opened Common

  /** The queue of `key`, an empty one for a key not seen yet. */
  function QueueOf(store: map<string, seq<real>>, key: string): seq<real> {
    if key in store then store[key] else []
  }

  /** A timestamp is stale when it is more than `window` before `now`. */
  predicate Stale(t: real, now: real, window: real) {
    now - t > window
  }

  /** The `popleft` loop: drops stale timestamps from the front and stops at
      the first one that is not. */
  function Evict(q: seq<real>, now: real, window: real): seq<real> {
    if q != [] && Stale(q[0], now, window) then Evict(q[1..], now, window) else q
  }

  /** The outcome of one `allow` call: admitted or not, the remaining count,
      and the key's queue afterwards. */
  datatype Decision = Decision(ok: bool, remaining: int, queue: seq<real>)

  /** `allow(key, limit, window)` on the key's queue `q`. */
  function AllowSpec(q: seq<real>, limit: int, window: real, now: real): Decision {
    var kept := Evict(q, now, window);
    if |kept| < limit then Decision(true, limit - (|kept| + 1), kept + [now])
    else Decision(false, 0, kept)
  }

  class RateLimiter {
    var store: map<string, seq<real>>

    constructor ()
      ensures store == map[]
    {
      store := map[];
    }

    /** `allow(key, limit, window)` at time `now`: only `key`'s queue is
        written (created when missing, evicted even on refusal). */
    method Allow(key: string, limit: int, window: real, now: real) returns (ok: bool, remaining: int)
      modifies this
      ensures var d := AllowSpec(QueueOf(old(store), key), limit, window, now);
              ok == d.ok && remaining == d.remaining && store == old(store)[key := d.queue]
    {
      var q := QueueOf(store, key);
      ghost var q0 := q;
      while q != [] && Stale(q[0], now, window)
        invariant Evict(q, now, window) == Evict(q0, now, window)
        decreases |q|
      {
        q := q[1..];
      }
      if |q| < limit {
        q := q + [now];
        store := store[key := q];
        return true, limit - |q|;
      }
      store := store[key := q];
      return false, 0;
    }
  }

  // ---------------------------------------------------------------------
  // Properties of allow
  // ---------------------------------------------------------------------

  predicate SortedAsc(q: seq<real>) {
    forall i, j :: 0 <= i < j < |q| ==> q[i] <= q[j]
  }

  /** Eviction removes a prefix of stale timestamps, and exactly those: what
      is left is empty or starts with a timestamp that is not stale. */
  lemma {:induction false} EvictDropsStalePrefix(q: seq<real>, now: real, window: real)
    ensures exists i :: 0 <= i <= |q| && Evict(q, now, window) == q[i..]
                        && (forall j :: 0 <= j < i ==> Stale(q[j], now, window))
                        && (i < |q| ==> !Stale(q[i], now, window))
  {
    if q != [] && Stale(q[0], now, window) {
      EvictDropsStalePrefix(q[1..], now, window);
      var i :| 0 <= i <= |q[1..]| && Evict(q[1..], now, window) == q[1..][i..]
                && (forall j :: 0 <= j < i ==> Stale(q[1..][j], now, window))
                && (i < |q[1..]| ==> !Stale(q[1..][i], now, window));
      assert q[1..][i..] == q[i + 1..];
      assert forall j :: 0 <= j < i + 1 ==> Stale(q[j], now, window) by {
        forall j | 0 <= j < i + 1 ensures Stale(q[j], now, window) {
          if j > 0 { assert q[j] == q[1..][j - 1]; }
        }
      }
    } else {
      assert Evict(q, now, window) == q[0..];
    }
  }

  /** On a queue in time order, nothing left after eviction is stale. */
  lemma EvictLeavesOnlyFresh(q: seq<real>, now: real, window: real)
    requires SortedAsc(q)
    ensures forall t :: t in Evict(q, now, window) ==> !Stale(t, now, window)
  {
    EvictDropsStalePrefix(q, now, window);
    var i :| 0 <= i <= |q| && Evict(q, now, window) == q[i..]
              && (forall j :: 0 <= j < i ==> Stale(q[j], now, window))
              && (i < |q| ==> !Stale(q[i], now, window));
    forall t | t in q[i..] ensures !Stale(t, now, window) {
      var k :| 0 <= k < |q[i..]| && q[i..][k] == t;
      assert q[i] <= q[i + k];
    }
  }

  /** A queue holding at most `limit` timestamps still does after `allow`;
      an admitted request leaves between 0 and `limit - 1` remaining, and a
      refusal appends nothing. */
  lemma AllowKeepsBound(q: seq<real>, limit: int, window: real, now: real)
    requires |q| <= limit
    ensures var d := AllowSpec(q, limit, window, now);
            && |d.queue| <= limit
            && (d.ok ==> 0 <= d.remaining <= limit - 1 && d.remaining == limit - |d.queue|)
            && (!d.ok ==> d.remaining == 0 && |d.queue| <= |q|)
  {
    EvictDropsStalePrefix(q, now, window);
  }

  /** A request is admitted exactly when fewer than `limit` timestamps
      survive eviction, and then `now` is appended after them. */
  lemma AllowAdmitsBelowLimit(q: seq<real>, limit: int, window: real, now: real)
    ensures var d := AllowSpec(q, limit, window, now);
            && (d.ok <==> |Evict(q, now, window)| < limit)
            && (d.ok ==> d.queue == Evict(q, now, window) + [now])
            && (!d.ok ==> d.queue == Evict(q, now, window))
  {
  }

  /** A suffix of a queue in time order, bounded by `now`, is too. */
  lemma SuffixSorted(q: seq<real>, i: nat, now: real)
    requires i <= |q| && SortedAsc(q) && forall t :: t in q ==> t <= now
    ensures SortedAsc(q[i..]) && forall t :: t in q[i..] ==> t <= now
  {
    forall a, b | 0 <= a < b < |q[i..]| ensures q[i..][a] <= q[i..][b] {
      assert q[i..][a] == q[i + a] && q[i..][b] == q[i + b];
    }
    forall t | t in q[i..] ensures t <= now {
      var k :| 0 <= k < |q[i..]| && q[i..][k] == t;
      assert q[i + k] in q;
    }
  }

  /** Appending a timestamp no earlier than any in the queue keeps it in
      time order. */
  lemma AppendLatest(q: seq<real>, now: real)
    requires SortedAsc(q) && forall t :: t in q ==> t <= now
    ensures SortedAsc(q + [now]) && forall t :: t in q + [now] ==> t <= now
  {
    var next := q + [now];
    forall a, b | 0 <= a < b < |next| ensures next[a] <= next[b] {
      if b == |q| {
        assert next[a] == q[a] && q[a] in q;
      } else {
        assert next[a] == q[a] && next[b] == q[b];
      }
    }
  }

  /** With a clock that does not go backwards, the queue stays in time
      order. */
  lemma AllowKeepsOrder(q: seq<real>, limit: int, window: real, now: real)
    requires SortedAsc(q) && forall t :: t in q ==> t <= now
    ensures var d := AllowSpec(q, limit, window, now);
            SortedAsc(d.queue) && forall t :: t in d.queue ==> t <= now
  {
    EvictDropsStalePrefix(q, now, window);
    var i :| 0 <= i <= |q| && Evict(q, now, window) == q[i..];
    SuffixSorted(q, i, now);
    AppendLatest(q[i..], now);
    AllowAdmitsBelowLimit(q, limit, window, now);
  }

  // ---------------------------------------------------------------------
  // A burst of requests on one key
  // ---------------------------------------------------------------------

  /** The decisions for successive requests at `times` on one key, starting
      from queue `q`, and the queue afterwards. */
  function Run(q: seq<real>, limit: int, window: real, times: seq<real>): (seq<bool>, seq<real>)
    decreases |times|
  {
    if times == [] then ([], q)
    else
      var (oks, q1) := Run(q, limit, window, times[..|times| - 1]);
      var d := AllowSpec(q1, limit, window, times[|times| - 1]);
      (oks + [d.ok], d.queue)
  }

  /** A burst whose requests all fall within one window, on a fresh key:
      the first `limit` are admitted, every later one is refused, and the
      queue holds the admitted timestamps. */
  lemma {:induction false} BurstAdmitsLimit(limit: nat, window: real, times: seq<real>)
    requires SortedAsc(times)
    requires times != [] ==> times[|times| - 1] - times[0] <= window
    ensures var (oks, q) := Run([], limit, window, times);
            && |oks| == |times|
            && (forall i :: 0 <= i < |oks| ==> (oks[i] <==> i < limit))
            && q == times[..if |times| <= limit then |times| else limit]
    decreases |times|
  {
    if times != [] {
      var init := times[..|times| - 1];
      var now := times[|times| - 1];
      assert SortedAsc(init);
      assert init != [] ==> init[|init| - 1] - init[0] <= window by {
        if init != [] { assert init[0] == times[0] && times[|init| - 1] <= now; }
      }
      BurstAdmitsLimit(limit, window, init);
      var (oks, q1) := Run([], limit, window, init);
      var m := if |init| <= limit then |init| else limit;
      assert q1 == init[..m];
      NothingStaleInBurst(q1, times, window);
      assert Evict(q1, now, window) == q1;
      var d := AllowSpec(q1, limit, window, now);
      var (oksAll, q) := Run([], limit, window, times);
      assert oksAll == oks + [d.ok] && q == d.queue;
      assert d.ok <==> |init| < limit;
      forall i | 0 <= i < |oksAll|
        ensures oksAll[i] <==> i < limit
      {
        if i < |oks| {
          assert oksAll[i] == oks[i];
        }
      }
      if |init| < limit {
        assert q == init + [now];
        assert times == init + [now];
        assert times[..|times|] == times;
      } else {
        assert q == init[..limit];
        assert init[..limit] == times[..limit];
      }
    }
  }

  lemma NothingStaleInBurst(q: seq<real>, times: seq<real>, window: real)
    requires times != [] && SortedAsc(times) && times[|times| - 1] - times[0] <= window
    requires |q| < |times| && q == times[..|q|]
    ensures Evict(q, times[|times| - 1], window) == q
  {
    if q != [] {
      assert times[0] <= q[0];
    }
  }

  /** The health endpoint's rule (10 requests per 5 seconds): ten quick
      requests are admitted and the eleventh is refused. */
  lemma HealthBurst(times: seq<real>)
    requires |times| == 11 && SortedAsc(times) && times[10] - times[0] <= 5.0
    ensures var (oks, _) := Run([], 10, 5.0, times);
            |oks| == 11 && (forall i :: 0 <= i < 10 ==> oks[i]) && !oks[10]
  {
    BurstAdmitsLimit(10, 5.0, times);
  }

  // ---------------------------------------------------------------------
  // RateLimitMiddleware.dispatch
  // ---------------------------------------------------------------------

  /** A rule: the limit and the window. */
  datatype Rule = Rule(limit: int, window: real)

  /** The rules dictionary in insertion order, keyed by path pattern. */
  type Rules = seq<(string, Rule)>

  /** The first `*`-suffixed pattern whose prefix starts `path`. */
  function FirstWildcard(rules: Rules, path: string): (r: Option<Rule>)
    ensures r.Some? ==> exists k :: 0 <= k < |rules| && rules[k].1 == r.value
                                     && EndsWith(rules[k].0, "*")
                                     && StartsWith(path, rules[k].0[..|rules[k].0| - 1])
    ensures r.None? ==> forall k :: 0 <= k < |rules| && EndsWith(rules[k].0, "*") ==>
                                      !StartsWith(path, rules[k].0[..|rules[k].0| - 1])
  {
    if rules == [] then None
    else
      var (p, rule) := rules[0];
      if EndsWith(p, "*") && StartsWith(path, p[..|p| - 1]) then Some(rule)
      else
        var rest := FirstWildcard(rules[1..], path);
        assert forall k :: 1 <= k < |rules| ==> rules[k] == rules[1..][k - 1];
        rest
  }

  /** The rule of the pattern equal to `path`. */
  function ExactRule(rules: Rules, path: string): (r: Option<Rule>)
    ensures r.Some? <==> exists k :: 0 <= k < |rules| && rules[k].0 == path
    ensures r.Some? ==> exists k :: 0 <= k < |rules| && rules[k] == (path, r.value)
  {
    if rules == [] then None
    else if rules[0].0 == path then Some(rules[0].1)
    else
      var rest := ExactRule(rules[1..], path);
      assert forall k :: 1 <= k < |rules| ==> rules[k] == rules[1..][k - 1];
      rest
  }

  /** Rule selection: an exact match wins, otherwise the first matching
      wildcard. */
  function SelectRule(rules: Rules, path: string): Option<Rule> {
    var exact := ExactRule(rules, path);
    if exact.Some? then exact else FirstWildcard(rules, path)
  }

  /** `f"{ident}:{path}"`, with "unknown" when there is no client. */
  function LimitKey(client: Option<string>, path: string): (key: string)
    ensures client.Some? ==> key == client.value + ":" + path
    ensures client.None? ==> key == "unknown:" + path
  {
    var ident := match client case Some(host) => host case None => "unknown";
    ident + ":" + path
  }

  /** What `dispatch` does with the request. */
  datatype Dispatched =
    | PassedThrough                            // no rule applies
    | TooManyRequests                          // status 429
    | Limited(limit: int, remaining: int)      // passed on with the two headers

  /** `dispatch(request)` against the limiter's store. */
  function DispatchSpec(rules: Rules, store: map<string, seq<real>>, path: string, client: Option<string>, now: real)
    : (Dispatched, map<string, seq<real>>)
  {
    match SelectRule(rules, path)
    case None => (PassedThrough, store)
    case Some(rule) =>
      var key := LimitKey(client, path);
      var d := AllowSpec(QueueOf(store, key), rule.limit, rule.window, now);
      var after := store[key := d.queue];
      if d.ok then (Limited(rule.limit, d.remaining), after) else (TooManyRequests, after)
  }

  class RateLimitMiddleware {
    const rules: Rules
    const limiter: RateLimiter

    constructor (rules: Rules)
      ensures this.rules == rules && fresh(limiter) && limiter.store == map[]
    {
      this.rules := rules;
      limiter := new RateLimiter();
    }

    /** `dispatch(request, call_next)` for a request on `path` from
        `client` at time `now`. */
    method Dispatch(path: string, client: Option<string>, now: real) returns (r: Dispatched)
      modifies limiter
      ensures (r, limiter.store) == DispatchSpec(rules, old(limiter.store), path, client, now)
    {
      var rule: Option<Rule> := ExactRule(rules, path);
      if rule.None? {
        var i := 0;
        while i < |rules|
          invariant 0 <= i <= |rules|
          invariant FirstWildcard(rules, path) == FirstWildcard(rules[i..], path)
        {
          var (p, candidate) := rules[i];
          if EndsWith(p, "*") && StartsWith(path, p[..|p| - 1]) {
            rule := Some(candidate);
            break;
          }
          assert rules[i..][1..] == rules[i + 1..];
          i := i + 1;
        }
        assert rule.Some? ==> rule == FirstWildcard(rules, path);
        assert rule.None? ==> i == |rules|;
      }
      if rule.None? {
        return PassedThrough;
      }
      var key := LimitKey(client, path);
      var ok, remaining := limiter.Allow(key, rule.value.limit, rule.value.window, now);
      if !ok {
        return TooManyRequests;
      }
      r := Limited(rule.value.limit, remaining);
    }
  }

  /** Pattern keys are distinct, as in a dictionary. */
  predicate DistinctPatterns(rules: Rules) {
    forall i, j :: 0 <= i < j < |rules| ==> rules[i].0 != rules[j].0
  }

  /** An exact pattern wins over any wildcard. */
  lemma ExactRuleWins(rules: Rules, path: string, k: nat)
    requires DistinctPatterns(rules) && k < |rules| && rules[k].0 == path
    ensures SelectRule(rules, path) == Some(rules[k].1)
  {
    var r := ExactRule(rules, path);
    var j :| 0 <= j < |rules| && rules[j] == (path, r.value);
    assert j == k;
  }

  /** Without an exact pattern the first matching wildcard in insertion
      order applies; with neither the request passes through and nothing
      is recorded. */
  lemma WildcardOrPassThrough(rules: Rules, store: map<string, seq<real>>, path: string,
                              client: Option<string>, now: real)
    requires forall k :: 0 <= k < |rules| ==> rules[k].0 != path
    ensures SelectRule(rules, path) == FirstWildcard(rules, path)
    ensures SelectRule(rules, path).None? ==> DispatchSpec(rules, store, path, client, now) == (PassedThrough, store)
  {
  }

  /** A limited request reads and writes only the queue of its
      "host:path" key; a refusal answers 429. */
  lemma DispatchTouchesOneKey(rules: Rules, store: map<string, seq<real>>, path: string, client: Option<string>,
                              now: real, other: string)
    requires SelectRule(rules, path).Some? && other != LimitKey(client, path)
    ensures var (r, after) := DispatchSpec(rules, store, path, client, now);
            && (other in after <==> other in store)
            && (other in store ==> after[other] == store[other])
            && LimitKey(client, path) in after
            && (r == TooManyRequests <==>
                  !AllowSpec(QueueOf(store, LimitKey(client, path)), SelectRule(rules, path).value.limit,
                             SelectRule(rules, path).value.window, now).ok)
  {
  }
}
