/** The in-memory sliding-window rate limiter (api/ratelimit.py). */
module RateLimit {
  import opened Prelude

  /** Seconds between two evictions. */
  const EVICTION_INTERVAL: real := 300.0

  datatype Config = Config(window: int, max: int)

  datatype Limiter = Limiter(buckets: map<string, seq<real>>, lastEviction: real)

  /** One dispatched request: the clock when eviction is considered, the clock when the limit is
      checked, and the token identifier, absent for requests that are not limited. */
  datatype Request = Request(evictAt: real, allowAt: real, token: Option<string>)

  function TimesOf(buckets: map<string, seq<real>>, token: string): seq<real> {
    if token in buckets then buckets[token] else []
  }

  /** The timestamps after `cutoff`, in order. */
  function Recent(times: seq<real>, cutoff: real): (r: seq<real>)
    ensures |r| <= |times|
  {
    if times == [] then []
    else
      var init, last := Recent(times[..|times| - 1], cutoff), times[|times| - 1];
      if last > cutoff then init + [last] else init
  }

  /** `_maybe_evict`. */
  function Evict(c: Config, l: Limiter, now: real): Limiter {
    if now - l.lastEviction < EVICTION_INTERVAL then l
    else
      var cutoff := now - c.window as real;
      Limiter(map k | k in l.buckets && !Stale(l.buckets[k], cutoff) :: l.buckets[k], now)
  }

  predicate Stale(times: seq<real>, cutoff: real) {
    times == [] || times[|times| - 1] <= cutoff
  }

  /** `_allow`. */
  function Admit(c: Config, l: Limiter, token: string, now: real): (Limiter, bool) {
    var kept := Recent(TimesOf(l.buckets, token), now - c.window as real);
    if |kept| >= c.max then (l.(buckets := l.buckets[token := kept]), false)
    else (l.(buckets := l.buckets[token := kept + [now]]), true)
  }

  /** `dispatch`: evict, then check the limit if the request carries a token. */
  function Handle(c: Config, l: Limiter, r: Request): (Limiter, bool) {
    var l' := Evict(c, l, r.evictAt);
    if r.token.None? then (l', true) else Admit(c, l', r.token.value, r.allowAt)
  }

  class RateLimiter {
    const config: Config
    var buckets: map<string, seq<real>>
    var lastEviction: real

    ghost function Contents(): Limiter
      reads this
    {
      Limiter(buckets, lastEviction)
    }

    constructor (c: Config, now: real)
      ensures config == c && Contents() == Limiter(map[], now)
    {
      config, buckets, lastEviction := c, map[], now;
    }

    method MaybeEvict(now: real)
      modifies this
      ensures Contents() == Evict(config, old(Contents()), now)
    {
      if now - lastEviction < EVICTION_INTERVAL {
        return;
      }
      lastEviction := now;
      var cutoff := now - config.window as real;
      var stale := set k | k in buckets && Stale(buckets[k], cutoff);
      ghost var before := buckets;
      while stale != {}
        invariant forall k :: k in buckets ==> k in before && buckets[k] == before[k]
        invariant forall k :: k in before && k !in buckets ==> Stale(before[k], cutoff)
        invariant forall k :: k in stale <==> k in buckets && Stale(buckets[k], cutoff)
        invariant lastEviction == now
        decreases stale
      {
        var k :| k in stale;
        buckets, stale := buckets - {k}, stale - {k};
      }
      assert forall k :: k in buckets <==> k in before && !Stale(before[k], cutoff);
      assert buckets == Evict(config, old(Contents()), now).buckets;
    }

    method Allow(token: string, now: real) returns (allowed: bool)
      modifies `buckets
      ensures (Contents(), allowed) == Admit(config, old(Contents()), token, now)
    {
      var cutoff := now - config.window as real;
      ghost var before := buckets;
      if token !in buckets {
        buckets := buckets[token := []];
      }
      buckets := buckets[token := Recent(buckets[token], cutoff)];
      assert buckets == before[token := Recent(TimesOf(before, token), cutoff)];
      if |buckets[token]| >= config.max {
        return false;
      }
      buckets := buckets[token := buckets[token] + [now]];
      assert buckets == before[token := Recent(TimesOf(before, token), cutoff) + [now]];
      allowed := true;
    }

    method Dispatch(r: Request) returns (allowed: bool)
      modifies this
      ensures (Contents(), allowed) == Handle(config, old(Contents()), r)
    {
      MaybeEvict(r.evictAt);
      if r.token.None? {
        return true;
      }
      allowed := Allow(r.token.value, r.allowAt);
    }
  }

  // ---------------------------------------------------------------- what is kept in memory

  /** An eviction happens once 300 seconds have passed since the last. It then removes exactly the
      buckets whose newest timestamp, if any, is out of the window, and keeps the others as they are. */
  lemma EvictionMeans(c: Config, l: Limiter, now: real)
    ensures var l' := Evict(c, l, now);
      && (now - l.lastEviction < 300.0 ==> l' == l)
      && (now - l.lastEviction >= 300.0 ==>
            && l'.lastEviction == now
            && (forall k :: k in l'.buckets <==>
                  && k in l.buckets && l.buckets[k] != []
                  && now - c.window as real < l.buckets[k][|l.buckets[k]| - 1])
            && (forall k :: k in l'.buckets ==> l'.buckets[k] == l.buckets[k]))
  {
  }

  /** Deciding on a request prunes its token's bucket to the window and adds the request if accepted:
      the bucket never holds more than the maximum or anything older than the window, and no other
      bucket changes. */
  lemma AdmissionMeans(c: Config, l: Limiter, token: string, now: real)
    ensures var (l', allowed) := Admit(c, l, token, now);
      && l'.lastEviction == l.lastEviction && token in l'.buckets
      && (forall other :: other != token ==> TimesOf(l'.buckets, other) == TimesOf(l.buckets, other))
      && (forall t :: t in l'.buckets[token] <==>
            (t in TimesOf(l.buckets, token) && t > now - c.window as real) || (allowed && t == now))
      && (allowed ==> |l'.buckets[token]| <= c.max)
  {
    RecentMembers(TimesOf(l.buckets, token), now - c.window as real);
  }

  // ---------------------------------------------------------------- the unbounded reference

  /** Decides by the whole history of accepted timestamps of the token, which is never pruned. */
  function RefDispatch(c: Config, h: map<string, seq<real>>, r: Request): (map<string, seq<real>>, bool) {
    if r.token.None? then (h, true)
    else
      var times := TimesOf(h, r.token.value);
      if |InWindow(times, r.allowAt - c.window as real, r.allowAt)| >= c.max then (h, false)
      else (h[r.token.value := times + [r.allowAt]], true)
  }

  /** The timestamps in the half-open window (lo, hi]. */
  function InWindow(times: seq<real>, lo: real, hi: real): (r: seq<real>) {
    if times == [] then []
    else
      var init, last := InWindow(times[..|times| - 1], lo, hi), times[|times| - 1];
      if lo < last <= hi then init + [last] else init
  }

  function Decisions(c: Config, l: Limiter, requests: seq<Request>): seq<bool>
    decreases |requests|
  {
    if requests == [] then []
    else
      var (l', allowed) := Handle(c, l, requests[0]);
      [allowed] + Decisions(c, l', requests[1..])
  }

  function RefDecisions(c: Config, h: map<string, seq<real>>, requests: seq<Request>): seq<bool>
    decreases |requests|
  {
    if requests == [] then []
    else
      var (h', allowed) := RefDispatch(c, h, requests[0]);
      [allowed] + RefDecisions(c, h', requests[1..])
  }

  function RefAll(c: Config, h: map<string, seq<real>>, requests: seq<Request>): map<string, seq<real>>
    decreases |requests|
  {
    if requests == [] then h else RefAll(c, RefDispatch(c, h, requests[0]).0, requests[1..])
  }

  /** The clock never goes back, within a request or between requests. */
  ghost predicate NonDecreasing(now: real, requests: seq<Request>)
    decreases |requests|
  {
    requests != [] ==>
      && now <= requests[0].evictAt <= requests[0].allowAt
      && NonDecreasing(requests[0].allowAt, requests[1..])
  }

  // ---------------------------------------------------------------- refinement

  ghost predicate Ordered(times: seq<real>, now: real) {
    && (forall i, j :: 0 <= i < j < |times| ==> times[i] <= times[j])
    && (forall i :: 0 <= i < |times| ==> times[i] <= now)
  }

  /** A bucket agrees with the history on everything a window ending now or later can contain. */
  ghost predicate Agree(c: Config, bucket: seq<real>, times: seq<real>, now: real) {
    && Ordered(bucket, now) && Ordered(times, now)
    && Recent(bucket, now - c.window as real) == Recent(times, now - c.window as real)
  }

  ghost predicate Refines(c: Config, l: Limiter, h: map<string, seq<real>>, now: real) {
    forall token :: Agree(c, TimesOf(l.buckets, token), TimesOf(h, token), now)
  }

  lemma {:induction false} RecentTwice(times: seq<real>, a: real, b: real)
    requires a <= b
    ensures Recent(Recent(times, a), b) == Recent(times, b)
  {
    if times != [] {
      var init, last := times[..|times| - 1], times[|times| - 1];
      RecentTwice(init, a, b);
      if last > a {
        assert Recent(times, a)[..|Recent(init, a)|] == Recent(init, a);
      }
    }
  }

  lemma {:induction false} RecentMembers(times: seq<real>, cutoff: real)
    ensures forall t :: t in Recent(times, cutoff) <==> t in times && t > cutoff
  {
    if times != [] {
      RecentMembers(times[..|times| - 1], cutoff);
      assert times == times[..|times| - 1] + [times[|times| - 1]];
    }
  }

  lemma {:induction false} RecentOrdered(times: seq<real>, cutoff: real, now: real)
    requires Ordered(times, now)
    ensures Ordered(Recent(times, cutoff), now)
  {
    if times != [] {
      var init := times[..|times| - 1];
      RecentOrdered(init, cutoff, now);
      RecentMembers(init, cutoff);
      var kept := Recent(init, cutoff);
      forall i | 0 <= i < |kept| ensures kept[i] <= times[|times| - 1] {
        assert kept[i] in init;
      }
    }
  }

  lemma {:induction false} WindowIsRecent(times: seq<real>, lo: real, hi: real)
    requires forall i :: 0 <= i < |times| ==> times[i] <= hi
    ensures InWindow(times, lo, hi) == Recent(times, lo)
  {
    if times != [] {
      WindowIsRecent(times[..|times| - 1], lo, hi);
    }
  }

  lemma {:induction false} StaleHasNoRecent(times: seq<real>, cutoff: real)
    requires forall i :: 0 <= i < |times| ==> times[i] <= cutoff
    ensures Recent(times, cutoff) == []
  {
    if times != [] {
      StaleHasNoRecent(times[..|times| - 1], cutoff);
    }
  }

  lemma RecentAppend(times: seq<real>, now: real, cutoff: real)
    ensures Recent(times + [now], cutoff) ==
      if now > cutoff then Recent(times, cutoff) + [now] else Recent(times, cutoff)
  {
    assert (times + [now])[..|times|] == times;
  }

  /** Agreement persists as time passes. */
  lemma AgreeLater(c: Config, bucket: seq<real>, times: seq<real>, now: real, later: real)
    requires Agree(c, bucket, times, now) && now <= later
    ensures Agree(c, bucket, times, later)
  {
    var a, b := now - c.window as real, later - c.window as real;
    RecentTwice(bucket, a, b);
    RecentTwice(times, a, b);
  }

  lemma RefinesLater(c: Config, l: Limiter, h: map<string, seq<real>>, now: real, later: real)
    requires Refines(c, l, h, now) && now <= later
    ensures Refines(c, l, h, later)
  {
    forall token ensures Agree(c, TimesOf(l.buckets, token), TimesOf(h, token), later) {
      AgreeLater(c, TimesOf(l.buckets, token), TimesOf(h, token), now, later);
    }
  }

  lemma EvictedBucketAgrees(c: Config, bucket: seq<real>, times: seq<real>, now: real)
    requires Agree(c, bucket, times, now) && Stale(bucket, now - c.window as real)
    ensures Agree(c, [], times, now)
  {
    StaleHasNoRecent(bucket, now - c.window as real);
  }

  /** Eviction removes only buckets that no window can still see. */
  lemma EvictionRefines(c: Config, l: Limiter, h: map<string, seq<real>>, now: real)
    requires Refines(c, l, h, now)
    ensures Refines(c, Evict(c, l, now), h, now)
  {
    var l' := Evict(c, l, now);
    forall token ensures Agree(c, TimesOf(l'.buckets, token), TimesOf(h, token), now) {
      var bucket, times := TimesOf(l.buckets, token), TimesOf(h, token);
      assert Agree(c, bucket, times, now);
      if Stale(bucket, now - c.window as real) {
        EvictedBucketAgrees(c, bucket, times, now);
      }
    }
  }

  lemma KeptBucketAgrees(c: Config, bucket: seq<real>, times: seq<real>, now: real)
    requires Agree(c, bucket, times, now)
    ensures Agree(c, Recent(bucket, now - c.window as real), times, now)
  {
    RecentOrdered(bucket, now - c.window as real, now);
    RecentTwice(bucket, now - c.window as real, now - c.window as real);
  }

  lemma OrderedAppend(times: seq<real>, now: real)
    requires Ordered(times, now)
    ensures Ordered(times + [now], now)
  {
  }

  lemma AcceptedBucketAgrees(c: Config, bucket: seq<real>, times: seq<real>, now: real)
    requires Agree(c, bucket, times, now)
    ensures Agree(c, bucket + [now], times + [now], now)
  {
    OrderedAppend(bucket, now);
    OrderedAppend(times, now);
    RecentAppend(bucket, now, now - c.window as real);
    RecentAppend(times, now, now - c.window as real);
  }

  /** Replacing one token's timestamps on both sides. */
  lemma ReplaceRefines(c: Config, l: Limiter, h: map<string, seq<real>>, token: string, bucket: seq<real>,
                       h': map<string, seq<real>>, now: real)
    requires Refines(c, l, h, now) && Agree(c, bucket, TimesOf(h', token), now)
    requires forall other :: other != token ==> TimesOf(h', other) == TimesOf(h, other)
    ensures Refines(c, l.(buckets := l.buckets[token := bucket]), h', now)
  {
    forall other ensures Agree(c, TimesOf(l.buckets[token := bucket], other), TimesOf(h', other), now) {
      assert Agree(c, TimesOf(l.buckets, other), TimesOf(h, other), now);
    }
  }

  lemma SameRoom(c: Config, bucket: seq<real>, times: seq<real>, now: real)
    requires Agree(c, bucket, times, now)
    ensures Recent(bucket, now - c.window as real) == InWindow(times, now - c.window as real, now)
  {
    WindowIsRecent(times, now - c.window as real, now);
  }

  lemma RefusalRefines(c: Config, l: Limiter, h: map<string, seq<real>>, token: string, now: real, l': Limiter)
    requires Refines(c, l, h, now)
    requires l' == l.(buckets := l.buckets[token := Recent(TimesOf(l.buckets, token), now - c.window as real)])
    ensures Refines(c, l', h, now)
  {
    var bucket := TimesOf(l.buckets, token);
    assert Agree(c, bucket, TimesOf(h, token), now);
    KeptBucketAgrees(c, bucket, TimesOf(h, token), now);
    ReplaceRefines(c, l, h, token, Recent(bucket, now - c.window as real), h, now);
  }

  lemma AcceptanceRefines(c: Config, l: Limiter, h: map<string, seq<real>>, token: string, now: real,
                          l': Limiter, h': map<string, seq<real>>)
    requires Refines(c, l, h, now) && h' == h[token := TimesOf(h, token) + [now]]
    requires l' == l.(buckets := l.buckets[token := Recent(TimesOf(l.buckets, token), now - c.window as real) + [now]])
    ensures Refines(c, l', h', now)
  {
    var bucket, times := TimesOf(l.buckets, token), TimesOf(h, token);
    var kept := Recent(bucket, now - c.window as real);
    assert Agree(c, bucket, times, now);
    KeptBucketAgrees(c, bucket, times, now);
    AcceptedBucketAgrees(c, kept, times, now);
    ReplaceRefines(c, l, h, token, kept + [now], h', now);
  }

  /** The limiter takes the reference's decision ... */
  lemma SameAnswer(c: Config, l: Limiter, h: map<string, seq<real>>, r: Request)
    requires r.token.Some? && Agree(c, TimesOf(l.buckets, r.token.value), TimesOf(h, r.token.value), r.allowAt)
    ensures Admit(c, l, r.token.value, r.allowAt).1 == RefDispatch(c, h, r).1
  {
    SameRoom(c, TimesOf(l.buckets, r.token.value), TimesOf(h, r.token.value), r.allowAt);
  }

  lemma AdmitIs(c: Config, l: Limiter, h: map<string, seq<real>>, r: Request)
    requires r.token.Some? && Admit(c, l, r.token.value, r.allowAt).1 == RefDispatch(c, h, r).1
    ensures var token, now := r.token.value, r.allowAt;
      var kept := Recent(TimesOf(l.buckets, token), now - c.window as real);
      var (l', allowed) := Admit(c, l, token, now); var h' := RefDispatch(c, h, r).0;
      && h' == (if allowed then h[token := TimesOf(h, token) + [now]] else h)
      && l' == l.(buckets := l.buckets[token := if allowed then kept + [now] else kept])
  {
  }

  /** ... and stays in agreement. */
  lemma AllowRefines(c: Config, l: Limiter, h: map<string, seq<real>>, r: Request)
    requires r.token.Some? && Refines(c, l, h, r.allowAt)
    ensures var (l', allowed) := Admit(c, l, r.token.value, r.allowAt); var (h', allowed') := RefDispatch(c, h, r);
      allowed == allowed' && Refines(c, l', h', r.allowAt)
  {
    var token, l', h' := r.token.value, Admit(c, l, r.token.value, r.allowAt).0, RefDispatch(c, h, r).0;
    SameAnswer(c, l, h, r);
    AdmitIs(c, l, h, r);
    if Admit(c, l, token, r.allowAt).1 {
      AcceptanceRefines(c, l, h, token, r.allowAt, l', h');
    } else {
      RefusalRefines(c, l, h, token, r.allowAt, l');
    }
  }

  lemma DispatchRefines(c: Config, l: Limiter, h: map<string, seq<real>>, r: Request, now: real)
    requires Refines(c, l, h, now) && now <= r.evictAt <= r.allowAt
    ensures var (l', allowed) := Handle(c, l, r); var (h', allowed') := RefDispatch(c, h, r);
      allowed == allowed' && Refines(c, l', h', r.allowAt)
  {
    RefinesLater(c, l, h, now, r.evictAt);
    EvictionRefines(c, l, h, r.evictAt);
    var l1 := Evict(c, l, r.evictAt);
    RefinesLater(c, l1, h, r.evictAt, r.allowAt);
    if r.token.Some? {
      AllowRefines(c, l1, h, r);
    }
  }

  /** For every mix of tokens and every clock that never goes back, pruning and eviction change no
      decision: the limiter decides exactly like one that remembers every accepted request. */
  lemma {:induction false} LimiterRefinesUnbounded(c: Config, l: Limiter, h: map<string, seq<real>>, now: real,
                                                   requests: seq<Request>)
    requires Refines(c, l, h, now) && NonDecreasing(now, requests)
    ensures Decisions(c, l, requests) == RefDecisions(c, h, requests)
    decreases |requests|
  {
    if requests != [] {
      DispatchRefines(c, l, h, requests[0], now);
      LimiterRefinesUnbounded(c, Handle(c, l, requests[0]).0, RefDispatch(c, h, requests[0]).0,
        requests[0].allowAt, requests[1..]);
    }
  }

  // ---------------------------------------------------------------- the limit itself

  function Limit(c: Config): nat { if c.max < 0 then 0 else c.max }

  /** The accepted timestamps in the window of the configured length that ends at `t`. */
  function WindowEnding(c: Config, times: seq<real>, t: real): seq<real> {
    InWindow(times, t - c.window as real, t)
  }

  ghost predicate WithinLimit(c: Config, times: seq<real>) {
    forall t :: |WindowEnding(c, times, t)| <= Limit(c)
  }

  ghost predicate AllWithinLimit(c: Config, h: map<string, seq<real>>, now: real) {
    forall token :: WithinLimit(c, TimesOf(h, token)) && Ordered(TimesOf(h, token), now)
  }

  lemma {:induction false} NarrowerWindow(times: seq<real>, lo: real, lo': real, hi: real)
    requires lo <= lo'
    ensures |InWindow(times, lo', hi)| <= |InWindow(times, lo, hi)|
  {
    if times != [] {
      NarrowerWindow(times[..|times| - 1], lo, lo', hi);
    }
  }

  lemma WindowAppend(times: seq<real>, now: real, lo: real, hi: real)
    ensures InWindow(times + [now], lo, hi) ==
      if lo < now <= hi then InWindow(times, lo, hi) + [now] else InWindow(times, lo, hi)
  {
    assert (times + [now])[..|times|] == times;
  }

  lemma AcceptLeavesRoom(c: Config, times: seq<real>, now: real, t: real)
    requires Ordered(times, now) && |WindowEnding(c, times, t)| <= Limit(c) && |WindowEnding(c, times, now)| < c.max
    ensures |WindowEnding(c, times + [now], t)| <= Limit(c)
  {
    var lo := t - c.window as real;
    WindowAppend(times, now, lo, t);
    if lo < now <= t {
      WindowIsRecent(times, lo, t);
      WindowIsRecent(times, lo, now);
      NarrowerWindow(times, now - c.window as real, lo, now);
    }
  }

  /** Accepting a request while its own window has room leaves room in every window. */
  lemma AcceptWithinLimit(c: Config, times: seq<real>, now: real)
    requires WithinLimit(c, times) && Ordered(times, now) && |WindowEnding(c, times, now)| < c.max
    ensures WithinLimit(c, times + [now]) && Ordered(times + [now], now)
  {
    OrderedAppend(times, now);
    forall t ensures |WindowEnding(c, times + [now], t)| <= Limit(c) {
      AcceptLeavesRoom(c, times, now, t);
    }
  }

  lemma {:induction false} HistoryWithinLimit(c: Config, h: map<string, seq<real>>, now: real, requests: seq<Request>)
    requires AllWithinLimit(c, h, now) && NonDecreasing(now, requests)
    ensures forall token :: WithinLimit(c, TimesOf(RefAll(c, h, requests), token))
    decreases |requests|
  {
    if requests != [] {
      var r, h' := requests[0], RefDispatch(c, h, requests[0]).0;
      forall token ensures WithinLimit(c, TimesOf(h', token)) && Ordered(TimesOf(h', token), r.allowAt) {
        assert WithinLimit(c, TimesOf(h, token)) && Ordered(TimesOf(h, token), now);
        if TimesOf(h', token) != TimesOf(h, token) {
          AcceptWithinLimit(c, TimesOf(h, token), r.allowAt);
        }
      }
      HistoryWithinLimit(c, h', r.allowAt, requests[1..]);
    }
  }

  /** The times at which requests of a token were accepted. */
  function AcceptedTimes(requests: seq<Request>, decisions: seq<bool>, token: string): seq<real>
    requires |requests| == |decisions|
  {
    if requests == [] then []
    else
      var n := |requests| - 1;
      var init := AcceptedTimes(requests[..n], decisions[..n], token);
      if requests[n].token == Some(token) && decisions[n] then init + [requests[n].allowAt] else init
  }

  lemma {:induction false} DecisionsCount(c: Config, l: Limiter, requests: seq<Request>)
    ensures |Decisions(c, l, requests)| == |requests|
    decreases |requests|
  {
    if requests != [] {
      DecisionsCount(c, Handle(c, l, requests[0]).0, requests[1..]);
    }
  }

  lemma {:induction false} RefSplits(c: Config, h: map<string, seq<real>>, a: seq<Request>, r: Request)
    ensures RefDecisions(c, h, a + [r]) == RefDecisions(c, h, a) + [RefDispatch(c, RefAll(c, h, a), r).1]
    ensures RefAll(c, h, a + [r]) == RefDispatch(c, RefAll(c, h, a), r).0
    ensures |RefDecisions(c, h, a)| == |a|
    decreases |a|
  {
    if a == [] {
      assert ([] + [r])[1..] == [];
    } else {
      RefSplits(c, RefDispatch(c, h, a[0]).0, a[1..], r);
      assert (a + [r])[1..] == a[1..] + [r];
    }
  }

  /** The reference history of a token is the times at which its requests were accepted. */
  lemma {:induction false} HistoryIsAccepted(c: Config, requests: seq<Request>, token: string)
    ensures |RefDecisions(c, map[], requests)| == |requests|
    ensures TimesOf(RefAll(c, map[], requests), token) ==
      AcceptedTimes(requests, RefDecisions(c, map[], requests), token)
    decreases |requests|
  {
    if requests != [] {
      var n := |requests| - 1;
      var a, r := requests[..n], requests[n];
      assert requests == a + [r];
      HistoryIsAccepted(c, a, token);
      RefSplits(c, map[], a, r);
      AcceptedUnfolds(a, RefDecisions(c, map[], a), r, RefDispatch(c, RefAll(c, map[], a), r).1, token);
      AcceptedIsAdded(c, RefAll(c, map[], a), r, token);
    }
  }

  lemma AcceptedUnfolds(a: seq<Request>, decisions: seq<bool>, r: Request, accepted: bool, token: string)
    requires |a| == |decisions|
    ensures AcceptedTimes(a + [r], decisions + [accepted], token) ==
      if r.token == Some(token) && accepted then AcceptedTimes(a, decisions, token) + [r.allowAt]
      else AcceptedTimes(a, decisions, token)
  {
    assert (a + [r])[..|a|] == a && (decisions + [accepted])[..|a|] == decisions;
  }

  lemma AcceptedIsAdded(c: Config, h: map<string, seq<real>>, r: Request, token: string)
    ensures var (h', accepted) := RefDispatch(c, h, r);
      TimesOf(h', token) ==
        if r.token == Some(token) && accepted then TimesOf(h, token) + [r.allowAt] else TimesOf(h, token)
  {
  }

  lemma {:induction false} NonDecreasingPrefix(now: real, requests: seq<Request>, n: nat)
    requires NonDecreasing(now, requests) && n <= |requests|
    ensures NonDecreasing(now, requests[..n])
    decreases |requests|
  {
    if n > 0 {
      NonDecreasingPrefix(requests[0].allowAt, requests[1..], n - 1);
      assert requests[..n][1..] == requests[1..][..n - 1];
    }
  }

  lemma InitiallyRefines(c: Config, start: real)
    ensures Refines(c, Limiter(map[], start), map[], start) && AllWithinLimit(c, map[], start)
  {
  }

  lemma {:induction false} RefPrefix(c: Config, h: map<string, seq<real>>, requests: seq<Request>, n: nat)
    requires n <= |requests|
    ensures |RefDecisions(c, h, requests)| == |requests|
    ensures RefDecisions(c, h, requests[..n]) == RefDecisions(c, h, requests)[..n]
    ensures n < |requests| ==>
      RefDecisions(c, h, requests)[n] == RefDispatch(c, RefAll(c, h, requests[..n]), requests[n]).1
    decreases |requests|
  {
    if requests != [] {
      var h', rest := RefDispatch(c, h, requests[0]).0, requests[1..];
      if n == 0 {
        RefPrefix(c, h', rest, 0);
        assert requests[..0] == [];
      } else {
        RefPrefix(c, h', rest, n - 1);
        assert requests[..n][1..] == rest[..n - 1];
        assert RefDecisions(c, h, requests) == [RefDispatch(c, h, requests[0]).1] + RefDecisions(c, h', rest);
      }
    }
  }

  /** The whole promise, in terms of requests and answers only. From a fresh limiter, for every
      sequence of requests under a clock that never goes back: a request without a token is let
      through; one with a token is let through if and only if fewer than `max` requests of that token
      were accepted in the window ending at it; and every window, wherever it ends, holds at most
      `max` accepted requests of each token. */
  lemma LimiterEnforcesWindow(c: Config, start: real, requests: seq<Request>)
    requires NonDecreasing(start, requests)
    ensures var d := Decisions(c, Limiter(map[], start), requests);
      && |d| == |requests|
      && (forall i :: 0 <= i < |requests| && requests[i].token.None? ==> d[i])
      && (forall i :: 0 <= i < |requests| && requests[i].token.Some? ==>
            (d[i] <==> var r := requests[i];
               |WindowEnding(c, AcceptedTimes(requests[..i], d[..i], r.token.value), r.allowAt)| < c.max))
      && (forall token :: WithinLimit(c, AcceptedTimes(requests, d, token)))
  {
    var d := Decisions(c, Limiter(map[], start), requests);
    InitiallyRefines(c, start);
    LimiterRefinesUnbounded(c, Limiter(map[], start), map[], start, requests);
    DecisionsCount(c, Limiter(map[], start), requests);
    forall i | 0 <= i < |requests|
      ensures requests[i].token.None? ==> d[i]
      ensures requests[i].token.Some? ==>
        (d[i] <==> var r := requests[i];
           |WindowEnding(c, AcceptedTimes(requests[..i], d[..i], r.token.value), r.allowAt)| < c.max)
    {
      RefPrefix(c, map[], requests, i);
      if requests[i].token.Some? {
        HistoryIsAccepted(c, requests[..i], requests[i].token.value);
      }
    }
    HistoryWithinLimit(c, map[], start, requests);
    forall token ensures WithinLimit(c, AcceptedTimes(requests, d, token)) {
      HistoryIsAccepted(c, requests, token);
    }
  }
}
