/**
 Fixed-window rate limiting per client key.

 The clock is in milliseconds and does not run backwards; the window and the maximum are configured
 numbers above zero, not necessarily whole.
 */
module RouteLimiter {

  datatype Bucket = Bucket(count: nat, resetAt: real)

  datatype Decision = Decision(allowed: bool, remaining: real, resetAt: real)

  datatype Settings = Settings(window: real, max: real)

  ghost predicate ValidSettings(cfg: Settings) {
    cfg.window > 0.0 && cfg.max > 0.0
  }

  // ---- one request, one sweep ----------------------------------------------------------------------

  predicate Expired(bucket: Bucket, now: int) {
    now as real >= bucket.resetAt
  }

  /** The key's bucket after a request has been counted in it. */
  function Counted(buckets: map<string, Bucket>, key: string, now: int, cfg: Settings): Bucket {
    if key !in buckets || Expired(buckets[key], now) then Bucket(1, now as real + cfg.window)
    else Bucket(buckets[key].count + 1, buckets[key].resetAt)
  }

  function Decide(bucket: Bucket, cfg: Settings): Decision {
    var left := cfg.max - bucket.count as real;
    Decision(bucket.count as real <= cfg.max, if left > 0.0 then left else 0.0, bucket.resetAt)
  }

  function Swept(buckets: map<string, Bucket>, now: int): map<string, Bucket> {
    map key | key in buckets && !Expired(buckets[key], now) :: buckets[key]
  }

  class Limiter {
    const cfg: Settings
    var buckets: map<string, Bucket>

    constructor (cfg: Settings)
      ensures this.cfg == cfg && buckets == map[]
    {
      this.cfg := cfg;
      buckets := map[];
    }

    /** The middleware: an expired bucket is replaced, then the request is counted and judged. */
    method Handle(key: string, now: int) returns (d: Decision)
      modifies this
      ensures buckets == old(buckets)[key := Counted(old(buckets), key, now, cfg)]
      ensures d == Decide(buckets[key], cfg)
    {
      if key !in buckets || Expired(buckets[key], now) {
        buckets := buckets[key := Bucket(0, now as real + cfg.window)];
      }
      buckets := buckets[key := buckets[key].(count := buckets[key].count + 1)];
      var left := cfg.max - buckets[key].count as real;
      d := Decision(!(buckets[key].count as real > cfg.max), if left > 0.0 then left else 0.0, buckets[key].resetAt);
    }

    /** `sweep`. */
    method Sweep(now: int)
      modifies this
      ensures buckets == Swept(old(buckets), now)
    {
      var todo := buckets.Keys;
      while todo != {}
        invariant todo <= old(buckets).Keys
        invariant buckets == map key | key in old(buckets) && (key in todo || !Expired(old(buckets)[key], now)) :: old(buckets)[key]
        decreases |todo|
      {
        var key :| key in todo;
        if Expired(buckets[key], now) {
          buckets := buckets - {key};
        }
        todo := todo - {key};
      }
    }
  }

  // ---- runs ------------------------------------------------------------------------------------------

  datatype Action = Request(key: string, now: int) | Sweep(now: int)

  function After(buckets: map<string, Bucket>, action: Action, cfg: Settings): map<string, Bucket> {
    match action
    case Request(key, now) => buckets[key := Counted(buckets, key, now, cfg)]
    case Sweep(now) => Swept(buckets, now)
  }

  /** The decisions of a run, one for each request. */
  function Decisions(buckets: map<string, Bucket>, actions: seq<Action>, cfg: Settings): seq<Decision>
    decreases |actions|
  {
    if actions == [] then []
    else
      var rest := Decisions(After(buckets, actions[0], cfg), actions[1..], cfg);
      if actions[0].Request? then [Decide(Counted(buckets, actions[0].key, actions[0].now, cfg), cfg)] + rest else rest
  }

  function WithoutSweeps(actions: seq<Action>): seq<Action> {
    if actions == [] then []
    else (if actions[0].Request? then [actions[0]] else []) + WithoutSweeps(actions[1..])
  }

  /** The clock does not run backwards. */
  ghost predicate Forward(start: int, actions: seq<Action>)
    decreases |actions|
  {
    actions != [] ==> start <= actions[0].now && Forward(actions[0].now, actions[1..])
  }

  // ---- sweeping is invisible -------------------------------------------------------------------------

  ghost predicate Live(buckets: map<string, Bucket>, key: string, now: int) {
    key in buckets && !Expired(buckets[key], now)
  }

  /** The same live buckets; expired ones may be there or not. */
  ghost predicate SameLive(a: map<string, Bucket>, b: map<string, Bucket>, now: int) {
    forall key :: (Live(a, key, now) <==> Live(b, key, now)) && (Live(a, key, now) ==> a[key] == b[key])
  }

  lemma RequestKeepsSameLive(a: map<string, Bucket>, b: map<string, Bucket>, start: int, key: string, now: int, cfg: Settings)
    requires SameLive(a, b, start) && start <= now
    ensures Counted(a, key, now, cfg) == Counted(b, key, now, cfg)
    ensures SameLive(After(a, Request(key, now), cfg), After(b, Request(key, now), cfg), now)
  {
    forall k ensures Live(a, k, now) <==> Live(b, k, now) {
      assert Live(a, k, start) <==> Live(b, k, start);
    }
    assert Live(a, key, now) <==> Live(b, key, now);
  }

  lemma SweepKeepsSameLive(a: map<string, Bucket>, b: map<string, Bucket>, start: int, now: int)
    requires SameLive(a, b, start) && start <= now
    ensures SameLive(Swept(a, now), b, now)
  {
    forall k ensures Live(Swept(a, now), k, now) <==> Live(b, k, now) {
      assert Live(a, k, start) <==> Live(b, k, start);
    }
  }

  lemma {:induction false} SweepsChangeNothing(a: map<string, Bucket>, b: map<string, Bucket>, start: int, actions: seq<Action>, cfg: Settings)
    requires SameLive(a, b, start) && Forward(start, actions)
    ensures Decisions(a, actions, cfg) == Decisions(b, WithoutSweeps(actions), cfg)
    ensures Forward(start, WithoutSweeps(actions)) && OnlyRequests(WithoutSweeps(actions))
    decreases |actions|
  {
    if actions != [] {
      var now, rest := actions[0].now, actions[1..];
      match actions[0]
      case Request(key, _) =>
        RequestKeepsSameLive(a, b, start, key, now, cfg);
        SweepsChangeNothing(After(a, actions[0], cfg), After(b, actions[0], cfg), now, rest, cfg);
        assert WithoutSweeps(actions)[1..] == WithoutSweeps(rest);
      case Sweep(_) =>
        SweepKeepsSameLive(a, b, start, now);
        SweepsChangeNothing(Swept(a, now), b, now, rest, cfg);
        assert WithoutSweeps(actions) == WithoutSweeps(rest);
        ForwardFromEarlier(start, now, WithoutSweeps(rest));
    }
  }

  lemma ForwardFromEarlier(start: int, later: int, actions: seq<Action>)
    requires start <= later && Forward(later, actions)
    ensures Forward(start, actions)
  {
  }

  /** Sweeping at any points of a run never changes a decision. */
  lemma SweepIsInvisible(start: int, actions: seq<Action>, cfg: Settings)
    requires Forward(start, actions)
    ensures Decisions(map[], actions, cfg) == Decisions(map[], WithoutSweeps(actions), cfg)
  {
    SweepsChangeNothing(map[], map[], start, actions, cfg);
  }

  // ---- how many requests one window length lets through ----------------------------------------------

  ghost predicate InSpan(now: int, a: real, cfg: Settings) {
    a <= now as real < a + cfg.window
  }

  /** The accepted requests of a key at times from a to before a plus one window. */
  ghost function AcceptedIn(requests: seq<Action>, decisions: seq<Decision>, key: string, a: real, cfg: Settings): nat {
    if requests == [] || decisions == [] then 0
    else (if requests[0].Request? && requests[0].key == key && InSpan(requests[0].now, a, cfg) && decisions[0].allowed then 1 else 0)
         + AcceptedIn(requests[1..], decisions[1..], key, a, cfg)
  }

  ghost function AcceptedOf(buckets: map<string, Bucket>, requests: seq<Action>, key: string, a: real, cfg: Settings): nat {
    AcceptedIn(requests, Decisions(buckets, requests, cfg), key, a, cfg)
  }

  /** How many requests of the key the rest of a run can still accept in the span. */
  ghost function Budget(buckets: map<string, Bucket>, key: string, last: int, a: real, cfg: Settings): int {
    var m := cfg.max.Floor;
    if m < 1 || last as real >= a + cfg.window then 0
    else if (last as real) < a || key !in buckets then 2 * m - 1
    else
      var left := if buckets[key].count < m then m - buckets[key].count else 0;
      if buckets[key].resetAt - cfg.window < a then left + m else left
  }

  ghost predicate WellCounted(buckets: map<string, Bucket>, last: int, cfg: Settings) {
    forall key :: key in buckets ==> buckets[key].count >= 1 && buckets[key].resetAt <= last as real + cfg.window
  }

  ghost predicate OnlyRequests(actions: seq<Action>) {
    forall i :: 0 <= i < |actions| ==> actions[i].Request?
  }

  lemma BudgetPays(buckets: map<string, Bucket>, key: string, last: int, a: real, now: int, cfg: Settings)
    requires ValidSettings(cfg) && WellCounted(buckets, last, cfg) && last <= now
    ensures var after := buckets[key := Counted(buckets, key, now, cfg)];
            Budget(after, key, now, a, cfg)
            + (if InSpan(now, a, cfg) && Decide(after[key], cfg).allowed then 1 else 0) <= Budget(buckets, key, last, a, cfg)
  {
    var m, bucket := cfg.max.Floor, Counted(buckets, key, now, cfg);
    assert bucket.count as real <= cfg.max <==> bucket.count <= m;
  }

  lemma {:induction false} RunStaysInBudget(buckets: map<string, Bucket>, last: int, requests: seq<Action>, key: string, a: real, cfg: Settings)
    requires ValidSettings(cfg) && WellCounted(buckets, last, cfg) && Forward(last, requests) && OnlyRequests(requests)
    ensures AcceptedOf(buckets, requests, key, a, cfg) <= Budget(buckets, key, last, a, cfg)
    decreases |requests|
  {
    if requests != [] {
      var key', now := requests[0].key, requests[0].now;
      var after := After(buckets, requests[0], cfg);
      assert Decisions(buckets, requests, cfg)[1..] == Decisions(after, requests[1..], cfg);
      RunStaysInBudget(after, now, requests[1..], key, a, cfg);
      if key' == key {
        BudgetPays(buckets, key, last, a, now, cfg);
      }
    }
  }

  /** The same for a window of at most a millisecond, which holds a single moment of the clock. */
  ghost function ShortBudget(buckets: map<string, Bucket>, key: string, last: int, a: real, cfg: Settings): int {
    var m := cfg.max.Floor;
    if m < 1 || last as real >= a + cfg.window then 0
    else if (last as real) < a || !Live(buckets, key, last) then m
    else if buckets[key].count < m then m - buckets[key].count else 0
  }

  lemma ShortBudgetPays(buckets: map<string, Bucket>, key: string, last: int, a: real, now: int, cfg: Settings)
    requires ValidSettings(cfg) && cfg.window <= 1.0 && WellCounted(buckets, last, cfg) && last <= now
    ensures var after := buckets[key := Counted(buckets, key, now, cfg)];
            ShortBudget(after, key, now, a, cfg)
            + (if InSpan(now, a, cfg) && Decide(after[key], cfg).allowed then 1 else 0) <= ShortBudget(buckets, key, last, a, cfg)
  {
    var m, bucket := cfg.max.Floor, Counted(buckets, key, now, cfg);
    assert bucket.count as real <= cfg.max <==> bucket.count <= m;
    assert InSpan(now, a, cfg) && InSpan(last, a, cfg) ==> now == last;
  }

  lemma {:induction false} RunStaysInShortBudget(buckets: map<string, Bucket>, last: int, requests: seq<Action>, key: string, a: real, cfg: Settings)
    requires ValidSettings(cfg) && cfg.window <= 1.0
    requires WellCounted(buckets, last, cfg) && Forward(last, requests) && OnlyRequests(requests)
    ensures AcceptedOf(buckets, requests, key, a, cfg) <= ShortBudget(buckets, key, last, a, cfg)
    decreases |requests|
  {
    if requests != [] {
      var key', now := requests[0].key, requests[0].now;
      var after := After(buckets, requests[0], cfg);
      assert Decisions(buckets, requests, cfg)[1..] == Decisions(after, requests[1..], cfg);
      RunStaysInShortBudget(after, now, requests[1..], key, a, cfg);
      if key' == key {
        ShortBudgetPays(buckets, key, last, a, now, cfg);
      } else {
        OtherKeyKeepsShortBudget(buckets, key, key', last, a, now, cfg);
      }
    }
  }

  lemma OtherKeyKeepsShortBudget(buckets: map<string, Bucket>, key: string, other: string, last: int, a: real, now: int, cfg: Settings)
    requires ValidSettings(cfg) && cfg.window <= 1.0 && WellCounted(buckets, last, cfg) && last <= now && other != key
    ensures ShortBudget(buckets[other := Counted(buckets, other, now, cfg)], key, now, a, cfg) <= ShortBudget(buckets, key, last, a, cfg)
  {
    assert InSpan(now, a, cfg) && InSpan(last, a, cfg) ==> now == last;
  }

  /** The most that one window length can let through: whole requests, and two buckets' worth less one. */
  function MaxInWindow(cfg: Settings): int {
    var m := cfg.max.Floor;
    if m < 1 then 0 else if cfg.window <= 1.0 then m else 2 * m - 1
  }

  /** The requests of a key that are accepted in the window length from a, sweeps or not. */
  ghost function AcceptedInRun(actions: seq<Action>, key: string, a: real, cfg: Settings): nat {
    AcceptedIn(WithoutSweeps(actions), Decisions(map[], actions, cfg), key, a, cfg)
  }

  lemma WindowBound(start: int, actions: seq<Action>, key: string, a: real, cfg: Settings)
    requires ValidSettings(cfg) && Forward(start, actions)
    ensures AcceptedInRun(actions, key, a, cfg) <= MaxInWindow(cfg)
  {
    SweepsChangeNothing(map[], map[], start, actions, cfg);
    RunStaysInBudget(map[], start, WithoutSweeps(actions), key, a, cfg);
    if cfg.window <= 1.0 {
      RunStaysInShortBudget(map[], start, WithoutSweeps(actions), key, a, cfg);
    }
  }

  // ---- the bound is met --------------------------------------------------------------------------------

  ghost function Burst(key: string, now: int, n: nat, rest: seq<Action>): seq<Action> {
    if n == 0 then rest else [Request(key, now)] + Burst(key, now, n - 1, rest)
  }

  lemma {:induction false} BurstIsAccepted(buckets: map<string, Bucket>, key: string, now: int, n: nat, rest: seq<Action>, a: real, cfg: Settings)
    requires Live(buckets, key, now) && (buckets[key].count + n) as real <= cfg.max
    ensures AcceptedOf(buckets, Burst(key, now, n, rest), key, a, cfg)
            == (if InSpan(now, a, cfg) then n else 0)
               + AcceptedOf(buckets[key := Bucket(buckets[key].count + n, buckets[key].resetAt)], rest, key, a, cfg)
    decreases n
  {
    if n == 0 {
      assert buckets[key := Bucket(buckets[key].count, buckets[key].resetAt)] == buckets;
    } else {
      FirstOfBurst(buckets, key, now, n, rest, a, cfg);
      var after := buckets[key := Bucket(buckets[key].count + 1, buckets[key].resetAt)];
      BurstIsAccepted(after, key, now, n - 1, rest, a, cfg);
      assert after[key := Bucket(buckets[key].count + n, buckets[key].resetAt)]
          == buckets[key := Bucket(buckets[key].count + n, buckets[key].resetAt)];
    }
  }

  lemma FirstOfBurst(buckets: map<string, Bucket>, key: string, now: int, n: nat, rest: seq<Action>, a: real, cfg: Settings)
    requires n > 0
    ensures var bucket := Counted(buckets, key, now, cfg);
            AcceptedOf(buckets, Burst(key, now, n, rest), key, a, cfg)
            == (if InSpan(now, a, cfg) && bucket.count as real <= cfg.max then 1 else 0)
               + AcceptedOf(buckets[key := bucket], Burst(key, now, n - 1, rest), key, a, cfg)
  {
    var burst := Burst(key, now, n, rest);
    assert burst[1..] == Burst(key, now, n - 1, rest);
    var after := After(buckets, burst[0], cfg);
    assert Decisions(buckets, burst, cfg)[1..] == Decisions(after, burst[1..], cfg);
  }

  lemma {:induction false} ForwardBurst(start: int, key: string, now: int, n: nat, rest: seq<Action>)
    requires start <= now && Forward(now, rest)
    ensures Forward(start, Burst(key, now, n, rest))
    decreases n
  {
    if n == 0 {
      ForwardFromEarlier(start, now, rest);
    } else {
      ForwardBurst(now, key, now, n - 1, rest);
      assert Burst(key, now, n, rest)[1..] == Burst(key, now, n - 1, rest);
    }
  }

  lemma LongBurst(key: string, cfg: Settings) returns (requests: seq<Action>, a: real)
    requires cfg.max >= 1.0 && cfg.window > 1.0
    ensures Forward(0, requests) && AcceptedOf(map[], requests, key, a, cfg) == 2 * cfg.max.Floor - 1
    ensures OnlyRequests(requests)
  {
    assert OnlyRequests([]) && forall start :: Forward(start, []);
    hide Burst, OnlyRequests, Forward;
    var m, end := cfg.max.Floor, -((-cfg.window).Floor);
    a := (end - 1) as real;
    var second := Burst(key, end, m, []);
    requests := Burst(key, 0, 1, Burst(key, end - 1, m - 1, second));
    ForwardBurst(end - 1, key, end, m, []);
    ForwardBurst(0, key, end - 1, m - 1, second);
    ForwardBurst(0, key, 0, 1, Burst(key, end - 1, m - 1, second));
    BurstIsRequests(key, end, m, []);
    BurstIsRequests(key, end - 1, m - 1, second);
    BurstIsRequests(key, 0, 1, Burst(key, end - 1, m - 1, second));
    var started: map<string, Bucket> := map[key := Bucket(1, cfg.window)];
    FirstOfBurst(map[], key, 0, 1, Burst(key, end - 1, m - 1, second), a, cfg);
    assert map[][key := Bucket(1, cfg.window)] == started;
    BurstIsAccepted(started, key, end - 1, m - 1, second, a, cfg);
    var full := started[key := Bucket(m, cfg.window)];
    FirstOfBurst(full, key, end, m, [], a, cfg);
    var reopened := full[key := Bucket(1, end as real + cfg.window)];
    BurstIsAccepted(reopened, key, end, m - 1, [], a, cfg);
  }

  lemma ShortBurst(key: string, cfg: Settings) returns (requests: seq<Action>)
    requires cfg.max >= 1.0 && cfg.window > 0.0
    ensures Forward(0, requests) && AcceptedOf(map[], requests, key, 0.0, cfg) == cfg.max.Floor
    ensures OnlyRequests(requests)
  {
    var m := cfg.max.Floor;
    requests := Burst(key, 0, m, []);
    ForwardBurst(0, key, 0, m, []);
    BurstIsRequests(key, 0, m, []);
    FirstOfBurst(map[], key, 0, m, [], 0.0, cfg);
    var started: map<string, Bucket> := map[key := Bucket(1, cfg.window)];
    assert map[][key := Bucket(1, cfg.window)] == started;
    BurstIsAccepted(started, key, 0, m - 1, [], 0.0, cfg);
  }

  lemma {:induction false} BurstIsRequests(key: string, now: int, n: nat, rest: seq<Action>)
    requires OnlyRequests(rest)
    ensures OnlyRequests(Burst(key, now, n, rest))
    decreases n
  {
    if n > 0 {
      BurstIsRequests(key, now, n - 1, rest);
    }
  }

  lemma {:induction false} RequestsHaveNoSweeps(requests: seq<Action>)
    requires OnlyRequests(requests)
    ensures WithoutSweeps(requests) == requests
  {
    if requests != [] {
      RequestsHaveNoSweeps(requests[1..]);
      assert requests == [requests[0]] + requests[1..];
    }
  }

  /** For all settings the bound is met: some run lets through exactly so many. */
  lemma BoundIsReached(key: string, cfg: Settings) returns (actions: seq<Action>, a: real)
    requires ValidSettings(cfg)
    ensures Forward(0, actions) && AcceptedInRun(actions, key, a, cfg) == MaxInWindow(cfg)
  {
    actions, a := [], 0.0;
    if cfg.max >= 1.0 && cfg.window > 1.0 {
      actions, a := LongBurst(key, cfg);
    } else if cfg.max >= 1.0 {
      actions := ShortBurst(key, cfg);
    }
    RequestsHaveNoSweeps(actions);
  }

  ghost predicate PassesMax(actions: seq<Action>, key: string, a: real, cfg: Settings) {
    Forward(0, actions) && AcceptedInRun(actions, key, a, cfg) as real > cfg.max
  }

  /** One window length never lets more than the maximum through if and only if the maximum is below two or the window that short. */
  lemma MaxIsKeptExactlyWhen(cfg: Settings)
    requires ValidSettings(cfg)
    ensures (forall actions, key, a :: !PassesMax(actions, key, a, cfg)) <==> cfg.max < 2.0 || cfg.window <= 1.0
  {
    var m := cfg.max.Floor;
    if cfg.max < 2.0 || cfg.window <= 1.0 {
      assert m as real <= cfg.max;
      forall actions: seq<Action>, key: string, a: real ensures !PassesMax(actions, key, a, cfg) {
        if Forward(0, actions) {
          WindowBound(0, actions, key, a, cfg);
          assert MaxInWindow(cfg) <= if m < 1 then 0 else m;
        }
      }
    } else {
      var actions, a := BoundIsReached("", cfg);
      assert 2 * m - 1 > m && (2 * m - 1) as real > cfg.max;
      assert PassesMax(actions, "", a, cfg);
    }
  }
}
