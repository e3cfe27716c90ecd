/**
 Webhook delivery of a ledger range: the events are read page by page, and each meets the subscriptions
 of its contract. Every attempt of a pair goes through an oracle that accepts, refuses or throws.
 */
module WebhookDelivery {
  import opened Wrappers

  datatype EventRow = EventRow(id: nat, contractId: string, eventType: string, ledger: int)

  /** `event_types`: everything, a JSON list, a JSON string, or else a plain name. */
  datatype EventTypes = Everything | Listed(types: seq<string>) | Quoted(text: string) | Plain(name: string)

  datatype Subscription = Subscription(id: nat, contractId: string, eventTypes: EventTypes)

  datatype Pair = Pair(event: EventRow, sub: Subscription)

  datatype Answer = Accepted | Refused | Thrown

  /** What the endpoint does with a numbered attempt. */
  type Endpoint = (Pair, nat) -> Answer

  /** The time at which the outcome of a pair is recorded. */
  type Clock = Key -> int

  datatype DeliveryResult = DeliveryResult(subscriptionId: nat, eventId: nat, success: bool, attempts: nat)

  const MAX_RETRIES := 3

  /** `String.prototype.includes`. */
  predicate Contains(text: string, part: string) {
    exists i :: 0 <= i <= |text| - |part| && text[i..][..|part|] == part
  }

  /** `subscriptionsMatchEvent`: the `includes` of a list looks for an entry, that of a string for a part. */
  predicate Matches(eventTypes: EventTypes, eventType: string) {
    match eventTypes
    case Everything => true
    case Listed(types) => "*" in types || eventType in types
    case Quoted(text) => Contains(text, "*") || Contains(text, eventType)
    case Plain(name) => name == eventType
  }

  // ---- the pairs of a range --------------------------------------------------------------------------

  /** `ORDER BY ledger_sequence ASC, id ASC`. */
  ghost predicate Before(a: EventRow, b: EventRow) {
    a.ledger < b.ledger || (a.ledger == b.ledger && a.id < b.id)
  }

  ghost predicate Sorted(table: seq<EventRow>) {
    forall i, j :: 0 <= i < j < |table| ==> Before(table[i], table[j])
  }

  function InRange(table: seq<EventRow>, lo: int, hi: int): seq<EventRow> {
    if table == [] then []
    else InRange(table[..|table| - 1], lo, hi) + if lo <= table[|table| - 1].ledger <= hi then [table[|table| - 1]] else []
  }

  /** The page query: only events of subscribed contracts. */
  function PageQuery(table: seq<EventRow>, lo: int, hi: int, contracts: set<string>): seq<EventRow> {
    if table == [] then []
    else
      var last := table[|table| - 1];
      PageQuery(table[..|table| - 1], lo, hi, contracts)
      + if lo <= last.ledger <= hi && last.contractId in contracts then [last] else []
  }

  function OfContract(subs: seq<Subscription>, contractId: string): seq<Subscription> {
    if subs == [] then []
    else OfContract(subs[..|subs| - 1], contractId) + if subs[|subs| - 1].contractId == contractId then [subs[|subs| - 1]] else []
  }

  function PairsOfEvent(event: EventRow, subs: seq<Subscription>): seq<Pair> {
    if subs == [] then []
    else
      var last := subs[|subs| - 1];
      PairsOfEvent(event, subs[..|subs| - 1]) + if Matches(last.eventTypes, event.eventType) then [Pair(event, last)] else []
  }

  /** Every event with every subscription of its contract that wants it, event by event. */
  function Pairs(events: seq<EventRow>, subs: seq<Subscription>): seq<Pair> {
    if events == [] then []
    else Pairs(events[..|events| - 1], subs) + PairsOfEvent(events[|events| - 1], OfContract(subs, events[|events| - 1].contractId))
  }

  // ---- paging loses nothing --------------------------------------------------------------------------

  lemma {:induction false} EmptyRange(table: seq<EventRow>, lo: int, hi: int)
    requires lo > hi
    ensures InRange(table, lo, hi) == []
  {
    if table != [] {
      EmptyRange(table[..|table| - 1], lo, hi);
    }
  }

  lemma {:induction false} NothingAbove(table: seq<EventRow>, lo: int, hi: int)
    requires forall i :: 0 <= i < |table| ==> table[i].ledger < lo
    ensures InRange(table, lo, hi) == []
  {
    if table != [] {
      NothingAbove(table[..|table| - 1], lo, hi);
    }
  }

  lemma NothingYet(table: seq<EventRow>, mid: int, hi: int)
    requires Sorted(table) && table != [] && table[|table| - 1].ledger <= mid
    ensures InRange(table[..|table| - 1], mid + 1, hi) == []
  {
    var front := table[..|table| - 1];
    forall i | 0 <= i < |front| ensures front[i].ledger < mid + 1 {
      assert Before(table[i], table[|table| - 1]);
    }
    NothingAbove(front, mid + 1, hi);
  }

  /** In a sorted table, adjacent ledger ranges follow one another. */
  lemma {:induction false} RangesJoin(table: seq<EventRow>, lo: int, mid: int, hi: int)
    requires Sorted(table) && lo <= mid + 1 && mid <= hi
    ensures InRange(table, lo, mid) + InRange(table, mid + 1, hi) == InRange(table, lo, hi)
  {
    if table != [] {
      var front, last := table[..|table| - 1], table[|table| - 1];
      RangesJoin(front, lo, mid, hi);
      var x, y := InRange(front, lo, mid), InRange(front, mid + 1, hi);
      if last.ledger <= mid {
        NothingYet(table, mid, hi);
        assert y == [] && x + [] == InRange(front, lo, hi);
      } else {
        Associates(x, y, if last.ledger <= hi then [last] else []);
      }
    }
  }

  lemma PairsSnoc(events: seq<EventRow>, last: EventRow, subs: seq<Subscription>)
    ensures Pairs(events + [last], subs) == Pairs(events, subs) + PairsOfEvent(last, OfContract(subs, last.contractId))
  {
    assert (events + [last])[..|events|] == events;
  }

  lemma {:induction false} PairsAppend(xs: seq<EventRow>, ys: seq<EventRow>, subs: seq<Subscription>)
    ensures Pairs(xs + ys, subs) == Pairs(xs, subs) + Pairs(ys, subs)
  {
    if ys == [] {
      assert xs + ys == xs;
    } else {
      var front, last := ys[..|ys| - 1], ys[|ys| - 1];
      var own := PairsOfEvent(last, OfContract(subs, last.contractId));
      assert xs + ys == xs + front + [last];
      PairsSnoc(xs + front, last, subs);
      PairsAppend(xs, front, subs);
      Associates(Pairs(xs, subs), Pairs(front, subs), own);
    }
  }

  lemma Associates<T>(a: seq<T>, b: seq<T>, c: seq<T>)
    ensures a + b + c == a + (b + c)
  {
  }

  lemma {:induction false} NoSubscriptions(subs: seq<Subscription>, contractId: string)
    requires forall i :: 0 <= i < |subs| ==> subs[i].contractId != contractId
    ensures OfContract(subs, contractId) == []
  {
    if subs != [] {
      NoSubscriptions(subs[..|subs| - 1], contractId);
    }
  }

  /** Leaving out the events of other contracts leaves out no pair. */
  lemma {:induction false} QueryKeepsPairs(table: seq<EventRow>, lo: int, hi: int, subs: seq<Subscription>, contracts: set<string>)
    requires forall i :: 0 <= i < |subs| ==> subs[i].contractId in contracts
    ensures Pairs(PageQuery(table, lo, hi, contracts), subs) == Pairs(InRange(table, lo, hi), subs)
  {
    if table != [] {
      var front, last := table[..|table| - 1], table[|table| - 1];
      QueryKeepsPairs(front, lo, hi, subs, contracts);
      PairsSnoc(PageQuery(front, lo, hi, contracts), last, subs);
      PairsSnoc(InRange(front, lo, hi), last, subs);
      if last.contractId !in contracts {
        NoSubscriptions(subs, last.contractId);
        var pairs := Pairs(InRange(front, lo, hi), subs);
        assert pairs + PairsOfEvent(last, []) == pairs;
      }
      assert PageQuery(front, lo, hi, contracts) + [] == PageQuery(front, lo, hi, contracts);
      assert InRange(front, lo, hi) + [] == InRange(front, lo, hi);
    }
  }

  // ---- what the pairs are ------------------------------------------------------------------------------

  ghost predicate Wanted(events: seq<EventRow>, subs: seq<Subscription>, p: Pair) {
    p.event in events && p.sub in subs && p.event.contractId == p.sub.contractId && Matches(p.sub.eventTypes, p.event.eventType)
  }

  lemma {:induction false} PairsOfEventAre(event: EventRow, subs: seq<Subscription>)
    ensures forall p :: p in PairsOfEvent(event, subs) <==> p.event == event && p.sub in subs && Matches(p.sub.eventTypes, event.eventType)
  {
    if subs != [] {
      PairsOfEventAre(event, subs[..|subs| - 1]);
      assert subs == subs[..|subs| - 1] + [subs[|subs| - 1]];
    }
  }

  lemma {:induction false} OfContractAre(subs: seq<Subscription>, contractId: string)
    ensures forall s :: s in OfContract(subs, contractId) <==> s in subs && s.contractId == contractId
  {
    if subs != [] {
      OfContractAre(subs[..|subs| - 1], contractId);
      assert subs == subs[..|subs| - 1] + [subs[|subs| - 1]];
    }
  }

  /** The pairs are exactly the matching combinations of an event and a subscription of its contract. */
  lemma {:induction false} PairsAreWanted(events: seq<EventRow>, subs: seq<Subscription>)
    ensures forall p :: p in Pairs(events, subs) <==> Wanted(events, subs, p)
  {
    if events != [] {
      var front, last := events[..|events| - 1], events[|events| - 1];
      PairsAreWanted(front, subs);
      OfContractAre(subs, last.contractId);
      PairsOfEventAre(last, OfContract(subs, last.contractId));
      assert events == front + [last];
    }
  }

  /** What a subscription asks for: all types, types of a list, types that are part of a text, or one type. */
  ghost predicate Wants(sub: Subscription, eventType: string) {
    || sub.eventTypes.Everything?
    || (sub.eventTypes.Listed? && exists i :: 0 <= i < |sub.eventTypes.types| && (sub.eventTypes.types[i] == "*" || sub.eventTypes.types[i] == eventType))
    || (sub.eventTypes.Quoted? && exists front, part, back :: sub.eventTypes.text == front + part + back && (part == "*" || part == eventType))
    || (sub.eventTypes.Plain? && sub.eventTypes.name == eventType)
  }

  lemma ContainsExactlyWhen(text: string, part: string)
    ensures Contains(text, part) <==> exists front, back :: text == front + part + back
  {
    if Contains(text, part) {
      var i :| 0 <= i <= |text| - |part| && text[i..][..|part|] == part;
      assert text == text[..i] + part + text[i + |part|..];
    }
    if front, back :| text == front + part + back {
      assert text[|front|..][..|part|] == part;
    }
  }

  lemma MatchesExactlyWhen(sub: Subscription, eventType: string)
    ensures Matches(sub.eventTypes, eventType) <==> Wants(sub, eventType)
  {
    if sub.eventTypes.Quoted? {
      ContainsExactlyWhen(sub.eventTypes.text, "*");
      ContainsExactlyWhen(sub.eventTypes.text, eventType);
    }
  }

  lemma {:induction false} InRangeAre(table: seq<EventRow>, lo: int, hi: int)
    ensures forall e :: e in InRange(table, lo, hi) <==> e in table && lo <= e.ledger <= hi
  {
    if table != [] {
      InRangeAre(table[..|table| - 1], lo, hi);
      assert table == table[..|table| - 1] + [table[|table| - 1]];
    }
  }

  /** A delivery of a ledger range is about exactly these pairs of an event and a subscription. */
  lemma PairsOfRangeAre(table: seq<EventRow>, lo: int, hi: int, subs: seq<Subscription>)
    ensures forall p :: p in Pairs(InRange(table, lo, hi), subs)
              <==> && p.event in table && lo <= p.event.ledger <= hi && p.sub in subs
                   && p.event.contractId == p.sub.contractId && Wants(p.sub, p.event.eventType)
  {
    hide Matches, Wants;
    PairsAreWanted(InRange(table, lo, hi), subs);
    InRangeAre(table, lo, hi);
    forall p: Pair ensures Matches(p.sub.eventTypes, p.event.eventType) <==> Wants(p.sub, p.event.eventType) {
      MatchesExactlyWhen(p.sub, p.event.eventType);
    }
  }

  ghost predicate DistinctSubs(subs: seq<Subscription>) {
    forall i, j :: 0 <= i < j < |subs| ==> subs[i].id < subs[j].id
  }

  /** Ledger by ledger, event by event, subscription by subscription. */
  ghost predicate PairBefore(a: Pair, b: Pair) {
    Before(a.event, b.event) || (a.event == b.event && a.sub.id < b.sub.id)
  }

  ghost predicate InOrder(pairs: seq<Pair>) {
    forall i, j :: 0 <= i < j < |pairs| ==> PairBefore(pairs[i], pairs[j])
  }

  lemma {:induction false} PairsOfEventInOrder(event: EventRow, subs: seq<Subscription>)
    requires DistinctSubs(subs)
    ensures InOrder(PairsOfEvent(event, subs))
  {
    if subs != [] {
      var front, last := subs[..|subs| - 1], subs[|subs| - 1];
      PairsOfEventInOrder(event, front);
      PairsOfEventAre(event, front);
      var pairs := PairsOfEvent(event, front);
      forall i | 0 <= i < |pairs| ensures PairBefore(pairs[i], Pair(event, last)) {
        assert pairs[i] in pairs;
        var k :| 0 <= k < |front| && front[k] == pairs[i].sub;
        assert subs[k].id < subs[|subs| - 1].id;
      }
    }
  }

  lemma {:induction false} OfContractKeepsOrder(subs: seq<Subscription>, contractId: string)
    requires DistinctSubs(subs)
    ensures DistinctSubs(OfContract(subs, contractId))
  {
    if subs != [] {
      var front, last := subs[..|subs| - 1], subs[|subs| - 1];
      OfContractKeepsOrder(front, contractId);
      OfContractAre(front, contractId);
      var kept := OfContract(front, contractId);
      forall i | 0 <= i < |kept| ensures kept[i].id < last.id {
        assert kept[i] in kept;
        var k :| 0 <= k < |front| && front[k] == kept[i];
        assert subs[k].id < subs[|subs| - 1].id;
      }
    }
  }

  lemma OrderJoins(xs: seq<Pair>, ys: seq<Pair>)
    requires InOrder(xs) && InOrder(ys) && forall i, j :: 0 <= i < |xs| && 0 <= j < |ys| ==> PairBefore(xs[i], ys[j])
    ensures InOrder(xs + ys)
  {
  }

  /** The pairs follow the ledgers, then the event ids, then the subscription ids; none comes twice. */
  lemma {:induction false} PairsInOrder(events: seq<EventRow>, subs: seq<Subscription>)
    requires Sorted(events) && DistinctSubs(subs)
    ensures InOrder(Pairs(events, subs))
  {
    if events != [] {
      var front, last := events[..|events| - 1], events[|events| - 1];
      var own := OfContract(subs, last.contractId);
      PairsInOrder(front, subs);
      PairsAreWanted(front, subs);
      OfContractKeepsOrder(subs, last.contractId);
      PairsOfEventInOrder(last, own);
      PairsOfEventAre(last, own);
      var xs, ys := Pairs(front, subs), PairsOfEvent(last, own);
      forall i, j | 0 <= i < |xs| && 0 <= j < |ys| ensures PairBefore(xs[i], ys[j]) {
        assert xs[i] in xs && ys[j] in ys;
        var k :| 0 <= k < |front| && front[k] == xs[i].event;
        assert Before(events[k], events[|events| - 1]);
      }
      OrderJoins(xs, ys);
    }
  }

  // ---- delivering ------------------------------------------------------------------------------------------

  /** The first attempt from k on that is not refused, or the one after the last. */
  ghost function FirstStop(endpoint: Endpoint, p: Pair, k: nat): (stop: nat)
    requires k <= MAX_RETRIES + 1
    ensures k <= stop <= MAX_RETRIES + 1
    ensures forall i: nat :: k <= i < stop ==> endpoint(p, i) == Refused
    ensures stop <= MAX_RETRIES ==> endpoint(p, stop) != Refused
    decreases MAX_RETRIES + 1 - k
  {
    if k <= MAX_RETRIES && endpoint(p, k) == Refused then FirstStop(endpoint, p, k + 1) else k
  }

  /** What delivering a pair comes to; it depends on the pair and its endpoint only. */
  ghost function ResultOf(endpoint: Endpoint, p: Pair): DeliveryResult {
    var stop := FirstStop(endpoint, p, 1);
    if stop > MAX_RETRIES then DeliveryResult(p.sub.id, p.event.id, false, MAX_RETRIES)
    else if endpoint(p, stop) == Accepted then DeliveryResult(p.sub.id, p.event.id, true, stop)
    else DeliveryResult(p.sub.id, p.event.id, false, 0)
  }

  /** The attempt that decides a pair: the first of the three that is not refused, or else the fourth, which is not made. */
  ghost predicate Decides(endpoint: Endpoint, p: Pair, n: nat) {
    1 <= n <= 4 && (forall i: nat :: 1 <= i < n ==> endpoint(p, i) == Refused) && (n < 4 ==> endpoint(p, n) != Refused)
  }

  /** An accepted attempt succeeds with its number, three refused ones fail, and a throwing one fails without attempts. */
  lemma ResultSays(endpoint: Endpoint, p: Pair, n: nat)
    requires Decides(endpoint, p, n)
    ensures ResultOf(endpoint, p).subscriptionId == p.sub.id && ResultOf(endpoint, p).eventId == p.event.id
    ensures ResultOf(endpoint, p).success <==> n < 4 && endpoint(p, n) == Accepted
    ensures ResultOf(endpoint, p).attempts == if n == 4 then 3 else if endpoint(p, n) == Accepted then n else 0
  {
    var stop: nat := FirstStop(endpoint, p, 1);
    if stop < n {
      var refused := endpoint(p, stop);
    }
    if n < stop {
      var refused := endpoint(p, n);
    }
  }

  // ---- the outbox and the subscriptions -----------------------------------------------------------------

  datatype Status = Failed | Delivered | Dead

  datatype OutboxRow = OutboxRow(status: Status, attempts: nat, nextAttemptAt: Option<int>)

  /** A row of `webhook_deliveries` is keyed by subscription and event. */
  datatype Key = Key(subscriptionId: nat, eventId: nat)

  function KeyOf(p: Pair): Key {
    Key(p.sub.id, p.event.id)
  }

  datatype Health = Health(consecutiveFailures: nat, disabled: bool)

  const RETRY_BASE_DELAY_MS := 60_000
  const RETRY_MAX_DELAY_MS := 3_600_000

  function Doubled(base: nat, times: nat): nat {
    if times == 0 then base else 2 * Doubled(base, times - 1)
  }

  /** `computeWebhookRetryDelayMs`. */
  function RetryDelay(attempts: nat): nat {
    var delay := Doubled(RETRY_BASE_DELAY_MS, if attempts > 1 then attempts - 1 else 0);
    if delay < RETRY_MAX_DELAY_MS then delay else RETRY_MAX_DELAY_MS
  }

  /** The wait after so many attempts: a minute after the first, and twice as long each time, up to an hour. */
  ghost function Wait(attempts: nat): nat {
    if attempts <= 1 then 60_000
    else if attempts == 2 then 120_000
    else if attempts == 3 then 240_000
    else if attempts == 4 then 480_000
    else if attempts == 5 then 960_000
    else if attempts == 6 then 1_920_000
    else 3_600_000
  }

  lemma RetryDelayIsWait(attempts: nat)
    ensures RetryDelay(attempts) == Wait(attempts)
  {
    var times := if attempts > 1 then attempts - 1 else 0;
    if times >= 6 {
      DoubledGrows(60_000, 6, times);
    }
    assert Doubled(60_000, 1) == 120_000 && Doubled(60_000, 2) == 240_000 && Doubled(60_000, 3) == 480_000;
    assert Doubled(60_000, 4) == 960_000 && Doubled(60_000, 5) == 1_920_000 && Doubled(60_000, 6) == 3_840_000;
  }

  lemma {:induction false} DoubledGrows(base: nat, times: nat, more: nat)
    requires times <= more
    ensures base <= Doubled(base, times) <= Doubled(base, more)
    decreases more
  {
    if times < more {
      DoubledGrows(base, times, more - 1);
    } else if times > 0 {
      DoubledGrows(base, times - 1, more - 1);
    }
  }

  /** `recordDeliveryOutcome`. */
  function Outcome(success: bool, attempts: nat, now: int): OutboxRow {
    if success then OutboxRow(Delivered, attempts, None) else OutboxRow(Failed, attempts, Some(now + RetryDelay(attempts)))
  }

  /** `recordSubscriptionSuccess` and `recordSubscriptionFailure`. */
  function JudgeOne(h: Health, success: bool, disableAfter: nat): Health {
    if success then Health(0, h.disabled)
    else Health(h.consecutiveFailures + 1, h.disabled || h.consecutiveFailures + 1 >= disableAfter)
  }

  /** A missing subscription stays missing. */
  function Judged(health: map<nat, Health>, sub: nat, success: bool, disableAfter: nat): map<nat, Health> {
    if sub !in health then health else health[sub := JudgeOne(health[sub], success, disableAfter)]
  }

  ghost function HealthAfter(start: Health, outcomes: seq<bool>, disableAfter: nat): Health {
    if outcomes == [] then start
    else JudgeOne(HealthAfter(start, outcomes[..|outcomes| - 1], disableAfter), outcomes[|outcomes| - 1], disableAfter)
  }

  /** The run of failures that a history ends with, the failures before the history included. */
  ghost function Streak(before: nat, outcomes: seq<bool>): nat {
    if outcomes == [] then before
    else if outcomes[|outcomes| - 1] then 0
    else Streak(before, outcomes[..|outcomes| - 1]) + 1
  }

  /** The k-th outcome is a failure that brings the streak to the threshold. */
  ghost predicate StreakReached(before: nat, outcomes: seq<bool>, k: nat, disableAfter: nat) {
    0 < k <= |outcomes| && !outcomes[k - 1] && Streak(before, outcomes[..k]) >= disableAfter
  }

  /**
   A subscription counts the failures since its last success, and its deliveries disable it exactly when
   one of them is a failure that brings this count to `disableAfter`.
   */
  lemma {:induction false} DisabledAfterAStreak(start: Health, outcomes: seq<bool>, disableAfter: nat)
    ensures var after := HealthAfter(start, outcomes, disableAfter);
            && after.consecutiveFailures == Streak(start.consecutiveFailures, outcomes)
            && (after.disabled <==> start.disabled
                                    || exists k: nat :: StreakReached(start.consecutiveFailures, outcomes, k, disableAfter))
  {
    var n := |outcomes|;
    if n > 0 {
      var front := outcomes[..n - 1];
      DisabledAfterAStreak(start, front, disableAfter);
      assert outcomes[..n] == outcomes;
      forall k: nat | k < n
        ensures StreakReached(start.consecutiveFailures, outcomes, k, disableAfter)
                <==> StreakReached(start.consecutiveFailures, front, k, disableAfter)
      {
        assert outcomes[..k] == front[..k];
      }
      assert !outcomes[n - 1] && Streak(start.consecutiveFailures, outcomes) >= disableAfter
             <==> StreakReached(start.consecutiveFailures, outcomes, n, disableAfter);
    }
  }

  /** The results so far, and what recording them has made of the tables. */
  datatype Progress = Progress(results: seq<DeliveryResult>, outbox: map<Key, OutboxRow>, health: map<nat, Health>)

  ghost function Advance(before: Progress, endpoint: Endpoint, p: Pair, clock: Clock, disableAfter: nat): Progress {
    var r := ResultOf(endpoint, p);
    Progress(before.results + [r],
             before.outbox[KeyOf(p) := Outcome(r.success, r.attempts, clock(KeyOf(p)))],
             Judged(before.health, p.sub.id, r.success, disableAfter))
  }

  /** Delivering one pair after the other. */
  ghost function DeliverAll(start: Progress, endpoint: Endpoint, pairs: seq<Pair>, clock: Clock, disableAfter: nat): Progress {
    if pairs == [] then start
    else Advance(DeliverAll(start, endpoint, pairs[..|pairs| - 1], clock, disableAfter), endpoint, pairs[|pairs| - 1], clock, disableAfter)
  }

  lemma DeliverOneMore(start: Progress, endpoint: Endpoint, pairs: seq<Pair>, p: Pair, clock: Clock, disableAfter: nat)
    ensures DeliverAll(start, endpoint, pairs + [p], clock, disableAfter)
            == Advance(DeliverAll(start, endpoint, pairs, clock, disableAfter), endpoint, p, clock, disableAfter)
  {
    assert (pairs + [p])[..|pairs|] == pairs;
  }

  /** Every pair gets one result, in order, and the result is the pair's own whatever the others do. */
  lemma {:induction false} OneResultEach(start: Progress, endpoint: Endpoint, pairs: seq<Pair>, clock: Clock, disableAfter: nat)
    ensures var results := DeliverAll(start, endpoint, pairs, clock, disableAfter).results;
            && |results| == |start.results| + |pairs| && start.results <= results
            && forall i :: 0 <= i < |pairs| ==> results[|start.results| + i] == ResultOf(endpoint, pairs[i])
  {
    if pairs != [] {
      OneResultEach(start, endpoint, pairs[..|pairs| - 1], clock, disableAfter);
    }
  }

  ghost predicate DistinctKeys(pairs: seq<Pair>) {
    forall i, j :: 0 <= i < j < |pairs| ==> KeyOf(pairs[i]) != KeyOf(pairs[j])
  }

  /** The row of a pair tells whether it was delivered, after how many attempts, and when it is due again. */
  ghost predicate Recorded(outbox: map<Key, OutboxRow>, endpoint: Endpoint, p: Pair, clock: Clock) {
    var key, r := Key(p.sub.id, p.event.id), ResultOf(endpoint, p);
    && key in outbox
    && outbox[key] == if r.success then OutboxRow(Delivered, r.attempts, None)
                      else OutboxRow(Failed, r.attempts, Some(clock(key) + Wait(r.attempts)))
  }

  ghost predicate SameRow(before: map<Key, OutboxRow>, after: map<Key, OutboxRow>, key: Key) {
    (key in after <==> key in before) && (key in after ==> after[key] == before[key])
  }

  lemma AdvanceRecords(before: Progress, endpoint: Endpoint, p: Pair, clock: Clock, disableAfter: nat)
    ensures Recorded(Advance(before, endpoint, p, clock, disableAfter).outbox, endpoint, p, clock)
    ensures forall key :: key != KeyOf(p) ==> SameRow(before.outbox, Advance(before, endpoint, p, clock, disableAfter).outbox, key)
  {
    hide ResultOf;
    RetryDelayIsWait(ResultOf(endpoint, p).attempts);
  }

  lemma RecordedStays(before: map<Key, OutboxRow>, after: map<Key, OutboxRow>, endpoint: Endpoint, p: Pair, clock: Clock)
    requires Recorded(before, endpoint, p, clock) && SameRow(before, after, KeyOf(p))
    ensures Recorded(after, endpoint, p, clock)
  {
    hide ResultOf, Wait;
  }

  /** Every pair has its own row in the outbox, and the rows of other deliveries stay. */
  lemma {:induction false} OutboxHoldsTheResults(start: Progress, endpoint: Endpoint, pairs: seq<Pair>, clock: Clock, disableAfter: nat)
    requires DistinctKeys(pairs)
    ensures var outbox := DeliverAll(start, endpoint, pairs, clock, disableAfter).outbox;
            && (forall i :: 0 <= i < |pairs| ==> Recorded(outbox, endpoint, pairs[i], clock))
            && (forall key :: (forall i :: 0 <= i < |pairs| ==> KeyOf(pairs[i]) != key) ==> SameRow(start.outbox, outbox, key))
  {
    hide Recorded, Advance;
    if pairs != [] {
      var n := |pairs| - 1;
      var front := pairs[..n];
      OutboxHoldsTheResults(start, endpoint, front, clock, disableAfter);
      var before := DeliverAll(start, endpoint, front, clock, disableAfter);
      var after := Advance(before, endpoint, pairs[n], clock, disableAfter);
      AdvanceRecords(before, endpoint, pairs[n], clock, disableAfter);
      forall i | 0 <= i < n ensures Recorded(after.outbox, endpoint, pairs[i], clock) {
        assert front[i] == pairs[i];
        RecordedStays(before.outbox, after.outbox, endpoint, pairs[i], clock);
      }
      forall key | forall i :: 0 <= i < |pairs| ==> KeyOf(pairs[i]) != key ensures SameRow(start.outbox, after.outbox, key) {
        assert forall i :: 0 <= i < n ==> KeyOf(front[i]) == KeyOf(pairs[i]);
        assert KeyOf(pairs[n]) != key;
        assert SameRow(start.outbox, before.outbox, key) && SameRow(before.outbox, after.outbox, key);
      }
    }
  }

  /** In order, pairs have distinct rows. */
  lemma OrderedPairsHaveDistinctKeys(events: seq<EventRow>, subs: seq<Subscription>)
    requires Sorted(events) && DistinctSubs(subs) && forall i, j :: 0 <= i < j < |events| ==> events[i].id != events[j].id
    ensures DistinctKeys(Pairs(events, subs))
  {
    PairsInOrder(events, subs);
    PairsAreWanted(events, subs);
    var pairs := Pairs(events, subs);
    forall i, j | 0 <= i < j < |pairs| ensures KeyOf(pairs[i]) != KeyOf(pairs[j]) {
      assert pairs[i] in pairs && pairs[j] in pairs && PairBefore(pairs[i], pairs[j]);
      if pairs[i].event != pairs[j].event {
        var k :| 0 <= k < |events| && events[k] == pairs[i].event;
        var l :| 0 <= l < |events| && events[l] == pairs[j].event;
      }
    }
  }

  /** How the deliveries to one subscription went. */
  ghost function OutcomesOf(results: seq<DeliveryResult>, sub: nat): seq<bool> {
    if results == [] then []
    else
      var front, last := OutcomesOf(results[..|results| - 1], sub), results[|results| - 1];
      if last.subscriptionId == sub then front + [last.success] else front
  }

  /** A subscription's health is what its own results make of it, whatever the other subscriptions do. */
  lemma {:induction false} HealthFollowsTheResults(start: Progress, endpoint: Endpoint, pairs: seq<Pair>, clock: Clock, disableAfter: nat,
                                                   sub: nat)
    requires start.results == [] && sub in start.health
    ensures var after := DeliverAll(start, endpoint, pairs, clock, disableAfter);
            && sub in after.health
            && after.health[sub] == HealthAfter(start.health[sub], OutcomesOf(after.results, sub), disableAfter)
  {
    if pairs != [] {
      var front, last := pairs[..|pairs| - 1], pairs[|pairs| - 1];
      HealthFollowsTheResults(start, endpoint, front, clock, disableAfter, sub);
      var before, r := DeliverAll(start, endpoint, front, clock, disableAfter), ResultOf(endpoint, last);
      assert (before.results + [r])[..|before.results|] == before.results;
      var outcomes := OutcomesOf(before.results, sub);
      assert (outcomes + [r.success])[..|outcomes|] == outcomes;
    }
  }

  /** A delivery disables a subscription exactly when its own results hold a long enough run of failures. */
  lemma DisabledExactlyWhen(start: Progress, endpoint: Endpoint, pairs: seq<Pair>, clock: Clock, disableAfter: nat, sub: nat)
    requires start.results == [] && sub in start.health
    ensures var after := DeliverAll(start, endpoint, pairs, clock, disableAfter);
            && sub in after.health
            && (after.health[sub].disabled
                <==> start.health[sub].disabled
                     || exists k: nat :: StreakReached(start.health[sub].consecutiveFailures, OutcomesOf(after.results, sub), k, disableAfter))
  {
    HealthFollowsTheResults(start, endpoint, pairs, clock, disableAfter, sub);
    DisabledAfterAStreak(start.health[sub], OutcomesOf(DeliverAll(start, endpoint, pairs, clock, disableAfter).results, sub), disableAfter);
  }

  /** What delivering a whole ledger range in one go comes to: no pages, no grouping. */
  ghost function RangeDelivered(start: Progress, endpoint: Endpoint, table: seq<EventRow>, subs: seq<Subscription>,
                                startLedger: int, endLedger: int, clock: Clock, disableAfter: nat): Progress {
    DeliverAll(start, endpoint, Pairs(InRange(table, startLedger, endLedger), subs), clock, disableAfter)
  }

  lemma NothingDelivered(start: Progress, endpoint: Endpoint, table: seq<EventRow>, subs: seq<Subscription>,
                         startLedger: int, endLedger: int, clock: Clock, disableAfter: nat)
    requires startLedger > endLedger
    ensures RangeDelivered(start, endpoint, table, subs, startLedger, endLedger, clock, disableAfter) == start
  {
    EmptyRange(table, startLedger, endLedger);
  }

  /** The last ledger delivered when the next page would start at `pageStart`. */
  ghost function DoneBefore(startLedger: int, endLedger: int, pageStart: int): int {
    if pageStart <= endLedger then pageStart - 1 else if startLedger <= endLedger then endLedger else startLedger - 1
  }

  lemma PairsOfEventSnoc(event: EventRow, subs: seq<Subscription>, i: nat, pairs0: seq<Pair>)
    requires i < |subs|
    ensures pairs0 + PairsOfEvent(event, subs[..i + 1])
            == pairs0 + PairsOfEvent(event, subs[..i]) + if Matches(subs[i].eventTypes, event.eventType) then [Pair(event, subs[i])] else []
  {
    assert subs[..i + 1][..i] == subs[..i];
  }

  /** A page's pairs come right after those of the ledgers before it. */
  lemma PageJoins(table: seq<EventRow>, subs: seq<Subscription>, startLedger: int, done: int, pageEnd: int, contracts: set<string>)
    requires Sorted(table) && startLedger <= done + 1 && done <= pageEnd
    requires forall i :: 0 <= i < |subs| ==> subs[i].contractId in contracts
    ensures Pairs(InRange(table, startLedger, done), subs) + Pairs(PageQuery(table, done + 1, pageEnd, contracts), subs)
            == Pairs(InRange(table, startLedger, pageEnd), subs)
  {
    QueryKeepsPairs(table, done + 1, pageEnd, subs, contracts);
    RangesJoin(table, startLedger, done, pageEnd);
    PairsAppend(InRange(table, startLedger, done), InRange(table, done + 1, pageEnd), subs);
  }

  function ListOf(byContract: map<string, seq<Subscription>>, contractId: string): seq<Subscription> {
    if contractId in byContract then byContract[contractId] else []
  }

  /** The `Map` of subscriptions by contract. */
  method GroupByContract(subs: seq<Subscription>) returns (byContract: map<string, seq<Subscription>>)
    ensures forall c :: ListOf(byContract, c) == OfContract(subs, c)
    ensures forall i :: 0 <= i < |subs| ==> subs[i].contractId in byContract
  {
    byContract := map[];
    for i := 0 to |subs|
      invariant forall c :: ListOf(byContract, c) == OfContract(subs[..i], c)
      invariant forall j :: 0 <= j < i ==> subs[j].contractId in byContract
    {
      var before, c := byContract, subs[i].contractId;
      byContract := before[c := ListOf(before, c) + [subs[i]]];
      forall d ensures ListOf(byContract, d) == OfContract(subs[..i + 1], d) {
        assert subs[..i + 1][..i] == subs[..i];
        assert ListOf(before, d) == OfContract(subs[..i], d);
        assert OfContract(subs[..i], d) + [] == OfContract(subs[..i], d);
      }
    }
    assert subs[..|subs|] == subs;
  }

  // ---- the dispatcher ---------------------------------------------------------------------------------------

  class Dispatcher {
    var outbox: map<Key, OutboxRow>
    var health: map<nat, Health>

    /** `deliverEventToSubscriber`; without a result it threw. */
    method DeliverEventToSubscriber(endpoint: Endpoint, p: Pair) returns (r: Option<DeliveryResult>)
      ensures r == if FirstStop(endpoint, p, 1) <= MAX_RETRIES && endpoint(p, FirstStop(endpoint, p, 1)) == Thrown
                   then None else Some(ResultOf(endpoint, p))
    {
      var attempt, success, attemptsMade := 1, false, 0;
      while attempt <= MAX_RETRIES
        invariant 1 <= attempt <= MAX_RETRIES + 1
        invariant attemptsMade == attempt - 1 && !success
        invariant FirstStop(endpoint, p, 1) == FirstStop(endpoint, p, attempt)
      {
        attemptsMade := attempt;
        var answer := endpoint(p, attempt);
        if answer == Thrown {
          return None;
        }
        success := answer == Accepted;
        if success {
          break;
        }
        attempt := attempt + 1;
      }
      return Some(DeliveryResult(p.sub.id, p.event.id, success, attemptsMade));
    }

    ghost function Now(results: seq<DeliveryResult>): Progress
      reads this
    {
      Progress(results, outbox, health)
    }

    /** One pair of the delivery loop: a throw becomes a failed result without attempts. */
    method DeliverPair(endpoint: Endpoint, p: Pair, clock: Clock, disableAfter: nat, results0: seq<DeliveryResult>)
      returns (results: seq<DeliveryResult>)
      modifies this
      ensures Now(results) == Advance(old(Now(results0)), endpoint, p, clock, disableAfter)
    {
      var r := DeliverEventToSubscriber(endpoint, p);
      var result := if r.Some? then r.value else DeliveryResult(p.sub.id, p.event.id, false, 0);
      outbox := outbox[KeyOf(p) := Outcome(result.success, result.attempts, clock(KeyOf(p)))];
      health := Judged(health, p.sub.id, result.success, disableAfter);
      results := results0 + [result];
    }

    /** The pairs of one event, in the order of the subscriptions. */
    method DeliverEvent(endpoint: Endpoint, event: EventRow, subs: seq<Subscription>, clock: Clock, disableAfter: nat,
                        results0: seq<DeliveryResult>, ghost start: Progress, ghost pairs0: seq<Pair>)
      returns (results: seq<DeliveryResult>)
      requires Now(results0) == DeliverAll(start, endpoint, pairs0, clock, disableAfter)
      modifies this
      ensures Now(results) == DeliverAll(start, endpoint, pairs0 + PairsOfEvent(event, subs), clock, disableAfter)
    {
      results := results0;
      ghost var pairs := pairs0;
      for i := 0 to |subs|
        invariant pairs == pairs0 + PairsOfEvent(event, subs[..i])
        invariant Now(results) == DeliverAll(start, endpoint, pairs, clock, disableAfter)
      {
        PairsOfEventSnoc(event, subs, i, pairs0);
        if Matches(subs[i].eventTypes, event.eventType) {
          DeliverOneMore(start, endpoint, pairs, Pair(event, subs[i]), clock, disableAfter);
          results := DeliverPair(endpoint, Pair(event, subs[i]), clock, disableAfter, results);
          pairs := pairs + [Pair(event, subs[i])];
        }
      }
      assert subs[..|subs|] == subs;
    }

    /** One page: every event meets the subscriptions of its contract. */
    method DeliverPage(endpoint: Endpoint, events: seq<EventRow>, ghost subs: seq<Subscription>,
                       byContract: map<string, seq<Subscription>>, clock: Clock, disableAfter: nat,
                       results0: seq<DeliveryResult>, ghost start: Progress, ghost pairs0: seq<Pair>)
      returns (results: seq<DeliveryResult>)
      requires forall c :: ListOf(byContract, c) == OfContract(subs, c)
      requires Now(results0) == DeliverAll(start, endpoint, pairs0, clock, disableAfter)
      modifies this
      ensures Now(results) == DeliverAll(start, endpoint, pairs0 + Pairs(events, subs), clock, disableAfter)
    {
      results := results0;
      ghost var pairs := pairs0;
      for i := 0 to |events|
        invariant pairs == pairs0 + Pairs(events[..i], subs)
        invariant Now(results) == DeliverAll(start, endpoint, pairs, clock, disableAfter)
      {
        var own := ListOf(byContract, events[i].contractId);
        results := DeliverEvent(endpoint, events[i], own, clock, disableAfter, results, start, pairs);
        pairs := pairs + PairsOfEvent(events[i], own);
        assert events[..i + 1] == events[..i] + [events[i]];
        PairsSnoc(events[..i], events[i], subs);
        Associates(pairs0, Pairs(events[..i], subs), PairsOfEvent(events[i], own));
      }
      assert events[..|events|] == events;
    }

    /** Query one page and deliver it after the ledgers before it. */
    method DeliverNextPage(table: seq<EventRow>, ghost subs: seq<Subscription>, byContract: map<string, seq<Subscription>>,
                           ghost startLedger: int, pageStart: int, pageEnd: int, endpoint: Endpoint, clock: Clock, disableAfter: nat,
                           results0: seq<DeliveryResult>, ghost start: Progress)
      returns (results: seq<DeliveryResult>)
      requires Sorted(table) && startLedger <= pageStart <= pageEnd
      requires forall c :: ListOf(byContract, c) == OfContract(subs, c)
      requires forall i :: 0 <= i < |subs| ==> subs[i].contractId in byContract
      requires Now(results0) == RangeDelivered(start, endpoint, table, subs, startLedger, pageStart - 1, clock, disableAfter)
      modifies this
      ensures Now(results) == RangeDelivered(start, endpoint, table, subs, startLedger, pageEnd, clock, disableAfter)
    {
      var events := PageQuery(table, pageStart, pageEnd, byContract.Keys);
      ghost var pairs := Pairs(InRange(table, startLedger, pageStart - 1), subs);
      results := DeliverPage(endpoint, events, subs, byContract, clock, disableAfter, results0, start, pairs);
      PageJoins(table, subs, startLedger, pageStart - 1, pageEnd, byContract.Keys);
    }

    /** The page loop of `deliverWebhooks` over its loaded subscriptions. */
    method DeliverRange(table: seq<EventRow>, subs: seq<Subscription>, startLedger: int, endLedger: int, pageSize: nat,
                        endpoint: Endpoint, clock: Clock, disableAfter: nat)
      returns (results: seq<DeliveryResult>)
      requires Sorted(table) && pageSize >= 1
      modifies this
      ensures Now(results) == RangeDelivered(old(Now([])), endpoint, table, subs, startLedger, endLedger, clock, disableAfter)
    {
      results := [];
      var byContract := GroupByContract(subs);
      var pageStart := startLedger;
      ghost var start := Now([]);
      NothingDelivered(start, endpoint, table, subs, startLedger, startLedger - 1, clock, disableAfter);
      while pageStart <= endLedger
        invariant startLedger <= pageStart
        invariant Now(results) == RangeDelivered(start, endpoint, table, subs, startLedger,
                                                 DoneBefore(startLedger, endLedger, pageStart), clock, disableAfter)
        decreases endLedger - pageStart
      {
        var pageEnd := if pageStart + pageSize - 1 < endLedger then pageStart + pageSize - 1 else endLedger;
        results := DeliverNextPage(table, subs, byContract, startLedger, pageStart, pageEnd, endpoint, clock, disableAfter, results, start);
        pageStart := pageStart + pageSize;
      }
      if startLedger > endLedger {
        NothingDelivered(start, endpoint, table, subs, startLedger, endLedger, clock, disableAfter);
      }
    }
  }
}
