/**
 Health records of the RPC nodes: failures and successes move a node's counters, backoff and health in one
 transaction each, every failure leaves an audit row, and a poll reads from the healthiest node.
 */
module NodeFailover {
  import opened Wrappers

  const DEFAULT_BACKOFF_MS := 1_000
  const MAX_BACKOFF_MS := 300_000

  datatype Health = Health(isHealthy: bool, failureCount: nat, consecutiveSuccesses: nat, backoffMs: nat,
                           lastFailureAt: Option<int>, lastSuccessAt: Option<int>, nextRetryAt: Option<int>)

  /** The row `ensureNodeRow` inserts. */
  const FRESH_NODE := Health(true, 0, 0, DEFAULT_BACKOFF_MS, None, None, None)

  datatype AuditRow = AuditRow(nodeUrl: string, errorMessage: string, retryCount: nat, recoveryAttemptAt: int)

  datatype FailoverState = FailoverState(activeNodeUrl: Option<string>, totalFailovers: nat, lastFailoverAt: Option<int>)

  datatype Tables = Tables(nodes: map<string, Health>, audit: seq<AuditRow>, failover: FailoverState)

  const NO_FAILOVER := FailoverState(None, 0, None)

  // ---- one failure, one success ------------------------------------------------------------------------

  function Min(a: int, b: int): int { if a < b then a else b }

  function Max(a: int, b: int): int { if a > b then a else b }

  function GrownBackoff(backoffMs: nat, multiplier: nat): nat {
    Min(Max(backoffMs, DEFAULT_BACKOFF_MS) * multiplier, MAX_BACKOFF_MS)
  }

  function Failed(h: Health, now: int, failureThreshold: nat, multiplier: nat): Health {
    var backoff := GrownBackoff(h.backoffMs, multiplier);
    h.(failureCount := h.failureCount + 1, isHealthy := h.failureCount + 1 < failureThreshold, backoffMs := backoff,
       lastFailureAt := Some(now), nextRetryAt := Some(now + backoff), consecutiveSuccesses := 0)
  }

  function Succeeded(h: Health, now: int, successThreshold: nat): Health {
    var successes, failures := h.consecutiveSuccesses + 1, Max(0, h.failureCount - 1);
    h.(consecutiveSuccesses := successes, failureCount := failures, backoffMs := Max(DEFAULT_BACKOFF_MS, h.backoffMs / 2),
       isHealthy := successes >= successThreshold || failures == 0, lastSuccessAt := Some(now), nextRetryAt := None)
  }

  // ---- choosing a node -----------------------------------------------------------------------------------

  datatype Scored = Scored(nodeUrl: string, isHealthy: bool, failureCount: nat, lastSuccessAt: int)

  /** An untracked node counts as healthy. */
  function Score(nodes: map<string, Health>, nodeUrl: string): Scored {
    if nodeUrl !in nodes then Scored(nodeUrl, true, 0, 0)
    else
      var h := nodes[nodeUrl];
      Scored(nodeUrl, h.isHealthy, h.failureCount, if h.lastSuccessAt.Some? then h.lastSuccessAt.value else 0)
  }

  function ScoreAll(nodes: map<string, Health>, nodeUrls: seq<string>): (scored: seq<Scored>)
    ensures |scored| == |nodeUrls| && forall k :: 0 <= k < |nodeUrls| ==> scored[k] == Score(nodes, nodeUrls[k])
  {
    seq(|nodeUrls|, k requires 0 <= k < |nodeUrls| => Score(nodes, nodeUrls[k]))
  }

  /** Healthy before unhealthy, then fewer failures, then the later success. */
  predicate Better(a: Scored, b: Scored) {
    if a.isHealthy != b.isHealthy then a.isHealthy
    else if a.failureCount != b.failureCount then a.failureCount < b.failureCount
    else a.lastSuccessAt > b.lastSuccessAt
  }

  /** A stable sort puts a later entry behind the equal ones. */
  function InsertScored(x: Scored, sorted: seq<Scored>): seq<Scored> {
    if sorted == [] || Better(x, sorted[0]) then [x] + sorted else [sorted[0]] + InsertScored(x, sorted[1..])
  }

  /** Node a comes before node b: it is healthy and b is not, or else has fewer failures, or else succeeded later. */
  ghost predicate Preferred(nodes: map<string, Health>, a: string, b: string) {
    var healthyA, healthyB := a !in nodes || nodes[a].isHealthy, b !in nodes || nodes[b].isHealthy;
    var failuresA, failuresB := if a in nodes then nodes[a].failureCount else 0, if b in nodes then nodes[b].failureCount else 0;
    var lastA, lastB := LastSuccess(nodes, a), LastSuccess(nodes, b);
    || (healthyA && !healthyB)
    || (healthyA == healthyB && failuresA < failuresB)
    || (healthyA == healthyB && failuresA == failuresB && lastA > lastB)
  }

  /** Zero without a success on record. */
  ghost function LastSuccess(nodes: map<string, Health>, node: string): int {
    if node in nodes && nodes[node].lastSuccessAt.Some? then nodes[node].lastSuccessAt.value else 0
  }

  lemma BetterIsPreferred(nodes: map<string, Health>, a: string, b: string)
    ensures Better(Score(nodes, a), Score(nodes, b)) <==> Preferred(nodes, a, b)
  {
  }

  /** The first of the best: nothing is preferred to it, and it is preferred to everything before it. */
  ghost predicate FirstBest(nodes: map<string, Health>, nodeUrls: seq<string>, i: int) {
    && 0 <= i < |nodeUrls|
    && (forall j :: 0 <= j < |nodeUrls| ==> !Preferred(nodes, nodeUrls[j], nodeUrls[i]))
    && (forall j :: 0 <= j < i ==> Preferred(nodes, nodeUrls[i], nodeUrls[j]))
  }

  lemma PreferenceIsAnOrder(nodes: map<string, Health>, a: string, b: string, c: string)
    ensures Preferred(nodes, a, b) ==> !Preferred(nodes, b, a)
    ensures !Preferred(nodes, b, a) && !Preferred(nodes, c, b) ==> !Preferred(nodes, c, a)
    ensures Preferred(nodes, a, b) && !Preferred(nodes, c, b) ==> Preferred(nodes, a, c)
  {
  }

  lemma FirstBestGrows(nodes: map<string, Health>, nodeUrls: seq<string>, i: int, x: string)
    requires FirstBest(nodes, nodeUrls, i)
    ensures FirstBest(nodes, nodeUrls + [x], if Preferred(nodes, x, nodeUrls[i]) then |nodeUrls| else i)
  {
    hide Preferred;
    if Preferred(nodes, x, nodeUrls[i]) {
      forall j | 0 <= j < |nodeUrls| ensures Preferred(nodes, x, nodeUrls[j]) {
        PreferenceIsAnOrder(nodes, x, nodeUrls[i], nodeUrls[j]);
      }
      forall j | 0 <= j < |nodeUrls| ensures !Preferred(nodes, nodeUrls[j], x) {
        PreferenceIsAnOrder(nodes, x, nodeUrls[j], nodeUrls[j]);
      }
      PreferenceIsAnOrder(nodes, x, x, x);
    }
  }

  // ---- runs of calls -------------------------------------------------------------------------------------

  /** A call that went through, with the settings it was made with. */
  datatype Call = Failure(nodeUrl: string, errorMessage: string, now: int, failureThreshold: nat, multiplier: nat)
                | Success(nodeUrl: string, now: int, successThreshold: nat)
                | Failover(nodeUrl: string, now: int)

  /** The row of a node; an untracked one gets a fresh row before anything is recorded in it. */
  function NodeOf(nodes: map<string, Health>, nodeUrl: string): Health {
    if nodeUrl in nodes then nodes[nodeUrl] else FRESH_NODE
  }

  ghost function Apply(h: Health, c: Call): Health {
    match c
    case Failure(_, _, now, failureThreshold, multiplier) => Failed(h, now, failureThreshold, multiplier)
    case Success(_, now, successThreshold) => Succeeded(h, now, successThreshold)
    case Failover(_, _) => h
  }

  /** What one call does to the three tables. */
  ghost function Applied(t: Tables, c: Call): Tables {
    var h := Apply(NodeOf(t.nodes, c.nodeUrl), c);
    match c
    case Failure(nodeUrl, errorMessage, now, _, _) =>
      t.(nodes := t.nodes[nodeUrl := h], audit := t.audit + [AuditRow(nodeUrl, errorMessage, h.failureCount, now + h.backoffMs)])
    case Success(nodeUrl, _, _) => t.(nodes := t.nodes[nodeUrl := h])
    case Failover(nodeUrl, now) => t.(failover := FailoverState(Some(nodeUrl), t.failover.totalFailovers + 1, Some(now)))
  }

  ghost function TablesAfter(calls: seq<Call>): Tables {
    if calls == [] then Tables(map[], [], NO_FAILOVER)
    else Applied(TablesAfter(calls[..|calls| - 1]), calls[|calls| - 1])
  }

  ghost function FailoversOf(calls: seq<Call>): seq<Call> {
    if calls == [] then []
    else FailoversOf(calls[..|calls| - 1]) + if calls[|calls| - 1].Failover? then [calls[|calls| - 1]] else []
  }

  /** The failures and successes of one node. */
  ghost function CallsOf(calls: seq<Call>, nodeUrl: string): seq<Call> {
    if calls == [] then []
    else
      var last := calls[|calls| - 1];
      CallsOf(calls[..|calls| - 1], nodeUrl) + if !last.Failover? && last.nodeUrl == nodeUrl then [last] else []
  }

  ghost function After(h: Health, calls: seq<Call>): Health {
    if calls == [] then h else Apply(After(h, calls[..|calls| - 1]), calls[|calls| - 1])
  }

  /** Every failover counts, and the last one names the active node. */
  lemma {:induction false} FailoversAreCounted(calls: seq<Call>)
    ensures var failovers, state := FailoversOf(calls), TablesAfter(calls).failover;
            && state.totalFailovers == |failovers|
            && state.activeNodeUrl == (if failovers == [] then None else Some(failovers[|failovers| - 1].nodeUrl))
            && state.lastFailoverAt == (if failovers == [] then None else Some(failovers[|failovers| - 1].now))
  {
    if calls != [] {
      FailoversAreCounted(calls[..|calls| - 1]);
    }
  }

  /** A failover that goes to a node other than the active one. */
  ghost predicate OnlySwitches(calls: seq<Call>) {
    forall i :: 0 <= i < |calls| && calls[i].Failover? ==> TablesAfter(calls[..i]).failover.activeNodeUrl != Some(calls[i].nodeUrl)
  }

  /** Where no failover goes to the active node, as with `createFailoverServer`, the counter counts the changes. */
  lemma {:induction false} SwitchesChangeTheNode(calls: seq<Call>, k: nat)
    requires OnlySwitches(calls) && k + 1 < |FailoversOf(calls)|
    ensures FailoversOf(calls)[k].nodeUrl != FailoversOf(calls)[k + 1].nodeUrl
  {
    var n := |calls| - 1;
    var front := calls[..n];
    assert OnlySwitches(front) by {
      forall i | 0 <= i < n ensures front[..i] == calls[..i] {}
    }
    if k + 1 < |FailoversOf(front)| {
      SwitchesChangeTheNode(front, k);
    } else {
      FailoversAreCounted(front);
      assert calls[n].Failover?;
    }
  }

  lemma SwitchAppended(calls: seq<Call>, c: Call)
    requires c.Failover? && TablesAfter(calls).failover.activeNodeUrl != Some(c.nodeUrl)
    ensures OnlySwitches(calls) ==> OnlySwitches(calls + [c])
  {
    if OnlySwitches(calls) {
      forall i | 0 <= i <= |calls| ensures (calls + [c])[..i] == calls[..i] {}
      assert calls[..|calls|] == calls;
    }
  }

  lemma AppliedToNode(t: Tables, c: Call, nodeUrl: string)
    ensures NodeOf(Applied(t, c).nodes, nodeUrl)
            == if !c.Failover? && c.nodeUrl == nodeUrl then Apply(NodeOf(t.nodes, nodeUrl), c) else NodeOf(t.nodes, nodeUrl)
    ensures nodeUrl in Applied(t, c).nodes <==> nodeUrl in t.nodes || (!c.Failover? && c.nodeUrl == nodeUrl)
  {
  }

  /** A node's row is what its own calls make of a fresh one, whatever happens to the other nodes. */
  lemma {:induction false} NodeFollowsItsCalls(calls: seq<Call>, nodeUrl: string)
    ensures nodeUrl in TablesAfter(calls).nodes <==> CallsOf(calls, nodeUrl) != []
    ensures NodeOf(TablesAfter(calls).nodes, nodeUrl) == After(FRESH_NODE, CallsOf(calls, nodeUrl))
  {
    hide Applied, Apply;
    if calls != [] {
      var front, last := calls[..|calls| - 1], calls[|calls| - 1];
      NodeFollowsItsCalls(front, nodeUrl);
      AppliedToNode(TablesAfter(front), last, nodeUrl);
      var own := CallsOf(front, nodeUrl);
      assert (own + [last])[..|own|] == own && own + [] == own;
    }
  }

  ghost function Failures(calls: seq<Call>): nat {
    if calls == [] then 0 else Failures(calls[..|calls| - 1]) + if calls[|calls| - 1].Failure? then 1 else 0
  }

  /** There is one audit row for each failure. */
  lemma {:induction false} OneAuditRowForEachFailure(calls: seq<Call>)
    ensures |TablesAfter(calls).audit| == Failures(calls)
  {
    if calls != [] {
      OneAuditRowForEachFailure(calls[..|calls| - 1]);
    }
  }

  /** The audit log never disagrees with the health records: each row has what its failure left in the node's row. */
  lemma {:induction false} AuditFollowsTheFailures(calls: seq<Call>, n: nat)
    requires n < |calls| && calls[n].Failure?
    ensures var url, t := calls[n].nodeUrl, TablesAfter(calls[..n + 1]);
            && url in t.nodes && t.nodes[url].nextRetryAt.Some?
            && Failures(calls[..n]) < |TablesAfter(calls).audit|
            && TablesAfter(calls).audit[Failures(calls[..n])]
               == AuditRow(url, calls[n].errorMessage, t.nodes[url].failureCount, t.nodes[url].nextRetryAt.value)
    decreases |calls|
  {
    var front := calls[..|calls| - 1];
    assert calls[..n + 1][..n] == calls[..n];
    if n == |calls| - 1 {
      assert calls[..n + 1] == calls;
      OneAuditRowForEachFailure(front);
    } else {
      AuditFollowsTheFailures(front, n);
      assert front[..n] == calls[..n] && front[..n + 1] == calls[..n + 1];
    }
  }

  // ---- the runs of one node, at any settings -------------------------------------------------------------

  ghost function TrailingSuccesses(calls: seq<Call>): nat {
    if calls == [] || !calls[|calls| - 1].Success? then 0 else TrailingSuccesses(calls[..|calls| - 1]) + 1
  }

  ghost function TrailingFailures(calls: seq<Call>): nat {
    if calls == [] || !calls[|calls| - 1].Failure? then 0 else TrailingFailures(calls[..|calls| - 1]) + 1
  }

  /** Failures and successes only, as the calls of one node are. */
  ghost predicate NoFailover(calls: seq<Call>) {
    forall i :: 0 <= i < |calls| ==> !calls[i].Failover?
  }

  lemma {:induction false} CallsOfHoldNoFailover(calls: seq<Call>, nodeUrl: string)
    ensures NoFailover(CallsOf(calls, nodeUrl))
  {
    if calls != [] {
      CallsOfHoldNoFailover(calls[..|calls| - 1], nodeUrl);
    }
  }

  /**
   At any settings the backoff stays within five minutes, and it is at least a second unless the last call
   is a failure with multiplier zero. The success counter is the current streak of successes.
   */
  lemma {:induction false} RunStaysInBounds(calls: seq<Call>)
    requires NoFailover(calls)
    ensures var h := After(FRESH_NODE, calls);
            && h.backoffMs <= MAX_BACKOFF_MS
            && (h.backoffMs < DEFAULT_BACKOFF_MS
                <==> calls != [] && calls[|calls| - 1].Failure? && calls[|calls| - 1].multiplier == 0)
            && h.consecutiveSuccesses == TrailingSuccesses(calls)
            && h.failureCount >= TrailingFailures(calls)
  {
    if calls != [] {
      RunStaysInBounds(calls[..|calls| - 1]);
    }
  }

  /**
   Exactly when a run leaves its node healthy: after a failure, with fewer than its threshold on record;
   after a success, with none on record or as many successes in a row as its threshold asks for.
   */
  lemma HealthOfARun(calls: seq<Call>)
    requires NoFailover(calls) && calls != []
    ensures var h, last := After(FRESH_NODE, calls), calls[|calls| - 1];
            h.isHealthy <==> if last.Failure? then h.failureCount < last.failureThreshold
                             else h.failureCount == 0 || TrailingSuccesses(calls) >= last.successThreshold
  {
    RunStaysInBounds(calls[..|calls| - 1]);
  }

  /** The health the store has on record for a node, in terms of the calls made for it. */
  lemma HealthOnRecord(calls: seq<Call>, nodeUrl: string)
    requires CallsOf(calls, nodeUrl) != []
    ensures nodeUrl in TablesAfter(calls).nodes
    ensures var h, own := TablesAfter(calls).nodes[nodeUrl], CallsOf(calls, nodeUrl);
            var last := own[|own| - 1];
            (last.Failure? && (h.isHealthy <==> h.failureCount < last.failureThreshold))
            || (last.Success? && (h.isHealthy <==> h.failureCount == 0 || TrailingSuccesses(own) >= last.successThreshold))
  {
    NodeFollowsItsCalls(calls, nodeUrl);
    CallsOfHoldNoFailover(calls, nodeUrl);
    HealthOfARun(CallsOf(calls, nodeUrl));
  }

  /** A long enough streak of failures ends unhealthy, a long enough streak of successes ends healthy. */
  lemma StreaksDecide(calls: seq<Call>)
    requires NoFailover(calls) && calls != []
    ensures var h, last := After(FRESH_NODE, calls), calls[|calls| - 1];
            && (last.Failure? && TrailingFailures(calls) >= last.failureThreshold ==> !h.isHealthy)
            && (last.Success? && TrailingSuccesses(calls) >= last.successThreshold ==> h.isHealthy)
  {
    RunStaysInBounds(calls);
    HealthOfARun(calls);
  }

  /** What a call leaves in a node's row: a failure waits longer and ends the streak, a success eases both. */
  lemma CallSays(h: Health, c: Call)
    ensures var after := Apply(h, c);
            match c
            case Failure(_, _, now, failureThreshold, multiplier) =>
              var grown := (if h.backoffMs > 1_000 then h.backoffMs else 1_000) * multiplier;
              && after.failureCount == h.failureCount + 1 && after.consecutiveSuccesses == 0
              && after.backoffMs == (if grown < 300_000 then grown else 300_000)
              && (after.isHealthy <==> h.failureCount + 1 < failureThreshold)
              && after.lastFailureAt == Some(now) && after.nextRetryAt == Some(now + after.backoffMs)
              && after.lastSuccessAt == h.lastSuccessAt
            case Success(_, now, successThreshold) =>
              && after.failureCount == (if h.failureCount == 0 then 0 else h.failureCount - 1)
              && after.consecutiveSuccesses == h.consecutiveSuccesses + 1
              && after.backoffMs == (if h.backoffMs / 2 > 1_000 then h.backoffMs / 2 else 1_000)
              && (after.isHealthy <==> after.failureCount == 0 || after.consecutiveSuccesses >= successThreshold)
              && after.lastSuccessAt == Some(now) && after.nextRetryAt == None && after.lastFailureAt == h.lastFailureAt
            case Failover(_, _) => after == h
  {
  }

  /** A thousand milliseconds, twice as many for each failure, and five minutes at most. */
  ghost function BackoffAfter(failures: nat): nat {
    if failures == 0 then 1_000
    else if BackoffAfter(failures - 1) * 2 < 300_000 then BackoffAfter(failures - 1) * 2
    else 300_000
  }

  /** Failures in a row double the backoff of a fresh node until it meets five minutes, at the ninth. */
  lemma {:induction false} FailuresDoubleTheBackoff(calls: seq<Call>)
    requires forall i :: 0 <= i < |calls| ==> calls[i].Failure? && calls[i].multiplier == 2
    ensures After(FRESH_NODE, calls).backoffMs == BackoffAfter(|calls|)
    ensures After(FRESH_NODE, calls).failureCount == TrailingFailures(calls) == |calls|
    ensures |calls| < 9 ==> After(FRESH_NODE, calls).backoffMs < 300_000
    ensures |calls| >= 9 ==> After(FRESH_NODE, calls).backoffMs == 300_000
  {
    if calls != [] {
      FailuresDoubleTheBackoff(calls[..|calls| - 1]);
      CallSays(After(FRESH_NODE, calls[..|calls| - 1]), calls[|calls| - 1]);
    }
    assert BackoffAfter(4) == 16_000;
    assert BackoffAfter(8) == 256_000;
  }

  /** The longest backoff k halvings can leave. */
  ghost function Halved(k: nat): nat {
    if k == 0 then MAX_BACKOFF_MS else Max(DEFAULT_BACKOFF_MS, Halved(k - 1) / 2)
  }

  lemma {:induction false} SuccessesHalve(calls: seq<Call>, k: nat)
    requires NoFailover(calls) && k <= TrailingSuccesses(calls)
    ensures After(FRESH_NODE, calls).backoffMs <= Halved(k)
  {
    if k == 0 {
      RunStaysInBounds(calls);
    } else {
      SuccessesHalve(calls[..|calls| - 1], k - 1);
    }
  }

  /** Nine successes in a row bring the backoff back to a second, from wherever it was. */
  lemma NineSuccessesReset(calls: seq<Call>)
    requires NoFailover(calls) && TrailingSuccesses(calls) >= 9
    ensures After(FRESH_NODE, calls).backoffMs == DEFAULT_BACKOFF_MS
  {
    SuccessesHalve(calls, 9);
    RunStaysInBounds(calls);
    assert Halved(3) == 37_500;
    assert Halved(6) == 4_687;
    assert Halved(9) == DEFAULT_BACKOFF_MS;
  }

  /**
   A success can turn a healthy node unhealthy: exactly when failures stay on record and its streak is
   still short of the threshold.
   */
  lemma SuccessCanUnsettle(calls: seq<Call>, nodeUrl: string, now: int, successThreshold: nat)
    requires NoFailover(calls)
    ensures var h, after := After(FRESH_NODE, calls), After(FRESH_NODE, calls + [Success(nodeUrl, now, successThreshold)]);
            h.isHealthy && !after.isHealthy
            <==> h.isHealthy && h.failureCount > 1 && TrailingSuccesses(calls) + 1 < successThreshold
  {
    assert (calls + [Success(nodeUrl, now, successThreshold)])[..|calls|] == calls;
    RunStaysInBounds(calls);
  }

  /** Two failures and a success at the default settings: healthy before the success, unhealthy after it. */
  lemma SuccessUnsettlesAHealthyNode(nodeUrl: string)
    ensures var calls := [Failure(nodeUrl, "", 0, 5, 2), Failure(nodeUrl, "", 1, 5, 2), Success(nodeUrl, 2, 3)];
            After(FRESH_NODE, calls[..2]).isHealthy && !After(FRESH_NODE, calls).isHealthy
  {
    var first, second := Failure(nodeUrl, "", 0, 5, 2), Failure(nodeUrl, "", 1, 5, 2);
    assert [first, second, Success(nodeUrl, 2, 3)][..2] == [first, second];
    assert [first, second][..1] == [first] && [first][..0] == [];
    assert After(FRESH_NODE, [first]) == Failed(FRESH_NODE, 0, 5, 2);
    assert After(FRESH_NODE, [first, second]) == Failed(Failed(FRESH_NODE, 0, 5, 2), 1, 5, 2);
  }

  // ---- the tables ------------------------------------------------------------------------------------------

  class NodeStore {
    var nodes: map<string, Health>
    var audit: seq<AuditRow>
    var failover: FailoverState
    /** Every call so far. */
    ghost var calls: seq<Call>

    ghost predicate Valid()
      reads this
    {
      Tables(nodes, audit, failover) == TablesAfter(calls)
    }

    constructor ()
      ensures Valid() && calls == []
    {
      nodes, audit, failover, calls := map[], [], NO_FAILOVER, [];
    }

    method EnsureNodeRow(nodeUrl: string)
      modifies `nodes
      ensures nodes == old(nodes)[nodeUrl := NodeOf(old(nodes), nodeUrl)]
    {
      if nodeUrl !in nodes {
        nodes := nodes[nodeUrl := FRESH_NODE];
      }
    }

    /** `recordNodeFailure`: the health row and the audit row in one transaction. */
    method RecordNodeFailure(nodeUrl: string, errorMessage: string, now: int, failureThreshold: nat := 5, multiplier: nat := 2)
      returns (h: Health)
      requires Valid()
      modifies `nodes, `audit, `calls
      ensures Valid() && calls == old(calls) + [Failure(nodeUrl, errorMessage, now, failureThreshold, multiplier)]
      ensures nodeUrl in nodes && h == nodes[nodeUrl]
    {
      hide TablesAfter;
      EnsureNodeRow(nodeUrl);
      var current := nodes[nodeUrl];
      var failureCount := current.failureCount + 1;
      var backoff := GrownBackoff(current.backoffMs, multiplier);
      h := Health(failureCount < failureThreshold, failureCount, 0, backoff, Some(now), current.lastSuccessAt, Some(now + backoff));
      nodes := nodes[nodeUrl := h];
      audit := audit + [AuditRow(nodeUrl, errorMessage, failureCount, now + backoff)];
      CallMade(Failure(nodeUrl, errorMessage, now, failureThreshold, multiplier));
    }

    /** `recordNodeSuccess`. */
    method RecordNodeSuccess(nodeUrl: string, now: int, successThreshold: nat := 3) returns (h: Health)
      requires Valid()
      modifies `nodes, `calls
      ensures Valid() && calls == old(calls) + [Success(nodeUrl, now, successThreshold)]
      ensures nodeUrl in nodes && h == nodes[nodeUrl]
    {
      hide TablesAfter;
      EnsureNodeRow(nodeUrl);
      var current := nodes[nodeUrl];
      var successes, failures := current.consecutiveSuccesses + 1, Max(0, current.failureCount - 1);
      h := Health(successes >= successThreshold || failures == 0, failures, successes,
                  Max(DEFAULT_BACKOFF_MS, current.backoffMs / 2), current.lastFailureAt, Some(now), None);
      nodes := nodes[nodeUrl := h];
      CallMade(Success(nodeUrl, now, successThreshold));
    }

    /** `failoverToNode`: the counter is the number of failovers made, also of those to the active node. */
    method FailoverToNode(nodeUrl: string, now: int) returns (state: FailoverState)
      requires Valid()
      modifies `failover, `calls
      ensures Valid() && calls == old(calls) + [Failover(nodeUrl, now)]
      ensures state == failover && state.activeNodeUrl == Some(nodeUrl) && state.totalFailovers == |FailoversOf(calls)|
    {
      failover := FailoverState(Some(nodeUrl), failover.totalFailovers + 1, Some(now));
      CallMade(Failover(nodeUrl, now));
      FailoversAreCounted(calls);
      return failover;
    }

    /** The log takes one call more. */
    ghost method CallMade(c: Call)
      requires Tables(nodes, audit, failover) == Applied(TablesAfter(calls), c)
      modifies `calls
      ensures Valid() && calls == old(calls) + [c]
    {
      assert (calls + [c])[..|calls|] == calls;
      calls := calls + [c];
    }

    /** `selectHealthiestNode`: the first of the best candidates. */
    method SelectHealthiestNode(nodeUrls: seq<string>) returns (best: Option<string>, ghost i: int)
      ensures best.None? <==> nodeUrls == []
      ensures nodeUrls != [] ==> 0 <= i < |nodeUrls| && best == Some(nodeUrls[i])
                                 && FirstBest(nodes, nodeUrls, i)
    {
      if nodeUrls == [] {
        return None, 0;
      }
      hide Preferred, Better;
      var scored := ScoreAll(nodes, nodeUrls);
      var sorted := [scored[0]];
      i := 0;
      PreferenceIsAnOrder(nodes, nodeUrls[0], nodeUrls[0], nodeUrls[0]);
      for n := 1 to |scored|
        invariant sorted != [] && 0 <= i < n && sorted[0] == scored[i] && FirstBest(nodes, nodeUrls[..n], i)
      {
        assert nodeUrls[..n + 1] == nodeUrls[..n] + [nodeUrls[n]];
        FirstBestGrows(nodes, nodeUrls[..n], i, nodeUrls[n]);
        BetterIsPreferred(nodes, nodeUrls[n], nodeUrls[i]);
        i := if Better(scored[n], scored[i]) then n else i;
        sorted := InsertScored(scored[n], sorted);
      }
      assert nodeUrls[..|scored|] == nodeUrls;
      best := Some(sorted[0].nodeUrl);
    }

    /** `createFailoverServer`: the best node becomes active, with a failover only when another one was. */
    method CreateFailoverServer(nodeUrls: seq<string>, now: int) returns (best: Option<string>, ghost i: int)
      requires Valid()
      modifies `failover, `calls
      ensures Valid()
      ensures best.None? ==> nodeUrls == [] || exists j :: 0 <= j < |nodeUrls| && nodeUrls[j] == "" && FirstBest(nodes, nodeUrls, j)
      ensures best.Some? ==> 0 <= i < |nodeUrls| && best == Some(nodeUrls[i]) && best.value != ""
                             && FirstBest(nodes, nodeUrls, i)
      ensures best.Some? ==> failover.activeNodeUrl == best
      ensures calls == old(calls) + if best.None? || old(failover).activeNodeUrl == best then [] else [Failover(best.value, now)]
      ensures OnlySwitches(old(calls)) ==> OnlySwitches(calls)
    {
      best, i := SelectHealthiestNode(nodeUrls);
      if best.None? || best.value == "" {
        return None, i;
      }
      if failover.activeNodeUrl != best {
        var state := FailoverToNode(best.value, now);
        SwitchAppended(old(calls), Failover(best.value, now));
      }
    }
  }
}
