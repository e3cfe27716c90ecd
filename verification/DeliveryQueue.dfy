/**
 The ordered delivery queue: every run chains onto one promise tail and becomes the tail, so a range is
 delivered to the end before the next one starts. A run that rejects is logged, and its tail settles all
 the same. Event writes queue up in the same way.
 */
module DeliveryQueue {
  import opened Wrappers

  datatype Status = Waiting | Running | Resolved | Rejected

  /** `previous` is the tail found when the run was queued; None is the initial resolved promise. */
  datatype Run = Run(startLedger: int, endLedger: int, previous: Option<nat>, status: Status)

  datatype Queue = Queue(runs: seq<Run>, tail: Option<nat>)

  predicate Settled(r: Run) {
    r.status == Resolved || r.status == Rejected
  }

  // ---- steps -----------------------------------------------------------------------------------------

  function Enqueue(q: Queue, startLedger: int, endLedger: int): Queue {
    Queue(q.runs + [Run(startLedger, endLedger, q.tail, Waiting)], Some(|q.runs|))
  }

  /** The callback of `tail.then` may fire. */
  predicate CanStart(q: Queue, k: int) {
    && 0 <= k < |q.runs| && q.runs[k].status == Waiting
    && (q.runs[k].previous.Some? ==> q.runs[k].previous.value < |q.runs| && Settled(q.runs[q.runs[k].previous.value]))
  }

  function Start(q: Queue, k: nat): Queue
    requires k < |q.runs|
  {
    q.(runs := q.runs[k := q.runs[k].(status := Running)])
  }

  predicate CanSettle(q: Queue, k: int) {
    0 <= k < |q.runs| && q.runs[k].status == Running
  }

  function Settle(q: Queue, k: nat, ok: bool): Queue
    requires k < |q.runs|
  {
    q.(runs := q.runs[k := q.runs[k].(status := if ok then Resolved else Rejected)])
  }

  datatype Step = EnqueueStep(startLedger: int, endLedger: int) | StartStep(k: nat) | SettleStep(k: nat, ok: bool)

  ghost predicate Takes(q: Queue, step: Step, q': Queue) {
    match step
    case EnqueueStep(a, b) => q' == Enqueue(q, a, b)
    case StartStep(k) => CanStart(q, k) && q' == Start(q, k)
    case SettleStep(k, ok) => CanSettle(q, k) && q' == Settle(q, k, ok)
  }

  // ---- the invariant -----------------------------------------------------------------------------------

  ghost predicate Chained(q: Queue) {
    && q.tail == (if q.runs == [] then None else Some(|q.runs| - 1))
    && forall k :: 0 <= k < |q.runs| ==> q.runs[k].previous == if k == 0 then None else Some(k - 1)
  }

  /** Once a run has started, every run queued before it is over. */
  ghost predicate InOrder(q: Queue) {
    forall i, j :: 0 <= i < j < |q.runs| && q.runs[j].status != Waiting ==> Settled(q.runs[i])
  }

  ghost predicate Inv(q: Queue) {
    Chained(q) && InOrder(q)
  }

  lemma StepKeepsInv(q: Queue, step: Step, q': Queue)
    requires Inv(q) && Takes(q, step, q')
    ensures Inv(q')
  {
    if step.StartStep? && step.k > 0 {
      assert q.runs[step.k - 1].status != Waiting;
    }
  }

  ghost predicate IsTrace(trace: seq<Queue>, steps: seq<Step>) {
    && |trace| == |steps| + 1 && trace[0] == Queue([], None)
    && forall i {:trigger steps[i]} :: 0 <= i < |steps| ==> Takes(trace[i], steps[i], trace[i + 1])
  }

  lemma {:induction false} TraceKeepsInv(trace: seq<Queue>, steps: seq<Step>, n: nat)
    requires IsTrace(trace, steps) && n < |trace|
    ensures Inv(trace[n])
  {
    if n > 0 {
      TraceKeepsInv(trace, steps, n - 1);
      assert Takes(trace[n - 1], steps[n - 1], trace[n]);
      StepKeepsInv(trace[n - 1], steps[n - 1], trace[n]);
    }
  }

  // ---- theorems ------------------------------------------------------------------------------------------

  /** In every interleaving at most one range is being delivered. */
  lemma OneAtATime(trace: seq<Queue>, steps: seq<Step>, n: nat, i: nat, j: nat)
    requires IsTrace(trace, steps) && n < |trace| && CanSettle(trace[n], i) && CanSettle(trace[n], j)
    ensures i == j
  {
    TraceKeepsInv(trace, steps, n);
  }

  /** The runs that some steps start, in the order in which they start. */
  ghost function Started(steps: seq<Step>): seq<nat> {
    if steps == [] then []
    else Started(steps[..|steps| - 1]) + if steps[|steps| - 1].StartStep? then [steps[|steps| - 1].k] else []
  }


  /** The started runs are a first part of the queue. */
  ghost predicate FrontStarted(q: Queue, n: nat) {
    n <= |q.runs| && forall k :: 0 <= k < |q.runs| ==> (q.runs[k].status != Waiting <==> k < n)
  }

  /** In every interleaving, whatever rejects, runs start in the order they were queued, none left out. */
  lemma {:induction false} StartsFollowTheQueue(trace: seq<Queue>, steps: seq<Step>)
    requires IsTrace(trace, steps)
    ensures FrontStarted(trace[|steps|], |Started(steps)|)
    ensures forall i :: 0 <= i < |Started(steps)| ==> Started(steps)[i] == i
    decreases |steps|
  {
    if steps != [] {
      var n := |steps| - 1;
      assert Takes(trace[n], steps[n], trace[n + 1]);
      assert IsTrace(trace[..n + 1], steps[..n]) by {
        forall i | 0 <= i < n ensures Takes(trace[..n + 1][i], steps[..n][i], trace[..n + 1][i + 1]) {
          assert Takes(trace[i], steps[i], trace[i + 1]);
        }
      }
      StartsFollowTheQueue(trace[..n + 1], steps[..n]);
      TraceKeepsInv(trace, steps, n);
    }
  }

  /** While a range is unfinished, one is being delivered or the next can start: a rejection stalls nothing. */
  lemma NeverStalls(trace: seq<Queue>, steps: seq<Step>, n: nat, k: nat)
    requires IsTrace(trace, steps) && n < |trace|
    requires k < |trace[n].runs| && !Settled(trace[n].runs[k])
    ensures exists j :: CanSettle(trace[n], j) || CanStart(trace[n], j)
  {
    TraceKeepsInv(trace, steps, n);
    var j := FirstUnsettled(trace[n], k);
    assert CanSettle(trace[n], j) || CanStart(trace[n], j);
  }

  lemma {:induction false} FirstUnsettled(q: Queue, k: nat) returns (j: nat)
    requires k < |q.runs| && !Settled(q.runs[k])
    ensures j <= k && !Settled(q.runs[j]) && forall i :: 0 <= i < j ==> Settled(q.runs[i])
  {
    j := k;
    if i :| 0 <= i < k && !Settled(q.runs[i]) {
      j := FirstUnsettled(q, i);
    }
  }

  // ---- the module's state ----------------------------------------------------------------------------------

  class Deliveries {
    var runs: seq<Run>
    var tail: Option<nat>

    function Abs(): Queue
      reads this
    {
      Queue(runs, tail)
    }

    constructor ()
      ensures Abs() == Queue([], None)
    {
      runs, tail := [], None;
    }

    /** `enqueueWebhookDelivery` up to its first await. */
    method EnqueueWebhookDelivery(startLedger: int, endLedger: int) returns (k: nat)
      modifies this
      ensures Abs() == Enqueue(old(Abs()), startLedger, endLedger) && k == |old(runs)|
    {
      k := |runs|;
      var run := Run(startLedger, endLedger, tail, Waiting);
      runs := runs + [run];
      tail := Some(k);
    }

    /** The chained callback calls `deliverWebhooks`. */
    method Begin(k: nat)
      requires CanStart(Abs(), k)
      modifies this
      ensures Abs() == Start(old(Abs()), k)
    {
      runs := runs[k := runs[k].(status := Running)];
    }

    /** The delivery settles; a rejection is caught, logged and counts as over. */
    method Finish(k: nat, ok: bool)
      requires CanSettle(Abs(), k)
      modifies this
      ensures Abs() == Settle(old(Abs()), k, ok)
    {
      runs := runs[k := runs[k].(status := if ok then Resolved else Rejected)];
    }
  }
}
