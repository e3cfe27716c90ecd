/**
 When a submit that resolves may be taken to have stored its rows. Its own rows may have been handed to
 another caller's flush, which it does not wait for: the exact condition is that no other submit is under
 way, or that there was nothing left to store.
 */
module SubmitOutcome {
  import opened Wrappers
  import opened PromiseTailLock
  import opened RpcEventQueue
  import Sums

  /** The caller has been let in and will go on to take rows. */
  predicate UnderWay(phase: Phase) {
    !phase.Submitting? && !Over(phase) && !Doomed(phase)
  }

  ghost predicate NobodyElse(s: State, c: nat) {
    forall d :: 0 <= d < |s.callers| && d != c ==> !UnderWay(s.callers[d].phase)
  }

  ghost predicate AllStored(s: State, c: nat)
    requires c < |s.callers|
  {
    forall row :: row in s.callers[c].events ==> Key(row) in s.queue.persistedKeys
  }

  /** Every row of the caller is in the queue, with some caller, or stored. */
  ghost predicate AllAccepted(s: State, c: nat)
    requires c < |s.callers|
  {
    forall row :: row in s.callers[c].events ==> Key(row) in s.queue.pendingKeys || Key(row) in s.queue.persistedKeys
  }

  ghost predicate CarriedByAnother(s: State, c: nat, key: string) {
    exists d :: d != c && Carries(s, d) && CarriedKey(s, d) == key
  }

  /** At the step that resolves a submit, its rows are stored unless another caller has one of them in hand. */
  lemma ResolvesStoredExactlyWhen(s: State, max: nat, c: nat)
    requires Inv(s, max) && c < |s.callers| && s.callers[c].phase.Draining? && s.queue.pending == [] && AllAccepted(s, c)
    ensures Step(s, c, false, max).callers[c].phase == Resolved
    ensures AllStored(Step(s, c, false, max), c)
            <==> forall row :: row in s.callers[c].events ==> !CarriedByAnother(s, c, Key(row))
  {
    var s' := Step(s, c, false, max);
    forall row | row in s.callers[c].events
      ensures Key(row) in s'.queue.persistedKeys <==> !CarriedByAnother(s, c, Key(row))
    {
      if Key(row) in s.queue.pendingKeys {
        var d :| Carries(s, d) && CarriedKey(s, d) == Key(row);
        assert d != c;
      }
    }
  }

  // ---- continuations -------------------------------------------------------------------------------

  /** One step after which every other caller that had not submitted still has not. */
  ghost predicate QuietStep(s: State, s': State, c: nat, max: nat) {
    && Next(s, s', max) && |s'.callers| == |s.callers|
    && forall d :: 0 <= d < |s.callers| && d != c && s.callers[d].phase.Submitting? ==> s'.callers[d].phase.Submitting?
  }

  /** A way on from a state on which no other submit is made. */
  ghost predicate QuietPath(path: seq<State>, c: nat, max: nat) {
    && path != []
    && forall i :: 0 <= i < |path| - 1 ==> QuietStep(path[i], path[i + 1], c, max)
  }

  lemma StepIsQuiet(s: State, e: nat, c: nat, max: nat)
    requires Inv(s, max) && Possible(s, e) && (e == c || !s.callers[e].phase.Submitting?)
    ensures QuietStep(s, Step(s, e, false, max), c, max)
    ensures Inv(Step(s, e, false, max), max) && TotalLeft(Step(s, e, false, max)) < TotalLeft(s)
  {
    hide Inv, TotalLeft;
    InvBoundsPending(s, max);
    StepKeepsInv(s, e, false, max);
    StepCountsDown(s, e, false, max);
  }

  lemma InvBoundsPending(s: State, max: nat)
    requires Inv(s, max)
    ensures |s.queue.pending| <= max
  {
  }

  lemma PathFrom(s: State, rest: seq<State>, c: nat, max: nat)
    requires QuietPath(rest, c, max) && QuietStep(s, rest[0], c, max)
    ensures QuietPath([s] + rest, c, max)
  {
    hide QuietStep;
    var path := [s] + rest;
    forall i | 0 <= i < |path| - 1 ensures QuietStep(path[i], path[i + 1], c, max) {
      assert i > 0 ==> path[i] == rest[i - 1] && path[i + 1] == rest[i];
    }
  }

  lemma TotalLeftIsNatural(s: State)
    ensures TotalLeft(s) >= 0
  {
    forall c | 0 <= c < |s.callers| ensures Plan(s.callers)[c] >= 0 {}
    Sums.SumNonNegative(Plan(s.callers));
  }

  lemma SameKeySameCarrier(s: State, d: nat, e: nat)
    requires KeysDistinct(s) && Carries(s, d) && Carries(s, e) && CarriedKey(s, d) == CarriedKey(s, e)
    ensures d == e
  {
  }

  /** A caller that waits for a lock can go on, or a caller that is just leaving holds it. */
  lemma WaitsOnlyForLeavers(s: State, max: nat, d: nat) returns (e: nat)
    requires Inv(s, max) && d < |s.callers| && UnderWay(s.callers[d].phase)
    requires s.callers[d].phase.Draining? ==> s.queue.pending != []
    ensures Possible(s, e) && (e == d || (s.callers[d].phase.Locking? && s.callers[e].phase.Leaving?))
  {
    e := d;
    assert TicketOk(s, d);
    if s.callers[d].phase.Locking? {
      var t := s.callers[d].phase.ticket;
      var u := FirstUnreleased(s.locks, t);
      FirstIsReady(s.locks, u);
      e := s.locks.tickets[u].owner;
      assert TicketOk(s, e);
      if e != d && !s.callers[e].phase.Leaving? {
        SameKeySameCarrier(s, d, e);
      }
    }
  }

  /** One step towards the end of a caller's current row, at which no other caller but a leaver moves. */
  lemma GoesOn(s: State, max: nat, c: nat, d: nat) returns (s': State)
    requires Inv(s, max) && c < |s.callers| && d < |s.callers| && UnderWay(s.callers[d].phase)
    requires s.callers[d].phase.Draining? ==> s.queue.pending != []
    ensures QuietStep(s, s', c, max) && Inv(s', max) && TotalLeft(s') < TotalLeft(s)
    ensures forall x :: 0 <= x < |s.callers| ==> s'.callers[x].events == s.callers[x].events
    ensures forall x :: 0 <= x < |s.callers| && x != d && !s.callers[x].phase.Leaving? ==> s'.callers[x] == s.callers[x]
    ensures UnderWay(s'.callers[d].phase)
    ensures if s.callers[d].phase.Draining?
            then s'.callers[d].phase == Taken(s.queue.pending[0]) && s'.queue.pending == s.queue.pending[1..]
            else s'.queue.pending == s.queue.pending
  {
    hide Inv, TotalLeft, LocksInv;
    var e := WaitsOnlyForLeavers(s, max, d);
    s' := Step(s, e, false, max);
    StepIsQuiet(s, e, c, max);
  }

  /** A caller that is under way can be the one to take any row of the queue. */
  lemma {:induction false} TakesTheRow(s: State, max: nat, c: nat, d: nat, key: string) returns (path: seq<State>)
    requires Inv(s, max) && c < |s.callers| && d < |s.callers| && c != d
    requires s.callers[c].phase.Draining? && UnderWay(s.callers[d].phase) && KeyAmong(s.queue.pending, key)
    ensures path != [] && path[0] == s && QuietPath(path, c, max)
    ensures var last := path[|path| - 1];
            Inv(last, max) && |last.callers| == |s.callers| && last.callers[c] == s.callers[c]
            && Carries(last, d) && CarriedKey(last, d) == key
    decreases TotalLeft(s)
  {
    hide Inv, TotalLeft;
    TotalLeftIsNatural(s);
    var s' := GoesOn(s, max, c, d);
    if s.callers[d].phase.Draining? && Key(s.queue.pending[0]) == key {
      path := [s, s'];
    } else {
      TotalLeftIsNatural(s');
      assert KeyAmong(s'.queue.pending, key) by {
        var i :| 0 <= i < |s.queue.pending| && Key(s.queue.pending[i]) == key;
        if s.callers[d].phase.Draining? {
          assert s'.queue.pending[i - 1] == s.queue.pending[i];
        }
      }
      var rest := TakesTheRow(s', max, c, d, key);
      PathFrom(s, rest, c, max);
      path := [s] + rest;
    }
  }

  /** A caller can empty the queue and resolve while another one keeps its row. */
  lemma {:induction false} DrainsAndResolves(s: State, max: nat, c: nat, d: nat) returns (path: seq<State>)
    requires Inv(s, max) && c < |s.callers| && c != d && UnderWay(s.callers[c].phase) && Carries(s, d)
    ensures path != [] && path[0] == s && QuietPath(path, c, max)
    ensures var last := path[|path| - 1];
            Inv(last, max) && |last.callers| == |s.callers| && last.callers[d] == s.callers[d]
            && last.callers[c] == Caller(s.callers[c].events, Resolved)
    decreases TotalLeft(s)
  {
    hide Inv, TotalLeft;
    TotalLeftIsNatural(s);
    if s.callers[c].phase.Draining? && s.queue.pending == [] {
      StepIsQuiet(s, c, c, max);
      path := [s, Step(s, c, false, max)];
    } else {
      var s' := GoesOn(s, max, c, c);
      TotalLeftIsNatural(s');
      var rest := DrainsAndResolves(s', max, c, d);
      PathFrom(s, rest, c, max);
      path := [s] + rest;
    }
  }

  lemma PathsJoin(first: seq<State>, second: seq<State>, c: nat, max: nat)
    requires QuietPath(first, c, max) && QuietPath(second, c, max) && first[|first| - 1] == second[0]
    ensures QuietPath(first + second[1..], c, max)
    ensures var path := first + second[1..]; path[0] == first[0] && path[|path| - 1] == second[|second| - 1]
  {
    hide QuietStep;
    var path, n := first + second[1..], |first|;
    forall i | 0 <= i < |path| - 1 ensures QuietStep(path[i], path[i + 1], c, max) {
      if i < n - 1 {
        assert path[i] == first[i] && path[i + 1] == first[i + 1];
      } else {
        assert path[i] == second[i - (n - 1)] && path[i + 1] == second[i - (n - 1) + 1];
      }
    }
  }

  /** From a state where another caller has one of its rows in hand, a submit can resolve before it is stored. */
  lemma CanResolveTooSoon(s: State, max: nat, c: nat, d: nat, row: Row) returns (path: seq<State>)
    requires Inv(s, max) && c < |s.callers| && c != d && UnderWay(s.callers[c].phase)
    requires row in s.callers[c].events && Carries(s, d) && CarriedKey(s, d) == Key(row)
    ensures path != [] && path[0] == s && QuietPath(path, c, max)
    ensures var last := path[|path| - 1];
            Inv(last, max) && c < |last.callers| && last.callers[c] == Caller(s.callers[c].events, Resolved)
            && Key(row) !in last.queue.persistedKeys
  {
    path := DrainsAndResolves(s, max, c, d);
    var last := path[|path| - 1];
    assert Carries(last, d) && CarriedKey(last, d) == Key(row);
  }

  // ---- what a caller can tell before it submits ------------------------------------------------------

  /** The caller resolves on the path before its rows are stored. */
  ghost predicate TooSoon(path: seq<State>, c: nat, max: nat) {
    && QuietPath(path, c, max)
    && var last := path[|path| - 1];
       c < |last.callers| && last.callers[c].phase.Resolved? && !AllStored(last, c)
  }

  ghost predicate Overflows(s: State, c: nat, max: nat)
    requires c < |s.callers|
  {
    Enqueue(s.queue, s.callers[c].events, max).overflow
  }

  lemma OfferAccepts(s: State, max: nat, c: nat)
    requires Inv(s, max) && c < |s.callers| && s.callers[c].phase.Submitting? && !Overflows(s, c, max)
    ensures var s' := Step(s, c, false, max);
            && Possible(s, c) && s'.callers[c] == Caller(s.callers[c].events, Draining) && AllAccepted(s', c)
            && s'.queue.persistedKeys == s.queue.persistedKeys
            && |s'.callers| == |s.callers|
            && forall d :: 0 <= d < |s.callers| && d != c ==> s'.callers[d] == s.callers[d]
  {
    EnqueueBounded(s.queue, s.callers[c].events, max);
    EnqueueAppends(s.queue, s.callers[c].events, max);
    var q := Enqueue(s.queue, s.callers[c].events, max).queue;
    forall row | row in s.callers[c].events ensures Key(row) in q.pendingKeys || Key(row) in q.persistedKeys {
      assert IsDuplicate(q, row);
    }
  }

  /** With another submit under way, one that still has a row to store can resolve before it is stored. */
  lemma AnotherMayKeepTheRow(s: State, max: nat, c: nat, d: nat, row: Row) returns (path: seq<State>)
    requires Inv(s, max) && c < |s.callers| && s.callers[c].phase.Submitting? && !Overflows(s, c, max)
    requires d < |s.callers| && d != c && UnderWay(s.callers[d].phase)
    requires row in s.callers[c].events && Key(row) !in s.queue.persistedKeys
    ensures path != [] && path[0] == Step(s, c, false, max) && TooSoon(path, c, max)
  {
    hide TotalLeft, LocksOk, Conserved, PersistedOnce, Accounting, KeysDistinct;
    OfferAccepts(s, max, c);
    StepIsQuiet(s, c, c, max);
    var s1 := Step(s, c, false, max);
    assert Key(row) in s1.queue.pendingKeys;
    if KeyAmong(s1.queue.pending, Key(row)) {
      var taking := TakesTheRow(s1, max, c, d, Key(row));
      var resolving := CanResolveTooSoon(taking[|taking| - 1], max, c, d, row);
      PathsJoin(taking, resolving, c, max);
      path := taking + resolving[1..];
    } else {
      var x :| Carries(s1, x) && CarriedKey(s1, x) == Key(row);
      path := CanResolveTooSoon(s1, max, c, x, row);
    }
  }

  /** What a submit that is alone keeps: its rows are accepted, and stored once it resolves. */
  ghost predicate Alone(s: State, c: nat, max: nat) {
    && Inv(s, max) && c < |s.callers| && NobodyElse(s, c)
    && (s.callers[c].phase.Submitting? || Doomed(s.callers[c].phase) || AllAccepted(s, c))
    && (s.callers[c].phase.Resolved? ==> AllStored(s, c))
  }

  lemma CarrierIsUnderWay(s: State, d: nat)
    requires Carries(s, d)
    ensures UnderWay(s.callers[d].phase)
  {
  }

  lemma AloneOffers(s: State, max: nat, c: nat)
    requires Alone(s, c, max) && s.callers[c].phase.Submitting?
    ensures var s' := Step(s, c, false, max);
            !Doomed(s'.callers[c].phase) ==> s'.callers[c].phase.Draining? && AllAccepted(s', c)
  {
    if !Overflows(s, c, max) {
      OfferAccepts(s, max, c);
    }
  }

  lemma AloneResolves(s: State, max: nat, c: nat)
    requires Alone(s, c, max) && s.callers[c].phase.Draining? && s.queue.pending == []
    ensures AllStored(Step(s, c, false, max), c)
  {
    forall row | row in s.callers[c].events ensures !CarriedByAnother(s, c, Key(row)) {
      if d :| d != c && Carries(s, d) && CarriedKey(s, d) == Key(row) {
        CarrierIsUnderWay(s, d);
      }
    }
    ResolvesStoredExactlyWhen(s, max, c);
  }

  /** Its own steps keep it, whether its persists throw or not. */
  lemma OwnStepKeepsAlone(s: State, max: nat, c: nat, threw: bool)
    requires Alone(s, c, max) && Possible(s, c)
    ensures Alone(Step(s, c, threw, max), c, max)
  {
    hide Inv, LocksInv, TotalLeft;
    var s' := Step(s, c, threw, max);
    StepKeepsInv(s, c, threw, max);
    if s.callers[c].phase.Submitting? {
      AloneOffers(s, max, c);
    } else if s.callers[c].phase.Draining? && s.queue.pending == [] {
      AloneResolves(s, max, c);
    }
    assert |s'.callers| == |s.callers| && forall d :: 0 <= d < |s.callers| && d != c ==> s'.callers[d] == s.callers[d];
  }

  /** A caller that is not under way and makes no submit can only leave. */
  lemma OtherStepKeepsAlone(s: State, max: nat, c: nat, e: nat, threw: bool)
    requires Alone(s, c, max) && Possible(s, e) && e != c && !s.callers[e].phase.Submitting?
    ensures Alone(Step(s, e, threw, max), c, max)
  {
    hide Inv, LocksInv, TotalLeft;
    var s' := Step(s, e, threw, max);
    StepKeepsInv(s, e, threw, max);
    assert s.callers[e].phase.Leaving? && s'.callers[e].phase == Rejected;
    assert |s'.callers| == |s.callers| && forall d :: 0 <= d < |s.callers| && d != e ==> s'.callers[d] == s.callers[d];
  }

  lemma QuietStepKeepsAlone(s: State, s': State, max: nat, c: nat)
    requires Alone(s, c, max) && QuietStep(s, s', c, max)
    ensures Alone(s', c, max)
  {
    hide Alone, TotalLeft, Inv;
    AloneInRange(s, c, max);
    var e, threw :| Possible(s, e) && s' == Step(s, e, threw, max);
    if e == c {
      OwnStepKeepsAlone(s, max, c, threw);
    } else {
      OtherStepKeepsAlone(s, max, c, e, threw);
    }
  }

  lemma AloneInRange(s: State, c: nat, max: nat)
    requires Alone(s, c, max)
    ensures c < |s.callers|
  {
  }

  lemma {:induction false} QuietPathKeepsAlone(path: seq<State>, max: nat, c: nat, i: nat)
    requires QuietPath(path, c, max) && Alone(path[0], c, max) && i < |path|
    ensures Alone(path[i], c, max)
  {
    hide Alone, QuietStep;
    if i > 0 {
      QuietPathKeepsAlone(path, max, c, i - 1);
      assert QuietStep(path[i - 1], path[i - 1 + 1], c, max);
      QuietStepKeepsAlone(path[i - 1], path[i], max, c);
    }
  }

  /** What is stored stays stored. */
  lemma {:induction false} StoredStays(path: seq<State>, max: nat, c: nat, i: nat)
    requires QuietPath(path, c, max) && Inv(path[0], max) && c < |path[0].callers| && AllStored(path[0], c) && i < |path|
    ensures Inv(path[i], max) && c < |path[i].callers| && path[i].callers[c].events == path[0].callers[c].events
    ensures AllStored(path[i], c)
  {
    hide Inv, TotalLeft, LocksInv;
    if i > 0 {
      StoredStays(path, max, c, i - 1);
      assert QuietStep(path[i - 1], path[i - 1 + 1], c, max);
      var e, threw :| Possible(path[i - 1], e) && path[i] == Step(path[i - 1], e, threw, max);
      StepKeepsInv(path[i - 1], e, threw, max);
      StepKeepsStored(path[i - 1], e, threw, max);
    }
  }

  lemma StepKeepsStored(s: State, e: nat, threw: bool, max: nat)
    requires Possible(s, e)
    ensures var s' := Step(s, e, threw, max);
            && s.queue.persistedKeys <= s'.queue.persistedKeys && |s'.callers| == |s.callers|
            && forall d :: 0 <= d < |s.callers| ==> s'.callers[d].events == s.callers[d].events
  {
    if s.callers[e].phase.Submitting? {
      EnqueueAppends(s.queue, s.callers[e].events, max);
    }
  }

  lemma {:induction false} RejectedStays(path: seq<State>, max: nat, c: nat, i: nat)
    requires QuietPath(path, c, max) && c < |path[0].callers| && path[0].callers[c].phase.Rejected? && i < |path|
    ensures c < |path[i].callers| && path[i].callers[c].phase.Rejected?
  {
    if i > 0 {
      RejectedStays(path, max, c, i - 1);
      assert QuietStep(path[i - 1], path[i - 1 + 1], c, max);
    }
  }

  /**
   A caller can tell before it submits whether resolving will mean that its rows are stored: however the
   calls already made go on, it will if and only if the submit is refused for want of room, its rows are
   all stored already, or no other submit is under way.
   */
  lemma ResolvedMeansStoredExactlyWhen(s: State, max: nat, c: nat)
    requires Inv(s, max) && c < |s.callers| && s.callers[c].phase.Submitting?
    ensures (forall path :: path != [] && path[0] == Step(s, c, false, max) ==> !TooSoon(path, c, max))
            <==> Overflows(s, c, max) || AllStored(s, c) || NobodyElse(s, c)
  {
    hide Inv, Step;
    if !Overflows(s, c, max) && !AllStored(s, c) && !NobodyElse(s, c) {
      var d :| 0 <= d < |s.callers| && d != c && UnderWay(s.callers[d].phase);
      var row :| row in s.callers[c].events && Key(row) !in s.queue.persistedKeys;
      var path := AnotherMayKeepTheRow(s, max, c, d, row);
      assert TooSoon(path, c, max);
    }
    forall path: seq<State> | path != [] && path[0] == Step(s, c, false, max)
                              && (Overflows(s, c, max) || AllStored(s, c) || NobodyElse(s, c))
      ensures !TooSoon(path, c, max)
    {
      NotTooSoon(s, path, max, c);
    }
  }

  lemma NotTooSoon(s: State, path: seq<State>, max: nat, c: nat)
    requires Inv(s, max) && c < |s.callers| && s.callers[c].phase.Submitting?
    requires path != [] && path[0] == Step(s, c, false, max)
    requires Overflows(s, c, max) || AllStored(s, c) || NobodyElse(s, c)
    ensures !TooSoon(path, c, max)
  {
    hide Inv, LocksInv, TotalLeft;
    if QuietPath(path, c, max) {
      var last := |path| - 1;
      StepKeepsInv(s, c, false, max);
      StepKeepsStored(s, c, false, max);
      if Overflows(s, c, max) {
        RejectedStays(path, max, c, last);
      } else if AllStored(s, c) {
        StoredStays(path, max, c, last);
      } else {
        OwnStepKeepsAlone(s, max, c, false);
        QuietPathKeepsAlone(path, max, c, last);
      }
    }
  }
}
