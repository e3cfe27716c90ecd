/**
 What the insert queue does with events, told by contract, ledger and type instead of by the text that it
 uses as identity: which rows suppress one another, what an enqueue takes, and what is stored in the end.
 */
module SubmittedEvents {
  import opened Wrappers
  import opened RpcEventQueue
  import opened FieldKeys
  import DecimalText

  ghost predicate SameEvent(a: Row, b: Row) {
    a.contractId == b.contractId && a.ledgerSequence == b.ledgerSequence && a.eventType == b.eventType
  }

  /** No contract holds the separator, or no type does. */
  ghost predicate Plain(rows: iset<Row>) {
    (forall row :: row in rows ==> '|' !in row.contractId) || (forall row :: row in rows ==> '|' !in row.eventType)
  }

  ghost function Among(rows: seq<Row>): iset<Row> {
    iset row | row in rows
  }

  lemma KeyIsJoined(row: Row)
    ensures Key(row) == Joined('|', row.contractId, row.ledgerSequence, row.eventType)
  {
  }

  /** Rows suppress one another exactly when contract, ledger and type agree. */
  lemma KeysTellEventsApart(a: Row, b: Row)
    requires Plain(iset{a, b})
    ensures Key(a) == Key(b) <==> SameEvent(a, b)
  {
    KeyIsJoined(a);
    KeyIsJoined(b);
    assert a in iset{a, b} && b in iset{a, b};
    JoinedSeparates('|', a.contractId, a.ledgerSequence, a.eventType, b.contractId, b.ledgerSequence, b.eventType);
  }

  lemma SameEventSameKey(a: Row, b: Row)
    requires SameEvent(a, b)
    ensures Key(a) == Key(b)
  {
  }

  /** A row can be taken for another event exactly when its contract or its type looks like a part of a key. */
  lemma MistakenExactlyWhen(row: Row)
    ensures (exists other :: Key(other) == Key(row) && !SameEvent(other, row))
            <==> HoldsNumber(row.contractId + "|", '|') || HoldsNumber("|" + row.eventType, '|')
  {
    hide Key, HoldsNumber;
    KeyIsJoined(row);
    SharedExactlyWhen('|', row.contractId, row.ledgerSequence, row.eventType);
    if other :| Key(other) == Key(row) && !SameEvent(other, row) {
      KeyIsJoined(other);
    }
    if Shared('|', row.contractId, row.ledgerSequence, row.eventType) {
      var a, n: nat, b :| Joined('|', a, n, b) == Joined('|', row.contractId, row.ledgerSequence, row.eventType)
                          && !(a == row.contractId && n == row.ledgerSequence && b == row.eventType);
      KeyIsJoined(Row(a, b, n, ""));
      assert !SameEvent(Row(a, b, n, ""), row);
    }
  }

  /** Such a pair: the second event counts as a duplicate of the first. */
  lemma AnotherEventIsDropped()
    ensures var first, second := Row("a|5", "t", 6, ""), Row("a", "6|t", 5, "");
            !SameEvent(first, second) && Enqueue(Queue([], {}, {}), [first, second], 10).taken == [first]
  {
    var first, second := Row("a|5", "t", 6, ""), Row("a", "6|t", 5, "");
    KeyIsJoined(first);
    KeyIsJoined(second);
    assert DecimalText.ToText(5) == "5" && DecimalText.ToText(6) == "6";
    assert Key(first) == "a|5|6|t" == Key(second);
    var q := Queue([], {}, {});
    assert [first, second][1..] == [second] && [second][1..] == [];
    assert Enqueue(Push(q, first), [second], 10) == Enqueue(Push(q, first), [], 10);
  }

  // ---- what an enqueue takes -----------------------------------------------------------------------------

  ghost predicate SameAsOneOf(known: seq<Row>, row: Row) {
    exists k :: 0 <= k < |known| && SameEvent(known[k], row)
  }

  /** The first row of each event that is not known yet. */
  ghost function Novel(known: seq<Row>, events: seq<Row>): seq<Row>
    decreases events
  {
    if events == [] then []
    else if SameAsOneOf(known, events[0]) then Novel(known, events[1..])
    else [events[0]] + Novel(known + [events[0]], events[1..])
  }

  /** The queue holds or has stored exactly these rows. */
  ghost predicate Knows(q: Queue, known: seq<Row>) {
    forall key :: key in q.pendingKeys || key in q.persistedKeys <==> KeyAmong(known, key)
  }

  ghost function FirstN(rows: seq<Row>, n: nat): seq<Row> {
    if n <= |rows| then rows[..n] else rows
  }

  lemma DuplicateMeansSame(q: Queue, known: seq<Row>, row: Row)
    requires Knows(q, known) && Plain(Among(known) + iset{row})
    ensures IsDuplicate(q, row) <==> SameAsOneOf(known, row)
  {
    hide Key, SameEvent;
    forall k | 0 <= k < |known| ensures Key(known[k]) == Key(row) <==> SameEvent(known[k], row) {
      assert known[k] in Among(known) + iset{row} && row in Among(known) + iset{row};
      KeysTellEventsApart(known[k], row);
    }
  }

  lemma KnowsMore(q: Queue, known: seq<Row>, row: Row)
    requires Knows(q, known)
    ensures Knows(Push(q, row), known + [row])
  {
    hide Key;
    var more := known + [row];
    forall key ensures KeyAmong(more, key) <==> KeyAmong(known, key) || key == Key(row) {
      assert more[|known|] == row;
      if KeyAmong(known, key) {
        var i :| 0 <= i < |known| && Key(known[i]) == key;
        assert more[i] == known[i];
      }
    }
  }

  lemma PlainParts(known: seq<Row>, events: seq<Row>)
    requires events != [] && Plain(Among(known) + Among(events))
    ensures Plain(Among(known) + iset{events[0]}) && Plain(Among(known) + Among(events[1..]))
    ensures Plain(Among(known + [events[0]]) + Among(events[1..]))
  {
    var all := Among(known) + Among(events);
    forall row | row in Among(known + [events[0]]) + Among(events[1..]) ensures row in all {}
    assert events[0] in all;
  }

  /** What an enqueue takes: the rows of new events, first come first, as far as there is room for them. */
  lemma {:induction false} EnqueueTakesTheNovel(q: Queue, known: seq<Row>, events: seq<Row>, max: nat)
    requires Knows(q, known) && Plain(Among(known) + Among(events)) && |q.pending| <= max
    ensures var e, novel, room := Enqueue(q, events, max), Novel(known, events), max - |q.pending|;
            e.taken == FirstN(novel, room) && (e.overflow <==> |novel| > room)
    decreases events
  {
    hide Key, Plain, Knows;
    if events != [] {
      PlainParts(known, events);
      DuplicateMeansSame(q, known, events[0]);
      if IsDuplicate(q, events[0]) {
        EnqueueTakesTheNovel(q, known, events[1..], max);
      } else if |q.pending| < max {
        KnowsMore(q, known, events[0]);
        EnqueueTakesTheNovel(Push(q, events[0]), known + [events[0]], events[1..], max);
      }
    }
  }

  lemma {:induction false} AllNovel(known: seq<Row>, events: seq<Row>)
    requires forall i :: 0 <= i < |events| ==> !SameAsOneOf(known, events[i])
    requires forall i, j :: 0 <= i < j < |events| ==> !SameEvent(events[i], events[j])
    ensures Novel(known, events) == events
    decreases events
  {
    if events != [] {
      forall i | 0 <= i < |events[1..]| ensures !SameAsOneOf(known + [events[0]], events[1..][i]) {
        assert !SameAsOneOf(known, events[i + 1]) && !SameEvent(events[0], events[i + 1]);
      }
      AllNovel(known + [events[0]], events[1..]);
    }
  }

  /** Different events never suppress one another: a fresh queue takes them all, up to its size. */
  lemma DifferentEventsAllGoIn(events: seq<Row>, max: nat)
    requires Plain(Among(events)) && forall i, j :: 0 <= i < j < |events| ==> !SameEvent(events[i], events[j])
    ensures var e := Enqueue(Queue([], {}, {}), events, max);
            e.taken == FirstN(events, max) && (e.overflow <==> |events| > max)
  {
    assert Among([]) + Among(events) == Among(events);
    EnqueueTakesTheNovel(Queue([], {}, {}), [], events, max);
    AllNovel([], events);
  }

  // ---- over whole runs -----------------------------------------------------------------------------------

  ghost function Offered(s: State): iset<Row> {
    iset c: nat, row | c < |s.callers| && row in s.callers[c].events :: row
  }

  lemma {:induction false} TakenAreOffered(q: Queue, events: seq<Row>, max: nat)
    ensures forall row :: row in Enqueue(q, events, max).taken ==> row in events
    decreases events
  {
    if events != [] {
      TakenAreOffered(q, events[1..], max);
      TakenAreOffered(Push(q, events[0]), events[1..], max);
    }
  }

  lemma StepKeepsSubmits(s: State, c: nat, threw: bool, max: nat)
    requires Possible(s, c)
    ensures var s' := Step(s, c, threw, max);
            && |s'.callers| == |s.callers|
            && (forall d :: 0 <= d < |s.callers| ==> s'.callers[d].events == s.callers[d].events)
            && s'.accepted == if s.callers[c].phase.Submitting? then s.accepted + multiset(Enqueue(s.queue, s.callers[c].events, max).taken)
                              else s.accepted
  {
  }

  lemma StepAcceptsOffered(s: State, c: nat, threw: bool, max: nat)
    requires Possible(s, c) && forall row :: row in s.accepted ==> row in Offered(s)
    ensures Offered(Step(s, c, threw, max)) == Offered(s)
    ensures forall row :: row in Step(s, c, threw, max).accepted ==> row in Offered(s)
  {
    hide Step, Enqueue;
    StepKeepsSubmits(s, c, threw, max);
    TakenAreOffered(s.queue, s.callers[c].events, max);
    var taken := Enqueue(s.queue, s.callers[c].events, max).taken;
    forall row | row in multiset(taken) ensures row in Offered(s) {
      assert row in s.callers[c].events;
    }
  }

  /** Only submitted rows are ever accepted, and so only they are persisted. */
  lemma {:induction false} OnlyOfferedAreAccepted(run: seq<State>, max: nat, n: nat)
    requires IsRun(run, max) && n < |run|
    ensures Offered(run[n]) == Offered(run[0])
    ensures forall row :: row in run[n].accepted ==> row in Offered(run[0])
  {
    hide Offered, Step;
    if n > 0 {
      OnlyOfferedAreAccepted(run, max, n - 1);
      assert Next(run[n - 1], run[n - 1 + 1], max);
      var c, threw :| Possible(run[n - 1], c) && run[n] == Step(run[n - 1], c, threw, max);
      StepAcceptsOffered(run[n - 1], c, threw, max);
    }
  }

  lemma PersistedAreOffered(run: seq<State>, max: nat, n: nat)
    requires IsRun(run, max) && n < |run|
    ensures forall i :: 0 <= i < |run[n].persisted| ==> run[n].persisted[i] in Offered(run[0])
  {
    var s := run[n];
    RunKeepsInv(run, max, n);
    OnlyOfferedAreAccepted(run, max, n);
    forall i | 0 <= i < |s.persisted| ensures s.persisted[i] in s.accepted {
      assert s.persisted[i] in multiset(s.persisted);
    }
  }

  /** In no run is an event persisted twice, or by two callers at a time. */
  lemma NoEventIsStoredTwice(run: seq<State>, max: nat, n: nat)
    requires IsRun(run, max) && n < |run|
    ensures forall i, j :: 0 <= i < j < |run[n].persisted| ==> !SameEvent(run[n].persisted[i], run[n].persisted[j])
    ensures forall c, d :: 0 <= c < d < |run[n].callers| && run[n].callers[c].phase.Persisting? && run[n].callers[d].phase.Persisting?
              ==> !SameEvent(run[n].callers[c].phase.row, run[n].callers[d].phase.row)
  {
    hide Key;
    QueueIsSafe(run, max, n);
    forall a, b | SameEvent(a, b) ensures Key(a) == Key(b) {
      SameEventSameKey(a, b);
    }
  }

  /**
   When every submit resolves, of each submitted event exactly one row was persisted, one of those submitted
   for it.
   */
  lemma EveryEventIsStoredOnce(run: seq<State>, max: nat, c: nat, row: Row) returns (i: nat)
    requires IsRun(run, max) && AllResolved(run[|run| - 1]) && Plain(Offered(run[0]))
    requires c < |run[0].callers| && row in run[0].callers[c].events
    ensures var persisted := run[|run| - 1].persisted;
            && i < |persisted| && SameEvent(persisted[i], row) && persisted[i] in Offered(run[0])
            && forall j :: 0 <= j < |persisted| && SameEvent(persisted[j], row) ==> j == i
  {
    hide Key;
    i := AllResolvedMeansAllStored(run, max, c, row);
    var persisted := run[|run| - 1].persisted;
    PersistedAreOffered(run, max, |run| - 1);
    assert row in Offered(run[0]);
    KeysTellEventsApart(persisted[i], row);
    forall j | 0 <= j < |persisted| && SameEvent(persisted[j], row) ensures j == i {
      SameEventSameKey(persisted[j], row);
    }
  }
}
