/**
 The event log of the RPC: ordered by ledger, with distinct event ids. Reading it means asking for the
 position where a ledger begins, and for the stretch of events from there.
 */
module EventLog {
  datatype Event = Event(id: string, ledger: nat)

  ghost predicate ValidLog(log: seq<Event>) {
    && (forall i, j :: 0 <= i < j < |log| ==> log[i].ledger <= log[j].ledger)
    && (forall i, j :: 0 <= i < j < |log| ==> log[i].id != log[j].id)
  }

  function PositionFrom(log: seq<Event>, l: int, i: nat): (p: nat)
    requires i <= |log|
    ensures i <= p <= |log|
    decreases |log| - i
  {
    if i == |log| || log[i].ledger >= l then i else PositionFrom(log, l, i + 1)
  }

  /** Where ledger l begins in the log. */
  function Position(log: seq<Event>, l: int): (p: nat)
    ensures p <= |log|
  {
    PositionFrom(log, l, 0)
  }

  lemma {:induction false} PositionFromSplits(log: seq<Event>, l: int, i: nat)
    requires ValidLog(log) && i <= |log|
    ensures forall k :: i <= k < |log| ==> (log[k].ledger < l <==> k < PositionFrom(log, l, i))
    decreases |log| - i
  {
    if i < |log| && log[i].ledger < l {
      PositionFromSplits(log, l, i + 1);
    }
  }

  lemma PositionSplits(log: seq<Event>, l: int)
    requires ValidLog(log)
    ensures forall i :: 0 <= i < |log| ==> (log[i].ledger < l <==> i < Position(log, l))
  {
    PositionFromSplits(log, l, 0);
  }

  lemma PositionIs(log: seq<Event>, l: int, k: nat)
    requires ValidLog(log) && k <= |log| && forall i :: 0 <= i < |log| ==> (log[i].ledger < l <==> i < k)
    ensures Position(log, l) == k
  {
    PositionSplits(log, l);
    var i := if Position(log, l) < k then Position(log, l) else k;
    if i < |log| {
      var e := log[i];
    }
  }

  lemma LedgerFrom(log: seq<Event>, l: int, i: nat)
    requires ValidLog(log) && Position(log, l) <= i < |log|
    ensures log[i].ledger >= l
  {
    PositionSplits(log, l);
  }

  lemma {:induction false} PositionFromIsMonotone(log: seq<Event>, l: int, l': int, i: nat)
    requires l <= l' && i <= |log|
    ensures PositionFrom(log, l, i) <= PositionFrom(log, l', i)
    decreases |log| - i
  {
    if i < |log| && log[i].ledger < l {
      PositionFromIsMonotone(log, l, l', i + 1);
    }
  }

  lemma PositionIsMonotone(log: seq<Event>, l: int, l': int)
    requires l <= l'
    ensures Position(log, l) <= Position(log, l')
  {
    PositionFromIsMonotone(log, l, l', 0);
  }

  lemma SlicesJoin<T>(s: seq<T>, a: nat, m: nat, b: nat)
    requires a <= m <= b <= |s|
    ensures s[a..m] + s[m..b] == s[a..b]
  {
  }
}
