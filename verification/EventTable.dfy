/**
 The tables a poll writes: events under insert-or-ignore, the events that did not decode, and the ledger
 ranges the RPC no longer kept. Decoding is a partial function, given by the ids whose decoding throws.
 */
module EventTable {
  import opened EventLog

  datatype Skip = Skip(from: nat, to: nat)

  /** `skips` lists the skipped ranges in the order they were recorded. */
  datatype Db = Db(table: map<string, Event>, undecodable: set<string>, skips: seq<Skip>)

  /** `INSERT OR IGNORE` under the unique event id. */
  function InsertOrIgnore(table: map<string, Event>, e: Event): map<string, Event> {
    if e.id in table then table else table[e.id := e]
  }

  function Stored(table: map<string, Event>, rows: seq<Event>): map<string, Event> {
    if rows == [] then table else InsertOrIgnore(Stored(table, rows[..|rows| - 1]), rows[|rows| - 1])
  }

  /** The rows that decode. */
  function Decoded(events: seq<Event>, bad: set<string>): seq<Event> {
    if events == [] then []
    else Decoded(events[..|events| - 1], bad)
         + if events[|events| - 1].id in bad then [] else [events[|events| - 1]]
  }

  function BadIds(events: seq<Event>, bad: set<string>): set<string> {
    if events == [] then {}
    else BadIds(events[..|events| - 1], bad) + if events[|events| - 1].id in bad then {events[|events| - 1].id} else {}
  }

  lemma {:induction false} BadIdsHold(events: seq<Event>, bad: set<string>)
    ensures forall e :: e in events && e.id in bad ==> e.id in BadIds(events, bad)
    ensures forall id :: id in BadIds(events, bad) ==> id in bad && exists e :: e in events && e.id == id
  {
    if events != [] {
      var front, last := events[..|events| - 1], events[|events| - 1];
      BadIdsHold(front, bad);
      assert events == front + [last];
    }
  }

  lemma {:induction false} StoredAppend(table: map<string, Event>, xs: seq<Event>, ys: seq<Event>)
    ensures Stored(Stored(table, xs), ys) == Stored(table, xs + ys)
  {
    if ys == [] {
      assert xs + ys == xs;
    } else {
      StoredAppend(table, xs, ys[..|ys| - 1]);
      assert (xs + ys)[..|xs + ys| - 1] == xs + ys[..|ys| - 1];
    }
  }

  lemma {:induction false} DecodedAppend(xs: seq<Event>, ys: seq<Event>, bad: set<string>)
    ensures Decoded(xs + ys, bad) == Decoded(xs, bad) + Decoded(ys, bad)
  {
    if ys == [] {
      assert xs + ys == xs;
    } else {
      DecodedAppend(xs, ys[..|ys| - 1], bad);
      assert (xs + ys)[..|xs + ys| - 1] == xs + ys[..|ys| - 1];
    }
  }

  lemma {:induction false} BadIdsAppend(xs: seq<Event>, ys: seq<Event>, bad: set<string>)
    ensures BadIds(xs + ys, bad) == BadIds(xs, bad) + BadIds(ys, bad)
  {
    if ys == [] {
      assert xs + ys == xs;
    } else {
      BadIdsAppend(xs, ys[..|ys| - 1], bad);
      assert (xs + ys)[..|xs + ys| - 1] == xs + ys[..|ys| - 1];
    }
  }

  lemma {:induction false} DecodedHolds(events: seq<Event>, bad: set<string>)
    ensures forall e :: e in Decoded(events, bad) <==> e in events && e.id !in bad
  {
    if events != [] {
      var front, last := events[..|events| - 1], events[|events| - 1];
      DecodedHolds(front, bad);
      assert events == front + [last];
    }
  }

  /** A row already stored stays as it is; a new one is one of the rows. */
  lemma {:induction false} StoredHolds(table: map<string, Event>, rows: seq<Event>)
    ensures forall id :: id in table ==> id in Stored(table, rows) && Stored(table, rows)[id] == table[id]
    ensures forall id :: id in Stored(table, rows) && id !in table ==> Stored(table, rows)[id] in rows && Stored(table, rows)[id].id == id
    ensures forall e :: e in rows ==> e.id in Stored(table, rows)
  {
    if rows != [] {
      var front, last := rows[..|rows| - 1], rows[|rows| - 1];
      StoredHolds(table, front);
      assert rows == front + [last];
    }
  }

  /** Inserting rows whose ids are all stored changes nothing. */
  lemma {:induction false} StoredAgain(table: map<string, Event>, rows: seq<Event>)
    requires forall e :: e in rows ==> e.id in table
    ensures Stored(table, rows) == table
  {
    if rows != [] {
      assert forall e :: e in rows[..|rows| - 1] ==> e in rows;
      StoredAgain(table, rows[..|rows| - 1]);
    }
  }

  lemma StretchAgain(table: map<string, Event>, log: seq<Event>, bad: set<string>, a: nat, b: nat, a': nat, b': nat)
    requires a <= a' <= b' <= b <= |log|
    ensures var once := Stored(table, Decoded(log[a..b], bad)); Stored(once, Decoded(log[a'..b'], bad)) == once
  {
    StoredHolds(table, Decoded(log[a..b], bad));
    DecodedHolds(log[a..b], bad);
    DecodedHolds(log[a'..b'], bad);
    forall e | e in log[a'..b'] ensures e in log[a..b] {
      var k :| 0 <= k < b' - a' && log[a'..b'][k] == e;
      assert log[a..b][a' - a + k] == e;
    }
    StoredAgain(Stored(table, Decoded(log[a..b], bad)), Decoded(log[a'..b'], bad));
  }

  // ---- taking in a stretch of the log ----------------------------------------------------------------

  /** The rows up to `reached` are stored; decoding went on up to `decoded`, and its failures are recorded. */
  ghost function Ingest(log: seq<Event>, bad: set<string>, before: Db, from: nat, reached: nat, decoded: nat): Db
    requires from <= reached <= decoded <= |log|
  {
    Db(Stored(before.table, Decoded(log[from..reached], bad)),
       before.undecodable + BadIds(log[from..decoded], bad),
       before.skips)
  }

  /** A start later than the ledger after the pointer leaves a gap on record. */
  ghost function SkipTo(before: Db, pointer: nat, start: nat): Db
    requires pointer < start
  {
    if start == pointer + 1 then before else before.(skips := before.skips + [Skip(pointer + 1, start - 1)])
  }

  lemma IngestGoesOn(log: seq<Event>, bad: set<string>, before: Db, from: nat, position: nat, reached: nat, decoded: nat)
    requires from <= position <= reached <= decoded <= |log|
    ensures Ingest(log, bad, Ingest(log, bad, before, from, position, position), position, reached, decoded)
            == Ingest(log, bad, before, from, reached, decoded)
  {
    SlicesJoin(log, from, position, reached);
    SlicesJoin(log, from, position, decoded);
    DecodedAppend(log[from..position], log[position..reached], bad);
    StoredAppend(before.table, Decoded(log[from..position], bad), Decoded(log[position..reached], bad));
    BadIdsAppend(log[from..position], log[position..decoded], bad);
  }

  ghost predicate InSkips(skips: seq<Skip>, ledger: nat) {
    exists k :: 0 <= k < |skips| && skips[k].from <= ledger <= skips[k].to
  }

  lemma SkipsGrow(before: Db, pointer: nat, start: nat, ledger: nat)
    requires pointer < start
    ensures InSkips(SkipTo(before, pointer, start).skips, ledger) <==> InSkips(before.skips, ledger) || pointer < ledger < start
  {
    var after := SkipTo(before, pointer, start).skips;
    if InSkips(before.skips, ledger) {
      var k :| 0 <= k < |before.skips| && before.skips[k].from <= ledger <= before.skips[k].to;
      assert after[k] == before.skips[k];
    } else if pointer < ledger < start {
      assert after[|before.skips|].from <= ledger <= after[|before.skips|].to;
    }
  }

  // ---- what counts as taken in -----------------------------------------------------------------------

  /** An event is stored, recorded as undecodable, or in a recorded gap. */
  ghost predicate Settled(db: Db, e: Event) {
    (e.id in db.table && db.table[e.id] == e) || e.id in db.undecodable || InSkips(db.skips, e.ledger)
  }

  ghost predicate Complete(log: seq<Event>, db: Db, pointer: nat) {
    forall i :: 0 <= i < |log| && log[i].ledger <= pointer ==> Settled(db, log[i])
  }

  /** Nothing beyond the pointer is settled. */
  ghost predicate Fresh(log: seq<Event>, db: Db, pointer: nat) {
    forall i :: 0 <= i < |log| && log[i].ledger > pointer ==> !Settled(db, log[i])
  }

  /** The table holds an event of the log only as that event. */
  ghost predicate Consistent(log: seq<Event>, table: map<string, Event>) {
    forall i :: 0 <= i < |log| && log[i].id in table ==> table[log[i].id] == log[i]
  }

  lemma SameIdSameEvent(log: seq<Event>, from: nat, to: nat, i: nat)
    requires ValidLog(log) && from <= to <= |log| && i < |log|
    ensures forall e :: e in log[from..to] && e.id == log[i].id ==> e == log[i] && from <= i < to
  {
    forall e | e in log[from..to] && e.id == log[i].id ensures e == log[i] && from <= i < to {
      var k :| 0 <= k < to - from && log[from..to][k] == e;
      assert log[from + k].id == log[i].id;
    }
  }

  /** An event of the log is in the table afterwards if it was, or is among the stored rows and decodes. */
  lemma StoredExactly(log: seq<Event>, bad: set<string>, table: map<string, Event>, from: nat, reached: nat, i: nat)
    requires ValidLog(log) && Consistent(log, table) && from <= reached <= |log| && i < |log|
    ensures var stored := Stored(table, Decoded(log[from..reached], bad));
            && (log[i].id in stored ==> stored[log[i].id] == log[i])
            && (log[i].id in stored <==> log[i].id in table || (from <= i < reached && log[i].id !in bad))
  {
    var rows := log[from..reached];
    StoredHolds(table, Decoded(rows, bad));
    DecodedHolds(rows, bad);
    SameIdSameEvent(log, from, reached, i);
    if from <= i < reached {
      assert rows[i - from] == log[i];
    }
  }

  lemma BadExactly(log: seq<Event>, bad: set<string>, from: nat, decoded: nat, i: nat)
    requires ValidLog(log) && from <= decoded <= |log| && i < |log|
    ensures log[i].id in BadIds(log[from..decoded], bad) <==> from <= i < decoded && log[i].id in bad
  {
    BadIdsHold(log[from..decoded], bad);
    SameIdSameEvent(log, from, decoded, i);
    if from <= i < decoded {
      assert log[from..decoded][i - from] == log[i];
    }
  }

  lemma IngestKeepsConsistent(log: seq<Event>, bad: set<string>, before: Db, from: nat, reached: nat, decoded: nat)
    requires ValidLog(log) && Consistent(log, before.table) && from <= reached <= decoded <= |log|
    ensures Consistent(log, Ingest(log, bad, before, from, reached, decoded).table)
  {
    var after := Ingest(log, bad, before, from, reached, decoded).table;
    forall i | 0 <= i < |log| && log[i].id in after ensures after[log[i].id] == log[i] {
      StoredExactly(log, bad, before.table, from, reached, i);
    }
  }

  /** Exactly which events are settled after a stretch of the log was taken in. */
  lemma IngestSettles(log: seq<Event>, bad: set<string>, before: Db, pointer: nat, start: nat, from: nat, reached: nat, decoded: nat, i: nat)
    requires ValidLog(log) && Consistent(log, before.table) && pointer < start
    requires from <= reached <= decoded <= |log| && i < |log|
    ensures Settled(Ingest(log, bad, SkipTo(before, pointer, start), from, reached, decoded), log[i])
            <==> Settled(before, log[i]) || pointer < log[i].ledger < start || from <= i < reached
                 || (from <= i < decoded && log[i].id in bad)
  {
    StoredExactly(log, bad, before.table, from, reached, i);
    BadExactly(log, bad, from, decoded, i);
    SkipsGrow(before, pointer, start, log[i].ledger);
  }
}
