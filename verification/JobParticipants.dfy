/**
 The event table with its derived index `job_participants`, and the wallet query that reads the index.

 Three paths write events: one row, a live batch that moves the ledger pointer, and a historical batch.
 Every path inserts or ignores under a dedupe key, and records the parties of the rows that went in.
 */
module JobParticipants {
  import opened Wrappers
  import opened StringOrder
  import opened Whitespace
  import opened DecimalText
  import opened FieldKeys

  datatype Role = Client | Freelancer | Arbiter

  /** What `JSON.parse` makes of `data_json`: nothing, or an object whose party fields may be strings. */
  datatype Payload = Unparseable
                   | Fields(client: Option<string>, freelancer: Option<string>, arbiter: Option<string>, milestones: nat)

  datatype EventRow = EventRow(contractId: string, eventType: string, ledger: nat, timestamp: Option<int>,
                               data: Payload, eventId: Option<string>)

  /** A stored row; its autoincrement id is its place in the table. */
  datatype Stored = Stored(key: string, row: EventRow)

  datatype Participant = Participant(contractId: string, address: string, role: Role)

  // ---- dedupe keys -----------------------------------------------------------------------------------

  function Triple(row: EventRow): string {
    row.contractId + ":" + ToText(row.ledger) + ":" + row.eventType
  }

  /** `eventDedupeId`: an empty id counts as none. */
  function BatchKey(row: EventRow): string {
    if row.eventId.Some? && row.eventId.value != "" then row.eventId.value else Triple(row)
  }

  /** The single-row path replaces a missing id only. */
  function SingleKey(row: EventRow): string {
    if row.eventId.Some? then row.eventId.value else Triple(row)
  }

  // ---- parties of an event -----------------------------------------------------------------------------

  function Lower(s: string): (l: string) {
    seq(|s|, i requires 0 <= i < |s| => if 'A' <= s[i] <= 'Z' then (s[i] as int + 32) as char else s[i])
  }

  function PartyField(data: Payload, role: Role): Option<string>
    requires data.Fields?
  {
    match role
    case Client => data.client
    case Freelancer => data.freelancer
    case Arbiter => data.arbiter
  }

  /** The event names the address as the trimmed value of a party field; `created` events name nobody. */
  predicate Names(row: EventRow, address: string, role: Role) {
    && Lower(row.eventType) != "created"
    && row.data.Fields? && PartyField(row.data, role).Some?
    && Trim(PartyField(row.data, role).value) == address != ""
  }

  /** `created`, in any mix of cases. */
  ghost predicate IsCreated(eventType: string) {
    |eventType| == 7 && forall i :: 0 <= i < 7 ==> eventType[i] == "created"[i] || eventType[i] == "CREATED"[i]
  }

  lemma LowerIsCreated(eventType: string)
    ensures Lower(eventType) == "created" <==> IsCreated(eventType)
  {
    var l := Lower(eventType);
    if |eventType| == 7 {
      forall i | 0 <= i < 7 ensures l[i] == "created"[i] <==> eventType[i] == "created"[i] || eventType[i] == "CREATED"[i] {}
      assert IsCreated(eventType) ==> forall i :: 0 <= i < 7 ==> l[i] == "created"[i];
    }
  }

  /** Which fields of which events name a party. */
  lemma NamesExactlyWhen(row: EventRow, address: string, role: Role)
    ensures Names(row, address, role)
            <==> && !IsCreated(row.eventType) && address != ""
                 && match row.data
                    case Unparseable => false
                    case Fields(client, freelancer, arbiter, _) =>
                      || (role == Client && client.Some? && Trim(client.value) == address)
                      || (role == Freelancer && freelancer.Some? && Trim(freelancer.value) == address)
                      || (role == Arbiter && arbiter.Some? && Trim(arbiter.value) == address)
  {
    LowerIsCreated(row.eventType);
  }

  // ---- the table ---------------------------------------------------------------------------------------

  ghost predicate HasKey(events: seq<Stored>, key: string) {
    exists i :: 0 <= i < |events| && events[i].key == key
  }

  ghost predicate DistinctKeys(events: seq<Stored>) {
    forall i, j :: 0 <= i < j < |events| ==> events[i].key != events[j].key
  }

  /** `INSERT OR IGNORE` of one row after another. */
  ghost function InsertAll(events: seq<Stored>, rows: seq<Stored>): seq<Stored> {
    if rows == [] then events
    else
      var front := InsertAll(events, rows[..|rows| - 1]);
      if HasKey(front, rows[|rows| - 1].key) then front else front + [rows[|rows| - 1]]
  }

  function BatchRows(rows: seq<EventRow>): (s: seq<Stored>)
    ensures |s| == |rows|
  {
    seq(|rows|, i requires 0 <= i < |rows| => Stored(BatchKey(rows[i]), rows[i]))
  }

  /** A wallet is a party of a contract in the naive reading: some stored event of the contract names it. */
  ghost predicate IsParty(events: seq<Stored>, p: Participant) {
    exists i :: 0 <= i < |events| && events[i].row.contractId == p.contractId && Names(events[i].row, p.address, p.role)
  }

  /** The index holds exactly the parties of the stored events. */
  ghost predicate Indexed(events: seq<Stored>, participants: set<Participant>) {
    forall p :: p in participants <==> IsParty(events, p)
  }

  function Recorded(row: EventRow, role: Role): set<Participant> {
    if Lower(row.eventType) == "created" || row.data.Unparseable? || PartyField(row.data, role).None?
       || Trim(PartyField(row.data, role).value) == "" then {}
    else {Participant(row.contractId, Trim(PartyField(row.data, role).value), role)}
  }

  lemma RecordedAreNamed(row: EventRow, p: Participant)
    ensures p in Recorded(row, Client) + Recorded(row, Freelancer) + Recorded(row, Arbiter)
            <==> p.contractId == row.contractId && Names(row, p.address, p.role)
  {
    match p.role
    case Client =>
    case Freelancer =>
    case Arbiter =>
  }

  lemma IndexedGrows(events: seq<Stored>, participants: set<Participant>, stored: Stored)
    requires Indexed(events, participants)
    ensures Indexed(events + [stored],
                    participants + Recorded(stored.row, Client) + Recorded(stored.row, Freelancer) + Recorded(stored.row, Arbiter))
  {
    var all := events + [stored];
    forall p ensures IsParty(all, p) <==> IsParty(events, p) || (p.contractId == stored.row.contractId && Names(stored.row, p.address, p.role)) {
      if IsParty(events, p) {
        var i :| 0 <= i < |events| && events[i].row.contractId == p.contractId && Names(events[i].row, p.address, p.role);
        assert all[i] == events[i];
      }
      assert all[|events|] == stored;
    }
    forall p { RecordedAreNamed(stored.row, p); }
  }

  lemma {:induction false} InsertAllAppends(events: seq<Stored>, rows: seq<Stored>)
    ensures events <= InsertAll(events, rows)
    ensures DistinctKeys(events) ==> DistinctKeys(InsertAll(events, rows))
    ensures forall k :: HasKey(InsertAll(events, rows), k) <==> HasKey(events, k) || HasKey(rows, k)
  {
    if rows != [] {
      var front, last := rows[..|rows| - 1], rows[|rows| - 1];
      InsertAllAppends(events, front);
      KeysOfSnoc(front, last);
      assert rows == front + [last];
      KeysOfSnoc(InsertAll(events, front), last);
    }
  }

  lemma KeysOfSnoc(events: seq<Stored>, last: Stored)
    ensures forall k :: HasKey(events + [last], k) <==> HasKey(events, k) || k == last.key
  {
    assert (events + [last])[|events|] == last;
    forall k | HasKey(events, k) ensures HasKey(events + [last], k) {
      var i :| 0 <= i < |events| && events[i].key == k;
      assert (events + [last])[i].key == k;
    }
  }

  /** Writing the same batch again stores nothing. */
  lemma {:induction false} ReinsertIsNoChange(events: seq<Stored>, rows: seq<Stored>)
    requires forall i :: 0 <= i < |rows| ==> HasKey(events, rows[i].key)
    ensures InsertAll(events, rows) == events
  {
    if rows != [] {
      ReinsertIsNoChange(events, rows[..|rows| - 1]);
    }
  }

  lemma BatchIsIdempotent(events: seq<Stored>, rows: seq<Stored>)
    ensures InsertAll(InsertAll(events, rows), rows) == InsertAll(events, rows)
  {
    InsertAllAppends(events, rows);
    forall i | 0 <= i < |rows| ensures HasKey(InsertAll(events, rows), rows[i].key) {
      assert HasKey(rows, rows[i].key);
    }
    ReinsertIsNoChange(InsertAll(events, rows), rows);
  }

  // ---- which rows go in --------------------------------------------------------------------------------

  ghost predicate HasId(row: EventRow) {
    row.eventId.Some? && row.eventId.value != ""
  }

  /** What the unique column holds for a row of a batch. */
  ghost function IdColumn(row: EventRow): string {
    if HasId(row) then row.eventId.value else Joined(':', row.contractId, row.ledger, row.eventType)
  }

  /** A row of a batch goes in when neither a stored row nor an earlier row of the batch has its id. */
  ghost predicate GoesIn(before: seq<Stored>, rows: seq<EventRow>, i: nat)
    requires i < |rows|
  {
    !HasKey(before, IdColumn(rows[i])) && forall k :: 0 <= k < i ==> IdColumn(rows[k]) != IdColumn(rows[i])
  }

  /** The rows of a batch that go in, in order. */
  ghost function NewRows(before: seq<Stored>, rows: seq<EventRow>): seq<Stored> {
    if rows == [] then []
    else
      var front, last := NewRows(before, rows[..|rows| - 1]), rows[|rows| - 1];
      if GoesIn(before, rows, |rows| - 1) then front + [Stored(IdColumn(last), last)] else front
  }

  lemma KeyIsIdColumn(row: EventRow)
    ensures BatchKey(row) == IdColumn(row)
  {
  }

  lemma {:induction false} InsertAllTakesNewRows(before: seq<Stored>, rows: seq<EventRow>)
    ensures InsertAll(before, BatchRows(rows)) == before + NewRows(before, rows)
  {
    hide IdColumn, BatchKey;
    if rows != [] {
      var n := |rows| - 1;
      var front := rows[..n];
      InsertAllTakesNewRows(before, front);
      assert BatchRows(rows)[..n] == BatchRows(front);
      InsertAllAppends(before, BatchRows(front));
      LastKeyIsTaken(before, rows);
      KeyIsIdColumn(rows[n]);
      assert before + (NewRows(before, front) + [Stored(IdColumn(rows[n]), rows[n])])
             == before + NewRows(before, front) + [Stored(IdColumn(rows[n]), rows[n])];
    }
  }

  lemma LastKeyIsTaken(before: seq<Stored>, rows: seq<EventRow>)
    requires rows != []
    ensures var n := |rows| - 1;
            HasKey(before, BatchKey(rows[n])) || HasKey(BatchRows(rows[..n]), BatchKey(rows[n])) <==> !GoesIn(before, rows, n)
  {
    hide IdColumn, BatchKey;
    var n := |rows| - 1;
    KeyIsIdColumn(rows[n]);
    forall k | 0 <= k < n ensures BatchRows(rows[..n])[k].key == IdColumn(rows[k]) {
      KeyIsIdColumn(rows[k]);
    }
  }

  /** Rows with an id of their own, of which none is stored. */
  ghost predicate OwnIds(before: seq<Stored>, rows: seq<EventRow>) {
    && (forall i :: 0 <= i < |rows| ==> HasId(rows[i]) && !HasKey(before, rows[i].eventId.value))
    && (forall i, j :: 0 <= i < j < |rows| ==> rows[i].eventId != rows[j].eventId)
  }

  /** The table has grown by exactly these rows. */
  ghost predicate AddedAll(before: seq<Stored>, rows: seq<EventRow>, after: seq<Stored>) {
    |after| == |before| + |rows| && before <= after && forall i :: 0 <= i < |rows| ==> after[|before| + i].row == rows[i]
  }

  /** Such rows all go in, whatever else they have in common. */
  lemma {:induction false} OwnIdsGoIn(before: seq<Stored>, rows: seq<EventRow>)
    requires OwnIds(before, rows)
    ensures AddedAll(before, rows, before + NewRows(before, rows))
  {
    if rows != [] {
      OwnIdsGoIn(before, rows[..|rows| - 1]);
    }
  }

  /** Contract, ledger and type of rows without an id; no contract holds the separator, or no type does. */
  lemma SameIdExactlyWhen(a: EventRow, b: EventRow)
    ensures HasId(a) && HasId(b) ==> (IdColumn(a) == IdColumn(b) <==> a.eventId == b.eventId)
    ensures !HasId(a) && !HasId(b) && ((':' !in a.contractId && ':' !in b.contractId) || (':' !in a.eventType && ':' !in b.eventType)) ==>
              (IdColumn(a) == IdColumn(b) <==> a.contractId == b.contractId && a.ledger == b.ledger && a.eventType == b.eventType)
    ensures HasId(a) && !HasId(b) ==>
              (IdColumn(a) == IdColumn(b) <==> a.eventId.value == b.contractId + ":" + ToText(b.ledger) + ":" + b.eventType)
  {
    if !HasId(a) && !HasId(b) && ((':' !in a.contractId && ':' !in b.contractId) || (':' !in a.eventType && ':' !in b.eventType)) {
      JoinedSeparates(':', a.contractId, a.ledger, a.eventType, b.contractId, b.ledger, b.eventType);
    }
  }

  /** An event is taken for another one without an id exactly when its contract or its type looks like a part of a key. */
  lemma MistakenExactlyWhen(row: EventRow)
    requires !HasId(row)
    ensures (exists other :: !HasId(other) && BatchKey(other) == BatchKey(row)
                             && !(other.contractId == row.contractId && other.ledger == row.ledger && other.eventType == row.eventType))
            <==> HoldsNumber(row.contractId + ":", ':') || HoldsNumber(":" + row.eventType, ':')
  {
    hide HoldsNumber, BatchKey;
    KeyIsIdColumn(row);
    SharedExactlyWhen(':', row.contractId, row.ledger, row.eventType);
    if other :| !HasId(other) && BatchKey(other) == BatchKey(row)
                && !(other.contractId == row.contractId && other.ledger == row.ledger && other.eventType == row.eventType) {
      KeyIsIdColumn(other);
    }
    if Shared(':', row.contractId, row.ledger, row.eventType) {
      var a, n: nat, b :| Joined(':', a, n, b) == Joined(':', row.contractId, row.ledger, row.eventType)
                          && !(a == row.contractId && n == row.ledger && b == row.eventType);
      var other := EventRow(a, b, n, None, Unparseable, None);
      KeyIsIdColumn(other);
      assert !HasId(other);
    }
  }

  // ---- what the wallet query returns -------------------------------------------------------------------

  /** The most recent event of a contract, by ledger and then by id. */
  function LatestOf(events: seq<Stored>, contractId: string): Option<EventRow> {
    if events == [] then None
    else
      var rest, last := LatestOf(events[..|events| - 1], contractId), events[|events| - 1].row;
      if last.contractId == contractId && (rest.None? || last.ledger >= rest.value.ledger) then Some(last) else rest
  }

  /** The first event of a contract, by ledger and then by id. */
  function FirstOf(events: seq<Stored>, contractId: string): Option<EventRow> {
    if events == [] then None
    else
      var rest, last := FirstOf(events[..|events| - 1], contractId), events[|events| - 1].row;
      if last.contractId == contractId && (rest.None? || last.ledger < rest.value.ledger) then Some(last) else rest
  }

  ghost predicate IsLatest(events: seq<Stored>, contractId: string, i: nat) {
    && i < |events| && events[i].row.contractId == contractId
    && forall j :: 0 <= j < |events| && events[j].row.contractId == contractId ==>
         events[j].row.ledger < events[i].row.ledger || (events[j].row.ledger == events[i].row.ledger && j <= i)
  }

  ghost predicate IsFirst(events: seq<Stored>, contractId: string, i: nat) {
    && i < |events| && events[i].row.contractId == contractId
    && forall j :: 0 <= j < |events| && events[j].row.contractId == contractId ==>
         events[i].row.ledger < events[j].row.ledger || (events[i].row.ledger == events[j].row.ledger && i <= j)
  }

  lemma {:induction false} LatestIs(events: seq<Stored>, contractId: string, k: nat) returns (i: nat)
    requires k < |events| && events[k].row.contractId == contractId
    ensures IsLatest(events, contractId, i) && LatestOf(events, contractId) == Some(events[i].row)
  {
    var n := |events| - 1;
    var front, last := events[..n], events[n].row;
    assert forall j :: 0 <= j < n ==> events[j] == front[j];
    i := n;
    if j :| 0 <= j < n && front[j].row.contractId == contractId {
      var l := LatestIs(front, contractId, j);
      if last.contractId != contractId || last.ledger < front[l].row.ledger {
        i := l;
      }
    } else {
      NoneOf(front, contractId);
    }
  }

  lemma {:induction false} FirstIs(events: seq<Stored>, contractId: string, k: nat) returns (i: nat)
    requires k < |events| && events[k].row.contractId == contractId
    ensures IsFirst(events, contractId, i) && FirstOf(events, contractId) == Some(events[i].row)
  {
    var n := |events| - 1;
    var front, last := events[..n], events[n].row;
    assert forall j :: 0 <= j < n ==> events[j] == front[j];
    i := n;
    if j :| 0 <= j < n && front[j].row.contractId == contractId {
      var f := FirstIs(front, contractId, j);
      if last.contractId != contractId || last.ledger >= front[f].row.ledger {
        i := f;
      }
    } else {
      NoneOf(front, contractId);
    }
  }

  lemma {:induction false} NoneOf(events: seq<Stored>, contractId: string)
    requires forall i :: 0 <= i < |events| ==> events[i].row.contractId != contractId
    ensures LatestOf(events, contractId) == None && FirstOf(events, contractId) == None
  {
    if events != [] {
      NoneOf(events[..|events| - 1], contractId);
    }
  }

  datatype JobSummary = JobSummary(contractId: string, role: Role, milestoneCount: nat, latestEventType: string, latestLedger: nat,
                                   latestTimestamp: Option<int>)

  /** `client` over `freelancer` over `arbiter`. */
  ghost predicate RoleOf(events: seq<Stored>, address: string, contractId: string, role: Role) {
    && IsParty(events, Participant(contractId, address, role))
    && (role != Client ==> !IsParty(events, Participant(contractId, address, Client)))
    && (role == Arbiter ==> !IsParty(events, Participant(contractId, address, Freelancer)))
  }

  /** A job as the naive scan of the whole event table describes it. */
  ghost predicate Describes(events: seq<Stored>, address: string, job: JobSummary) {
    && RoleOf(events, address, job.contractId, job.role)
    && (exists i: nat :: IsLatest(events, job.contractId, i)
                         && job.latestEventType == events[i].row.eventType && job.latestLedger == events[i].row.ledger
                         && job.latestTimestamp == events[i].row.timestamp)
    && (exists i: nat :: IsFirst(events, job.contractId, i)
                         && job.milestoneCount == if events[i].row.data.Fields? then events[i].row.data.milestones else 0)
  }

  function Milestones(row: EventRow): nat {
    if row.data.Fields? then row.data.milestones else 0
  }

  ghost predicate NamedIn(events: seq<Stored>, address: string, contractId: string) {
    exists role :: IsParty(events, Participant(contractId, address, role))
  }

  /** `ORDER BY ledger_sequence DESC, contract_id ASC`. */
  predicate Before(a: JobSummary, b: JobSummary) {
    a.latestLedger > b.latestLedger || (a.latestLedger == b.latestLedger && Less(a.contractId, b.contractId))
  }

  ghost predicate Ordered(jobs: seq<JobSummary>) {
    forall i, j :: 0 <= i < j < |jobs| ==>
      jobs[i].latestLedger > jobs[j].latestLedger
      || (jobs[i].latestLedger == jobs[j].latestLedger && Less(jobs[i].contractId, jobs[j].contractId))
  }

  /** The wallet's jobs by the naive scan: each contract that names it once, in order. */
  ghost predicate IsListing(events: seq<Stored>, address: string, jobs: seq<JobSummary>) {
    && Ordered(jobs)
    && (forall job :: job in jobs ==> Describes(events, address, job))
    && (forall c :: NamedIn(events, address, c) ==> Mentions(jobs, c))
  }

  // ---- paging ---------------------------------------------------------------------------------------------

  function Clamp(n: int): int {
    if n < 1 then 1 else n
  }

  /** `LIMIT` and `OFFSET`. */
  function Limited<T>(list: seq<T>, limit: nat, offset: nat): seq<T> {
    if offset >= |list| then [] else if offset + limit >= |list| then list[offset..] else list[offset..offset + limit]
  }

  /** A page number or a limit below one counts as one. */
  function PageOf<T>(list: seq<T>, page: int, limit: int): seq<T> {
    Limited(list, Clamp(limit), Offset(Clamp(page) - 1, Clamp(limit)))
  }

  function Offset(pages: nat, limit: nat): nat {
    pages * limit
  }

  lemma OffsetGrows(pages: nat, limit: nat)
    requires pages > 0
    ensures Offset(pages, limit) == Offset(pages - 1, limit) + limit
  {
  }

  function Pages<T>(list: seq<T>, n: nat, limit: int): seq<T> {
    if n == 0 then [] else Pages(list, n - 1, limit) + PageOf(list, n, limit)
  }

  function FirstN<T>(list: seq<T>, n: nat): seq<T> {
    if n <= |list| then list[..n] else list
  }

  /** The first n pages, one after the other, are the first n * limit entries: no gap and no repeat. */
  lemma {:induction false} PagesPartition<T>(list: seq<T>, n: nat, limit: int)
    ensures Pages(list, n, limit) == FirstN(list, Offset(n, Clamp(limit)))
  {
    if n == 0 {
      assert Offset(n, Clamp(limit)) == 0;
    } else {
      var size: nat := Clamp(limit);
      PagesPartition(list, n - 1, limit);
      OffsetGrows(n, size);
      PageJoins(list, Offset(n - 1, size), size);
    }
  }

  lemma PageJoins<T>(list: seq<T>, offset: nat, limit: nat)
    ensures FirstN(list, offset) + Limited(list, limit, offset) == FirstN(list, offset + limit)
  {
  }

  /** A page holds the entries from its place in the list on, as many as there are up to the limit. */
  lemma PageSays<T>(list: seq<T>, page: int, limit: int)
    ensures var p, size := if page < 1 then 1 else page, if limit < 1 then 1 else limit;
            var start := (p - 1) * size;
            && 0 <= start
            && |PageOf(list, page, limit)| == (if start >= |list| then 0 else if start + size > |list| then |list| - start else size)
            && forall k :: 0 <= k < |PageOf(list, page, limit)| ==> start + k < |list| && PageOf(list, page, limit)[k] == list[start + k]
  {
    var p, size := if page < 1 then 1 else page, if limit < 1 then 1 else limit;
    assert Offset(p - 1, size) == (p - 1) * size;
  }

  /** There is only one listing, so pages of separate calls belong to the same list. */
  lemma ListingIsUnique(events: seq<Stored>, address: string, a: seq<JobSummary>, b: seq<JobSummary>)
    requires IsListing(events, address, a) && IsListing(events, address, b)
    ensures a == b
  {
    forall job ensures job in a <==> job in b {
      if job in a { ListedInBoth(events, address, a, b, job); }
      if job in b { ListedInBoth(events, address, b, a, job); }
    }
    OrderDecides(a, b);
  }

  lemma ListedInBoth(events: seq<Stored>, address: string, a: seq<JobSummary>, b: seq<JobSummary>, job: JobSummary)
    requires IsListing(events, address, a) && IsListing(events, address, b) && job in a
    ensures job in b
  {
    assert NamedIn(events, address, job.contractId);
    var other :| other in b && other.contractId == job.contractId;
    DescriptionIsUnique(events, address, job, other);
  }

  lemma DescriptionIsUnique(events: seq<Stored>, address: string, a: JobSummary, b: JobSummary)
    requires Describes(events, address, a) && Describes(events, address, b) && a.contractId == b.contractId
    ensures a == b
  {
    var i: nat :| IsLatest(events, a.contractId, i) && a.latestEventType == events[i].row.eventType && a.latestLedger == events[i].row.ledger
                   && a.latestTimestamp == events[i].row.timestamp;
    var j: nat :| IsLatest(events, b.contractId, j) && b.latestEventType == events[j].row.eventType && b.latestLedger == events[j].row.ledger
                   && b.latestTimestamp == events[j].row.timestamp;
    assert i == j;
    var f: nat :| IsFirst(events, a.contractId, f) && a.milestoneCount == Milestones(events[f].row);
    var g: nat :| IsFirst(events, b.contractId, g) && b.milestoneCount == Milestones(events[g].row);
    assert f == g;
  }

  lemma BeforeIsStrict(a: JobSummary, b: JobSummary)
    requires Before(a, b)
    ensures a != b && !Before(b, a)
  {
    if a.latestLedger == b.latestLedger {
      Asymmetric(a.contractId, b.contractId);
    }
  }

  lemma {:induction false} OrderDecides(a: seq<JobSummary>, b: seq<JobSummary>)
    requires Ordered(a) && Ordered(b) && forall job :: job in a <==> job in b
    ensures a == b
  {
    if a != [] && b != [] {
      assert a[0] in b && b[0] in a;
      HeadsAgree(a, b);
      TailHolds(a);
      TailHolds(b);
      OrderDecides(a[1..], b[1..]);
      assert a == [a[0]] + a[1..] && b == [b[0]] + b[1..];
    } else if a != [] {
      HeadIsIn(a);
    } else if b != [] {
      HeadIsIn(b);
    }
  }

  lemma HeadIsIn(a: seq<JobSummary>)
    requires a != []
    ensures exists job :: job in a
  {
    assert a[0] in a;
  }

  lemma HeadsAgree(a: seq<JobSummary>, b: seq<JobSummary>)
    requires Ordered(a) && Ordered(b) && a != [] && b != [] && a[0] in b && b[0] in a
    ensures a[0] == b[0]
  {
    if a[0] != b[0] {
      var i :| 0 <= i < |b| && b[i] == a[0];
      var j :| 0 <= j < |a| && a[j] == b[0];
      assert Before(b[0], b[i]) && Before(a[0], a[j]);
      BeforeIsStrict(a[0], b[0]);
    }
  }

  lemma TailHolds(a: seq<JobSummary>)
    requires Ordered(a) && a != []
    ensures Ordered(a[1..]) && forall job :: job in a[1..] <==> job in a && job != a[0]
  {
    forall job | job in a[1..] ensures job in a && job != a[0] {
      var i :| 0 <= i < |a[1..]| && a[1..][i] == job;
      assert a[i + 1] == job;
      BeforeIsStrict(a[0], a[i + 1]);
    }
    forall job | job in a && job != a[0] ensures job in a[1..] {
      var i :| 0 <= i < |a| && a[i] == job;
      assert a[1..][i - 1] == job;
    }
  }

  // ---- from the index to the listing ------------------------------------------------------------------------

  predicate HasEvents(events: seq<Stored>, contractId: string) {
    LatestOf(events, contractId).Some? && FirstOf(events, contractId).Some?
  }

  /** The role a wallet has in a contract, by its index entries. */
  function IndexedRole(participants: set<Participant>, address: string, contractId: string): Role {
    if Participant(contractId, address, Client) in participants then Client
    else if Participant(contractId, address, Freelancer) in participants then Freelancer
    else Arbiter
  }

  /** One row of the joined query. */
  function SummaryOf(events: seq<Stored>, participants: set<Participant>, address: string, contractId: string): (job: JobSummary)
    requires HasEvents(events, contractId)
    ensures job.contractId == contractId
  {
    var latest, first := LatestOf(events, contractId).value, FirstOf(events, contractId).value;
    JobSummary(contractId, IndexedRole(participants, address, contractId), Milestones(first), latest.eventType, latest.ledger,
               latest.timestamp)
  }

  lemma NamedHasEvents(events: seq<Stored>, address: string, c: string) returns (k: nat)
    requires NamedIn(events, address, c)
    ensures k < |events| && events[k].row.contractId == c && HasEvents(events, c)
  {
    var r :| IsParty(events, Participant(c, address, r));
    k :| 0 <= k < |events| && events[k].row.contractId == c && Names(events[k].row, address, r);
    var l := LatestIs(events, c, k);
    var f := FirstIs(events, c, k);
  }

  lemma NamedHaveEvents(events: seq<Stored>, address: string, contracts: set<string>)
    requires forall c :: c in contracts ==> NamedIn(events, address, c)
    ensures forall c :: c in contracts ==> HasEvents(events, c)
  {
    forall c | c in contracts ensures HasEvents(events, c) {
      var k := NamedHasEvents(events, address, c);
    }
  }

  lemma IndexedRoleIsRole(events: seq<Stored>, participants: set<Participant>, address: string, c: string)
    requires Indexed(events, participants) && NamedIn(events, address, c)
    ensures RoleOf(events, address, c, IndexedRole(participants, address, c))
  {
    var r :| IsParty(events, Participant(c, address, r));
    assert Participant(c, address, r) in participants;
    if r != Client && r != Freelancer {
      assert r == Arbiter;
    }
  }

  /** What the index and the join say of a job is what the naive scan says. */
  lemma SummaryDescribes(events: seq<Stored>, participants: set<Participant>, address: string, c: string)
    requires Indexed(events, participants) && NamedIn(events, address, c) && HasEvents(events, c)
    ensures Describes(events, address, SummaryOf(events, participants, address, c))
  {
    IndexedRoleIsRole(events, participants, address, c);
    var k := NamedHasEvents(events, address, c);
    var l := LatestIs(events, c, k);
    var f := FirstIs(events, c, k);
  }

  lemma SummariesAreTheListing(events: seq<Stored>, participants: set<Participant>, address: string, contracts: set<string>,
                               list: seq<JobSummary>)
    requires Indexed(events, participants) && Covers(list, contracts)
    requires forall c :: c in contracts <==> NamedIn(events, address, c)
    requires forall job :: job in list ==>
               HasEvents(events, job.contractId) && job == SummaryOf(events, participants, address, job.contractId)
    ensures IsListing(events, address, list)
  {
    forall job | job in list ensures Describes(events, address, job) {
      SummaryDescribes(events, participants, address, job.contractId);
    }
  }

  /** One job in the list for each of the contracts, in order. */
  ghost predicate Covers(list: seq<JobSummary>, contracts: set<string>) {
    && Ordered(list) && |list| == |contracts|
    && (forall job :: job in list ==> job.contractId in contracts)
    && (forall c :: c in contracts ==> Mentions(list, c))
  }

  ghost predicate Mentions(list: seq<JobSummary>, contractId: string) {
    exists job :: job in list && job.contractId == contractId
  }

  lemma NothingCovered()
    ensures Covers([], {})
  {
  }

  lemma CoversMore(list: seq<JobSummary>, contracts: set<string>, c: string, job: JobSummary)
    requires Covers(list, contracts) && job.contractId == c && c !in contracts
    ensures Covers(InsertJob(job, list), contracts + {c})
    ensures forall other :: other in InsertJob(job, list) <==> other == job || other in list
  {
    InsertJobKeepsOrder(job, list);
    forall other | other in contracts ensures Mentions(InsertJob(job, list), other) {
      assert Mentions(list, other);
      var j :| j in list && j.contractId == other;
      assert j in InsertJob(job, list);
    }
    assert job in InsertJob(job, list);
  }

  function InsertJob(job: JobSummary, jobs: seq<JobSummary>): seq<JobSummary> {
    if jobs == [] || Before(job, jobs[0]) then [job] + jobs else [jobs[0]] + InsertJob(job, jobs[1..])
  }

  lemma BeforeIsTransitive(a: JobSummary, b: JobSummary, c: JobSummary)
    requires Before(a, b) && Before(b, c)
    ensures Before(a, c)
  {
    if a.latestLedger == b.latestLedger == c.latestLedger {
      Transitive(a.contractId, b.contractId, c.contractId);
    }
  }

  lemma {:induction false} InsertJobKeepsOrder(job: JobSummary, jobs: seq<JobSummary>)
    requires Ordered(jobs) && forall other :: other in jobs ==> other.contractId != job.contractId
    ensures Ordered(InsertJob(job, jobs)) && |InsertJob(job, jobs)| == |jobs| + 1
    ensures forall other :: other in InsertJob(job, jobs) <==> other == job || other in jobs
  {
    if jobs == [] {
    } else if Before(job, jobs[0]) {
      forall j | 0 < j < |jobs| ensures Before(job, jobs[j]) {
        BeforeIsTransitive(job, jobs[0], jobs[j]);
      }
    } else {
      assert jobs[0] in jobs;
      Trichotomy(job.contractId, jobs[0].contractId);
      assert forall other :: other in jobs <==> other == jobs[0] || other in jobs[1..];
      InsertJobKeepsOrder(job, jobs[1..]);
      var rest := InsertJob(job, jobs[1..]);
      forall j | 0 <= j < |rest| ensures Before(jobs[0], rest[j]) {
        assert rest[j] in rest;
      }
    }
  }

  // ---- the event store -------------------------------------------------------------------------------------

  /** `validateHistoricalRange` on integers. */
  predicate ValidRange(startLedger: int, endLedger: int) {
    1 <= startLedger <= endLedger
  }

  class EventStore {
    var events: seq<Stored>
    var participants: set<Participant>
    var lastLedger: nat

    ghost predicate Valid()
      reads this
    {
      DistinctKeys(events) && Indexed(events, participants)
    }

    constructor ()
      ensures Valid() && events == [] && lastLedger == 0
    {
      events, participants, lastLedger := [], {}, 0;
    }

    method HasEvent(key: string) returns (found: bool)
      ensures found <==> HasKey(events, key)
    {
      found := false;
      for i := 0 to |events|
        invariant found <==> exists j :: 0 <= j < i && events[j].key == key
      {
        found := found || events[i].key == key;
      }
    }

    /** One `INSERT OR IGNORE`; a row that went in has its parties recorded, role by role. */
    method InsertRow(stored: Stored) returns (inserted: bool)
      requires Valid()
      modifies `events, `participants
      ensures Valid()
      ensures inserted <==> !HasKey(old(events), stored.key)
      ensures events == if inserted then old(events) + [stored] else old(events)
      ensures !inserted ==> participants == old(participants)
    {
      var found := HasEvent(stored.key);
      inserted := !found;
      if inserted {
        IndexedGrows(events, participants, stored);
        events := events + [stored];
        participants := participants + Recorded(stored.row, Client) + Recorded(stored.row, Freelancer) + Recorded(stored.row, Arbiter);
      }
    }

    method InsertRows(rows: seq<Stored>) returns (inserted: nat)
      requires Valid()
      modifies `events, `participants
      ensures Valid()
      ensures events == InsertAll(old(events), rows)
      ensures inserted == |events| - |old(events)|
    {
      inserted := 0;
      for i := 0 to |rows|
        invariant Valid() && events == InsertAll(old(events), rows[..i])
        invariant inserted == |events| - |old(events)|
      {
        assert rows[..i + 1][..i] == rows[..i];
        var went := InsertRow(rows[i]);
        inserted := inserted + if went then 1 else 0;
      }
      assert rows[..|rows|] == rows;
    }

    /** The loop of both batch inserts. */
    method InsertBatch(rows: seq<EventRow>) returns (inserted: nat)
      requires Valid()
      modifies `events, `participants
      ensures Valid()
      ensures events == InsertAll(old(events), BatchRows(rows)) == old(events) + NewRows(old(events), rows)
      ensures OwnIds(old(events), rows) ==> AddedAll(old(events), rows, events)
      ensures inserted == |events| - |old(events)|
    {
      hide BatchRows, OwnIds, AddedAll;
      InsertAllTakesNewRows(events, rows);
      if OwnIds(events, rows) {
        OwnIdsGoIn(events, rows);
      }
      inserted := InsertRows(BatchRows(rows));
    }

    /** `insertEvent`. */
    method InsertEvent(row: EventRow) returns (inserted: bool)
      requires Valid()
      modifies `events, `participants
      ensures Valid()
      ensures var id := if row.eventId.Some? then row.eventId.value else Joined(':', row.contractId, row.ledger, row.eventType);
              && (inserted <==> !HasKey(old(events), id))
              && events == if inserted then old(events) + [Stored(id, row)] else old(events)
      ensures events == InsertAll(old(events), [Stored(SingleKey(row), row)])
    {
      assert [Stored(SingleKey(row), row)][..0] == [];
      inserted := InsertRow(Stored(SingleKey(row), row));
    }

    /** `insertEventBatch`: the rows, and the live ledger pointer with them. */
    method InsertEventBatch(rows: seq<EventRow>, newLedger: nat)
      requires Valid()
      modifies this
      ensures Valid()
      ensures events == InsertAll(old(events), BatchRows(rows)) && lastLedger == newLedger
      ensures events == old(events) + NewRows(old(events), rows)
      ensures OwnIds(old(events), rows) ==> AddedAll(old(events), rows, events)
    {
      var inserted := InsertBatch(rows);
      lastLedger := newLedger;
    }

    /**
     `insertHistoricalEventBatch`: rows outside the declared range reject the batch, and the live pointer
     moves only when asked to, and only forward.
     */
    method InsertHistoricalEventBatch(rows: seq<EventRow>, startLedger: int, endLedger: int, advance: bool)
      returns (r: Result<nat, string>)
      requires Valid()
      modifies this
      ensures Valid()
      ensures r.Ok? <==> 1 <= startLedger <= endLedger && forall row :: row in rows ==> startLedger <= row.ledger <= endLedger
      ensures r.Err? ==> events == old(events) && participants == old(participants) && lastLedger == old(lastLedger)
      ensures r.Ok? ==> events == InsertAll(old(events), BatchRows(rows)) && r.value == |events| - |old(events)|
      ensures r.Ok? ==> events == old(events) + NewRows(old(events), rows)
      ensures r.Ok? && OwnIds(old(events), rows) ==> AddedAll(old(events), rows, events)
      ensures r.Ok? ==> lastLedger == if advance && endLedger > old(lastLedger) then endLedger else old(lastLedger)
    {
      hide OwnIds, AddedAll, NewRows, BatchRows, InsertAll;
      if !ValidRange(startLedger, endLedger) {
        return Err("invalid range");
      }
      for i := 0 to |rows|
        invariant forall row :: row in rows[..i] ==> startLedger <= row.ledger <= endLedger
      {
        if !(startLedger <= rows[i].ledger <= endLedger) {
          return Err("event outside the declared range");
        }
      }
      assert rows[..|rows|] == rows;
      var inserted := InsertBatch(rows);
      if advance && endLedger > lastLedger {
        lastLedger := endLedger;
      }
      return Ok(inserted);
    }

    /** `SELECT DISTINCT contract_id ... WHERE address = ?`. */
    method WalletContracts(address: string) returns (contracts: set<string>)
      requires Valid()
      ensures forall c :: c in contracts <==> NamedIn(events, address, c)
    {
      contracts := set p | p in participants && p.address == address :: p.contractId;
      forall c | NamedIn(events, address, c) ensures c in contracts {
        var r :| IsParty(events, Participant(c, address, r));
        assert Participant(c, address, r) in participants;
      }
      forall c | c in contracts ensures NamedIn(events, address, c) {
        var p :| p in participants && p.address == address && p.contractId == c;
        assert Participant(c, address, p.role) == p;
      }
    }

    /** The joined and ordered rows of the wallet's contracts. */
    method ListContracts(address: string, contracts: set<string>) returns (list: seq<JobSummary>)
      requires forall c :: c in contracts ==> HasEvents(events, c)
      ensures Covers(list, contracts)
      ensures forall job :: job in list ==> job == SummaryOf(events, participants, address, job.contractId)
    {
      hide Covers, SummaryOf, InsertJob, HasEvents;
      var todo := contracts;
      ghost var done: set<string> := {};
      list := [];
      NothingCovered();
      while todo != {}
        invariant done !! todo && done + todo == contracts
        invariant Covers(list, done)
        invariant forall job :: job in list ==> job.contractId in done && job == SummaryOf(events, participants, address, job.contractId)
        decreases |todo|
      {
        var c :| c in todo;
        var job := SummaryOf(events, participants, address, c);
        CoversMore(list, done, c, job);
        list := InsertJob(job, list);
        done, todo := done + {c}, todo - {c};
      }
      assert done == contracts;
    }

    /** `getJobsByWallet` past its cache: the page of the wallet's listing, and how many jobs there are in all. */
    method GetJobsByWallet(address: string, page: int, limit: int)
      returns (jobs: seq<JobSummary>, total: nat)
      requires Valid()
      ensures exists listing :: IsListing(events, address, listing) && jobs == PageOf(listing, page, limit) && total == |listing|
    {
      var contracts := WalletContracts(address);
      NamedHaveEvents(events, address, contracts);
      var list := ListContracts(address, contracts);
      SummariesAreTheListing(events, participants, address, contracts, list);
      return PageOf(list, page, limit), |contracts|;
    }
  }
}
