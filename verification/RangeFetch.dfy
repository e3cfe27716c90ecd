/**
 Historical fetches: a ledger range is cut into chunks, and each chunk is walked with the RPC cursor.

 The RPC holds a log ordered by ledger whose events have distinct ids. A request returns up to `limit`
 events from a position on, and as its cursor the position after the last of them.
 */
module RangeFetch {
  import opened Wrappers
  import opened EventLog
  import opened Sums

  datatype Range = Range(startLedger: int, endLedger: int)

  datatype RangeError = InvalidStart | InvalidEnd | Inverted | InvalidPageSize | InvalidLimit

  const MAX_RPC_REQUESTS_PER_PAGE := 1_000

  // ---- ranges and chunks ---------------------------------------------------------------------------

  /** `validateLedgerRange`. */
  function ValidateRange(r: Range): Option<RangeError> {
    if r.startLedger < 1 then Some(InvalidStart)
    else if r.endLedger < 1 then Some(InvalidEnd)
    else if r.startLedger > r.endLedger then Some(Inverted)
    else None
  }

  /** Where the page after the first n has to start. */
  function NextStart(pages: seq<Range>, start: int, n: nat): int
    requires n <= |pages|
  {
    if n == 0 then start else pages[n - 1].endLedger + 1
  }

  /** Pages follow one another without gap or overlap, from `start` to the end of the range. */
  ghost predicate Tiles(pages: seq<Range>, start: int, end: int) {
    && (forall i {:trigger NextStart(pages, start, i)} ::
          0 <= i < |pages| ==> NextStart(pages, start, i) == pages[i].startLedger <= pages[i].endLedger)
    && NextStart(pages, start, |pages|) == end + 1
  }

  /** Pages are full, but for the last, which ends with the range. */
  ghost predicate FullPages(pages: seq<Range>, pageSize: int, end: int) {
    forall i :: 0 <= i < |pages| ==>
      if i < |pages| - 1 then pages[i].endLedger == pages[i].startLedger + pageSize - 1
      else pages[i].endLedger == end && pages[i].endLedger <= pages[i].startLedger + pageSize - 1
  }

  lemma TilesExtend(pages: seq<Range>, start: int, end: int, page: Range)
    requires Tiles(pages, start, end) && page.startLedger == end + 1 <= page.endLedger
    ensures Tiles(pages + [page], start, page.endLedger)
  {
    forall i | 0 <= i <= |pages| ensures NextStart(pages + [page], start, i) == NextStart(pages, start, i) {}
    assert NextStart(pages + [page], start, |pages + [page]|) == page.endLedger + 1;
  }

  /** `chunkLedgerRange`: the pages of the range, none for an inverted one. */
  method ChunkLedgerRange(range: Range, pageSize: int) returns (r: Result<seq<Range>, RangeError>)
    ensures r.Err? <==> pageSize < 1
    ensures r.Err? ==> r.error == InvalidPageSize
    ensures r.Ok? && range.startLedger <= range.endLedger ==>
              Tiles(r.value, range.startLedger, range.endLedger) && FullPages(r.value, pageSize, range.endLedger)
    ensures r.Ok? && range.startLedger > range.endLedger ==> r.value == []
  {
    if pageSize < 1 {
      return Err(InvalidPageSize);
    }
    var pages: seq<Range> := [];
    var start := range.startLedger;
    while start <= range.endLedger
      invariant if range.startLedger > range.endLedger then pages == []
                else Tiles(pages, range.startLedger, if start <= range.endLedger then start - 1 else range.endLedger)
      invariant start <= range.endLedger ==>
                  forall i :: 0 <= i < |pages| ==> pages[i].endLedger == pages[i].startLedger + pageSize - 1
      invariant start > range.endLedger ==> FullPages(pages, pageSize, range.endLedger)
    {
      var end := if start + pageSize - 1 <= range.endLedger then start + pageSize - 1 else range.endLedger;
      TilesExtend(pages, range.startLedger, start - 1, Range(start, end));
      pages := pages + [Range(start, end)];
      start := start + pageSize;
    }
    return Ok(pages);
  }

  // ---- the RPC ------------------------------------------------------------------------------------

  /** `getEvents`: a batch, and the cursor after it. */
  function Respond(log: seq<Event>, position: nat, limit: nat): (seq<Event>, nat)
    requires position <= |log|
  {
    var end := if position + limit < |log| then position + limit else |log|;
    (log[position..end], end)
  }

  /** `filterEventsToRange`. */
  function FilterToRange(events: seq<Event>, range: Range): seq<Event> {
    if events == [] then []
    else (if range.startLedger <= events[0].ledger <= range.endLedger then [events[0]] else [])
         + FilterToRange(events[1..], range)
  }

  lemma {:induction false} FilterOfStretch(events: seq<Event>, range: Range, a: nat, b: nat)
    requires a <= b <= |events|
    requires forall i :: 0 <= i < |events| ==> (range.startLedger <= events[i].ledger <= range.endLedger <==> a <= i < b)
    ensures FilterToRange(events, range) == events[a..b]
  {
    if events != [] {
      assert forall i :: 0 < i < |events| ==> events[i] == events[1..][i - 1];
      var a', b' := if a == 0 then 0 else a - 1, if b == 0 then 0 else b - 1;
      FilterOfStretch(events[1..], range, a', b');
      assert events[a..b] == (if a == 0 < b then [events[0]] else []) + events[1..][a'..b'];
    }
  }

  /** The part of an ordered log inside a range is one stretch of it. */
  lemma RangeIsAStretch(log: seq<Event>, range: Range)
    requires ValidLog(log) && range.startLedger <= range.endLedger + 1
    ensures Position(log, range.startLedger) <= Position(log, range.endLedger + 1)
    ensures FilterToRange(log, range) == log[Position(log, range.startLedger)..Position(log, range.endLedger + 1)]
  {
    PositionIsMonotone(log, range.startLedger, range.endLedger + 1);
    PositionSplits(log, range.startLedger);
    PositionSplits(log, range.endLedger + 1);
    FilterOfStretch(log, range, Position(log, range.startLedger), Position(log, range.endLedger + 1));
  }

  // ---- the walk ------------------------------------------------------------------------------------

  /** The most events a number of requests can carry. */
  function Carried(requests: nat, limit: nat): nat {
    if requests == 0 then 0 else Carried(requests - 1, limit) + limit
  }

  lemma {:induction false} CarriedIsProduct(requests: nat, limit: nat)
    ensures Carried(requests, limit) == requests * limit
  {
    if requests > 0 {
      CarriedIsProduct(requests - 1, limit);
      assert (requests - 1) * limit + limit == requests * limit;
    }
  }

  lemma {:induction false} CarriedIsMonotone(requests: nat, more: nat, limit: nat)
    requires requests <= more
    ensures Carried(requests, limit) <= Carried(more, limit)
    decreases more
  {
    if requests < more {
      CarriedIsMonotone(requests, more - 1, limit);
    }
  }

  /** What walking one chunk collects: its events, up to what its requests can carry. */
  function Walked(log: seq<Event>, page: Range, cap: nat): seq<Event> {
    Stretch(log, Position(log, page.startLedger), Position(log, page.endLedger + 1), cap)
  }

  /** The log from a to b, cut after `cap` events. */
  function Stretch(log: seq<Event>, a: nat, b: nat, cap: nat): seq<Event>
    requires b <= |log|
  {
    if a > b then [] else log[a..if a + cap < b then a + cap else b]
  }

  /** The walks of the first n chunks, one after the other. */
  ghost function WalkedAll(log: seq<Event>, pages: seq<Range>, n: nat, cap: nat): seq<Event>
    requires n <= |pages|
  {
    if n == 0 then [] else WalkedAll(log, pages, n - 1, cap) + Walked(log, pages[n - 1], cap)
  }

  /** The ids of the first events of the log. */
  ghost function IdsBefore(log: seq<Event>, position: nat): set<string>
    requires position <= |log|
  {
    if position == 0 then {} else IdsBefore(log, position - 1) + {log[position - 1].id}
  }

  lemma {:induction false} NextIdIsNew(log: seq<Event>, position: nat, k: nat)
    requires ValidLog(log) && position <= k < |log|
    ensures log[k].id !in IdsBefore(log, position)
  {
    if position > 0 {
      NextIdIsNew(log, position - 1, k);
    }
  }

  lemma {:induction false} IdsBeforeGrows(log: seq<Event>, position: nat, later: nat)
    requires position <= later <= |log|
    ensures IdsBefore(log, position) <= IdsBefore(log, later)
    decreases later
  {
    if position < later {
      IdsBeforeGrows(log, position, later - 1);
    }
  }

  /** The positions a to b of the log are the events of the page. */
  ghost predicate Delimits(log: seq<Event>, page: Range, a: nat, b: nat) {
    && a <= b <= |log|
    && forall i :: a <= i < |log| ==> page.startLedger <= log[i].ledger && (log[i].ledger <= page.endLedger <==> i < b)
  }

  lemma PositionsDelimit(log: seq<Event>, page: Range)
    requires ValidLog(log) && page.startLedger <= page.endLedger
    ensures Delimits(log, page, Position(log, page.startLedger), Position(log, page.endLedger + 1))
  {
    PositionIsMonotone(log, page.startLedger, page.endLedger + 1);
    PositionSplits(log, page.startLedger);
    PositionSplits(log, page.endLedger + 1);
  }

  /** A batch whose first `keep` events lie in the page and are new, the others beyond it. */
  ghost predicate FreshBatch(batch: seq<Event>, page: Range, keep: nat, seen: set<string>) {
    && keep <= |batch|
    && (forall i :: 0 <= i < |batch| ==> page.startLedger <= batch[i].ledger && (batch[i].ledger <= page.endLedger <==> i < keep))
    && (forall i :: 0 <= i < |batch| ==> batch[i].id !in seen)
    && (forall i, j :: 0 <= i < j < |batch| ==> batch[i].id != batch[j].id)
  }

  function Ids(events: seq<Event>): set<string> {
    set i | 0 <= i < |events| :: events[i].id
  }

  /** What a batch adds to the ids seen before it: its events in the page, each id once. */
  ghost function TakenOf(batch: seq<Event>, page: Range, seen: set<string>): seq<Event> {
    if batch == [] then []
    else
      var front, last := TakenOf(batch[..|batch| - 1], page, seen), batch[|batch| - 1];
      if page.startLedger <= last.ledger <= page.endLedger && last.id !in seen + Ids(front) then front + [last] else front
  }

  lemma IdsSnoc(events: seq<Event>, e: Event)
    ensures Ids(events + [e]) == Ids(events) + {e.id}
  {
    var all := events + [e];
    assert all[|events|] == e && forall i :: 0 <= i < |events| ==> all[i] == events[i];
    forall id | id in Ids(events) ensures id in Ids(all) {
      var i :| 0 <= i < |events| && events[i].id == id;
      assert all[i].id == id;
    }
    assert all[|events|].id in Ids(all);
  }

  /** Whatever the batch holds: taken events are its own, in the page, new, and of distinct ids; none in the page is missed. */
  lemma {:induction false} TakenOfIs(batch: seq<Event>, page: Range, seen: set<string>)
    ensures var taken := TakenOf(batch, page, seen);
            && (forall e :: e in taken ==> e in batch && page.startLedger <= e.ledger <= page.endLedger && e.id !in seen)
            && (forall i, j :: 0 <= i < j < |taken| ==> taken[i].id != taken[j].id)
            && (forall e :: e in batch && page.startLedger <= e.ledger <= page.endLedger ==> e.id in seen + Ids(taken))
  {
    if batch != [] {
      var front, last := batch[..|batch| - 1], batch[|batch| - 1];
      TakenOfIs(front, page, seen);
      IdsSnoc(TakenOf(front, page, seen), last);
    }
  }

  lemma FrontIsFresh(batch: seq<Event>, page: Range, keep: nat, seen: set<string>)
    requires FreshBatch(batch, page, keep, seen) && batch != []
    ensures FreshBatch(batch[..|batch| - 1], page, if keep < |batch| then keep else keep - 1, seen)
  {
  }

  lemma LastIdIsNew(batch: seq<Event>, page: Range, keep: nat, seen: set<string>)
    requires FreshBatch(batch, page, keep, seen) && batch != []
    ensures batch[|batch| - 1].id !in seen + Ids(batch[..|batch| - 1])
    ensures page.startLedger <= batch[|batch| - 1].ledger && (batch[|batch| - 1].ledger <= page.endLedger <==> keep == |batch|)
  {
  }

  /** Of a fresh batch everything in the page is taken. */
  lemma {:induction false} FreshIsTakenWhole(batch: seq<Event>, page: Range, keep: nat, seen: set<string>)
    requires FreshBatch(batch, page, keep, seen)
    ensures TakenOf(batch, page, seen) == batch[..keep]
  {
    hide FreshBatch, Ids;
    if batch == [] {
      KeepFits(batch, page, keep, seen);
    } else {
      var n := |batch| - 1;
      FrontIsFresh(batch, page, keep, seen);
      LastIdIsNew(batch, page, keep, seen);
      if keep < |batch| {
        FreshIsTakenWhole(batch[..n], page, keep, seen);
        assert batch[..n][..keep] == batch[..keep];
      } else {
        KeepFits(batch, page, keep, seen);
        FreshIsTakenWhole(batch[..n], page, n, seen);
        assert batch[..n][..n] == batch[..n] && batch[..keep] == batch[..n] + [batch[n]];
      }
    }
  }

  lemma KeepFits(batch: seq<Event>, page: Range, keep: nat, seen: set<string>)
    requires FreshBatch(batch, page, keep, seen)
    ensures keep <= |batch|
  {
  }

  ghost predicate GoesPast(batch: seq<Event>, page: Range) {
    exists e :: e in batch && e.ledger > page.endLedger
  }

  lemma PastExactlyWhen(batch: seq<Event>, page: Range, keep: nat, seen: set<string>)
    requires FreshBatch(batch, page, keep, seen)
    ensures GoesPast(batch, page) <==> keep < |batch|
  {
    if keep < |batch| {
      assert batch[keep] in batch;
    }
  }

  /** The loop over one batch: keep what is in the page and new, and notice what lies beyond it. */
  method TakeBatch(batch: seq<Event>, page: Range, seen0: set<string>)
    returns (taken: seq<Event>, seen: set<string>, past: bool)
    ensures taken == TakenOf(batch, page, seen0) && seen == seen0 + Ids(taken)
    ensures past <==> GoesPast(batch, page)
  {
    taken, seen, past := [], seen0, false;
    for j := 0 to |batch|
      invariant taken == TakenOf(batch[..j], page, seen0) && seen == seen0 + Ids(taken)
      invariant past <==> GoesPast(batch[..j], page)
    {
      var raw := batch[j];
      assert batch[..j + 1][..j] == batch[..j] && batch[..j + 1] == batch[..j] + [raw];
      if raw.ledger > page.endLedger {
        past := true;
        continue;
      }
      if raw.ledger < page.startLedger {
        continue;
      }
      if raw.id in seen {
        continue;
      }
      IdsSnoc(taken, raw);
      seen := seen + {raw.id};
      taken := taken + [raw];
    }
    assert batch[..|batch|] == batch;
  }

  /** What the next request from position p brings. */
  lemma BatchIsFresh(log: seq<Event>, page: Range, a: nat, b: nat, p: nat, limit: nat, seen: set<string>)
    requires ValidLog(log) && Delimits(log, page, a, b) && a <= p <= b && seen <= IdsBefore(log, p)
    ensures var (batch, end) := Respond(log, p, limit);
            && FreshBatch(batch, page, (if end < b then end else b) - p, seen)
            && batch == log[p..end]
  {
    var (batch, end) := Respond(log, p, limit);
    forall i | 0 <= i < |batch| ensures batch[i] == log[p + i] && batch[i].id !in seen {
      NextIdIsNew(log, p, p + i);
    }
  }

  lemma {:induction false} TakenAreBefore(log: seq<Event>, p: nat, q: nat, seen: set<string>)
    requires p <= q <= |log| && seen <= IdsBefore(log, p)
    ensures seen + Ids(log[p..q]) <= IdsBefore(log, q)
    decreases q
  {
    if p < q {
      TakenAreBefore(log, p, q - 1, seen);
      forall id | id in Ids(log[p..q]) ensures id in Ids(log[p..q - 1]) || id == log[q - 1].id {
        var i :| 0 <= i < q - p && log[p..q][i].id == id;
        assert i < q - 1 - p ==> log[p..q - 1][i].id == id;
      }
    }
  }

  /** One request and its batch. It is the last one unless the whole batch lay in the page. */
  method FetchBatch(log: seq<Event>, page: Range, limit: nat, events0: seq<Event>, seen0: set<string>, position: nat,
                    ghost a: nat, ghost b: nat)
    returns (events: seq<Event>, seen: set<string>, cursor: nat, more: bool)
    requires ValidLog(log) && Delimits(log, page, a, b) && a <= position <= b && limit >= 1
    requires events0 == log[a..position] && seen0 <= IdsBefore(log, position)
    ensures more <==> position + limit <= b
    ensures var q := if more then position + limit else b;
            events == log[a..q] && seen <= IdsBefore(log, q) && (more ==> cursor == q)
  {
    hide TakenOf, FreshBatch, GoesPast, Ids, IdsBefore;
    var (batch, nextCursor) := Respond(log, position, limit);
    ghost var q := if nextCursor < b then nextCursor else b;
    BatchIsFresh(log, page, a, b, position, limit, seen0);
    var taken, past;
    FreshIsTakenWhole(batch, page, q - position, seen0);
    taken, seen, past := TakeBatch(batch, page, seen0);
    assert taken == log[position..q];
    assert past <==> q < nextCursor by {
      PastExactlyWhen(batch, page, q - position, seen0);
    }
    SlicesJoin(log, a, position, q);
    TakenAreBefore(log, position, q, seen0);
    events, cursor, more := events0 + taken, nextCursor, !(|batch| < limit || past) && batch != [];
  }

  /** The request loop of one chunk whose events lie at positions a to b. */
  method WalkStretch(log: seq<Event>, page: Range, limit: nat, maxRequests: nat, seen0: set<string>,
                     a: nat, ghost b: nat)
    returns (events: seq<Event>, seen: set<string>, requestCount: nat)
    requires ValidLog(log) && Delimits(log, page, a, b) && limit >= 1 && maxRequests >= 1
    requires seen0 <= IdsBefore(log, a)
    ensures events == Stretch(log, a, b, Carried(maxRequests, limit))
    ensures seen <= IdsBefore(log, b)
    ensures 1 <= requestCount <= maxRequests
  {
    assert a <= b <= |log|;
    hide ValidLog, Delimits, IdsBefore;
    events, seen, requestCount := [], seen0, 0;
    ghost var p, carried: nat := a, 0;
    var cursor: Option<nat> := None;
    while requestCount < maxRequests
      invariant requestCount <= maxRequests && carried == Carried(requestCount, limit)
      invariant cursor == if requestCount == 0 then None else Some(p)
      invariant a <= p <= b && p == a + carried
      invariant events == log[a..p] && seen <= IdsBefore(log, p)
    {
      var position := if cursor.Some? then cursor.value else a;
      var next, more;
      events, seen, next, more := FetchBatch(log, page, limit, events, seen, position, a, b);
      requestCount, carried := requestCount + 1, carried + limit;
      CarriedIsMonotone(requestCount, maxRequests, limit);
      p := if more then a + carried else b;
      if !more || cursor == Some(next) {
        break;
      }
      cursor := Some(next);
    }
    IdsBeforeGrows(log, p, b);
  }

  /** One chunk: its first request asks for `startLedger`, the others for the cursor. */
  method WalkPage(log: seq<Event>, page: Range, limit: nat, maxRequests: nat, seen0: set<string>)
    returns (events: seq<Event>, seen: set<string>, requestCount: nat)
    requires ValidLog(log) && page.startLedger <= page.endLedger && limit >= 1 && maxRequests >= 1
    requires seen0 <= IdsBefore(log, Position(log, page.startLedger))
    ensures events == Walked(log, page, Carried(maxRequests, limit))
    ensures seen <= IdsBefore(log, Position(log, page.endLedger + 1))
    ensures 1 <= requestCount <= maxRequests
  {
    PositionsDelimit(log, page);
    events, seen, requestCount := WalkStretch(log, page, limit, maxRequests, seen0,
                                              Position(log, page.startLedger), Position(log, page.endLedger + 1));
  }

  /** The loop over the chunks. */
  method WalkPages(log: seq<Event>, pages: seq<Range>, limit: nat, maxRequests: nat, ghost start: int, ghost end: int)
    returns (events: seq<Event>)
    requires ValidLog(log) && maxRequests >= 1 && limit >= 1 && Tiles(pages, start, end)
    ensures events == WalkedAll(log, pages, |pages|, Carried(maxRequests, limit))
  {
    events := [];
    var seen: set<string> := {};
    hide ValidLog, Position, Walked, Carried;
    for i := 0 to |pages|
      invariant events == WalkedAll(log, pages, i, Carried(maxRequests, limit))
      invariant seen <= IdsBefore(log, Position(log, NextStart(pages, start, i)))
    {
      var page := pages[i];
      assert NextStart(pages, start, i) == page.startLedger <= page.endLedger;
      var walked, requestCount;
      walked, seen, requestCount := WalkPage(log, page, limit, maxRequests, seen);
      events := events + walked;
      assert NextStart(pages, start, i + 1) == page.endLedger + 1;
    }
  }

  // ---- completeness --------------------------------------------------------------------------------

  /** How many events of the log a page holds. */
  ghost function Load(log: seq<Event>, page: Range): int {
    Position(log, page.endLedger + 1) - Position(log, page.startLedger)
  }

  ghost function HeaviestLoad(log: seq<Event>, pages: seq<Range>, n: nat): int
    requires n <= |pages|
  {
    if n == 0 then 0
    else var others := HeaviestLoad(log, pages, n - 1);
         if Load(log, pages[n - 1]) > others then Load(log, pages[n - 1]) else others
  }

  /** Events are all of the log from a to b, or too few, as the load fits the cap or not. */
  ghost predicate Collects<T>(events: seq<T>, log: seq<T>, a: nat, b: nat, load: int, cap: nat) {
    && a <= b <= |log|
    && if load <= cap then events == log[a..b] else |events| < b - a
  }

  lemma CollectsJoin<T>(first: seq<T>, second: seq<T>, log: seq<T>, a: nat, m: nat, b: nat, load: int, load': int, cap: nat)
    requires Collects(first, log, a, m, load, cap) && Collects(second, log, m, b, load', cap)
    ensures Collects(first + second, log, a, b, if load' > load then load' else load, cap)
  {
  }

  lemma WalkOfPage(log: seq<Event>, page: Range, cap: nat)
    requires page.startLedger <= page.endLedger
    ensures Collects(Walked(log, page, cap), log, Position(log, page.startLedger), Position(log, page.endLedger + 1),
                     Load(log, page), cap)
  {
    PositionIsMonotone(log, page.startLedger, page.endLedger + 1);
  }

  lemma OneWalkMore(log: seq<Event>, pages: seq<Range>, start: int, end: int, n: nat, cap: nat)
    requires Tiles(pages, start, end) && n < |pages|
    requires Collects(WalkedAll(log, pages, n, cap), log, Position(log, start), Position(log, NextStart(pages, start, n)),
                      HeaviestLoad(log, pages, n), cap)
    ensures Collects(WalkedAll(log, pages, n + 1, cap), log, Position(log, start), Position(log, pages[n].endLedger + 1),
                     HeaviestLoad(log, pages, n + 1), cap)
  {
    assert NextStart(pages, start, n) == pages[n].startLedger;
    WalkOfPage(log, pages[n], cap);
    CollectsJoin(WalkedAll(log, pages, n, cap), Walked(log, pages[n], cap), log, Position(log, start),
                 Position(log, pages[n].startLedger), Position(log, pages[n].endLedger + 1),
                 HeaviestLoad(log, pages, n), Load(log, pages[n]), cap);
  }

  lemma NoWalk(log: seq<Event>, pages: seq<Range>, start: int, end: int, cap: nat)
    requires Tiles(pages, start, end)
    ensures Collects(WalkedAll(log, pages, 0, cap), log, Position(log, start), Position(log, NextStart(pages, start, 0)),
                     HeaviestLoad(log, pages, 0), cap)
  {
  }

  lemma {:induction false} WalksJoin(log: seq<Event>, pages: seq<Range>, start: int, end: int, n: nat, cap: nat)
    requires Tiles(pages, start, end) && n <= |pages|
    ensures Collects(WalkedAll(log, pages, n, cap), log, Position(log, start), Position(log, NextStart(pages, start, n)),
                     HeaviestLoad(log, pages, n), cap)
  {
    hide WalkedAll, HeaviestLoad, Collects, Tiles, Position;
    if n == 0 {
      NoWalk(log, pages, start, end, cap);
    } else {
      WalksJoin(log, pages, start, end, n - 1, cap);
      OneWalkMore(log, pages, start, end, n - 1, cap);
    }
  }

  /**
   The fetch returns exactly the log filtered to the range, in order and once each, if and only if no
   chunk holds more events than the capped number of requests can carry.
   */
  lemma FetchIsTheFilteredLog(log: seq<Event>, range: Range, pages: seq<Range>, limit: nat, maxRequests: nat)
    requires ValidLog(log) && Tiles(pages, range.startLedger, range.endLedger)
    requires ValidateRange(range).None?
    ensures WalkedAll(log, pages, |pages|, Carried(maxRequests, limit)) == FilterToRange(log, range)
            <==> HeaviestLoad(log, pages, |pages|) <= maxRequests * limit
  {
    RangeIsAStretch(log, range);
    CarriedIsProduct(maxRequests, limit);
    WalksJoin(log, pages, range.startLedger, range.endLedger, |pages|, Carried(maxRequests, limit));
  }

  /** A thousand requests a page, at the setting of the source. */
  lemma MostOfAPage(limit: nat)
    ensures Carried(MAX_RPC_REQUESTS_PER_PAGE, limit) == 1_000 * limit
  {
    CarriedIsProduct(1_000, limit);
  }

  /** `fetchEventRange`: what it returns is every chunk's walk, in order. */
  method FetchEventRange(log: seq<Event>, range: Range, pageSize: int, limit: int,
                         maxRequests: nat := MAX_RPC_REQUESTS_PER_PAGE)
    returns (r: Result<seq<Event>, RangeError>, pages: seq<Range>)
    requires ValidLog(log) && maxRequests >= 1
    ensures r.Ok? <==> 1 <= range.startLedger <= range.endLedger && 1 <= pageSize && 1 <= limit
    ensures range.startLedger < 1 ==> r == Err(InvalidStart)
    ensures range.startLedger >= 1 && range.endLedger < 1 ==> r == Err(InvalidEnd)
    ensures 1 <= range.endLedger < range.startLedger ==> r == Err(Inverted)
    ensures 1 <= range.startLedger <= range.endLedger && pageSize < 1 ==> r == Err(InvalidPageSize)
    ensures 1 <= range.startLedger <= range.endLedger && pageSize >= 1 && limit < 1 ==> r == Err(InvalidLimit)
    ensures r.Ok? ==> Tiles(pages, range.startLedger, range.endLedger) && FullPages(pages, pageSize, range.endLedger)
    ensures r.Ok? ==> r.value == WalkedAll(log, pages, |pages|, Carried(maxRequests, limit))
    ensures r.Ok? ==> (r.value == FilterToRange(log, range) <==> HeaviestLoad(log, pages, |pages|) <= maxRequests * limit)
  {
    pages := [];
    var bad := ValidateRange(range);
    if bad.Some? {
      return Err(bad.value), [];
    }
    if pageSize < 1 {
      return Err(InvalidPageSize), [];
    }
    if limit < 1 {
      return Err(InvalidLimit), [];
    }
    var chunks := ChunkLedgerRange(range, pageSize);
    pages := chunks.value;
    var events := WalkPages(log, pages, limit, maxRequests, range.startLedger, range.endLedger);
    FetchIsTheFilteredLog(log, range, pages, limit, maxRequests);
    return Ok(events), pages;
  }

  // ---- counts by ledger ------------------------------------------------------------------------------

  datatype LedgerCount = LedgerCount(ledgerSequence: nat, eventCount: nat)

  function CountIn(events: seq<Event>, ledger: nat): nat {
    if events == [] then 0 else (if events[0].ledger == ledger then 1 else 0) + CountIn(events[1..], ledger)
  }

  function InsertEntry(e: LedgerCount, entries: seq<LedgerCount>): seq<LedgerCount> {
    if entries == [] || e.ledgerSequence <= entries[0].ledgerSequence then [e] + entries
    else [entries[0]] + InsertEntry(e, entries[1..])
  }

  function Counts(entries: seq<LedgerCount>): seq<int> {
    seq(|entries|, i requires 0 <= i < |entries| => entries[i].eventCount)
  }

  ghost predicate AscendingEntries(entries: seq<LedgerCount>) {
    forall i, j :: 0 <= i < j < |entries| ==> entries[i].ledgerSequence < entries[j].ledgerSequence
  }

  lemma {:induction false} InsertEntrySorts(e: LedgerCount, entries: seq<LedgerCount>)
    requires AscendingEntries(entries) && forall i :: 0 <= i < |entries| ==> entries[i].ledgerSequence != e.ledgerSequence
    ensures AscendingEntries(InsertEntry(e, entries))
    ensures forall x :: x in InsertEntry(e, entries) <==> x == e || x in entries
    ensures Sum(Counts(InsertEntry(e, entries))) == e.eventCount + Sum(Counts(entries))
  {
    if entries == [] || e.ledgerSequence <= entries[0].ledgerSequence {
      assert Counts([e] + entries)[1..] == Counts(entries);
    } else {
      InsertEntrySorts(e, entries[1..]);
      var rest := InsertEntry(e, entries[1..]);
      assert forall x :: x in entries <==> x == entries[0] || x in entries[1..];
      forall j | 0 <= j < |rest| ensures entries[0].ledgerSequence < rest[j].ledgerSequence {
        assert rest[j] in rest;
      }
      assert Counts([entries[0]] + rest)[1..] == Counts(rest);
      assert Counts(entries)[1..] == Counts(entries[1..]);
    }
  }

  lemma {:induction false} CountSnoc(events: seq<Event>, e: Event, ledger: nat)
    ensures CountIn(events + [e], ledger) == CountIn(events, ledger) + if e.ledger == ledger then 1 else 0
  {
    if events != [] {
      assert (events + [e])[1..] == events[1..] + [e];
      CountSnoc(events[1..], e, ledger);
    } else {
      assert (events + [e])[1..] == [];
    }
  }

  /** How many events lie in the given ledgers. */
  ghost function CountAmong(events: seq<Event>, ledgers: set<nat>): nat {
    if events == [] then 0 else (if events[0].ledger in ledgers then 1 else 0) + CountAmong(events[1..], ledgers)
  }

  lemma {:induction false} CountAmongGrows(events: seq<Event>, ledgers: set<nat>, ledger: nat)
    requires ledger !in ledgers
    ensures CountAmong(events, ledgers + {ledger}) == CountAmong(events, ledgers) + CountIn(events, ledger)
  {
    if events != [] {
      CountAmongGrows(events[1..], ledgers, ledger);
    }
  }

  lemma {:induction false} CountAmongNone(events: seq<Event>)
    ensures CountAmong(events, {}) == 0
  {
    if events != [] {
      CountAmongNone(events[1..]);
    }
  }

  lemma {:induction false} CountAmongAll(events: seq<Event>, ledgers: set<nat>)
    requires forall e :: e in events ==> e.ledger in ledgers
    ensures CountAmong(events, ledgers) == |events|
  {
    if events != [] {
      assert events[0] in events;
      CountAmongAll(events[1..], ledgers);
    }
  }

  lemma {:induction false} PresentMeansCounted(events: seq<Event>, e: Event)
    requires e in events
    ensures CountIn(events, e.ledger) > 0
  {
    if events[0] != e {
      assert e in events[1..];
      PresentMeansCounted(events[1..], e);
    }
  }

  /** The counting loop. */
  method TallyLedgers(events: seq<Event>) returns (counts: map<nat, nat>)
    ensures forall ledger: nat :: CountIn(events, ledger) == if ledger in counts then counts[ledger] else 0
    ensures forall ledger :: ledger in counts ==> counts[ledger] > 0
  {
    counts := map[];
    for i := 0 to |events|
      invariant forall ledger: nat :: CountIn(events[..i], ledger) == if ledger in counts then counts[ledger] else 0
      invariant forall ledger :: ledger in counts ==> counts[ledger] > 0
    {
      var ledger := events[i].ledger;
      forall l: nat ensures CountIn(events[..i + 1], l) == CountIn(events[..i], l) + if ledger == l then 1 else 0 {
        CountSnoc(events[..i], events[i], l);
        assert events[..i + 1] == events[..i] + [events[i]];
      }
      counts := counts[ledger := (if ledger in counts then counts[ledger] else 0) + 1];
    }
    assert events[..|events|] == events;
  }

  /** `countEventsByLedger`: ascending ledgers, each event's ledger with its count, and together all the events. */
  method CountEventsByLedger(events: seq<Event>) returns (entries: seq<LedgerCount>)
    ensures AscendingEntries(entries)
    ensures forall x :: x in entries ==> x.eventCount == CountIn(events, x.ledgerSequence) > 0
    ensures forall e :: e in events ==> LedgerCount(e.ledger, CountIn(events, e.ledger)) in entries
    ensures Sum(Counts(entries)) == |events|
  {
    var counts := TallyLedgers(events);
    var todo := counts.Keys;
    ghost var done: set<nat> := {};
    entries := [];
    CountAmongNone(events);
    while todo != {}
      invariant done !! todo && done + todo == counts.Keys
      invariant AscendingEntries(entries)
      invariant forall x :: x in entries <==> x.ledgerSequence in done && x.eventCount == counts[x.ledgerSequence]
      invariant Sum(Counts(entries)) == CountAmong(events, done)
      decreases |todo|
    {
      var ledger :| ledger in todo;
      InsertEntrySorts(LedgerCount(ledger, counts[ledger]), entries);
      CountAmongGrows(events, done, ledger);
      entries := InsertEntry(LedgerCount(ledger, counts[ledger]), entries);
      done, todo := done + {ledger}, todo - {ledger};
    }
    forall e | e in events ensures e.ledger in done && CountIn(events, e.ledger) == counts[e.ledger] {
      PresentMeansCounted(events, e);
    }
    CountAmongAll(events, done);
  }
}
