/**
 The group and page loop of `pollEvents`: contracts that share a ledger pointer are polled together, page
 by page, and every page commits its rows and moves the pointer before the next one is requested.

 The log holds the events of the group's contracts, also those that happen later: a reply shows the part
 of it up to the head ledger that the RPC had reached, which may lie behind the ledger the poll was
 started for.
 */
module GroupPoller {
  import opened Wrappers
  import opened EventLog
  import opened EventTable
  import opened DecimalText

  const PAGE_LIMIT := 100

  /** What one call of `getEvents` does. A page may omit its cursor and its latest ledger. */
  datatype Reply = Page(head: nat, reportsHead: bool, hasCursor: bool) | TooOld(oldest: nat) | Failed

  /**
   What the poll of one group meets: the log and the ids that do not decode, the group's pointer, the
   ledger the poll was started for, the page cap, the replies of the RPC in the order of the requests,
   and which page transactions go through.
   */
  datatype Poll = Poll(log: seq<Event>, bad: set<string>, pointer: nat, currentLedger: nat, maxPages: nat,
                       replies: seq<Reply>, commits: seq<bool>)

  datatype Outcome = Finished | FinishedWithoutCursor | CutByCap | Threw

  /**
   How a poll ended: the pages it committed, the ledger it started from after clamping, the position in
   the log up to which it stored rows, the one up to which it decoded, and the new pointer.
   */
  datatype Ending = Ending(outcome: Outcome, pages: nat, start: nat, reached: nat, decoded: nat, pointer: nat)

  /** The loop between two pages: pages committed, `startLedger`, the cursor, and `lastStoredLedger`. */
  datatype Place = Place(page: nat, start: nat, position: nat, lastStored: nat)

  // ---- the loop as a function of what it meets -------------------------------------------------------

  function Answer(p: Poll, k: nat): Reply {
    if k < |p.replies| then p.replies[k] else Failed
  }

  /** Whether the transaction of a page goes through. */
  predicate Commits(p: Poll, page: nat) {
    page < |p.commits| && p.commits[page]
  }

  /** A first request from a ledger that the RPC no longer keeps is repeated from the oldest one it keeps. */
  predicate Clamps(p: Poll) {
    p.maxPages > 0 && Answer(p, 0).TooOld? && p.pointer + 1 < Answer(p, 0).oldest
  }

  function Start(p: Poll): (start: nat)
    ensures start > p.pointer
  {
    if Clamps(p) then Answer(p, 0).oldest else p.pointer + 1
  }

  function Offset(p: Poll): nat {
    if Clamps(p) then 1 else 0
  }

  /** The reply that decides a page: the second one for the first page when that was clamped. */
  function PageReply(p: Poll, page: nat): Reply {
    Answer(p, Offset(p) + page)
  }

  /** The ledger of a last page: the head the reply names, else the ledger the poll started for. */
  function HeadOf(p: Poll, reply: Reply): nat {
    if reply.Page? && reply.reportsHead then reply.head else p.currentLedger
  }

  /** Where a page that begins at a position ends: as far as the RPC has seen, a full page at most. */
  function PageEnd(log: seq<Event>, position: nat, head: nat): (end: nat)
    requires position <= |log|
    ensures position <= end <= |log| && end <= position + PAGE_LIMIT
    ensures end == position + PAGE_LIMIT <==> position + PAGE_LIMIT <= Position(log, head + 1)
    ensures end < position + PAGE_LIMIT ==> Position(log, head + 1) <= end
  {
    var visible := Position(log, head + 1);
    if position + PAGE_LIMIT <= visible then position + PAGE_LIMIT else if position < visible then visible else position
  }

  ghost predicate PlaceOk(p: Poll, at: Place) {
    && at.page <= p.maxPages && p.pointer < at.start
    && Position(p.log, at.start) <= at.position <= |p.log|
    && (at.page == 0 ==> at.position == Position(p.log, at.start) && at.lastStored == p.pointer)
    && (at.page > 0 ==> at.position > Position(p.log, at.start) && at.lastStored == p.log[at.position - 1].ledger)
  }

  /** How a poll ends with the page at this place, or nothing when it goes on to the next page. */
  ghost function PageEnding(p: Poll, at: Place): (r: Option<Ending>)
    requires PlaceOk(p, at)
    ensures r.None? ==>
              && PageReply(p, at.page).Page?
              && PageEnd(p.log, at.position, PageReply(p, at.page).head) == at.position + PAGE_LIMIT
    ensures r.Some? ==> r.value.start == at.start && at.position <= r.value.reached <= r.value.decoded <= |p.log|
  {
    var reply := PageReply(p, at.page);
    if !reply.Page? then Some(Ending(Threw, at.page, at.start, at.position, at.position, at.lastStored))
    else
      var end := PageEnd(p.log, at.position, reply.head);
      if !Commits(p, at.page) then Some(Ending(Threw, at.page, at.start, at.position, end, at.lastStored))
      else if end < at.position + PAGE_LIMIT then Some(Ending(Finished, at.page + 1, at.start, end, end, HeadOf(p, reply)))
      else if !reply.hasCursor then Some(Ending(FinishedWithoutCursor, at.page + 1, at.start, end, end, HeadOf(p, reply)))
      else None
  }

  function NextPlace(p: Poll, at: Place): Place
    requires at.position + PAGE_LIMIT <= |p.log|
  {
    var end := at.position + PAGE_LIMIT;
    Place(at.page + 1, at.start, end, p.log[end - 1].ledger)
  }

  ghost function EndingFrom(p: Poll, at: Place): (e: Ending)
    requires PlaceOk(p, at)
    ensures e.start == at.start && at.position <= e.reached <= e.decoded <= |p.log|
    decreases p.maxPages - at.page
  {
    if at.page == p.maxPages then Ending(CutByCap, at.page, at.start, at.position, at.position, at.lastStored)
    else
      var ending := PageEnding(p, at);
      if ending.Some? then ending.value else EndingFrom(p, NextPlace(p, at))
  }

  function FirstPlace(p: Poll): Place {
    Place(0, Start(p), Position(p.log, Start(p)), p.pointer)
  }

  /** How the poll of a group ends. */
  ghost function EndingOf(p: Poll): (e: Ending)
    ensures e.start == Start(p) && Position(p.log, e.start) <= e.reached <= e.decoded <= |p.log|
  {
    EndingFrom(p, FirstPlace(p))
  }

  /** The tables after the poll. */
  ghost function DbAfter(p: Poll, before: Db): Db {
    var e := EndingOf(p);
    Ingest(p.log, p.bad, SkipTo(before, p.pointer, e.start), Position(p.log, e.start), e.reached, e.decoded)
  }

  // ---- where a poll stops ----------------------------------------------------------------------------

  /** The position of a page when the pages before it are full. */
  function PageStart(p: Poll, page: nat): nat {
    Position(p.log, Start(p)) + PAGE_LIMIT * page
  }

  /** The poll goes on after this page: it is served full and with a cursor, and committed. */
  predicate GoesOn(p: Poll, page: nat) {
    var reply := PageReply(p, page);
    && reply.Page? && Commits(p, page) && reply.hasCursor
    && PageStart(p, page + 1) <= Position(p.log, reply.head + 1)
  }

  /** Page m is the first after which the poll does not go on, unless the cap comes first. */
  ghost predicate StopsAt(p: Poll, m: nat) {
    && m <= p.maxPages
    && (forall q :: 0 <= q < m ==> GoesOn(p, q))
    && (m < p.maxPages ==> !GoesOn(p, m))
  }

  lemma SomewhereItStops(p: Poll) returns (m: nat)
    ensures StopsAt(p, m)
  {
    m := 0;
    while m < p.maxPages && GoesOn(p, m)
      invariant m <= p.maxPages && forall q :: 0 <= q < m ==> GoesOn(p, q)
    {
      m := m + 1;
    }
  }

  ghost function PlaceAt(p: Poll, m: nat): Place
    requires PageStart(p, m) <= |p.log|
  {
    Place(m, Start(p), PageStart(p, m), if m == 0 then p.pointer else p.log[PageStart(p, m) - 1].ledger)
  }

  lemma {:induction false} FullPagesAdvance(p: Poll, m: nat)
    requires m <= p.maxPages && forall q :: 0 <= q < m ==> GoesOn(p, q)
    ensures PageStart(p, m) <= |p.log| && PlaceOk(p, PlaceAt(p, m))
    ensures EndingOf(p) == EndingFrom(p, PlaceAt(p, m))
  {
    if m > 0 {
      FullPagesAdvance(p, m - 1);
      assert GoesOn(p, m - 1);
      assert PageEnding(p, PlaceAt(p, m - 1)).None?;
      assert NextPlace(p, PlaceAt(p, m - 1)) == PlaceAt(p, m);
    }
  }

  /** The ending in closed form: m full pages, and then the page that ends the poll, or the cap. */
  lemma EndingInClosedForm(p: Poll, m: nat)
    requires StopsAt(p, m)
    ensures PageStart(p, m) <= |p.log| && PlaceOk(p, PlaceAt(p, m))
    ensures var at := PlaceAt(p, m);
            if m == p.maxPages then EndingOf(p) == Ending(CutByCap, m, at.start, at.position, at.position, at.lastStored)
            else PageEnding(p, at) == Some(EndingOf(p))
  {
    FullPagesAdvance(p, m);
  }

  predicate PageGoesThrough(p: Poll, page: nat) {
    PageReply(p, page).Page? && Commits(p, page)
  }

  /** On the last page of a finished poll the pointer is put at the head that this reply reports. */
  function LastReply(p: Poll, e: Ending): Reply {
    if e.pages == 0 then Failed else PageReply(p, e.pages - 1)
  }

  predicate IsLastPage(e: Ending) {
    e.outcome == Finished || e.outcome == FinishedWithoutCursor
  }

  /**
   Every page before the end was served and committed. A poll throws only where a reply or a commit
   fails and is cut only when all its pages are used up; on a last page the pointer is the reported head,
   else it is the ledger of the last event stored.
   */
  lemma EndingSays(p: Poll)
    ensures var e := EndingOf(p);
            && e.pages <= p.maxPages
            && (forall q :: 0 <= q < e.pages ==> PageGoesThrough(p, q))
            && (e.outcome == Threw ==> e.pages < p.maxPages && !PageGoesThrough(p, e.pages))
            && (e.outcome == CutByCap ==> e.pages == p.maxPages)
            && (IsLastPage(e) ==>
                  && e.pages > 0 && LastReply(p, e).Page?
                  && e.pointer == if LastReply(p, e).reportsHead then LastReply(p, e).head else p.currentLedger)
            && (!IsLastPage(e) && e.pages == 0 ==> e.pointer == p.pointer && e.reached == Position(p.log, e.start))
            && (!IsLastPage(e) && e.pages > 0 ==>
                  e.reached > Position(p.log, e.start) && e.pointer == p.log[e.reached - 1].ledger)
            && (e.outcome != Threw ==> e.decoded == e.reached)
  {
    var m := SomewhereItStops(p);
    EndingInClosedForm(p, m);
    forall q | 0 <= q < m ensures PageGoesThrough(p, q) {
      assert GoesOn(p, q);
    }
  }

  /** The pointer rises with every committed page, but for a last page whose reported head is not above it. */
  lemma PointerRisesExactlyWhen(p: Poll)
    requires ValidLog(p.log)
    ensures var e := EndingOf(p);
            e.pointer > p.pointer
            <==> e.pages > 0 && (IsLastPage(e) ==>
                                   && LastReply(p, e).Page?
                                   && if LastReply(p, e).reportsHead then LastReply(p, e).head > p.pointer else p.currentLedger > p.pointer)
    ensures var e := EndingOf(p); e.pages == 0 ==> e.pointer == p.pointer
  {
    EndingSays(p);
    var e := EndingOf(p);
    if !IsLastPage(e) && e.pages > 0 {
      LedgerFrom(p.log, e.start, e.reached - 1);
    }
  }

  /**
   The first request is the ledger after the pointer; where the RPC no longer keeps it, the oldest ledger it
   keeps, asked for once more. After that every page takes the next reply.
   */
  lemma RequestsSay(p: Poll)
    requires p.maxPages > 0 && p.replies != []
    ensures var first := p.replies[0];
            if first.TooOld? && p.pointer + 1 < first.oldest
            then EndingOf(p).start == first.oldest && forall q: nat :: q + 1 < |p.replies| ==> PageReply(p, q) == p.replies[q + 1]
            else EndingOf(p).start == p.pointer + 1 && forall q: nat :: q < |p.replies| ==> PageReply(p, q) == p.replies[q]
  {
  }

  // ---- what a poll takes in --------------------------------------------------------------------------

  /** The events a poll stores, records as undecodable, or passes over in a recorded gap. */
  ghost predicate Settles(p: Poll, i: nat) {
    var e := EndingOf(p);
    var from := Position(p.log, e.start);
    && i < |p.log|
    && (p.pointer < p.log[i].ledger < e.start || from <= i < e.reached || (from <= i < e.decoded && p.log[i].id in p.bad))
  }

  lemma PollSettlesExactly(p: Poll, before: Db, i: nat)
    requires ValidLog(p.log) && Consistent(p.log, before.table) && i < |p.log|
    ensures Settled(DbAfter(p, before), p.log[i]) <==> Settled(before, p.log[i]) || Settles(p, i)
    ensures Consistent(p.log, DbAfter(p, before).table)
  {
    var e := EndingOf(p);
    var from := Position(p.log, e.start);
    IngestSettles(p.log, p.bad, before, p.pointer, e.start, from, e.reached, e.decoded, i);
    IngestKeepsConsistent(p.log, p.bad, SkipTo(before, p.pointer, e.start), from, e.reached, e.decoded);
  }

  /** The events a poll leaves behind its new pointer without having settled them. */
  ghost predicate Missed(p: Poll, i: nat) {
    var e := EndingOf(p);
    e.reached <= i < |p.log| && p.log[i].ledger <= e.pointer && !(i < e.decoded && p.log[i].id in p.bad)
  }

  lemma SettledOrMissed(p: Poll, i: nat)
    requires ValidLog(p.log) && i < |p.log|
    ensures p.log[i].ledger <= EndingOf(p).pointer ==> p.log[i].ledger <= p.pointer || Settles(p, i) || Missed(p, i)
    ensures Missed(p, i) ==> !Settles(p, i) && p.log[i].ledger > p.pointer
  {
    PositionSplits(p.log, EndingOf(p).start);
  }

  /** From a complete pointer, whatever lies at or below the new pointer is settled, or missed by this poll. */
  lemma PollSettles(p: Poll, before: Db)
    requires ValidLog(p.log) && Consistent(p.log, before.table) && Complete(p.log, before, p.pointer)
    ensures forall i :: 0 <= i < |p.log| && p.log[i].ledger <= EndingOf(p).pointer && !Settled(DbAfter(p, before), p.log[i])
              ==> Missed(p, i)
  {
    forall i | 0 <= i < |p.log| && p.log[i].ledger <= EndingOf(p).pointer
      ensures Settled(DbAfter(p, before), p.log[i]) || Missed(p, i)
    {
      SettledOrMissed(p, i);
      PollSettlesExactly(p, before, i);
    }
  }

  /** From a complete pointer, a poll is complete at its new one if and only if all it missed was settled before. */
  lemma PollIsCompleteExactlyWhen(p: Poll, before: Db)
    requires ValidLog(p.log) && Consistent(p.log, before.table) && Complete(p.log, before, p.pointer)
    ensures Complete(p.log, DbAfter(p, before), EndingOf(p).pointer)
            <==> forall i: nat :: Missed(p, i) ==> Settled(before, p.log[i])
  {
    PollSettles(p, before);
    forall i: nat | Missed(p, i) ensures Settled(DbAfter(p, before), p.log[i]) <==> Settled(before, p.log[i]) {
      SettledOrMissed(p, i);
      PollSettlesExactly(p, before, i);
    }
    assert Complete(p.log, DbAfter(p, before), EndingOf(p).pointer) ==>
             forall i: nat :: Missed(p, i) ==> Settled(DbAfter(p, before), p.log[i]);
  }

  /**
   Whether a poll that stops at page m ends between two ledgers, in terms of what it meets. Cut or thrown
   out, the next event of the log must be in a later ledger, but for events whose decoding failure a page
   that did not commit has recorded. On a last page the next event must be above the head it reports.
   */
  ghost predicate EndsCleanly(p: Poll, m: nat)
    requires PageStart(p, m) <= |p.log|
  {
    var n, log, reply := PageStart(p, m), p.log, PageReply(p, m);
    if m == p.maxPages || !reply.Page? then m == 0 || n == |log| || log[n].ledger > log[n - 1].ledger
    else
      var end := PageEnd(log, n, reply.head);
      if Commits(p, m) then end == |log| || log[end].ledger > HeadOf(p, reply)
      else m == 0 || forall i :: n <= i < |log| && log[i].ledger == log[n - 1].ledger ==> i < end && log[i].id in p.bad
  }

  /** Where the pointer is at the log position the poll stored up to, what it misses begins there. */
  lemma FirstMissed(p: Poll)
    requires ValidLog(p.log) && EndingOf(p).decoded == EndingOf(p).reached
    ensures var e := EndingOf(p);
            (forall i :: !Missed(p, i)) <==> e.reached == |p.log| || p.log[e.reached].ledger > e.pointer
  {
    var e := EndingOf(p);
    if e.reached < |p.log| {
      assert !Missed(p, e.reached) <==> p.log[e.reached].ledger > e.pointer;
    }
  }

  /** A page that did not commit recorded the failures of decoding it. */
  lemma MissedAfterThrow(p: Poll, n: nat)
    requires ValidLog(p.log) && 0 < n <= |p.log| && EndingOf(p).reached == n && EndingOf(p).pointer == p.log[n - 1].ledger
    ensures (forall i :: !Missed(p, i))
            <==> forall i :: n <= i < |p.log| && p.log[i].ledger == p.log[n - 1].ledger ==>
                   i < EndingOf(p).decoded && p.log[i].id in p.bad
  {
    var e := EndingOf(p);
    if forall i :: !Missed(p, i) {
      assert forall i :: n <= i < |p.log| && p.log[i].ledger <= e.pointer ==>
                 (i < e.decoded && p.log[i].id in p.bad) || Missed(p, i);
    }
  }

  /** A poll that committed no page misses nothing. */
  lemma NothingCommittedNothingMissed(p: Poll, i: nat)
    requires ValidLog(p.log) && EndingOf(p).pages == 0
    ensures !Missed(p, i)
  {
    EndingSays(p);
    PositionSplits(p.log, EndingOf(p).start);
  }

  lemma MissesNothingExactlyWhen(p: Poll, m: nat)
    requires ValidLog(p.log) && StopsAt(p, m)
    ensures PageStart(p, m) <= |p.log|
    ensures (forall i :: !Missed(p, i)) <==> EndsCleanly(p, m)
  {
    hide Missed, GoesOn, StopsAt, EndingOf;
    EndingInClosedForm(p, m);
    var e := EndingOf(p);
    if e.pages == 0 {
      forall i: nat ensures !Missed(p, i) {
        NothingCommittedNothingMissed(p, i);
      }
    } else if e.decoded == e.reached {
      FirstMissed(p);
    }
    if e.pages > 0 && e.outcome == Threw {
      MissedAfterThrow(p, PageStart(p, m));
    }
  }

  /**
   A poll from a complete and fresh pointer is complete at its new pointer if and only if what it meets
   makes it end between two ledgers.
   */
  lemma PollIsCompleteOnItsInputs(p: Poll, before: Db, m: nat)
    requires ValidLog(p.log) && StopsAt(p, m) && Consistent(p.log, before.table)
    requires Complete(p.log, before, p.pointer) && Fresh(p.log, before, p.pointer)
    ensures PageStart(p, m) <= |p.log|
    ensures Complete(p.log, DbAfter(p, before), EndingOf(p).pointer) <==> EndsCleanly(p, m)
  {
    PollIsCompleteExactlyWhen(p, before);
    MissesNothingExactlyWhen(p, m);
    forall i: nat | Missed(p, i) ensures !Settled(before, p.log[i]) {
      SettledOrMissed(p, i);
    }
  }

  /** The RPC stands at one head, reports it and serves cursors, and every page commits. */
  ghost predicate Steady(p: Poll, head: nat) {
    forall q :: 0 <= q < p.maxPages ==> Answer(p, q) == Page(head, true, true) && Commits(p, q)
  }

  lemma SteadyEndsCleanlyUnless(p: Poll, head: nat, m: nat)
    requires ValidLog(p.log) && Steady(p, head) && p.maxPages > 0 && StopsAt(p, m) && PageStart(p, m) <= |p.log|
    ensures var n := Position(p.log, p.pointer + 1) + PAGE_LIMIT * p.maxPages;
            EndsCleanly(p, m)
            <==> !(n <= Position(p.log, head + 1) && n < |p.log| && p.log[n].ledger == p.log[n - 1].ledger)
  {
    assert Answer(p, 0) == Page(head, true, true);
    if m < p.maxPages {
      assert PageReply(p, m) == Page(head, true, true) && Commits(p, m);
      var end := PageEnd(p.log, PageStart(p, m), head);
      if end < |p.log| {
        LedgerFrom(p.log, head + 1, end);
      }
    } else {
      assert GoesOn(p, m - 1) && PageReply(p, m - 1) == Page(head, true, true);
    }
  }

  /**
   Before such a poll one can tell: it loses events if and only if its page cap falls on or before the
   last event that the RPC shows, and inside a ledger.
   */
  lemma SteadyPollIsCompleteUnless(p: Poll, before: Db, head: nat)
    requires ValidLog(p.log) && Steady(p, head) && p.maxPages > 0 && Consistent(p.log, before.table)
    requires Complete(p.log, before, p.pointer) && Fresh(p.log, before, p.pointer)
    ensures var n := Position(p.log, p.pointer + 1) + PAGE_LIMIT * p.maxPages;
            Complete(p.log, DbAfter(p, before), EndingOf(p).pointer)
            <==> !(n <= Position(p.log, head + 1) && n < |p.log| && p.log[n].ledger == p.log[n - 1].ledger)
  {
    var m := SomewhereItStops(p);
    PollIsCompleteOnItsInputs(p, before, m);
    SteadyEndsCleanlyUnless(p, head, m);
  }

  /** The RPC had seen the ledger that a last page is taken to reach. */
  predicate SawItsHead(p: Poll, reply: Reply) {
    reply.Page? && HeadOf(p, reply) <= reply.head
  }

  /** What a poll misses lies in the ledger of its pointer, unless it ended on a last page. */
  lemma MissedIsInTheLastLedger(p: Poll, i: nat)
    requires ValidLog(p.log) && Missed(p, i) && !IsLastPage(EndingOf(p))
    ensures EndingOf(p).pages > 0 && p.log[i].ledger == EndingOf(p).pointer
  {
    EndingSays(p);
    PositionSplits(p.log, EndingOf(p).start);
  }

  /** A finished poll whose last reply had seen the ledger it is taken to reach misses nothing. */
  lemma FinishedMissesNothing(p: Poll, i: nat)
    requires ValidLog(p.log) && EndingOf(p).outcome == Finished && SawItsHead(p, LastReply(p, EndingOf(p)))
    ensures !Missed(p, i)
  {
    hide PlaceOk, StopsAt;
    EndingSays(p);
    var m := SomewhereItStops(p);
    EndingInClosedForm(p, m);
    if i < |p.log| && EndingOf(p).reached <= i {
      LedgerFrom(p.log, LastReply(p, EndingOf(p)).head + 1, i);
    }
  }

  /** Such a poll is complete at its pointer; one that the cap or an error ended is complete strictly below it. */
  lemma FinishedIsComplete(p: Poll, before: Db)
    requires ValidLog(p.log) && Consistent(p.log, before.table) && Complete(p.log, before, p.pointer)
    ensures var e := EndingOf(p);
            e.outcome == Finished && SawItsHead(p, LastReply(p, e)) ==> Complete(p.log, DbAfter(p, before), e.pointer)
    ensures var e := EndingOf(p);
            !IsLastPage(e) && e.pointer > 0 ==> Complete(p.log, DbAfter(p, before), e.pointer - 1)
    ensures EndingOf(p).pages == 0 ==> Complete(p.log, DbAfter(p, before), EndingOf(p).pointer)
  {
    hide Missed, Settled;
    PollSettles(p, before);
    EndingSays(p);
    forall i: nat | Missed(p, i)
      ensures !(EndingOf(p).outcome == Finished && SawItsHead(p, LastReply(p, EndingOf(p))))
      ensures !IsLastPage(EndingOf(p)) ==> EndingOf(p).pages > 0 && i < |p.log| && p.log[i].ledger == EndingOf(p).pointer
    {
      if EndingOf(p).outcome == Finished && SawItsHead(p, LastReply(p, EndingOf(p))) {
        FinishedMissesNothing(p, i);
      }
      if !IsLastPage(EndingOf(p)) {
        MissedInRange(p, i);
        MissedIsInTheLastLedger(p, i);
      }
    }
  }

  lemma MissedInRange(p: Poll, i: nat)
    requires Missed(p, i)
    ensures i < |p.log|
  {
  }

  /** What lies unsettled at or below the pointer, no poll from that pointer brings back. */
  lemma MissedForGood(p: Poll, before: Db, i: nat)
    requires ValidLog(p.log) && Consistent(p.log, before.table)
    requires i < |p.log| && p.log[i].ledger <= p.pointer && !Settled(before, p.log[i])
    ensures !Settled(DbAfter(p, before), p.log[i])
  {
    PollSettlesExactly(p, before, i);
    PositionSplits(p.log, EndingOf(p).start);
  }

  /** Polling again over a stretch that is already stored leaves the event table as it is. */
  lemma ReplayChangesNoRow(first: Poll, second: Poll, before: Db)
    requires second.log == first.log && second.bad == first.bad
    requires Start(first) <= Start(second) && EndingOf(second).reached <= EndingOf(first).reached
    ensures DbAfter(second, DbAfter(first, before)).table == DbAfter(first, before).table
  {
    PositionIsMonotone(first.log, Start(first), Start(second));
    StretchAgain(before.table, first.log, first.bad, Position(first.log, Start(first)), EndingOf(first).reached,
                 Position(first.log, Start(second)), EndingOf(second).reached);
  }

  // ---- inputs that lose events -----------------------------------------------------------------------

  /** n events, the i-th in the given ledger. */
  function EventsIn(n: nat, ledgerOf: nat -> nat): (log: seq<Event>)
    ensures |log| == n && forall i :: 0 <= i < n ==> log[i] == Event(ToText(i), ledgerOf(i))
  {
    seq(n, (i: nat) => Event(ToText(i), ledgerOf(i)))
  }

  lemma EventsAreValid(n: nat, ledgerOf: nat -> nat)
    requires forall i: nat, j: nat :: i < j < n ==> ledgerOf(i) <= ledgerOf(j)
    ensures ValidLog(EventsIn(n, ledgerOf))
  {
    var log := EventsIn(n, ledgerOf);
    forall i, j | 0 <= i < j < |log| ensures log[i].id != log[j].id {
      TextRoundTrip(i);
      TextRoundTrip(j);
    }
  }

  const EMPTY := Db(map[], {}, [])

  lemma LosesWhatItMissed(p: Poll, i: nat)
    requires ValidLog(p.log) && Missed(p, i)
    ensures !Settled(DbAfter(p, EMPTY), p.log[i]) && p.log[i].ledger <= EndingOf(p).pointer
  {
    SettledOrMissed(p, i);
    PollSettlesExactly(p, EMPTY, i);
  }

  /**
   With one page a poll, a ledger of 101 events loses its last: the pointer moves onto the ledger after
   100 of them, and the next poll starts at the ledger after it.
   */
  lemma CapLosesAnEvent(ledger: nat) returns (p: Poll)
    requires ledger > 0
    ensures p == Poll(EventsIn(101, i => ledger), {}, ledger - 1, ledger, 1, [Page(ledger, true, true)], [true])
    ensures ValidLog(p.log) && Complete(p.log, EMPTY, p.pointer)
    ensures EndingOf(p) == Ending(CutByCap, 1, ledger, 100, 100, ledger)
    ensures !Settled(DbAfter(p, EMPTY), p.log[100]) && p.log[100].ledger <= EndingOf(p).pointer
  {
    hide ValidLog, Ingest, EndingFrom, Position, Settled, FirstPlace, ToText;
    p := Poll(EventsIn(PAGE_LIMIT + 1, i => ledger), {}, ledger - 1, ledger, 1, [Page(ledger, true, true)], [true]);
    EventsAreValid(PAGE_LIMIT + 1, i => ledger);
    PositionIs(p.log, ledger, 0);
    PositionIs(p.log, ledger + 1, |p.log|);
    assert GoesOn(p, 0);
    EndingInClosedForm(p, 1);
    LosesWhatItMissed(p, PAGE_LIMIT);
  }

  /**
   A full page without a cursor counts as the last one: of n ledgers with an event each, the pointer
   passes all, and every event after the first hundred is lost.
   */
  lemma MissingCursorLosesLedgers(n: nat, i: nat) returns (p: Poll)
    requires 100 <= i < n
    ensures p == Poll(EventsIn(n, k => k + 1), {}, 0, n, 1, [Page(n, true, false)], [true])
    ensures ValidLog(p.log) && Complete(p.log, EMPTY, p.pointer)
    ensures EndingOf(p) == Ending(FinishedWithoutCursor, 1, 1, 100, 100, n)
    ensures !Settled(DbAfter(p, EMPTY), p.log[i]) && p.log[i].ledger == i + 1 <= EndingOf(p).pointer
  {
    hide ValidLog, Ingest, EndingFrom, Position, Settled, FirstPlace, ToText;
    p := Poll(EventsIn(n, k => k + 1), {}, 0, n, 1, [Page(n, true, false)], [true]);
    EventsAreValid(n, k => k + 1);
    PositionIs(p.log, 1, 0);
    PositionIs(p.log, n + 1, n);
    assert StopsAt(p, 0);
    EndingInClosedForm(p, 0);
    LosesWhatItMissed(p, i);
  }

  /** A page that names no head puts the pointer at the ledger the poll started for, seen or not. */
  lemma UnnamedHeadLosesAnEvent() returns (p: Poll)
    ensures p == Poll(EventsIn(1, i => 1), {}, 0, 1, 1, [Page(0, false, true)], [true])
    ensures ValidLog(p.log) && Complete(p.log, EMPTY, p.pointer)
    ensures EndingOf(p) == Ending(Finished, 1, 1, 0, 0, 1)
    ensures !Settled(DbAfter(p, EMPTY), p.log[0]) && p.log[0].ledger <= EndingOf(p).pointer
  {
    p := Poll(EventsIn(1, i => 1), {}, 0, 1, 1, [Page(0, false, true)], [true]);
    EventsAreValid(1, i => 1);
    PositionIs(p.log, 1, 0);
    assert StopsAt(p, 0);
    EndingInClosedForm(p, 0);
    LosesWhatItMissed(p, 0);
  }

  // ---- runs of polls ---------------------------------------------------------------------------------

  ghost function PointerAfter(pointer: nat, polls: seq<Poll>): nat {
    if polls == [] then pointer else EndingOf(polls[|polls| - 1]).pointer
  }

  ghost function DbAfterAll(before: Db, polls: seq<Poll>): Db {
    if polls == [] then before else DbAfter(polls[|polls| - 1], DbAfterAll(before, polls[..|polls| - 1]))
  }

  /** Polls of one group over one log, each from the pointer the one before it left. */
  ghost predicate IsRun(log: seq<Event>, bad: set<string>, pointer: nat, polls: seq<Poll>) {
    forall k :: 0 <= k < |polls| ==>
      polls[k].log == log && polls[k].bad == bad && polls[k].pointer == PointerAfter(pointer, polls[..k])
  }

  lemma RunFront(log: seq<Event>, bad: set<string>, pointer: nat, polls: seq<Poll>)
    requires IsRun(log, bad, pointer, polls) && polls != []
    ensures IsRun(log, bad, pointer, polls[..|polls| - 1])
  {
    var front := polls[..|polls| - 1];
    assert forall k :: 0 <= k < |front| ==> front[..k] == polls[..k];
  }

  ghost predicate SomeSettles(polls: seq<Poll>, i: nat) {
    exists k :: 0 <= k < |polls| && Settles(polls[k], i)
  }

  ghost predicate SomeMisses(polls: seq<Poll>, i: nat) {
    exists k :: 0 <= k < |polls| && Missed(polls[k], i)
  }

  lemma LastOrEarlier(polls: seq<Poll>, i: nat)
    requires polls != []
    ensures SomeSettles(polls, i) <==> SomeSettles(polls[..|polls| - 1], i) || Settles(polls[|polls| - 1], i)
    ensures SomeMisses(polls, i) <==> SomeMisses(polls[..|polls| - 1], i) || Missed(polls[|polls| - 1], i)
  {
    hide Settles, Missed;
    var front := polls[..|polls| - 1];
    if k :| 0 <= k < |front| && Settles(front[k], i) {
      assert Settles(polls[k], i);
    }
    if k :| 0 <= k < |polls| && Settles(polls[k], i) {
      assert k < |front| ==> Settles(front[k], i);
    }
    if k :| 0 <= k < |front| && Missed(front[k], i) {
      assert Missed(polls[k], i);
    }
    if k :| 0 <= k < |polls| && Missed(polls[k], i) {
      assert k < |front| ==> Missed(front[k], i);
    }
  }

  /** After any run of polls an event is settled if and only if it was, or one of the polls settled it. */
  lemma {:induction false} RunSettlesExactly(log: seq<Event>, bad: set<string>, before: Db, pointer: nat, polls: seq<Poll>, i: nat)
    requires ValidLog(log) && Consistent(log, before.table) && IsRun(log, bad, pointer, polls) && i < |log|
    ensures Consistent(log, DbAfterAll(before, polls).table)
    ensures Settled(DbAfterAll(before, polls), log[i]) <==> Settled(before, log[i]) || SomeSettles(polls, i)
  {
    if polls != [] {
      var front := polls[..|polls| - 1];
      RunFront(log, bad, pointer, polls);
      RunSettlesExactly(log, bad, before, pointer, front, i);
      PollSettlesExactly(polls[|polls| - 1], DbAfterAll(before, front), i);
      LastOrEarlier(polls, i);
    }
  }

  /** Over a run from a complete pointer, an event at or below the pointer is settled, or one of the polls missed it. */
  lemma {:induction false} RunAccountsForAll(log: seq<Event>, bad: set<string>, before: Db, pointer: nat, polls: seq<Poll>, i: nat)
    requires ValidLog(log) && Consistent(log, before.table) && IsRun(log, bad, pointer, polls) && Complete(log, before, pointer)
    requires i < |log| && log[i].ledger <= PointerAfter(pointer, polls)
    ensures Settled(DbAfterAll(before, polls), log[i]) || SomeMisses(polls, i)
  {
    if polls != [] {
      var front, last := polls[..|polls| - 1], polls[|polls| - 1];
      RunFront(log, bad, pointer, polls);
      RunSettlesExactly(log, bad, before, pointer, front, i);
      PollSettlesExactly(last, DbAfterAll(before, front), i);
      SettledOrMissed(last, i);
      LastOrEarlier(polls, i);
      if log[i].ledger <= last.pointer {
        RunAccountsForAll(log, bad, before, pointer, front, i);
      }
    }
  }

  /** A run all of whose polls end between two ledgers loses nothing. */
  lemma CleanRunIsComplete(log: seq<Event>, bad: set<string>, before: Db, pointer: nat, polls: seq<Poll>, stops: seq<nat>)
    requires ValidLog(log) && Consistent(log, before.table) && IsRun(log, bad, pointer, polls) && Complete(log, before, pointer)
    requires |stops| == |polls|
    requires forall k :: 0 <= k < |polls| ==>
               StopsAt(polls[k], stops[k]) && PageStart(polls[k], stops[k]) <= |log| && EndsCleanly(polls[k], stops[k])
    ensures Complete(log, DbAfterAll(before, polls), PointerAfter(pointer, polls))
  {
    forall i | 0 <= i < |log| && log[i].ledger <= PointerAfter(pointer, polls) ensures Settled(DbAfterAll(before, polls), log[i]) {
      RunAccountsForAll(log, bad, before, pointer, polls, i);
      forall k | 0 <= k < |polls| ensures !Missed(polls[k], i) {
        MissesNothingExactlyWhen(polls[k], stops[k]);
      }
    }
  }

  // ---- the poller ------------------------------------------------------------------------------------

  /** The contracts of the group advance one after the other. */
  function SetAll(pointers: map<string, nat>, ids: seq<string>, ledger: nat): map<string, nat> {
    if ids == [] then pointers else SetAll(pointers, ids[..|ids| - 1], ledger)[ids[|ids| - 1] := ledger]
  }

  lemma {:induction false} SetAllSets(pointers: map<string, nat>, ids: seq<string>, ledger: nat)
    ensures forall id :: id in SetAll(pointers, ids, ledger) <==> id in pointers || id in ids
    ensures forall id :: id in ids ==> SetAll(pointers, ids, ledger)[id] == ledger
    ensures forall id :: id in pointers && id !in ids ==> SetAll(pointers, ids, ledger)[id] == pointers[id]
  {
    if ids != [] {
      SetAllSets(pointers, ids[..|ids| - 1], ledger);
      assert ids == ids[..|ids| - 1] + [ids[|ids| - 1]];
    }
  }

  lemma SetAllAgain(pointers: map<string, nat>, ids: seq<string>, ledger: nat, later: nat)
    ensures SetAll(SetAll(pointers, ids, ledger), ids, later) == SetAll(pointers, ids, later)
  {
    SetAllSets(pointers, ids, ledger);
    SetAllSets(pointers, ids, later);
    SetAllSets(SetAll(pointers, ids, ledger), ids, later);
  }

  /** Everything a poll of a group writes: the tables, the contracts' pointers and the global one. */
  datatype Tables = Tables(db: Db, pointers: map<string, nat>, lastLedger: nat)

  function Advance(before: Tables, contracts: seq<string>, pages: nat, db: Db, ledger: nat): Tables {
    if pages == 0 then before.(db := db) else Tables(db, SetAll(before.pointers, contracts, ledger), ledger)
  }

  /** The tables between two pages. */
  ghost function TablesAt(p: Poll, contracts: seq<string>, before: Tables, at: Place): Tables
    requires PlaceOk(p, at)
  {
    var db := Ingest(p.log, p.bad, SkipTo(before.db, p.pointer, at.start), Position(p.log, at.start), at.position, at.position);
    Advance(before, contracts, at.page, db, at.lastStored)
  }

  /** The tables after the poll. */
  ghost function TablesAfter(p: Poll, contracts: seq<string>, before: Tables): Tables {
    Advance(before, contracts, EndingOf(p).pages, DbAfter(p, before.db), EndingOf(p).pointer)
  }

  /** What a page does to the tables, by its ending or, without one, as a full page. */
  ghost function TablesAfterPage(p: Poll, contracts: seq<string>, mid: Tables, at: Place): Tables
    requires PlaceOk(p, at)
  {
    match PageEnding(p, at)
    case Some(e) =>
      var db := Ingest(p.log, p.bad, mid.db, at.position, e.reached, e.decoded);
      if e.outcome == Threw then mid.(db := db) else Tables(db, SetAll(mid.pointers, contracts, e.pointer), e.pointer)
    case None =>
      var next := NextPlace(p, at);
      Tables(Ingest(p.log, p.bad, mid.db, at.position, next.position, next.position),
             SetAll(mid.pointers, contracts, next.lastStored), next.lastStored)
  }

  /** `Math.max` over the ledgers of a page. */
  function MaxLedger(events: seq<Event>): nat
    requires events != []
  {
    var last := events[|events| - 1].ledger;
    if |events| == 1 then last
    else var others := MaxLedger(events[..|events| - 1]); if last > others then last else others
  }

  lemma {:induction false} MaxIsLast(log: seq<Event>, from: nat, end: nat)
    requires ValidLog(log) && from < end <= |log|
    ensures MaxLedger(log[from..end]) == log[end - 1].ledger
  {
    if from + 1 < end {
      MaxIsLast(log, from, end - 1);
      assert log[from..end][..end - from - 1] == log[from..end - 1];
    }
  }

  /** The loop is at this place with k replies used. Before the first page, clamping is still ahead. */
  ghost predicate AtPlace(p: Poll, at: Place, k: nat) {
    && PlaceOk(p, at)
    && if at.page == 0 then at == Place(0, p.pointer + 1, Position(p.log, p.pointer + 1), p.pointer) && k == 0
       else k == Offset(p) + at.page && at.start == Start(p) && EndingOf(p) == EndingFrom(p, at)
  }

  /** The page has been fetched, and the start clamped where that had to be. */
  ghost predicate Fetched(p: Poll, at: Place) {
    PlaceOk(p, at) && at.page < p.maxPages && at.start == Start(p) && EndingOf(p) == EndingFrom(p, at)
  }

  lemma NextIsAtPlace(p: Poll, at: Place)
    requires Fetched(p, at)
    ensures PageEnding(p, at).Some? ==> PageEnding(p, at).value == EndingOf(p)
    ensures PageEnding(p, at).None? ==> AtPlace(p, NextPlace(p, at), Offset(p) + at.page + 1)
  {
  }

  lemma PageAdvances(p: Poll, contracts: seq<string>, before: Tables, at: Place)
    requires Fetched(p, at)
    ensures var now := TablesAfterPage(p, contracts, TablesAt(p, contracts, before, at), at);
            if PageEnding(p, at).Some? then now == TablesAfter(p, contracts, before)
            else PlaceOk(p, NextPlace(p, at)) && now == TablesAt(p, contracts, before, NextPlace(p, at))
  {
    hide Ingest, SetAll, EndingFrom, SkipTo, Position;
    NextIsAtPlace(p, at);
    var from, skipped := Position(p.log, at.start), SkipTo(before.db, p.pointer, at.start);
    var e := PageEnding(p, at);
    var reached := if e.Some? then e.value.reached else at.position + PAGE_LIMIT;
    var decoded := if e.Some? then e.value.decoded else at.position + PAGE_LIMIT;
    IngestGoesOn(p.log, p.bad, skipped, from, at.position, reached, decoded);
    SetAllAgain(before.pointers, contracts, at.lastStored, if e.Some? then e.value.pointer else NextPlace(p, at).lastStored);
  }

  lemma PollStarts(p: Poll, contracts: seq<string>, before: Tables)
    ensures var at := Place(0, p.pointer + 1, Position(p.log, p.pointer + 1), p.pointer);
            AtPlace(p, at, 0) && PlaceOk(p, at) && TablesAt(p, contracts, before, at) == before
  {
  }

  /** At the cap the poll ends where it stands. */
  lemma CapEnds(p: Poll, contracts: seq<string>, before: Tables, at: Place, k: nat)
    requires AtPlace(p, at, k) && at.page == p.maxPages
    ensures TablesAt(p, contracts, before, at) == TablesAfter(p, contracts, before)
    ensures EndingOf(p).outcome == CutByCap
  {
  }

  lemma StoringNothing(log: seq<Event>, bad: set<string>, table: map<string, Event>, position: nat)
    requires position <= |log|
    ensures Stored(table, Decoded(log[position..position], bad)) == table && BadIds(log[position..position], bad) == {}
  {
    assert log[position..position] == [];
  }

  class Poller {
    var table: map<string, Event>
    var undecodable: set<string>
    /** Only the last skipped range is kept; `skips` remembers all of them. */
    var skipped: Option<Skip>
    ghost var skips: seq<Skip>
    var pointers: map<string, nat>
    var lastLedger: nat

    ghost predicate Valid()
      reads this
    {
      skipped == if skips == [] then None else Some(skips[|skips| - 1])
    }

    ghost function Now(): Tables
      reads this
    {
      Tables(Db(table, undecodable, skips), pointers, lastLedger)
    }

    /** `insertEventBatch`: the rows and the global pointer in one transaction. */
    method InsertEventBatch(rows: seq<Event>, newLedger: nat)
      modifies `table, `lastLedger
      ensures table == Stored(old(table), rows) && lastLedger == newLedger
    {
      for i := 0 to |rows|
        invariant table == Stored(old(table), rows[..i])
      {
        assert rows[..i + 1][..i] == rows[..i];
        table := InsertOrIgnore(table, rows[i]);
      }
      assert rows[..|rows|] == rows;
      lastLedger := newLedger;
    }

    /** `decodeEventsIsolated`: a bad event is recorded and does not stop the others. */
    method DecodeEventsIsolated(events: seq<Event>, bad: set<string>) returns (rows: seq<Event>)
      modifies `undecodable
      ensures rows == Decoded(events, bad)
      ensures undecodable == old(undecodable) + BadIds(events, bad)
    {
      rows := [];
      for i := 0 to |events|
        invariant rows == Decoded(events[..i], bad)
        invariant undecodable == old(undecodable) + BadIds(events[..i], bad)
      {
        assert events[..i + 1][..i] == events[..i];
        if events[i].id in bad {
          undecodable := undecodable + {events[i].id};
        } else {
          rows := rows + [events[i]];
        }
      }
      assert events[..|events|] == events;
    }

    /** `updateContractPointer` for every contract of the group. */
    method UpdateContractPointers(contracts: seq<string>, newLedger: nat)
      modifies `pointers
      ensures pointers == SetAll(old(pointers), contracts, newLedger)
    {
      for i := 0 to |contracts|
        invariant pointers == SetAll(old(pointers), contracts[..i], newLedger)
      {
        assert contracts[..i + 1][..i] == contracts[..i];
        pointers := pointers[contracts[i] := newLedger];
      }
      assert contracts[..|contracts|] == contracts;
    }

    /** `fetchPageRetentionAware`: a start older than the RPC keeps is clamped once, and the gap recorded. */
    method FetchPageRetentionAware(p: Poll, k: nat, start0: nat, cursor: Option<nat>) returns (reply: Reply, start: nat, k': nat)
      requires Valid()
      modifies `skipped, `skips
      ensures Valid()
      ensures var first := Answer(p, k);
              if first.TooOld? && start0 < first.oldest && cursor.None?
              then start == first.oldest && reply == Answer(p, k + 1) && skips == old(skips) + [Skip(start0, start - 1)]
                   && k' == k + 2
              else start == start0 && reply == first && skips == old(skips) && k' == k + 1
    {
      reply, start, k' := Answer(p, k), start0, k + 1;
      if reply.TooOld? && start0 < reply.oldest && cursor.None? {
        if reply.oldest - 1 >= start0 {
          skipped, skips := Some(Skip(start0, reply.oldest - 1)), skips + [Skip(start0, reply.oldest - 1)];
        }
        start := reply.oldest;
        reply, k' := Answer(p, k'), k' + 1;
      }
    }

    /** One page: decode it, store its rows with the new ledger, then advance the contracts of the group. */
    method StorePage(p: Poll, contracts: seq<string>, reply: Reply, at: Place) returns (isLast: bool, newLedger: nat, end: nat)
      requires ValidLog(p.log) && PlaceOk(p, at) && reply.Page?
      modifies `table, `undecodable, `pointers, `lastLedger
      ensures end == PageEnd(p.log, at.position, reply.head)
      ensures isLast <==> end < at.position + PAGE_LIMIT || !reply.hasCursor
      ensures newLedger == if isLast then HeadOf(p, reply) else p.log[end - 1].ledger
      ensures undecodable == old(undecodable) + BadIds(p.log[at.position..end], p.bad)
      ensures table == if Commits(p, at.page) then Stored(old(table), Decoded(p.log[at.position..end], p.bad)) else old(table)
      ensures pointers == if Commits(p, at.page) then SetAll(old(pointers), contracts, newLedger) else old(pointers)
      ensures lastLedger == if Commits(p, at.page) then newLedger else old(lastLedger)
    {
      end := PageEnd(p.log, at.position, reply.head);
      var events := p.log[at.position..end];
      var rows := DecodeEventsIsolated(events, p.bad);
      var pageMaxLedger := if events != [] then MaxLedger(events) else at.lastStored;
      isLast := |events| < PAGE_LIMIT || !reply.hasCursor;
      newLedger := if isLast then HeadOf(p, reply) else pageMaxLedger;
      if events != [] {
        MaxIsLast(p.log, at.position, end);
      }
      if Commits(p, at.page) {
        InsertEventBatch(rows, newLedger);
        UpdateContractPointers(contracts, newLedger);
      }
    }

    /** What the page loop does with a reply; without an outcome the loop goes on. */
    method TakePage(p: Poll, contracts: seq<string>, reply: Reply, at: Place) returns (outcome: Option<Outcome>, next: Place)
      requires ValidLog(p.log) && PlaceOk(p, at) && reply == PageReply(p, at.page)
      modifies `table, `undecodable, `pointers, `lastLedger
      ensures Now() == TablesAfterPage(p, contracts, old(Now()), at)
      ensures var ending := PageEnding(p, at);
              if ending.Some? then outcome == Some(ending.value.outcome) else outcome == None && next == NextPlace(p, at)
    {
      hide Stored, Decoded, BadIds, SetAll, Position;
      if !reply.Page? {
        StoringNothing(p.log, p.bad, table, at.position);
        return Some(Threw), at;
      }
      StoringNothing(p.log, p.bad, table, at.position);
      var isLast, newLedger, end := StorePage(p, contracts, reply, at);
      outcome := if !Commits(p, at.page) then Some(Threw)
                 else if !isLast then None
                 else if end < at.position + PAGE_LIMIT then Some(Finished) else Some(FinishedWithoutCursor);
      next := Place(at.page + 1, at.start, end, newLedger);
    }

    /** Fetch the next page: the first by ledger, the others by cursor. */
    method FetchNextPage(p: Poll, ghost contracts: seq<string>, at0: Place, k0: nat, ghost before: Tables)
      returns (reply: Reply, at: Place, k: nat)
      requires Valid() && AtPlace(p, at0, k0) && at0.page < p.maxPages && Now() == TablesAt(p, contracts, before, at0)
      modifies `skipped, `skips
      ensures Valid() && Fetched(p, at) && at.page == at0.page && Now() == TablesAt(p, contracts, before, at)
      ensures reply == PageReply(p, at.page) && k == Offset(p) + at.page + 1
    {
      var cursor, start := if at0.page == 0 then None else Some(at0.position), at0.start;
      reply, start, k := FetchPageRetentionAware(p, k0, at0.start, cursor);
      at := at0.(start := start, position := if cursor.Some? then cursor.value else Position(p.log, start));
    }

    /** One turn of the loop. */
    method PollPage(p: Poll, contracts: seq<string>, at0: Place, k0: nat, ghost before: Tables)
      returns (outcome: Option<Outcome>, at: Place, k: nat)
      requires Valid() && ValidLog(p.log)
      requires AtPlace(p, at0, k0) && at0.page < p.maxPages && Now() == TablesAt(p, contracts, before, at0)
      modifies this
      ensures Valid()
      ensures if outcome.Some? then outcome.value == EndingOf(p).outcome && Now() == TablesAfter(p, contracts, before)
              else AtPlace(p, at, k) && PlaceOk(p, at) && at.page == at0.page + 1 && Now() == TablesAt(p, contracts, before, at)
    {
      hide EndingFrom, EndingOf, PageEnding, TablesAfterPage, TablesAt, TablesAfter, AtPlace;
      var reply;
      reply, at, k := FetchNextPage(p, contracts, at0, k0, before);
      ghost var fetched := at;
      outcome, at := TakePage(p, contracts, reply, at);
      NextIsAtPlace(p, fetched);
      PageAdvances(p, contracts, before, fetched);
    }

    /** A group is passed over when the chain has nothing new for it, else its pages are polled up to the cap. */
    method PollGroup(p: Poll, contracts: seq<string>) returns (outcome: Option<Outcome>)
      requires Valid() && ValidLog(p.log)
      modifies this
      ensures Valid()
      ensures if p.currentLedger <= p.pointer then outcome == None && Now() == old(Now())
              else outcome == Some(EndingOf(p).outcome) && Now() == TablesAfter(p, contracts, old(Now()))
    {
      hide EndingFrom, EndingOf, TablesAt, TablesAfter, AtPlace;
      if p.currentLedger <= p.pointer {
        return None;
      }
      ghost var before := Now();
      var at, k := Place(0, p.pointer + 1, Position(p.log, p.pointer + 1), p.pointer), 0;
      PollStarts(p, contracts, before);
      while at.page < p.maxPages
        invariant Valid() && AtPlace(p, at, k) && PlaceOk(p, at) && Now() == TablesAt(p, contracts, before, at)
        decreases p.maxPages - at.page
      {
        outcome, at, k := PollPage(p, contracts, at, k, before);
        if outcome.Some? {
          return;
        }
      }
      CapEnds(p, contracts, before, at, k);
      return Some(CutByCap);
    }
  }
}
