/**
 Locked event inserts: a batch takes the lock of each of its event identities in sorted order,
 runs its insert while holding all of them, and gives them back innermost first.

 The atomic steps are the stretches of the source between two awaits. Any number of batches run
 at once and the steps interleave freely.
 */
module EventInsertLocks {
  import opened Wrappers
  import opened PromiseTailLock
  import opened StringOrder
  import opened Sums
  import opened FieldKeys
  import DecimalText

  datatype EventRow = EventRow(contractId: string, eventType: string, ledgerSequence: nat, eventId: Option<string>)

  /** The id when there is a non-empty one, else contract, ledger and type. */
  function LockKey(ev: EventRow): string {
    if ev.eventId.Some? && ev.eventId.value != "" then "id:" + ev.eventId.value
    else ev.contractId + ":" + DecimalText.ToText(ev.ledgerSequence) + ":" + ev.eventType
  }

  function BatchKeys(events: seq<EventRow>): (keys: seq<string>)
    ensures Ascending(keys)
    ensures forall i :: 0 <= i < |events| ==> LockKey(events[i]) in keys
    ensures forall k :: k in keys ==> exists i :: 0 <= i < |events| && LockKey(events[i]) == k
  {
    var all := seq(|events|, i requires 0 <= i < |events| => LockKey(events[i]));
    SortDistinctSorts(all);
    assert forall i :: 0 <= i < |events| ==> all[i] == LockKey(events[i]);
    SortDistinct(all)
  }

  /** Waiting(p): behind the lock of key p, holding 0..p. Unwinding(p): inserted, 0..p still held. */
  datatype Phase = NotStarted | Waiting(pos: nat) | Unwinding(pos: nat) | Done

  datatype Batch = Batch(keys: seq<string>, tickets: seq<nat>, phase: Phase)

  /** `inserts` lists the batches in the order their insert ran. */
  datatype State = State(batches: seq<Batch>, locks: Locks, inserts: seq<nat>)

  function Start(s: State, b: nat): State
    requires b < |s.batches|
  {
    var batch := s.batches[b];
    if batch.keys == [] then
      s.(batches := s.batches[b := batch.(phase := Done)], inserts := s.inserts + [b])
    else
      s.(batches := s.batches[b := batch.(tickets := [|s.locks.tickets|], phase := Phase.Waiting(0))],
         locks := Request(s.locks, batch.keys[0], b))
  }

  predicate AtAwait(s: State, b: nat) {
    && b < |s.batches| && s.batches[b].phase.Waiting?
    && s.batches[b].phase.pos < |s.batches[b].tickets|
    && s.batches[b].tickets[s.batches[b].phase.pos] < |s.locks.tickets|
  }

  predicate CanUnwind(s: State, b: nat) {
    && b < |s.batches| && s.batches[b].phase.Unwinding?
    && s.batches[b].phase.pos < |s.batches[b].tickets|
    && s.batches[b].tickets[s.batches[b].phase.pos] < |s.locks.tickets|
  }

  /** The await on key `pos` returns; the batch goes on to the next key, or inserts. */
  function Resume(s: State, b: nat): State
    requires AtAwait(s, b)
  {
    var batch := s.batches[b];
    var pos := batch.phase.pos;
    var granted := Grant(s.locks, batch.tickets[pos]);
    if pos + 1 < |batch.keys| then
      s.(batches := s.batches[b := batch.(tickets := batch.tickets + [|granted.tickets|], phase := Phase.Waiting(pos + 1))],
         locks := Request(granted, batch.keys[pos + 1], b))
    else
      State(s.batches[b := batch.(phase := Unwinding(pos))], granted, s.inserts + [b])
  }

  function Unwind(s: State, b: nat): State
    requires CanUnwind(s, b)
  {
    var batch := s.batches[b];
    var pos := batch.phase.pos;
    s.(batches := s.batches[b := batch.(phase := if pos == 0 then Done else Unwinding(pos - 1))],
       locks := Release(s.locks, batch.tickets[pos]))
  }

  // ---- invariant -----------------------------------------------------------------------------

  /** What status the ticket of key p must have, given the phase. */
  function StatusAt(phase: Phase, p: nat): Status {
    match phase
    case Waiting(pos) => if p == pos then Status.Waiting else Held
    case Unwinding(pos) => if p <= pos then Held else Released
    case _ => Released
  }

  ghost predicate BatchOk(s: State, b: nat)
    requires b < |s.batches|
  {
    var batch := s.batches[b];
    && Ascending(batch.keys)
    && (batch.phase.NotStarted? ==> batch.tickets == [])
    && (batch.phase.Waiting? ==> batch.phase.pos < |batch.keys| && |batch.tickets| == batch.phase.pos + 1)
    && (batch.phase.Unwinding? ==> batch.phase.pos < |batch.keys|)
    && (batch.phase.Unwinding? || batch.phase.Done? ==> |batch.tickets| == |batch.keys|)
    && forall p :: 0 <= p < |batch.tickets| ==> TicketOk(s, b, p)
  }

  ghost predicate TicketOk(s: State, b: nat, p: nat)
    requires b < |s.batches| && p < |s.batches[b].tickets|
  {
    var batch := s.batches[b];
    var t := batch.tickets[p];
    && p < |batch.keys|
    && t < |s.locks.tickets|
    && s.locks.tickets[t].key == batch.keys[p]
    && s.locks.tickets[t].owner == b
    && s.locks.tickets[t].status == StatusAt(batch.phase, p)
  }

  /** Every ticket belongs to a batch. */
  ghost predicate Owned(s: State, t: nat)
    requires t < |s.locks.tickets|
  {
    var b := s.locks.tickets[t].owner;
    b < |s.batches| && t in s.batches[b].tickets
  }

  ghost predicate HasInserted(s: State, b: nat) {
    b < |s.batches| && (s.batches[b].phase.Unwinding? || s.batches[b].phase.Done?)
  }

  ghost predicate InsertsOk(s: State) {
    && (forall b: nat :: b in s.inserts <==> HasInserted(s, b))
    && (forall x, y :: 0 <= x < y < |s.inserts| ==> s.inserts[x] != s.inserts[y])
  }

  /** Calls t and u are for one key; they belong to the x-th and the y-th insert, x first. */
  ghost predicate Meet(s: State, x: int, y: int, t: int, u: int) {
    && 0 <= x < y < |s.inserts| && 0 <= t < |s.locks.tickets| && 0 <= u < |s.locks.tickets|
    && s.locks.tickets[t].owner == s.inserts[x]
    && s.locks.tickets[u].owner == s.inserts[y]
    && s.locks.tickets[t].key == s.locks.tickets[u].key
  }

  /** Batches meeting at a key insert in the order they asked for it. */
  ghost predicate InsertsFollowRequests(s: State) {
    forall x, y, t, u :: Meet(s, x, y, t, u) ==> t < u
  }

  ghost predicate Inv(s: State) {
    && LocksInv(s.locks)
    && (forall b :: 0 <= b < |s.batches| ==> BatchOk(s, b))
    && (forall t :: 0 <= t < |s.locks.tickets| ==> Owned(s, t))
    && InsertsOk(s)
    && InsertsFollowRequests(s)
  }

  ghost predicate Init(s: State) {
    && s.locks == NO_LOCKS
    && s.inserts == []
    && forall b :: 0 <= b < |s.batches| ==>
         s.batches[b].phase == NotStarted && s.batches[b].tickets == [] && Ascending(s.batches[b].keys)
  }

  lemma InitEstablishesInv(s: State)
    requires Init(s)
    ensures Inv(s)
  {}

  // ---- steps ---------------------------------------------------------------------------------

  ghost predicate CanResume(s: State, b: nat) {
    AtAwait(s, b) && CanGrant(s.locks, s.batches[b].tickets[s.batches[b].phase.pos])
  }

  ghost predicate Enabled(s: State, b: nat) {
    || (b < |s.batches| && s.batches[b].phase.NotStarted?)
    || CanResume(s, b)
    || CanUnwind(s, b)
  }

  ghost function Step(s: State, b: nat): State
    requires Enabled(s, b)
  {
    match s.batches[b].phase
    case NotStarted => Start(s, b)
    case Unwinding(_) => Unwind(s, b)
    case _ => Resume(s, b)
  }

  /** A step of b leaves every other batch as it was. */
  lemma OthersKeep(s: State, s': State, b: nat)
    requires b < |s.batches| == |s'.batches|
    requires forall c :: 0 <= c < |s.batches| && c != b ==> s'.batches[c] == s.batches[c]
    requires |s.locks.tickets| <= |s'.locks.tickets|
    requires forall t :: 0 <= t < |s.locks.tickets| && s.locks.tickets[t].owner != b ==>
               s'.locks.tickets[t] == s.locks.tickets[t]
    ensures forall c :: 0 <= c < |s.batches| && c != b && BatchOk(s, c) ==> BatchOk(s', c)
  {
    forall c | 0 <= c < |s.batches| && c != b && BatchOk(s, c) ensures BatchOk(s', c) {
      forall p | 0 <= p < |s.batches[c].tickets| ensures TicketOk(s', c, p) {
        assert TicketOk(s, c, p);
      }
    }
  }

  lemma StartKeepsBatches(s: State, b: nat)
    requires Inv(s) && b < |s.batches| && s.batches[b].phase.NotStarted?
    ensures LocksInv(Start(s, b).locks)
    ensures forall c :: 0 <= c < |s.batches| ==> BatchOk(Start(s, b), c)
  {
    assert BatchOk(s, b);
    OthersKeep(s, Start(s, b), b);
    if s.batches[b].keys != [] {
      RequestKeepsInv(s.locks, s.batches[b].keys[0], b);
    }
  }

  lemma StartKeepsOwners(s: State, b: nat)
    requires Inv(s) && b < |s.batches| && s.batches[b].phase.NotStarted?
    ensures forall t :: 0 <= t < |Start(s, b).locks.tickets| ==> Owned(Start(s, b), t)
    ensures forall t :: 0 <= t < |s.locks.tickets| ==> s.locks.tickets[t].owner != b
  {
    assert BatchOk(s, b);
    forall t | 0 <= t < |s.locks.tickets| ensures Owned(Start(s, b), t) && s.locks.tickets[t].owner != b {
      assert Owned(s, t);
    }
  }

  lemma StartKeepsInserts(s: State, b: nat)
    requires Inv(s) && b < |s.batches| && s.batches[b].phase.NotStarted?
    ensures InsertsOk(Start(s, b)) && b !in s.inserts
  {
    var s' := Start(s, b);
    assert !HasInserted(s, b);
    forall c: nat ensures c in s'.inserts <==> HasInserted(s', c) {
      assert c in s.inserts <==> HasInserted(s, c);
    }
  }

  lemma StartKeepsInv(s: State, b: nat)
    requires Inv(s) && b < |s.batches| && s.batches[b].phase.NotStarted?
    ensures Inv(Start(s, b))
  {
    var s' := Start(s, b);
    StartKeepsBatches(s, b);
    StartKeepsOwners(s, b);
    StartKeepsInserts(s, b);
    forall x, y, t, u | Meet(s', x, y, t, u) ensures t < u {
      assert s'.inserts[x] in s.inserts && t < |s.locks.tickets|;
      assert y < |s.inserts| ==> s.inserts[y] in s.inserts;
      assert Meet(s, x, y, t, u);
    }
  }

  /** The tickets of one batch are distinct calls. */
  lemma TicketsDistinct(s: State, b: nat, p: nat, q: nat)
    requires b < |s.batches| && BatchOk(s, b) && p < q < |s.batches[b].tickets|
    ensures s.batches[b].tickets[p] != s.batches[b].tickets[q]
  {
    assert TicketOk(s, b, p) && TicketOk(s, b, q);
    Asymmetric(s.batches[b].keys[p], s.batches[b].keys[q]);
  }

  lemma ResumeKeepsBatches(s: State, b: nat)
    requires Inv(s) && CanResume(s, b)
    ensures forall c :: 0 <= c < |s.batches| ==> BatchOk(Resume(s, b), c)
  {
    var s' := Resume(s, b);
    var pos := s.batches[b].phase.pos;
    assert BatchOk(s, b) && TicketOk(s, b, pos);
    OthersKeep(s, s', b);
    forall p | 0 <= p < |s'.batches[b].tickets| ensures TicketOk(s', b, p) {
      if p <= pos {
        assert TicketOk(s, b, p);
        if p < pos {
          TicketsDistinct(s, b, p, pos);
        }
      }
    }
  }

  lemma ResumeKeepsOwners(s: State, b: nat)
    requires Inv(s) && CanResume(s, b)
    ensures forall t :: 0 <= t < |Resume(s, b).locks.tickets| ==> Owned(Resume(s, b), t)
  {
    var s' := Resume(s, b);
    assert BatchOk(s, b);
    forall u | 0 <= u < |s'.locks.tickets| ensures Owned(s', u) {
      if u < |s.locks.tickets| {
        assert Owned(s, u);
      } else {
        assert u == s'.batches[b].tickets[s.batches[b].phase.pos + 1];
      }
    }
  }

  lemma ResumeKeepsLocks(s: State, b: nat)
    requires LocksInv(s.locks) && CanResume(s, b)
    ensures LocksInv(Resume(s, b).locks)
  {
    var batch := s.batches[b];
    var pos := batch.phase.pos;
    GrantKeepsInv(s.locks, batch.tickets[pos]);
    if pos + 1 < |batch.keys| {
      RequestKeepsInv(Grant(s.locks, batch.tickets[pos]), batch.keys[pos + 1], b);
    }
  }

  lemma ResumeKeepsInserts(s: State, b: nat)
    requires InsertsOk(s) && CanResume(s, b)
    ensures InsertsOk(Resume(s, b))
  {
    var s' := Resume(s, b);
    assert !HasInserted(s, b);
    assert b !in s.inserts;
    forall c: nat ensures c in s'.inserts <==> HasInserted(s', c) {
      assert c in s.inserts <==> HasInserted(s, c);
    }
  }

  lemma ResumeKeepsInv(s: State, b: nat)
    requires Inv(s) && CanResume(s, b)
    ensures Inv(Resume(s, b))
  {
    ResumeKeepsBatches(s, b);
    ResumeKeepsOwners(s, b);
    ResumeKeepsLocks(s, b);
    ResumeKeepsInserts(s, b);
    ResumeKeepsInsertOrder(s, b);
  }

  lemma ResumeKeepsInsertOrder(s: State, b: nat)
    requires Inv(s) && CanResume(s, b)
    ensures InsertsFollowRequests(Resume(s, b))
  {
    var s' := Resume(s, b);
    assert BatchOk(s, b);
    assert TicketOk(s, b, s.batches[b].phase.pos);
    forall x, y, t, u | Meet(s', x, y, t, u)
      ensures t < u
    {
      var a := s'.inserts[x];
      assert a in s.inserts && HasInserted(s, a);
      assert !HasInserted(s, b);
      assert t < |s.locks.tickets|;
      if y < |s.inserts| {
        assert s.inserts[y] in s.inserts && HasInserted(s, s.inserts[y]);
        assert Meet(s, x, y, t, u);
      } else {
        // b holds u, and a is past waiting for t
        assert Owned(s, t) && Owned(s, u);
        assert BatchOk(s, a);
        var p :| 0 <= p < |s.batches[a].tickets| && s.batches[a].tickets[p] == t;
        assert TicketOk(s, a, p);
        var q :| 0 <= q < |s.batches[b].tickets| && s.batches[b].tickets[q] == u;
        assert TicketOk(s, b, q);
        assert s.locks.tickets[t].status != Status.Waiting;
        assert s.locks.tickets[u].status != Released;
        assert !Before(s.locks, u, t);
      }
    }
  }

  lemma UnwindKeepsInv(s: State, b: nat)
    requires Inv(s) && CanUnwind(s, b)
    ensures Inv(Unwind(s, b))
  {
    var s' := Unwind(s, b);
    var pos := s.batches[b].phase.pos;
    var t := s.batches[b].tickets[pos];
    assert BatchOk(s, b) && TicketOk(s, b, pos);
    ReleaseKeepsInv(s.locks, t);
    OthersKeep(s, s', b);
    forall p | 0 <= p < |s'.batches[b].tickets| ensures TicketOk(s', b, p) {
      assert TicketOk(s, b, p);
      if p < pos {
        TicketsDistinct(s, b, p, pos);
      } else if pos < p {
        TicketsDistinct(s, b, pos, p);
      }
    }
    forall u | 0 <= u < |s'.locks.tickets| ensures Owned(s', u) {
      assert Owned(s, u);
    }
    forall c: nat ensures c in s'.inserts <==> HasInserted(s', c) {
      assert c in s.inserts <==> HasInserted(s, c);
    }
    forall x, y, v, u | Meet(s', x, y, v, u) ensures v < u {
      assert Meet(s, x, y, v, u);
    }
  }

  lemma StepKeepsInv(s: State, b: nat)
    requires Inv(s) && Enabled(s, b)
    ensures Inv(Step(s, b))
  {
    match s.batches[b].phase
    case NotStarted => StartKeepsInv(s, b);
    case Unwinding(_) => UnwindKeepsInv(s, b);
    case _ => ResumeKeepsInv(s, b);
  }

  // ---- no deadlock ---------------------------------------------------------------------------

  /** Among unfinished calls there is one whose key is the greatest, and which is first for it. */
  lemma {:induction false} GreatestKey(s: State, n: nat) returns (t: nat)
    requires n <= |s.locks.tickets|
    requires exists u :: 0 <= u < n && s.locks.tickets[u].status != Released
    ensures t < n && s.locks.tickets[t].status != Released
    ensures forall u :: 0 <= u < n && s.locks.tickets[u].status != Released ==>
              !Less(s.locks.tickets[t].key, s.locks.tickets[u].key)
    ensures forall u :: 0 <= u < t && s.locks.tickets[u].status != Released ==>
              s.locks.tickets[u].key != s.locks.tickets[t].key
  {
    var last := s.locks.tickets[n - 1];
    if forall u :: 0 <= u < n - 1 ==> s.locks.tickets[u].status == Released {
      t := n - 1;
      if Less(last.key, last.key) {
        Asymmetric(last.key, last.key);
      }
    } else {
      t := GreatestKey(s, n - 1);
      var best := s.locks.tickets[t].key;
      if last.status != Released && Less(best, last.key) {
        forall u | 0 <= u < n && s.locks.tickets[u].status != Released
          ensures !Less(last.key, s.locks.tickets[u].key)
          ensures u < n - 1 ==> s.locks.tickets[u].key != last.key
        {
          var k := s.locks.tickets[u].key;
          if Less(last.key, k) {
            Transitive(best, last.key, k);
            Asymmetric(last.key, k);
          }
        }
        t := n - 1;
      }
    }
  }

  /** Some step is possible until every batch is done: ordered acquisition cannot deadlock. */
  lemma NeverStuck(s: State) returns (b: nat)
    requires Inv(s)
    requires exists c :: 0 <= c < |s.batches| && s.batches[c].phase != Done
    ensures Enabled(s, b)
  {
    b :| b < |s.batches| && s.batches[b].phase != Done;
    assert BatchOk(s, b);
    if s.batches[b].phase.Unwinding? {
      assert TicketOk(s, b, s.batches[b].phase.pos);
    } else if s.batches[b].phase.Waiting? {
      assert TicketOk(s, b, s.batches[b].phase.pos);
      var t := GreatestKey(s, |s.locks.tickets|);
      assert Owned(s, t);
      b := s.locks.tickets[t].owner;
      assert BatchOk(s, b);
      var p :| 0 <= p < |s.batches[b].tickets| && s.batches[b].tickets[p] == t;
      assert TicketOk(s, b, p);
      // its owner waits at p itself: were it further on, that key would be greater
      var pos := s.batches[b].phase.pos;
      assert TicketOk(s, b, pos);
      if s.batches[b].phase.Waiting? {
        assert pos == p;
        FirstIsReady(s.locks, t);
      }
    }
  }

  // ---- whole runs ----------------------------------------------------------------------------

  /** Steps a batch still has to take: one request and one release a key, and the first call. */
  function StepsLeft(batch: Batch): int {
    match batch.phase
    case NotStarted => 2 * |batch.keys| + 1
    case Waiting(pos) => 2 * |batch.keys| - pos
    case Unwinding(pos) => pos + 1
    case Done => 0
  }

  function Plan(batches: seq<Batch>): seq<int> {
    seq(|batches|, b requires 0 <= b < |batches| => StepsLeft(batches[b]))
  }

  function TotalLeft(batches: seq<Batch>): int {
    Sum(Plan(batches))
  }

  lemma StepCountsDown(s: State, b: nat)
    requires Inv(s) && Enabled(s, b)
    ensures |Step(s, b).batches| == |s.batches|
    ensures TotalLeft(Step(s, b).batches) == TotalLeft(s.batches) - 1
  {
    assert BatchOk(s, b);
    var left := StepsLeft(Step(s, b).batches[b]);
    SumUpdate(Plan(s.batches), b, left);
    assert Plan(Step(s, b).batches) == Plan(s.batches)[b := left];
  }

  ghost predicate Next(s: State, s': State) {
    exists b :: Enabled(s, b) && s' == Step(s, b)
  }

  /** One interleaving, from a state where no batch has started. */
  ghost predicate IsRun(run: seq<State>) {
    && run != [] && Init(run[0])
    && forall i :: 0 <= i < |run| - 1 ==> Next(run[i], run[i + 1])
  }

  lemma {:induction false} RunKeepsInv(run: seq<State>, i: nat)
    requires IsRun(run) && i < |run|
    ensures Inv(run[i])
    ensures |run[i].batches| == |run[0].batches|
    ensures TotalLeft(run[i].batches) == TotalLeft(run[0].batches) - i
  {
    if i == 0 {
      InitEstablishesInv(run[0]);
    } else {
      RunKeepsInv(run, i - 1);
      assert Next(run[i - 1], run[i - 1 + 1]);
      var b :| Enabled(run[i - 1], b) && run[i] == Step(run[i - 1], b);
      StepKeepsInv(run[i - 1], b);
      StepCountsDown(run[i - 1], b);
    }
  }

  ghost predicate NoStepPossible(s: State) {
    forall b: nat :: !Enabled(s, b)
  }

  ghost predicate AllDone(s: State) {
    forall b :: 0 <= b < |s.batches| ==> s.batches[b].phase == Done
  }

  /**
   An interleaving that can go no further has finished every batch, after exactly the planned number
   of steps; each batch has inserted exactly once, and the tails map is empty again.
   */
  lemma RunsFinish(run: seq<State>)
    requires IsRun(run) && NoStepPossible(run[|run| - 1])
    ensures var last := run[|run| - 1];
            && AllDone(last)
            && |run| - 1 == TotalLeft(run[0].batches)
            && (forall b: nat :: multiset(last.inserts)[b] == if b < |run[0].batches| then 1 else 0)
            && last.locks.tails == map[]
  {
    var last := run[|run| - 1];
    RunKeepsInv(run, |run| - 1);
    if !AllDone(last) {
      var b := NeverStuck(last);
      assert false;
    }
    SumZero(Plan(last.batches));
    forall b: nat ensures multiset(last.inserts)[b] == if b < |run[0].batches| then 1 else 0 {
      CountDistinct(last.inserts, b);
      assert b in last.inserts <==> HasInserted(last, b);
    }
    DoneReleasesAll(last);
    assert last.locks.tails.Keys == {};
  }

  lemma DoneReleasesAll(s: State)
    requires Inv(s) && AllDone(s)
    ensures forall t :: 0 <= t < |s.locks.tickets| ==> s.locks.tickets[t].status == Released
  {
    forall t | 0 <= t < |s.locks.tickets| ensures s.locks.tickets[t].status == Released {
      assert Owned(s, t);
      var b := s.locks.tickets[t].owner;
      assert BatchOk(s, b);
      var p :| 0 <= p < |s.batches[b].tickets| && s.batches[b].tickets[p] == t;
      assert TicketOk(s, b, p);
    }
  }

  lemma {:induction false} CountDistinct(xs: seq<nat>, x: nat)
    requires forall i, j :: 0 <= i < j < |xs| ==> xs[i] != xs[j]
    ensures multiset(xs)[x] == if x in xs then 1 else 0
  {
    if xs != [] {
      CountDistinct(xs[1..], x);
      assert xs == [xs[0]] + xs[1..];
    }
  }

  /** Two batches inside one key at a time is impossible, and the earlier caller goes first. */
  lemma BatchesExcludeAndQueue(s: State, t: nat, u: nat)
    requires Inv(s) && t < u < |s.locks.tickets| && s.locks.tickets[t].key == s.locks.tickets[u].key
    ensures s.locks.tickets[u].status != Status.Waiting ==> s.locks.tickets[t].status == Released
    ensures s.locks.tickets[u].owner in s.inserts ==> s.locks.tickets[t].owner in s.inserts
    ensures s.locks.tickets[t].owner != s.locks.tickets[u].owner
  {
    assert Before(s.locks, t, u);
    assert Owned(s, t) && Owned(s, u);
    var a, b := s.locks.tickets[t].owner, s.locks.tickets[u].owner;
    assert BatchOk(s, a) && BatchOk(s, b);
    var p :| 0 <= p < |s.batches[a].tickets| && s.batches[a].tickets[p] == t;
    assert TicketOk(s, a, p);
    var q :| 0 <= q < |s.batches[b].tickets| && s.batches[b].tickets[q] == u;
    assert TicketOk(s, b, q);
    if a == b {
      if p < q { Asymmetric(s.batches[a].keys[p], s.batches[a].keys[q]); }
      if q < p { Asymmetric(s.batches[a].keys[q], s.batches[a].keys[p]); }
    }
    if b in s.inserts {
      assert HasInserted(s, b);
    }
  }

  // ---- which events share a lock -----------------------------------------------------------------------

  ghost predicate HasId(ev: EventRow) {
    ev.eventId.Some? && ev.eventId.value != ""
  }

  /** One identity: the same id, or no id and the same contract, ledger and type. */
  ghost predicate SameIdentity(a: EventRow, b: EventRow) {
    if HasId(a) || HasId(b) then HasId(a) && HasId(b) && a.eventId == b.eventId
    else a.contractId == b.contractId && a.ledgerSequence == b.ledgerSequence && a.eventType == b.eventType
  }

  /** Where contracts hold no colon and none is called "id", events share a lock exactly when they are the same. */
  lemma LocksTellEventsApart(a: EventRow, b: EventRow)
    requires ':' !in a.contractId && ':' !in b.contractId && a.contractId != "id" && b.contractId != "id"
    ensures LockKey(a) == LockKey(b) <==> SameIdentity(a, b)
  {
    if HasId(a) && HasId(b) {
      assert LockKey(a)[3..] == a.eventId.value && LockKey(b)[3..] == b.eventId.value;
    } else if !HasId(a) && !HasId(b) {
      JoinedSeparates(':', a.contractId, a.ledgerSequence, a.eventType, b.contractId, b.ledgerSequence, b.eventType);
    } else if HasId(a) {
      IdIsNoEvent(a, b);
    } else {
      IdIsNoEvent(b, a);
    }
  }

  lemma IdIsNoEvent(a: EventRow, b: EventRow)
    requires HasId(a) && !HasId(b) && ':' !in b.contractId && b.contractId != "id"
    ensures LockKey(a) != LockKey(b)
  {
    var rest := DecimalText.ToText(b.ledgerSequence) + ":" + b.eventType;
    if LockKey(a) == LockKey(b) {
      assert LockKey(a) == "id" + [':'] + a.eventId.value;
      assert LockKey(b) == b.contractId + [':'] + rest;
      FirstSeparatorCuts(':', "id", a.eventId.value, b.contractId, rest);
    }
  }

  lemma SameIdentitySameLock(a: EventRow, b: EventRow)
    requires SameIdentity(a, b)
    ensures LockKey(a) == LockKey(b)
  {
  }

  /** The batch holds the lock of its p-th key. */
  ghost predicate HoldsLock(s: State, b: nat, p: int)
    requires b < |s.batches|
  {
    && 0 <= p < |s.batches[b].keys| && p < |s.batches[b].tickets| && s.batches[b].tickets[p] < |s.locks.tickets|
    && s.locks.tickets[s.batches[b].tickets[p]].status == Held
  }

  /** Batches with a common event need a common lock, and never hold it both. */
  lemma CommonEventExcludes(s: State, b: nat, c: nat, events: seq<EventRow>, others: seq<EventRow>, i: nat, j: nat)
    returns (p: nat, q: nat)
    requires Inv(s) && b < |s.batches| && c < |s.batches| && b != c
    requires s.batches[b].keys == BatchKeys(events) && s.batches[c].keys == BatchKeys(others)
    requires i < |events| && j < |others| && SameIdentity(events[i], others[j])
    ensures p < |s.batches[b].keys| && q < |s.batches[c].keys| && s.batches[b].keys[p] == s.batches[c].keys[q]
    ensures !(HoldsLock(s, b, p) && HoldsLock(s, c, q))
  {
    hide LockKey, SameIdentity, LocksInv, StatusAt;
    SameIdentitySameLock(events[i], others[j]);
    p :| 0 <= p < |s.batches[b].keys| && s.batches[b].keys[p] == LockKey(events[i]);
    q :| 0 <= q < |s.batches[c].keys| && s.batches[c].keys[q] == LockKey(others[j]);
    if HoldsLock(s, b, p) && HoldsLock(s, c, q) {
      assert BatchOk(s, b) && BatchOk(s, c);
      assert TicketOk(s, b, p) && TicketOk(s, c, q);
      MutualExclusion(s.locks, s.batches[b].tickets[p], s.batches[c].tickets[q]);
    }
  }

  /** Once its last await returns a batch inserts at once, and then it holds every one of its locks. */
  lemma InsertsHoldingAll(s: State, b: nat, p: nat)
    requires Inv(s) && CanResume(s, b) && s.batches[b].phase.pos + 1 == |s.batches[b].keys| && p < |s.batches[b].keys|
    ensures Step(s, b).inserts == s.inserts + [b] && HoldsLock(Step(s, b), b, p)
  {
    assert BatchOk(s, b);
    assert TicketOk(s, b, p);
    if p < s.batches[b].phase.pos {
      TicketsDistinct(s, b, p, s.batches[b].phase.pos);
    }
  }

  // ---- the module state of the source ----------------------------------------------------------

  /** `eventInsertLockTails`, the promises it refers to, and the callers under way. */
  class EventInserter {
    var eventInsertLockTails: map<string, nat>
    var promises: seq<Ticket>
    var batches: seq<Batch>
    var inserts: seq<nat>

    ghost function Abs(): State
      reads this
    {
      State(batches, Locks(promises, eventInsertLockTails), inserts)
    }

    /** No lock is taken, and these batches are about to be inserted. */
    constructor (eventLists: seq<seq<EventRow>>)
      ensures Init(Abs()) && |batches| == |eventLists|
      ensures forall b :: 0 <= b < |eventLists| ==> batches[b].keys == BatchKeys(eventLists[b])
    {
      eventInsertLockTails := map[];
      promises, inserts := [], [];
      batches := seq(|eventLists|, b requires 0 <= b < |eventLists| => Batch(BatchKeys(eventLists[b]), [], NotStarted));
    }

    /** The synchronous head of `withEventInsertLock`. */
    method Call(key: string, b: nat) returns (t: nat)
      modifies this`promises, this`eventInsertLockTails
      ensures t == |old(promises)|
      ensures Abs() == old(Abs()).(locks := Request(old(Abs().locks), key, b))
    {
      var previous := if key in eventInsertLockTails then Some(eventInsertLockTails[key]) else None;
      t := |promises|;
      promises := promises + [Ticket(key, b, previous, Status.Waiting)];
      eventInsertLockTails := eventInsertLockTails[key := t];
    }

    /** `acquireEventLocksInOrder` from key `pos` on, up to its next await. */
    method AcquireFrom(b: nat, pos: nat)
      requires b < |batches| && pos <= |batches[b].keys|
      requires pos == |batches[b].keys| ==> pos == 0 || batches[b].phase == Phase.Waiting(pos - 1)
      modifies this
      ensures pos == |old(batches[b].keys)| ==>
                Abs() == old(Abs()).(inserts := old(inserts) + [b],
                                     batches := old(batches)[b := old(batches)[b].(
                                       phase := if pos == 0 then Done else Unwinding(pos - 1))])
      ensures pos < |old(batches[b].keys)| ==>
                Abs() == old(Abs()).(locks := Request(old(Abs().locks), old(batches[b].keys[pos]), b),
                                     batches := old(batches)[b := old(batches)[b].(
                                       tickets := old(batches[b].tickets) + [|old(promises)|],
                                       phase := Phase.Waiting(pos))])
    {
      var batch := batches[b];
      if pos == |batch.keys| {
        inserts := inserts + [b];
        batches := batches[b := batch.(phase := if pos == 0 then Done else Unwinding(pos - 1))];
      } else {
        var t := Call(batch.keys[pos], b);
        batches := batches[b := batch.(tickets := batch.tickets + [t], phase := Phase.Waiting(pos))];
      }
    }

    /** The await inside `acquireEventLocksInOrder` returns. */
    method Granted(b: nat)
      requires AtAwait(Abs(), b) && batches[b].phase.pos < |batches[b].keys|
      modifies this
      ensures Abs() == Resume(old(Abs()), b)
    {
      var pos := batches[b].phase.pos;
      var t := batches[b].tickets[pos];
      promises := promises[t := promises[t].(status := Held)];
      AcquireFrom(b, pos + 1);
    }

    /** The innermost `finally` block still to run. */
    method Unlock(b: nat)
      requires CanUnwind(Abs(), b)
      modifies this
      ensures Abs() == Unwind(old(Abs()), b)
    {
      var pos := batches[b].phase.pos;
      var t := batches[b].tickets[pos];
      promises := promises[t := promises[t].(status := Released)];
      var key := promises[t].key;
      if key in eventInsertLockTails && eventInsertLockTails[key] == t {
        eventInsertLockTails := eventInsertLockTails - {key};
      }
      batches := batches[b := batches[b].(phase := if pos == 0 then Done else Unwinding(pos - 1))];
    }

    /** One step of batch b. */
    method Advance(b: nat)
      requires Inv(Abs()) && Enabled(Abs(), b)
      modifies this
      ensures Inv(Abs()) && Abs() == Step(old(Abs()), b)
    {
      ghost var before := Abs();
      assert BatchOk(before, b);
      StepKeepsInv(before, b);
      match batches[b].phase
      case NotStarted =>
        assert before.batches[b].tickets + [|promises|] == [|promises|];
        AcquireFrom(b, 0);
      case Waiting(_) =>
        Granted(b);
      case Unwinding(_) =>
        Unlock(b);
    }
  }
}
