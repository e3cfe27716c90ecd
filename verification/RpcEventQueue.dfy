/**
 The de-duplicating insert queue: any number of `submit` calls enqueue rows and drain the one shared
 queue, each row being persisted under the lock of its identity. Persisting may take time and may throw.

 A step is the stretch of the source between two awaits. The queue mutex guards only synchronous
 sections, so each section is one step here.
 */
module RpcEventQueue {
  import opened Wrappers
  import opened PromiseTailLock
  import opened Sums
  import DecimalText

  datatype Row = Row(contractId: string, eventType: string, ledgerSequence: nat, dataJson: string)

  /** `eventIdentityKey`. */
  function Key(row: Row): string {
    row.contractId + "|" + DecimalText.ToText(row.ledgerSequence) + "|" + row.eventType
  }

  datatype Queue = Queue(pending: seq<Row>, pendingKeys: set<string>, persistedKeys: set<string>)

  function IsDuplicate(q: Queue, row: Row): bool {
    Key(row) in q.pendingKeys || Key(row) in q.persistedKeys
  }

  function Push(q: Queue, row: Row): Queue {
    q.(pending := q.pending + [row], pendingKeys := q.pendingKeys + {Key(row)})
  }

  /** What one enqueue leaves behind: the queue, the rows it took, and whether it overflowed. */
  datatype Enqueued = Enqueued(queue: Queue, taken: seq<Row>, overflow: bool)

  /** The loop of `enqueue`: skip duplicates, and throw at the first new row that does not fit. */
  function Enqueue(q: Queue, events: seq<Row>, max: nat): Enqueued
    decreases events
  {
    if events == [] then Enqueued(q, [], false)
    else if IsDuplicate(q, events[0]) then Enqueue(q, events[1..], max)
    else if |q.pending| >= max then Enqueued(q, [], true)
    else
      var rest := Enqueue(Push(q, events[0]), events[1..], max);
      rest.(taken := [events[0]] + rest.taken)
  }

  /**
   Submitting: about to enqueue. Draining: at the head of the flush loop. Taken: holding a row that
   left the queue. Locking: awaiting its event lock. Persisting: `persist` is under way.
   Leaving: the section is over, the lock not yet given back.
   */
  datatype Phase =
    | Submitting
    | Draining
    | Taken(row: Row)
    | Locking(row: Row, ticket: nat)
    | Persisting(row: Row, ticket: nat)
    | Leaving(ticket: nat, threw: bool)
    | Resolved
    | Rejected

  datatype Caller = Caller(events: seq<Row>, phase: Phase)

  /** `accepted`, `persisted` and `failed` record what happened to rows; the source keeps no such record. */
  datatype State = State(
    queue: Queue,
    locks: Locks,
    callers: seq<Caller>,
    accepted: multiset<Row>,
    persisted: seq<Row>,
    failed: seq<Row>)

  function To(s: State, c: nat, phase: Phase): State
    requires c < |s.callers|
  {
    s.(callers := s.callers[c := s.callers[c].(phase := phase)])
  }

  function Offer(s: State, c: nat, max: nat): State
    requires c < |s.callers|
  {
    var e := Enqueue(s.queue, s.callers[c].events, max);
    To(s, c, if e.overflow then Rejected else Draining).(queue := e.queue, accepted := s.accepted + multiset(e.taken))
  }

  function Shift(s: State, c: nat): State
    requires c < |s.callers|
  {
    if s.queue.pending == [] then To(s, c, Resolved)
    else To(s, c, Taken(s.queue.pending[0])).(queue := s.queue.(pending := s.queue.pending[1..]))
  }

  function Lock(s: State, c: nat): State
    requires c < |s.callers| && s.callers[c].phase.Taken?
  {
    var row := s.callers[c].phase.row;
    To(s, c, Locking(row, |s.locks.tickets|)).(locks := Request(s.locks, Key(row), c))
  }

  function Enter(s: State, c: nat): State
    requires c < |s.callers| && s.callers[c].phase.Locking? && s.callers[c].phase.ticket < |s.locks.tickets|
  {
    var row, t := s.callers[c].phase.row, s.callers[c].phase.ticket;
    var s' := s.(locks := Grant(s.locks, t));
    if Key(row) in s.queue.persistedKeys then
      To(s', c, Leaving(t, false)).(queue := s.queue.(pendingKeys := s.queue.pendingKeys - {Key(row)}))
    else To(s', c, Persisting(row, t))
  }

  /** `persist` settles: with success, when the row is remembered as stored, or by throwing. */
  function Settle(s: State, c: nat, threw: bool): State
    requires c < |s.callers| && s.callers[c].phase.Persisting?
  {
    var row, t := s.callers[c].phase.row, s.callers[c].phase.ticket;
    var unpended := s.queue.(pendingKeys := s.queue.pendingKeys - {Key(row)});
    if threw then To(s, c, Leaving(t, true)).(queue := unpended, failed := s.failed + [row])
    else
      To(s, c, Leaving(t, false)).(
        queue := unpended.(persistedKeys := s.queue.persistedKeys + {Key(row)}),
        persisted := s.persisted + [row])
  }

  function Leave(s: State, c: nat): State
    requires c < |s.callers| && s.callers[c].phase.Leaving? && s.callers[c].phase.ticket < |s.locks.tickets|
  {
    var phase := s.callers[c].phase;
    To(s, c, if phase.threw then Rejected else Draining).(locks := Release(s.locks, phase.ticket))
  }

  ghost predicate Possible(s: State, c: nat) {
    && c < |s.callers|
    && match s.callers[c].phase
       case Locking(_, t) => CanGrant(s.locks, t)
       case Leaving(t, _) => t < |s.locks.tickets|
       case Resolved => false
       case Rejected => false
       case _ => true
  }

  /** The next step of caller c; `threw` says how a persist under way ends. */
  ghost function Step(s: State, c: nat, threw: bool, max: nat): State
    requires Possible(s, c)
  {
    match s.callers[c].phase
    case Submitting => Offer(s, c, max)
    case Draining => Shift(s, c)
    case Taken(_) => Lock(s, c)
    case Locking(_, _) => Enter(s, c)
    case Persisting(_, _) => Settle(s, c, threw)
    case _ => Leave(s, c)
  }

  // ---- which rows are where --------------------------------------------------------------------

  /** The row a caller has taken and not yet settled. */
  function Carried(phase: Phase): Option<Row> {
    match phase
    case Taken(row) => Some(row)
    case Locking(row, _) => Some(row)
    case Persisting(row, _) => Some(row)
    case _ => None
  }

  predicate Carries(s: State, c: int) {
    0 <= c < |s.callers| && Carried(s.callers[c].phase).Some?
  }

  function CarriedKey(s: State, c: int): string
    requires Carries(s, c)
  {
    Key(Carried(s.callers[c].phase).value)
  }

  function AsMultiset(o: Option<Row>): multiset<Row> {
    if o.Some? then multiset{o.value} else multiset{}
  }

  function InFlight(callers: seq<Caller>): multiset<Row> {
    if callers == [] then multiset{} else AsMultiset(Carried(callers[0].phase)) + InFlight(callers[1..])
  }

  lemma Exchange(first: multiset<Row>, rest: multiset<Row>, rest': multiset<Row>, out: multiset<Row>, into: multiset<Row>)
    requires rest' + out == rest + into
    ensures (first + rest') + out == (first + rest) + into
  {
    assert (first + rest') + out == first + (rest' + out);
    assert (first + rest) + into == first + (rest + into);
  }

  lemma {:induction false} InFlightUpdate(callers: seq<Caller>, c: nat, caller: Caller)
    requires c < |callers|
    ensures InFlight(callers[c := caller]) + AsMultiset(Carried(callers[c].phase))
            == InFlight(callers) + AsMultiset(Carried(caller.phase))
  {
    var updated := callers[c := caller];
    var out, into := AsMultiset(Carried(callers[c].phase)), AsMultiset(Carried(caller.phase));
    if c > 0 {
      InFlightUpdate(callers[1..], c - 1, caller);
      assert updated[1..] == callers[1..][c - 1 := caller];
      Exchange(AsMultiset(Carried(callers[0].phase)), InFlight(callers[1..]), InFlight(updated[1..]), out, into);
    } else {
      assert updated[1..] == callers[1..];
      Exchange(InFlight(callers[1..]), out, into, out, into);
      assert into + InFlight(callers[1..]) == InFlight(callers[1..]) + into;
      assert out + InFlight(callers[1..]) == InFlight(callers[1..]) + out;
    }
  }

  lemma TakeUp(callers: seq<Caller>, c: nat, caller: Caller)
    requires c < |callers| && Carried(callers[c].phase).None? && Carried(caller.phase).Some?
    ensures InFlight(callers[c := caller]) == InFlight(callers) + multiset{Carried(caller.phase).value}
  {
    InFlightUpdate(callers, c, caller);
  }

  lemma PutDown(callers: seq<Caller>, c: nat, caller: Caller)
    requires c < |callers| && Carried(callers[c].phase).Some? && Carried(caller.phase).None?
    ensures InFlight(callers) == InFlight(callers[c := caller]) + multiset{Carried(callers[c].phase).value}
  {
    InFlightUpdate(callers, c, caller);
  }

  // ---- invariant -----------------------------------------------------------------------------

  ghost predicate KeyAmong(rows: seq<Row>, key: string) {
    exists i :: 0 <= i < |rows| && Key(rows[i]) == key
  }

  /** Pending and in-flight identities are distinct. */
  ghost predicate KeysDistinct(s: State) {
    && (forall i, j :: 0 <= i < j < |s.queue.pending| ==> Key(s.queue.pending[i]) != Key(s.queue.pending[j]))
    && (forall c, d :: Carries(s, c) && Carries(s, d) && c != d ==> CarriedKey(s, c) != CarriedKey(s, d))
    && (forall i, c :: 0 <= i < |s.queue.pending| && Carries(s, c) ==> Key(s.queue.pending[i]) != CarriedKey(s, c))
  }

  /** `pendingKeys` is exactly the identities pending or in flight, and none of them is stored. */
  ghost predicate KeysExact(s: State) {
    && (forall i :: 0 <= i < |s.queue.pending| ==> Key(s.queue.pending[i]) in s.queue.pendingKeys)
    && (forall c :: Carries(s, c) ==> CarriedKey(s, c) in s.queue.pendingKeys)
    && (forall k :: k in s.queue.pendingKeys ==>
          || KeyAmong(s.queue.pending, k)
          || (exists c :: Carries(s, c) && CarriedKey(s, c) == k))
    && s.queue.pendingKeys !! s.queue.persistedKeys
  }

  /** Each stored identity was persisted once. */
  ghost predicate PersistedOnce(s: State) {
    && (forall i, j :: 0 <= i < j < |s.persisted| ==> Key(s.persisted[i]) != Key(s.persisted[j]))
    && (forall i :: 0 <= i < |s.persisted| ==> Key(s.persisted[i]) in s.queue.persistedKeys)
    && (forall k :: k in s.queue.persistedKeys ==> KeyAmong(s.persisted, k))
  }

  /** Every accepted row is pending, in flight, persisted or failed, and only one of these. */
  ghost predicate Conserved(s: State) {
    s.accepted == multiset(s.queue.pending) + InFlight(s.callers) + multiset(s.persisted) + multiset(s.failed)
  }

  /** The ticket of a caller inside or before its event lock. */
  ghost predicate TicketOk(s: State, c: nat)
    requires c < |s.callers|
  {
    match s.callers[c].phase
    case Locking(row, t) => IsTicket(s, c, t, Waiting) && s.locks.tickets[t].key == Key(row)
    case Persisting(row, t) => IsTicket(s, c, t, Held) && s.locks.tickets[t].key == Key(row)
    case Leaving(t, _) => IsTicket(s, c, t, Held)
    case _ => true
  }

  ghost predicate IsTicket(s: State, c: nat, t: nat, status: Status) {
    t < |s.locks.tickets| && s.locks.tickets[t].owner == c && s.locks.tickets[t].status == status
  }

  ghost predicate HasTicket(phase: Phase, t: nat) {
    match phase
    case Locking(_, u) => u == t
    case Persisting(_, u) => u == t
    case Leaving(u, _) => u == t
    case _ => false
  }

  ghost predicate LocksOk(s: State) {
    && LocksInv(s.locks)
    && (forall c :: 0 <= c < |s.callers| ==> TicketOk(s, c))
    && (forall t :: 0 <= t < |s.locks.tickets| && s.locks.tickets[t].status != Released ==>
          s.locks.tickets[t].owner < |s.callers| && HasTicket(s.callers[s.locks.tickets[t].owner].phase, t))
  }

  /** A flushing or failed caller. */
  predicate AtWork(phase: Phase) {
    !phase.Submitting? && !phase.Resolved?
  }

  /** The queue knows the identity, the store has it, or persisting it has failed. */
  ghost predicate Known(s: State, key: string) {
    key in s.queue.pendingKeys || key in s.queue.persistedKeys || KeyAmong(s.failed, key)
  }

  /** Every row of a caller whose enqueue went through is known. */
  ghost predicate Accounted(s: State, c: nat)
    requires c < |s.callers|
  {
    !s.callers[c].phase.Submitting? && !s.callers[c].phase.Rejected? ==>
      forall e :: e in s.callers[c].events ==> Known(s, Key(e))
  }

  /** A caller that has failed, or is about to. */
  predicate Doomed(phase: Phase) {
    phase.Rejected? || (phase.Leaving? && phase.threw)
  }

  ghost predicate Accounting(s: State) {
    && (forall c :: 0 <= c < |s.callers| ==> Accounted(s, c))
    && (s.queue.pending != [] ==> exists c :: 0 <= c < |s.callers| && AtWork(s.callers[c].phase))
    && (s.failed != [] ==> exists c :: 0 <= c < |s.callers| && Doomed(s.callers[c].phase))
  }

  ghost predicate Inv(s: State, max: nat) {
    && |s.queue.pending| <= max
    && KeysDistinct(s) && KeysExact(s) && PersistedOnce(s) && Conserved(s) && LocksOk(s) && Accounting(s)
  }

  ghost predicate Init(s: State) {
    && s.queue == Queue([], {}, {}) && s.locks == NO_LOCKS
    && s.accepted == multiset{} && s.persisted == [] && s.failed == []
    && forall c :: 0 <= c < |s.callers| ==> s.callers[c].phase == Submitting
  }

  lemma {:induction false} NothingInFlight(callers: seq<Caller>)
    requires forall c :: 0 <= c < |callers| ==> Carried(callers[c].phase).None?
    ensures InFlight(callers) == multiset{}
  {
    if callers != [] {
      NothingInFlight(callers[1..]);
    }
  }

  lemma InitEstablishesInv(s: State, max: nat)
    requires Init(s)
    ensures Inv(s, max)
  {
    NothingInFlight(s.callers);
  }

  // ---- steps keep the invariant ----------------------------------------------------------------

  ghost predicate NewKeys(q: Queue, rows: seq<Row>) {
    && (forall i :: 0 <= i < |rows| ==> Key(rows[i]) !in q.pendingKeys && Key(rows[i]) !in q.persistedKeys)
    && (forall i, j :: 0 <= i < j < |rows| ==> Key(rows[i]) != Key(rows[j]))
  }

  /** Enqueue appends rows with new and distinct identities, and notes their keys. */
  lemma {:induction false} EnqueueAppends(q: Queue, events: seq<Row>, max: nat)
    ensures var e := Enqueue(q, events, max);
            && e.queue.pending == q.pending + e.taken
            && e.queue.persistedKeys == q.persistedKeys
            && (forall k :: k in e.queue.pendingKeys <==> k in q.pendingKeys || KeyAmong(e.taken, k))
    decreases events
  {
    if events == [] {
    } else if IsDuplicate(q, events[0]) {
      EnqueueAppends(q, events[1..], max);
    } else if |q.pending| < max {
      var q' := Push(q, events[0]);
      EnqueueAppends(q', events[1..], max);
      var rest := Enqueue(q', events[1..], max).taken;
      var taken := [events[0]] + rest;
      assert Enqueue(q, events, max).taken == taken;
      assert q'.pending + rest == q.pending + taken;
      forall k ensures KeyAmong(taken, k) <==> k == Key(events[0]) || KeyAmong(rest, k) {
        assert taken[0] == events[0];
        if KeyAmong(rest, k) {
          var i :| 0 <= i < |rest| && Key(rest[i]) == k;
          assert taken[i + 1] == rest[i];
        }
      }
    }
  }

  lemma {:induction false} EnqueueTakesNewKeys(q: Queue, events: seq<Row>, max: nat)
    ensures NewKeys(q, Enqueue(q, events, max).taken)
    decreases events
  {
    if events == [] {
    } else if IsDuplicate(q, events[0]) {
      EnqueueTakesNewKeys(q, events[1..], max);
    } else if |q.pending| < max {
      var q' := Push(q, events[0]);
      EnqueueTakesNewKeys(q', events[1..], max);
      assert Key(events[0]) in q'.pendingKeys;
    }
  }

  /** The limit holds, only a full queue overflows, and otherwise every row offered is known afterwards. */
  lemma {:induction false} EnqueueBounded(q: Queue, events: seq<Row>, max: nat)
    requires |q.pending| <= max
    ensures var e := Enqueue(q, events, max);
            && |e.queue.pending| <= max
            && |e.taken| <= |events|
            && (e.overflow ==> |e.queue.pending| == max)
            && (!e.overflow ==> forall r :: r in events ==> IsDuplicate(e.queue, r))
    decreases events
  {
    if events == [] {
    } else if IsDuplicate(q, events[0]) {
      EnqueueBounded(q, events[1..], max);
      EnqueueAppends(q, events[1..], max);
    } else if |q.pending| < max {
      var q' := Push(q, events[0]);
      EnqueueBounded(q', events[1..], max);
      EnqueueAppends(q', events[1..], max);
      assert Key(events[0]) in q'.pendingKeys;
    }
  }

  /** Only caller c differs, and it still carries the same row. */
  ghost predicate SameCargo(s: State, s': State, c: nat) {
    && c < |s.callers| == |s'.callers|
    && s'.callers == s.callers[c := s'.callers[c]]
    && Carried(s'.callers[c].phase) == Carried(s.callers[c].phase)
  }

  lemma SameCargoKeeps(s: State, s': State, c: nat)
    requires SameCargo(s, s', c)
    ensures forall d :: Carries(s', d) <==> Carries(s, d)
    ensures forall d :: Carries(s, d) ==> CarriedKey(s', d) == CarriedKey(s, d)
    ensures InFlight(s'.callers) == InFlight(s.callers)
  {
    InFlightUpdate(s.callers, c, s'.callers[c]);
    CancelMultiset(InFlight(s'.callers), InFlight(s.callers), AsMultiset(Carried(s.callers[c].phase)));
  }

  lemma CancelMultiset(a: multiset<Row>, b: multiset<Row>, m: multiset<Row>)
    requires a + m == b + m
    ensures a == b
  {
    forall r ensures a[r] == b[r] {
      assert (a + m)[r] == (b + m)[r];
    }
  }

  lemma OfferKeepsKeys(s: State, c: nat, max: nat)
    requires KeysDistinct(s) && KeysExact(s) && PersistedOnce(s) && c < |s.callers| && s.callers[c].phase.Submitting?
    ensures KeysDistinct(Offer(s, c, max)) && KeysExact(Offer(s, c, max)) && PersistedOnce(Offer(s, c, max))
  {
    var s' := Offer(s, c, max);
    var e := Enqueue(s.queue, s.callers[c].events, max);
    EnqueueAppends(s.queue, s.callers[c].events, max);
    EnqueueTakesNewKeys(s.queue, s.callers[c].events, max);
    SameCargoKeeps(s, s', c);
    forall k | k in s'.queue.pendingKeys
      ensures KeyAmong(s'.queue.pending, k) || exists d :: Carries(s', d) && CarriedKey(s', d) == k
    {
      if KeyAmong(s.queue.pending, k) {
        var i :| 0 <= i < |s.queue.pending| && Key(s.queue.pending[i]) == k;
        assert s'.queue.pending[i] == s.queue.pending[i];
      } else if KeyAmong(e.taken, k) {
        var i :| 0 <= i < |e.taken| && Key(e.taken[i]) == k;
        assert s'.queue.pending[|s.queue.pending| + i] == e.taken[i];
      } else {
        var d :| Carries(s, d) && CarriedKey(s, d) == k;
        assert CarriedKey(s', d) == k;
      }
    }
    forall i | 0 <= i < |s'.queue.pending| ensures Key(s'.queue.pending[i]) in s'.queue.pendingKeys {
      if i >= |s.queue.pending| {
        assert s'.queue.pending[i] == e.taken[i - |s.queue.pending|];
        assert KeyAmong(e.taken, Key(s'.queue.pending[i]));
      }
    }
  }

  /** Only caller c takes up a row, the first of the queue. */
  lemma ShiftCarries(s: State, c: nat)
    requires c < |s.callers| && s.callers[c].phase.Draining? && s.queue.pending != []
    ensures var s' := Shift(s, c);
            && Carries(s', c) && CarriedKey(s', c) == Key(s.queue.pending[0])
            && (forall d :: d != c ==> (Carries(s', d) <==> Carries(s, d)))
            && (forall d :: d != c && Carries(s, d) ==> CarriedKey(s', d) == CarriedKey(s, d))
  {
  }

  lemma ShiftKeepsKeys(s: State, c: nat)
    requires KeysDistinct(s) && KeysExact(s) && PersistedOnce(s) && c < |s.callers| && s.callers[c].phase.Draining?
    requires s.queue.pending != []
    ensures KeysDistinct(Shift(s, c)) && KeysExact(Shift(s, c)) && PersistedOnce(Shift(s, c))
  {
    var s' := Shift(s, c);
    ShiftCarries(s, c);
    assert forall i :: 0 <= i < |s'.queue.pending| ==> s'.queue.pending[i] == s.queue.pending[i + 1];
    forall k | k in s'.queue.pendingKeys
      ensures KeyAmong(s'.queue.pending, k) || exists d :: Carries(s', d) && CarriedKey(s', d) == k
    {
      if KeyAmong(s.queue.pending, k) {
        var i :| 0 <= i < |s.queue.pending| && Key(s.queue.pending[i]) == k;
        assert i > 0 ==> s'.queue.pending[i - 1] == s.queue.pending[i];
      } else {
        var d :| Carries(s, d) && CarriedKey(s, d) == k;
        assert CarriedKey(s', d) == k;
      }
    }
  }

  /** Caller c lets go of its row, whose identity leaves `pendingKeys`; it may become stored. */
  lemma DropKeepsKeys(s: State, s': State, c: nat)
    requires KeysDistinct(s) && KeysExact(s) && Carries(s, c)
    requires |s'.callers| == |s.callers| && s'.callers == s.callers[c := s'.callers[c]]
    requires Carried(s'.callers[c].phase).None?
    requires s'.queue.pending == s.queue.pending
    requires s'.queue.pendingKeys == s.queue.pendingKeys - {CarriedKey(s, c)}
    requires s'.queue.persistedKeys <= s.queue.persistedKeys + {CarriedKey(s, c)}
    ensures KeysDistinct(s') && KeysExact(s')
  {
    assert forall d :: Carries(s', d) <==> Carries(s, d) && d != c;
    assert forall d :: Carries(s', d) ==> CarriedKey(s', d) == CarriedKey(s, d);
    forall k | k in s'.queue.pendingKeys
      ensures KeyAmong(s'.queue.pending, k) || exists d :: Carries(s', d) && CarriedKey(s', d) == k
    {
      if !KeyAmong(s.queue.pending, k) {
        var d :| Carries(s, d) && CarriedKey(s, d) == k;
        assert CarriedKey(s', d) == k;
      }
    }
  }

  /** Persisting a row that was not stored stores it once. */
  lemma SettleKeepsPersistedOnce(s: State, c: nat, threw: bool)
    requires KeysExact(s) && PersistedOnce(s) && c < |s.callers| && s.callers[c].phase.Persisting?
    ensures PersistedOnce(Settle(s, c, threw))
  {
    var s' := Settle(s, c, threw);
    assert Carries(s, c);
    forall k | k in s'.queue.persistedKeys ensures KeyAmong(s'.persisted, k) {
      if k in s.queue.persistedKeys {
        var i :| 0 <= i < |s.persisted| && Key(s.persisted[i]) == k;
        assert s'.persisted[i] == s.persisted[i];
      } else {
        assert s'.persisted[|s.persisted|] == s.callers[c].phase.row;
      }
    }
  }

  /** Only caller c differs, and the locks are the same. */
  lemma SameLocksKeep(s: State, s': State, c: nat)
    requires LocksOk(s) && c < |s.callers| == |s'.callers| && s'.callers == s.callers[c := s'.callers[c]]
    requires s'.locks == s.locks && TicketOk(s', c)
    requires forall t :: HasTicket(s.callers[c].phase, t) ==> HasTicket(s'.callers[c].phase, t)
    ensures LocksOk(s')
  {
    forall d | 0 <= d < |s'.callers| ensures TicketOk(s', d) {
      assert TicketOk(s, d);
    }
  }

  lemma LockKeepsLocks(s: State, c: nat)
    requires LocksOk(s) && c < |s.callers| && s.callers[c].phase.Taken?
    ensures LocksOk(Lock(s, c))
  {
    RequestKeepsInv(s.locks, Key(s.callers[c].phase.row), c);
    forall d | 0 <= d < |s.callers| ensures TicketOk(Lock(s, c), d) {
      assert TicketOk(s, d);
    }
  }

  lemma EnterKeepsTicket(s: State, c: nat, d: nat)
    requires c < |s.callers| && d < |s.callers| && TicketOk(s, c) && TicketOk(s, d) && s.callers[c].phase.Locking?
    ensures s.callers[c].phase.ticket < |s.locks.tickets| && TicketOk(Enter(s, c), d)
  {
  }

  lemma EnterKeepsLocks(s: State, c: nat)
    requires LocksOk(s) && c < |s.callers| && s.callers[c].phase.Locking? && CanGrant(s.locks, s.callers[c].phase.ticket)
    ensures LocksOk(Enter(s, c))
  {
    var s' := Enter(s, c);
    var t := s.callers[c].phase.ticket;
    GrantKeepsInv(s.locks, t);
    hide LocksInv, TicketOk, CanGrant;
    assert s'.locks == Grant(s.locks, t);
    assert HasTicket(s'.callers[c].phase, t);
    forall d | 0 <= d < |s.callers| ensures TicketOk(s', d) {
      EnterKeepsTicket(s, c, d);
    }
  }

  lemma LeaveKeepsLocks(s: State, c: nat)
    requires LocksOk(s) && c < |s.callers| && s.callers[c].phase.Leaving?
    requires s.callers[c].phase.ticket < |s.locks.tickets|
    ensures LocksOk(Leave(s, c))
  {
    assert TicketOk(s, c);
    ReleaseKeepsInv(s.locks, s.callers[c].phase.ticket);
    forall d | 0 <= d < |s.callers| ensures TicketOk(Leave(s, c), d) {
      assert TicketOk(s, d);
    }
  }

  /** What is known stays known, and no caller that got past its enqueue is new. */
  lemma AccountingKeeps(s: State, s': State, c: nat)
    requires Accounting(s) && c < |s.callers| == |s'.callers| && s'.callers == s.callers[c := s'.callers[c]]
    requires s'.callers[c].events == s.callers[c].events
    requires forall k :: Known(s, k) ==> Known(s', k)
    requires Accounted(s', c)
    requires AtWork(s'.callers[c].phase) || s'.queue.pending == []
    requires s'.failed != [] && (s.failed == [] || Doomed(s.callers[c].phase)) ==> Doomed(s'.callers[c].phase)
    ensures Accounting(s')
  {
    forall d | 0 <= d < |s'.callers| ensures Accounted(s', d) {
      assert Accounted(s, d);
    }
    if s'.failed != [] {
      if s.failed == [] || Doomed(s.callers[c].phase) {
        assert Doomed(s'.callers[c].phase);
      } else {
        var d :| 0 <= d < |s.callers| && Doomed(s.callers[d].phase);
        assert Doomed(s'.callers[d].phase);
      }
    }
  }

  lemma OfferConserves(s: State, c: nat, max: nat)
    requires Conserved(s) && c < |s.callers| && s.callers[c].phase.Submitting?
    ensures Conserved(Offer(s, c, max))
  {
    var s' := Offer(s, c, max);
    var taken := Enqueue(s.queue, s.callers[c].events, max).taken;
    EnqueueAppends(s.queue, s.callers[c].events, max);
    SameCargoKeeps(s, s', c);
    assert multiset(s'.queue.pending) == multiset(s.queue.pending) + multiset(taken);
  }

  lemma OfferAccounts(s: State, c: nat, max: nat)
    requires |s.queue.pending| <= max && Accounting(s) && c < |s.callers| && s.callers[c].phase.Submitting?
    ensures Accounting(Offer(s, c, max))
  {
    EnqueueAppends(s.queue, s.callers[c].events, max);
    EnqueueBounded(s.queue, s.callers[c].events, max);
    AccountingKeeps(s, Offer(s, c, max), c);
  }

  lemma OfferKeepsInv(s: State, c: nat, max: nat)
    requires Inv(s, max) && c < |s.callers| && s.callers[c].phase.Submitting?
    ensures Inv(Offer(s, c, max), max)
  {
    OfferKeepsKeys(s, c, max);
    OfferConserves(s, c, max);
    OfferAccounts(s, c, max);
    EnqueueBounded(s.queue, s.callers[c].events, max);
    SameLocksKeep(s, Offer(s, c, max), c);
  }

  lemma MoveOne(a: multiset<Row>, b: multiset<Row>, row: Row)
    ensures (multiset{row} + a) + b == a + (b + multiset{row})
  {}

  lemma ShiftConserves(s: State, c: nat)
    requires Conserved(s) && c < |s.callers| && s.callers[c].phase.Draining?
    ensures Conserved(Shift(s, c))
  {
    var s' := Shift(s, c);
    if s.queue.pending == [] {
      SameCargoKeeps(s, s', c);
    } else {
      var row := s.queue.pending[0];
      TakeUp(s.callers, c, s'.callers[c]);
      assert s.queue.pending == [row] + s'.queue.pending;
      MoveOne(multiset(s'.queue.pending), InFlight(s.callers), row);
    }
  }

  lemma ShiftAccounts(s: State, c: nat)
    requires Accounting(s) && c < |s.callers| && s.callers[c].phase.Draining?
    ensures Accounting(Shift(s, c))
  {
    assert Accounted(s, c);
    AccountingKeeps(s, Shift(s, c), c);
  }

  lemma ShiftOfNothing(s: State, c: nat)
    requires KeysDistinct(s) && KeysExact(s) && PersistedOnce(s) && c < |s.callers| && s.callers[c].phase.Draining?
    requires s.queue.pending == []
    ensures KeysDistinct(Shift(s, c)) && KeysExact(Shift(s, c)) && PersistedOnce(Shift(s, c))
  {
    SameCargoKeeps(s, Shift(s, c), c);
  }

  lemma ShiftKeepsInv(s: State, c: nat, max: nat)
    requires Inv(s, max) && c < |s.callers| && s.callers[c].phase.Draining?
    ensures Inv(Shift(s, c), max)
  {
    ShiftConserves(s, c);
    SameLocksKeep(s, Shift(s, c), c);
    ShiftAccounts(s, c);
    if s.queue.pending == [] {
      ShiftOfNothing(s, c);
    } else {
      ShiftKeepsKeys(s, c);
    }
  }

  lemma LockKeepsInv(s: State, c: nat, max: nat)
    requires Inv(s, max) && c < |s.callers| && s.callers[c].phase.Taken?
    ensures Inv(Lock(s, c), max)
  {
    assert Accounted(s, c);
    SameCargoKeeps(s, Lock(s, c), c);
    LockKeepsLocks(s, c);
    AccountingKeeps(s, Lock(s, c), c);
  }

  /** Inside the lock the identity is never found stored: that branch of the source is dead. */
  lemma EnterKeepsInv(s: State, c: nat, max: nat)
    requires Inv(s, max) && c < |s.callers| && s.callers[c].phase.Locking? && CanGrant(s.locks, s.callers[c].phase.ticket)
    ensures Key(s.callers[c].phase.row) !in s.queue.persistedKeys
    ensures Inv(Enter(s, c), max)
  {
    assert Carries(s, c) && CarriedKey(s, c) in s.queue.pendingKeys;
    assert Accounted(s, c);
    SameCargoKeeps(s, Enter(s, c), c);
    EnterKeepsLocks(s, c);
    AccountingKeeps(s, Enter(s, c), c);
  }

  lemma SettleConserves(s: State, c: nat, threw: bool)
    requires Conserved(s) && c < |s.callers| && s.callers[c].phase.Persisting?
    ensures Conserved(Settle(s, c, threw))
  {
    var s' := Settle(s, c, threw);
    var row := s.callers[c].phase.row;
    hide InFlight;
    PutDown(s.callers, c, s'.callers[c]);
    SettleArithmetic(multiset(s.queue.pending), InFlight(s'.callers), multiset(s.persisted), multiset(s.failed), row);
    if threw {
      assert multiset(s.failed + [row]) == multiset(s.failed) + multiset{row};
    } else {
      assert multiset(s.persisted + [row]) == multiset(s.persisted) + multiset{row};
    }
  }

  lemma SettleArithmetic(a: multiset<Row>, b: multiset<Row>, p: multiset<Row>, f: multiset<Row>, row: Row)
    ensures a + (b + multiset{row}) + p + f == a + b + (p + multiset{row}) + f
    ensures a + (b + multiset{row}) + p + f == a + b + p + (f + multiset{row})
  {}

  lemma SettleAccounts(s: State, c: nat, threw: bool)
    requires Accounting(s) && c < |s.callers| && s.callers[c].phase.Persisting?
    ensures Accounting(Settle(s, c, threw))
  {
    var s' := Settle(s, c, threw);
    var row := s.callers[c].phase.row;
    assert Accounted(s, c);
    forall k | Known(s, k) ensures Known(s', k) {
      if KeyAmong(s.failed, k) {
        var i :| 0 <= i < |s.failed| && Key(s.failed[i]) == k;
        assert s'.failed[i] == s.failed[i];
      }
      if threw {
        assert s'.failed[|s.failed|] == row;
      }
    }
    AccountingKeeps(s, s', c);
  }

  lemma SettleKeepsKeys(s: State, c: nat, threw: bool)
    requires KeysDistinct(s) && KeysExact(s) && c < |s.callers| && s.callers[c].phase.Persisting?
    ensures KeysDistinct(Settle(s, c, threw)) && KeysExact(Settle(s, c, threw))
  {
    assert Carries(s, c);
    DropKeepsKeys(s, Settle(s, c, threw), c);
  }

  lemma SettleKeepsLocks(s: State, c: nat, threw: bool)
    requires LocksOk(s) && c < |s.callers| && s.callers[c].phase.Persisting?
    ensures LocksOk(Settle(s, c, threw))
  {
    assert TicketOk(s, c);
    SameLocksKeep(s, Settle(s, c, threw), c);
  }

  lemma SettleKeepsInv(s: State, c: nat, threw: bool, max: nat)
    requires Inv(s, max) && c < |s.callers| && s.callers[c].phase.Persisting?
    ensures Inv(Settle(s, c, threw), max)
  {
    SettleKeepsKeys(s, c, threw);
    SettleKeepsPersistedOnce(s, c, threw);
    SettleConserves(s, c, threw);
    SettleAccounts(s, c, threw);
    SettleKeepsLocks(s, c, threw);
  }

  lemma LeaveKeepsInv(s: State, c: nat, max: nat)
    requires Inv(s, max) && c < |s.callers| && s.callers[c].phase.Leaving?
    requires s.callers[c].phase.ticket < |s.locks.tickets|
    ensures Inv(Leave(s, c), max)
  {
    assert Accounted(s, c);
    SameCargoKeeps(s, Leave(s, c), c);
    LeaveKeepsLocks(s, c);
    AccountingKeeps(s, Leave(s, c), c);
  }

  lemma StepKeepsInv(s: State, c: nat, threw: bool, max: nat)
    requires Inv(s, max) && Possible(s, c)
    ensures Inv(Step(s, c, threw, max), max)
  {
    match s.callers[c].phase
    case Submitting => OfferKeepsInv(s, c, max);
    case Draining => ShiftKeepsInv(s, c, max);
    case Taken(_) => LockKeepsInv(s, c, max);
    case Locking(_, _) => EnterKeepsInv(s, c, max);
    case Persisting(_, _) => SettleKeepsInv(s, c, threw, max);
    case _ => LeaveKeepsInv(s, c, max);
  }

  // ---- no stuck state, and an end --------------------------------------------------------------

  predicate Over(phase: Phase) {
    phase.Resolved? || phase.Rejected?
  }

  lemma {:induction false} FirstUnreleased(l: Locks, t: nat) returns (u: nat)
    requires t < |l.tickets| && l.tickets[t].status != Released
    ensures u <= t && l.tickets[u].key == l.tickets[t].key && l.tickets[u].status != Released
    ensures forall i :: Before(l, i, u) ==> l.tickets[i].status == Released
    decreases t
  {
    u := t;
    if i :| Before(l, i, t) && l.tickets[i].status != Released {
      u := FirstUnreleased(l, i);
    }
  }

  /** While some submit is not over, some caller can go on, persists under way being free to end. */
  lemma NeverStuck(s: State, max: nat) returns (c: nat)
    requires Inv(s, max)
    requires exists d :: 0 <= d < |s.callers| && !Over(s.callers[d].phase)
    ensures Possible(s, c)
  {
    c :| c < |s.callers| && !Over(s.callers[c].phase);
    assert TicketOk(s, c);
    if s.callers[c].phase.Locking? {
      var u := FirstUnreleased(s.locks, s.callers[c].phase.ticket);
      c := s.locks.tickets[u].owner;
      assert TicketOk(s, c);
      FirstIsReady(s.locks, u);
    }
  }

  /** A caller's own steps still to come; a row waiting in the queue costs whoever takes it five. */
  function StepsLeft(caller: Caller): int {
    match caller.phase
    case Submitting => 5 * |caller.events| + 2
    case Draining => 1
    case Taken(_) => 5
    case Locking(_, _) => 4
    case Persisting(_, _) => 3
    case Leaving(_, _) => 2
    case _ => 0
  }

  function Plan(callers: seq<Caller>): seq<int> {
    seq(|callers|, c requires 0 <= c < |callers| => StepsLeft(callers[c]))
  }

  function TotalLeft(s: State): int {
    Sum(Plan(s.callers)) + 5 * |s.queue.pending|
  }

  /** Only caller c moved on, and it paid for the rows it queued. */
  lemma PlanAfter(s: State, s': State, c: nat)
    requires c < |s.callers| == |s'.callers| && s'.callers == s.callers[c := s'.callers[c]]
    ensures Sum(Plan(s'.callers)) == Sum(Plan(s.callers)) - StepsLeft(s.callers[c]) + StepsLeft(s'.callers[c])
  {
    SumUpdate(Plan(s.callers), c, StepsLeft(s'.callers[c]));
    assert Plan(s'.callers) == Plan(s.callers)[c := StepsLeft(s'.callers[c])];
  }

  lemma OfferCountsDown(s: State, c: nat, max: nat)
    requires |s.queue.pending| <= max && c < |s.callers| && s.callers[c].phase.Submitting?
    ensures TotalLeft(Offer(s, c, max)) < TotalLeft(s)
  {
    PlanAfter(s, Offer(s, c, max), c);
    EnqueueAppends(s.queue, s.callers[c].events, max);
    EnqueueBounded(s.queue, s.callers[c].events, max);
  }

  lemma StepCountsDown(s: State, c: nat, threw: bool, max: nat)
    requires |s.queue.pending| <= max && Possible(s, c)
    ensures var s' := Step(s, c, threw, max);
            && |s'.callers| == |s.callers|
            && (forall d :: 0 <= d < |s.callers| ==> s'.callers[d].events == s.callers[d].events)
            && TotalLeft(s') < TotalLeft(s)
  {
    if s.callers[c].phase.Submitting? {
      OfferCountsDown(s, c, max);
    } else {
      PlanAfter(s, Step(s, c, threw, max), c);
    }
  }

  ghost predicate Next(s: State, s': State, max: nat) {
    exists c, threw :: Possible(s, c) && s' == Step(s, c, threw, max)
  }

  /** One interleaving of the submits of a fresh queue. */
  ghost predicate IsRun(run: seq<State>, max: nat) {
    && run != [] && Init(run[0])
    && forall i :: 0 <= i < |run| - 1 ==> Next(run[i], run[i + 1], max)
  }

  lemma {:induction false} RunKeepsInv(run: seq<State>, max: nat, i: nat)
    requires IsRun(run, max) && i < |run|
    ensures Inv(run[i], max)
    ensures |run[i].callers| == |run[0].callers|
    ensures forall c :: 0 <= c < |run[0].callers| ==> run[i].callers[c].events == run[0].callers[c].events
    ensures TotalLeft(run[i]) + i <= TotalLeft(run[0])
  {
    if i == 0 {
      InitEstablishesInv(run[0], max);
    } else {
      RunKeepsInv(run, max, i - 1);
      assert Next(run[i - 1], run[i - 1 + 1], max);
      var c, threw :| Possible(run[i - 1], c) && run[i] == Step(run[i - 1], c, threw, max);
      StepKeepsInv(run[i - 1], c, threw, max);
      StepCountsDown(run[i - 1], c, threw, max);
    }
  }

  ghost predicate NoStepPossible(s: State) {
    forall c: nat :: !Possible(s, c)
  }

  /** Where no step is possible every submit is over, without a lock, and every accepted row accounted for. */
  lemma AtRestAllIsOver(s: State, max: nat)
    requires Inv(s, max) && NoStepPossible(s)
    ensures forall c :: 0 <= c < |s.callers| ==> Over(s.callers[c].phase)
    ensures s.locks.tails == map[]
    ensures s.accepted == multiset(s.queue.pending) + multiset(s.persisted) + multiset(s.failed)
  {
    if exists d :: 0 <= d < |s.callers| && !Over(s.callers[d].phase) {
      var c := NeverStuck(s, max);
      assert false;
    }
    NothingInFlight(s.callers);
    assert s.locks.tails.Keys == {};
  }

  /**
   Interleavings are bounded, and one that can go no further has ended every submit, leaving no lock
   behind; every accepted row was persisted, failed, or is still queued.
   */
  lemma RunsFinish(run: seq<State>, max: nat)
    requires IsRun(run, max)
    ensures |run| - 1 <= TotalLeft(run[0])
    ensures var last := run[|run| - 1];
            NoStepPossible(last) ==>
              && (forall c :: 0 <= c < |last.callers| ==> Over(last.callers[c].phase))
              && last.locks.tails == map[]
              && last.accepted == multiset(last.queue.pending) + multiset(last.persisted) + multiset(last.failed)
  {
    var last := run[|run| - 1];
    RunKeepsInv(run, max, |run| - 1);
    forall c | 0 <= c < |last.callers| ensures Plan(last.callers)[c] >= 0 {}
    SumNonNegative(Plan(last.callers));
    if NoStepPossible(last) {
      AtRestAllIsOver(last, max);
    }
  }

  ghost predicate AllResolved(s: State) {
    forall c :: 0 <= c < |s.callers| ==> s.callers[c].phase == Resolved
  }

  lemma ResolvedLeavesNothing(s: State, max: nat)
    requires Inv(s, max) && AllResolved(s)
    ensures s.queue.pending == [] && s.failed == [] && s.queue.pendingKeys == {}
    ensures s.accepted == multiset(s.persisted)
  {
    NothingInFlight(s.callers);
    assert s.queue.pending == [] && s.failed == [];
    assert multiset(s.queue.pending) == multiset{} && multiset(s.failed) == multiset{};
  }

  /**
   When every submit resolves, the queue is empty, nothing failed, the accepted rows are exactly the
   persisted ones, and each identity submitted by anyone was persisted exactly once.
   */
  lemma AllResolvedMeansAllStored(run: seq<State>, max: nat, c: nat, row: Row) returns (i: nat)
    requires IsRun(run, max) && AllResolved(run[|run| - 1])
    requires c < |run[0].callers| && row in run[0].callers[c].events
    ensures var last := run[|run| - 1];
            && last.queue.pending == [] && last.failed == []
            && last.accepted == multiset(last.persisted)
            && i < |last.persisted| && Key(last.persisted[i]) == Key(row)
            && (forall j :: 0 <= j < |last.persisted| && Key(last.persisted[j]) == Key(row) ==> j == i)
  {
    var last := run[|run| - 1];
    RunKeepsInv(run, max, |run| - 1);
    ResolvedLeavesNothing(last, max);
    assert Accounted(last, c) && Known(last, Key(row));
    assert KeyAmong(last.persisted, Key(row));
    i :| 0 <= i < |last.persisted| && Key(last.persisted[i]) == Key(row);
  }

  /** At every moment of every run: within the limit, one writer an identity, nothing stored twice. */
  lemma QueueIsSafe(run: seq<State>, max: nat, n: nat)
    requires IsRun(run, max) && n < |run|
    ensures |run[n].queue.pending| <= max
    ensures KeysDistinct(run[n]) && KeysExact(run[n]) && PersistedOnce(run[n]) && Conserved(run[n])
    ensures forall c, d :: 0 <= c < d < |run[n].callers| && run[n].callers[c].phase.Persisting? && run[n].callers[d].phase.Persisting?
              ==> Key(run[n].callers[c].phase.row) != Key(run[n].callers[d].phase.row)
  {
    RunKeepsInv(run, max, n);
    var s := run[n];
    forall c, d | 0 <= c < d < |s.callers| && s.callers[c].phase.Persisting? && s.callers[d].phase.Persisting?
      ensures Key(s.callers[c].phase.row) != Key(s.callers[d].phase.row)
    {
      assert Carries(s, c) && Carries(s, d);
      assert CarriedKey(s, c) != CarriedKey(s, d);
    }
  }

  /** Two callers with the same row, which the second one leaves to the first. */
  function TwoCallers(first: Phase, second: Phase, row: Row): seq<Caller> {
    [Caller([row], first), Caller([row], second)]
  }

  /** Nobody has started. */
  function Untouched(row: Row): State {
    State(Queue([], {}, {}), NO_LOCKS, TwoCallers(Submitting, Submitting, row), multiset{}, [], [])
  }

  /** The first caller has taken the row out of the queue again. */
  function RowTaken(row: Row, second: Phase): State {
    State(Queue([], {Key(row)}, {}), NO_LOCKS, TwoCallers(Taken(row), second, row), multiset{row}, [], [])
  }

  function RowQueued(row: Row): State {
    State(Queue([row], {Key(row)}, {}), NO_LOCKS, TwoCallers(Draining, Submitting, row), multiset{row}, [], [])
  }

  lemma RowGoesIn(row: Row)
    ensures Next(Untouched(row), RowQueued(row), 1)
  {
    var none, one := Queue([], {}, {}), Queue([row], {Key(row)}, {});
    assert [row][1..] == [] && none.pending + [row] == [row] && none.pendingKeys + {Key(row)} == {Key(row)};
    assert Enqueue(one, [], 1) == Enqueued(one, [], false);
    assert Push(none, row) == one;
    assert Enqueue(none, [row], 1) == Enqueued(one, [row], false);
    assert Possible(Untouched(row), 0) && RowQueued(row) == Step(Untouched(row), 0, false, 1);
  }

  lemma RowComesOut(row: Row)
    ensures Next(RowQueued(row), RowTaken(row, Submitting), 1)
  {
    assert [row][1..] == [];
    assert Possible(RowQueued(row), 0) && RowTaken(row, Submitting) == Step(RowQueued(row), 0, false, 1);
  }

  lemma SecondCallerSkips(row: Row)
    ensures Next(RowTaken(row, Submitting), RowTaken(row, Draining), 1)
  {
    var noted := Queue([], {Key(row)}, {});
    assert [row][1..] == [];
    assert Enqueue(noted, [], 1) == Enqueued(noted, [], false);
    assert Enqueue(noted, [row], 1) == Enqueued(noted, [], false);
    assert Possible(RowTaken(row, Submitting), 1) && RowTaken(row, Draining) == Step(RowTaken(row, Submitting), 1, false, 1);
  }

  lemma SecondCallerResolves(row: Row)
    ensures Next(RowTaken(row, Draining), RowTaken(row, Resolved), 1)
  {
    assert Possible(RowTaken(row, Draining), 1) && RowTaken(row, Resolved) == Step(RowTaken(row, Draining), 1, false, 1);
  }

  lemma RunGoesOn(run: seq<State>, from: State, s: State, max: nat) returns (longer: seq<State>)
    requires IsRun(run, max) && run[|run| - 1] == from && Next(from, s, max)
    ensures IsRun(longer, max) && longer[|longer| - 1] == s
  {
    longer := run + [s];
    forall i | 0 <= i < |run| ensures Next(longer[i], longer[i + 1], max) {
      assert i < |run| - 1 ==> Next(run[i], run[i + 1], max);
    }
  }

  /** A submit can resolve before its row is stored: here the other caller has just taken it. */
  lemma ResolvedBeforeStored(row: Row) returns (run: seq<State>)
    ensures IsRun(run, 1)
    ensures var last := run[|run| - 1];
            && last.callers == [Caller([row], Taken(row)), Caller([row], Resolved)]
            && Key(row) !in last.queue.persistedKeys
  {
    hide Next;
    run := [Untouched(row)];
    RowGoesIn(row);
    run := RunGoesOn(run, Untouched(row), RowQueued(row), 1);
    RowComesOut(row);
    run := RunGoesOn(run, RowQueued(row), RowTaken(row, Submitting), 1);
    SecondCallerSkips(row);
    run := RunGoesOn(run, RowTaken(row, Submitting), RowTaken(row, Draining), 1);
    SecondCallerResolves(row);
    run := RunGoesOn(run, RowTaken(row, Draining), RowTaken(row, Resolved), 1);
  }

  // ---- the class of the source -----------------------------------------------------------------

  /** The keys of the calls inside their section: what `heldLocks` holds. */
  function HeldKeys(tickets: seq<Ticket>): set<string> {
    set t | 0 <= t < |tickets| && tickets[t].status == Held :: tickets[t].key
  }

  lemma HeldAfterRequest(l: Locks, key: string, owner: nat)
    ensures HeldKeys(Request(l, key, owner).tickets) == HeldKeys(l.tickets)
  {
    var after := Request(l, key, owner).tickets;
    assert forall t :: 0 <= t < |l.tickets| ==> after[t] == l.tickets[t];
  }

  lemma HeldAfterGrant(l: Locks, t: nat)
    requires LocksInv(l) && CanGrant(l, t)
    ensures HeldKeys(Grant(l, t).tickets) == HeldKeys(l.tickets) + {l.tickets[t].key}
    ensures l.tickets[t].key !in HeldKeys(l.tickets)
  {
    var key := l.tickets[t].key;
    var after := Grant(l, t).tickets;
    GrantKeepsInv(l, t);
    if key in HeldKeys(l.tickets) {
      var u :| 0 <= u < |l.tickets| && l.tickets[u].status == Held && l.tickets[u].key == key;
      MutualExclusion(Grant(l, t), u, t);
    }
    assert after[t].status == Held && forall u :: 0 <= u < |after| && u != t ==> after[u] == l.tickets[u];
    assert forall k :: k in HeldKeys(after) <==> k in HeldKeys(l.tickets) || k == key;
  }

  lemma HeldAfterRelease(l: Locks, t: nat)
    requires LocksInv(l) && t < |l.tickets| && l.tickets[t].status == Held
    ensures HeldKeys(Release(l, t).tickets) == HeldKeys(l.tickets) - {l.tickets[t].key}
  {
    var key := l.tickets[t].key;
    var after := Release(l, t).tickets;
    forall u | 0 <= u < |after| && after[u].status == Held ensures after[u].key != key {
      if after[u].key == key {
        MutualExclusion(l, u, t);
      }
    }
    assert forall u :: 0 <= u < |after| && u != t ==> after[u] == l.tickets[u];
    assert forall k :: k in HeldKeys(after) <==> k in HeldKeys(l.tickets) && k != key;
  }

  lemma TicketOfCaller(s: State, c: nat)
    requires LocksOk(s) && c < |s.callers|
    ensures TicketOk(s, c)
  {
  }

  datatype Overflow = Overflow(maxQueueSize: nat)

  class EventQueue {
    const maxQueueSize: nat
    var pending: seq<Row>
    var pendingKeys: set<string>
    var persistedKeys: set<string>
    var lockTails: map<string, nat>
    var heldLocks: set<string>
    var promises: seq<Ticket>
    /** The calls of `submit`, each with its place in the code, and what has happened to rows so far. */
    var callers: seq<Caller>
    ghost var accepted: multiset<Row>
    ghost var persisted: seq<Row>
    ghost var failed: seq<Row>

    ghost function Abs(): State
      reads this
    {
      State(AbsQueue(), AbsLocks(), callers, accepted, persisted, failed)
    }

    ghost function AbsQueue(): Queue
      reads this
    {
      Queue(pending, pendingKeys, persistedKeys)
    }

    ghost function AbsLocks(): Locks
      reads this
    {
      Locks(promises, lockTails)
    }

    ghost predicate Valid()
      reads this
    {
      LocksInv(AbsLocks()) && heldLocks == HeldKeys(promises)
    }

    constructor (maxQueueSize: nat, submits: seq<seq<Row>>)
      ensures Valid() && this.maxQueueSize == maxQueueSize && Init(Abs())
      ensures |callers| == |submits| && forall c :: 0 <= c < |submits| ==> callers[c].events == submits[c]
    {
      callers := seq(|submits|, c requires 0 <= c < |submits| => Caller(submits[c], Submitting));
      accepted, persisted, failed := multiset{}, [], [];
      this.maxQueueSize := maxQueueSize;
      pending, pendingKeys, persistedKeys := [], {}, {};
      lockTails, heldLocks, promises := map[], {}, [];
    }

    /** The guarded section of `enqueue`; on overflow the rows taken before it stay queued. */
    method EnqueueRows(events: seq<Row>) returns (r: Result<(nat, nat), Overflow>)
      modifies this`pending, this`pendingKeys
      ensures AbsQueue() == Enqueue(old(AbsQueue()), events, maxQueueSize).queue
      ensures r.Err? <==> Enqueue(old(AbsQueue()), events, maxQueueSize).overflow
      ensures r.Ok? ==> r.value.0 + r.value.1 == |events|
                        && r.value.0 == |Enqueue(old(AbsQueue()), events, maxQueueSize).taken|
    {
      var queuedCount, duplicateCount := 0, 0;
      ghost var whole := Enqueue(AbsQueue(), events, maxQueueSize);
      for i := 0 to |events|
        invariant queuedCount + duplicateCount == i
        invariant persistedKeys == old(persistedKeys)
        invariant var rest := Enqueue(AbsQueue(), events[i..], maxQueueSize);
                  rest.queue == whole.queue && rest.overflow == whole.overflow && queuedCount + |rest.taken| == |whole.taken|
      {
        var key := Key(events[i]);
        assert events[i..][1..] == events[i + 1..];
        if key in pendingKeys || key in persistedKeys {
          duplicateCount := duplicateCount + 1;
        } else {
          if |pending| >= maxQueueSize {
            return Err(Overflow(maxQueueSize));
          }
          pendingKeys := pendingKeys + {key};
          pending := pending + [events[i]];
          queuedCount := queuedCount + 1;
        }
      }
      return Ok((queuedCount, duplicateCount));
    }

    /** The guarded section of `flush`. */
    method ShiftRow() returns (next: Option<Row>)
      modifies this`pending
      ensures old(pending) == [] ==> next == None && pending == []
      ensures old(pending) != [] ==> next == Some(old(pending)[0]) && pending == old(pending)[1..]
    {
      if pending == [] {
        return None;
      }
      next := Some(pending[0]);
      pending := pending[1..];
    }

    method RequestLock(key: string, caller: nat) returns (t: nat)
      requires Valid()
      modifies this`promises, this`lockTails
      ensures Valid() && t == |old(promises)|
      ensures AbsLocks() == Request(old(AbsLocks()), key, caller)
    {
      RequestKeepsInv(AbsLocks(), key, caller);
      HeldAfterRequest(AbsLocks(), key, caller);
      var previous := if key in lockTails then Some(lockTails[key]) else None;
      t := |promises|;
      promises := promises + [Ticket(key, caller, previous, Waiting)];
      lockTails := lockTails[key := t];
    }

    /** The await returns: the section begins, unless the identity is already stored. */
    method EnterSection(row: Row, t: nat) returns (duplicate: bool)
      requires Valid() && CanGrant(AbsLocks(), t) && promises[t].key == Key(row)
      modifies this`promises, this`heldLocks, this`pendingKeys
      ensures Valid() && AbsLocks() == Grant(old(AbsLocks()), t)
      ensures heldLocks == old(heldLocks) + {Key(row)} && Key(row) !in old(heldLocks)
      ensures duplicate <==> Key(row) in persistedKeys
      ensures pendingKeys == if duplicate then old(pendingKeys) - {Key(row)} else old(pendingKeys)
    {
      GrantKeepsInv(AbsLocks(), t);
      HeldAfterGrant(AbsLocks(), t);
      promises := promises[t := promises[t].(status := Held)];
      heldLocks := heldLocks + {Key(row)};
      duplicate := Key(row) in persistedKeys;
      if duplicate {
        pendingKeys := pendingKeys - {Key(row)};
      }
    }

    /** `persist` has returned or thrown. */
    method PersistSettled(row: Row, threw: bool)
      modifies this`pendingKeys, this`persistedKeys
      ensures pendingKeys == old(pendingKeys) - {Key(row)}
      ensures persistedKeys == if threw then old(persistedKeys) else old(persistedKeys) + {Key(row)}
    {
      if !threw {
        persistedKeys := persistedKeys + {Key(row)};
      }
      pendingKeys := pendingKeys - {Key(row)};
    }

    /** The `finally` of `withEventLock`. */
    method ReleaseLock(t: nat)
      requires Valid() && t < |promises| && promises[t].status == Held
      modifies this`promises, this`lockTails, this`heldLocks
      ensures Valid() && AbsLocks() == Release(old(AbsLocks()), t)
      ensures heldLocks == old(heldLocks) - {old(promises)[t].key}
    {
      ReleaseKeepsInv(AbsLocks(), t);
      HeldAfterRelease(AbsLocks(), t);
      var key := promises[t].key;
      heldLocks := heldLocks - {key};
      promises := promises[t := promises[t].(status := Released)];
      if key in lockTails && lockTails[key] == t {
        lockTails := lockTails - {key};
      }
    }

    /** `submit` begins with its `enqueue`. */
    method OfferRows(c: nat)
      requires Valid() && c < |callers|
      modifies this
      ensures Valid() && Abs() == Offer(old(Abs()), c, maxQueueSize)
    {
      hide LocksInv, Enqueue, HeldKeys;
      ghost var taken := Enqueue(AbsQueue(), callers[c].events, maxQueueSize).taken;
      var r := EnqueueRows(callers[c].events);
      accepted := accepted + multiset(taken);
      callers := callers[c := callers[c].(phase := if r.Ok? then Draining else Rejected)];
    }

    method MoveTo(c: nat, phase: Phase)
      requires c < |callers|
      modifies this`callers
      ensures callers == old(callers)[c := old(callers)[c].(phase := phase)]
    {
      callers := callers[c := callers[c].(phase := phase)];
    }

    /** The stretches of `flush` other than the one after a persist. */
    method FlushOn(c: nat, threw: bool)
      requires Valid() && Possible(Abs(), c) && TicketOk(Abs(), c)
      requires !callers[c].phase.Submitting? && !callers[c].phase.Persisting?
      modifies this
      ensures Valid() && Abs() == Step(old(Abs()), c, threw, maxQueueSize)
    {
      hide LocksInv, HeldKeys;
      match callers[c].phase
      case Draining =>
        var next := ShiftRow();
        MoveTo(c, if next.Some? then Taken(next.value) else Resolved);
      case Taken(row) =>
        var t := RequestLock(Key(row), c);
        MoveTo(c, Locking(row, t));
      case Locking(row, t) =>
        var duplicate := EnterSection(row, t);
        MoveTo(c, if duplicate then Leaving(t, false) else Persisting(row, t));
      case Leaving(t, failing) =>
        ReleaseLock(t);
        MoveTo(c, if failing then Rejected else Draining);
    }

    /** A persist settles. */
    method SettleOn(c: nat, threw: bool)
      requires Valid() && Possible(Abs(), c) && TicketOk(Abs(), c) && callers[c].phase.Persisting?
      modifies this
      ensures Valid() && Abs() == Step(old(Abs()), c, threw, maxQueueSize)
    {
      hide LocksInv, HeldKeys;
      var Persisting(row, t) := callers[c].phase;
      PersistSettled(row, threw);
      if threw {
        failed := failed + [row];
      } else {
        persisted := persisted + [row];
      }
      MoveTo(c, Leaving(t, threw));
    }

    /** A submit goes on from one await to the next; `threw` is what its persist does, where it is at one. */
    method Advance(c: nat, threw: bool)
      requires Valid() && Inv(Abs(), maxQueueSize) && Possible(Abs(), c)
      modifies this
      ensures Valid() && Inv(Abs(), maxQueueSize)
      ensures Abs() == Step(old(Abs()), c, threw, maxQueueSize)
    {
      hide KeysDistinct, KeysExact, PersistedOnce, Conserved, Accounting, LocksOk, LocksInv, HeldKeys;
      StepKeepsInv(Abs(), c, threw, maxQueueSize);
      TicketOfCaller(Abs(), c);
      if callers[c].phase.Submitting? {
        OfferRows(c);
      } else if callers[c].phase.Persisting? {
        SettleOn(c, threw);
      } else {
        FlushOn(c, threw);
      }
    }
  }
}
