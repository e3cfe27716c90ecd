/**
 The job state cache: cached reads, shared loads, and invalidations that fence off late writes.

 A step is a stretch of the source between two awaits. Lookups, load completions, the resumption of
 each caller, TTL evictions and invalidations interleave freely.
 */
module JobStateCache {
  import opened Wrappers

  /** A settled load carries null as None. */
  datatype LoadStatus = Running | Settled(value: Option<string>) | Rejected

  /** `startedAt` is the generation the source remembers; `startTime` is when the load began. */
  datatype Load = Load(contract: string, startedAt: nat, startTime: nat, status: LoadStatus)

  datatype LookupStatus = Waiting(load: nat) | Answered(value: Option<string>, from: nat) | Failed(load: nat)

  /** One call of `getCachedJobState`, with the generation and the last invalidation it was made after. */
  datatype Lookup = Lookup(contract: string, generation: nat, invalidatedAt: int, owner: bool, status: LookupStatus)

  /** A cached value, and the load that wrote it. */
  datatype Entry = Entry(value: string, load: nat)

  datatype State = State(
    cache: map<string, Entry>,
    inFlight: map<string, nat>,
    generations: map<string, nat>,
    loads: seq<Load>,
    lookups: seq<Lookup>,
    clock: nat,
    invalidations: map<string, nat>)

  function GenerationIn(generations: map<string, nat>, c: string): nat {
    if c in generations then generations[c] else 0
  }

  function Generation(s: State, c: string): nat {
    GenerationIn(s.generations, c)
  }

  /** The time of the last invalidation of c, -1 before any. */
  function InvalidatedAt(s: State, c: string): int {
    if c in s.invalidations then s.invalidations[c] else -1
  }

  function Ask(s: State, c: string, owner: bool, status: LookupStatus): State {
    s.(lookups := s.lookups + [Lookup(c, Generation(s, c), InvalidatedAt(s, c), owner, status)], clock := s.clock + 1)
  }

  /** The head of `getCachedJobState`: hit, join, or start a load. */
  function LookUp(s: State, c: string): State {
    if c in s.cache then Ask(s, c, false, Answered(Some(s.cache[c].value), s.cache[c].load))
    else if c in s.inFlight then Ask(s, c, false, Waiting(s.inFlight[c]))
    else Ask(StartLoad(s, c), c, true, Waiting(|s.loads|))
  }

  function StartLoad(s: State, c: string): State {
    s.(loads := s.loads + [Load(c, Generation(s, c), s.clock, Running)], inFlight := s.inFlight[c := |s.loads|])
  }

  /** `load()` has produced a value; it is cached if it is not null, not fenced off, and caching is on. */
  function Settle(s: State, l: nat, value: Option<string>, ttl: nat): State
    requires l < |s.loads|
  {
    var c := s.loads[l].contract;
    s.(loads := s.loads[l := s.loads[l].(status := Settled(value))],
       cache := if value.Some? && Generation(s, c) == s.loads[l].startedAt && ttl > 0
                then s.cache[c := Entry(value.value, l)] else s.cache,
       clock := s.clock + 1)
  }

  function Reject(s: State, l: nat): State
    requires l < |s.loads|
  {
    s.(loads := s.loads[l := s.loads[l].(status := Rejected)], clock := s.clock + 1)
  }

  predicate CanAnswer(s: State, i: nat) {
    && i < |s.lookups| && s.lookups[i].status.Waiting?
    && s.lookups[i].status.load < |s.loads| && s.loads[s.lookups[i].status.load].status != Running
  }

  /** `await request` returns; whoever started the load removes it from the in-flight map if it is still there. */
  function Answer(s: State, i: nat): State
    requires CanAnswer(s, i)
  {
    var l := s.lookups[i].status.load;
    var c := s.lookups[i].contract;
    var status := s.loads[l].status;
    s.(lookups := s.lookups[i := s.lookups[i].(status :=
                    if status.Settled? then Answered(status.value, l) else Failed(l))],
       inFlight := if s.lookups[i].owner && c in s.inFlight && s.inFlight[c] == l then s.inFlight - {c} else s.inFlight,
       clock := s.clock + 1)
  }

  function Evict(s: State, c: string): State {
    s.(cache := s.cache - {c}, clock := s.clock + 1)
  }

  function Invalidate(s: State, c: string): State {
    s.(generations := s.generations[c := Generation(s, c) + 1],
       cache := s.cache - {c},
       inFlight := s.inFlight - {c},
       invalidations := s.invalidations[c := s.clock],
       clock := s.clock + 1)
  }

  datatype Action =
    | DoLookUp(contract: string)
    | DoSettle(load: nat, value: Option<string>)
    | DoReject(load: nat)
    | DoAnswer(lookup: nat)
    | DoEvict(contract: string)
    | DoInvalidate(contract: string)

  predicate Possible(s: State, a: Action) {
    match a
    case DoSettle(l, _) => l < |s.loads| && s.loads[l].status == Running
    case DoReject(l) => l < |s.loads| && s.loads[l].status == Running
    case DoAnswer(i) => CanAnswer(s, i)
    case _ => true
  }

  function Step(s: State, a: Action, ttl: nat): State
    requires Possible(s, a)
  {
    match a
    case DoLookUp(c) => LookUp(s, c)
    case DoSettle(l, value) => Settle(s, l, value, ttl)
    case DoReject(l) => Reject(s, l)
    case DoAnswer(i) => Answer(s, i)
    case DoEvict(c) => Evict(s, c)
    case DoInvalidate(c) => Invalidate(s, c)
  }

  /** Time passes with every step, and the last invalidation of a contract is remembered. */
  lemma TimePasses(s: State, a: Action, ttl: nat, c: string)
    requires Possible(s, a)
    ensures Step(s, a, ttl).clock > s.clock
    ensures InvalidatedAt(Step(s, a, ttl), c) == if a == DoInvalidate(c) then s.clock else InvalidatedAt(s, c)
  {
  }

  const EMPTY := State(map[], map[], map[], [], [], 0, map[])

  // ---- invariant -----------------------------------------------------------------------------

  ghost predicate LoadOk(s: State, l: nat)
    requires l < |s.loads|
  {
    var load := s.loads[l];
    && load.startedAt <= Generation(s, load.contract)
    && load.startTime <= s.clock
    && (load.startedAt == Generation(s, load.contract) ==> load.startTime > InvalidatedAt(s, load.contract))
    && (load.startedAt == Generation(s, load.contract) && load.status == Running ==>
          load.contract in s.inFlight && s.inFlight[load.contract] == l)
  }

  /** l is a load of c begun in the current generation. */
  ghost predicate Current(s: State, c: string, l: nat) {
    l < |s.loads| && s.loads[l].contract == c && s.loads[l].startedAt == Generation(s, c)
  }

  /** Two loads of one contract and generation never run at once. */
  ghost predicate Alone(s: State, l: int, m: int) {
    0 <= l < m < |s.loads| && s.loads[l].contract == s.loads[m].contract && s.loads[l].status == s.loads[m].status == Running
    ==> s.loads[l].startedAt != s.loads[m].startedAt
  }

  ghost predicate FromLoad(s: State, i: nat, l: nat)
    requires i < |s.lookups|
  {
    && l < |s.loads|
    && s.loads[l].contract == s.lookups[i].contract
    && s.loads[l].startedAt == s.lookups[i].generation
    && s.loads[l].startTime > s.lookups[i].invalidatedAt
  }

  ghost predicate LookupOk(s: State, i: nat)
    requires i < |s.lookups|
  {
    match s.lookups[i].status
    case Waiting(l) => FromLoad(s, i, l)
    case Failed(l) => FromLoad(s, i, l) && s.loads[l].status == Rejected
    case Answered(value, l) => FromLoad(s, i, l) && s.loads[l].status == Settled(value)
  }

  /** Lookup i began load l, and has not come back from it. */
  ghost predicate OwnerWaits(s: State, i: int, c: string, l: nat) {
    && 0 <= i < |s.lookups| && s.lookups[i].owner && s.lookups[i].contract == c
    && s.lookups[i].status == Waiting(l)
  }

  /** A load stays in flight only as long as the lookup that began it waits. */
  ghost predicate Awaited(s: State, c: string) {
    c in s.inFlight ==> exists i :: OwnerWaits(s, i, c, s.inFlight[c])
  }

  /** While a contract is cached none of its loads of this generation runs. */
  ghost predicate CacheIsLast(s: State, l: nat)
    requires l < |s.loads|
  {
    var c := s.loads[l].contract;
    c in s.cache && s.loads[l].status == Running ==> s.loads[l].startedAt != Generation(s, c)
  }

  ghost predicate Inv(s: State) {
    LoadsInv(s) && (forall c :: Awaited(s, c)) && (forall l :: 0 <= l < |s.loads| ==> CacheIsLast(s, l))
  }

  ghost predicate LoadsInv(s: State) {
    && (forall l :: 0 <= l < |s.loads| ==> LoadOk(s, l))
    && (forall l, m :: Alone(s, l, m))
    && (forall i :: 0 <= i < |s.lookups| ==> LookupOk(s, i))
    && (forall c :: c in s.cache ==>
          Current(s, c, s.cache[c].load) && s.loads[s.cache[c].load].status == Settled(Some(s.cache[c].value)))
    && (forall c :: c in s.inFlight ==> Current(s, c, s.inFlight[c]))
    && (forall c :: c in s.invalidations ==> s.invalidations[c] < s.clock)
  }

  lemma StartLoadKeepsLoads(s: State, c: string)
    requires LoadsInv(s) && c !in s.inFlight
    ensures LoadsInv(StartLoad(s, c))
  {
    var s' := StartLoad(s, c);
    forall l | 0 <= l < |s'.loads| ensures LoadOk(s', l) {
      assert l < |s.loads| ==> LoadOk(s, l);
    }
    forall l, m ensures Alone(s', l, m) {
      assert Alone(s, l, m);
      assert 0 <= l < |s.loads| ==> LoadOk(s, l);
    }
    forall i | 0 <= i < |s'.lookups| ensures LookupOk(s', i) {
      assert LookupOk(s, i);
    }
    forall d | d in s'.inFlight ensures Current(s', d, s'.inFlight[d]) {
      assert d in s.inFlight ==> Current(s, d, s.inFlight[d]);
    }
    forall d | d in s'.cache ensures Current(s', d, s'.cache[d].load) {
      assert Current(s, d, s.cache[d].load);
    }
  }

  lemma AskKeepsLoads(s: State, c: string, l: nat, owner: bool, status: LookupStatus)
    requires LoadsInv(s) && Current(s, c, l)
    requires status == Waiting(l) || (s.loads[l].status.Settled? && status == Answered(s.loads[l].status.value, l))
    ensures LoadsInv(Ask(s, c, owner, status))
  {
    var s' := Ask(s, c, owner, status);
    assert LoadOk(s, l);
    forall k | 0 <= k < |s'.loads| ensures LoadOk(s', k) {
      assert LoadOk(s, k);
    }
    forall k, m ensures Alone(s', k, m) {
      assert Alone(s, k, m);
    }
    forall i | 0 <= i < |s'.lookups| ensures LookupOk(s', i) {
      assert i < |s.lookups| ==> LookupOk(s, i);
    }
    forall d | d in s'.inFlight ensures Current(s', d, s'.inFlight[d]) {
      assert Current(s, d, s.inFlight[d]);
    }
    forall d | d in s'.cache ensures Current(s', d, s'.cache[d].load) {
      assert Current(s, d, s.cache[d].load);
    }
  }

  lemma LookUpKeepsLoads(s: State, c: string)
    requires LoadsInv(s)
    ensures LoadsInv(LookUp(s, c))
  {
    if c in s.cache {
      AskKeepsLoads(s, c, s.cache[c].load, false, Answered(Some(s.cache[c].value), s.cache[c].load));
    } else if c in s.inFlight {
      AskKeepsLoads(s, c, s.inFlight[c], false, Waiting(s.inFlight[c]));
    } else {
      StartLoadKeepsLoads(s, c);
      AskKeepsLoads(StartLoad(s, c), c, |s.loads|, true, Waiting(|s.loads|));
    }
  }

  lemma FinishKeepsCurrent(s: State, s': State, l: nat, status: LoadStatus, ttl: nat)
    requires LoadsInv(s) && l < |s.loads| && s.loads[l].status == Running && status != Running
    requires s' == (if status.Settled? then Settle(s, l, status.value, ttl) else Reject(s, l))
    ensures forall d :: d in s'.inFlight ==> Current(s', d, s'.inFlight[d])
    ensures forall d :: d in s'.cache ==>
              Current(s', d, s'.cache[d].load) && s'.loads[s'.cache[d].load].status == Settled(Some(s'.cache[d].value))
  {
    hide LoadOk, Alone, LookupOk;
    forall d | d in s'.inFlight ensures Current(s', d, s'.inFlight[d]) {
      assert Current(s, d, s.inFlight[d]);
    }
    forall d | d in s'.cache
      ensures Current(s', d, s'.cache[d].load) && s'.loads[s'.cache[d].load].status == Settled(Some(s'.cache[d].value))
    {
      assert d in s.cache ==> Current(s, d, s.cache[d].load);
    }
  }

  lemma FinishKeepsLoads(s: State, s': State, l: nat, status: LoadStatus, ttl: nat)
    requires LoadsInv(s) && l < |s.loads| && s.loads[l].status == Running && status != Running
    requires s' == (if status.Settled? then Settle(s, l, status.value, ttl) else Reject(s, l))
    ensures LoadsInv(s')
  {
    FinishKeepsCurrent(s, s', l, status, ttl);
    hide Current;
    forall k | 0 <= k < |s'.loads| ensures LoadOk(s', k) {
      assert LoadOk(s, k);
    }
    forall k, m ensures Alone(s', k, m) {
      assert Alone(s, k, m);
    }
    forall i | 0 <= i < |s'.lookups| ensures LookupOk(s', i) {
      assert LookupOk(s, i);
    }
  }

  lemma AnswerKeepsLoads(s: State, i: nat)
    requires LoadsInv(s) && CanAnswer(s, i)
    ensures LoadsInv(Answer(s, i))
  {
    var s' := Answer(s, i);
    assert LookupOk(s, i);
    forall k, m ensures Alone(s', k, m) {
      assert Alone(s, k, m);
    }
    forall l | 0 <= l < |s'.loads| ensures LoadOk(s', l) {
      assert LoadOk(s, l);
    }
    forall j | 0 <= j < |s'.lookups| ensures LookupOk(s', j) {
      assert LookupOk(s, j);
    }
  }

  lemma InvalidateKeepsLoads(s: State, c: string)
    requires LoadsInv(s)
    ensures LoadsInv(Invalidate(s, c))
  {
    var s' := Invalidate(s, c);
    forall k, m ensures Alone(s', k, m) {
      assert Alone(s, k, m);
    }
    forall l | 0 <= l < |s'.loads| ensures LoadOk(s', l) {
      assert LoadOk(s, l);
    }
    forall i | 0 <= i < |s'.lookups| ensures LookupOk(s', i) {
      assert LookupOk(s, i);
    }
    forall d | d in s'.cache ensures Current(s', d, s'.cache[d].load) {
      assert Current(s, d, s.cache[d].load);
    }
    forall d | d in s'.inFlight ensures Current(s', d, s'.inFlight[d]) {
      assert Current(s, d, s.inFlight[d]);
    }
  }

  lemma EvictKeepsLoads(s: State, c: string)
    requires LoadsInv(s)
    ensures LoadsInv(Evict(s, c))
  {
    forall k, m ensures Alone(Evict(s, c), k, m) {
      assert Alone(s, k, m);
    }
    forall l | 0 <= l < |s.loads| ensures LoadOk(Evict(s, c), l) {
      assert LoadOk(s, l);
    }
    forall i | 0 <= i < |s.lookups| ensures LookupOk(Evict(s, c), i) {
      assert LookupOk(s, i);
    }
  }

  /** A step ends the waiting of one lookup at most, and that of an owner only with its load in flight. */
  lemma StepKeepsAwaited(s: State, a: Action, ttl: nat, c: string)
    requires Awaited(s, c) && Possible(s, a)
    ensures Awaited(Step(s, a, ttl), c)
  {
    var s' := Step(s, a, ttl);
    if c in s'.inFlight {
      if c in s.inFlight && s.inFlight[c] == s'.inFlight[c] {
        var i :| OwnerWaits(s, i, c, s.inFlight[c]);
        assert OwnerWaits(s', i, c, s'.inFlight[c]);
      } else {
        assert OwnerWaits(s', |s.lookups|, c, s'.inFlight[c]);
      }
    }
  }

  lemma SettledIsLast(s: State, l: nat, m: nat)
    requires LoadsInv(s) && l < |s.loads| && m < |s.loads| && s.loads[l].status == s.loads[m].status == Running
    requires s.loads[l].contract == s.loads[m].contract && s.loads[l].startedAt == s.loads[m].startedAt
    ensures l == m
  {
    assert Alone(s, l, m) && Alone(s, m, l);
  }

  lemma SettleKeepsCacheLast(s: State, l: nat, value: Option<string>, ttl: nat, m: nat)
    requires LoadsInv(s) && l < |s.loads| && s.loads[l].status == Running && m < |s.loads| && CacheIsLast(s, m)
    ensures CacheIsLast(Settle(s, l, value, ttl), m)
  {
    if m != l && s.loads[m].status == Running && s.loads[m].contract == s.loads[l].contract
       && s.loads[m].startedAt == s.loads[l].startedAt {
      SettledIsLast(s, l, m);
    }
  }

  lemma OthersKeepCacheLast(s: State, a: Action, ttl: nat, l: nat)
    requires Possible(s, a) && !a.DoSettle? && l < |Step(s, a, ttl).loads|
    requires l < |s.loads| ==> CacheIsLast(s, l) && LoadOk(s, l)
    ensures CacheIsLast(Step(s, a, ttl), l)
  {
  }

  lemma StepKeepsCacheLast(s: State, a: Action, ttl: nat, l: nat)
    requires LoadsInv(s) && Possible(s, a) && l < |Step(s, a, ttl).loads|
    requires l < |s.loads| ==> CacheIsLast(s, l)
    ensures CacheIsLast(Step(s, a, ttl), l)
  {
    hide CacheIsLast;
    if a.DoSettle? {
      SettleKeepsCacheLast(s, a.load, a.value, ttl, l);
    } else {
      OthersKeepCacheLast(s, a, ttl, l);
    }
  }

  lemma StepKeepsLoads(s: State, a: Action, ttl: nat)
    requires LoadsInv(s) && Possible(s, a)
    ensures LoadsInv(Step(s, a, ttl))
  {
    match a
    case DoLookUp(c) => LookUpKeepsLoads(s, c);
    case DoSettle(l, value) => FinishKeepsLoads(s, Settle(s, l, value, ttl), l, Settled(value), ttl);
    case DoReject(l) => FinishKeepsLoads(s, Reject(s, l), l, Rejected, ttl);
    case DoAnswer(i) => AnswerKeepsLoads(s, i);
    case DoEvict(c) => EvictKeepsLoads(s, c);
    case DoInvalidate(c) => InvalidateKeepsLoads(s, c);
  }

  lemma StepKeepsInv(s: State, a: Action, ttl: nat)
    requires Inv(s) && Possible(s, a)
    ensures Inv(Step(s, a, ttl))
  {
    hide LoadsInv, Awaited, CacheIsLast, Step, Possible;
    StepKeepsLoads(s, a, ttl);
    forall c ensures Awaited(Step(s, a, ttl), c) {
      StepKeepsAwaited(s, a, ttl, c);
    }
    forall l | 0 <= l < |Step(s, a, ttl).loads| ensures CacheIsLast(Step(s, a, ttl), l) {
      StepKeepsCacheLast(s, a, ttl, l);
    }
  }

  // ---- whole runs ----------------------------------------------------------------------------

  ghost predicate Next(s: State, s': State, ttl: nat) {
    exists a :: Possible(s, a) && s' == Step(s, a, ttl)
  }

  /** One interleaving, from the empty cache. */
  ghost predicate IsRun(run: seq<State>, ttl: nat) {
    && run != [] && run[0] == EMPTY
    && forall i :: 0 <= i < |run| - 1 ==> Next(run[i], run[i + 1], ttl)
  }

  lemma {:induction false} RunKeepsInv(run: seq<State>, ttl: nat, i: nat)
    requires IsRun(run, ttl) && i < |run|
    ensures Inv(run[i])
  {
    if i > 0 {
      RunKeepsInv(run, ttl, i - 1);
      assert Next(run[i - 1], run[i - 1 + 1], ttl);
      var a :| Possible(run[i - 1], a) && run[i] == Step(run[i - 1], a, ttl);
      StepKeepsInv(run[i - 1], a, ttl);
    }
  }

  /**
   In every interleaving, an answered lookup carries the value of a load of its own contract, begun in
   the very generation the lookup was made in, after the last invalidation before it.
   */
  lemma AnswersAreFresh(run: seq<State>, ttl: nat, n: nat, i: nat)
    requires IsRun(run, ttl) && n < |run| && i < |run[n].lookups| && run[n].lookups[i].status.Answered?
    ensures var s := run[n];
            var q := s.lookups[i];
            var l := q.status.from;
            && l < |s.loads| && s.loads[l].status == Settled(q.status.value)
            && s.loads[l].contract == q.contract
            && s.loads[l].startedAt == q.generation
            && s.loads[l].startTime > q.invalidatedAt
  {
    RunKeepsInv(run, ttl, n);
    assert LookupOk(run[n], i);
  }

  /** Nothing in the cache was loaded before its contract's last invalidation. */
  lemma CacheIsCurrent(run: seq<State>, ttl: nat, n: nat, c: string)
    requires IsRun(run, ttl) && n < |run| && c in run[n].cache
    ensures var s := run[n];
            var l := s.cache[c].load;
            && l < |s.loads| && s.loads[l].contract == c
            && s.loads[l].status == Settled(Some(s.cache[c].value))
            && s.loads[l].startedAt == Generation(s, c)
            && s.loads[l].startTime > InvalidatedAt(s, c)
  {
    RunKeepsInv(run, ttl, n);
    assert LoadOk(run[n], run[n].cache[c].load);
  }

  /** Concurrent misses share one load: no two of one contract and generation ever run at once. */
  lemma OneRunningLoad(run: seq<State>, ttl: nat, n: nat, l: nat, m: nat)
    requires IsRun(run, ttl) && n < |run| && l < |run[n].loads| && m < |run[n].loads|
    requires run[n].loads[l].status == run[n].loads[m].status == Running
    requires run[n].loads[l].contract == run[n].loads[m].contract
    requires run[n].loads[l].startedAt == run[n].loads[m].startedAt
    ensures l == m
  {
    RunKeepsInv(run, ttl, n);
    assert Alone(run[n], l, m) && Alone(run[n], m, l);
  }

  /** The load a map of requests in flight refers to was begun after the last invalidation. */
  lemma InFlightIsCurrent(run: seq<State>, ttl: nat, n: nat, c: string)
    requires IsRun(run, ttl) && n < |run| && c in run[n].inFlight
    ensures Current(run[n], c, run[n].inFlight[c])
    ensures run[n].loads[run[n].inFlight[c]].startTime > InvalidatedAt(run[n], c)
  {
    RunKeepsInv(run, ttl, n);
    assert LoadOk(run[n], run[n].inFlight[c]);
  }

  /** No lookup is stuck: it can be answered, or the load it waits for is still running and free to end. */
  lemma LookupsGoOn(run: seq<State>, ttl: nat, n: nat, i: nat)
    requires IsRun(run, ttl) && n < |run| && i < |run[n].lookups| && run[n].lookups[i].status.Waiting?
    ensures var l := run[n].lookups[i].status.load;
            Possible(run[n], DoAnswer(i)) || (Possible(run[n], DoSettle(l, None)) && Possible(run[n], DoReject(l)))
  {
    RunKeepsInv(run, ttl, n);
    assert LookupOk(run[n], i);
  }

  ghost predicate NoneWaits(s: State, c: string) {
    forall i :: 0 <= i < |s.lookups| && s.lookups[i].contract == c ==> !s.lookups[i].status.Waiting?
  }

  /**
   Once every lookup of a contract has come back and nothing is cached, the next one starts a load of its
   own, whether the last load gave null, was rejected, fenced off or evicted.
   */
  lemma NextLookupLoads(run: seq<State>, ttl: nat, n: nat, c: string)
    requires IsRun(run, ttl) && n < |run| && NoneWaits(run[n], c) && c !in run[n].cache
    ensures var s, s' := run[n], Step(run[n], DoLookUp(c), ttl);
            && s'.loads == s.loads + [Load(c, Generation(s, c), s.clock, Running)]
            && s'.lookups == s.lookups + [Lookup(c, Generation(s, c), InvalidatedAt(s, c), true, Waiting(|s.loads|))]
  {
    RunKeepsInv(run, ttl, n);
    assert Awaited(run[n], c);
  }

  /** A lookup that finds nothing cached while the load of this generation runs shares that load. */
  lemma RunningLoadIsShared(run: seq<State>, ttl: nat, n: nat, l: nat)
    requires IsRun(run, ttl) && n < |run| && l < |run[n].loads|
    requires run[n].loads[l].status == Running && run[n].loads[l].startedAt == Generation(run[n], run[n].loads[l].contract)
    ensures var s, c := run[n], run[n].loads[l].contract;
            var s' := Step(s, DoLookUp(c), ttl);
            && s'.loads == s.loads
            && s'.lookups == s.lookups + [Lookup(c, Generation(s, c), InvalidatedAt(s, c), false, Waiting(l))]
  {
    RunKeepsInv(run, ttl, n);
    assert LoadOk(run[n], l) && CacheIsLast(run[n], l);
  }

  /** A step that neither evicts nor invalidates the contract. */
  ghost predicate Spares(s: State, s': State, c: string, ttl: nat) {
    exists a :: Possible(s, a) && a != DoEvict(c) && a != DoInvalidate(c) && s' == Step(s, a, ttl)
  }

  lemma StepKeepsCached(s: State, a: Action, c: string, ttl: nat)
    requires c in s.cache && Possible(s, a) && a != DoEvict(c) && a != DoInvalidate(c)
    requires a.DoSettle? ==> CacheIsLast(s, a.load)
    ensures c in Step(s, a, ttl).cache && Step(s, a, ttl).cache[c] == s.cache[c]
  {
  }

  lemma SparedStaysCached(s: State, s': State, c: string, ttl: nat)
    requires Inv(s) && c in s.cache && Spares(s, s', c, ttl)
    ensures c in s'.cache && s'.cache[c] == s.cache[c]
  {
    hide LoadsInv, CacheIsLast, Awaited, Step;
    var a :| Possible(s, a) && a != DoEvict(c) && a != DoInvalidate(c) && s' == Step(s, a, ttl);
    StepKeepsCached(s, a, c, ttl);
  }

  lemma {:induction false} SparedRunStaysCached(run: seq<State>, ttl: nat, n: nat, m: nat, c: string)
    requires IsRun(run, ttl) && n <= m < |run| && c in run[n].cache
    requires forall k :: n <= k < m ==> Spares(run[k], run[k + 1], c, ttl)
    ensures c in run[m].cache && run[m].cache[c] == run[n].cache[c]
    decreases m
  {
    hide Inv, Step, Spares, Next;
    if n < m {
      SparedRunStaysCached(run, ttl, n, m - 1, c);
      RunKeepsInv(run, ttl, m - 1);
      assert Spares(run[m - 1], run[m - 1 + 1], c, ttl);
      SparedStaysCached(run[m - 1], run[m], c, ttl);
    }
  }

  /**
   A value that is not null, of a load that no invalidation has overtaken, answers every later lookup at
   once, as long as it is neither evicted nor invalidated and caching is on.
   */
  lemma SettledAnswersFromCache(run: seq<State>, ttl: nat, n: nat, m: nat, l: nat, value: string)
    requires IsRun(run, ttl) && n < m < |run| && ttl > 0
    requires Possible(run[n], DoSettle(l, Some(value))) && run[n + 1] == Step(run[n], DoSettle(l, Some(value)), ttl)
    requires run[n].loads[l].startedAt == Generation(run[n], run[n].loads[l].contract)
    requires forall k :: n < k < m ==> Spares(run[k], run[k + 1], run[n].loads[l].contract, ttl)
    ensures var s, c := run[m], run[n].loads[l].contract;
            var s' := Step(s, DoLookUp(c), ttl);
            && s'.loads == s.loads
            && s'.lookups == s.lookups + [Lookup(c, Generation(s, c), InvalidatedAt(s, c), false, Answered(Some(value), l))]
  {
    SparedRunStaysCached(run, ttl, n + 1, m, run[n].loads[l].contract);
  }

  /** With caching off nothing is ever cached. */
  lemma {:induction false} NothingCachedWithoutTtl(run: seq<State>, n: nat)
    requires IsRun(run, 0) && n < |run|
    ensures run[n].cache == map[]
  {
    if n > 0 {
      NothingCachedWithoutTtl(run, n - 1);
      assert Next(run[n - 1], run[n - 1 + 1], 0);
    }
  }

  // ---- the module state of the source ----------------------------------------------------------

  /** What a lookup does at once: return a cached value, or await the given request. */
  datatype Outcome = Cached(value: string) | Await(request: nat, owner: bool)

  ghost function Entries(values: map<string, string>, writers: map<string, nat>): map<string, Entry>
    requires writers.Keys == values.Keys
  {
    map c | c in values :: Entry(values[c], writers[c])
  }

  class Cache {
    const ttl: nat
    var jobStateCache: map<string, string>
    var inFlightJobStateRequests: map<string, nat>
    var generations: map<string, nat>
    var requests: seq<Load>
    ghost var writers: map<string, nat>
    ghost var lookups: seq<Lookup>
    ghost var invalidations: map<string, nat>
    var clock: nat

    ghost predicate Valid()
      reads this
    {
      writers.Keys == jobStateCache.Keys
    }

    ghost function Abs(): State
      requires Valid()
      reads this
    {
      State(Entries(jobStateCache, writers), inFlightJobStateRequests, generations,
            requests, lookups, clock, invalidations)
    }

    constructor (ttl: nat)
      ensures this.ttl == ttl && Valid() && Abs() == EMPTY
    {
      this.ttl := ttl;
      jobStateCache, inFlightJobStateRequests, generations := map[], map[], map[];
      requests, clock := [], 0;
      writers, lookups, invalidations := map[], [], map[];
    }

    method GetCachedJobState(contractId: string) returns (r: Outcome)
      requires Valid()
      modifies this
      ensures Valid() && Abs() == LookUp(old(Abs()), contractId)
      ensures match r
              case Cached(v) => contractId in old(jobStateCache) && v == old(jobStateCache)[contractId]
              case Await(l, owner) => Abs().lookups[|old(lookups)|].status == Waiting(l)
                                      && owner == Abs().lookups[|old(lookups)|].owner
    {
      ghost var g, t := Generation(Abs(), contractId), InvalidatedAt(Abs(), contractId);
      if contractId in jobStateCache {
        r := Cached(jobStateCache[contractId]);
        lookups := lookups + [Lookup(contractId, g, t, false, Answered(Some(r.value), writers[contractId]))];
      } else if contractId in inFlightJobStateRequests {
        r := Await(inFlightJobStateRequests[contractId], false);
        lookups := lookups + [Lookup(contractId, g, t, false, Waiting(r.request))];
      } else {
        var startedAt := GenerationIn(generations, contractId);
        r := Await(|requests|, true);
        requests := requests + [Load(contractId, startedAt, clock, Running)];
        inFlightJobStateRequests := inFlightJobStateRequests[contractId := r.request];
        lookups := lookups + [Lookup(contractId, g, t, true, Waiting(r.request))];
      }
      clock := clock + 1;
    }

    /** The body of `request` after `await load()`. */
    method LoadSettled(l: nat, value: Option<string>)
      requires Valid() && l < |requests| && requests[l].status == Running
      modifies this
      ensures Valid() && Abs() == Settle(old(Abs()), l, value, ttl)
    {
      var c := requests[l].contract;
      var generation := GenerationIn(generations, c);
      if value.Some? && generation == requests[l].startedAt && ttl > 0 {
        jobStateCache := jobStateCache[c := value.value];
        writers := writers[c := l];
      }
      requests := requests[l := requests[l].(status := Settled(value))];
      clock := clock + 1;
      assert Entries(jobStateCache, writers) == Settle(old(Abs()), l, value, ttl).cache;
    }

    /** The `finally` of the lookup that started request l. */
    method RequestDone(contractId: string, l: nat, ghost i: nat)
      requires Valid() && CanAnswer(Abs(), i)
      requires lookups[i].owner && lookups[i].status == Waiting(l) && lookups[i].contract == contractId
      modifies this
      ensures Valid() && Abs() == Answer(old(Abs()), i)
    {
      if contractId in inFlightJobStateRequests && inFlightJobStateRequests[contractId] == l {
        inFlightJobStateRequests := inFlightJobStateRequests - {contractId};
      }
      lookups := lookups[i := lookups[i].(status :=
        if requests[l].status.Settled? then Answered(requests[l].status.value, l) else Failed(l))];
      clock := clock + 1;
    }

    method InvalidateJobState(contractId: string)
      requires Valid()
      modifies this
      ensures Valid() && Abs() == Invalidate(old(Abs()), contractId)
      ensures jobStateCache == old(jobStateCache) - {contractId}
    {
      generations := generations[contractId := GenerationIn(generations, contractId) + 1];
      jobStateCache := jobStateCache - {contractId};
      writers := writers - {contractId};
      inFlightJobStateRequests := inFlightJobStateRequests - {contractId};
      invalidations := invalidations[contractId := clock];
      clock := clock + 1;
      assert Entries(jobStateCache, writers) == Entries(old(jobStateCache), old(writers)) - {contractId};
    }

    /** Each contract with rows is invalidated once, however many rows it has; the others are untouched. */
    method InvalidateJobStateForEvents(rows: seq<string>)
      requires Valid()
      modifies this
      ensures Valid()
      ensures forall c :: GenerationIn(generations, c) == GenerationIn(old(generations), c) + if c in rows then 1 else 0
      ensures forall c :: c in jobStateCache <==> c in old(jobStateCache) && c !in rows
      ensures forall c :: c in jobStateCache ==> jobStateCache[c] == old(jobStateCache)[c]
      ensures forall c :: c in inFlightJobStateRequests <==> c in old(inFlightJobStateRequests) && c !in rows
    {
      var seen: set<string> := {};
      for k := 0 to |rows|
        invariant Valid()
        invariant seen == set c | c in rows[..k]
        invariant forall c :: GenerationIn(generations, c) == GenerationIn(old(generations), c) + if c in seen then 1 else 0
        invariant forall c :: c in jobStateCache <==> c in old(jobStateCache) && c !in seen
        invariant forall c :: c in jobStateCache ==> jobStateCache[c] == old(jobStateCache)[c]
        invariant forall c :: c in inFlightJobStateRequests <==> c in old(inFlightJobStateRequests) && c !in seen
      {
        if rows[k] !in seen {
          InvalidateJobState(rows[k]);
          seen := seen + {rows[k]};
        }
      }
    }
  }
}
