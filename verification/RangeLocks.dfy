/**
 The overlap lock of the ledger range tracker: a caller waits only for active ranges that overlap its
 own, and looks again once those are over.

 A step is the stretch of the source between two awaits; the range mutex guards only synchronous
 sections, so each section is one step here.
 */
module RangeLocks {
  import opened Sums

  datatype Range = Range(startLedger: nat, endLedger: nat)

  predicate Overlap(a: Range, b: Range) {
    a.startLedger <= b.endLedger && b.startLedger <= a.endLedger
  }

  predicate Contains(r: Range, ledger: nat) {
    r.startLedger <= ledger <= r.endLedger
  }

  ghost predicate Shares(a: Range, b: Range, ledger: nat) {
    Contains(a, ledger) && Contains(b, ledger)
  }

  /** Two proper ranges overlap exactly when some ledger lies in both. */
  lemma OverlapMeansSharedLedger(a: Range, b: Range)
    requires a.startLedger <= a.endLedger && b.startLedger <= b.endLedger
    ensures Overlap(a, b) <==> exists ledger :: Shares(a, b, ledger)
  {
    if Overlap(a, b) {
      assert Shares(a, b, if a.startLedger <= b.startLedger then b.startLedger else a.startLedger);
    }
  }

  /** An entry of `activeRangeLocks`; `owner` stands for the identity of the object. */
  datatype Entry = Entry(owner: nat, range: Range)

  /**
   Trying: about to look for blockers. Blocked: awaiting their `done`. Holding: inside the section.
   Leaving: the section is over, the entry still listed. Removed: unlisted, `done` not yet resolved.
   */
  datatype Phase = Trying | Blocked(on: seq<Entry>) | Holding | Leaving | Removed | Done

  datatype Caller = Caller(range: Range, phase: Phase)

  datatype Mark = Enter(caller: nat) | Exit(caller: nat)

  /** `history` records when sections begin and end. */
  datatype State = State(callers: seq<Caller>, active: seq<Entry>, history: seq<Mark>)

  function Overlapping(active: seq<Entry>, range: Range): (found: seq<Entry>)
    ensures forall e :: e in found <==> e in active && Overlap(e.range, range)
  {
    if active == [] then []
    else (if Overlap(active[0].range, range) then [active[0]] else []) + Overlapping(active[1..], range)
  }

  /** `active` without the first entry of `owner`. */
  function Without(active: seq<Entry>, owner: nat): seq<Entry> {
    if active == [] then []
    else if active[0].owner == owner then active[1..]
    else [active[0]] + Without(active[1..], owner)
  }

  function To(s: State, c: nat, phase: Phase): State
    requires c < |s.callers|
  {
    s.(callers := s.callers[c := s.callers[c].(phase := phase)])
  }

  predicate AllOver(s: State, on: seq<Entry>) {
    forall i :: 0 <= i < |on| ==> on[i].owner < |s.callers| && s.callers[on[i].owner].phase == Done
  }

  predicate Possible(s: State, c: nat) {
    && c < |s.callers| && s.callers[c].phase != Done
    && (s.callers[c].phase.Blocked? ==> AllOver(s, s.callers[c].phase.on))
  }

  function Step(s: State, c: nat): State
    requires Possible(s, c)
  {
    match s.callers[c].phase
    case Trying =>
      var range := s.callers[c].range;
      var found := Overlapping(s.active, range);
      if found == [] then
        To(s, c, Holding).(active := s.active + [Entry(c, range)], history := s.history + [Enter(c)])
      else To(s, c, Blocked(found))
    case Blocked(_) => To(s, c, Trying)
    case Holding => To(s, c, Leaving).(history := s.history + [Exit(c)])
    case Leaving => To(s, c, Removed).(active := Without(s.active, c))
    case _ => To(s, c, Done)
  }

  // ---- invariant -----------------------------------------------------------------------------

  predicate Listed(phase: Phase) {
    phase.Holding? || phase.Leaving?
  }

  predicate Entered(phase: Phase) {
    !phase.Trying? && !phase.Blocked?
  }

  /** The entries belong to the callers inside their section or just out of it, one each. */
  ghost predicate ActiveExact(s: State) {
    && (forall i :: 0 <= i < |s.active| ==>
          && s.active[i].owner < |s.callers|
          && s.active[i].range == s.callers[s.active[i].owner].range
          && Listed(s.callers[s.active[i].owner].phase))
    && (forall i, j :: 0 <= i < j < |s.active| ==> s.active[i].owner != s.active[j].owner)
    && (forall c :: 0 <= c < |s.callers| && Listed(s.callers[c].phase) ==> Entry(c, s.callers[c].range) in s.active)
  }

  /** No two active ranges overlap. */
  ghost predicate Disjoint(active: seq<Entry>) {
    forall i, j :: 0 <= i < j < |active| ==> !Overlap(active[i].range, active[j].range)
  }

  /** Waiters wait only for callers that got in. */
  ghost predicate WaitsOk(s: State) {
    forall c :: 0 <= c < |s.callers| && s.callers[c].phase.Blocked? ==> WaitOk(s, s.callers[c].phase.on)
  }

  ghost predicate WaitOk(s: State, on: seq<Entry>) {
    forall i :: 0 <= i < |on| ==> on[i].owner < |s.callers| && Entered(s.callers[on[i].owner].phase)
  }

  ghost predicate HistoryOk(s: State) {
    && (forall i :: 0 <= i < |s.history| ==>
          && s.history[i].caller < |s.callers|
          && Entered(s.callers[s.history[i].caller].phase)
          && (s.history[i].Exit? ==> !s.callers[s.history[i].caller].phase.Holding?))
    && (forall c :: 0 <= c < |s.callers| && Entered(s.callers[c].phase) && !s.callers[c].phase.Holding? ==>
          Exit(c) in s.history)
    && (forall i, k :: EnterAndExit(s, i, k) ==> i < k)
  }

  /** Marks i and k are the entry and the exit of one section. */
  ghost predicate EnterAndExit(s: State, i: int, k: int) {
    && 0 <= i < |s.history| && 0 <= k < |s.history|
    && s.history[i].Enter? && s.history[k] == Exit(s.history[i].caller)
  }

  /** Marks i and j are the entries of two sections whose ranges overlap. */
  ghost predicate Conflict(s: State, i: int, j: int) {
    && 0 <= i < j < |s.history| && s.history[i].Enter? && s.history[j].Enter?
    && s.history[i].caller < |s.callers| && s.history[j].caller < |s.callers|
    && Overlap(s.callers[s.history[i].caller].range, s.callers[s.history[j].caller].range)
  }

  /** The section entered at i is over before mark j. */
  ghost predicate OverBefore(history: seq<Mark>, i: int, j: int) {
    0 <= i < j < |history| && Exit(history[i].caller) in history[i + 1..j]
  }

  /** Sections of overlapping ranges never interleave. */
  ghost predicate NeverInterleaved(s: State) {
    forall i, j :: Conflict(s, i, j) ==> OverBefore(s.history, i, j)
  }

  ghost predicate Inv(s: State) {
    ActiveExact(s) && Disjoint(s.active) && WaitsOk(s) && HistoryOk(s) && NeverInterleaved(s)
  }

  ghost predicate Init(s: State) {
    && s.active == [] && s.history == []
    && forall c :: 0 <= c < |s.callers| ==> s.callers[c].phase == Trying
  }

  // ---- steps keep the invariant ----------------------------------------------------------------

  lemma {:induction false} WithoutKeepsOthers(active: seq<Entry>, owner: nat)
    requires forall i, j :: 0 <= i < j < |active| ==> active[i].owner != active[j].owner
    ensures forall e :: e in Without(active, owner) <==> e in active && e.owner != owner
    ensures forall i, j :: 0 <= i < j < |Without(active, owner)| ==>
              Without(active, owner)[i].owner != Without(active, owner)[j].owner
    ensures Disjoint(active) ==> Disjoint(Without(active, owner))
  {
    if active != [] {
      assert forall e :: e in active <==> e == active[0] || e in active[1..];
      if active[0].owner == owner {
        forall e | e in active[1..] ensures e.owner != owner {
          var j :| 0 <= j < |active[1..]| && active[1..][j] == e;
          assert active[j + 1] == e;
        }
      } else {
        WithoutKeepsOthers(active[1..], owner);
        var rest := Without(active[1..], owner);
        forall j | 0 <= j < |rest|
          ensures active[0].owner != rest[j].owner
          ensures Disjoint(active) ==> !Overlap(active[0].range, rest[j].range)
        {
          assert rest[j] in active[1..];
        }
      }
    }
  }

  lemma DisjointGrows(active: seq<Entry>, e: Entry)
    requires Disjoint(active) && Overlapping(active, e.range) == []
    ensures Disjoint(active + [e])
  {
    forall i | 0 <= i < |active| ensures !Overlap(active[i].range, e.range) {
      assert active[i] !in Overlapping(active, e.range);
    }
  }

  lemma EnterKeepsActive(s: State, c: nat)
    requires ActiveExact(s) && Disjoint(s.active)
    requires c < |s.callers| && s.callers[c].phase.Trying? && Overlapping(s.active, s.callers[c].range) == []
    ensures ActiveExact(Step(s, c)) && Disjoint(Step(s, c).active)
  {
    hide Disjoint, Overlap;
    var s' := Step(s, c);
    var range := s.callers[c].range;
    DisjointGrows(s.active, Entry(c, range));
    assert s'.active[|s.active|] == Entry(c, range);
    forall d | 0 <= d < |s'.callers| && Listed(s'.callers[d].phase) ensures Entry(d, s'.callers[d].range) in s'.active {
      assert d != c ==> Entry(d, s.callers[d].range) in s.active;
    }
  }

  lemma EnterKeepsInv(s: State, c: nat)
    requires Inv(s) && c < |s.callers| && s.callers[c].phase.Trying? && Overlapping(s.active, s.callers[c].range) == []
    ensures Inv(Step(s, c))
  {
    EnterKeepsActive(s, c);
    EnterKeepsHistory(s, c);
  }

  /** A step that marks nothing. */
  lemma NoMarkKeepsHistory(s: State, s': State, c: nat)
    requires HistoryOk(s) && NeverInterleaved(s)
    requires c < |s.callers| == |s'.callers| && s'.callers == s.callers[c := s'.callers[c]]
    requires s'.callers[c].range == s.callers[c].range
    requires Entered(s'.callers[c].phase) <==> Entered(s.callers[c].phase)
    requires !s.callers[c].phase.Holding? && !s'.callers[c].phase.Holding?
    requires s'.history == s.history
    ensures HistoryOk(s') && NeverInterleaved(s')
  {
    forall i, k | EnterAndExit(s', i, k) ensures i < k {
      assert EnterAndExit(s, i, k);
    }
    forall i, j | Conflict(s', i, j) ensures OverBefore(s'.history, i, j) {
      assert Conflict(s, i, j);
    }
  }

  lemma EnterKeepsMarks(s: State, c: nat)
    requires Inv(s) && c < |s.callers| && s.callers[c].phase.Trying? && Overlapping(s.active, s.callers[c].range) == []
    ensures HistoryOk(Step(s, c))
  {
    var s' := Step(s, c);
    forall d | 0 <= d < |s'.callers| && Entered(s'.callers[d].phase) && !s'.callers[d].phase.Holding?
      ensures Exit(d) in s'.history
    {
      assert Exit(d) in s.history;
    }
    forall i, k | EnterAndExit(s', i, k) ensures i < k {
      assert EnterAndExit(s, i, k);
    }
  }

  lemma EnterKeepsHistory(s: State, c: nat)
    requires Inv(s) && c < |s.callers| && s.callers[c].phase.Trying? && Overlapping(s.active, s.callers[c].range) == []
    ensures HistoryOk(Step(s, c)) && NeverInterleaved(Step(s, c))
  {
    var s' := Step(s, c);
    EnterKeepsMarks(s, c);
    forall i, j | Conflict(s', i, j) ensures OverBefore(s'.history, i, j) {
      if j < |s.history| {
        assert Conflict(s, i, j);
        assert s'.history[i + 1..j] == s.history[i + 1..j];
      } else {
        OverlappingIsOver(s, c, i);
        assert s'.history[i + 1..j] == s.history[i + 1..];
      }
    }
  }

  /** With no blocker left, an overlapping section begun before is over. */
  lemma OverlappingIsOver(s: State, c: nat, i: nat)
    requires ActiveExact(s) && HistoryOk(s) && c < |s.callers| && Overlapping(s.active, s.callers[c].range) == []
    requires i < |s.history| && s.history[i].Enter?
    requires Overlap(s.callers[s.history[i].caller].range, s.callers[c].range)
    ensures Exit(s.history[i].caller) in s.history[i + 1..]
  {
    var a := s.history[i].caller;
    assert Entered(s.callers[a].phase);
    assert Entry(a, s.callers[a].range) !in Overlapping(s.active, s.callers[c].range);
    assert !Listed(s.callers[a].phase);
    var k :| 0 <= k < |s.history| && s.history[k] == Exit(a);
    assert EnterAndExit(s, i, k);
    assert s.history[i + 1..][k - i - 1] == Exit(a);
  }

  /** A step that leaves the entries and the history alone. */
  lemma WaitKeepsInv(s: State, c: nat)
    requires Inv(s) && Possible(s, c)
    requires s.callers[c].phase.Blocked? || (s.callers[c].phase.Trying? && Overlapping(s.active, s.callers[c].range) != [])
    ensures Inv(Step(s, c))
  {
    var s' := Step(s, c);
    NoMarkKeepsHistory(s, s', c);
    if s.callers[c].phase.Trying? {
      var found := Overlapping(s.active, s.callers[c].range);
      forall i | 0 <= i < |found| ensures found[i].owner < |s.callers| && Listed(s.callers[found[i].owner].phase) {
        assert found[i] in found;
      }
    }
  }

  lemma ExitKeepsInv(s: State, c: nat)
    requires Inv(s) && c < |s.callers| && s.callers[c].phase.Holding?
    ensures Inv(Step(s, c))
  {
    var s' := Step(s, c);
    var n := |s.history|;
    assert s'.history[n] == Exit(c);
    forall d | 0 <= d < |s'.callers| && Entered(s'.callers[d].phase) && !s'.callers[d].phase.Holding?
      ensures Exit(d) in s'.history
    {
      assert d != c ==> Exit(d) in s.history;
    }
    forall i, k | EnterAndExit(s', i, k) ensures i < k {
      assert k < n ==> EnterAndExit(s, i, k);
    }
    forall i, j | Conflict(s', i, j) ensures OverBefore(s'.history, i, j) {
      assert Conflict(s, i, j);
      assert s'.history[i + 1..j] == s.history[i + 1..j];
    }
  }

  lemma UnlistKeepsInv(s: State, c: nat)
    requires Inv(s) && c < |s.callers| && (s.callers[c].phase.Leaving? || s.callers[c].phase.Removed?)
    ensures Inv(Step(s, c))
  {
    var s' := Step(s, c);
    NoMarkKeepsHistory(s, s', c);
    WithoutKeepsOthers(s.active, c);
    if s.callers[c].phase.Leaving? {
      forall i | 0 <= i < |s'.active|
        ensures s'.active[i] in s.active && s'.active[i].owner != c
      {
        assert s'.active[i] in s'.active;
      }
    }
  }

  lemma StepKeepsInv(s: State, c: nat)
    requires Inv(s) && Possible(s, c)
    ensures Inv(Step(s, c))
  {
    match s.callers[c].phase
    case Trying =>
      if Overlapping(s.active, s.callers[c].range) == [] { EnterKeepsInv(s, c); } else { WaitKeepsInv(s, c); }
    case Blocked(_) => WaitKeepsInv(s, c);
    case Holding => ExitKeepsInv(s, c);
    case _ => UnlistKeepsInv(s, c);
  }

  // ---- no stuck state, and an end --------------------------------------------------------------

  ghost predicate AllDone(s: State) {
    forall c :: 0 <= c < |s.callers| ==> s.callers[c].phase == Done
  }

  /** Whoever is blocked waits for someone who can move. */
  lemma NeverStuck(s: State) returns (c: nat)
    requires Inv(s) && !AllDone(s)
    ensures Possible(s, c)
  {
    c :| c < |s.callers| && s.callers[c].phase != Done;
    if s.callers[c].phase.Blocked? && !AllOver(s, s.callers[c].phase.on) {
      var on := s.callers[c].phase.on;
      assert WaitOk(s, on);
      var i :| 0 <= i < |on| && s.callers[on[i].owner].phase != Done;
      c := on[i].owner;
    }
  }

  lemma ActiveIsNotDone(s: State)
    requires ActiveExact(s) && s.active != []
    ensures !AllDone(s)
  {
    assert Listed(s.callers[s.active[0].owner].phase);
  }

  /** What c still costs; its last step pays for waking everybody it blocked. */
  function Cost(s: State, c: nat): int
    requires c < |s.callers|
  {
    var wake := 2 * |s.callers| + 1;
    match s.callers[c].phase
    case Trying => wake + 3
    case Blocked(on) => if AllOver(s, on) then wake + 4 else wake + 2
    case Holding => wake + 2
    case Leaving => wake + 1
    case Removed => wake
    case Done => 0
  }

  function Plan(s: State): seq<int> {
    seq(|s.callers|, c requires 0 <= c < |s.callers| => Cost(s, c))
  }

  lemma {:induction false} SumRaised(xs: seq<int>, ys: seq<int>, raise: nat)
    requires |xs| == |ys| && forall i :: 0 <= i < |xs| ==> ys[i] <= xs[i] + raise
    ensures Sum(ys) <= Sum(xs) + raise * |xs|
  {
    if xs != [] {
      SumRaised(xs[1..], ys[1..], raise);
    }
  }

  /** Nothing changes for the others while c stays short of Done. */
  lemma OthersCostTheSame(s: State, s': State, c: nat)
    requires c < |s.callers| == |s'.callers| && s'.callers == s.callers[c := s'.callers[c]]
    requires s.callers[c].phase != Done && s'.callers[c].phase != Done
    ensures Plan(s') == Plan(s)[c := Cost(s', c)]
  {
    forall d | 0 <= d < |s.callers| && d != c ensures Cost(s', d) == Cost(s, d) {
      if s.callers[d].phase.Blocked? {
        SameWait(s, s', c, s.callers[d].phase.on);
      }
    }
  }

  lemma StepCostsOne(s: State, c: nat)
    requires Inv(s) && Possible(s, c)
    ensures Sum(Plan(Step(s, c))) < Sum(Plan(s))
  {
    var s' := Step(s, c);
    var xs, ys := Plan(s), Plan(s');
    SumUpdate(xs, c, Cost(s', c));
    if s.callers[c].phase.Removed? {
      SumRaised(xs[c := 0], ys, 2);
    } else {
      OthersCostTheSame(s, s', c);
      if s'.callers[c].phase.Blocked? {
        var found := Overlapping(s.active, s.callers[c].range);
        assert found[0] in found;
        assert Listed(s.callers[found[0].owner].phase);
      }
    }
  }

  lemma StepFrame(s: State, c: nat)
    requires Possible(s, c)
    ensures |Step(s, c).callers| == |s.callers|
    ensures forall d :: 0 <= d < |s.callers| ==> Step(s, c).callers[d].range == s.callers[d].range
  {}

  lemma SameWait(s: State, s': State, c: nat, on: seq<Entry>)
    requires c < |s.callers| == |s'.callers| && s'.callers == s.callers[c := s'.callers[c]]
    requires s.callers[c].phase != Done && s'.callers[c].phase != Done
    ensures AllOver(s', on) <==> AllOver(s, on)
  {}

  ghost predicate Next(s: State, s': State) {
    exists c :: Possible(s, c) && s' == Step(s, c)
  }

  ghost predicate IsRun(run: seq<State>) {
    && run != [] && Init(run[0])
    && forall i :: 0 <= i < |run| - 1 ==> Next(run[i], run[i + 1])
  }

  lemma {:induction false} RunKeepsInv(run: seq<State>, i: nat)
    requires IsRun(run) && i < |run|
    ensures Inv(run[i])
    ensures |run[i].callers| == |run[0].callers|
    ensures forall c :: 0 <= c < |run[0].callers| ==> run[i].callers[c].range == run[0].callers[c].range
    ensures Sum(Plan(run[i])) + i <= Sum(Plan(run[0]))
  {
    if i > 0 {
      RunKeepsInv(run, i - 1);
      assert Next(run[i - 1], run[i - 1 + 1]);
      var c :| Possible(run[i - 1], c) && run[i] == Step(run[i - 1], c);
      StepKeepsInv(run[i - 1], c);
      StepCostsOne(run[i - 1], c);
      StepFrame(run[i - 1], c);
    }
  }

  lemma {:induction false} SumConstant(xs: seq<int>, x: int)
    requires forall i :: 0 <= i < |xs| ==> xs[i] == x
    ensures Sum(xs) == |xs| * x
  {
    if xs != [] {
      SumConstant(xs[1..], x);
    }
  }

  ghost predicate NoStepPossible(s: State) {
    forall c: nat :: !Possible(s, c)
  }

  /**
   n callers take at most n(2n + 4) steps in all, however they interleave and however often they look
   again; when no step is left every caller has had its section and no entry is left.
   */
  lemma RunsFinish(run: seq<State>)
    requires IsRun(run)
    ensures var n := |run[0].callers|; |run| - 1 <= n * (2 * n + 4)
    ensures var last := run[|run| - 1]; NoStepPossible(last) ==> AllDone(last) && last.active == []
  {
    var last := run[|run| - 1];
    RunKeepsInv(run, |run| - 1);
    SumNonNegative(Plan(last));
    var n := |run[0].callers|;
    SumConstant(Plan(run[0]), 2 * n + 4);
    if NoStepPossible(last) {
      if !AllDone(last) {
        var c := NeverStuck(last);
        assert false;
      }
      if last.active != [] {
        ActiveIsNotDone(last);
        assert false;
      }
    }
  }

  /** At every moment of every run the held ranges are disjoint, and overlapping sections took turns. */
  lemma SectionsAreSafe(run: seq<State>, n: nat)
    requires IsRun(run) && n < |run|
    ensures NeverInterleaved(run[n]) && Disjoint(run[n].active)
    ensures forall c, d :: 0 <= c < d < |run[n].callers| && run[n].callers[c].phase.Holding? && run[n].callers[d].phase.Holding?
              ==> !Overlap(run[n].callers[c].range, run[n].callers[d].range)
  {
    RunKeepsInv(run, n);
    var s := run[n];
    forall c, d | 0 <= c < d < |s.callers| && s.callers[c].phase.Holding? && s.callers[d].phase.Holding?
      ensures !Overlap(s.callers[c].range, s.callers[d].range)
    {
      assert Listed(s.callers[c].phase) && Listed(s.callers[d].phase);
      var i :| 0 <= i < |s.active| && s.active[i] == Entry(c, s.callers[c].range);
      var j :| 0 <= j < |s.active| && s.active[j] == Entry(d, s.callers[d].range);
      assert i < j || j < i;
    }
  }

  // ---- who waits for whom ------------------------------------------------------------------------------

  /** Caller d has the lock on a ledger of this range. */
  ghost predicate InTheWay(s: State, d: int, range: Range) {
    && 0 <= d < |s.callers| && Listed(s.callers[d].phase)
    && exists ledger :: Shares(s.callers[d].range, range, ledger)
  }

  ghost predicate ProperRanges(s: State) {
    forall c :: 0 <= c < |s.callers| ==> s.callers[c].range.startLedger <= s.callers[c].range.endLedger
  }

  lemma FoundAreInTheWay(s: State, c: nat, d: nat)
    requires ActiveExact(s) && ProperRanges(s) && c < |s.callers| && d < |s.callers|
    ensures (exists e :: e in Overlapping(s.active, s.callers[c].range) && e.owner == d) <==> InTheWay(s, d, s.callers[c].range)
  {
    hide Shares;
    var range := s.callers[c].range;
    OverlapMeansSharedLedger(s.callers[d].range, range);
    if InTheWay(s, d, range) {
      assert Entry(d, s.callers[d].range) in Overlapping(s.active, range);
    }
    if e :| e in Overlapping(s.active, range) && e.owner == d {
      var i :| 0 <= i < |s.active| && s.active[i] == e;
    }
  }

  /**
   A caller that looks gets in at once if and only if nobody has the lock on one of its ledgers; otherwise it
   waits for exactly those who have, and looks again if and only if they are all done.
   */
  lemma EntersExactlyWhen(s: State, c: nat)
    requires Inv(s) && ProperRanges(s) && c < |s.callers| && s.callers[c].phase.Trying?
    ensures var phase := Step(s, c).callers[c].phase;
            && (phase == Holding <==> forall d :: !InTheWay(s, d, s.callers[c].range))
            && (phase != Holding ==>
                  phase.Blocked? && forall d: nat :: d < |s.callers| ==>
                    ((exists e :: e in phase.on && e.owner == d) <==> InTheWay(s, d, s.callers[c].range)))
  {
    hide InTheWay;
    var range := s.callers[c].range;
    var found := Overlapping(s.active, range);
    forall d: nat | d < |s.callers| ensures (exists e :: e in found && e.owner == d) <==> InTheWay(s, d, range) {
      FoundAreInTheWay(s, c, d);
    }
    OnlyCallersAreInTheWay(s, range);
    if found != [] {
      var e := found[0];
      assert e in s.active && e.owner < |s.callers|;
      assert InTheWay(s, e.owner, range);
    }
  }

  lemma OnlyCallersAreInTheWay(s: State, range: Range)
    ensures forall d :: InTheWay(s, d, range) ==> 0 <= d < |s.callers|
  {
  }

  lemma LooksAgainExactlyWhen(s: State, c: nat)
    requires c < |s.callers| && s.callers[c].phase.Blocked?
    requires forall e :: e in s.callers[c].phase.on ==> e.owner < |s.callers|
    ensures Possible(s, c) <==> forall e :: e in s.callers[c].phase.on ==> s.callers[e.owner].phase == Done
    ensures Possible(s, c) ==> Step(s, c).callers[c].phase == Trying
  {
    var on := s.callers[c].phase.on;
    assert forall i :: 0 <= i < |on| ==> on[i] in on;
  }

  // ---- the module state of the source ----------------------------------------------------------

  lemma {:induction false} WithoutAt(active: seq<Entry>, owner: nat, idx: nat)
    requires idx <= |active| && forall i :: 0 <= i < idx ==> active[i].owner != owner
    requires idx < |active| ==> active[idx].owner == owner
    ensures Without(active, owner) == if idx < |active| then active[..idx] + active[idx + 1..] else active
  {
    if active != [] && idx > 0 {
      WithoutAt(active[1..], owner, idx - 1);
      assert active == [active[0]] + active[1..];
    }
  }

  lemma FilterGoesOn(active: seq<Entry>, i: nat, range: Range, found: seq<Entry>)
    requires i < |active| && found + Overlapping(active[i..], range) == Overlapping(active, range)
    ensures (found + if Overlap(active[i].range, range) then [active[i]] else []) + Overlapping(active[i + 1..], range)
            == Overlapping(active, range)
  {
    var here := if Overlap(active[i].range, range) then [active[i]] else [];
    var rest := Overlapping(active[i + 1..], range);
    assert Overlapping(active[i..], range) == here + rest by { assert active[i..][1..] == active[i + 1..]; }
    Associates(found, here, rest);
  }

  lemma Associates(a: seq<Entry>, b: seq<Entry>, c: seq<Entry>)
    ensures a + (b + c) == a + b + c
  {
  }

  lemma NothingOverlapsNothing(active: seq<Entry>, range: Range)
    requires active == []
    ensures Overlapping(active, range) == []
  {
  }

  class RangeLockTable {
    var activeRangeLocks: seq<Entry>
    /** The calls of `withOverlappingRangeLock`, each with its place in the code. */
    var callers: seq<Caller>
    ghost var history: seq<Mark>

    ghost function Abs(): State
      reads this
    {
      State(callers, activeRangeLocks, history)
    }

    constructor (ranges: seq<Range>)
      ensures Init(Abs()) && |callers| == |ranges| && forall c :: 0 <= c < |ranges| ==> callers[c].range == ranges[c]
    {
      activeRangeLocks, history := [], [];
      callers := seq(|ranges|, c requires 0 <= c < |ranges| => Caller(ranges[c], Trying));
    }

    /** The guarded section that looks for blockers, and takes the lock if there are none. */
    method TryAcquire(entry: Entry) returns (blockers: seq<Entry>)
      modifies this`activeRangeLocks
      ensures blockers == Overlapping(old(activeRangeLocks), entry.range)
      ensures activeRangeLocks == if blockers == [] then old(activeRangeLocks) + [entry] else old(activeRangeLocks)
      ensures old(Disjoint(activeRangeLocks)) ==> Disjoint(activeRangeLocks)
    {
      hide Overlapping, Disjoint;
      blockers := [];
      assert activeRangeLocks[0..] == activeRangeLocks;
      for i := 0 to |activeRangeLocks|
        invariant activeRangeLocks == old(activeRangeLocks)
        invariant blockers + Overlapping(activeRangeLocks[i..], entry.range) == Overlapping(activeRangeLocks, entry.range)
      {
        FilterGoesOn(activeRangeLocks, i, entry.range, blockers);
        if Overlap(activeRangeLocks[i].range, entry.range) {
          blockers := blockers + [activeRangeLocks[i]];
        }
      }
      NothingOverlapsNothing(activeRangeLocks[|activeRangeLocks|..], entry.range);
      if blockers == [] {
        if Disjoint(activeRangeLocks) {
          DisjointGrows(activeRangeLocks, entry);
        }
        activeRangeLocks := activeRangeLocks + [entry];
      }
    }

    /** The guarded section of the `finally`: `indexOf`, then `splice`. */
    method Remove(owner: nat)
      modifies this`activeRangeLocks
      ensures activeRangeLocks == Without(old(activeRangeLocks), owner)
    {
      var idx := 0;
      while idx < |activeRangeLocks| && activeRangeLocks[idx].owner != owner
        invariant idx <= |activeRangeLocks| && activeRangeLocks == old(activeRangeLocks)
        invariant forall i :: 0 <= i < idx ==> activeRangeLocks[i].owner != owner
      {
        idx := idx + 1;
      }
      WithoutAt(activeRangeLocks, owner, idx);
      if idx < |activeRangeLocks| {
        activeRangeLocks := activeRangeLocks[..idx] + activeRangeLocks[idx + 1..];
      }
    }

    /** A call goes on from one await to the next. */
    method Advance(c: nat)
      requires Inv(Abs()) && Possible(Abs(), c)
      modifies this
      ensures Inv(Abs()) && Abs() == Step(old(Abs()), c)
    {
      hide Inv, Overlapping, Without;
      StepKeepsInv(Abs(), c);
      var caller := callers[c];
      match caller.phase
      case Trying =>
        var blockers := TryAcquire(Entry(c, caller.range));
        if blockers == [] {
          callers := callers[c := caller.(phase := Holding)];
          history := history + [Enter(c)];
        } else {
          callers := callers[c := caller.(phase := Blocked(blockers))];
        }
      case Blocked(_) =>
        callers := callers[c := caller.(phase := Trying)];
      case Holding =>
        callers := callers[c := caller.(phase := Leaving)];
        history := history + [Exit(c)];
      case Leaving =>
        Remove(c);
        callers := callers[c := caller.(phase := Removed)];
      case Removed =>
        callers := callers[c := caller.(phase := Done)];
      case Done =>
        assert false;
    }
  }
}
