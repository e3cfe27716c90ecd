/**
 The retry sweep over the delivery outbox: failed rows whose backoff has run out get one more attempt
 each, or are given up.
 */
module RetrySweep {
  import opened Wrappers
  import opened WebhookDelivery

  const SWEEP_LIMIT := 100

  /** One POST of a sweep. The delivery id is a function of the key, so it is the same for all of a key's posts. */
  datatype Post = Post(key: Key, attempt: nat)

  /**
   What a sweep meets: the row's event and subscription, if both are still there, whether the event is
   past the maximum age, the endpoint, and the time of recording.
   */
  datatype Surroundings = Surroundings(lookup: Key -> Option<Pair>, tooOld: Key -> bool, endpoint: Endpoint, clock: Clock)

  predicate Due(row: OutboxRow, now: int) {
    row.status == Failed && row.nextAttemptAt.Some? && row.nextAttemptAt.value <= now
  }

  /** `SELECT ... LIMIT 100`: due rows in some order, and all of them unless the limit cuts the list. */
  ghost predicate Selected(outbox: map<Key, OutboxRow>, now: int, rows: seq<Key>) {
    && (forall i, j :: 0 <= i < j < |rows| ==> rows[i] != rows[j])
    && (forall i :: 0 <= i < |rows| ==> rows[i] in outbox && Due(outbox[rows[i]], now))
    && |rows| <= SWEEP_LIMIT
    && (|rows| < SWEEP_LIMIT ==> forall key :: key in outbox && Due(outbox[key], now) ==> key in rows)
  }

  // ---- what may happen to a row -------------------------------------------------------------------------

  /** A failed row is given up, or makes its next attempt and is recorded with it. */
  ghost predicate Retried(before: OutboxRow, after: OutboxRow, attempts: seq<nat>, maxAttempts: nat) {
    && before.status == Failed
    && if attempts == [] then after == before.(status := Dead)
       else && attempts == [before.attempts + 1] && before.attempts < maxAttempts && after.attempts == before.attempts + 1
            && (after.status == Delivered || after.status == Failed)
  }

  /**
   What a selected row becomes: dead when its event or subscription is gone, its attempts are used up or
   its event is too old, else the outcome of its next attempt, or nothing when that attempt throws.
   */
  ghost function Fate(row: OutboxRow, key: Key, around: Surroundings, maxAttempts: nat): Option<OutboxRow> {
    var p := around.lookup(key);
    if p.None? || row.attempts >= maxAttempts || around.tooOld(key) then Some(row.(status := Dead))
    else
      match around.endpoint(p.value, row.attempts + 1)
      case Thrown => None
      case answer => Some(Outcome(answer == Accepted, row.attempts + 1, around.clock(key)))
  }

  /** The fate of a row in terms of what the sweep meets: given up, left alone by a throw, delivered, or failed once more. */
  lemma FateSays(row: OutboxRow, key: Key, around: Surroundings, maxAttempts: nat)
    ensures var fate, p, n := Fate(row, key, around, maxAttempts), around.lookup(key), row.attempts + 1;
            if p.None? || row.attempts >= maxAttempts || around.tooOld(key) then fate == Some(OutboxRow(Dead, row.attempts, row.nextAttemptAt))
            else match around.endpoint(p.value, n)
                 case Thrown => fate == None
                 case Accepted => fate == Some(OutboxRow(Delivered, n, None))
                 case Refused => fate == Some(OutboxRow(Failed, n, Some(around.clock(key) + Wait(n))))
  {
    RetryDelayIsWait(row.attempts + 1);
  }

  /** What one sweep does to a row, with the attempts it posts for it. */
  ghost predicate RowSwept(before: OutboxRow, after: OutboxRow, attempts: seq<nat>, maxAttempts: nat) {
    (after == before && attempts == []) || Retried(before, after, attempts, maxAttempts)
  }

  ghost function AttemptsOf(posts: seq<Post>, key: Key): seq<nat> {
    if posts == [] then []
    else AttemptsOf(posts[..|posts| - 1], key) + if posts[|posts| - 1].key == key then [posts[|posts| - 1].attempt] else []
  }

  ghost predicate Swept(before: map<Key, OutboxRow>, after: map<Key, OutboxRow>, posts: seq<Post>, now: int, maxAttempts: nat) {
    && after.Keys == before.Keys
    && forall key :: key in before ==>
         && RowSwept(before[key], after[key], AttemptsOf(posts, key), maxAttempts)
         && (!Due(before[key], now) ==> after[key] == before[key])
  }

  ghost function NewlyDelivered(start: map<Key, OutboxRow>, now: map<Key, OutboxRow>): set<Key> {
    set key | key in start && key in now && start[key].status != Delivered && now[key].status == Delivered
  }

  lemma CountGrows(start: map<Key, OutboxRow>, before: map<Key, OutboxRow>, after: map<Key, OutboxRow>, key: Key)
    requires key in start && key in before && before[key] == start[key] && start[key].status != Delivered
    requires key in after && after == before[key := after[key]]
    ensures |NewlyDelivered(start, after)| == |NewlyDelivered(start, before)| + if after[key].status == Delivered then 1 else 0
  {
    assert key !in NewlyDelivered(start, before);
    assert NewlyDelivered(start, after) == NewlyDelivered(start, before) + if after[key].status == Delivered then {key} else {};
  }

  lemma NothingNew(outbox: map<Key, OutboxRow>)
    ensures NewlyDelivered(outbox, outbox) == {}
  {
  }

  ghost predicate KeySwept(start: map<Key, OutboxRow>, now: map<Key, OutboxRow>, key: Key, touched: bool, sent: seq<Post>,
                           around: Surroundings, maxAttempts: nat)
    requires key in start && key in now
  {
    if touched then
      && Fate(start[key], key, around, maxAttempts) == Some(now[key])
      && Retried(start[key], now[key], AttemptsOf(sent, key), maxAttempts)
    else now[key] == start[key] && AttemptsOf(sent, key) == []
  }

  /** The rows in `done` have met their fate, everything else is as it was. */
  ghost predicate SweptSoFar(start: map<Key, OutboxRow>, now: map<Key, OutboxRow>, done: seq<Key>, sent: seq<Post>,
                             around: Surroundings, maxAttempts: nat) {
    && now.Keys == start.Keys && (forall key :: key in done ==> key in start)
    && forall key :: key in start ==> KeySwept(start, now, key, key in done, sent, around, maxAttempts)
  }

  lemma NothingSwept(start: map<Key, OutboxRow>, rows: seq<Key>, around: Surroundings, maxAttempts: nat)
    ensures SweptSoFar(start, start, rows[..0], [], around, maxAttempts)
  {
  }

  lemma NextRow(start: map<Key, OutboxRow>, now: int, rows: seq<Key>, i: nat)
    requires Selected(start, now, rows) && i < |rows|
    ensures rows[i] in start && start[rows[i]].status == Failed && rows[i] !in rows[..i]
    ensures rows[..i + 1] == rows[..i] + [rows[i]]
  {
  }

  lemma SweptIsSwept(start: map<Key, OutboxRow>, after: map<Key, OutboxRow>, rows: seq<Key>, n: nat, sent: seq<Post>, now: int,
                     around: Surroundings, maxAttempts: nat)
    requires Selected(start, now, rows) && n <= |rows|
    requires SweptSoFar(start, after, rows[..n], sent, around, maxAttempts)
    ensures Swept(start, after, sent, now, maxAttempts)
  {
    var done := rows[..n];
    forall key | key in start
      ensures RowSwept(start[key], after[key], AttemptsOf(sent, key), maxAttempts)
      ensures !Due(start[key], now) ==> after[key] == start[key]
    {
      assert KeySwept(start, after, key, key in done, sent, around, maxAttempts);
    }
  }

  /** Every failed row whose time has come has met its fate. */
  ghost predicate AllDueMet(start: map<Key, OutboxRow>, after: map<Key, OutboxRow>, now: int, around: Surroundings, maxAttempts: nat) {
    forall key :: key in start && start[key].status == Failed && start[key].nextAttemptAt.Some? && start[key].nextAttemptAt.value <= now ==>
      key in after && Fate(start[key], key, around, maxAttempts) == Some(after[key])
  }

  lemma DueAreMet(start: map<Key, OutboxRow>, after: map<Key, OutboxRow>, rows: seq<Key>, sent: seq<Post>, now: int,
                  around: Surroundings, maxAttempts: nat)
    requires Selected(start, now, rows) && |rows| < 100 && SweptSoFar(start, after, rows[..|rows|], sent, around, maxAttempts)
    ensures AllDueMet(start, after, now, around, maxAttempts)
  {
    hide Fate, Retried;
    assert rows[..|rows|] == rows;
    forall key | key in start && start[key].status == Failed && start[key].nextAttemptAt.Some? && start[key].nextAttemptAt.value <= now
      ensures key in after && Fate(start[key], key, around, maxAttempts) == Some(after[key])
    {
      assert Due(start[key], now) && key in rows;
      assert KeySwept(start, after, key, true, sent, around, maxAttempts);
    }
  }

  lemma AttemptsSnoc(posts: seq<Post>, post: Post, key: Key)
    ensures AttemptsOf(posts + [post], key) == AttemptsOf(posts, key) + if post.key == key then [post.attempt] else []
  {
    assert (posts + [post])[..|posts|] == posts;
  }

  lemma AttemptsGrow(sent: seq<Post>, key: Key, attempts: seq<nat>, other: Key)
    requires |attempts| <= 1
    ensures AttemptsOf(sent + (if attempts == [] then [] else [Post(key, attempts[0])]), other)
            == AttemptsOf(sent, other) + if other == key then attempts else []
  {
    if attempts == [] {
      assert sent + [] == sent;
    } else {
      AttemptsSnoc(sent, Post(key, attempts[0]), other);
    }
  }

  lemma RowAdvances(start: map<Key, OutboxRow>, before: map<Key, OutboxRow>, after: map<Key, OutboxRow>, done: seq<Key>, key: Key,
                    sent: seq<Post>, attempts: seq<nat>, around: Surroundings, maxAttempts: nat)
    requires SweptSoFar(start, before, done, sent, around, maxAttempts) && key in start && key !in done
    requires key in after && after == before[key := after[key]]
    requires Fate(before[key], key, around, maxAttempts) == Some(after[key])
    requires Retried(before[key], after[key], attempts, maxAttempts)
    ensures SweptSoFar(start, after, done + [key], sent + (if attempts == [] then [] else [Post(key, attempts[0])]), around, maxAttempts)
  {
    var sent' := sent + if attempts == [] then [] else [Post(key, attempts[0])];
    forall other | other in start ensures KeySwept(start, after, other, other in done + [key], sent', around, maxAttempts) {
      assert KeySwept(start, before, other, other in done, sent, around, maxAttempts);
      AttemptsGrow(sent, key, attempts, other);
    }
  }

  // ---- the sweep --------------------------------------------------------------------------------------------

  class Sweeper {
    var outbox: map<Key, OutboxRow>
    ghost var posts: seq<Post>

    /** One selected row; answers whether the attempt went through, or nothing when it threw. */
    method RetryRow(key: Key, around: Surroundings, maxAttempts: nat) returns (delivered: Option<bool>, ghost attempts: seq<nat>)
      requires key in outbox && outbox[key].status == Failed
      modifies this
      ensures key in outbox && outbox == old(outbox)[key := outbox[key]]
      ensures posts == old(posts) + (if attempts == [] then [] else [Post(key, attempts[0])])
      ensures delivered.None? <==> Fate(old(outbox)[key], key, around, maxAttempts) == None
      ensures if delivered.None? then attempts == [] && outbox == old(outbox)
              else Fate(old(outbox)[key], key, around, maxAttempts) == Some(outbox[key])
                   && Retried(old(outbox)[key], outbox[key], attempts, maxAttempts)
      ensures delivered == Some(true) <==> outbox[key].status == Delivered
    {
      var row := outbox[key];
      var p := around.lookup(key);
      attempts := [];
      if p.None? {
        outbox := outbox[key := row.(status := Dead)];
        return Some(false), [];
      }
      if row.attempts >= maxAttempts || around.tooOld(key) {
        outbox := outbox[key := row.(status := Dead)];
        return Some(false), [];
      }
      var attempt := row.attempts + 1;
      var answer := around.endpoint(p.value, attempt);
      if answer == Thrown {
        return None, [];
      }
      posts := posts + [Post(key, attempt)];
      outbox := outbox[key := Outcome(answer == Accepted, attempt, around.clock(key))];
      return Some(answer == Accepted), [attempt];
    }

    /** One turn of the sweep: `done` are the rows before this one. */
    method SweepRow(key: Key, around: Surroundings, maxAttempts: nat, count0: nat, ghost start: map<Key, OutboxRow>,
                    ghost done: seq<Key>, ghost posts0: seq<Post>, ghost sent0: seq<Post>)
      returns (threw: bool, count: nat, ghost sent: seq<Post>)
      requires SweptSoFar(start, outbox, done, sent0, around, maxAttempts) && posts == posts0 + sent0
      requires count0 == |NewlyDelivered(start, outbox)|
      requires key in start && key !in done && start[key].status == Failed
      modifies this
      ensures threw <==> Fate(start[key], key, around, maxAttempts) == None
      ensures posts == posts0 + sent
      ensures SweptSoFar(start, outbox, if threw then done else done + [key], sent, around, maxAttempts)
      ensures count == |NewlyDelivered(start, outbox)|
    {
      assert KeySwept(start, outbox, key, false, sent0, around, maxAttempts);
      ghost var before := outbox;
      var delivered;
      ghost var attempts;
      delivered, attempts := RetryRow(key, around, maxAttempts);
      ghost var posted: seq<Post> := if attempts == [] then [] else [Post(key, attempts[0])];
      sent := sent0 + posted;
      Associates(posts0, sent0, posted);
      threw, count := delivered.None?, count0 + if delivered == Some(true) then 1 else 0;
      if threw {
        assert sent == sent0;
      } else {
        RowAdvances(start, before, outbox, done, key, sent0, attempts, around, maxAttempts);
        CountGrows(start, before, outbox, key);
      }
    }

    /**
     `retryFailedDeliveries`: the first n selected rows meet their fate and every other row stays. n falls
     short of the selection exactly when the attempt of row n throws.
     */
    method RetryFailedDeliveries(now: int, rows: seq<Key>, around: Surroundings, maxAttempts: nat)
      returns (redelivered: nat, threw: bool, ghost n: nat, ghost sent: seq<Post>)
      requires Selected(outbox, now, rows)
      modifies this
      ensures posts == old(posts) + sent
      ensures n <= |rows| && (threw <==> n < |rows|)
      ensures threw ==> Fate(old(outbox)[rows[n]], rows[n], around, maxAttempts) == None
      ensures SweptSoFar(old(outbox), outbox, rows[..n], sent, around, maxAttempts)
      ensures Swept(old(outbox), outbox, sent, now, maxAttempts)
      ensures redelivered == |NewlyDelivered(old(outbox), outbox)|
      ensures n <= 100 && (!threw && n < 100 ==> AllDueMet(old(outbox), outbox, now, around, maxAttempts))
    {
      redelivered, threw, n, sent := 0, false, 0, [];
      ghost var start := outbox;
      NothingNew(start);
      NothingSwept(start, rows, around, maxAttempts);
      for i := 0 to |rows|
        invariant !threw && n == i && posts == old(posts) + sent
        invariant SweptSoFar(start, outbox, rows[..i], sent, around, maxAttempts)
        invariant redelivered == |NewlyDelivered(start, outbox)|
      {
        NextRow(start, now, rows, i);
        threw, redelivered, sent := SweepRow(rows[i], around, maxAttempts, redelivered, start, rows[..i], old(posts), sent);
        if threw {
          break;
        }
        n := i + 1;
      }
      SweptIsSwept(start, outbox, rows, n, sent, now, around, maxAttempts);
      if !threw && n < 100 {
        DueAreMet(start, outbox, rows, sent, now, around, maxAttempts);
      }
    }
  }

  // ---- any run of sweeps ----------------------------------------------------------------------------------

  /** A row through a run of sweeps: `history[i]` is the row before sweep i, `attempts[i]` what sweep i posts for it. */
  ghost predicate RowRun(history: seq<OutboxRow>, attempts: seq<seq<nat>>, maxAttempts: nat) {
    && |history| == |attempts| + 1
    && forall i {:trigger attempts[i]} :: 0 <= i < |attempts| ==> RowSwept(history[i], history[i + 1], attempts[i], maxAttempts)
  }

  /** Every row of the outbox has such a run. */
  lemma SweepsGiveRowRuns(outboxes: seq<map<Key, OutboxRow>>, sent: seq<seq<Post>>, clocks: seq<int>, key: Key, maxAttempts: nat)
    requires |outboxes| == |sent| + 1 == |clocks| + 1 && key in outboxes[0]
    requires forall i {:trigger sent[i]} :: 0 <= i < |sent| ==> Swept(outboxes[i], outboxes[i + 1], sent[i], clocks[i], maxAttempts)
    ensures forall i :: 0 <= i < |outboxes| ==> key in outboxes[i]
    ensures RowRun(seq(|outboxes|, i requires 0 <= i < |outboxes| => if key in outboxes[i] then outboxes[i][key] else outboxes[0][key]),
                   seq(|sent|, i requires 0 <= i < |sent| => AttemptsOf(sent[i], key)), maxAttempts)
  {
    KeyStays(outboxes, sent, clocks, key, maxAttempts, |sent|);
  }

  lemma {:induction false} KeyStays(outboxes: seq<map<Key, OutboxRow>>, sent: seq<seq<Post>>, clocks: seq<int>, key: Key, maxAttempts: nat, n: nat)
    requires |outboxes| == |sent| + 1 == |clocks| + 1 && key in outboxes[0] && n < |outboxes|
    requires forall i {:trigger sent[i]} :: 0 <= i < |sent| ==> Swept(outboxes[i], outboxes[i + 1], sent[i], clocks[i], maxAttempts)
    ensures forall i :: 0 <= i <= n ==> key in outboxes[i]
  {
    if n > 0 {
      KeyStays(outboxes, sent, clocks, key, maxAttempts, n - 1);
      assert Swept(outboxes[n - 1], outboxes[n], sent[n - 1], clocks[n - 1], maxAttempts);
    }
  }

  ghost function Joined(attempts: seq<seq<nat>>): seq<nat> {
    if attempts == [] then [] else Joined(attempts[..|attempts| - 1]) + attempts[|attempts| - 1]
  }

  ghost function CountUp(from: nat, n: nat): seq<nat> {
    seq(n, i requires 0 <= i => from + i)
  }

  /** How many more sweeps can touch a row. */
  ghost function Measure(row: OutboxRow, maxAttempts: nat): nat {
    if row.status != Failed then 0 else if row.attempts < maxAttempts then maxAttempts - row.attempts + 1 else 1
  }

  ghost function Touches(history: seq<OutboxRow>): nat {
    if |history| < 2 then 0
    else Touches(history[..|history| - 1]) + if history[|history| - 1] != history[|history| - 2] then 1 else 0
  }

  lemma RunFront(history: seq<OutboxRow>, attempts: seq<seq<nat>>, maxAttempts: nat)
    requires RowRun(history, attempts, maxAttempts) && attempts != []
    ensures RowRun(history[..|history| - 1], attempts[..|attempts| - 1], maxAttempts)
    ensures RowSwept(history[|history| - 2], history[|history| - 1], attempts[|attempts| - 1], maxAttempts)
  {
    var n := |attempts| - 1;
    assert RowSwept(history[n], history[n + 1], attempts[n], maxAttempts);
    forall i | 0 <= i < n ensures RowSwept(history[..n + 1][i], history[..n + 1][i + 1], attempts[..n][i], maxAttempts) {
      assert RowSwept(history[i], history[i + 1], attempts[i], maxAttempts);
    }
  }

  /**
   Over any run of sweeps the attempt numbers of a row rise by exactly one from where it stood and do not
   pass the maximum, every touch lowers the measure, and a row that is delivered or dead stays as it is.
   */
  lemma {:induction false} SweepsOfARow(history: seq<OutboxRow>, attempts: seq<seq<nat>>, maxAttempts: nat)
    requires RowRun(history, attempts, maxAttempts)
    ensures var first, last := history[0], history[|history| - 1];
            && first.attempts <= last.attempts
            && Joined(attempts) == CountUp(first.attempts + 1, last.attempts - first.attempts)
            && (last.attempts > first.attempts ==> last.attempts <= maxAttempts)
            && Touches(history) + Measure(last, maxAttempts) <= Measure(first, maxAttempts)
            && (first.status != Failed ==> last == first)
  {
    if attempts != [] {
      RunFront(history, attempts, maxAttempts);
      SweepsOfARow(history[..|history| - 1], attempts[..|attempts| - 1], maxAttempts);
    }
  }

  // ---- backoff --------------------------------------------------------------------------------------------

  /** The backoff lies between one minute and one hour, does not shrink, and doubles until it meets the hour. */
  lemma BackoffDoublesUpToAnHour(attempts: nat)
    requires attempts >= 1
    ensures RetryDelay(1) == 60_000 <= RetryDelay(attempts) <= 3_600_000
    ensures RetryDelay(attempts + 1) == if 2 * RetryDelay(attempts) < 3_600_000 then 2 * RetryDelay(attempts) else 3_600_000
  {
    DoubledGrows(RETRY_BASE_DELAY_MS, 0, attempts - 1);
  }
}
