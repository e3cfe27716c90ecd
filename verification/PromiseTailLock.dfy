/**
 The per-key lock that the event store, the insert queue and the range tracker each write out:
 every caller chains itself behind the promise found in a tails map and leaves its own promise there.

 A ticket is one call. Its gate is the promise its `finally` resolves; its tail is
 `previous.then(() => gate)`, so the tail settles once the previous tail and the gate both have.
 */
module PromiseTailLock {
  import opened Wrappers

  datatype Status = Waiting | Held | Released

  /** `previous` is None when the map had no entry, which is `Promise.resolve()`. */
  datatype Ticket = Ticket(key: string, owner: nat, previous: Option<nat>, status: Status)

  datatype Locks = Locks(tickets: seq<Ticket>, tails: map<string, nat>)

  const NO_LOCKS := Locks([], map[])

  /** Read the tail, chain behind it, become the tail: one synchronous stretch of the source. */
  function Request(l: Locks, key: string, owner: nat): Locks {
    var previous := if key in l.tails then Some(l.tails[key]) else None;
    Locks(l.tickets + [Ticket(key, owner, previous, Waiting)], l.tails[key := |l.tickets|])
  }

  /** The await returns: the caller runs. */
  function Grant(l: Locks, t: nat): Locks
    requires t < |l.tickets|
  {
    l.(tickets := l.tickets[t := l.tickets[t].(status := Held)])
  }

  /** The `finally` block: open the gate, and forget the tail if it is still one's own. */
  function Release(l: Locks, t: nat): Locks
    requires t < |l.tickets|
  {
    var key := l.tickets[t].key;
    Locks(l.tickets[t := l.tickets[t].(status := Released)],
          if key in l.tails && l.tails[key] == t then l.tails - {key} else l.tails)
  }

  /** Every ticket chains behind an earlier one. */
  ghost predicate Linked(l: Locks) {
    forall t :: 0 <= t < |l.tickets| && l.tickets[t].previous.Some? ==> l.tickets[t].previous.value < t
  }

  ghost predicate TailSettled(l: Locks, t: nat)
    requires Linked(l) && t < |l.tickets|
    decreases t, 1
  {
    l.tickets[t].status == Released && PreviousSettled(l, t)
  }

  /** What `await previous` waits for. */
  ghost predicate PreviousSettled(l: Locks, t: nat)
    requires Linked(l) && t < |l.tickets|
    decreases t, 0
  {
    l.tickets[t].previous.Some? ==> TailSettled(l, l.tickets[t].previous.value)
  }

  /** i and j are calls for one key, i made first. */
  ghost predicate Before(l: Locks, i: int, j: int) {
    0 <= i < j < |l.tickets| && l.tickets[i].key == l.tickets[j].key
  }

  /** An earlier call for the key is over, or is reached by the chain. */
  ghost predicate Chained(l: Locks) {
    forall i, j :: Before(l, i, j) ==>
      l.tickets[i].status == Released || (l.tickets[j].previous.Some? && i <= l.tickets[j].previous.value)
  }

  /** A call runs only when every earlier call for the key is over. */
  ghost predicate InOrder(l: Locks) {
    forall i, j :: Before(l, i, j) && l.tickets[j].status != Waiting ==> l.tickets[i].status == Released
  }

  /** The map holds exactly the last unfinished call of each key that has one. */
  ghost predicate TailsExact(l: Locks) {
    && (forall k :: k in l.tails ==>
          && l.tails[k] < |l.tickets|
          && l.tickets[l.tails[k]].key == k
          && l.tickets[l.tails[k]].status != Released
          && forall j :: !Before(l, l.tails[k], j))
    && (forall t :: 0 <= t < |l.tickets| && l.tickets[t].status != Released ==> l.tickets[t].key in l.tails)
  }

  ghost predicate PreviousSameKey(l: Locks)
    requires Linked(l)
  {
    forall t :: 0 <= t < |l.tickets| && l.tickets[t].previous.Some? ==>
      l.tickets[l.tickets[t].previous.value].key == l.tickets[t].key
  }

  ghost predicate LocksInv(l: Locks) {
    Linked(l) && PreviousSameKey(l) && Chained(l) && InOrder(l) && TailsExact(l)
  }

  ghost predicate CanGrant(l: Locks, t: int) {
    Linked(l) && 0 <= t < |l.tickets| && l.tickets[t].status == Waiting && PreviousSettled(l, t)
  }

  lemma RequestKeepsInv(l: Locks, key: string, owner: nat)
    requires LocksInv(l)
    ensures LocksInv(Request(l, key, owner))
  {
    var m := Request(l, key, owner);
    forall i, j | Before(m, i, j) && j < |l.tickets| ensures Before(l, i, j) {}
    forall i, j | Before(m, i, j)
      ensures m.tickets[i].status == Released || (m.tickets[j].previous.Some? && i <= m.tickets[j].previous.value)
    {
      if j == |l.tickets| && l.tickets[i].status != Released {
        assert i != l.tails[key] ==> !Before(l, l.tails[key], i);
      } else if j < |l.tickets| {
        assert Before(l, i, j);
      }
    }
    forall k, j | k in m.tails ensures !Before(m, m.tails[k], j) {
      if k != key {
        assert !Before(l, l.tails[k], j);
      }
    }
  }

  lemma GrantKeepsInv(l: Locks, t: nat)
    requires LocksInv(l) && CanGrant(l, t)
    ensures LocksInv(Grant(l, t))
  {
    var m := Grant(l, t);
    forall i, j | Before(m, i, j) ensures Before(l, i, j) {}
    forall i | Before(l, i, t) ensures l.tickets[i].status == Released {
      if l.tickets[i].status != Released {
        var p := l.tickets[t].previous.value;
        assert TailSettled(l, p);
        assert i < p ==> Before(l, i, p);
      }
    }
    forall i, j | Before(m, i, j) && m.tickets[j].status != Waiting ensures m.tickets[i].status == Released {
      assert Before(l, i, j);
    }
    forall k, j | k in m.tails ensures !Before(m, m.tails[k], j) {
      assert !Before(l, l.tails[k], j);
    }
  }

  lemma ReleaseKeepsInv(l: Locks, t: nat)
    requires LocksInv(l) && t < |l.tickets| && l.tickets[t].status == Held
    ensures LocksInv(Release(l, t))
  {
    var m := Release(l, t);
    forall i, j | Before(m, i, j) ensures Before(l, i, j) {}
    forall k, j | k in m.tails ensures !Before(m, m.tails[k], j) {
      assert !Before(l, l.tails[k], j);
    }
    forall u | 0 <= u < |m.tickets| && m.tickets[u].status != Released ensures m.tickets[u].key in m.tails {
      if l.tickets[u].key == l.tickets[t].key {
        assert Before(l, u, t) || Before(l, t, u);
      }
    }
  }

  /** At most one caller per key is between its grant and its release. */
  lemma MutualExclusion(l: Locks, i: nat, j: nat)
    requires LocksInv(l) && i < |l.tickets| && j < |l.tickets|
    requires l.tickets[i].key == l.tickets[j].key
    requires l.tickets[i].status == Held && l.tickets[j].status == Held
    ensures i == j
  {
    assert !Before(l, i, j) && !Before(l, j, i);
  }

  /** The map has a key exactly while some caller holds the key or waits for it. */
  lemma TailsTrackHoldersAndWaiters(l: Locks, key: string)
    requires LocksInv(l)
    ensures key in l.tails <==>
            exists t :: 0 <= t < |l.tickets| && l.tickets[t].key == key && l.tickets[t].status != Released
  {
    if key in l.tails {
      var t := l.tails[key];
      assert l.tickets[t].key == key && l.tickets[t].status != Released;
    }
  }

  /** Once a call is over, the whole chain behind it is: its tail has settled. */
  lemma {:induction false} ReleasedMeansSettled(l: Locks, t: nat)
    requires LocksInv(l) && t < |l.tickets| && l.tickets[t].status == Released
    ensures TailSettled(l, t)
    decreases t
  {
    if l.tickets[t].previous.Some? {
      var p := l.tickets[t].previous.value;
      assert Before(l, p, t);
      ReleasedMeansSettled(l, p);
    }
  }

  /** The first unfinished call of a key is never held up by its promise chain. */
  lemma FirstIsReady(l: Locks, t: nat)
    requires LocksInv(l) && t < |l.tickets|
    requires forall i :: Before(l, i, t) ==> l.tickets[i].status == Released
    ensures PreviousSettled(l, t)
  {
    if l.tickets[t].previous.Some? {
      var p := l.tickets[t].previous.value;
      assert Before(l, p, t);
      ReleasedMeansSettled(l, p);
    }
  }
}
