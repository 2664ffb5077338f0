/** The schedule-notice sweep: which tickets need a notice, and why repeated sweeps settle. */
module Notices {
  import opened Wrappers
  import opened Queue

  /** A scheduled re-review of a PR with a visible review, whose notice is missing or out of date. */
  predicate NeedsNotice(t: Ticket, now: Instant) {
    && t.status == Deferred
    && t.notBefore.Some? && t.notBefore.value > now
    && t.lastReviewedAt.Some?
    && (t.noticeNotBefore.None? || t.noticeNotBefore != t.notBefore)
  }

  /** A deferred ticket with a visible review and a schedule still ahead needs a notice exactly while the one
      it carries does not show that schedule; no other ticket ever does. */
  lemma NoticeIsOwedIff(ts: Tickets, id: Id, now: Instant)
    requires id in ts
    ensures var t := ts[id];
            if t.status == Deferred && t.lastReviewedAt.Some? && t.notBefore.Some? && now < t.notBefore.value
            then id in Needing(ts, now) <==> t.noticeNotBefore != t.notBefore
            else id !in Needing(ts, now)
  {
  }

  function Needing(ts: Tickets, now: Instant): set<Id> {
    set id | id in ts && NeedsNotice(ts[id], now)
  }

  /** `ids` in ORDER BY enqueued_at, id. */
  ghost function Ranked(ts: Tickets, ids: set<Id>): (r: seq<Id>)
    requires ids <= ts.Keys
    ensures |r| == |ids|
    ensures forall id :: id in r <==> id in ids
    ensures forall i, j | 0 <= i < j < |r| :: r[i] != r[j]
    decreases ids
  {
    if ids == {} then []
    else
      var first := Oldest(ts, ids);
      var rest := Ranked(ts, ids - {first});
      [first] + rest
  }

  /** The rows one sweep of batch size `limit` fetches. */
  ghost function Batch(ts: Tickets, now: Instant, limit: nat): seq<Id> {
    var all := Ranked(ts, Needing(ts, now));
    if |all| <= limit then all else all[..limit]
  }

  ghost function Members(batch: seq<Id>): set<Id> {
    set id | id in batch
  }

  lemma BatchSize(ts: Tickets, now: Instant, limit: nat)
    ensures Members(Batch(ts, now, limit)) <= Needing(ts, now)
    ensures forall id | id in Batch(ts, now, limit) :: id in ts && NeedsNotice(ts[id], now)
    ensures |Members(Batch(ts, now, limit))| == if |Needing(ts, now)| <= limit then |Needing(ts, now)| else limit
  {
    DistinctMembers(Batch(ts, now, limit));
    assert forall id | id in Batch(ts, now, limit) :: id in Members(Batch(ts, now, limit));
  }

  lemma BatchIsDistinct(ts: Tickets, now: Instant, limit: nat)
    ensures var batch := Batch(ts, now, limit); forall i, j | 0 <= i < j < |batch| :: batch[i] != batch[j]
  {
  }

  lemma RankedFirst(ts: Tickets, ids: set<Id>)
    requires ids <= ts.Keys && ids != {}
    ensures Ranked(ts, ids) == [Oldest(ts, ids)] + Ranked(ts, ids - {Oldest(ts, ids)})
  {
  }

  lemma NextInBatch(batch: seq<Id>, first: Id, rest: seq<Id>)
    ensures batch + ([first] + rest) == (batch + [first]) + rest
  {
  }

  lemma {:induction false} DistinctMembers(s: seq<Id>)
    requires forall i, j | 0 <= i < j < |s| :: s[i] != s[j]
    ensures |Members(s)| == |s|
  {
    if s != [] {
      DistinctMembers(s[1..]);
      assert Members(s) == {s[0]} + Members(s[1..]);
    }
  }

  /** A sweep posted on exactly `done`: those rows carry the new marker (and may have lost their
      review with their comment); every other row is as it was. */
  ghost predicate Swept(before: Tickets, after: Tickets, done: set<Id>) {
    && after.Keys == before.Keys
    && forall id | id in before ::
         if id in done then
           && after[id].noticeNotBefore == before[id].notBefore
           && after[id].lastReviewedAt in {None, before[id].lastReviewedAt}
           && after[id] == before[id].(noticeNotBefore := after[id].noticeNotBefore, commentId := after[id].commentId,
                                       lastReviewedAt := after[id].lastReviewedAt)
         else after[id] == before[id]
  }

  lemma SweptFurther(before: Tickets, mid: Tickets, after: Tickets, done: set<Id>, more: set<Id>)
    requires Swept(before, mid, done) && Swept(mid, after, more) && done !! more
    ensures Swept(before, after, done + more)
  {
  }

  /** What a sweep posted it need not post again; what it did not reach is still there, until its
      schedule has passed. */
  lemma SweepSettles(before: Tickets, after: Tickets, done: set<Id>, now: Instant, later: Instant)
    requires Swept(before, after, done) && done <= Needing(before, now) && now <= later
    ensures Needing(after, later) <= Needing(before, now) - done
    ensures later == now ==> Needing(after, later) == Needing(before, now) - done
  {
  }

  // ---- Repeated sweeps ----

  /** `tables[i]` is swept at `nows[i]` with every post succeeding, giving `tables[i + 1]`. */
  ghost predicate Sweeps(tables: seq<Tickets>, nows: seq<Instant>, limit: nat) {
    && |tables| == |nows| && |nows| > 0
    && (forall i | 0 <= i < |nows| - 1 :: nows[i] <= nows[i + 1])
    && (forall i | 0 <= i < |nows| - 1 :: Swept(tables[i], tables[i + 1], Members(Batch(tables[i], nows[i], limit))))
  }

  ghost function Owed(tables: seq<Tickets>, nows: seq<Instant>, i: nat): set<Id>
    requires |tables| == |nows| && i < |nows|
  {
    Needing(tables[i], nows[i])
  }

  lemma OwedShrinks(tables: seq<Tickets>, nows: seq<Instant>, limit: nat, i: nat)
    requires Sweeps(tables, nows, limit) && i + 1 < |nows|
    ensures var batch := Members(Batch(tables[i], nows[i], limit));
            && Owed(tables, nows, i + 1) <= Owed(tables, nows, i) - batch
            && (nows[i] == nows[i + 1] ==> Owed(tables, nows, i + 1) == Owed(tables, nows, i) - batch)
            && (|Owed(tables, nows, i + 1)| == 0 || |Owed(tables, nows, i + 1)| <= |Owed(tables, nows, i)| - limit)
  {
    var batch := Members(Batch(tables[i], nows[i], limit));
    BatchSize(tables[i], nows[i], limit);
    SweepSettles(tables[i], tables[i + 1], batch, nows[i], nows[i + 1]);
    Subset(Owed(tables, nows, i + 1), Owed(tables, nows, i) - batch);
    assert |Owed(tables, nows, i) - batch| == |Owed(tables, nows, i)| - |batch|;
  }

  lemma Subset<T>(a: set<T>, b: set<T>)
    requires a <= b
    ensures |a| <= |b|
  {
    assert |b| == |a| + |b - a| by {
      assert b == a + (b - a);
    }
  }

  lemma {:induction false} OwedOnlyShrinks(tables: seq<Tickets>, nows: seq<Instant>, limit: nat, i: nat, j: nat)
    requires Sweeps(tables, nows, limit) && i <= j < |nows|
    ensures Owed(tables, nows, j) <= Owed(tables, nows, i)
    decreases j
  {
    if i < j {
      OwedOnlyShrinks(tables, nows, limit, i, j - 1);
      OwedShrinks(tables, nows, limit, j - 1);
    }
  }

  function Reach(limit: nat, m: nat): nat {
    if m == 0 then 0 else Reach(limit, m - 1) + limit
  }

  lemma {:induction false} ReachIsProduct(limit: nat, m: nat)
    ensures Reach(limit, m) == m * limit
  {
    if m > 0 {
      ReachIsProduct(limit, m - 1);
    }
  }

  lemma {:induction false} OwedRunsOut(tables: seq<Tickets>, nows: seq<Instant>, limit: nat, m: nat)
    requires Sweeps(tables, nows, limit) && m < |nows|
    ensures |Owed(tables, nows, m)| == 0 || |Owed(tables, nows, m)| <= |Owed(tables, nows, 0)| - Reach(limit, m)
    decreases m
  {
    hide Swept, Batch, Needing, Ranked;
    if m > 0 {
      OwedRunsOut(tables, nows, limit, m - 1);
      OwedShrinks(tables, nows, limit, m - 1);
      if |Owed(tables, nows, m - 1)| == 0 {
        Subset(Owed(tables, nows, m), Owed(tables, nows, m - 1));
      }
    }
  }

  /** After `m` sweeps of batch size k at most n - m * k of n notices are still owed: ceil(n / k)
      sweeps post them all, and from then on nothing is posted. */
  lemma SweepsConverge(tables: seq<Tickets>, nows: seq<Instant>, limit: nat, m: nat)
    requires Sweeps(tables, nows, limit) && m < |nows|
    ensures |Owed(tables, nows, m)| == 0 || |Owed(tables, nows, m)| <= |Owed(tables, nows, 0)| - m * limit
    ensures m * limit >= |Owed(tables, nows, 0)| ==> Batch(tables[m], nows[m], limit) == []
  {
    OwedRunsOut(tables, nows, limit, m);
    ReachIsProduct(limit, m);
    BatchSize(tables[m], nows[m], limit);
    DistinctMembers(Batch(tables[m], nows[m], limit));
  }

  /** No ticket is posted twice. */
  lemma PostedOnce(tables: seq<Tickets>, nows: seq<Instant>, limit: nat, i: nat, j: nat)
    requires Sweeps(tables, nows, limit) && i < j < |nows|
    ensures Members(Batch(tables[i], nows[i], limit)) !! Members(Batch(tables[j], nows[j], limit))
  {
    OwedShrinks(tables, nows, limit, i);
    OwedOnlyShrinks(tables, nows, limit, i + 1, j);
    BatchSize(tables[j], nows[j], limit);
  }

  /** While no schedule passes, every owed notice is posted by some sweep or still owed. */
  lemma {:induction false} PostedOrOwed(tables: seq<Tickets>, nows: seq<Instant>, limit: nat, m: nat, id: Id)
    requires Sweeps(tables, nows, limit) && m < |nows| && (forall i | 0 <= i <= m :: nows[i] == nows[0])
    requires id in Owed(tables, nows, 0)
    ensures id in Owed(tables, nows, m) || exists i :: 0 <= i < m && id in Batch(tables[i], nows[i], limit)
    decreases m
  {
    if m > 0 {
      PostedOrOwed(tables, nows, limit, m - 1, id);
      OwedShrinks(tables, nows, limit, m - 1);
      if id in Owed(tables, nows, m - 1) && id !in Owed(tables, nows, m) {
        assert id in Batch(tables[m - 1], nows[m - 1], limit);
      }
    }
  }
}
