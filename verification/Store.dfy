/** The durable ticket store: the two tables and one method per store function, statement by
    statement. Each method is atomic. */
module Store {
  import opened Wrappers
  import opened Cooldown
  import opened Queue
  import opened Notices

  class TicketStore {
    var tickets: Tickets
    var nextId: Id
    var reviews: seq<Review>

    /** UNIQUE (repo, pr), and the identity column is ahead of every row. */
    ghost predicate Valid()
      reads this
    {
      OneTicketPerPr(tickets) && forall id | id in tickets :: id < nextId
    }

    constructor ()
      ensures Valid() && tickets == map[] && nextId == 0 && reviews == []
    {
      tickets, nextId, reviews := map[], 0, [];
    }

    method Find(repo: string, pr: nat) returns (found: Option<Id>)
      requires Valid()
      ensures found.Some? <==> Tracked(tickets, repo, pr)
      ensures found.Some? ==> found.value == Lookup(tickets, repo, pr)
    {
      var rest := tickets.Keys;
      while rest != {}
        invariant rest <= tickets.Keys
        invariant forall id | id in tickets && tickets[id].IsFor(repo, pr) :: id in rest
        decreases rest
      {
        var id :| id in rest;
        if tickets[id].IsFor(repo, pr) {
          return Some(id);
        }
        rest := rest - {id};
      }
      found := None;
    }

    /** Returns `None` when the date arithmetic of the re-arming branch raises, which rolls the
        transaction back. `inForce` is the triple the cache holds whenever it holds one. */
    method EnqueueOrUpdate(repo: string, pr: nat, sha: Option<string>, provider: string, now: Instant,
                           cached: Option<Triple>, ghost inForce: Triple)
      returns (id: Option<Id>)
      requires Valid() && (cached.Some? ==> cached.value == inForce)
      modifies this
      ensures Valid() && reviews == old(reviews)
      ensures id.None? <==> !PushComputes(old(tickets), repo, pr, cached)
      ensures id.None? ==> tickets == old(tickets) && nextId == old(nextId)
      ensures id.Some? && Tracked(old(tickets), repo, pr) ==>
                && id.value == Lookup(old(tickets), repo, pr) && nextId == old(nextId)
                && tickets == old(tickets)[id.value := Pushed(old(tickets)[id.value], sha, now, inForce)]
      ensures !Tracked(old(tickets), repo, pr) ==>
                && id == Some(old(nextId)) && nextId == old(nextId) + 1
                && tickets == old(tickets)[old(nextId) := Inserted(repo, pr, sha, provider, now)]
    {
      hide EffectiveCooldown, Span, NextLevel, OneTicketPerPr, PowerFits;
      var row := Find(repo, pr);
      if row.None? {
        NewRowForNewPr(tickets, nextId, Inserted(repo, pr, sha, provider, now));
        tickets := tickets[nextId := Inserted(repo, pr, sha, provider, now)];
        id := Some(nextId);
        nextId := nextId + 1;
        return;
      }
      var t := tickets[row.value];
      var pushed;
      if t.status == Running {
        pushed := t.(headSha := sha, rereviewRequested := true, updatedAt := now);
      } else if t.status == Pending || t.status == Deferred || t.status == Retrying {
        pushed := t.(headSha := sha, updatedAt := now);
      } else {
        var status, notBefore, level := Pending, None, 0;
        if t.lastReviewedAt.Some? {
          var due := CooldownEnd(cached, t.lastReviewedAt.value, t.cooldownLevel);
          if due.None? {
            return None;
          }
          if now < due.value {
            status, notBefore, level := Deferred, due, NextLevel(t.cooldownLevel);
          }
        }
        pushed := t.(headSha := sha, status := status, notBefore := notBefore, attempts := 0,
            rereviewRequested := false,
                     cooldownLevel := level, deferReason := None, updatedAt := now);
      }
      assert pushed == Pushed(t, sha, now, inForce);
      RowKeepsItsPr(tickets, row.value, pushed);
      tickets := tickets[row.value := pushed];
      id := row;
    }

    /** The row the ORDER BY ... LIMIT 1 subquery selects. */
    method OldestDue(now: Instant) returns (found: Option<Id>)
      ensures found.Some? <==> DueIds(tickets, now) != {}
      ensures found.Some? ==> IsOldest(tickets, DueIds(tickets, now), found.value)
      ensures found.Some? ==>
                forall id | id in tickets && Due(tickets[id], now) ::
                  found.value in tickets &&
                  (tickets[found.value].enqueuedAt < tickets[id].enqueuedAt
                   || (tickets[found.value].enqueuedAt == tickets[id].enqueuedAt && found.value <= id))
    {
      found := None;
      var rest := tickets.Keys;
      while rest != {}
        invariant rest <= tickets.Keys
        invariant found.None? ==> forall id | id in tickets && Due(tickets[id], now) :: id in rest
        invariant found.Some? ==>
                    && found.value in DueIds(tickets, now)
                    && forall id | id in tickets && Due(tickets[id], now) ::
                        id in rest || NoLater(tickets, found.value, id)
        decreases rest
      {
        var id :| id in rest;
        if Due(tickets[id], now) && (found.None? || NoLater(tickets, id, found.value)) {
          found := Some(id);
        }
        rest := rest - {id};
      }
    }

    /** Claims the oldest due ticket: never one whose `not_before` lies ahead. */
    method ClaimNextDue(now: Instant) returns (claimed: Option<Id>)
      requires Valid()
      modifies this`tickets
      ensures Valid()
      ensures claimed.None? <==> DueIds(old(tickets), now) == {}
      ensures claimed.None? ==> tickets == old(tickets)
      ensures claimed.Some? ==>
                && claimed.value == Oldest(old(tickets), DueIds(old(tickets), now))
                && tickets == old(tickets)[claimed.value := Claimed(old(tickets)[claimed.value], now)]
    {
      claimed := OldestDue(now);
      if claimed.Some? {
        OldestIsUnique(tickets, DueIds(tickets, now), claimed.value, Oldest(tickets, DueIds(tickets, now)));
        tickets := tickets[claimed.value :=
          tickets[claimed.value].(status := Running, updatedAt := now, rereviewRequested := false)];
      }
    }

    method DeferRateLimited(id: Id, notBefore: Instant, now: Instant)
      requires Valid()
      modifies this`tickets
      ensures Valid()
      ensures tickets == if id in old(tickets)
                         then old(tickets)[id := PutBack(old(tickets)[id], notBefore, None, now)] else old(tickets)
    {
      if id in tickets {
        tickets := tickets[id :=
          tickets[id].(status := Deferred, notBefore := Some(notBefore), deferReason := None, updatedAt := now)];
      }
    }

    method DeferUsageCapped(id: Id, notBefore: Instant, now: Instant)
      requires Valid()
      modifies this`tickets
      ensures Valid()
      ensures tickets == if id in old(tickets)
                         then old(tickets)[id := PutBack(old(tickets)[id], notBefore, Some(UsageCap), now)]
                             else old(tickets)
    {
      if id in tickets {
        tickets := tickets[id :=
          tickets[id].(status := Deferred, notBefore := Some(notBefore), deferReason := Some(UsageCap),
              updatedAt := now)];
      }
    }

    method DeferFailed(id: Id, notBefore: Instant, now: Instant)
      requires Valid()
      modifies this`tickets
      ensures Valid()
      ensures tickets == if id in old(tickets)
                         then old(tickets)[id := Retried(old(tickets)[id], notBefore, now)] else old(tickets)
    {
      if id in tickets {
        var t := tickets[id];
        tickets := tickets[id :=
          t.(status := Retrying, notBefore := Some(notBefore), attempts := t.attempts + 1, updatedAt := now)];
      }
    }

    /** One UPDATE whose CASE expressions all read the row as it was. */
    method FinalizeReview(id: Id, now: Instant, rereviewAt: Instant, level: nat, comment: Option<int>)
      requires Valid()
      modifies this`tickets
      ensures Valid()
      ensures tickets == if id in old(tickets)
                         then old(tickets)[id := Finalized(old(tickets)[id], now, rereviewAt, level, comment)]
                             else old(tickets)
    {
      if id in tickets {
        var t := tickets[id];
        var dirty := t.rereviewRequested;
        tickets := tickets[id := t.(
          lastReviewedAt := Some(now),
          commentId := if comment.Some? then comment else t.commentId,
          status := if dirty then Deferred else Done,
          notBefore := if dirty then Some(rereviewAt) else None,
          attempts := if dirty then 0 else t.attempts,
          cooldownLevel := if dirty then level else t.cooldownLevel,
          rereviewRequested := false,
          deferReason := None,
          updatedAt := now)];
      }
    }

    /** A `None` reported by GitHub never erases the stored id. */
    method SetCommentId(id: Id, comment: Option<int>)
      requires Valid()
      modifies this`tickets
      ensures Valid()
      ensures tickets == if id in old(tickets) && comment.Some?
                         then old(tickets)[id := old(tickets)[id].(commentId := comment)] else old(tickets)
    {
      if comment.Some? && id in tickets {
        tickets := tickets[id := tickets[id].(commentId := comment)];
      }
    }

    method ClearVisibleReview(id: Id)
      requires Valid()
      modifies this`tickets
      ensures Valid()
      ensures tickets == if id in old(tickets)
                         then old(tickets)[id := old(tickets)[id].(lastReviewedAt := None)] else old(tickets)
    {
      if id in tickets {
        tickets := tickets[id := tickets[id].(lastReviewedAt := None)];
      }
    }

    /** Returns the row cancelled, if one still waiting to be claimed matched. */
    method CancelTicket(repo: string, pr: nat, now: Instant) returns (cancelled: Option<Id>)
      requires Valid()
      modifies this`tickets
      ensures Valid()
      ensures cancelled.Some? <==>
                Tracked(old(tickets), repo, pr) && old(tickets)[Lookup(old(tickets), repo, pr)].Queued()
      ensures cancelled.Some? ==> cancelled.value == Lookup(old(tickets), repo, pr)
      ensures tickets == if Tracked(old(tickets), repo, pr)
                         then var id := Lookup(old(tickets), repo, pr);
                              old(tickets)[id := CancelledIfQueued(old(tickets)[id], now)]
                         else old(tickets)
    {
      cancelled := Find(repo, pr);
      if cancelled.Some? {
        var t := tickets[cancelled.value];
        if t.status in {Pending, Deferred, Retrying} {
          tickets := tickets[cancelled.value := t.(status := Cancelled, updatedAt := now)];
        } else {
          cancelled := None;
        }
      }
    }

    /** Three statements, each tried only if the one before matched no row. */
    method DiscardSkippedTicket(id: Id, now: Instant)
      requires Valid()
      modifies this`tickets
      ensures Valid()
      ensures id !in old(tickets) ==> tickets == old(tickets)
      ensures id in old(tickets) ==>
                match Discarded(old(tickets)[id], now)
                case None => tickets == old(tickets) - {id}
                case Some(t) => tickets == old(tickets)[id := t]
    {
      if id in tickets && !tickets[id].rereviewRequested && tickets[id].lastReviewedAt.None? {
        tickets := tickets - {id};
        return;
      }
      if id in tickets && tickets[id].rereviewRequested {
        tickets := tickets[id := tickets[id].(status := Pending, notBefore := None, attempts := 0,
                                              rereviewRequested := false, deferReason := None, updatedAt := now)];
        return;
      }
      if id in tickets && tickets[id].lastReviewedAt.Some? {
        tickets := tickets[id := tickets[id].(status := Done, notBefore := None,
                                              rereviewRequested := false, deferReason := None, updatedAt := now)];
      }
    }

    /** Three statements: move what can move, cancel what is left queued, move the history. */
    method MigrateRepoRename(oldName: string, newName: string, now: Instant)
      requires Valid() && oldName != newName
      modifies this`tickets, this`reviews
      ensures Valid()
      ensures tickets == MigratedAll(old(tickets), oldName, newName, now)
      ensures reviews == RenamedReviews(old(reviews), oldName, newName)
    {
      MigrationKeepsOneTicketPerPr(tickets, oldName, newName, now);
      StatementsMigrate(tickets, oldName, newName, now);
      tickets := MoveFreeRows(tickets, oldName, newName, now);
      tickets := CancelLeftRows(tickets, oldName, now);
      reviews := RenamedReviews(reviews, oldName, newName);
    }

    method MarkFailed(id: Id, now: Instant, error: Option<string>)
      requires Valid()
      modifies this`tickets
      ensures Valid()
      ensures tickets == if id in old(tickets)
                         then old(tickets)[id := MarkedFailed(old(tickets)[id], now, error)] else old(tickets)
    {
      if id in tickets {
        tickets := tickets[id := tickets[id].(status := Failed, lastError := error, updatedAt := now)];
      }
    }

    method RecordReview(review: Review)
      modifies this`reviews
      ensures reviews == old(reviews) + [review]
    {
      reviews := reviews + [review];
    }

    method GetKeyUsage(provider: string, slot: int, since: Instant) returns (tokens: nat)
      ensures tokens == KeyUsage(reviews, provider, slot, since)
    {
      tokens := 0;
      for i := 0 to |reviews|
        invariant tokens == KeyUsage(reviews[..i], provider, slot, since)
      {
        assert reviews[..i + 1][..i] == reviews[..i];
        var r := reviews[i];
        if r.provider == provider && (if r.slot.None? then 0 else r.slot.value) == slot && r.createdAt >= since {
          tokens := tokens + r.tokensIn + r.tokensOut;
        }
      }
      assert reviews[..|reviews|] == reviews;
    }

    method OldestOf(ids: set<Id>) returns (oldest: Id)
      requires ids <= tickets.Keys && ids != {}
      ensures oldest == Oldest(tickets, ids)
    {
      oldest :| oldest in ids;
      var rest := ids;
      while rest != {}
        invariant rest <= ids && oldest in ids
        invariant forall id | id in ids :: id in rest || NoLater(tickets, oldest, id)
        decreases rest
      {
        var id :| id in rest;
        if NoLater(tickets, id, oldest) {
          oldest := id;
        }
        rest := rest - {id};
      }
      OldestIsUnique(tickets, ids, oldest, Oldest(tickets, ids));
    }

    method TicketsNeedingNotice(now: Instant, limit: nat) returns (batch: seq<Id>)
      ensures batch == Batch(tickets, now, limit)
    {
      hide IsOldest, NeedsNotice, Ranked, NoLater;
      batch := [];
      var rest := Needing(tickets, now);
      while rest != {} && |batch| < limit
        invariant rest <= tickets.Keys && |batch| <= limit
        invariant batch + Ranked(tickets, rest) == Ranked(tickets, Needing(tickets, now))
        decreases rest
      {
        var first := OldestOf(rest);
        RankedFirst(tickets, rest);
        NextInBatch(batch, first, Ranked(tickets, rest - {first}));
        batch := batch + [first];
        rest := rest - {first};
      }
    }

    method MarkNoticePosted(id: Id, notBefore: Instant)
      requires Valid()
      modifies this`tickets
      ensures Valid()
      ensures tickets == if id in old(tickets)
                         then old(tickets)[id := old(tickets)[id].(noticeNotBefore := Some(notBefore))]
                             else old(tickets)
    {
      if id in tickets {
        tickets := tickets[id := tickets[id].(noticeNotBefore := Some(notBefore))];
      }
    }

    method ClearNotice(id: Id)
      requires Valid()
      modifies this`tickets
      ensures Valid()
      ensures tickets == if id in old(tickets)
                         then old(tickets)[id := old(tickets)[id].(noticeNotBefore := None)] else old(tickets)
    {
      if id in tickets {
        tickets := tickets[id := tickets[id].(noticeNotBefore := None)];
      }
    }

    method RecoverOnStartup(now: Instant)
      requires Valid()
      modifies this`tickets
      ensures Valid()
      ensures tickets == map id | id in old(tickets) :: Recovered(old(tickets)[id], now)
    {
      tickets := map id | id in tickets ::
        if tickets[id].status == Running
        then tickets[id].(status := Pending, rereviewRequested := false, updatedAt := now) else tickets[id];
    }
  }
}
