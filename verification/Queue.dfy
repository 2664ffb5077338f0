/** The review queue's rows and what each store statement does to one row.
    Instants are whole microseconds since 0001-01-01 UTC (see Timestamps). */
module Queue {
  import opened Wrappers
  import opened Cooldown
  import Timestamps

  type Id = nat
  type Instant = int

  datatype Status = Pending | Running | Deferred | Retrying | Done | Failed | Cancelled

  datatype DeferReason = UsageCap

  datatype Ticket = Ticket(
    repo: string,
    pr: nat,
    headSha: Option<string>,
    status: Status,
    provider: string,
    notBefore: Option<Instant>,
    attempts: nat,
    commentId: Option<int>,
    enqueuedAt: Instant,
    updatedAt: Instant,
    rereviewRequested: bool,
    lastReviewedAt: Option<Instant>,
    cooldownLevel: nat,
    noticeNotBefore: Option<Instant>,
    lastError: Option<string>,
    deferReason: Option<DeferReason>)
  {
    /** Waiting to be claimed. */
    predicate Queued() { status in {Pending, Deferred, Retrying} }

    predicate Terminal() { status in {Done, Failed, Cancelled} }

    predicate IsFor(r: string, n: nat) { repo == r && pr == n }
  }

  type Tickets = map<Id, Ticket>

  /** UNIQUE (repo_full_name, pr_number). */
  predicate OneTicketPerPr(ts: Tickets) {
    forall i, j | i in ts && j in ts && ts[i].IsFor(ts[j].repo, ts[j].pr) :: i == j
  }

  predicate Tracked(ts: Tickets, repo: string, pr: nat) {
    exists id | id in ts :: ts[id].IsFor(repo, pr)
  }

  /** Rewriting a row in place, its pull request unchanged, collides with nothing. */
  lemma RowKeepsItsPr(ts: Tickets, id: Id, row: Ticket)
    requires OneTicketPerPr(ts) && id in ts && row.IsFor(ts[id].repo, ts[id].pr)
    ensures OneTicketPerPr(ts[id := row])
  {
  }

  lemma NewRowForNewPr(ts: Tickets, id: Id, row: Ticket)
    requires OneTicketPerPr(ts) && !Tracked(ts, row.repo, row.pr)
    ensures OneTicketPerPr(ts[id := row])
  {
  }

  /** The row `WHERE repo_full_name = repo AND pr_number = pr` selects. */
  ghost function Lookup(ts: Tickets, repo: string, pr: nat): (id: Id)
    requires Tracked(ts, repo, pr)
    ensures id in ts && ts[id].IsFor(repo, pr)
  {
    var id :| id in ts && ts[id].IsFor(repo, pr);
    id
  }

  // ---- Claim order ----

  predicate Due(t: Ticket, now: Instant) {
    t.status == Pending
    || (t.status in {Deferred, Retrying} && t.notBefore.Some? && t.notBefore.value <= now)
  }

  function DueIds(ts: Tickets, now: Instant): set<Id> {
    set id | id in ts && Due(ts[id], now)
  }

  /** ORDER BY enqueued_at ASC, id ASC. */
  predicate NoLater(ts: Tickets, i: Id, j: Id)
    requires i in ts && j in ts
  {
    ts[i].enqueuedAt < ts[j].enqueuedAt || (ts[i].enqueuedAt == ts[j].enqueuedAt && i <= j)
  }

  predicate IsOldest(ts: Tickets, ids: set<Id>, id: Id)
    requires ids <= ts.Keys
  {
    id in ids && forall j | j in ids :: NoLater(ts, id, j)
  }

  lemma {:induction false} OldestExists(ts: Tickets, ids: set<Id>)
    requires ids <= ts.Keys && ids != {}
    ensures exists id :: IsOldest(ts, ids, id)
    decreases ids
  {
    var x :| x in ids;
    if ids == {x} {
      assert IsOldest(ts, ids, x);
    } else {
      OldestExists(ts, ids - {x});
      var y :| IsOldest(ts, ids - {x}, y);
      var z := if NoLater(ts, x, y) then x else y;
      forall j | j in ids
        ensures NoLater(ts, z, j)
      {
        if j != x {
          assert j in ids - {x} && NoLater(ts, y, j);
        }
      }
      assert IsOldest(ts, ids, z);
    }
  }

  lemma OldestIsUnique(ts: Tickets, ids: set<Id>, i: Id, j: Id)
    requires ids <= ts.Keys && IsOldest(ts, ids, i) && IsOldest(ts, ids, j)
    ensures i == j
  {
    assert NoLater(ts, i, j) && NoLater(ts, j, i);
  }

  ghost function Oldest(ts: Tickets, ids: set<Id>): (id: Id)
    requires ids <= ts.Keys && ids != {}
    ensures IsOldest(ts, ids, id)
  {
    OldestExists(ts, ids);
    var id :| IsOldest(ts, ids, id);
    id
  }

  // ---- Date arithmetic ----

  /** `at + timedelta(seconds=seconds)`; `None` where that raises. */
  function Later(at: Instant, seconds: real): Option<Instant> {
    var sum := at + Span(seconds);
    if Timestamps.Representable(sum) then Some(sum) else None
  }

  /** The end of the cooldown that started at `at`; `None` where computing it raises: no triple is
      cached, the power overflows, or the date does. */
  function CooldownEnd(c: Option<Triple>, at: Instant, level: nat): Option<Instant> {
    if c.None? || !PowerFits(c.value, level) then None else Later(at, EffectiveCooldown(c.value, level))
  }

  /** The end of the backoff after the `attempts`-th failure; `None` where computing it raises. */
  function BackoffEnd(base: real, cap: real, at: Instant, attempts: nat, jitter: real): Option<Instant>
    requires attempts >= 1
  {
    if BackoffFits(attempts) then Later(at, Backoff(base, cap, attempts, jitter)) else None
  }

  /** A higher level ends later, or not at all; an end is computed at every level exactly if it is at
      the top one. */
  lemma {:induction false} CooldownEndShape(c: Triple, at: Instant, level: nat, higher: nat)
    requires Usable(c) && Timestamps.Representable(at) && level <= higher
    ensures var near, far := CooldownEnd(Some(c), at, level), CooldownEnd(Some(c), at, higher);
            far.Some? ==> near.Some? && at + Span(c.base) <= near.value <= far.value <= at + Span(c.cap)
    ensures CooldownEnd(Some(c), at, MAX_COOLDOWN_LEVEL).Some? ==> CooldownEnd(Some(c), at, higher).Some?
  {
    hide EffectiveCooldown, Span, PowerFits;
    CooldownSpanShape(c, level, higher);
    CooldownSpanShape(c, higher, higher + MAX_COOLDOWN_LEVEL);
    TopLevel(c, higher);
    PowerFitsBelow(c, level, higher);
  }

  /** Where a level has an end, it is base times factor to the level, capped, after the start. */
  lemma CooldownEndIs(c: Triple, at: Instant, level: nat, n: nat)
    requires Usable(c) && n == if level <= 30 then level else 30
    ensures CooldownEnd(Some(c), at, level).Some? ==>
              CooldownEnd(Some(c), at, level).value == at + EscalatedSpan(c, n)
  {
    hide EffectiveCooldown, EscalatedSpan, Span, PowerFits;
    CooldownSpanIs(c, level, n);
  }

  lemma TopLevel(c: Triple, level: nat)
    ensures CooldownSpan(c, level + MAX_COOLDOWN_LEVEL) == CooldownSpan(c, MAX_COOLDOWN_LEVEL)
  {
    assert CappedLevel(level + MAX_COOLDOWN_LEVEL) == CappedLevel(MAX_COOLDOWN_LEVEL);
  }

  /** A Retry-After of a trillion seconds is past every calendar. */
  lemma TrillionSecondsOverflow(at: Instant, seconds: real)
    requires Timestamps.Representable(at) && seconds >= 1_000_000_000_000.0
    ensures Later(at, seconds).None?
  {
    SpanMonotone(1_000_000_000_000.0, seconds);
    assert 1_000_000_000_000.0 * 1_000_000.0 == 1_000_000_000_000_000_000.0;
  }

  // ---- Row transitions ----

  function Inserted(repo: string, pr: nat, sha: Option<string>, provider: string, now: Instant): Ticket {
    Ticket(repo, pr, sha, Pending, provider, None, 0, None, now, now, false, None, 0, None, None, None)
  }

  /** `_due_after_cooldown`: (status, not_before, next level). */
  function DueAfterCooldown(last: Option<Instant>, now: Instant, level: nat, c: Triple): (Status, Option<Instant>, nat)
  {
    if last.None? then (Pending, None, 0)
    else
      var due := last.value + CooldownSpan(c, level);
      if now < due then (Deferred, Some(due), NextLevel(level)) else (Pending, None, 0)
  }

  /** A push while the escalating cooldown of the last review is still running. */
  predicate IsChurn(t: Ticket, now: Instant, c: Triple) {
    t.Terminal() && t.lastReviewedAt.Some? && now < t.lastReviewedAt.value + CooldownSpan(c, t.cooldownLevel)
  }

  /** `enqueue_or_update` on an existing row. */
  function Pushed(t: Ticket, sha: Option<string>, now: Instant, c: Triple): Ticket {
    if t.status == Running then t.(headSha := sha, rereviewRequested := true, updatedAt := now)
    else if t.Queued() then t.(headSha := sha, updatedAt := now)
    else
      var (status, notBefore, level) := DueAfterCooldown(t.lastReviewedAt, now, t.cooldownLevel, c);
      t.(headSha := sha, status := status, notBefore := notBefore, attempts := 0, rereviewRequested := false,
         cooldownLevel := level, deferReason := None, updatedAt := now)
  }

  /** The re-arming branch of an enqueue computes a date; elsewhere there is nothing to raise. */
  ghost predicate PushComputes(ts: Tickets, repo: string, pr: nat, c: Option<Triple>) {
    Tracked(ts, repo, pr) ==>
      var t := ts[Lookup(ts, repo, pr)];
      t.Terminal() && t.lastReviewedAt.Some? ==> CooldownEnd(c, t.lastReviewedAt.value, t.cooldownLevel).Some?
  }

  function Claimed(t: Ticket, now: Instant): Ticket {
    t.(status := Running, updatedAt := now, rereviewRequested := false)
  }

  /** `defer_rate_limited` (no reason) and `defer_usage_capped`. */
  function PutBack(t: Ticket, until: Instant, reason: Option<DeferReason>, now: Instant): Ticket {
    t.(status := Deferred, notBefore := Some(until), deferReason := reason, updatedAt := now)
  }

  /** `defer_failed`. */
  function Retried(t: Ticket, until: Instant, now: Instant): Ticket {
    t.(status := Retrying, notBefore := Some(until), attempts := t.attempts + 1, updatedAt := now)
  }

  /** `finalize_review`. */
  function Finalized(t: Ticket, now: Instant, rereviewAt: Instant, level: nat, comment: Option<int>): Ticket {
    var r := t.(lastReviewedAt := Some(now), commentId := if comment.Some? then comment else t.commentId,
                rereviewRequested := false, deferReason := None, updatedAt := now);
    if t.rereviewRequested
    then r.(status := Deferred, notBefore := Some(rereviewAt), attempts := 0, cooldownLevel := level)
    else r.(status := Done, notBefore := None)
  }

  /** Whatever state a row is in, a push records the head it was for and keeps the ticket's place in the
      queue, its comment and its review stamp; only a finished row is scheduled anew. */
  lemma PushShape(t: Ticket, sha: Option<string>, now: Instant, c: Triple)
    ensures var r := Pushed(t, sha, now, c);
            && r.headSha == sha && r.updatedAt == now && r.IsFor(t.repo, t.pr)
            && r.enqueuedAt == t.enqueuedAt && r.provider == t.provider && r.commentId == t.commentId
            && r.lastReviewedAt == t.lastReviewedAt && r.noticeNotBefore == t.noticeNotBefore
            && (t.Queued() || t.status == Running ==>
                  && r.status == t.status && r.notBefore == t.notBefore && r.attempts == t.attempts
                  && r.cooldownLevel == t.cooldownLevel && r.deferReason == t.deferReason
                  && r.rereviewRequested == (t.rereviewRequested || t.status == Running))
  {
    hide CooldownSpan;
  }

  /** A push for a finished ticket, exactly: it starts over with no failures, and waits out what is left of
      base times factor to its level, capped, at the next level; without a review or past that it is due at
      once, at level 0. */
  lemma {:induction false} RearmIs(t: Ticket, sha: Option<string>, now: Instant, c: Triple)
    requires Usable(c) && t.Terminal() && t.cooldownLevel <= 30
    ensures var r := Pushed(t, sha, now, c);
            && r.attempts == 0 && !r.rereviewRequested && r.deferReason.None?
            && var wait := EscalatedSpan(c, t.cooldownLevel);
               if t.lastReviewedAt.Some? && now < t.lastReviewedAt.value + wait then
                 && r.status == Deferred && r.notBefore == Some(t.lastReviewedAt.value + wait)
                 && r.cooldownLevel == if t.cooldownLevel < 30 then t.cooldownLevel + 1 else 30
               else r.status == Pending && r.notBefore.None? && r.cooldownLevel == 0
  {
    hide CooldownSpan, EscalatedSpan;
    CooldownSpanIs(c, t.cooldownLevel, t.cooldownLevel);
  }

  /** A re-arming push under the cooldown waits, at least as long as last time and never past the cap;
      any other one is due at once, its escalation forgotten. */
  lemma {:induction false} RearmShape(t: Ticket, sha: Option<string>, now: Instant, c: Triple, later: Instant)
    requires Usable(c) && t.Terminal() && t.cooldownLevel <= MAX_COOLDOWN_LEVEL
    ensures var r := Pushed(t, sha, now, c);
            if IsChurn(t, now, c) then
              && !Due(r, now)
              && (later >= t.lastReviewedAt.value + Span(c.cap) ==> Due(r, later))
              && t.cooldownLevel <= r.cooldownLevel <= MAX_COOLDOWN_LEVEL
              && CooldownSpan(c, t.cooldownLevel) <= CooldownSpan(c, r.cooldownLevel)
            else Due(r, now) && r.cooldownLevel == 0
  {
    hide EffectiveCooldown, Span;
    CooldownSpanShape(c, t.cooldownLevel, t.cooldownLevel);
    if IsChurn(t, now, c) {
      CooldownSpanShape(c, t.cooldownLevel, NextLevel(t.cooldownLevel));
    }
  }

  /** `cancel_ticket`: only a row still waiting to be claimed. */
  function CancelledIfQueued(t: Ticket, now: Instant): Ticket {
    if t.Queued() then t.(status := Cancelled, updatedAt := now) else t
  }

  function Requeued(t: Ticket, now: Instant): Ticket {
    t.(status := Pending, notBefore := None, attempts := 0, rereviewRequested := false, deferReason := None,
       updatedAt := now)
  }

  function RevertedToDone(t: Ticket, now: Instant): Ticket {
    t.(status := Done, notBefore := None, rereviewRequested := false, deferReason := None, updatedAt := now)
  }

  /** `discard_skipped_ticket`, by what the run found; `None` is a deleted row. */
  function Discarded(t: Ticket, now: Instant): Option<Ticket> {
    if t.rereviewRequested then Some(Requeued(t, now))
    else if t.lastReviewedAt.None? then None
    else Some(RevertedToDone(t, now))
  }

  /** `mark_failed`. */
  function MarkedFailed(t: Ticket, now: Instant, error: Option<string>): Ticket {
    t.(status := Failed, lastError := error, updatedAt := now)
  }

  /** `recover_on_startup`. */
  function Recovered(t: Ticket, now: Instant): Ticket {
    if t.status == Running then t.(status := Pending, rereviewRequested := false, updatedAt := now) else t
  }

  /** `migrate_repo_rename`: move the row, unless the new name already tracks its PR;
      a row that cannot move is cancelled if it is still queued. */
  ghost function Migrated(ts: Tickets, t: Ticket, oldName: string, newName: string, now: Instant): Ticket {
    if t.repo != oldName then t
    else if Tracked(ts, newName, t.pr) then CancelledIfQueued(t, now)
    else t.(repo := newName, updatedAt := now)
  }

  ghost function MigratedAll(ts: Tickets, oldName: string, newName: string, now: Instant): Tickets {
    map id | id in ts :: Migrated(ts, ts[id], oldName, newName, now)
  }

  /** UPDATE ... SET repo_full_name = new WHERE repo_full_name = old AND NOT EXISTS (...). */
  function MoveFreeRows(ts: Tickets, oldName: string, newName: string, now: Instant): Tickets {
    map id | id in ts ::
      if ts[id].repo == oldName && !Tracked(ts, newName, ts[id].pr)
      then ts[id].(repo := newName, updatedAt := now) else ts[id]
  }

  /** UPDATE ... SET status = 'cancelled' WHERE repo_full_name = old AND status IN (...). */
  function CancelLeftRows(ts: Tickets, oldName: string, now: Instant): Tickets {
    map id | id in ts ::
      if ts[id].repo == oldName && ts[id].Queued() then ts[id].(status := Cancelled, updatedAt := now) else ts[id]
  }

  /** The two statements together move every row that can move and cancel the queued rest. */
  lemma StatementsMigrate(ts: Tickets, oldName: string, newName: string, now: Instant)
    requires oldName != newName
    ensures CancelLeftRows(MoveFreeRows(ts, oldName, newName, now), oldName, now)
         == MigratedAll(ts, oldName, newName, now)
  {
    var moved := MoveFreeRows(ts, oldName, newName, now);
    var done, spec := CancelLeftRows(moved, oldName, now), MigratedAll(ts, oldName, newName, now);
    assert done.Keys == spec.Keys;
    forall id | id in done
      ensures done[id] == spec[id]
    {
      assert moved[id].repo == oldName <==> ts[id].repo == oldName && Tracked(ts, newName, ts[id].pr);
    }
  }

  /** Renaming never makes two rows collide. */
  lemma MigrationKeepsOneTicketPerPr(ts: Tickets, oldName: string, newName: string, now: Instant)
    requires OneTicketPerPr(ts) && oldName != newName
    ensures OneTicketPerPr(MigratedAll(ts, oldName, newName, now))
  {
    var m := MigratedAll(ts, oldName, newName, now);
    forall i, j | i in m && j in m && m[i].IsFor(m[j].repo, m[j].pr)
      ensures i == j
    {
      if ts[i].repo != ts[j].repo {
        // One row moved and the other already had the new name: the guard excludes it.
        var moved, there := if ts[i].repo == oldName then i else j, if ts[i].repo == oldName then j else i;
        assert ts[there].IsFor(newName, ts[moved].pr);
      }
      assert ts[i].IsFor(ts[j].repo, ts[j].pr);
    }
  }

  // ---- Completed reviews ----

  datatype Review = Review(
    repo: string, pr: nat, provider: string, slot: Option<int>, createdAt: Instant,
    tokensIn: nat, tokensOut: nat, commentId: Option<int>)

  function Tokens(r: Review): nat { r.tokensIn + r.tokensOut }

  /** A NULL slot was paid by slot 0. */
  predicate PaidBy(r: Review, provider: string, slot: int) {
    r.provider == provider && r.slot.GetOr(0) == slot
  }

  /** `get_key_usage`. */
  function KeyUsage(reviews: seq<Review>, provider: string, slot: int, since: Instant): nat {
    if reviews == [] then 0
    else
      var last := reviews[|reviews| - 1];
      KeyUsage(reviews[..|reviews| - 1], provider, slot, since)
      + (if PaidBy(last, provider, slot) && last.createdAt >= since then Tokens(last) else 0)
  }

  /** What a recorded review adds to a key slot's sum: its input and output tokens, if that slot paid for it
      (slot 0 where none is stored) and it is not older than the query's start; to any other, nothing. */
  lemma RecordingAdds(reviews: seq<Review>, r: Review, provider: string, slot: int, since: Instant)
    ensures KeyUsage([], provider, slot, since) == 0
    ensures KeyUsage(reviews + [r], provider, slot, since) == KeyUsage(reviews, provider, slot, since) +
              if r.provider == provider && (r.slot == Some(slot) || (r.slot.None? && slot == 0))
                 && since <= r.createdAt then r.tokensIn + r.tokensOut else 0
  {
    assert (reviews + [r])[..|reviews|] == reviews;
  }

  function RenamedReviews(reviews: seq<Review>, oldName: string, newName: string): (r: seq<Review>)
    ensures |r| == |reviews|
    ensures forall i | 0 <= i < |r| ::
              r[i] == if reviews[i].repo == oldName then reviews[i].(repo := newName) else reviews[i]
  {
    if reviews == [] then []
    else
      var last := reviews[|reviews| - 1];
      RenamedReviews(reviews[..|reviews| - 1], oldName, newName)
          + [if last.repo == oldName then last.(repo := newName) else last]
  }

  /** A rename moves review history without changing what any key slot has spent. */
  lemma {:induction false} RenameKeepsUsage(reviews: seq<Review>, oldName: string, newName: string,
                                            provider: string, slot: int, since: Instant)
    ensures KeyUsage(RenamedReviews(reviews, oldName, newName), provider, slot, since)
         == KeyUsage(reviews, provider, slot, since)
  {
    if reviews != [] {
      var moved := RenamedReviews(reviews, oldName, newName);
      assert moved[..|moved| - 1] == RenamedReviews(reviews[..|reviews| - 1], oldName, newName);
      RenameKeepsUsage(reviews[..|reviews| - 1], oldName, newName, provider, slot, since);
    }
  }
}
