/** The single serial consumer of the queue, together with the webhook that feeds it. Every
    method logs the machine events it performs, so the run theorems hold of the live object. */
module Dispatch {
  import opened Wrappers
  import opened Cooldown
  import opened Queue
  import opened UsageWindow
  import opened Machine
  import opened Notices
  import opened Runs
  import opened RateGate
  import opened Store
  import opened DispatchSpec
  import opened CapBound
  import opened Spending
  import Timestamps

  class Dispatcher {
    const cfg: Settings
    const store: TicketStore
    var blockedUntil: map<string, Instant>
    var cooldown: Option<Triple>
    var clock: Instant
    ghost var flight: Option<Flight>
    ghost var trace: seq<Event>

    ghost function State(): Sys
      reads this, store
    {
      Sys(store.tickets, store.nextId, store.reviews, blockedUntil, flight, clock)
    }

    /** The object's state is the state its logged run reaches. */
    ghost predicate Valid()
      reads this, store
    {
      && ValidSettings(cfg)
      && Legal(cfg, trace) && After(cfg, trace) == State()
      && (cooldown.Some? ==> cooldown.value == cfg.cooldown)
    }

    constructor (settings: Settings)
      requires ValidSettings(settings)
      ensures Valid() && fresh(store) && cfg == settings && trace == [] && flight.None?
    {
      cfg := settings;
      store := new TicketStore();
      blockedUntil, cooldown, clock, flight, trace := map[], None, 0, None, [];
    }

    lemma Facts()
      requires Valid()
      ensures store.Valid() && FlightInv(State())
    {
      AlwaysInv(cfg, trace);
    }

    /** While no step has been broken off since the last restart, at most one ticket is running, and it
        is the one this dispatcher is working on. */
    lemma {:induction false} AtMostOneRuns()
      requires Valid() && Unbroken(trace)
      ensures forall id | id in RunningIds(store.tickets) :: flight.Some? && flight.value.id == id
      ensures |RunningIds(store.tickets)| <= 1
    {
      OnlyTheFlightRuns(cfg, trace);
    }

    /** Adds the event just performed to the run. */
    ghost method Log(e: Event)
      requires ValidSettings(cfg) && Legal(cfg, trace) && Enabled(cfg, After(cfg, trace), e)
      requires State() == Next(cfg, After(cfg, trace), e)
      requires cooldown.Some? ==> cooldown.value == cfg.cooldown
      modifies this`trace
      ensures Valid() && trace == old(trace) + [e]
    {
      Extend(cfg, trace, e);
      trace := trace + [e];
    }

    // ---- Webhook ----

    /** An enqueue raises exactly if the date of a re-arm cannot be computed from what is cached, and
        then changes nothing. */
    method Enqueue(repo: string, pr: nat, sha: Option<string>, provider: string, elapsed: nat) returns (accepted: bool)
      requires Valid()
      modifies this`clock, this`trace, store
      ensures Valid() && old(clock) <= clock && store.reviews == old(store.reviews)
      ensures accepted <==> PushComputes(old(store.tickets), repo, pr, cooldown)
      ensures !accepted ==> State() == old(State())
      ensures trace == old(trace) + (if accepted then [Push(repo, pr, sha, provider, clock)] else [])
      ensures KeepsRunning(old(store.tickets), store.tickets)
      ensures Unbroken(trace) <==> Unbroken(old(trace))
    {
      hide After, Legal, OneTicketPerPr, PowerFits, Later;
      Facts();
      var now := clock + elapsed;
      var id := store.EnqueueOrUpdate(repo, pr, sha, provider, now, cooldown, cfg.cooldown);
      accepted := id.Some?;
      if accepted {
        clock := now;
        Log(Push(repo, pr, sha, provider, now));
      }
    }

    /** A queued ticket is cancelled, and gives up its schedule notice if GitHub takes it off. */
    method CloseTicket(repo: string, pr: nat, strip: Reply, elapsed: nat)
      requires Valid()
      modifies this`clock, this`trace, store
      ensures Valid() && old(clock) <= clock && store.reviews == old(store.reviews)
      ensures !Tracked(old(store.tickets), repo, pr) ==> store.tickets == old(store.tickets)
      ensures Tracked(old(store.tickets), repo, pr) ==>
                var id := Lookup(old(store.tickets), repo, pr);
                var row := CancelledIfQueued(old(store.tickets)[id], clock);
                store.tickets == old(store.tickets)[id :=
                  if old(store.tickets)[id].Queued() && !strip.Raised? then row.(noticeNotBefore := None) else row]
      ensures CarriesOn(old(trace), trace) && Quiet(old(trace), trace)
      ensures KeepsRunning(old(store.tickets), store.tickets)
      ensures Unbroken(trace) <==> Unbroken(old(trace))
    {
      hide After, Legal, OneTicketPerPr, PushComputes, CooldownEnd, BackoffEnd, Later, UnderCap, WaitComputes, Unbroken;
      Facts();
      var now := clock + elapsed;
      var cancelled := store.CancelTicket(repo, pr, now);
      clock := now;
      Log(Close(repo, pr, now));
      if cancelled.Some? && store.tickets[cancelled.value].noticeNotBefore.Some? && !strip.Raised? {
        ForgetNotice(cancelled.value);
      }
      CarryingOnKeepsUnbroken(old(trace), trace);
    }

    method Handle(w: Webhook)
      requires Valid()
      modifies this`clock, this`trace, store
      ensures Valid() && old(clock) <= clock && store.reviews == old(store.reviews)
      ensures CarriesOn(old(trace), trace) && Quiet(old(trace), trace)
      ensures KeepsRunning(old(store.tickets), store.tickets)
    {
      hide After, Legal, OneTicketPerPr, PushComputes, KeepsRunning, Unbroken;
      match w {
        case Trigger(repo, pr, sha, provider, elapsed) =>
          var _ := Enqueue(repo, pr, sha, provider, elapsed);
        case Closed(repo, pr, strip, elapsed) =>
          CloseTicket(repo, pr, strip, elapsed);
      }
    }

    /** The event loop runs whatever arrived while the dispatcher awaited. */
    method Await(arrived: seq<Webhook>)
      requires Valid()
      modifies this`clock, this`trace, store
      ensures Valid() && old(clock) <= clock && store.reviews == old(store.reviews)
      ensures CarriesOn(old(trace), trace) && Quiet(old(trace), trace)
      ensures KeepsRunning(old(store.tickets), store.tickets)
      ensures Unbroken(trace) <==> Unbroken(old(trace))
    {
      hide After, Legal, OneTicketPerPr, Unbroken;
      for i := 0 to |arrived|
        invariant Valid() && old(clock) <= clock && store.reviews == old(store.reviews)
        invariant CarriesOn(old(trace), trace) && Quiet(old(trace), trace)
        invariant KeepsRunning(old(store.tickets), store.tickets)
      {
        Handle(arrived[i]);
      }
      CarryingOnKeepsUnbroken(old(trace), trace);
    }

    // ---- Comment bookkeeping ----

    method Remember(id: Id, comment: Option<int>)
      requires Valid()
      modifies this`trace, store`tickets
      ensures Valid() && trace == old(trace) + [SetComment(id, comment)]
      ensures store.tickets == Note(old(State()), SetComment(id, comment)).tickets
    {
      Facts();
      store.SetCommentId(id, comment);
      assert store.tickets == Note(old(State()), SetComment(id, comment)).tickets;
      Log(SetComment(id, comment));
    }

    method ForgetReview(id: Id)
      requires Valid()
      modifies this`trace, store`tickets
      ensures Valid() && trace == old(trace) + [ClearVisible(id)]
      ensures store.tickets == Note(old(State()), ClearVisible(id)).tickets
    {
      Facts();
      store.ClearVisibleReview(id);
      Log(ClearVisible(id));
    }

    method ForgetNotice(id: Id)
      requires Valid()
      modifies this`trace, store`tickets
      ensures Valid() && trace == old(trace) + [Machine.ClearNotice(id)]
      ensures store.tickets == Note(old(State()), Machine.ClearNotice(id)).tickets
    {
      Facts();
      store.ClearNotice(id);
      Log(Machine.ClearNotice(id));
    }

    /** The wait is over: take the schedule footnote off the claimed ticket's comment. */
    method StripNotice(id: Id, t: Ticket, reply: Reply)
      requires Valid() && id in store.tickets
      modifies this`trace, store`tickets
      ensures Valid()
      ensures CarriesOn(old(trace), trace) && Quiet(old(trace), trace)
      ensures NoPushes(old(trace), trace)
      ensures store.tickets ==
                if t.noticeNotBefore.None? || reply.Raised? then old(store.tickets)
                else old(store.tickets)[id := Stripped(old(store.tickets)[id], t, reply)]
      // the review stays visible exactly if the ticket has no comment yet or its comment is still there
      ensures t.noticeNotBefore.Some? && !reply.Raised? ==>
                && store.tickets[id].noticeNotBefore.None?
                && store.tickets[id].lastReviewedAt ==
                     if t.commentId.None? || (reply.Comment? && reply.id == t.commentId.value)
                     then old(store.tickets)[id].lastReviewedAt else None
    {
      hide Next, After, Legal, OneTicketPerPr, Enabled, CarriesOn, Quiet, NoPushes;
      ghost var before := trace;
      NothingNew(before);
      if t.noticeNotBefore.Some? && !reply.Raised? {
        NoteCarriesOn(before, trace, SetComment(id, ReplyId(reply)));
        Remember(id, ReplyId(reply));
        if (reply.NoComment? && t.commentId.Some?) || Recreated(t, reply) {
          NoteCarriesOn(before, trace, ClearVisible(id));
          ForgetReview(id);
        }
        NoteCarriesOn(before, trace, Machine.ClearNotice(id));
        ForgetNotice(id);
      }
    }

    method MarkPosted(id: Id, notBefore: Instant)
      requires Valid()
      modifies this`trace, store`tickets
      ensures Valid() && trace == old(trace) + [MarkNotice(id, notBefore)]
      ensures store.tickets == Note(old(State()), MarkNotice(id, notBefore)).tickets
    {
      Facts();
      store.MarkNoticePosted(id, notBefore);
      Log(MarkNotice(id, notBefore));
    }

    /** One notice, if GitHub takes it. */
    method PostNotice(id: Id, reply: Reply) returns (posted: bool)
      requires Valid() && id in store.tickets && store.tickets[id].notBefore.Some?
      modifies this`trace, store`tickets
      ensures Valid() && CarriesOn(old(trace), trace) && Quiet(old(trace), trace) && posted == !reply.Raised?
      ensures Swept(old(store.tickets), store.tickets, if posted then {id} else {})
      ensures posted ==>
                && store.tickets[id].commentId ==
                     (if reply.Comment? then Some(reply.id) else old(store.tickets)[id].commentId)
                && store.tickets[id].lastReviewedAt ==
                     var shown := old(store.tickets)[id].commentId;
                     if shown.Some? && reply.Comment? && reply.id != shown.value then None
                     else old(store.tickets)[id].lastReviewedAt
    {
      hide Next, After, Legal, OneTicketPerPr, Enabled, CarriesOn, Quiet, NoPushes;
      ghost var before := trace;
      NothingNew(before);
      var t := store.tickets[id];
      posted := !reply.Raised?;
      if posted {
        NoteCarriesOn(before, trace, SetComment(id, ReplyId(reply)));
        Remember(id, ReplyId(reply));
        if Recreated(t, reply) {
          NoteCarriesOn(before, trace, ClearVisible(id));
          ForgetReview(id);
        }
        NoteCarriesOn(before, trace, MarkNotice(id, t.notBefore.value));
        MarkPosted(id, t.notBefore.value);
      }
    }

    /** `post_pending_notices`: one batch, a failing post does not stop the rest. */
    method PostPendingNotices(now: Instant, limit: nat, reply: Id -> Reply) returns (posted: nat)
      requires Valid()
      modifies this`trace, store`tickets
      ensures Valid() && CarriesOn(old(trace), trace) && Quiet(old(trace), trace)
      ensures Unbroken(trace) <==> Unbroken(old(trace))
      ensures var done := Taken(Batch(old(store.tickets), now, limit), reply);
              posted == |done| && Swept(old(store.tickets), store.tickets, done)
    {
      hide Next, After, Legal, Batch, OneTicketPerPr, Ranked, Enabled, Taken, Unbroken;
      posted := 0;
      var batch := store.TicketsNeedingNotice(now, limit);
      ghost var start := store.tickets;
      BatchSize(start, now, limit);
      BatchIsDistinct(start, now, limit);
      NoneTaken(batch, reply);
      for i := 0 to |batch|
        invariant Valid() && CarriesOn(old(trace), trace) && Quiet(old(trace), trace)
        invariant posted == |Taken(batch[..i], reply)| && Swept(start, store.tickets, Taken(batch[..i], reply))
      {
        var id := batch[i];
        ghost var mid := store.tickets;
        TakenNext(batch, i, reply);
        var ok := PostNotice(id, reply(id));
        SweptFurther(start, mid, store.tickets, Taken(batch[..i], reply), if ok then {id} else {});
        posted := if ok then posted + 1 else posted;
      }
      assert batch[..|batch|] == batch;
      CarryingOnKeepsUnbroken(old(trace), trace);
    }

    // ---- The step's own events ----

    method Claim(now: Instant) returns (claimed: Option<Id>)
      requires Valid() && flight.None? && clock <= now
      modifies this`clock, this`flight, this`trace, store`tickets
      ensures Valid()
      ensures claimed.None? <==> DueIds(old(store.tickets), now) == {}
      ensures claimed.None? ==> State() == old(State()) && trace == old(trace)
      ensures claimed.Some? ==>
                && claimed.value == Oldest(old(store.tickets), DueIds(old(store.tickets), now))
                && trace == old(trace) + [Machine.Claim(now)] && clock == now
                && claimed.value in old(store.tickets) && claimed.value in store.tickets
                && store.tickets[claimed.value] == Claimed(old(store.tickets)[claimed.value], now)
                && store.reviews == old(store.reviews)
                && ClaimsTicket(cfg, old(State()), Machine.Claim(now), claimed.value)
                && flight == Some(Flight(claimed.value, store.tickets[claimed.value], now, None, false))
    {
      Facts();
      claimed := store.ClaimNextDue(now);
      if claimed.Some? {
        clock := now;
        flight := Some(Flight(claimed.value, store.tickets[claimed.value], now, None, false));
        Log(Machine.Claim(now));
      }
    }

    method Defer(id: Id, now: Instant, wait: Wait)
      requires Valid() && flight.Some? && flight.value.attempt.None? && flight.value.id == id && flight.value.now == now
      requires wait.Blocked? ==> wait.provider in blockedUntil && now < blockedUntil[wait.provider]
      requires WaitComputes(cfg, wait, now)
      modifies this`flight, this`trace, store`tickets
      ensures Valid() && flight.None? && trace == old(trace) + [PutOff(wait)]
      ensures IsPutOff(State(), id, WaitUntil(cfg, old(State()), wait, now),
                       if wait.Capped? then Some(UsageCap) else None, old(flight).value.snapshot.attempts)
      ensures Ahead(store.tickets[id], now)
    {
      hide Span, After, Legal, OneTicketPerPr, WaitComputes;
      Facts();
      WaitIsAhead(cfg, State(), wait, now);
      match wait {
        case Unconfigured => store.DeferRateLimited(id, now + Span(UNCONFIGURED_DEFER), now);
        case Capped => store.DeferUsageCapped(id, BucketStart(now, cfg.resetTime) + DAY, now);
        case Blocked(p) => store.DeferRateLimited(id, blockedUntil[p], now);
      }
      flight := None;
      Log(PutOff(wait));
    }

    ghost method Begin(a: Attempt)
      requires Valid() && flight.Some? && flight.value.attempt.None?
      requires !IsBlocked(State(), a.provider, flight.value.now)
      requires a.capChecked ==> UnderCap(cfg, State(), a, flight.value.now)
      modifies this`flight, this`trace
      ensures Valid() && flight == Some(old(flight).value.(attempt := Some(a)))
      ensures trace == old(trace) + [Start(a)]
    {
      flight := Some(flight.value.(attempt := Some(a)));
      Log(Start(a));
    }

    method Migrate(oldName: string, newName: string)
      requires Valid() && Attempting(State()) && oldName != newName
      modifies this`trace, store`tickets, store`reviews
      ensures Valid() && trace == old(trace) + [Rename(oldName, newName, clock)]
      ensures KeepsRunning(old(store.tickets), store.tickets)
      ensures store.reviews == RenamedReviews(old(store.reviews), oldName, newName)
    {
      hide After, Legal, OneTicketPerPr;
      Facts();
      store.MigrateRepoRename(oldName, newName, clock);
      Log(Rename(oldName, newName, clock));
    }

    method Save(repo: string, pr: nat, tokensIn: nat, tokensOut: nat, comment: int, provider: string, slot: int,
                elapsed: nat)
      requires Valid() && Attempting(State()) && !flight.value.recorded
      requires flight.value.attempt.value.provider == provider && flight.value.attempt.value.slot == slot
      modifies this`clock, this`flight, this`trace, store`reviews
      ensures Valid() && flight == Some(old(flight).value.(recorded := true))
      ensures trace == old(trace) + [Record(repo, pr, tokensIn, tokensOut, Some(comment), clock)]
      ensures old(clock) <= clock
      ensures store.reviews == old(store.reviews)
                + [Review(repo, pr, provider, Some(slot), clock, tokensIn, tokensOut, Some(comment))]
    {
      clock := clock + elapsed;
      store.RecordReview(Review(repo, pr, provider, Some(slot), clock, tokensIn, tokensOut, Some(comment)));
      flight := Some(flight.value.(recorded := true));
      Log(Record(repo, pr, tokensIn, tokensOut, Some(comment), clock));
    }

    /** Back off, or stop for good at the cap; the notice that goes with stopping may fail to post. */
    method Fail(id: Id, t: Ticket, now: Instant, error: string, notice: Reply, jitter: real) returns (r: StepResult)
      requires Valid() && Attempting(State()) && !flight.value.recorded && 0.0 <= jitter <= cfg.maxJitter
      requires flight.value.id == id && flight.value.snapshot == t && flight.value.now == now
      modifies this`flight, this`trace, store`tickets
      ensures Valid() && flight.None?
      ensures Quiet(old(trace), trace) && NoPushes(old(trace), trace)
      ensures Unbroken(trace) <==> Unbroken(old(trace)) && !r.Stranded?
      ensures id in old(store.tickets) && id in store.tickets
      // a review is no longer visible exactly if the notice had to go into a new comment
      ensures store.tickets[id].lastReviewedAt ==
                if t.attempts + 1 >= cfg.maxFailures && t.lastReviewedAt.Some? && t.commentId.Some?
                   && notice.Comment? && notice.id != t.commentId.value then None
                else old(store.tickets)[id].lastReviewedAt
      ensures AfterFail(id, t, now, error, !notice.Raised?, jitter, r)
    {
      hide Next, After, Legal, Enabled, OneTicketPerPr, Unbroken, BackoffEnd, CarriesOn, Quiet, NoPushes;
      ghost var before := trace;
      NothingNew(before);
      var nextAttempt := t.attempts + 1;
      var posted := false;
      Facts();
      if nextAttempt >= cfg.maxFailures && !notice.Raised? {
        NoteCarriesOn(before, trace, SetComment(id, ReplyId(notice)));
        Remember(id, ReplyId(notice));
        if HasVisibleReview(t) && Recreated(t, notice) {
          NoteCarriesOn(before, trace, ClearVisible(id));
          ForgetReview(id);
        }
        posted := true;
      }
      ghost var soFar := trace;
      CarryingOnKeepsUnbroken(before, soFar);
      r := GiveUpOrRetry(id, t, now, error, posted, jitter);
      LandingAddsNoPush(before, soFar, if r.Stranded? then Abandon else HardFail(posted, jitter, Some(error)));
      UnbrokenStep(soFar, if r.Stranded? then Abandon else HardFail(posted, jitter, Some(error)));
    }

    /** Where a hard failure leaves its ticket. */
    ghost predicate AfterFail(id: Id, t: Ticket, now: Instant, error: string, posted: bool, jitter: real, r: StepResult)
      reads this, store
    {
      id in store.tickets &&
      var row := store.tickets[id];
      var end := BackoffEnd(cfg.baseBackoff, cfg.maxBackoff, now, t.attempts + 1, jitter);
      if t.attempts + 1 >= cfg.maxFailures && (posted || t.attempts + 2 >= cfg.maxFailures + cfg.maxNoticePosts)
      then r == GaveUp(id) && row.status == Failed && row.lastError == Some(error)
      else if end.None? then r == Stranded(id) && row.status == Running
      else
        && r == PutOffUntil(id) && row.status == Retrying && row.attempts == t.attempts + 1 && row.notBefore == end
        && Ahead(row, now)
    }

    method GiveUpOrRetry(id: Id, t: Ticket, now: Instant, error: string, posted: bool, jitter: real)
      returns (r: StepResult)
      requires Valid() && Attempting(State()) && !flight.value.recorded && 0.0 <= jitter <= cfg.maxJitter
      requires flight.value.id == id && flight.value.snapshot == t && flight.value.now == now
      modifies this`flight, this`trace, store`tickets
      ensures Valid() && flight.None?
      ensures trace == old(trace) + [if r.Stranded? then Abandon else HardFail(posted, jitter, Some(error))]
      ensures id in old(store.tickets) && id in store.tickets
      ensures store.tickets[id].lastReviewedAt == old(store.tickets)[id].lastReviewedAt
      ensures AfterFail(id, t, now, error, posted, jitter, r)
    {
      hide Span, Backoff, After, Legal, OneTicketPerPr, BackoffFits;
      Facts();
      BackoffIsAhead(cfg, store.tickets[id], flight.value, posted, jitter, Some(error));
      var nextAttempt := t.attempts + 1;
      var ceiling := cfg.maxFailures + cfg.maxNoticePosts - 2;
      if nextAttempt >= cfg.maxFailures && (posted || nextAttempt > ceiling) {
        store.MarkFailed(id, now, Some(error));
        r := GaveUp(id);
      } else {
        var until := BackoffEnd(cfg.baseBackoff, cfg.maxBackoff, now, nextAttempt, jitter);
        if until.None? {
          Strand();
          return Stranded(id);
        }
        store.DeferFailed(id, until.value, now);
        r := PutOffUntil(id);
      }
      flight := None;
      Log(HardFail(posted, jitter, Some(error)));
    }

    method Discard(id: Id, now: Instant)
      requires Valid() && Attempting(State()) && !flight.value.recorded
      requires flight.value.id == id && flight.value.now == now
      modifies this`flight, this`trace, store`tickets
      ensures Valid() && flight.None? && trace == old(trace) + [Skip]
      ensures id in old(store.tickets)
      ensures match Discarded(old(store.tickets)[id], now)
              case None => store.tickets == old(store.tickets) - {id}
              case Some(row) => store.tickets == old(store.tickets)[id := row]
    {
      hide After, Legal, OneTicketPerPr;
      Facts();
      store.DiscardSkippedTicket(id, now);
      flight := None;
      Log(Skip);
    }

    /** Back off the provider and the ticket alike, if the end of the wait is a date. */
    method Block(id: Id, now: Instant, provider: string, retryAfter: real) returns (blocked: bool)
      requires Valid() && Attempting(State()) && !flight.value.recorded
      requires flight.value.id == id && flight.value.now == now && flight.value.attempt.value.provider == provider
      modifies this`blockedUntil, this`flight, this`trace, store`tickets
      ensures Valid() && flight.None? && trace == old(trace) + [if blocked then Limited(retryAfter) else Abandon]
      ensures blocked <==> Later(now, Max(retryAfter, cfg.minRetry)).Some?
      ensures !blocked ==>
                blockedUntil == old(blockedUntil) && store.tickets == old(store.tickets) && IsRunning(State(), id)
      ensures blocked ==>
                var until := Later(now, Max(retryAfter, cfg.minRetry)).value;
                && blockedUntil == old(blockedUntil)[provider := until]
                && IsPutOff(State(), id, until, None, old(flight).value.snapshot.attempts)
                && Ahead(store.tickets[id], now)
    {
      hide Span, Max, After, Legal, OneTicketPerPr;
      Facts();
      RetryIsAhead(cfg, flight.value, retryAfter);
      var until := Later(now, Max(retryAfter, cfg.minRetry));
      if until.None? {
        Strand();
        return false;
      }
      blockedUntil := blockedUntil[provider := until.value];
      store.DeferRateLimited(id, until.value, now);
      flight := None;
      Log(Limited(retryAfter));
      blocked := true;
    }

    /** Finalize the review, if the end of the re-review cooldown can be computed. */
    method Finalize(id: Id, t: Ticket, now: Instant, comment: int) returns (done: bool)
      requires Valid() && Attempting(State())
      requires flight.value.id == id && flight.value.snapshot == t && flight.value.now == now
      modifies this`flight, this`trace, store`tickets
      ensures Valid() && flight.None?
      ensures trace == old(trace) + [if done then Machine.Complete(Some(comment)) else Abandon]
      ensures done <==> CooldownEnd(cooldown, now, t.cooldownLevel).Some?
      ensures id in old(store.tickets) && old(store.tickets)[id].attempts == t.attempts
      ensures old(store.tickets)[id].cooldownLevel == t.cooldownLevel
      ensures !done ==> store.tickets == old(store.tickets) && IsRunning(State(), id)
      ensures done ==>
                store.tickets == old(store.tickets)[id := Finalized(old(store.tickets)[id], now,
                  CooldownEnd(cooldown, now, t.cooldownLevel).value, NextLevel(t.cooldownLevel), Some(comment))]
    {
      hide Span, EffectiveCooldown, PowerFits, After, Legal, OneTicketPerPr;
      Facts();
      var level := t.cooldownLevel;
      var rereviewAt := CooldownEnd(cooldown, now, level);
      if rereviewAt.None? {
        Strand();
        return false;
      }
      store.FinalizeReview(id, now, rereviewAt.value, NextLevel(level), Some(comment));
      flight := None;
      Log(Machine.Complete(Some(comment)));
      done := true;
    }

    /** An exception escapes the step. */
    ghost method Strand()
      requires Valid() && flight.Some?
      modifies this`flight, this`trace
      ensures Valid() && flight.None? && trace == old(trace) + [Abandon]
    {
      flight := None;
      Log(Abandon);
    }

    /** A deferred ticket shows a placeholder, unless a good review is already visible.
        A GitHub error escapes the step, after the deferral is durable. */
    method ShowPlaceholder(id: Id, t: Ticket, reply: Reply) returns (r: StepResult)
      requires Valid() && id in store.tickets
      modifies this`trace, store`tickets
      ensures Valid() && CarriesOn(old(trace), trace) && Quiet(old(trace), trace) && NoPushes(old(trace), trace)
      ensures r == (if t.lastReviewedAt.None? && reply.Raised? then Escaped(id) else PutOffUntil(id))
      ensures id in store.tickets
      ensures store.tickets[id] == old(store.tickets)[id].(commentId := store.tickets[id].commentId)
    {
      if !HasVisibleReview(t) {
        if reply.Raised? {
          return Escaped(id);
        }
        Remember(id, ReplyId(reply));
      }
      r := PutOffUntil(id);
    }

    /** The pre-flight cap: fails open when the refresh, the query or a date does. */
    method CapReached(now: Instant, w: World) returns (reached: bool, checked: bool)
      ensures reached ==> checked
      ensures checked <==> CapKnown(cfg, store.reviews, w, now)
      ensures checked && !reached ==> UnderCap(cfg, State(), Attempt(w.provider, w.slot, true), now)
      ensures reached <==> checked && CapHit(cfg, store.reviews, w, now)
    {
      reached, checked := false, false;
      if cfg.tokenCap.Some? && w.capRefreshed && w.usageQueried {
        var start := BucketStart(now, cfg.resetTime);
        if Timestamps.Representable(start) {
          var tokens := store.GetKeyUsage(w.provider, w.slot, start);
          reached := tokens >= cfg.tokenCap.value && Timestamps.Representable(start + DAY);
          checked := reached || tokens < cfg.tokenCap.value;
        }
      }
    }

    /** History after an attempt: a rename moves it first, and a review on record is its last entry. */
    ghost predicate HistoryGrew(before: seq<Review>, since: Instant, t: Ticket, w: World)
      reads this, store
    {
      var moved := if w.renamedTo != t.repo && w.migrates then RenamedReviews(before, t.repo, w.renamedTo) else before;
      if w.outcome.Reviewed? && w.outcome.recorded then
        |store.reviews| == |moved| + 1 && store.reviews[..|moved|] == moved &&
        var last := store.reviews[|moved|];
        && since <= last.createdAt <= clock
        && last == Review(t.repo, t.pr, w.provider, Some(w.slot), last.createdAt,
                          w.outcome.tokensIn, w.outcome.tokensOut, Some(w.outcome.comment))
      else store.reviews == moved
    }

    /** `attempt_review` up to its answer: a renamed repository is migrated first, and a completed
        review is recorded last, unless that raises; webhooks arrive throughout. */
    method RunAttempt(t: Ticket, w: World)
      requires Valid() && Attempting(State()) && !flight.value.recorded
      requires flight.value.attempt.value.provider == w.provider && flight.value.attempt.value.slot == w.slot
      modifies this`clock, this`flight, this`trace, store
      ensures Valid() && Attempting(State())
      ensures flight.value == old(flight).value.(recorded := flight.value.recorded)
      ensures flight.value.recorded <==> w.outcome.Reviewed? && w.outcome.recorded
      ensures HistoryGrew(old(store.reviews), old(clock), t, w) && old(clock) <= clock
      ensures KeepsRunning(old(store.tickets), store.tickets)
      ensures CarriesOn(old(trace), trace) && RecordsOnly(old(trace), trace, w)
    {
      hide Next, After, Legal, Enabled, OneTicketPerPr, RenamedReviews, Unbroken;
      Await(w.during);
      if w.renamedTo != t.repo && w.migrates {
        Migrate(t.repo, w.renamedTo);
      }
      if w.outcome.Reviewed? && w.outcome.recorded {
        Save(t.repo, t.pr, w.outcome.tokensIn, w.outcome.tokensOut, w.outcome.comment, w.provider, w.slot, w.elapsed);
      }
      Await(w.late);
    }

    /** `process_next_due`. */
    method ProcessNextDue(now: Instant, w: World) returns (r: StepResult)
      requires Valid() && flight.None? && clock <= now && 0.0 <= w.jitter <= cfg.maxJitter
      modifies this, store
      ensures Valid() && old(trace) <= trace && old(clock) <= clock && (!r.Idle? ==> now <= clock)
      // when an attempt starts, and what it may spend
      ensures Spends(old(trace), trace, w, if r.Idle? then None else TheAttempt(cfg, old(State()), w, now))
      ensures forall k | |old(trace)| <= k < |trace| && trace[k].Start? ::
                && w.tuningUsable && !(w.provider in old(blockedUntil) && now < old(blockedUntil)[w.provider])
                && trace[k].attempt.provider == w.provider && trace[k].attempt.slot == w.slot
                && (Checkable(cfg, w, now) ==>
                      && trace[k].attempt.capChecked
                      && KeyUsage(old(store.reviews), w.provider, w.slot, BucketStart(now, cfg.resetTime))
                           < cfg.tokenCap.value)
      // what is claimed
      ensures r.Idle? <==> DueIds(old(store.tickets), now) == {}
      ensures r.Idle? ==> trace == old(trace)
      ensures !r.Idle? ==> r.id == Oldest(old(store.tickets), DueIds(old(store.tickets), now))
      // where it is left, case by case, a push since the claim included
      ensures !r.Idle? ==>
                StepLeaves(cfg, old(State()), State(), w, now, PushedSince(cfg, trace, |old(trace)|, |trace|, r.id), r)
      ensures r.PutOffUntil? || r.Escaped? ==>
                && r.id in store.tickets && store.tickets[r.id].status in {Deferred, Retrying}
                && Ahead(store.tickets[r.id], now)
      // when it is left running
      ensures r.Stranded? <==> !r.Idle? && Strands(cfg, old(State()), w, now, Claimed(old(store.tickets)[r.id], now))
      ensures r.Exited? <==> !r.Idle? && Exits(cfg, old(State()), w, now)
      ensures !r.Idle? ==> (IsRunning(State(), r.id) <==> r.Stranded? || r.Exited?)
      ensures flight.Some? <==> r.Exited?
      ensures Unbroken(trace) <==> Unbroken(old(trace)) && !r.Stranded?
    {
      hide Next, After, Legal, OneTicketPerPr, Enabled, DueIds, IsOldest, Ahead, Gate, OutcomeLeaves, GateLeaves,
        KeepsRunning, PushedSince, Unbroken, Strands, IsRunning, StepLeaves, ClaimsTicket, Spends, MayStart, Passes,
        Checkable, FlightInv, KeyUsage, BucketStart;
      ghost var before, start := State(), trace;
      var claimed := Claim(now);
      if claimed.None? {
        QuietSpendsNothing(trace, trace, w);
        return Idle;
      }
      var id := claimed.value;
      var t := store.tickets[id];
      cooldown := if w.cooldownRefreshed then Some(cfg.cooldown) else None;
      ghost var atClaim := State();
      r := Work(id, t, now, w, start);
      ClaimSpendsNothing(start, now, trace, w, TheAttempt(cfg, atClaim, w, now));
      SameAttempt(cfg, before, atClaim, w, now);
      StartsAreChecked(cfg, before, start, trace, w, now);
      SameGates(cfg, before, atClaim, w, now);
      if Gate(cfg, before, w, now).Some? {
        SameGateLeaves(cfg, before, atClaim, State(), w, Gate(cfg, before, w, now).value, now, id, t, r);
      }
      StepLeavesFrom(cfg, before, State(), w, now, PushedSince(cfg, trace, |start|, |trace|, id), id, t, r);
      RunningOnlyIfStrandedOrExited(cfg, before, State(), w, now, PushedSince(cfg, trace, |start|, |trace|, id), r);
    }

    /** The step from its claim on. */
    method Work(id: Id, t: Ticket, now: Instant, w: World, ghost start: seq<Event>) returns (r: StepResult)
      requires Valid() && 0.0 <= w.jitter <= cfg.maxJitter
      requires Legal(cfg, start) && trace == start + [Machine.Claim(now)]
      requires ClaimsTicket(cfg, After(cfg, start), Machine.Claim(now), id)
      requires flight == Some(Flight(id, t, now, None, false))
      requires id in store.tickets && store.tickets[id] == t && t.status == Running
      requires cooldown == if w.cooldownRefreshed then Some(cfg.cooldown) else None
      modifies this`clock, this`flight, this`trace, this`blockedUntil, store
      ensures Valid() && start <= trace && old(clock) <= clock
      ensures Spends(old(trace), trace, w, TheAttempt(cfg, old(State()), w, now))
      ensures if Gate(cfg, old(State()), w, now).Some?
              then GateLeaves(cfg, old(State()), State(), w, Gate(cfg, old(State()), w, now).value, now, id, t, r)
              else OutcomeLeaves(cfg, old(blockedUntil), State(), w, now, id, t,
                                 PushedSince(cfg, trace, |start|, |trace|, id), r)
      ensures r.PutOffUntil? || r.Escaped? ==>
                id in store.tickets && store.tickets[id].status in {Deferred, Retrying} && Ahead(store.tickets[id], now)
      ensures flight.Some? <==> r.Exited?
      ensures Unbroken(trace) <==> Unbroken(start) && !r.Stranded?
    {
      hide Next, After, Legal, OneTicketPerPr, Enabled, Ahead, Gate, OutcomeLeaves, KeepsRunning, PushedSince,
        Unbroken, ClaimsTicket, IsPutOff, WaitUntil, WaitComputes, IsRunning, HistoryGrew, StillReviewed, Spends, Quiet,
        RecordsOnly, MayStart, Passes;
      ghost var before := State();
      CarryingOnKeepsUnbroken(start, trace);
      Await(w.early);
      SameGates(cfg, before, State(), w, now);

      ghost var awaited, called := State(), trace;
      SameAttempt(cfg, before, awaited, w, now);
      var admitted;
      admitted, r := Admit(id, t, now, w);
      SpendsAfterQuiet(start + [Machine.Claim(now)], called, trace, w, TheAttempt(cfg, before, w, now));
      if !admitted {
        SameGateLeaves(cfg, before, awaited, State(), w, Gate(cfg, before, w, now).value, now, id, t, r);
      } else {
        ghost var stripped, begun := store.tickets, trace;
        RunAttempt(t, w);
        ghost var mid := trace;
        CarryingOnKeepsUnbroken(start + [Machine.Claim(now)], mid);
        StampAtLanding(t, w, before.tickets, awaited.tickets, stripped, store.tickets, id);
        r := Settle(id, t, now, w);
        DirtyAtLanding(cfg, start, now, mid, trace, id);
        RecordsThenQuiet(begun, mid, trace, w);
        SpendsThenRecords(start + [Machine.Claim(now)], begun, trace, w, TheAttempt(cfg, before, w, now));
      }
    }

    /** Put the claimed ticket back, then say so on the pull request. */
    method Wait(id: Id, t: Ticket, now: Instant, wait: Wait, w: World) returns (r: StepResult)
      requires Valid() && flight == Some(Flight(id, t, now, None, false))
      requires wait.Blocked? ==> wait.provider in blockedUntil && now < blockedUntil[wait.provider]
      modifies this`flight, this`trace, store`tickets
      ensures Valid() && flight.None?
      ensures NoPushes(old(trace), trace) && Quiet(old(trace), trace)
      ensures Unbroken(trace) <==> Unbroken(old(trace)) && !r.Stranded?
      ensures GateLeaves(cfg, old(State()), State(), w, wait, now, id, t, r)
      ensures !r.Stranded? ==>
                id in store.tickets && store.tickets[id].status == Deferred && Ahead(store.tickets[id], now)
    {
      hide Next, After, Legal, OneTicketPerPr, Enabled, Span, BucketStart, WaitComputes, Unbroken;
      if !WaitComputes(cfg, wait, now) {
        Facts();
        Strand();
        UnbrokenStep(old(trace), Abandon);
        return Stranded(id);
      }
      Defer(id, now, wait);
      UnbrokenStep(old(trace), PutOff(wait));
      ghost var landed := trace;
      r := ShowPlaceholder(id, t, w.placeholder);
      CarryingOnKeepsUnbroken(landed, trace);
    }

    /** The gates before an attempt: usable tuning, the usage cap, the provider's block. */
    method Admit(id: Id, t: Ticket, now: Instant, w: World) returns (admitted: bool, r: StepResult)
      requires Valid() && flight == Some(Flight(id, t, now, None, false))
      modifies this`flight, this`trace, store`tickets
      ensures Valid() && NoPushes(old(trace), trace)
      ensures admitted <==> Gate(cfg, old(State()), w, now).None?
      ensures admitted <==> MayStart(cfg, old(State()), w, now)
      ensures Spends(old(trace), trace, w, TheAttempt(cfg, old(State()), w, now))
      ensures admitted ==>
                && CarriesOn(old(trace), trace)
                && flight == Some(Flight(id, t, now, TheAttempt(cfg, old(State()), w, now), false))
                && id in old(store.tickets)
                && store.tickets == if t.noticeNotBefore.None? || w.strip.Raised? then old(store.tickets)
                                    else old(store.tickets)[id := Stripped(old(store.tickets)[id], t, w.strip)]
      ensures !admitted ==>
                && flight.None?
                && GateLeaves(cfg, old(State()), State(), w, Gate(cfg, old(State()), w, now).value, now, id, t, r)
                && (Unbroken(trace) <==> Unbroken(old(trace)) && !r.Stranded?)
                && (!r.Stranded? ==>
                      id in store.tickets && store.tickets[id].status == Deferred && Ahead(store.tickets[id], now))
    {
      hide Next, After, Legal, OneTicketPerPr, Enabled, Span, BucketStart, KeyUsage, UnderCap, IsPutOff, AnswersWait,
        WaitComputes, Unbroken, CapKnown, CapHit, Ends;
      Facts();
      ghost var before := State();
      GateIsNone(cfg, before, w, now);
      admitted := false;
      if !w.tuningUsable {
        r := Wait(id, t, now, Unconfigured, w);
        return;
      }
      StripNotice(id, t, w.strip);
      ghost var stripped, soFar := State(), trace;
      CarryingOnKeepsUnbroken(old(trace), soFar);

      var capped, checked := CapReached(now, w);
      if capped {
        r := Wait(id, t, now, Capped, w);
        SameGateLeaves(cfg, before, stripped, State(), w, Capped, now, id, t, r);
        return;
      }
      if w.provider in blockedUntil && now < blockedUntil[w.provider] {
        r := Wait(id, t, now, Blocked(w.provider), w);
        SameGateLeaves(cfg, before, stripped, State(), w, Blocked(w.provider), now, id, t, r);
        return;
      }
      r := PutOffUntil(id);
      var a := Attempt(w.provider, w.slot, checked);
      StartSpends(old(trace), soFar, w, a);
      StartCarriesOn(soFar, a);
      Begin(a);
      admitted := true;
    }

    method SettleLimited(id: Id, t: Ticket, now: Instant, w: World) returns (r: StepResult)
      requires Valid() && Attempting(State()) && !flight.value.recorded && w.outcome.RateLimited?
      requires flight.value.id == id && flight.value.snapshot == t && flight.value.now == now
      requires flight.value.attempt.value.provider == w.provider
      modifies this`blockedUntil, this`flight, this`trace, store`tickets
      ensures Valid() && flight.None? && NoPushes(old(trace), trace) && Quiet(old(trace), trace)
      ensures forall dirty :: OutcomeLeaves(cfg, old(blockedUntil), State(), w, now, id, t, dirty, r)
      ensures !r.Stranded? ==>
                id in store.tickets && store.tickets[id].status == Deferred && Ahead(store.tickets[id], now)
      ensures Unbroken(trace) <==> Unbroken(old(trace)) && !r.Stranded?
    {
      hide Next, After, Legal, Enabled, OneTicketPerPr, Later, Unbroken;
      var blocked := Block(id, now, w.provider, w.outcome.retryAfter);
      if !blocked {
        UnbrokenStep(old(trace), Abandon);
        return Stranded(id);
      }
      UnbrokenStep(old(trace), Limited(w.outcome.retryAfter));
      ghost var landed := trace;
      r := ShowPlaceholder(id, t, w.placeholder);
      CarryingOnKeepsUnbroken(landed, trace);
    }

    /** What the step does with the outcome of the attempt. */
    method Settle(id: Id, t: Ticket, now: Instant, w: World) returns (r: StepResult)
      requires Valid() && Attempting(State()) && (flight.value.recorded ==> w.outcome.Reviewed?)
      requires flight.value.id == id && flight.value.snapshot == t && flight.value.now == now
      requires flight.value.attempt.value.provider == w.provider && 0.0 <= w.jitter <= cfg.maxJitter
      requires cooldown == if w.cooldownRefreshed then Some(cfg.cooldown) else None
      requires id in store.tickets && (store.tickets[id].lastReviewedAt.Some? <==> StillReviewed(t, w))
      modifies this`blockedUntil, this`flight, this`trace, store`tickets
      ensures Valid() && NoPushes(old(trace), trace) && Quiet(old(trace), trace)
      ensures OutcomeLeaves(cfg, old(blockedUntil), State(), w, now, id, t, old(store.tickets)[id].rereviewRequested, r)
      ensures r.PutOffUntil? || r.Escaped? ==>
                id in store.tickets && store.tickets[id].status in {Deferred, Retrying} && Ahead(store.tickets[id], now)
      ensures flight.Some? <==> r.Exited?
      ensures Unbroken(trace) <==> Unbroken(old(trace)) && !r.Stranded?
    {
      hide Next, After, Legal, Enabled, OneTicketPerPr, Span, Backoff, EffectiveCooldown, CooldownEnd,
        BackoffEnd, Later, Unbroken;
      match w.outcome {
        case Crashed(error, installationGone) =>
          if installationGone {
            Facts();
            return Exited(id);
          }
          r := Fail(id, t, now, error, w.failureNotice, w.jitter);
        case NothingToReview =>
          Discard(id, now);
          UnbrokenStep(old(trace), Skip);
          r := Skipped(id);
        case RateLimited(retryAfter) =>
          r := SettleLimited(id, t, now, w);
        case Reviewed(comment, _, _, _) =>
          var done := Finalize(id, t, now, comment);
          UnbrokenStep(old(trace), if done then Machine.Complete(Some(comment)) else Abandon);
          r := if done then Ran(id) else Stranded(id);
      }
    }

    /** Process death, then `recover_on_startup`: memory is lost, and what was running is pending again. */
    method Reboot(elapsed: nat)
      requires Valid()
      modifies this, store`tickets
      ensures Valid() && flight.None? && trace == old(trace) + [Restart(clock)] && Unbroken(trace)
      ensures clock == old(clock) + elapsed
      ensures store.tickets.Keys == old(store.tickets).Keys
      ensures forall id | id in store.tickets :: store.tickets[id].status != Running
    {
      hide After, Legal, OneTicketPerPr, PushComputes, CooldownEnd, BackoffEnd, Later, UnderCap, WaitComputes;
      Facts();
      clock := clock + elapsed;
      store.RecoverOnStartup(clock);
      blockedUntil, cooldown, flight := map[], None, None;
      Log(Restart(clock));
    }

    // ---- The loop ----

    /** One round of `run_forever`: a step, a notice sweep and the webhooks of the idle sleep, or the death
        of the process. If the cap's refresh and query work whenever `provider`'s `slot` is the active one,
        and no review on it costs more than `most`, everything it spends stays paid for. */
    method Serve(x: Round, ghost provider: string, ghost slot: int, ghost most: nat)
      requires Valid() && flight.None? && DAY <= clock && (x.Step? ==> 0.0 <= x.world.jitter <= cfg.maxJitter)
      modifies this, store
      ensures Valid() && flight.None? && old(clock) <= clock
      ensures cfg.tokenCap.Some? && AllCharged(cfg, old(trace), most, provider, slot)
              && (x.Step? ==> WatchesCap(x.world, provider, slot, most)) && Timestamps.Representable(clock + DAY)
              ==> AllCharged(cfg, trace, most, provider, slot)
    {
      hide Next, After, Legal, Enabled, AllCharged, Spends, DueIds, IsOldest, StepLeaves, Unbroken, Strands, Swept,
        Batch, Taken, OneTicketPerPr, WatchesCap, Ahead, MayStart, TheAttempt, FlightInv;
      ghost var start := trace;
      match x {
        case Death(elapsed) =>
          Reboot(elapsed);
          Charge(start, provider, slot, most);
        case Step(elapsed, w, limit, reply, asleep) =>
          var now := clock + elapsed;
          var r := ProcessNextDue(now, w);
          ghost var stepped := trace;
          if cfg.tokenCap.Some? && AllCharged(cfg, start, most, provider, slot) && WatchesCap(w, provider, slot, most)
             && Timestamps.Representable(clock + DAY) {
            StepStaysCharged(cfg, start, stepped, w, now, r.Idle?, most, provider, slot);
          }
          if r.Exited? {
            Reboot(0);
          } else {
            var _ := PostPendingNotices(clock, limit, reply);
            Await(asleep);
          }
          Charge(stepped, provider, slot, most);
      }
    }

    lemma Charge(before: seq<Event>, provider: string, slot: int, most: nat)
      requires Valid() && Legal(cfg, before) && Quiet(before, trace)
      ensures AllCharged(cfg, before, most, provider, slot) ==> AllCharged(cfg, trace, most, provider, slot)
    {
      hide AllCharged;
      if AllCharged(cfg, before, most, provider, slot) {
        QuietStaysCharged(cfg, before, trace, most, provider, slot);
      }
    }

    /** `run_forever`, for as many rounds as given. */
    method RunForever(rounds: seq<Round>, ghost provider: string, ghost slot: int, ghost most: nat)
      requires Valid() && flight.None? && DAY <= clock
      requires forall x | x in rounds && x.Step? :: 0.0 <= x.world.jitter <= cfg.maxJitter
      modifies this, store
      ensures Valid() && flight.None? && old(clock) <= clock
      ensures cfg.tokenCap.Some? && AllCharged(cfg, old(trace), most, provider, slot)
              && (forall x | x in rounds && x.Step? :: WatchesCap(x.world, provider, slot, most))
              && Timestamps.Representable(clock + DAY)
              ==> forall b | OpensWindow(b, cfg.resetTime) ::
                    WindowUsage(store.reviews, provider, slot, b) <= cfg.tokenCap.value - 1 + most
    {
      hide Next, After, Legal, AllCharged, WatchesCap, WindowUsage;
      for i := 0 to |rounds|
        invariant Valid() && flight.None? && old(clock) <= clock
        invariant cfg.tokenCap.Some? && AllCharged(cfg, old(trace), most, provider, slot)
                  && (forall x | x in rounds && x.Step? :: WatchesCap(x.world, provider, slot, most))
                  && Timestamps.Representable(clock + DAY)
                  ==> AllCharged(cfg, trace, most, provider, slot)
      {
        assert rounds[i] in rounds;
        Serve(rounds[i], provider, slot, most);
      }
      forall b | OpensWindow(b, cfg.resetTime) && cfg.tokenCap.Some? && AllCharged(cfg, trace, most, provider, slot)
        ensures WindowUsage(store.reviews, provider, slot, b) <= cfg.tokenCap.value - 1 + most
      {
        UsageStaysBounded(provider, slot, most, b);
      }
    }

    /** So within any usage window the slot's recorded tokens stay under the cap, give or take one review. */
    lemma {:induction false} UsageStaysBounded(provider: string, slot: int, most: nat, b: Instant)
      requires Valid() && cfg.tokenCap.Some? && AllCharged(cfg, trace, most, provider, slot)
      requires OpensWindow(b, cfg.resetTime)
      ensures WindowUsage(store.reviews, provider, slot, b) <= cfg.tokenCap.value - 1 + most
    {
      OvershootIsOneReview(cfg, trace, most, provider, slot, b);
    }
  }
}
