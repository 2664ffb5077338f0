/** Whole-run properties of the queue: every claim below ranges over all runs of the machine
    from an empty database, crashes, escaped exceptions and webhook interleavings included. */
module Runs {
  import opened Wrappers
  import opened Cooldown
  import opened Queue
  import opened Machine

  /** The state before event `k`. */
  ghost function At(cfg: Settings, tr: seq<Event>, k: nat): Sys
    requires Legal(cfg, tr) && k <= |tr|
  {
    LegalPrefix(cfg, tr, k);
    After(cfg, tr[..k])
  }

  lemma StepAt(cfg: Settings, tr: seq<Event>, k: nat)
    requires ValidSettings(cfg) && Legal(cfg, tr) && k < |tr|
    ensures Inv(cfg, At(cfg, tr, k)) && Inv(cfg, At(cfg, tr, k + 1))
    ensures Enabled(cfg, At(cfg, tr, k), tr[k])
    ensures At(cfg, tr, k + 1) == Next(cfg, At(cfg, tr, k), tr[k])
  {
    StepOf(cfg, tr, k);
    AlwaysInv(cfg, tr[..k]);
    AlwaysInv(cfg, tr[..k + 1]);
  }

  /** The dispatcher's step in progress is about ticket `id`. */
  predicate InFlight(s: Sys, id: Id) {
    s.flight.Some? && s.flight.value.id == id
  }

  // ---- One ticket per pull request; one running ticket ----

  lemma {:induction false} OneTicketPerPrAlways(cfg: Settings, tr: seq<Event>)
    requires ValidSettings(cfg) && Legal(cfg, tr)
    ensures OneTicketPerPr(After(cfg, tr).tickets)
    ensures forall id | id in After(cfg, tr).tickets :: After(cfg, tr).tickets[id].cooldownLevel <= MAX_COOLDOWN_LEVEL
  {
    AlwaysInv(cfg, tr);
  }

  function RunningIds(ts: Tickets): set<Id> {
    set id | id in ts && ts[id].status == Running
  }

  /** No exception has escaped a step since the last restart. */
  ghost predicate Unbroken(tr: seq<Event>)
    decreases |tr|
  {
    tr == [] ||
    var last := tr[|tr| - 1];
    last.Restart? || (!last.Abandon? && Unbroken(tr[..|tr| - 1]))
  }

  /** If no exception escaped a step since the last restart, the only running ticket is the one the
      dispatcher is working on. */
  lemma {:induction false} OnlyTheFlightRuns(cfg: Settings, tr: seq<Event>)
    requires ValidSettings(cfg) && Legal(cfg, tr) && Unbroken(tr)
    ensures forall id | id in RunningIds(After(cfg, tr).tickets) :: InFlight(After(cfg, tr), id)
    ensures |RunningIds(After(cfg, tr).tickets)| <= 1
    decreases |tr|
  {
    hide Next;
    var s := After(cfg, tr);
    if tr != [] {
      var before, e := tr[..|tr| - 1], tr[|tr| - 1];
      AlwaysInv(cfg, before);
      if e.Restart? {
        RestartRunsNothing(cfg, After(cfg, before), e.now);
      } else {
        OnlyTheFlightRuns(cfg, before);
        forall id | id in RunningIds(s.tickets)
          ensures InFlight(s, id)
        {
          if id in After(cfg, before).tickets && After(cfg, before).tickets[id].status == Running {
            assert id in RunningIds(After(cfg, before).tickets);
          }
          RunningStep(cfg, After(cfg, before), e, id);
        }
      }
    }
    var running := RunningIds(s.tickets);
    if running != {} {
      var id :| id in running;
      assert running == {id};
    }
  }

  lemma RunningStep(cfg: Settings, s: Sys, e: Event, id: Id)
    requires Enabled(cfg, s, e) && FlightInv(s) && e != Abandon
    requires id in s.tickets && s.tickets[id].status == Running ==> InFlight(s, id)
    requires id in Next(cfg, s, e).tickets && Next(cfg, s, e).tickets[id].status == Running
    ensures InFlight(Next(cfg, s, e), id)
  {
  }

  /** Whatever happened before, a restart leaves nothing running and every interrupted ticket pending. */
  lemma RestartRunsNothing(cfg: Settings, s: Sys, now: Instant)
    requires s.clock <= now
    ensures var s' := Next(cfg, s, Restart(now));
            && RunningIds(s'.tickets) == {} && s'.tickets.Keys == s.tickets.Keys
            && forall id | id in RunningIds(s.tickets) :: s'.tickets[id].status == Pending
  {
  }

  predicate IsStranded(s: Sys, id: Id) {
    id in s.tickets && s.tickets[id].status == Running && !InFlight(s, id) && id < s.nextId
  }

  lemma StrandedStep(cfg: Settings, s: Sys, e: Event, id: Id)
    requires Enabled(cfg, s, e) && FlightInv(s) && IsStranded(s, id) && !e.Restart?
    ensures IsStranded(Next(cfg, s, e), id)
  {
    hide CooldownEnd, Later, BackoffEnd, UnderCap;
  }

  /** And a ticket whose step an exception escaped stays `running`, claimed by nobody, whatever is
      pushed, until the process restarts. */
  lemma {:induction false} StrandedUntilRestart(cfg: Settings, tr: seq<Event>, i: nat, j: nat, id: Id)
    requires ValidSettings(cfg) && Legal(cfg, tr) && i < j <= |tr|
    requires tr[i].Abandon? && InFlight(At(cfg, tr, i), id) && forall k | i < k < j :: !tr[k].Restart?
    ensures IsStranded(At(cfg, tr, j), id)
    decreases j
  {
    hide Next, Enabled;
    StepAt(cfg, tr, j - 1);
    if j > i + 1 {
      StrandedUntilRestart(cfg, tr, i, j - 1, id);
      StrandedStep(cfg, At(cfg, tr, j - 1), tr[j - 1], id);
    } else {
      AbandonStrands(cfg, At(cfg, tr, i), id);
    }
  }

  lemma AbandonStrands(cfg: Settings, s: Sys, id: Id)
    requires Inv(cfg, s) && Enabled(cfg, s, Abandon) && InFlight(s, id)
    ensures IsStranded(Next(cfg, s, Abandon), id)
  {
  }

  // ---- No push is swallowed ----

  /** A review is still owed: waiting, or running with a note to look again. */
  predicate Awaits(t: Ticket) {
    t.Queued() || (t.status == Running && t.rereviewRequested)
  }

  predicate Honoured(s: Sys, id: Id) {
    id in s.tickets && (Awaits(s.tickets[id]) || s.tickets[id].status in {Failed, Cancelled})
  }

  /** Event `e` explicitly writes ticket `id` off: hard stop, closed PR, or superseded by a rename. */
  ghost predicate WritesOff(cfg: Settings, s: Sys, e: Event, id: Id) {
    id in s.tickets &&
    match e
    case HardFail(posted, _, _) => InFlight(s, id) && GivesUp(cfg, s.flight.value.snapshot.attempts + 1, posted)
    case Close(repo, pr, _) => s.tickets[id].IsFor(repo, pr)
    case Rename(o, n, _) => s.tickets[id].repo == o && Tracked(s.tickets, n, s.tickets[id].pr)
    case _ => false
  }

  ghost predicate ClaimsTicket(cfg: Settings, s: Sys, e: Event, id: Id) {
    e.Claim? && Enabled(cfg, s, e) && InFlight(Next(cfg, s, e), id)
  }

  /** An accepted trigger: the webhook's event left the pull request's ticket in row `id`. */
  ghost predicate PushesTicket(cfg: Settings, s: Sys, e: Event, id: Id) {
    e.Push? && Enabled(cfg, s, e) &&
    var ts := Next(cfg, s, e).tickets;
    id in ts && ts[id].IsFor(e.repo, e.pr)
  }

  lemma PushIsOwed(cfg: Settings, s: Sys, e: Event, id: Id)
    requires ValidSettings(cfg) && Inv(cfg, s) && Enabled(cfg, s, e) && PushesTicket(cfg, s, e, id)
    ensures Awaits(Next(cfg, s, e).tickets[id])
  {
    StepKeepsOneTicketPerPr(cfg, s, e);
    var ts := Next(cfg, s, e).tickets;
    var row := if Tracked(s.tickets, e.repo, e.pr) then Lookup(s.tickets, e.repo, e.pr) else s.nextId;
    assert ts[row].IsFor(e.repo, e.pr);
  }

  /** Only the next claim discharges an owed review; nothing else but a write-off ends it. */
  lemma {:induction false} OwedStep(cfg: Settings, s: Sys, e: Event, id: Id)
    requires ValidSettings(cfg) && Inv(cfg, s) && Enabled(cfg, s, e)
    requires Honoured(s, id) && !ClaimsTicket(cfg, s, e, id)
    ensures Honoured(Next(cfg, s, e), id)
    ensures Awaits(s.tickets[id]) && !WritesOff(cfg, s, e, id) ==> Awaits(Next(cfg, s, e).tickets[id])
  {
    hide Next;
    if Lands(e) && InFlight(s, id) {
      OwedLands(cfg, s, e, id);
    } else if e.Push? {
      OwedPush(cfg, s, e, id);
    } else if e.Close? || e.Rename? {
      OwedCancels(cfg, s, e, id);
    } else {
      OwedElsewhere(cfg, s, e, id);
    }
  }

  lemma OwedElsewhere(cfg: Settings, s: Sys, e: Event, id: Id)
    requires Enabled(cfg, s, e) && Honoured(s, id)
    requires !(Lands(e) && InFlight(s, id)) && !e.Push? && !e.Close? && !e.Rename?
    requires e.Claim? ==> !InFlight(Next(cfg, s, e), id)
    ensures Honoured(Next(cfg, s, e), id)
    ensures Awaits(s.tickets[id]) ==> Awaits(Next(cfg, s, e).tickets[id])
  {
  }

  lemma OwedLands(cfg: Settings, s: Sys, e: Event, id: Id)
    requires ValidSettings(cfg) && FlightInv(s) && Enabled(cfg, s, e)
    requires Honoured(s, id) && Lands(e) && InFlight(s, id)
    ensures Honoured(Next(cfg, s, e), id)
    ensures !WritesOff(cfg, s, e, id) ==> Awaits(Next(cfg, s, e).tickets[id])
  {
  }

  lemma OwedPush(cfg: Settings, s: Sys, e: Event, id: Id)
    requires ValidSettings(cfg) && FlightInv(s) && Enabled(cfg, s, e)
    requires Honoured(s, id) && e.Push?
    ensures Honoured(Next(cfg, s, e), id)
    ensures Awaits(s.tickets[id]) ==> Awaits(Next(cfg, s, e).tickets[id])
  {
  }

  lemma OwedCancels(cfg: Settings, s: Sys, e: Event, id: Id)
    requires ValidSettings(cfg) && OneTicketPerPr(s.tickets) && Enabled(cfg, s, e)
    requires Honoured(s, id) && (e.Close? || e.Rename?)
    ensures Honoured(Next(cfg, s, e), id)
    ensures Awaits(s.tickets[id]) && !WritesOff(cfg, s, e, id) ==> Awaits(Next(cfg, s, e).tickets[id])
  {
  }

  ghost predicate Unclaimed(cfg: Settings, tr: seq<Event>, i: nat, j: nat, id: Id)
    requires Legal(cfg, tr) && j <= |tr|
  {
    forall k | i < k < j :: !ClaimsTicket(cfg, At(cfg, tr, k), tr[k], id)
  }

  ghost predicate NotWrittenOff(cfg: Settings, tr: seq<Event>, i: nat, j: nat, id: Id)
    requires Legal(cfg, tr) && j <= |tr|
  {
    forall k | i < k < j :: !WritesOff(cfg, At(cfg, tr, k), tr[k], id)
  }

  /** From an accepted push to the next claim of its ticket, the row exists and the review is
      owed, unless the ticket failed, its PR closed, or a rename superseded it. */
  lemma {:induction false} NoPushSwallowed(cfg: Settings, tr: seq<Event>, i: nat, j: nat, id: Id)
    requires ValidSettings(cfg) && Legal(cfg, tr) && i < j <= |tr|
    requires PushesTicket(cfg, At(cfg, tr, i), tr[i], id)
    requires Unclaimed(cfg, tr, i, j, id)
    ensures Honoured(At(cfg, tr, j), id)
    ensures NotWrittenOff(cfg, tr, i, j, id) ==> Awaits(At(cfg, tr, j).tickets[id])
    decreases j
  {
    hide Next;
    StepAt(cfg, tr, j - 1);
    var s, e := At(cfg, tr, j - 1), tr[j - 1];
    if j == i + 1 {
      PushIsOwed(cfg, s, e, id);
    } else {
      NoPushSwallowed(cfg, tr, i, j - 1, id);
      assert NotWrittenOff(cfg, tr, i, j, id) ==> NotWrittenOff(cfg, tr, i, j - 1, id) && !WritesOff(cfg, s, e, id);
      OwedStep(cfg, s, e, id);
    }
  }

  /** The events that end a dispatcher step, one way or another. */
  predicate Ends(e: Event) {
    Lands(e) || e.Abandon? || e.Restart?
  }

  ghost predicate PushedSince(cfg: Settings, tr: seq<Event>, i: nat, j: nat, id: Id)
    requires Legal(cfg, tr) && j <= |tr|
  {
    exists k | i < k < j :: PushesTicket(cfg, At(cfg, tr, k), tr[k], id)
  }

  lemma DirtyStep(cfg: Settings, s: Sys, e: Event, id: Id)
    requires ValidSettings(cfg) && FlightInv(s) && OneTicketPerPr(s.tickets) && Enabled(cfg, s, e)
    requires InFlight(s, id) && id < s.nextId && !Ends(e)
    ensures var s' := Next(cfg, s, e);
            && InFlight(s', id) && id in s'.tickets
            && (s'.tickets[id].rereviewRequested <==> s.tickets[id].rereviewRequested || PushesTicket(cfg, s, e, id))
  {
    if e.Push? {
      DirtyPush(cfg, s, e, id);
    }
  }

  lemma DirtyPush(cfg: Settings, s: Sys, e: Event, id: Id)
    requires FlightInv(s) && OneTicketPerPr(s.tickets) && Enabled(cfg, s, e) && e.Push?
    requires InFlight(s, id) && id < s.nextId
    ensures var s' := Next(cfg, s, e);
            && InFlight(s', id) && id in s'.tickets
            && (s'.tickets[id].rereviewRequested <==> s.tickets[id].rereviewRequested || PushesTicket(cfg, s, e, id))
  {
    hide CooldownEnd;
  }

  /** While a step is under way its ticket's dirty flag says exactly whether a push for it was accepted
      since the claim. */
  lemma {:induction false} DirtyIffPushed(cfg: Settings, tr: seq<Event>, i: nat, j: nat, id: Id)
    requires ValidSettings(cfg) && Legal(cfg, tr) && i < j <= |tr|
    requires ClaimsTicket(cfg, At(cfg, tr, i), tr[i], id) && forall k | i < k < j :: !Ends(tr[k])
    ensures InFlight(At(cfg, tr, j), id) && id in At(cfg, tr, j).tickets
    ensures At(cfg, tr, j).tickets[id].rereviewRequested <==> PushedSince(cfg, tr, i, j, id)
    decreases j
  {
    hide Next, Enabled, Legal, After, PushesTicket;
    StepAt(cfg, tr, j - 1);
    var s, e := At(cfg, tr, j - 1), tr[j - 1];
    if j == i + 1 {
      ClaimIsClean(cfg, s, e, id);
    } else {
      DirtyIffPushed(cfg, tr, i, j - 1, id);
      DirtyStep(cfg, s, e, id);
      if PushedSince(cfg, tr, i, j, id) && !PushedSince(cfg, tr, i, j - 1, id) {
        assert PushesTicket(cfg, s, e, id);
      }
    }
  }

  lemma ClaimIsClean(cfg: Settings, s: Sys, e: Event, id: Id)
    requires FlightInv(s) && ClaimsTicket(cfg, s, e, id)
    ensures id in Next(cfg, s, e).tickets && !Next(cfg, s, e).tickets[id].rereviewRequested
  {
  }

  /** An owed review that is not running can be claimed as soon as its schedule allows. */
  lemma {:induction false} OwedBecomesDue(cfg: Settings, tr: seq<Event>, id: Id, now: Instant)
    requires ValidSettings(cfg) && Legal(cfg, tr)
    requires var ts := After(cfg, tr).tickets; id in ts && ts[id].Queued()
    ensures var t := After(cfg, tr).tickets[id];
            (t.status == Pending || t.notBefore.Some?) &&
            (id in DueIds(After(cfg, tr).tickets, now) <==> t.status == Pending || t.notBefore.value <= now)
  {
    AlwaysInv(cfg, tr);
  }

  // ---- First come, first served ----

  /** Tickets were enqueued in the order of their ids, and none in the future. */
  ghost predicate InOrder(s: Sys) {
    && (forall id | id in s.tickets :: id < s.nextId && s.tickets[id].enqueuedAt <= s.clock)
    && forall i, j | i in s.tickets && j in s.tickets && i < j :: s.tickets[i].enqueuedAt <= s.tickets[j].enqueuedAt
  }

  /** Only an insertion writes an enqueue time. */
  lemma {:induction false} EnqueueTimesStay(cfg: Settings, s: Sys, e: Event, id: Id)
    requires Enabled(cfg, s, e) && id in Next(cfg, s, e).tickets
    ensures id in s.tickets && id < s.nextId ==> Next(cfg, s, e).tickets[id].enqueuedAt == s.tickets[id].enqueuedAt
    ensures id !in s.tickets ==> e.Push? && id == s.nextId && Next(cfg, s, e).tickets[id].enqueuedAt == e.now
  {
    hide LandedRow, CooldownEnd, BackoffEnd, Later, UnderCap, CooldownSpan;
    if Lands(e) && !e.Skip? && s.flight.value.id in s.tickets {
      LandedKeepsPlace(cfg, s, e, s.tickets[s.flight.value.id]);
    }
  }

  lemma LandedKeepsPlace(cfg: Settings, s: Sys, e: Event, t: Ticket)
    requires Enabled(cfg, s, e) && Lands(e) && !e.Skip?
    ensures LandedRow(cfg, s, e, t).enqueuedAt == t.enqueuedAt
  {
    hide CooldownEnd, BackoffEnd, Later, GivesUp, Backoff, CooldownSpan, WaitUntil, RetryAt;
  }

  lemma {:induction false} ClockGrows(cfg: Settings, s: Sys, e: Event)
    requires Enabled(cfg, s, e)
    ensures s.clock <= Next(cfg, s, e).clock && s.nextId <= Next(cfg, s, e).nextId
    ensures e.Push? ==> s.clock <= e.now == Next(cfg, s, e).clock
    ensures e.Push? && !Tracked(s.tickets, e.repo, e.pr) ==> Next(cfg, s, e).nextId == s.nextId + 1
  {
    hide LandedRow, CooldownEnd, BackoffEnd, Later, UnderCap, CooldownSpan;
  }

  lemma {:induction false} OrderStep(cfg: Settings, s: Sys, e: Event)
    requires Enabled(cfg, s, e) && InOrder(s)
    ensures InOrder(Next(cfg, s, e))
  {
    hide Next, Enabled;
    var s' := Next(cfg, s, e);
    ClockGrows(cfg, s, e);
    forall id | id in s'.tickets
      ensures s'.tickets[id].enqueuedAt <= s'.clock && id < s'.nextId
      ensures if id in s.tickets then s'.tickets[id].enqueuedAt == s.tickets[id].enqueuedAt
              else id == s.nextId && s'.tickets[id].enqueuedAt >= s.clock
    {
      EnqueueTimesStay(cfg, s, e, id);
      if id !in s.tickets {
        NewRowsAreUntracked(cfg, s, e, id);
      }
    }
  }

  lemma NewRowsAreUntracked(cfg: Settings, s: Sys, e: Event, id: Id)
    requires Enabled(cfg, s, e) && e.Push? && id in Next(cfg, s, e).tickets && id !in s.tickets
    ensures !Tracked(s.tickets, e.repo, e.pr)
  {
    hide CooldownEnd, CooldownSpan;
  }

  lemma {:induction false} AlwaysInOrder(cfg: Settings, tr: seq<Event>)
    requires ValidSettings(cfg) && Legal(cfg, tr)
    ensures InOrder(After(cfg, tr))
    decreases |tr|
  {
    hide Next;
    if tr != [] {
      AlwaysInOrder(cfg, tr[..|tr| - 1]);
      OrderStep(cfg, After(cfg, tr[..|tr| - 1]), tr[|tr| - 1]);
    }
  }

  /** In every reachable state a claim takes, of all due tickets, the one that has been there longest: pushes,
      deferrals, failures and renames never move a ticket in the queue. */
  lemma {:induction false} FirstComeFirstServed(cfg: Settings, tr: seq<Event>, now: Instant)
    requires ValidSettings(cfg) && Legal(cfg, tr) && DueIds(After(cfg, tr).tickets, now) != {}
    ensures var ts := After(cfg, tr).tickets;
            var first := Oldest(ts, DueIds(ts, now));
            && first in DueIds(ts, now)
            && forall id | id in DueIds(ts, now) :: first <= id && ts[first].enqueuedAt <= ts[id].enqueuedAt
  {
    AlwaysInOrder(cfg, tr);
    var ts := After(cfg, tr).tickets;
    var first := Oldest(ts, DueIds(ts, now));
    forall id | id in DueIds(ts, now)
      ensures first <= id && ts[first].enqueuedAt <= ts[id].enqueuedAt
    {
      assert NoLater(ts, first, id);
    }
  }

  // ---- No review without a push ----

  predicate Sleeps(s: Sys, id: Id) {
    id in s.tickets && s.tickets[id].Terminal() && id < s.nextId
  }

  lemma SleepPush(cfg: Settings, s: Sys, e: Event, id: Id)
    requires Enabled(cfg, s, e) && OneTicketPerPr(s.tickets) && e.Push? && Sleeps(s, id)
    requires !PushesTicket(cfg, s, e, id)
    ensures Sleeps(Next(cfg, s, e), id)
  {
    hide CooldownSpan, CooldownEnd;
  }

  lemma SleepLands(cfg: Settings, s: Sys, e: Event, id: Id)
    requires FlightInv(s) && Enabled(cfg, s, e) && Lands(e) && Sleeps(s, id)
    ensures Sleeps(Next(cfg, s, e), id) && !ClaimsTicket(cfg, s, e, id)
  {
    hide CooldownEnd, BackoffEnd, Later, LandedRow;
  }

  lemma SleepElsewhere(cfg: Settings, s: Sys, e: Event, id: Id)
    requires Enabled(cfg, s, e) && !e.Push? && !Lands(e) && Sleeps(s, id)
    ensures Sleeps(Next(cfg, s, e), id) && !ClaimsTicket(cfg, s, e, id)
  {
    hide CooldownEnd, BackoffEnd, Later, UnderCap;
  }

  /** A finished ticket, done, failed or cancelled, sleeps until a push for its pull request is accepted:
      it stays finished and nothing claims it. */
  lemma {:induction false} NoReviewWithoutPush(cfg: Settings, tr: seq<Event>, i: nat, j: nat, id: Id)
    requires ValidSettings(cfg) && Legal(cfg, tr) && i <= j <= |tr| && Sleeps(At(cfg, tr, i), id)
    requires forall k | i <= k < j :: !PushesTicket(cfg, At(cfg, tr, k), tr[k], id)
    ensures Sleeps(At(cfg, tr, j), id)
    ensures forall k | i <= k < j :: !ClaimsTicket(cfg, At(cfg, tr, k), tr[k], id)
    decreases j
  {
    hide Next, Enabled, Sleeps, After, Legal, PushesTicket, ClaimsTicket;
    if j > i {
      NoReviewWithoutPush(cfg, tr, i, j - 1, id);
      StepAt(cfg, tr, j - 1);
      var s, e := At(cfg, tr, j - 1), tr[j - 1];
      assert !PushesTicket(cfg, s, e, id);
      if e.Push? {
        SleepPush(cfg, s, e, id);
        PushClaimsNothing(cfg, s, e, id);
      } else if Lands(e) {
        SleepLands(cfg, s, e, id);
      } else {
        SleepElsewhere(cfg, s, e, id);
      }
    }
  }

  lemma PushClaimsNothing(cfg: Settings, s: Sys, e: Event, id: Id)
    requires e.Push?
    ensures !ClaimsTicket(cfg, s, e, id)
  {
  }

  /** Closing a pull request puts its waiting ticket to sleep, and a clean finish the one just reviewed. */
  lemma FinishedSleeps(cfg: Settings, s: Sys, e: Event, id: Id)
    requires Inv(cfg, s) && Enabled(cfg, s, e) && id in s.tickets
    requires (e.Close? && s.tickets[id].IsFor(e.repo, e.pr) && s.tickets[id].Queued())
             || (Finalizes(s, e, id) && !s.tickets[id].rereviewRequested)
    ensures Sleeps(Next(cfg, s, e), id)
  {
    hide CooldownEnd, CooldownSpan;
  }

  // ---- Re-reviews are spaced out ----

  /** While the stamp is `last`, ticket `id` cannot be reviewed before `floor`. */
  predicate Spaced(cfg: Settings, s: Sys, id: Id, last: Instant, floor: Instant) {
    id in s.tickets &&
    var t := s.tickets[id];
    && t.lastReviewedAt == Some(last)
    && (s.clock >= floor || last + CooldownSpan(cfg.cooldown, t.cooldownLevel) >= floor)
    && (t.status in {Pending, Running} ==> s.clock >= floor)
    && (t.status in {Deferred, Retrying} ==> t.notBefore.Some? && (t.notBefore.value >= floor || s.clock >= floor))
    && (InFlight(s, id) ==> s.flight.value.now >= floor)
  }

  predicate Finalizes(s: Sys, e: Event, id: Id) {
    e.Complete? && InFlight(s, id)
  }

  /** The review re-arms, or is re-armed, under the escalating cooldown at the ticket's level. */
  ghost predicate ArmsChurn(cfg: Settings, s: Sys, e: Event, id: Id) {
    id in s.tickets &&
    ((Finalizes(s, e, id) && s.tickets[id].rereviewRequested)
     || (e.Push? && s.tickets[id].IsFor(e.repo, e.pr) && IsChurn(s.tickets[id], e.now, cfg.cooldown)))
  }

  lemma {:induction false} SpacedStep(cfg: Settings, s: Sys, e: Event, id: Id, last: Instant, floor: Instant)
    requires ValidSettings(cfg) && Inv(cfg, s) && Enabled(cfg, s, e)
    requires Spaced(cfg, s, id, last, floor)
    requires !Finalizes(s, e, id) && e != ClearVisible(id)
    ensures Spaced(cfg, Next(cfg, s, e), id, last, floor)
  {
    hide Next;
    if Lands(e) && InFlight(s, id) {
      SpacedLands(cfg, s, e, id, last, floor);
    } else if e.Push? {
      SpacedPush(cfg, s, e, id, last, floor);
    } else if e.Claim? || e.Close? || e.Rename? || e.Restart? {
      SpacedMoves(cfg, s, e, id, last, floor);
    } else {
      SpacedElsewhere(cfg, s, e, id, last, floor);
    }
  }

  lemma SpacedElsewhere(cfg: Settings, s: Sys, e: Event, id: Id, last: Instant, floor: Instant)
    requires Enabled(cfg, s, e) && Spaced(cfg, s, id, last, floor) && e != ClearVisible(id)
    requires Notes(e) || e.Start? || e.Record? || e.Abandon? || (Lands(e) && !InFlight(s, id))
    ensures Spaced(cfg, Next(cfg, s, e), id, last, floor)
  {
    hide CooldownEnd, Later, BackoffEnd, UnderCap;
  }

  lemma SpacedMoves(cfg: Settings, s: Sys, e: Event, id: Id, last: Instant, floor: Instant)
    requires Enabled(cfg, s, e) && Spaced(cfg, s, id, last, floor)
    requires e.Claim? || e.Close? || e.Rename? || e.Restart?
    ensures Spaced(cfg, Next(cfg, s, e), id, last, floor)
  {
  }

  function NextLevelOrSame(level: nat): (r: nat)
    ensures r >= level && r >= NextLevel(level)
  {
    if NextLevel(level) >= level then NextLevel(level) else level
  }

  lemma SpacedLands(cfg: Settings, s: Sys, e: Event, id: Id, last: Instant, floor: Instant)
    requires ValidSettings(cfg) && FlightInv(s) && Enabled(cfg, s, e)
    requires Spaced(cfg, s, id, last, floor)
    requires Lands(e) && InFlight(s, id) && !e.Complete?
    ensures Spaced(cfg, Next(cfg, s, e), id, last, floor)
  {
  }

  lemma SpacedPush(cfg: Settings, s: Sys, e: Event, id: Id, last: Instant, floor: Instant)
    requires ValidSettings(cfg) && FlightInv(s) && Enabled(cfg, s, e) && e.Push?
    requires Spaced(cfg, s, id, last, floor) && RowInv(cfg, s, id)
    ensures Spaced(cfg, Next(cfg, s, e), id, last, floor)
  {
    hide EffectiveCooldown, Span;
    var t := s.tickets[id];
    CooldownSpanShape(cfg.cooldown, t.cooldownLevel, NextLevelOrSame(t.cooldownLevel));
    assert t.cooldownLevel <= MAX_COOLDOWN_LEVEL;
  }

  /** A completed review spaces the next one by the base cooldown, and a re-armed one by the
      cooldown of the level it was armed at. */
  lemma FinalizeSpaces(cfg: Settings, s: Sys, e: Event, id: Id)
    requires ValidSettings(cfg) && Inv(cfg, s) && Enabled(cfg, s, e) && Finalizes(s, e, id)
    ensures var now := s.flight.value.now;
            && Spaced(cfg, Next(cfg, s, e), id, now, now + Span(cfg.cooldown.base))
            && (ArmsChurn(cfg, s, e, id) ==>
                  Spaced(cfg, Next(cfg, s, e), id, now, now + CooldownSpan(cfg.cooldown, s.tickets[id].cooldownLevel)))
  {
    hide EffectiveCooldown, Span;
    var level := s.tickets[id].cooldownLevel;
    CooldownSpanShape(cfg.cooldown, level, NextLevelOrSame(level));
    assert level <= MAX_COOLDOWN_LEVEL;
  }

  lemma ChurnPushSpaces(cfg: Settings, s: Sys, e: Event, id: Id, last: Instant)
    requires ValidSettings(cfg) && FlightInv(s) && OneTicketPerPr(s.tickets) && Enabled(cfg, s, e)
    requires e.Push? && ArmsChurn(cfg, s, e, id) && s.tickets[id].lastReviewedAt == Some(last) && RowInv(cfg, s, id)
    ensures Spaced(cfg, Next(cfg, s, e), id, last, last + CooldownSpan(cfg.cooldown, s.tickets[id].cooldownLevel))
  {
    hide EffectiveCooldown, Span;
    var level := s.tickets[id].cooldownLevel;
    CooldownSpanShape(cfg.cooldown, level, NextLevelOrSame(level));
    assert level <= MAX_COOLDOWN_LEVEL;
  }

  /** No completed review of `id`, and no erasure of its stamp, strictly between `i` and `j`. */
  ghost predicate Undisturbed(cfg: Settings, tr: seq<Event>, i: nat, j: nat, id: Id)
    requires Legal(cfg, tr) && j <= |tr|
  {
    forall k | i < k < j :: !Finalizes(At(cfg, tr, k), tr[k], id) && tr[k] != ClearVisible(id)
  }

  lemma {:induction false} StaysSpaced(cfg: Settings, tr: seq<Event>, i: nat, j: nat, id: Id, last: Instant,
                                       floor: Instant)
    requires ValidSettings(cfg) && Legal(cfg, tr) && i < j <= |tr|
    requires Spaced(cfg, At(cfg, tr, i + 1), id, last, floor)
    requires Undisturbed(cfg, tr, i, j, id)
    ensures Spaced(cfg, At(cfg, tr, j), id, last, floor)
    decreases j
  {
    hide Next, Enabled, Spaced, Finalizes, After, Legal;
    if j > i + 1 {
      StaysSpaced(cfg, tr, i, j - 1, id, last, floor);
      StepAt(cfg, tr, j - 1);
      SpacedStep(cfg, At(cfg, tr, j - 1), tr[j - 1], id, last, floor);
    }
  }

  /** Seconds-free distance between the review stamps written at `i` and `j`. */
  ghost function Gap(cfg: Settings, tr: seq<Event>, i: nat, j: nat): int
    requires Legal(cfg, tr) && i < j < |tr|
    requires At(cfg, tr, i).flight.Some? && At(cfg, tr, j).flight.Some?
  {
    At(cfg, tr, j).flight.value.now - At(cfg, tr, i).flight.value.now
  }

  /** Two successive review stamps on one ticket are at least the base cooldown apart, however
      pushes, deferrals, failures, cancellations, skips, renames and restarts fall in between. */
  lemma {:induction false} ReviewsAreSpaced(cfg: Settings, tr: seq<Event>, i: nat, j: nat, id: Id)
    requires ValidSettings(cfg) && Legal(cfg, tr) && i < j < |tr|
    requires Finalizes(At(cfg, tr, i), tr[i], id) && Finalizes(At(cfg, tr, j), tr[j], id)
    requires Undisturbed(cfg, tr, i, j, id)
    ensures Gap(cfg, tr, i, j) >= Span(cfg.cooldown.base)
  {
    hide Next;
    var last := At(cfg, tr, i).flight.value.now;
    StepAt(cfg, tr, i);
    FinalizeSpaces(cfg, At(cfg, tr, i), tr[i], id);
    StaysSpaced(cfg, tr, i, j, id, last, last + Span(cfg.cooldown.base));
  }

  /** If in between the ticket was armed as churn at level `k`, they are at least
      `effective_cooldown(k)` apart. */
  lemma {:induction false} ChurnIsSpacedByItsLevel(cfg: Settings, tr: seq<Event>, i: nat, k: nat, j: nat, id: Id)
    requires ValidSettings(cfg) && Legal(cfg, tr) && i <= k < j < |tr|
    requires Finalizes(At(cfg, tr, i), tr[i], id) && Finalizes(At(cfg, tr, j), tr[j], id)
    requires Undisturbed(cfg, tr, i, j, id) && ArmsChurn(cfg, At(cfg, tr, k), tr[k], id)
    ensures Gap(cfg, tr, i, j) >= CooldownSpan(cfg.cooldown, At(cfg, tr, k).tickets[id].cooldownLevel)
  {
    hide Next;
    var last := At(cfg, tr, i).flight.value.now;
    var floor := last + CooldownSpan(cfg.cooldown, At(cfg, tr, k).tickets[id].cooldownLevel);
    StepAt(cfg, tr, i);
    StepAt(cfg, tr, k);
    FinalizeSpaces(cfg, At(cfg, tr, i), tr[i], id);
    if k > i {
      StaysSpaced(cfg, tr, i, k, id, last, last + Span(cfg.cooldown.base));
      ChurnPushSpaces(cfg, At(cfg, tr, k), tr[k], id, last);
    }
    StaysSpaced(cfg, tr, k, j, id, last, floor);
  }

  // ---- The escalation ----

  /** A push for a new pull request, or for a finished ticket that is past its cooldown. */
  ghost predicate Calms(cfg: Settings, s: Sys, e: Event, id: Id) {
    e.Push? &&
    ((!Tracked(s.tickets, e.repo, e.pr) && id == s.nextId)
     || (id in s.tickets && s.tickets[id].IsFor(e.repo, e.pr) && s.tickets[id].Terminal()
         && !IsChurn(s.tickets[id], e.now, cfg.cooldown)))
  }

  /** How often the ticket was armed as churn since a push last found it new or quiet, up to event `k`. */
  ghost function InARow(cfg: Settings, tr: seq<Event>, k: nat, id: Id): nat
    requires Legal(cfg, tr) && k <= |tr|
    decreases k
  {
    if k == 0 || Calms(cfg, At(cfg, tr, k - 1), tr[k - 1], id) then 0
    else InARow(cfg, tr, k - 1, id) + (if ArmsChurn(cfg, At(cfg, tr, k - 1), tr[k - 1], id) then 1 else 0)
  }

  lemma CalmResets(cfg: Settings, s: Sys, e: Event, id: Id)
    requires Inv(cfg, s) && Enabled(cfg, s, e) && Calms(cfg, s, e, id)
    ensures id in Next(cfg, s, e).tickets && Next(cfg, s, e).tickets[id].cooldownLevel == 0
  {
    hide CooldownSpan;
  }

  lemma LevelPush(cfg: Settings, s: Sys, e: Event, id: Id)
    requires Inv(cfg, s) && Enabled(cfg, s, e) && e.Push? && id in s.tickets && !Calms(cfg, s, e, id)
    ensures var s' := Next(cfg, s, e);
            && id in s'.tickets
            && s'.tickets[id].cooldownLevel ==
                 if !ArmsChurn(cfg, s, e, id) then s.tickets[id].cooldownLevel
                 else if s.tickets[id].cooldownLevel < 30 then s.tickets[id].cooldownLevel + 1 else 30
  {
    hide CooldownSpan, CooldownEnd;
  }

  lemma LevelLands(cfg: Settings, s: Sys, e: Event, id: Id)
    requires FlightInv(s) && Enabled(cfg, s, e) && Lands(e) && id in Next(cfg, s, e).tickets
    ensures id in s.tickets
    ensures Next(cfg, s, e).tickets[id].cooldownLevel ==
              if !ArmsChurn(cfg, s, e, id) then s.tickets[id].cooldownLevel
              else if s.tickets[id].cooldownLevel < 30 then s.tickets[id].cooldownLevel + 1 else 30
  {
    hide CooldownSpan, CooldownEnd, BackoffEnd, Later, GivesUp, WaitUntil, Backoff, Span;
  }

  lemma LevelElsewhere(cfg: Settings, s: Sys, e: Event, id: Id)
    requires Enabled(cfg, s, e) && !e.Push? && !Lands(e) && id in Next(cfg, s, e).tickets
    ensures id in s.tickets && !ArmsChurn(cfg, s, e, id)
    ensures Next(cfg, s, e).tickets[id].cooldownLevel == s.tickets[id].cooldownLevel
  {
    hide CooldownSpan, CooldownEnd, BackoffEnd, Later, UnderCap;
  }

  lemma LevelStep(cfg: Settings, s: Sys, e: Event, id: Id)
    requires Inv(cfg, s) && Enabled(cfg, s, e) && id in Next(cfg, s, e).tickets && !Calms(cfg, s, e, id)
    ensures id in s.tickets
    ensures Next(cfg, s, e).tickets[id].cooldownLevel ==
              if !ArmsChurn(cfg, s, e, id) then s.tickets[id].cooldownLevel
              else if s.tickets[id].cooldownLevel < 30 then s.tickets[id].cooldownLevel + 1 else 30
  {
    hide ArmsChurn;
    if e.Push? {
      if id !in s.tickets {
        NewRowsAreCalm(cfg, s, e, id);
      }
      LevelPush(cfg, s, e, id);
    } else if Lands(e) {
      LevelLands(cfg, s, e, id);
    } else {
      LevelElsewhere(cfg, s, e, id);
    }
  }

  lemma NewRowsAreCalm(cfg: Settings, s: Sys, e: Event, id: Id)
    requires Enabled(cfg, s, e) && id in Next(cfg, s, e).tickets && id !in s.tickets
    ensures Calms(cfg, s, e, id)
  {
    hide Next, Enabled;
    EnqueueTimesStay(cfg, s, e, id);
    NewRowsAreUntracked(cfg, s, e, id);
  }

  function UpTo30(n: nat): nat { if n <= 30 then n else 30 }

  /** Through any run a ticket's level is how often it was armed as churn in a row, up to 30. */
  lemma {:induction false} LevelCountsChurn(cfg: Settings, tr: seq<Event>, k: nat, id: Id)
    requires ValidSettings(cfg) && Legal(cfg, tr) && k <= |tr| && id in At(cfg, tr, k).tickets
    ensures At(cfg, tr, k).tickets[id].cooldownLevel == UpTo30(InARow(cfg, tr, k, id))
    decreases k
  {
    hide Next, Enabled, ArmsChurn, Calms, Legal;
    if k > 0 {
      hide After;
      StepAt(cfg, tr, k - 1);
      var s, e := At(cfg, tr, k - 1), tr[k - 1];
      if Calms(cfg, s, e, id) {
        CalmResets(cfg, s, e, id);
      } else {
        LevelStep(cfg, s, e, id);
        LevelCountsChurn(cfg, tr, k - 1, id);
      }
    }
  }

  /** After `n` churn re-arms in a row the next one keeps the ticket's reviews at least base times factor to
      the `n` apart, up to the cap and to the 30th power. */
  lemma {:induction false} EscalationSpacesReviews(cfg: Settings, tr: seq<Event>, i: nat, k: nat, j: nat, id: Id)
    requires ValidSettings(cfg) && Legal(cfg, tr) && i <= k < j < |tr|
    requires Finalizes(At(cfg, tr, i), tr[i], id) && Finalizes(At(cfg, tr, j), tr[j], id)
    requires Undisturbed(cfg, tr, i, j, id) && ArmsChurn(cfg, At(cfg, tr, k), tr[k], id)
    ensures Gap(cfg, tr, i, j) >= EscalatedSpan(cfg.cooldown, UpTo30(InARow(cfg, tr, k, id)))
  {
    hide Next, Enabled, EscalatedSpan, CooldownSpan;
    LevelCountsChurn(cfg, tr, k, id);
    var n := UpTo30(InARow(cfg, tr, k, id));
    CooldownSpanIs(cfg.cooldown, n, n);
    ChurnIsSpacedByItsLevel(cfg, tr, i, k, j, id);
  }
}
