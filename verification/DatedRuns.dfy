/** What follows over whole runs from clocks that read dates: every instant the store holds is a date, so it
    has a text form the claim works on; and below a horizon no step is ever broken off by a date. */
module DatedRuns {
  import opened Wrappers
  import opened Cooldown
  import opened Queue
  import opened UsageWindow
  import opened Machine
  import opened Runs
  import opened DispatchSpec
  import opened TextClaim
  import Timestamps

  predicate IsDate(at: Instant) {
    Timestamps.Representable(at)
  }

  /** The clock an event reads is at most `horizon`. */
  predicate ClockedBy(e: Event, horizon: Instant) {
    match e
    case Push(_, _, _, _, now) => now <= horizon
    case Close(_, _, now) => now <= horizon
    case Claim(now) => now <= horizon
    case Rename(_, _, now) => now <= horizon
    case Record(_, _, _, _, _, now) => now <= horizon
    case Restart(now) => now <= horizon
    case _ => true
  }

  ghost predicate AllClockedBy(tr: seq<Event>, horizon: Instant) {
    forall e | e in tr :: ClockedBy(e, horizon)
  }

  predicate DatedRow(t: Ticket) {
    && IsDate(t.enqueuedAt)
    && (t.notBefore.Some? ==> IsDate(t.notBefore.value))
    && (t.lastReviewedAt.Some? ==> IsDate(t.lastReviewedAt.value))
  }

  /** Every instant of the state is a date, and none has been read past the horizon. */
  ghost predicate Dated(s: Sys, horizon: Instant) {
    && 0 <= s.clock <= horizon
    && (forall id | id in s.tickets :: DatedRow(s.tickets[id]))
    && (forall p | p in s.blocked :: IsDate(s.blocked[p]))
    && (s.flight.Some? ==> IsDate(s.flight.value.now))
  }

  lemma {:induction false} LandingIsDated(cfg: Settings, s: Sys, e: Event, t: Ticket, horizon: Instant)
    requires Enabled(cfg, s, e) && Lands(e) && !e.Skip? && Dated(s, horizon) && DatedRow(t)
    requires s.flight.Some? ==> t.cooldownLevel == s.flight.value.snapshot.cooldownLevel
    ensures DatedRow(LandedRow(cfg, s, e, t))
  {
    hide Span, EffectiveCooldown, PowerFits, Backoff, GivesUp;
  }

  lemma {:induction false} PushIsDated(cfg: Settings, s: Sys, e: Event, horizon: Instant)
    requires Enabled(cfg, s, e) && e.Push? && Dated(s, horizon) && IsDate(horizon) && ClockedBy(e, horizon)
    ensures Dated(Next(cfg, s, e), horizon)
  {
    hide Span, EffectiveCooldown, PowerFits;
  }

  lemma {:induction false} LandIsDated(cfg: Settings, s: Sys, e: Event, horizon: Instant)
    requires Enabled(cfg, s, e) && FlightInv(s) && Lands(e) && !e.Skip? && Dated(s, horizon)
    ensures Dated(Next(cfg, s, e), horizon)
  {
    hide Span, CooldownEnd, BackoffEnd, UnderCap, LandedRow, CooldownSpan, KeyUsage, DatedRow, WaitComputes;
    LandingIsDated(cfg, s, e, s.tickets[s.flight.value.id], horizon);
  }

  lemma {:induction false} RestIsDated(cfg: Settings, s: Sys, e: Event, horizon: Instant)
    requires Enabled(cfg, s, e) && Dated(s, horizon) && IsDate(horizon) && ClockedBy(e, horizon)
    requires e.Skip? || (!Lands(e) && !e.Push?)
    ensures Dated(Next(cfg, s, e), horizon)
  {
    hide Span, CooldownEnd, BackoffEnd, UnderCap, PushComputes, LandedRow, CooldownSpan, KeyUsage, RetryEnd, GivesUp;
  }

  lemma {:induction false} DatedStep(cfg: Settings, s: Sys, e: Event, horizon: Instant)
    requires Enabled(cfg, s, e) && FlightInv(s) && Dated(s, horizon) && IsDate(horizon) && ClockedBy(e, horizon)
    ensures Dated(Next(cfg, s, e), horizon)
  {
    hide Next, Enabled, Dated, FlightInv;
    if e.Push? {
      PushIsDated(cfg, s, e, horizon);
    } else if Lands(e) && !e.Skip? {
      LandIsDated(cfg, s, e, horizon);
    } else {
      RestIsDated(cfg, s, e, horizon);
    }
  }

  /** In every run whose clocks read dates, every schedule, stamp and block is a date. */
  lemma {:induction false} AlwaysDated(cfg: Settings, tr: seq<Event>, horizon: Instant)
    requires ValidSettings(cfg) && Legal(cfg, tr) && IsDate(horizon) && AllClockedBy(tr, horizon)
    ensures Dated(After(cfg, tr), horizon)
    decreases |tr|
  {
    hide Next, Enabled;
    if tr != [] {
      var before, e := tr[..|tr| - 1], tr[|tr| - 1];
      assert e in tr && forall x | x in before :: x in tr;
      AlwaysDated(cfg, before, horizon);
      AlwaysInv(cfg, before);
      DatedStep(cfg, After(cfg, before), e, horizon);
    }
  }

  // ---- The table as text ----

  lemma DateHasText(at: Instant)
    requires IsDate(at)
    ensures exists text :: Stores(text, at)
  {
    var s := Timestamps.StampOf(at);
    assert Stores(Timestamps.IsoFormat(s), at);
  }

  /** The stored form of a date. */
  ghost function TextOf(at: Instant): (text: string)
    requires IsDate(at)
    ensures Stores(text, at)
  {
    DateHasText(at);
    var text :| Stores(text, at);
    text
  }

  ghost function TextOfRow(t: Ticket): (row: TextRow)
    requires DatedRow(t)
    ensures Represents(row, t)
  {
    TextRow(t.status, if t.notBefore.Some? then Some(TextOf(t.notBefore.value)) else None, TextOf(t.enqueuedAt))
  }

  ghost function TextTable(ts: Tickets): (rows: map<Id, TextRow>)
    requires forall id | id in ts :: DatedRow(ts[id])
    ensures RepresentsAll(rows, ts)
  {
    map id | id in ts :: TextOfRow(ts[id])
  }

  /** In every such run, at any time, the claim query over the table's text selects the tickets that are due
      and takes the one the machine claims. */
  lemma {:induction false} ClaimsRunOnText(cfg: Settings, tr: seq<Event>, horizon: Instant, now: Instant)
    requires ValidSettings(cfg) && Legal(cfg, tr) && IsDate(horizon) && AllClockedBy(tr, horizon) && IsDate(now)
    ensures var ts := After(cfg, tr).tickets;
            && (forall id | id in ts :: DatedRow(ts[id]))
            && var due := TextDueIds(TextTable(ts), TextOf(now));
               && due == DueIds(ts, now)
               && (due != {} ==> TextFirst(TextTable(ts), due, Oldest(ts, DueIds(ts, now))))
  {
    hide Next, Enabled, Legal, After, TextDueIds, DueIds, IsOldest, TextFirst;
    AlwaysDated(cfg, tr, horizon);
    var ts := After(cfg, tr).tickets;
    TextClaimIsClaim(TextTable(ts), ts, TextOf(now), now);
    OnlyKnownAreDue(TextTable(ts), TextOf(now));
  }

  lemma OnlyKnownAreDue(rows: map<Id, TextRow>, now: string)
    ensures TextDueIds(rows, now) <= rows.Keys
  {
  }

  // ---- Below the horizon ----

  /** The event is what the dispatcher or the webhook would do next, whether or not its dates compute. The
      cap's gate is shut only if its end is a date. */
  ghost predicate Attempted(cfg: Settings, s: Sys, e: Event) {
    match e
    case Push(_, _, _, _, now) => s.clock <= now
    case PutOff(w) =>
      && s.flight.Some? && s.flight.value.attempt.None?
      && (w.Blocked? ==> IsBlocked(s, w.provider, s.flight.value.now))
      && (w.Capped? ==> WaitComputes(cfg, w, s.flight.value.now))
    case HardFail(_, jitter, _) => Attempting(s) && !s.flight.value.recorded && 0.0 <= jitter <= cfg.maxJitter
    case Limited(_) => Attempting(s) && !s.flight.value.recorded
    case Complete(_) => Attempting(s)
    case _ => Enabled(cfg, s, e)
  }

  /** No provider asks for longer than `longest`. */
  predicate Modest(e: Event, longest: real) {
    e.Limited? ==> e.retryAfter <= longest
  }

  lemma EarlierIsWithin(cfg: Settings, at: Instant, horizon: Instant, longest: real)
    requires WithinHorizon(cfg, horizon, longest) && 0 <= at <= horizon
    ensures WithinHorizon(cfg, at, longest)
  {
    SpanMonotone(0.0, longest);
  }

  lemma {:induction false} HorizonLetsPushIn(cfg: Settings, s: Sys, e: Event, horizon: Instant, longest: real)
    requires ValidSettings(cfg) && Inv(cfg, s) && Dated(s, horizon) && WithinHorizon(cfg, horizon, longest)
    requires e.Push? && ClockedBy(e, horizon) && s.clock <= e.now
    ensures Enabled(cfg, s, e)
  {
    hide PushComputes, WithinHorizon;
    EarlierIsWithin(cfg, e.now, horizon, longest);
    forall id | id in s.tickets && s.tickets[id].lastReviewedAt.Some?
      ensures IsDate(s.tickets[id].lastReviewedAt.value) && s.tickets[id].lastReviewedAt.value <= e.now
    {
      assert RowInv(cfg, s, id) && DatedRow(s.tickets[id]);
    }
    HorizonLetsPushesIn(cfg, s.tickets, e.repo, e.pr, e.now, longest);
  }

  /** Below the horizon whatever is attempted goes through. */
  lemma {:induction false} HorizonEnables(cfg: Settings, s: Sys, e: Event, horizon: Instant, longest: real)
    requires ValidSettings(cfg) && Inv(cfg, s) && Dated(s, horizon) && WithinHorizon(cfg, horizon, longest)
    requires Attempted(cfg, s, e) && ClockedBy(e, horizon) && Modest(e, longest)
    ensures Enabled(cfg, s, e)
  {
    hide CooldownEnd, BackoffEnd, Span, PowerFits, PushComputes;
    if e.Push? {
      HorizonLetsPushIn(cfg, s, e, horizon, longest);
    } else if s.flight.Some? {
      var f := s.flight.value;
      assert RowInv(cfg, s, f.id);
      EarlierIsWithin(cfg, f.now, horizon, longest);
      match e {
        case PutOff(w) => ShortWaitsFit(f.now, UNCONFIGURED_DEFER, longest);
        case Limited(retryAfter) => ShortWaitsFit(f.now, Max(retryAfter, cfg.minRetry), longest);
        case Complete(_) => HorizonCoversCooldown(cfg, f.now, f.snapshot.cooldownLevel, longest);
        case HardFail(posted, jitter, _) =>
          if !GivesUp(cfg, f.snapshot.attempts + 1, posted) {
            HorizonCoversBackoff(cfg, f.now, f.snapshot.attempts + 1, jitter, longest);
          }
        case _ =>
      }
    }
  }

  /** Something was attempted whose date does not compute. */
  ghost predicate Forced(cfg: Settings, s: Sys, horizon: Instant, longest: real) {
    exists e :: Attempted(cfg, s, e) && ClockedBy(e, horizon) && Modest(e, longest) && !Enabled(cfg, s, e)
  }

  /** No exception escapes a step but for a date. */
  ghost predicate OnlyDatesBreakSteps(cfg: Settings, tr: seq<Event>, horizon: Instant, longest: real)
    requires Legal(cfg, tr)
  {
    forall k | 0 <= k < |tr| && tr[k].Abandon? :: Forced(cfg, At(cfg, tr, k), horizon, longest)
  }

  /** Below the horizon, if steps are broken off by dates alone, none is: every review that completes is
      finalized, and at most one ticket is ever running. */
  lemma {:induction false} HorizonRunsUnbroken(cfg: Settings, tr: seq<Event>, horizon: Instant, longest: real)
    requires ValidSettings(cfg) && Legal(cfg, tr) && WithinHorizon(cfg, horizon, longest) && AllClockedBy(tr, horizon)
    requires OnlyDatesBreakSteps(cfg, tr, horizon, longest)
    ensures Abandon !in tr && Unbroken(tr)
    ensures |RunningIds(After(cfg, tr).tickets)| <= 1
  {
    hide Next, Enabled, Attempted;
    forall k | 0 <= k < |tr|
      ensures !tr[k].Abandon?
    {
      StepAt(cfg, tr, k);
      LegalPrefix(cfg, tr, k);
      assert forall x | x in tr[..k] :: x in tr;
      AlwaysDated(cfg, tr[..k], horizon);
      if Forced(cfg, At(cfg, tr, k), horizon, longest) {
        var e :| Attempted(cfg, At(cfg, tr, k), e) && ClockedBy(e, horizon) && Modest(e, longest)
                 && !Enabled(cfg, At(cfg, tr, k), e);
        HorizonEnables(cfg, At(cfg, tr, k), e, horizon, longest);
      }
    }
    NeverAbandonedIsUnbroken(tr);
    OnlyTheFlightRuns(cfg, tr);
  }

  lemma {:induction false} NeverAbandonedIsUnbroken(tr: seq<Event>)
    requires forall k | 0 <= k < |tr| :: !tr[k].Abandon?
    ensures Unbroken(tr)
    decreases |tr|
  {
    if tr != [] {
      NeverAbandonedIsUnbroken(tr[..|tr| - 1]);
    }
  }
}
