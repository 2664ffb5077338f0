/** The in-memory rate-limit gate, and the schedule of every deferral, over whole runs. */
module RateGate {
  import opened Wrappers
  import opened Cooldown
  import opened Queue
  import opened UsageWindow
  import opened Machine
  import opened Runs

  ghost predicate NoRestart(tr: seq<Event>, i: nat, j: nat)
    requires j <= |tr|
  {
    forall k | i <= k < j :: !tr[k].Restart?
  }

  lemma BlockStep(cfg: Settings, s: Sys, e: Event, provider: string)
    requires ValidSettings(cfg) && Enabled(cfg, s, e) && FlightInv(s) && !e.Restart?
    requires provider in s.blocked
    ensures provider in Next(cfg, s, e).blocked && s.blocked[provider] <= Next(cfg, s, e).blocked[provider]
  {
    if e.Limited? {
      SpanMonotone(0.0, Max(e.retryAfter, cfg.minRetry));
    }
  }

  /** Until the process restarts, a provider's block never moves back. */
  lemma {:induction false} BlocksOnlyGrow(cfg: Settings, tr: seq<Event>, i: nat, j: nat, provider: string)
    requires ValidSettings(cfg) && Legal(cfg, tr) && i <= j <= |tr| && NoRestart(tr, i, j)
    requires provider in At(cfg, tr, i).blocked
    ensures provider in At(cfg, tr, j).blocked
    ensures At(cfg, tr, i).blocked[provider] <= At(cfg, tr, j).blocked[provider]
    decreases j
  {
    hide Next;
    if j > i {
      BlocksOnlyGrow(cfg, tr, i, j - 1, provider);
      StepAt(cfg, tr, j - 1);
      BlockStep(cfg, At(cfg, tr, j - 1), tr[j - 1], provider);
    }
  }

  /** After a provider asked to wait, no review attempt on it starts before the wait is over. */
  lemma {:induction false} NoAttemptBeforeRetryAfter(cfg: Settings, tr: seq<Event>, i: nat, j: nat)
    requires ValidSettings(cfg) && Legal(cfg, tr) && i < j < |tr| && NoRestart(tr, i, j)
    requires tr[i].Limited? && tr[j].Start? && Attempting(At(cfg, tr, i))
    requires tr[j].attempt.provider == At(cfg, tr, i).flight.value.attempt.value.provider
    ensures At(cfg, tr, j).flight.Some?
    ensures At(cfg, tr, j).flight.value.now >= RetryAt(cfg, At(cfg, tr, i).flight.value, tr[i].retryAfter)
    ensures var asked := At(cfg, tr, i).flight.value.now;
            At(cfg, tr, j).flight.value.now >= asked + Span(tr[i].retryAfter) &&
            At(cfg, tr, j).flight.value.now >= asked + Span(cfg.minRetry)
  {
    StepAt(cfg, tr, i);
    StepAt(cfg, tr, j);
    BlocksOnlyGrow(cfg, tr, i + 1, j, tr[j].attempt.provider);
    RetryIsLongEnough(cfg, At(cfg, tr, i).flight.value, tr[i].retryAfter);
  }

  lemma RetryIsLongEnough(cfg: Settings, f: Flight, retryAfter: real)
    ensures RetryAt(cfg, f, retryAfter) >= f.now + Span(retryAfter)
    ensures RetryAt(cfg, f, retryAfter) >= f.now + Span(cfg.minRetry)
    ensures RetryAt(cfg, f, retryAfter) == f.now + Span(retryAfter)
            || RetryAt(cfg, f, retryAfter) == f.now + Span(cfg.minRetry)
  {
    hide Span;
    SpanMonotone(retryAfter, Max(retryAfter, cfg.minRetry));
    SpanMonotone(cfg.minRetry, Max(retryAfter, cfg.minRetry));
  }

  /** How long each wait is: a minute for missing configuration, up to the next reset instant for the cap,
      up to the end of the provider's block. */
  lemma {:induction false} WaitsAre(cfg: Settings, tr: seq<Event>, k: nat)
    requires ValidSettings(cfg) && Legal(cfg, tr) && k < |tr| && tr[k].PutOff?
    ensures var s, s' := At(cfg, tr, k), At(cfg, tr, k + 1);
            && s.flight.Some? && s'.flight.None? && s.flight.value.id in s'.tickets
            && s'.tickets[s.flight.value.id].notBefore.Some?
            && var now, until := s.flight.value.now, s'.tickets[s.flight.value.id].notBefore.value;
               match tr[k].wait
               case Unconfigured => until == now + 60_000_000
               case Capped => OpensWindow(until, cfg.resetTime) && now < until <= now + DAY
                              && s'.tickets[s.flight.value.id].deferReason == Some(UsageCap)
               case Blocked(p) => p in s.blocked && until == s.blocked[p]
  {
    hide After, Legal;
    StepAt(cfg, tr, k);
    var now := At(cfg, tr, k).flight.value.now;
    WindowEndsWithinADay(now, cfg.resetTime);
    AMinute(now);
  }

  lemma AMinute(now: Instant)
    ensures now + Span(UNCONFIGURED_DEFER) == now + 60_000_000
  {
    assert UNCONFIGURED_DEFER * 1_000_000.0 == 60_000_000.0;
  }

  predicate Ahead(t: Ticket, now: Instant) {
    t.status in {Deferred, Retrying} ==> t.notBefore.Some? && t.notBefore.value >= now
  }

  lemma WaitIsAhead(cfg: Settings, s: Sys, w: Wait, now: Instant)
    requires ValidSettings(cfg) && (w.Blocked? ==> IsBlocked(s, w.provider, now))
    ensures WaitUntil(cfg, s, w, now) > now
  {
    WindowsPartitionTime(now, cfg.resetTime, BucketStart(now, cfg.resetTime));
    assert UNCONFIGURED_DEFER * 1_000_000.0 == 60_000_000.0;
  }

  lemma RetryIsAhead(cfg: Settings, f: Flight, retryAfter: real)
    requires ValidSettings(cfg)
    ensures RetryAt(cfg, f, retryAfter) >= f.now
  {
    SpanMonotone(0.0, Max(retryAfter, cfg.minRetry));
  }

  lemma BackoffIsAhead(cfg: Settings, t: Ticket, f: Flight, posted: bool, jitter: real, error: Option<string>)
    requires ValidSettings(cfg) && 0.0 <= jitter
    ensures Ahead(AfterFailure(cfg, t, f, posted, jitter, error), f.now)
  {
    var next := f.snapshot.attempts + 1;
    BackoffShape(cfg.baseBackoff, cfg.maxBackoff, next, next, jitter);
    SpanMonotone(0.0, Backoff(cfg.baseBackoff, cfg.maxBackoff, next, jitter));
  }

  lemma FinalizedAhead(cfg: Settings, t: Ticket, now: Instant, level: nat, comment: Option<int>)
    requires ValidSettings(cfg)
    ensures Ahead(Finalized(t, now, now + CooldownSpan(cfg.cooldown, level), NextLevel(level), comment), now)
  {
    CooldownSpanShape(cfg.cooldown, level, level);
  }

  lemma LandedAhead(cfg: Settings, s: Sys, e: Event, t: Ticket)
    requires ValidSettings(cfg) && Enabled(cfg, s, e) && Lands(e) && !e.Skip?
    ensures Ahead(LandedRow(cfg, s, e, t), s.flight.value.now)
    ensures e.PutOff? ==> LandedRow(cfg, s, e, t).notBefore.value > s.flight.value.now
  {
    var f := s.flight.value;
    match e {
      case PutOff(w) => WaitIsAhead(cfg, s, w, f.now);
      case Limited(retryAfter) => RetryIsAhead(cfg, f, retryAfter);
      case HardFail(posted, jitter, error) => BackoffIsAhead(cfg, t, f, posted, jitter, error);
      case Complete(comment) => FinalizedAhead(cfg, t, f.now, f.snapshot.cooldownLevel, comment);
    }
  }

  lemma SkipDefersNothing(cfg: Settings, s: Sys, e: Event)
    requires Enabled(cfg, s, e) && e.Skip?
    ensures var id, s' := s.flight.value.id, Next(cfg, s, e);
            id in s'.tickets ==> s'.tickets[id].status in {Pending, Done}
  {
  }

  /** However a step ends, its ticket is not scheduled before the step's time: not by a wait, a rate
      limit, a failure or a dirty finalize. A wait for a block, a cap reset or missing configuration
      is strictly after it. */
  lemma {:induction false} DeferralsLieAhead(cfg: Settings, tr: seq<Event>, k: nat)
    requires ValidSettings(cfg) && Legal(cfg, tr) && k < |tr| && Lands(tr[k])
    ensures var s, s' := At(cfg, tr, k), At(cfg, tr, k + 1);
            s.flight.Some? &&
            var f := s.flight.value;
            && (f.id in s'.tickets ==> Ahead(s'.tickets[f.id], f.now))
            && (!tr[k].Skip? ==> f.id in s'.tickets)
            && (tr[k].PutOff? ==> s'.tickets[f.id].status == Deferred && s'.tickets[f.id].notBefore.value > f.now)
  {
    hide LandedRow, Ahead;
    StepAt(cfg, tr, k);
    var s := At(cfg, tr, k);
    if tr[k].Skip? {
      SkipDefersNothing(cfg, s, tr[k]);
      SettledIsAhead(cfg, At(cfg, tr, k + 1), s.flight.value);
    } else {
      LandedAhead(cfg, s, tr[k], s.tickets[s.flight.value.id]);
      PutOffDefers(cfg, s, tr[k], s.tickets[s.flight.value.id]);
    }
  }

  lemma SettledIsAhead(cfg: Settings, s: Sys, f: Flight)
    requires f.id in s.tickets ==> s.tickets[f.id].status in {Pending, Done}
    ensures f.id in s.tickets ==> Ahead(s.tickets[f.id], f.now)
  {
  }

  lemma PutOffDefers(cfg: Settings, s: Sys, e: Event, t: Ticket)
    requires Enabled(cfg, s, e) && Lands(e) && !e.Skip?
    ensures e.PutOff? ==> LandedRow(cfg, s, e, t).status == Deferred && LandedRow(cfg, s, e, t).notBefore.Some?
  {
  }
}
