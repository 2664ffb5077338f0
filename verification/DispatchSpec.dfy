/** What one dispatcher step must do, from the state it starts in and everything it meets, and when it
    leaves its ticket running. */
module DispatchSpec {
  import opened Wrappers
  import opened Cooldown
  import opened Queue
  import opened UsageWindow
  import opened Machine
  import opened Runs
  import opened Notices
  import Timestamps

  /** What a GitHub comment call answers. */
  datatype Reply = Comment(id: int) | NoComment | Raised

  /** What `attempt_review` answers. */
  datatype Outcome =
    | Reviewed(comment: int, tokensIn: nat, tokensOut: nat, recorded: bool)
    | RateLimited(retryAfter: real)
    | NothingToReview
    | Crashed(error: string, installationGone: bool)

  /** A webhook delivery, arriving `elapsed` microseconds after the previous clock reading. */
  datatype Webhook =
    | Trigger(repo: string, pr: nat, sha: Option<string>, provider: string, elapsed: nat)
    | Closed(repo: string, pr: nat, strip: Reply, elapsed: nat)

  /** Everything one dispatcher step meets that is not the queue: refreshes of cached rows,
      GitHub's answers, the review's outcome, and the webhooks that arrive meanwhile. */
  datatype World = World(
    cooldownRefreshed: bool,
    tuningUsable: bool,
    capRefreshed: bool,
    usageQueried: bool,
    provider: string,
    slot: int,
    strip: Reply,
    placeholder: Reply,
    failureNotice: Reply,
    renamedTo: string,
    migrates: bool,
    outcome: Outcome,
    jitter: real,
    elapsed: nat,
    early: seq<Webhook>,
    during: seq<Webhook>,
    late: seq<Webhook>)

  datatype StepResult =
    | Idle
    | Ran(id: Id)
    | PutOffUntil(id: Id)
    | GaveUp(id: Id)
    | Skipped(id: Id)
    | Escaped(id: Id)    // a placeholder could not be posted; the ticket is already deferred
    | Stranded(id: Id)   // a date the step needed could not be computed; the ticket stays running
    | Exited(id: Id)     // the installation is gone: the process ended itself

  /** `_comment_was_recreated`. */
  predicate Recreated(t: Ticket, reply: Reply) {
    t.commentId.Some? && reply.Comment? && reply.id != t.commentId.value
  }

  predicate HasVisibleReview(t: Ticket) {
    t.lastReviewedAt.Some?
  }

  /** The row once GitHub answered a strip: the marker is gone, and so is the visible review if its
      comment is. */
  function Stripped(row: Ticket, t: Ticket, reply: Reply): Ticket {
    row.(noticeNotBefore := None,
         commentId := if reply.Comment? then Some(reply.id) else row.commentId,
         lastReviewedAt := if t.commentId.Some? && reply != Comment(t.commentId.value)
                           then None else row.lastReviewedAt)
  }

  function ReplyId(reply: Reply): Option<int> {
    if reply.Comment? then Some(reply.id) else None
  }

  // ---- What a step must do ----

  predicate CapHit(cfg: Settings, reviews: seq<Review>, w: World, now: Instant) {
    cfg.tokenCap.Some? && KeyUsage(reviews, w.provider, w.slot, BucketStart(now, cfg.resetTime)) >= cfg.tokenCap.value
  }

  /** The window's start, and its end if the cap needs it, are dates, and nothing else raised. */
  predicate CapKnown(cfg: Settings, reviews: seq<Review>, w: World, now: Instant) {
    && cfg.tokenCap.Some? && w.capRefreshed && w.usageQueried
    && Timestamps.Representable(BucketStart(now, cfg.resetTime))
    && (CapHit(cfg, reviews, w, now) ==> Timestamps.Representable(BucketStart(now, cfg.resetTime) + DAY))
  }

  /** The first gate that keeps the claimed ticket from an attempt, in the order they are tried;
      the cap fails open when anything in its check raises. */
  function Gate(cfg: Settings, s: Sys, w: World, now: Instant): (g: Option<Wait>)
    ensures g.Some? && g.value.Blocked? ==> IsBlocked(s, g.value.provider, now)
  {
    if !w.tuningUsable then Some(Unconfigured)
    else if CapKnown(cfg, s.reviews, w, now) && CapHit(cfg, s.reviews, w, now) then Some(Capped)
    else if IsBlocked(s, w.provider, now) then Some(Blocked(w.provider))
    else None
  }

  predicate IsPutOff(s': Sys, id: Id, until: Instant, reason: Option<DeferReason>, attempts: nat) {
    id in s'.tickets &&
    var row := s'.tickets[id];
    row.status == Deferred && row.notBefore == Some(until) && row.deferReason == reason && row.attempts == attempts
  }

  predicate IsRunning(s': Sys, id: Id) {
    id in s'.tickets && s'.tickets[id].status == Running
  }

  /** A placeholder GitHub refuses escapes the step; one is posted only if no review is visible. */
  predicate AnswersWait(t: Ticket, w: World, id: Id, r: StepResult) {
    r == if t.lastReviewedAt.None? && w.placeholder.Raised? then Escaped(id) else PutOffUntil(id)
  }

  /** What a shut gate does to the claimed ticket `t`: no attempt is charged to it. */
  predicate GateLeaves(cfg: Settings, s: Sys, s': Sys, w: World, wait: Wait, now: Instant, id: Id, t: Ticket,
                       r: StepResult)
    requires wait.Blocked? ==> wait.provider in s.blocked
  {
    s'.blocked == s.blocked &&
    if !WaitComputes(cfg, wait, now) then r == Stranded(id) && IsRunning(s', id)
    else
      && AnswersWait(t, w, id, r)
      && IsPutOff(s', id, WaitUntil(cfg, s, wait, now), if wait.Capped? then Some(UsageCap) else None, t.attempts)
  }

  /** Whether the claimed ticket still has a visible review once its schedule notice was stripped. */
  predicate StillReviewed(t: Ticket, w: World) {
    if t.noticeNotBefore.None? || w.strip.Raised? then t.lastReviewedAt.Some?
    else Stripped(t, t, w.strip).lastReviewedAt.Some?
  }

  /** The end of the re-review cooldown, computed from whatever the step cached. */
  function RereviewEnd(cfg: Settings, w: World, now: Instant, t: Ticket): Option<Instant> {
    CooldownEnd(if w.cooldownRefreshed then Some(cfg.cooldown) else None, now, t.cooldownLevel)
  }

  function FailureEnd(cfg: Settings, w: World, now: Instant, t: Ticket): Option<Instant> {
    BackoffEnd(cfg.baseBackoff, cfg.maxBackoff, now, t.attempts + 1, w.jitter)
  }

  predicate StopsForGood(cfg: Settings, w: World, t: Ticket) {
    GivesUp(cfg, t.attempts + 1, !w.failureNotice.Raised?)
  }

  /** What the outcome of an attempt does to it; `dirty` says whether a push arrived since the claim. */
  predicate OutcomeLeaves(cfg: Settings, blocked: map<string, Instant>, s': Sys, w: World, now: Instant,
                          id: Id, t: Ticket, dirty: bool, r: StepResult)
  {
    match w.outcome
    case RateLimited(retryAfter) =>
      var until := Later(now, Max(retryAfter, cfg.minRetry));
      if until.None? then r == Stranded(id) && IsRunning(s', id) && s'.blocked == blocked
      else
        && AnswersWait(t, w, id, r) && s'.blocked == blocked[w.provider := until.value]
        && IsPutOff(s', id, until.value, None, t.attempts)
    case NothingToReview =>
      && r == Skipped(id) && s'.blocked == blocked
      && (id in s'.tickets <==> dirty || StillReviewed(t, w))
      && (id in s'.tickets ==>
            var row := s'.tickets[id];
            row.status == (if dirty then Pending else Done) && row.notBefore.None? && !row.rereviewRequested)
    case Crashed(error, installationGone) =>
      s'.blocked == blocked && id in s'.tickets &&
      var row := s'.tickets[id];
      if installationGone then r == Exited(id) && row.status == Running
      else if StopsForGood(cfg, w, t) then r == GaveUp(id) && row.status == Failed && row.lastError == Some(error)
      else if FailureEnd(cfg, w, now, t).None? then r == Stranded(id) && row.status == Running
      else
        && r == PutOffUntil(id) && row.status == Retrying && row.attempts == t.attempts + 1
        && row.notBefore == FailureEnd(cfg, w, now, t)
    case Reviewed(comment, _, _, _) =>
      s'.blocked == blocked && id in s'.tickets &&
      var row := s'.tickets[id];
      var end := RereviewEnd(cfg, w, now, t);
      if end.None? then r == Stranded(id) && row.status == Running
      else
        && r == Ran(id) && row.lastReviewedAt == Some(now) && row.commentId == Some(comment) && !row.rereviewRequested
        && if dirty
           then
             && row.status == Deferred && row.notBefore == end && row.attempts == 0
             && row.cooldownLevel == NextLevel(t.cooldownLevel)
           else
             && row.status == Done && row.notBefore.None? && row.attempts == t.attempts
             && row.cooldownLevel == t.cooldownLevel
  }

  /** Everything one step does to the ticket it claimed. */
  predicate StepLeaves(cfg: Settings, s: Sys, s': Sys, w: World, now: Instant, dirty: bool, r: StepResult)
    requires !r.Idle? && r.id in s.tickets
  {
    var t := Claimed(s.tickets[r.id], now);
    if Gate(cfg, s, w, now).Some? then GateLeaves(cfg, s, s', w, Gate(cfg, s, w, now).value, now, r.id, t, r)
    else OutcomeLeaves(cfg, s.blocked, s', w, now, r.id, t, dirty, r)
  }

  lemma SameGates(cfg: Settings, s: Sys, later: Sys, w: World, now: Instant)
    requires later.reviews == s.reviews && later.blocked == s.blocked
    ensures Gate(cfg, later, w, now) == Gate(cfg, s, w, now)
  {
  }

  lemma SameGateLeaves(cfg: Settings, s: Sys, later: Sys, s': Sys, w: World, wait: Wait, now: Instant, id: Id,
                       t: Ticket, r: StepResult)
    requires later.blocked == s.blocked && (wait.Blocked? ==> wait.provider in s.blocked)
    ensures GateLeaves(cfg, later, s', w, wait, now, id, t, r) <==> GateLeaves(cfg, s, s', w, wait, now, id, t, r)
  {
  }

  lemma StepLeavesFrom(cfg: Settings, s: Sys, s': Sys, w: World, now: Instant, dirty: bool, id: Id, t: Ticket,
                       r: StepResult)
    requires id in s.tickets && t == Claimed(s.tickets[id], now)
    requires var gate := Gate(cfg, s, w, now);
             if gate.Some? then GateLeaves(cfg, s, s', w, gate.value, now, id, t, r)
             else OutcomeLeaves(cfg, s.blocked, s', w, now, id, t, dirty, r)
    ensures !r.Idle? && r.id == id && StepLeaves(cfg, s, s', w, now, dirty, r)
  {
    hide CooldownEnd, BackoffEnd, Later, CapHit, CapKnown, Gate;
  }

  // ---- The same in plain terms ----

  /** The pre-flight check can be made: a cap is set and was refreshed, the query answers, and both ends of
      the usage window are dates. */
  predicate Checkable(cfg: Settings, w: World, now: Instant) {
    && cfg.tokenCap.Some? && w.capRefreshed && w.usageQueried
    && Timestamps.Representable(BucketStart(now, cfg.resetTime))
    && Timestamps.Representable(BucketStart(now, cfg.resetTime) + DAY)
  }

  /** The key slot has used up the cap in the window `now` falls in. */
  predicate SpentUp(cfg: Settings, s: Sys, w: World, now: Instant) {
    && Checkable(cfg, w, now)
    && KeyUsage(s.reviews, w.provider, w.slot, BucketStart(now, cfg.resetTime)) >= cfg.tokenCap.value
  }

  predicate MayStart(cfg: Settings, s: Sys, w: World, now: Instant) {
    && w.tuningUsable && !SpentUp(cfg, s, w, now)
    && !(w.provider in s.blocked && now < s.blocked[w.provider])
  }

  /** The check was made and passed; it is not made where the window's start is no date. */
  predicate Passes(cfg: Settings, reviews: seq<Review>, w: World, now: Instant) {
    && cfg.tokenCap.Some? && w.capRefreshed && w.usageQueried
    && Timestamps.Representable(BucketStart(now, cfg.resetTime))
    && KeyUsage(reviews, w.provider, w.slot, BucketStart(now, cfg.resetTime)) < cfg.tokenCap.value
  }

  lemma CheckableMeansPassing(cfg: Settings, s: Sys, w: World, now: Instant)
    requires MayStart(cfg, s, w, now) && Checkable(cfg, w, now)
    ensures Passes(cfg, s.reviews, w, now)
  {
  }

  lemma GateIsNone(cfg: Settings, s: Sys, w: World, now: Instant)
    ensures Gate(cfg, s, w, now).None? <==> MayStart(cfg, s, w, now)
    ensures CapKnown(cfg, s.reviews, w, now) && CapHit(cfg, s.reviews, w, now) <==> SpentUp(cfg, s, w, now)
    ensures CapKnown(cfg, s.reviews, w, now) && !CapHit(cfg, s.reviews, w, now) <==> Passes(cfg, s.reviews, w, now)
  {
  }

  /** A key slot that has used up its cap starts nothing: the ticket is put back, with that reason and no
      failure counted, to the next reset instant. */
  lemma {:induction false} CapIsEnforced(cfg: Settings, s: Sys, s': Sys, w: World, now: Instant, dirty: bool,
                                         r: StepResult)
    requires ValidSettings(cfg) && !r.Idle? && r.id in s.tickets && StepLeaves(cfg, s, s', w, now, dirty, r)
    requires w.tuningUsable && Checkable(cfg, w, now)
    requires KeyUsage(s.reviews, w.provider, w.slot, BucketStart(now, cfg.resetTime)) >= cfg.tokenCap.value
    ensures (r.PutOffUntil? || r.Escaped?) && s'.blocked == s.blocked && r.id in s'.tickets
    ensures var row := s'.tickets[r.id];
            && row.status == Deferred && row.deferReason == Some(UsageCap)
            && row.attempts == s.tickets[r.id].attempts && row.notBefore.Some?
            && OpensWindow(row.notBefore.value, cfg.resetTime) && now < row.notBefore.value <= now + DAY
  {
    hide KeyUsage, BucketStart, OutcomeLeaves;
    WindowEndsWithinADay(now, cfg.resetTime);
  }

  /** So does a provider whose block has not run out, and a missing tuning configuration, for a minute. */
  lemma {:induction false} OtherGatesAreEnforced(cfg: Settings, s: Sys, s': Sys, w: World, now: Instant, dirty: bool,
                                                 r: StepResult)
    requires !r.Idle? && r.id in s.tickets && StepLeaves(cfg, s, s', w, now, dirty, r)
    requires !w.tuningUsable ||
             (w.provider in s.blocked && now < s.blocked[w.provider] && !SpentUp(cfg, s, w, now))
    ensures s'.blocked == s.blocked && r.id in s'.tickets
    ensures var row := s'.tickets[r.id];
            if !w.tuningUsable && !Timestamps.Representable(now + 60_000_000)
            then r.Stranded? && row.status == Running
            else
              && (r.PutOffUntil? || r.Escaped?) && row.status == Deferred && row.deferReason.None?
              && row.attempts == s.tickets[r.id].attempts
              && row.notBefore == Some(if w.tuningUsable then s.blocked[w.provider] else now + 60_000_000)
  {
    hide KeyUsage, BucketStart, OutcomeLeaves;
    assert UNCONFIGURED_DEFER * 1_000_000.0 == 60_000_000.0;
  }

  /** A failed attempt, by the ticket's failures so far: below F it is retried, whatever GitHub answers; from
      F on it fails the ticket if the notice was posted, or was refused for the N-th time. */
  lemma {:induction false} HardStopIs(cfg: Settings, s: Sys, s': Sys, w: World, now: Instant, dirty: bool,
                                      r: StepResult)
    requires ValidSettings(cfg) && !r.Idle? && r.id in s.tickets && StepLeaves(cfg, s, s', w, now, dirty, r)
    requires MayStart(cfg, s, w, now) && w.outcome.Crashed? && !w.outcome.installationGone
    ensures r.id in s'.tickets
    ensures var row, failures := s'.tickets[r.id], s.tickets[r.id].attempts + 1;
            if failures < cfg.maxFailures
               || (w.failureNotice.Raised? && failures < cfg.maxFailures + cfg.maxNoticePosts - 1)
            then
              || (r.Stranded? && row.status == Running)
              || (r.PutOffUntil? && row.status == Retrying && row.attempts == failures
                  && row.notBefore == Some(now + Span(Backoff(cfg.baseBackoff, cfg.maxBackoff, failures, w.jitter))))
            else r.GaveUp? && row.status == Failed && row.lastError == Some(w.outcome.error)
  {
    hide KeyUsage, BucketStart, GateLeaves, Backoff, Span;
    GateIsNone(cfg, s, w, now);
  }

  /** A rate limit blocks the provider and defers the ticket to the same instant: at least the Retry-After
      and the configured minimum away, and exactly one of them. */
  lemma {:induction false} RateLimitLeaves(cfg: Settings, s: Sys, s': Sys, w: World, now: Instant, dirty: bool,
                                           r: StepResult, until: Instant)
    requires !r.Idle? && r.id in s.tickets && StepLeaves(cfg, s, s', w, now, dirty, r)
    requires MayStart(cfg, s, w, now) && w.outcome.RateLimited? && !r.Stranded?
    requires until == if w.outcome.retryAfter >= cfg.minRetry then now + Span(w.outcome.retryAfter)
                      else now + Span(cfg.minRetry)
    ensures s'.blocked == s.blocked[w.provider := until] && r.id in s'.tickets
    ensures var row := s'.tickets[r.id];
            && row.status == Deferred && row.deferReason.None? && row.notBefore == Some(until)
            && row.attempts == s.tickets[r.id].attempts
  {
    hide KeyUsage, BucketStart, GateLeaves, Span;
    GateIsNone(cfg, s, w, now);
  }

  /** A completed review with no push since the claim is done; with one it is due again after base times
      factor to its level, capped, one level up; it strands only where that date cannot be computed. */
  lemma {:induction false} ReviewLeaves(cfg: Settings, s: Sys, s': Sys, w: World, now: Instant, dirty: bool,
                                        r: StepResult, n: nat)
    requires ValidSettings(cfg) && !r.Idle? && r.id in s.tickets && StepLeaves(cfg, s, s', w, now, dirty, r)
    requires MayStart(cfg, s, w, now) && w.outcome.Reviewed? && !r.Stranded?
    requires n == s.tickets[r.id].cooldownLevel <= 30
    ensures r.id in s'.tickets && s'.tickets[r.id].lastReviewedAt == Some(now)
    ensures var row := s'.tickets[r.id];
            if !dirty then row.status == Done && row.cooldownLevel == n
            else
              && row.status == Deferred && row.attempts == 0
              && row.notBefore == Some(now + EscalatedSpan(cfg.cooldown, n))
              && row.cooldownLevel == if n < 30 then n + 1 else 30
  {
    hide KeyUsage, BucketStart, GateLeaves, Later, PowerFits, EffectiveCooldown, EscalatedSpan;
    GateIsNone(cfg, s, w, now);
    CooldownEndIs(cfg.cooldown, now, n, n);
  }

  /** A re-review that is scheduled, by a push during the review or by a churn push after it, owes a schedule
      notice up to its time, unless the one shown already says so; marking that schedule as posted pays it. */
  lemma {:induction false} ScheduledReviewOwesNotice(cfg: Settings, s: Sys, e: Event, id: Id, now: Instant)
    requires ValidSettings(cfg) && Inv(cfg, s) && Enabled(cfg, s, e) && ArmsChurn(cfg, s, e, id)
    requires var t := Next(cfg, s, e).tickets[id]; t.notBefore.Some? && now < t.notBefore.value
    ensures var s' := Next(cfg, s, e);
            && (id in Needing(s'.tickets, now) <==> s'.tickets[id].noticeNotBefore != s'.tickets[id].notBefore)
            && id !in Needing(Next(cfg, s', MarkNotice(id, s'.tickets[id].notBefore.value)).tickets, now)
  {
    hide CooldownSpan, CooldownEnd;
  }

  // ---- When a step strands its ticket ----

  /** The date the step needs, of a wait or of an outcome, cannot be computed. */
  predicate Strands(cfg: Settings, s: Sys, w: World, now: Instant, t: Ticket) {
    if Gate(cfg, s, w, now).Some? then !WaitComputes(cfg, Gate(cfg, s, w, now).value, now)
    else match w.outcome
      case RateLimited(retryAfter) => Later(now, Max(retryAfter, cfg.minRetry)).None?
      case NothingToReview => false
      case Crashed(_, installationGone) =>
        !installationGone && !StopsForGood(cfg, w, t) && FailureEnd(cfg, w, now, t).None?
      case Reviewed(_, _, _, _) => RereviewEnd(cfg, w, now, t).None?
  }

  predicate Exits(cfg: Settings, s: Sys, w: World, now: Instant) {
    Gate(cfg, s, w, now).None? && w.outcome.Crashed? && w.outcome.installationGone
  }

  /** A step ends with its ticket running in exactly two ways. */
  lemma {:induction false} RunningOnlyIfStrandedOrExited(cfg: Settings, s: Sys, s': Sys, w: World, now: Instant,
                                                         dirty: bool, r: StepResult)
    requires !r.Idle? && r.id in s.tickets && StepLeaves(cfg, s, s', w, now, dirty, r)
    ensures var t := Claimed(s.tickets[r.id], now);
            && (r.Stranded? <==> Strands(cfg, s, w, now, t))
            && (r.Exited? <==> Exits(cfg, s, w, now))
            && (IsRunning(s', r.id) <==> r.Stranded? || r.Exited?)
  {
    hide CooldownEnd, BackoffEnd, Later, CapHit, CapKnown;
  }

  /** What an operator can check beforehand: every wait the configuration or a provider may ask for,
      counted from `now`, ends within the calendar, and no power overflows on the way. */
  predicate WithinHorizon(cfg: Settings, now: Instant, longest: real) {
    && cfg.cooldown.cap <= longest && cfg.maxBackoff + cfg.maxJitter <= longest && cfg.minRetry <= longest
    && UNCONFIGURED_DEFER <= longest
    && PowerFits(cfg.cooldown, MAX_COOLDOWN_LEVEL) && cfg.maxFailures + cfg.maxNoticePosts - 2 <= 1024
    && Timestamps.Representable(now) && Timestamps.Representable(now + Span(longest))
  }

  lemma ShortWaitsFit(now: Instant, seconds: real, longest: real)
    requires 0.0 <= seconds <= longest
    requires Timestamps.Representable(now) && Timestamps.Representable(now + Span(longest))
    ensures Later(now, seconds).Some?
  {
    SpanMonotone(0.0, seconds);
    SpanMonotone(seconds, longest);
  }

  lemma HorizonCoversCooldown(cfg: Settings, now: Instant, level: nat, longest: real)
    requires ValidSettings(cfg) && WithinHorizon(cfg, now, longest)
    ensures CooldownEnd(Some(cfg.cooldown), now, level).Some?
  {
    hide EffectiveCooldown, Span, PowerFits;
    PowerFitsBelow(cfg.cooldown, level, level);
    CooldownShape(cfg.cooldown, level, level);
    ShortWaitsFit(now, EffectiveCooldown(cfg.cooldown, level), longest);
  }

  lemma HorizonCoversBackoff(cfg: Settings, now: Instant, attempts: nat, jitter: real, longest: real)
    requires ValidSettings(cfg) && WithinHorizon(cfg, now, longest) && 0.0 <= jitter <= cfg.maxJitter
    requires 1 <= attempts <= cfg.maxFailures + cfg.maxNoticePosts - 2
    ensures BackoffEnd(cfg.baseBackoff, cfg.maxBackoff, now, attempts, jitter).Some?
  {
    hide Backoff, Span, PowerFits;
    BackoffShape(cfg.baseBackoff, cfg.maxBackoff, attempts, attempts, jitter);
    ShortWaitsFit(now, Backoff(cfg.baseBackoff, cfg.maxBackoff, attempts, jitter), longest);
  }

  /** Within the horizon, with a cached triple and a Retry-After no longer than it, no step strands its
      ticket. */
  lemma {:induction false} HorizonRulesOutStranding(cfg: Settings, s: Sys, w: World, now: Instant, t: Ticket,
                                                    longest: real)
    requires ValidSettings(cfg) && WithinHorizon(cfg, now, longest) && 0.0 <= w.jitter <= cfg.maxJitter
    requires w.cooldownRefreshed && (w.outcome.RateLimited? ==> w.outcome.retryAfter <= longest)
    ensures !Strands(cfg, s, w, now, t)
  {
    hide CooldownEnd, BackoffEnd, Span, PowerFits;
    ShortWaitsFit(now, UNCONFIGURED_DEFER, longest);
    HorizonCoversCooldown(cfg, now, t.cooldownLevel, longest);
    if w.outcome.RateLimited? {
      ShortWaitsFit(now, Max(w.outcome.retryAfter, cfg.minRetry), longest);
    }
    if w.outcome.Crashed? && !StopsForGood(cfg, w, t) {
      HorizonCoversBackoff(cfg, now, t.attempts + 1, w.jitter, longest);
    }
  }

  /** And an enqueue never raises. */
  lemma {:induction false} HorizonLetsPushesIn(cfg: Settings, ts: Tickets, repo: string, pr: nat, now: Instant,
                                               longest: real)
    requires ValidSettings(cfg) && WithinHorizon(cfg, now, longest)
    requires forall id | id in ts && ts[id].lastReviewedAt.Some? ::
              Timestamps.Representable(ts[id].lastReviewedAt.value)
    requires forall id | id in ts && ts[id].lastReviewedAt.Some? :: ts[id].lastReviewedAt.value <= now
    ensures PushComputes(ts, repo, pr, Some(cfg.cooldown))
  {
    hide CooldownEnd, Span, PowerFits;
    if Tracked(ts, repo, pr) {
      var t := ts[Lookup(ts, repo, pr)];
      if t.lastReviewedAt.Some? {
        SpanMonotone(0.0, longest);
        HorizonCoversCooldown(cfg, t.lastReviewedAt.value, t.cooldownLevel, longest);
      }
    }
  }

  /** Past it one does: a provider that asks for a trillion seconds or more strands the ticket, whatever is
      cached, and leaves the provider unblocked. */
  lemma {:induction false} LongRetryAfterStrands(cfg: Settings, s: Sys, s': Sys, w: World, now: Instant, dirty: bool,
                                                 r: StepResult)
    requires ValidSettings(cfg) && Timestamps.Representable(now) && Gate(cfg, s, w, now).None?
    requires w.outcome.RateLimited? && w.outcome.retryAfter >= 1_000_000_000_000.0
    requires !r.Idle? && r.id in s.tickets && StepLeaves(cfg, s, s', w, now, dirty, r)
    ensures r.Stranded? && IsRunning(s', r.id) && s'.blocked == s.blocked
  {
    TrillionSecondsOverflow(now, Max(w.outcome.retryAfter, cfg.minRetry));
  }

  /** So does a completed review under a cooldown the bounds accept but the calendar does not. */
  lemma {:induction false} LongCooldownStrands(cfg: Settings, s: Sys, w: World, now: Instant, t: Ticket)
    requires ValidSettings(cfg) && Timestamps.Representable(now) && Gate(cfg, s, w, now).None?
    requires cfg.cooldown.base >= 1_000_000_000_000.0 && w.outcome.Reviewed?
    ensures Strands(cfg, s, w, now, t)
  {
    CooldownShape(cfg.cooldown, t.cooldownLevel, t.cooldownLevel);
    TrillionSecondsOverflow(now, EffectiveCooldown(cfg.cooldown, t.cooldownLevel));
  }

  // ---- Runs that grow ----

  /** The run went on from `before` to `after` without the step in progress ending. */
  predicate CarriesOn(before: seq<Event>, after: seq<Event>) {
    before <= after && forall k | |before| <= k < |after| :: !Ends(after[k])
  }

  /** No attempt was started and no review recorded. */
  predicate Quiet(before: seq<Event>, after: seq<Event>) {
    before <= after && forall k | |before| <= k < |after| :: !after[k].Start? && !after[k].Record?
  }

  predicate NoPushes(before: seq<Event>, after: seq<Event>) {
    before <= after && forall k | |before| <= k < |after| :: !after[k].Push?
  }

  lemma {:induction false} CarryingOnKeepsUnbroken(before: seq<Event>, after: seq<Event>)
    requires CarriesOn(before, after)
    ensures Unbroken(after) <==> Unbroken(before)
    decreases |after|
  {
    if |before| == |after| {
      assert before == after;
    } else {
      var front := after[..|after| - 1];
      assert before <= front;
      assert forall k | |before| <= k < |front| :: front[k] == after[k];
      CarryingOnKeepsUnbroken(before, front);
      assert !Ends(after[|after| - 1]);
    }
  }

  lemma UnbrokenStep(before: seq<Event>, e: Event)
    ensures Unbroken(before + [e]) <==> e.Restart? || (!e.Abandon? && Unbroken(before))
  {
    assert (before + [e])[..|before|] == before;
  }

  lemma NothingNew(trace: seq<Event>)
    ensures CarriesOn(trace, trace) && Quiet(trace, trace) && NoPushes(trace, trace)
  {
  }

  lemma NoteCarriesOn(before: seq<Event>, soFar: seq<Event>, e: Event)
    requires CarriesOn(before, soFar) && Quiet(before, soFar) && NoPushes(before, soFar) && Notes(e)
    ensures CarriesOn(before, soFar + [e]) && Quiet(before, soFar + [e]) && NoPushes(before, soFar + [e])
  {
  }

  lemma LandingAddsNoPush(before: seq<Event>, soFar: seq<Event>, e: Event)
    requires NoPushes(before, soFar) && Quiet(before, soFar) && Ends(e)
    ensures NoPushes(before, soFar + [e]) && Quiet(before, soFar + [e])
  {
  }

  lemma StartCarriesOn(before: seq<Event>, a: Attempt)
    ensures CarriesOn(before, before + [Start(a)]) && NoPushes(before, before + [Start(a)])
  {
  }

  /** Events that push nothing leave what was pushed since `i` as it was. */
  lemma {:induction false} SamePushes(cfg: Settings, before: seq<Event>, after: seq<Event>, i: nat, id: Id)
    requires Legal(cfg, before) && Legal(cfg, after) && NoPushes(before, after)
    ensures PushedSince(cfg, after, i, |after|, id) <==> PushedSince(cfg, before, i, |before|, id)
  {
    hide Next, Enabled;
    assert before == after[..|before|];
    if PushedSince(cfg, before, i, |before|, id) {
      var k :| i < k < |before| && PushesTicket(cfg, At(cfg, before, k), before[k], id);
      assert after[..k] == before[..k];
      assert PushesTicket(cfg, At(cfg, after, k), after[k], id);
    }
    if PushedSince(cfg, after, i, |after|, id) {
      var k :| i < k < |after| && PushesTicket(cfg, At(cfg, after, k), after[k], id);
      assert k < |before|;
      assert after[..k] == before[..k];
      assert PushesTicket(cfg, At(cfg, before, k), before[k], id);
    }
  }

  /** Nothing but the step in progress touches a running row's review stamp or status. */
  predicate KeepsRunning(before: Tickets, after: Tickets) {
    forall id | id in before && before[id].status == Running ::
      id in after && after[id].status == Running && after[id].lastReviewedAt == before[id].lastReviewedAt
  }

  /** The flag a landing reads is whether a push arrived since the claim. */
  lemma {:induction false} DirtyAtLanding(cfg: Settings, start: seq<Event>, now: Instant, mid: seq<Event>,
                                          end: seq<Event>, id: Id)
    requires ValidSettings(cfg) && Legal(cfg, start) && Legal(cfg, mid) && Legal(cfg, end)
    requires ClaimsTicket(cfg, After(cfg, start), Claim(now), id)
    requires CarriesOn(start + [Claim(now)], mid) && NoPushes(mid, end)
    ensures id in After(cfg, mid).tickets
    ensures After(cfg, mid).tickets[id].rereviewRequested <==> PushedSince(cfg, end, |start|, |end|, id)
  {
    hide Next, Enabled, ClaimsTicket, After, Legal;
    assert mid[..|start|] == start && mid[|start|] == Claim(now);
    DirtyIffPushed(cfg, mid, |start|, |mid|, id);
    assert mid[..|mid|] == mid;
    SamePushes(cfg, mid, end, |start|, id);
  }

  /** And the stamp it reads is the claimed ticket's, less what stripping its notice took. */
  lemma StampAtLanding(t: Ticket, w: World, claimed: Tickets, before: Tickets, stripped: Tickets, after: Tickets,
                       id: Id)
    requires id in claimed && claimed[id] == t && t.status == Running && KeepsRunning(claimed, before) && id in before
    requires stripped == if t.noticeNotBefore.None? || w.strip.Raised? then before
                         else before[id := Stripped(before[id], t, w.strip)]
    requires KeepsRunning(stripped, after)
    ensures id in after && (after[id].lastReviewedAt.Some? <==> StillReviewed(t, w))
  {
    assert before[id].lastReviewedAt == t.lastReviewedAt && before[id].status == Running;
    assert stripped[id].status == Running;
    assert after[id].lastReviewedAt == stripped[id].lastReviewedAt;
  }

  /** The tickets of a batch whose notice GitHub took. */
  ghost function Taken(batch: seq<Id>, reply: Id -> Reply): set<Id> {
    set id | id in batch && !reply(id).Raised?
  }

  lemma NoneTaken(batch: seq<Id>, reply: Id -> Reply)
    ensures Taken(batch[..0], reply) == {}
  {
  }

  lemma TakenNext(batch: seq<Id>, i: nat, reply: Id -> Reply)
    requires i < |batch| && forall j, k | 0 <= j < k < |batch| :: batch[j] != batch[k]
    ensures batch[i] !in Taken(batch[..i], reply)
    ensures Taken(batch[..i + 1], reply)
         == Taken(batch[..i], reply) + (if reply(batch[i]).Raised? then {} else {batch[i]})
  {
    assert batch[..i + 1] == batch[..i] + [batch[i]];
  }
}
