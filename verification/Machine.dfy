/** The queue as a state machine. Every store call is one atomic event; webhook events may fall
    between any two of the dispatcher's. */
module Machine {
  import opened Wrappers
  import opened Cooldown
  import opened Queue
  import opened UsageWindow
  import Timestamps

  /** Configuration in force for a whole run. `resetTime` is a time of day in microseconds. */
  datatype Settings = Settings(
    cooldown: Triple,
    maxFailures: nat,
    maxNoticePosts: nat,
    baseBackoff: real,
    maxBackoff: real,
    minRetry: real,
    maxJitter: real,
    tokenCap: Option<nat>,
    resetTime: int)

  /** What the bounds tables and the cap's writers accept. */
  predicate ValidSettings(cfg: Settings) {
    && Usable(cfg.cooldown)
    && cfg.maxFailures >= 1 && cfg.maxNoticePosts >= 1
    && 0.0 <= cfg.baseBackoff <= cfg.maxBackoff
    && cfg.minRetry >= 0.0 && cfg.maxJitter >= 0.0
    && 0 <= cfg.resetTime < DAY
    && (cfg.tokenCap.Some? ==> cfg.tokenCap.value >= 1)
  }

  const UNCONFIGURED_DEFER: real := 60.0

  datatype Attempt = Attempt(provider: string, slot: int, capChecked: bool)

  /** The dispatcher's step in progress: the claimed row as it was, and the claim's clock,
      which the whole step reuses. */
  datatype Flight = Flight(id: Id, snapshot: Ticket, now: Instant, attempt: Option<Attempt>, recorded: bool)

  datatype Sys = Sys(
    tickets: Tickets,
    nextId: Id,
    reviews: seq<Review>,
    blocked: map<string, Instant>,
    flight: Option<Flight>,
    clock: Instant)

  const BOOT := Sys(map[], 0, [], map[], None, 0)

  datatype Wait = Unconfigured | Capped | Blocked(provider: string)

  datatype Event =
    // webhook
    | Push(repo: string, pr: nat, sha: Option<string>, provider: string, now: Instant)
    | Close(repo: string, pr: nat, now: Instant)
    // dispatcher
    | Claim(now: Instant)
    | PutOff(wait: Wait)
    | Start(attempt: Attempt)
    | Rename(oldName: string, newName: string, now: Instant)
    | Record(repo: string, pr: nat, tokensIn: nat, tokensOut: nat, commentId: Option<int>, now: Instant)
    | HardFail(posted: bool, jitter: real, error: Option<string>)
    | Skip
    | Limited(retryAfter: real)
    | Complete(comment: Option<int>)
    // comment bookkeeping
    | SetComment(id: Id, commentId: Option<int>)
    | ClearVisible(id: Id)
    | MarkNotice(id: Id, notBefore: Instant)
    | ClearNotice(id: Id)
    // the step's exception escapes and the process lives on
    | Abandon
    // the process dies and `recover_on_startup` runs
    | Restart(now: Instant)

  function WaitUntil(cfg: Settings, s: Sys, w: Wait, now: Instant): Instant
    requires w.Blocked? ==> w.provider in s.blocked
  {
    match w
    case Unconfigured => now + Span(UNCONFIGURED_DEFER)
    case Capped => BucketStart(now, cfg.resetTime) + DAY
    case Blocked(p) => s.blocked[p]
  }

  predicate IsBlocked(s: Sys, provider: string, now: Instant) {
    provider in s.blocked && now < s.blocked[provider]
  }

  predicate UnderCap(cfg: Settings, s: Sys, a: Attempt, now: Instant) {
    cfg.tokenCap.Some? && KeyUsage(s.reviews, a.provider, a.slot, BucketStart(now, cfg.resetTime)) < cfg.tokenCap.value
  }

  predicate Attempting(s: Sys) {
    s.flight.Some? && s.flight.value.attempt.Some?
  }

  /** The date a wait ends at can be computed; a block is one already. */
  predicate WaitComputes(cfg: Settings, w: Wait, now: Instant) {
    match w
    case Unconfigured => Later(now, UNCONFIGURED_DEFER).Some?
    case Capped => Timestamps.Representable(BucketStart(now, cfg.resetTime) + DAY)
    case Blocked(_) => true
  }

  /** The end of the backoff that follows a failure the ticket survives. */
  function RetryEnd(cfg: Settings, f: Flight, jitter: real): Option<Instant> {
    BackoffEnd(cfg.baseBackoff, cfg.maxBackoff, f.now, f.snapshot.attempts + 1, jitter)
  }

  /** An event is a step that went through: a date it cannot compute leaves `Abandon` instead. */
  ghost predicate Enabled(cfg: Settings, s: Sys, e: Event) {
    match e
    case Push(repo, pr, _, _, now) => s.clock <= now && PushComputes(s.tickets, repo, pr, Some(cfg.cooldown))
    case Close(_, _, now) => s.clock <= now
    case Claim(now) => s.clock <= now && s.flight.None? && DueIds(s.tickets, now) != {}
    case PutOff(w) =>
      && s.flight.Some? && s.flight.value.attempt.None?
      && (w.Blocked? ==> IsBlocked(s, w.provider, s.flight.value.now))
      && WaitComputes(cfg, w, s.flight.value.now)
    case Start(a) =>
      && s.flight.Some? && s.flight.value.attempt.None?
      && !IsBlocked(s, a.provider, s.flight.value.now)
      && (a.capChecked ==> UnderCap(cfg, s, a, s.flight.value.now))
    case Rename(o, n, now) => Attempting(s) && o != n && s.clock <= now
    case Record(_, _, _, _, _, now) => Attempting(s) && !s.flight.value.recorded && s.clock <= now
    case HardFail(posted, jitter, _) =>
      && Attempting(s) && !s.flight.value.recorded && 0.0 <= jitter <= cfg.maxJitter
      && (GivesUp(cfg, s.flight.value.snapshot.attempts + 1, posted) || RetryEnd(cfg, s.flight.value, jitter).Some?)
    case Skip => Attempting(s) && !s.flight.value.recorded
    case Limited(retryAfter) =>
      && Attempting(s) && !s.flight.value.recorded
      && Later(s.flight.value.now, Max(retryAfter, cfg.minRetry)).Some?
    case Complete(_) =>
      Attempting(s) &&
      CooldownEnd(Some(cfg.cooldown), s.flight.value.now, s.flight.value.snapshot.cooldownLevel).Some?
    case Abandon => s.flight.Some?
    case Restart(now) => s.clock <= now
    case _ => true
  }

  ghost function Enqueue(s: Sys, repo: string, pr: nat, sha: Option<string>, provider: string, now: Instant,
                         c: Triple): Sys
  {
    if Tracked(s.tickets, repo, pr) then
      var id := Lookup(s.tickets, repo, pr);
      s.(tickets := s.tickets[id := Pushed(s.tickets[id], sha, now, c)], clock := now)
    else
      s.(tickets := s.tickets[s.nextId := Inserted(repo, pr, sha, provider, now)], nextId := s.nextId + 1, clock := now)
  }

  ghost function Cancel(s: Sys, repo: string, pr: nat, now: Instant): Sys {
    if Tracked(s.tickets, repo, pr) then
      var id := Lookup(s.tickets, repo, pr);
      s.(tickets := s.tickets[id := CancelledIfQueued(s.tickets[id], now)], clock := now)
    else s.(clock := now)
  }

  ghost function ClaimOldest(s: Sys, now: Instant): Sys
    requires DueIds(s.tickets, now) != {}
  {
    var id := Oldest(s.tickets, DueIds(s.tickets, now));
    var row := Claimed(s.tickets[id], now);
    s.(tickets := s.tickets[id := row], flight := Some(Flight(id, row, now, None, false)), clock := now)
  }

  /** The hard stop: enough failures, and the notice is posted or has used up its own tries. */
  predicate GivesUp(cfg: Settings, nextAttempt: nat, posted: bool) {
    nextAttempt >= cfg.maxFailures
    && (posted || nextAttempt > cfg.maxFailures + cfg.maxNoticePosts - 2)
  }

  function AfterFailure(cfg: Settings, t: Ticket, f: Flight, posted: bool, jitter: real, error: Option<string>): Ticket
  {
    var next := f.snapshot.attempts + 1;
    if GivesUp(cfg, next, posted) then MarkedFailed(t, f.now, error)
    else Retried(t, f.now + Span(Backoff(cfg.baseBackoff, cfg.maxBackoff, next, jitter)), f.now)
  }

  function RetryAt(cfg: Settings, f: Flight, retryAfter: real): Instant {
    f.now + Span(Max(retryAfter, cfg.minRetry))
  }

  /** The row a step leaves behind when it ends with one UPDATE. */
  function LandedRow(cfg: Settings, s: Sys, e: Event, t: Ticket): Ticket
    requires Enabled(cfg, s, e) && Lands(e) && !e.Skip?
  {
    var f := s.flight.value;
    match e
    case PutOff(w) => PutBack(t, WaitUntil(cfg, s, w, f.now), if w.Capped? then Some(UsageCap) else None, f.now)
    case HardFail(posted, jitter, error) => AfterFailure(cfg, t, f, posted, jitter, error)
    case Limited(retryAfter) => PutBack(t, RetryAt(cfg, f, retryAfter), None, f.now)
    case Complete(comment) =>
      var level := f.snapshot.cooldownLevel;
      Finalized(t, f.now, f.now + CooldownSpan(cfg.cooldown, level), NextLevel(level), comment)
  }

  /** The events that end the dispatcher's step with a store call. */
  predicate Lands(e: Event) {
    e.PutOff? || e.HardFail? || e.Skip? || e.Limited? || e.Complete?
  }

  function Land(cfg: Settings, s: Sys, e: Event): Sys
    requires Enabled(cfg, s, e) && Lands(e) && !e.Skip?
  {
    var id := s.flight.value.id;
    if id in s.tickets then s.(tickets := s.tickets[id := LandedRow(cfg, s, e, s.tickets[id])], flight := None)
    else s.(flight := None)
  }

  function Drop(s: Sys): Sys
    requires s.flight.Some?
  {
    var f := s.flight.value;
    if f.id !in s.tickets then s.(flight := None)
    else match Discarded(s.tickets[f.id], f.now)
      case None => s.(tickets := s.tickets - {f.id}, flight := None)
      case Some(t) => s.(tickets := s.tickets[f.id := t], flight := None)
  }

  /** Comment bookkeeping, which touches neither status nor schedule. */
  predicate Notes(e: Event) {
    e.SetComment? || e.ClearVisible? || e.MarkNotice? || e.ClearNotice?
  }

  function NotedRow(e: Event, t: Ticket): Ticket
    requires Notes(e)
  {
    match e
    case SetComment(_, c) => t.(commentId := if c.Some? then c else t.commentId)
    case ClearVisible(_) => t.(lastReviewedAt := None)
    case MarkNotice(_, nb) => t.(noticeNotBefore := Some(nb))
    case ClearNotice(_) => t.(noticeNotBefore := None)
  }

  function Note(s: Sys, e: Event): Sys
    requires Notes(e)
  {
    if e.id in s.tickets then s.(tickets := s.tickets[e.id := NotedRow(e, s.tickets[e.id])]) else s
  }

  function RecordReview(s: Sys, e: Event): Sys
    requires e.Record? && Attempting(s)
  {
    var a := s.flight.value.attempt.value;
    var review := Review(e.repo, e.pr, a.provider, Some(a.slot), e.now, e.tokensIn, e.tokensOut, e.commentId);
    s.(reviews := s.reviews + [review],
       flight := Some(s.flight.value.(recorded := true)), clock := e.now)
  }

  ghost function Next(cfg: Settings, s: Sys, e: Event): Sys
    requires Enabled(cfg, s, e)
  {
    match e
    case Push(repo, pr, sha, provider, now) => Enqueue(s, repo, pr, sha, provider, now, cfg.cooldown)
    case Close(repo, pr, now) => Cancel(s, repo, pr, now)
    case Claim(now) => ClaimOldest(s, now)
    case PutOff(_) => Land(cfg, s, e)
    case Start(a) => s.(flight := Some(s.flight.value.(attempt := Some(a))))
    case Rename(o, n, now) =>
      s.(tickets := MigratedAll(s.tickets, o, n, now), reviews := RenamedReviews(s.reviews, o, n), clock := now)
    case Record(_, _, _, _, _, _) => RecordReview(s, e)
    case HardFail(_, _, _) => Land(cfg, s, e)
    case Skip => Drop(s)
    case Limited(retryAfter) =>
      var f := s.flight.value;
      Land(cfg, s, e).(blocked := s.blocked[f.attempt.value.provider := RetryAt(cfg, f, retryAfter)])
    case Complete(_) => Land(cfg, s, e)
    case Abandon => s.(flight := None)
    case Restart(now) =>
      Sys(map id | id in s.tickets :: Recovered(s.tickets[id], now), s.nextId, s.reviews, map[], None, now)
    case _ => Note(s, e)
  }

  // ---- Runs ----

  ghost predicate Legal(cfg: Settings, tr: seq<Event>)
    decreases |tr|, 0
  {
    tr == [] ||
    (Legal(cfg, tr[..|tr| - 1]) && Enabled(cfg, After(cfg, tr[..|tr| - 1]), tr[|tr| - 1]))
  }

  /** The state a run from an empty database has reached. */
  ghost function After(cfg: Settings, tr: seq<Event>): Sys
    requires Legal(cfg, tr)
    decreases |tr|, 1
  {
    if tr == [] then BOOT else Next(cfg, After(cfg, tr[..|tr| - 1]), tr[|tr| - 1])
  }

  lemma {:induction false} LegalPrefix(cfg: Settings, tr: seq<Event>, k: nat)
    requires Legal(cfg, tr) && k <= |tr|
    ensures Legal(cfg, tr[..k])
    decreases |tr|
  {
    hide Next;
    if k == |tr| {
      assert tr[..k] == tr;
    } else {
      LegalPrefix(cfg, tr[..|tr| - 1], k);
      assert tr[..|tr| - 1][..k] == tr[..k];
    }
  }

  /** One step of a run. */
  lemma StepOf(cfg: Settings, tr: seq<Event>, k: nat)
    requires Legal(cfg, tr) && k < |tr|
    ensures Legal(cfg, tr[..k]) && Legal(cfg, tr[..k + 1])
    ensures Enabled(cfg, After(cfg, tr[..k]), tr[k])
    ensures After(cfg, tr[..k + 1]) == Next(cfg, After(cfg, tr[..k]), tr[k])
  {
    hide Next;
    LegalPrefix(cfg, tr, k);
    LegalPrefix(cfg, tr, k + 1);
    assert tr[..k + 1][..k] == tr[..k];
  }

  lemma {:induction false} Extend(cfg: Settings, tr: seq<Event>, e: Event)
    requires Legal(cfg, tr) && Enabled(cfg, After(cfg, tr), e)
    ensures Legal(cfg, tr + [e]) && After(cfg, tr + [e]) == Next(cfg, After(cfg, tr), e)
  {
    hide Next, Enabled;
    assert (tr + [e])[..|tr|] == tr;
  }

  // ---- The invariant ----

  ghost predicate RowInv(cfg: Settings, s: Sys, id: Id)
    requires id in s.tickets
  {
    var t := s.tickets[id];
    && id < s.nextId
    && t.cooldownLevel <= MAX_COOLDOWN_LEVEL
    && t.attempts <= cfg.maxFailures + cfg.maxNoticePosts - 2
    && (t.status in {Deferred, Retrying} ==> t.notBefore.Some?)
    && (t.lastReviewedAt.Some? ==> t.lastReviewedAt.value <= s.clock)
  }

  ghost predicate FlightInv(s: Sys)
  {
    s.flight.Some? ==>
      var f := s.flight.value;
      && f.id in s.tickets
      && s.tickets[f.id].status == Running
      && s.tickets[f.id].attempts == f.snapshot.attempts
      && s.tickets[f.id].cooldownLevel == f.snapshot.cooldownLevel
      && f.now <= s.clock
      && (f.attempt.Some? ==> !IsBlocked(s, f.attempt.value.provider, f.now))
  }

  ghost predicate Inv(cfg: Settings, s: Sys) {
    && OneTicketPerPr(s.tickets)
    && (forall id | id in s.tickets :: RowInv(cfg, s, id))
    && FlightInv(s)
    && (forall r | r in s.reviews :: r.createdAt <= s.clock)
  }

  lemma RowsKeepTheirPr(before: Tickets, after: Tickets)
    requires OneTicketPerPr(before) && after.Keys <= before.Keys
    requires forall id | id in after :: after[id].IsFor(before[id].repo, before[id].pr)
    ensures OneTicketPerPr(after)
  {
    forall i, j | i in after && j in after && after[i].IsFor(after[j].repo, after[j].pr)
      ensures i == j
    {
      assert before[i].IsFor(before[j].repo, before[j].pr);
    }
  }

  lemma LandedRowStays(cfg: Settings, s: Sys, e: Event, t: Ticket)
    requires Enabled(cfg, s, e) && Lands(e) && !e.Skip?
    ensures LandedRow(cfg, s, e, t).IsFor(t.repo, t.pr)
  {
    hide CooldownEnd, BackoffEnd, Later, GivesUp, Backoff, CooldownSpan, WaitUntil, RetryAt;
  }

  /** Only an inserting push and a rename change which pull requests the rows are for. */
  lemma {:induction false} RowsStayForTheirPr(cfg: Settings, s: Sys, e: Event)
    requires Enabled(cfg, s, e) && !e.Rename? && !(e.Push? && !Tracked(s.tickets, e.repo, e.pr))
    ensures var after := Next(cfg, s, e).tickets;
            && after.Keys <= s.tickets.Keys
            && forall id | id in after :: after[id].IsFor(s.tickets[id].repo, s.tickets[id].pr)
  {
    hide CooldownEnd, BackoffEnd, Later, UnderCap, PushComputes, KeyUsage, OneTicketPerPr, CooldownSpan, GivesUp,
      LandedRow;
    if Lands(e) && !e.Skip? && s.flight.value.id in s.tickets {
      LandedRowStays(cfg, s, e, s.tickets[s.flight.value.id]);
    }
  }

  /** No event gives a pull request a second ticket. */
  lemma {:induction false} StepKeepsOneTicketPerPr(cfg: Settings, s: Sys, e: Event)
    requires OneTicketPerPr(s.tickets) && Enabled(cfg, s, e)
    ensures OneTicketPerPr(Next(cfg, s, e).tickets)
  {
    hide OneTicketPerPr, CooldownEnd, BackoffEnd, Later, UnderCap, PushComputes, KeyUsage;
    var after := Next(cfg, s, e).tickets;
    if e.Push? && !Tracked(s.tickets, e.repo, e.pr) {
      NewRowForNewPr(s.tickets, s.nextId, after[s.nextId]);
    } else if e.Rename? {
      MigrationKeepsOneTicketPerPr(s.tickets, e.oldName, e.newName, e.now);
    } else {
      RowsStayForTheirPr(cfg, s, e);
      RowsKeepTheirPr(s.tickets, after);
    }
  }

  lemma LandingRowStep(cfg: Settings, s: Sys, e: Event, id: Id)
    requires ValidSettings(cfg) && Enabled(cfg, s, e) && Lands(e) && FlightInv(s)
    requires id in s.tickets && RowInv(cfg, s, id) && id in Next(cfg, s, e).tickets
    ensures RowInv(cfg, Next(cfg, s, e), id)
  {
  }

  lemma PushRowStep(cfg: Settings, s: Sys, e: Event, id: Id)
    requires ValidSettings(cfg) && Enabled(cfg, s, e) && e.Push?
    requires id in s.tickets && RowInv(cfg, s, id)
    ensures RowInv(cfg, Next(cfg, s, e), id)
  {
  }

  lemma OtherRowStep(cfg: Settings, s: Sys, e: Event, id: Id)
    requires Enabled(cfg, s, e) && (e.Close? || e.Claim? || e.Rename? || e.Restart?)
    requires id in s.tickets && RowInv(cfg, s, id)
    ensures RowInv(cfg, Next(cfg, s, e), id)
  {
  }

  lemma {:induction false} RowStep(cfg: Settings, s: Sys, e: Event, id: Id)
    requires ValidSettings(cfg) && Enabled(cfg, s, e) && FlightInv(s)
    requires id in s.tickets && RowInv(cfg, s, id) && id in Next(cfg, s, e).tickets
    ensures RowInv(cfg, Next(cfg, s, e), id)
  {
    if Lands(e) {
      LandingRowStep(cfg, s, e, id);
    } else if e.Push? {
      PushRowStep(cfg, s, e, id);
    } else if e.Close? || e.Claim? || e.Rename? || e.Restart? {
      OtherRowStep(cfg, s, e, id);
    }
  }

  /** Nothing outside the dispatcher's own step takes the claimed row out of `running`. */
  lemma FlightWebhookStep(cfg: Settings, s: Sys, e: Event)
    requires Enabled(cfg, s, e) && FlightInv(s) && (e.Push? || e.Close? || e.Rename?)
    requires s.flight.Some? ==> s.flight.value.id < s.nextId
    ensures FlightInv(Next(cfg, s, e))
  {
  }

  lemma FlightStep(cfg: Settings, s: Sys, e: Event)
    requires Enabled(cfg, s, e) && FlightInv(s)
    requires s.flight.Some? ==> s.flight.value.id < s.nextId
    ensures FlightInv(Next(cfg, s, e))
  {
    if e.Push? || e.Close? || e.Rename? {
      FlightWebhookStep(cfg, s, e);
    } else if Lands(e) || e.Abandon? || e.Restart? {
      assert Next(cfg, s, e).flight.None?;
    }
  }

  lemma {:induction false} RenamedReviewTimes(reviews: seq<Review>, o: string, n: string, at: Instant)
    requires forall r | r in reviews :: r.createdAt <= at
    ensures forall r | r in RenamedReviews(reviews, o, n) :: r.createdAt <= at
  {
    var moved := RenamedReviews(reviews, o, n);
    forall r | r in moved
      ensures r.createdAt <= at
    {
      var i :| 0 <= i < |moved| && moved[i] == r;
      assert reviews[i] in reviews;
    }
  }

  lemma ReviewTimesStep(cfg: Settings, s: Sys, e: Event)
    requires Enabled(cfg, s, e) && forall r | r in s.reviews :: r.createdAt <= s.clock
    ensures var s' := Next(cfg, s, e); s.clock <= s'.clock && forall r | r in s'.reviews :: r.createdAt <= s'.clock
  {
    if e.Rename? {
      RenamedReviewTimes(s.reviews, e.oldName, e.newName, s.clock);
    }
  }

  /** Every event keeps the invariant. */
  lemma {:induction false} StepKeepsInv(cfg: Settings, s: Sys, e: Event)
    requires ValidSettings(cfg) && Inv(cfg, s) && Enabled(cfg, s, e)
    ensures Inv(cfg, Next(cfg, s, e))
  {
    var s' := Next(cfg, s, e);
    StepKeepsOneTicketPerPr(cfg, s, e);
    FlightStep(cfg, s, e);
    ReviewTimesStep(cfg, s, e);
    forall id | id in s'.tickets
      ensures RowInv(cfg, s', id)
    {
      if id in s.tickets {
        RowStep(cfg, s, e, id);
      }
    }
  }

  lemma {:induction false} AlwaysInv(cfg: Settings, tr: seq<Event>)
    requires ValidSettings(cfg) && Legal(cfg, tr)
    ensures Inv(cfg, After(cfg, tr))
    decreases |tr|
  {
    hide Next;
    if tr != [] {
      AlwaysInv(cfg, tr[..|tr| - 1]);
      StepKeepsInv(cfg, After(cfg, tr[..|tr| - 1]), tr[|tr| - 1]);
    }
  }
}
