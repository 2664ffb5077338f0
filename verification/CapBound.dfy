/** The usage cap overshoots by at most one review per window, over whole runs. */
module CapBound {
  import opened Wrappers
  import opened Queue
  import opened UsageWindow
  import opened Machine
  import opened Runs

  /** Serial dispatch: what is on record before a step's own review was recorded by its claim. */
  predicate RecordedBeforeClaim(s: Sys) {
    s.flight.Some? ==>
      && (s.flight.value.attempt.None? ==> !s.flight.value.recorded)
      && (!s.flight.value.recorded ==> forall r | r in s.reviews :: r.createdAt <= s.flight.value.now)
  }

  /** The step in progress may still charge `provider`'s `slot` inside the window opened at `b`. */
  predicate MayCharge(s: Sys, provider: string, slot: int, b: Instant) {
    && Attempting(s) && !s.flight.value.recorded
    && PaysFor(s.flight.value.attempt.value, provider, slot)
    && s.flight.value.now < b + DAY
  }

  predicate Bounded(s: Sys, cap: nat, most: nat, provider: string, slot: int, b: Instant) {
    && WindowUsage(s.reviews, provider, slot, b) <= cap - 1 + most
    && (MayCharge(s, provider, slot, b) ==> WindowUsage(s.reviews, provider, slot, b) <= cap - 1)
  }

  predicate PaysFor(a: Attempt, provider: string, slot: int) {
    a.provider == provider && a.slot == slot
  }

  /** An attempt on this key slot was checked against the cap, and its review costs at most `most`. */
  predicate Charged(s: Sys, e: Event, most: nat, provider: string, slot: int) {
    && (e.Start? && PaysFor(e.attempt, provider, slot) ==> e.attempt.capChecked)
    && (e.Record? && Attempting(s) && PaysFor(s.flight.value.attempt.value, provider, slot) ==>
          e.tokensIn + e.tokensOut <= most)
  }

  lemma RecordedStep(cfg: Settings, s: Sys, e: Event)
    requires Enabled(cfg, s, e) && RecordedBeforeClaim(s)
    requires forall r | r in s.reviews :: r.createdAt <= s.clock
    ensures RecordedBeforeClaim(Next(cfg, s, e))
  {
    if e.Rename? && s.flight.Some? && !s.flight.value.recorded {
      RenamedReviewTimes(s.reviews, e.oldName, e.newName, s.flight.value.now);
    }
  }

  lemma StartIsUnderCap(cfg: Settings, s: Sys, e: Event, b: Instant)
    requires ValidSettings(cfg) && Enabled(cfg, s, e) && e.Start? && e.attempt.capChecked
    requires RecordedBeforeClaim(s) && OpensWindow(b, cfg.resetTime) && s.flight.value.now < b + DAY
    ensures WindowUsage(s.reviews, e.attempt.provider, e.attempt.slot, b) <= cfg.tokenCap.value - 1
  {
    var now := s.flight.value.now;
    WindowsPartitionTime(now, cfg.resetTime, b);
    if now < b {
      NothingRecordedYet(s.reviews, e.attempt.provider, e.attempt.slot, b);
    } else {
      QueryCountsWindow(s.reviews, e.attempt.provider, e.attempt.slot, b);
    }
  }

  lemma StartBounded(cfg: Settings, s: Sys, e: Event, most: nat, provider: string, slot: int, b: Instant)
    requires ValidSettings(cfg) && cfg.tokenCap.Some? && Enabled(cfg, s, e) && e.Start?
    requires PaysFor(e.attempt, provider, slot) ==> e.attempt.capChecked
    requires RecordedBeforeClaim(s) && OpensWindow(b, cfg.resetTime)
    requires Bounded(s, cfg.tokenCap.value, most, provider, slot, b)
    ensures Bounded(Next(cfg, s, e), cfg.tokenCap.value, most, provider, slot, b)
  {
    if s.flight.value.now < b + DAY && PaysFor(e.attempt, provider, slot) {
      StartIsUnderCap(cfg, s, e, b);
    }
  }

  lemma RecordBounded(cfg: Settings, s: Sys, e: Event, most: nat, provider: string, slot: int, b: Instant)
    requires cfg.tokenCap.Some? && Enabled(cfg, s, e) && e.Record? && FlightInv(s)
              && Charged(s, e, most, provider, slot)
    requires Bounded(s, cfg.tokenCap.value, most, provider, slot, b)
    ensures Bounded(Next(cfg, s, e), cfg.tokenCap.value, most, provider, slot, b)
  {
    hide WindowUsage;
    AppendToWindow(s.reviews, Next(cfg, s, e).reviews[|s.reviews|], provider, slot, b);
  }

  lemma OthersRecordNothing(cfg: Settings, s: Sys, e: Event, provider: string, slot: int, b: Instant)
    requires Enabled(cfg, s, e) && !e.Start? && !e.Record?
    ensures WindowUsage(Next(cfg, s, e).reviews, provider, slot, b) == WindowUsage(s.reviews, provider, slot, b)
    ensures MayCharge(Next(cfg, s, e), provider, slot, b) ==> MayCharge(s, provider, slot, b)
  {
    if e.Rename? {
      RenameKeepsWindow(s.reviews, e.oldName, e.newName, provider, slot, b);
    }
  }

  lemma BoundedStep(cfg: Settings, s: Sys, e: Event, most: nat, provider: string, slot: int, b: Instant)
    requires ValidSettings(cfg) && cfg.tokenCap.Some? && Enabled(cfg, s, e) && FlightInv(s)
    requires RecordedBeforeClaim(s) && Charged(s, e, most, provider, slot)
    requires OpensWindow(b, cfg.resetTime)
    requires Bounded(s, cfg.tokenCap.value, most, provider, slot, b)
    ensures Bounded(Next(cfg, s, e), cfg.tokenCap.value, most, provider, slot, b)
  {
    hide Next;
    if e.Start? {
      StartBounded(cfg, s, e, most, provider, slot, b);
    } else if e.Record? {
      RecordBounded(cfg, s, e, most, provider, slot, b);
    } else {
      OthersRecordNothing(cfg, s, e, provider, slot, b);
    }
  }

  ghost predicate AllCharged(cfg: Settings, tr: seq<Event>, most: nat, provider: string, slot: int)
    requires Legal(cfg, tr)
  {
    forall k | 0 <= k < |tr| :: Charged(At(cfg, tr, k), tr[k], most, provider, slot)
  }

  lemma AllChargedBefore(cfg: Settings, tr: seq<Event>, most: nat, provider: string, slot: int)
    requires Legal(cfg, tr) && AllCharged(cfg, tr, most, provider, slot) && tr != []
    ensures AllCharged(cfg, tr[..|tr| - 1], most, provider, slot)
    ensures Charged(After(cfg, tr[..|tr| - 1]), tr[|tr| - 1], most, provider, slot)
  {
    hide Next, Enabled, Charged;
    var before := tr[..|tr| - 1];
    forall k | 0 <= k < |before|
      ensures Charged(At(cfg, before, k), before[k], most, provider, slot)
    {
      assert before[..k] == tr[..k];
      assert Charged(At(cfg, tr, k), tr[k], most, provider, slot);
    }
    assert Charged(At(cfg, tr, |tr| - 1), tr[|tr| - 1], most, provider, slot);
  }

  lemma {:induction false} StaysBounded(cfg: Settings, tr: seq<Event>, most: nat, provider: string, slot: int,
                                        b: Instant)
    requires ValidSettings(cfg) && Legal(cfg, tr) && cfg.tokenCap.Some?
    requires AllCharged(cfg, tr, most, provider, slot) && OpensWindow(b, cfg.resetTime)
    ensures var s := After(cfg, tr);
            && Bounded(s, cfg.tokenCap.value, most, provider, slot, b)
            && RecordedBeforeClaim(s)
    decreases |tr|
  {
    hide Next, Charged;
    if tr != [] {
      var before, e := tr[..|tr| - 1], tr[|tr| - 1];
      AllChargedBefore(cfg, tr, most, provider, slot);
      StaysBounded(cfg, before, most, provider, slot, b);
      AlwaysInv(cfg, before);
      BoundedStep(cfg, After(cfg, before), e, most, provider, slot, b);
      RecordedStep(cfg, After(cfg, before), e);
    }
  }

  /** With cap C, and reviews of at most M tokens on this key slot, the tokens recorded for it within
      any usage window never exceed C - 1 + M: a review that straddles the reset included, whatever
      other slots do. */
  lemma {:induction false} OvershootIsOneReview(cfg: Settings, tr: seq<Event>, most: nat, provider: string, slot: int,
                                                b: Instant)
    requires ValidSettings(cfg) && Legal(cfg, tr) && cfg.tokenCap.Some?
    requires AllCharged(cfg, tr, most, provider, slot) && OpensWindow(b, cfg.resetTime)
    ensures WindowUsage(After(cfg, tr).reviews, provider, slot, b) <= cfg.tokenCap.value - 1 + most
  {
    StaysBounded(cfg, tr, most, provider, slot, b);
  }

  /** Renames aside, history only grows; and a rename loses neither a review nor a token. */
  lemma HistoryIsKept(cfg: Settings, s: Sys, e: Event, provider: string, slot: int, since: Instant)
    requires Enabled(cfg, s, e)
    ensures |Next(cfg, s, e).reviews| == |s.reviews| + (if e.Record? then 1 else 0)
    ensures !e.Record? ==>
              KeyUsage(Next(cfg, s, e).reviews, provider, slot, since) == KeyUsage(s.reviews, provider, slot, since)
  {
    if e.Rename? {
      RenameKeepsUsage(s.reviews, e.oldName, e.newName, provider, slot, since);
    }
  }
}
