/** What the events one dispatcher step logs can spend, and why the usage bound holds of the live object. */
module Spending {
  import opened Wrappers
  import opened Queue
  import opened UsageWindow
  import opened Machine
  import opened Runs
  import opened CapBound
  import opened DispatchSpec
  import Timestamps

  /** The review a step records is the one its attempt returned. */
  predicate RecordsOutcome(e: Event, w: World) {
    e.Record? ==> w.outcome.Reviewed? && e.tokensIn == w.outcome.tokensIn && e.tokensOut == w.outcome.tokensOut
  }

  predicate RecordsOnly(before: seq<Event>, after: seq<Event>, w: World) {
    before <= after && forall k | |before| <= k < |after| :: !after[k].Start? && RecordsOutcome(after[k], w)
  }

  predicate StartsIn(before: seq<Event>, after: seq<Event>, a: Attempt) {
    exists k :: |before| <= k < |after| && after[k] == Start(a)
  }

  /** The run went on from `before` to `after` with one attempt `a`, or none, and its review. */
  predicate Spends(before: seq<Event>, after: seq<Event>, w: World, a: Option<Attempt>) {
    && before <= after
    && (a.Some? ==> StartsIn(before, after, a.value))
    && forall k | |before| <= k < |after| ::
         (after[k].Start? ==> a == Some(after[k].attempt)) && RecordsOutcome(after[k], w)
  }

  lemma QuietSpendsNothing(before: seq<Event>, after: seq<Event>, w: World)
    requires Quiet(before, after)
    ensures Spends(before, after, w, None) && RecordsOnly(before, after, w)
  {
  }

  lemma StartSpends(before: seq<Event>, mid: seq<Event>, w: World, a: Attempt)
    requires Quiet(before, mid)
    ensures Spends(before, mid + [Start(a)], w, Some(a))
  {
    assert (mid + [Start(a)])[|mid|] == Start(a);
  }

  lemma SpendsAfterQuiet(before: seq<Event>, mid: seq<Event>, after: seq<Event>, w: World, a: Option<Attempt>)
    requires Quiet(before, mid) && Spends(mid, after, w, a)
    ensures Spends(before, after, w, a)
  {
    if a.Some? {
      var k :| |mid| <= k < |after| && after[k] == Start(a.value);
      assert StartsIn(before, after, a.value);
    }
  }

  lemma ClaimSpendsNothing(before: seq<Event>, now: Instant, after: seq<Event>, w: World, a: Option<Attempt>)
    requires Spends(before + [Claim(now)], after, w, a)
    ensures Spends(before, after, w, a)
  {
    SpendsAfterQuiet(before, before + [Claim(now)], after, w, a);
  }

  /** The one attempt of a step, if gates in plain terms let it start, and it was checked if it could be. */
  function TheAttempt(cfg: Settings, s: Sys, w: World, now: Instant): Option<Attempt> {
    if MayStart(cfg, s, w, now) then Some(Attempt(w.provider, w.slot, Passes(cfg, s.reviews, w, now))) else None
  }

  lemma SameAttempt(cfg: Settings, s: Sys, later: Sys, w: World, now: Instant)
    requires later.reviews == s.reviews && later.blocked == s.blocked
    ensures TheAttempt(cfg, later, w, now) == TheAttempt(cfg, s, w, now)
  {
  }

  lemma StartsAreChecked(cfg: Settings, s: Sys, before: seq<Event>, after: seq<Event>, w: World, now: Instant)
    requires Spends(before, after, w, TheAttempt(cfg, s, w, now))
    ensures forall k | |before| <= k < |after| && after[k].Start? ::
              && w.tuningUsable && !(w.provider in s.blocked && now < s.blocked[w.provider])
              && after[k].attempt.provider == w.provider && after[k].attempt.slot == w.slot
              && (Checkable(cfg, w, now) ==>
                    && after[k].attempt.capChecked
                    && KeyUsage(s.reviews, w.provider, w.slot, BucketStart(now, cfg.resetTime)) < cfg.tokenCap.value)
  {
    hide KeyUsage, BucketStart;
  }

  lemma SpendsThenRecords(before: seq<Event>, mid: seq<Event>, after: seq<Event>, w: World, a: Option<Attempt>)
    requires Spends(before, mid, w, a) && RecordsOnly(mid, after, w)
    ensures Spends(before, after, w, a)
  {
    if a.Some? {
      var k :| |before| <= k < |mid| && mid[k] == Start(a.value);
      assert after[k] == Start(a.value);
    }
  }

  lemma RecordsThenQuiet(before: seq<Event>, mid: seq<Event>, after: seq<Event>, w: World)
    requires RecordsOnly(before, mid, w) && Quiet(mid, after)
    ensures RecordsOnly(before, after, w)
  {
  }

  lemma QuietThenQuiet(before: seq<Event>, mid: seq<Event>, after: seq<Event>)
    requires Quiet(before, mid) && Quiet(mid, after)
    ensures Quiet(before, after)
  {
  }

  /** From an idle dispatcher on, whatever attempt is under way was started by a logged event. */
  lemma {:induction false} AttemptWasStarted(cfg: Settings, tr: seq<Event>, i: nat, k: nat, a: Option<Attempt>)
    requires ValidSettings(cfg) && Legal(cfg, tr) && i <= k <= |tr| && At(cfg, tr, i).flight.None?
    requires forall j | i <= j < k :: tr[j].Start? ==> a == Some(tr[j].attempt)
    ensures Attempting(At(cfg, tr, k)) ==> At(cfg, tr, k).flight.value.attempt == a
    decreases k
  {
    hide Next, Enabled, After, Legal;
    if k > i {
      AttemptWasStarted(cfg, tr, i, k - 1, a);
      StepAt(cfg, tr, k - 1);
      if Attempting(At(cfg, tr, k)) {
        AttemptStep(cfg, At(cfg, tr, k - 1), tr[k - 1]);
      }
    }
  }

  lemma AttemptStep(cfg: Settings, s: Sys, e: Event)
    requires Enabled(cfg, s, e) && Attempting(Next(cfg, s, e))
    ensures var a := Next(cfg, s, e).flight.value.attempt;
            if e.Start? then a == Some(e.attempt) else Attempting(s) && a == s.flight.value.attempt
  {
    hide CooldownEnd, BackoffEnd, Later, UnderCap, LandedRow;
  }

  /** A step whose attempt was checked, and whose review costs no more than `most`, keeps every attempt and
      review on this key slot paid for. */
  lemma {:induction false} ChargedFurther(cfg: Settings, before: seq<Event>, after: seq<Event>, w: World,
                                          a: Option<Attempt>, most: nat, provider: string, slot: int)
    requires ValidSettings(cfg) && Legal(cfg, before) && Legal(cfg, after)
    requires Spends(before, after, w, a) && After(cfg, before).flight.None?
    requires AllCharged(cfg, before, most, provider, slot)
    requires a.Some? && PaysFor(a.value, provider, slot) ==>
               a.value.capChecked && (w.outcome.Reviewed? ==> w.outcome.tokensIn + w.outcome.tokensOut <= most)
    ensures AllCharged(cfg, after, most, provider, slot)
  {
    hide Next, Enabled, After, Legal;
    assert after[..|before|] == before;
    forall k | 0 <= k < |after|
      ensures Charged(At(cfg, after, k), after[k], most, provider, slot)
    {
      if k < |before| {
        assert after[..k] == before[..k];
        assert Charged(At(cfg, before, k), before[k], most, provider, slot);
      } else {
        AttemptWasStarted(cfg, after, |before|, k, a);
        assert after[k].Start? ==> a == Some(after[k].attempt);
        assert RecordsOutcome(after[k], w);
      }
    }
  }

  /** One round of the dispatcher's loop. */
  datatype Round =
    | Step(elapsed: nat, world: World, limit: nat, reply: Id -> Reply, asleep: seq<Webhook>)
    | Death(elapsed: nat)

  /** While this key slot is the active one the cap is refreshed, its query answers and no review costs more
      than `most`. */
  predicate WatchesCap(w: World, provider: string, slot: int, most: nat) {
    w.provider == provider && w.slot == slot ==>
      && w.capRefreshed && w.usageQueried
      && (w.outcome.Reviewed? ==> w.outcome.tokensIn + w.outcome.tokensOut <= most)
  }

  /** Between the first and the last day of the calendar such a step's attempt is checked. */
  lemma WatchedStepIsChecked(cfg: Settings, s: Sys, w: World, now: Instant, provider: string, slot: int, most: nat)
    requires ValidSettings(cfg) && cfg.tokenCap.Some? && DAY <= now && Timestamps.Representable(now + DAY)
    requires WatchesCap(w, provider, slot, most)
    ensures var a := TheAttempt(cfg, s, w, now);
            a.Some? && PaysFor(a.value, provider, slot) ==>
              a.value.capChecked && (w.outcome.Reviewed? ==> w.outcome.tokensIn + w.outcome.tokensOut <= most)
  {
    hide KeyUsage, BucketStart;
    WindowEndsWithinADay(now, cfg.resetTime);
  }

  lemma {:induction false} QuietStaysCharged(cfg: Settings, before: seq<Event>, after: seq<Event>, most: nat,
                                             provider: string, slot: int)
    requires ValidSettings(cfg) && Legal(cfg, before) && Legal(cfg, after) && Quiet(before, after)
    requires AllCharged(cfg, before, most, provider, slot)
    ensures AllCharged(cfg, after, most, provider, slot)
  {
    hide Next, Enabled, After, Legal;
    forall k | 0 <= k < |after|
      ensures Charged(At(cfg, after, k), after[k], most, provider, slot)
    {
      if k < |before| {
        assert after[..k] == before[..k];
        assert Charged(At(cfg, before, k), before[k], most, provider, slot);
      }
    }
  }

  /** The logged run of one step, idle or not. */
  lemma {:induction false} StepStaysCharged(cfg: Settings, before: seq<Event>, after: seq<Event>, w: World,
                                            now: Instant, idle: bool, most: nat, provider: string, slot: int)
    requires ValidSettings(cfg) && cfg.tokenCap.Some? && DAY <= now && (!idle ==> Timestamps.Representable(now + DAY))
    requires Legal(cfg, before) && Legal(cfg, after) && After(cfg, before).flight.None?
    requires Spends(before, after, w, if idle then None else TheAttempt(cfg, After(cfg, before), w, now))
    requires WatchesCap(w, provider, slot, most) && AllCharged(cfg, before, most, provider, slot)
    ensures AllCharged(cfg, after, most, provider, slot)
  {
    hide Next, Enabled, After, Legal, Spends, AllCharged, MayStart, Passes, TheAttempt;
    if !idle {
      WatchedStepIsChecked(cfg, After(cfg, before), w, now, provider, slot, most);
    }
    ChargedFurther(cfg, before, after, w, if idle then None else TheAttempt(cfg, After(cfg, before), w, now),
                   most, provider, slot);
  }
}
