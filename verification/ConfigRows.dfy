/** The database rows behind a run's settings: what the bounds tables accept is what the machine assumes. */
module ConfigRows {
  import opened Wrappers
  import opened Bounds
  import opened Cooldown
  import opened Machine
  import opened UsageWindow

  const COOLDOWN_FACTOR := "cooldown_factor"
  const MAX_FAILURES := "dispatcher_max_failure_attempts"
  const MAX_NOTICE_POSTS := "dispatcher_max_notice_post_attempts"
  const MIN_RETRY := "dispatcher_min_retry_after_seconds"
  const JITTER := "dispatcher_backoff_jitter_seconds"

  predicate HasTriple(row: Row) {
    Present(row, COOLDOWN_BASE) && Present(row, COOLDOWN_CAP) && Present(row, COOLDOWN_FACTOR)
  }

  function TripleOf(row: Row): Triple
    requires HasTriple(row)
  {
    Triple(row[COOLDOWN_BASE].value, row[COOLDOWN_CAP].value, row[COOLDOWN_FACTOR].value)
  }

  /** The bounds table accepts exactly the rows that hold a usable triple. */
  lemma {:induction false} CooldownTableIsUsable(row: Row)
    ensures Bounds.Usable(COOLDOWN_BOUNDS, row, COOLDOWN_BASE, COOLDOWN_CAP) <==>
              HasTriple(row) && Cooldown.Usable(TripleOf(row))
  {
    assert COOLDOWN_BOUNDS[0] == (COOLDOWN_BASE, NonNegative);
    assert COOLDOWN_BOUNDS[1] == (COOLDOWN_CAP, Positive);
    assert COOLDOWN_BOUNDS[2] == (COOLDOWN_FACTOR, AtLeastOne);
  }

  predicate Carries(row: Row, key: string, value: real) {
    Present(row, key) && row[key].value == value
  }

  /** The settings a run is under, as its rows spell them. */
  predicate Backs(cooldown: Row, tuning: Row, cfg: Settings) {
    && HasTriple(cooldown) && TripleOf(cooldown) == cfg.cooldown
    && Carries(tuning, MAX_FAILURES, cfg.maxFailures as real)
    && Carries(tuning, MAX_NOTICE_POSTS, cfg.maxNoticePosts as real)
    && Carries(tuning, BACKOFF_BASE, cfg.baseBackoff) && Carries(tuning, BACKOFF_CAP, cfg.maxBackoff)
    && Carries(tuning, MIN_RETRY, cfg.minRetry) && Carries(tuning, JITTER, cfg.maxJitter)
  }

  /** Rows their tables accept, and a usage cap its writers accept, are settings every run theorem holds
      under. */
  lemma {:induction false} AcceptedRowsAreValid(cooldown: Row, tuning: Row, cfg: Settings)
    requires Backs(cooldown, tuning, cfg)
    requires Bounds.Usable(COOLDOWN_BOUNDS, cooldown, COOLDOWN_BASE, COOLDOWN_CAP)
    requires Bounds.Usable(TUNING_BOUNDS, tuning, BACKOFF_BASE, BACKOFF_CAP)
    requires 0 <= cfg.resetTime < DAY && (cfg.tokenCap.Some? ==> cfg.tokenCap.value >= 1)
    ensures ValidSettings(cfg)
  {
    CooldownTableIsUsable(cooldown);
    assert TUNING_BOUNDS[2] == (BACKOFF_BASE, NonNegative);
    assert TUNING_BOUNDS[4] == (MAX_FAILURES, AtLeastOne);
    assert TUNING_BOUNDS[5] == (MAX_NOTICE_POSTS, AtLeastOne);
    assert TUNING_BOUNDS[6] == (MIN_RETRY, NonNegative);
    assert TUNING_BOUNDS[7] == (JITTER, NonNegative);
  }
}
