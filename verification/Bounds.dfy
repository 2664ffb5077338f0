/** The bounds tables of the cooldown triple and the dispatcher's tuning knobs, and the one
    check that readers and writers of either share. */
module Bounds {
  import opened Wrappers

  datatype Bound = NonNegative | Positive | AtLeastOne

  type Table = seq<(string, Bound)>

  /** A database row: a column may be absent or NULL (`None`). */
  type Row = map<string, Option<real>>

  datatype Problem = NotSet(key: string) | OutOfRange(key: string) | BaseExceedsCap(base: real, cap: real)

  const COOLDOWN_BASE := "cooldown_base_seconds"
  const COOLDOWN_CAP := "cooldown_max_seconds"
  const BACKOFF_BASE := "dispatcher_failure_base_backoff_seconds"
  const BACKOFF_CAP := "dispatcher_failure_max_backoff_seconds"

  const COOLDOWN_BOUNDS: Table := [
    (COOLDOWN_BASE, NonNegative),
    (COOLDOWN_CAP, Positive),
    ("cooldown_factor", AtLeastOne)
  ]

  const TUNING_BOUNDS: Table := [
    ("llm_request_timeout_seconds", Positive),
    ("dispatcher_default_retry_after_seconds", NonNegative),
    (BACKOFF_BASE, NonNegative),
    (BACKOFF_CAP, Positive),
    ("dispatcher_max_failure_attempts", AtLeastOne),
    ("dispatcher_max_notice_post_attempts", AtLeastOne),
    ("dispatcher_min_retry_after_seconds", NonNegative),
    ("dispatcher_backoff_jitter_seconds", NonNegative),
    ("dispatcher_notice_sweep_batch_size", AtLeastOne)
  ]

  predicate Holds(b: Bound, v: real) {
    match b
    case NonNegative => v >= 0.0
    case Positive => v > 0.0
    case AtLeastOne => v >= 1.0
  }

  predicate Present(row: Row, key: string) {
    key in row && row[key].Some?
  }

  predicate Satisfied(row: Row, entry: (string, Bound)) {
    Present(row, entry.0) && Holds(entry.1, row[entry.0].value)
  }

  predicate Ordered(row: Row, base: string, cap: string) {
    Present(row, base) && Present(row, cap) ==> row[base].value <= row[cap].value
  }

  /** What `problems` must find empty: every column set and in range, base at most cap. */
  predicate Usable(bounds: Table, row: Row, base: string, cap: string) {
    (forall i | 0 <= i < |bounds| :: Satisfied(row, bounds[i])) && Ordered(row, base, cap)
  }

  /** Every reason `row` is unusable, one entry per failing column, in table order. */
  method Problems(bounds: Table, row: Row, base: string, cap: string) returns (found: seq<Problem>)
    ensures found == [] <==> Usable(bounds, row, base, cap)
    ensures forall i | 0 <= i < |bounds| && !Present(row, bounds[i].0) :: NotSet(bounds[i].0) in found
    ensures forall i | 0 <= i < |bounds| && Present(row, bounds[i].0) && !Satisfied(row, bounds[i]) ::
              OutOfRange(bounds[i].0) in found
    ensures forall p | p in found && p.NotSet? :: !Present(row, p.key)
    ensures forall p | p in found && p.OutOfRange? ::
              exists i :: 0 <= i < |bounds| && bounds[i].0 == p.key && Present(row, p.key) && !Satisfied(row, bounds[i])
  {
    found := [];
    for i := 0 to |bounds|
      invariant found == [] <==> forall j | 0 <= j < i :: Satisfied(row, bounds[j])
      invariant forall j | 0 <= j < i && !Present(row, bounds[j].0) :: NotSet(bounds[j].0) in found
      invariant forall j | 0 <= j < i && Present(row, bounds[j].0) && !Satisfied(row, bounds[j]) ::
                  OutOfRange(bounds[j].0) in found
      invariant forall p | p in found && p.NotSet? :: !Present(row, p.key)
      invariant forall p | p in found && p.OutOfRange? ::
                  exists j :: 0 <= j < i && bounds[j].0 == p.key && Present(row, p.key) && !Satisfied(row, bounds[j])
    {
      var (key, bound) := bounds[i];
      if key !in row || row[key].None? {
        found := found + [NotSet(key)];
      } else if !Holds(bound, row[key].value) {
        found := found + [OutOfRange(key)];
      }
    }
    if base in row && cap in row && row[base].Some? && row[cap].Some? && row[base].value > row[cap].value {
      found := found + [BaseExceedsCap(row[base].value, row[cap].value)];
    }
  }
}
