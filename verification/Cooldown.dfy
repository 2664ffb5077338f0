/** Waiting times: the escalating per-PR cooldown and the hard-failure backoff.
    Seconds are reals; instants and spans of time are whole microseconds. */
module Cooldown {

  const MAX_COOLDOWN_LEVEL: nat := 30

  datatype Triple = Triple(base: real, cap: real, factor: real)

  predicate Usable(c: Triple) {
    c.base >= 0.0 && c.cap > 0.0 && c.factor >= 1.0 && c.base <= c.cap
  }

  function Min(a: real, b: real): real { if a <= b then a else b }

  function Max(a: real, b: real): real { if a >= b then a else b }

  function Power(x: real, n: nat): real {
    if n == 0 then 1.0 else x * Power(x, n - 1)
  }

  function CappedLevel(level: nat): nat {
    if level <= MAX_COOLDOWN_LEVEL then level else MAX_COOLDOWN_LEVEL
  }

  /** `effective_cooldown`, in seconds. */
  function EffectiveCooldown(c: Triple, level: nat): real {
    Clamp(c.base, Escalated(c, level), c.cap)
  }

  function Clamp(base: real, x: real, cap: real): real {
    Max(base, Min(x, cap))
  }

  /** `next_cooldown_level`: one more each time, up to the top. */
  function NextLevel(level: nat): (next: nat)
    ensures next <= MAX_COOLDOWN_LEVEL
    ensures level < MAX_COOLDOWN_LEVEL ==> next == level + 1
    ensures level >= MAX_COOLDOWN_LEVEL ==> next == MAX_COOLDOWN_LEVEL
  {
    if level + 1 <= MAX_COOLDOWN_LEVEL then level + 1 else MAX_COOLDOWN_LEVEL
  }

  lemma ScaleMonotone(k: real, x: real, y: real)
    requires k >= 0.0 && x <= y
    ensures k * x <= k * y
  {
  }

  function Scale(k: real, x: real): real { k * x }

  lemma ScaleGrows(k: real, x: real, y: real)
    requires k >= 0.0 && 1.0 <= x <= y
    ensures k <= Scale(k, x) <= Scale(k, y)
  {
    ScaleMonotone(k, 1.0, x);
    ScaleMonotone(k, x, y);
  }

  lemma {:induction false} PowerGrows(x: real, m: nat, n: nat)
    requires x >= 1.0 && m <= n
    ensures 1.0 <= Power(x, m) <= Power(x, n)
    decreases n
  {
    if n > 0 {
      if m == n {
        PowerGrows(x, m - 1, n - 1);
      } else {
        PowerGrows(x, m, n - 1);
      }
      ScaleMonotone(Power(x, n - 1), 1.0, x);
    }
  }

  lemma ClampShape(base: real, x: real, y: real, cap: real)
    requires base <= x <= y && base <= cap
    ensures base <= Clamp(base, x, cap) <= Clamp(base, y, cap) <= cap
    ensures Clamp(base, base, cap) == base
  {
  }

  /** `base * factor^min(level, 30)`, before clamping. */
  function Escalated(c: Triple, level: nat): real {
    Scale(c.base, Power(c.factor, CappedLevel(level)))
  }

  /** The cooldown starts at base, never shrinks as the level rises, and stays in [base, cap]. */
  lemma CooldownShape(c: Triple, level: nat, higher: nat)
    requires Usable(c) && level <= higher
    ensures EffectiveCooldown(c, 0) == c.base
    ensures c.base <= EffectiveCooldown(c, level) <= EffectiveCooldown(c, higher) <= c.cap
  {
    assert Escalated(c, 0) == c.base by {
      assert Power(c.factor, 0) == 1.0;
    }
    Scaled(c, level, higher);
    ClampShape(c.base, Escalated(c, level), Escalated(c, higher), c.cap);
  }

  lemma Scaled(c: Triple, level: nat, higher: nat)
    requires Usable(c) && level <= higher
    ensures c.base <= Escalated(c, level) <= Escalated(c, higher)
  {
    var p, q := Power(c.factor, CappedLevel(level)), Power(c.factor, CappedLevel(higher));
    PowerGrows(c.factor, CappedLevel(level), CappedLevel(higher));
    ScaleGrows(c.base, p, q);
  }

  /** In closed form: base times factor to the level, up to the cap. */
  lemma CooldownIs(c: Triple, level: nat, n: nat)
    requires Usable(c) && n == if level <= 30 then level else 30
    ensures EffectiveCooldown(c, level) == Min(Scale(c.base, Power(c.factor, n)), c.cap)
  {
    hide Power, Scale;
    Scaled(c, level, level);
  }

  lemma FlatFromTop(c: Triple, level: nat, top: nat)
    requires Usable(c) && level >= top == 30
    ensures EffectiveCooldown(c, level) == EffectiveCooldown(c, top)
  {
    hide EffectiveCooldown, Power;
    CooldownIs(c, level, top);
    CooldownIs(c, top, top);
  }

  lemma NextPower(k: real, x: real, n: nat)
    ensures Scale(k, Power(x, n + 1)) == Scale(x, Scale(k, Power(x, n)))
  {
    var y := Power(x, n);
    assert Power(x, n + 1) == x * y;
    assert k * (x * y) == x * (k * y);
  }

  /** Multiplying and then capping is capping, multiplying and capping again. */
  lemma CapAfter(factor: real, x: real, capped: real, cap: real)
    requires factor >= 1.0 && cap > 0.0 && capped == Min(x, cap)
    ensures Min(Scale(factor, x), cap) == Min(Scale(factor, capped), cap)
  {
    if x > cap {
      ScaleMonotone(factor, cap, x);
      ScaleMonotone(cap, 1.0, factor);
    }
  }

  lemma Grows(factor: real, x: real)
    requires factor > 1.0 && x > 0.0
    ensures x < Scale(factor, x)
  {
    var more := factor - 1.0;
    assert more * x > 0.0;
    assert (1.0 + more) * x == x + more * x;
  }

  lemma NextLevelUp(c: Triple, level: nat)
    requires Usable(c) && level < 30
    ensures EffectiveCooldown(c, level + 1) == Min(Scale(c.factor, EffectiveCooldown(c, level)), c.cap)
    ensures c.factor > 1.0 && 0.0 < EffectiveCooldown(c, level) < c.cap ==>
              EffectiveCooldown(c, level) < EffectiveCooldown(c, level + 1)
  {
    hide EffectiveCooldown, Power, Scale;
    CooldownIs(c, level, level);
    CooldownIs(c, level + 1, level + 1);
    NextPower(c.base, c.factor, level);
    CapAfter(c.factor, Scale(c.base, Power(c.factor, level)), EffectiveCooldown(c, level), c.cap);
    if c.factor > 1.0 && 0.0 < EffectiveCooldown(c, level) {
      Grows(c.factor, EffectiveCooldown(c, level));
    }
  }

  /** Each level multiplies the cooldown by the factor, up to the cap: with a positive base and a factor
      above 1 it really grows until it is there. From level 30 on it stays the same. */
  lemma {:induction false} CooldownEscalates(c: Triple, level: nat)
    requires Usable(c)
    ensures EffectiveCooldown(c, 0) == c.base
    ensures level < 30 ==> EffectiveCooldown(c, level + 1) == Min(c.factor * EffectiveCooldown(c, level), c.cap)
    ensures level < 30 && c.factor > 1.0 && c.base > 0.0 && EffectiveCooldown(c, level) < c.cap ==>
              EffectiveCooldown(c, level) < EffectiveCooldown(c, level + 1)
    ensures level >= 30 ==> EffectiveCooldown(c, level) == EffectiveCooldown(c, 30)
  {
    hide EffectiveCooldown, Power;
    CooldownShape(c, level, level + 1);
    if level >= 30 {
      FlatFromTop(c, level, 30);
    } else {
      NextLevelUp(c, level);
    }
  }

  // ---- Whole microseconds ----

  /** Round half to even, as `timedelta(seconds=...)` does. */
  function RoundHalfEven(x: real): int {
    var low := x.Floor;
    var rest := x - low as real;
    if rest < 0.5 then low
    else if rest > 0.5 then low + 1
    else if low % 2 == 0 then low else low + 1
  }

  function Span(seconds: real): int {
    RoundHalfEven(seconds * 1_000_000.0)
  }

  /** A span is the nearest whole number of microseconds, the even one of two. */
  lemma SpanIsNearest(seconds: real)
    ensures var d := Span(seconds) as real - seconds * 1_000_000.0;
            -0.5 <= d <= 0.5 && (d == 0.5 || d == -0.5 ==> Span(seconds) % 2 == 0)
  {
  }

  lemma RoundMonotone(x: real, y: real)
    requires x <= y
    ensures RoundHalfEven(x) <= RoundHalfEven(y)
  {
    if x.Floor < y.Floor {
      assert RoundHalfEven(x) <= x.Floor + 1 <= y.Floor <= RoundHalfEven(y);
    }
  }

  lemma SpanMonotone(a: real, b: real)
    requires a <= b
    ensures Span(a) <= Span(b)
    ensures 0.0 <= a ==> 0 <= Span(a)
  {
    RoundMonotone(a * 1_000_000.0, b * 1_000_000.0);
    if 0.0 <= a {
      RoundMonotone(0.0, a * 1_000_000.0);
      assert RoundHalfEven(0.0) == 0;
    }
  }

  function CooldownSpan(c: Triple, level: nat): int {
    Span(EffectiveCooldown(c, level))
  }

  /** Base times factor `n` times, up to the cap, in whole microseconds. */
  function EscalatedSpan(c: Triple, n: nat): int {
    Span(Min(Scale(c.base, Power(c.factor, n)), c.cap))
  }

  lemma CooldownSpanIs(c: Triple, level: nat, n: nat)
    requires Usable(c) && n == if level <= 30 then level else 30
    ensures CooldownSpan(c, level) == EscalatedSpan(c, n)
  {
    hide EffectiveCooldown, Span, Min, Scale;
    CooldownIs(c, level, n);
  }

  lemma CooldownSpanShape(c: Triple, level: nat, higher: nat)
    requires Usable(c) && level <= higher
    ensures 0 <= Span(c.base) <= CooldownSpan(c, level) <= CooldownSpan(c, higher) <= Span(c.cap)
  {
    CooldownShape(c, level, higher);
    SpanMonotone(c.base, EffectiveCooldown(c, level));
    SpanMonotone(EffectiveCooldown(c, level), EffectiveCooldown(c, higher));
    SpanMonotone(EffectiveCooldown(c, higher), c.cap);
  }

  // ---- What the source can compute ----

  /** Floats stop here: a larger power, or a larger integer turned into a float, raises. */
  const FLOAT_LIMIT := Power(2.0, 1024)

  /** `factor ** min(level, 30)` does not raise. */
  predicate PowerFits(c: Triple, level: nat) {
    Power(c.factor, CappedLevel(level)) < FLOAT_LIMIT
  }

  /** `base * 2 ** (attempts - 1)` does not raise. */
  predicate BackoffFits(attempts: nat) {
    attempts <= 1024
  }

  /** What fits at the top level fits at every level. */
  lemma PowerFitsBelow(c: Triple, level: nat, higher: nat)
    requires Usable(c) && level <= higher
    ensures PowerFits(c, higher) ==> PowerFits(c, level)
    ensures PowerFits(c, higher) <== PowerFits(c, MAX_COOLDOWN_LEVEL)
  {
    PowerGrows(c.factor, CappedLevel(level), CappedLevel(higher));
    PowerGrows(c.factor, CappedLevel(higher), MAX_COOLDOWN_LEVEL);
  }

  lemma {:induction false} PowerAdds(x: real, m: nat, n: nat)
    ensures Power(x, m + n) == Power(x, m) * Power(x, n)
    decreases m
  {
    if m > 0 {
      PowerAdds(x, m - 1, n);
      assert x * (Power(x, m - 1) * Power(x, n)) == x * Power(x, m - 1) * Power(x, n);
    }
  }

  lemma {:induction false} SquareOfPower(n: nat)
    requires n >= 1
    ensures var f := Power(2.0, n); 2.0 <= f < Power(2.0, n + n) && Power(f, 1) == f && Power(f, 2) == Power(2.0, n + n)
  {
    var f := Power(2.0, n);
    PowerGrows(2.0, 1, n);
    PowerAdds(2.0, n, n);
    assert Power(f, 2) == f * Power(f, 1) && Power(f, 1) == f * Power(f, 0);
    ScaleMonotone(f, 2.0, f);
  }

  /** A usable triple whose second escalation the source cannot compute. */
  lemma {:induction false} LargeFactorOverflows()
    ensures var c := Triple(1.0, 60.0, Power(2.0, 512)); Usable(c) && PowerFits(c, 1) && !PowerFits(c, 2)
  {
    SquareOfPower(512);
  }

  // ---- Backoff ----

  /** `compute_backoff` for the 1-based failure count. */
  function Backoff(base: real, cap: real, attempts: nat, jitter: real): real
    requires attempts >= 1
  {
    Min(Scale(base, Power(2.0, attempts - 1)), cap) + jitter
  }

  /** Backoff starts at base, is non-decreasing in the failure count and at most cap + jitter. */
  lemma BackoffShape(base: real, cap: real, attempts: nat, later: nat, jitter: real)
    requires 0.0 <= base <= cap && 1 <= attempts <= later
    ensures Backoff(base, cap, 1, jitter) == base + jitter
    ensures base + jitter <= Backoff(base, cap, attempts, jitter) <= Backoff(base, cap, later, jitter) <= cap + jitter
  {
    var p, q := Power(2.0, attempts - 1), Power(2.0, later - 1);
    PowerGrows(2.0, attempts - 1, later - 1);
    ScaleGrows(base, p, q);
    assert Scale(base, Power(2.0, 0)) == base;
  }

  /** Until it reaches its cap the backoff doubles with every failure; jitter comes on top. */
  lemma BackoffDoubles(base: real, cap: real, attempts: nat, jitter: real)
    requires 0.0 <= base <= cap && attempts >= 1
    ensures Backoff(base, cap, attempts + 1, jitter)
         == Min(2.0 * (Backoff(base, cap, attempts, jitter) - jitter), cap) + jitter
  {
    hide Power;
    NextPower(base, 2.0, attempts - 1);
    if base > 0.0 {
      CapAfter(2.0, Scale(base, Power(2.0, attempts - 1)), Backoff(base, cap, attempts, jitter) - jitter, cap);
    }
  }
}
