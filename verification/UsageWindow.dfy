/** The daily usage window of one key slot. */
module UsageWindow {
  import opened Wrappers
  import opened Queue

  const DAY: int := 86_400_000_000

  /** `usage_bucket_start`: the reset instant that opened the window `now` falls in.
      `reset` is the configured time of day in microseconds. */
  function BucketStart(now: Instant, reset: int): Instant {
    var candidate := now / DAY * DAY + reset;
    if now % DAY < reset then candidate - DAY else candidate
  }

  /** Some day's reset instant. */
  predicate OpensWindow(b: Instant, reset: int) {
    (b - reset) % DAY == 0
  }

  predicate InWindow(at: Instant, b: Instant) {
    b <= at < b + DAY
  }

  /** The window of `now` opened at a reset instant and contains `now`; no other window does. */
  lemma WindowsPartitionTime(now: Instant, reset: int, b: Instant)
    requires 0 <= reset < DAY && OpensWindow(b, reset)
    ensures OpensWindow(BucketStart(now, reset), reset)
    ensures InWindow(now, b) <==> b == BucketStart(now, reset)
  {
    var day := now / DAY;
    var start := BucketStart(now, reset);
    var k := if now % DAY < reset then day - 1 else day;
    assert start - reset == k * DAY;
    MultipleHasNoRemainder(k);
    var j := (b - reset) / DAY;
    assert b - reset == j * DAY;
    assert now == day * DAY + now % DAY;
    if InWindow(now, b) {
      assert -DAY < start - b < DAY;
      assert j == k;
    }
  }

  lemma MultipleHasNoRemainder(k: int)
    ensures k * DAY % DAY == 0
  {
  }

  /** The reset instant itself belongs to the new window. */
  lemma ResetOpensNewWindow(b: Instant, reset: int)
    requires 0 <= reset < DAY && OpensWindow(b, reset)
    ensures BucketStart(b, reset) == b
    ensures BucketStart(b - 1, reset) == b - DAY
  {
    WindowsPartitionTime(b, reset, b);
    assert (b - DAY - reset) % DAY == 0;
    WindowsPartitionTime(b - 1, reset, b - DAY);
  }

  /** Tokens `provider`'s `slot` recorded inside the window opened at `b`. */
  function WindowUsage(reviews: seq<Review>, provider: string, slot: int, b: Instant): nat {
    if reviews == [] then 0
    else
      var last := reviews[|reviews| - 1];
      WindowUsage(reviews[..|reviews| - 1], provider, slot, b)
      + (if PaidBy(last, provider, slot) && InWindow(last.createdAt, b) then Tokens(last) else 0)
  }

  /** While nothing is recorded past the window, the query's open-ended sum is the window's sum. */
  lemma {:induction false} QueryCountsWindow(reviews: seq<Review>, provider: string, slot: int, b: Instant)
    requires forall r | r in reviews :: r.createdAt < b + DAY
    ensures KeyUsage(reviews, provider, slot, b) == WindowUsage(reviews, provider, slot, b)
  {
    if reviews != [] {
      assert reviews[|reviews| - 1] in reviews;
      QueryCountsWindow(reviews[..|reviews| - 1], provider, slot, b);
    }
  }

  lemma {:induction false} NothingRecordedYet(reviews: seq<Review>, provider: string, slot: int, b: Instant)
    requires forall r | r in reviews :: r.createdAt < b
    ensures WindowUsage(reviews, provider, slot, b) == 0
  {
    if reviews != [] {
      assert reviews[|reviews| - 1] in reviews;
      NothingRecordedYet(reviews[..|reviews| - 1], provider, slot, b);
    }
  }

  lemma {:induction false} RenameKeepsWindow(reviews: seq<Review>, oldName: string, newName: string,
                                             provider: string, slot: int, b: Instant)
    ensures WindowUsage(RenamedReviews(reviews, oldName, newName), provider, slot, b)
         == WindowUsage(reviews, provider, slot, b)
  {
    if reviews != [] {
      var moved := RenamedReviews(reviews, oldName, newName);
      assert moved[..|moved| - 1] == RenamedReviews(reviews[..|reviews| - 1], oldName, newName);
      RenameKeepsWindow(reviews[..|reviews| - 1], oldName, newName, provider, slot, b);
    }
  }

  lemma AppendToWindow(reviews: seq<Review>, r: Review, provider: string, slot: int, b: Instant)
    ensures WindowUsage(reviews + [r], provider, slot, b)
         == WindowUsage(reviews, provider, slot, b)
            + (if PaidBy(r, provider, slot) && InWindow(r.createdAt, b) then Tokens(r) else 0)
  {
    assert (reviews + [r])[..|reviews|] == reviews;
  }

  /** The end of a window: the first reset instant after `now`, at most a day away. */
  lemma WindowEndsWithinADay(now: Instant, reset: int)
    requires 0 <= reset < 86_400_000_000
    ensures var end := BucketStart(now, reset) + DAY;
            && (end - reset) % 86_400_000_000 == 0 && now < end <= now + 86_400_000_000
            && forall b :: OpensWindow(b, reset) && now < b ==> end <= b
  {
    var end := BucketStart(now, reset) + DAY;
    WindowsPartitionTime(now, reset, end - DAY);
    assert (end - reset) % DAY == 0;
    forall b | OpensWindow(b, reset) && now < b
      ensures end <= b
    {
      assert OpensWindow(b - DAY, reset);
      WindowsPartitionTime(now, reset, b - DAY);
    }
  }
}
