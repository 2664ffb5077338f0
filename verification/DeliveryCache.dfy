/** The webhook's bounded cache of delivery ids, and the order in which it checks, handles and marks. */
module DeliveryCache {
  import opened Wrappers

  const CAPACITY: nat := 1000

  predicate Distinct<T(==)>(s: seq<T>) {
    forall i, j | 0 <= i < j < |s| :: s[i] != s[j]
  }

  function Without<T(==,!new)>(s: seq<T>, x: T): (r: seq<T>)
    ensures forall y :: y in r <==> y in s && y != x
    ensures x !in s ==> r == s
  {
    if s == [] then [] else (if s[0] == x then [] else [s[0]]) + Without(s[1..], x)
  }

  /** The distinct ids of a history of touches, the most recently touched last. */
  function Recency(history: seq<string>): (r: seq<string>)
    ensures forall y :: y in r <==> y in history
  {
    if history == [] then []
    else
      var last := history[|history| - 1];
      assert history == history[..|history| - 1] + [last];
      Without(Recency(history[..|history| - 1]), last) + [last]
  }

  function LastOf<T>(s: seq<T>, n: nat): seq<T> {
    if |s| <= n then s else s[|s| - n..]
  }

  /** The most recently touched `CAPACITY` distinct ids, in recency order. */
  function Remembered(history: seq<string>): seq<string> {
    LastOf(Recency(history), CAPACITY)
  }

  lemma {:induction false} WithoutConcat<T(!new)>(a: seq<T>, b: seq<T>, x: T)
    ensures Without(a + b, x) == Without(a, x) + Without(b, x)
  {
    if a == [] {
      assert a + b == b;
    } else {
      assert (a + b)[0] == a[0] && (a + b)[1..] == a[1..] + b;
      WithoutConcat(a[1..], b, x);
      var first := if a[0] == x then [] else [a[0]];
      assert first + (Without(a[1..], x) + Without(b, x)) == (first + Without(a[1..], x)) + Without(b, x);
    }
  }

  lemma {:induction false} WithoutShrinks<T(!new)>(s: seq<T>, x: T)
    requires Distinct(s)
    ensures Distinct(Without(s, x))
    ensures |Without(s, x)| == if x in s then |s| - 1 else |s|
  {
    if s != [] {
      WithoutShrinks(s[1..], x);
      if s[0] == x {
        assert x !in s[1..];
      } else {
        var rest := Without(s[1..], x);
        assert s[0] !in s[1..];
        assert forall i | 0 <= i < |rest| :: rest[i] in rest && rest[i] in s[1..];
      }
    }
  }

  lemma {:induction false} RecencyIsDistinct(history: seq<string>)
    ensures Distinct(Recency(history))
  {
    if history != [] {
      var before, last := Recency(history[..|history| - 1]), history[|history| - 1];
      RecencyIsDistinct(history[..|history| - 1]);
      WithoutShrinks(before, last);
      var kept := Without(before, last);
      assert forall i | 0 <= i < |kept| :: kept[i] in kept;
    }
  }

  lemma RememberedIsDistinct(history: seq<string>)
    ensures Distinct(Remembered(history)) && |Remembered(history)| <= CAPACITY
  {
    RecencyIsDistinct(history);
  }

  /** One more touch: move to the end if remembered, else append and evict the oldest if full. */
  lemma {:induction false} TouchUpdates(history: seq<string>, id: string)
    ensures var seen := Remembered(history);
            Remembered(history + [id]) ==
              if id in seen then Without(seen, id) + [id]
              else (if |seen| == CAPACITY then seen[1..] else seen) + [id]
  {
    var all, seen := Recency(history), Remembered(history);
    RecencyIsDistinct(history);
    var evicted := all[..|all| - |seen|];
    assert all == evicted + seen;
    RecencyOfTouch(history, id);
    WithoutConcat(evicted, seen, id);
    TouchKeepsLast(evicted, seen, id);
  }

  lemma RecencyOfTouch(history: seq<string>, id: string)
    ensures Recency(history + [id]) == Without(Recency(history), id) + [id]
  {
    assert (history + [id])[..|history|] == history;
  }

  lemma DistinctParts(a: seq<string>, b: seq<string>)
    requires Distinct(a + b)
    ensures Distinct(b) && forall x | x in b :: x !in a
  {
    var all := a + b;
    assert forall i | 0 <= i < |b| :: b[i] == all[|a| + i];
    assert forall j | 0 <= j < |a| :: a[j] == all[j];
  }

  lemma LastOfConcat(a: seq<string>, b: seq<string>, n: nat)
    requires |b| <= n && (a != [] ==> |b| == n)
    ensures LastOf(a + b, n) == b
  {
  }

  lemma TouchKeepsLast(evicted: seq<string>, seen: seq<string>, id: string)
    requires Distinct(evicted + seen) && |seen| <= CAPACITY && (evicted != [] ==> |seen| == CAPACITY)
    ensures LastOf(Without(evicted, id) + Without(seen, id) + [id], CAPACITY) ==
              if id in seen then Without(seen, id) + [id]
              else (if |seen| == CAPACITY then seen[1..] else seen) + [id]
  {
    hide Without, Distinct, LastOf;
    DistinctParts(evicted, seen);
    WithoutShrinks(seen, id);
    var front, kept := Without(evicted, id), Without(seen, id);
    assert front + kept + [id] == front + (kept + [id]);
    if id in seen {
      assert front == evicted;
      LastOfConcat(front, kept + [id], CAPACITY);
    } else if |seen| == CAPACITY {
      assert front + (seen + [id]) == (front + [seen[0]]) + (seen[1..] + [id]);
      LastOfConcat(front + [seen[0]], seen[1..] + [id], CAPACITY);
    } else {
      assert evicted == [] && front == [];
      LastOfConcat(front, seen + [id], CAPACITY);
    }
  }

  datatype Response = BadSignature | AlreadyProcessed | Accepted | HandlerRaised

  class Dedup {
    var seen: seq<string>
    /** Every id found in the cache or marked, in order. */
    ghost var touches: seq<string>

    ghost predicate Valid()
      reads this
    {
      seen == Remembered(touches)
    }

    constructor ()
      ensures Valid() && touches == []
    {
      seen, touches := [], [];
    }

    /** `_is_duplicate_delivery`: a hit becomes the most recent; a miss marks nothing. */
    method IsDuplicate(id: string) returns (duplicate: bool)
      requires Valid()
      modifies this
      ensures Valid()
      ensures duplicate == (id in old(seen))
      ensures touches == if duplicate then old(touches) + [id] else old(touches)
      ensures !duplicate ==> seen == old(seen)
    {
      duplicate := id in seen;
      if duplicate {
        TouchUpdates(touches, id);
        seen := Without(seen, id) + [id];
        touches := touches + [id];
      }
    }

    /** `_mark_delivery_processed`: a new id goes in last and may evict the oldest; an id already
        there keeps its place. */
    method MarkProcessed(id: string)
      requires Valid()
      modifies this
      ensures Valid() && id in seen
      ensures touches == if id in old(seen) then old(touches) else old(touches) + [id]
      ensures id in old(seen) ==> seen == old(seen)
    {
      hide Recency, Distinct, Without;
      RememberedIsDistinct(touches);
      if id !in seen {
        TouchUpdates(touches, id);
        seen := seen + [id];
        touches := touches + [id];
        assert seen[|seen| - 1] == id;
      }
      if |seen| > CAPACITY {
        seen := seen[1..];
        assert seen[|seen| - 1] == id;
      }
    }

    /** `webhook`: check, handle, and only then mark. A delivery without an id is always handled;
        one with a bad signature changes nothing. */
    method Deliver(id: Option<string>, signed: bool, handlerRaises: bool) returns (r: Response)
      requires Valid()
      modifies this
      ensures Valid()
      ensures r.BadSignature? <==> !signed
      ensures r.AlreadyProcessed? <==> signed && id.Some? && id.value in old(seen)
      ensures r.HandlerRaised? <==> signed && !r.AlreadyProcessed? && handlerRaises
      ensures touches ==
                if id.Some? && (r.AlreadyProcessed? || r.Accepted?) then old(touches) + [id.value] else old(touches)
      ensures r.BadSignature? || r.HandlerRaised? ==> seen == old(seen)
      // an id whose handling raised is absent, so its redelivery is handled
      ensures r.HandlerRaised? && id.Some? ==> id.value !in seen
      ensures r.Accepted? && id.Some? ==> id.value in seen
    {
      if !signed {
        return BadSignature;
      }
      if id.Some? {
        var duplicate := IsDuplicate(id.value);
        if duplicate {
          return AlreadyProcessed;
        }
      }
      if handlerRaises {
        return HandlerRaised;
      }
      if id.Some? {
        MarkProcessed(id.value);
      }
      r := Accepted;
    }
  }

  /** A handled id stays in the cache until 1000 other distinct ids have been touched after it. */
  lemma {:induction false} RememberedWhileRecent(history: seq<string>, id: string, later: seq<string>)
    requires id !in later && |Recency(later)| < CAPACITY
    ensures id in Remembered(history + [id] + later)
  {
    hide Recency, LastOf, Without, WithoutAll;
    RecencySplits(history + [id], later);
    RecencyOfTouch(history, id);
    WithoutAllKeepsLast(Recency(history + [id]), later, id);
    LastReaches(WithoutAll(Recency(history + [id]), later), Recency(later), CAPACITY);
  }

  /** The last `n` elements reach past a shorter tail. */
  lemma LastReaches(front: seq<string>, tail: seq<string>, n: nat)
    requires front != [] && |tail| < n
    ensures front[|front| - 1] in LastOf(front + tail, n)
  {
    var all := front + tail;
    var last := LastOf(all, n);
    assert last[|last| - 1 - |tail|] == all[|front| - 1];
  }

  function WithoutAll(s: seq<string>, gone: seq<string>): seq<string> {
    if gone == [] then s else Without(WithoutAll(s, gone[..|gone| - 1]), gone[|gone| - 1])
  }

  lemma {:induction false} WithoutAllKeepsLast(s: seq<string>, gone: seq<string>, x: string)
    requires s != [] && s[|s| - 1] == x && x !in gone
    ensures var r := WithoutAll(s, gone); r != [] && r[|r| - 1] == x
    decreases |gone|
  {
    if gone != [] {
      WithoutAllKeepsLast(s, gone[..|gone| - 1], x);
      var r, y := WithoutAll(s, gone[..|gone| - 1]), gone[|gone| - 1];
      WithoutConcat(r[..|r| - 1], [x], y);
      assert r == r[..|r| - 1] + [x];
      assert Without([x], y) == [x];
    }
  }

  lemma {:induction false} RecencySplits(a: seq<string>, b: seq<string>)
    ensures Recency(a + b) == WithoutAll(Recency(a), b) + Recency(b)
    decreases |b|
  {
    if b == [] {
      assert a + b == a;
    } else {
      var before, last := b[..|b| - 1], b[|b| - 1];
      assert (a + b)[..|a + b| - 1] == a + before;
      RecencySplits(a, before);
      WithoutConcat(WithoutAll(Recency(a), before), Recency(before), last);
    }
  }
}
