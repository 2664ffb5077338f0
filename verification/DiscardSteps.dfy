/** `discard_skipped_ticket` statement by statement. Its three statements share a transaction, but
    under READ COMMITTED each sees what committed before it, so a push can land in between. */
module DiscardSteps {
  import opened Wrappers
  import opened Cooldown
  import opened Queue
  import opened Runs

  datatype Arrival = Arrival(sha: Option<string>, provider: string, now: Instant)

  /** Pushes to one pull request, on its row or on no row. */
  function Receive(row: Option<Ticket>, repo: string, pr: nat, arrivals: seq<Arrival>, c: Triple): Option<Ticket>
    decreases |arrivals|
  {
    if arrivals == [] then row
    else
      var a := arrivals[0];
      var next := match row
        case None => Inserted(repo, pr, a.sha, a.provider, a.now)
        case Some(t) => Pushed(t, a.sha, a.now, c);
      Receive(Some(next), repo, pr, arrivals[1..], c)
  }

  predicate DeleteMatches(t: Ticket) { !t.rereviewRequested && t.lastReviewedAt.None? }

  predicate RequeueMatches(t: Ticket) { t.rereviewRequested }

  predicate KeepMatches(t: Ticket) { t.lastReviewedAt.Some? }

  /** DELETE, UPDATE, UPDATE, each tried only if the one before matched nothing, with pushes `p0`,
      `p1` and `p2` committing before the first, second and third. */
  function Interleaved(t: Ticket, p0: seq<Arrival>, p1: seq<Arrival>, p2: seq<Arrival>, now: Instant,
                       c: Triple): Option<Ticket>
  {
    var r0 := Receive(Some(t), t.repo, t.pr, p0, c);
    if r0.Some? && DeleteMatches(r0.value) then Receive(Receive(None, t.repo, t.pr, p1, c), t.repo, t.pr, p2, c)
    else
      var r1 := Receive(r0, t.repo, t.pr, p1, c);
      if r1.Some? && RequeueMatches(r1.value) then Receive(Some(Requeued(r1.value, now)), t.repo, t.pr, p2, c)
      else
        var r2 := Receive(r1, t.repo, t.pr, p2, c);
        if r2.Some? && KeepMatches(r2.value) then Some(RevertedToDone(r2.value, now)) else r2
  }

  lemma {:induction false} RunningReceives(t: Ticket, arrivals: seq<Arrival>, c: Triple)
    requires t.status == Running
    ensures var r := Receive(Some(t), t.repo, t.pr, arrivals, c);
            && r.Some? && r.value.status == Running && r.value.lastReviewedAt == t.lastReviewedAt
            && r.value.IsFor(t.repo, t.pr)
            && (r.value.rereviewRequested <==> t.rereviewRequested || arrivals != [])
            && (arrivals == [] ==> r.value == t)
    decreases |arrivals|
  {
    if arrivals != [] {
      RunningReceives(Pushed(t, arrivals[0].sha, arrivals[0].now, c), arrivals[1..], c);
    }
  }

  lemma {:induction false} QueuedReceives(t: Ticket, repo: string, pr: nat, arrivals: seq<Arrival>, c: Triple)
    requires t.Queued()
    ensures var r := Receive(Some(t), repo, pr, arrivals, c); r.Some? && r.value.Queued()
    decreases |arrivals|
  {
    if arrivals != [] {
      QueuedReceives(Pushed(t, arrivals[0].sha, arrivals[0].now, c), repo, pr, arrivals[1..], c);
    }
  }

  lemma {:induction false} NothingReceives(repo: string, pr: nat, arrivals: seq<Arrival>, c: Triple)
    requires arrivals != []
    ensures var r := Receive(None, repo, pr, arrivals, c); r.Some? && r.value.Queued()
  {
    var a := arrivals[0];
    QueuedReceives(Inserted(repo, pr, a.sha, a.provider, a.now), repo, pr, arrivals[1..], c);
  }

  /** With nothing in between, the statements do what the atomic step does. */
  lemma UninterruptedIsAtomic(t: Ticket, p0: seq<Arrival>, now: Instant, c: Triple)
    requires t.status == Running
    ensures var r0 := Receive(Some(t), t.repo, t.pr, p0, c);
            r0.Some? && Interleaved(t, p0, [], [], now, c) == Discarded(r0.value, now)
  {
    RunningReceives(t, p0, c);
  }

  /** A push committed while a skipped ticket is discarded is swallowed if and only if the ticket was
      reviewed before, nothing was pushed up to the second statement, and the push beat the third. */
  lemma {:induction false} DiscardSwallowsIff(t: Ticket, p0: seq<Arrival>, p1: seq<Arrival>, p2: seq<Arrival>,
                                              now: Instant, c: Triple)
    requires t.status == Running
    requires t.rereviewRequested || p0 + p1 + p2 != []
    ensures var r := Interleaved(t, p0, p1, p2, now, c);
            (r.Some? && Awaits(r.value)) <==>
              !(t.lastReviewedAt.Some? && !t.rereviewRequested && p0 == [] && p1 == [])
  {
    hide Receive, Pushed;
    RunningReceives(t, p0, c);
    var r0 := Receive(Some(t), t.repo, t.pr, p0, c);
    if DeleteMatches(r0.value) {
      var r1 := Receive(None, t.repo, t.pr, p1, c);
      if p1 != [] {
        NothingReceives(t.repo, t.pr, p1, c);
        QueuedReceives(r1.value, t.repo, t.pr, p2, c);
      } else {
        NothingYet(t.repo, t.pr, c);
        NothingReceives(t.repo, t.pr, p2, c);
      }
    } else {
      RunningReceives(r0.value, p1, c);
      var r1 := Receive(r0, t.repo, t.pr, p1, c);
      if RequeueMatches(r1.value) {
        QueuedReceives(Requeued(r1.value, now), t.repo, t.pr, p2, c);
      } else {
        RunningReceives(r1.value, p2, c);
      }
    }
  }

  lemma NothingYet(repo: string, pr: nat, c: Triple)
    ensures Receive(None, repo, pr, [], c) == None
  {
  }

  /** A reviewed ticket, run again and skipped, loses the push that arrives just before the third statement. */
  lemma {:induction false} LatePushIsLost(a: Arrival, reviewed: Instant, now: Instant, c: Triple)
    ensures var t := Inserted("r", 1, None, "p", reviewed).(status := Running, lastReviewedAt := Some(reviewed));
            var r := Interleaved(t, [], [], [a], now, c);
            r.Some? && r.value.status == Done && !r.value.rereviewRequested
  {
    var t := Inserted("r", 1, None, "p", reviewed).(status := Running, lastReviewedAt := Some(reviewed));
    var pushed := Pushed(t, a.sha, a.now, c);
    assert Receive(Some(t), t.repo, t.pr, [], c) == Some(t);
    assert [a][1..] == [];
    assert Receive(Some(t), t.repo, t.pr, [a], c) == Receive(Some(pushed), t.repo, t.pr, [], c) == Some(pushed);
  }
}
