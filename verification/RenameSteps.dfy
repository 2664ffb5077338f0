/** `migrate_repo_rename` statement by statement. Its ticket statements share a transaction, but under
    READ COMMITTED the second sees what committed after the first, so a push can land in between. */
module RenameSteps {
  import opened Wrappers
  import opened Cooldown
  import opened Queue
  import opened Runs
  import opened DiscardSteps

  /** The row a push to this pull request reaches, or the id of the one it inserts. */
  ghost function Reached(ts: Tickets, nextId: Id, repo: string, pr: nat): Id {
    if Tracked(ts, repo, pr) then Lookup(ts, repo, pr) else nextId
  }

  /** Pushes to one pull request arriving at a table. */
  ghost function Arrive(ts: Tickets, nextId: Id, repo: string, pr: nat, arrivals: seq<Arrival>, c: Triple): Tickets {
    var id := Reached(ts, nextId, repo, pr);
    var row := Receive(if Tracked(ts, repo, pr) then Some(ts[id]) else None, repo, pr, arrivals, c);
    if row.Some? then ts[id := row.value] else ts
  }

  /** The first UPDATE, the pushes that commit next, the second UPDATE. */
  ghost function Interleaved(ts: Tickets, nextId: Id, oldName: string, newName: string, repo: string, pr: nat,
                             arrivals: seq<Arrival>, now: Instant, c: Triple): Tickets
  {
    CancelLeftRows(Arrive(MoveFreeRows(ts, oldName, newName, now), nextId, repo, pr, arrivals, c), oldName, now)
  }

  /** The old name's row of this pull request is running, and cannot move. */
  ghost predicate LeftRunning(ts: Tickets, oldName: string, newName: string, pr: nat) {
    Tracked(ts, oldName, pr) && Tracked(ts, newName, pr) && ts[Lookup(ts, oldName, pr)].status == Running
  }

  /** Who tracks a pull request after the first UPDATE. */
  lemma {:induction false} MovedTracks(ts: Tickets, oldName: string, newName: string, pr: nat, now: Instant)
    requires OneTicketPerPr(ts) && oldName != newName
    ensures var moved := MoveFreeRows(ts, oldName, newName, now);
            && moved.Keys == ts.Keys
            && (Tracked(moved, oldName, pr) <==> Tracked(ts, oldName, pr) && Tracked(ts, newName, pr))
            && (Tracked(moved, newName, pr) <==> Tracked(ts, oldName, pr) || Tracked(ts, newName, pr))
            && (Tracked(moved, oldName, pr) ==>
                  Lookup(moved, oldName, pr) == Lookup(ts, oldName, pr)
                  && moved[Lookup(moved, oldName, pr)] == ts[Lookup(ts, oldName, pr)])
  {
    var moved := MoveFreeRows(ts, oldName, newName, now);
    if Tracked(ts, newName, pr) {
      var id := Lookup(ts, newName, pr);
      assert moved[id].IsFor(newName, pr);
    }
    if Tracked(ts, oldName, pr) {
      var id := Lookup(ts, oldName, pr);
      assert moved[id].IsFor(if Tracked(ts, newName, pr) then oldName else newName, pr);
    }
    if Tracked(moved, oldName, pr) {
      var id := Lookup(moved, oldName, pr);
      assert ts[id].IsFor(oldName, pr);
    }
    if Tracked(moved, newName, pr) {
      var id := Lookup(moved, newName, pr);
      assert ts[id].IsFor(newName, pr) || ts[id].IsFor(oldName, pr);
    }
  }

  /** A row a push reached awaits a review, for the pull request it was pushed to. */
  lemma {:induction false} ReceivedAwaits(row: Option<Ticket>, repo: string, pr: nat, arrivals: seq<Arrival>, c: Triple)
    requires arrivals != [] && (row.Some? ==> row.value.IsFor(repo, pr))
    ensures var r := Receive(row, repo, pr, arrivals, c);
            && r.Some? && r.value.IsFor(repo, pr) && Awaits(r.value)
            && (r.value.status == Running <==> row.Some? && row.value.status == Running)
    decreases |arrivals|
  {
    var a := arrivals[0];
    var next := if row.None? then Inserted(repo, pr, a.sha, a.provider, a.now) else Pushed(row.value, a.sha, a.now, c);
    if |arrivals| > 1 {
      ReceivedAwaits(Some(next), repo, pr, arrivals[1..], c);
    }
  }

  lemma {:induction false} ArrivedRow(ts: Tickets, nextId: Id, repo: string, pr: nat, arrivals: seq<Arrival>, c: Triple)
    requires arrivals != [] && forall id | id in ts :: id < nextId
    ensures var id, after := Reached(ts, nextId, repo, pr), Arrive(ts, nextId, repo, pr, arrivals, c);
            && id in after && after[id].IsFor(repo, pr) && Awaits(after[id])
            && (after[id].status == Running <==> Tracked(ts, repo, pr) && ts[id].status == Running)
            && after.Keys == ts.Keys + {id} && (forall j | j in ts && j != id :: after[j] == ts[j])
  {
    hide Receive;
    var id := Reached(ts, nextId, repo, pr);
    ReceivedAwaits(if Tracked(ts, repo, pr) then Some(ts[id]) else None, repo, pr, arrivals, c);
  }

  /** Who tracks the pull request under the new name once both statements are done. */
  lemma {:induction false} NewNameTracks(moved: Tickets, arrived: Tickets, id: Id, oldName: string, newName: string,
                                         pr: nat, now: Instant)
    requires oldName != newName && id in arrived && arrived[id].repo == oldName && arrived.Keys == moved.Keys + {id}
    requires (forall j | j in moved && j != id :: arrived[j] == moved[j]) && (id in moved ==> moved[id].repo == oldName)
    ensures Tracked(CancelLeftRows(arrived, oldName, now), newName, pr) <==> Tracked(moved, newName, pr)
  {
    var after := CancelLeftRows(arrived, oldName, now);
    if Tracked(moved, newName, pr) {
      var j := Lookup(moved, newName, pr);
      assert j in after && after[j].IsFor(newName, pr);
    }
    if Tracked(after, newName, pr) {
      var j := Lookup(after, newName, pr);
      assert j in moved && moved[j].IsFor(newName, pr);
    }
  }

  /** A push that commits between the two statements is still owed a review afterwards if and only if it
      went to another name than the old one, or reached a running row that could not move. Otherwise its
      row is cancelled: with nothing tracking the pull request under the new name, exactly if neither
      name did before. */
  lemma {:induction false} RenameSwallowsIff(ts: Tickets, nextId: Id, oldName: string, newName: string, repo: string,
                                             pr: nat, arrivals: seq<Arrival>, now: Instant, c: Triple)
    requires OneTicketPerPr(ts) && (forall id | id in ts :: id < nextId) && oldName != newName && arrivals != []
    ensures var id := Reached(MoveFreeRows(ts, oldName, newName, now), nextId, repo, pr);
            var after := Interleaved(ts, nextId, oldName, newName, repo, pr, arrivals, now, c);
            && id in after && after[id].IsFor(repo, pr)
            && (Awaits(after[id]) <==> repo != oldName || LeftRunning(ts, oldName, newName, pr))
            && (!Awaits(after[id]) ==> after[id].status == Cancelled)
            && (!Awaits(after[id]) ==>
                  (Tracked(after, newName, pr) <==> Tracked(ts, oldName, pr) || Tracked(ts, newName, pr)))
  {
    hide Receive, MoveFreeRows, Arrive, OneTicketPerPr, Tracked;
    var moved := MoveFreeRows(ts, oldName, newName, now);
    var id := Reached(moved, nextId, repo, pr);
    var arrived := Arrive(moved, nextId, repo, pr, arrivals, c);
    MovedTracks(ts, oldName, newName, pr, now);
    ArrivedRow(moved, nextId, repo, pr, arrivals, c);
    if repo == oldName {
      NewNameTracks(moved, arrived, id, oldName, newName, pr, now);
    }
  }

  /** The first push of a new pull request, sent under the old name, is cancelled and tracked nowhere. */
  lemma {:induction false} FirstPushIsCancelled(oldName: string, newName: string, pr: nat, a: Arrival, now: Instant,
                                                c: Triple)
    requires oldName != newName
    ensures var after := Interleaved(map[], 0, oldName, newName, oldName, pr, [a], now, c);
            0 in after && after[0].status == Cancelled && !Tracked(after, newName, pr)
  {
    assert MoveFreeRows(map[], oldName, newName, now) == map[];
    RenameSwallowsIff(map[], 0, oldName, newName, oldName, pr, [a], now, c);
  }
}
