/** Hard failures terminate: between two resets of its counter a ticket fails, and its failure
    notice is attempted, only so often before it is `failed`. */
module FailureBudget {
  import opened Wrappers
  import opened Cooldown
  import opened Queue
  import opened Machine
  import opened Runs

  /** The events that give ticket `id` a fresh attempts budget. */
  ghost predicate Resets(s: Sys, e: Event, id: Id) {
    || (e.Push? && !Tracked(s.tickets, e.repo, e.pr) && id == s.nextId)
    || (id in s.tickets &&
        var t := s.tickets[id];
        || (e.Push? && t.IsFor(e.repo, e.pr) && t.Terminal())
        || ((e.Complete? || e.Skip?) && InFlight(s, id) && t.rereviewRequested))
  }

  predicate Fails(s: Sys, e: Event, id: Id) {
    e.HardFail? && InFlight(s, id)
  }

  /** The failures at or past the hard stop are the ones that try to post a notice. */
  predicate TriesNotice(cfg: Settings, s: Sys, e: Event, id: Id) {
    Fails(s, e, id) && s.flight.value.snapshot.attempts + 1 >= cfg.maxFailures
  }

  ghost function Failures(cfg: Settings, tr: seq<Event>, i: nat, j: nat, id: Id): nat
    requires Legal(cfg, tr) && i <= j <= |tr|
    decreases j
  {
    if j == i then 0
    else Failures(cfg, tr, i, j - 1, id) + (if Fails(At(cfg, tr, j - 1), tr[j - 1], id) then 1 else 0)
  }

  ghost function NoticeTries(cfg: Settings, tr: seq<Event>, i: nat, j: nat, id: Id): nat
    requires Legal(cfg, tr) && i <= j <= |tr|
    decreases j
  {
    if j == i then 0
    else NoticeTries(cfg, tr, i, j - 1, id) + (if TriesNotice(cfg, At(cfg, tr, j - 1), tr[j - 1], id) then 1 else 0)
  }

  ghost predicate NoReset(cfg: Settings, tr: seq<Event>, i: nat, j: nat, id: Id)
    requires Legal(cfg, tr) && j <= |tr|
  {
    forall k | i <= k < j :: !Resets(At(cfg, tr, k), tr[k], id)
  }

  function Positive(x: int): nat { if x > 0 then x else 0 }

  /** What `fails` failures and `tries` notice attempts since the last reset leave of the budget. */
  predicate Within(cfg: Settings, s: Sys, id: Id, fails: nat, tries: nat)
    requires ValidSettings(cfg)
  {
    var most := cfg.maxFailures + cfg.maxNoticePosts - 1;
    && fails <= most && tries <= cfg.maxNoticePosts
    && (id in s.tickets && s.tickets[id].status != Failed ==>
          fails <= s.tickets[id].attempts && tries <= Positive(s.tickets[id].attempts - (cfg.maxFailures - 1)))
    && (fails == most || tries == cfg.maxNoticePosts ==> id in s.tickets && s.tickets[id].status == Failed)
  }

  lemma BudgetStep(cfg: Settings, s: Sys, e: Event, id: Id, fails: nat, tries: nat)
    requires ValidSettings(cfg) && Enabled(cfg, s, e) && FlightInv(s)
    requires id in s.tickets ==> RowInv(cfg, s, id)
    requires Within(cfg, s, id, fails, tries) && !Resets(s, e, id)
    ensures Within(cfg, Next(cfg, s, e), id, fails + (if Fails(s, e, id) then 1 else 0),
                   tries + (if TriesNotice(cfg, s, e, id) then 1 else 0))
  {
    if Fails(s, e, id) {
      BudgetFails(cfg, s, e, id, fails, tries);
    } else if e.Push? || e.Close? || e.Rename? {
      BudgetWebhook(cfg, s, e, id, fails, tries);
    }
  }

  lemma BudgetWebhook(cfg: Settings, s: Sys, e: Event, id: Id, fails: nat, tries: nat)
    requires ValidSettings(cfg) && Enabled(cfg, s, e) && (e.Push? || e.Close? || e.Rename?)
    requires Within(cfg, s, id, fails, tries) && !Resets(s, e, id)
    ensures Within(cfg, Next(cfg, s, e), id, fails, tries)
  {
  }

  lemma BudgetFails(cfg: Settings, s: Sys, e: Event, id: Id, fails: nat, tries: nat)
    requires ValidSettings(cfg) && Enabled(cfg, s, e) && FlightInv(s) && Fails(s, e, id)
    requires RowInv(cfg, s, id) && Within(cfg, s, id, fails, tries)
    ensures Within(cfg, Next(cfg, s, e), id, fails + 1, tries + (if TriesNotice(cfg, s, e, id) then 1 else 0))
  {
    assert s.tickets[id].status == Running;
  }

  lemma NothingUsed(cfg: Settings, s: Sys, id: Id)
    requires ValidSettings(cfg)
    ensures Within(cfg, s, id, 0, 0)
  {
  }

  lemma {:induction false} StaysWithin(cfg: Settings, tr: seq<Event>, i: nat, j: nat, id: Id)
    requires ValidSettings(cfg) && Legal(cfg, tr) && i <= j <= |tr| && NoReset(cfg, tr, i, j, id)
    ensures Within(cfg, At(cfg, tr, j), id, Failures(cfg, tr, i, j, id), NoticeTries(cfg, tr, i, j, id))
    decreases j
  {
    hide Next, Resets, Enabled, After, Legal, Within, Fails, TriesNotice;
    if j == i {
      NothingUsed(cfg, At(cfg, tr, i), id);
    } else {
      StaysWithin(cfg, tr, i, j - 1, id);
      StepAt(cfg, tr, j - 1);
      BudgetStep(cfg, At(cfg, tr, j - 1), tr[j - 1], id,
                 Failures(cfg, tr, i, j - 1, id), NoticeTries(cfg, tr, i, j - 1, id));
    }
  }

  /** However rate-limit, cap and configuration deferrals interleave, at most F + N - 1 hard
      failures and N notice attempts fall between two resets, and the last leaves the ticket failed. */
  lemma HardFailuresTerminate(cfg: Settings, tr: seq<Event>, i: nat, j: nat, id: Id)
    requires ValidSettings(cfg) && Legal(cfg, tr) && i <= j <= |tr| && NoReset(cfg, tr, i, j, id)
    ensures Failures(cfg, tr, i, j, id) <= cfg.maxFailures + cfg.maxNoticePosts - 1
    ensures NoticeTries(cfg, tr, i, j, id) <= cfg.maxNoticePosts
    ensures Failures(cfg, tr, i, j, id) == cfg.maxFailures + cfg.maxNoticePosts - 1
            || NoticeTries(cfg, tr, i, j, id) == cfg.maxNoticePosts
            ==> var ts := At(cfg, tr, j).tickets; id in ts && ts[id].status == Failed
  {
    StaysWithin(cfg, tr, i, j, id);
  }

  predicate HasFailed(s: Sys, id: Id) {
    id in s.tickets && s.tickets[id].status == Failed && id < s.nextId
  }

  lemma FailedStep(cfg: Settings, s: Sys, e: Event, id: Id)
    requires Enabled(cfg, s, e) && FlightInv(s) && !Resets(s, e, id) && HasFailed(s, id)
    ensures HasFailed(Next(cfg, s, e), id)
  {
    hide CooldownEnd, Later, BackoffEnd, UnderCap;
  }

  /** A failed ticket stays failed until a push re-arms it. */
  lemma {:induction false} FailedIsFinal(cfg: Settings, tr: seq<Event>, i: nat, j: nat, id: Id)
    requires ValidSettings(cfg) && Legal(cfg, tr) && i <= j <= |tr| && NoReset(cfg, tr, i, j, id)
    requires HasFailed(At(cfg, tr, i), id)
    ensures HasFailed(At(cfg, tr, j), id)
    decreases j
  {
    hide Next;
    if j > i {
      FailedIsFinal(cfg, tr, i, j - 1, id);
      var s, e := At(cfg, tr, j - 1), tr[j - 1];
      assert !Resets(s, e, id);
      StepAt(cfg, tr, j - 1);
      FailedStep(cfg, s, e, id);
    }
  }

  // ---- When exactly ----

  /** A reset leaves the ticket with no failures to its name. */
  lemma ResetIsFresh(cfg: Settings, s: Sys, e: Event, id: Id)
    requires Inv(cfg, s) && Enabled(cfg, s, e) && Resets(s, e, id)
    ensures var s' := Next(cfg, s, e);
            id in s'.tickets && s'.tickets[id].attempts == 0 && s'.tickets[id].Queued()
  {
    hide CooldownEnd, BackoffEnd, Later, UnderCap, CooldownSpan;
  }

  /** Where one hard failure leaves its ticket, by the failures `before` it since the last reset. */
  lemma FailureLeaves(cfg: Settings, s: Sys, e: Event, id: Id)
    requires ValidSettings(cfg) && Enabled(cfg, s, e) && FlightInv(s) && Fails(s, e, id)
    ensures id in s.tickets && s.tickets[id].status == Running
    ensures var s', before := Next(cfg, s, e), s.tickets[id].attempts;
            id in s'.tickets &&
            if before + 1 >= cfg.maxFailures && (e.posted || before + 2 >= cfg.maxFailures + cfg.maxNoticePosts)
            then s'.tickets[id].status == Failed && s'.tickets[id].lastError == e.error
            else s'.tickets[id].status == Retrying && s'.tickets[id].attempts == before + 1
  {
    hide Backoff, Span, BackoffEnd;
  }

  /** Without failures in between, the counter stays and nothing fails the ticket. */
  lemma CounterStays(cfg: Settings, s: Sys, e: Event, id: Id)
    requires Inv(cfg, s) && Enabled(cfg, s, e) && !Fails(s, e, id) && !Resets(s, e, id)
    requires id < s.nextId && id in Next(cfg, s, e).tickets
    ensures id in s.tickets && Next(cfg, s, e).tickets[id].attempts == s.tickets[id].attempts
    ensures Next(cfg, s, e).tickets[id].status == Failed <==> s.tickets[id].status == Failed
  {
    hide Next;
    if e.Push? || e.Close? || e.Rename? {
      CounterWebhook(cfg, s, e, id);
    } else if Lands(e) {
      CounterLands(cfg, s, e, id);
    } else {
      CounterElsewhere(cfg, s, e, id);
    }
  }

  lemma CounterWebhook(cfg: Settings, s: Sys, e: Event, id: Id)
    requires Enabled(cfg, s, e) && !Resets(s, e, id) && (e.Push? || e.Close? || e.Rename?)
    requires id < s.nextId && id in Next(cfg, s, e).tickets
    ensures id in s.tickets && Next(cfg, s, e).tickets[id].attempts == s.tickets[id].attempts
    ensures Next(cfg, s, e).tickets[id].status == Failed <==> s.tickets[id].status == Failed
  {
    hide CooldownEnd, CooldownSpan;
  }

  lemma CounterLands(cfg: Settings, s: Sys, e: Event, id: Id)
    requires FlightInv(s) && Enabled(cfg, s, e) && !Fails(s, e, id) && !Resets(s, e, id) && Lands(e)
    requires id in Next(cfg, s, e).tickets
    ensures id in s.tickets && Next(cfg, s, e).tickets[id].attempts == s.tickets[id].attempts
    ensures Next(cfg, s, e).tickets[id].status == Failed <==> s.tickets[id].status == Failed
  {
    hide CooldownEnd, BackoffEnd, Later, CooldownSpan, GivesUp, WaitUntil, AfterFailure;
  }

  lemma CounterElsewhere(cfg: Settings, s: Sys, e: Event, id: Id)
    requires FlightInv(s) && Enabled(cfg, s, e) && !Lands(e) && !(e.Push? || e.Close? || e.Rename?)
    requires id in Next(cfg, s, e).tickets
    ensures id in s.tickets && Next(cfg, s, e).tickets[id].attempts == s.tickets[id].attempts
    ensures Next(cfg, s, e).tickets[id].status == Failed <==> s.tickets[id].status == Failed
  {
    hide CooldownEnd, BackoffEnd, Later, UnderCap;
  }

  /** The ticket's hard failures since its counter was last reset, up to event `k`. */
  ghost function FailuresInARow(cfg: Settings, tr: seq<Event>, k: nat, id: Id): nat
    requires Legal(cfg, tr) && k <= |tr|
    decreases k
  {
    if k == 0 || Resets(At(cfg, tr, k - 1), tr[k - 1], id) then 0
    else FailuresInARow(cfg, tr, k - 1, id) + (if Fails(At(cfg, tr, k - 1), tr[k - 1], id) then 1 else 0)
  }

  /** How many of them tried to post a notice: the F-th in a row and every later one. */
  ghost function TriesInARow(cfg: Settings, tr: seq<Event>, k: nat, id: Id): nat
    requires Legal(cfg, tr) && k <= |tr|
    decreases k
  {
    if k == 0 || Resets(At(cfg, tr, k - 1), tr[k - 1], id) then 0
    else
      TriesInARow(cfg, tr, k - 1, id)
      + (if Fails(At(cfg, tr, k - 1), tr[k - 1], id) && FailuresInARow(cfg, tr, k, id) >= cfg.maxFailures then 1 else 0)
  }

  lemma {:induction false} TriesStartAtF(cfg: Settings, tr: seq<Event>, k: nat, id: Id)
    requires ValidSettings(cfg) && Legal(cfg, tr) && k <= |tr|
    ensures TriesInARow(cfg, tr, k, id) == Positive(FailuresInARow(cfg, tr, k, id) - (cfg.maxFailures - 1))
    decreases k
  {
    hide Next, Resets, Enabled, After, Legal, Fails;
    if k > 0 {
      TriesStartAtF(cfg, tr, k - 1, id);
    }
  }

  /** Until it fails for good, a ticket's counter is the number of its hard failures since the reset. */
  lemma {:induction false} CounterIsExact(cfg: Settings, tr: seq<Event>, k: nat, id: Id)
    requires ValidSettings(cfg) && Legal(cfg, tr) && k <= |tr| && id in At(cfg, tr, k).tickets
    requires At(cfg, tr, k).tickets[id].status != Failed
    ensures At(cfg, tr, k).tickets[id].attempts == FailuresInARow(cfg, tr, k, id)
    decreases k
  {
    hide Next, Resets, Enabled, Legal, Fails;
    if k > 0 {
      hide After;
      StepAt(cfg, tr, k - 1);
      var s, e := At(cfg, tr, k - 1), tr[k - 1];
      if Resets(s, e, id) {
        ResetIsFresh(cfg, s, e, id);
      } else {
        NewRowsAreReset(cfg, s, e, id);
        if Fails(s, e, id) {
          FailureLeaves(cfg, s, e, id);
        } else {
          CounterStays(cfg, s, e, id);
        }
        CounterIsExact(cfg, tr, k - 1, id);
      }
    }
  }

  /** The hard stop, exactly, for every hard failure of every run: it fails its ticket for good if and only if
      it is at least the F-th in a row and its notice was posted or was the N-th tried; otherwise the ticket
      is retried. */
  lemma {:induction false} HardStopIff(cfg: Settings, tr: seq<Event>, k: nat, id: Id)
    requires ValidSettings(cfg) && Legal(cfg, tr) && k < |tr| && Fails(At(cfg, tr, k), tr[k], id)
    ensures id in At(cfg, tr, k + 1).tickets
    ensures At(cfg, tr, k + 1).tickets[id].status ==
              if FailuresInARow(cfg, tr, k + 1, id) >= cfg.maxFailures
                 && (tr[k].posted || TriesInARow(cfg, tr, k + 1, id) >= cfg.maxNoticePosts)
              then Failed else Retrying
  {
    hide Next, Enabled, After, Legal;
    StepAt(cfg, tr, k);
    FailureLeaves(cfg, At(cfg, tr, k), tr[k], id);
    CounterIsExact(cfg, tr, k, id);
    assert !Resets(At(cfg, tr, k), tr[k], id);
    TriesStartAtF(cfg, tr, k + 1, id);
  }

  /** And nothing else fails a ticket. */
  lemma OnlyHardFailuresFail(cfg: Settings, s: Sys, e: Event, id: Id)
    requires Inv(cfg, s) && Enabled(cfg, s, e) && id in Next(cfg, s, e).tickets
    requires Next(cfg, s, e).tickets[id].status == Failed
    ensures id in s.tickets && (s.tickets[id].status == Failed || Fails(s, e, id))
  {
    hide Next, Resets;
    if Resets(s, e, id) {
      ResetIsFresh(cfg, s, e, id);
    } else if !Fails(s, e, id) {
      NewRowsAreReset(cfg, s, e, id);
      CounterStays(cfg, s, e, id);
    }
  }

  lemma NewRowsAreReset(cfg: Settings, s: Sys, e: Event, id: Id)
    requires Inv(cfg, s) && Enabled(cfg, s, e) && id in Next(cfg, s, e).tickets && !Resets(s, e, id)
    ensures id < s.nextId
  {
    hide CooldownEnd, BackoffEnd, Later, UnderCap, CooldownSpan, LandedRow;
  }
}
