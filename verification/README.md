# A verified model of the review bot's queue, diff annotator, comments and configuration

The bot turns pull-request webhooks into durable review tickets and lets one serial dispatcher work
them off against rate-limited providers. This project models that queue and the stateful code around
it, and proves what the design promises, over all inputs and all runs.

**The queue.** `Queue` holds the ticket rows and what each store statement does to one of them.
`Store.TicketStore` is the store: the two tables as fields, one method per store function, each
proved to make exactly its row transition. `Dispatch.Dispatcher` is the dispatcher together with the
webhook that feeds it: its methods update the store, the in-memory block table and the cached
cooldown the way `process_next_due` does, and log every step in a ghost run. `DispatchSpec` says what
one step must do and when it leaves its ticket running. `Machine` is the state
machine of those steps: pushes, closes, claims, deferrals, attempts, renames, recorded reviews,
failures, skips, completions, comment bookkeeping, an exception that escapes a step (`Abandon`) and
a crash followed by recovery (`Restart`). `Dispatcher.Valid()` says that the object's state is the
state its logged run reaches, so every theorem about runs (`Runs`, `FailureBudget`, `RateGate`,
`CapBound`, `DatedRuns`) holds of the live object; `RunForever` is its loop. A webhook event may fall between any two machine events.

**Around it.** `Timestamps` and `TextClaim` prove that comparing the stored ISO strings as text is
comparing instants, and so that the claim query picks the right ticket; `DatedRuns` brings that to every
reachable table. `Cooldown` and `UsageWindow`
hold the arithmetic, `Bounds` the validation of configuration rows and `ConfigRows` its tie to the
settings a run is under, `Notices` the schedule-notice sweep, and `Spending` what the attempts of a step may cost.
`DiffAnnotator` is the unified-diff annotator against a model of rendered diffs. `Footnotes`
is the comment editor. `Arming` is the configuration PATCH and its probes, `Credentials` the
credential deletes. `DeliveryCache` is the delivery dedup cache, `EnvMerge` the env-file merge on lines
and `EnvText` on the file it writes, and `Text` the string functions they share.

Instants are whole microseconds since 0001-01-01 UTC, spans of seconds are reals rounded to
microseconds half to even, token counts are unbounded naturals. A date past the year 9999, a power
past the largest float and an integer too large for a float raise, as they do in Python.

## What the code does not promise

Where a promised property fails, the model keeps the code's behaviour and a theorem gives the exact
condition.

- A step leaves its ticket in `running` when a date it needs cannot be computed outside every `try`: the
  re-review time of a completed review (no cooldown triple is cached, the power overflows or the date
  does), the end of a rate limit (a provider may ask for any Retry-After), the end of a backoff or the
  wait for missing configuration. `DispatchSpec.Strands` is the exact condition;
  `Dispatch.Dispatcher.ProcessNextDue` proves it to be, with an installation found to be gone, the only
  way, `DispatchSpec.LongRetryAfterStrands` and `LongCooldownStrands` give the inputs, and
  `DispatchSpec.HorizonRulesOutStranding` a condition an operator can check beforehand, under which no run
  breaks a step off for a date (`DatedRuns.HorizonRunsUnbroken`). Such a ticket is
  claimed by nobody until a restart (`Runs.StrandedUntilRestart`). The docstring of `effective_config`
  (review_queue/cooldown_config.py:62-71) tells callers to defer when no triple is cached;
  review_queue/store.py:418-419 does not. The same date makes an enqueue raise
  (`Store.TicketStore.EnqueueOrUpdate`).
- `discard_skipped_ticket` promises never to lose a concurrent push, but its three statements see
  each other's gaps under READ COMMITTED. `DiscardSteps.DiscardSwallowsIff` says exactly which pushes
  are lost (`LatePushIsLost` shows one); with no gap the statements are the atomic step the machine uses.
- `migrate_repo_rename` means to cancel only rows that a row under the new name supersedes, but a push
  under the old name that commits between its two ticket statements is cancelled too, even if nothing
  tracks its pull request. `RenameSteps.RenameSwallowsIff` says exactly when, and
  `RenameSteps.FirstPushIsCancelled` shows it.
- Annotated line numbers drift behind a removed line whose text starts with `--`, which reads as a
  `---` header and is counted as context; a file whose path holds a space is tagged with another file's
  name or not at all; and a line holding another line break is cut in two. `DiffAnnotator.TagOnHunkLines`
  gives the drift, `AnnotationIsTrueIff` and `AnnotatedTextIsTrueIff` the exact conditions, and
  `RemovedDashesMisnumber`, `SpacedPathIsMislabelled` and `FormFeedCutsLine` diffs that show them.
- A review survives footnote edits if and only if it does not itself end in a footnote block
  (`Footnotes.ReviewSurvivesIff`).
- A PATCH makes an unprobed pair live if and only if it switches the provider but does not get to
  write the key index sent along (`Arming.UnsoundIffHalfSwitched`): because its write raises, or because
  that index is out of range and yet has a stored model that passes (`Arming.UnsoundIffOutOfRange`).
- A confirmed credential delete leaves something dangling exactly if a configuration write it needs
  raises after the variable is gone (`Credentials.CascadeIsSound`; `FailedClearDangles` shows it).
- A pasted value may hold a line break other than a newline, U+2028 for one. The written file is the promised map update
  if and only if no value does (`EnvText.FileIsMapUpdateIff`), is free of duplicate keys on every file if
  and only if no value breaks off a line that defines a key (`EnvText.FilesHaveNoDuplicatesIff`), and
  merges to itself on every file if and only if every line a value breaks off defines that value's own
  key (`EnvText.MergingTextTwiceIff`; `EnvText.PastedBreaksFail` gives the inputs).

## Model

| member | source | states |
|---|---|---|
| `Runs.NoPushSwallowed` | review_queue/store.py:505-526 | in every run, from an accepted push to the next claim of its ticket the row exists and a review is owed (queued, or running and dirty), unless it failed for good, its PR closed or a rename superseded it |
| `Runs.OwedStep` | review_queue/store.py:608-631 | no event but the next claim discharges an owed review: finalize, discard, deferrals, failures, renames and restarts all keep it |
| `Runs.PushIsOwed` | review_queue/store.py:467-526 | an accepted push leaves its ticket owed a review, whatever state the row was in |
| `Runs.OwedBecomesDue` | review_queue/store.py:532-548 | in every run a queued row is pending or has a schedule, so it becomes claimable |
| `Runs.FirstComeFirstServed` | review_queue/store.py:535-544 | in every reachable state a claim takes the due ticket whose row has been there longest: no push, deferral, failure or rename moves a row in the queue |
| `Runs.AlwaysInOrder` | review_queue/store.py:479-498 | because enqueue times rise with the ids, in every reachable state |
| `Runs.ReviewsAreSpaced` | review_queue/store.py:449-464 | in every run two successive review stamps of a ticket are at least the base cooldown apart, through any mix of pushes, deferrals, failures, cancels, skips, renames and restarts, unless the stamp was erased |
| `Runs.ChurnIsSpacedByItsLevel` | review_queue/store.py:516-525 | and at least the escalated cooldown of the level at which the ticket was armed as churn in between |
| `Runs.LevelCountsChurn` | review_queue/store.py:516-525 | in every reachable state a ticket's level is how often it was armed as churn since a push last found it new or past its cooldown, up to 30 |
| `Runs.EscalationSpacesReviews` | review_queue/store.py:409-424 | after n churn re-arms in a row the next one keeps the reviews at least base times factor to the n apart, up to the cap and the 30th power |
| `Runs.NoReviewWithoutPush` | review_queue/store.py:660-684 | a done, failed or cancelled ticket stays so and is not claimed until a push for its pull request is accepted |
| `Runs.FinishedSleeps` | review_queue/store.py:608-631 | a close of a waiting ticket and a clean finish leave it so |
| `Runs.SpacedStep` | review_queue/store.py:608-631 | the step invariant behind the spacing: no event but a completed review or an erased stamp lets a ticket run before its floor |
| `Runs.FinalizeSpaces` | review_queue/dispatcher.py:650-661 | a completed review establishes that floor at the claim's time plus the cooldown |
| `Runs.ChurnPushSpaces` | review_queue/store.py:461-464 | a churn push raises the floor to the escalated cooldown of its level |
| `Runs.OnlyTheFlightRuns` | review_queue/dispatcher.py:1-12 | if no exception escaped a step since the last restart, the only running ticket is the dispatcher's own, and there is at most one |
| `Runs.StrandedUntilRestart` | review_queue/store.py:505-510 | a ticket whose step an exception escaped stays running and unclaimed, whatever is pushed, until a restart |
| `Runs.DirtyIffPushed` | review_queue/store.py:505-510 | while a step is under way the dirty flag of its ticket says exactly whether a push for it was accepted since the claim |
| `Runs.RestartRunsNothing` | review_queue/store.py:1005-1013 | from any state recovery leaves nothing running, deletes nothing, and what was interrupted is pending |
| `Runs.OneTicketPerPrAlways` | review_queue/store.py:3-4 | every reachable table has one ticket per (repo, PR) and levels in 0..30 |
| `DatedRuns.AlwaysDated` | review_queue/store.py:5-6 | in every run whose clocks read dates, every enqueue time, schedule, review stamp and block is a date |
| `DatedRuns.ClaimsRunOnText` | review_queue/store.py:532-548 | so every reachable table has a text form, and the claim query on it selects the due tickets and takes the one the machine claims |
| `DatedRuns.HorizonRunsUnbroken` | review_queue/dispatcher.py:628-661 | within the horizon, if steps are broken off for dates alone, no step is, and at most one ticket is ever running |
| `DatedRuns.HorizonEnables` | review_queue/dispatcher.py:628-661 | within the horizon every push, wait, rate limit, failure and completion a reachable state attempts goes through |
| `Machine.StepKeepsOneTicketPerPr` | review_queue/store.py:477-498 | no event gives a pull request a second ticket |
| `Machine.StepKeepsInv` | review_queue/store.py:467-1013 | every event keeps the queue invariant: unique rows, bounded levels and attempts, schedules on waiting rows, the claimed row running with the counters it was claimed with, no stamp ahead of the clock |
| `Machine.AlwaysInv` | review_queue/store.py:467-1013 | so every reachable state satisfies it |
| `FailureBudget.HardFailuresTerminate` | review_queue/dispatcher.py:534-622 | between two resets of its counter a ticket has at most F+N-1 hard failures and N notice attempts, and reaching either bound means it is failed, however deferrals interleave |
| `FailureBudget.HardStopIff` | review_queue/dispatcher.py:537-622 | every hard failure of every run fails its ticket for good if and only if it is at least the F-th since the last reset and its notice was posted or was the N-th tried; otherwise the ticket is retried |
| `FailureBudget.CounterIsExact` | review_queue/store.py:581-591 | in every reachable state the counter of a ticket that has not failed for good is the number of its hard failures since the last reset |
| `FailureBudget.OnlyHardFailuresFail` | review_queue/store.py:775-789 | nothing but a hard failure of the ticket itself makes it failed |
| `FailureBudget.ResetIsFresh` | review_queue/store.py:516-525 | a new ticket, a re-arming push, a dirty finish and a dirty skip start over at no failures, waiting |
| `FailureBudget.FailureLeaves` | review_queue/dispatcher.py:537-622 | where one hard failure leaves the row, by its counter |
| `FailureBudget.FailedIsFinal` | review_queue/store.py:775-789 | a failed ticket stays failed until a push re-arms it |
| `FailureBudget.StaysWithin` | review_queue/store.py:581-591 | the measure behind it: failures and notice attempts so far are paid for by the attempts counter |
| `RateGate.BlocksOnlyGrow` | review_queue/dispatcher.py:628-634 | until a restart no provider's block time moves back |
| `RateGate.NoAttemptBeforeRetryAfter` | review_queue/dispatcher.py:511-527 | after a provider asked to wait, no attempt on it starts before both its Retry-After and the configured minimum are over |
| `RateGate.DeferralsLieAhead` | review_queue/dispatcher.py:409-415 | however a step ends, a wait, a rate limit, a failure, a dirty finalize or a skip, its ticket is not scheduled before the step's time; a wait for a block, a cap or missing tuning strictly after |
| `RateGate.WaitsAre` | review_queue/dispatcher.py:409-523 | how long each wait is: a minute for missing tuning, to a reset instant at most a day away for the cap, to the end of its block for a provider |
| `CapBound.OvershootIsOneReview` | review_queue/dispatcher.py:473-509 | with cap C and reviews of at most M tokens on a key slot whose attempts were checked, the tokens recorded for it in any window never exceed C-1+M, straddling reviews included, whatever other slots do |
| `CapBound.StaysBounded` | review_queue/dispatcher.py:473-509 | the run invariant behind it: while a checked attempt may still charge a window, the window holds at most C-1 |
| `CapBound.StartIsUnderCap` | review_queue/dispatcher.py:479-485 | passing the pre-flight check bounds the window the review will be charged to, although the query sums open-endedly |
| `CapBound.HistoryIsKept` | review_queue/store.py:736-772 | only a recorded review adds to history; every other event, renames included, keeps the number of reviews and every slot's token sum |
| `Spending.ChargedFurther` | review_queue/dispatcher.py:473-509 | a step whose attempt was checked and whose review costs at most M keeps every attempt and review of the slot paid for |
| `Spending.StartsAreChecked` | review_queue/dispatcher.py:473-527 | an attempt the step starts is the active slot's, past the provider's block, and if the cap could be checked it was, with fewer tokens in the window than the cap |
| `Dispatch.Dispatcher.RunForever` | review_queue/dispatcher.py:665-711 | of the live object over any rounds of steps, sweeps, webhooks and deaths: if the cap is refreshed and answers whenever a slot is active and its reviews cost at most M, no window records more than C-1+M tokens for it |
| `Dispatch.Dispatcher.UsageStaysBounded` | review_queue/dispatcher.py:473-509 | the bound of OvershootIsOneReview on the live object's own history |
| `Dispatch.Dispatcher.ProcessNextDue` | review_queue/dispatcher.py:330-662 | claims the oldest due ticket; starts one attempt exactly if tuning is usable, the cap is not used up and the provider is not blocked, checked under the cap whenever that could be checked; and leaves the ticket exactly where the gate, or the outcome and a push since the claim, say; it ends running if and only if a date it needed could not be computed or the installation is gone |
| `DispatchSpec.CapIsEnforced` | review_queue/dispatcher.py:473-509 | a step for a slot that has used up its cap puts the ticket back for that reason, no failure counted, to a reset instant after now and at most a day away |
| `DispatchSpec.OtherGatesAreEnforced` | review_queue/dispatcher.py:402-527 | a blocked provider puts it back to the end of the block, missing tuning for a minute |
| `DispatchSpec.HardStopIs` | review_queue/dispatcher.py:534-622 | a crashed attempt below F is retried after the backoff of its count, whatever GitHub answers; from F on it fails the ticket exactly if the notice was posted or is refused for the N-th time |
| `DispatchSpec.RateLimitLeaves` | review_queue/dispatcher.py:628-648 | a rate limit blocks the provider and defers the ticket to one instant, the later of Retry-After and the configured minimum |
| `DispatchSpec.ReviewLeaves` | review_queue/dispatcher.py:650-661 | a completed review is done, or with a push since the claim due after base times factor to its level, capped, one level up |
| `DispatchSpec.ScheduledReviewOwesNotice` | review_queue/store.py:948-995 | a re-review scheduled by a push owes a schedule notice up to its time exactly while the one shown does not say so, and marking it pays |
| `DispatchSpec.HorizonRulesOutStranding` | review_queue/dispatcher.py:628-661 | if every wait the settings or the provider can ask for ends within the calendar, no power overflows and a triple is cached, no step strands its ticket |
| `DispatchSpec.HorizonLetsPushesIn` | review_queue/store.py:461-464 | and no enqueue raises, for review stamps that are past dates, as AlwaysDated and AlwaysInv supply |
| `DispatchSpec.LongRetryAfterStrands` | review_queue/dispatcher.py:628-633 | a Retry-After of a trillion seconds or more strands the ticket and does not block the provider |
| `DispatchSpec.LongCooldownStrands` | review_queue/dispatcher.py:650-653 | a completed review under a cooldown of that length strands the ticket |
| `DispatchSpec.DirtyAtLanding` | review_queue/store.py:608-631 | the flag finalize and discard read is whether a push arrived since the claim |
| `Dispatch.Dispatcher.AtMostOneRuns` | review_queue/dispatcher.py:1-12 | of the live object: while no step was broken off since the last restart, at most one ticket is running, its own |
| `Dispatch.Dispatcher.Admit` | review_queue/dispatcher.py:399-527 | an attempt starts if and only if tuning is usable, the window's tokens are below the cap or that cannot be told, and the provider's block is over; otherwise nothing starts and the ticket is put back for the first of these reasons with no attempt charged |
| `Dispatch.Dispatcher.Settle` | review_queue/dispatcher.py:529-662 | each outcome of an attempt leads to its own row, block table and result, the dirty flag and every date that cannot be computed included |
| `Dispatch.Dispatcher.Wait` | review_queue/dispatcher.py:490-527 | a deferral is durable before the placeholder is posted, and a GitHub error there escapes with the ticket already deferred |
| `Dispatch.Dispatcher.Fail` | review_queue/dispatcher.py:534-622 | a hard failure below F is retried with one more attempt, from F on it fails the ticket once the notice is posted or refused for the N-th time, or the ticket is left running if the backoff's end is no date; the review loses its stamp exactly if the notice needed a new comment |
| `Dispatch.Dispatcher.Block` | review_queue/dispatcher.py:628-648 | a rate limit blocks the provider and defers the ticket to the same instant, at least the configured minimum away, if and only if that instant is a date; otherwise neither happens |
| `Dispatch.Dispatcher.Finalize` | review_queue/dispatcher.py:650-661 | the row is finalized with the cooldown of the claimed level and the next level, if and only if the re-review time can be computed; otherwise nothing changes |
| `Dispatch.Dispatcher.CapReached` | review_queue/dispatcher.py:473-488 | the cap is reached exactly if a check was possible and the window's tokens are at the cap; otherwise it fails open, a date that overflows included |
| `Dispatch.Dispatcher.StripNotice` | review_queue/dispatcher.py:430-456 | a taken strip clears the marker and forgets the review if its comment is gone or was recreated; a failing one changes nothing |
| `Dispatch.Dispatcher.PostNotice` | review_queue/dispatcher.py:232-256 | a taken notice is marked with the schedule it shows; a refused one leaves the row |
| `Dispatch.Dispatcher.PostPendingNotices` | review_queue/dispatcher.py:204-259 | posts exactly the tickets of one batch whose post succeeded, counts them, and touches no other row |
| `Dispatch.Dispatcher.Enqueue` | webhook.py:160-167 | an accepted trigger is one push event; an enqueue raises exactly if the date of a re-arm cannot be computed from what is cached, and then changes nothing |
| `Dispatch.Dispatcher.CloseTicket` | webhook.py:116-142 | a close cancels a queued ticket and drops its notice marker if GitHub took the footnote off |
| `Dispatch.Dispatcher.RunAttempt` | orchestrator.py:85-235 | whatever webhooks and renames happen during an attempt, the step's ticket stays claimed; a completed review is recorded last, with its slot and tokens, exactly if recording does not raise, and nothing else is |
| `Dispatch.Dispatcher.Reboot` | main.py:164 | after a restart nothing runs, memory is empty and every row still exists |
| `Store.TicketStore.EnqueueOrUpdate` | review_queue/store.py:467-526 | one row changes, or one is inserted for a new PR; raises, changing nothing, exactly for a finished reviewed row whose re-arm date cannot be computed |
| `Store.TicketStore.OldestDue` | review_queue/store.py:535-544 | the due ticket with the least enqueue time, then id, or none if none is due |
| `Store.TicketStore.ClaimNextDue` | review_queue/store.py:529-548 | claims that ticket and clears its dirty flag |
| `Store.TicketStore.DeferRateLimited` | review_queue/store.py:551-563 | deferred until the given time, attempts kept, reason cleared |
| `Store.TicketStore.DeferUsageCapped` | review_queue/store.py:566-578 | the same with the usage-cap reason |
| `Store.TicketStore.DeferFailed` | review_queue/store.py:581-591 | retrying, with one more attempt |
| `Store.TicketStore.FinalizeReview` | review_queue/store.py:594-631 | stamp and comment always; re-armed with fresh attempts if dirty, done otherwise |
| `Store.TicketStore.SetCommentId` | review_queue/store.py:634-646 | a missing id never erases a stored one |
| `Store.TicketStore.ClearVisibleReview` | review_queue/store.py:649-657 | only the stamp goes |
| `Store.TicketStore.CancelTicket` | review_queue/store.py:660-684 | cancels and returns the PR's row if and only if it is still queued |
| `Store.TicketStore.DiscardSkippedTicket` | review_queue/store.py:687-733 | requeued if dirty, else deleted if never reviewed, else done |
| `Store.TicketStore.MigrateRepoRename` | review_queue/store.py:736-772 | the three statements move every row that can move, cancel the queued rest and rename history, keeping one row per PR |
| `Store.TicketStore.MarkFailed` | review_queue/store.py:775-789 | failed, with the error |
| `Store.TicketStore.RecordReview` | review_queue/store.py:792-827 | appends to history |
| `Store.TicketStore.GetKeyUsage` | review_queue/store.py:830-864 | sums tokens of a provider's slot since an instant, a missing slot counting as slot 0 |
| `Store.TicketStore.TicketsNeedingNotice` | review_queue/store.py:948-985 | the first rows in claim order that need a notice, up to the limit |
| `Store.TicketStore.MarkNoticePosted` | review_queue/store.py:988-995 | only the marker changes |
| `Store.TicketStore.ClearNotice` | review_queue/store.py:998-1002 | only the marker goes |
| `Store.TicketStore.RecoverOnStartup` | review_queue/store.py:1005-1013 | every running row is pending and clean, every other untouched |
| `DiscardSteps.DiscardSwallowsIff` | review_queue/store.py:713-733 | a push committed while a skipped ticket is discarded is lost if and only if the ticket was reviewed before and nothing was pushed up to the second statement |
| `DiscardSteps.UninterruptedIsAtomic` | review_queue/store.py:713-733 | without a push in between, the three statements are the one atomic step |
| `DiscardSteps.LatePushIsLost` | review_queue/store.py:728-733 | a reviewed ticket, skipped, loses the push that beats the third statement |
| `RenameSteps.RenameSwallowsIff` | review_queue/store.py:752-768 | a push between the two ticket statements is still owed a review if and only if it went to another name than the old one or reached a running row that could not move; else its row is cancelled, with nothing under the new name exactly if neither name tracked the PR before |
| `RenameSteps.MovedTracks` | review_queue/store.py:752-763 | which names track a pull request after the first statement |
| `RenameSteps.FirstPushIsCancelled` | review_queue/store.py:764-768 | the first push of a new PR under the old name is cancelled and tracked nowhere |
| `Queue.RearmShape` | review_queue/store.py:449-464 | a churn push waits, never past the cap and never shorter next time; any other push is due at once at level 0 |
| `Queue.RearmIs` | review_queue/store.py:449-464 | exactly: it starts over with no failures and waits out base times factor to its level, capped, from the last review, one level up; past that, or never reviewed, it is pending at level 0 |
| `Queue.PushShape` | review_queue/store.py:505-526 | in every state a push records its head and keeps place, comment, stamp and provider; a waiting row keeps its schedule, a running one is marked dirty |
| `Queue.RecordingAdds` | review_queue/store.py:830-864 | a recorded review adds its input and output tokens to the slot that paid, slot 0 where none is stored, and nothing to any other |
| `Queue.StatementsMigrate` | review_queue/store.py:752-768 | the two ticket statements of a rename together are the per-row rule |
| `Queue.MigrationKeepsOneTicketPerPr` | review_queue/store.py:745-762 | migrated rows never collide |
| `Queue.RenameKeepsUsage` | review_queue/store.py:769-772 | a rename changes no slot's token sum |
| `Timestamps.TextOrderIsChronological` | review_queue/store.py:5-6 | text order of two stored UTC stamps, fraction present or absent, is their chronological order, and equal text is equal time |
| `Timestamps.TextOrderIsFieldOrder` | review_queue/store.py:5-6 | text order is calendar order, most significant field first |
| `Timestamps.StampOf` | review_queue/store.py:462-464 | every instant in the range has a date that names it |
| `Timestamps.DatesAreRepresentable` | review_queue/store.py:462-464 | and every date lies in the range |
| `Timestamps.TailOrder` | review_queue/store.py:5-6 | a dropped zero fraction still sorts first, because '+' is before '.' |
| `Timestamps.FieldsBeforeIsEarlier` | review_queue/store.py:5-6 | calendar order is the order of instants in the Gregorian calendar |
| `TextClaim.TextClaimIsClaim` | review_queue/store.py:532-548 | the claim query over text columns selects exactly the tickets whose time has come and orders them as over instants |
| `UsageWindow.WindowsPartitionTime` | review_queue/store.py:427-446 | every instant lies in exactly one window, the one usage_bucket_start gives |
| `UsageWindow.ResetOpensNewWindow` | review_queue/store.py:430-433 | the reset instant belongs to the new window, the one before it to the old |
| `UsageWindow.QueryCountsWindow` | review_queue/store.py:830-864 | while nothing is recorded past a window, the open-ended query is the window's sum |
| `UsageWindow.WindowEndsWithinADay` | review_queue/dispatcher.py:486-487 | a window ends at the first reset instant after now, at most a day away |
| `Cooldown.CooldownShape` | review_queue/store.py:409-419 | where it computes, cooldown is base at level 0, non-decreasing in the level and in [base, cap]; how it grows is CooldownEscalates |
| `Cooldown.CooldownEscalates` | review_queue/store.py:409-419 | each level multiplies the cooldown by the factor up to the cap, strictly growing until there if base is positive and the factor above 1, and nothing changes from level 30 on |
| `Cooldown.CooldownSpanIs` | review_queue/store.py:418-419 | in closed form: base times factor to the level, up to the cap, in microseconds |
| `Queue.CooldownEndIs` | review_queue/store.py:462 | and so the end of a cooldown wherever it computes |
| `Cooldown.SpanIsNearest` | review_queue/store.py:462 | seconds become the nearest whole number of microseconds, the even one of two |
| `Queue.CooldownEndShape` | review_queue/store.py:461-464 | the end of the cooldown: if a level has one every lower level has an earlier one, between base and cap, and every level has one if the top one does |
| `Cooldown.PowerFitsBelow` | review_queue/store.py:419 | the power is computed at every level if it is at the top one |
| `Cooldown.LargeFactorOverflows` | review_queue/store.py:419 | a factor the bounds accept whose square raises |
| `Queue.TrillionSecondsOverflow` | review_queue/dispatcher.py:633 | a trillion seconds from any date is no date |
| `Cooldown.CooldownSpanShape` | review_queue/store.py:462 | the same shape in rounded microseconds |
| `Cooldown.NextLevel` | review_queue/store.py:422-424 | the next level is one higher up to 30, and 30 from there on |
| `Cooldown.BackoffShape` | review_queue/dispatcher.py:73-83 | where it computes, backoff starts at base, is non-decreasing in the failure count and at most cap plus jitter; how it grows is BackoffDoubles |
| `Cooldown.BackoffDoubles` | review_queue/dispatcher.py:73-83 | each failure doubles the backoff up to the cap, jitter on top |
| `DispatchSpec.HorizonCoversBackoff` | review_queue/dispatcher.py:613-614 | and it computes, with an end that is a date, up to the failure ceiling within the horizon |
| `Bounds.Problems` | review_queue/cooldown_config.py:39-59 | no problem is found if and only if every column is set and in range and base is at most cap, and each problem is reported for its column; the tuning knobs use the same check |
| `ConfigRows.CooldownTableIsUsable` | review_queue/cooldown_config.py:39-59 | the table accepts exactly the rows that hold a usable triple |
| `ConfigRows.AcceptedRowsAreValid` | review_queue/dispatcher_tuning_config.py:59-92 | rows the two tables accept are settings every run theorem holds under |
| `Notices.SweepsConverge` | review_queue/dispatcher.py:230-259 | m sweeps of batch k leave at most n-m*k of n notices, and after ceil(n/k) nothing more is posted |
| `Notices.PostedOnce` | review_queue/store.py:948-985 | no ticket is posted by two sweeps |
| `Notices.PostedOrOwed` | review_queue/store.py:948-985 | while no schedule passes, every owed notice is posted by some sweep or still owed |
| `Notices.SweepSettles` | review_queue/store.py:988-995 | what a sweep posted is owed no longer, what it did not reach still is |
| `Notices.NoticeIsOwedIff` | review_queue/store.py:948-985 | a deferred ticket with a visible review and a schedule ahead is owed a notice exactly while its marker differs from that schedule, and no other ticket is |
| `DiffAnnotator.Annotate` | diff_utils.py:49-90 | the loop computes the line-by-line tagging the theorems are about; and on the joined text of safe files every added line comes out as path, a number in digits and the line, where that line of the new file holds its text, and every other line as it was |
| `DiffAnnotator.ErasingRestoresInput` | diff_utils.py:49-90 | without the prefixes every input comes back line for line |
| `DiffAnnotator.TagOnHunkLines` | diff_utils.py:74-88 | within a hunk the number is the true position plus the count of preceding removed lines starting with "--" |
| `DiffAnnotator.AnnotationIsTrueIff` | diff_utils.py:49-90 | over any rendered diff all annotations are true if and only if no hunk removes such a line before a line it tags and every path with something to tag is free of whitespace |
| `DiffAnnotator.TruthReadsTheNewFile` | diff_utils.py:49-50 | a true annotation names the new file and the line of it that holds the added text |
| `DiffAnnotator.AnnotatedTextIsTrueIff` | github_app.py:429-435 | from joined diff text to annotated text lines: the true tags' lines if and only if, besides, no diff line holds another line break and the last one is not empty; what such a line reads is AnnotatedTextPointsIntoFiles |
| `DiffAnnotator.AnnotatedTextPointsIntoFiles` | diff_utils.py:74-90 | of the text itself, for safe files: an added line reads path, digits and the line, those digits parse to a line number of the new file, and that line is the added text; every other line is the diff's |
| `Text.DigitsCountInTens` | diff_utils.py:74-76 | digits mean what they do in decimal |
| `DiffAnnotator.UnreadablePath` | diff_utils.py:56-61 | a file whose path the pattern cannot read is annotated truthfully exactly if it has nothing to tag |
| `DiffAnnotator.SpacedPathIsMislabelled` | diff_utils.py:37 | a file whose path holds a space, annotated wrongly from any state |
| `DiffAnnotator.FormFeedCutsLine` | diff_utils.py:55 | a diff, safe line by line, whose added line holds a form feed and is cut in two |
| `DiffAnnotator.RemovedDashesMisnumber` | diff_utils.py:77-79 | a well-formed one-hunk diff that is annotated wrongly |
| `DiffAnnotator.DashesShiftTheCount` | diff_utils.py:77-79 | in it line 1 is called line 2 |
| `DiffAnnotator.FileHeaderParses` | diff_utils.py:37 | the file pattern reads back every rendered path without spaces |
| `DiffAnnotator.HunkHeaderParses` | diff_utils.py:38 | the hunk pattern reads back every rendered start line, counts present or absent |
| `DiffAnnotator.AnnotateAndCap` | diff_utils.py:93-106 | the whole text within the budget, else exactly a budget's worth and the marker |
| `Footnotes.ReviewSurvivesIff` | github_app.py:73-95 | every sequence of appends and clears leaves base, or base and the last footnote, if and only if the base does not end in a footnote block |
| `Footnotes.EditsKeepReview` | github_app.py:482-526 | the edit sequences themselves, quoted markers included |
| `Footnotes.StripUndoesAppend` | github_app.py:73-95 | stripping a just-appended footnote returns exactly the right-trimmed base, whatever it quotes |
| `Footnotes.FootnoteStartIsLast` | github_app.py:79-83 | the last START marker in the body is the footnote's own |
| `Footnotes.QuotedTrailingBlockIsLost` | github_app.py:91-94 | a review ending in a quoted block loses it |
| `Footnotes.EditKeepsMarker` | github_app.py:463-466 | the comment stays findable by its marker |
| `Footnotes.FailureTextIsAngleFree` | formatting.py:216-227 | the failure footnote's text holds no marker |
| `Footnotes.ScheduleTextIsAngleFree` | formatting.py:230-257 | nor does the schedule notice's |
| `Footnotes.StripExistingFootnote` | github_app.py:73-95 | the loop over the marker pairs strips at most one trailing block, failure first |
| `Footnotes.Comment.Upsert` | github_app.py:455-469 | the stored body always carries the marker, added only if missing |
| `Footnotes.Comment.AppendFootnote` | github_app.py:472-505 | replaces any trailing footnote, or starts a marked comment |
| `Footnotes.Comment.ClearNotice` | github_app.py:508-526 | edits if and only if there is a footnote to strip |
| `Arming.UnsoundIffHalfSwitched` | dashboard/environment.py:929-1036 | an unprobed or failing pair goes live if and only if a provider switch is written and the key index sent with it is not |
| `Arming.ArmingIsSound` | dashboard/environment.py:831-926 | with slots in range and no failing write, whatever pair goes live was probed, has a stored model and its probe found no problem |
| `Arming.FailingProbesArmNothing` | dashboard/environment.py:911-947 | if no pair a PATCH arms passes its probe, the live pair stays, whichever writes raise |
| `Arming.FailedProbeChangesNothing` | dashboard/environment.py:914-947 | a switch to a provider whose stored model the probe does not find writes nothing |
| `Arming.ResendingProbesNothing` | dashboard/environment.py:843-848 | a PATCH that re-sends stored values probes nothing |
| `Arming.UnsoundIffOutOfRange` | dashboard/environment.py:1021-1036 | with no failing write, exactly if the switch comes with an out-of-range slot that has a stored model and passes its probe |
| `Arming.OutOfRangeSlotArmsUnprobed` | dashboard/environment.py:1025-1027 | a PATCH with slot 7, for which a row with a model is stored, makes an unprobed slot 0 live; without the row the same PATCH is refused |
| `Arming.PatchesKeepSettingsReadable` | dashboard/environment.py:955-1074 | no sequence of PATCHes, whichever writes raise, turns settings the readers accept into ones they discard: cooldown, usage cap and tuning |
| `Arming.AcceptablePatchIsStored` | dashboard/environment.py:955-1074 | submitted fields that give settings every reader accepts are stored in full, with every other field as it was |
| `Arming.ConfigStore.ArmingProbeTargets` | dashboard/environment.py:831-908 | probes exactly the pairs a changed field arms for a provider that is or becomes active |
| `Arming.ConfigStore.ArmingProblems` | dashboard/environment.py:911-926 | a field fails exactly if it arms a pair without a stored model, with model_required, or one whose probe names a problem, with that problem |
| `Arming.ConfigStore.ApplyConfigPatch` | dashboard/environment.py:929-1074 | which columns and settings a PATCH leaves behind, raising writes included, and that exactly the written provider and index fields are reported applied |
| `Arming.ConfigStore.ApplySettings` | dashboard/environment.py:955-1074 | each group is merged, checked as a whole and written whole or not at all |
| `Credentials.SlotVarsDiffer` | providers/registry.py:88-101 | no two slots share a variable |
| `Credentials.SlotIndexForVar` | config_deps.py:53-64 | the slot a variable occupies, or none |
| `Credentials.DanglesIffDepended` | config_deps.py:87-128 | taking away a variable leaves something dangling if and only if dependents_of finds a dependent |
| `Credentials.CascadeIsSound` | dashboard/environment.py:1143-1223 | a confirmed delete never changes the live pair and leaves nothing dangling if and only if its writes went through |
| `Credentials.OnlyItsOwnIsCleared` | dashboard/environment.py:1203-1215 | a delete clears its own slot's row and the override that points at it, as far as writes work, and touches no other |
| `Credentials.FailedClearDangles` | dashboard/environment.py:1205-1215 | a spare key whose override cannot be cleared leaves the override dangling |
| `Credentials.Credentials.CascadeDelete` | dashboard/environment.py:1143-1223 | the active credential is always refused, dependents need confirmation, the invariant and the live pair are kept |
| `Credentials.Credentials.BulkDelete` | dashboard/environment.py:565-601 | exactly the unprotected, dependency-free variables before the first delete that raises are deleted, in order, and the invariant is kept |
| `Credentials.KeptAreDeletable` | dashboard/environment.py:568-592 | those are all the deletable ones, and only those |
| `DeliveryCache.TouchUpdates` | webhook.py:58-82 | a touch of the 1000 most recent distinct ids moves a hit to the end and evicts the oldest on a full miss |
| `DeliveryCache.RememberedIsDistinct` | webhook.py:49-50 | the cache never exceeds 1000 and holds no duplicate |
| `DeliveryCache.RememberedWhileRecent` | webhook.py:49-82 | a handled id is remembered until 1000 other ids were touched after it |
| `DeliveryCache.Dedup.IsDuplicate` | webhook.py:58-66 | a hit is touched, a miss marks nothing |
| `DeliveryCache.Dedup.MarkProcessed` | webhook.py:69-82 | a new id is touched, a known one keeps its place |
| `DeliveryCache.Dedup.Deliver` | webhook.py:184-197 | after every delivery the cache equals the recency history, and an id whose handling raised is absent |
| `EnvMerge.MergeEnv` | scripts/init_env.py:84-120 | the two loops compute the line merge the lemmas are about |
| `EnvMerge.MergeIsMapUpdate` | scripts/init_env.py:84-120 | line by line, an updated key is defined once by its new line, any other keeps its first line, every other line survives in order |
| `EnvText.FileIsMapUpdateIff` | scripts/init_env.py:84-120 | and so of the written file, read back, if and only if no value holds a line break |
| `EnvMerge.MergeHasNoDuplicates` | scripts/init_env.py:97-102 | no key is defined by two merged lines, whatever the file looked like |
| `EnvText.FilesHaveNoDuplicatesIff` | scripts/init_env.py:97-102 | and so of every written file, read back, if and only if no value breaks off a line that defines a key |
| `EnvMerge.MergeIsIdempotent` | scripts/init_env.py:84-120 | merging the same updates twice is merging them once, line by line |
| `EnvText.MergingTextTwiceIff` | scripts/init_env.py:84-120 | and byte for byte on every file if and only if each line a value breaks off defines that value's own key |
| `EnvText.PlainValuesMergeOnce` | scripts/init_env.py:84-120 | so for values without line breaks, on every file |
| `EnvText.OneUpdateIsIdempotentIff` | scripts/init_env.py:84-120 | for one update, of any name: if and only if, besides, the key fits the name pattern |
| `EnvText.PastedBreaksFail` | scripts/init_env.py:178-186 | two values without a newline that the prompt can return, one that grows the file on every run and one that plants a second key |
| `EnvMerge.NewLineDefines` | scripts/init_env.py:35-37 | a written line reads back as its own key |
| `EnvMerge.ExportedLineDefines` | scripts/init_env.py:37 | indented or behind export and blanks a line defines the same key, and commented out none |

## Left out

- Machine.StepKeepsInv: treats each store function as one atomic step; DiscardSteps and RenameSteps say what that hides for the three-statement discard and the rename's two ticket statements.
- Runs.ReviewsAreSpaced: the cooldown triple is fixed for the run and event clocks never go back; changing the configuration mid-run is not modelled.
- Runs.NoPushSwallowed: a push whose enqueue raised is not an accepted push; GitHub's redelivery of it is outside the queue.
- Dispatch.Dispatcher.RunForever: its clock lies between the second and the last but one day of the calendar, where both ends of a usage window are dates; the webhook's own work and the throttled refreshes between rounds are not modelled further.
- CapBound.OvershootIsOneReview: attempts on the slot whose cap check failed open are excluded, since nothing bounds them.
- RateGate.BlocksOnlyGrow: between restarts only, because the block table is process memory.
- Dispatch.Dispatcher.ProcessNextDue: store calls succeed, and webhooks arrive at three points of the step (after the claim, during the attempt, after it); the machine lets them arrive anywhere and covers failing store calls by Abandon. The installation check may only answer by ending the process.
- Dispatch.Dispatcher.RunAttempt: a record is written under the name the ticket was claimed with, as in the source, even if a rename was migrated just before.
- Dispatch.Dispatcher.Block: a Retry-After is a real number; an infinite one raises like one past the calendar.
- Notices.SweepsConverge: for sweeps whose posts all succeed with no other event in between; single sweeps with failing posts are covered by Dispatch.Dispatcher.PostPendingNotices.
- Timestamps.TextOrderIsChronological: text is compared by code point; a database collation that orders '+', '.' or digits differently is not modelled.
- Cooldown.CooldownShape: real arithmetic; floating-point rounding, also at the very edge of the float range, and infinite or NaN settings are not modelled.
- Cooldown.CooldownEscalates: likewise.
- Cooldown.BackoffShape: likewise.
- Cooldown.BackoffDoubles: likewise.
- DiffAnnotator.AnnotationIsTrueIff: renamed files show one path on both sides as fetch_pr_diff writes them; lines between a file header and its first hunk look like neither headers nor added lines; digits are ASCII.
- Footnotes.ReviewSurvivesIff: finding the comment (id, author, scan) and GitHub's own normalisation of bodies are outside the model.
- Arming.ConfigStore.ApplyConfigPatch: reads of the stored settings do not raise; what a probe answers and which texts are times of day are parameters.
- Credentials.Credentials.CascadeDelete: providers and slots outside the three families and slots 0 to 4 are not modelled, nor is the deploy it triggers.
- Credentials.Credentials.BulkDelete: the sets of the same PATCH come after the deletes and touch no dependency.
- DeliveryCache.Dedup.Deliver: deliveries are handled one after another; two concurrent deliveries of one id can both be handled.
- EnvText.MergingTextTwiceIff: with several updates, update keys fit the name pattern, as the script's own key list guarantees; OneUpdateIsIdempotentIff shows what happens to others. Reading the file may translate line ends before the merge sees them.
- The webhook's choice between trigger, cancel and ignore, the merging of the three specialists' results and the usage cap's parsing of stored text are not modelled.
- Postgres (locks, pool, schema, row security), GitHub, Render, provider SDKs, HMAC, login, prompts, Markdown layout, dashboard pages, deployment scripts: outcomes are parameters, the rest is absent.
- The dispatcher's idle sleep and its throttled refreshes: timing only.
