# Alerting engine and sampler: a verified model

This project models the alerting engine of the repository (`internal/alert`) and the consistent probability sampler of
its Go agent (`agents/go/sampler.go`) in Dafny, and proves what they are for. `dafny verify dfyconfig.toml` checks all
of it.

What the engine's pieces do is modelled branch by branch. Pieces that compute a value are functions. Pieces that update
fields, rows or lists in place are classes and methods with loops, each proved equal to a specification function. The
main theorems are about those functions: about every run of the state machine, every interleaving of evaluators, API
calls and dispatchers over the database, and every text, month, grid or schedule. The modules named `Laws`, and
`MuteCoverage`, say of each operation what it answers in terms of its inputs alone, so that a branch that takes the wrong
way in an operation and in its specification alike contradicts a law.

| files | component |
|---|---|
| `Series`, `SeriesLaws`, `SeriesRuns` | the ok/pending/firing machine of one series, what each step answers, and what holds along every run |
| `Plan`, `PlanLaws`, `Preview`, `PreviewLaws`, `PreviewRefinement` | one evaluation's change set and who is told; the preview's dense run; when the two agree |
| `Tables`, `TableLaws`, `Protocol`, `ProtocolLaws`, `ProtocolSafety`, `ProtocolWitness`, `Store` | rules, leases, series rows and incidents; every interleaving of commits with manual and administrative changes |
| `Outbox`, `OutboxLaws`, `OutboxSafety`, `OutboxStore`, `NotificationKeys` | the notification outbox under any number of dispatchers, and its idempotency keys |
| `AnomalyScore`, `AnomalyLaws`, `AnomalyGrid`, `GridLaws` | median and deviation scores; the compact baseline grid against plain minutes |
| `Windows`, `WindowLaws`, `Ranges`, `RangeLaws`, `Percentiles` | bucketed aggregation against aggregation of the points; ranges against single evaluations |
| `Recurrence`, `RecurrenceText`, `RecurrenceLaws`, `MonthlyDates`, `Calendar`, `CalendarLaws`, `MuteSchedules`, `MuteCoverage`, `Mutes`, `MuteHorizon` | recurrence rules, the days they select, the times a mute covers, the search for the active or next mute window, and what it misses |
| `EvaluationWriter`, `TenantBudget`, `LeaseShare`, `SeriesKeys` | the buffered writer, the organization budget, the fair share of leases, series identity |
| `Thresholds`, `Sampler`, `SamplerLaws` | 56-bit thresholds, the `ot` tracestate member and the root decision |
| `Base`, `Arithmetic`, `Text` | shared values, integer facts, and the text operations of Go's standard library |

Conventions. Instants and durations are integers (nanoseconds), a zero time and a NaN are explicit "no value" cases,
floating-point values are reals, and time zones have a fixed offset. Every SQL statement or transaction is one atomic
step on tables that are maps. Clocks, drawn ids, random bits, routing decisions, the receiver's answer and the rows a
query returns are parameters.

Where the code limits what can be claimed, the model keeps the code and the statement says so:

- Commits are fenced by the instance name, not by a claim epoch. One incident per series therefore needs the hypothesis
  that an owner held the lease from reading the rows to committing; `ProtocolWitness.InterruptedOwnerLosesIncident` is a
  run without it that ends with an incident no row refers to. Strictly advancing windows need no such hypothesis.
- An absent series in state ok has no row and is not stepped. Preview and evaluator agree on every run exactly when
  missing data never breaches: `PreviewRefinement.PreviewAgreesExactly` states this as an if and only if.
- At most ten transitions are kept, while thresholds up to twenty are accepted: `SeriesRuns.FlappingIsExact` shows that
  thresholds above ten never take effect and all others are exact.
- A failed evaluation advances the committed window without stepping a series; the protocol has it as an event, and in
  the runs of a series a step is told the last committed end. A pending timer goes on exactly when that end is near
  (`SeriesRuns.TimerGoesOnExactly`), so it outlives an outage of failed evaluations (`SeriesRuns.OutageKeepsTimer`).
- Re-notification sends only to incident channels that are still among the rule's own channels: all are reached exactly
  when each is one of them (`Plan.RenotifiesAllExactly`), and an incident that routing sent elsewhere is counted as
  re-notified although nobody is told (`Plan.RoutedChannelIsForgotten`).
- The search for a mute window looks at most 800 days ahead, so "no further occurrence" can be wrong:
  `MuteHorizon.NextOccurrenceIsMissed` is an accepted monthly rule without exceptions whose next occurrence is four years
  away. `MuteSchedules.SearchMissesExactly` gives the exact condition, and for weekly schedules without exceptions
  `MuteSchedules.WeeklySearchIsComplete` shows that nothing is ever missed.
- A sampled trace can lose its threshold: when the incoming `ot` member leaves no room for it (an over-long `rv`), or when
  dropping sub-keys leaves a value that ends in a space. `Sampler.SampledWithoutThreshold` has both inputs;
  `Sampler.DownstreamDecodesKeep` and `Sampler.LaterRootsAgree` state as an if and only if when readers decode the
  sampling probability and later roots agree. `Sampler.NewTraceIsStorable` shows that new traces always do.

## Model

| member | source | states |
|---|---|---|
| `Series.ValidateThreshold` | internal/alert/filters.go:267-295 | a rule is refused exactly without a threshold, with an unknown operator or a recovery threshold on the breaching side; an accepted judge breaches exactly beyond the threshold, recovers exactly beyond the recovery threshold on the other side, never both, and leaves a band between exactly when the two differ |
| `Series.PruneTransitions` | internal/alert/state.go:202-214 | the loop keeps exactly the transitions inside the flapping window (the default window when none is set), in order |
| `Series.Observe` | internal/alert/state.go:80-109 | reading a present or missing value under each missing-data mode, including the kept value and its expiry |
| `Series.Recover` | internal/alert/state.go:150-171 | the recovery branch: the hold, its flapping extension and the resolve reason |
| `Series.RunStep` | internal/alert/state.go:68-190 | the in-place step equals the step function that all run theorems are about, for every state, input and configuration |
| `Series.IncidentStep` | internal/alert/state.go:68-190 | a step leaves the incident of a series alone or, exactly when it resolves, forgets it; a firing series stays firing and persisted until then, and only a series that is not firing opens |
| `SeriesLaws.OkSeries` | internal/alert/state.go:127-136 | an ok series opens on a breach without a for-duration, becomes pending on one with it, and else stays ok, in every missing-data mode |
| `SeriesLaws.PendingSeries` | internal/alert/state.go:137-145 | a pending series opens exactly when it breaches and its timer, restarted after a gap, has run for the for-duration; any other judged value ends it |
| `SeriesLaws.FiringSeries` | internal/alert/state.go:146-175 | a firing series resolves exactly with reason no-data or expired on the missing data that says so, at once, and as recovered when its recovery has lasted the hold; phase, transition, timer and flapping report follow |
| `SeriesLaws.MissingResolvesFiring` | internal/alert/state.go:95-109 | in every run a step without data resolves a firing series with no-data in mode ok, with expired in mode expire, in keep mode with expired exactly when the last data is too old, and never when missing data breaches |
| `SeriesLaws.MissingEndsPending` | internal/alert/state.go:95-109 | in every run such a step makes a pending series ok in the modes ok and expire, and in keep mode exactly when the last data is too old |
| `SeriesLaws.MissingReasonsAreExact` | internal/alert/state.go:95-109 | in every run a resolve with reason no-data or expired happens on such a step of a firing series only |
| `SeriesLaws.NotificationClock` | internal/alert/state.go:112-190 | an open starts the notification clock and clears the other timers, a resolve clears all of them, nothing else moves it |
| `SeriesLaws.LastSeen` | internal/alert/state.go:80-100 | last value and last data time after every step; missing data read as zero counts as seen, no other does |
| `SeriesLaws.RowIsKept` | internal/alert/state.go:177-190 | a row is written exactly while the series is not ok or has history, and removed exactly when it was stored and is not written; kept missing data touches no ok series |
| `SeriesRuns.OpenIsBacked` | internal/alert/state.go:68-190 | in every run an open with a for-duration is backed by a stretch at least that long in which every evaluation that stepped the series breached or kept a missing value and none came too long after the last committed window |
| `SeriesRuns.BreachStretchOpens` | internal/alert/state.go:68-190 | conversely such a stretch opens an incident no later than its end, unless keep mode gives up on a step of it, because its data is missing and the last data is older than the expiry |
| `SeriesRuns.ExpiryEndsPending` | internal/alert/state.go:101-108 | and a step that keep mode gives up on does end a pending series |
| `SeriesRuns.StepsAreASchedule` | internal/alert/evaluator.go:240-246 | the steps of a series over the evaluations of its rule, failed ones skipped, form a run whose steps are told the last committed end |
| `SeriesRuns.TimerGoesOnExactly` | internal/alert/state.go:75-77 | a pending timer goes on exactly when the step is not too long after the last committed window |
| `SeriesRuns.OutageKeepsTimer` | internal/alert/evaluator.go:240-246 | two breaching evaluations any time apart open an incident when failed evaluations were committed in between |
| `SeriesRuns.RecoveryIsBacked` | internal/alert/state.go:146-175 | a resolve as recovered is backed by a stretch of the recovery hold (the longer flapping hold when flapping) without a breach and without a value in the hysteresis band |
| `SeriesRuns.RecoveryStretchResolves` | internal/alert/state.go:146-175 | conversely a recovery stretch as long as the longest hold resolves the incident no later than its end |
| `SeriesRuns.OpensAndResolvesAlternate` | internal/alert/state.go:68-190 | along every run opens and resolves strictly alternate, starting with an open |
| `SeriesRuns.FlappingIsExact` | internal/alert/state.go:202-222 | despite pruning, the ten-entry cap and unwritten rows, flapping is reported exactly when the threshold is at most ten and the full history has that many entries into firing inside the window |
| `Plan.BuildPlan` | internal/alert/plan.go:180-329 | the change set steps every stored or sampled series once and no other, with the effect of each as specified |
| `Plan.Derive` | internal/alert/plan.go:236-326 | the switch from one outcome to opens, resolves, flapping marks, re-notifications and the row to write |
| `PlanLaws.SeriesStartsOver` | internal/alert/plan.go:214-240 | a series without a row or whose incident is gone starts over: it opens exactly on a breach without a for-duration and resolves nothing |
| `PlanLaws.SeriesGoesOn` | internal/alert/plan.go:214-289 | any other series opens, resolves, is written and is removed exactly as its step from the stored row says, with the stored incident and the reason of the step |
| `PlanLaws.OpenIsTold` | internal/alert/plan.go:245-267 | when the evaluation opens an incident, each routed channel gets one opened notification, in order, with the drawn id and number 0; these channels are stored with the incident and the row refers to it |
| `PlanLaws.ResolveIsTold` | internal/alert/plan.go:268-289 | when it resolves one, each channel the loaded incident was opened with gets one resolved notification, in order |
| `PlanLaws.RenotifyIsTold` | internal/alert/plan.go:290-317 | otherwise notifications are queued only when re-notification is due, which needs a firing series with an open incident, an interval and a count below the limit; then they carry the next number, and the clock restarts; if it is not due there are none |
| `PlanLaws.FlappingIsMarkedOnce` | internal/alert/plan.go:290-297 | an incident is marked as flapping exactly when a longer hold keeps its series firing and it is not marked yet |
| `Plan.NoticesLoop` | internal/alert/plan.go:409-440 | one notification per channel, in channel order, all with the incident, kind and number |
| `Plan.RenotifyLoop` | internal/alert/plan.go:309-316 | re-notifications go to the incident's channels that are still channels of the rule |
| `Plan.KnownIsFilter` | internal/alert/plan.go:311-316 | each channel is told as often as the incident lists it if it is one of the rule's, and not otherwise |
| `Plan.KnownConcat` | internal/alert/plan.go:311-316 | in the order the incident lists them |
| `Plan.RenotifiesAllExactly` | internal/alert/plan.go:298-316 | a re-notification reaches every channel of the incident exactly when each is a channel of the rule |
| `Plan.RoutedChannelIsForgotten` | internal/alert/plan.go:310-316 | an input whose incident was routed to another channel: it counts as re-notified and nobody is told |
| `Preview.Simulate` | internal/alert/preview.go:89-130 | the preview's transitions and incidents are those of the dense run that keeps every series |
| `Preview.AmendIncidents` | internal/alert/preview.go:115-127 | opening, resolving and tracking the peak of the preview's last incident |
| `PreviewLaws.IncidentsAreExact` | internal/alert/preview.go:89-130 | the preview lists one incident for each open, in order: it starts at that end, ends at the first resolve after it or not at all, and its peak is the worst value from the open on until something ended it |
| `PreviewLaws.TransitionsAreExact` | internal/alert/preview.go:107-114 | and one transition for each change of phase, in order, with its time, phase and value |
| `PreviewLaws.WorseIsFurther` | internal/alert/preview.go:133-138 | a value worse than a breaching one breaches, and a breaching one is worse than any that does not, for every operator |
| `PreviewRefinement.PreviewAgrees` | internal/alert/preview.go:89-130 | for every rule whose missing data never breaches, every run and series, the evaluator that drops ok rows reports the same transitions, opens and resolves at every end as the preview |
| `PreviewRefinement.MissingBreachDiffers` | internal/alert/plan.go:214-235 | when missing data breaches, a concrete two-evaluation run on which they differ |
| `PreviewRefinement.PreviewAgreesExactly` | internal/alert/state.go:177-190 | preview and evaluator agree on all runs if and only if missing data never breaches |
| `PreviewRefinement.AgreesAt` | internal/alert/plan.go:214-327 | the simulation step: stored rows represent the dense states before and after every evaluation |
| `Store.PGStore.Commit` | internal/alert/pgstore_eval.go:329-401 | a commit is refused for a lost lease, a stale window, an outdated rule, a conflicting or a dangling incident, in that order, and then changes and queues nothing; otherwise all tables change as one and exactly the notifications of the change set are queued |
| `TableLaws.CommitIsAcceptedExactly` | internal/alert/pgstore_eval.go:329-352 | a commit is accepted exactly by the holder of a lease that has not run out, for a window after the last committed one, of the loaded version of an enabled rule, with opens that are new to the tables and rows that refer to stored incidents |
| `TableLaws.CommittedRowsAreExact` | internal/alert/pgstore_eval.go:354-401 | an accepted commit notes its window; each series row is the written one, gone, or as before, as the change set says; other rules do not change |
| `TableLaws.CommittedIncidentsAreExact` | internal/alert/pgstore_eval.go:354-401 | the incidents after it are those before and those opened, each for its rule, series and channels; exactly the named ones become resolved or flapping, and all others stay |
| `TableLaws.JoinedIsExact` | internal/alert/pgstore_eval.go:256-300 | loaded rows are the stored ones, with the state and channels of an incident exactly when it is still stored |
| `Store.InsertOpens` | internal/alert/pgstore_eval.go:329-401 | inserts succeed exactly when ids are new and no series of the rule has an unresolved incident |
| `Store.MarkResolved` | internal/alert/pgstore_eval.go:329-401 | exactly the incidents named by the change set become resolved |
| `Store.MarkFlapping` | internal/alert/pgstore_eval.go:329-401 | exactly the incidents named by the change set get the flapping flag, which is never cleared |
| `Store.WriteRows` | internal/alert/pgstore_eval.go:329-401 | removals and upserts of series rows; other rows stay |
| `Store.PGStore.ResolveRuleIncidents` | internal/alert/pgstore_api.go:242-271 | all unresolved incidents of the rule are resolved, its series rows removed, and one resolved notification queued for each channel of each; nothing else changes |
| `Store.PGStore.EditRule` | internal/alert/pgstore_api.go:284-334 | from the old tables alone: an edit is refused for a missing rule or another version; an accepted one sets enabled and raises the version, and resolves every incident of the rule, tells their channels and empties its rows exactly when the condition changed or the rule goes from enabled to disabled; otherwise incidents and rows stay |
| `Store.PGStore.SwitchRule` | internal/alert/pgstore_api.go:336-371 | enabling and disabling is that edit without a condition change, and nothing at all when the rule already is so |
| `TableLaws.SwitchIsExact` | internal/alert/pgstore_api.go:336-371 | the same of the step that the protocol takes |
| `Store.PGStore.RemoveRule` | internal/alert/pgstore_api.go:373-393 | deletion removes the rule, resolves its incidents, tells their channels and keeps the incidents without the rule; other rules and incidents stay |
| `Store.PGStore.ManualResolve` | internal/alert/pgstore_api.go:611-664 | a manual resolve succeeds exactly on an unresolved incident: it is resolved, the row that refers to it is removed and no other, and its channels are told |
| `Store.PGStore.AcknowledgeIncident` | internal/alert/pgstore_api.go:564-609 | an acknowledge succeeds exactly on an open incident, changes its state only, and tells those of its channels that track incidents |
| `TableLaws.AcknowledgeIsExact` | internal/alert/pgstore_api.go:564-609 | the same of the step that the protocol takes |
| `TableLaws.PruneIsExact` | internal/alert/pgstore_eval.go:756-766 | pruning removes resolved incidents only, and a row loses no more than its reference to one |
| `Store.ResolveNotifications` | internal/alert/plan.go:434-440 | one resolved notification for each channel of the incident, in order |
| `Store.AckNotifications` | internal/alert/plan.go:422-432 | acknowledged notifications exactly for the channels that track incidents |
| `ProtocolLaws.DisabledRulesAreQuiet` | internal/alert/pgstore_api.go:284-393 | in every state of every run, whoever owns the leases, a rule that is disabled or deleted has no unresolved incident and no series rows |
| `ProtocolLaws.LeaseStaysWithHolder` | internal/alert/pgstore_eval.go:92-176 | a lease that has not run out leaves its holder only by the holder releasing it, leaving or renewing a disabled rule, or with the rule |
| `ProtocolLaws.ClaimsAndRenewalsLast` | internal/alert/pgstore_eval.go:117-176 | exactly the picked enabled rules whose lease ran out are claimed, until now plus the asked time; renewals and releases change exactly the leases held |
| `ProtocolLaws.OnlyHoldersCommit` | internal/alert/pgstore_eval.go:329-352 | in every run a commit changes the tables only while its evaluator holds a lease that has not run out on the enabled rule, planned at its present version |
| `ProtocolSafety.RunKeepsInv` | internal/alert/pgstore_eval.go:329-401 | the protocol invariant over tables, in-flight evaluations and the commit log holds in every state of every run of uninterrupted owners |
| `ProtocolSafety.OneIncidentPerSeries` | internal/alert/pgstore_eval.go:329-401 | in every interleaving of lease changes, commits, edits, disables, deletes, acknowledges, manual resolves and pruning, a series has at most one unresolved incident, and each is referred to by exactly one row, the firing row of its series |
| `ProtocolSafety.WindowsAdvance` | internal/alert/pgstore_eval.go:329-352 | the committed window ends of a rule strictly increase in every interleaving, without any hypothesis on owners |
| `ProtocolSafety.IndexNeverRefuses` | internal/alert/pgstore_eval.go:354-401 | the unique index on open incidents never has to refuse the commit of an uninterrupted owner |
| `ProtocolSafety.ManualResolveKeeps` | internal/alert/pgstore_api.go:611-664 | a manual resolve between load and commit keeps the invariant, in-flight evaluations included |
| `ProtocolSafety.UpdateKeeps` | internal/alert/pgstore_api.go:284-371 | so does every edit, enable and disable |
| `ProtocolSafety.DeleteKeeps` | internal/alert/pgstore_api.go:373-393 | so does deleting a rule |
| `ProtocolSafety.AckKeeps` | internal/alert/pgstore_api.go:564-609 | so does an acknowledge |
| `ProtocolSafety.LeaseEvents` | internal/alert/pgstore_eval.go:92-176 | so do renew, claim, release and leave |
| `ProtocolWitness.InterruptedOwnerLosesIncident` | internal/alert/pgstore_eval.go:329-348 | the hypothesis is needed: a valid run of two evaluators that ends with an unresolved incident no row refers to |
| `Outbox.Process` | internal/alert/dispatcher.go:227-298 | a row is sent if and only if its channel exists, secrets and payload can be read, and it is a test or nothing suppresses, mutes or fails it; a row goes back to pending only when muted (until the end of the mute) or when attempts are left |
| `Outbox.RetryOrFail` | internal/alert/dispatcher.go:300-309 | a row is retried exactly while attempts and age are below their limits, and fails otherwise |
| `Outbox.Deliver` | internal/alert/dispatcher.go:263-298 | a row is delivered exactly when it was sent and accepted, and retried only while attempts are left |
| `OutboxLaws.ProcessIsExact` | internal/alert/dispatcher.go:227-309 | when a row is sent, suppressed, failed, delivered and retried: five exact conditions over the row, what was read for it and the world |
| `OutboxLaws.NextAttemptIsExact` | internal/alert/dispatcher.go:276-309 | a muted row waits for the end of the mute and remembers it, a failed attempt for the backoff or the longer wait the receiver asked for |
| `OutboxLaws.DecisionIsRecorded` | internal/alert/pgstore_eval.go:590-631 | in every run what was decided is what the row gets when its finish is accepted, whatever happens in between |
| `OutboxLaws.ClearedOpeningIsDelivered` | internal/alert/dispatcher.go:263-292 | in every run a claimed opening on an enabled channel, of a stored incident, neither muted nor resolved after a mute, with readable secrets and payload and answered Ok, ends delivered when its finish is accepted |
| `OutboxLaws.DueIsExact` | internal/alert/pgstore_eval.go:486-520 | a row is due exactly when it is pending, its time has come and every older row of its incident and channel is finished |
| `OutboxLaws.OldestIsDue` | internal/alert/pgstore_eval.go:486-520 | no thread is stuck: before every unfinished row there is an oldest unfinished one, which is due as soon as it is pending and its time has come |
| `OutboxLaws.PendingRowWaits` | internal/alert/pgstore_eval.go:461-631 | in every run a pending row keeps its time until it is claimed, and is not claimed earlier |
| `OutboxLaws.ClaimIsExact` | internal/alert/pgstore_eval.go:520-577 | exactly the picked due rows are marked as being sent, for the asked time and with one more attempt |
| `OutboxLaws.RequeueIsExact` | internal/alert/pgstore_eval.go:461-465 | exactly the claims that ran out are taken back, and nothing else about them |
| `OutboxLaws.FinishIsExact` | internal/alert/pgstore_eval.go:590-631 | an accepted finish ends the claim and records status, next time or end time of that row only |
| `OutboxLaws.InsertIsExact` | internal/alert/pgstore_eval.go:415-422 | a notification becomes a pending row that is due at once, unless its channel is deleted or its key is taken |
| `OutboxSafety.RunKeepsInv` | internal/alert/pgstore_eval.go:461-631 | the outbox invariant holds in every state of every run of any number of dispatchers, crashes and lost claims included |
| `OutboxSafety.OlderRowsAreFinished` | internal/alert/pgstore_eval.go:486-577 | once a row was claimed, all stored older rows of its incident and channel are finished |
| `OutboxSafety.FinishedStaysFinished` | internal/alert/pgstore_eval.go:590-631 | a finished row never changes again in any run; it can only be removed, and its number is not reused |
| `OutboxSafety.UpdatesFollowDeliveredOpening` | internal/alert/dispatcher.go:227-298 | every acknowledged, re-notify or resolved send is preceded by that channel's opening being recorded as delivered |
| `OutboxSafety.AcceptedSendsAreBounded` | internal/alert/dispatcher.go:300-309 | at most the maximum number of attempts of a row's sends is ever recorded, however often claims are lost |
| `OutboxStore.OutboxTable.RequeueExpired` | internal/alert/pgstore_eval.go:461-465 | exactly the claims that ran out go back to pending, and their number is returned |
| `OutboxStore.OutboxTable.ClaimDeliveries` | internal/alert/pgstore_eval.go:486-577 | at most the limit, only due rows, and none left behind that is due earlier, or at the same time and older; each is marked as being sent |
| `OutboxStore.OutboxTable.FinishDelivery` | internal/alert/pgstore_eval.go:590-631 | an outcome is recorded exactly while the row is still claimed by the dispatcher |
| `OutboxStore.OutboxTable.Write` | internal/alert/pgstore_eval.go:415-422 | a notification is stored once per idempotency key |
| `NotificationKeys.KeysIdentifyNotifications` | internal/alert/plan.go:355-361 | two notifications have the same key exactly when incident, kind and channel agree and, for re-notifications, the number; incident ids hold no colon, channel ids may |
| `NotificationKeys.OneRowPerNotification` | internal/alert/pgstore_eval.go:415-422 | in every run an incident has at most one opening, acknowledgement and resolution row per channel, and rows of one kind and channel have different keys |
| `OutboxStore.FirstDue` | internal/alert/pgstore_eval.go:486-577 | the rows a claim picks: distinct, due, in order, and as many as there are up to the limit |
| `AnomalyScore.MedianOf` | internal/alert/cond_anomaly.go:628-638 | the median lies in every interval that holds more than half of the values |
| `AnomalyScore.MedianInMajority` | internal/alert/cond_anomaly.go:628-638 | the same of the specification, whatever the other samples are |
| `AnomalyScore.MadInMajority` | internal/alert/cond_anomaly.go:594-626 | the median absolute deviation is at most the width of such an interval |
| `AnomalyScore.ScaleOf` | internal/alert/cond_anomaly.go:594-626 | centre and floored scale of the samples |
| `AnomalyScore.ComputeScore` | internal/alert/cond_anomaly.go:594-626 | the score of a value, with no score for too few samples |
| `AnomalyScore.BreachIsExact` | internal/alert/cond_anomaly.go:594-626 | the score reaches 1 exactly when the deviation is positive, at least the minimum and at least the band |
| `AnomalyScore.OutliersCannotHide` | internal/alert/cond_anomaly.go:594-638 | for every direction, with a majority of samples in an interval, a value far enough outside it is reported, and one on the safe side of it or nearer than the minimum deviation scores 0, whatever the rest is |
| `AnomalyLaws.MedianIsMiddle` | internal/alert/cond_anomaly.go:628-638 | the median is the middle of the values in order, or the mean of the two middle ones, and there is only one such order |
| `AnomalyLaws.ScoreIsExact` | internal/alert/cond_anomaly.go:594-626 | the score is the deviation in the watched direction over sensitivity times the larger of scaled median absolute deviation and floor, capped at a million; 0 on the safe side and below the minimum |
| `AnomalyLaws.StaysBelowOne` | internal/alert/cond_anomaly.go:594-626 | it stays below 1 exactly when the deviation is not positive, below the minimum or inside that band |
| `AnomalyLaws.NoScoreExactly` | internal/alert/cond_anomaly.go:594-600 | there is no score exactly without a current value or with too few samples |
| `AnomalyGrid.IndexInside` | internal/alert/cond_anomaly.go:295-319 | every position lies inside the compact array |
| `AnomalyGrid.IndexInjective` | internal/alert/cond_anomaly.go:303-319 | two minutes never share a position |
| `AnomalyGrid.SliceHoldsWindow` | internal/alert/cond_anomaly.go:321-331 | for every end and lag, in the dense and the sparse layout, the slice lies inside the array, is as long as the window and holds its minutes in time order |
| `AnomalyGrid.SliceHoldsNothingElse` | internal/alert/cond_anomaly.go:321-331 | and no other minute |
| `AnomalyGrid.RestrictionIsExact` | internal/alert/cond_anomaly.go:333-347 | the query reads exactly the rows whose minute has a place in the grid |
| `AnomalyGrid.Fill` | internal/alert/cond_anomaly.go:366-440 | the filled array stores, for every placed minute, its last row or the empty bucket |
| `AnomalyGrid.ScoreAt` | internal/alert/cond_anomaly.go:641-655 | scores from the compact array equal scores over a plain minute array |
| `AnomalyGrid.PreviewScoresLikeEvaluation` | internal/alert/cond_anomaly.go:671-726 | the preview's score at every end is the evaluation's score at that end against as many of its latest lags as the preview kept, and the evaluation's score itself when none were trimmed |
| `GridLaws.BaselineIsExact` | internal/alert/cond_anomaly.go:641-655 | in absolute minutes: the score of an end compares the window just before it with the windows of the same length that end whole periods earlier, one for each lag that has a value |
| `GridLaws.BucketIsExact` | internal/alert/cond_anomaly.go:333-337 | bucket b holds exactly the rows from b + 1 up to b minutes before the anchor |
| `AnomalyGrid.TrimLags` | internal/alert/cond_anomaly.go:703-706 | trimming keeps as many lags as fit the limit, never fewer than required, and reports exactly whether it dropped any |
| `Windows.WindowValue` | internal/alert/window.go:43-100 | the one-pass combination of buckets is the value of their merge |
| `WindowLaws.AggregationsMean` | internal/alert/window.go:43-100 | each aggregation on the points of a window: mean, sum, extremes that are points of it and bound all, latest, count, and the increase per second |
| `WindowLaws.NoValueExactly` | internal/alert/window.go:43-132 | a window has no value exactly without points (or with no time for a rate), and a group exactly without values |
| `WindowLaws.SumOfParts` | internal/alert/window.go:43-100 | sums add up over parts |
| `WindowLaws.IncreaseOfParts` | internal/alert/window.go:60-85 | the increase counts every step up and takes a step down as a reset |
| `WindowLaws.IncreaseWithoutReset` | internal/alert/window.go:60-85 | without a reset it is the last point less the first |
| `Windows.SummaryConcat` | internal/alert/window.go:43-100 | merging the summaries of two stretches is the summary of the whole, the reset-aware increase across the boundary included |
| `Windows.BucketsDoNotMatter` | internal/alert/window.go:43-100 | however points are cut into consecutive buckets, the combined value is the one computed from the points |
| `Windows.AggregateSeries` | internal/alert/window.go:103-132 | average, sum, minimum or maximum of the values that exist, none when there are none |
| `WindowLaws.GroupAggregationsMean` | internal/alert/window.go:103-132 | across series: the sum, the mean, and the extremes that are values of the group and bound all |
| `Windows.AggregateOrder` | internal/alert/window.go:103-132 | the aggregate does not depend on the order of the series |
| `Ranges.RangeEnds` | internal/alert/filters.go:313-319 | all ends after the start in whole steps, and none missing up to the last |
| `RangeLaws.WithinIsExact` | internal/alert/cond_metric.go:106-202 | a window holds exactly the points from its start up to, but not at, its end, as often as they occur |
| `RangeLaws.WithinKeepsOrder` | internal/alert/cond_metric.go:106-202 | and in order |
| `RangeLaws.GroupValues` | internal/alert/cond_metric.go:219-230 | a group aggregates the window values of its series that exist |
| `Ranges.ChunksJoin` | internal/alert/cond_metric.go:106-202 | consecutive buckets hold exactly the points of the time they cover, in order |
| `Ranges.ValueAt` | internal/alert/cond_metric.go:223-229 | for every aggregation but the percentiles, a group's value over a range of buckets is its value over the points of that time |
| `Ranges.EvaluateMetric` | internal/alert/cond_metric.go:232-250 | an evaluation is the aggregate of the points in the window before its end |
| `Ranges.RangeMetric` | internal/alert/cond_metric.go:252-281 | every value of a range is the evaluation at its end over the window rounded up to whole steps; without the approximate mark, which is set exactly when the step does not divide the window, it is the evaluation itself |
| `Percentiles.CombineQuantiles` | internal/alert/window.go:136-166 | the combined value is a bucket's percentile, the buckets up to it have at least the wanted share of the points and those below it less; there is none exactly when no bucket has points |
| `Percentiles.QuantileIsUnique` | internal/alert/window.go:154-166 | and there is only one such value, however equal buckets are sorted |
| `Percentiles.PercentileAt` | internal/alert/cond_metric.go:219-222 | the percentile branch of a group's value; for a single bucket it is the percentile of its points |
| `Percentiles.EvaluatePercentile` | internal/alert/cond_metric.go:232-250 | an evaluation is the percentile of the points in the window before its end |
| `Percentiles.RangePercentile` | internal/alert/cond_metric.go:252-281 | every value of a range combines the buckets before its end; it is marked approximate exactly when the window is not one step, and otherwise it is the evaluation itself |
| `Ranges.GroupOrderDoesNotMatter` | internal/alert/cond_metric.go:204-230 | a group's value does not depend on the order its series are visited in |
| `Ranges.SilentSeriesDoNotMatter` | internal/alert/cond_metric.go:219-230 | a series without points in the window may as well be missing from the group |
| `Ranges.LastSeenRange` | internal/alert/cond_nodata.go:212-233 | ages of a range are those an evaluation at each end sees, exactly so when the step divides the lookback |
| `RangeLaws.AgeIsExact` | internal/alert/cond_nodata.go:166-233 | the age is the time from the last data in the lookback to the end in whole milliseconds, and there is none exactly without data in it |
| `Ranges.PresenceJoin` | internal/alert/cond_discovery.go:187-194 | presence in consecutive buckets is presence in the time they cover |
| `Ranges.AnyIn` | internal/alert/cond_discovery.go:187-194 | presence in a bucket range clamped to the slice |
| `Ranges.BucketEvent` | internal/alert/cond_discovery.go:198-213 | the event of two bucket ranges: an item in neither has no value, an event needs the host to have reported |
| `RangeLaws.DiscoveryIsExact` | internal/alert/cond_discovery.go:187-213 | no value for an item seen in neither period; a port is new exactly when seen in the recent one only while the host reported before, a process gone exactly when seen in the earlier one only while the host reports now |
| `Ranges.EvaluateDiscovery` | internal/alert/cond_discovery.go:247-293 | an evaluation over two single buckets is the event over the two periods before its end |
| `Ranges.RangeDiscovery` | internal/alert/cond_discovery.go:331-375 | every value of a range is the evaluation at its end over periods rounded up to whole steps, and the evaluation itself when the step divides both, although it is always marked approximate |
| `Recurrence.ParseIntList` | internal/alert/mute_rrule.go:52-67 | the loop with its duplicate map yields the specified list or the first invalid value |
| `Recurrence.IntListIsExact` | internal/alert/mute_rrule.go:52-67 | a list is accepted exactly when each value is, and holds the named values once each, in increasing order |
| `Recurrence.ParseByDay` | internal/alert/mute_rrule.go:118-140 | weekday codes with optional positions, each once, or the first invalid one |
| `Recurrence.SortedDaysValid` | internal/alert/mute_rrule.go:141-148 | sorting keeps the same valid days, Monday first and then by position |
| `Recurrence.ReadParts` | internal/alert/mute_rrule.go:81-117 | the loop over parts: invalid, duplicate, unsupported and badly valued parts are refused where they occur |
| `Recurrence.NormalizedDays` | internal/alert/mute_schedule.go:70-84 | each weekday once, Monday first |
| `Recurrence.ParseRecurrence` | internal/alert/mute_rrule.go:81-204 | the whole parser with all its error paths equals the specification the round trip is about |
| `RecurrenceLaws.SpacesDoNotMatter` | internal/alert/mute_rrule.go:81-88 | spaces around a text change nothing |
| `RecurrenceLaws.CaseDoesNotMatter` | internal/alert/mute_rrule.go:81-88 | texts that differ in case only are parsed alike, errors included |
| `RecurrenceLaws.PrefixDoesNotMatter` | internal/alert/mute_rrule.go:81-88 | an accepted rule is also parsed behind `RRULE:` |
| `RecurrenceLaws.PartsAreExact` | internal/alert/mute_rrule.go:89-117 | the parts are read exactly when each is empty or sets one of the five names to a value allowed for it, and none is set twice |
| `RecurrenceLaws.PartIsRead` | internal/alert/mute_rrule.go:89-117 | each part counts for its name, wherever it stands |
| `RecurrenceLaws.NothingIsRead` | internal/alert/mute_rrule.go:89-117 | and a name that no part sets is left empty |
| `RecurrenceLaws.DayIsExact` | internal/alert/mute_rrule.go:118-140 | a BYDAY value stands for a day exactly as its weekday code, with its position of 1 to 5 from either end in front |
| `RecurrenceLaws.FrequenciesAreExact` | internal/alert/mute_rrule.go:149-204 | a daily rule takes no lists, a weekly one exactly weekdays without positions, a monthly one weekdays or month days; anything else is refused |
| `RecurrenceLaws.BuiltRuleIsExact` | internal/alert/mute_rrule.go:149-204 | the rule holds its lists and the weekdays it takes place on |
| `RecurrenceText.ParsedIsAccepted` | internal/alert/mute_rrule.go:81-204 | every parsed rule has strictly ordered lists within bounds and is rebuilt from them |
| `RecurrenceText.AcceptedReadsBack` | internal/alert/mute_rrule.go:149-204 | every such rule is parsed from its normalized text |
| `RecurrenceText.NormalizationRoundTrip` | internal/alert/mute_rrule.go:81-204 | the normalized text of every accepted text parses to the same rule and normalizes to itself; two accepted texts normalize alike exactly when they are the same rule |
| `MonthlyDates.Ordinals` | internal/alert/mute_rrule.go:221-251 | the division formulas are the day's count among the days with its weekday, from the front and from the back, for any month length and first weekday |
| `MonthlyDates.IsCandidate` | internal/alert/mute_rrule.go:221-251 | a day passes exactly when it is a listed month day (from either end) and the n-th, n-th from last or any listed weekday |
| `MonthlyDates.ListCandidates` | internal/alert/mute_rrule.go:260-266 | the list holds exactly the month's candidates, each at the index of its rank |
| `MonthlyDates.Matches` | internal/alert/mute_rrule.go:255-277 | a date is selected exactly when it is a candidate and, with set positions, its rank from the front or the back is listed |
| `Calendar.FirstOfMonth` | internal/alert/mute_rrule.go:255-258 | the day from which a month's first weekday is taken is the first of that month |
| `CalendarLaws.YearsBegin` | internal/alert/mute_rrule.go:216-218 | every year, before 1970 and after, begins 365 days and the leap days of the Gregorian calendar after 1970 |
| `CalendarLaws.DateIsExact` | internal/alert/mute_rrule.go:216-218 | the day number of every date, in closed form |
| `MuteSchedules.ParseClock` | internal/alert/mute_schedule.go:58-68 | an accepted clock time is a minute of the day |
| `MuteSchedules.OccurrenceOn` | internal/alert/mute_schedule.go:232-243 | an occurrence starts on its local day, is never empty and lasts at most a day; `MuteCoverage.OccurrenceInLocalTime` says from when to when |
| `MuteCoverage.ClockIsRead` | internal/alert/mute_schedule.go:58-68 | every two-digit `hh:mm` of a day is read as minute 60 hh + mm |
| `MuteCoverage.OccurrenceInLocalTime` | internal/alert/mute_schedule.go:232-243 | an occurrence runs in local time from the start minute of its day to the end minute of that day or, when that is not later, of the next |
| `MuteCoverage.CoverageInLocalTime` | internal/alert/mute_schedule.go:232-281 | within the bounds an instant is covered exactly when its local minute lies in [start, end) of a date that starts; overnight, exactly when it lies at or after the start of such a date or before the end of the date after one |
| `MuteCoverage.ActiveInLocalTime` | internal/alert/mute_schedule.go:247-281 | the window that the search returns holds exactly these instants |
| `MuteSchedules.WindowIsFirst` | internal/alert/mute_schedule.go:247-281 | the search returns the first clipped occurrence that ends after the instant, of all that start before the horizon, and nothing exactly when there is none |
| `MuteSchedules.WindowIsInBounds` | internal/alert/mute_schedule.go:247-281 | a returned window is not empty, lies within the schedule's bounds and ends after the instant, and every other occurrence that does comes after it |
| `MuteSchedules.ActiveIffCovered` | internal/alert/mute_schedule.go:247-281 | an instant is covered by some allowed occurrence within the bounds exactly when the returned window holds it, with no horizon |
| `MuteSchedules.WeeklySearchIsComplete` | internal/alert/mute_schedule.go:254-256 | for weekly schedules without exceptions no window found means no later occurrence at all |
| `MuteSchedules.SearchStopsAtHorizon` | internal/alert/mute_schedule.go:247-281 | the search returns the next occurrence of all there are exactly when its day is before the horizon, and nothing otherwise |
| `MuteSchedules.SearchMissesExactly` | internal/alert/mute_schedule.go:254-281 | an occurrence still to end is reported as none exactly when the next one starts at or past the horizon |
| `MuteHorizon.RuleIsAccepted` | internal/alert/mute_rrule.go:81-204 | the text of a monthly rule that selects one day in four years is accepted and stored as it is |
| `MuteHorizon.RuleSelects` | internal/alert/mute_rrule.go:255-277 | it selects the 17th of a month of 29 days and nothing else |
| `MuteHorizon.NextOccurrenceIsMissed` | internal/alert/mute_schedule.go:254-281 | its schedule has an occurrence on 17 February 1976, and the search at 18 February 1972 finds none |
| `MuteSchedules.WeekdayRuleIsWeekly` | internal/alert/mute_schedule.go:212-218 | a monthly rule that lists weekdays without positions starts on exactly the days of the weekly schedule that names them |
| `MuteSchedules.ChainIncreases` | internal/alert/holidays.go:127-138 | listed occurrences are disjoint and increasing |
| `MuteSchedules.ChainIsComplete` | internal/alert/holidays.go:127-138 | no occurrence is left out: one that ends after the instant is listed or comes after the whole list |
| `Mutes.StoredRuleIsTheRule` | internal/alert/mute_schedule.go:189-199 | the rule re-read from the stored text is the accepted one, and is used exactly for monthly schedules |
| `Mutes.MuteSchedule.FromRule` | internal/alert/mute_schedule.go:97-108 | a validated schedule caches the rule its stored text stands for |
| `Mutes.MuteSchedule.Recurrence` | internal/alert/mute_schedule.go:189-199 | the cached rule is always the one the stored text stands for |
| `Mutes.MuteSchedule.Starts` | internal/alert/mute_schedule.go:212-227 | an occurrence starts on a day exactly when the rule or weekday matches and the date is no exception or holiday |
| `MuteCoverage.StartsAreExact` | internal/alert/mute_schedule.go:212-227 | a date starts exactly when its weekday is listed, or the monthly rule selects it, and neither an exception date nor a holiday of that year or every year is on it |
| `Mutes.MuteSchedule.Window` | internal/alert/mute_schedule.go:247-281 | the day-by-day loop equals the specified search |
| `Mutes.MuteSchedule.Occurrences` | internal/alert/holidays.go:127-138 | each listed window is the one found at the end of the one before, and the list stops short only when none is left |
| `Mutes.ActiveIsCovered` | internal/alert/mutes.go:126-140 | a mute is active exactly in its fixed window or at the instants its schedule covers |
| `Mutes.MatchesMute` | internal/alert/mutes.go:143-174 | a mute applies exactly when it names the rule or none and every matcher holds |
| `MuteCoverage.MatchersAreExact` | internal/alert/mutes.go:143-174 | each matcher compares the label it names, and a missing label satisfies only "not equal" |
| `Mutes.MatchingMute` | internal/alert/mutes.go:178-191 | the first of the active, applying mutes that end last, carrying its occurrence; none exactly when there is none |
| `EvaluationWriter.Configure` | internal/alert/evalhistory.go:111-136 | a batch size that is not positive becomes 10000, a buffer smaller than a batch becomes the larger of a batch and 100000, so the buffer can always hold a batch |
| `EvaluationWriter.NoRowIsLostUnseen` | internal/alert/evalhistory.go:139-222 | in every run rows added are the rows written, dropped, buffered and in retry, no row is two of these, and buffer and retry stay within the limit |
| `EvaluationWriter.WrittenInArrivalOrder` | internal/alert/evalhistory.go:185-222 | rows are written in arrival order and before everything that waits |
| `EvaluationWriter.StoredOnce` | internal/alert/evalhistory.go:185-222 | the sink holds every written row and none twice, even if a failed insert had taken effect, and never a dropped one |
| `EvaluationWriter.AddIsExact` | internal/alert/evalhistory.go:139-162 | adding appends the rows and drops from the front exactly as many as exceed the limit beside the failed batch |
| `EvaluationWriter.TakeIsExact` | internal/alert/evalhistory.go:185-205 | a flush takes the failed batch under its token, else the oldest rows, as many as fit a batch, under a new one |
| `EvaluationWriter.OutcomesAreExact` | internal/alert/evalhistory.go:205-222 | a batch is written exactly when its insert succeeds and is kept when it fails; the sink takes a token once |
| `EvaluationWriter.Writer.AddRows` | internal/alert/evalhistory.go:139-162 | adding drops the oldest buffered rows that do not fit and reports a full batch |
| `EvaluationWriter.Writer.Flush` | internal/alert/evalhistory.go:185-222 | a flush takes the failed batch again under its token or the next rows under a new one |
| `TenantBudget.Budget.Acquire` | internal/alert/evaluator.go:377-394 | refill, cap and grant of the token bucket in place |
| `TenantBudget.AcquireIsExact` | internal/alert/evaluator.go:377-394 | an acquire succeeds exactly when another evaluation may run and a whole token is there after the refill, and then takes both; other organizations are not touched |
| `TenantBudget.RefusedOnlyWhenSpent` | internal/alert/evaluator.go:377-394 | in every run an organization below its running limit is refused only when it was granted its whole rate since any event at least a minute ago |
| `TenantBudget.FirstIsGranted` | internal/alert/evaluator.go:377-394 | and a first acquire is granted |
| `TenantBudget.Budget.Release` | internal/alert/evaluator.go:396-402 | a release never takes the running count below zero |
| `TenantBudget.BucketsStayInBounds` | internal/alert/evaluator.go:377-402 | tokens stay between 0 and the rate and the running count within its maximum, in every run |
| `TenantBudget.RateIsBounded` | internal/alert/evaluator.go:377-394 | in any stretch of a run with a non-decreasing clock the grants are at most the rate times the minutes plus one full bucket |
| `TenantBudget.RunningIsExact` | internal/alert/evaluator.go:377-402 | the running count is the grants minus the paired releases and never exceeds the maximum |
| `LeaseShare.LeaseTable.Renew` | internal/alert/pgstore_eval.go:117-129 | the evaluator keeps exactly the leases of enabled rules, which end `ttl` from now, gives up those of disabled ones, and nothing else changes, row by row |
| `LeaseShare.LeaseTable.ClaimRules` | internal/alert/pgstore_eval.go:142-156 | as many claimable rules as asked for and available, those due first |
| `LeaseShare.LeaseTable.ReleaseRules` | internal/alert/pgstore_eval.go:158-176 | as many held rules as asked for and held, those due last |
| `LeaseShare.ShareIsLeast` | internal/alert/lease.go:65-75 | the share is the least number of leases with which the live evaluators hold all rules |
| `LeaseShare.MergedIsExact` | internal/alert/lease.go:106-112 | after a round each rule has the lease end of the table and the schedule that lies further ahead, with its last end |
| `LeaseShare.LeaseManager.Tick` | internal/alert/lease.go:60-118 | after a round the evaluator knows what it holds, never more than its share, and exactly its share when enough can be claimed; of each rule it knows the returned lease, with its own schedule where that is the later one |
| `LeaseShare.LeaseManager.Rebalance` | internal/alert/lease.go:79-98 | what is above the share is released, what is missing to it is claimed as far as there is something to claim |
| `LeaseShare.MergeLocal` | internal/alert/lease.go:106-112 | a locally known schedule is kept exactly while it is later than the returned one |
| `LeaseShare.LeaseManager.Scheduled` | internal/alert/lease.go:135-145 | the next evaluation of a held rule is noted, and the last end only if there is one |
| `LeaseShare.LeaseManager.Owned` | internal/alert/lease.go:121-132 | exactly the leases that still last, in the order of their next evaluation |
| `LeaseShare.SomeoneIsBelowShare` | internal/alert/lease.go:60-118 | while a rule is held by nobody and no dead evaluator holds one, some live evaluator is below its share |
| `LeaseShare.IdleRuleLeadsToClaim` | internal/alert/lease.go:60-118 | so its next round claims a rule |
| `SeriesKeys.BuildKey` | internal/alert/filters.go:250-264 | the builder writes the escaped dimension values in order |
| `SeriesKeys.KeysIdentifySeries` | internal/alert/filters.go:250-264 | two series of a condition have the same key exactly when all dimension values agree, for any strings, and none takes the key of the dimensionless series |
| `Thresholds.ThresholdRoundTrip` | agents/go/sampler.go:151-167 | every threshold below 2^56 is parsed back from its 1 to 14 hexadecimal digits |
| `Thresholds.EncodingIsShortest` | agents/go/sampler.go:151-167 | no shorter text is parsed as the same threshold |
| `Thresholds.SamplingIsConsistent` | agents/go/sampler.go:46-56 | a higher ratio samples every randomness value a lower one samples, for all ratios |
| `Thresholds.ExactlyKeepPass` | agents/go/sampler.go:93-109 | exactly `keep` of the 2^56 values pass, within one of ratio times 2^56, and never none of a positive ratio |
| `Sampler.ParseOT` | agents/go/sampler.go:174-185 | the sub-key list of a value, in order, without malformed parts |
| `Sampler.Render` | agents/go/sampler.go:245-256 | the rendered list the round trip is about |
| `Sampler.ParseInvertsRender` | agents/go/sampler.go:174-256 | parsing undoes rendering exactly on lists of well-formed fields |
| `Sampler.RemoveKey` | agents/go/sampler.go:235-243 | the loop removes every field of the key and keeps the others in order |
| `Sampler.GetWithout` | agents/go/sampler.go:187-243 | removing a key leaves every other one readable and none of its own |
| `Sampler.FitIsLargest` | agents/go/sampler.go:262-272 | what is stored is `th`, `rv` and the longest first stretch of the other fields, in order, that fits 256 characters; nothing is stored exactly when no such list fits |
| `Sampler.WithOT` | agents/go/sampler.go:262-281 | the dropping loop terminates and stores that list, deletes the member for an empty one, and otherwise leaves the tracestate alone |
| `Sampler.StoredReadsBack` | agents/go/sampler.go:262-281 | the value and member limits hold after every store, and a reader finds the stored list |
| `Sampler.ShouldSample` | agents/go/sampler.go:74-132 | the decision and the tracestate it hands on, for each kind of root, with and without written randomness |
| `SamplerLaws.DecisionIsExact` | agents/go/sampler.go:111-132 | for ratios between 0 and 1: a written `rv` decides, else fresh bits if they are to be written, else the trace id; sampled exactly when it is at least 2^56 less the share kept |
| `SamplerLaws.ConstantRootsAreExact` | agents/go/sampler.go:45-91 | ratios of 1 and more sample everything, those of 0 and less nothing, and the tracestate changes only by a missing `rv` that is to be written |
| `SamplerLaws.ProbabilityIsExact` | agents/go/sampler.go:213-228 | the probability a reader decodes from `th`, else from the legacy exponent, else none |
| `SamplerLaws.PartsAreExact` | agents/go/sampler.go:174-185 | a part without a colon or a key is skipped, any other is split at its first colon |
| `SamplerLaws.WithIsInFront` | agents/go/sampler.go:231-243 | a set sub-key stands in front, in place of all that had its key, and every other field is there as often as before |
| `SamplerLaws.WithoutKeepsOrder` | agents/go/sampler.go:235-243 | removing a sub-key keeps the order of the others |
| `SamplerLaws.OtherMembersStay` | agents/go/sampler.go:262-281 | storing `ot` touches no other member of the tracestate, unless the list was full without it |
| `Sampler.DownstreamDecodesKeep` | agents/go/sampler.go:111-228 | whoever reads the tracestate of a sampled trace decodes `keep`/2^56, and that of a dropped one finds no threshold, exactly when what the root wants to hand on can be stored or the tracestate said so before |
| `Sampler.LaterRootsAgree` | agents/go/sampler.go:111-132 | every later root decides by the randomness that was to be written exactly when it could be stored or was there before, or the later root takes all or nothing |
| `Sampler.HigherRatioSamplesMore` | agents/go/sampler.go:111-132 | a later root with a higher ratio then samples whatever the first one sampled |
| `Sampler.SampledWithoutThreshold` | agents/go/sampler.go:262-281 | two valid incoming members, for every ratio between 0 and 1, under which a sampled trace goes on as it came, without its threshold |
| `Sampler.NewTraceIsStorable` | agents/go/sampler.go:262-281 | the tracestate of a trace without an `ot` member is always stored |

## Left out

- HTTP handlers, JSON shapes, the UI, the other agents, the `cmd` entry points and the `notify`, `secrets`, `apm`, `slo` and `oql` packages: plumbing, or contracts that are not modelled here.
- SQL text and row scanning: statements are atomic steps on maps; row-lock contention (`SKIP LOCKED`) is not modelled.
- Time zones with daylight saving: occurrences are modelled in fixed-offset zones, where a start and an end always leave time between them.
- Floating-point rounding: values are reals, so sums, averages, medians and ratios are exact; the scaling of a ratio by 2^56 is exact in the source as well.
- Case folding and spaces in recurrence texts follow Unicode only where the result can be part of an accepted text; the folding of rule ids and matcher values of mutes is a parameter.
- The payloads of notifications (which channel is told of which incident, kind and number is modelled), incident labels, summaries, timeline events and audit rows: they carry text only and take no part in the properties.
- Backoff jitter, timers and goroutine scheduling: the wait is a parameter, and rounds are events of a run.
- Test deliveries are decided by `Outbox.Process`, but the rows a channel test records are not written by the model.
- The alignment of evaluation ends (`AlignedEnd`, `Phase`): an easy single-branch member.
- Template, channel, route and rule validation other than thresholds and recurrence rules: long but shallow branching.
- LeaseShare.LeaseManager.Tick: assumes an accurate count of live evaluators, given as a parameter in place of the heartbeat table.
